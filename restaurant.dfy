/**
 * One restaurant: its fixed identity and opening hours, its ordered menu of
 * priced items, the cost of a selection of item names, and whether it is open
 * at a given time of day.
 */
module Restaurants {
  import opened Lookup

  /** A time of day in whole seconds after midnight. */
  type Time = t: int | 0 <= t < 86400

  /** The time of day hh:mm:ss. */
  function TimeOfDay(h: int, m: int, s: int): (t: Time)
    requires 0 <= h < 24 && 0 <= m < 60 && 0 <= s < 60
    ensures t / 3600 == h && t % 3600 / 60 == m && t % 60 == s
  {
    h * 3600 + m * 60 + s
  }

  /** Times of day compare as their (hours, minutes, seconds) triples do, lexicographically. */
  lemma TimeOfDayOrder(h1: int, m1: int, s1: int, h2: int, m2: int, s2: int)
    requires 0 <= h1 < 24 && 0 <= m1 < 60 && 0 <= s1 < 60
    requires 0 <= h2 < 24 && 0 <= m2 < 60 && 0 <= s2 < 60
    ensures TimeOfDay(h1, m1, s1) < TimeOfDay(h2, m2, s2) <==>
              h1 < h2 || (h1 == h2 && (m1 < m2 || (m1 == m2 && s1 < s2)))
  {
  }

  /** A menu entry: an item name and its price in whole currency units. */
  datatype Item = Item(name: string, price: int)

  /** The names on a menu, in menu order. */
  function ItemNames(menu: seq<Item>): (names: seq<string>)
    ensures |names| == |menu|
    ensures forall i :: 0 <= i < |menu| ==> names[i] == menu[i].name
  {
    seq(|menu|, i requires 0 <= i < |menu| => menu[i].name)
  }

  lemma ItemNamesRemoveAt(menu: seq<Item>, i: nat)
    requires i < |menu|
    ensures ItemNames(RemoveAt(menu, i)) == RemoveAt(ItemNames(menu), i)
  {
  }

  /** Every name of the selection is on the menu. */
  predicate OnMenu(menu: seq<Item>, selected: seq<string>)
  {
    forall n :: n in selected ==> n in ItemNames(menu)
  }

  /** The price of the item a lookup by `name` finds: the first menu entry with that name. */
  function PriceOf(menu: seq<Item>, name: string): (p: int)
    requires name in ItemNames(menu)
    ensures Item(name, p) in menu
  {
    menu[FirstIndex(ItemNames(menu), name)].price
  }

  /** With unique item names the price found is the price of the one item with that name. */
  lemma PriceOfUnique(menu: seq<Item>, name: string, price: int)
    requires NoDuplicates(ItemNames(menu))
    requires Item(name, price) in menu
    ensures name in ItemNames(menu) && PriceOf(menu, name) == price
  {
  }

  /** The cost of a selection: each selected name is priced by lookup, once per occurrence. */
  function Cost(menu: seq<Item>, selected: seq<string>): int
    requires OnMenu(menu, selected)
  {
    if selected == [] then 0 else PriceOf(menu, selected[0]) + Cost(menu, selected[1..])
  }

  /** A selection of one name costs that item's price. */
  lemma CostSingle(menu: seq<Item>, name: string)
    requires name in ItemNames(menu)
    ensures OnMenu(menu, [name]) && Cost(menu, [name]) == PriceOf(menu, name)
  {
  }

  /** Cost is additive over concatenation of selections. */
  lemma {:induction false} CostAppend(menu: seq<Item>, a: seq<string>, b: seq<string>)
    requires OnMenu(menu, a) && OnMenu(menu, b)
    ensures OnMenu(menu, a + b)
    ensures Cost(menu, a + b) == Cost(menu, a) + Cost(menu, b)
  {
    if a == [] {
      assert a + b == b;
    } else {
      assert (a + b)[0] == a[0];
      assert (a + b)[1..] == a[1..] + b;
      CostAppend(menu, a[1..], b);
    }
  }

  /** Taking one name out of a selection lowers its cost by exactly that item's price. */
  lemma {:induction false} CostRemoveAt(menu: seq<Item>, selected: seq<string>, i: nat)
    requires OnMenu(menu, selected) && i < |selected|
    ensures OnMenu(menu, RemoveAt(selected, i))
    ensures Cost(menu, selected) == PriceOf(menu, selected[i]) + Cost(menu, RemoveAt(selected, i))
  {
    var front, x, back := selected[..i], selected[i], selected[i + 1..];
    assert selected == front + ([x] + back);
    assert RemoveAt(selected, i) == front + back;
    CostAppend(menu, front, [x] + back);
    CostAppend(menu, [x], back);
    CostSingle(menu, x);
    CostAppend(menu, front, back);
  }

  /** Cost does not depend on the order of the selection. */
  lemma {:induction false} CostPermutation(menu: seq<Item>, a: seq<string>, b: seq<string>)
    requires OnMenu(menu, a) && multiset(a) == multiset(b)
    ensures OnMenu(menu, b)
    ensures Cost(menu, a) == Cost(menu, b)
  {
    forall n | n in b
      ensures n in ItemNames(menu)
    {
      assert n in multiset(a);
    }
    if a != [] {
      var x, rest := a[0], a[1..];
      assert a == [x] + rest;
      assert x in multiset(b);
      var i := FirstIndex(b, x);
      var b' := RemoveAt(b, i);
      RemoveAtMultiset(b, i);
      assert multiset(rest) == multiset(b');
      assert OnMenu(menu, rest);
      CostPermutation(menu, rest, b');
      CostRemoveAt(menu, b, i);
    }
  }

  /** When every item on the menu is priced above 0, any non-empty selection costs more than 0. */
  lemma {:induction false} CostPositive(menu: seq<Item>, selected: seq<string>)
    requires OnMenu(menu, selected) && selected != []
    requires forall it :: it in menu ==> it.price > 0
    ensures Cost(menu, selected) > 0
  {
    if selected[1..] != [] {
      CostPositive(menu, selected[1..]);
    }
  }

  /** Removing the first entry named `name` takes exactly one entry of that name off the menu; with unique names none is left. */
  lemma RemoveItemByName(menu: seq<Item>, name: string)
    requires name in ItemNames(menu)
    ensures multiset(ItemNames(RemoveAt(menu, FirstIndex(ItemNames(menu), name)))) ==
              multiset(ItemNames(menu)) - multiset{name}
    ensures NoDuplicates(ItemNames(menu)) ==>
              name !in ItemNames(RemoveAt(menu, FirstIndex(ItemNames(menu), name)))
  {
    var i := FirstIndex(ItemNames(menu), name);
    ItemNamesRemoveAt(menu, i);
    RemoveAtMultiset(ItemNames(menu), i);
    if NoDuplicates(ItemNames(menu)) {
      RemoveUniqueKey(ItemNames(menu), name);
    }
  }

  /** Appending an item leaves the cost of every selection already on the menu unchanged. */
  lemma {:induction false} CostAfterAppend(menu: seq<Item>, item: Item, selected: seq<string>)
    requires OnMenu(menu, selected)
    ensures OnMenu(menu + [item], selected)
    ensures Cost(menu + [item], selected) == Cost(menu, selected)
  {
    var menu' := menu + [item];
    assert forall i :: 0 <= i < |menu| ==> ItemNames(menu')[i] == ItemNames(menu)[i];
    forall n | n in ItemNames(menu)
      ensures n in ItemNames(menu') && PriceOf(menu', n) == PriceOf(menu, n)
    {
      var i := FirstIndex(ItemNames(menu), n);
      assert ItemNames(menu')[i] == n;
      var i' := FirstIndex(ItemNames(menu'), n);
      assert i' == i;
    }
    if selected != [] {
      CostAfterAppend(menu, item, selected[1..]);
    }
  }

  /** After appending an item under a new name, looking that name up finds the new item's price. */
  lemma PriceOfNewItem(menu: seq<Item>, item: Item)
    requires item.name !in ItemNames(menu)
    ensures item.name in ItemNames(menu + [item])
    ensures PriceOf(menu + [item], item.name) == item.price
  {
    assert ItemNames(menu + [item])[|menu|] == item.name;
  }

  /** A restaurant: name, location and opening hours fixed at construction, and a menu changed in place. */
  class Restaurant {
    const name: string
    const location: string
    const openingTime: Time
    const closingTime: Time
    var menu: seq<Item>

    /** A restaurant with an empty menu. */
    constructor (name: string, location: string, openingTime: Time, closingTime: Time)
      ensures this.name == name && this.location == location
      ensures this.openingTime == openingTime && this.closingTime == closingTime
      ensures menu == []
    {
      this.name := name;
      this.location := location;
      this.openingTime := openingTime;
      this.closingTime := closingTime;
      menu := [];
    }

    /** Appends the item to the end of the menu. */
    method AddToMenu(itemName: string, price: int)
      modifies this
      ensures menu == old(menu) + [Item(itemName, price)]
    {
      menu := menu + [Item(itemName, price)];
    }

    /**
     * Deletes the first menu entry named `itemName`, keeping the order of the rest;
     * fails with ItemNotFound, changing nothing, when no entry has that name.
     */
    method RemoveFromMenu(itemName: string) returns (r: Outcome)
      modifies this
      ensures itemName in ItemNames(old(menu)) ==>
                r == Pass && menu == RemoveAt(old(menu), FirstIndex(ItemNames(old(menu)), itemName))
      ensures itemName !in ItemNames(old(menu)) ==> r == Fail(ItemNotFound) && menu == old(menu)
    {
      var found := Search(ItemNames(menu), itemName);
      match found
      case None =>
        r := Fail(ItemNotFound);
      case Some(i) =>
        menu := RemoveAt(menu, i);
        r := Pass;
    }

    /** The total price of the selected item names, each priced from the current menu. */
    function CalculateItemsCost(selected: seq<string>): (cost: int)
      reads this
      requires OnMenu(menu, selected)
      ensures selected == [] ==> cost == 0
      ensures selected != [] && (forall it :: it in menu ==> it.price > 0) ==> cost > 0
    {
      if selected != [] && (forall it :: it in menu ==> it.price > 0) then
        CostPositive(menu, selected);
        Cost(menu, selected)
      else
        Cost(menu, selected)
    }

    /** Whether the restaurant is open at `currentTime`: from the opening time up to, not including, the closing time. */
    function IsRestaurantOpen(currentTime: Time): (open: bool)
      ensures open ==> openingTime <= currentTime && currentTime < closingTime
      ensures !open ==> currentTime < openingTime || closingTime <= currentTime
    {
      openingTime <= currentTime < closingTime
    }
  }
}
