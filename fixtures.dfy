/**
 * The catalog's reference scenarios: the cafe fixture with its two menu items,
 * and the outcomes its opening check, menu edits, order costs and directory
 * operations must produce.
 */
module Fixtures {
  import opened Lookup
  import opened Restaurants
  import opened Directory

  const Opening: Time := TimeOfDay(10, 30, 0)
  const Closing: Time := TimeOfDay(22, 0, 0)

  /** "Amelie's cafe" in Chennai, open 10:30:00 to 22:00:00, serving soup (119) and lasagne (269). */
  method AmeliesCafe() returns (r: Restaurant)
    ensures fresh(r)
    ensures r.name == "Amelie's cafe" && r.location == "Chennai"
    ensures r.openingTime == Opening && r.closingTime == Closing
    ensures r.menu == [Item("Sweet corn soup", 119), Item("Vegetable lasagne", 269)]
  {
    r := new Restaurant("Amelie's cafe", "Chennai", Opening, Closing);
    r.AddToMenu("Sweet corn soup", 119);
    r.AddToMenu("Vegetable lasagne", 269);
  }

  /** The cafe is open at 12:00:00 and closed at 09:00:00. */
  method OpeningHoursScenario() returns (atNoon: bool, atNine: bool)
    ensures atNoon && !atNine
  {
    var r := AmeliesCafe();
    atNoon := r.IsRestaurantOpen(TimeOfDay(12, 0, 0));
    atNine := r.IsRestaurantOpen(TimeOfDay(9, 0, 0));
  }

  /**
   * On fresh copies of the cafe: adding an item grows the menu by one, removing
   * "Vegetable lasagne" shrinks it by one, and removing "French fries" fails.
   */
  method MenuEditScenario() returns (initial: nat, afterAdd: nat, afterRemove: nat, removed: Outcome, missing: Outcome)
    ensures initial == 2
    ensures afterAdd == initial + 1
    ensures removed == Pass && afterRemove == initial - 1
    ensures missing == Fail(ItemNotFound)
  {
    var r := AmeliesCafe();
    initial := |r.menu|;
    r.AddToMenu("Sizzling brownie", 319);
    afterAdd := |r.menu|;

    r := AmeliesCafe();
    assert ItemNames(r.menu) == ["Sweet corn soup", "Vegetable lasagne"];
    removed := r.RemoveFromMenu("Vegetable lasagne");
    afterRemove := |r.menu|;

    r := AmeliesCafe();
    missing := r.RemoveFromMenu("French fries");
  }

  /**
   * Order totals on the cafe: lasagne alone costs 269 (more than 0), lasagne and
   * soup 388, soup alone after unselecting the lasagne 119, and an empty or
   * cleared selection 0.
   */
  method OrderCostScenario() returns (lasagne: int, none: int, both: int, soupOnly: int, cleared: int)
    ensures lasagne > 0 && lasagne == 269
    ensures none == 0
    ensures both == 388
    ensures soupOnly == 119
    ensures cleared == 0
  {
    var r := AmeliesCafe();
    var names := ItemNames(r.menu);
    assert names == ["Sweet corn soup", "Vegetable lasagne"];
    assert FirstIndex(names, "Sweet corn soup") == 0 && FirstIndex(names, "Vegetable lasagne") == 1;
    assert PriceOf(r.menu, "Sweet corn soup") == 119 && PriceOf(r.menu, "Vegetable lasagne") == 269;
    var items := ["Vegetable lasagne"];
    CostSingle(r.menu, "Vegetable lasagne");
    lasagne := r.CalculateItemsCost(items);
    none := r.CalculateItemsCost([]);
    items := items + ["Sweet corn soup"];
    CostSingle(r.menu, "Sweet corn soup");
    CostAppend(r.menu, ["Vegetable lasagne"], ["Sweet corn soup"]);
    both := r.CalculateItemsCost(items);
    // unselecting removes the first occurrence of the name from the selection
    items := RemoveAt(items, FirstIndex(items, "Vegetable lasagne"));
    assert items == ["Sweet corn soup"];
    soupOnly := r.CalculateItemsCost(items);
    items := [];
    cleared := r.CalculateItemsCost(items);
  }

  /**
   * The directory holding the cafe: looking it up returns the registered handle
   * with the menu added through it, "Amelies cafe" is not found, removing the
   * cafe shrinks the directory by one, removing "Pantry d'or" fails, and adding
   * "Pumpkin Tales" grows it by one.
   */
  method DirectoryScenario()
    returns (found: Result<Restaurant>, foundMenu: seq<Item>, misspelt: Result<Restaurant>,
             sizeBefore: nat, afterRemove: nat, missing: Outcome, afterAdd: nat)
    ensures found.Success? && found.value.name == "Amelie's cafe"
    ensures found.value.openingTime == Opening && found.value.closingTime == Closing
    ensures foundMenu == [Item("Sweet corn soup", 119), Item("Vegetable lasagne", 269)]
    ensures misspelt == Failure(RestaurantNotFound)
    ensures sizeBefore == 1 && afterRemove == sizeBefore - 1
    ensures missing == Fail(RestaurantNotFound)
    ensures afterAdd == sizeBefore + 1
  {
    var service := new RestaurantService();
    var cafe := service.AddRestaurant("Amelie's cafe", "Chennai", Opening, Closing);
    cafe.AddToMenu("Sweet corn soup", 119);
    cafe.AddToMenu("Vegetable lasagne", 269);
    assert RestaurantNames(service.restaurants) == ["Amelie's cafe"];
    found := service.FindRestaurantByName("Amelie's cafe");
    foundMenu := found.value.menu;
    misspelt := service.FindRestaurantByName("Amelies cafe");
    missing := service.RemoveRestaurant("Pantry d'or");

    sizeBefore := |service.restaurants|;
    var pumpkin := service.AddRestaurant("Pumpkin Tales", "Chennai", TimeOfDay(12, 0, 0), TimeOfDay(23, 0, 0));
    afterAdd := |service.restaurants|;

    service := new RestaurantService();
    cafe := service.AddRestaurant("Amelie's cafe", "Chennai", Opening, Closing);
    assert RestaurantNames(service.restaurants) == ["Amelie's cafe"];
    var removed := service.RemoveRestaurant("Amelie's cafe");
    afterRemove := |service.restaurants|;
  }
}
