/**
 * The directory of restaurants: registration, exact-name lookup and removal,
 * and the ordered list of all restaurants. Restaurants are shared references:
 * the handle returned on registration is the object the directory holds.
 */
module Directory {
  import opened Lookup
  import opened Restaurants

  /** The names of the restaurants, in directory order. */
  function RestaurantNames(rs: seq<Restaurant>): (names: seq<string>)
    ensures |names| == |rs|
    ensures forall i :: 0 <= i < |rs| ==> names[i] == rs[i].name
  {
    seq(|rs|, i requires 0 <= i < |rs| => rs[i].name)
  }

  /**
   * Removing the first restaurant named `name` takes exactly one restaurant of that
   * name out of the directory; when names are unique none of that name is left.
   */
  lemma RemoveRestaurantByName(rs: seq<Restaurant>, name: string)
    requires name in RestaurantNames(rs)
    ensures multiset(RestaurantNames(RemoveAt(rs, FirstIndex(RestaurantNames(rs), name)))) ==
              multiset(RestaurantNames(rs)) - multiset{name}
    ensures NoDuplicates(RestaurantNames(rs)) ==>
              name !in RestaurantNames(RemoveAt(rs, FirstIndex(RestaurantNames(rs), name)))
  {
    var i := FirstIndex(RestaurantNames(rs), name);
    assert RestaurantNames(RemoveAt(rs, i)) == RemoveAt(RestaurantNames(rs), i);
    RemoveAtMultiset(RestaurantNames(rs), i);
    if NoDuplicates(RestaurantNames(rs)) {
      RemoveUniqueKey(RestaurantNames(rs), name);
    }
  }

  /** Registering a restaurant keeps every earlier name resolving to the same restaurant. */
  lemma LookupAfterAdd(rs: seq<Restaurant>, r: Restaurant, name: string)
    requires name in RestaurantNames(rs)
    ensures name in RestaurantNames(rs + [r])
    ensures (rs + [r])[FirstIndex(RestaurantNames(rs + [r]), name)] == rs[FirstIndex(RestaurantNames(rs), name)]
  {
    var i := FirstIndex(RestaurantNames(rs), name);
    assert RestaurantNames(rs + [r])[i] == name;
    var i' := FirstIndex(RestaurantNames(rs + [r]), name);
    assert i' == i;
  }

  /** Registering a restaurant under a new name makes that name resolve to the registered restaurant itself. */
  lemma NewNameFindsHandle(rs: seq<Restaurant>, r: Restaurant)
    requires r.name !in RestaurantNames(rs)
    ensures r.name in RestaurantNames(rs + [r])
    ensures (rs + [r])[FirstIndex(RestaurantNames(rs + [r]), r.name)] == r
  {
    assert RestaurantNames(rs + [r])[|rs|] == r.name;
  }

  class RestaurantService {
    var restaurants: seq<Restaurant>

    /** An empty directory. */
    constructor ()
      ensures restaurants == []
    {
      restaurants := [];
    }

    /**
     * Creates a restaurant with an empty menu, appends it to the directory and
     * returns it; the caller fills its menu through that same reference.
     */
    method AddRestaurant(name: string, location: string, openingTime: Time, closingTime: Time)
      returns (r: Restaurant)
      modifies this
      ensures fresh(r)
      ensures r.name == name && r.location == location
      ensures r.openingTime == openingTime && r.closingTime == closingTime
      ensures r.menu == []
      ensures restaurants == old(restaurants) + [r]
    {
      r := new Restaurant(name, location, openingTime, closingTime);
      restaurants := restaurants + [r];
    }

    /**
     * The first restaurant whose name equals `name` exactly, or RestaurantNotFound
     * when there is none.
     */
    method FindRestaurantByName(name: string) returns (r: Result<Restaurant>)
      ensures name in RestaurantNames(restaurants) ==>
                r.Success? && r.value in restaurants && r.value.name == name &&
                r.value == restaurants[FirstIndex(RestaurantNames(restaurants), name)]
      ensures name !in RestaurantNames(restaurants) ==> r == Failure(RestaurantNotFound)
    {
      var found := Search(RestaurantNames(restaurants), name);
      match found
      case None =>
        r := Failure(RestaurantNotFound);
      case Some(i) =>
        r := Success(restaurants[i]);
    }

    /**
     * Deletes the first restaurant named `name`, keeping the order of the rest;
     * fails with RestaurantNotFound, changing nothing, when no restaurant has that name.
     */
    method RemoveRestaurant(name: string) returns (r: Outcome)
      modifies this
      ensures name in RestaurantNames(old(restaurants)) ==>
                r == Pass &&
                restaurants == RemoveAt(old(restaurants), FirstIndex(RestaurantNames(old(restaurants)), name))
      ensures name !in RestaurantNames(old(restaurants)) ==>
                r == Fail(RestaurantNotFound) && restaurants == old(restaurants)
    {
      var found := Search(RestaurantNames(restaurants), name);
      match found
      case None =>
        r := Fail(RestaurantNotFound);
      case Some(i) =>
        restaurants := RemoveAt(restaurants, i);
        r := Pass;
    }
  }
}
