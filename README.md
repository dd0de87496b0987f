# Restaurant catalog — a Dafny model

This project models a small in-memory restaurant catalog. A **restaurant** has a name, a
location and opening and closing times, all fixed when it is created. It also has an ordered
**menu** of items, each with a name and an integer price. Items are appended with
`addToMenu` and deleted by exact name with `removeFromMenu`, which fails with
`itemNotFound` when no item has that name. `calculateItemsCost` prices a selection of item
names. `isRestaurantOpen` checks an injected current time against the opening hours.

A **restaurant service** (the directory) holds an ordered list of restaurants.
`addRestaurant` creates a restaurant with an empty menu, appends it and returns a reference
to it. The caller fills the menu through that reference, and later lookups see those items.
`findRestaurantByName` and `removeRestaurant` match names exactly and fail with
`restaurantNotFound` when no restaurant has that name.

The model is built from the behaviour that the repository's two JUnit test classes assert.
Where the tests leave a choice open, the model makes it explicit:

- Time of day is a whole number of seconds after midnight (`Restaurants.Time`, 0 to 86399).
  The current time is a parameter of `IsRestaurantOpen`. It stands for the overridable
  `getCurrentTime()` that the tests replace with a spy.
- A restaurant counts as open from its opening time up to, but not including, its closing
  time. The tests only pin 12:00 (open) and 09:00 (closed) against 10:30–22:00. The model
  chooses the half-open window: the opening instant counts as open and the closing instant
  as closed.
- Opening hours are a same-day window. When closing precedes opening, the model reports the
  restaurant closed at every time.
- Names are matched exactly, case-sensitive and as whole strings. When a name occurs more
  than once, the first entry in list order is the one found or removed. Duplicate names
  are allowed. Facts that only hold for unique names take `NoDuplicates` as a hypothesis.
- Cost prices each selected name by looking it up on the menu, once for each time the name
  occurs in the selection. `CalculateItemsCost` requires every selected name to be on the
  menu, because the tests never price an unknown name.
- Menus and restaurant lists are `seq` fields that the methods reassign. `getMenu()` and
  `getRestaurants()` are reads of the fields `menu` and `restaurants`. Restaurants are
  class references, so the handle returned by `AddRestaurant` is the object the directory
  holds.

Files:

- `lookup.dfy` (module `Lookup`): the not-found errors, first-match lookup (`FirstIndex`,
  and the search loop `Search`), and removal by position (`RemoveAt`).
- `restaurant.dfy` (module `Restaurants`): time of day, menu items, the cost function and
  its lemmas, and the class `Restaurant`.
- `restaurant_service.dfy` (module `Directory`): the class `RestaurantService` and lemmas
  about lookup and removal by name.
- `fixtures.dfy` (module `Fixtures`): the test fixture ("Amelie's cafe", Chennai,
  10:30–22:00, soup 119, lasagne 269). Each scenario method proves the outcome that the
  corresponding tests assert.

## Model

| member | source | states |
|---|---|---|
| Lookup.FirstIndex | src/test/java/RestaurantServiceTest.java:44-47 | the index found holds exactly the requested name and no earlier entry does (exact, first-match lookup) |
| Lookup.RemoveAt | src/test/java/RestaurantTest.java:60-64 | deleting one position shortens the list by exactly one and keeps the other entries in order |
| Lookup.RemoveAtMultiset | src/test/java/RestaurantTest.java:60-64 | deleting a position removes exactly one copy of that entry and nothing else |
| Lookup.RemoveUniqueKey | src/test/java/RestaurantServiceTest.java:52-57 | with unique names, removing a name's entry leaves no entry with that name, and names stay unique |
| Lookup.Search | src/test/java/RestaurantTest.java:60-70 | the linear search returns the first index holding the name, or None exactly when the name is absent |
| Restaurants.TimeOfDay | src/test/java/RestaurantTest.java:20-21 | hh:mm:ss becomes a time of day from which the hours, minutes and seconds are recovered |
| Restaurants.TimeOfDayOrder | src/test/java/RestaurantTest.java:31-47 | times of day are ordered as their (hours, minutes, seconds) triples are, lexicographically |
| Restaurants.PriceOf | src/test/java/RestaurantTest.java:80-84 | the price found for a name is the price of an item on the menu with that name |
| Restaurants.PriceOfUnique | src/test/java/RestaurantTest.java:80-84 | with unique item names, the price found is that item's own price |
| Restaurants.CostSingle | src/test/java/RestaurantTest.java:80-84 | a selection of one name costs that item's price |
| Restaurants.CostAppend | src/test/java/RestaurantTest.java:93-98 | selecting more names adds their cost: the cost of a + b is the cost of a plus the cost of b |
| Restaurants.CostRemoveAt | src/test/java/RestaurantTest.java:100-106 | unselecting one name lowers the cost by exactly that item's price |
| Restaurants.CostPermutation | src/test/java/RestaurantTest.java:93-106 | two selections with the same names, in any order, cost the same |
| Restaurants.CostPositive | src/test/java/RestaurantTest.java:75-79 | a non-empty selection costs more than 0 when every menu price is positive |
| Restaurants.RemoveItemByName | src/test/java/RestaurantTest.java:60-64 | removing an item by name takes exactly one item of that name off the menu; with unique names none remains |
| Restaurants.CostAfterAppend | src/test/java/RestaurantTest.java:53-58 | adding an item to the menu does not change the cost of any selection already on the menu |
| Restaurants.PriceOfNewItem | src/test/java/RestaurantTest.java:23-24 | after appending an item whose name was not yet on the menu, a lookup of that name finds the new item's price |
| Restaurants.Restaurant.constructor | src/test/java/RestaurantTest.java:19-22 | a new restaurant keeps the given name, location and hours and has an empty menu |
| Restaurants.Restaurant.AddToMenu | src/test/java/RestaurantTest.java:53-58 | the menu becomes the old menu with the new item appended, so it is exactly one longer |
| Restaurants.Restaurant.RemoveFromMenu | src/test/java/RestaurantTest.java:59-70 | a present name: the first item with it is removed and the result is Pass; an absent name: ItemNotFound and the menu is unchanged |
| Restaurants.Restaurant.CalculateItemsCost | src/test/java/RestaurantTest.java:75-113 | an empty selection costs 0; a non-empty selection costs more than 0 when all prices are positive |
| Restaurants.Restaurant.IsRestaurantOpen | src/test/java/RestaurantTest.java:31-47 | open exactly when the injected current time is at or after opening and before closing |
| Directory.RemoveRestaurantByName | src/test/java/RestaurantServiceTest.java:52-57 | removing a restaurant by name takes exactly one restaurant of that name out; with unique names none remains |
| Directory.LookupAfterAdd | src/test/java/RestaurantServiceTest.java:64-69 | registering a restaurant leaves every earlier name resolving to the same restaurant |
| Directory.NewNameFindsHandle | src/test/java/RestaurantServiceTest.java:21-37 | after appending a restaurant whose name was not yet registered, a lookup of that name finds that very restaurant |
| Directory.RestaurantService.constructor | src/test/java/RestaurantServiceTest.java:14 | a new directory holds no restaurants |
| Directory.RestaurantService.AddRestaurant | src/test/java/RestaurantServiceTest.java:18-24 | returns a new restaurant with the given fields and an empty menu, appended to the directory: the list grows by exactly one |
| Directory.RestaurantService.FindRestaurantByName | src/test/java/RestaurantServiceTest.java:28-47 | a present name returns the first restaurant with exactly that name (the stored reference); an absent name returns RestaurantNotFound |
| Directory.RestaurantService.RemoveRestaurant | src/test/java/RestaurantServiceTest.java:52-62 | a present name: its first restaurant is removed, the list shrinks by one and the rest keep their order; an absent name: RestaurantNotFound, nothing changes |
| Fixtures.AmeliesCafe | src/test/java/RestaurantTest.java:19-24 | the fixture restaurant has its name, location, hours and the two menu items in order |
| Fixtures.OpeningHoursScenario | src/test/java/RestaurantTest.java:31-47 | the fixture is open at 12:00:00 and closed at 09:00:00 |
| Fixtures.MenuEditScenario | src/test/java/RestaurantTest.java:53-70 | adding an item grows the menu from 2 to 3; removing "Vegetable lasagne" shrinks it by one; removing "French fries" fails with ItemNotFound |
| Fixtures.OrderCostScenario | src/test/java/RestaurantTest.java:75-113 | lasagne alone costs 269 (more than 0), with soup 388, soup after unselecting lasagne 119, and an empty or cleared selection 0 |
| Fixtures.DirectoryScenario | src/test/java/RestaurantServiceTest.java:17-69 | the lookup returns the registered cafe with its times and the two items added through the handle; "Amelies cafe" and "Pantry d'or" are not found; remove and add change the size by one |

## Left out

- Parsing `LocalTime` text, and the wall-clock read behind `getCurrentTime()`. Time is an integer number of seconds, passed in as a parameter. Sub-second precision is not modelled.
- Mockito, JUnit and Hamcrest. The `toString()` text of items, which one test compares, is not modelled; the scenario compares the items themselves.
- Restaurants.Restaurant.CalculateItemsCost: unknown names in a selection are excluded by its precondition, because the tests never price one. The sum is an unbounded integer; Java's 32-bit `int` overflow is not modelled.
- Restaurants.Restaurant.IsRestaurantOpen: when closing precedes opening the model reports closed at every time; overnight hours are not modelled.
- Whether `getMenu()` and `getRestaurants()` hand out copies or live lists. In the model they are reads of value-typed `seq` fields.
- Uniqueness of item names and of restaurant names is not enforced. Duplicates resolve to the first match.
- The source files of the classes `Restaurant`, `RestaurantService`, `Item`, `itemNotFoundException` and `restaurantNotFoundException` are not part of this model. Their behaviour is modelled from the tests that exercise them.
- Concurrency, persistence and I/O: there are none in the exercised code.
