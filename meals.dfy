/**
 * A catalogue meal and the "first entry with this name" scan that the update,
 * delete and log-a-meal handlers all perform with `foreach ... break`.
 */
module Meals {
  import opened Wrappers

  /**
   * A catalogue entry. `color` is None when the stored record has no colour
   * (or a null one); `description` is None for the seed meals, which have none.
   */
  datatype Meal = Meal(name: string, protein: real, carbs: real, fat: real,
                       color: Option<string>, description: Option<string>)

  /** The index of the first meal whose name is exactly `name`, if any. */
  function FirstIndexOf(meals: seq<Meal>, name: string): (r: Option<nat>)
    ensures r.None? <==> forall j :: 0 <= j < |meals| ==> meals[j].name != name
    ensures r.Some? ==> r.value < |meals| && meals[r.value].name == name
    ensures r.Some? ==> forall j :: 0 <= j < r.value ==> meals[j].name != name
  {
    if meals == [] then None
    else if meals[0].name == name then Some(0)
    else
      match FirstIndexOf(meals[1..], name)
      case None => None
      case Some(k) => Some(k + 1)
  }

  /** The scan itself: walk the catalogue in order and stop at the first exact name match. */
  method FindFirst(meals: seq<Meal>, name: string) returns (found: Option<nat>)
    ensures found == FirstIndexOf(meals, name)
    ensures found.Some? ==> found.value < |meals| && meals[found.value].name == name
  {
    found := None;
    var i := 0;
    while i < |meals|
      invariant 0 <= i <= |meals|
      invariant forall j :: 0 <= j < i ==> meals[j].name != name
    {
      if meals[i].name == name {
        found := Some(i);
        return;
      }
      i := i + 1;
    }
  }
}
