/**
 * What src/init.js does differently from its typed twin src/init.ts:
 * `getClosestElevator` has no empty-fleet check, so on an empty fleet the
 * first element of the sorted copy is `undefined`, and a hall call then
 * throws a `TypeError` when it calls `goToFloor` on it. Its
 * `getWorkToGetTo`, `goToClosest`, comparators and idle and cabin-button
 * handlers are the same as in src/init.ts and are modelled there once.
 */
module InitJs {
  import opened Wrappers
  import opened TestHelpers
  import InitTs

  /** `getClosestElevator` without the empty check: absent on an empty
      fleet, otherwise the member at index `k` that a stable sort puts first
      (see `InitTs.RanksFirstHasFloor` and `InitTs.RanksFirstLeastWork` for
      what that means). */
  method GetClosestElevator(elevators: seq<StubElevator>, floorNum: int)
    returns (r: Option<StubElevator>, ghost k: nat)
    ensures r.None? <==> |elevators| == 0
    ensures r.Some? ==>
              InitTs.SortsFirst(elevators, k, floorNum) && r.value == elevators[k]
  {
    if |elevators| == 0 {
      return None, 0;
    }
    var i := InitTs.RankFirst(elevators, floorNum);
    r, k := Some(elevators[i]), i;
  }

  /** A hall call at `floorNum`: the elevator a stable sort puts first (at
      index `answered`) goes there and no other changes; on an empty fleet
      `goToFloor` is looked up on `undefined`, which throws a `TypeError`
      and changes nothing. */
  method HallCall(fleet: InitTs.Fleet, floorNum: int)
    returns (c: InitTs.Completion, ghost answered: nat)
    modifies fleet.elevators
    ensures c.Abrupt? <==> |fleet.elevators| == 0
    ensures c.Abrupt? ==> c.exception == InitTs.TypeError
    ensures |fleet.elevators| > 0 ==>
      answered < |fleet.elevators|
        && old(InitTs.SortsFirst(fleet.elevators, answered, floorNum))
        && InitTs.SentOnly(fleet.elevators, fleet.elevators[answered], floorNum)
    ensures old(fleet.Valid()) ==> fleet.Valid()
  {
    var elevators := fleet.elevators;
    var r;
    r, answered := GetClosestElevator(elevators, floorNum);
    if r.None? {
      return InitTs.Abrupt(InitTs.TypeError), 0;
    }
    fleet.SendTo(r.value, answered, floorNum);
    c := InitTs.Normal;
  }

  /** The "up_button_pressed" handler of floor `j`. */
  method OnUpButtonPressed(fleet: InitTs.Fleet, j: nat)
    returns (c: InitTs.Completion, ghost answered: nat)
    requires j < |fleet.floors|
    modifies fleet.elevators
    ensures c.Abrupt? <==> |fleet.elevators| == 0
    ensures c.Abrupt? ==> c.exception == InitTs.TypeError
    ensures |fleet.elevators| > 0 ==>
      answered < |fleet.elevators|
        && old(InitTs.SortsFirst(fleet.elevators, answered, fleet.floors[j].num))
        && InitTs.SentOnly(fleet.elevators, fleet.elevators[answered], fleet.floors[j].num)
    ensures old(fleet.Valid()) ==> fleet.Valid()
  {
    c, answered := HallCall(fleet, fleet.floors[j].FloorNum());
  }

  /** The "down_button_pressed" handler of floor `j`: exactly the same hall
      call as the up button. */
  method OnDownButtonPressed(fleet: InitTs.Fleet, j: nat)
    returns (c: InitTs.Completion, ghost answered: nat)
    requires j < |fleet.floors|
    modifies fleet.elevators
    ensures c.Abrupt? <==> |fleet.elevators| == 0
    ensures c.Abrupt? ==> c.exception == InitTs.TypeError
    ensures |fleet.elevators| > 0 ==>
      answered < |fleet.elevators|
        && old(InitTs.SortsFirst(fleet.elevators, answered, fleet.floors[j].num))
        && InitTs.SentOnly(fleet.elevators, fleet.elevators[answered], fleet.floors[j].num)
    ensures old(fleet.Valid()) ==> fleet.Valid()
  {
    c, answered := HallCall(fleet, fleet.floors[j].FloorNum());
  }
}
