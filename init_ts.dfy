/**
 * The dispatcher of src/init.ts over a fleet of stub elevators: the cost of
 * sending an elevator to a floor, the choice of elevator for a hall call,
 * the choice of pressed floor for an idle elevator, and the event handlers
 * that connect them to `goToFloor`.
 */
module InitTs {
  import opened Wrappers
  import opened Cost
  import opened TestHelpers

  /** A JavaScript exception: an `Error` with its message, or the
      `TypeError` of reading a property of `undefined`. */
  datatype Exception = Error(message: string) | TypeError

  /** How an event handler finished: normally, or by throwing. */
  datatype Completion = Normal | Abrupt(exception: Exception)

  const NoElevatorMessage: string := "Must provide an elevator"

  /** `getWorkToGetTo`: walks the path current floor, queue, target and
      totals the distance of each hop. */
  method GetWorkToGetTo(elevator: StubElevator, floorNum: int) returns (distance: int)
    ensures distance == WorkToGetTo(elevator.currentFloor, elevator.destinationQueue, floorNum)
  {
    var targets := [elevator.currentFloor] + elevator.destinationQueue + [floorNum];
    distance := 0;
    var i := 1;
    while i < |targets|
      invariant 1 <= i <= |targets|
      invariant distance == PathLength(targets[..i])
    {
      var from := targets[i - 1];
      var to := targets[i];
      distance := distance + Abs(from - to);
      assert targets[..i + 1][..i] == targets[..i];
      i := i + 1;
    }
    assert targets[..i] == targets;
  }

  /** The work of sending `e` to `floorNum` in its present state. */
  function Work(e: StubElevator, floorNum: int): int
    reads e
  {
    WorkToGetTo(e.currentFloor, e.destinationQueue, floorNum)
  }

  /** The three things the comparator of `getClosestElevator` looks at
      for one elevator: whether `floorNum` is queued (its `indexOf` is not
      -1), the work of going there, and the distance to it. */
  datatype Rank = Rank(queued: bool, work: int, distance: int)

  function RankOf(e: StubElevator, floorNum: int): Rank
    reads e
  {
    Rank(floorNum in e.destinationQueue, Work(e, floorNum), Abs(e.currentFloor - floorNum))
  }

  /** The comparator on ranks: negative puts the first one first. A queued
      rank goes first (even against another queued rank, so the
      comparator is not antisymmetric there); otherwise less work goes
      first; on equal work the one FARTHER from the floor goes first. */
  function CompareRanks(r1: Rank, r2: Rank): int {
    if r1.queued then -1
    else if r2.queued then 1
    else if r1.work != r2.work then r1.work - r2.work
    else r2.distance - r1.distance
  }

  /** The comparator `getClosestElevator` sorts the fleet with. */
  function Compare(e1: StubElevator, e2: StubElevator, floorNum: int): int
    reads e1, e2
  {
    CompareRanks(RankOf(e1, floorNum), RankOf(e2, floorNum))
  }

  /** `e` is a member of the fleet that the comparator puts no later than
      any member: what the sorted copy holds at index 0. */
  predicate RanksFirst(fleet: seq<StubElevator>, e: StubElevator, floorNum: int)
    reads fleet, e
  {
    e in fleet && forall x :: x in fleet ==> Compare(e, x, floorNum) <= 0
  }

  /** No member of the fleet has `floorNum` queued. */
  predicate NoneQueued(fleet: seq<StubElevator>, floorNum: int)
    reads fleet
  {
    forall x :: x in fleet ==> floorNum !in x.destinationQueue
  }

  /** Between two elevators without the floor queued the comparator is the
      lexicographic order on (work, minus distance to the floor), so it is
      antisymmetric and transitive there. */
  lemma CompareNoneQueued(e1: StubElevator, e2: StubElevator, floorNum: int)
    requires floorNum !in e1.destinationQueue && floorNum !in e2.destinationQueue
    ensures Compare(e1, e2, floorNum) < 0 <==>
              Work(e1, floorNum) < Work(e2, floorNum)
              || (Work(e1, floorNum) == Work(e2, floorNum)
                  && Abs(e1.currentFloor - floorNum) > Abs(e2.currentFloor - floorNum))
    ensures Compare(e1, e2, floorNum) == 0 <==>
              Work(e1, floorNum) == Work(e2, floorNum)
              && Abs(e1.currentFloor - floorNum) == Abs(e2.currentFloor - floorNum)
    ensures Compare(e1, e2, floorNum) < 0 <==> Compare(e2, e1, floorNum) > 0
  {
  }

  /** When both elevators have the floor queued each is put before the
      other. */
  lemma CompareBothQueued(e1: StubElevator, e2: StubElevator, floorNum: int)
    requires floorNum in e1.destinationQueue && floorNum in e2.destinationQueue
    ensures Compare(e1, e2, floorNum) < 0 && Compare(e2, e1, floorNum) < 0
  {
  }

  /** On equal work, the elevator farther from the floor is put first. */
  lemma CompareTieBreakFarther(e1: StubElevator, e2: StubElevator, floorNum: int)
    requires floorNum !in e1.destinationQueue && floorNum !in e2.destinationQueue
    requires Work(e1, floorNum) == Work(e2, floorNum)
    requires Abs(e1.currentFloor - floorNum) > Abs(e2.currentFloor - floorNum)
    ensures Compare(e1, e2, floorNum) < 0 && Compare(e2, e1, floorNum) > 0
  {
  }

  /** If some member has the floor queued, the elevator ranked first has it
      queued. */
  lemma RanksFirstHasFloor(fleet: seq<StubElevator>, e: StubElevator, floorNum: int)
    requires RanksFirst(fleet, e, floorNum)
    requires !NoneQueued(fleet, floorNum)
    ensures floorNum in e.destinationQueue
  {
    var x :| x in fleet && floorNum in x.destinationQueue;
    assert Compare(e, x, floorNum) <= 0;
  }

  /** If no member has the floor queued, the elevator ranked first does the
      least work, and among those that do as little it is the farthest from
      the floor. */
  lemma RanksFirstLeastWork(fleet: seq<StubElevator>, e: StubElevator, floorNum: int)
    requires RanksFirst(fleet, e, floorNum)
    requires NoneQueued(fleet, floorNum)
    ensures forall x :: x in fleet ==> Work(e, floorNum) <= Work(x, floorNum)
    ensures forall x :: x in fleet && Work(x, floorNum) == Work(e, floorNum) ==>
              Abs(e.currentFloor - floorNum) >= Abs(x.currentFloor - floorNum)
  {
    forall x | x in fleet
      ensures Work(e, floorNum) <= Work(x, floorNum)
      ensures Work(x, floorNum) == Work(e, floorNum) ==>
                Abs(e.currentFloor - floorNum) >= Abs(x.currentFloor - floorNum)
    {
      assert Compare(e, x, floorNum) <= 0;
      CompareNoneQueued(e, x, floorNum);
    }
  }

  /** The ranks of the whole fleet, in fleet order; the work of each
      elevator is computed with `GetWorkToGetTo`. */
  method RankFleet(fleet: seq<StubElevator>, floorNum: int) returns (ranks: seq<Rank>)
    ensures |ranks| == |fleet|
    ensures forall j :: 0 <= j < |fleet| ==> ranks[j] == RankOf(fleet[j], floorNum)
  {
    ranks := [];
    var i := 0;
    while i < |fleet|
      invariant 0 <= i <= |fleet| && |ranks| == i
      invariant forall j :: 0 <= j < i ==> ranks[j] == RankOf(fleet[j], floorNum)
    {
      var e := fleet[i];
      var work := GetWorkToGetTo(e, floorNum);
      ranks := ranks + [Rank(floorNum in e.destinationQueue, work, Abs(e.currentFloor - floorNum))];
      i := i + 1;
    }
  }

  /** The index a stable sort by `CompareRanks` puts first: a rank that the
      comparator puts no later than any other, and, when no rank is queued
      (where the comparator is consistent), the first such in order. */
  method SelectFirst(ranks: seq<Rank>) returns (k: nat)
    requires |ranks| > 0
    ensures k < |ranks|
    ensures forall j :: 0 <= j < |ranks| ==> CompareRanks(ranks[k], ranks[j]) <= 0
    ensures (forall j :: 0 <= j < |ranks| ==> !ranks[j].queued) ==>
              forall j :: 0 <= j < k ==> CompareRanks(ranks[j], ranks[k]) > 0
  {
    k := 0;
    var i := 1;
    while i < |ranks|
      invariant 1 <= i <= |ranks| && k < i
      invariant forall j :: 0 <= j < i ==> CompareRanks(ranks[k], ranks[j]) <= 0
      invariant (exists j :: 0 <= j < i && ranks[j].queued) ==> ranks[k].queued
      invariant (forall j :: 0 <= j < i ==> !ranks[j].queued) ==>
                  forall j :: 0 <= j < k ==> CompareRanks(ranks[j], ranks[k]) > 0
    {
      if CompareRanks(ranks[k], ranks[i]) > 0 {
        k := i;
      }
      i := i + 1;
    }
  }

  /** The element a stable sort of the fleet puts first: an index whose
      elevator ranks first. When no member has the floor queued the index
      is the first such in fleet order. */
  method RankFirst(fleet: seq<StubElevator>, floorNum: int) returns (k: nat)
    requires |fleet| > 0
    ensures k < |fleet| && RanksFirst(fleet, fleet[k], floorNum)
    ensures NoneQueued(fleet, floorNum) ==>
              forall j :: 0 <= j < k ==> Compare(fleet[j], fleet[k], floorNum) > 0
  {
    var ranks := RankFleet(fleet, floorNum);
    k := SelectFirst(ranks);
    forall x | x in fleet
      ensures Compare(fleet[k], x, floorNum) <= 0
    {
      var j :| 0 <= j < |fleet| && fleet[j] == x;
      assert CompareRanks(ranks[k], ranks[j]) <= 0;
    }
    if NoneQueued(fleet, floorNum) {
      assert forall j :: 0 <= j < |ranks| ==> !ranks[j].queued;
    }
  }

  /** `fleet[k]` is what a stable sort of the fleet puts at index 0: it
      ranks first, and when no member has the floor queued every earlier
      member ranks strictly after it. */
  predicate SortsFirst(fleet: seq<StubElevator>, k: int, floorNum: int)
    reads fleet
  {
    && 0 <= k < |fleet|
    && RanksFirst(fleet, fleet[k], floorNum)
    && (NoneQueued(fleet, floorNum) ==>
          forall j :: 0 <= j < k ==> Compare(fleet[j], fleet[k], floorNum) > 0)
  }

  /** When no member has the floor queued, only one index sorts first, so
      the hall-call choice is deterministic, ties included. */
  lemma SortsFirstUnique(fleet: seq<StubElevator>, k1: int, k2: int, floorNum: int)
    requires NoneQueued(fleet, floorNum)
    requires SortsFirst(fleet, k1, floorNum) && SortsFirst(fleet, k2, floorNum)
    ensures k1 == k2
  {
    assert fleet[k1] in fleet && fleet[k2] in fleet;
    assert Compare(fleet[k1], fleet[k2], floorNum) <= 0;
    assert Compare(fleet[k2], fleet[k1], floorNum) <= 0;
  }

  /** `getClosestElevator`: throws on an empty fleet; otherwise returns the
      member at index `k` that a stable sort puts first. By
      `RanksFirstHasFloor` and `RanksFirstLeastWork` it has the floor
      queued if any member does, and otherwise does the least work. */
  method GetClosestElevator(elevators: seq<StubElevator>, floorNum: int)
    returns (r: Result<StubElevator, string>, ghost k: nat)
    ensures r.Failure? <==> |elevators| == 0
    ensures r.Failure? ==> r.error == NoElevatorMessage
    ensures r.Success? ==>
              SortsFirst(elevators, k, floorNum) && r.value == elevators[k]
  {
    if |elevators| == 0 {
      return Failure(NoElevatorMessage), 0;
    }
    var i := RankFirst(elevators, floorNum);
    r, k := Success(elevators[i]), i;
  }

  /** The comparator `goToClosest` sorts with: nearer to the current floor
      goes first. */
  function CompareByDistance(currentFloor: int, f1: int, f2: int): int {
    Abs(currentFloor - f1) - Abs(currentFloor - f2)
  }

  /** `floorNumbers[k]` is nearest to `currentFloor`, and no earlier entry is
      as near: the entry a stable sort by distance puts first. */
  predicate IsNearest(currentFloor: int, floorNumbers: seq<int>, k: int) {
    && 0 <= k < |floorNumbers|
    && (forall j :: 0 <= j < |floorNumbers| ==>
          Abs(currentFloor - floorNumbers[k]) <= Abs(currentFloor - floorNumbers[j]))
    && (forall j :: 0 <= j < k ==>
          Abs(currentFloor - floorNumbers[j]) > Abs(currentFloor - floorNumbers[k]))
  }

  /** There is only one nearest entry in this sense, so the choice is
      deterministic. */
  lemma IsNearestUnique(currentFloor: int, floorNumbers: seq<int>, k1: int, k2: int)
    requires IsNearest(currentFloor, floorNumbers, k1)
    requires IsNearest(currentFloor, floorNumbers, k2)
    ensures k1 == k2
  {
    var d1 := Abs(currentFloor - floorNumbers[k1]);
    var d2 := Abs(currentFloor - floorNumbers[k2]);
    assert d1 == d2;
  }

  /** The index of the pressed floor nearest the current floor. */
  method NearestFloor(currentFloor: int, floorNumbers: seq<int>) returns (k: nat)
    requires |floorNumbers| > 0
    ensures IsNearest(currentFloor, floorNumbers, k)
  {
    k := 0;
    var i := 1;
    while i < |floorNumbers|
      invariant 1 <= i <= |floorNumbers| && k < i
      invariant forall j :: 0 <= j < i ==>
                  Abs(currentFloor - floorNumbers[k]) <= Abs(currentFloor - floorNumbers[j])
      invariant forall j :: 0 <= j < k ==>
                  Abs(currentFloor - floorNumbers[j]) > Abs(currentFloor - floorNumbers[k])
    {
      if CompareByDistance(currentFloor, floorNumbers[k], floorNumbers[i]) > 0 {
        k := i;
      }
      i := i + 1;
    }
  }

  /** `goToClosest`: with no floors, nothing happens; otherwise exactly one
      `goToFloor`, to the nearest floor, `floorNumbers[chosen]`. */
  method GoToClosest(elevator: StubElevator, floorNumbers: seq<int>) returns (ghost chosen: nat)
    modifies elevator`destinationQueue, elevator`checkCalls
    ensures |floorNumbers| == 0 ==>
              elevator.destinationQueue == old(elevator.destinationQueue)
              && elevator.checkCalls == old(elevator.checkCalls)
    ensures |floorNumbers| > 0 ==>
              IsNearest(elevator.currentFloor, floorNumbers, chosen)
              && elevator.destinationQueue
                 == Enqueued(old(elevator.destinationQueue), floorNumbers[chosen])
              && elevator.checkCalls
                 == old(elevator.checkCalls) + Signals(old(elevator.destinationQueue), floorNumbers[chosen])
    ensures old(elevator.Valid()) ==> elevator.Valid()
  {
    if |floorNumbers| == 0 {
      return 0;
    }
    var k := NearestFloor(elevator.currentFloor, floorNumbers);
    elevator.GoToFloor(floorNumbers[k]);
    chosen := k;
  }

  /** Of the fleet, only `e` changed: `goToFloor(floorNum)` updated its
      queue and signal count, and every other member is as it was. */
  twostate predicate SentOnly(fleet: seq<StubElevator>, e: StubElevator, floorNum: int)
    reads fleet, e
  {
    && e.destinationQueue == Enqueued(old(e.destinationQueue), floorNum)
    && e.checkCalls == old(e.checkCalls) + Signals(old(e.destinationQueue), floorNum)
    && e.floorButtonPressedHandlers == old(e.floorButtonPressedHandlers)
    && e.initHandlers == old(e.initHandlers)
    && forall x :: x in fleet && x != e ==>
         && x.destinationQueue == old(x.destinationQueue)
         && x.checkCalls == old(x.checkCalls)
         && x.floorButtonPressedHandlers == old(x.floorButtonPressedHandlers)
         && x.initHandlers == old(x.initHandlers)
  }

  /** The fleet and the floors the handlers are wired to. */
  class Fleet {
    const elevators: seq<StubElevator>
    const floors: seq<StubFloor>

    /** Every elevator's queue has no duplicates. */
    ghost predicate Valid()
      reads elevators
    {
      forall e :: e in elevators ==> e.Valid()
    }

    constructor (elevators: seq<StubElevator>, floors: seq<StubFloor>)
      ensures this.elevators == elevators && this.floors == floors
    {
      this.elevators := elevators;
      this.floors := floors;
    }

    /** The "idle" handler of elevator `i`: go to its nearest pressed
        floor, `pressedFloors[chosen]`. */
    method OnIdle(i: nat) returns (ghost chosen: nat)
      requires i < |elevators|
      modifies elevators[i]
      ensures elevators[i].floorButtonPressedHandlers == old(elevators[i].floorButtonPressedHandlers)
      ensures elevators[i].initHandlers == old(elevators[i].initHandlers)
      ensures var e := elevators[i];
        |e.pressedFloors| == 0 ==>
          e.destinationQueue == old(e.destinationQueue) && e.checkCalls == old(e.checkCalls)
      ensures var e := elevators[i];
        |e.pressedFloors| > 0 ==>
          IsNearest(e.currentFloor, e.pressedFloors, chosen)
          && e.destinationQueue == Enqueued(old(e.destinationQueue), e.pressedFloors[chosen])
          && e.checkCalls == old(e.checkCalls) + Signals(old(e.destinationQueue), e.pressedFloors[chosen])
      ensures old(Valid()) ==> Valid()
    {
      var e := elevators[i];
      chosen := GoToClosest(e, e.GetPressedFloors());
    }

    /** The "floor_button_pressed" handler of elevator `i`: go to that floor. */
    method OnFloorButtonPressed(i: nat, floorNum: int)
      requires i < |elevators|
      modifies elevators[i]
      ensures elevators[i].floorButtonPressedHandlers == old(elevators[i].floorButtonPressedHandlers)
      ensures elevators[i].initHandlers == old(elevators[i].initHandlers)
      ensures var e := elevators[i];
        e.destinationQueue == Enqueued(old(e.destinationQueue), floorNum)
        && e.checkCalls == old(e.checkCalls) + Signals(old(e.destinationQueue), floorNum)
      ensures old(Valid()) ==> Valid()
    {
      elevators[i].GoToFloor(floorNum);
    }

    /** `goToFloor(floorNum)` on `e`, the elevator at index `k`; no other
        elevator changes. */
    method SendTo(e: StubElevator, ghost k: nat, floorNum: int)
      requires k < |elevators| && elevators[k] == e
      modifies elevators
      ensures SentOnly(elevators, e, floorNum)
      ensures old(Valid()) ==> Valid()
    {
      e.GoToFloor(floorNum);
    }

    /** A hall call at `floorNum`: the elevator a stable sort puts first
        (at index `answered`) goes there and no other elevator changes; an empty fleet
        throws and changes nothing. */
    method HallCall(floorNum: int) returns (c: Completion, ghost answered: nat)
      modifies elevators
      ensures c.Abrupt? <==> |elevators| == 0
      ensures c.Abrupt? ==> c.exception == Error(NoElevatorMessage)
      ensures |elevators| > 0 ==>
        answered < |elevators| && old(SortsFirst(elevators, answered, floorNum))
          && SentOnly(elevators, elevators[answered], floorNum)
      ensures old(Valid()) ==> Valid()
    {
      var r;
      r, answered := GetClosestElevator(elevators, floorNum);
      if r.Failure? {
        return Abrupt(Error(r.error)), 0;
      }
      SendTo(r.value, answered, floorNum);
      c := Normal;
    }

    /** The "up_button_pressed" handler of floor `j`: a hall call at its
        number. */
    method OnUpButtonPressed(j: nat) returns (c: Completion, ghost answered: nat)
      requires j < |floors|
      modifies elevators
      ensures c.Abrupt? <==> |elevators| == 0
      ensures c.Abrupt? ==> c.exception == Error(NoElevatorMessage)
      ensures |elevators| > 0 ==>
        answered < |elevators| && old(SortsFirst(elevators, answered, floors[j].num))
          && SentOnly(elevators, elevators[answered], floors[j].num)
      ensures old(Valid()) ==> Valid()
    {
      c, answered := HallCall(floors[j].FloorNum());
    }

    /** The "down_button_pressed" handler of floor `j`: exactly the same
        hall call as the up button. */
    method OnDownButtonPressed(j: nat) returns (c: Completion, ghost answered: nat)
      requires j < |floors|
      modifies elevators
      ensures c.Abrupt? <==> |elevators| == 0
      ensures c.Abrupt? ==> c.exception == Error(NoElevatorMessage)
      ensures |elevators| > 0 ==>
        answered < |elevators| && old(SortsFirst(elevators, answered, floors[j].num))
          && SentOnly(elevators, elevators[answered], floors[j].num)
      ensures old(Valid()) ==> Valid()
    {
      c, answered := HallCall(floors[j].FloorNum());
    }
  }
}
