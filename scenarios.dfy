/**
 * Concrete fleets built from the stub fixtures of src/init.test.ts, and
 * the outcome the model proves for them.
 */
module Scenarios {
  import opened Wrappers
  import opened Cost
  import opened TestHelpers
  import opened InitTs

  function AtFloor(floor: int): StubOptions {
    StubOptions(Some(floor), None, None, None, None)
  }

  /** From floor 8 to 9 and back to 8 is two floors of work. */
  lemma WorkThereAndBack()
    ensures WorkToGetTo(8, [9], 8) == 2
  {
    var t := Targets(8, [9], 8);
    assert t == [8, 9, 8] && t[..2] == [8, 9] && t[..2][..1] == [8];
    assert PathLength([8, 9]) == 1;
  }

  /** In a fleet of two where the comparator puts the second first, only
      the second ranks first. */
  lemma OnlySecondRanksFirst(fleet: seq<StubElevator>, floorNum: int)
    requires |fleet| == 2 && Compare(fleet[0], fleet[1], floorNum) > 0
    ensures forall k :: 0 <= k < 2 && RanksFirst(fleet, fleet[k], floorNum) ==> k == 1
  {
    assert fleet[1] in fleet;
  }

  /** The up button of floor `j` in a fleet of two where the comparator
      puts the second elevator first: the second is sent to the floor, the
      first keeps its queue and gets no signal. */
  method UpButtonToSecond(fleet: Fleet, j: nat, floorNum: int)
    requires j < |fleet.floors| && fleet.floors[j].num == floorNum
    requires |fleet.elevators| == 2 && fleet.elevators[0] != fleet.elevators[1]
    requires Compare(fleet.elevators[0], fleet.elevators[1], floorNum) > 0
    modifies fleet.elevators
    ensures fleet.elevators[0].destinationQueue == old(fleet.elevators[0].destinationQueue)
    ensures fleet.elevators[0].checkCalls == old(fleet.elevators[0].checkCalls)
    ensures fleet.elevators[1].destinationQueue
      == Enqueued(old(fleet.elevators[1].destinationQueue), floorNum)
    ensures fleet.elevators[1].checkCalls
      == old(fleet.elevators[1].checkCalls)
         + Signals(old(fleet.elevators[1].destinationQueue), floorNum)
  {
    OnlySecondRanksFirst(fleet.elevators, floorNum);
    var c, answered := fleet.OnUpButtonPressed(j);
    assert answered == 1;
  }

  /** The up button of floor `j` in a fleet of two where neither elevator
      has the floor queued and the comparator does not put the second
      before the first: the sort is stable, so the first is sent and the
      second is left alone. */
  method UpButtonToFirst(fleet: Fleet, j: nat, floorNum: int)
    requires j < |fleet.floors| && fleet.floors[j].num == floorNum
    requires |fleet.elevators| == 2 && fleet.elevators[0] != fleet.elevators[1]
    requires NoneQueued(fleet.elevators, floorNum)
    requires Compare(fleet.elevators[0], fleet.elevators[1], floorNum) <= 0
    modifies fleet.elevators
    ensures fleet.elevators[0].destinationQueue
      == Enqueued(old(fleet.elevators[0].destinationQueue), floorNum)
    ensures fleet.elevators[0].checkCalls
      == old(fleet.elevators[0].checkCalls)
         + Signals(old(fleet.elevators[0].destinationQueue), floorNum)
    ensures fleet.elevators[1].destinationQueue == old(fleet.elevators[1].destinationQueue)
    ensures fleet.elevators[1].checkCalls == old(fleet.elevators[1].checkCalls)
  {
    var c, answered := fleet.OnUpButtonPressed(j);
    assert answered == 0;
  }

  /** Two idle elevators at floors 0 and 1, four floors, and the up button
      of floor 2: the one at floor 1 gets `[2]` and one signal, the other
      stays idle and gets no signal. */
  method NearerIdleElevatorAnswers()
    returns (queue0: seq<int>, signals0: nat, queue1: seq<int>, signals1: nat)
    ensures queue0 == [] && signals0 == 0 && queue1 == [2] && signals1 == 1
  {
    var floors := CreateFloors(4);
    var e0 := new StubElevator(AtFloor(0));
    var e1 := new StubElevator(AtFloor(1));
    var fleet := new Fleet([e0, e1], floors);
    assert floors[2].num == 2;
    assert e0.currentFloor == 0 && e0.destinationQueue == [] && e0.checkCalls == 0;
    assert e1.currentFloor == 1 && e1.destinationQueue == [] && e1.checkCalls == 0;
    WorkToGetToEmptyQueue(0, 2);
    WorkToGetToEmptyQueue(1, 2);
    assert Work(e0, 2) == 2 && Work(e1, 2) == 1;
    UpButtonToSecond(fleet, 2, 2);
    assert Enqueued([], 2) == [2];
    queue0, signals0 := e0.destinationQueue, e0.checkCalls;
    queue1, signals1 := e1.destinationQueue, e1.checkCalls;
  }

  /** An idle elevator at floor 0 and one at floor 8 bound for 9, ten
      floors, and the up button of floor 8: the second one answers (2 floors
      of work against 8), and since `goToFloor` appends, its queue becomes
      `[9, 8]`; the first gets no signal. */
  method LeastWorkAnswersByAppending()
    returns (queue0: seq<int>, signals0: nat, queue1: seq<int>)
    ensures queue0 == [] && signals0 == 0 && queue1 == [9, 8]
  {
    var floors := CreateFloors(10);
    var e0 := new StubElevator(AtFloor(0));
    var e1 := new StubElevator(StubOptions(Some(8), Some([9]), None, None, None));
    var fleet := new Fleet([e0, e1], floors);
    assert floors[8].num == 8;
    assert e0.currentFloor == 0 && e0.destinationQueue == [] && e0.checkCalls == 0;
    assert e1.currentFloor == 8 && e1.destinationQueue == [9];
    WorkToGetToEmptyQueue(0, 8);
    WorkThereAndBack();
    assert Work(e0, 8) == 8 && Work(e1, 8) == 2;
    UpButtonToSecond(fleet, 8, 8);
    assert Enqueued([9], 8) == [9, 8];
    queue0, signals0, queue1 := e0.destinationQueue, e0.checkCalls, e1.destinationQueue;
  }

  /** Two idle elevators both at floor 0, four floors, and the up button of
      floor 2: they tie on work and on distance, and the first in fleet
      order answers. */
  method TieGoesToFirstInOrder() returns (queue0: seq<int>, queue1: seq<int>, signals1: nat)
    ensures queue0 == [2] && queue1 == [] && signals1 == 0
  {
    var floors := CreateFloors(4);
    var e0 := new StubElevator(AtFloor(0));
    var e1 := new StubElevator(AtFloor(0));
    var fleet := new Fleet([e0, e1], floors);
    assert floors[2].num == 2;
    assert e0.currentFloor == 0 && e0.destinationQueue == [];
    assert e1.currentFloor == 0 && e1.destinationQueue == [] && e1.checkCalls == 0;
    WorkToGetToEmptyQueue(0, 2);
    assert Work(e0, 2) == 2 && Work(e1, 2) == 2;
    assert Compare(e0, e1, 2) == 0;
    assert NoneQueued(fleet.elevators, 2);
    UpButtonToFirst(fleet, 2, 2);
    assert Enqueued([], 2) == [2];
    queue0, queue1, signals1 := e0.destinationQueue, e1.destinationQueue, e1.checkCalls;
  }

  /** A cabin press for a floor already queued changes nothing and does not
      signal. */
  method CabinPressAlreadyQueued() returns (queue: seq<int>, signals: nat)
    ensures queue == [1] && signals == 0
  {
    var e := new StubElevator(StubOptions(None, Some([1]), None, None, None));
    var floors := CreateFloors(4);
    var fleet := new Fleet([e], floors);
    fleet.OnFloorButtonPressed(0, 1);
    queue, signals := e.destinationQueue, e.checkCalls;
  }

  /** An idle elevator at floor 3 with floors 0 and 5 pressed goes to 5, the
      nearer one. */
  method IdleGoesToNearestPressedFloor() returns (queue: seq<int>)
    ensures queue == [5]
  {
    var e := new StubElevator(StubOptions(Some(3), None, None, None, Some([0, 5])));
    var fleet := new Fleet([e], []);
    assert e.currentFloor == 3 && e.pressedFloors == [0, 5] && e.destinationQueue == [];
    assert !IsNearest(3, [0, 5], 0) by {
      assert [0, 5][1] == 5;
    }
    var chosen := fleet.OnIdle(0);
    queue := e.destinationQueue;
  }
}
