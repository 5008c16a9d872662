/**
 * The stub elevator and floor of src/testHelpers.ts: the elevator contract
 * the dispatcher relies on (`goToFloor` appends a floor only when it is not
 * already queued, then signals `checkDestinationQueue`), the option defaults
 * of `createStubElevator`, and handler registration through `on`.
 */
module TestHelpers {
  import opened Wrappers

  /** A registered callback, identified only by who registered it. */
  type HandlerId = nat

  /** No floor appears twice in a destination queue. */
  predicate NoDuplicates(queue: seq<int>) {
    forall i, j :: 0 <= i < j < |queue| ==> queue[i] != queue[j]
  }

  /** The queue after `goToFloor(floorNum)`: unchanged when the floor is
      already queued, otherwise extended by it at the end. */
  function Enqueued(queue: seq<int>, floorNum: int): (r: seq<int>)
    ensures floorNum in r
    ensures forall x :: x in r <==> x in queue || x == floorNum
    ensures queue <= r && |r| <= |queue| + 1
    ensures floorNum in queue <==> r == queue
    ensures NoDuplicates(queue) ==> NoDuplicates(r)
  {
    if floorNum in queue then queue else queue + [floorNum]
  }

  /** The number of `checkDestinationQueue` calls one `goToFloor(floorNum)`
      makes: one exactly when it appends. */
  function Signals(queue: seq<int>, floorNum: int): (n: nat)
    ensures n == |Enqueued(queue, floorNum)| - |queue|
  {
    if floorNum in queue then 0 else 1
  }

  /** Sending an elevator to a floor twice is the same as sending it once. */
  lemma EnqueuedIdempotent(queue: seq<int>, floorNum: int)
    ensures Enqueued(Enqueued(queue, floorNum), floorNum) == Enqueued(queue, floorNum)
    ensures Signals(Enqueued(queue, floorNum), floorNum) == 0
  {
  }

  /** JavaScript's `x || d` on a number that may be omitted: a missing or
      zero value falls back to `d`. */
  function IntOr(x: Option<int>, d: int): (r: int)
    ensures x.Some? && x.value != 0 ==> r == x.value
    ensures x.None? || x.value == 0 ==> r == d
  {
    if x.None? || x.value == 0 then d else x.value
  }

  /** JavaScript's `x || d` on a real that may be omitted. */
  function RealOr(x: Option<real>, d: real): (r: real)
    ensures x.Some? && x.value != 0.0 ==> r == x.value
    ensures x.None? || x.value == 0.0 ==> r == d
  {
    if x.None? || x.value == 0.0 then d else x.value
  }

  /** The optional settings of `createStubElevator`. */
  datatype StubOptions = StubOptions(
    currentFloor: Option<int>,
    destinationQueue: Option<seq<int>>,
    maxPassengerCount: Option<int>,
    loadFactor: Option<real>,
    pressedFloors: Option<seq<int>>)

  /** `createStubElevator()` called with no options at all. */
  const NoOptions := StubOptions(None, None, None, None, None)

  /** The settings a stub elevator ends up with once the defaults are applied. */
  datatype StubSettings = StubSettings(
    currentFloor: int,
    destinationQueue: seq<int>,
    maxPassengerCount: int,
    loadFactor: real,
    pressedFloors: seq<int>)

  /** Resolves omitted or falsy options to the stub's defaults: floor 0, an
      empty queue, capacity 5, load 0 and no pressed floors. A zero
      capacity is falsy and so also becomes 5. */
  function Resolve(options: StubOptions): (s: StubSettings)
    ensures s.currentFloor == options.currentFloor.GetOr(0)
    ensures s.loadFactor == options.loadFactor.GetOr(0.0)
    ensures s.destinationQueue == options.destinationQueue.GetOr([])
    ensures s.pressedFloors == options.pressedFloors.GetOr([])
    ensures options.maxPassengerCount.Some? && options.maxPassengerCount.value != 0
            ==> s.maxPassengerCount == options.maxPassengerCount.value
    ensures options.maxPassengerCount.GetOr(0) == 0 ==> s.maxPassengerCount == 5
  {
    StubSettings(
      IntOr(options.currentFloor, 0),
      if options.destinationQueue.Some? then options.destinationQueue.value else [],
      IntOr(options.maxPassengerCount, 5),
      RealOr(options.loadFactor, 0.0),
      if options.pressedFloors.Some? then options.pressedFloors.value else [])
  }

  /** The defaults of a stub elevator created without options. */
  lemma NoOptionsDefaults()
    ensures Resolve(NoOptions) == StubSettings(0, [], 5, 0.0, [])
  {
  }

  /** A supplied zero is falsy, so it resolves exactly as if the option had
      been left out. */
  lemma ZeroIsOmitted(options: StubOptions)
    ensures Resolve(options.(currentFloor := Some(0))) == Resolve(options.(currentFloor := None))
    ensures Resolve(options.(maxPassengerCount := Some(0)))
         == Resolve(options.(maxPassengerCount := None))
    ensures Resolve(options.(loadFactor := Some(0.0))) == Resolve(options.(loadFactor := None))
  {
  }

  /** A stub floor (`createFloor`): its number and the handlers registered
      for its two hall buttons. */
  class StubFloor {
    const num: int
    var upButtonPressedHandlers: seq<HandlerId>
    var downButtonPressedHandlers: seq<HandlerId>

    constructor (num: int)
      ensures this.num == num
      ensures upButtonPressedHandlers == [] && downButtonPressedHandlers == []
    {
      this.num := num;
      upButtonPressedHandlers := [];
      downButtonPressedHandlers := [];
    }

    function FloorNum(): int {
      num
    }

    /** Registers `handler` under "up_button_pressed" or
        "down_button_pressed"; any other name registers nothing. */
    method On(name: string, handler: HandlerId)
      modifies this
      ensures upButtonPressedHandlers == old(upButtonPressedHandlers)
              + (if name == "up_button_pressed" then [handler] else [])
      ensures downButtonPressedHandlers == old(downButtonPressedHandlers)
              + (if name == "down_button_pressed" then [handler] else [])
    {
      if name == "up_button_pressed" {
        upButtonPressedHandlers := upButtonPressedHandlers + [handler];
        return;
      }
      if name == "down_button_pressed" {
        downButtonPressedHandlers := downButtonPressedHandlers + [handler];
      }
    }
  }

  /** `createFloors(amount)`: `amount` fresh floors, the one at index `i`
      numbered `i`. */
  method CreateFloors(amount: nat) returns (floors: seq<StubFloor>)
    ensures |floors| == amount
    ensures forall i :: 0 <= i < amount ==> floors[i].FloorNum() == i
    ensures forall i :: 0 <= i < amount ==> fresh(floors[i])
    ensures forall i :: 0 <= i < amount ==>
              floors[i].upButtonPressedHandlers == [] && floors[i].downButtonPressedHandlers == []
  {
    floors := [];
    var i := 0;
    while i < amount
      invariant 0 <= i <= amount
      invariant |floors| == i
      invariant forall k :: 0 <= k < i ==> floors[k].FloorNum() == k
      invariant forall k :: 0 <= k < i ==> fresh(floors[k])
      invariant forall k :: 0 <= k < i ==>
                  floors[k].upButtonPressedHandlers == [] && floors[k].downButtonPressedHandlers == []
    {
      var floor := new StubFloor(i);
      floors := floors + [floor];
      i := i + 1;
    }
  }

  /** A stub elevator (`createStubElevator`). The floor, capacity, load and
      pressed floors are fixed at creation; the destination queue is
      updated by `GoToFloor`, and `checkCalls` counts the calls of the
      `checkDestinationQueue` mock. */
  class StubElevator {
    const currentFloor: int
    const maxPassengerCount: int
    const loadFactor: real
    const pressedFloors: seq<int>
    var destinationQueue: seq<int>
    var checkCalls: nat
    var floorButtonPressedHandlers: seq<HandlerId>
    var initHandlers: seq<HandlerId>

    /** The queue invariant that `GoToFloor` keeps. */
    ghost predicate Valid()
      reads this
    {
      NoDuplicates(destinationQueue)
    }

    /** The queue starts as a copy of the supplied one, so it is valid
        exactly when that one has no duplicates. */
    constructor (options: StubOptions)
      ensures StubSettings(currentFloor, destinationQueue, maxPassengerCount, loadFactor, pressedFloors)
              == Resolve(options)
      ensures Valid() <==> NoDuplicates(Resolve(options).destinationQueue)
      ensures checkCalls == 0
      ensures floorButtonPressedHandlers == [] && initHandlers == []
    {
      var s := Resolve(options);
      currentFloor := s.currentFloor;
      maxPassengerCount := s.maxPassengerCount;
      loadFactor := s.loadFactor;
      pressedFloors := s.pressedFloors;
      destinationQueue := s.destinationQueue;
      checkCalls := 0;
      floorButtonPressedHandlers := [];
      initHandlers := [];
    }

    function GetPressedFloors(): seq<int> {
      pressedFloors
    }

    /** The `checkDestinationQueue` signal. */
    method CheckDestinationQueue()
      modifies this`checkCalls
      ensures checkCalls == old(checkCalls) + 1
    {
      checkCalls := checkCalls + 1;
    }

    /** Appends `floorNum` when it is not queued yet and then signals once;
        otherwise does nothing. */
    method GoToFloor(floorNum: int)
      modifies this`destinationQueue, this`checkCalls
      ensures destinationQueue == Enqueued(old(destinationQueue), floorNum)
      ensures checkCalls == old(checkCalls) + Signals(old(destinationQueue), floorNum)
      ensures old(Valid()) ==> Valid()
    {
      if floorNum !in destinationQueue {
        destinationQueue := destinationQueue + [floorNum];
        CheckDestinationQueue();
      }
    }

    /** Registers `handler` under "floor_button_pressed" or "idle"; the
        other names the elevator accepts ("passing_floor",
        "stopped_at_floor") and any unknown name register nothing. */
    method On(name: string, handler: HandlerId)
      modifies this`floorButtonPressedHandlers, this`initHandlers
      ensures floorButtonPressedHandlers == old(floorButtonPressedHandlers)
              + (if name == "floor_button_pressed" then [handler] else [])
      ensures initHandlers == old(initHandlers) + (if name == "idle" then [handler] else [])
    {
      if name == "floor_button_pressed" {
        floorButtonPressedHandlers := floorButtonPressedHandlers + [handler];
        return;
      }
      if name == "idle" {
        initHandlers := initHandlers + [handler];
      }
    }
  }
}
