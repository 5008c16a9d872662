# Elevator-saga dispatcher, modelled in Dafny

This models the elevator dispatcher of `src/init.ts` and its untyped twin `src/init.js`. The dispatcher runs over the stub elevators and floors of `src/testHelpers.ts`. The model has four parts:

- **The cost of a call.** This is `getWorkToGetTo`: the floors an elevator travels from its current floor, through every queued stop in order, to the called floor.
- **Hall calls.** `getClosestElevator` sorts a copy of the fleet with a three-tier comparator and takes the first element. The first tier is having the floor queued already, the second is less work, and the third is a distance tie-break.
- **Idle elevators.** `goToClosest` sends an idle elevator to the pressed floor nearest its current floor.
- **The event handlers.** The handlers for "idle", "floor_button_pressed", "up_button_pressed" and "down_button_pressed" connect the parts above to the elevator's `goToFloor`.

The stub elevator's `goToFloor` appends a floor only when it is not queued yet, and then signals `checkDestinationQueue`. The model counts those signals. Each handler keeps the stub's queue invariant: no floor is queued twice.

Modules:

- `Cost` (`cost.dfy`): the path-length arithmetic.
- `TestHelpers` (`test_helpers.dfy`): the stub elevator and stub floor, as classes whose fields the methods update.
- `InitTs` (`init_ts.dfy`): the dispatcher of `src/init.ts`, including a `Fleet` class that holds the `elevators` and `floors` globals.
- `InitJs` (`init_js.dfy`): only what `src/init.js` does differently. It has no empty-fleet check.
- `Scenarios` (`scenarios.dfy`): concrete fleets with the outcome the model predicts.
- `Wrappers` (`wrappers.dfy`): `Option` and `Result`.

Three choices in the model:

- **Sorting.** JavaScript's `sort` is modelled as a selection. The returned elevator is one that the comparator puts no later than any member of the fleet. When no member has the floor queued, the comparator is a consistent order, and the selection also returns the first such elevator in fleet order, as a stable sort would.
- **Both queued.** When two elevators both have the floor queued, the comparator returns -1 both ways. In that case the model promises only some elevator that has the floor queued.
- **The tie-break.** On equal work the comparator puts the elevator FARTHER from the floor first, although the comment above it says "closest". The model follows the code (`InitTs.CompareTieBreakFarther`).

Two expectations in `src/init.test.ts` contradict the code, and the model follows the code in both:

- `src/init.test.ts:76` expects `[8, 9]`, but `goToFloor` appends, giving `[9, 8]` (`Scenarios.LeastWorkAnswersByAppending`).
- `src/init.test.ts:149` expects a `checkDestinationQueue` call for a floor that is already queued, but `goToFloor` makes none (`Scenarios.CabinPressAlreadyQueued`).

## Model

| member | source | states |
|---|---|---|
| Cost.PathLength | src/init.ts:25-30 | the distance summed over consecutive stops of a path is never negative |
| Cost.Targets | src/init.ts:24 | the path walked is the current floor, then the queue unchanged and in order, then the target floor |
| Cost.PathLengthAppend | src/init.ts:26-30 | joining two paths adds their lengths plus the hop between them |
| Cost.PathLengthAtLeastSpan | src/init.js:5-9 | a path is never shorter than the direct distance from its first stop to its last (triangle inequality) |
| Cost.WorkToGetToEmptyQueue | src/init.ts:24-30 | with an empty queue the work is exactly the distance from the current floor to the target |
| Cost.WorkToGetToAtLeastDistance | src/init.js:2-10 | the work to a floor is at least the direct distance to it |
| Cost.WorkToGetToSplit | src/init.ts:24-31 | the work is the committed route's length plus the hop from its last stop to the target |
| Cost.WorkToGetToMonotone | src/init.ts:23-32 | queuing one more stop never lowers the work to reach a floor |
| InitTs.GetWorkToGetTo | src/init.ts:23-32 | the hop-by-hop loop returns exactly the path length of current floor, queue, target (the same loop is at src/init.js:2-11) |
| InitTs.CompareNoneQueued | src/init.ts:49-56 | when neither elevator has the floor queued, the comparator puts the first first iff it has less work, or equal work and is farther away; it returns 0 iff work and distance are equal, and it is antisymmetric |
| InitTs.CompareBothQueued | src/init.ts:41-45 | when both elevators have the floor queued, each is put before the other |
| InitTs.CompareTieBreakFarther | src/init.ts:55-56 | on equal work the elevator farther from the floor is put first, in both argument orders |
| InitTs.RanksFirstHasFloor | src/init.ts:41-48 | if any member has the floor queued, the elevator ranked first has it queued |
| InitTs.RanksFirstLeastWork | src/init.ts:49-56 | if no member has the floor queued, the elevator ranked first does the least work of the fleet, and among those doing as little it is the farthest from the floor |
| InitTs.RankFleet | src/init.ts:41-51 | computes, in fleet order, each elevator's (floor queued, work, distance) triple that the comparator reads |
| InitTs.SelectFirst | src/init.ts:40-58 | returns an index that the comparator puts no later than any other; when no rank is queued, no earlier index ranks as well |
| InitTs.RankFirst | src/init.ts:39-58 | returns a member of the fleet that ranks first; when no member has the floor queued, every earlier member ranks strictly after it (the stable-sort choice) |
| InitTs.SortsFirstUnique | src/init.ts:39-58 | when no member has the floor queued, only one index is what a stable sort puts first, so the choice is deterministic even between elevators tied on work and distance |
| InitTs.GetClosestElevator | src/init.ts:34-59 | fails with "Must provide an elevator" exactly when the fleet is empty; otherwise returns the member at an index that a stable sort of the fleet puts first: it ranks first, and when nothing is queued every earlier member ranks strictly after it |
| InitTs.IsNearestUnique | src/init.ts:66-69 | only one index is nearest in the stable-sort sense, so the idle choice is deterministic |
| InitTs.NearestFloor | src/init.ts:66-69 | returns the index of a floor at least as near as every other, with no earlier floor as near |
| InitTs.GoToClosest | src/init.ts:61-70 | leaves the elevator unchanged on an empty list; otherwise makes one `goToFloor` to the nearest floor of the list; keeps the queue free of duplicates |
| InitTs.Fleet.constructor | src/init.ts:1-2 | a fleet holds the given elevators and floors |
| InitTs.Fleet.OnIdle | src/init.ts:72-75 | the idle handler sends the elevator to its nearest pressed floor, or leaves it unchanged when none is pressed; handler lists and the fleet's no-duplicates invariant are kept |
| InitTs.Fleet.OnFloorButtonPressed | src/init.ts:77-79 | a cabin press is one `goToFloor` on that elevator; handler lists and the invariant are kept |
| InitTs.Fleet.SendTo | src/init.ts:84 | `goToFloor` on one elevator of the fleet changes only that elevator's queue and signal count, and keeps the invariant |
| InitTs.Fleet.HallCall | src/init.ts:84 | throws "Must provide an elevator" exactly on an empty fleet; otherwise the elevator that a stable sort put first before the call is sent to the floor and every other elevator is unchanged; the invariant is kept |
| InitTs.Fleet.OnUpButtonPressed | src/init.ts:83-85 | the up button of floor j is a hall call at j's number |
| InitTs.Fleet.OnDownButtonPressed | src/init.ts:86-88 | the down button is the same hall call as the up button |
| InitJs.GetClosestElevator | src/init.js:13-34 | absent exactly on an empty fleet, which does not throw; otherwise the member at an index that a stable sort puts first |
| InitJs.HallCall | src/init.js:59 | a `TypeError` exactly on an empty fleet (the `goToFloor` of `undefined`); otherwise the elevator a stable sort put first is sent and no other changes, as in init.ts |
| InitJs.OnUpButtonPressed | src/init.js:58-60 | the up button of floor j is a hall call at j's number |
| InitJs.OnDownButtonPressed | src/init.js:61-63 | the down button is the same hall call as the up button |
| TestHelpers.Enqueued | src/testHelpers.ts:100-101 | the queue after `goToFloor` holds the floor; its members are the old ones plus the floor; the old queue is a prefix and at most one entry is added; it is unchanged exactly when the floor was already queued; a queue without duplicates stays so |
| TestHelpers.Signals | src/testHelpers.ts:100-102 | `checkDestinationQueue` is called once exactly when the queue grows |
| TestHelpers.EnqueuedIdempotent | src/testHelpers.ts:99-104 | sending an elevator to the same floor twice is the same as once, and the second call does not signal |
| TestHelpers.IntOr | src/testHelpers.ts:63 | a missing or zero number gives the default; any other value is kept |
| TestHelpers.RealOr | src/testHelpers.ts:85 | a missing or zero real gives the default; any other value is kept |
| TestHelpers.Resolve | src/testHelpers.ts:63-110 | current floor defaults to 0, load to 0, queue and pressed floors to empty, capacity to 5 whenever it is missing or 0; supplied truthy values are kept |
| TestHelpers.ZeroIsOmitted | src/testHelpers.ts:63-97 | a supplied 0 for current floor, capacity or load resolves exactly as leaving the option out |
| TestHelpers.NoOptionsDefaults | src/testHelpers.ts:58-110 | a stub made with no options is at floor 0 with an empty queue, capacity 5, load 0 and no pressed floors |
| TestHelpers.StubFloor.constructor | src/testHelpers.ts:18-27 | a new floor reports its number and has no handlers |
| TestHelpers.StubFloor.On | src/testHelpers.ts:28-36 | registers the handler under "up_button_pressed" or "down_button_pressed" only, at the end of that list |
| TestHelpers.CreateFloors | src/testHelpers.ts:40-42 | `amount` new floors, the one at index i numbered i, with no handlers |
| TestHelpers.StubElevator.constructor | src/testHelpers.ts:51-72 | the stub's settings are the resolved options, the queue is valid iff the supplied one has no duplicates, no signals and no handlers yet |
| TestHelpers.StubElevator.CheckDestinationQueue | src/testHelpers.ts:66 | each call of the mock adds one to its call count |
| TestHelpers.StubElevator.GoToFloor | src/testHelpers.ts:99-104 | the queue becomes `Enqueued` of the old queue, the signal count grows by `Signals`, nothing else changes, and no duplicates are kept |
| TestHelpers.StubElevator.On | src/testHelpers.ts:112-123 | registers the handler under "floor_button_pressed" or "idle" only; "passing_floor", "stopped_at_floor" and other names register nothing |
| Scenarios.WorkThereAndBack | src/init.test.ts:62-65 | floor 8 with 9 queued is two floors of work from floor 8 |
| Scenarios.OnlySecondRanksFirst | src/init.ts:40-58 | in a fleet of two where the comparator puts the second first, only the second ranks first |
| Scenarios.UpButtonToSecond | src/init.ts:83-85 | in such a fleet the up button of a floor sends the second elevator to that floor and leaves the first's queue and signal count unchanged |
| Scenarios.UpButtonToFirst | src/init.ts:39-58 | in a fleet of two with nothing queued where the comparator does not put the second first, the up button's stable sort sends the first and leaves the second's queue and signal count unchanged |
| Scenarios.NearerIdleElevatorAnswers | src/init.test.ts:41-56 | idle elevators at floors 0 and 1, four floors from `createFloors`, and the up button of floor 2: the second gets `[2]` and one signal, the first stays empty with no signal |
| Scenarios.LeastWorkAnswersByAppending | src/init.test.ts:58-77 | an idle elevator at 0 and one at 8 bound for 9, ten floors, and the up button of floor 8: the second answers and its queue becomes `[9, 8]`; the first stays empty with no signal |
| Scenarios.TieGoesToFirstInOrder | src/init.ts:39-58 | two idle elevators both at floor 0 and the up button of floor 2 tie on work and distance; the first in fleet order gets `[2]`, the second stays empty with no signal |
| Scenarios.CabinPressAlreadyQueued | src/init.test.ts:142-150 | pressing an already queued floor leaves `[1]` and sends no signal |
| Scenarios.IdleGoesToNearestPressedFloor | src/init.ts:72-75 | an idle elevator at floor 3 with floors 0 and 5 pressed is sent to 5 |

## Left out

- Sorting algorithm: JavaScript's `Array.prototype.sort` is not modelled. A selection whose result ranks first under the comparator stands in for "the first element of the sorted copy".
- InitTs.RankFirst: when several elevators have the floor queued, the comparator is inconsistent and the one returned depends on the engine's sort algorithm. The model promises only some member that ranks first, which has the floor queued.
- InitTs.GetClosestElevator: states that its result is what a stable sort puts first. What that implies (the floor already queued, or else least work with the farther-first tie-break) is stated in `InitTs.RanksFirstHasFloor` and `InitTs.RanksFirstLeastWork` rather than in its own contract.
- Stub getters: `loadFactor()`, `maxPassengerCount()` and `getPressedFloors()` read `options` again on every call. The model resolves them once, at construction, into constant fields, so a caller that mutates its options object after creating the stub is not modelled.
- Copies and aliasing: arrays are Dafny sequences, which are values. The fleet copy made by `slice`, the floor list made by `slice(0)` and the queue copied from the options cannot alias the caller's arrays, so "the caller's array is not reordered" holds by construction and is not stated. `getPressedFloors` returning the options' own array is not modelled either.
- Callbacks: the stubs' own `on` methods are modelled, as handler identities appended to lists. Invoking registered handlers, and the wrapped arguments `(num, 'up')` and `(0, 'up')`, are not.
- Global variables: the `elevators` and `floors` globals become the fields of `InitTs.Fleet`. The `forEach` loops that register the dispatcher's handlers with `on` (src/init.ts:72-89, src/init.js:47-64) are not modelled: `Fleet`'s constructor registers nothing, and each handler is a `Fleet` method called directly.
- `jest.fn`: the mock is modelled only by its call count.
- Constant stubs: `destinationDirection`, `goingUpIndicator`, `goingDownIndicator` and `stop` return constants or do nothing.
- Numbers: floors are integers. `NaN`, fractional and unsafe-integer floors are not modelled. `loadFactor` is a real, used only for its default.
- TestHelpers.CreateFloors: takes a `nat`, so the `RangeError` that `Array(amount)` throws for a negative or fractional amount is not modelled.
- `src/init.test.ts` beyond the scenarios above: it tests a default-exported `init()` with capacity checks, parking in the middle, queue reordering and removal of stops. None of these appears in `src/init.ts` or `src/init.js`, so none is modelled.
- `scripts/build.js`: template rendering and file I/O.
- `src/types.ts`: type declarations only. It served as the shape of the classes.
