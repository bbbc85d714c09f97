# RinLog real-time re-planner — a Dafny model

This project models the core of RinLog's real-time pickup-and-delivery
re-planner and proves properties of the model. There are three parts.

- **Snapshot → routing model → schedule** (`OptaplannerSolvers.convert`,
  `initRoute`, `toSchedule`):
  - A world snapshot (`GlobalState`) becomes a routing model (`Solution`).
  - The model is an arena of visits. Each visit holds a parcel, a kind
    (PICKUP or DELIVER) and an optional association, the index of its
    sibling visit.
  - Each vehicle has a chain of arena indices. The chain is the order in
    which the source's `previous`/`next` links are met from the vehicle.
  - `toSchedule` reads the chains back as routes.
  - The simulated-time solver (`doSolve`, `solve`) is modelled around an
    abstract search engine.
- **The real-time coordinator** (`OptaplannerRTSolver`) is a sequential
  state machine.
  - State: `permissionToRun`, `lastSnapshot`, the engine's `isSolving`
    and `isTerminateEarly`, whether a scheduler is installed, and the
    attempts queued on the shared executor.
  - Transitions: `init`, `problemChanged`, `receiveSnapshot`, `cancel`,
    `start` and `doCancel`. The solver thread's own steps are transitions
    too: a queued attempt begins, or a search ends.
  - The completion callbacks and the new-best-solution listener are pure
    functions. They return the list of scheduler actions they perform
    (`UpdateSchedule`, `DoneForNow`, `ReportException`).
- **Per-vehicle route queues**:
  - `RtSolverRoutePlanner`: pruning stale parcels, seeding the real-time
    solver, and replacing the route on NEW_SCHEDULE.
  - `SolverRoutePlanner`: `changeRoute`, the clear branch, the
    seeded-then-unseeded fallback, and creating the solver handle.
  - The queue observers both planners share.
  - The `modifySchedule`/`modifyCosts` helpers of the cheapest-insertion
    heuristic, as their unit tests pin them down.

Modules, one per file:

- `Base`: parcels, `Option`, `Result`, and the exception kinds.
- `Snapshot`, `RoutingModel`.
- `Conversion`: `convert`.
- `ConvertInvariants`: the arena invariant and its preservation.
- `ConvertProperties`: what a conversion guarantees.
- `Solving`: `doSolve` and `solve`.
- `Coordinator` and `CoordinatorProperties`.
- `RouteQueue`, `RtRoutePlanner`, `SolverRoutePlanner`, `ScheduleEdits`.

Some behaviour of the code that a reader might not expect, and that the
model keeps:

- `receiveSnapshot` never records a baseline. `lastSnapshot` is assigned
  only in `start` (OptaplannerSolvers.java:526), so a heartbeat is compared
  with the snapshot the running attempt was started from. Before the first
  `start`, every heartbeat is ignored
  (`CoordinatorProperties.ReceiveBeforeStartRecordsNothing`).
- After `cancel`, the completion of the attempt that was stopped still
  publishes a non-null schedule. Because permission is now false, it also
  calls `doneForNow` (`CoordinatorProperties.LateSuccessAfterCancelPublishes`).
- `convert` creates a PICKUP/DELIVER pair for every available parcel,
  including parcels that a vehicle carries.
- A DELIVER visit created while walking a route, when no pre-made one is
  left, has no association, so not every visit has a sibling.
- Only a destination that is present and differs from the recorded one
  restarts the solver. A heartbeat with more vehicles than the recorded
  snapshot throws IndexOutOfBoundsException when a committed extra vehicle
  is met before any new commitment (`Coordinator.DetectChange`,
  `CoordinatorProperties.ExtraCommittedVehicleThrows`).
- A queued attempt on a snapshot that `convert` rejects fails inside
  `doSolve` before the engine starts, so it neither starts solving nor
  clears the early-termination flag
  (`CoordinatorProperties.RejectedSnapshotNeverStartsEngine`).

## Model

| member | source | states |
|---|---|---|
| `Conversion.Convert` | src/main/java/com/github/rinde/logistics/pdptw/solver/optaplanner/OptaplannerSolvers.java:124-203 | fails with IllegalArgument exactly when a unit is not ms, km/h or km, or some vehicle has no known route; on success the model carries the snapshot's time and one chain per vehicle |
| `Conversion.Seed` | src/main/java/com/github/rinde/logistics/pdptw/solver/optaplanner/OptaplannerSolvers.java:137-146 | one PICKUP/DELIVER pair per available parcel, in order, each the other's association; the pickup and delivery maps hold exactly the available parcels and point at that pair |
| `Conversion.ClassifyOne` | src/main/java/com/github/rinde/logistics/pdptw/solver/optaplanner/OptaplannerSolvers.java:169-182 | placing one route parcel adds one visit to the walk, only grows the arena, and leaves the maps of every other parcel untouched |
| `Conversion.ClassifyRoute` | src/main/java/com/github/rinde/logistics/pdptw/solver/optaplanner/OptaplannerSolvers.java:169-182 | walking a route places one visit per route parcel, in order, and leaves the maps of parcels not on the route untouched |
| `Conversion.Walk` | src/main/java/com/github/rinde/logistics/pdptw/solver/optaplanner/OptaplannerSolvers.java:151-193 | the vehicle loop fails (IllegalArgument) exactly when a remaining vehicle has no route; otherwise it adds one chain per remaining vehicle and keeps the earlier ones |
| `ConvertInvariants.SeedInv` | src/main/java/com/github/rinde/logistics/pdptw/solver/optaplanner/OptaplannerSolvers.java:137-146 | the pre-made visits satisfy the arena invariant (pairs laid out, maps pointing at unplaced visits of the right parcel and kind, nothing placed) |
| `ConvertInvariants.ClassifyOneInv` | src/main/java/com/github/rinde/logistics/pdptw/solver/optaplanner/OptaplannerSolvers.java:169-182 | one placement keeps the arena invariant, places a visit of the route parcel, and classifies it: PICKUP iff not carried, available and its pickup not yet placed; a fresh DELIVER iff no pre-made DELIVER is left |
| `ConvertInvariants.ClassifyRouteInv` | src/main/java/com/github/rinde/logistics/pdptw/solver/optaplanner/OptaplannerSolvers.java:169-182 | a whole route keeps the invariant; the placed visits spell the route and each is classified by the rule above |
| `ConvertProperties.ConvertRoundTrip` | src/main/java/com/github/rinde/logistics/pdptw/solver/optaplanner/OptaplannerSolvers.java:151-269 | every chain index is inside the arena, and `toSchedule` of the model gives each vehicle's walked route in vehicle order: route₀ ++ U ++ U for vehicle 0, route_i otherwise |
| `ConvertProperties.ConvertClassification` | src/main/java/com/github/rinde/logistics/pdptw/solver/optaplanner/OptaplannerSolvers.java:169-182 | every chain visit is classified by the rule above, relative to all visits placed before it across the earlier chains |
| `ConvertProperties.ConvertCarriedIsDelivery` | src/main/java/com/github/rinde/logistics/pdptw/solver/optaplanner/OptaplannerSolvers.java:170-178 | a parcel the vehicle carries only ever gets a DELIVER visit on that vehicle's chain |
| `ConvertProperties.ConvertChainsDisjoint` | src/main/java/com/github/rinde/logistics/pdptw/solver/optaplanner/OptaplannerSolvers.java:171-181 | no visit is on two chains or twice on one: each pre-made visit is consumed at most once |
| `ConvertProperties.ConvertPremade` | src/main/java/com/github/rinde/logistics/pdptw/solver/optaplanner/OptaplannerSolvers.java:137-182 | the visit list starts with the pre-made pairs in available-parcel order; every later visit is a fresh DELIVER without association |
| `ConvertProperties.ConvertAssociationSymmetric` | src/main/java/com/github/rinde/logistics/pdptw/solver/optaplanner/OptaplannerSolvers.java:137-146 | associations are symmetric: an associated visit points back, concerns the same parcel and has the other kind |
| `ConvertProperties.ConvertPairsUnique` | src/main/java/com/github/rinde/logistics/pdptw/solver/optaplanner/OptaplannerSolvers.java:137-182 | with distinct available parcels, parcel k's pair sits at 2k and 2k+1, it has no other PICKUP visit, and no other associated DELIVER |
| `ConvertProperties.Chain0PickupPrecedesDelivery` | src/main/java/com/github/rinde/logistics/pdptw/solver/optaplanner/OptaplannerSolvers.java:148-182 | on vehicle 0's chain, an unassigned, available, uncarried parcel that is not on vehicle 0's route is picked up at its first copy and delivered at its second, later copy, and the two visits are each other's association |
| `RoutingModel.ToSchedule` | src/main/java/com/github/rinde/logistics/pdptw/solver/optaplanner/OptaplannerSolvers.java:243-257 | one route per vehicle, in vehicle order; route i has one parcel per visit on chain i, the parcel of that visit, in chain order |
| `Solving.DoSolve` | src/main/java/com/github/rinde/logistics/pdptw/solver/optaplanner/OptaplannerSolvers.java:396-407 | a snapshot `convert` rejects raises IllegalArgument; otherwise the answer is null exactly when the best solution's hard score is non-zero, and else is the schedule read back from the best solution's chains, one route per chain |
| `Solving.Solve` | src/main/java/com/github/rinde/logistics/pdptw/solver/optaplanner/OptaplannerSolvers.java:380-392 | succeeds exactly when `doSolve` returns a schedule, with that schedule; a null answer becomes IllegalState |
| `Solving.IdleSearchReturnsPlannedRoutes` | src/main/java/com/github/rinde/logistics/pdptw/solver/optaplanner/OptaplannerSolvers.java:396-407 | a search that keeps the initial model and finds it feasible makes `doSolve` return exactly the routes `convert` walked |
| `Coordinator.Init` | src/main/java/com/github/rinde/logistics/pdptw/solver/optaplanner/OptaplannerSolvers.java:452-456 | a second `init` fails with IllegalState; the first installs the scheduler and keeps the invariant |
| `Coordinator.DoCancel` | src/main/java/com/github/rinde/logistics/pdptw/solver/optaplanner/OptaplannerSolvers.java:571-586 | afterwards nothing is solving; a running search was told to terminate early; permission, snapshot and queue are unchanged |
| `Coordinator.Start` | src/main/java/com/github/rinde/logistics/pdptw/solver/optaplanner/OptaplannerSolvers.java:519-534 | IllegalState without a scheduler; always stops the search, and a running search is told to terminate early; without permission nothing is recorded or queued; with permission the snapshot is recorded and one attempt on it is queued |
| `Coordinator.ProblemChanged` | src/main/java/com/github/rinde/logistics/pdptw/solver/optaplanner/OptaplannerSolvers.java:476-479 | IllegalState without a scheduler; otherwise grants permission, stops the running search (telling it to terminate early), records the snapshot and queues one attempt on it |
| `Coordinator.Cancel` | src/main/java/com/github/rinde/logistics/pdptw/solver/optaplanner/OptaplannerSolvers.java:514-517 | permission withdrawn, nothing solving, a running search told to terminate early; snapshot and queued attempts untouched |
| `Coordinator.IsComputing` | src/main/java/com/github/rinde/logistics/pdptw/solver/optaplanner/OptaplannerSolvers.java:589-591 | computing exactly while a search runs or permission is held |
| `Coordinator.DetectChange` | src/main/java/com/github/rinde/logistics/pdptw/solver/optaplanner/OptaplannerSolvers.java:489-505 | reports a change exactly when some vehicle has a present destination different from the recorded one before any vehicle the recorded snapshot lacks; throws IndexOutOfBounds exactly when such a missing vehicle with a destination comes first |
| `Coordinator.ReceiveSnapshot` | src/main/java/com/github/rinde/logistics/pdptw/solver/optaplanner/OptaplannerSolvers.java:482-511 | a no-op before the first `start`; otherwise, scanning the vehicles in order: IndexOutOfBounds if a committed vehicle the recorded snapshot lacks comes before any new commitment, a restart if a new commitment comes first, and a no-op if neither occurs; it only ever records the new snapshot through `start` with permission |
| `Coordinator.Begin` | src/main/java/com/github/rinde/logistics/pdptw/solver/optaplanner/OptaplannerSolvers.java:609-614 | a queued attempt fails its `verify` while the engine is solving; a snapshot `convert` rejects fails it with IllegalArgument before the engine starts; otherwise solving begins with the early-termination flag reset, the attempt is dequeued and nothing else changes |
| `Coordinator.Finish` | src/main/java/com/github/rinde/logistics/pdptw/solver/optaplanner/OptaplannerSolvers.java:396-399 | a search ending by itself only clears the solving flag: permission, recorded snapshot, queue, early-termination flag and scheduler are unchanged |
| `Coordinator.OnSuccess` | src/main/java/com/github/rinde/logistics/pdptw/solver/optaplanner/OptaplannerSolvers.java:536-559 | null result: silent if terminated early, otherwise exactly one IllegalArgument report; non-null: exactly the publication, followed by `doneForNow` unless permission and early termination both hold |
| `Coordinator.OnFailure` | src/main/java/com/github/rinde/logistics/pdptw/solver/optaplanner/OptaplannerSolvers.java:562-567 | a cancellation is swallowed; any other fault is reported, once |
| `Coordinator.BestSolutionChanged` | src/main/java/com/github/rinde/logistics/pdptw/solver/optaplanner/OptaplannerSolvers.java:458-471 | publishes an initialized, feasible best solution against the recorded snapshot; fails `verifyNotNull` exactly when there is none; publishes nothing otherwise |
| `CoordinatorProperties.Apply` | src/main/java/com/github/rinde/logistics/pdptw/solver/optaplanner/OptaplannerSolvers.java:452-591 | every event keeps the coordinator invariant (a snapshot is recorded whenever an attempt is queued or running, and a running search was not told to stop) |
| `CoordinatorProperties.Step` | src/main/java/com/github/rinde/logistics/pdptw/solver/optaplanner/OptaplannerSolvers.java:476-479 | an event that succeeds gives its new state; one that throws leaves the state as it was, except that a failed `problemChanged` keeps the permission it granted; the invariant is kept either way |
| `CoordinatorProperties.RunKeepsInv` | src/main/java/com/github/rinde/logistics/pdptw/solver/optaplanner/OptaplannerSolvers.java:452-591 | any run of events, including events whose entry point threw, keeps the invariant |
| `CoordinatorProperties.ListenerNeverFailsWhileSolving` | src/main/java/com/github/rinde/logistics/pdptw/solver/optaplanner/OptaplannerSolvers.java:458-471 | from construction, along any history of events, including ones where entry points threw, while a search runs the listener's `verifyNotNull(lastSnapshot)` cannot fail |
| `CoordinatorProperties.ReceiveBeforeStartRecordsNothing` | src/main/java/com/github/rinde/logistics/pdptw/solver/optaplanner/OptaplannerSolvers.java:484-487 | before the first `start`, heartbeats change nothing, so a second one is still ignored |
| `CoordinatorProperties.ClearedDestinationsNeverRestart` | src/main/java/com/github/rinde/logistics/pdptw/solver/optaplanner/OptaplannerSolvers.java:489-505 | destinations that only disappear or stay equal never restart the solver |
| `CoordinatorProperties.TimeOnlyChangeNeverRestarts` | src/main/java/com/github/rinde/logistics/pdptw/solver/optaplanner/OptaplannerSolvers.java:489-505 | a snapshot differing from the recorded one only in its time never restarts |
| `CoordinatorProperties.NewCommitmentRestarts` | src/main/java/com/github/rinde/logistics/pdptw/solver/optaplanner/OptaplannerSolvers.java:489-510 | a new commitment stops the search; with permission it records and queues the new snapshot, without permission it records and queues nothing |
| `CoordinatorProperties.LateSuccessAfterCancelPublishes` | src/main/java/com/github/rinde/logistics/pdptw/solver/optaplanner/OptaplannerSolvers.java:548-557 | after `cancel`, a late non-null completion still publishes and calls `doneForNow` |
| `CoordinatorProperties.RestartContinues` | src/main/java/com/github/rinde/logistics/pdptw/solver/optaplanner/OptaplannerSolvers.java:548-554 | after a restart with permission, the stopped attempt's completion publishes but does not call `doneForNow` |
| `CoordinatorProperties.NullResultReportedUnlessTerminated` | src/main/java/com/github/rinde/logistics/pdptw/solver/optaplanner/OptaplannerSolvers.java:538-547 | a running search that ends with a null result is reported as IllegalArgument; after `cancel` or a restart the same null result is silent |
| `CoordinatorProperties.CancelThenProblemChanged` | src/main/java/com/github/rinde/logistics/pdptw/solver/optaplanner/OptaplannerSolvers.java:589-591 | `isComputing` is false after `cancel` and true again after `problemChanged` |
| `CoordinatorProperties.RejectedSnapshotNeverStartsEngine` | src/main/java/com/github/rinde/logistics/pdptw/solver/optaplanner/OptaplannerSolvers.java:396-399 | a queued attempt on a snapshot `convert` rejects is consumed without starting the engine or touching its flags, and `onFailure` reports its IllegalArgument |
| `CoordinatorProperties.ExtraCommittedVehicleThrows` | src/main/java/com/github/rinde/logistics/pdptw/solver/optaplanner/OptaplannerSolvers.java:489-500 | a heartbeat whose first committed vehicle beyond the recorded snapshot comes before any new commitment throws IndexOutOfBounds instead of restarting |
| `RouteQueue.HasNext` | src/main/java/com/github/rinde/logistics/pdptw/mas/route/RtSolverRoutePlanner.java:92-94 | true exactly when the route is non-empty |
| `RouteQueue.Current` | src/main/java/com/github/rinde/logistics/pdptw/mas/route/RtSolverRoutePlanner.java:97-99 | absent exactly on an empty route, otherwise the head |
| `RouteQueue.CurrentRoute` | src/main/java/com/github/rinde/logistics/pdptw/mas/route/RtSolverRoutePlanner.java:102-107 | absent exactly on an empty route, otherwise the whole route |
| `RouteQueue.Next` | src/main/java/com/github/rinde/logistics/pdptw/mas/route/RtSolverRoutePlanner.java:110-112 | drops only the head; an empty route stays empty |
| `RouteQueue.ObserversAgree` | src/main/java/com/github/rinde/logistics/pdptw/mas/route/SolverRoutePlanner.java:114-130 | `hasNext`, `current` and `currentRoute` agree on emptiness, and `current` is the head of `currentRoute` |
| `RouteQueue.AdvanceDrops` | src/main/java/com/github/rinde/logistics/pdptw/mas/route/SolverRoutePlanner.java:133-135 | k calls of `nextImpl` leave the route from position k on, or nothing |
| `RouteQueue.ServedInOrder` | src/main/java/com/github/rinde/logistics/pdptw/mas/route/SolverRoutePlanner.java:119-135 | the queue hands out the parcels in route order |
| `RtRoutePlanner.Prune` | src/main/java/com/github/rinde/logistics/pdptw/mas/route/RtSolverRoutePlanner.java:62-71 | every stale parcel (not on the map, not picked up, not in transition) is removed entirely; every other parcel keeps all its occurrences |
| `RtRoutePlanner.PruneIsSubsequence` | src/main/java/com/github/rinde/logistics/pdptw/mas/route/RtSolverRoutePlanner.java:62-71 | the pruned route keeps the surviving parcels in their original order |
| `RtRoutePlanner.PruneKeepsFresh` | src/main/java/com/github/rinde/logistics/pdptw/mas/route/RtSolverRoutePlanner.java:62-71 | a route without stale parcels is left as it is |
| `RtRoutePlanner.PruneIdempotent` | src/main/java/com/github/rinde/logistics/pdptw/mas/route/RtSolverRoutePlanner.java:62-71 | pruning twice is pruning once |
| `RtRoutePlanner.DoUpdate` | src/main/java/com/github/rinde/logistics/pdptw/mas/route/RtSolverRoutePlanner.java:57-89 | clears the route exactly when nothing is on the map or on board; otherwise prunes it and asks the solver to plan for the parcels on the map seeded with exactly the pruned route; without a solver, IllegalState after pruning |
| `RtRoutePlanner.SeedIsPrunedRoute` | src/main/java/com/github/rinde/logistics/pdptw/mas/route/RtSolverRoutePlanner.java:62-87 | the seed is the pruned route: an ordered subsequence holding exactly the route's non-stale parcels |
| `RtRoutePlanner.UpdateTwiceSameWorld` | src/main/java/com/github/rinde/logistics/pdptw/mas/route/RtSolverRoutePlanner.java:57-89 | a second update in the same world changes nothing more |
| `RtRoutePlanner.NewSchedule` | src/main/java/com/github/rinde/logistics/pdptw/mas/route/RtSolverRoutePlanner.java:118-125 | the route becomes entry 0 of the current schedule and one change event is dispatched; an absent schedule is IllegalState, an empty one IndexOutOfBounds, and neither dispatches |
| `RtRoutePlanner.NewScheduleReplacesRoute` | src/main/java/com/github/rinde/logistics/pdptw/mas/route/RtSolverRoutePlanner.java:118-125 | after a new schedule the queue serves exactly its first route, whatever it held before, and one change event was dispatched |
| `SolverRoutePlanner.Create` | src/main/java/com/github/rinde/logistics/pdptw/mas/route/SolverRoutePlanner.java:58-64 | a new planner has an empty route and no solver handle |
| `SolverRoutePlanner.ChangeRoute` | src/main/java/com/github/rinde/logistics/pdptw/mas/route/SolverRoutePlanner.java:72-75 | the route becomes exactly the given one and `updated` is set; nothing else changes |
| `SolverRoutePlanner.Args` | src/main/java/com/github/rinde/logistics/pdptw/mas/route/SolverRoutePlanner.java:94-107 | the solver plans for the parcels on the map, seeded with the current route exactly when reuse is on and the route is accepted |
| `SolverRoutePlanner.DoUpdate` | src/main/java/com/github/rinde/logistics/pdptw/mas/route/SolverRoutePlanner.java:78-112 | clears the route when nothing is left; otherwise the route becomes entry 0 of the solver's answer; IllegalState without a handle, IndexOutOfBounds on an empty answer; every completed update dispatches exactly one change event and changes nothing else |
| `SolverRoutePlanner.AfterInit` | src/main/java/com/github/rinde/logistics/pdptw/mas/route/SolverRoutePlanner.java:144-150 | a handle exists afterwards exactly when one existed or both the builder and the vehicle are present |
| `SolverRoutePlanner.SetSolverProvider` | src/main/java/com/github/rinde/logistics/pdptw/mas/route/SolverRoutePlanner.java:138-141 | the builder is remembered and the handle is created when the vehicle is present; route, reuse flag, `updated` and change count are unchanged |
| `SolverRoutePlanner.SeedOnlyWhenReusedAndAccepted` | src/main/java/com/github/rinde/logistics/pdptw/mas/route/SolverRoutePlanner.java:94-108 | seeded when reuse is on and the route is accepted, unseeded otherwise; never seeded with reuse off |
| `SolverRoutePlanner.NoReuseIgnoresRoute` | src/main/java/com/github/rinde/logistics/pdptw/mas/route/SolverRoutePlanner.java:94-108 | with reuse off the update does not depend on the current route |
| `SolverRoutePlanner.HandleNeedsBuilderAndVehicle` | src/main/java/com/github/rinde/logistics/pdptw/mas/route/SolverRoutePlanner.java:138-150 | no handle with only the builder; a handle once the vehicle is there too, in either order |
| `SolverRoutePlanner.ChangeRouteServes` | src/main/java/com/github/rinde/logistics/pdptw/mas/route/SolverRoutePlanner.java:72-75 | after `changeRoute`, the queue serves exactly the given route |
| `ScheduleEdits.ModifySchedule` | src/test/java/com/github/rinde/logistics/pdptw/solver/CheapestInsertionHeuristicTest.java:54-72 | replaces route i and keeps the length and every other route; an index below 0 or at least the length is IllegalArgument |
| `ScheduleEdits.ModifyCosts` | src/test/java/com/github/rinde/logistics/pdptw/solver/CheapestInsertionHeuristicTest.java:74-80 | replaces element i and keeps the length and every other element |
| `ScheduleEdits.ModifyScheduleUndo` | src/test/java/com/github/rinde/logistics/pdptw/solver/CheapestInsertionHeuristicTest.java:54-60 | putting the old route back restores the schedule; a second replacement overrides the first |
| `ScheduleEdits.ModifyCostsUndo` | src/test/java/com/github/rinde/logistics/pdptw/solver/CheapestInsertionHeuristicTest.java:74-80 | putting the old cost back restores the list; a second replacement overrides the first |
| `ScheduleEdits.TestedCases` | src/test/java/com/github/rinde/logistics/pdptw/solver/CheapestInsertionHeuristicTest.java:54-80 | the unit tests' concrete cases: indices 0 and 1 replaced, indices 2 and -1 rejected, and cost element 2 replaced |

## Left out

- The search engine (Optaplanner) is not modelled. `createOptaplannerSolver`
  and `getConfigsFromBenchmark` only configure the library from XML and
  benchmark files, and the score calculator is not part of this model. The
  engine is a parameter: a function from a problem to its hard score, its
  soft score and its best solution. It is assumed to keep chain indices
  inside the arena.
- Threads, futures, the shared executor and `synchronized` are not modelled.
  Each entry point is one atomic transition. An attempt's start and a
  search's natural end are separate transitions.
- The polling loop in `doCancel`, with its sleep and interrupt path, is one
  step that leaves nothing solving. The interrupted wait, which can return
  while the search still runs, is not modelled.
- Coordinator.DoCancel: after an interrupted wait the engine may still be
  solving. The model always promises that nothing is solving afterwards.
- The `Validator` solver (double-precision cost comparison and printing) is
  not modelled. Neither are logging and the diagnostic branches of the two
  `doUpdate`s that only log vehicle and parcel state.
- The `consistency` test (CheapestInsertionHeuristicTest.java:29-50) is not
  modelled. It parses scenario files, runs a multi-threaded experiment and
  compares floating-point costs.
- `AuctionPanel` (user-interface rendering) and `AbstractCommModel`
  (listener wiring) are outside the core.
- Host-side code is taken as input, because it is not part of this model:
  - `GlobalStateObjects.unassignedParcels` is a snapshot field;
  - `SolverValidator.checkRoute` and the handle's `convert` are the
    `accepts` predicate;
  - the `pdpModel` parcel states are the `pickedUp` and `inTransition` sets;
  - the vehicle contents are a set;
  - the solve calls of the sim-solver handles are a function parameter.
- `RtSimSolver.getCurrentState` and `solve` in `RtSolverRoutePlanner` are
  represented by the request they receive. The destination lookup after it
  only logs.
- ScheduleEdits.ModifyCosts: the tests only exercise an index inside the
  list. Out-of-range behaviour is unknown, so the index is required to be in
  range.
- Routes and schedules are sequences. Java's linked lists and immutable
  lists are not modelled as objects. `toSchedule` reads the chain sequences,
  and `initRoute` on a fresh vehicle is the chain built in list order.
- Conversion.Convert: exceptions are error values. `convert` allocates
  visits before it throws for a vehicle without a route, but it returns
  nothing, so that work is not visible.
- `OptaplannerSolver.solve` also stores the last best solution and its soft
  score for tests, and the engine wrappers (`addEventListener`, `isSolving`,
  `terminateEarly`) only forward calls. These fields and wrappers are not
  modelled; the flags they read are fields of the coordinator state.
- The suppliers (`SimulatedTimeSupplier`, `RealtimeSupplier`, the planners'
  `supplier` factories) and every `toString` only construct objects or
  build names, so they are not modelled.
- Coordinator.ProblemChanged: without a scheduler, the source has already
  granted permission when `start` throws. The function's failure carries no
  state; the leftover permission is kept by `CoordinatorProperties.Step`,
  which runs of events use.
- Coordinator.Begin: the early-termination flag is cleared when a search
  begins. That is the search library's own `solve` behaviour, not code of
  the callable; the model assumes it.
- RtRoutePlanner.NewSchedule: an absent current schedule is IllegalState.
  That is Guava's `Optional.get`, which is host code and not part of this
  model.
