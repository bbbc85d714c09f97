/** The real-time solver (`OptaplannerRTSolver`) as a sequential state
    machine.  Every public entry point is `synchronized` in the source, so
    each is one atomic transition here; the solver thread's progress
    (starting a queued attempt, a search ending by itself) is a transition
    of its own, and the completion callbacks are pure decisions that return
    what they ask of the scheduler. */
module Coordinator {
  import opened Base
  import opened Snapshot
  import opened RoutingModel
  import opened Conversion
  import opened Solving

  /** The coordinator's state.  `solving` and `terminateEarly` are the search
      engine's `isSolving()` and `isTerminateEarly()`; `initialized` is
      whether a scheduler was installed; `queued` are attempts handed to the
      shared executor that have not begun solving yet. */
  datatype RtSolver = RtSolver(
    permission: bool,
    last: Option<GlobalState>,
    solving: bool,
    terminateEarly: bool,
    initialized: bool,
    queued: seq<GlobalState>
  )

  /** The state right after construction: no permission, no snapshot, idle. */
  const Fresh: RtSolver := RtSolver(false, None, false, false, false, [])

  /** What a `Throwable` delivered to `onFailure` is, as far as the
      coordinator cares: a cancelled future, or anything else. */
  datatype Fault = Cancelled | Raised(error: Error)

  /** A request to the scheduler. */
  datatype Action =
    | UpdateSchedule(snapshot: GlobalState, schedule: seq<seq<Parcel>>)
    | DoneForNow
    | ReportException(fault: Fault)

  /** The coordinator's invariant: a snapshot is recorded (and so a scheduler
      installed) whenever an attempt is queued or solving, and a running
      search has not been told to stop. */
  ghost predicate Inv(c: RtSolver)
  {
    && (c.last.Some? ==> c.initialized)
    && (c.solving ==> c.last.Some? && !c.terminateEarly)
    && (|c.queued| > 0 ==> c.last.Some?)
  }

  /** `init`: install the scheduler, once. */
  function Init(c: RtSolver): (r: Result<RtSolver>)
    ensures r.Failure? <==> c.initialized
    ensures r.Failure? ==> r.error == IllegalState
    ensures r.Success? ==> r.value.initialized && r.value == c.(initialized := true)
    ensures Inv(c) && r.Success? ==> Inv(r.value)
  {
    if c.initialized then Failure(IllegalState) else Success(c.(initialized := true))
  }

  /** `doCancel`: a running search is told to terminate early and is waited
      for; afterwards nothing is solving.  The polling loop is one step. */
  function DoCancel(c: RtSolver): (r: RtSolver)
    ensures !r.solving
    ensures r.permission == c.permission && r.last == c.last && r.initialized == c.initialized
    ensures r.queued == c.queued
    ensures r.terminateEarly <==> c.terminateEarly || c.solving
    ensures Inv(c) ==> Inv(r)
  {
    if c.solving then c.(solving := false, terminateEarly := true) else c
  }

  /** `start`: stop the current search; with permission, record the snapshot
      and queue a new attempt on it.  Without a scheduler it fails its
      `checkState`. */
  function Start(c: RtSolver, snap: GlobalState): (r: Result<RtSolver>)
    ensures r.Failure? <==> !c.initialized
    ensures r.Failure? ==> r.error == IllegalState
    ensures r.Success? ==> !r.value.solving && r.value.permission == c.permission
    ensures r.Success? ==> (r.value.terminateEarly <==> c.terminateEarly || c.solving)
    ensures r.Success? ==> r.value.initialized
    ensures r.Success? && !c.permission ==> r.value.last == c.last && r.value.queued == c.queued
    ensures r.Success? && c.permission ==> r.value.last == Some(snap) && r.value.queued == c.queued + [snap]
    ensures Inv(c) && r.Success? ==> Inv(r.value)
  {
    if !c.initialized then Failure(IllegalState)
    else
      var d := DoCancel(c);
      if !d.permission then Success(d)
      else Success(d.(last := Some(snap), queued := d.queued + [snap]))
  }

  /** `problemChanged`: grant permission, then start on the new snapshot. */
  function ProblemChanged(c: RtSolver, snap: GlobalState): (r: Result<RtSolver>)
    ensures r.Failure? <==> !c.initialized
    ensures r.Failure? ==> r.error == IllegalState
    ensures r.Success? ==> r.value.permission && r.value.last == Some(snap) && r.value.queued == c.queued + [snap]
    ensures r.Success? ==> !r.value.solving && (r.value.terminateEarly <==> c.terminateEarly || c.solving)
    ensures Inv(c) && r.Success? ==> Inv(r.value)
  {
    Start(c.(permission := true), snap)
  }

  /** `cancel`: withdraw permission and stop the current search.  Attempts
      already queued are not withdrawn. */
  function Cancel(c: RtSolver): (r: RtSolver)
    ensures !r.permission && !r.solving
    ensures r.terminateEarly <==> c.terminateEarly || c.solving
    ensures r.last == c.last && r.queued == c.queued && r.initialized == c.initialized
    ensures Inv(c) ==> Inv(r)
  {
    DoCancel(c.(permission := false))
  }

  /** `isComputing`. */
  function IsComputing(c: RtSolver): (r: bool)
    ensures r <==> c.solving || c.permission
  {
    c.solving || c.permission
  }

  /** Vehicle `i` of `snap` has taken on a new commitment: it has a
      destination, and the snapshot of the current attempt showed another
      one (or none) for it. */
  ghost predicate NewCommitment(last: GlobalState, snap: GlobalState, i: nat)
    requires i < |snap.vehicles|
  {
    snap.vehicles[i].destination.Some? && i < |last.vehicles|
    && last.vehicles[i].destination != snap.vehicles[i].destination
  }

  /** Vehicle `i` of `snap` has a destination but the snapshot of the current
      attempt has no vehicle `i` to compare it with. */
  ghost predicate Overrun(last: GlobalState, snap: GlobalState, i: nat)
    requires i < |snap.vehicles|
  {
    snap.vehicles[i].destination.Some? && i >= |last.vehicles|
  }

  /** Scanning the vehicles of `snap` from `i` on, a new commitment is met
      before any vehicle the recorded snapshot lacks. */
  ghost predicate CommitsFirst(last: GlobalState, snap: GlobalState, i: nat)
  {
    exists j :: i <= j < |snap.vehicles| && NewCommitment(last, snap, j)
             && forall k :: i <= k < j ==> !Overrun(last, snap, k)
  }

  /** Scanning the vehicles of `snap` from `i` on, a committed vehicle the
      recorded snapshot lacks is met before any new commitment. */
  ghost predicate OverrunsFirst(last: GlobalState, snap: GlobalState, i: nat)
  {
    exists j :: i <= j < |snap.vehicles| && Overrun(last, snap, j)
             && forall k :: i <= k < j ==> !NewCommitment(last, snap, k)
  }

  /** The loop of `receiveSnapshot` from vehicle `i` on: stop at the first
      new commitment; reading a vehicle the old snapshot lacks is an
      IndexOutOfBoundsException. */
  function DetectChange(last: GlobalState, snap: GlobalState, i: nat): (r: Result<bool>)
    requires i <= |snap.vehicles|
    ensures r == Success(true) <==> CommitsFirst(last, snap, i)
    ensures r.Failure? <==> OverrunsFirst(last, snap, i)
    ensures r.Failure? ==> r.error == IndexOutOfBounds
    decreases |snap.vehicles| - i
  {
    if i == |snap.vehicles| then Success(false)
    else if snap.vehicles[i].destination.Some? then
      if i >= |last.vehicles| then
        assert Overrun(last, snap, i);
        Failure(IndexOutOfBounds)
      else if last.vehicles[i].destination != snap.vehicles[i].destination then
        assert NewCommitment(last, snap, i);
        Success(true)
      else DetectChange(last, snap, i + 1)
    else DetectChange(last, snap, i + 1)
  }

  /** Some vehicle has taken on a new commitment since the current attempt
      started. */
  ghost predicate SignificantChange(last: GlobalState, snap: GlobalState)
  {
    exists j :: 0 <= j < |snap.vehicles| && NewCommitment(last, snap, j)
  }

  /** `receiveSnapshot`: while no attempt was ever started it does nothing;
      otherwise it restarts on `snap` when a vehicle took on a new
      commitment.  It never records `snap` itself. */
  function ReceiveSnapshot(c: RtSolver, snap: GlobalState): (r: Result<RtSolver>)
    ensures c.last.None? ==> r == Success(c)
    ensures c.last.Some? && OverrunsFirst(c.last.value, snap, 0) ==> r == Failure(IndexOutOfBounds)
    ensures c.last.Some? && CommitsFirst(c.last.value, snap, 0) ==> r == Start(c, snap)
    ensures c.last.Some? && !OverrunsFirst(c.last.value, snap, 0) && !CommitsFirst(c.last.value, snap, 0) ==>
              r == Success(c)
    ensures c.last.Some? && |snap.vehicles| <= |c.last.value.vehicles| ==>
              r == (if SignificantChange(c.last.value, snap) then Start(c, snap) else Success(c))
    ensures r.Failure? ==> r.error in {IllegalState, IndexOutOfBounds}
    ensures r.Success? && r.value.last != c.last ==> c.permission && r.value.last == Some(snap)
    ensures Inv(c) && r.Success? ==> Inv(r.value)
  {
    match c.last
    case None => Success(c)
    case Some(last) =>
      var restart :- DetectChange(last, snap, 0);
      if restart then Start(c, snap) else Success(c)
  }

  /** The executor runs the oldest queued attempt.  The callable's `verify`
      fails if the engine is still solving; otherwise `doSolve` converts the
      snapshot, and one `convert` rejects fails the attempt before the
      engine is started.  Only a converted snapshot starts the engine, which
      clears its early-termination flag as it begins. */
  function Begin(c: RtSolver): (r: Result<RtSolver>)
    requires |c.queued| > 0
    ensures r.Failure? <==> c.solving || !UnitsMatch(c.queued[0]) || !AllRoutesKnown(c.queued[0])
    ensures r.Failure? ==> r.error == if c.solving then VerifyFailed else IllegalArgument
    ensures r.Success? ==> r.value.solving && !r.value.terminateEarly && r.value.queued == c.queued[1..]
    ensures r.Success? ==> r.value.(solving := false, terminateEarly := c.terminateEarly, queued := c.queued) == c
    ensures Inv(c) && r.Success? ==> Inv(r.value)
  {
    if c.solving then Failure(VerifyFailed)
    else if Convert(c.queued[0]).Failure? then Failure(IllegalArgument)
    else Success(c.(solving := true, terminateEarly := false, queued := c.queued[1..]))
  }

  /** The search stops by itself (its termination criterion is met). */
  function Finish(c: RtSolver): (r: RtSolver)
    ensures !r.solving && r.terminateEarly == c.terminateEarly && r.initialized == c.initialized
    ensures r.permission == c.permission && r.last == c.last && r.queued == c.queued
    ensures Inv(c) ==> Inv(r)
  {
    c.(solving := false)
  }

  /** `onSuccess` of the attempt started on `snap`, given the engine's flags
      when it runs. */
  function OnSuccess(c: RtSolver, snap: GlobalState, result: Option<seq<seq<Parcel>>>): (r: seq<Action>)
    ensures result.None? ==> forall a :: a in r ==> a.ReportException?
    ensures result.None? ==> (r == [] <==> c.terminateEarly)
    ensures result.Some? ==> |r| > 0 && r[0] == UpdateSchedule(snap, result.value)
    ensures result.Some? ==> (DoneForNow in r <==> !(c.permission && c.terminateEarly))
    ensures result.None? && !c.terminateEarly ==> r == [ReportException(Raised(IllegalArgument))]
    ensures result.Some? ==> (|r| == 2 <==> !(c.permission && c.terminateEarly))
    ensures result.Some? && |r| == 2 ==> r[1] == DoneForNow
    ensures |r| <= 2
  {
    match result
    case None =>
      if c.terminateEarly then [] else [ReportException(Raised(IllegalArgument))]
    case Some(schedule) =>
      [UpdateSchedule(snap, schedule)] + (if c.permission && c.terminateEarly then [] else [DoneForNow])
  }

  /** `onFailure`: a cancelled future is ignored, anything else is reported. */
  function OnFailure(fault: Fault): (r: seq<Action>)
    ensures r == [] <==> fault == Cancelled
    ensures r != [] ==> r == [ReportException(fault)]
  {
    if fault.Cancelled? then [] else [ReportException(fault)]
  }

  /** The listener `init` installs: a new best solution that is initialized
      and feasible is published against the recorded snapshot, whose absence
      fails `verifyNotNull`. */
  function BestSolutionChanged(c: RtSolver, isInitialized: bool, best: Scored): (r: Result<seq<Action>>)
    requires WellFormed(best.best)
    ensures r.Failure? <==> isInitialized && best.hard == 0 && c.last.None?
    ensures r.Failure? ==> r.error == VerifyFailed
    ensures r.Success? ==> (r.value != [] <==> isInitialized && best.hard == 0)
    ensures r.Success? && r.value != [] ==>
              r.value == [UpdateSchedule(c.last.value, ToSchedule(best.best))]
  {
    if isInitialized && best.hard == 0 then
      if c.last.None? then Failure(VerifyFailed)
      else Success([UpdateSchedule(c.last.value, ToSchedule(best.best))])
    else Success([])
  }
}
