/** What the real-time coordinator guarantees across transitions. */
module CoordinatorProperties {
  import opened Base
  import opened Snapshot
  import opened RoutingModel
  import opened Solving
  import opened Coordinator

  /** Everything that can happen to the coordinator: calls from the host and
      progress of the solver thread. */
  datatype Event =
    | InitEv
    | ProblemChangedEv(snap: GlobalState)
    | ReceiveSnapshotEv(snap: GlobalState)
    | CancelEv
    | BeginEv
    | FinishEv

  /** One event.  An exception thrown by an entry point reaches its caller;
      one thrown inside a queued attempt only fails that attempt's future,
      which is consumed all the same. */
  function Apply(c: RtSolver, e: Event): (r: Result<RtSolver>)
    ensures Inv(c) && r.Success? ==> Inv(r.value)
  {
    match e
    case InitEv => Init(c)
    case ProblemChangedEv(snap) => ProblemChanged(c, snap)
    case ReceiveSnapshotEv(snap) => ReceiveSnapshot(c, snap)
    case CancelEv => Success(Cancel(c))
    case BeginEv =>
      if |c.queued| == 0 then Success(c)
      else if Begin(c).Success? then Begin(c)
      else Success(c.(queued := c.queued[1..]))
    case FinishEv => Success(Finish(c))
  }

  /** The state after one event, whether or not it threw.  Every entry point
      throws before changing anything, except `problemChanged`, which has
      already granted permission when `start` fails its `checkState`; the
      coordinator keeps serving calls after an exception. */
  function Step(c: RtSolver, e: Event): (r: RtSolver)
    ensures Apply(c, e).Success? ==> r == Apply(c, e).value
    ensures Apply(c, e).Failure? && !e.ProblemChangedEv? ==> r == c
    ensures Apply(c, e).Failure? && e.ProblemChangedEv? ==> r == c.(permission := true)
    ensures Inv(c) ==> Inv(r)
  {
    match Apply(c, e)
    case Success(d) => d
    case Failure(_) => if e.ProblemChangedEv? then c.(permission := true) else c
  }

  /** A run of events, exceptions included. */
  function Run(c: RtSolver, events: seq<Event>): (r: RtSolver)
    decreases |events|
  {
    if |events| == 0 then c else Run(Step(c, events[0]), events[1..])
  }

  lemma FreshInv()
    ensures Inv(Fresh) && !IsComputing(Fresh)
  {
  }

  /** Every run keeps the invariant. */
  lemma {:induction false} RunKeepsInv(c: RtSolver, events: seq<Event>)
    requires Inv(c)
    ensures Inv(Run(c, events))
    decreases |events|
  {
    if |events| > 0 {
      RunKeepsInv(Step(c, events[0]), events[1..]);
    }
  }

  /** Whatever happened since construction, exceptions included, while a
      search runs the new-best-solution listener always finds the snapshot it
      publishes against: its `verifyNotNull` cannot fail. */
  lemma ListenerNeverFailsWhileSolving(events: seq<Event>, isInitialized: bool, best: Scored)
    requires Run(Fresh, events).solving
    requires WellFormed(best.best)
    ensures BestSolutionChanged(Run(Fresh, events), isInitialized, best).Success?
  {
    FreshInv();
    RunKeepsInv(Fresh, events);
  }

  /** `receiveSnapshot` before the first `start` records nothing: a later
      snapshot is still compared with nothing and ignored. */
  lemma ReceiveBeforeStartRecordsNothing(c: RtSolver, s1: GlobalState, s2: GlobalState)
    requires c.last.None?
    ensures ReceiveSnapshot(c, s1) == Success(c)
    ensures Run(c, [ReceiveSnapshotEv(s1), ReceiveSnapshotEv(s2)]) == c
  {
    assert Run(c, [ReceiveSnapshotEv(s2)]) == c;
  }

  /** Destinations that only disappear or stay the same never restart the
      solver. */
  lemma ClearedDestinationsNeverRestart(c: RtSolver, snap: GlobalState)
    requires c.last.Some? && |snap.vehicles| == |c.last.value.vehicles|
    requires forall i :: 0 <= i < |snap.vehicles| ==>
               snap.vehicles[i].destination.None?
               || snap.vehicles[i].destination == c.last.value.vehicles[i].destination
    ensures ReceiveSnapshot(c, snap) == Success(c)
  {
  }

  /** A snapshot that differs from the current attempt's only in its time
      never restarts the solver. */
  lemma TimeOnlyChangeNeverRestarts(c: RtSolver, t: int)
    requires c.last.Some?
    ensures ReceiveSnapshot(c, c.last.value.(time := t)) == Success(c)
  {
    ClearedDestinationsNeverRestart(c, c.last.value.(time := t));
  }

  /** A new commitment of some vehicle restarts the solver: with permission
      the new snapshot is recorded and queued, without it the search is
      stopped and nothing is queued. */
  lemma NewCommitmentRestarts(c: RtSolver, snap: GlobalState, j: nat)
    requires c.initialized && c.last.Some? && |snap.vehicles| <= |c.last.value.vehicles|
    requires j < |snap.vehicles| && NewCommitment(c.last.value, snap, j)
    ensures ReceiveSnapshot(c, snap).Success?
    ensures var d := ReceiveSnapshot(c, snap).value;
            && !d.solving
            && (c.permission ==> d.last == Some(snap) && d.queued == c.queued + [snap])
            && (!c.permission ==> d.last == c.last && d.queued == c.queued)
  {
  }

  /** After `cancel`, a late successful completion still publishes its
      schedule and declares the scheduler done. */
  lemma LateSuccessAfterCancelPublishes(c: RtSolver, snap: GlobalState, schedule: seq<seq<Parcel>>)
    ensures OnSuccess(Cancel(c), snap, Some(schedule)) == [UpdateSchedule(snap, schedule), DoneForNow]
  {
  }

  /** When a running search is restarted with permission, the completion of
      the stopped attempt publishes its schedule but does not declare the
      scheduler done: the new attempt continues. */
  lemma RestartContinues(c: RtSolver, snap: GlobalState, prior: GlobalState, schedule: seq<seq<Parcel>>)
    requires c.initialized && c.permission && c.solving
    ensures Start(c, snap).Success?
    ensures OnSuccess(Start(c, snap).value, prior, Some(schedule)) == [UpdateSchedule(prior, schedule)]
  {
  }

  /** A running search that ends with a null result is reported as an
      IllegalArgumentException, since nothing told it to stop; once it is
      cancelled, or restarted, the same null result is silent. */
  lemma NullResultReportedUnlessTerminated(c: RtSolver, snap: GlobalState, next: GlobalState)
    requires Inv(c) && c.solving
    ensures OnSuccess(c, snap, None) == [ReportException(Raised(IllegalArgument))]
    ensures OnSuccess(Cancel(c), snap, None) == []
    ensures Start(c, next).Success? && OnSuccess(Start(c, next).value, snap, None) == []
  {
  }

  /** `cancel` ends all computing, and `problemChanged` resumes it. */
  lemma CancelThenProblemChanged(c: RtSolver, snap: GlobalState)
    ensures !IsComputing(Cancel(c))
    ensures c.initialized ==> ProblemChanged(Cancel(c), snap).Success?
                              && IsComputing(ProblemChanged(Cancel(c), snap).value)
  {
  }

  /** A queued attempt on a snapshot `convert` rejects never starts the
      engine: the attempt is consumed, both engine flags stay as they were,
      and its IllegalArgumentException is reported through `onFailure`. */
  lemma RejectedSnapshotNeverStartsEngine(c: RtSolver)
    requires |c.queued| > 0 && !c.solving
    requires !UnitsMatch(c.queued[0]) || !AllRoutesKnown(c.queued[0])
    ensures Begin(c) == Failure(IllegalArgument)
    ensures Apply(c, BeginEv) == Success(c.(queued := c.queued[1..]))
    ensures OnFailure(Raised(Begin(c).error)) == [ReportException(Raised(IllegalArgument))]
  {
  }

  /** A heartbeat with more vehicles than the recorded snapshot, whose extra
      vehicle has a destination while the vehicles before it kept theirs,
      fails reading the recorded snapshot instead of restarting. */
  lemma ExtraCommittedVehicleThrows(c: RtSolver, snap: GlobalState)
    requires c.last.Some? && |c.last.value.vehicles| < |snap.vehicles|
    requires forall i :: 0 <= i < |c.last.value.vehicles| ==>
               snap.vehicles[i].destination == c.last.value.vehicles[i].destination
    requires snap.vehicles[|c.last.value.vehicles|].destination.Some?
    ensures ReceiveSnapshot(c, snap) == Failure(IndexOutOfBounds)
  {
    var n := |c.last.value.vehicles|;
    assert Overrun(c.last.value, snap, n);
    assert OverrunsFirst(c.last.value, snap, 0);
  }
}
