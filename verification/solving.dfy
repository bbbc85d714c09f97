/** The simulated-time solver (`OptaplannerSolver`): convert the snapshot,
    hand it to the search engine, and read the best solution back as a
    schedule.  The search engine itself is an oracle parameter. */
module Solving {
  import opened Base
  import opened Snapshot
  import opened RoutingModel
  import opened Conversion
  import opened ConvertProperties

  /** What the search engine reports when it stops: the hard and soft score
      of its best solution, and that solution. */
  datatype Scored = Scored(hard: int, soft: int, best: Solution)

  /** The search engine: any function from a problem to its best solution.
      It only moves visits between chains, so the chains it returns stay
      inside the arena. */
  type Search = Solution -> Scored

  ghost predicate KeepsLinks(search: Search)
  {
    forall m :: WellFormed(search(m).best)
  }

  /** `doSolve`: the schedule of the best solution, or `None` when the best
      solution still breaks a hard constraint.  A snapshot `convert` rejects
      raises its IllegalArgumentException. */
  function DoSolve(s: GlobalState, search: Search): (r: Result<Option<seq<seq<Parcel>>>>)
    requires KeepsLinks(search)
    ensures r.Failure? <==> !UnitsMatch(s) || !AllRoutesKnown(s)
    ensures r.Failure? ==> r.error == IllegalArgument
    ensures r.Success? ==> (r.value.None? <==> search(Converted(s)).hard != 0)
    ensures r.Success? && r.value.Some? ==> |r.value.value| == |search(Converted(s)).best.chains|
    ensures r.Success? && r.value.Some? ==> r.value.value == ToSchedule(search(Converted(s)).best)
  {
    var problem :- Convert(s);
    var out := search(problem);
    if out.hard != 0 then Success(None) else Success(Some(ToSchedule(out.best)))
  }

  /** `solve`: like `doSolve`, but an infeasible best solution is an
      IllegalStateException instead of a null schedule. */
  function Solve(s: GlobalState, search: Search): (r: Result<seq<seq<Parcel>>>)
    requires KeepsLinks(search)
    ensures r.Success? <==> DoSolve(s, search).Success? && DoSolve(s, search).value.Some?
    ensures r.Success? ==> r.value == DoSolve(s, search).value.value
    ensures r.Failure? && UnitsMatch(s) && AllRoutesKnown(s) ==> r.error == IllegalState
  {
    var sol :- DoSolve(s, search);
    if sol.None? then Failure(IllegalState) else Success(sol.value)
  }

  /** A search that keeps the initial solution and finds it feasible hands
      back, through `doSolve`, exactly the routes `convert` walked. */
  lemma IdleSearchReturnsPlannedRoutes(s: GlobalState, search: Search)
    requires KeepsLinks(search)
    requires UnitsMatch(s) && AllRoutesKnown(s)
    requires search(Converted(s)) == Scored(0, search(Converted(s)).soft, Converted(s))
    ensures DoSolve(s, search) == Success(Some(PlannedRoutes(s)))
  {
    ConvertRoundTrip(s);
  }
}
