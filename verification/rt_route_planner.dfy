/** The real-time route planner (`RtSolverRoutePlanner`): it prunes stale
    parcels from its route, asks the real-time solver to plan on the pruned
    route, and takes over entry 0 of every new schedule the solver
    publishes. */
module RtRoutePlanner {
  import opened Base
  import opened RouteQueue

  /** A parcel the planner no longer needs: it is neither waiting on the map,
      nor picked up, nor in a pickup or delivery transition. */
  predicate Stale(w: World, p: Parcel)
  {
    p !in w.onMap && p !in w.pickedUp && p !in w.inTransition
  }

  /** `route.removeAll(toRemove)`, where `toRemove` collects the stale parcels
      of the route: every occurrence of a stale parcel goes, the others stay
      in order. */
  function Prune(route: seq<Parcel>, w: World): (r: seq<Parcel>)
    ensures |r| <= |route|
    ensures forall p :: p in r ==> !Stale(w, p)
    ensures forall p :: multiset(r)[p] == if Stale(w, p) then 0 else multiset(route)[p]
    decreases |route|
  {
    if |route| == 0 then []
    else
      var front := Prune(route[..|route| - 1], w);
      var p := route[|route| - 1];
      assert route == route[..|route| - 1] + [p];
      if Stale(w, p) then front else front + [p]
  }

  /** `a` is `b` with some elements left out, the rest in their order. */
  ghost predicate Subsequence(a: seq<Parcel>, b: seq<Parcel>)
    decreases |b|
  {
    if |a| == 0 then true
    else if |b| == 0 then false
    else if a[|a| - 1] == b[|b| - 1] then Subsequence(a[..|a| - 1], b[..|b| - 1])
    else Subsequence(a, b[..|b| - 1])
  }

  /** Pruning keeps the surviving parcels in their original order. */
  lemma {:induction false} PruneIsSubsequence(route: seq<Parcel>, w: World)
    ensures Subsequence(Prune(route, w), route)
    decreases |route|
  {
    if |route| > 0 {
      var front := route[..|route| - 1];
      PruneIsSubsequence(front, w);
      if !Stale(w, route[|route| - 1]) {
        assert (Prune(front, w) + [route[|route| - 1]])[..|Prune(route, w)| - 1] == Prune(front, w);
      } else {
        SubsequenceWeaken(Prune(front, w), front, route[|route| - 1]);
      }
    }
  }

  /** A subsequence stays one when the longer sequence grows. */
  lemma {:induction false} SubsequenceWeaken(a: seq<Parcel>, b: seq<Parcel>, x: Parcel)
    requires Subsequence(a, b)
    ensures Subsequence(a, b + [x])
    decreases |b|, 1
  {
    if |a| > 0 && a[|a| - 1] == x {
      var bx := b + [x];
      assert bx[..|bx| - 1] == b;
      SubsequenceDrop(a, b);
    } else {
      assert (b + [x])[..|b|] == b;
    }
  }

  /** A subsequence of `b` ending in `b`'s last element stays one with its last
      element removed, compared against `b` without its last element,
      and so also against `b`. */
  lemma {:induction false} SubsequenceDrop(a: seq<Parcel>, b: seq<Parcel>)
    requires |a| > 0 && Subsequence(a, b)
    ensures Subsequence(a[..|a| - 1], b)
    decreases |b|, 0
  {
    if a[|a| - 1] == b[|b| - 1] {
      SubsequenceWeaken(a[..|a| - 1], b[..|b| - 1], b[|b| - 1]);
      assert b[..|b| - 1] + [b[|b| - 1]] == b;
    } else {
      SubsequenceDrop(a, b[..|b| - 1]);
      SubsequenceWeaken(a[..|a| - 1], b[..|b| - 1], b[|b| - 1]);
      assert b[..|b| - 1] + [b[|b| - 1]] == b;
    }
  }

  /** A route without stale parcels is left as it is. */
  lemma {:induction false} PruneKeepsFresh(route: seq<Parcel>, w: World)
    requires forall p :: p in route ==> !Stale(w, p)
    ensures Prune(route, w) == route
    decreases |route|
  {
    if |route| > 0 {
      PruneKeepsFresh(route[..|route| - 1], w);
      assert route[..|route| - 1] + [route[|route| - 1]] == route;
    }
  }

  /** Pruning twice is pruning once. */
  lemma PruneIdempotent(route: seq<Parcel>, w: World)
    ensures Prune(Prune(route, w), w) == Prune(route, w)
  {
    PruneKeepsFresh(Prune(route, w), w);
  }

  /** How an update ended: the route was cleared, the solver was asked to
      plan, or an exception escaped. */
  datatype Outcome = Cleared | Requested(args: SolveArgs) | Thrown(error: Error)

  /** The route after an update, and how the update ended. */
  datatype Update = Update(route: seq<Parcel>, outcome: Outcome)

  /** `doUpdate`.  With nothing left the route is emptied.  Otherwise the
      stale parcels are pruned and the solver is asked to plan for the
      parcels on the map, seeded with the pruned route; before
      `setSolverProvider` there is no solver, and `Optional.get` throws after
      the route was already pruned. */
  function DoUpdate(route: seq<Parcel>, w: World, hasSolver: bool): (r: Update)
    ensures NothingLeft(w) <==> r.outcome == Cleared
    ensures NothingLeft(w) ==> r.route == []
    ensures !NothingLeft(w) ==> r.route == Prune(route, w)
    ensures r.outcome.Thrown? <==> !NothingLeft(w) && !hasSolver
    ensures r.outcome.Thrown? ==> r.outcome.error == IllegalState
    ensures r.outcome.Requested? ==> r.outcome.args == SolveArgs(w.onMap, Some([r.route]))
  {
    if NothingLeft(w) then Update([], Cleared)
    else
      var kept := Prune(route, w);
      if !hasSolver then Update(kept, Thrown(IllegalState))
      else Update(kept, Requested(SolveArgs(w.onMap, Some([kept]))))
  }

  /** The seed handed to the solver is exactly the pruned route, which holds
      only parcels the vehicle still has to serve, in their original order. */
  lemma SeedIsPrunedRoute(route: seq<Parcel>, w: World)
    requires !NothingLeft(w)
    ensures var u := DoUpdate(route, w, true);
            && u.outcome.Requested? && u.outcome.args.currentRoutes == Some([u.route])
            && Subsequence(u.route, route)
            && (forall p :: p in u.route <==> p in route && !Stale(w, p))
  {
    PruneIsSubsequence(route, w);
    var kept := Prune(route, w);
    forall p ensures p in kept <==> p in route && !Stale(w, p) {
      assert p in kept <==> multiset(kept)[p] > 0;
      assert p in route <==> multiset(route)[p] > 0;
    }
  }

  /** A second update in the same world prunes nothing more and asks for the
      same plan. */
  lemma UpdateTwiceSameWorld(route: seq<Parcel>, w: World)
    ensures DoUpdate(DoUpdate(route, w, true).route, w, true) == DoUpdate(route, w, true)
  {
    PruneIdempotent(route, w);
  }

  /** What the NEW_SCHEDULE listener leaves behind: the planner's new route
      and how many change events it has dispatched in all. */
  datatype Replanned = Replanned(route: seq<Parcel>, changes: nat)

  /** The NEW_SCHEDULE listener: the route becomes a copy of entry 0 of the
      solver's current schedule, and then one change event is dispatched.
      An absent schedule fails `Optional.get` and an empty one fails
      `get(0)`; either way the listener stops before dispatching. */
  function NewSchedule(current: Option<seq<seq<Parcel>>>, changes: nat): (r: Result<Replanned>)
    ensures r.Success? <==> current.Some? && |current.value| > 0
    ensures r.Success? ==> r.value.route == current.value[0] && r.value.changes == changes + 1
    ensures current.None? ==> r == Failure(IllegalState)
    ensures current.Some? && |current.value| == 0 ==> r == Failure(IndexOutOfBounds)
  {
    match current
    case None => Failure(IllegalState)
    case Some(schedule) =>
      if |schedule| == 0 then Failure(IndexOutOfBounds) else Success(Replanned(schedule[0], changes + 1))
  }

  /** After a new schedule, the planner serves exactly the first vehicle's
      route of that schedule, whatever it held before, and has announced the
      change once. */
  lemma NewScheduleReplacesRoute(schedule: seq<seq<Parcel>>, changes: nat)
    requires |schedule| > 0
    ensures NewSchedule(Some(schedule), changes).Success?
    ensures NewSchedule(Some(schedule), changes).value.changes == changes + 1
    ensures CurrentRoute(NewSchedule(Some(schedule), changes).value.route) ==
              if schedule[0] == [] then None else Some(schedule[0])
    ensures Current(NewSchedule(Some(schedule), changes).value.route) ==
              if schedule[0] == [] then None else Some(schedule[0][0])
  {
  }
}
