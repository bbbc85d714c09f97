/** The simulated-time route planner (`SolverRoutePlanner`): every update
    recomputes the vehicle's whole route with a solver, optionally seeded
    with the current route. */
module SolverRoutePlanner {
  import opened Base
  import opened RouteQueue

  /** The planner's state: its route, the `updated` flag, whether the solver
      builder, the vehicle and the solver handle are present, whether the
      current route is reused as a seed, and how many change events it has
      dispatched. */
  datatype Planner = Planner(
    route: seq<Parcel>,
    updated: bool,
    hasBuilder: bool,
    hasVehicle: bool,
    hasHandle: bool,
    reuse: bool,
    changes: nat
  )

  /** A freshly constructed planner. */
  function Create(reuse: bool): (r: Planner)
    ensures r.route == [] && !r.hasHandle && r.reuse == reuse
  {
    Planner([], false, false, false, false, reuse, 0)
  }

  /** `changeRoute`: take the given route as it is, without computing. */
  function ChangeRoute(p: Planner, route: seq<Parcel>): (r: Planner)
    ensures r.route == route && r.updated
    ensures r.(route := p.route, updated := p.updated) == p
  {
    p.(updated := true, route := route)
  }

  /** The arguments `doUpdate` hands to the solver.  With reuse on, the
      current route is proposed as the seed; `accepts` tells whether the
      handle's `convert` and the route check take it without an
      IllegalArgumentException, and when they do not the seed is dropped. */
  function Args(p: Planner, w: World, accepts: seq<Parcel> -> bool): (r: SolveArgs)
    ensures r.parcels == w.onMap
    ensures r.currentRoutes.Some? <==> p.reuse && accepts(p.route)
    ensures r.currentRoutes.Some? ==> r.currentRoutes.value == [p.route]
  {
    if p.reuse && accepts(p.route) then SolveArgs(w.onMap, Some([p.route]))
    else SolveArgs(w.onMap, None)
  }

  /** `doUpdate`.  With nothing left the route is emptied; otherwise it
      becomes entry 0 of what the solver returns for `Args`.  A missing
      handle fails `Optional.get`, an empty answer fails `get(0)`.  Both
      branches end by dispatching a change event. */
  function DoUpdate(p: Planner, w: World, accepts: seq<Parcel> -> bool,
                    solve: SolveArgs -> seq<seq<Parcel>>): (r: Result<Planner>)
    ensures NothingLeft(w) ==> r.Success? && r.value.route == []
    ensures r.Failure? <==> !NothingLeft(w) && (!p.hasHandle || |solve(Args(p, w, accepts))| == 0)
    ensures r.Failure? && !p.hasHandle ==> r.error == IllegalState
    ensures r.Failure? && p.hasHandle ==> r.error == IndexOutOfBounds
    ensures r.Success? && !NothingLeft(w) ==> r.value.route == solve(Args(p, w, accepts))[0]
    ensures r.Success? ==> r.value.changes == p.changes + 1
    ensures r.Success? ==> r.value.(route := p.route, changes := p.changes) == p
  {
    if NothingLeft(w) then Success(p.(route := [], changes := p.changes + 1))
    else if !p.hasHandle then Failure(IllegalState)
    else
      var schedule := solve(Args(p, w, accepts));
      if |schedule| == 0 then Failure(IndexOutOfBounds)
      else Success(p.(route := schedule[0], changes := p.changes + 1))
  }

  /** `afterInit`: build the solver handle once both the solver builder and
      the vehicle are there. */
  function AfterInit(p: Planner): (r: Planner)
    ensures r.hasHandle <==> p.hasHandle || (p.hasBuilder && p.hasVehicle)
    ensures r.(hasHandle := p.hasHandle) == p
  {
    if p.hasBuilder && p.hasVehicle then p.(hasHandle := true) else p
  }

  /** `setSolverProvider`: remember the builder, then `afterInit`. */
  function SetSolverProvider(p: Planner): (r: Planner)
    ensures r.hasBuilder
    ensures r.hasHandle <==> p.hasHandle || p.hasVehicle
    ensures r.(hasBuilder := p.hasBuilder, hasHandle := p.hasHandle) == p
  {
    AfterInit(p.(hasBuilder := true))
  }

  /** The seeding rule: the solver is seeded with the current route exactly
      when reuse is on and the route is accepted; otherwise it plans
      unseeded, and with reuse off it never sees a seed. */
  lemma SeedOnlyWhenReusedAndAccepted(p: Planner, w: World, accepts: seq<Parcel> -> bool,
                                      solve: SolveArgs -> seq<seq<Parcel>>)
    requires p.hasHandle && !NothingLeft(w)
    requires |solve(SolveArgs(w.onMap, Some([p.route])))| > 0
    requires |solve(SolveArgs(w.onMap, None))| > 0
    ensures p.reuse && accepts(p.route) ==>
              DoUpdate(p, w, accepts, solve) == Success(p.(route := solve(SolveArgs(w.onMap, Some([p.route])))[0], changes := p.changes + 1))
    ensures !(p.reuse && accepts(p.route)) ==>
              DoUpdate(p, w, accepts, solve) == Success(p.(route := solve(SolveArgs(w.onMap, None))[0], changes := p.changes + 1))
  {
  }

  /** With reuse off the outcome does not depend on the current route. */
  lemma NoReuseIgnoresRoute(p: Planner, route: seq<Parcel>, w: World, accepts: seq<Parcel> -> bool,
                            solve: SolveArgs -> seq<seq<Parcel>>)
    requires !p.reuse
    ensures DoUpdate(p, w, accepts, solve).Success? <==> DoUpdate(p.(route := route), w, accepts, solve).Success?
    ensures DoUpdate(p, w, accepts, solve).Success? ==>
              DoUpdate(p, w, accepts, solve).value.route == DoUpdate(p.(route := route), w, accepts, solve).value.route
  {
  }

  /** The handle exists only once both the builder and the vehicle were
      provided, in whichever order. */
  lemma HandleNeedsBuilderAndVehicle(reuse: bool)
    ensures !SetSolverProvider(Create(reuse)).hasHandle
    ensures AfterInit(SetSolverProvider(Create(reuse)).(hasVehicle := true)).hasHandle
    ensures SetSolverProvider(Create(reuse).(hasVehicle := true)).hasHandle
  {
  }

  /** `changeRoute` followed by the queue: the planner serves exactly the
      given route. */
  lemma ChangeRouteServes(p: Planner, route: seq<Parcel>)
    ensures CurrentRoute(ChangeRoute(p, route).route) == if route == [] then None else Some(route)
    ensures HasNext(ChangeRoute(p, route).route) <==> route != []
  {
  }
}
