/** The route queue both route planners keep for their vehicle, and the
    inputs they share: what the host's pickup-and-delivery model reports
    and what they ask of a solver. */
module RouteQueue {
  import opened Base

  /** What the host reports to a planner at an update: the parcels still
      waiting on the map, the vehicle's contents, and the parcels the model
      reports as picked up or as in a pickup/delivery transition. */
  datatype World = World(onMap: set<Parcel>, contents: set<Parcel>,
                         pickedUp: set<Parcel>, inTransition: set<Parcel>)

  /** The `SolveArgs` a planner builds: the parcels to plan for and,
      optionally, the current routes to seed the solver with. */
  datatype SolveArgs = SolveArgs(parcels: set<Parcel>, currentRoutes: Option<seq<seq<Parcel>>>)

  /** There is nothing left to do: no parcel on the map and none on board. */
  predicate NothingLeft(w: World)
  {
    w.onMap == {} && w.contents == {}
  }

  /** `hasNext`. */
  function HasNext(route: seq<Parcel>): (r: bool)
    ensures r <==> route != []
  {
    |route| > 0
  }

  /** `current`: the head of the queue, if any. */
  function Current(route: seq<Parcel>): (r: Option<Parcel>)
    ensures r.None? <==> route == []
    ensures r.Some? ==> r.value == route[0] && r.value in route
  {
    if |route| == 0 then None else Some(route[0])
  }

  /** `currentRoute`: a copy of the whole queue, absent when it is empty. */
  function CurrentRoute(route: seq<Parcel>): (r: Option<seq<Parcel>>)
    ensures r.None? <==> route == []
    ensures r.Some? ==> r.value == route
  {
    if |route| == 0 then None else Some(route)
  }

  /** `nextImpl`: `poll` the queue, which drops the head and does nothing on
      an empty queue. */
  function Next(route: seq<Parcel>): (r: seq<Parcel>)
    ensures route != [] ==> [route[0]] + r == route
    ensures route == [] ==> r == []
  {
    if |route| == 0 then [] else route[1..]
  }

  /** The three observers agree with each other. */
  lemma ObserversAgree(route: seq<Parcel>)
    ensures HasNext(route) <==> Current(route).Some?
    ensures HasNext(route) <==> CurrentRoute(route).Some?
    ensures HasNext(route) ==> Current(route) == Some(CurrentRoute(route).value[0])
  {
  }

  /** `k` calls of `nextImpl`. */
  function Advance(route: seq<Parcel>, k: nat): (r: seq<Parcel>)
    decreases k
  {
    if k == 0 then route else Advance(Next(route), k - 1)
  }

  /** After `k` calls of `nextImpl` the queue holds the route from position
      `k` on, and none at all once it is exhausted. */
  lemma {:induction false} AdvanceDrops(route: seq<Parcel>, k: nat)
    ensures k <= |route| ==> Advance(route, k) == route[k..]
    ensures k >= |route| ==> Advance(route, k) == []
    decreases k
  {
    if k > 0 {
      AdvanceDrops(Next(route), k - 1);
      if 0 < k <= |route| {
        assert Next(route)[k - 1..] == route[k..];
      }
    }
  }

  /** The queue hands out the parcels in route order: after `k` steps the
      current parcel is the route's `k`-th. */
  lemma ServedInOrder(route: seq<Parcel>, k: nat)
    requires k < |route|
    ensures Current(Advance(route, k)) == Some(route[k])
  {
    AdvanceDrops(route, k);
  }
}
