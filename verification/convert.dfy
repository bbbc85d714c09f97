/** `OptaplannerSolvers.convert`: from a world snapshot to the routing model. */
module Conversion {
  import opened Base
  import opened Snapshot
  import opened RoutingModel

  /** What `convert` keeps while it runs: the visit list, the pre-made pickup
      and delivery visits not yet placed on a chain (keyed by parcel), and
      every visit index placed on a chain so far, in placement order. */
  datatype Arena = Arena(
    visits: seq<Visit>,
    pickups: map<Parcel, nat>,
    deliveries: map<Parcel, nat>,
    walked: seq<nat>)

  /** An arena state together with the chains of the vehicles handled so far. */
  datatype Progress = Progress(placed: Arena, chains: seq<seq<nat>>)

  /** Two maps agree at one key. */
  ghost predicate AgreeAt<K, V>(m: map<K, V>, m': map<K, V>, k: K)
  {
    (k in m <==> k in m') && (k in m ==> m[k] == m'[k])
  }

  /** Visits `i` and `j` are the PICKUP and DELIVER of `p`, each the other's association. */
  ghost predicate PairAt(arena: seq<Visit>, i: nat, j: nat, p: Parcel)
  {
    i < |arena| && j < |arena|
    && arena[i] == Visit(p, Pickup, Some(j))
    && arena[j] == Visit(p, Deliver, Some(i))
  }

  /** The arena starts with one PICKUP/DELIVER pair per available parcel, in order. */
  ghost predicate PremadeLayout(arena: seq<Visit>, avail: seq<Parcel>)
  {
    2 * |avail| <= |arena|
    && forall k :: 0 <= k < |avail| ==> PairAt(arena, 2 * k, 2 * k + 1, avail[k])
  }

  /** The pre-made visits (the first loop of `convert`): for each available
      parcel a PICKUP and a DELIVER visit that are each other's association. */
  function Seed(avail: seq<Parcel>): (a: Arena)
    ensures |a.visits| == 2 * |avail| && a.walked == []
    ensures PremadeLayout(a.visits, avail)
    ensures forall p :: p in a.pickups <==> p in avail
    ensures forall p :: p in a.deliveries <==> p in avail
    ensures forall p :: p in a.pickups ==>
              p in a.deliveries && PairAt(a.visits, a.pickups[p], a.deliveries[p], p)
    decreases |avail|
  {
    if |avail| == 0 then Arena([], map[], map[], [])
    else
      var prev := Seed(avail[..|avail| - 1]);
      var p := avail[|avail| - 1];
      var n := |prev.visits|;
      var a := Arena(prev.visits + [Visit(p, Pickup, Some(n + 1)), Visit(p, Deliver, Some(n))],
                       prev.pickups[p := n], prev.deliveries[p := n + 1], []);
      assert forall k :: 0 <= k < |avail| - 1 ==> avail[k] == avail[..|avail| - 1][k];
      assert forall q :: q in avail <==> q in avail[..|avail| - 1] || q == p;
      a
  }

  /** Place one route parcel (the body of the inner loop of `convert`).  The
      parcel is a delivery when the vehicle carries it or its pickup has
      already been placed; the pre-made DELIVER is used while one is left,
      otherwise a fresh one without association is created.  Anything else
      consumes the parcel's pre-made PICKUP. */
  function ClassifyOne(a: Arena, contents: set<Parcel>, p: Parcel): (r: Arena)
    ensures |r.walked| == |a.walked| + 1 && a.walked <= r.walked
    ensures a.visits <= r.visits
    ensures forall q :: q != p ==> AgreeAt(a.pickups, r.pickups, q) && AgreeAt(a.deliveries, r.deliveries, q)
  {
    if p in contents || p !in a.pickups then
      if p in a.deliveries then
        Arena(a.visits, a.pickups, a.deliveries - {p}, a.walked + [a.deliveries[p]])
      else
        Arena(a.visits + [Visit(p, Deliver, None)], a.pickups, a.deliveries, a.walked + [|a.visits|])
    else
      Arena(a.visits, a.pickups - {p}, a.deliveries, a.walked + [a.pickups[p]])
  }

  /** Place a whole route, parcel by parcel, in route order. */
  function ClassifyRoute(a: Arena, contents: set<Parcel>, route: seq<Parcel>): (r: Arena)
    ensures |r.walked| == |a.walked| + |route| && a.walked <= r.walked
    ensures a.visits <= r.visits
    ensures forall q :: q !in route ==> AgreeAt(a.pickups, r.pickups, q) && AgreeAt(a.deliveries, r.deliveries, q)
    decreases |route|
  {
    if |route| == 0 then a
    else
      var mid := ClassifyRoute(a, contents, route[..|route| - 1]);
      assert forall q :: q in route[..|route| - 1] ==> q in route;
      ClassifyOne(mid, contents, route[|route| - 1])
  }

  /** The route `convert` walks for a vehicle: only the first vehicle gets the
      unassigned parcels appended, twice, so that every visit starts on a chain. */
  function WalkedRoute(route: seq<Parcel>, unassigned: seq<Parcel>, first: bool): seq<Parcel>
  {
    if first then route + unassigned + unassigned else route
  }

  /** The vehicle loop of `convert`, from vehicle `i` on.  A vehicle without a
      known route aborts the whole conversion. */
  function Walk(s: GlobalState, i: nat, acc: Progress, first: bool): (r: Result<Progress>)
    requires i <= |s.vehicles|
    ensures r.Failure? <==> exists j :: i <= j < |s.vehicles| && s.vehicles[j].route.None?
    ensures r.Failure? ==> r.error == IllegalArgument
    ensures r.Success? ==> |r.value.chains| == |acc.chains| + |s.vehicles| - i && acc.chains <= r.value.chains
    decreases |s.vehicles| - i
  {
    if i == |s.vehicles| then Success(acc)
    else
      match s.vehicles[i].route
      case None => Failure(IllegalArgument)
      case Some(route) =>
        var a := ClassifyRoute(acc.placed, s.vehicles[i].contents, WalkedRoute(route, s.unassigned, first));
        var chain := a.walked[|acc.placed.walked|..];
        Walk(s, i + 1, Progress(a, acc.chains + [chain]), false)
  }

  /** `convert`: reject snapshots in foreign units, build the pre-made
      visits, then the vehicle chains. */
  function Convert(s: GlobalState): (r: Result<Solution>)
    ensures r.Failure? <==> !UnitsMatch(s) || !AllRoutesKnown(s)
    ensures r.Failure? ==> r.error == IllegalArgument
    ensures r.Success? ==> r.value.time == s.time && |r.value.chains| == |s.vehicles|
  {
    if !UnitsMatch(s) then Failure(IllegalArgument)
    else
      var p :- Walk(s, 0, Progress(Seed(s.available), []), true);
      Success(Solution(s.time, p.placed.visits, p.chains))
  }
}
