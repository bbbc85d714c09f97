/** The invariant `convert` keeps while it places visits, and its
    preservation by one placement and by a whole route. */
module ConvertInvariants {
  import opened Base
  import opened RoutingModel
  import opened Conversion

  /** Some pre-made visit (index below `n0`) placed in `walked` is the
      `kind` visit of `p`. */
  ghost predicate Taken(arena: seq<Visit>, walked: seq<nat>, n0: nat, p: Parcel, kind: VisitKind)
  {
    exists t :: 0 <= t < |walked| && walked[t] < n0 && walked[t] < |arena|
             && arena[walked[t]].parcel == p && arena[walked[t]].kind == kind
  }

  /** The visit at `idx`, placed after the visits `before`, was classified as
      `convert` does: a PICKUP exactly when the vehicle does not carry the
      parcel, the parcel is available and its pickup has not been placed yet;
      a fresh visit (beyond the pre-made ones) exactly when it is a delivery
      and no pre-made DELIVER of the parcel is left. */
  ghost predicate Classified(arena: seq<Visit>, before: seq<nat>, idx: nat,
                             contents: set<Parcel>, avail: seq<Parcel>)
  {
    var n0 := 2 * |avail|;
    idx < |arena|
    && (arena[idx].kind == Pickup <==>
          arena[idx].parcel !in contents && arena[idx].parcel in avail
          && !Taken(arena, before, n0, arena[idx].parcel, Pickup))
    && (idx >= n0 <==>
          arena[idx].kind == Deliver
          && (arena[idx].parcel !in avail || Taken(arena, before, n0, arena[idx].parcel, Deliver)))
  }

  /** The arena: the pre-made pairs first, then only fresh DELIVER visits
      without association. */
  ghost predicate InvArena(a: Arena, avail: seq<Parcel>)
  {
    && PremadeLayout(a.visits, avail)
    && (forall j :: 2 * |avail| <= j < |a.visits| ==>
          a.visits[j].kind == Deliver && a.visits[j].association == None)
  }

  /** The unplaced-visit maps point at pre-made visits of the right parcel and kind. */
  ghost predicate InvMaps(a: Arena, avail: seq<Parcel>)
  {
    var n0 := 2 * |avail|;
    && (forall p :: p in a.pickups ==>
          a.pickups[p] < n0 && a.pickups[p] < |a.visits|
          && a.visits[a.pickups[p]].parcel == p && a.visits[a.pickups[p]].kind == Pickup)
    && (forall p :: p in a.deliveries ==>
          a.deliveries[p] < n0 && a.deliveries[p] < |a.visits|
          && a.visits[a.deliveries[p]].parcel == p && a.visits[a.deliveries[p]].kind == Deliver)
  }

  /** A parcel still has an unplaced pre-made visit of a kind exactly when it
      is available and no pre-made visit of that kind has been placed. */
  ghost predicate InvPending(a: Arena, avail: seq<Parcel>)
  {
    var n0 := 2 * |avail|;
    && (forall p :: p in a.pickups <==> p in avail && !Taken(a.visits, a.walked, n0, p, Pickup))
    && (forall p :: p in a.deliveries <==> p in avail && !Taken(a.visits, a.walked, n0, p, Deliver))
  }

  /** Placed visits are in the arena, placed once, and no longer in the maps. */
  ghost predicate InvWalked(a: Arena)
  {
    && (forall t :: 0 <= t < |a.walked| ==> a.walked[t] < |a.visits|)
    && Distinct(a.walked)
    && (forall p, t :: p in a.pickups && 0 <= t < |a.walked| ==> a.walked[t] != a.pickups[p])
    && (forall p, t :: p in a.deliveries && 0 <= t < |a.walked| ==> a.walked[t] != a.deliveries[p])
  }

  /** The arena invariant. */
  ghost predicate Inv(a: Arena, avail: seq<Parcel>)
  {
    InvArena(a, avail) && InvMaps(a, avail) && InvPending(a, avail) && InvWalked(a)
  }

  /** The pre-made visits satisfy the invariant. */
  lemma SeedInv(avail: seq<Parcel>)
    ensures Inv(Seed(avail), avail)
  {
    var a := Seed(avail);
    assert InvArena(a, avail);
    assert InvMaps(a, avail) by {
      forall p | p in a.pickups
        ensures a.pickups[p] < |a.visits| && a.deliveries[p] < |a.visits|
      {
        assert PairAt(a.visits, a.pickups[p], a.deliveries[p], p);
      }
      forall p | p in a.deliveries ensures p in a.pickups {
        assert p in avail;
      }
    }
    assert InvPending(a, avail) by {
      forall p, kind ensures !Taken(a.visits, a.walked, 2 * |avail|, p, kind) {
        assert |a.walked| == 0;
      }
    }
  }

  /** Placing one more visit extends `Taken` by that visit alone. */
  lemma TakenAppend(arena: seq<Visit>, arena': seq<Visit>, walked: seq<nat>, w: nat, n0: nat,
                    p: Parcel, kind: VisitKind)
    requires arena <= arena' && n0 <= |arena|
    ensures Taken(arena', walked + [w], n0, p, kind) <==>
              Taken(arena, walked, n0, p, kind)
              || (w < n0 && arena'[w].parcel == p && arena'[w].kind == kind)
  {
    var ws := walked + [w];
    if Taken(arena, walked, n0, p, kind) {
      var t :| 0 <= t < |walked| && walked[t] < n0 && walked[t] < |arena|
               && arena[walked[t]].parcel == p && arena[walked[t]].kind == kind;
      assert ws[t] == walked[t] && arena'[walked[t]] == arena[walked[t]];
    }
    if w < n0 && arena'[w].parcel == p && arena'[w].kind == kind {
      assert ws[|walked|] == w;
    }
    if Taken(arena', ws, n0, p, kind) {
      var t :| 0 <= t < |ws| && ws[t] < n0 && ws[t] < |arena'|
               && arena'[ws[t]].parcel == p && arena'[ws[t]].kind == kind;
      if t < |walked| {
        assert arena'[walked[t]] == arena[walked[t]];
      }
    }
  }

  /** Growing the arena and the placed prefix does not change `Taken`. */
  lemma TakenStable(arena: seq<Visit>, arena': seq<Visit>, walked: seq<nat>, n0: nat,
                    p: Parcel, kind: VisitKind)
    requires arena <= arena' && n0 <= |arena|
    ensures Taken(arena', walked, n0, p, kind) <==> Taken(arena, walked, n0, p, kind)
  {
    if Taken(arena', walked, n0, p, kind) {
      var t :| 0 <= t < |walked| && walked[t] < n0 && walked[t] < |arena'|
               && arena'[walked[t]].parcel == p && arena'[walked[t]].kind == kind;
      assert arena'[walked[t]] == arena[walked[t]];
    }
    if Taken(arena, walked, n0, p, kind) {
      var t :| 0 <= t < |walked| && walked[t] < n0 && walked[t] < |arena|
               && arena[walked[t]].parcel == p && arena[walked[t]].kind == kind;
      assert arena'[walked[t]] == arena[walked[t]];
    }
  }

  /** A classification stays true as the arena grows. */
  lemma ClassifiedStable(arena: seq<Visit>, arena': seq<Visit>, before: seq<nat>, idx: nat,
                         contents: set<Parcel>, avail: seq<Parcel>)
    requires arena <= arena' && 2 * |avail| <= |arena|
    requires Classified(arena, before, idx, contents, avail)
    ensures Classified(arena', before, idx, contents, avail)
  {
    var p := arena[idx].parcel;
    assert arena'[idx] == arena[idx];
    TakenStable(arena, arena', before, 2 * |avail|, p, Pickup);
    TakenStable(arena, arena', before, 2 * |avail|, p, Deliver);
  }

  /** One placement keeps the invariant, places a visit of the given parcel,
      and classifies it as `convert` does. */
  lemma ClassifyOneInv(a: Arena, contents: set<Parcel>, p: Parcel, avail: seq<Parcel>)
    requires Inv(a, avail)
    ensures var r := ClassifyOne(a, contents, p);
            && Inv(r, avail)
            && r.visits[r.walked[|a.walked|]].parcel == p
            && Classified(r.visits, a.walked, r.walked[|a.walked|], contents, avail)
  {
    var r := ClassifyOne(a, contents, p);
    var n0 := 2 * |avail|;
    var w := r.walked[|a.walked|];
    assert r.walked == a.walked + [w];
    assert n0 <= |a.visits| by { assert InvArena(a, avail); }
    forall q, kind
      ensures Taken(r.visits, r.walked, n0, q, kind) <==>
                Taken(a.visits, a.walked, n0, q, kind) || (w < n0 && r.visits[w].parcel == q && r.visits[w].kind == kind)
      ensures Taken(r.visits, a.walked, n0, q, kind) <==> Taken(a.visits, a.walked, n0, q, kind)
    {
      TakenAppend(a.visits, r.visits, a.walked, w, n0, q, kind);
      TakenStable(a.visits, r.visits, a.walked, n0, q, kind);
    }
    if p in contents || p !in a.pickups {
      if p in a.deliveries {
        ClassifyDeliverPremade(a, r, contents, p, avail);
      } else {
        ClassifyDeliverFresh(a, r, contents, p, avail);
      }
    } else {
      ClassifyPickup(a, r, contents, p, avail);
    }
  }

  /** The placed visit joins `walked` without repeating an earlier one. */
  lemma DistinctAppend(walked: seq<nat>, w: nat)
    requires Distinct(walked)
    requires forall t :: 0 <= t < |walked| ==> walked[t] != w
    ensures Distinct(walked + [w])
  {
    var ws := walked + [w];
    forall i, j | 0 <= i < j < |ws| ensures ws[i] != ws[j] {
      assert ws[i] == walked[i];
    }
  }

  /** Placing the pre-made PICKUP of `p` (yielding `r`) keeps the invariant. */
  lemma ClassifyPickup(a: Arena, r: Arena, contents: set<Parcel>, p: Parcel, avail: seq<Parcel>)
    requires Inv(a, avail)
    requires p !in contents && p in a.pickups
    requires r == Arena(a.visits, a.pickups - {p}, a.deliveries, a.walked + [a.pickups[p]])
    requires forall q, kind ::
               Taken(r.visits, r.walked, 2 * |avail|, q, kind) <==>
                 Taken(a.visits, a.walked, 2 * |avail|, q, kind) || (q == p && kind == Pickup)
    ensures && Inv(r, avail)
            && r.visits[r.walked[|a.walked|]].parcel == p
            && Classified(r.visits, a.walked, r.walked[|a.walked|], contents, avail)
  {
    PickupMaps(a, r, p, avail);
    PickupPending(a, r, p, avail);
    PickupWalked(a, r, p, avail);
    PickupClassified(a, r, contents, p, avail);
  }

  lemma PickupMaps(a: Arena, r: Arena, p: Parcel, avail: seq<Parcel>)
    requires InvMaps(a, avail) && p in a.pickups
    requires r == Arena(a.visits, a.pickups - {p}, a.deliveries, a.walked + [a.pickups[p]])
    ensures InvMaps(r, avail)
  {
  }

  lemma PickupPending(a: Arena, r: Arena, p: Parcel, avail: seq<Parcel>)
    requires InvPending(a, avail) && p in a.pickups
    requires r == Arena(a.visits, a.pickups - {p}, a.deliveries, a.walked + [a.pickups[p]])
    requires forall q, kind ::
               Taken(r.visits, r.walked, 2 * |avail|, q, kind) <==>
                 Taken(a.visits, a.walked, 2 * |avail|, q, kind) || (q == p && kind == Pickup)
    ensures InvPending(r, avail)
  {
  }

  lemma PickupWalked(a: Arena, r: Arena, p: Parcel, avail: seq<Parcel>)
    requires InvMaps(a, avail) && InvWalked(a) && p in a.pickups
    requires r == Arena(a.visits, a.pickups - {p}, a.deliveries, a.walked + [a.pickups[p]])
    ensures InvWalked(r)
  {
    var w := a.pickups[p];
    DistinctAppend(a.walked, w);
    forall q, t | q in r.pickups && 0 <= t < |r.walked| ensures r.walked[t] != r.pickups[q] {
      if t == |a.walked| {
        assert a.visits[w].parcel == p && a.visits[a.pickups[q]].parcel == q;
      }
    }
    forall q, t | q in r.deliveries && 0 <= t < |r.walked| ensures r.walked[t] != r.deliveries[q] {
      if t == |a.walked| {
        assert a.visits[w].kind == Pickup && a.visits[a.deliveries[q]].kind == Deliver;
      }
    }
  }

  lemma PickupClassified(a: Arena, r: Arena, contents: set<Parcel>, p: Parcel, avail: seq<Parcel>)
    requires InvArena(a, avail) && InvMaps(a, avail) && InvPending(a, avail)
    requires p !in contents && p in a.pickups
    requires r == Arena(a.visits, a.pickups - {p}, a.deliveries, a.walked + [a.pickups[p]])
    ensures r.visits[r.walked[|a.walked|]].parcel == p
    ensures Classified(r.visits, a.walked, r.walked[|a.walked|], contents, avail)
  {
  }

  /** Placing the pre-made DELIVER of `p` (yielding `r`) keeps the invariant. */
  lemma ClassifyDeliverPremade(a: Arena, r: Arena, contents: set<Parcel>, p: Parcel, avail: seq<Parcel>)
    requires Inv(a, avail)
    requires (p in contents || p !in a.pickups) && p in a.deliveries
    requires r == Arena(a.visits, a.pickups, a.deliveries - {p}, a.walked + [a.deliveries[p]])
    requires forall q, kind ::
               Taken(r.visits, r.walked, 2 * |avail|, q, kind) <==>
                 Taken(a.visits, a.walked, 2 * |avail|, q, kind) || (q == p && kind == Deliver)
    ensures && Inv(r, avail)
            && r.visits[r.walked[|a.walked|]].parcel == p
            && Classified(r.visits, a.walked, r.walked[|a.walked|], contents, avail)
  {
    PremadeMaps(a, r, p, avail);
    PremadePending(a, r, p, avail);
    PremadeWalked(a, r, p, avail);
    PremadeClassified(a, r, contents, p, avail);
  }

  lemma PremadeMaps(a: Arena, r: Arena, p: Parcel, avail: seq<Parcel>)
    requires InvMaps(a, avail) && p in a.deliveries
    requires r == Arena(a.visits, a.pickups, a.deliveries - {p}, a.walked + [a.deliveries[p]])
    ensures InvMaps(r, avail)
  {
  }

  lemma PremadePending(a: Arena, r: Arena, p: Parcel, avail: seq<Parcel>)
    requires InvPending(a, avail) && p in a.deliveries
    requires r == Arena(a.visits, a.pickups, a.deliveries - {p}, a.walked + [a.deliveries[p]])
    requires forall q, kind ::
               Taken(r.visits, r.walked, 2 * |avail|, q, kind) <==>
                 Taken(a.visits, a.walked, 2 * |avail|, q, kind) || (q == p && kind == Deliver)
    ensures InvPending(r, avail)
  {
  }

  lemma PremadeWalked(a: Arena, r: Arena, p: Parcel, avail: seq<Parcel>)
    requires InvMaps(a, avail) && InvWalked(a) && p in a.deliveries
    requires r == Arena(a.visits, a.pickups, a.deliveries - {p}, a.walked + [a.deliveries[p]])
    ensures InvWalked(r)
  {
    var w := a.deliveries[p];
    DistinctAppend(a.walked, w);
    forall q, t | q in r.pickups && 0 <= t < |r.walked| ensures r.walked[t] != r.pickups[q] {
      if t == |a.walked| {
        assert a.visits[w].kind == Deliver && a.visits[a.pickups[q]].kind == Pickup;
      }
    }
    forall q, t | q in r.deliveries && 0 <= t < |r.walked| ensures r.walked[t] != r.deliveries[q] {
      if t == |a.walked| {
        assert a.visits[w].parcel == p && a.visits[a.deliveries[q]].parcel == q;
      }
    }
  }

  lemma PremadeClassified(a: Arena, r: Arena, contents: set<Parcel>, p: Parcel, avail: seq<Parcel>)
    requires InvArena(a, avail) && InvMaps(a, avail) && InvPending(a, avail)
    requires (p in contents || p !in a.pickups) && p in a.deliveries
    requires r == Arena(a.visits, a.pickups, a.deliveries - {p}, a.walked + [a.deliveries[p]])
    ensures r.visits[r.walked[|a.walked|]].parcel == p
    ensures Classified(r.visits, a.walked, r.walked[|a.walked|], contents, avail)
  {
  }

  /** Appending a fresh DELIVER of `p` (yielding `r`) keeps the invariant. */
  lemma ClassifyDeliverFresh(a: Arena, r: Arena, contents: set<Parcel>, p: Parcel, avail: seq<Parcel>)
    requires Inv(a, avail)
    requires (p in contents || p !in a.pickups) && p !in a.deliveries
    requires r == Arena(a.visits + [Visit(p, Deliver, None)], a.pickups, a.deliveries, a.walked + [|a.visits|])
    requires forall q, kind ::
               Taken(r.visits, r.walked, 2 * |avail|, q, kind) <==> Taken(a.visits, a.walked, 2 * |avail|, q, kind)
    requires forall q, kind ::
               Taken(r.visits, a.walked, 2 * |avail|, q, kind) <==> Taken(a.visits, a.walked, 2 * |avail|, q, kind)
    ensures && Inv(r, avail)
            && r.visits[r.walked[|a.walked|]].parcel == p
            && Classified(r.visits, a.walked, r.walked[|a.walked|], contents, avail)
  {
    FreshArena(a, r, p, avail);
    FreshMaps(a, r, p, avail);
    FreshPending(a, r, p, avail);
    FreshWalked(a, r, p, avail);
    FreshClassified(a, r, contents, p, avail);
  }

  lemma FreshArena(a: Arena, r: Arena, p: Parcel, avail: seq<Parcel>)
    requires InvArena(a, avail)
    requires r == Arena(a.visits + [Visit(p, Deliver, None)], a.pickups, a.deliveries, a.walked + [|a.visits|])
    ensures InvArena(r, avail)
  {
    forall k | 0 <= k < |avail| ensures PairAt(r.visits, 2 * k, 2 * k + 1, avail[k]) {
      assert PairAt(a.visits, 2 * k, 2 * k + 1, avail[k]);
    }
  }

  lemma FreshMaps(a: Arena, r: Arena, p: Parcel, avail: seq<Parcel>)
    requires InvMaps(a, avail)
    requires r == Arena(a.visits + [Visit(p, Deliver, None)], a.pickups, a.deliveries, a.walked + [|a.visits|])
    ensures InvMaps(r, avail)
  {
  }

  lemma FreshPending(a: Arena, r: Arena, p: Parcel, avail: seq<Parcel>)
    requires InvPending(a, avail)
    requires r == Arena(a.visits + [Visit(p, Deliver, None)], a.pickups, a.deliveries, a.walked + [|a.visits|])
    requires forall q, kind ::
               Taken(r.visits, r.walked, 2 * |avail|, q, kind) <==> Taken(a.visits, a.walked, 2 * |avail|, q, kind)
    ensures InvPending(r, avail)
  {
  }

  lemma FreshWalked(a: Arena, r: Arena, p: Parcel, avail: seq<Parcel>)
    requires InvMaps(a, avail) && InvWalked(a)
    requires r == Arena(a.visits + [Visit(p, Deliver, None)], a.pickups, a.deliveries, a.walked + [|a.visits|])
    ensures InvWalked(r)
  {
    DistinctAppend(a.walked, |a.visits|);
  }

  lemma FreshClassified(a: Arena, r: Arena, contents: set<Parcel>, p: Parcel, avail: seq<Parcel>)
    requires InvArena(a, avail) && InvPending(a, avail)
    requires (p in contents || p !in a.pickups) && p !in a.deliveries
    requires r == Arena(a.visits + [Visit(p, Deliver, None)], a.pickups, a.deliveries, a.walked + [|a.visits|])
    requires forall q, kind ::
               Taken(r.visits, a.walked, 2 * |avail|, q, kind) <==> Taken(a.visits, a.walked, 2 * |avail|, q, kind)
    ensures r.visits[r.walked[|a.walked|]].parcel == p
    ensures Classified(r.visits, a.walked, r.walked[|a.walked|], contents, avail)
  {
  }

  /** The visit placed at position `base + k` is `route[k]`, classified as
      `convert` does. */
  ghost predicate PlacedAt(r: Arena, base: nat, route: seq<Parcel>, contents: set<Parcel>,
                           avail: seq<Parcel>, k: nat)
    requires base + k < |r.walked| && k < |route|
  {
    && Classified(r.visits, r.walked[..base + k], r.walked[base + k], contents, avail)
    && r.visits[r.walked[base + k]].parcel == route[k]
  }

  /** The visits placed from position `base` on spell `route`, each
      classified as `convert` does. */
  ghost predicate PlacedAs(r: Arena, base: nat, route: seq<Parcel>, contents: set<Parcel>, avail: seq<Parcel>)
  {
    base + |route| <= |r.walked|
    && forall k :: 0 <= k < |route| ==> PlacedAt(r, base, route, contents, avail, k)
  }

  lemma PlacedExtend(mid: Arena, r: Arena, base: nat, front: seq<Parcel>, p: Parcel,
                     contents: set<Parcel>, avail: seq<Parcel>)
    requires mid.walked <= r.walked && mid.visits <= r.visits && 2 * |avail| <= |mid.visits|
    requires |mid.walked| == base + |front| && |r.walked| == |mid.walked| + 1
    requires PlacedAs(mid, base, front, contents, avail)
    requires Classified(r.visits, mid.walked, r.walked[|mid.walked|], contents, avail)
    requires r.visits[r.walked[|mid.walked|]].parcel == p
    ensures PlacedAs(r, base, front + [p], contents, avail)
  {
    var route := front + [p];
    forall k | 0 <= k < |route|
      ensures PlacedAt(r, base, route, contents, avail, k)
    {
      if k < |front| {
        assert PlacedAt(mid, base, front, contents, avail, k);
        assert r.walked[base + k] == mid.walked[base + k];
        assert r.walked[..base + k] == mid.walked[..base + k];
        assert mid.visits[mid.walked[base + k]] == r.visits[mid.walked[base + k]];
        ClassifiedStable(mid.visits, r.visits, mid.walked[..base + k], mid.walked[base + k], contents, avail);
      } else {
        assert r.walked[..base + k] == mid.walked;
      }
    }
  }

  /** A non-empty sequence is its front followed by its last element. */
  lemma SplitLast<T>(s: seq<T>)
    requires |s| > 0
    ensures s[..|s| - 1] + [s[|s| - 1]] == s
  {
  }

  /** A whole route keeps the invariant; the placed visits spell the route and
      each is classified as `convert` does. */
  lemma {:induction false} ClassifyRouteInv(a: Arena, contents: set<Parcel>, route: seq<Parcel>,
                                            avail: seq<Parcel>)
    requires Inv(a, avail)
    ensures var r := ClassifyRoute(a, contents, route);
            Inv(r, avail) && PlacedAs(r, |a.walked|, route, contents, avail)
    decreases |route|
  {
    if |route| > 0 {
      var front := route[..|route| - 1];
      var p := route[|route| - 1];
      var mid := ClassifyRoute(a, contents, front);
      ClassifyRouteInv(a, contents, front, avail);
      var r := ClassifyOne(mid, contents, p);
      assert r == ClassifyRoute(a, contents, route);
      ClassifyOneInv(mid, contents, p, avail);
      assert InvArena(mid, avail);
      PlacedExtend(mid, r, |a.walked|, front, p, contents, avail);
      SplitLast(route);
    }
  }
}
