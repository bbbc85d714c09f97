/** What `convert` and `toSchedule` promise about the routing model they
    build from a snapshot. */
module ConvertProperties {
  import opened Base
  import opened Snapshot
  import opened RoutingModel
  import opened Conversion
  import opened ConvertInvariants

  /** The route `convert` walks for vehicle `j`: its known route, plus the
      unassigned parcels twice for vehicle 0. */
  function PlannedRoute(s: GlobalState, j: nat): seq<Parcel>
    requires j < |s.vehicles| && s.vehicles[j].route.Some?
  {
    WalkedRoute(s.vehicles[j].route.value, s.unassigned, j == 0)
  }

  /** The planned routes of all vehicles, in vehicle order. */
  function PlannedRoutes(s: GlobalState): (r: seq<seq<Parcel>>)
    requires AllRoutesKnown(s)
    ensures |r| == |s.vehicles|
  {
    seq(|s.vehicles|, j requires 0 <= j < |s.vehicles| => PlannedRoute(s, j))
  }

  /** Position `k` of chain `j` holds the planned parcel, classified as `convert` does. */
  ghost predicate ChainAt(s: GlobalState, arena: seq<Visit>, chains: seq<seq<nat>>, j: nat, k: nat)
    requires j < |chains| && j < |s.vehicles| && s.vehicles[j].route.Some?
    requires k < |chains[j]| && k < |PlannedRoute(s, j)|
  {
    && Classified(arena, Flatten(chains[..j]) + chains[j][..k], chains[j][k], s.vehicles[j].contents, s.available)
    && arena[chains[j][k]].parcel == PlannedRoute(s, j)[k]
  }

  ghost predicate ChainOk(s: GlobalState, arena: seq<Visit>, chains: seq<seq<nat>>, j: nat)
    requires j < |chains| && j < |s.vehicles| && s.vehicles[j].route.Some?
  {
    |chains[j]| == |PlannedRoute(s, j)|
    && forall k :: 0 <= k < |chains[j]| ==> ChainAt(s, arena, chains, j, k)
  }

  /** The invariant of the vehicle loop. */
  ghost predicate WalkState(s: GlobalState, p: Progress)
  {
    && Inv(p.placed, s.available)
    && Flatten(p.chains) == p.placed.walked
    && |p.chains| <= |s.vehicles|
    && forall j :: 0 <= j < |p.chains| ==>
         s.vehicles[j].route.Some? && ChainOk(s, p.placed.visits, p.chains, j)
  }

  lemma FlattenSnoc<T>(ss: seq<seq<T>>, c: seq<T>)
    ensures Flatten(ss + [c]) == Flatten(ss) + c
  {
    assert (ss + [c])[..|ss|] == ss;
  }

  /** Earlier chains stay correctly placed while the arena grows. */
  lemma ChainOkStable(s: GlobalState, arena: seq<Visit>, arena': seq<Visit>,
                      chains: seq<seq<nat>>, c: seq<nat>, j: nat)
    requires arena <= arena' && 2 * |s.available| <= |arena|
    requires j < |chains| && j < |s.vehicles| && s.vehicles[j].route.Some?
    requires ChainOk(s, arena, chains, j)
    ensures ChainOk(s, arena', chains + [c], j)
  {
    var cs := chains + [c];
    assert cs[j] == chains[j] && cs[..j] == chains[..j];
    forall k | 0 <= k < |cs[j]| ensures ChainAt(s, arena', cs, j, k) {
      assert ChainAt(s, arena, chains, j, k);
      var idx := chains[j][k];
      assert arena[idx] == arena'[idx];
      ClassifiedStable(arena, arena', Flatten(chains[..j]) + chains[j][..k], idx,
                       s.vehicles[j].contents, s.available);
    }
  }

  /** The newly walked chain is correctly placed. */
  lemma NewChainOk(s: GlobalState, acc: Progress, a: Arena, i: nat)
    requires i == |acc.chains| && i < |s.vehicles| && s.vehicles[i].route.Some?
    requires Flatten(acc.chains) == acc.placed.walked
    requires acc.placed.walked <= a.walked
    requires PlacedAs(a, |acc.placed.walked|, PlannedRoute(s, i), s.vehicles[i].contents, s.available)
    requires |a.walked| == |acc.placed.walked| + |PlannedRoute(s, i)|
    ensures ChainOk(s, a.visits, acc.chains + [a.walked[|acc.placed.walked|..]], i)
  {
    var base := |acc.placed.walked|;
    var chain := a.walked[base..];
    var cs := acc.chains + [chain];
    var route := PlannedRoute(s, i);
    assert cs[i] == chain && cs[..i] == acc.chains;
    forall k | 0 <= k < |chain| ensures ChainAt(s, a.visits, cs, i, k) {
      assert PlacedAt(a, base, route, s.vehicles[i].contents, s.available, k);
      assert a.walked[..base + k] == acc.placed.walked + chain[..k];
      assert chain[k] == a.walked[base + k];
    }
  }

  /** One turn of the vehicle loop keeps its invariant. */
  lemma WalkStep(s: GlobalState, acc: Progress, first: bool)
    requires WalkState(s, acc) && |acc.chains| < |s.vehicles|
    requires s.vehicles[|acc.chains|].route.Some?
    requires first <==> |acc.chains| == 0
    ensures var i := |acc.chains|;
            var a := ClassifyRoute(acc.placed, s.vehicles[i].contents,
                                   WalkedRoute(s.vehicles[i].route.value, s.unassigned, first));
            WalkState(s, Progress(a, acc.chains + [a.walked[|acc.placed.walked|..]]))
  {
    var i := |acc.chains|;
    var route := WalkedRoute(s.vehicles[i].route.value, s.unassigned, first);
    assert route == PlannedRoute(s, i);
    var a := ClassifyRoute(acc.placed, s.vehicles[i].contents, route);
    ClassifyRouteInv(acc.placed, s.vehicles[i].contents, route, s.available);
    var chain := a.walked[|acc.placed.walked|..];
    var cs := acc.chains + [chain];
    FlattenSnoc(acc.chains, chain);
    assert acc.placed.walked + chain == a.walked;
    assert InvArena(acc.placed, s.available);
    forall j | 0 <= j < |cs|
      ensures s.vehicles[j].route.Some? && ChainOk(s, a.visits, cs, j)
    {
      if j < i {
        ChainOkStable(s, acc.placed.visits, a.visits, acc.chains, chain, j);
      } else {
        NewChainOk(s, acc, a, i);
      }
    }
  }

  /** The vehicle loop, when it succeeds, ends with every chain placed. */
  lemma {:induction false} WalkInv(s: GlobalState, i: nat, acc: Progress, first: bool)
    requires i == |acc.chains| && i <= |s.vehicles|
    requires first <==> i == 0
    requires WalkState(s, acc)
    ensures Walk(s, i, acc, first).Success? ==>
              WalkState(s, Walk(s, i, acc, first).value) && |Walk(s, i, acc, first).value.chains| == |s.vehicles|
    decreases |s.vehicles| - i
  {
    if i < |s.vehicles| && s.vehicles[i].route.Some? {
      var route := WalkedRoute(s.vehicles[i].route.value, s.unassigned, first);
      var a := ClassifyRoute(acc.placed, s.vehicles[i].contents, route);
      var next := Progress(a, acc.chains + [a.walked[|acc.placed.walked|..]]);
      WalkStep(s, acc, first);
      WalkInv(s, i + 1, next, false);
    }
  }

  /** A successful conversion satisfies the loop invariant at the end. */
  lemma ConvertState(s: GlobalState)
    requires Convert(s).Success?
    ensures var m := Convert(s).value;
            exists p :: WalkState(s, p) && p.placed.visits == m.visits && p.chains == m.chains
                     && |p.chains| == |s.vehicles|
  {
    var seed := Progress(Seed(s.available), []);
    SeedInv(s.available);
    assert WalkState(s, seed);
    WalkInv(s, 0, seed, true);
    var p := Walk(s, 0, seed, true).value;
    assert Convert(s).value == Solution(s.time, p.placed.visits, p.chains);
  }

  /** The solution a successful conversion returns. */
  function Converted(s: GlobalState): (m: Solution)
    requires UnitsMatch(s) && AllRoutesKnown(s)
    ensures Convert(s) == Success(m)
  {
    Convert(s).value
  }

  /** Chain `j` of a successful conversion is correctly placed. */
  lemma ConvertChain(s: GlobalState, j: nat)
    requires UnitsMatch(s) && AllRoutesKnown(s) && j < |s.vehicles|
    ensures j < |Converted(s).chains| && ChainOk(s, Converted(s).visits, Converted(s).chains, j)
  {
    ConvertState(s);
    var m := Converted(s);
    var p :| WalkState(s, p) && p.placed.visits == m.visits && p.chains == m.chains && |p.chains| == |s.vehicles|;
  }

  /** Round trip: reading the chains back with `toSchedule` gives every
      vehicle's route in vehicle order, vehicle 0's followed by the
      unassigned parcels twice. */
  lemma ConvertRoundTrip(s: GlobalState)
    requires UnitsMatch(s) && AllRoutesKnown(s)
    ensures WellFormed(Converted(s))
    ensures ToSchedule(Converted(s)) == PlannedRoutes(s)
  {
    var m := Converted(s);
    ConvertState(s);
    var p :| WalkState(s, p) && p.placed.visits == m.visits && p.chains == m.chains && |p.chains| == |s.vehicles|;
    forall j, k | 0 <= j < |m.chains| && 0 <= k < |m.chains[j]|
      ensures m.chains[j][k] < |m.visits| && m.visits[m.chains[j][k]].parcel == PlannedRoute(s, j)[k]
    {
      assert ChainOk(s, m.visits, m.chains, j);
      assert ChainAt(s, m.visits, m.chains, j, k);
    }
    forall j | 0 <= j < |m.chains| ensures ToSchedule(m)[j] == PlannedRoutes(s)[j] {
      assert ChainOk(s, m.visits, m.chains, j);
    }
  }

  /** Every chain visit was classified as `convert` does: a PICKUP exactly
      when the vehicle does not carry the parcel, the parcel is available and
      its pickup was not placed earlier in the walk; a fresh DELIVER exactly
      when no pre-made one was left. */
  lemma ConvertClassification(s: GlobalState)
    requires UnitsMatch(s) && AllRoutesKnown(s)
    ensures var m := Converted(s);
            forall j, k :: 0 <= j < |m.chains| && 0 <= k < |m.chains[j]| ==>
              Classified(m.visits, Flatten(m.chains[..j]) + m.chains[j][..k], m.chains[j][k],
                         s.vehicles[j].contents, s.available)
  {
    var m := Converted(s);
    ConvertState(s);
    var p :| WalkState(s, p) && p.placed.visits == m.visits && p.chains == m.chains && |p.chains| == |s.vehicles|;
    forall j, k | 0 <= j < |m.chains| && 0 <= k < |m.chains[j]|
      ensures Classified(m.visits, Flatten(m.chains[..j]) + m.chains[j][..k], m.chains[j][k],
                         s.vehicles[j].contents, s.available)
    {
      assert ChainOk(s, m.visits, m.chains, j);
      assert ChainAt(s, m.visits, m.chains, j, k);
    }
  }

  /** A parcel the vehicle carries only ever gets a DELIVER visit on its chain. */
  lemma ConvertCarriedIsDelivery(s: GlobalState, j: nat, k: nat)
    requires UnitsMatch(s) && AllRoutesKnown(s)
    requires j < |s.vehicles| && k < |PlannedRoute(s, j)| && PlannedRoute(s, j)[k] in s.vehicles[j].contents
    ensures var m := Converted(s);
            k < |m.chains[j]| && m.chains[j][k] < |m.visits|
            && m.visits[m.chains[j][k]].parcel == PlannedRoute(s, j)[k]
            && m.visits[m.chains[j][k]].kind == Deliver
  {
    ConvertRoundTrip(s);
    ConvertClassification(s);
    var m := Converted(s);
    assert ToSchedule(m)[j][k] == PlannedRoute(s, j)[k];
  }

  /** No visit is on two chains, or twice on one: each pre-made visit is
      consumed at most once. */
  lemma ConvertChainsDisjoint(s: GlobalState)
    requires UnitsMatch(s) && AllRoutesKnown(s)
    ensures Distinct(Flatten(Converted(s).chains))
  {
    ConvertState(s);
    var m := Converted(s);
    var p :| WalkState(s, p) && p.placed.visits == m.visits && p.chains == m.chains && |p.chains| == |s.vehicles|;
    assert InvWalked(p.placed);
  }

  /** The visit list starts with a PICKUP and a DELIVER per available parcel,
      in order, each the other's association; every later visit is a fresh
      DELIVER without association. */
  lemma ConvertPremade(s: GlobalState)
    requires UnitsMatch(s) && AllRoutesKnown(s)
    ensures var m := Converted(s);
            && PremadeLayout(m.visits, s.available)
            && forall j :: 2 * |s.available| <= j < |m.visits| ==>
                 m.visits[j].kind == Deliver && m.visits[j].association == None
  {
    ConvertState(s);
    var m := Converted(s);
    var p :| WalkState(s, p) && p.placed.visits == m.visits && p.chains == m.chains && |p.chains| == |s.vehicles|;
    assert InvArena(p.placed, s.available);
  }

  /** Inside the pre-made block the visit at an index is fixed by the layout. */
  lemma LayoutAt(arena: seq<Visit>, avail: seq<Parcel>, idx: nat)
    requires PremadeLayout(arena, avail) && idx < 2 * |avail|
    ensures idx % 2 == 0 ==> arena[idx] == Visit(avail[idx / 2], Pickup, Some(idx + 1))
    ensures idx % 2 == 1 ==> arena[idx] == Visit(avail[idx / 2], Deliver, Some(idx - 1))
  {
    assert PairAt(arena, 2 * (idx / 2), 2 * (idx / 2) + 1, avail[idx / 2]);
  }

  /** Associations in the model are symmetric. */
  lemma ConvertAssociationSymmetric(s: GlobalState)
    requires UnitsMatch(s) && AllRoutesKnown(s)
    ensures AssociationSymmetric(Converted(s).visits)
  {
    var m := Converted(s);
    ConvertPremade(s);
    forall j | 0 <= j < |m.visits| && m.visits[j].association.Some?
      ensures var a := m.visits[j].association.value;
              && a < |m.visits| && m.visits[a].association == Some(j)
              && m.visits[a].parcel == m.visits[j].parcel && m.visits[a].kind != m.visits[j].kind
    {
      LayoutAt(m.visits, s.available, j);
      if j % 2 == 0 {
        LayoutAt(m.visits, s.available, j + 1);
      } else {
        LayoutAt(m.visits, s.available, j - 1);
      }
    }
  }

  /** A pre-made visit of a parcel sits at that parcel's slot when the
      available parcels are distinct (as a Java set is). */
  lemma PremadeSlot(arena: seq<Visit>, avail: seq<Parcel>, idx: nat, k: nat)
    requires PremadeLayout(arena, avail) && Distinct(avail)
    requires idx < 2 * |avail| && k < |avail| && arena[idx].parcel == avail[k]
    ensures arena[idx].kind == Pickup ==> idx == 2 * k
    ensures arena[idx].kind == Deliver ==> idx == 2 * k + 1
  {
    LayoutAt(arena, avail, idx);
  }

  /** With distinct available parcels, each has exactly one PICKUP visit and
      exactly one DELIVER visit that carries an association. */
  lemma ConvertPairsUnique(s: GlobalState, k: nat)
    requires UnitsMatch(s) && AllRoutesKnown(s) && Distinct(s.available) && k < |s.available|
    ensures var m := Converted(s);
            && 2 * k + 1 < |m.visits|
            && m.visits[2 * k] == Visit(s.available[k], Pickup, Some(2 * k + 1))
            && m.visits[2 * k + 1] == Visit(s.available[k], Deliver, Some(2 * k))
            && forall j :: 0 <= j < |m.visits| && m.visits[j].parcel == s.available[k] ==>
                 (m.visits[j].kind == Pickup ==> j == 2 * k)
                 && (m.visits[j].kind == Deliver && m.visits[j].association.Some? ==> j == 2 * k + 1)
  {
    var m := Converted(s);
    ConvertPremade(s);
    assert PairAt(m.visits, 2 * k, 2 * k + 1, s.available[k]);
    forall j | 0 <= j < |m.visits| && m.visits[j].parcel == s.available[k]
      ensures (m.visits[j].kind == Pickup ==> j == 2 * k)
              && (m.visits[j].kind == Deliver && m.visits[j].association.Some? ==> j == 2 * k + 1)
    {
      if j < 2 * |s.available| {
        PremadeSlot(m.visits, s.available, j, k);
      }
    }
  }

  /** No visit among `before` concerns parcel `p`. */
  lemma NotTaken(arena: seq<Visit>, before: seq<nat>, n0: nat, p: Parcel, kind: VisitKind)
    requires forall t :: 0 <= t < |before| && before[t] < |arena| ==> arena[before[t]].parcel != p
    ensures !Taken(arena, before, n0, p, kind)
  {
  }

  /** In `r0 ++ U ++ U` with `U` distinct and `U[j]` not in `r0`, the parcel
      `U[j]` occurs exactly at its two copies. */
  lemma SeededOccurrences(r0: seq<Parcel>, us: seq<Parcel>, j: nat)
    requires Distinct(us) && j < |us| && us[j] !in r0
    ensures var route := r0 + us + us;
            && route[|r0| + j] == us[j] && route[|r0| + |us| + j] == us[j]
            && forall t :: 0 <= t < |route| && t != |r0| + j && t != |r0| + |us| + j ==> route[t] != us[j]
  {
    var route := r0 + us + us;
    forall t | 0 <= t < |route| && t != |r0| + j && t != |r0| + |us| + j ensures route[t] != us[j] {
      if t < |r0| {
        assert route[t] == r0[t];
      } else if t < |r0| + |us| {
        assert route[t] == us[t - |r0|];
      } else {
        assert route[t] == us[t - |r0| - |us|];
      }
    }
  }

  /** The two visits of a parcel that occurs at exactly two chain positions,
      is available and is not carried: the first is its pre-made PICKUP, the
      second its pre-made DELIVER. */
  lemma FirstPickupThenDelivery(visits: seq<Visit>, chain: seq<nat>, route: seq<Parcel>,
                                avail: seq<Parcel>, contents: set<Parcel>, a: nat, d: nat, k: nat)
    requires PremadeLayout(visits, avail) && Distinct(avail) && k < |avail|
    requires avail[k] !in contents
    requires a < d < |chain| && |chain| == |route|
    requires forall t :: 0 <= t < |chain| ==> chain[t] < |visits| && visits[chain[t]].parcel == route[t]
    requires route[a] == avail[k] && route[d] == avail[k]
    requires forall t :: 0 <= t < |route| && t != a && t != d ==> route[t] != avail[k]
    requires Classified(visits, chain[..a], chain[a], contents, avail)
    requires Classified(visits, chain[..d], chain[d], contents, avail)
    ensures visits[chain[a]] == Visit(avail[k], Pickup, Some(chain[d]))
    ensures visits[chain[d]] == Visit(avail[k], Deliver, Some(chain[a]))
  {
    var u := avail[k];
    var n0 := 2 * |avail|;
    var beforeA := chain[..a];
    forall t | 0 <= t < |beforeA| && beforeA[t] < |visits| ensures visits[beforeA[t]].parcel != u {
      assert beforeA[t] == chain[t];
    }
    NotTaken(visits, beforeA, n0, u, Pickup);
    assert visits[chain[a]].kind == Pickup;
    PremadeSlot(visits, avail, chain[a], k);
    var beforeD := chain[..d];
    assert beforeD[a] == chain[a];
    assert Taken(visits, beforeD, n0, u, Pickup);
    forall t | 0 <= t < |beforeD| && beforeD[t] < |visits|
      ensures !(visits[beforeD[t]].parcel == u && visits[beforeD[t]].kind == Deliver)
    {
      assert beforeD[t] == chain[t];
    }
    assert !Taken(visits, beforeD, n0, u, Deliver);
    assert visits[chain[d]].kind == Deliver;
    PremadeSlot(visits, avail, chain[d], k);
    assert PairAt(visits, 2 * k, 2 * k + 1, u);
  }

  /** A chain spells `route`, each visit classified against the visits
      before it on the same chain. */
  ghost predicate SpelledClassified(visits: seq<Visit>, chain: seq<nat>, route: seq<Parcel>,
                                    contents: set<Parcel>, avail: seq<Parcel>)
  {
    |chain| == |route|
    && forall t :: 0 <= t < |chain| ==>
         && Classified(visits, chain[..t], chain[t], contents, avail)
         && visits[chain[t]].parcel == route[t]
  }

  /** Vehicle 0's chain spells its planned route, each visit classified
      against the visits before it on the same chain. */
  lemma Chain0Classified(s: GlobalState)
    requires UnitsMatch(s) && AllRoutesKnown(s) && |s.vehicles| > 0
    ensures |Converted(s).chains| > 0
    ensures SpelledClassified(Converted(s).visits, Converted(s).chains[0],
                              s.vehicles[0].route.value + s.unassigned + s.unassigned,
                              s.vehicles[0].contents, s.available)
  {
    var m := Converted(s);
    var route := PlannedRoute(s, 0);
    ConvertChain(s, 0);
    var chain := m.chains[0];
    assert Flatten(m.chains[..0]) == [];
    forall t | 0 <= t < |chain|
      ensures && Classified(m.visits, chain[..t], chain[t], s.vehicles[0].contents, s.available)
              && m.visits[chain[t]].parcel == route[t]
    {
      assert ChainAt(s, m.visits, m.chains, 0, t);
      assert Flatten(m.chains[..0]) + chain[..t] == chain[..t];
    }
  }

  /** The seeding argument on an abstract chain: a chain that spells
      `r0 ++ U ++ U` with every visit classified as `convert` does. */
  lemma SeededChain(visits: seq<Visit>, chain: seq<nat>, r0: seq<Parcel>, us: seq<Parcel>,
                    avail: seq<Parcel>, contents: set<Parcel>, j: nat)
    requires PremadeLayout(visits, avail) && Distinct(avail) && Distinct(us)
    requires j < |us| && us[j] in avail && us[j] !in contents && us[j] !in r0
    requires SpelledClassified(visits, chain, r0 + us + us, contents, avail)
    ensures |r0| + |us| + j < |chain| && chain[|r0| + j] < |visits| && chain[|r0| + |us| + j] < |visits|
    ensures visits[chain[|r0| + j]] == Visit(us[j], Pickup, Some(chain[|r0| + |us| + j]))
    ensures visits[chain[|r0| + |us| + j]] == Visit(us[j], Deliver, Some(chain[|r0| + j]))
  {
    SeededOccurrences(r0, us, j);
    var k :| 0 <= k < |avail| && avail[k] == us[j];
    FirstPickupThenDelivery(visits, chain, r0 + us + us, avail, contents, |r0| + j, |r0| + |us| + j, k);
  }

  /** On chain `c` of `m`, positions `a` and `d` hold a pickup and a delivery
      of `p` that name each other as their association. */
  ghost predicate PickedThenDelivered(m: Solution, c: nat, a: nat, d: nat, p: Parcel)
  {
    && c < |m.chains| && a < |m.chains[c]| && d < |m.chains[c]|
    && m.chains[c][a] < |m.visits| && m.chains[c][d] < |m.visits|
    && m.visits[m.chains[c][a]] == Visit(p, Pickup, Some(m.chains[c][d]))
    && m.visits[m.chains[c][d]] == Visit(p, Deliver, Some(m.chains[c][a]))
  }

  /** The seeding argument for a model whose chain 0 and visit list have the
      shape `convert` gives them. */
  lemma SeededModel(s: GlobalState, m: Solution, j: nat)
    requires |s.vehicles| > 0 && s.vehicles[0].route.Some? && |m.chains| > 0
    requires PremadeLayout(m.visits, s.available)
    requires SpelledClassified(m.visits, m.chains[0], s.vehicles[0].route.value + s.unassigned + s.unassigned,
                               s.vehicles[0].contents, s.available)
    requires Distinct(s.available) && Distinct(s.unassigned) && j < |s.unassigned|
    requires s.unassigned[j] in s.available
    requires s.unassigned[j] !in s.vehicles[0].contents
    requires s.unassigned[j] !in s.vehicles[0].route.value
    ensures PickedThenDelivered(m, 0, |s.vehicles[0].route.value| + j,
                                |s.vehicles[0].route.value| + |s.unassigned| + j, s.unassigned[j])
  {
    SeededChain(m.visits, m.chains[0], s.vehicles[0].route.value, s.unassigned, s.available,
                s.vehicles[0].contents, j);
  }

  /** Seeding: on vehicle 0's chain, every unassigned parcel that is available,
      not carried and not already on vehicle 0's route is picked up at its
      first copy (position |route| + j) and delivered at its second copy
      (position |route| + |unassigned| + j), and the two visits are each
      other's association. */
  lemma Chain0PickupPrecedesDelivery(s: GlobalState, j: nat)
    requires UnitsMatch(s) && AllRoutesKnown(s) && |s.vehicles| > 0
    requires Distinct(s.available) && Distinct(s.unassigned) && j < |s.unassigned|
    requires s.unassigned[j] in s.available
    requires s.unassigned[j] !in s.vehicles[0].contents
    requires s.unassigned[j] !in s.vehicles[0].route.value
    ensures PickedThenDelivered(Converted(s), 0, |s.vehicles[0].route.value| + j,
                                |s.vehicles[0].route.value| + |s.unassigned| + j, s.unassigned[j])
  {
    Chain0Classified(s);
    ConvertPremade(s);
    SeededModel(s, Converted(s), j);
  }
}
