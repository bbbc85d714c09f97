/** The routing model the search engine works on (`PDPSolution`): an arena
    of parcel visits and, per vehicle, the chain of visits it will perform.
    The source links visits through `previous`/`next` pointers hanging off
    each vehicle; here a chain is the sequence of arena indices met when
    following those pointers from the vehicle. */
module RoutingModel {
  import opened Base

  datatype VisitKind = Pickup | Deliver

  /** A `ParcelVisit`: one pickup or delivery of one parcel, and the index of
      its sibling visit when one was paired with it. */
  datatype Visit = Visit(parcel: Parcel, kind: VisitKind, association: Option<nat>)

  /** A `PDPSolution`: the snapshot time, every visit, and one chain per vehicle. */
  datatype Solution = Solution(time: int, visits: seq<Visit>, chains: seq<seq<nat>>)

  /** Every chain link points into the arena. */
  ghost predicate WellFormed(m: Solution)
  {
    forall i, k :: 0 <= i < |m.chains| && 0 <= k < |m.chains[i]| ==> m.chains[i][k] < |m.visits|
  }

  /** Associations are symmetric: paired visits point at each other, concern
      the same parcel, and are one pickup and one delivery. */
  ghost predicate AssociationSymmetric(visits: seq<Visit>)
  {
    forall j :: 0 <= j < |visits| && visits[j].association.Some? ==>
      var a := visits[j].association.value;
      && a < |visits|
      && visits[a].association == Some(j)
      && visits[a].parcel == visits[j].parcel
      && visits[a].kind != visits[j].kind
  }

  /** `toSchedule`: walk every vehicle's chain and read off the parcels, one
      route per vehicle in vehicle order. */
  function ToSchedule(m: Solution): (r: seq<seq<Parcel>>)
    requires WellFormed(m)
    ensures |r| == |m.chains|
    ensures forall i :: 0 <= i < |r| ==> |r[i]| == |m.chains[i]|
    ensures forall i, k :: 0 <= i < |r| && 0 <= k < |r[i]| ==> r[i][k] == m.visits[m.chains[i][k]].parcel
  {
    seq(|m.chains|, i requires 0 <= i < |m.chains| =>
      seq(|m.chains[i]|, k requires 0 <= k < |m.chains[i]| => m.visits[m.chains[i][k]].parcel))
  }
}
