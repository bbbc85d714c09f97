/** The world snapshot (`GlobalStateObject`) handed to the solvers. */
module Snapshot {
  import opened Base

  /** A unit of measure, identified by its symbol. */
  datatype Unit = Unit(symbol: string)

  /** The units the Optaplanner conversion insists on. */
  const TimeUnit: Unit := Unit("ms")
  const SpeedUnit: Unit := Unit("km/h")
  const DistanceUnit: Unit := Unit("km")

  /** One vehicle as seen in the snapshot (`VehicleStateObject`). */
  datatype VehicleState = VehicleState(
    contents: set<Parcel>,          // parcels already on board
    destination: Option<Parcel>,    // parcel the vehicle has committed to serve next
    route: Option<seq<Parcel>>      // the vehicle's known current route, when observable
  )

  /** An immutable view of the world at one instant.  `available` is the
      insertion-ordered set of parcels still to be picked up; `unassigned` is
      the host's `unassignedParcels` view of the same snapshot. */
  datatype GlobalState = GlobalState(
    time: int,
    timeUnit: Unit,
    speedUnit: Unit,
    distUnit: Unit,
    available: seq<Parcel>,
    vehicles: seq<VehicleState>,
    unassigned: seq<Parcel>
  )

  predicate UnitsMatch(s: GlobalState)
  {
    s.timeUnit == TimeUnit && s.speedUnit == SpeedUnit && s.distUnit == DistanceUnit
  }

  /** Every vehicle's route is known. */
  predicate AllRoutesKnown(s: GlobalState)
  {
    forall i :: 0 <= i < |s.vehicles| ==> s.vehicles[i].route.Some?
  }
}
