/** The Trip schema of the backend: its record with references to a Vehicle and a Driver, the
    `status` enum and the defaults. */
module TripModel {
  import opened Wrappers
  import opened Schema
  import opened VehicleModel
  import opened DriverModel

  datatype TripStatus = Draft | Dispatched | Completed | Cancelled

  function TripStatusName(st: TripStatus): string {
    match st
    case Draft => "Draft"
    case Dispatched => "Dispatched"
    case Completed => "Completed"
    case Cancelled => "Cancelled"
  }

  /** The enum's values in the order the schema lists them. */
  const TripStatuses: seq<TripStatus> := [Draft, Dispatched, Completed, Cancelled]

  /** The `status` enum: exactly the four names are accepted, each as its own status. */
  function ParseTripStatus(s: string): (r: Option<TripStatus>)
    ensures r.Some? <==> s in {"Draft", "Dispatched", "Completed", "Cancelled"}
    ensures r.Some? ==> TripStatusName(r.value) == s
  {
    if s == "Draft" then Some(Draft)
    else if s == "Dispatched" then Some(Dispatched)
    else if s == "Completed" then Some(Completed)
    else if s == "Cancelled" then Some(Cancelled)
    else None
  }

  /** A stored Trip document. `vehicle` and `driver` are typed references; the schema does not
      check that the referenced documents exist. */
  datatype Trip = Trip(
    vehicle: VehicleId,
    driver: DriverId,
    cargoWeight: real,
    origin: string,
    destination: string,
    estimatedFuelCost: real,
    finalOdometer: real,
    status: TripStatus)

  /** The fields given when a Trip is created; absent ones are `None`. */
  datatype TripInput = TripInput(
    vehicle: Option<VehicleId>,
    driver: Option<DriverId>,
    cargoWeight: Option<real>,
    origin: Option<string>,
    destination: Option<string>,
    estimatedFuelCost: Option<real>,
    finalOdometer: Option<real>,
    status: Option<string>)

  /** Every validation failure of a Trip input. */
  function TripErrors(input: TripInput): (r: set<FieldError>)
    ensures Required("vehicle") in r <==> input.vehicle.None?
    ensures Required("driver") in r <==> input.driver.None?
    ensures Required("cargoWeight") in r <==> input.cargoWeight.None?
    ensures Required("origin") in r <==> MissingString(input.origin)
    ensures Required("destination") in r <==> MissingString(input.destination)
    ensures input.status.Some? ==>
      (NotInEnum("status", input.status.value) in r <==> ParseTripStatus(input.status.value).None?)
    ensures forall e :: e in r ==>
      e.path in {"vehicle", "driver", "cargoWeight", "origin", "destination", "status"}
  {
    RequirePresent("vehicle", input.vehicle)
    + RequirePresent("driver", input.driver)
    + RequirePresent("cargoWeight", input.cargoWeight)
    + RequireString("origin", input.origin)
    + RequireString("destination", input.destination)
    + CheckEnum("status", input.status, ParseTripStatus)
  }

  /** Creating a Trip document: it fails with every failing path, or stores the given values
      with `estimatedFuelCost` and `finalOdometer` defaulting to 0 and `status` to Draft. */
  function CreateTrip(input: TripInput): (r: Result<Trip, set<FieldError>>)
    ensures r.Failure? <==> TripErrors(input) != {}
    ensures r.Failure? ==> r.error == TripErrors(input)
    ensures r.Success? ==>
      && Some(r.value.vehicle) == input.vehicle
      && Some(r.value.driver) == input.driver
      && Some(r.value.cargoWeight) == input.cargoWeight
      && Some(r.value.origin) == input.origin
      && Some(r.value.destination) == input.destination
      && r.value.estimatedFuelCost == input.estimatedFuelCost.GetOr(0.0)
      && r.value.finalOdometer == input.finalOdometer.GetOr(0.0)
      && (input.status.None? ==> r.value.status == Draft)
      && (input.status.Some? ==> TripStatusName(r.value.status) == input.status.value)
  {
    var errors := TripErrors(input);
    if errors != {} then Failure(errors)
    else
      Success(Trip(
        input.vehicle.value,
        input.driver.value,
        input.cargoWeight.value,
        input.origin.value,
        input.destination.value,
        input.estimatedFuelCost.GetOr(0.0),
        input.finalOdometer.GetOr(0.0),
        if input.status.Some? then ParseTripStatus(input.status.value).value else Draft))
  }

  /** A trip created with every required field and nothing else starts as a Draft with zero
      estimated fuel cost and final odometer. */
  lemma NewTripIsDraft(vehicle: VehicleId, driver: DriverId, cargo: real, origin: string, destination: string)
    requires origin != "" && destination != ""
    ensures CreateTrip(TripInput(Some(vehicle), Some(driver), Some(cargo), Some(origin), Some(destination), None, None, None))
      == Success(Trip(vehicle, driver, cargo, origin, destination, 0.0, 0.0, Draft))
  {
    var input := TripInput(Some(vehicle), Some(driver), Some(cargo), Some(origin), Some(destination), None, None, None);
    assert TripErrors(input) == {};
  }
}
