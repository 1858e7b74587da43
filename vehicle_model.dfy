/** The Vehicle schema of the backend: its record, the `type` and `status` enums, the defaults
    and the unique index on `licensePlate`. */
module VehicleModel {
  import opened Wrappers
  import opened Schema

  /** A reference to a Vehicle document (its ObjectId). */
  datatype VehicleId = VehicleId(oid: string)

  datatype VehicleType = Truck | Van | Bike

  datatype VehicleStatus = Available | OnTrip | InShop | Retired

  function VehicleTypeName(t: VehicleType): string {
    match t
    case Truck => "Truck"
    case Van => "Van"
    case Bike => "Bike"
  }

  function VehicleStatusName(st: VehicleStatus): string {
    match st
    case Available => "Available"
    case OnTrip => "On Trip"
    case InShop => "In Shop"
    case Retired => "Retired"
  }

  /** The `type` enum: exactly the three names are accepted, each as its own type. */
  function ParseVehicleType(s: string): (r: Option<VehicleType>)
    ensures r.Some? <==> s in {"Truck", "Van", "Bike"}
    ensures r.Some? ==> VehicleTypeName(r.value) == s
  {
    if s == "Truck" then Some(Truck)
    else if s == "Van" then Some(Van)
    else if s == "Bike" then Some(Bike)
    else None
  }

  /** The `status` enum: exactly the four names are accepted, each as its own status. */
  function ParseVehicleStatus(s: string): (r: Option<VehicleStatus>)
    ensures r.Some? <==> s in {"Available", "On Trip", "In Shop", "Retired"}
    ensures r.Some? ==> VehicleStatusName(r.value) == s
  {
    if s == "Available" then Some(Available)
    else if s == "On Trip" then Some(OnTrip)
    else if s == "In Shop" then Some(InShop)
    else if s == "Retired" then Some(Retired)
    else None
  }

  /** Every status name parses back to its status. */
  lemma VehicleStatusRoundTrip(st: VehicleStatus)
    ensures ParseVehicleStatus(VehicleStatusName(st)) == Some(st)
  {
  }

  /** A stored Vehicle document. */
  datatype Vehicle = Vehicle(
    model: string,
    licensePlate: string,
    vehicleType: VehicleType,
    capacity: real,
    odometer: real,
    status: VehicleStatus)

  /** The fields given when a Vehicle is created; absent ones are `None`. */
  datatype VehicleInput = VehicleInput(
    model: Option<string>,
    licensePlate: Option<string>,
    vehicleType: Option<string>,
    capacity: Option<real>,
    odometer: Option<real>,
    status: Option<string>)

  /** Every validation failure of a Vehicle input. `type` is a required String path: a missing
      or empty value fails `required`, and the enum is checked only once that has passed, since
      Mongoose stops at the first failing validator of a path. */
  function VehicleErrors(input: VehicleInput): (r: set<FieldError>)
    ensures Required("model") in r <==> MissingString(input.model)
    ensures Required("licensePlate") in r <==> MissingString(input.licensePlate)
    ensures Required("type") in r <==> MissingString(input.vehicleType)
    ensures Required("capacity") in r <==> input.capacity.None?
    ensures !MissingString(input.vehicleType) ==>
      (NotInEnum("type", input.vehicleType.value) in r <==> ParseVehicleType(input.vehicleType.value).None?)
    ensures MissingString(input.vehicleType) ==> forall e :: e in r && e.path == "type" ==> e == Required("type")
    ensures input.status.Some? ==>
      (NotInEnum("status", input.status.value) in r <==> ParseVehicleStatus(input.status.value).None?)
    ensures forall e :: e in r ==> e.path in {"model", "licensePlate", "type", "capacity", "status"}
  {
    RequireString("model", input.model)
    + RequireString("licensePlate", input.licensePlate)
    + RequireString("type", input.vehicleType)
    + (if MissingString(input.vehicleType) then {} else CheckEnum("type", input.vehicleType, ParseVehicleType))
    + RequirePresent("capacity", input.capacity)
    + CheckEnum("status", input.status, ParseVehicleStatus)
  }

  /** A vehicle given every required path but an empty type fails with `required` on `type`
      alone. */
  lemma EmptyTypeIsRequired()
    ensures VehicleErrors(VehicleInput(Some("m"), Some("p"), Some(""), Some(1.0), None, None)) == {Required("type")}
  {
  }

  /** Creating a Vehicle document: it fails with every failing path, or stores the given values
      with `odometer` defaulting to 0 and `status` to Available. */
  function CreateVehicle(input: VehicleInput): (r: Result<Vehicle, set<FieldError>>)
    ensures r.Failure? <==> VehicleErrors(input) != {}
    ensures r.Failure? ==> r.error == VehicleErrors(input)
    ensures r.Success? ==>
      && Some(r.value.model) == input.model
      && Some(r.value.licensePlate) == input.licensePlate
      && Some(VehicleTypeName(r.value.vehicleType)) == input.vehicleType
      && Some(r.value.capacity) == input.capacity
      && r.value.odometer == input.odometer.GetOr(0.0)
      && (input.status.None? ==> r.value.status == Available)
      && (input.status.Some? ==> VehicleStatusName(r.value.status) == input.status.value)
  {
    var errors := VehicleErrors(input);
    if errors != {} then Failure(errors)
    else
      Success(Vehicle(
        input.model.value,
        input.licensePlate.value,
        ParseVehicleType(input.vehicleType.value).value,
        input.capacity.value,
        input.odometer.GetOr(0.0),
        if input.status.Some? then ParseVehicleStatus(input.status.value).value else Available))
  }

  /** No two stored vehicles share a licence plate. */
  ghost predicate PlatesUnique(vehicles: seq<Vehicle>) {
    forall i, j :: 0 <= i < j < |vehicles| ==> vehicles[i].licensePlate != vehicles[j].licensePlate
  }

  /** Inserting into the collection under the unique index on `licensePlate`. */
  function InsertVehicle(vehicles: seq<Vehicle>, v: Vehicle): (r: Result<seq<Vehicle>, DuplicateKey>)
    ensures r.Failure? <==> exists i :: 0 <= i < |vehicles| && vehicles[i].licensePlate == v.licensePlate
    ensures r.Failure? ==> r.error == DuplicateKey("licensePlate", v.licensePlate)
    ensures r.Success? ==> r.value == vehicles + [v]
    ensures PlatesUnique(vehicles) && r.Success? ==> PlatesUnique(r.value)
  {
    if exists i :: 0 <= i < |vehicles| && vehicles[i].licensePlate == v.licensePlate then
      Failure(DuplicateKey("licensePlate", v.licensePlate))
    else
      Success(vehicles + [v])
  }
}
