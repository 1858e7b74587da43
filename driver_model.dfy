/** The Driver schema of the backend: its record, the `status` enum, the defaults and the
    unique index on `license`. */
module DriverModel {
  import opened Wrappers
  import opened Schema

  /** A reference to a Driver document (its ObjectId). */
  datatype DriverId = DriverId(oid: string)

  datatype DriverStatus = OnDuty | OffDuty | Suspended

  function DriverStatusName(st: DriverStatus): string {
    match st
    case OnDuty => "On Duty"
    case OffDuty => "Off Duty"
    case Suspended => "Suspended"
  }

  /** The `status` enum: exactly the three names are accepted, each as its own status. */
  function ParseDriverStatus(s: string): (r: Option<DriverStatus>)
    ensures r.Some? <==> s in {"On Duty", "Off Duty", "Suspended"}
    ensures r.Some? ==> DriverStatusName(r.value) == s
  {
    if s == "On Duty" then Some(OnDuty)
    else if s == "Off Duty" then Some(OffDuty)
    else if s == "Suspended" then Some(Suspended)
    else None
  }

  /** A stored Driver document; `licenseExpiry` is a date as milliseconds since the epoch. */
  datatype Driver = Driver(
    name: string,
    license: string,
    licenseExpiry: int,
    status: DriverStatus,
    safetyScore: real,
    tripCount: real,
    completedTrips: real)

  /** The fields given when a Driver is created; absent ones are `None`. */
  datatype DriverInput = DriverInput(
    name: Option<string>,
    license: Option<string>,
    licenseExpiry: Option<int>,
    status: Option<string>,
    safetyScore: Option<real>,
    tripCount: Option<real>,
    completedTrips: Option<real>)

  /** Every validation failure of a Driver input. */
  function DriverErrors(input: DriverInput): (r: set<FieldError>)
    ensures Required("name") in r <==> MissingString(input.name)
    ensures Required("license") in r <==> MissingString(input.license)
    ensures Required("licenseExpiry") in r <==> input.licenseExpiry.None?
    ensures input.status.Some? ==>
      (NotInEnum("status", input.status.value) in r <==> ParseDriverStatus(input.status.value).None?)
    ensures forall e :: e in r ==> e.path in {"name", "license", "licenseExpiry", "status"}
  {
    RequireString("name", input.name)
    + RequireString("license", input.license)
    + RequirePresent("licenseExpiry", input.licenseExpiry)
    + CheckEnum("status", input.status, ParseDriverStatus)
  }

  /** Creating a Driver document: it fails with every failing path, or stores the given values
      with status Off Duty, safety score 100 and both trip counters 0 unless given. */
  function CreateDriver(input: DriverInput): (r: Result<Driver, set<FieldError>>)
    ensures r.Failure? <==> DriverErrors(input) != {}
    ensures r.Failure? ==> r.error == DriverErrors(input)
    ensures r.Success? ==>
      && Some(r.value.name) == input.name
      && Some(r.value.license) == input.license
      && Some(r.value.licenseExpiry) == input.licenseExpiry
      && (input.status.None? ==> r.value.status == OffDuty)
      && (input.status.Some? ==> DriverStatusName(r.value.status) == input.status.value)
      && r.value.safetyScore == input.safetyScore.GetOr(100.0)
      && r.value.tripCount == input.tripCount.GetOr(0.0)
      && r.value.completedTrips == input.completedTrips.GetOr(0.0)
  {
    var errors := DriverErrors(input);
    if errors != {} then Failure(errors)
    else
      Success(Driver(
        input.name.value,
        input.license.value,
        input.licenseExpiry.value,
        if input.status.Some? then ParseDriverStatus(input.status.value).value else OffDuty,
        input.safetyScore.GetOr(100.0),
        input.tripCount.GetOr(0.0),
        input.completedTrips.GetOr(0.0)))
  }

  /** No two stored drivers share a licence. */
  ghost predicate LicensesUnique(drivers: seq<Driver>) {
    forall i, j :: 0 <= i < j < |drivers| ==> drivers[i].license != drivers[j].license
  }

  /** Inserting into the collection under the unique index on `license`. */
  function InsertDriver(drivers: seq<Driver>, d: Driver): (r: Result<seq<Driver>, DuplicateKey>)
    ensures r.Failure? <==> exists i :: 0 <= i < |drivers| && drivers[i].license == d.license
    ensures r.Failure? ==> r.error == DuplicateKey("license", d.license)
    ensures r.Success? ==> r.value == drivers + [d]
    ensures LicensesUnique(drivers) && r.Success? ==> LicensesUnique(r.value)
  {
    if exists i :: 0 <= i < |drivers| && drivers[i].license == d.license then
      Failure(DuplicateKey("license", d.license))
    else
      Success(drivers + [d])
  }
}
