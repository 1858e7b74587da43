/** The Trip Dispatcher page: the create-trip validator, the payload it submits, and the actions
    a trip row offers. */
module TripsPage {
  import opened Wrappers
  import opened Text
  import opened Js
  import TripModel

  /** The status filter's options, in the order the page lists them. */
  const StatusSteps: seq<string> := ["Draft", "Dispatched", "Completed", "Cancelled"]

  /** The page's filter offers exactly the schema's trip statuses, in the schema's order. */
  lemma StatusStepsMatchSchema()
    ensures |StatusSteps| == |TripModel.TripStatuses|
    ensures forall i :: 0 <= i < |StatusSteps| ==>
      StatusSteps[i] == TripModel.TripStatusName(TripModel.TripStatuses[i])
  {
  }

  /** The Create Trip form: each field holds the text of its input or select. */
  datatype TripForm = TripForm(
    vehicleId: string,
    driverId: string,
    origin: string,
    destination: string,
    cargoWeightKg: string,
    estimatedCost: string)

  /** The form `openCreate` shows: every field empty. */
  const BlankForm: TripForm := TripForm("", "", "", "", "", "")

  /** An entry of `/vehicles/available`, reduced to what the validator reads. */
  datatype AvailableVehicle = AvailableVehicle(id: int, capacityKg: JsNumber)

  /** An entry of `/drivers/available`, reduced to what the validator reads. */
  datatype AvailableDriver = AvailableDriver(id: int)

  /** The keys of the error object. */
  datatype TripField = OriginField | DestinationField | VehicleField | DriverField | CargoField

  const AllFields: set<TripField> := {OriginField, DestinationField, VehicleField, DriverField, CargoField}

  /** The messages: 'Origin required', 'Destination required', 'Select an available vehicle',
      'Select an available driver', 'Valid cargo weight required' and
      'Exceeds vehicle capacity (<capacity> kg)'. */
  datatype TripError =
    | OriginRequired
    | DestinationRequired
    | SelectVehicle
    | SelectDriver
    | InvalidCargo
    | ExceedsCapacity(capacityKg: JsNumber)

  /** The available vehicle whose id, as text, equals the form's vehicle id. */
  function SelectedVehicle(form: TripForm, vehicles: seq<AvailableVehicle>): Option<AvailableVehicle> {
    Find(vehicles, (v: AvailableVehicle) => IntToString(v.id) == form.vehicleId)
  }

  /** The available driver whose id, as text, equals the form's driver id. */
  function SelectedDriver(form: TripForm, drivers: seq<AvailableDriver>): Option<AvailableDriver> {
    Find(drivers, (d: AvailableDriver) => IntToString(d.id) == form.driverId)
  }

  /** The cargo weight is rejected when it parses to NaN or is not positive. */
  predicate CargoInvalid(cargo: JsNumber) {
    cargo.NaN? || cargo.value <= 0.0
  }

  /** The cargo weight exceeds the selected vehicle's capacity; never when nothing is selected. */
  predicate CargoExceeds(cargo: JsNumber, vehicle: Option<AvailableVehicle>) {
    vehicle.Some? && Greater(cargo, vehicle.value.capacityKg)
  }

  /** The facts `validate` computes before it fills the error object. */
  datatype Checks = Checks(
    originBlank: bool,
    destinationBlank: bool,
    vehicle: Option<AvailableVehicle>,
    driver: Option<AvailableDriver>,
    cargo: JsNumber)

  function ChecksOf(form: TripForm, vehicles: seq<AvailableVehicle>, drivers: seq<AvailableDriver>): Checks {
    Checks(
      Trim(form.origin) == "",
      Trim(form.destination) == "",
      SelectedVehicle(form, vehicles),
      SelectedDriver(form, drivers),
      ToNumber(form.cargoWeightKg))
  }

  /** Whether a field fails. */
  predicate Fails(f: TripField, c: Checks) {
    match f
    case OriginField => c.originBlank
    case DestinationField => c.destinationBlank
    case VehicleField => c.vehicle.None?
    case DriverField => c.driver.None?
    case CargoField => CargoInvalid(c.cargo) || CargoExceeds(c.cargo, c.vehicle)
  }

  /** The message of a failing field; the capacity message wins over the weight message
      because `validate` assigns it last. */
  function ErrorOf(f: TripField, c: Checks): TripError {
    match f
    case OriginField => OriginRequired
    case DestinationField => DestinationRequired
    case VehicleField => SelectVehicle
    case DriverField => SelectDriver
    case CargoField =>
      if CargoExceeds(c.cargo, c.vehicle) then ExceedsCapacity(c.vehicle.value.capacityKg) else InvalidCargo
  }

  /** The error object for given checks: one key per failing field. */
  function ErrorsFor(c: Checks): (e: map<TripField, TripError>)
    ensures OriginField in e <==> c.originBlank
    ensures DestinationField in e <==> c.destinationBlank
    ensures VehicleField in e <==> c.vehicle.None?
    ensures DriverField in e <==> c.driver.None?
    ensures CargoField in e <==> CargoInvalid(c.cargo) || CargoExceeds(c.cargo, c.vehicle)
    ensures CargoField in e ==>
      e[CargoField] == if CargoExceeds(c.cargo, c.vehicle) then ExceedsCapacity(c.vehicle.value.capacityKg) else InvalidCargo
  {
    map f | f in AllFields && Fails(f, c) :: ErrorOf(f, c)
  }

  /** The error object `validate` builds. */
  function ValidationErrors(form: TripForm, vehicles: seq<AvailableVehicle>, drivers: seq<AvailableDriver>): map<TripField, TripError> {
    ErrorsFor(ChecksOf(form, vehicles, drivers))
  }

  /** Origin and destination fail iff they are blank after trimming; vehicle and driver fail
      iff no available entry's id, as text, equals the form's. */
  lemma PresenceErrors(form: TripForm, vehicles: seq<AvailableVehicle>, drivers: seq<AvailableDriver>)
    ensures var e := ValidationErrors(form, vehicles, drivers);
      && (OriginField in e <==> AllWhitespace(form.origin))
      && (DestinationField in e <==> AllWhitespace(form.destination))
      && (VehicleField in e <==> forall i :: 0 <= i < |vehicles| ==> IntToString(vehicles[i].id) != form.vehicleId)
      && (DriverField in e <==> forall i :: 0 <= i < |drivers| ==> IntToString(drivers[i].id) != form.driverId)
  {
    TrimEmptyIff(form.origin);
    TrimEmptyIff(form.destination);
  }

  /** `validate()`: computes the checks, fills the error object and reports whether it stayed
      empty. */
  method Validate(form: TripForm, vehicles: seq<AvailableVehicle>, drivers: seq<AvailableDriver>)
    returns (errors: map<TripField, TripError>, ok: bool)
    ensures errors == ValidationErrors(form, vehicles, drivers)
    ensures ok <==> errors == map[]
  {
    var c := ChecksOf(form, vehicles, drivers);
    errors := FillErrors(c);
    ok := |errors.Keys| == 0;
  }

  /** The body of `validate()` once the checks are known: one conditional assignment per
      check, in the source's order, so the capacity message overwrites the weight message. */
  method FillErrors(c: Checks) returns (errors: map<TripField, TripError>)
    ensures errors == ErrorsFor(c)
  {
    errors := map[];
    if c.originBlank {
      errors := errors[OriginField := OriginRequired];
    }
    if c.destinationBlank {
      errors := errors[DestinationField := DestinationRequired];
    }
    if c.vehicle.None? {
      errors := errors[VehicleField := SelectVehicle];
    }
    if c.driver.None? {
      errors := errors[DriverField := SelectDriver];
    }
    if CargoInvalid(c.cargo) {
      errors := errors[CargoField := InvalidCargo];
    }
    if c.vehicle.Some? && Greater(c.cargo, c.vehicle.value.capacityKg) {
      errors := errors[CargoField := ExceedsCapacity(c.vehicle.value.capacityKg)];
    }
    ErrorsForIs(c, errors);
  }

  /** A map with a key exactly for each failing field, holding that field's message, is the
      error object. */
  lemma ErrorsForIs(c: Checks, errors: map<TripField, TripError>)
    requires forall f :: f in errors <==> Fails(f, c)
    requires forall f :: f in errors ==> errors[f] == ErrorOf(f, c)
    ensures errors == ErrorsFor(c)
  {
    var e := ErrorsFor(c);
    assert forall f :: f in e <==> Fails(f, c) by {
      forall f ensures f in e <==> Fails(f, c) {
        assert f.OriginField? || f.DestinationField? || f.VehicleField? || f.DriverField? || f.CargoField?;
      }
    }
    assert errors.Keys == e.Keys;
  }

  /** An empty or blank cargo weight reads as 0 and is rejected. */
  lemma BlankCargoRejected(form: TripForm, vehicles: seq<AvailableVehicle>, drivers: seq<AvailableDriver>)
    requires AllWhitespace(form.cargoWeightKg)
    ensures CargoField in ValidationErrors(form, vehicles, drivers)
  {
    BlankIsZero(form.cargoWeightKg);
  }

  /** With a vehicle selected and a positive cargo weight, cargo equal to the capacity passes
      and cargo above it fails with the capacity message. */
  lemma CapacityBoundary(form: TripForm, vehicles: seq<AvailableVehicle>, drivers: seq<AvailableDriver>, v: AvailableVehicle)
    requires SelectedVehicle(form, vehicles) == Some(v)
    requires v.capacityKg.Num? && ToNumber(form.cargoWeightKg).Num? && ToNumber(form.cargoWeightKg).value > 0.0
    ensures ToNumber(form.cargoWeightKg).value == v.capacityKg.value ==>
      CargoField !in ValidationErrors(form, vehicles, drivers)
    ensures ToNumber(form.cargoWeightKg).value > v.capacityKg.value ==>
      ValidationErrors(form, vehicles, drivers)[CargoField] == ExceedsCapacity(v.capacityKg)
  {
  }

  /** The actions a trip row offers. */
  datatype TripAction = Dispatch | Complete

  /** A Draft row offers Dispatch, a Dispatched row offers Complete, any other row nothing. */
  function RowActions(status: string): (r: seq<TripAction>)
    ensures Dispatch in r <==> status == "Draft"
    ensures Complete in r <==> status == "Dispatched"
    ensures |r| <= 1
  {
    if status == "Draft" then [Dispatch]
    else if status == "Dispatched" then [Complete]
    else []
  }

  /** Over the schema's statuses: only Draft and Dispatched rows have an action. */
  lemma TerminalRowsOfferNothing(st: TripModel.TripStatus)
    ensures RowActions(TripModel.TripStatusName(st)) == [] <==> st == TripModel.Completed || st == TripModel.Cancelled
  {
  }

  /** The body `handleSubmit` sends to `POST /trips`; `estimatedCost` is `None` when omitted. */
  datatype TripPayload = TripPayload(
    vehicleId: JsNumber,
    driverId: JsNumber,
    origin: string,
    destination: string,
    cargoWeightKg: JsNumber,
    estimatedCost: Option<JsNumber>)

  /** What submitting the form does: nothing but show the errors, or create a trip. */
  datatype TripSubmission = ShowErrors(errors: map<TripField, TripError>) | CreateTrip(payload: TripPayload)

  /** `handleSubmit`: create is called only when validation passes, with origin and destination
      trimmed and `estimated_cost` left out when its input is empty. */
  function Submit(form: TripForm, vehicles: seq<AvailableVehicle>, drivers: seq<AvailableDriver>): (r: TripSubmission)
    ensures r.ShowErrors? <==> ValidationErrors(form, vehicles, drivers) != map[]
    ensures r.ShowErrors? ==> r.errors == ValidationErrors(form, vehicles, drivers)
    ensures r.CreateTrip? ==>
      && r.payload.vehicleId == ToNumber(form.vehicleId)
      && r.payload.driverId == ToNumber(form.driverId)
      && r.payload.origin == Trim(form.origin)
      && r.payload.destination == Trim(form.destination)
      && r.payload.cargoWeightKg == ToNumber(form.cargoWeightKg)
      && (r.payload.estimatedCost.None? <==> form.estimatedCost == "")
      && (r.payload.estimatedCost.Some? ==> r.payload.estimatedCost.value == ToNumber(form.estimatedCost))
  {
    var errors := ValidationErrors(form, vehicles, drivers);
    if errors != map[] then ShowErrors(errors)
    else
      CreateTrip(TripPayload(
        ToNumber(form.vehicleId),
        ToNumber(form.driverId),
        Trim(form.origin),
        Trim(form.destination),
        ToNumber(form.cargoWeightKg),
        if form.estimatedCost != "" then Some(ToNumber(form.estimatedCost)) else None))
  }

  /** A trip that is submitted names an available vehicle and an available driver by their
      ids, has a non-empty origin and destination, and a positive cargo weight that does not
      exceed the vehicle's capacity. */
  lemma SubmittedTripIsAdmissible(form: TripForm, vehicles: seq<AvailableVehicle>, drivers: seq<AvailableDriver>)
    requires Submit(form, vehicles, drivers).CreateTrip?
    ensures var p := Submit(form, vehicles, drivers).payload;
      && (exists i :: 0 <= i < |vehicles| && p.vehicleId == Num(vehicles[i].id as real)
            && (vehicles[i].capacityKg.Num? ==> p.cargoWeightKg.value <= vehicles[i].capacityKg.value))
      && (exists i :: 0 <= i < |drivers| && p.driverId == Num(drivers[i].id as real))
      && p.origin != "" && p.destination != ""
      && p.cargoWeightKg.Num? && p.cargoWeightKg.value > 0.0
  {
    var errors := ValidationErrors(form, vehicles, drivers);
    assert VehicleField !in errors && DriverField !in errors && CargoField !in errors;
    var v := SelectedVehicle(form, vehicles).value;
    var d := SelectedDriver(form, drivers).value;
    NumberOfString(v.id);
    NumberOfString(d.id);
    TrimIdempotent(form.origin);
  }
}
