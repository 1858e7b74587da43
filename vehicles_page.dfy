/** The Vehicle Registry page: the list query `load` builds, the form `openAdd` and `openEdit`
    fill, the payload `handleSubmit` sends, and the out-of-service toggle. */
module VehiclesPage {
  import opened Wrappers
  import opened Text
  import opened Js
  import VehicleModel

  /** A row of `/vehicles`, reduced to what the page reads. The model takes the numeric fields
      to be integers; `odometer` is `None` when null or absent. `outOfService` is whatever the
      server sent. */
  datatype VehicleRow = VehicleRow(
    id: int,
    name: string,
    model: string,
    licensePlate: string,
    capacityKg: int,
    odometer: Option<int>,
    outOfService: JsValue)

  /** The Add/Edit Vehicle form: the text inputs and the out-of-service checkbox. */
  datatype VehicleForm = VehicleForm(
    name: string,
    model: string,
    licensePlate: string,
    capacityKg: string,
    odometer: string,
    outOfService: bool)

  /** The status filter's options, in the order the page lists them; `""` is "All statuses". */
  const StatusFilterOptions: seq<string> := ["", "Available", "On Trip", "In Shop", "Out of Service"]

  /** The page's filter and the backend's status enum do not name the same statuses: the page
      offers "Out of Service", which the schema does not accept, and never offers "Retired". */
  lemma StatusFilterVersusSchema()
    ensures "Out of Service" in StatusFilterOptions
    ensures VehicleModel.ParseVehicleStatus("Out of Service").None?
    ensures VehicleModel.VehicleStatusName(VehicleModel.Retired) !in StatusFilterOptions
    ensures forall i :: 1 <= i < 4 ==> VehicleModel.ParseVehicleStatus(StatusFilterOptions[i]).Some?
  {
  }

  /** `load`: starts from an empty query and adds `q` and `status` only when they are
      non-empty. */
  method LoadParams(q: string, statusFilter: string) returns (params: map<string, string>)
    ensures "q" in params <==> q != ""
    ensures "q" in params ==> params["q"] == q
    ensures "status" in params <==> statusFilter != ""
    ensures "status" in params ==> params["status"] == statusFilter
    ensures params.Keys <= {"q", "status"}
  {
    params := map[];
    if q != "" {
      params := params["q" := q];
    }
    if statusFilter != "" {
      params := params["status" := statusFilter];
    }
  }

  /** `openAdd`: every text input empty and the checkbox cleared. */
  const BlankForm: VehicleForm := VehicleForm("", "", "", "", "", false)

  /** `openEdit`: the row's texts, its numbers as decimal text (a missing or zero odometer as
      `"0"`), and the checkbox set iff the row's flag is truthy. */
  function OpenEdit(row: VehicleRow): (f: VehicleForm)
    ensures f.name == row.name && f.model == row.model && f.licensePlate == row.licensePlate
    ensures ToNumber(f.capacityKg) == Num(row.capacityKg as real)
    ensures row.odometer.None? ==> f.odometer == "0"
    ensures ToNumber(f.odometer) == Num(row.odometer.GetOr(0) as real)
    ensures f.outOfService <==> Truthy(row.outOfService)
  {
    NumberOfString(row.capacityKg);
    NumberOfString(row.odometer.GetOr(0));
    VehicleForm(
      row.name,
      row.model,
      row.licensePlate,
      IntToString(row.capacityKg),
      IntToString(if row.odometer.Some? && row.odometer.value != 0 then row.odometer.value else 0),
      Truthy(row.outOfService))
  }

  /** The body `handleSubmit` sends. */
  datatype VehiclePayload = VehiclePayload(
    name: string,
    model: string,
    licensePlate: string,
    capacityKg: real,
    odometer: real,
    outOfService: bool)

  /** The request `handleSubmit` makes: update the row being edited, or create a vehicle. */
  datatype SaveRequest = Update(id: int, payload: VehiclePayload) | Create(payload: VehiclePayload)

  /** The payload: the three texts trimmed, each number parsed with text that does not parse
      (or parses to zero) sent as 0, and the checkbox as it is. */
  function Payload(f: VehicleForm): (p: VehiclePayload)
    ensures p.name == Trim(f.name) && p.model == Trim(f.model) && p.licensePlate == Trim(f.licensePlate)
    ensures ToNumber(f.capacityKg).NaN? ==> p.capacityKg == 0.0
    ensures ToNumber(f.capacityKg).Num? ==> p.capacityKg == ToNumber(f.capacityKg).value
    ensures ToNumber(f.odometer).NaN? ==> p.odometer == 0.0
    ensures ToNumber(f.odometer).Num? ==> p.odometer == ToNumber(f.odometer).value
    ensures p.outOfService == f.outOfService
  {
    VehiclePayload(
      Trim(f.name),
      Trim(f.model),
      Trim(f.licensePlate),
      OrZero(ToNumber(f.capacityKg)),
      OrZero(ToNumber(f.odometer)),
      f.outOfService)
  }

  /** Empty or blank number inputs are sent as 0. */
  lemma BlankNumbersAreZero(f: VehicleForm)
    requires AllWhitespace(f.capacityKg) && AllWhitespace(f.odometer)
    ensures Payload(f).capacityKg == 0.0 && Payload(f).odometer == 0.0
  {
    BlankIsZero(f.capacityKg);
    BlankIsZero(f.odometer);
  }

  /** `handleSubmit`: update with the edited row's id when a row is being edited, otherwise
      create; never both. */
  function Save(editing: Option<VehicleRow>, f: VehicleForm): (r: SaveRequest)
    ensures r.Update? <==> editing.Some?
    ensures r.Update? ==> r.id == editing.value.id
    ensures r.payload == Payload(f)
  {
    if editing.Some? then Update(editing.value.id, Payload(f)) else Create(Payload(f))
  }

  /** Saving an edit form unchanged sends the row's numbers back as they were (a missing
      odometer as 0) and its flag as a boolean. */
  lemma EditUnchangedKeepsNumbers(row: VehicleRow)
    ensures var p := Save(Some(row), OpenEdit(row)).payload;
      && p.capacityKg == row.capacityKg as real
      && p.odometer == row.odometer.GetOr(0) as real
      && (p.outOfService <==> Truthy(row.outOfService))
  {
  }

  /** Saving an edit form unchanged sends the row's texts back as they were, when none of them
      starts or ends with white space. */
  lemma EditUnchangedKeepsTexts(row: VehicleRow)
    requires Trimmed(row.name) && Trimmed(row.model) && Trimmed(row.licensePlate)
    ensures var p := Save(Some(row), OpenEdit(row)).payload;
      p.name == row.name && p.model == row.model && p.licensePlate == row.licensePlate
  {
    TrimOfTrimmed(row.name);
    TrimOfTrimmed(row.model);
    TrimOfTrimmed(row.licensePlate);
  }

  /** The request `toggleOutOfService` makes: `PATCH /vehicles/{id}` with the negated flag. */
  datatype ToggleRequest = ToggleRequest(id: int, outOfService: bool)

  function Toggle(row: VehicleRow): (r: ToggleRequest)
    ensures r.id == row.id
    ensures r.outOfService <==> !Truthy(row.outOfService)
  {
    ToggleRequest(row.id, !Truthy(row.outOfService))
  }

  /** The row as it reads after the server stored the toggle's flag. */
  function AfterToggle(row: VehicleRow): VehicleRow {
    row.(outOfService := Bool(Toggle(row).outOfService))
  }

  /** Toggling twice restores the flag's truth value (as a boolean); toggling never touches
      anything else of the row. */
  lemma ToggleTwiceRestores(row: VehicleRow)
    ensures Truthy(AfterToggle(AfterToggle(row)).outOfService) == Truthy(row.outOfService)
    ensures AfterToggle(AfterToggle(row)).outOfService == Bool(Truthy(row.outOfService))
    ensures AfterToggle(row).(outOfService := row.outOfService) == row
  {
  }

  /** The toggle button reads "In Service" on a row that is out of service and "Out of
      Service" otherwise, i.e. it names the state the toggle leads to. */
  function ToggleLabel(row: VehicleRow): (text: string)
    ensures text == "In Service" <==> !Toggle(row).outOfService
    ensures text == "Out of Service" <==> Toggle(row).outOfService
  {
    if Truthy(row.outOfService) then "In Service" else "Out of Service"
  }
}
