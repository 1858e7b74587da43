/** The Expenses & Fuel page: the fuel-log and expense payloads, the forms the Add buttons
    reset, the trips offered for a fuel log, the reports fallback and the cost card. */
module ExpensesPage {
  import opened Wrappers
  import opened Text
  import opened Js

  /** The Add Fuel Log form: each field holds the text of its input or select. */
  datatype FuelForm = FuelForm(tripId: string, vehicleId: string, liters: string, fuelCost: string, logDate: string)

  /** "Add Fuel Log": every field emptied except the date, which becomes the given day. */
  function ResetFuelForm(today: string): (f: FuelForm)
    ensures f.tripId == "" && f.vehicleId == "" && f.liters == "" && f.fuelCost == ""
    ensures f.logDate == today
  {
    FuelForm("", "", "", "", today)
  }

  /** The body `handleFuelSubmit` sends; `tripId` is `None` when omitted. */
  datatype FuelPayload = FuelPayload(
    tripId: Option<JsNumber>,
    vehicleId: JsNumber,
    liters: JsNumber,
    fuelCost: JsNumber,
    logDate: string)

  /** The fuel payload: the trip id only when one is selected, the vehicle id always (an empty
      selection reads as 0), the numbers through `Number`, the date as entered. */
  function FuelPayloadOf(f: FuelForm): (p: FuelPayload)
    ensures p.tripId.None? <==> f.tripId == ""
    ensures p.tripId.Some? ==> p.tripId.value == ToNumber(f.tripId)
    ensures p.vehicleId == ToNumber(f.vehicleId)
    ensures p.liters == ToNumber(f.liters) && p.fuelCost == ToNumber(f.fuelCost)
    ensures p.logDate == f.logDate
  {
    FuelPayload(
      if f.tripId != "" then Some(ToNumber(f.tripId)) else None,
      ToNumber(f.vehicleId),
      ToNumber(f.liters),
      ToNumber(f.fuelCost),
      f.logDate)
  }

  /** A fuel log saved without choosing a vehicle is sent with vehicle id 0. */
  lemma FuelWithoutVehicleSendsZero(f: FuelForm)
    requires f.vehicleId == ""
    ensures FuelPayloadOf(f).vehicleId == Num(0.0)
  {
    BlankIsZero(f.vehicleId);
  }

  /** Saving a freshly reset fuel form unchanged sends no trip, vehicle id 0 and zero liters
      and cost, dated the given day. */
  lemma UntouchedFuelFormPayload(today: string)
    ensures FuelPayloadOf(ResetFuelForm(today)) == FuelPayload(None, Num(0.0), Num(0.0), Num(0.0), today)
  {
    BlankIsZero("");
  }

  /** An entry of the trips list, reduced to its id. */
  datatype TripEntry = TripEntry(id: int)

  /** The values of the fuel form's trip select: `""` ("None") first, then each fetched trip's
      id as text, in order. */
  function FuelTripOptions(trips: seq<TripEntry>): (r: seq<string>)
    ensures |r| == |trips| + 1 && r[0] == ""
    ensures forall i :: 0 <= i < |trips| ==> r[i + 1] == IntToString(trips[i].id)
  {
    [""] + TripOptionValues(trips)
  }

  function TripOptionValues(trips: seq<TripEntry>): (r: seq<string>)
    ensures |r| == |trips|
    ensures forall i :: 0 <= i < |trips| ==> r[i] == IntToString(trips[i].id)
  {
    if trips == [] then [] else [IntToString(trips[0].id)] + TripOptionValues(trips[1..])
  }

  /** Whatever trip the user picks, the fuel payload names either no trip or one of the trips
      the page fetched. */
  lemma FuelTripIsFetched(f: FuelForm, trips: seq<TripEntry>)
    requires f.tripId in FuelTripOptions(trips)
    ensures var p := FuelPayloadOf(f);
      p.tripId.None? || exists i :: 0 <= i < |trips| && p.tripId.value == Num(trips[i].id as real)
  {
    var r := FuelTripOptions(trips);
    var k :| 0 <= k < |r| && r[k] == f.tripId;
    if k > 0 {
      NumberOfString(trips[k - 1].id);
      assert FuelPayloadOf(f).tripId.value == Num(trips[k - 1].id as real);
    }
  }

  /** The Add Expense form. It holds trip and vehicle ids, but renders no input for them. */
  datatype ExpenseForm = ExpenseForm(
    tripId: string,
    vehicleId: string,
    amount: string,
    category: string,
    description: string,
    expenseDate: string)

  /** "Add Expense": every field emptied except the date, which becomes the given day. */
  function ResetExpenseForm(today: string): (f: ExpenseForm)
    ensures f.tripId == "" && f.vehicleId == "" && f.amount == "" && f.category == "" && f.description == ""
    ensures f.expenseDate == today
  {
    ExpenseForm("", "", "", "", "", today)
  }

  /** The body `handleExpenseSubmit` sends; each `None` field is omitted. */
  datatype ExpensePayload = ExpensePayload(
    tripId: Option<JsNumber>,
    vehicleId: Option<JsNumber>,
    amount: JsNumber,
    category: Option<string>,
    description: Option<string>,
    expenseDate: string)

  /** `s.trim() || undefined`. */
  function TrimmedOrOmitted(s: string): (r: Option<string>)
    ensures r.None? <==> AllWhitespace(s)
    ensures r.Some? ==> r.value == Trim(s) && r.value != ""
  {
    TrimEmptyIff(s);
    var t := Trim(s);
    if t != "" then Some(t) else None
  }

  /** The expense payload: trip and vehicle ids each only when non-empty, independently of
      each other; the amount through `Number`; category and description trimmed and omitted
      when that leaves them empty. */
  function ExpensePayloadOf(f: ExpenseForm): (p: ExpensePayload)
    ensures p.tripId.None? <==> f.tripId == ""
    ensures p.tripId.Some? ==> p.tripId.value == ToNumber(f.tripId)
    ensures p.vehicleId.None? <==> f.vehicleId == ""
    ensures p.vehicleId.Some? ==> p.vehicleId.value == ToNumber(f.vehicleId)
    ensures p.amount == ToNumber(f.amount)
    ensures p.category == TrimmedOrOmitted(f.category) && p.description == TrimmedOrOmitted(f.description)
    ensures p.expenseDate == f.expenseDate
  {
    ExpensePayload(
      if f.tripId != "" then Some(ToNumber(f.tripId)) else None,
      if f.vehicleId != "" then Some(ToNumber(f.vehicleId)) else None,
      ToNumber(f.amount),
      TrimmedOrOmitted(f.category),
      TrimmedOrOmitted(f.description),
      f.expenseDate)
  }

  /** A change the user can make: only the rendered inputs (amount, date, category,
      description) can change. */
  datatype ExpenseEdit =
    | EditAmount(amount: string)
    | EditExpenseDate(expenseDate: string)
    | EditCategory(category: string)
    | EditDescription(description: string)

  function ApplyExpenseEdit(f: ExpenseForm, e: ExpenseEdit): ExpenseForm {
    match e
    case EditAmount(s) => f.(amount := s)
    case EditExpenseDate(s) => f.(expenseDate := s)
    case EditCategory(s) => f.(category := s)
    case EditDescription(s) => f.(description := s)
  }

  function ApplyExpenseEdits(f: ExpenseForm, es: seq<ExpenseEdit>): ExpenseForm
    decreases |es|
  {
    if es == [] then f else ApplyExpenseEdits(ApplyExpenseEdit(f, es[0]), es[1..])
  }

  /** No sequence of changes touches the trip or vehicle id. */
  lemma {:induction false} ExpenseEditsKeepLinks(f: ExpenseForm, es: seq<ExpenseEdit>)
    ensures ApplyExpenseEdits(f, es).tripId == f.tripId
    ensures ApplyExpenseEdits(f, es).vehicleId == f.vehicleId
    decreases |es|
  {
    if es != [] {
      ExpenseEditsKeepLinks(ApplyExpenseEdit(f, es[0]), es[1..]);
    }
  }

  /** An expense entered through the page is always sent without a trip and without a
      vehicle. */
  lemma ExpensesAreNeverLinked(today: string, es: seq<ExpenseEdit>)
    ensures var p := ExpensePayloadOf(ApplyExpenseEdits(ResetExpenseForm(today), es));
      p.tripId.None? && p.vehicleId.None?
  {
    ExpenseEditsKeepLinks(ResetExpenseForm(today), es);
  }

  /** An entry of the reports' `topCostVehicles`, reduced to what the card reads;
      `totalOperational` is `None` when null or absent. */
  datatype CostEntry = CostEntry(id: int, name: string, totalOperational: Option<JsNumber>)

  /** The reports the page keeps; `topCostVehicles` is `None` when the field is absent. */
  datatype Reports = Reports(topCostVehicles: Option<seq<CostEntry>>, fuelByVehicle: seq<JsValue>)

  /** `analytics.reports().catch(...)`: a failed fetch is replaced by empty lists. */
  function LoadedReports(r: Result<Reports, string>): (reports: Reports)
    ensures r.Success? ==> reports == r.value
    ensures r.Failure? ==> reports.topCostVehicles == Some([]) && reports.fuelByVehicle == []
  {
    if r.Success? then r.value else Reports(Some([]), [])
  }

  /** A tile of the cost card: the vehicle's name and its total, a missing or falsy total
      shown as 0. */
  datatype CostTile = CostTile(name: string, total: real)

  function TileOf(v: CostEntry): (t: CostTile)
    ensures t.name == v.name
    ensures v.totalOperational.None? ==> t.total == 0.0
    ensures v.totalOperational.Some? ==> t.total == OrZero(v.totalOperational.value)
  {
    CostTile(v.name, if v.totalOperational.Some? then OrZero(v.totalOperational.value) else 0.0)
  }

  function Tiles(vs: seq<CostEntry>): (r: seq<CostTile>)
    ensures |r| == |vs|
    ensures forall i :: 0 <= i < |vs| ==> r[i] == TileOf(vs[i])
  {
    if vs == [] then [] else [TileOf(vs[0])] + Tiles(vs[1..])
  }

  /** The cost card: shown only once reports are loaded and `topCostVehicles` is non-empty;
      it shows the first six entries at most, in order. */
  function CostCard(reports: Option<Reports>): (card: Option<seq<CostTile>>)
    ensures card.Some? <==>
      reports.Some? && reports.value.topCostVehicles.Some? && |reports.value.topCostVehicles.value| > 0
    ensures card.Some? ==>
      var top := reports.value.topCostVehicles.value;
      && |card.value| == (if |top| < 6 then |top| else 6)
      && forall i :: 0 <= i < |card.value| ==> card.value[i] == TileOf(top[i])
  {
    if reports.Some? && reports.value.topCostVehicles.Some? && |reports.value.topCostVehicles.value| > 0 then
      var top := reports.value.topCostVehicles.value;
      Some(Tiles(if |top| <= 6 then top else top[..6]))
    else None
  }

  /** Each tile of a shown card names the entry at its position and shows its total when
      that is a non-zero number, and 0 when the total is missing, NaN or zero. */
  lemma CardTileShowsEntry(reports: Reports, i: int)
    requires CostCard(Some(reports)).Some?
    requires 0 <= i < |CostCard(Some(reports)).value|
    ensures var v := reports.topCostVehicles.value[i];
      var t := CostCard(Some(reports)).value[i];
      && t.name == v.name
      && t.total == (if v.totalOperational.Some? && NumTruthy(v.totalOperational.value)
                     then v.totalOperational.value.value else 0.0)
  {
  }

  /** A failed reports fetch shows no cost card. */
  lemma FailedReportsShowNoCard(err: string)
    ensures CostCard(Some(LoadedReports(Failure(err)))).None?
  {
  }
}
