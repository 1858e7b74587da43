/** The Driver Performance & Safety page: the status actions a driver row offers, the form
    `openAdd` and `openEdit` fill, and the payload `handleSubmit` sends. */
module DriversPage {
  import opened Wrappers
  import opened Text
  import opened Js
  import DriverModel

  /** A row of `/drivers`, reduced to what the page reads. `licenseNumber` and `licenseExpiry`
      are `None` when the field is null or absent; `licenseExpired` is the server's flag. */
  datatype DriverRow = DriverRow(
    id: int,
    name: string,
    licenseNumber: Option<string>,
    licenseExpiry: Option<string>,
    status: string,
    licenseExpired: JsValue)

  /** The Add/Edit Driver form: each field holds the text of its input or select. */
  datatype DriverForm = DriverForm(name: string, licenseNumber: string, licenseExpiry: string, status: string)

  /** The actions buttons of a row. */
  datatype DriverAction = Edit | SetOnDuty | SetOffDuty | Suspend

  /** The status a status button sends to `PATCH /drivers/{id}`; the Edit button sends none.
      Every status sent is the name of a schema status the enum accepts, each button its own. */
  function ActionStatus(a: DriverAction): (r: Option<string>)
    ensures r.None? <==> a == Edit
    ensures a == SetOnDuty ==> r == Some(DriverModel.DriverStatusName(DriverModel.OnDuty))
    ensures a == SetOffDuty ==> r == Some(DriverModel.DriverStatusName(DriverModel.OffDuty))
    ensures a == Suspend ==> r == Some(DriverModel.DriverStatusName(DriverModel.Suspended))
    ensures r.Some? ==> DriverModel.ParseDriverStatus(r.value).Some?
  {
    match a
    case Edit => None
    case SetOnDuty => Some("On Duty")
    case SetOffDuty => Some("Off Duty")
    case Suspend => Some("Suspended")
  }

  /** The buttons of the Actions column, in the order they are rendered. */
  function RowActions(row: DriverRow): (r: seq<DriverAction>)
    ensures Edit in r
    ensures SetOnDuty in r <==> row.status != "On Duty" && !Truthy(row.licenseExpired)
    ensures SetOffDuty in r <==> row.status == "On Duty"
    ensures Suspend in r <==> row.status != "Suspended"
  {
    [Edit]
    + (if row.status != "On Duty" && !Truthy(row.licenseExpired) then [SetOnDuty] else [])
    + (if row.status == "On Duty" then [SetOffDuty] else [])
    + (if row.status != "Suspended" then [Suspend] else [])
  }

  /** "Set On Duty" and "Set Off Duty" are never offered together, and a driver whose license
      has expired can only be taken off duty or suspended. */
  lemma OnAndOffExclusive(row: DriverRow)
    ensures !(SetOnDuty in RowActions(row) && SetOffDuty in RowActions(row))
    ensures Truthy(row.licenseExpired) ==> SetOnDuty !in RowActions(row)
  {
  }

  /** Every status button a row offers changes the row's status. */
  lemma OfferedActionsChangeStatus(row: DriverRow, a: DriverAction)
    requires a in RowActions(row) && a != Edit
    ensures ActionStatus(a).Some? && ActionStatus(a).value != row.status
  {
  }

  /** Over the schema's statuses: an On Duty driver is offered Set Off Duty and Suspend, an Off
      Duty one Suspend and, with a valid license, Set On Duty, and a Suspended one at most Set
      On Duty. */
  lemma ActionsBySchemaStatus(row: DriverRow, st: DriverModel.DriverStatus)
    requires row.status == DriverModel.DriverStatusName(st)
    ensures st == DriverModel.OnDuty ==> RowActions(row) == [Edit, SetOffDuty, Suspend]
    ensures st == DriverModel.OffDuty ==>
      RowActions(row) == if Truthy(row.licenseExpired) then [Edit, Suspend] else [Edit, SetOnDuty, Suspend]
    ensures st == DriverModel.Suspended ==>
      RowActions(row) == if Truthy(row.licenseExpired) then [Edit] else [Edit, SetOnDuty]
  {
  }

  /** `openAdd`: an empty form with the given default expiry date and status Off Duty. */
  function OpenAdd(defaultExpiry: string): (f: DriverForm)
    ensures f.name == "" && f.licenseNumber == ""
    ensures f.licenseExpiry == defaultExpiry
    ensures f.status == "Off Duty"
  {
    DriverForm("", "", defaultExpiry, "Off Duty")
  }

  /** `openEdit`: the row's name and status, its license number or `''`, and the first ten
      characters (the date part) of its expiry or `''`. */
  function OpenEdit(row: DriverRow): (f: DriverForm)
    ensures f.name == row.name && f.status == row.status
    ensures f.licenseNumber == if row.licenseNumber.Some? then row.licenseNumber.value else ""
    ensures row.licenseExpiry.None? ==> f.licenseExpiry == ""
    ensures row.licenseExpiry.Some? ==> f.licenseExpiry == Take(row.licenseExpiry.value, 10)
    ensures row.licenseExpiry.Some? ==> f.licenseExpiry <= row.licenseExpiry.value
    ensures |f.licenseExpiry| <= 10
    ensures row.licenseExpiry.Some? && |row.licenseExpiry.value| >= 10 ==> |f.licenseExpiry| == 10
  {
    DriverForm(
      row.name,
      row.licenseNumber.GetOr(""),
      if row.licenseExpiry.Some? && row.licenseExpiry.value != "" then Take(row.licenseExpiry.value, 10) else "",
      row.status)
  }

  /** A change the user makes in the open form. */
  datatype FormEdit =
    | EditName(name: string)
    | EditLicenseNumber(licenseNumber: string)
    | EditLicenseExpiry(licenseExpiry: string)
    | EditStatus(status: string)

  /** One change to the form. The status select is rendered only while a row is being
      edited, so in add mode no status change can happen. */
  function ApplyEdit(f: DriverForm, e: FormEdit, editing: bool): DriverForm {
    match e
    case EditName(s) => f.(name := s)
    case EditLicenseNumber(s) => f.(licenseNumber := s)
    case EditLicenseExpiry(s) => f.(licenseExpiry := s)
    case EditStatus(s) => if editing then f.(status := s) else f
  }

  /** A sequence of changes, in order. */
  function ApplyEdits(f: DriverForm, es: seq<FormEdit>, editing: bool): DriverForm
    decreases |es|
  {
    if es == [] then f else ApplyEdits(ApplyEdit(f, es[0], editing), es[1..], editing)
  }

  /** In add mode, no sequence of changes alters the form's status. */
  lemma {:induction false} AddModeKeepsStatus(f: DriverForm, es: seq<FormEdit>)
    ensures ApplyEdits(f, es, false).status == f.status
    decreases |es|
  {
    if es != [] {
      AddModeKeepsStatus(ApplyEdit(f, es[0], false), es[1..]);
    }
  }

  /** The body `handleSubmit` sends; `licenseNumber` is `None` when omitted. */
  datatype DriverPayload = DriverPayload(name: string, licenseNumber: Option<string>, licenseExpiry: string, status: string)

  /** The request `handleSubmit` makes: update the row being edited, or create a driver. */
  datatype SaveRequest = Update(id: int, payload: DriverPayload) | Create(payload: DriverPayload)

  /** The payload: the name trimmed, the license number trimmed and left out when that leaves
      it empty, the expiry and status as entered. */
  function Payload(f: DriverForm): (p: DriverPayload)
    ensures p.name == Trim(f.name)
    ensures p.licenseNumber.None? <==> AllWhitespace(f.licenseNumber)
    ensures p.licenseNumber.Some? ==> p.licenseNumber.value == Trim(f.licenseNumber) && p.licenseNumber.value != ""
    ensures p.licenseExpiry == f.licenseExpiry && p.status == f.status
  {
    TrimEmptyIff(f.licenseNumber);
    var ln := Trim(f.licenseNumber);
    DriverPayload(Trim(f.name), if ln != "" then Some(ln) else None, f.licenseExpiry, f.status)
  }

  /** `handleSubmit`: update with the edited row's id when a row is being edited, otherwise
      create. */
  function Save(editing: Option<DriverRow>, f: DriverForm): (r: SaveRequest)
    ensures r.Update? <==> editing.Some?
    ensures r.Update? ==> r.id == editing.value.id
    ensures r.payload == Payload(f)
  {
    if editing.Some? then Update(editing.value.id, Payload(f)) else Create(Payload(f))
  }

  /** A driver added through the form is always created Off Duty, whatever the user changes
      before saving. */
  lemma NewDriversAreOffDuty(defaultExpiry: string, es: seq<FormEdit>)
    ensures var r := Save(None, ApplyEdits(OpenAdd(defaultExpiry), es, false));
      r.Create? && r.payload.status == "Off Duty"
  {
    AddModeKeepsStatus(OpenAdd(defaultExpiry), es);
  }

  /** Saving an edit form unchanged sends the row back as it was, when its name and license
      number neither start nor end with white space and its expiry is a bare date. */
  lemma EditUnchangedRoundTrip(row: DriverRow)
    requires Trimmed(row.name)
    requires row.licenseNumber.Some? ==> Trimmed(row.licenseNumber.value)
    requires row.licenseExpiry.Some? ==> |row.licenseExpiry.value| <= 10
    ensures Save(Some(row), OpenEdit(row)) == Update(row.id, DriverPayload(
      row.name,
      if row.licenseNumber.Some? && row.licenseNumber.value != "" then row.licenseNumber else None,
      row.licenseExpiry.GetOr(""),
      row.status))
  {
    var f := OpenEdit(row);
    TrimOfTrimmed(f.name);
    TrimOfTrimmed(f.licenseNumber);
  }

  /** The query of `load`: `{ q }` when the search text is non-empty, otherwise no parameter. */
  function ListParams(q: string): (r: map<string, string>)
    ensures "q" in r <==> q != ""
    ensures "q" in r ==> r["q"] == q
    ensures r.Keys <= {"q"}
  {
    if q != "" then map["q" := q] else map[]
  }
}
