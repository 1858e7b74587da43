/** The Maintenance & Service Logs page: the form `openAdd` resets, the payload `handleSubmit`
    sends, the cost cell and "Mark Complete" rule of the table, and the vehicle-status contract
    the page states in its copy. */
module MaintenancePage {
  import opened Wrappers
  import opened Text
  import opened Js
  import opened VehicleModel

  /** The Add Maintenance Log form: each field holds the text of its input or select. */
  datatype MaintenanceForm = MaintenanceForm(
    vehicleId: string,
    serviceType: string,
    cost: string,
    logDate: string,
    notes: string)

  /** `openAdd`: whatever the form held before, every field is emptied except the date, which
      becomes the given day. */
  function OpenAdd(today: string): (f: MaintenanceForm)
    ensures f.vehicleId == "" && f.serviceType == "" && f.cost == "" && f.notes == ""
    ensures f.logDate == today
  {
    MaintenanceForm("", "", "", today, "")
  }

  /** The body `handleSubmit` sends to `POST /maintenance`; `notes` is `None` when omitted. */
  datatype MaintenancePayload = MaintenancePayload(
    vehicleId: JsNumber,
    serviceType: string,
    cost: JsNumber,
    logDate: string,
    notes: Option<string>)

  /** The payload: the vehicle id and cost parsed with `Number` (no fallback), the service type
      trimmed, the date as entered, and the notes trimmed and left out when that leaves them
      empty. */
  function Payload(f: MaintenanceForm): (p: MaintenancePayload)
    ensures p.vehicleId == ToNumber(f.vehicleId) && p.cost == ToNumber(f.cost)
    ensures p.serviceType == Trim(f.serviceType) && p.logDate == f.logDate
    ensures p.notes.None? <==> AllWhitespace(f.notes)
    ensures p.notes.Some? ==> p.notes.value == Trim(f.notes) && p.notes.value != ""
  {
    TrimEmptyIff(f.notes);
    var notes := Trim(f.notes);
    MaintenancePayload(
      ToNumber(f.vehicleId),
      Trim(f.serviceType),
      ToNumber(f.cost),
      f.logDate,
      if notes != "" then Some(notes) else None)
  }

  /** Submitting a freshly opened form unchanged sends vehicle id 0 and cost 0 (empty text
      reads as 0), an empty service type and no notes. */
  lemma UntouchedFormPayload(today: string)
    ensures Payload(OpenAdd(today)) == MaintenancePayload(Num(0.0), "", Num(0.0), today, None)
  {
    BlankIsZero("");
  }

  /** What the Cost cell shows: a dash, or the value formatted as money. */
  datatype CostCell = Dash | Money(amount: JsValue)

  /** `v != null ? ... : '–'` on the cost the server sent: the loose comparison with `null`
      holds for `null` and for `undefined` (an absent field) and for nothing else. */
  function CostCellOf(v: JsValue): (c: CostCell)
    ensures c.Dash? <==> v.Null? || v.Undefined?
    ensures c.Money? ==> c.amount == v
  {
    if v.Null? || v.Undefined? then Dash else Money(v)
  }

  /** The cell tests for null, not for truthiness: a dash only ever stands for a falsy value,
      but a cost of 0 (or an empty string) is still shown as money. */
  lemma DashOnlyForMissingCost(v: JsValue)
    ensures CostCellOf(v).Dash? ==> !Truthy(v)
    ensures CostCellOf(Number(Num(0.0))) == Money(Number(Num(0.0)))
    ensures CostCellOf(Str("")) == Money(Str(""))
    ensures Truthy(v) ==> CostCellOf(v) == Money(v)
  {
  }

  /** "Mark Complete" is offered on every row whose status is not "Completed". */
  predicate OffersMarkComplete(status: string) {
    status != "Completed"
  }

  // The contract the page's copy states: creating a log sets the vehicle to In Shop, and
  // completing a log returns it to Available only when no other open log remains. No shown
  // backend file implements it; it is modelled here as a specification over a fleet state.

  /** A maintenance log: the vehicle it is about and whether it has been completed. */
  datatype Log = Log(vehicle: int, completed: bool)

  /** The vehicles' statuses and the logs, each keyed by id. */
  datatype Fleet = Fleet(vehicles: map<int, VehicleStatus>, logs: map<int, Log>)

  /** Whether a log other than `except` is still open for vehicle `v`. */
  predicate OtherOpenLog(logs: map<int, Log>, v: int, except: int) {
    exists id :: id in logs && id != except && !logs[id].completed && logs[id].vehicle == v
  }

  /** Every open log is about a known vehicle, and that vehicle is In Shop. */
  predicate Consistent(s: Fleet) {
    forall id :: id in s.logs && !s.logs[id].completed ==>
      s.logs[id].vehicle in s.vehicles && s.vehicles[s.logs[id].vehicle] == InShop
  }

  /** Creating log `id` for vehicle `v`: fails for an unknown vehicle; otherwise adds the open
      log and puts the vehicle In Shop whatever its status was. */
  function OpenLog(s: Fleet, id: int, v: int): (r: Option<Fleet>)
    requires id !in s.logs
    ensures r.None? <==> v !in s.vehicles
    ensures r.Some? ==> r.value.logs == s.logs[id := Log(v, false)]
    ensures r.Some? ==> r.value.vehicles == s.vehicles[v := InShop]
  {
    if v !in s.vehicles then None
    else Some(Fleet(s.vehicles[v := InShop], s.logs[id := Log(v, false)]))
  }

  /** Completing log `id`: fails for an unknown log; otherwise marks it completed, and returns
      its vehicle to Available iff no other open log is about that vehicle. */
  function CompleteLog(s: Fleet, id: int): (r: Option<Fleet>)
    ensures r.None? <==> id !in s.logs
    ensures r.Some? ==> r.value.logs == s.logs[id := s.logs[id].(completed := true)]
    ensures r.Some? && !OtherOpenLog(s.logs, s.logs[id].vehicle, id) ==>
      r.value.vehicles == s.vehicles[s.logs[id].vehicle := Available]
    ensures r.Some? && OtherOpenLog(s.logs, s.logs[id].vehicle, id) ==> r.value.vehicles == s.vehicles
  {
    if id !in s.logs then None
    else
      var v := s.logs[id].vehicle;
      var logs := s.logs[id := s.logs[id].(completed := true)];
      if OtherOpenLog(s.logs, v, id) then Some(Fleet(s.vehicles, logs))
      else Some(Fleet(s.vehicles[v := Available], logs))
  }

  /** Creating a log keeps every open log's vehicle In Shop. */
  lemma OpenLogKeepsConsistent(s: Fleet, id: int, v: int)
    requires id !in s.logs && Consistent(s)
    requires OpenLog(s, id, v).Some?
    ensures Consistent(OpenLog(s, id, v).value)
  {
    var t := OpenLog(s, id, v).value;
    forall k | k in t.logs && !t.logs[k].completed
      ensures t.logs[k].vehicle in t.vehicles && t.vehicles[t.logs[k].vehicle] == InShop
    {
      if k != id {
        assert s.logs[k] == t.logs[k];
      }
    }
  }

  /** Completing a log keeps every still-open log's vehicle In Shop. */
  lemma CompleteLogKeepsConsistent(s: Fleet, id: int)
    requires Consistent(s)
    requires CompleteLog(s, id).Some?
    ensures Consistent(CompleteLog(s, id).value)
  {
    var t := CompleteLog(s, id).value;
    var v := s.logs[id].vehicle;
    forall k | k in t.logs && !t.logs[k].completed
      ensures t.logs[k].vehicle in t.vehicles && t.vehicles[t.logs[k].vehicle] == InShop
    {
      assert k != id;
      assert s.logs[k] == t.logs[k];
      if t.logs[k].vehicle == v {
        assert OtherOpenLog(s.logs, v, id);
      }
    }
  }

  /** Completing the only open log of a vehicle returns it to Available. */
  lemma CompleteOnlyLog(s: Fleet, id: int)
    requires id in s.logs && !s.logs[id].completed
    requires forall k :: k in s.logs && k != id ==> s.logs[k].completed || s.logs[k].vehicle != s.logs[id].vehicle
    ensures CompleteLog(s, id).Some?
    ensures CompleteLog(s, id).value.vehicles[s.logs[id].vehicle] == Available
  {
  }

  /** Completing one of two open logs of a vehicle leaves it In Shop. */
  lemma CompleteOneOfTwo(s: Fleet, id: int, other: int)
    requires Consistent(s)
    requires id in s.logs && other in s.logs && id != other
    requires !s.logs[other].completed && s.logs[other].vehicle == s.logs[id].vehicle
    ensures CompleteLog(s, id).Some?
    ensures CompleteLog(s, id).value.vehicles[s.logs[id].vehicle] == InShop
  {
    assert OtherOpenLog(s.logs, s.logs[id].vehicle, id);
  }

  /** Logs that differ only at `id` have the same other open logs. */
  lemma OtherOpenLogIgnoresOwnEntry(logs: map<int, Log>, id: int, l: Log, v: int)
    ensures OtherOpenLog(logs[id := l], v, id) <==> OtherOpenLog(logs, v, id)
  {
    var t := logs[id := l];
    if OtherOpenLog(t, v, id) {
      var k :| k in t && k != id && !t[k].completed && t[k].vehicle == v;
      assert k in logs && logs[k] == t[k];
    }
    if OtherOpenLog(logs, v, id) {
      var k :| k in logs && k != id && !logs[k].completed && logs[k].vehicle == v;
      assert k in t && t[k] == logs[k];
    }
  }

  /** Completing a log a second time changes nothing. (A log that was completed by some other
      route can still return its vehicle to Available when no open log is about it.) */
  lemma CompleteLogIdempotent(s: Fleet, id: int)
    requires CompleteLog(s, id).Some?
    ensures CompleteLog(CompleteLog(s, id).value, id) == CompleteLog(s, id)
  {
    var t := CompleteLog(s, id).value;
    var v := s.logs[id].vehicle;
    OtherOpenLogIgnoresOwnEntry(s.logs, id, s.logs[id].(completed := true), v);
    assert t.logs[id] == s.logs[id].(completed := true);
    assert t.logs[id := t.logs[id].(completed := true)] == t.logs;
    if !OtherOpenLog(s.logs, v, id) {
      assert t.vehicles[v := Available] == t.vehicles;
    }
  }

  /** When the server shows "Completed" exactly for completed logs, "Mark Complete" is offered
      exactly on open logs, completing such a log changes the fleet, and afterwards the row
      offers nothing. */
  lemma MarkCompleteOnOpenLogsOnly(s: Fleet, id: int, shown: string)
    requires id in s.logs
    requires shown == "Completed" <==> s.logs[id].completed
    ensures OffersMarkComplete(shown) <==> !s.logs[id].completed
    ensures OffersMarkComplete(shown) ==> CompleteLog(s, id).value != s
    ensures CompleteLog(s, id).value.logs[id].completed
  {
    if OffersMarkComplete(shown) {
      assert CompleteLog(s, id).value.logs[id] != s.logs[id];
    }
  }
}
