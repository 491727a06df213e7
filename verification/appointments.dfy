/** The patient's appointment list: loading it, the cancel action offered on
    pending rows, and the status badge. */
module PatientAppointments {
  import opened Wrappers
  import opened AppointmentStatus
  import opened AppointmentRecords

  /** The backend relation next to the page's own list. */
  datatype Screen = Screen(store: seq<Appointment>, shown: seq<Appointment>, loading: bool)

  /** `fetchAppointments`: without a session the page redirects and nothing else
      happens (loading stays as it was); otherwise a failed query keeps the list, a
      successful one replaces it by its data or `[]`, and loading ends. */
  function FetchAppointments(s: Screen, hasSession: bool, resp: Response<Appointment>): (r: Screen)
    ensures !hasSession ==> r == s
    ensures hasSession ==> r.store == s.store && !r.loading
    ensures hasSession && resp.QueryError? ==> r.shown == s.shown
    ensures hasSession && resp.QueryData? ==> r.shown == resp.data.GetOr([])
  {
    if hasSession then s.(shown := Refresh(s.shown, resp), loading := false) else s
  }

  /** The render gate `appointment.status === "pending"`: it admits exactly the
      pending rows. */
  predicate CancelOffered(a: Appointment)
    ensures CancelOffered(a) <==> a.status == Pending
  {
    NameInjective(a.status, Pending);
    Name(a.status) == "pending"
  }

  /** The dialog of a shown, pending row with this id is what calls the handler. */
  predicate CancelRendered(shown: seq<Appointment>, id: string) {
    exists k :: 0 <= k < |shown| && shown[k].id == id && CancelOffered(shown[k])
  }

  /** `{ status: "cancelled" }`. */
  const CancelPatch := Patch(Some(Cancelled), None)

  /** `handleCancelAppointment(id)`: the handler itself checks no status; the
      pending precondition comes from the render gate only. On error nothing
      changes and nothing is fetched; on success the backend rows with that id
      become cancelled and the list is fetched again. */
  function HandleCancel(s: Screen, id: string, reply: Reply, hasSession: bool, refetch: Response<Appointment>): (r: Screen)
    requires CancelRendered(s.shown, id)
    ensures reply.Error? ==> r == s
    ensures reply.NoError? ==> r.store == UpdateById(s.store, id, CancelPatch)
    ensures reply.NoError? && hasSession ==> r.shown == Refresh(s.shown, refetch) && !r.loading
    ensures reply.NoError? && !hasSession ==> r.shown == s.shown && r.loading == s.loading
  {
    match reply
    case Error => s
    case NoError => FetchAppointments(s.(store := UpdateById(s.store, id, CancelPatch)), hasSession, refetch)
  }

  /** A successful cancel sets the status of the rows with that id to cancelled,
      keeps every other field of them, and leaves every other row alone. */
  lemma CancelTargetsOnlyThatRow(s: Screen, id: string, reply: Reply, hasSession: bool, refetch: Response<Appointment>)
    requires CancelRendered(s.shown, id)
    requires reply.NoError?
    ensures var r := HandleCancel(s, id, reply, hasSession, refetch);
      && |r.store| == |s.store|
      && (forall i :: 0 <= i < |s.store| && s.store[i].id != id ==> r.store[i] == s.store[i])
      && (forall i :: 0 <= i < |s.store| && s.store[i].id == id ==>
            r.store[i] == s.store[i].(status := Cancelled))
  {
  }

  /** When the list is fresh, that is exactly the patient's rows of the store, and
      ids are unique, a cancel never changes a row that was not pending. The
      handler does not check this itself: see `StaleListCancelsConfirmedRow`. */
  lemma CancelNeverTouchesNonPending(
    s: Screen, patientId: string, id: string, reply: Reply, hasSession: bool, refetch: Response<Appointment>)
    requires CancelRendered(s.shown, id)
    requires UniqueIds(s.store)
    requires s.shown == RowsOf(s.store, PatientSide, patientId)
    ensures var r := HandleCancel(s, id, reply, hasSession, refetch);
      forall i :: 0 <= i < |s.store| && s.store[i].status != Pending ==> r.store[i] == s.store[i]
  {
    var k :| 0 <= k < |s.shown| && s.shown[k].id == id && CancelOffered(s.shown[k]);
    assert s.shown[k] in s.store;
    var j :| 0 <= j < |s.store| && s.store[j] == s.shown[k];
    assert forall i :: 0 <= i < |s.store| && s.store[i].id == id ==> i == j;
  }

  /** The pending gate reads the list, not the store: a row the list still shows as
      pending, which the doctor has since confirmed, gets its button, and a
      successful cancel overwrites the confirmation. */
  lemma StaleListCancelsConfirmedRow(row: Appointment)
    requires row.status == Pending
    ensures var s := Screen([row.(status := Confirmed)], [row], false);
      && CancelRendered(s.shown, row.id)
      && s.store[0].status == Confirmed
      && HandleCancel(s, row.id, NoError, true, QueryError).store == [row.(status := Cancelled)]
  {
    var s := Screen([row.(status := Confirmed)], [row], false);
    assert s.shown[0].id == row.id && CancelOffered(s.shown[0]);
  }

  /** When the refetch returns the patient's rows of the updated store, the list
      shown is the old list with the cancel applied in place. */
  lemma CancelThenRefetch(s: Screen, patientId: string, id: string)
    requires CancelRendered(s.shown, id)
    requires s.shown == RowsOf(s.store, PatientSide, patientId)
    ensures var after := UpdateById(s.store, id, CancelPatch);
      var r := HandleCancel(s, id, NoError, true, QueryData(Some(RowsOf(after, PatientSide, patientId))));
      && r.shown == UpdateById(s.shown, id, CancelPatch)
      && (forall i :: 0 <= i < |r.shown| && r.shown[i].id == id ==> r.shown[i].status == Cancelled)
  {
    var after := UpdateById(s.store, id, CancelPatch);
    var reloaded := RowsOf(after, PatientSide, patientId);
    UpdateCommutesWithQuery(s.store, PatientSide, patientId, id, CancelPatch);
    assert reloaded == UpdateById(s.shown, id, CancelPatch);
    var r := HandleCancel(s, id, NoError, true, QueryData(Some(reloaded)));
    assert r.shown == reloaded;
  }

  /** The badge class of a status value. */
  function StatusColor(status: string): (c: string)
    ensures c == "bg-muted text-muted-foreground" <==> (status == "completed" || !IsKnownName(status))
  {
    match status
    case "confirmed" => "bg-accent/10 text-accent"
    case "pending" => "bg-secondary/10 text-secondary"
    case "completed" => "bg-muted text-muted-foreground"
    case "cancelled" => "bg-destructive/10 text-destructive"
    case _ => "bg-muted text-muted-foreground"
  }

  /** Statuses shown the same way: equal values, or two values drawn from
      "completed" and the unknown ones. */
  lemma StatusColorClasses(a: string, b: string)
    ensures StatusColor(a) == StatusColor(b) <==>
      a == b || ((a == "completed" || !IsKnownName(a)) && (b == "completed" || !IsKnownName(b)))
  {
  }
}
