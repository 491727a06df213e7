/** The doctor dashboard: the doctor's appointments, the notes and status editors,
    and the local merge applied after a successful update. */
module DoctorDashboard {
  import opened Wrappers
  import opened AppointmentStatus
  import opened AppointmentRecords

  /** The backend relation next to the dashboard's own list. */
  datatype Screen = Screen(store: seq<Appointment>, rows: seq<Appointment>, loading: bool)

  /** `fetchAppointments`: a failed query keeps the list, a successful one replaces
      it by its data or `[]`; loading ends either way. */
  function FetchAppointments(s: Screen, resp: Response<Appointment>): (r: Screen)
    ensures r.store == s.store && !r.loading
    ensures resp.QueryError? ==> r.rows == s.rows
    ensures resp.QueryData? ==> r.rows == resp.data.GetOr([])
  {
    s.(rows := Refresh(s.rows, resp), loading := false)
  }

  /** `updateAppointment(id, updates)`: the backend updates the rows with that id;
      on success the same partial record is merged into the local rows with that id,
      and on error neither changes. */
  function UpdateAppointment(s: Screen, id: string, p: Patch, reply: Reply): (r: Screen)
    ensures reply.Error? ==> r == s
    ensures reply.NoError? ==> r.store == UpdateById(s.store, id, p) && r.rows == UpdateById(s.rows, id, p)
    ensures r.loading == s.loading
  {
    match reply
    case Error => s
    case NoError => s.(store := UpdateById(s.store, id, p), rows := UpdateById(s.rows, id, p))
  }

  /** After a successful update, the list holds the same rows in the same order,
      every row keeps its id, date, time, reason and patient, and only rows with
      the target id differ. */
  lemma UpdateFrame(s: Screen, id: string, p: Patch, reply: Reply)
    ensures var r := UpdateAppointment(s, id, p, reply);
      && |r.rows| == |s.rows|
      && (forall i :: 0 <= i < |s.rows| ==>
            r.rows[i].(status := s.rows[i].status, notes := s.rows[i].notes) == s.rows[i])
      && (forall i :: 0 <= i < |s.rows| && s.rows[i].id != id ==> r.rows[i] == s.rows[i])
  {
  }

  /** The local merge is what a fresh query would return: if the list was the
      doctor's rows of the store, it still is after the update. */
  lemma OptimisticMergeMatchesRefetch(s: Screen, doctorId: string, id: string, p: Patch, reply: Reply)
    requires s.rows == RowsOf(s.store, DoctorSide, doctorId)
    ensures var r := UpdateAppointment(s, id, p, reply);
      r.rows == RowsOf(r.store, DoctorSide, doctorId)
  {
    if reply.NoError? {
      UpdateCommutesWithQuery(s.store, DoctorSide, doctorId, id, p);
    }
  }

  /** The values of the status select, in display order. */
  const StatusChoices: seq<string> := ["pending", "confirmed", "completed", "cancelled"]

  /** The select offers exactly the four known statuses, each once. */
  lemma StatusChoicesAreKnownStatuses()
    ensures forall v :: v in StatusChoices <==> IsKnownName(v)
    ensures forall st: Status :: IsKnown(st) <==> Name(st) in StatusChoices
    ensures forall i, j :: 0 <= i < j < |StatusChoices| ==> StatusChoices[i] != StatusChoices[j]
  {
  }

  /** `onValueChange`: the chosen value is sent as `{ status: value }` alone. */
  function OnStatusChange(value: string): (p: Patch)
    requires value in StatusChoices
    ensures p.notes.None?
    ensures p.status.Some? && IsKnown(p.status.value) && Name(p.status.value) == value
  {
    Patch(Some(Parse(value)), None)
  }

  /** `onBlur` of the notes box: its text is sent as `{ notes: text }` alone. */
  function OnNotesBlur(text: string): (p: Patch)
    ensures p.status.None? && p.notes == Some(text)
  {
    Patch(None, Some(text))
  }

  /** A notes edit leaves every status as it was and sets the notes of the target rows. */
  lemma NotesBlurKeepsStatus(s: Screen, id: string, text: string)
    ensures var r := UpdateAppointment(s, id, OnNotesBlur(text), NoError);
      && (forall i :: 0 <= i < |s.rows| ==> r.rows[i].status == s.rows[i].status)
      && (forall i :: 0 <= i < |s.rows| && s.rows[i].id == id ==> r.rows[i].notes == Some(text))
  {
  }

  /** A status choice leaves every note as it was and, whatever the current status
      of a target row, gives it the chosen one. */
  lemma StatusChangeKeepsNotes(s: Screen, id: string, value: string)
    requires value in StatusChoices
    ensures var r := UpdateAppointment(s, id, OnStatusChange(value), NoError);
      && (forall i :: 0 <= i < |s.rows| ==> r.rows[i].notes == s.rows[i].notes)
      && (forall i :: 0 <= i < |s.rows| && s.rows[i].id == id ==> Name(r.rows[i].status) == value)
  {
  }

  /** The badge class of a status value: one colour per known status, grey otherwise. */
  function StatusColor(status: string): (c: string)
    ensures c == "bg-gray-500" <==> !IsKnownName(status)
  {
    match status
    case "pending" => "bg-yellow-500"
    case "confirmed" => "bg-blue-500"
    case "completed" => "bg-green-500"
    case "cancelled" => "bg-red-500"
    case _ => "bg-gray-500"
  }

  /** The four known statuses get four different classes. */
  lemma StatusColorsDistinct(a: string, b: string)
    requires IsKnownName(a) && IsKnownName(b)
    ensures StatusColor(a) == StatusColor(b) <==> a == b
  {
  }
}
