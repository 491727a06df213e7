/** The booking form: the record it inserts and the loading flag around the submit. */
module Booking {
  import opened Wrappers
  import opened AppointmentStatus
  import opened AppointmentRecords

  /** The form state; the date input's `min` attribute is not part of it. */
  datatype Form = Form(date: string, time: string, reason: string, loading: bool)

  /** The record handed to `insert`: the backend assigns the id. */
  datatype NewAppointment = NewAppointment(
    patientId: string, doctorId: string, date: string, time: string, reason: string, status: Status)

  /** What the insert reported: nothing, or an error whose message is present when
      the thrown value is an `Error`. */
  datatype InsertResult = Inserted | InsertFailed(message: Option<string>)

  /** Where a submit ends: a redirect before any insert, or an attempted insert. */
  datatype Outcome =
    | RedirectToAuth
    | Booked(row: NewAppointment)
    | BookingFailed(row: NewAppointment, message: string)

  /** The form as rendered while the submit runs and after it has finished. */
  datatype Submission = Submission(during: Form, after: Form, outcome: Outcome)

  const DefaultError := "Failed to book appointment"

  /** `handleSubmit`: loading is raised first; without a session the page redirects
      and inserts nothing; otherwise the session user's pending appointment with the
      route's doctor and the form's date, time and reason is inserted as typed, with
      no date check; `finally` lowers loading on every path. */
  function HandleSubmit(f: Form, session: Option<string>, doctorId: string, insert: InsertResult): (r: Submission)
    ensures r.during == f.(loading := true)
    ensures r.after == f.(loading := false)
    ensures session.None? <==> r.outcome.RedirectToAuth?
    ensures session.Some? ==> (r.outcome.Booked? <==> insert.Inserted?)
    ensures !r.outcome.RedirectToAuth? ==>
      r.outcome.row == NewAppointment(session.value, doctorId, f.date, f.time, f.reason, Pending)
    ensures r.outcome.BookingFailed? ==> r.outcome.message == insert.message.GetOr(DefaultError)
  {
    var during := f.(loading := true);
    var outcome :=
      match session
      case None => RedirectToAuth
      case Some(userId) =>
        var row := NewAppointment(userId, doctorId, f.date, f.time, f.reason, Pending);
        match insert
        case Inserted => Booked(row)
        case InsertFailed(m) => BookingFailed(row, m.GetOr(DefaultError));
    Submission(during, during.(loading := false), outcome)
  }

  /** Any date, including one before today, is inserted as typed: changing the date
      changes nothing in the outcome but the row's date. */
  lemma NoDateCheck(f: Form, session: Option<string>, doctorId: string, insert: InsertResult, date: string)
    ensures var a := HandleSubmit(f, session, doctorId, insert).outcome;
      var b := HandleSubmit(f.(date := date), session, doctorId, insert).outcome;
      && (a.RedirectToAuth? <==> b.RedirectToAuth?)
      && (a.Booked? <==> b.Booked?)
      && (!a.RedirectToAuth? ==> b.row == a.row.(date := date))
  {
  }

  /** The backend effect of a successful insert: one new row, appended with the
      fresh id, no notes, and the patient's profile as the join resolves it. */
  function Insert(store: seq<Appointment>, row: NewAppointment, freshId: string, profile: Option<Profile>): (r: seq<Appointment>)
    ensures |r| == |store| + 1 && r[..|store|] == store
    ensures r[|store|].id == freshId && r[|store|].notes.None? && r[|store|].patient == profile
    ensures r[|store|].status == row.status
    ensures NewAppointment(r[|store|].patientId, r[|store|].doctorId, r[|store|].date,
                           r[|store|].time, r[|store|].reason, r[|store|].status) == row
  {
    store + [Appointment(freshId, row.patientId, row.doctorId, row.date, row.time,
                         row.status, row.reason, None, profile)]
  }

  /** The store after a submit: only a booked outcome adds a row. */
  function Commit(store: seq<Appointment>, outcome: Outcome, freshId: string, profile: Option<Profile>): (r: seq<Appointment>)
    ensures !outcome.Booked? ==> r == store
    ensures outcome.Booked? ==> r == Insert(store, outcome.row, freshId, profile)
  {
    if outcome.Booked? then Insert(store, outcome.row, freshId, profile) else store
  }

  /** Every appointment a submit adds to the store is pending. */
  lemma BookedRowsArePending(store: seq<Appointment>, f: Form, session: Option<string>, doctorId: string,
                             insert: InsertResult, freshId: string, profile: Option<Profile>)
    ensures var r := Commit(store, HandleSubmit(f, session, doctorId, insert).outcome, freshId, profile);
      forall i :: |store| <= i < |r| ==> r[i].status == Pending
  {
  }

  /** Nothing prevents double booking: two successful submits for the same doctor,
      date and time both land in the store. */
  lemma DoubleBookingAccepted(store: seq<Appointment>, f: Form, u1: string, u2: string, doctorId: string,
                              id1: string, id2: string, profile: Option<Profile>)
    ensures var o1 := HandleSubmit(f, Some(u1), doctorId, Inserted).outcome;
      var o2 := HandleSubmit(f, Some(u2), doctorId, Inserted).outcome;
      var r := Commit(Commit(store, o1, id1, profile), o2, id2, profile);
      && |r| == |store| + 2
      && r[|store|].doctorId == r[|store| + 1].doctorId == doctorId
      && r[|store|].date == r[|store| + 1].date && r[|store|].time == r[|store| + 1].time
  {
  }
}
