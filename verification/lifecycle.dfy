/** The appointment status lifecycle across the three pages that touch it: the
    booking form creates, the patient page cancels, the doctor dashboard edits. */
module Lifecycle {
  import opened Wrappers
  import opened AppointmentStatus
  import opened AppointmentRecords
  import Booking
  import DoctorDashboard
  import PatientAppointments

  datatype Actor = PatientActor | DoctorActor

  /** The transitions the pages allow. The patient page's handler sends a cancel
      whatever the row's current status: the pending check is only the render
      gate over a list that can be stale, so the patient edge enters cancelled
      from anywhere. A doctor may pick any of the four statuses whatever the
      current one. */
  predicate Permitted(actor: Actor, from: Status, to: Status) {
    match actor
    case PatientActor => to == Cancelled
    case DoctorActor => IsKnown(to)
  }

  /** One user action, with the backend call it makes as given: a booking is a
      whole submit of the form, the others succeed. */
  datatype Action =
    | Book(form: Booking.Form, session: Option<string>, doctorId: string,
           insert: Booking.InsertResult, freshId: string, profile: Option<Profile>)
    | PatientCancel(id: string)
    | DoctorSetStatus(id: string, value: string)
    | DoctorSetNotes(id: string, text: string)

  function ActorOf(a: Action): Actor {
    if a.Book? || a.PatientCancel? then PatientActor else DoctorActor
  }

  /** Whether the pages can issue the action against this store: an insert gets a
      key the store does not hold yet, a cancel can name any row the patient's list
      showed, and the status select only offers its four values. */
  predicate Enabled(store: seq<Appointment>, a: Action)
    ensures Enabled(store, a) && a.DoctorSetStatus? ==> IsKnownName(a.value)
    ensures Enabled(store, a) && a.Book? ==> forall i :: 0 <= i < |store| ==> store[i].id != a.freshId
  {
    match a
    case Book(_, _, _, _, freshId, _) => forall i :: 0 <= i < |store| ==> store[i].id != freshId
    case PatientCancel(_) => true
    case DoctorSetStatus(_, value) => value in DoctorDashboard.StatusChoices
    case DoctorSetNotes(_, _) => true
  }

  /** The effect of an enabled action on the store: a booking appends at most one
      row; every other action rewrites the status or notes of the rows with its id
      and leaves all other rows alone. */
  function Step(store: seq<Appointment>, a: Action): (r: seq<Appointment>)
    requires Enabled(store, a)
    ensures |store| <= |r| && (!a.Book? ==> |r| == |store|) && |r| <= |store| + 1
    ensures forall i :: 0 <= i < |store| ==>
      r[i].(status := store[i].status, notes := store[i].notes) == store[i]
    ensures !a.Book? ==> forall i :: 0 <= i < |store| && store[i].id != a.id ==> r[i] == store[i]
    ensures a.Book? ==> r[..|store|] == store
  {
    match a
    case Book(form, session, doctorId, insert, freshId, profile) =>
      Booking.Commit(store, Booking.HandleSubmit(form, session, doctorId, insert).outcome, freshId, profile)
    case PatientCancel(id) => UpdateById(store, id, PatientAppointments.CancelPatch)
    case DoctorSetStatus(id, value) => UpdateById(store, id, DoctorDashboard.OnStatusChange(value))
    case DoctorSetNotes(id, text) => UpdateById(store, id, DoctorDashboard.OnNotesBlur(text))
  }

  /** Every permitted edge is taken by some enabled action of that actor: the
      cancel for the patient, the select set to the target's name for the doctor. */
  lemma PermittedEdgesAreReachable(store: seq<Appointment>, i: int, actor: Actor, to: Status)
    requires 0 <= i < |store| && Permitted(actor, store[i].status, to)
    ensures var a := if actor == PatientActor then PatientCancel(store[i].id)
                     else DoctorSetStatus(store[i].id, Name(to));
      && ActorOf(a) == actor && Enabled(store, a) && Step(store, a)[i].status == to
  {
    if actor == DoctorActor {
      DoctorDashboard.StatusChoicesAreKnownStatuses();
      ParseName(to);
    }
  }

  /** Every action of the sequence is enabled when it is issued. */
  predicate Legal(store: seq<Appointment>, actions: seq<Action>)
    decreases |actions|
  {
    actions == [] || (Enabled(store, actions[0]) && Legal(Step(store, actions[0]), actions[1..]))
  }

  function Run(store: seq<Appointment>, actions: seq<Action>): seq<Appointment>
    requires Legal(store, actions)
    decreases |actions|
  {
    if actions == [] then store else Run(Step(store, actions[0]), actions[1..])
  }

  /** Every status in the store is one of the four known ones. */
  predicate AllKnown(store: seq<Appointment>) {
    forall i :: 0 <= i < |store| ==> IsKnown(store[i].status)
  }

  /** Each enabled action changes a row's status only along a permitted edge,
      keeps primary keys unique, and adds only pending rows. */
  lemma StepRespectsLifecycle(store: seq<Appointment>, a: Action)
    requires UniqueIds(store) && Enabled(store, a)
    ensures var r := Step(store, a);
      && UniqueIds(r)
      && (forall i :: 0 <= i < |store| ==>
            r[i].status == store[i].status || Permitted(ActorOf(a), store[i].status, r[i].status))
      && (forall i :: |store| <= i < |r| ==> r[i].status == Pending)
  {
    var r := Step(store, a);
    if a.Book? {
      Booking.BookedRowsArePending(store, a.form, a.session, a.doctorId, a.insert, a.freshId, a.profile);
      assert forall i :: 0 <= i < |store| ==> r[i] == store[i];
    }
  }

  /** No enabled action writes a status outside the four known ones. */
  lemma StepKeepsStatusesKnown(store: seq<Appointment>, a: Action)
    requires Enabled(store, a) && AllKnown(store)
    ensures AllKnown(Step(store, a))
  {
    if a.Book? {
      assert forall i :: 0 <= i < |store| ==> Step(store, a)[i] == store[i];
    }
  }

  /** The pages never write a status outside the four known ones: from a store
      whose statuses are all known, every legal run keeps them known. */
  lemma {:induction false} RunKeepsStatusesKnown(store: seq<Appointment>, actions: seq<Action>)
    requires Legal(store, actions) && AllKnown(store)
    ensures AllKnown(Run(store, actions))
    decreases |actions|
  {
    if actions != [] {
      StepKeepsStatusesKnown(store, actions[0]);
      RunKeepsStatusesKnown(Step(store, actions[0]), actions[1..]);
    }
  }

  /** Primary keys stay unique over every legal run. */
  lemma {:induction false} RunKeepsUniqueIds(store: seq<Appointment>, actions: seq<Action>)
    requires Legal(store, actions) && UniqueIds(store)
    ensures UniqueIds(Run(store, actions))
    decreases |actions|
  {
    if actions != [] {
      StepRespectsLifecycle(store, actions[0]);
      RunKeepsUniqueIds(Step(store, actions[0]), actions[1..]);
    }
  }

  /** Book, then confirm, then complete: each step is a standalone update of the
      new row, and the rows that were already stored end as they began. */
  lemma BookConfirmComplete(store: seq<Appointment>, f: Booking.Form, user: string, doctorId: string,
                            freshId: string, profile: Option<Profile>)
    requires forall i :: 0 <= i < |store| ==> store[i].id != freshId
    ensures var actions := [Book(f, Some(user), doctorId, Booking.Inserted, freshId, profile),
                            DoctorSetStatus(freshId, "confirmed"), DoctorSetStatus(freshId, "completed")];
      && Legal(store, actions)
      && var r := Run(store, actions);
      && |r| == |store| + 1
      && r[..|store|] == store
      && r[|store|] == Appointment(freshId, user, doctorId, f.date, f.time, Completed, f.reason, None, profile)
  {
    var a0 := Book(f, Some(user), doctorId, Booking.Inserted, freshId, profile);
    var a1 := DoctorSetStatus(freshId, "confirmed");
    var a2 := DoctorSetStatus(freshId, "completed");
    var s1 := Step(store, a0);
    var s2 := Step(s1, a1);
    var s3 := Step(s2, a2);
    assert Legal(s3, []);
    assert Legal(s2, [a2]) by { assert [a2][1..] == []; }
    assert Legal(s1, [a1, a2]) by { assert [a1, a2][1..] == [a2]; }
    assert Legal(store, [a0, a1, a2]) by { assert [a0, a1, a2][1..] == [a1, a2]; }
    assert Run(s2, [a2]) == s3 by { assert [a2][1..] == []; }
    assert Run(s1, [a1, a2]) == s3 by { assert [a1, a2][1..] == [a2]; }
    assert Run(store, [a0, a1, a2]) == s3 by { assert [a0, a1, a2][1..] == [a1, a2]; }
    assert s3[..|store|] == store;
  }
}
