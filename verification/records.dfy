/** The `appointments` relation as the pages see it, and the two backend effects on
    it that the pages rely on: update-by-id and a select that is read back into
    page state. */
module AppointmentRecords {
  import opened Wrappers
  import opened AppointmentStatus
  import opened Sequences

  /** The patient profile joined into a row on the doctor side. */
  datatype Profile = Profile(fullName: string, phone: string)

  datatype Appointment = Appointment(
    id: string,
    patientId: string,
    doctorId: string,
    date: string,
    time: string,
    status: Status,
    reason: string,
    notes: Option<string>,
    patient: Option<Profile>)

  /** The partial record `{ status?: string; notes?: string }`; `None` is an absent key. */
  datatype Patch = Patch(status: Option<Status>, notes: Option<string>)

  /** Whether the backend call reported an error. */
  datatype Reply = NoError | Error

  /** The object spread `{ ...apt, ...updates }`: keys present in the patch win. */
  function Merge(a: Appointment, p: Patch): (r: Appointment)
    ensures r.(status := a.status, notes := a.notes) == a
    ensures r.status == p.status.GetOr(a.status)
    ensures r.notes == (if p.notes.Some? then p.notes else a.notes)
  {
    a.(status := p.status.GetOr(a.status),
       notes := if p.notes.Some? then p.notes else a.notes)
  }

  /** `rows.map(apt => apt.id === id ? { ...apt, ...updates } : apt)`, which is also
      the effect of `update(updates).eq("id", id)` on the stored relation. */
  function UpdateById(rows: seq<Appointment>, id: string, p: Patch): (r: seq<Appointment>)
    ensures |r| == |rows|
    ensures forall i :: 0 <= i < |rows| && rows[i].id != id ==> r[i] == rows[i]
    ensures forall i :: 0 <= i < |rows| && rows[i].id == id ==> r[i] == Merge(rows[i], p)
  {
    if rows == [] then []
    else [if rows[0].id == id then Merge(rows[0], p) else rows[0]] + UpdateById(rows[1..], id, p)
  }

  /** Every row keeps its id, patient, doctor, date, time, reason and profile. */
  lemma UpdateKeepsIdentity(rows: seq<Appointment>, id: string, p: Patch)
    ensures forall i :: 0 <= i < |rows| ==>
      UpdateById(rows, id, p)[i].(status := rows[i].status, notes := rows[i].notes) == rows[i]
  {
  }

  /** When no row carries the id, nothing changes. */
  lemma UpdateMissingId(rows: seq<Appointment>, id: string, p: Patch)
    requires forall i :: 0 <= i < |rows| ==> rows[i].id != id
    ensures UpdateById(rows, id, p) == rows
  {
  }

  /** Applying the same update twice is applying it once. */
  lemma UpdateIdempotent(rows: seq<Appointment>, id: string, p: Patch)
    ensures UpdateById(UpdateById(rows, id, p), id, p) == UpdateById(rows, id, p)
  {
  }

  /** `p` followed by `q` as one patch: keys of `q` override those of `p`. */
  function Then(p: Patch, q: Patch): Patch {
    Patch(if q.status.Some? then q.status else p.status,
          if q.notes.Some? then q.notes else p.notes)
  }

  /** Two successive updates of one row are the update by their combined patch. */
  lemma UpdateThen(rows: seq<Appointment>, id: string, p: Patch, q: Patch)
    ensures UpdateById(UpdateById(rows, id, p), id, q) == UpdateById(rows, id, Then(p, q))
  {
  }

  /** Which party a query selects rows for: `eq("patient_id", …)` or `eq("doctor_id", …)`. */
  datatype Side = PatientSide | DoctorSide

  function Owner(a: Appointment, side: Side): string {
    match side
    case PatientSide => a.patientId
    case DoctorSide => a.doctorId
  }

  /** The rows a party's query returns, in store order. */
  function RowsOf(store: seq<Appointment>, side: Side, who: string): (r: seq<Appointment>)
    ensures Subsequence(r, store)
    ensures forall a :: multiset(r)[a] == if Owner(a, side) == who then multiset(store)[a] else 0
    ensures forall a :: a in r <==> a in store && Owner(a, side) == who
  {
    if store == [] then []
    else
      assert store == [store[0]] + store[1..];
      var rest := RowsOf(store[1..], side, who);
      if Owner(store[0], side) == who then
        var r := [store[0]] + rest;
        assert multiset(r) == multiset{store[0]} + multiset(rest);
        assert forall a :: a in r <==> multiset(r)[a] > 0;
        r
      else
        assert forall a :: a in rest <==> multiset(rest)[a] > 0;
        rest
  }

  /** Updating the store and then querying a party's rows gives the same list as
      querying first and applying the update to that list: a patch never moves a row
      to another patient or doctor. */
  lemma {:induction false} UpdateCommutesWithQuery(
    store: seq<Appointment>, side: Side, who: string, id: string, p: Patch)
    ensures RowsOf(UpdateById(store, id, p), side, who) == UpdateById(RowsOf(store, side, who), id, p)
  {
    if store != [] {
      var u := UpdateById(store, id, p);
      assert u == [u[0]] + UpdateById(store[1..], id, p);
      assert Owner(u[0], side) == Owner(store[0], side);
      UpdateCommutesWithQuery(store[1..], side, who, id, p);
    }
  }

  /** The result of a `select`: an error, or the possibly null `data`. */
  datatype Response<T> = QueryError | QueryData(data: Option<seq<T>>)

  /** `if (error) { /* keep */ } else { setList(data || []) }`. */
  function Refresh<T>(current: seq<T>, resp: Response<T>): (r: seq<T>)
    ensures resp.QueryError? ==> r == current
    ensures resp.QueryData? && resp.data.Some? ==> r == resp.data.value
    ensures resp == QueryData(None) ==> r == []
  {
    match resp
    case QueryError => current
    case QueryData(data) => data.GetOr([])
  }

  /** A successful query's list does not depend on what was shown before it. */
  lemma RefreshForgetsPrevious<T>(a: seq<T>, b: seq<T>, resp: Response<T>)
    requires resp.QueryData?
    ensures Refresh(a, resp) == Refresh(b, resp)
  {
  }

  /** Every id appears in at most one row, as for a primary key. */
  predicate UniqueIds(rows: seq<Appointment>) {
    forall i, j :: 0 <= i < |rows| && 0 <= j < |rows| && rows[i].id == rows[j].id ==> i == j
  }
}
