/** The `status` column of an appointment: a free string that the pages compare
    against four known names. */
module AppointmentStatus {

  datatype StatusTag = Pending | Confirmed | Completed | Cancelled | Other(name: string)

  /** The four names the pages know about. */
  predicate IsKnownName(s: string) {
    s == "pending" || s == "confirmed" || s == "completed" || s == "cancelled"
  }

  /** A status as stored: `Other` never spells a known name, so every column value
      has exactly one representation. */
  type Status = t: StatusTag | t.Other? ==> !IsKnownName(t.name) witness Pending

  predicate IsKnown(st: Status) {
    !st.Other?
  }

  /** The column value of a status. */
  function Name(st: Status): (s: string)
    ensures IsKnownName(s) <==> IsKnown(st)
  {
    match st
    case Pending => "pending"
    case Confirmed => "confirmed"
    case Completed => "completed"
    case Cancelled => "cancelled"
    case Other(n) => n
  }

  /** Reads a column value; every string has a status whose name it is. */
  function Parse(s: string): (st: Status)
    ensures Name(st) == s
    ensures IsKnown(st) <==> IsKnownName(s)
  {
    if s == "pending" then Pending
    else if s == "confirmed" then Confirmed
    else if s == "completed" then Completed
    else if s == "cancelled" then Cancelled
    else Other(s)
  }

  /** The other half of the round trip: a status is recovered from its name. */
  lemma ParseName(st: Status)
    ensures Parse(Name(st)) == st
  {
  }

  /** Comparing names is comparing statuses. */
  lemma NameInjective(a: Status, b: Status)
    ensures Name(a) == Name(b) <==> a == b
  {
    ParseName(a);
    ParseName(b);
  }
}
