/** The doctor directory page: the list loaded once after the session check, and
    the client-side search over it. */
module Directory {
  import opened Wrappers
  import opened Text
  import opened AppointmentRecords
  import opened Sequences

  datatype HealthCenter = HealthCenter(name: string, city: string, state: string)

  /** A row of `doctors` joined with its health center, which may be missing. */
  datatype Doctor = Doctor(
    id: string,
    name: string,
    specialization: string,
    yearsOfExperience: int,
    consultationFee: real,
    email: string,
    phone: string,
    healthCenter: Option<HealthCenter>)

  /** The search predicate: the lower-cased term occurs in the lower-cased name,
      specialization or, when there is a health center, city. */
  predicate Matches(d: Doctor, term: string)
    ensures Matches(d, term) <==>
      || Occurs(Lower(d.name), Lower(term))
      || Occurs(Lower(d.specialization), Lower(term))
      || (d.healthCenter.Some? && Occurs(Lower(d.healthCenter.value.city), Lower(term)))
  {
    var needle := Lower(term);
    var inName := Includes(Lower(d.name), needle);
    var inSpecialization := Includes(Lower(d.specialization), needle);
    var inCity := d.healthCenter.Some? && Includes(Lower(d.healthCenter.value.city), needle);
    inName || inSpecialization || inCity
  }

  /** `doctors.filter(doctor => Matches(doctor, term))`. */
  function Keep(ds: seq<Doctor>, term: string): (r: seq<Doctor>)
    ensures Subsequence(r, ds)
    ensures forall d :: multiset(r)[d] == if Matches(d, term) then multiset(ds)[d] else 0
  {
    if ds == [] then []
    else if Matches(ds[0], term) then
      assert ds == [ds[0]] + ds[1..];
      [ds[0]] + Keep(ds[1..], term)
    else
      assert ds == [ds[0]] + ds[1..];
      Keep(ds[1..], term)
  }

  /** The search effect: a blank term shows the whole list, any other term the
      matching doctors. The untrimmed term is what is searched for. */
  function Search(ds: seq<Doctor>, term: string): (r: seq<Doctor>)
    ensures IsBlank(term) ==> r == ds
    ensures Subsequence(r, ds)
    ensures !IsBlank(term) ==> forall d :: d in r <==> d in ds && Matches(d, term)
    ensures !IsBlank(term) ==> forall d :: multiset(r)[d] == if Matches(d, term) then multiset(ds)[d] else 0
  {
    if IsBlank(term) then
      SubsequenceReflexive(ds);
      ds
    else
      var r := Keep(ds, term);
      assert forall d :: d in r <==> multiset(r)[d] > 0;
      r
  }

  /** Searching a search result again with the same term changes nothing. */
  lemma {:induction false} KeepIdempotent(ds: seq<Doctor>, term: string)
    ensures Keep(Keep(ds, term), term) == Keep(ds, term)
  {
    if ds != [] {
      KeepIdempotent(ds[1..], term);
    }
  }

  lemma SearchIdempotent(ds: seq<Doctor>, term: string)
    ensures Search(Search(ds, term), term) == Search(ds, term)
  {
    if !IsBlank(term) {
      KeepIdempotent(ds, term);
    }
  }

  /** Two terms that differ only in letter case give the same result. */
  lemma SearchIgnoresCase(ds: seq<Doctor>, t1: string, t2: string)
    requires Lower(t1) == Lower(t2)
    ensures Search(ds, t1) == Search(ds, t2)
  {
    BlankIgnoresCase(t1);
    BlankIgnoresCase(t2);
    KeepSameMatches(ds, t1, t2);
  }

  /** The filter sees the term only through its lower-cased form. */
  lemma {:induction false} KeepSameMatches(ds: seq<Doctor>, t1: string, t2: string)
    requires Lower(t1) == Lower(t2)
    ensures Keep(ds, t1) == Keep(ds, t2)
  {
    if ds != [] {
      KeepSameMatches(ds[1..], t1, t2);
    }
  }

  /** A doctor without a health center is found only through name or specialization. */
  lemma NoCenterMatchesByNameOrSpecialization(d: Doctor, term: string)
    requires d.healthCenter.None?
    ensures Matches(d, term) <==>
      Includes(Lower(d.name), Lower(term)) || Includes(Lower(d.specialization), Lower(term))
  {
  }

  /** A string without a space contains no term that starts with one. */
  lemma SpacelessExcludes(s: string, sub: string)
    requires sub != [] && sub[0] == ' '
    requires forall i :: 0 <= i < |s| ==> s[i] != ' '
    ensures !Includes(Lower(s), sub)
  {
    forall i | 0 <= i < |s|
      ensures Lower(s)[i] != sub[0]
    {
    }
  }

  /** A doctor used to show the untrimmed search below. */
  const Ann := Doctor("d1", "Ann", "Cardiology", 10, 50.0, "", "", None)

  lemma AnnMatchesLowerCase()
    ensures Matches(Ann, "ann")
  {
    assert Lower("Ann") == "ann";
    assert Lower("ann") == "ann";
    assert OccursAt(Lower("Ann"), Lower("ann"), 0);
  }

  lemma AnnMissedWithLeadingSpace()
    ensures !Matches(Ann, " ann")
  {
    assert Lower(" ann") == " ann";
    SpacelessExcludes("Ann", " ann");
    SpacelessExcludes("Cardiology", " ann");
  }

  /** Both search terms of the example below are non-blank. */
  lemma ExampleTermsNotBlank()
    ensures !IsBlank("ann") && !IsBlank(" ann")
  {
    assert !IsWhitespace("ann"[0]);
    assert !IsWhitespace(" ann"[1]);
  }

  /** Surrounding spaces are part of what is searched for: "Ann" is found by
      "ann" but not by " ann", although both terms are non-blank. */
  lemma UntrimmedTermExample()
    ensures Search([Ann], "ann") == [Ann] && Search([Ann], " ann") == []
  {
    ExampleTermsNotBlank();
    AnnMatchesLowerCase();
    AnnMissedWithLeadingSpace();
    assert Keep([Ann], "ann") == [Ann] + Keep([], "ann");
    assert Keep([Ann], " ann") == Keep([], " ann");
  }

  /** The page state. */
  datatype Page = Page(doctors: seq<Doctor>, filtered: seq<Doctor>, term: string, loading: bool)

  /** The state when the page mounts. */
  const Mounted := Page([], [], "", true)

  /** The mount effect: without a session the page redirects and does nothing; a
      failed query keeps the lists; otherwise both lists become the fetched data, or
      `[]` when there is none. Either way loading ends. */
  function Load(s: Page, hasSession: bool, resp: Response<Doctor>): (r: Page)
    ensures !hasSession ==> r == s
    ensures hasSession ==> !r.loading && r.term == s.term
    ensures hasSession && resp.QueryError? ==> r.doctors == s.doctors && r.filtered == s.filtered
    ensures hasSession && resp.QueryData? ==> r.doctors == r.filtered == resp.data.GetOr([])
  {
    if !hasSession then s
    else
      var list := Refresh(s.doctors, resp);
      var shown := if resp.QueryError? then s.filtered else list;
      s.(doctors := list, filtered := shown, loading := false)
  }

  /** The search effect, re-run whenever the term or the full list changes: it
      changes only the shown list, which becomes the full list for a blank term and
      the matching doctors, in order, for any other. */
  function Refilter(s: Page): (r: Page)
    ensures r.(filtered := s.filtered) == s
    ensures Subsequence(r.filtered, s.doctors)
    ensures IsBlank(s.term) ==> r.filtered == s.doctors
    ensures !IsBlank(s.term) ==> forall d :: d in r.filtered <==> d in s.doctors && Matches(d, s.term)
    ensures !IsBlank(s.term) ==>
      forall d :: multiset(r.filtered)[d] == if Matches(d, s.term) then multiset(s.doctors)[d] else 0
  {
    s.(filtered := Search(s.doctors, s.term))
  }

  /** Typing into the search box: the term is replaced and the search effect runs
      against the unchanged full list. */
  function Type(s: Page, term: string): (r: Page)
    ensures r.(filtered := s.filtered, term := s.term) == s && r.term == term
    ensures Subsequence(r.filtered, s.doctors)
    ensures IsBlank(term) ==> r.filtered == s.doctors
    ensures !IsBlank(term) ==> forall d :: d in r.filtered <==> d in s.doctors && Matches(d, term)
    ensures !IsBlank(term) ==>
      forall d :: multiset(r.filtered)[d] == if Matches(d, term) then multiset(s.doctors)[d] else 0
  {
    Refilter(s.(term := term))
  }

  /** Once the page has loaded with an empty search box, every fetched doctor is shown. */
  lemma LoadShowsEverything(resp: Response<Doctor>)
    requires resp.QueryData?
    ensures Refilter(Load(Mounted, true, resp)).filtered == resp.data.GetOr([])
  {
  }
}
