/** Whole roadmap runs: what they leave, what they write, and which courses they lose. */
module RoadmapTheorems {
  import opened Basics
  import opened Texts
  import opened Upserts
  import opened RoadmapModel
  import opened RoadmapSteps

  // ---- Program names ----

  lemma SameLetters(a: string, b: string)
    requires Lower(a) == Lower(b)
    ensures |a| == |b| && forall i :: 0 <= i < |a| ==> LowerChar(a[i]) == LowerChar(b[i])
  {
    assert |Lower(a)| == |Lower(b)|;
    forall i | 0 <= i < |a| ensures LowerChar(a[i]) == LowerChar(b[i]) {
      assert Lower(a)[i] == Lower(b)[i];
    }
  }

  lemma {:induction false} StripsAlike(a: string, b: string)
    requires |a| == |b| && forall i :: 0 <= i < |a| ==> LowerChar(a[i]) == LowerChar(b[i])
    ensures Upper(Strip(a)) == Upper(Strip(b))
    decreases |a|
  {
    if a != "" {
      var n := |a| - 1;
      assert IsSpace(a[0]) <==> IsSpace(b[0]);
      assert IsSpace(a[n]) <==> IsSpace(b[n]);
      if IsSpace(a[0]) {
        StripsAlike(a[1..], b[1..]);
      } else if IsSpace(a[n]) {
        StripsAlike(a[..n], b[..n]);
      } else {
        assert forall i :: 0 <= i < |a| ==> UpperChar(a[i]) == UpperChar(b[i]);
      }
    }
  }

  /** Names that agree in lower case are canonically equal: the mismatch warning is unreachable. */
  lemma NoMismatchWarning(catalog: Catalog, program: string, c: CourseData)
    requires c.code in catalog && Lower(catalog[c.code].1) == Lower(program)
    ensures CanonicalProgram(catalog[c.code].1) == CanonicalProgram(program)
    ensures LinkOf(catalog, program, c) == if c.details.status == "proposed" then None else Some(catalog[c.code].0)
  {
    SameLetters(catalog[c.code].1, program);
    StripsAlike(catalog[c.code].1, program);
  }

  /**
   The two program names the seeder means to treat as one are not one: canonicalising is
   idempotent exactly for names other than the legacy alias, whose canonical form is
   itself canonicalised to something else.
   */
  lemma CanonicalUnlessLegacy(value: string)
    ensures CanonicalProgram(CanonicalProgram(value)) == CanonicalProgram(value) <==> Upper(Strip(value)) != "BSIT"
  {
    var t := Strip(value);
    var n := Upper(t);
    StripEnds(value);
    UpperTwice(t);
    LegacyNames();
    assert forall i :: 0 <= i < |t| ==> IsSpace(n[i]) == IsSpace(t[i]);
    assert Strip(n) == n;
    NeverMixedCase(t);
  }

  lemma NeverMixedCase(s: string)
    ensures Upper(s) != "BSInfoTech"
  {
    if |s| > 3 {
      assert Upper(s)[3] == UpperChar(s[3]) && UpperChar(s[3]) != 'n';
    }
  }

  lemma LegacyNames()
    ensures CanonicalProgram("BSIT") == "BSInfoTech"
    ensures CanonicalProgram("BSInfoTech") == "BSINFOTECH"
  {
    assert Strip("BSIT") == "BSIT" && Upper("BSIT") == "BSIT";
    assert Strip("BSInfoTech") == "BSInfoTech" && Upper("BSInfoTech") == "BSINFOTECH";
    assert "BSINFOTECH"[3] != "BSInfoTech"[3];
  }

  // ---- The roadmap row ----

  function RidOf(t0: Tables, p: Payload): int {
    match RoadmapStep(t0, p)
    case Ok((s, rid)) => rid
    case Err(_) => 0
  }

  function Start(t0: Tables, p: Payload): Session {
    match RoadmapStep(t0, p)
    case Ok((s, rid)) => RetireOthers(s, p, rid)
    case Err(_) => Session(t0, t0)
  }

  function PlaceOf(t0: Tables, catalog: Catalog, p: Payload): Place {
    Place(t0, RidOf(t0, p), CanonicalProgram(p.program), catalog)
  }

  /** The roadmaps after the run: ours active, any other active one of the pair retired. */
  ghost predicate Activated(t0: Tables, t1: Tables, p: Payload, rid: int) {
    && 0 <= rid < |t1.roadmaps| && |t1.roadmaps| == (if rid == |t0.roadmaps| then rid + 1 else |t0.roadmaps|)
    && t1.roadmaps[rid] == FreshRoadmap(p)
    && forall i :: 0 <= i < |t0.roadmaps| && i != rid ==>
         t1.roadmaps[i] == if SamePair(t0.roadmaps[i], p) then t0.roadmaps[i].(status := Retired) else t0.roadmaps[i]
  }

  lemma RoadmapStepActivates(t0: Tables, p: Payload)
    requires RoadmapStep(t0, p).Ok?
    ensures Activated(t0, Start(t0, p).live, p, RidOf(t0, p))
    ensures
      var s := Start(t0, p);
      && SameShape(s) && s.stored.years == s.live.years == t0.years && s.stored.entries == s.live.entries == t0.entries
    ensures var rid := RidOf(t0, p); rid < |t0.roadmaps| ==>
      SamePair(t0.roadmaps[rid], p) && t0.roadmaps[rid].version == p.version
  {
    hide SoundEntries, SoundYears, SoundRoadmaps, CanonicalProgram;
    var q := RoadmapRows(t0.roadmaps, p);
    assert forall a :: 0 <= a < |q| ==> q[a] in q;
    assert forall i :: 0 <= i < |t0.roadmaps| ==> (t0.roadmaps[i].status == Active || t0.roadmaps[i].status == Retired);
  }

  // ---- What leaves ----

  lemma RunUnfolds(t0: Tables, catalog: Catalog, p: Payload)
    requires Run(t0, catalog, p).Ok?
    ensures ValidPayload(p) && RoadmapStep(t0, p).Ok? && SameShape(Start(t0, p))
    ensures
      var c := PlaceOf(t0, catalog, p);
      var r := SeedYears(Start(t0, p), c.rid, c.program, catalog, p.years);
      && r.Ok?
      && Run(t0, catalog, p).value == DropLeft(r.value, c.rid, AllCodes(p.years), YearPairs(p.years)).live
      && Sound(Run(t0, catalog, p).value)
  {
    hide Sound, ValidPayload, RoadmapStep, SeedYears, DropLeft;
  }

  /** The tables when the loops end, and the rows placed by then. */
  ghost predicate Ended(c: Place, p: Payload, placed: seq<Entry>, u: Session, t1: Tables) {
    && At(c, p.years, placed, Flushed(c.t0, c.rid, p.years), u)
    && Placed(c, Flat(p.years), placed, u.live.years)
    && t1 == DropLeft(u, c.rid, AllCodes(p.years), YearPairs(p.years)).live
    && DistinctPayload(p.years)
  }

  lemma RunEnds(t0: Tables, catalog: Catalog, p: Payload) returns (placed: seq<Entry>, u: Session)
    requires DistinctPayload(p.years) && Run(t0, catalog, p).Ok?
    ensures Ended(PlaceOf(t0, catalog, p), p, placed, u, Run(t0, catalog, p).value)
    ensures Sound(Run(t0, catalog, p).value) && u.live.roadmaps == Start(t0, p).live.roadmaps && RoadmapStep(t0, p).Ok?
  {
    hide Run, Sound, SeedYears, DropLeft, DistinctPayload, Flushed, Start;
    RunUnfolds(t0, catalog, p);
    RoadmapStepActivates(t0, p);
    var c := PlaceOf(t0, catalog, p);
    var s := Start(t0, p);
    NothingPut(t0.years, YearKey);
    NothingPut(t0.entries, EntryKey);
    assert YearsOf(c.rid, []) == [];
    u := SeedYears(s, c.rid, c.program, catalog, p.years).value;
    placed := SeedYearsPlaces(c, s, p.years);
  }

  /** The seeded roadmap is active, and no other of its program and specialization is. */
  lemma OneActiveRoadmap(t0: Tables, catalog: Catalog, p: Payload)
    requires DistinctPayload(p.years) && Run(t0, catalog, p).Ok?
    ensures
      var t1, rid := Run(t0, catalog, p).value, RidOf(t0, p);
      && Activated(t0, t1, p, rid)
      && forall i :: 0 <= i < |t1.roadmaps| && SamePair(t1.roadmaps[i], p) ==> (t1.roadmaps[i].status == Active <==> i == rid)
  {
    hide Run, Sound, At, Placed, DistinctPayload, Flushed, CanonicalProgram;
    var placed, u := RunEnds(t0, catalog, p);
    RoadmapStepActivates(t0, p);
  }

  predicate YearGone(c: Place, p: Payload, y: int) {
    YearLeaves(c.t0.years, c.rid, YearPairs(p.years), y)
  }

  lemma PairsOf(years: seq<YearData>, rid: int)
    ensures forall k: (int, int, Option<int>) :: k.0 == rid ==>
      (KeyedIn(YearsOf(rid, years), YearKey, k) <==> (k.1, k.2) in YearPairs(years))
  {
    forall k: (int, int, Option<int>) | k.0 == rid
      ensures KeyedIn(YearsOf(rid, years), YearKey, k) <==> (k.1, k.2) in YearPairs(years)
    {
      if (k.1, k.2) in YearPairs(years) {
        var i :| 0 <= i < |years| && (years[i].number, years[i].semester) == (k.1, k.2);
        assert YearKey(YearsOf(rid, years)[i]) == k;
      }
      if KeyedIn(YearsOf(rid, years), YearKey, k) {
        var i :| 0 <= i < |YearsOf(rid, years)| && YearKey(YearsOf(rid, years)[i]) == k;
        assert (years[i].number, years[i].semester) == (k.1, k.2);
      }
    }
  }

  /** The year rows that leave are old ones, and the same whether asked before or at the end. */
  lemma LeavingYears(c: Place, p: Payload, u: Session, y: int)
    requires YearsAt(c, p.years, u)
    ensures YearLeaves(u.stored.years, c.rid, YearPairs(p.years), y) <==> YearGone(c, p, y)
  {
    hide Present, NoRow, YearsOf, YearPairs, KeyedIn;
    PairsOf(p.years, c.rid);
    var rows, y0, xs := u.live.years, c.t0.years, YearsOf(c.rid, p.years);
    if 0 <= y < |rows| {
      assert u.stored.years[y].Some? <==> rows[y].Some?;
      if y < |y0| {
        assert OldRow(y0, YearKey, xs, rows, y);
      } else {
        assert NewRow(y0, YearKey, xs, rows, y);
        FromPayload(c, p, rows[y].value);
      }
    }
  }

  lemma FromPayload(c: Place, p: Payload, x: Year)
    requires x in YearsOf(c.rid, p.years)
    ensures x.roadmap == c.rid && (x.number, x.semester) in YearPairs(p.years)
    ensures exists j :: 0 <= j < |p.years| && x == YearOf(c.rid, p.years[j])
  {
    var i :| 0 <= i < |YearsOf(c.rid, p.years)| && YearsOf(c.rid, p.years)[i] == x;
    assert x == YearOf(c.rid, p.years[i]);
  }

  // ---- Years ----

  /** The roadmap's year rows are exactly the payload's, and other roadmaps' are as they were. */
  ghost predicate YearsExact(c: Place, p: Payload, t1: Tables) {
    && (forall j :: 0 <= j < |p.years| ==> Present(t1.years, YearKey, YearOf(c.rid, p.years[j])))
    && (forall i :: 0 <= i < |t1.years| && t1.years[i].Some? && t1.years[i].value.roadmap == c.rid ==>
          t1.years[i].value in YearsOf(c.rid, p.years))
    && |c.t0.years| <= |t1.years|
    && (forall i :: 0 <= i < |c.t0.years| && c.t0.years[i].Some? && c.t0.years[i].value.roadmap != c.rid ==>
          t1.years[i] == c.t0.years[i])
    && (forall i :: |c.t0.years| <= i < |t1.years| && t1.years[i].Some? ==> t1.years[i].value.roadmap == c.rid)
  }

  lemma KeptYear(c: Place, p: Payload, placed: seq<Entry>, u: Session, t1: Tables, x: Year)
    requires Ended(c, p, placed, u, t1) && Present(u.live.years, YearKey, x) && x in YearsOf(c.rid, p.years)
    ensures Present(t1.years, YearKey, x)
  {
    hide Put, EntriesAt, Placed, DistinctPayload, Flat, Flushed, YearsOf, EntryLeaves;
    var i :| 0 <= i < |u.live.years| && u.live.years[i] == Some(x);
    FromPayload(c, p, x);
    assert u.stored.years[i].Some? && YearKey(u.stored.years[i].value) == YearKey(x);
    assert t1.years[i] == Some(x);
    forall j | HasKey(t1.years, YearKey, YearKey(x), j) ensures HasKey(u.live.years, YearKey, YearKey(x), j) {
    }
  }

  lemma YearsEndExact(c: Place, p: Payload, placed: seq<Entry>, u: Session, t1: Tables)
    requires Ended(c, p, placed, u, t1)
    ensures YearsExact(c, p, t1)
  {
    hide EntriesAt, Placed, DistinctPayload, Flat, Flushed, YearsOf, YearPairs, EntryLeaves, Present, NoRow, KeyedIn;
    PairsOf(p.years, c.rid);
    var y0, xs, rows := c.t0.years, YearsOf(c.rid, p.years), u.live.years;
    AllYears(c, p.years);
    forall j | 0 <= j < |p.years| ensures Present(t1.years, YearKey, YearOf(c.rid, p.years[j])) {
      KeptYear(c, p, placed, u, t1, YearOf(c.rid, p.years[j]));
    }
    forall i | 0 <= i < |t1.years| ensures
      && (i < |y0| && y0[i].Some? && y0[i].value.roadmap != c.rid ==> t1.years[i] == y0[i])
      && (t1.years[i].Some? && t1.years[i].value.roadmap == c.rid ==> t1.years[i].value in xs)
      && (i >= |y0| && t1.years[i].Some? ==> t1.years[i].value.roadmap == c.rid)
    {
      LeavingYears(c, p, u, i);
      YearRowEnds(c, p, rows, i);
    }
  }

  lemma AllYears(c: Place, years: seq<YearData>)
    ensures |YearsOf(c.rid, years)| == |years|
    ensures forall j :: 0 <= j < |years| ==> YearsOf(c.rid, years)[j] == YearOf(c.rid, years[j])
  {
  }

  lemma YearRowEnds(c: Place, p: Payload, rows: seq<Option<Year>>, i: int)
    requires Put(c.t0.years, YearKey, YearsOf(c.rid, p.years), rows) && 0 <= i < |rows|
    ensures i < |c.t0.years| && c.t0.years[i].Some? && c.t0.years[i].value.roadmap != c.rid ==> rows[i] == c.t0.years[i]
    ensures rows[i].Some? && rows[i].value.roadmap == c.rid && !YearGone(c, p, i) ==> rows[i].value in YearsOf(c.rid, p.years)
    ensures i >= |c.t0.years| && rows[i].Some? ==> rows[i].value.roadmap == c.rid
  {
    hide Present, NoRow, YearsOf, YearPairs;
    PairsOf(p.years, c.rid);
    AllYears(c, p.years);
    if i < |c.t0.years| {
      assert OldRow(c.t0.years, YearKey, YearsOf(c.rid, p.years), rows, i);
    } else {
      assert NewRow(c.t0.years, YearKey, YearsOf(c.rid, p.years), rows, i);
    }
  }

  // ---- Courses ----

  /**
   The payload's course number `q` is lost: before the run its row is in a year that the
   payload drops, and no year row is created after it, so its new year is not yet flushed
   when the courses of dropped years are selected.
   */
  ghost predicate LostAt(c: Place, p: Payload, q: int) {
    && Flushed(c.t0, c.rid, p.years) <= q < |Flat(p.years)|
    && exists i :: HasKey(c.t0.entries, EntryKey, (c.rid, Flat(p.years)[q].1.code), i) && YearGone(c, p, c.t0.entries[i].value.year)
  }

  lemma OneEntryRow(t: Tables, k: (int, string))
    requires SoundEntries(t)
    ensures OneRow(t.entries, EntryKey, k)
  {
  }

  lemma {:induction false} CodesOfFlat(years: seq<YearData>)
    ensures forall q :: 0 <= q < |Flat(years)| ==> Flat(years)[q].1.code in AllCodes(years)
    ensures forall code :: code in AllCodes(years) ==> exists q :: 0 <= q < |Flat(years)| && Flat(years)[q].1.code == code
  {
    if years != [] {
      var n := |years| - 1;
      CodesOfFlat(years[..n]);
      var last := years[n].courses;
      forall q | 0 <= q < |Flat(years)| ensures Flat(years)[q].1.code in AllCodes(years) {
        if q >= |Flat(years[..n])| {
          assert last[q - |Flat(years[..n])|].code in CourseCodes(last);
        }
      }
      forall code | code in AllCodes(years) ensures exists q :: 0 <= q < |Flat(years)| && Flat(years)[q].1.code == code {
        if code in AllCodes(years[..n]) {
          var q :| 0 <= q < |Flat(years[..n])| && Flat(years[..n])[q].1.code == code;
          assert Flat(years)[q].1.code == code;
        } else {
          var i :| 0 <= i < |last| && last[i].code == code;
          assert Flat(years)[|Flat(years[..n])| + i].1.code == code;
        }
      }
    }
  }

  /** A row as placed is not among the leaving ones. */
  lemma PlacedDoesNotLeave(c: Place, p: Payload, placed: seq<Entry>, u: Session, q: int)
    requires YearsAt(c, p.years, u) && Placed(c, Flat(p.years), placed, u.live.years) && 0 <= q < |placed|
    ensures !YearLeaves(u.stored.years, c.rid, YearPairs(p.years), placed[q].year)
    ensures !Leaving(Some(placed[q]), c.rid, AllCodes(p.years))
    ensures EntryKey(placed[q]) == (c.rid, Flat(p.years)[q].1.code)
  {
    hide Put, AllCodes, Flat, LinkOf;
    CodesOfFlat(p.years);
    FlatYears(p.years);
    assert PlacedAt(c, Flat(p.years)[q], placed[q], u.live.years);
    var y :| 0 <= y < |p.years| && p.years[y] == Flat(p.years)[q].0;
    assert (p.years[y].number, p.years[y].semester) in YearPairs(p.years);
  }

  /** What the stored row of a placed course says when rows are selected for deletion. */
  lemma StoredRow(c: Place, placed: seq<Entry>, f: nat, s: Session, q: int, i: int)
    requires EntriesAt(c, placed, f, s) && 0 <= q < |placed| && 0 <= i < |s.live.entries|
    requires s.live.entries[i] == Some(placed[q])
    ensures i < |c.t0.entries| ==> HasKey(c.t0.entries, EntryKey, EntryKey(placed[q]), i)
    ensures i >= |c.t0.entries| ==> NoRow(c.t0.entries, EntryKey, EntryKey(placed[q]))
    ensures i < |s.stored.entries| ==> s.stored.entries[i] == (if i < |c.t0.entries| && q >= f then c.t0.entries[i] else Some(placed[q]))
  {
    hide Present, NoRow;
    var e0, stored, k := c.t0.entries, s.stored.entries, EntryKey(placed[q]);
    if i < |e0| {
      assert OldRow(e0, EntryKey, placed, s.live.entries, i);
      assert KeyedIn(placed, EntryKey, k);
      assert OldRow(e0, EntryKey, placed[..f], stored, i);
      PrefixHas(placed, f, q);
      if q < f {
        var r :| 0 <= r < f && placed[..f][r] == stored[i].value;
        assert EntryKey(placed[r]) == k;
      }
    } else {
      assert NewRow(e0, EntryKey, placed, s.live.entries, i);
    }
  }

  lemma PrefixHas(placed: seq<Entry>, f: nat, q: int)
    requires f <= |placed| && 0 <= q < |placed| && DistinctKeys(placed, EntryKey)
    ensures KeyedIn(placed[..f], EntryKey, EntryKey(placed[q])) <==> q < f
  {
    if q < f {
      assert placed[..f][q] == placed[q];
    }
  }

  lemma PlacedRowEnds(c: Place, p: Payload, placed: seq<Entry>, u: Session, t1: Tables, q: int, i: int)
    requires Ended(c, p, placed, u, t1) && SoundEntries(c.t0) && 0 <= q < |placed| && 0 <= i < |u.live.entries|
    requires u.live.entries[i] == Some(placed[q])
    ensures |t1.entries| == |u.live.entries| && t1.entries[i] == if LostAt(c, p, q) then None else Some(placed[q])
  {
    hide Put, AllCodes, Flat, YearsAt, Flushed, DistinctPayload, YearPairs, DistinctKeys, YearLeaves, NoRow, SoundEntries, PlacedAt;
    StoredRow(c, placed, Flushed(c.t0, c.rid, p.years), u, q, i);
    PlacedDoesNotLeave(c, p, placed, u, q);
    var k := EntryKey(placed[q]);
    OneEntryRow(c.t0, k);
    if i < |c.t0.entries| {
      StoredIsLong(c, p, placed, u);
      LeavingYears(c, p, u, c.t0.entries[i].value.year);
      LostRow(c, p, q, k, i);
    } else {
      NotLostIfNew(c, p, q, k);
    }
  }

  lemma StoredIsLong(c: Place, p: Payload, placed: seq<Entry>, u: Session)
    requires At(c, p.years, placed, Flushed(c.t0, c.rid, p.years), u)
    ensures |c.t0.entries| <= |u.stored.entries|
  {
  }

  lemma LostRow(c: Place, p: Payload, q: int, k: (int, string), i: int)
    requires 0 <= q < |Flat(p.years)| && k == (c.rid, Flat(p.years)[q].1.code)
    requires OneRow(c.t0.entries, EntryKey, k) && HasKey(c.t0.entries, EntryKey, k, i)
    ensures LostAt(c, p, q) <==> Flushed(c.t0, c.rid, p.years) <= q && YearGone(c, p, c.t0.entries[i].value.year)
  {
    hide Flat, Flushed, YearGone;
  }

  lemma NotLostIfNew(c: Place, p: Payload, q: int, k: (int, string))
    requires 0 <= q < |Flat(p.years)| && k == (c.rid, Flat(p.years)[q].1.code) && NoRow(c.t0.entries, EntryKey, k)
    ensures !LostAt(c, p, q)
  {
    hide Flat, Flushed, YearGone;
  }

  /** The course is in the roadmap, in the year the payload gives it, with the payload's details. */
  predicate Holds(c: Place, t: Tables, f: (YearData, CourseData)) {
    exists i :: 0 <= i < |t.entries| && t.entries[i].Some? && PlacedAt(c, f, t.entries[i].value, t.years)
  }

  lemma PlacedAtTheEnd(c: Place, p: Payload, placed: seq<Entry>, u: Session, t1: Tables, q: int)
    requires Ended(c, p, placed, u, t1) && 0 <= q < |placed|
    ensures PlacedAt(c, Flat(p.years)[q], placed[q], t1.years)
  {
    hide Put, AllCodes, Flat, EntriesAt, Flushed, DistinctPayload, LinkOf, EntryLeaves, YearPairs;
    PlacedDoesNotLeave(c, p, placed, u, q);
    assert PlacedAt(c, Flat(p.years)[q], placed[q], u.live.years);
  }

  lemma EntriesOnlyLeave(c: Place, p: Payload, placed: seq<Entry>, u: Session, t1: Tables)
    requires Ended(c, p, placed, u, t1)
    ensures |t1.entries| == |u.live.entries|
    ensures forall j :: 0 <= j < |t1.entries| && t1.entries[j].Some? ==> t1.entries[j] == u.live.entries[j]
  {
    hide Put, AllCodes, Flat, Flushed, DistinctPayload, YearPairs, EntryLeaves, Placed, YearsAt, EntriesAt;
  }

  lemma PlacedIsPresent(c: Place, placed: seq<Entry>, f: nat, s: Session, q: int)
    requires EntriesAt(c, placed, f, s) && 0 <= q < |placed|
    ensures Present(s.live.entries, EntryKey, placed[q])
  {
  }

  lemma HoldsUnlessLost(c: Place, p: Payload, placed: seq<Entry>, u: Session, t1: Tables, q: int)
    requires Ended(c, p, placed, u, t1) && SoundEntries(c.t0) && 0 <= q < |placed|
    ensures Holds(c, t1, Flat(p.years)[q]) <==> !LostAt(c, p, q)
  {
    hide Put, AllCodes, Flat, Flushed, DistinctPayload, YearPairs, EntriesAt, YearsAt, LostAt, DropLeft, LinkOf, SoundEntries;
    PlacedIsPresent(c, placed, Flushed(c.t0, c.rid, p.years), u, q);
    var i :| 0 <= i < |u.live.entries| && u.live.entries[i] == Some(placed[q]);
    PlacedRowEnds(c, p, placed, u, t1, q, i);
    PlacedAtTheEnd(c, p, placed, u, t1, q);
    EntriesOnlyLeave(c, p, placed, u, t1);
    assert PlacedAt(c, Flat(p.years)[q], placed[q], u.live.years);
    forall j | 0 <= j < |t1.entries| && t1.entries[j].Some? && PlacedAt(c, Flat(p.years)[q], t1.entries[j].value, t1.years)
      ensures j == i
    {
      assert HasKey(u.live.entries, EntryKey, EntryKey(placed[q]), j);
      assert HasKey(u.live.entries, EntryKey, EntryKey(placed[q]), i);
    }
  }

  lemma EntryRowEnds(c: Place, p: Payload, placed: seq<Entry>, u: Session, t1: Tables, i: int)
    requires Ended(c, p, placed, u, t1) && 0 <= i < |t1.entries|
    ensures t1.entries[i].Some? && t1.entries[i].value.roadmap == c.rid ==> t1.entries[i].value in placed
    ensures i < |c.t0.entries| && c.t0.entries[i].Some? && c.t0.entries[i].value.roadmap != c.rid ==>
      t1.entries[i] == if YearGone(c, p, c.t0.entries[i].value.year) then None else c.t0.entries[i]
    ensures i >= |c.t0.entries| && t1.entries[i].Some? ==> t1.entries[i].value.roadmap == c.rid
  {
    hide AllCodes, Flat, YearsAt, Flushed, DistinctPayload, YearPairs, DistinctKeys, YearLeaves, NoRow, Present, LinkOf;
    var e0, stored, rows := c.t0.entries, u.stored.entries, u.live.entries;
    var f := Flushed(c.t0, c.rid, p.years);
    CodesOfFlat(p.years);
    KeysOfPlaced(c, p, placed, u.live.years);
    StoredIsLong(c, p, placed, u);
    if i < |e0| {
      assert OldRow(e0, EntryKey, placed, rows, i);
      assert OldRow(e0, EntryKey, placed[..f], stored, i);
      if e0[i].Some? {
        LeavingYears(c, p, u, e0[i].value.year);
        if !KeyedIn(placed, EntryKey, EntryKey(e0[i].value)) {
          PrefixKeys(placed, f, EntryKey(e0[i].value));
          assert stored[i] == e0[i] && rows[i] == e0[i];
        }
      }
    } else {
      assert NewRow(e0, EntryKey, placed, rows, i);
    }
  }

  lemma KeysOfPlaced(c: Place, p: Payload, placed: seq<Entry>, years: seq<Option<Year>>)
    requires Placed(c, Flat(p.years), placed, years)
    ensures forall code :: KeyedIn(placed, EntryKey, (c.rid, code)) <==> code in AllCodes(p.years)
    ensures forall e :: e in placed ==> e.roadmap == c.rid
    ensures forall k: (int, string) :: KeyedIn(placed, EntryKey, k) ==> k.0 == c.rid
  {
    hide Flat, LinkOf, AllCodes;
    CodesOfFlat(p.years);
    var flat := Flat(p.years);
    assert forall q :: 0 <= q < |placed| ==> PlacedAt(c, flat[q], placed[q], years) && EntryKey(placed[q]) == (c.rid, flat[q].1.code);
    forall code | code in AllCodes(p.years) ensures KeyedIn(placed, EntryKey, (c.rid, code)) {
      var q :| 0 <= q < |flat| && flat[q].1.code == code;
      assert EntryKey(placed[q]) == (c.rid, code);
    }
  }

  // ---- The theorems ----

  /** The row is one of the payload's courses, in that course's year. */
  predicate OfPayload(c: Place, p: Payload, t: Tables, e: Entry) {
    exists q :: 0 <= q < |Flat(p.years)| && PlacedAt(c, Flat(p.years)[q], e, t.years)
  }

  /**
   Every row the roadmap ends with is the payload's: the years exactly, and each course in
   its year.  Rows of other roadmaps stay, but for a course kept in one of our dropped years.
   */
  lemma OnlyThePayloadRemains(t0: Tables, catalog: Catalog, p: Payload)
    requires DistinctPayload(p.years) && Run(t0, catalog, p).Ok?
    ensures
      var c, t1 := PlaceOf(t0, catalog, p), Run(t0, catalog, p).value;
      && YearsExact(c, p, t1)
      && (forall i :: 0 <= i < |t1.entries| && t1.entries[i].Some? && t1.entries[i].value.roadmap == c.rid ==>
            OfPayload(c, p, t1, t1.entries[i].value))
      && |t0.entries| <= |t1.entries|
      && (forall i :: 0 <= i < |t0.entries| && t0.entries[i].Some? && t0.entries[i].value.roadmap != c.rid ==>
            t1.entries[i] == if YearGone(c, p, t0.entries[i].value.year) then None else t0.entries[i])
      && (forall i :: |t0.entries| <= i < |t1.entries| && t1.entries[i].Some? ==> t1.entries[i].value.roadmap == c.rid)
  {
    hide Run, Flat, Sound, DistinctPayload, YearsExact, At, PlacedAt, YearGone, DropLeft, Flushed;
    var placed, u := RunEnds(t0, catalog, p);
    var c, t1 := PlaceOf(t0, catalog, p), Run(t0, catalog, p).value;
    YearsEndExact(c, p, placed, u, t1);
    EntriesOnlyLeave(c, p, placed, u, t1);
    LongEnough(c, p, placed, u);
    forall i | 0 <= i < |t1.entries| ensures
      && (t1.entries[i].Some? && t1.entries[i].value.roadmap == c.rid ==>
            OfPayload(c, p, t1, t1.entries[i].value))
      && (i < |t0.entries| && t0.entries[i].Some? && t0.entries[i].value.roadmap != c.rid ==>
            t1.entries[i] == if YearGone(c, p, t0.entries[i].value.year) then None else t0.entries[i])
      && (i >= |t0.entries| && t1.entries[i].Some? ==> t1.entries[i].value.roadmap == c.rid)
    {
      EntryRowEnds(c, p, placed, u, t1, i);
      if t1.entries[i].Some? && t1.entries[i].value.roadmap == c.rid {
        var q :| 0 <= q < |placed| && placed[q] == t1.entries[i].value;
        PlacedAtTheEnd(c, p, placed, u, t1, q);
      }
    }
  }

  lemma LongEnough(c: Place, p: Payload, placed: seq<Entry>, u: Session)
    requires At(c, p.years, placed, Flushed(c.t0, c.rid, p.years), u)
    ensures |c.t0.entries| <= |u.live.entries|
  {
  }

  /** The roadmap ends with a course of the payload exactly when the course is not lost. */
  lemma CoursesUnlessLost(t0: Tables, catalog: Catalog, p: Payload, q: int)
    requires Sound(t0) && DistinctPayload(p.years) && Run(t0, catalog, p).Ok? && 0 <= q < |Flat(p.years)|
    ensures
      var c := PlaceOf(t0, catalog, p);
      Holds(c, Run(t0, catalog, p).value, Flat(p.years)[q]) <==> !LostAt(c, p, q)
  {
    hide Run, Flat, SoundEntries, SoundYears, SoundRoadmaps, DistinctPayload, At, LostAt, Holds, DropLeft;
    var placed, u := RunEnds(t0, catalog, p);
    HoldsUnlessLost(PlaceOf(t0, catalog, p), p, placed, u, Run(t0, catalog, p).value, q);
  }
}
