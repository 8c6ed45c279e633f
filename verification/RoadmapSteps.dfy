/** How the loops over years and courses change the tables, told against the tables before the run. */
module RoadmapSteps {
  import opened Basics
  import opened Upserts
  import opened RoadmapModel

  // ---- The payload, laid out course by course ----

  function Flat(years: seq<YearData>): seq<(YearData, CourseData)> {
    if years == [] then []
    else
      var y := years[|years| - 1];
      Flat(years[..|years| - 1]) + seq(|y.courses|, i requires 0 <= i < |y.courses| => (y, y.courses[i]))
  }

  function YearsOf(rid: int, years: seq<YearData>): seq<Year> {
    seq(|years|, i requires 0 <= i < |years| => YearOf(rid, years[i]))
  }

  ghost predicate IsNewYear(t0: Tables, rid: int, y: YearData) {
    NoRow(t0.years, YearKey, YearKey(YearOf(rid, y)))
  }

  /** How many courses come before the last year row the run has to create, and flush. */
  ghost function Flushed(t0: Tables, rid: int, years: seq<YearData>): nat {
    if years == [] then 0
    else
      var front := years[..|years| - 1];
      if IsNewYear(t0, rid, years[|years| - 1]) then |Flat(front)| else Flushed(t0, rid, front)
  }

  lemma {:induction false} FlushedInRange(t0: Tables, rid: int, years: seq<YearData>)
    ensures Flushed(t0, rid, years) <= |Flat(years)|
  {
    hide IsNewYear;
    if years != [] {
      FlushedInRange(t0, rid, years[..|years| - 1]);
    }
  }

  datatype Place = Place(t0: Tables, rid: int, program: string, catalog: Catalog)

  /** The rows placed so far: the payload's courses, each in the row of its year. */
  ghost predicate Placed(c: Place, flat: seq<(YearData, CourseData)>, placed: seq<Entry>, years: seq<Option<Year>>) {
    && |placed| == |flat|
    && forall q :: 0 <= q < |flat| ==> PlacedAt(c, flat[q], placed[q], years)
  }

  predicate PlacedAt(c: Place, f: (YearData, CourseData), e: Entry, years: seq<Option<Year>>) {
    && e == EntryOf(c.rid, e.year, c.program, c.catalog, f.1)
    && 0 <= e.year < |years| && years[e.year] == Some(YearOf(c.rid, f.0))
  }

  predicate SameKeys(a: seq<Option<Year>>, b: seq<Option<Year>>) {
    && |a| == |b|
    && forall i :: 0 <= i < |a| ==> (a[i].Some? <==> b[i].Some?) && (a[i].Some? ==> YearKey(a[i].value) == YearKey(b[i].value))
  }

  predicate SameTail(e0: seq<Option<Entry>>, stored: seq<Option<Entry>>, live: seq<Option<Entry>>) {
    |stored| <= |live| && forall i :: |e0| <= i < |stored| ==> stored[i] == live[i]
  }

  /** Entries: all placed in the objects, the first `f` of them flushed. */
  ghost predicate EntriesAt(c: Place, placed: seq<Entry>, f: nat, s: Session) {
    && f <= |placed| && DistinctKeys(placed, EntryKey)
    && Put(c.t0.entries, EntryKey, placed, s.live.entries)
    && Put(c.t0.entries, EntryKey, placed[..f], s.stored.entries)
    && SameTail(c.t0.entries, s.stored.entries, s.live.entries)
  }

  ghost predicate YearsAt(c: Place, years: seq<YearData>, s: Session) {
    && Put(c.t0.years, YearKey, YearsOf(c.rid, years), s.live.years)
    && SameKeys(s.stored.years, s.live.years)
  }

  ghost predicate At(c: Place, years: seq<YearData>, placed: seq<Entry>, f: nat, s: Session) {
    && SameShape(s) && YearsAt(c, years, s) && EntriesAt(c, placed, f, s)
  }

  // ---- One course ----

  lemma EntryRowsMean(rows: seq<Option<Entry>>, k: (int, string))
    ensures forall i :: i in EntryRows(rows, k) <==> HasKey(rows, EntryKey, k, i)
    ensures |EntryRows(rows, k)| <= 1 <==> OneRow(rows, EntryKey, k)
    ensures EntryRows(rows, k) == [] <==> NoRow(rows, EntryKey, k)
    ensures EntryRows(rows, k) != [] ==> HasKey(rows, EntryKey, k, EntryRows(rows, k)[0])
  {
    var q := EntryRows(rows, k);
    assert forall i :: i in q <==> HasKey(rows, EntryKey, k, i);
    assert q != [] ==> q[0] in q;
    if OneRow(rows, EntryKey, k) {
      AtMostOne(q);
    }
    if |q| <= 1 {
      forall i, j | HasKey(rows, EntryKey, k, i) && HasKey(rows, EntryKey, k, j) ensures i == j {
        assert i in q && j in q;
      }
    }
  }

  lemma PrefixKeys(placed: seq<Entry>, f: nat, k: (int, string))
    requires f <= |placed| && !KeyedIn(placed, EntryKey, k)
    ensures !KeyedIn(placed[..f], EntryKey, k)
  {
  }

  lemma SameRows<T, K>(a: seq<Option<T>>, b: seq<Option<T>>, key: T -> K, k: K)
    requires forall i :: HasKey(a, key, k, i) <==> HasKey(b, key, k, i)
    ensures NoRow(a, key, k) <==> NoRow(b, key, k)
    ensures OneRow(a, key, k) <==> OneRow(b, key, k)
  {
  }

  lemma DistinctGrows(placed: seq<Entry>, e: Entry)
    requires DistinctKeys(placed, EntryKey) && !KeyedIn(placed, EntryKey, EntryKey(e))
    ensures DistinctKeys(placed + [e], EntryKey)
  {
  }

  /** A course not yet placed has, among the stored rows, the row it had before the run. */
  lemma EntryStepPlaces(c: Place, placed: seq<Entry>, f: nat, s: Session, e: Entry)
    requires SameShape(s) && EntriesAt(c, placed, f, s) && EntryStep(s, e).Ok?
    requires !KeyedIn(placed, EntryKey, EntryKey(e))
    ensures
      var u := EntryStep(s, e).value;
      && EntriesAt(c, placed + [e], f, u)
      && u.stored == s.stored && u.live == s.live.(entries := u.live.entries)
  {
    hide Put, NoRow, OneRow, HasKey, KeyedIn, DistinctKeys;
    var k, e0 := EntryKey(e), c.t0.entries;
    var q := EntryRows(s.stored.entries, k);
    EntryRowsMean(s.stored.entries, k);
    PrefixKeys(placed, f, k);
    OtherKeysKeepRows(e0, EntryKey, placed[..f], s.stored.entries, k);
    SameRows(s.stored.entries, e0, EntryKey, k);
    var i := if q == [] then |s.live.entries| else q[0];
    PutOneMore(e0, EntryKey, placed, s.live.entries, e, i);
    DistinctGrows(placed, e);
    assert (placed + [e])[..f] == placed[..f];
    if q != [] {
      OldRowsOnly(e0, k, i);
    } else {
      BeyondOld(s.live.entries, k, i);
    }
  }

  lemma OldRowsOnly(e0: seq<Option<Entry>>, k: (int, string), i: int)
    requires HasKey(e0, EntryKey, k, i)
    ensures 0 <= i < |e0|
  {
  }

  lemma BeyondOld(rows: seq<Option<Entry>>, k: (int, string), i: int)
    requires i == |rows|
    ensures !HasKey(rows, EntryKey, k, i)
  {
  }

  // ---- The courses of one year ----

  function Desired(c: Place, yid: int, courses: seq<CourseData>): seq<Entry> {
    seq(|courses|, i requires 0 <= i < |courses| => EntryOf(c.rid, yid, c.program, c.catalog, courses[i]))
  }

  lemma LastIsUnkeyed(placed: seq<Entry>, e: Entry)
    requires DistinctKeys(placed + [e], EntryKey)
    ensures !KeyedIn(placed, EntryKey, EntryKey(e))
  {
    var all := placed + [e];
    assert all[|placed|] == e;
    assert forall q :: 0 <= q < |placed| ==> all[q] == placed[q];
  }

  lemma DistinctFront(a: seq<Entry>, b: seq<Entry>)
    requires DistinctKeys(a + b, EntryKey)
    ensures DistinctKeys(a, EntryKey)
  {
    assert forall q :: 0 <= q < |a| ==> (a + b)[q] == a[q];
  }

  lemma {:induction false} SeedEntriesPlaces(c: Place, placed: seq<Entry>, f: nat, s: Session, yid: int, courses: seq<CourseData>)
    requires SameShape(s) && EntriesAt(c, placed, f, s)
    requires SeedEntries(s, c.rid, yid, c.program, c.catalog, courses).Ok?
    requires DistinctKeys(placed + Desired(c, yid, courses), EntryKey)
    ensures
      var u := SeedEntries(s, c.rid, yid, c.program, c.catalog, courses).value;
      && EntriesAt(c, placed + Desired(c, yid, courses), f, u)
      && u.stored == s.stored && u.live == s.live.(entries := u.live.entries)
  {
    hide EntriesAt, DistinctKeys, EntryStep, EntryOf;
    if courses == [] {
      assert placed + Desired(c, yid, courses) == placed;
    } else {
      var n := |courses| - 1;
      var front, e := Desired(c, yid, courses[..n]), EntryOf(c.rid, yid, c.program, c.catalog, courses[n]);
      assert placed + Desired(c, yid, courses) == placed + front + [e];
      DistinctFront(placed + front, [e]);
      SeedEntriesPlaces(c, placed, f, s, yid, courses[..n]);
      LastIsUnkeyed(placed + front, e);
      var t := SeedEntries(s, c.rid, yid, c.program, c.catalog, courses[..n]).value;
      EntryStepPlaces(c, placed + front, f, t, e);
    }
  }

  // ---- One year ----

  lemma YearRowsMean(rows: seq<Option<Year>>, k: (int, int, Option<int>))
    ensures forall i :: i in YearRows(rows, k) <==> HasKey(rows, YearKey, k, i)
    ensures |YearRows(rows, k)| <= 1 <==> OneRow(rows, YearKey, k)
    ensures YearRows(rows, k) == [] <==> NoRow(rows, YearKey, k)
    ensures YearRows(rows, k) != [] ==> HasKey(rows, YearKey, k, YearRows(rows, k)[0])
  {
    var q := YearRows(rows, k);
    assert forall i :: i in q <==> HasKey(rows, YearKey, k, i);
    assert q != [] ==> q[0] in q;
    if OneRow(rows, YearKey, k) {
      AtMostOne(q);
    }
    if |q| <= 1 {
      forall i, j | HasKey(rows, YearKey, k, i) && HasKey(rows, YearKey, k, j) ensures i == j {
        assert i in q && j in q;
      }
    }
  }

  lemma SameKeysSameRows(a: seq<Option<Year>>, b: seq<Option<Year>>, k: (int, int, Option<int>))
    requires SameKeys(a, b)
    ensures forall i :: HasKey(a, YearKey, k, i) <==> HasKey(b, YearKey, k, i)
  {
    forall i ensures HasKey(a, YearKey, k, i) <==> HasKey(b, YearKey, k, i) {
      if 0 <= i < |a| && (a[i].Some? || b[i].Some?) {
        assert YearKey(a[i].value) == YearKey(b[i].value);
      }
    }
  }

  lemma YearsOfGrows(rid: int, years: seq<YearData>, y: YearData)
    ensures YearsOf(rid, years + [y]) == YearsOf(rid, years) + [YearOf(rid, y)]
  {
  }

  /** The year row after `YearRow`, what is flushed by then, and where the year now is. */
  lemma YearRowPlaces(c: Place, years: seq<YearData>, placed: seq<Entry>, f: nat, s: Session, y: YearData)
    requires At(c, years, placed, f, s) && YearRow(s, YearOf(c.rid, y)).Ok?
    requires !KeyedIn(YearsOf(c.rid, years), YearKey, YearKey(YearOf(c.rid, y)))
    ensures
      var (t, yid) := YearRow(s, YearOf(c.rid, y)).value;
      && At(c, years + [y], placed, if IsNewYear(c.t0, c.rid, y) then |placed| else f, t)
      && t.live.roadmaps == s.live.roadmaps && t.live.entries == s.live.entries
      && 0 <= yid < |t.live.years| && t.live.years[yid] == Some(YearOf(c.rid, y))
      && |s.live.years| <= |t.live.years|
      && (forall i :: 0 <= i < |s.live.years| && i != yid ==> t.live.years[i] == s.live.years[i])
      && (yid < |s.live.years| ==> HasKey(s.live.years, YearKey, YearKey(YearOf(c.rid, y)), yid))
  {
    hide Put, NoRow, OneRow, KeyedIn, DistinctKeys, YearOf, Sound;
    var row := YearOf(c.rid, y);
    var k, y0 := YearKey(row), c.t0.years;
    var q := YearRows(s.stored.years, k);
    YearRowsMean(s.stored.years, k);
    SameKeysSameRows(s.stored.years, s.live.years, k);
    OtherKeysKeepRows(y0, YearKey, YearsOf(c.rid, years), s.live.years, k);
    SameRows(s.stored.years, y0, YearKey, k);
    var i := if q == [] then |s.live.years| else q[0];
    PutOneMore(y0, YearKey, YearsOf(c.rid, years), s.live.years, row, i);
    YearsOfGrows(c.rid, years, y);
    assert placed[..|placed|] == placed;
  }

  predicate DistinctPayload(years: seq<YearData>) {
    && (forall i, j :: 0 <= i < j < |years| ==> (years[i].number, years[i].semester) != (years[j].number, years[j].semester))
    && (forall q, r :: 0 <= q < r < |Flat(years)| ==> Flat(years)[q].1.code != Flat(years)[r].1.code)
  }

  lemma FlatGrows(years: seq<YearData>, y: YearData)
    ensures Flat(years + [y]) == Flat(years) + seq(|y.courses|, i requires 0 <= i < |y.courses| => (y, y.courses[i]))
  {
    assert (years + [y])[..|years|] == years;
  }

  lemma {:induction false} FlatYears(years: seq<YearData>)
    ensures forall q :: 0 <= q < |Flat(years)| ==> Flat(years)[q].0 in years
  {
    if years != [] {
      FlatYears(years[..|years| - 1]);
    }
  }

  lemma DistinctFrontPayload(years: seq<YearData>, y: YearData)
    requires DistinctPayload(years + [y])
    ensures DistinctPayload(years)
    ensures forall i :: 0 <= i < |years| ==> (years[i].number, years[i].semester) != (y.number, y.semester)
  {
    hide Flat;
    var all := years + [y];
    assert all[|years|] == y;
    assert forall i :: 0 <= i < |years| ==> all[i] == years[i];
    FlatGrows(years, y);
    assert forall q :: 0 <= q < |Flat(years)| ==> Flat(all)[q] == Flat(years)[q];
  }

  lemma YearIsUnkeyed(c: Place, years: seq<YearData>, y: YearData)
    requires DistinctPayload(years + [y])
    ensures !KeyedIn(YearsOf(c.rid, years), YearKey, YearKey(YearOf(c.rid, y)))
  {
    hide Flat;
    DistinctFrontPayload(years, y);
  }

  lemma DesiredIsDistinct(c: Place, years: seq<YearData>, placed: seq<Entry>, y: YearData, yid: int, rows: seq<Option<Year>>)
    requires DistinctPayload(years + [y]) && Placed(c, Flat(years), placed, rows)
    ensures DistinctKeys(placed + Desired(c, yid, y.courses), EntryKey)
  {
    hide Flat;
    FlatGrows(years, y);
    var all, flat := placed + Desired(c, yid, y.courses), Flat(years + [y]);
    forall q | 0 <= q < |all| ensures EntryKey(all[q]) == (c.rid, flat[q].1.code) {
      if q < |placed| {
        assert PlacedAt(c, Flat(years)[q], placed[q], rows);
      }
    }
  }

  lemma PlacedStays(
    c: Place, years: seq<YearData>, y: YearData, placed: seq<Entry>, before: seq<Option<Year>>, after: seq<Option<Year>>, yid: int)
    requires DistinctPayload(years + [y]) && Placed(c, Flat(years), placed, before)
    requires |before| <= |after| && forall i :: 0 <= i < |before| && i != yid ==> after[i] == before[i]
    requires yid < |before| ==> HasKey(before, YearKey, YearKey(YearOf(c.rid, y)), yid)
    requires 0 <= yid < |after| && after[yid] == Some(YearOf(c.rid, y))
    ensures Placed(c, Flat(years + [y]), placed + Desired(c, yid, y.courses), after)
  {
    hide Flat, LinkOf;
    FlatGrows(years, y);
    FlatYears(years);
    DistinctFrontPayload(years, y);
    var all, flat := placed + Desired(c, yid, y.courses), Flat(years + [y]);
    forall q | 0 <= q < |flat| ensures PlacedAt(c, flat[q], all[q], after) {
      if q < |placed| {
        assert PlacedAt(c, Flat(years)[q], placed[q], before);
        assert flat[q].0 in years;
      }
    }
  }

  lemma YearStepPlaces(c: Place, years: seq<YearData>, placed: seq<Entry>, f: nat, s: Session, y: YearData)
    returns (more: seq<Entry>)
    requires At(c, years, placed, f, s) && YearStep(s, c.rid, c.program, c.catalog, y).Ok?
    requires DistinctPayload(years + [y]) && Placed(c, Flat(years), placed, s.live.years)
    ensures
      var u := YearStep(s, c.rid, c.program, c.catalog, y).value;
      && At(c, years + [y], more, if IsNewYear(c.t0, c.rid, y) then |placed| else f, u)
      && Placed(c, Flat(years + [y]), more, u.live.years) && u.live.roadmaps == s.live.roadmaps
  {
    hide Put, IsNewYear, DistinctKeys, DistinctPayload, Flat, YearRow, Placed, SameKeys, SameTail, SeedEntries, KeyedIn, HasKey;
    YearIsUnkeyed(c, years, y);
    YearRowPlaces(c, years, placed, f, s, y);
    var (t, yid) := YearRow(s, YearOf(c.rid, y)).value;
    DesiredIsDistinct(c, years, placed, y, yid, s.live.years);
    SeedEntriesPlaces(c, placed, if IsNewYear(c.t0, c.rid, y) then |placed| else f, t, yid, y.courses);
    more := placed + Desired(c, yid, y.courses);
    AtIsLonger(c, years, placed, f, s);
    PlacedStays(c, years, y, placed, s.live.years, t.live.years, yid);
  }

  lemma AtIsLonger(c: Place, years: seq<YearData>, placed: seq<Entry>, f: nat, s: Session)
    requires At(c, years, placed, f, s)
    ensures |c.t0.years| <= |s.live.years|
  {
  }

  /** After the loops: every course placed, and flushed as far as the last new year. */
  lemma {:induction false} SeedYearsPlaces(c: Place, s: Session, years: seq<YearData>) returns (placed: seq<Entry>)
    requires At(c, [], [], 0, s) && DistinctPayload(years)
    requires SeedYears(s, c.rid, c.program, c.catalog, years).Ok?
    ensures
      var u := SeedYears(s, c.rid, c.program, c.catalog, years).value;
      && At(c, years, placed, Flushed(c.t0, c.rid, years), u)
      && Placed(c, Flat(years), placed, u.live.years) && u.live.roadmaps == s.live.roadmaps
  {
    hide IsNewYear, YearStep, YearsAt, EntriesAt, DistinctPayload;
    placed := [];
    assert Flat([]) == [];
    if years != [] {
      var n := |years| - 1;
      assert years[..n] + [years[n]] == years;
      DistinctFrontPayload(years[..n], years[n]);
      var front := SeedYearsPlaces(c, s, years[..n]);
      placed := YearStepPlaces(c, years[..n], front, Flushed(c.t0, c.rid, years[..n]),
        SeedYears(s, c.rid, c.program, c.catalog, years[..n]).value, years[n]);
    }
  }
}
