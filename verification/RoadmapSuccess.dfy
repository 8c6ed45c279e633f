/** Exactly when a roadmap run over sound tables succeeds. */
module RoadmapSuccess {
  import opened Basics
  import opened Texts
  import opened Upserts
  import opened RoadmapModel
  import opened RoadmapSteps
  import opened RoadmapTheorems
  import opened RoadmapRepeat
  import opened RoadmapOutcomes

  // ---- When a run succeeds ----

  predicate OurRow(t0: Tables, p: Payload, i: int) {
    && 0 <= i < |t0.roadmaps| && t0.roadmaps[i].program == ProgramName(p.program)
    && t0.roadmaps[i].specialization == p.specialization && t0.roadmaps[i].version == p.version
  }

  ghost predicate OneOfOurs(t0: Tables, p: Payload) {
    forall i, j :: OurRow(t0, p, i) && OurRow(t0, p, j) ==> i == j
  }

  predicate IsYearRow(t0: Tables, rid: int, y: YearData, i: int) {
    && 0 <= i < |t0.years| && t0.years[i].Some?
    && t0.years[i].value.roadmap == rid && t0.years[i].value.number == y.number && t0.years[i].value.semester == y.semester
  }

  ghost predicate OneYearRow(t0: Tables, rid: int, y: YearData) {
    forall i, j :: IsYearRow(t0, rid, y, i) && IsYearRow(t0, rid, y, j) ==> i == j
  }

  /** No payload year is there twice, as a year without a semester may be. */
  ghost predicate OneRowPerYear(t0: Tables, p: Payload) {
    forall rid, j :: OurRow(t0, p, rid) && 0 <= j < |p.years| ==> OneYearRow(t0, rid, p.years[j])
  }

  predicate KnownStatuses(y: YearData) {
    forall i :: 0 <= i < |y.courses| ==> y.courses[i].details.status == "existing" || y.courses[i].details.status == "proposed"
  }

  predicate Acceptable(p: Payload) {
    && (exists i :: 0 <= i < |p.program| && !IsSpace(p.program[i]))
    && p.version > 0
    && forall j :: 0 <= j < |p.years| ==>
         p.years[j].number > 0 && p.years[j].semester in {None, Some(1), Some(2)} && KnownStatuses(p.years[j])
  }

  lemma {:induction false} BlankIsStripped(s: string)
    ensures Strip(s) == "" <==> forall i :: 0 <= i < |s| ==> IsSpace(s[i])
  {
    if s != "" {
      var n := |s| - 1;
      if IsSpace(s[0]) {
        BlankIsStripped(s[1..]);
        assert forall i :: 0 < i < |s| ==> s[i] == s[1..][i - 1];
      } else if IsSpace(s[n]) {
        BlankIsStripped(s[..n]);
        assert s[..n][0] == s[0];
      }
    }
  }

  lemma AcceptableIsValid(p: Payload)
    ensures ValidPayload(p) <==> Acceptable(p)
  {
    hide Strip;
    BlankIsStripped(p.program);
    if Acceptable(p) {
      forall j | 0 <= j < |p.years| ensures ValidYear(p.years[j]) {
        assert KnownStatuses(p.years[j]);
      }
    }
    if ValidPayload(p) {
      forall j | 0 <= j < |p.years|
        ensures p.years[j].number > 0 && p.years[j].semester in {None, Some(1), Some(2)} && KnownStatuses(p.years[j])
      {
        assert ValidYear(p.years[j]);
      }
    }
  }

  // ---- The constraints while the rows are put ----

  lemma YearsStaySound(t0: Tables, rid: int, xs: seq<Year>, u: Tables)
    requires SoundYears(t0) && Put(t0.years, YearKey, xs, u.years) && |t0.roadmaps| <= |u.roadmaps| && 0 <= rid < |u.roadmaps|
    requires forall x :: x in xs ==> x.roadmap == rid
    ensures SoundYears(u)
  {
    hide Present, NoRow, KeyedIn, OneRow;
    forall i | 0 <= i < |u.years| && u.years[i].Some? ensures 0 <= u.years[i].value.roadmap < |u.roadmaps| {
      if i < |t0.years| {
        assert OldRow(t0.years, YearKey, xs, u.years, i);
      } else {
        assert NewRow(t0.years, YearKey, xs, u.years, i);
      }
    }
    forall i, j | 0 <= i < j < |u.years| && u.years[i].Some? && u.years[j].Some? && u.years[i].value.semester.Some?
      ensures YearKey(u.years[i].value) != YearKey(u.years[j].value)
    {
      YearKeysStayApart(t0, xs, u.years, i, j);
    }
  }

  lemma YearKeysStayApart(t0: Tables, xs: seq<Year>, rows: seq<Option<Year>>, i: int, j: int)
    requires SoundYears(t0) && Put(t0.years, YearKey, xs, rows)
    requires 0 <= i < j < |rows| && rows[i].Some? && rows[j].Some? && rows[i].value.semester.Some?
    ensures YearKey(rows[i].value) != YearKey(rows[j].value)
  {
    var k := YearKey(rows[i].value);
    if KeyedIn(xs, YearKey, k) {
      var q :| 0 <= q < |xs| && YearKey(xs[q]) == k;
      assert Present(rows, YearKey, xs[q]);
    } else {
      hide SoundYears, Put, KeyedIn;
      OtherKeysKeepRows(t0.years, YearKey, xs, rows, k);
      OneYearBefore(t0, k);
      SameRows(rows, t0.years, YearKey, k);
    }
    assert HasKey(rows, YearKey, k, i);
    assert HasKey(rows, YearKey, k, j) ==> i == j;
  }

  lemma OneYearBefore(t0: Tables, k: (int, int, Option<int>))
    requires SoundYears(t0) && k.2.Some?
    ensures OneRow(t0.years, YearKey, k)
  {
  }

  /** Placed rows are rows of our roadmap, in a year that is there, of a known status. */
  predicate Lodged(placed: seq<Entry>, rid: int, years: seq<Option<Year>>) {
    forall q :: 0 <= q < |placed| ==>
      && placed[q].roadmap == rid && 0 <= placed[q].year < |years| && years[placed[q].year].Some?
      && placed[q].details.status in {"existing", "proposed"}
  }

  lemma EntriesStaySound(t0: Tables, rid: int, xs: seq<Year>, placed: seq<Entry>, u: Tables)
    requires SoundEntries(t0) && Put(t0.entries, EntryKey, placed, u.entries) && Put(t0.years, YearKey, xs, u.years)
    requires |t0.roadmaps| <= |u.roadmaps| && 0 <= rid < |u.roadmaps| && Lodged(placed, rid, u.years)
    ensures SoundEntries(u)
  {
    hide Present, NoRow, KeyedIn, OneRow;
    forall y | 0 <= y < |t0.years| && t0.years[y].Some? ensures u.years[y].Some? {
      assert OldRow(t0.years, YearKey, xs, u.years, y);
    }
    forall i | 0 <= i < |u.entries| && u.entries[i].Some? ensures
      var e := u.entries[i].value;
      && 0 <= e.roadmap < |u.roadmaps| && 0 <= e.year < |u.years| && u.years[e.year].Some?
      && e.details.status in {"existing", "proposed"}
    {
      if i < |t0.entries| {
        assert OldRow(t0.entries, EntryKey, placed, u.entries, i);
      } else {
        assert NewRow(t0.entries, EntryKey, placed, u.entries, i);
      }
    }
    forall i, j | 0 <= i < j < |u.entries| && u.entries[i].Some? && u.entries[j].Some?
      ensures EntryKey(u.entries[i].value) != EntryKey(u.entries[j].value)
    {
      KeysStayApart(t0, placed, u.entries, i, j);
    }
  }

  /** The tables in the middle of the loops, for a roadmap row that is there. */
  ghost predicate Midway(c: Place, years: seq<YearData>, placed: seq<Entry>, f: nat, s: Session) {
    && At(c, years, placed, f, s) && Placed(c, Flat(years), placed, s.live.years) && Lodged(placed, c.rid, s.live.years)
    && SoundYears(c.t0) && SoundEntries(c.t0) && SoundRoadmaps(s.live.roadmaps)
    && |c.t0.roadmaps| <= |s.live.roadmaps| && 0 <= c.rid < |s.live.roadmaps|
  }

  lemma OldYearRow(c: Place, y: YearData)
    ensures OneRow(c.t0.years, YearKey, YearKey(YearOf(c.rid, y))) <==> OneYearRow(c.t0, c.rid, y)
  {
    var k := YearKey(YearOf(c.rid, y));
    assert forall i :: HasKey(c.t0.years, YearKey, k, i) <==> IsYearRow(c.t0, c.rid, y, i);
  }

  /** The year row can be had exactly if it was there at most once. */
  lemma YearRowSucceeds(c: Place, years: seq<YearData>, placed: seq<Entry>, f: nat, s: Session, y: YearData)
    requires Midway(c, years, placed, f, s) && DistinctPayload(years + [y])
    ensures YearRow(s, YearOf(c.rid, y)).Ok? <==> OneYearRow(c.t0, c.rid, y)
  {
    hide Put, NoRow, OneRow, KeyedIn, HasKey, DistinctKeys, YearOf, SoundYears, SoundEntries, SoundRoadmaps, DistinctPayload, Flat,
         Lodged, Placed, EntriesAt;
    var row := YearOf(c.rid, y);
    var k, y0 := YearKey(row), c.t0.years;
    YearIsUnkeyed(c, years, y);
    OldYearRow(c, y);
    YearRowsMean(s.stored.years, k);
    SameKeysSameRows(s.stored.years, s.live.years, k);
    OtherKeysKeepRows(y0, YearKey, YearsOf(c.rid, years), s.live.years, k);
    SameRows(s.stored.years, s.live.years, YearKey, k);
    SameRows(s.live.years, y0, YearKey, k);
    if YearRows(s.stored.years, k) == [] {
      NoneIsOne(y0, k);
      PutOneMore(y0, YearKey, YearsOf(c.rid, years), s.live.years, row, |s.live.years|);
      NewYearIsSound(c, years, placed, f, s, y);
    }
  }

  lemma NoneIsOne(rows: seq<Option<Year>>, k: (int, int, Option<int>))
    requires NoRow(rows, YearKey, k)
    ensures OneRow(rows, YearKey, k)
  {
  }

  lemma NewYearIsSound(c: Place, years: seq<YearData>, placed: seq<Entry>, f: nat, s: Session, y: YearData)
    requires Midway(c, years, placed, f, s)
    requires Put(c.t0.years, YearKey, YearsOf(c.rid, years) + [YearOf(c.rid, y)], s.live.years + [Some(YearOf(c.rid, y))])
    ensures Sound(s.live.(years := s.live.years + [Some(YearOf(c.rid, y))]))
  {
    var u := s.live.(years := s.live.years + [Some(YearOf(c.rid, y))]);
    var xs := YearsOf(c.rid, years) + [YearOf(c.rid, y)];
    assert Lodged(placed, c.rid, u.years);
    assert Put(c.t0.entries, EntryKey, placed, u.entries);
    hide SoundYears, SoundEntries, SoundRoadmaps, Put, Lodged, Placed, At;
    YearsStaySound(c.t0, c.rid, xs, u);
    EntriesStaySound(c.t0, c.rid, xs, placed, u);
  }

  lemma EntryStepAlways(c: Place, placed: seq<Entry>, f: nat, s: Session, e: Entry)
    requires SameShape(s) && EntriesAt(c, placed, f, s) && SoundEntries(c.t0)
    ensures EntryStep(s, e).Ok?
  {
    var k := EntryKey(e);
    EntryRowsMean(s.stored.entries, k);
    if KeyedIn(placed[..f], EntryKey, k) {
      var q :| 0 <= q < |placed[..f]| && EntryKey(placed[..f][q]) == k;
      assert Present(s.stored.entries, EntryKey, placed[..f][q]);
    } else {
      hide Put, KeyedIn, SoundEntries, EntryRows;
      OtherKeysKeepRows(c.t0.entries, EntryKey, placed[..f], s.stored.entries, k);
      OneEntryRow(c.t0, k);
      SameRows(s.stored.entries, c.t0.entries, EntryKey, k);
    }
  }

  lemma {:induction false} SeedEntriesAlways(c: Place, placed: seq<Entry>, f: nat, s: Session, yid: int, courses: seq<CourseData>)
    requires SameShape(s) && EntriesAt(c, placed, f, s) && SoundEntries(c.t0)
    requires DistinctKeys(placed + Desired(c, yid, courses), EntryKey)
    ensures SeedEntries(s, c.rid, yid, c.program, c.catalog, courses).Ok?
  {
    hide EntriesAt, DistinctKeys, EntryStep, EntryOf, SoundEntries;
    if courses != [] {
      var n := |courses| - 1;
      var front, e := Desired(c, yid, courses[..n]), EntryOf(c.rid, yid, c.program, c.catalog, courses[n]);
      assert placed + Desired(c, yid, courses) == placed + front + [e];
      DistinctFront(placed + front, [e]);
      SeedEntriesAlways(c, placed, f, s, yid, courses[..n]);
      SeedEntriesPlaces(c, placed, f, s, yid, courses[..n]);
      var t := SeedEntries(s, c.rid, yid, c.program, c.catalog, courses[..n]).value;
      EntryStepAlways(c, placed + front, f, t, e);
    }
  }

  predicate ValidYears(years: seq<YearData>) {
    forall i :: 0 <= i < |years| ==> ValidYear(years[i])
  }

  lemma PlacedIsLodged(c: Place, years: seq<YearData>, placed: seq<Entry>, rows: seq<Option<Year>>)
    requires Placed(c, Flat(years), placed, rows) && ValidYears(years)
    ensures Lodged(placed, c.rid, rows)
  {
    hide Flat, LinkOf, ValidYear;
    StatusesAreKnown(years);
    assert forall q :: 0 <= q < |placed| ==> PlacedAt(c, Flat(years)[q], placed[q], rows);
  }

  /** One year: it fails exactly if it was there twice, and otherwise the loop goes on. */
  lemma YearStepSucceeds(c: Place, years: seq<YearData>, placed: seq<Entry>, f: nat, s: Session, y: YearData)
    requires Midway(c, years, placed, f, s) && DistinctPayload(years + [y]) && ValidYears(years + [y])
    ensures YearStep(s, c.rid, c.program, c.catalog, y).Ok? <==> OneYearRow(c.t0, c.rid, y)
  {
    YearRowSucceeds(c, years, placed, f, s, y);
    hide YearRow, OneYearRow, SeedEntries, SoundYears, SoundEntries, SoundRoadmaps, Lodged, DistinctPayload, YearOf, Flat, EntriesAt,
         YearsAt, Placed;
    if YearRow(s, YearOf(c.rid, y)).Ok? {
      YearIsUnkeyed(c, years, y);
      YearRowPlaces(c, years, placed, f, s, y);
      var (t, yid) := YearRow(s, YearOf(c.rid, y)).value;
      DesiredIsDistinct(c, years, placed, y, yid, s.live.years);
      SeedEntriesAlways(c, placed, if IsNewYear(c.t0, c.rid, y) then |placed| else f, t, yid, y.courses);
    }
  }

  ghost predicate AllOnce(c: Place, years: seq<YearData>) {
    forall j :: 0 <= j < |years| ==> OneYearRow(c.t0, c.rid, years[j])
  }

  /** The loops over years and courses. */
  lemma {:induction false} SeedYearsExactly(c: Place, s: Session, years: seq<YearData>)
    requires At(c, [], [], 0, s) && DistinctPayload(years) && ValidYears(years)
    requires SoundYears(c.t0) && SoundEntries(c.t0) && SoundRoadmaps(s.live.roadmaps)
    requires |c.t0.roadmaps| <= |s.live.roadmaps| && 0 <= c.rid < |s.live.roadmaps|
    ensures SeedYears(s, c.rid, c.program, c.catalog, years).Ok? <==> AllOnce(c, years)
  {
    hide At, YearStep, OneYearRow, SoundYears, SoundEntries, SoundRoadmaps, DistinctPayload, ValidYear, Placed, Lodged;
    AtShape(c, s);
    if years != [] {
      var n := |years| - 1;
      var front, y := years[..n], years[n];
      assert front + [y] == years;
      DistinctFrontPayload(front, y);
      SeedYearsExactly(c, s, front);
      assert AllOnce(c, years) <==> AllOnce(c, front) && OneYearRow(c.t0, c.rid, y);
      if AllOnce(c, front) {
        var placed := SeedYearsPlaces(c, s, front);
        var t := SeedYears(s, c.rid, c.program, c.catalog, front).value;
        PlacedIsLodged(c, front, placed, t.live.years);
        YearStepSucceeds(c, front, placed, Flushed(c.t0, c.rid, front), t, y);
      }
    }
  }

  lemma AtShape(c: Place, s: Session)
    requires At(c, [], [], 0, s)
    ensures SameShape(s)
  {
  }

  // ---- The last flush ----

  lemma MidwayIsSound(c: Place, years: seq<YearData>, placed: seq<Entry>, f: nat, s: Session)
    requires Midway(c, years, placed, f, s)
    ensures Sound(s.live)
  {
    hide SoundYears, SoundEntries, SoundRoadmaps, Put, Lodged, Placed;
    assert forall x :: x in YearsOf(c.rid, years) ==> x.roadmap == c.rid;
    YearsStaySound(c.t0, c.rid, YearsOf(c.rid, years), s.live);
    EntriesStaySound(c.t0, c.rid, YearsOf(c.rid, years), placed, s.live);
  }

  /** Dropping what the payload no longer has leaves no course without its year. */
  lemma DroppingKeepsSound(c: Place, p: Payload, placed: seq<Entry>, u: Session, t1: Tables)
    requires Ended(c, p, placed, u, t1) && Sound(u.live) && SoundEntries(c.t0)
    ensures Sound(t1)
  {
    DropKeepsYears(u, c.rid, AllCodes(p.years), YearPairs(p.years));
    EntriesOnlyLeave(c, p, placed, u, t1);
    hide Ended, DropLeft, SoundYears, SoundRoadmaps;
    forall i | 0 <= i < |t1.entries| && t1.entries[i].Some?
      ensures 0 <= t1.entries[i].value.year < |t1.years| && t1.years[t1.entries[i].value.year].Some?
    {
      YearIsKept(c, p, placed, u, t1, i);
    }
    OnlyFewer(u.live, t1);
  }

  lemma OnlyFewer(a: Tables, b: Tables)
    requires SoundEntries(a) && |b.entries| == |a.entries| && b.roadmaps == a.roadmaps
    requires forall i :: 0 <= i < |b.entries| && b.entries[i].Some? ==> b.entries[i] == a.entries[i]
    requires forall i :: 0 <= i < |b.entries| && b.entries[i].Some? ==>
      0 <= b.entries[i].value.year < |b.years| && b.years[b.entries[i].value.year].Some?
    ensures SoundEntries(b)
  {
  }

  lemma DropKeepsYears(s: Session, rid: int, codes: set<string>, pairs: set<(int, Option<int>)>)
    requires SameShape(s) && SoundYears(s.live) && SoundRoadmaps(s.live.roadmaps)
    ensures
      var t := DropLeft(s, rid, codes, pairs).live;
      && t.roadmaps == s.live.roadmaps && SoundYears(t) && SoundRoadmaps(t.roadmaps)
  {
    hide EntryLeaves, YearLeaves, SoundRoadmaps;
  }

  lemma YearIsKept(c: Place, p: Payload, placed: seq<Entry>, u: Session, t1: Tables, i: int)
    requires Ended(c, p, placed, u, t1) && SoundEntries(c.t0) && 0 <= i < |t1.entries| && t1.entries[i].Some?
    ensures 0 <= t1.entries[i].value.year < |t1.years| && t1.years[t1.entries[i].value.year].Some?
  {
    hide AllCodes, Flat, Flushed, DistinctPayload, YearPairs, EntryLeaves, Put, EntriesAt, LinkOf, SoundEntries;
    EntryRowEnds(c, p, placed, u, t1, i);
    if t1.entries[i].value.roadmap == c.rid {
      var q :| 0 <= q < |placed| && placed[q] == t1.entries[i].value;
      PlacedAtTheEnd(c, p, placed, u, t1, q);
    } else {
      ForeignIsOld(c, p, placed, u, t1, i);
      OldYearStays(c, p, placed, u, t1, t1.entries[i].value.year);
    }
  }

  lemma ForeignIsOld(c: Place, p: Payload, placed: seq<Entry>, u: Session, t1: Tables, i: int)
    requires Ended(c, p, placed, u, t1) && SoundEntries(c.t0)
    requires 0 <= i < |t1.entries| && t1.entries[i].Some? && t1.entries[i].value.roadmap != c.rid
    ensures i < |c.t0.entries| && t1.entries[i] == c.t0.entries[i]
    ensures var y := t1.entries[i].value.year;
            0 <= y < |c.t0.years| && c.t0.years[y].Some? && !YearGone(c, p, y)
  {
    hide AllCodes, Flat, Flushed, DistinctPayload, YearPairs, EntryLeaves, LinkOf, Present, NoRow, KeyedIn, YearLeaves, DropLeft, YearsAt;
    EntryRowEnds(c, p, placed, u, t1, i);
    EntriesOnlyLeave(c, p, placed, u, t1);
    KeysOfPlaced(c, p, placed, u.live.years);
    assert OldRow(c.t0.entries, EntryKey, placed, u.live.entries, i);
  }

  lemma OldYearStays(c: Place, p: Payload, placed: seq<Entry>, u: Session, t1: Tables, y: int)
    requires Ended(c, p, placed, u, t1) && 0 <= y < |c.t0.years| && c.t0.years[y].Some? && !YearGone(c, p, y)
    ensures y < |t1.years| && t1.years[y].Some?
  {
    hide AllCodes, Flat, Flushed, DistinctPayload, YearPairs, EntryLeaves, LinkOf, Present, NoRow, KeyedIn, EntriesAt, YearLeaves,
         YearGone;
    LeavingYears(c, p, u, y);
    assert OldRow(c.t0.years, YearKey, YearsOf(c.rid, p.years), u.live.years, y);
  }

  // ---- The whole run ----

  lemma OursIsTheRow(t0: Tables, p: Payload)
    ensures |RoadmapRows(t0.roadmaps, p)| <= 1 <==> OneOfOurs(t0, p)
    ensures RoadmapStep(t0, p).Ok? ==>
      var rid := RidOf(t0, p);
      forall i :: OurRow(t0, p, i) <==> i == rid && rid < |t0.roadmaps|
  {
    hide ProgramName, CanonicalProgram, Sound;
    CanonicalIsTheName(p.program);
    var q := RoadmapRows(t0.roadmaps, p);
    assert forall i :: i in q <==> OurRow(t0, p, i);
    assert forall a :: 0 <= a < |q| ==> q[a] in q;
    if OneOfOurs(t0, p) {
      AtMostOne(q);
    }
    if |q| > 1 {
      TwoDiffer(q);
    }
  }

  lemma StepSucceeds(t0: Tables, p: Payload)
    requires Sound(t0) && OneOfOurs(t0, p)
    ensures RoadmapStep(t0, p).Ok? && SoundRoadmaps(Start(t0, p).live.roadmaps)
    ensures |t0.roadmaps| <= |Start(t0, p).live.roadmaps| && 0 <= RidOf(t0, p) < |Start(t0, p).live.roadmaps|
  {
    hide ProgramName, CanonicalProgram, SoundYears, SoundEntries;
    OursIsTheRow(t0, p);
    var q := RoadmapRows(t0.roadmaps, p);
    assert forall a :: 0 <= a < |q| ==> q[a] in q;
    if q == [] {
      var t := t0.(roadmaps := t0.roadmaps + [FreshRoadmap(p)]);
      assert forall i :: 0 <= i < |t0.roadmaps| ==> i !in q;
      MoreRoadmaps(t0, t);
    }
  }

  lemma MoreRoadmaps(t0: Tables, t: Tables)
    requires SoundYears(t0) && SoundEntries(t0)
    requires t.years == t0.years && t.entries == t0.entries && |t0.roadmaps| <= |t.roadmaps|
    ensures SoundYears(t) && SoundEntries(t)
  {
  }

  /**
   Over sound tables a run succeeds if and only if the payload is acceptable, the roadmap's
   version is there at most once, and so is each of the payload's years.
   */
  lemma RunSucceedsExactly(t0: Tables, catalog: Catalog, p: Payload)
    requires Sound(t0) && DistinctPayload(p.years)
    ensures Run(t0, catalog, p).Ok? <==> Acceptable(p) && OneOfOurs(t0, p) && OneRowPerYear(t0, p)
  {
    hide Sound, Acceptable, ValidPayload, OurRow, OneOfOurs, OneRowPerYear, RoadmapStep, RetireOthers, SeedYears, DropLeft,
         DistinctPayload, RidOf;
    AcceptableIsValid(p);
    OursIsTheRow(t0, p);
    RowsAreOne(t0, p);
    if ValidPayload(p) && OneOfOurs(t0, p) {
      StepSucceeds(t0, p);
      LoopsDecide(t0, catalog, p);
    }
  }

  lemma RowsAreOne(t0: Tables, p: Payload)
    ensures RoadmapStep(t0, p).Ok? ==> |RoadmapRows(t0.roadmaps, p)| <= 1
  {
    hide RoadmapRows;
  }

  lemma LoopsDecide(t0: Tables, catalog: Catalog, p: Payload)
    requires Sound(t0) && DistinctPayload(p.years) && ValidPayload(p) && OneOfOurs(t0, p) && RoadmapStep(t0, p).Ok?
    ensures Run(t0, catalog, p).Ok? <==> OneRowPerYear(t0, p)
  {
    var c, s := PlaceOf(t0, catalog, p), Start(t0, p);
    StepSucceeds(t0, p);
    RoadmapStepActivates(t0, p);
    OursIsTheRow(t0, p);
    assert ValidYears(p.years);
    hide CanonicalProgram, RoadmapStep, RetireOthers, SeedYears, DropLeft, DistinctPayload, RidOf, Start, ValidPayload, ValidYear,
         SoundRoadmaps, SoundYears, SoundEntries, At, Activated, OneYearRow, OurRow, OneOfOurs, Placed, Flushed;
    StartIsAt(c, s);
    SeedYearsExactly(c, s, p.years);
    YearsOfOurs(t0, p, c);
    RunAfterStep(t0, catalog, p);
    if AllOnce(c, p.years) {
      var placed := SeedYearsPlaces(c, s, p.years);
      var u := SeedYears(s, c.rid, c.program, c.catalog, p.years).value;
      var f := Flushed(t0, c.rid, p.years);
      PlacedIsLodged(c, p.years, placed, u.live.years);
      MidwayIsSound(c, p.years, placed, f, u);
      DroppingKeepsSound(c, p, placed, u, DropLeft(u, c.rid, AllCodes(p.years), YearPairs(p.years)).live);
    }
  }

  /** Only our row has years that the payload can name. */
  lemma YearsOfOurs(t0: Tables, p: Payload, c: Place)
    requires c.t0 == t0 && SoundYears(t0) && forall i :: OurRow(t0, p, i) <==> i == c.rid && c.rid < |t0.roadmaps|
    ensures AllOnce(c, p.years) <==> OneRowPerYear(t0, p)
  {
    hide OurRow;
    if c.rid >= |t0.roadmaps| {
      forall j | 0 <= j < |p.years| ensures OneYearRow(t0, c.rid, p.years[j]) {
        assert forall i :: !IsYearRow(t0, c.rid, p.years[j], i);
      }
    } else if OneRowPerYear(t0, p) {
      assert OurRow(t0, p, c.rid);
    }
  }

  lemma StartIsAt(c: Place, s: Session)
    requires SameShape(s) && s.stored.years == s.live.years == c.t0.years && s.stored.entries == s.live.entries == c.t0.entries
    ensures At(c, [], [], 0, s)
  {
    NothingPut(c.t0.years, YearKey);
    NothingPut(c.t0.entries, EntryKey);
    assert YearsOf(c.rid, []) == [];
  }

  lemma RunAfterStep(t0: Tables, catalog: Catalog, p: Payload)
    requires ValidPayload(p) && RoadmapStep(t0, p).Ok? && SameShape(Start(t0, p))
    ensures
      var c := PlaceOf(t0, catalog, p);
      var r := SeedYears(Start(t0, p), c.rid, c.program, catalog, p.years);
      Run(t0, catalog, p).Ok? <==> r.Ok? && Sound(DropLeft(r.value, c.rid, AllCodes(p.years), YearPairs(p.years)).live)
  {
    hide Sound, ValidPayload, RoadmapStep, SeedYears, DropLeft;
  }
}
