/** Repeated roadmap runs: a complete roadmap stays as it is, and two runs complete it. */
module RoadmapRepeat {
  import opened Basics
  import opened Texts
  import opened Upserts
  import opened RoadmapModel
  import opened RoadmapSteps
  import opened RoadmapTheorems

  /** Our roadmap is the one row of its version and the only active one of its pair. */
  predicate RoadmapSettled(t: Tables, p: Payload, rid: int) {
    && 0 <= rid < |t.roadmaps| && t.roadmaps[rid] == FreshRoadmap(p)
    && forall i :: 0 <= i < |t.roadmaps| && i != rid && SamePair(t.roadmaps[i], p) ==>
         t.roadmaps[i].version != p.version && t.roadmaps[i].status == Retired
  }

  /** What a run leaves, whether or not it lost a course: nothing that is not the payload's. */
  ghost predicate Cleared(t: Tables, p: Payload, rid: int) {
    && RoadmapSettled(t, p, rid)
    && (forall j :: 0 <= j < |p.years| ==> Present(t.years, YearKey, YearOf(rid, p.years[j])))
    && (forall i :: 0 <= i < |t.years| && t.years[i].Some? && t.years[i].value.roadmap == rid ==>
          (t.years[i].value.number, t.years[i].value.semester) in YearPairs(p.years))
    && (forall i :: 0 <= i < |t.entries| && t.entries[i].Some? && t.entries[i].value.roadmap == rid ==>
          t.entries[i].value.code in AllCodes(p.years))
  }

  /** Nothing of the payload is missing and nothing else is left. */
  ghost predicate Complete(t: Tables, catalog: Catalog, p: Payload, rid: int) {
    var c := Place(t, rid, CanonicalProgram(p.program), catalog);
    && Cleared(t, p, rid)
    && (forall q :: 0 <= q < |Flat(p.years)| ==> Holds(c, t, Flat(p.years)[q]))
  }

  // ---- A run over complete tables ----

  lemma SettledRow(t: Tables, p: Payload, rid: int)
    requires RoadmapSettled(t, p, rid)
    ensures RoadmapRows(t.roadmaps, p) == [rid]
  {
    hide CanonicalProgram;
    var q := RoadmapRows(t.roadmaps, p);
    assert forall i :: i in q <==> i == rid;
    AtMostOne(q);
    assert rid in q;
  }

  lemma NothingToRetire(t: Tables, p: Payload, rid: int)
    requires RoadmapSettled(t, p, rid)
    ensures RetireOthers(Session(t, t), p, rid) == Session(t, t)
  {
    hide CanonicalProgram;
    var again := RetireOthers(Session(t, t), p, rid).live.roadmaps;
    assert forall i :: 0 <= i < |t.roadmaps| ==> again[i] == t.roadmaps[i];
    assert again == t.roadmaps;
  }

  lemma SettledStart(t: Tables, p: Payload, rid: int)
    requires RoadmapSettled(t, p, rid)
    ensures RoadmapStep(t, p) == Ok((Session(t, t), rid)) && RetireOthers(Session(t, t), p, rid) == Session(t, t)
    ensures Start(t, p) == Session(t, t) && RidOf(t, p) == rid
  {
    hide CanonicalProgram, Sound, RoadmapRows, RetireOthers;
    SettledRow(t, p, rid);
    NothingToRetire(t, p, rid);
    assert t.roadmaps[rid := t.roadmaps[rid].(status := Active, path := p.path)] == t.roadmaps;
  }

  lemma EntryStaysPut(c: Place, t: Tables, y: YearData, d: CourseData, yid: int)
    requires SoundEntries(t) && Holds(c, t, (y, d)) && HasKey(t.years, YearKey, YearKey(YearOf(c.rid, y)), yid)
    requires OneRow(t.years, YearKey, YearKey(YearOf(c.rid, y)))
    ensures EntryStep(Session(t, t), EntryOf(c.rid, yid, c.program, c.catalog, d)) == Ok(Session(t, t))
  {
    hide SoundEntries, LinkOf;
    var i :| 0 <= i < |t.entries| && t.entries[i].Some? && PlacedAt(c, (y, d), t.entries[i].value, t.years);
    var e := EntryOf(c.rid, yid, c.program, c.catalog, d);
    assert HasKey(t.years, YearKey, YearKey(YearOf(c.rid, y)), t.entries[i].value.year);
    assert t.entries[i] == Some(e);
    EntryRowsMean(t.entries, EntryKey(e));
    OneEntryRow(t, EntryKey(e));
    var q := EntryRows(t.entries, EntryKey(e));
    assert forall j :: j in q <==> j == i;
    AtMostOne(q);
    assert i in q && q == [i];
    assert t.entries[i := Some(e)] == t.entries;
  }

  lemma {:induction false} EntriesStayPut(c: Place, t: Tables, y: YearData, courses: seq<CourseData>, yid: int)
    requires SoundEntries(t) && HasKey(t.years, YearKey, YearKey(YearOf(c.rid, y)), yid)
    requires OneRow(t.years, YearKey, YearKey(YearOf(c.rid, y)))
    requires forall j :: 0 <= j < |courses| ==> Holds(c, t, (y, courses[j]))
    ensures SeedEntries(Session(t, t), c.rid, yid, c.program, c.catalog, courses) == Ok(Session(t, t))
  {
    hide SoundEntries, LinkOf, OneRow, HasKey, Holds, EntryStep;
    if courses != [] {
      var n := |courses| - 1;
      EntriesStayPut(c, t, y, courses[..n], yid);
      EntryStaysPut(c, t, y, courses[n], yid);
    }
  }

  lemma YearStaysPut(c: Place, t: Tables, y: YearData)
    requires SoundEntries(t) && Present(t.years, YearKey, YearOf(c.rid, y))
    requires forall j :: 0 <= j < |y.courses| ==> Holds(c, t, (y, y.courses[j]))
    ensures YearStep(Session(t, t), c.rid, c.program, c.catalog, y) == Ok(Session(t, t))
  {
    hide SoundEntries, LinkOf, Holds, SeedEntries;
    var row := YearOf(c.rid, y);
    var i :| 0 <= i < |t.years| && t.years[i] == Some(row);
    YearRowsMean(t.years, YearKey(row));
    var q := YearRows(t.years, YearKey(row));
    assert HasKey(t.years, YearKey, YearKey(row), i);
    assert forall j :: j in q <==> j == i;
    AtMostOne(q);
    assert i in q && q == [i];
    assert t.years[i := Some(row)] == t.years;
    EntriesStayPut(c, t, y, y.courses, i);
  }

  lemma {:induction false} YearsStayPut(c: Place, t: Tables, years: seq<YearData>)
    requires SoundEntries(t)
    requires forall j :: 0 <= j < |years| ==> Present(t.years, YearKey, YearOf(c.rid, years[j]))
    requires forall q :: 0 <= q < |Flat(years)| ==> Holds(c, t, Flat(years)[q])
    ensures SeedYears(Session(t, t), c.rid, c.program, c.catalog, years) == Ok(Session(t, t))
  {
    hide SoundEntries, LinkOf, Holds, YearStep, Present;
    if years != [] {
      var n := |years| - 1;
      var front, y := Flat(years[..n]), years[n];
      assert forall q :: 0 <= q < |front| ==> Flat(years)[q] == front[q];
      YearsStayPut(c, t, years[..n]);
      forall j | 0 <= j < |y.courses| ensures Holds(c, t, (y, y.courses[j])) {
        assert Flat(years)[|front| + j] == (y, y.courses[j]);
      }
      YearStaysPut(c, t, y);
    }
  }

  /** Complete tables are a fixed point of the run. */
  lemma CompleteStaysPut(t: Tables, catalog: Catalog, p: Payload, rid: int)
    requires Sound(t) && ValidPayload(p) && Complete(t, catalog, p, rid)
    ensures Run(t, catalog, p) == Ok(t)
  {
    hide SoundEntries, SoundYears, SoundRoadmaps, ValidPayload, CanonicalProgram, RoadmapStep, RetireOthers, Holds, Present, Flat, SeedYears,
         AllCodes;
    SettledStart(t, p, rid);
    YearsStayPut(Place(t, rid, CanonicalProgram(p.program), catalog), t, p.years);
    NothingLeaves(Session(t, t), p, rid);
  }

  lemma NothingLeaves(s: Session, p: Payload, rid: int)
    requires SameShape(s) && s.live.years == s.stored.years
    requires forall i :: 0 <= i < |s.stored.years| && s.stored.years[i].Some? && s.stored.years[i].value.roadmap == rid ==>
               (s.stored.years[i].value.number, s.stored.years[i].value.semester) in YearPairs(p.years)
    requires forall i :: 0 <= i < |s.stored.entries| && s.stored.entries[i].Some? && s.stored.entries[i].value.roadmap == rid ==>
               s.stored.entries[i].value.code in AllCodes(p.years)
    ensures DropLeft(s, rid, AllCodes(p.years), YearPairs(p.years)) == s
  {
    hide AllCodes, YearPairs;
    var u := DropLeft(s, rid, AllCodes(p.years), YearPairs(p.years)).live;
    assert forall i :: 0 <= i < |s.live.years| ==> u.years[i] == s.live.years[i];
    assert forall i :: 0 <= i < |s.live.entries| ==> u.entries[i] == s.live.entries[i];
    assert u.years == s.live.years && u.entries == s.live.entries;
  }

  // ---- Reaching completeness ----

  lemma VersionIsUnique(t0: Tables, p: Payload, i: int)
    requires RoadmapStep(t0, p).Ok? && 0 <= i < |t0.roadmaps| && i != RidOf(t0, p) && SamePair(t0.roadmaps[i], p)
    ensures t0.roadmaps[i].version != p.version
  {
    hide CanonicalProgram, SoundEntries, SoundYears, SoundRoadmaps;
    var q := RoadmapRows(t0.roadmaps, p);
    assert i in q <==> t0.roadmaps[i].version == p.version;
    assert |q| <= 1;
    assert i in q ==> q == [i];
  }

  lemma RoadmapSettles(t0: Tables, catalog: Catalog, p: Payload)
    requires DistinctPayload(p.years) && Run(t0, catalog, p).Ok?
    ensures RoadmapSettled(Run(t0, catalog, p).value, p, RidOf(t0, p))
  {
    hide Run, DistinctPayload, CanonicalProgram, RoadmapStep, RidOf;
    RunUnfolds(t0, catalog, p);
    OneActiveRoadmap(t0, catalog, p);
    var t1, rid := Run(t0, catalog, p).value, RidOf(t0, p);
    forall i | 0 <= i < |t1.roadmaps| && i != rid && SamePair(t1.roadmaps[i], p)
      ensures t1.roadmaps[i].version != p.version && t1.roadmaps[i].status == Retired
    {
      assert t1.roadmaps[i].status == Active || t1.roadmaps[i].status == Retired;
      VersionIsUnique(t0, p, i);
    }
  }

  ghost predicate NothingLost(t0: Tables, catalog: Catalog, p: Payload) {
    forall q :: 0 <= q < |Flat(p.years)| ==> !LostAt(PlaceOf(t0, catalog, p), p, q)
  }

  lemma HoldsAnywhere(c: Place, d: Place, t: Tables, f: (YearData, CourseData))
    requires c.rid == d.rid && c.program == d.program && c.catalog == d.catalog && Holds(c, t, f)
    ensures Holds(d, t, f)
  {
    hide LinkOf;
    var i :| 0 <= i < |t.entries| && t.entries[i].Some? && PlacedAt(c, f, t.entries[i].value, t.years);
    assert PlacedAt(d, f, t.entries[i].value, t.years);
  }

  lemma CodeOfPayload(c: Place, p: Payload, t: Tables, e: Entry)
    requires OfPayload(c, p, t, e)
    ensures e.code in AllCodes(p.years)
  {
    hide Flat, LinkOf, AllCodes;
    CodesOfFlat(p.years);
  }

  lemma RunClears(t0: Tables, catalog: Catalog, p: Payload)
    requires DistinctPayload(p.years) && Run(t0, catalog, p).Ok?
    ensures Sound(Run(t0, catalog, p).value) && ValidPayload(p)
    ensures Cleared(Run(t0, catalog, p).value, p, RidOf(t0, p))
  {
    hide Run, Sound, ValidPayload, Flat, DistinctPayload, RidOf, AllCodes, YearPairs, OfPayload, CanonicalProgram, RoadmapSettled,
         Present, YearsOf;
    RunUnfolds(t0, catalog, p);
    RoadmapSettles(t0, catalog, p);
    OnlyThePayloadRemains(t0, catalog, p);
    var t1, rid, c := Run(t0, catalog, p).value, RidOf(t0, p), PlaceOf(t0, catalog, p);
    forall i | 0 <= i < |t1.entries| && t1.entries[i].Some? && t1.entries[i].value.roadmap == rid
      ensures t1.entries[i].value.code in AllCodes(p.years)
    {
      CodeOfPayload(c, p, t1, t1.entries[i].value);
    }
    forall i | 0 <= i < |t1.years| && t1.years[i].Some? && t1.years[i].value.roadmap == rid
      ensures (t1.years[i].value.number, t1.years[i].value.semester) in YearPairs(p.years)
    {
      FromPayload(c, p, t1.years[i].value);
    }
  }

  /** A run that loses no course completes the roadmap. */
  lemma CompleteUnlessLost(t0: Tables, catalog: Catalog, p: Payload)
    requires Sound(t0) && DistinctPayload(p.years) && Run(t0, catalog, p).Ok? && NothingLost(t0, catalog, p)
    ensures Complete(Run(t0, catalog, p).value, catalog, p, RidOf(t0, p))
    ensures Sound(Run(t0, catalog, p).value) && ValidPayload(p)
  {
    hide Run, Sound, ValidPayload, Flat, DistinctPayload, LostAt, RidOf, Holds, CanonicalProgram, Cleared;
    RunClears(t0, catalog, p);
    var t1, rid := Run(t0, catalog, p).value, RidOf(t0, p);
    var c, d := PlaceOf(t0, catalog, p), Place(t1, rid, CanonicalProgram(p.program), catalog);
    forall q | 0 <= q < |Flat(p.years)| ensures Holds(d, t1, Flat(p.years)[q]) {
      CoursesUnlessLost(t0, catalog, p, q);
      HoldsAnywhere(c, d, t1, Flat(p.years)[q]);
    }
  }

  /** If no course is lost, seeding once more changes nothing. */
  lemma SecondRunChangesNothing(t0: Tables, catalog: Catalog, p: Payload)
    requires Sound(t0) && DistinctPayload(p.years) && Run(t0, catalog, p).Ok? && NothingLost(t0, catalog, p)
    ensures Run(Run(t0, catalog, p).value, catalog, p) == Run(t0, catalog, p)
  {
    hide Run, Sound, Complete, NothingLost, DistinctPayload, ValidPayload;
    CompleteUnlessLost(t0, catalog, p);
    CompleteStaysPut(Run(t0, catalog, p).value, catalog, p, RidOf(t0, p));
  }

  // ---- The run after a run cannot fail ----

  /** Only entries differ between what is stored and what the objects say. */
  predicate OnlyEntriesMove(s: Session, t: Tables) {
    SameShape(s) && s.stored == t && s.live.roadmaps == t.roadmaps && s.live.years == t.years
  }

  lemma EntryStepSucceeds(s: Session, t: Tables, e: Entry)
    requires OnlyEntriesMove(s, t) && SoundEntries(t)
    ensures EntryStep(s, e).Ok? && OnlyEntriesMove(EntryStep(s, e).value, t)
  {
    hide SoundEntries;
    EntryRowsMean(t.entries, EntryKey(e));
    OneEntryRow(t, EntryKey(e));
    AtMostOne(EntryRows(t.entries, EntryKey(e)));
  }

  lemma {:induction false} SeedEntriesSucceeds(c: Place, s: Session, t: Tables, yid: int, courses: seq<CourseData>)
    requires OnlyEntriesMove(s, t) && SoundEntries(t)
    ensures SeedEntries(s, c.rid, yid, c.program, c.catalog, courses).Ok?
    ensures OnlyEntriesMove(SeedEntries(s, c.rid, yid, c.program, c.catalog, courses).value, t)
  {
    hide SoundEntries, EntryStep, EntryOf, OnlyEntriesMove;
    ShapeOnly(s, t);
    if courses != [] {
      var n := |courses| - 1;
      SeedEntriesSucceeds(c, s, t, yid, courses[..n]);
      ShapeOnly(SeedEntries(s, c.rid, yid, c.program, c.catalog, courses[..n]).value, t);
      EntryStepSucceeds(SeedEntries(s, c.rid, yid, c.program, c.catalog, courses[..n]).value, t,
        EntryOf(c.rid, yid, c.program, c.catalog, courses[n]));
    }
  }

  lemma ShapeOnly(s: Session, t: Tables)
    requires OnlyEntriesMove(s, t)
    ensures SameShape(s) && s.stored.years == s.live.years == t.years
  {
  }

  lemma YearIsFound(s: Session, row: Year)
    requires SameShape(s) && s.stored.years == s.live.years && Present(s.live.years, YearKey, row)
    ensures YearRow(s, row).Ok? && YearRow(s, row).value.0 == s
  {
    hide Sound;
    var rows := s.live.years;
    var i :| 0 <= i < |rows| && rows[i] == Some(row);
    YearRowsMean(rows, YearKey(row));
    var q := YearRows(rows, YearKey(row));
    assert HasKey(rows, YearKey, YearKey(row), i);
    assert forall j :: j in q <==> j == i;
    AtMostOne(q);
    assert i in q && q == [i];
    assert rows[i := Some(row)] == rows;
  }

  lemma {:induction false} SeedYearsSucceeds(c: Place, t: Tables, years: seq<YearData>)
    requires SoundEntries(t)
    requires forall j :: 0 <= j < |years| ==> Present(t.years, YearKey, YearOf(c.rid, years[j]))
    ensures SeedYears(Session(t, t), c.rid, c.program, c.catalog, years).Ok?
    ensures OnlyEntriesMove(SeedYears(Session(t, t), c.rid, c.program, c.catalog, years).value, t)
  {
    hide SoundEntries, Present, YearRow, SeedEntries, YearOf, OnlyEntriesMove;
    if years == [] {
      assert OnlyEntriesMove(Session(t, t), t) by { NothingMoves(t); }
    } else {
      var n := |years| - 1;
      SeedYearsSucceeds(c, t, years[..n]);
      var s := SeedYears(Session(t, t), c.rid, c.program, c.catalog, years[..n]).value;
      ShapeOnly(s, t);
      YearIsFound(s, YearOf(c.rid, years[n]));
      SeedEntriesSucceeds(c, s, t, YearRow(s, YearOf(c.rid, years[n])).value.1, years[n].courses);
    }
  }

  lemma NothingMoves(t: Tables)
    ensures OnlyEntriesMove(Session(t, t), t)
  {
  }

  /** Every course of a valid payload has a status the schema knows. */
  lemma {:induction false} StatusesAreKnown(years: seq<YearData>)
    requires forall i :: 0 <= i < |years| ==> ValidYear(years[i])
    ensures forall q :: 0 <= q < |Flat(years)| ==> Flat(years)[q].1.details.status in {"existing", "proposed"}
  {
    if years != [] {
      StatusesAreKnown(years[..|years| - 1]);
    }
  }

  /** The entries as placed meet the schema's constraints. */
  lemma PlacedEntriesAreSound(c: Place, p: Payload, placed: seq<Entry>, f: nat, u: Session)
    requires Sound(c.t0) && OnlyEntriesMove(u, c.t0) && ValidPayload(p) && 0 <= c.rid < |c.t0.roadmaps|
    requires EntriesAt(c, placed, f, u) && Placed(c, Flat(p.years), placed, u.live.years)
    ensures SoundEntries(u.live)
  {
    hide SoundYears, SoundRoadmaps, Flat, LinkOf, DistinctKeys, Present, NoRow, SameTail, ValidYear;
    StatusesAreKnown(p.years);
    var e0, rows := c.t0.entries, u.live.entries;
    forall i | 0 <= i < |rows| && rows[i].Some? ensures
      var e := rows[i].value;
      && 0 <= e.roadmap < |u.live.roadmaps| && 0 <= e.year < |u.live.years| && u.live.years[e.year].Some?
      && e.details.status in {"existing", "proposed"}
    {
      if i < |e0| {
        assert OldRow(e0, EntryKey, placed, rows, i);
      } else {
        assert NewRow(e0, EntryKey, placed, rows, i);
      }
      if rows[i].value in placed {
        var q :| 0 <= q < |placed| && placed[q] == rows[i].value;
        assert PlacedAt(c, Flat(p.years)[q], placed[q], u.live.years);
      }
    }
    forall i, j | 0 <= i < j < |rows| && rows[i].Some? && rows[j].Some?
      ensures EntryKey(rows[i].value) != EntryKey(rows[j].value)
    {
      KeysStayApart(c.t0, placed, rows, i, j);
    }
  }

  lemma KeysStayApart(t0: Tables, placed: seq<Entry>, rows: seq<Option<Entry>>, i: int, j: int)
    requires SoundEntries(t0) && Put(t0.entries, EntryKey, placed, rows)
    requires 0 <= i < j < |rows| && rows[i].Some? && rows[j].Some?
    ensures EntryKey(rows[i].value) != EntryKey(rows[j].value)
  {
    var k := EntryKey(rows[i].value);
    if KeyedIn(placed, EntryKey, k) {
      var q :| 0 <= q < |placed| && EntryKey(placed[q]) == k;
      assert Present(rows, EntryKey, placed[q]);
    } else {
      hide SoundEntries, Put, KeyedIn;
      OtherKeysKeepRows(t0.entries, EntryKey, placed, rows, k);
      OneEntryRow(t0, k);
      SameRows(rows, t0.entries, EntryKey, k);
    }
    assert OneRow(rows, EntryKey, k);
    assert HasKey(rows, EntryKey, k, i);
    assert HasKey(rows, EntryKey, k, j) ==> i == j;
  }

  /** Over cleared tables the run finds its row and its years, and no constraint can refuse it. */
  lemma ClearedRunSucceeds(t: Tables, catalog: Catalog, p: Payload, rid: int)
    requires Sound(t) && ValidPayload(p) && DistinctPayload(p.years) && Cleared(t, p, rid)
    ensures Run(t, catalog, p).Ok? && RidOf(t, p) == rid
  {
    hide SoundYears, SoundRoadmaps, SoundEntries, ValidPayload, Flat, DistinctPayload, AllCodes, YearPairs, CanonicalProgram, Present,
         RoadmapStep, RetireOthers, SeedYears, Placed, At, DropLeft, Flushed;
    SettledStart(t, p, rid);
    var c := Place(t, rid, CanonicalProgram(p.program), catalog);
    SeedYearsSucceeds(c, t, p.years);
    var u := SeedYears(Session(t, t), c.rid, c.program, c.catalog, p.years).value;
    StartsAt(c);
    var placed := SeedYearsPlaces(c, Session(t, t), p.years);
    EntriesOf(c, p.years, placed, Flushed(t, rid, p.years), u);
    PlacedEntriesAreSound(c, p, placed, Flushed(t, rid, p.years), u);
    NothingLeaves(u, p, rid);
    SoundButForEntries(t, u.live);
  }

  lemma StartsAt(c: Place)
    ensures At(c, [], [], 0, Session(c.t0, c.t0))
  {
    NothingPut(c.t0.years, YearKey);
    NothingPut(c.t0.entries, EntryKey);
    assert YearsOf(c.rid, []) == [];
  }

  lemma EntriesOf(c: Place, years: seq<YearData>, placed: seq<Entry>, f: nat, u: Session)
    requires At(c, years, placed, f, u)
    ensures EntriesAt(c, placed, f, u)
  {
  }

  lemma SoundButForEntries(t: Tables, u: Tables)
    requires Sound(t) && u.roadmaps == t.roadmaps && u.years == t.years && SoundEntries(u)
    ensures Sound(u)
  {
    hide SoundEntries, SoundRoadmaps;
  }

  /**
   After any run the next one succeeds, loses no course and completes the roadmap, and a
   third changes nothing.
   */
  lemma TwoRunsComplete(t0: Tables, catalog: Catalog, p: Payload)
    requires DistinctPayload(p.years) && Run(t0, catalog, p).Ok?
    ensures
      var t1 := Run(t0, catalog, p).value;
      && NothingLost(t1, catalog, p) && Run(t1, catalog, p).Ok?
      && Complete(Run(t1, catalog, p).value, catalog, p, RidOf(t0, p))
      && Run(Run(t1, catalog, p).value, catalog, p) == Run(t1, catalog, p)
  {
    hide Run, Sound, Complete, DistinctPayload, ValidPayload, Flat, YearPairs, RoadmapSettled, RidOf, Present, Flushed, AllCodes;
    RunClears(t0, catalog, p);
    var t1, rid := Run(t0, catalog, p).value, RidOf(t0, p);
    ClearedRunSucceeds(t1, catalog, p, rid);
    var d := PlaceOf(t1, catalog, p);
    assert forall y :: !YearGone(d, p, y);
    assert NothingLost(t1, catalog, p);
    CompleteUnlessLost(t1, catalog, p);
    SecondRunChangesNothing(t1, catalog, p);
  }

  /** Seeding once more changes nothing if and only if the first run lost no course. */
  lemma IdempotentExactlyWhenNothingLost(t0: Tables, catalog: Catalog, p: Payload)
    requires Sound(t0) && DistinctPayload(p.years) && Run(t0, catalog, p).Ok?
    ensures Run(Run(t0, catalog, p).value, catalog, p) == Run(t0, catalog, p) <==> NothingLost(t0, catalog, p)
  {
    hide Run, Sound, DistinctPayload, Flat, LostAt, RidOf, RoadmapSettled, Present, Holds, AllCodes, YearPairs;
    if NothingLost(t0, catalog, p) {
      SecondRunChangesNothing(t0, catalog, p);
    }
    if Run(Run(t0, catalog, p).value, catalog, p) == Run(t0, catalog, p) {
      TwoRunsComplete(t0, catalog, p);
      var t1, rid := Run(t0, catalog, p).value, RidOf(t0, p);
      forall q | 0 <= q < |Flat(p.years)| ensures !LostAt(PlaceOf(t0, catalog, p), p, q) {
        HoldsAnywhere(Place(t1, rid, CanonicalProgram(p.program), catalog), PlaceOf(t0, catalog, p), t1, Flat(p.years)[q]);
        CoursesUnlessLost(t0, catalog, p, q);
      }
    }
  }

  // ---- A course that is lost ----

  function Proposed(): Details {
    Details("T", "proposed", None, None, None, None, None)
  }

  /** One course, kept in year 1; the payload has it in year 2 and no year 1. */
  function Moved(): Tables {
    Tables([Roadmap("X", None, 1, Active, None)],
           [Some(Year(0, 1, None, None, None)), Some(Year(0, 2, None, None, None))],
           [Some(Entry(0, 0, "C", None, Proposed()))])
  }

  function MovedPayload(): Payload {
    Payload("X", None, 1, None, [YearData(2, None, None, None, [CourseData("C", Proposed())])])
  }

  lemma MovedName()
    ensures CanonicalProgram("X") == "X" && Strip("X") == "X"
  {
    assert Strip("X") == "X" && Upper("X") == "X";
  }

  lemma MovedYear()
    ensures YearRow(Session(Moved(), Moved()), YearOf(0, MovedPayload().years[0])) == Ok((Session(Moved(), Moved()), 1))
  {
    hide Sound, YearRows;
    var t, y := Moved(), MovedPayload().years[0];
    var q := YearRows(t.years, YearKey(YearOf(0, y)));
    YearRowsMean(t.years, YearKey(YearOf(0, y)));
    assert HasKey(t.years, YearKey, YearKey(YearOf(0, y)), 1);
    assert OneRow(t.years, YearKey, YearKey(YearOf(0, y)));
    assert 1 in q && q == [1];
    assert t.years[1 := Some(YearOf(0, y))] == t.years;
  }

  lemma MovedEntry()
    ensures
      var t, e := Moved(), Entry(0, 1, "C", None, Proposed());
      EntryStep(Session(t, t), e) == Ok(Session(t, t.(entries := [Some(e)])))
  {
    hide EntryRows;
    var t, e := Moved(), Entry(0, 1, "C", None, Proposed());
    var r := EntryRows(t.entries, EntryKey(e));
    EntryRowsMean(t.entries, EntryKey(e));
    assert HasKey(t.entries, EntryKey, EntryKey(e), 0);
    assert OneRow(t.entries, EntryKey, EntryKey(e));
    assert 0 in r && r == [0];
    assert t.entries[0 := Some(e)] == [Some(e)];
  }

  lemma MovedLoops()
    ensures
      var t, moved := Moved(), Some(Entry(0, 1, "C", None, Proposed()));
      SeedYears(Session(t, t), 0, "X", map[], MovedPayload().years) == Ok(Session(t, t.(entries := [moved])))
  {
    hide Sound, YearRow, EntryStep;
    var t, y := Moved(), MovedPayload().years[0];
    var s := Session(t, t);
    MovedYear();
    MovedEntry();
    assert y.courses[..0] == [];
    assert SeedEntries(s, 0, 1, "X", map[], y.courses[..0]) == Ok(s);
    assert EntryOf(0, 1, "X", map[], y.courses[0]) == Entry(0, 1, "C", None, Proposed());
    assert MovedPayload().years[..0] == [];
  }

  /** A course moved out of a year the payload drops is deleted, not moved. */
  lemma AMovedCourseIsLost()
    ensures Run(Moved(), map[], MovedPayload()) == Ok(Moved().(years := [None, Moved().years[1]], entries := [None]))
  {
    hide SeedYears, CanonicalProgram, SoundEntries, SoundYears, SoundRoadmaps;
    var t, p := Moved(), MovedPayload();
    MovedLoops();
    MovedName();
    assert ValidPayload(p);
    SettledStart(t, p, 0);
    var u := Session(t, t.(entries := [Some(Entry(0, 1, "C", None, Proposed()))]));
    var gone := t.(years := [None, t.years[1]], entries := [None]);
    assert YearPairs(p.years) == {(2, None)} by {
      assert (p.years[0].number, p.years[0].semester) == (2, None);
    }
    assert YearLeaves(t.years, 0, YearPairs(p.years), 0) && !YearLeaves(t.years, 0, YearPairs(p.years), 1);
    var left := DropLeft(u, 0, AllCodes(p.years), YearPairs(p.years));
    assert left.live.years == gone.years && left.live.entries == gone.entries;
    EmptySound(gone);
  }

  lemma EmptySound(t: Tables)
    requires |t.roadmaps| == 1 && |t.years| == 2 && t.years[0].None? && t.years[1].Some? && t.years[1].value.roadmap == 0
    requires t.entries == [None]
    ensures Sound(t)
  {
  }
}
