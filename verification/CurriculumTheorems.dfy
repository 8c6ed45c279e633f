/**
 Whole seeding runs: what a run leaves alone, exactly what it writes when no row stands for
 two payload codes, and when every payload code ends with a row that goes by it.
 */
module CurriculumTheorems {
  import opened Basics
  import opened CurriculumModel
  import opened CurriculumObjectives
  import opened CurriculumCourses

  predicate DistinctCourses(data: seq<CourseData>) {
    && (forall i :: 0 <= i < |data| ==> DistinctLevels(data[i].levels))
    && (forall i, j :: 0 <= i < j < |data| ==> data[i].code != data[j].code)
  }

  predicate PayloadOk(p: Payload) {
    DistinctCodes(p.objectives) && DistinctCourses(p.courses)
  }

  // ---- All courses, exactly ----

  function RowWas(t0: Tables, d: CourseData, k: int): Course {
    if 0 <= k < |t0.courses| then t0.courses[k] else FreshCourse(d)
  }

  /** Course row `k` after the run: corrected or new, its version raised if its cells changed. */
  ghost predicate Seeded(t0: Tables, t: Tables, ids: map<string, int>, known: set<string>, d: CourseData, k: int)
    requires IdsIn(ids, t.objectives)
  {
    var row := RowWas(t0, d, k);
    && 0 <= k < |t.courses|
    && row.code == d.code && IsAlias(row.program)
    && t.courses[k] == Bumped(CorrectedCourse(row, d), if k >= |t0.courses| || SameRow(t0.cells, t.cells, k) then 0 else 1)
    && (if row.mapped then SameRow(t0.cells, t.cells, k)
        else CourseCells(t0.cells, t.cells, t.objectives, ids, known, k, Canonical(d.levels)))
  }

  ghost predicate Untouched(t0: Tables, t: Tables, k: int) {
    0 <= k < |t0.courses| && k < |t.courses| && t.courses[k] == t0.courses[k] && SameRow(t0.cells, t.cells, k)
  }

  ghost predicate HasSeeded(t0: Tables, t: Tables, ids: map<string, int>, known: set<string>, d: CourseData)
    requires IdsIn(ids, t.objectives)
  {
    exists k :: Seeded(t0, t, ids, known, d, k)
  }

  predicate CellsWithin(t: Tables) {
    forall key :: key in t.cells ==> 0 <= key.0 < |t.courses|
  }

  ghost predicate CoursesSeeded(
    t0: Tables, t: Tables, ids: map<string, int>, known: set<string>, data: seq<CourseData>)
    requires IdsIn(ids, t.objectives)
  {
    && |t0.courses| <= |t.courses| && CellsWithin(t0) && CellsWithin(t)
    && (forall k :: 0 <= k < |t.courses| && Unlisted(data, t.courses[k].code) ==> Untouched(t0, t, k))
    && (forall j :: 0 <= j < |data| ==> HasSeeded(t0, t, ids, known, data[j]))
  }

  lemma CourseCellsCarryOver(
    a: Cells, b: Cells, c: Cells, d: Cells, objs: seq<Objective>, ids: map<string, int>, known: set<string>, k: int,
    levels: Levels)
    requires IdsIn(ids, objs) && CourseCells(b, c, objs, ids, known, k, levels)
    requires SameRow(a, b, k) && SameRow(c, d, k)
    ensures CourseCells(a, d, objs, ids, known, k, levels)
  {
    hide Wanted, Stale, IsAlias;
    forall o ensures SameAt(a, b, (k, o)) && SameAt(c, d, (k, o)) {
    }
    assert LevelsPut(d, objs, ids, k, levels) by {
      forall j | 0 <= j < |levels| && IsAlias(objs[ids[levels[j].0]].program)
        ensures (k, ids[levels[j].0]) in d && d[(k, ids[levels[j].0])] == levels[j].1
      {
        assert SameAt(c, d, (k, ids[levels[j].0]));
      }
    }
    forall o | !Wanted(objs, ids, levels, o)
      ensures if Stale(objs, o, known, levels) then (k, o) !in d else SameAt(a, d, (k, o))
    {
      assert SameAt(a, b, (k, o)) && SameAt(c, d, (k, o));
    }
  }

  lemma SameRowReflexive(a: Cells, k: int)
    ensures SameRow(a, a, k)
  {
  }

  lemma SameRowFlips(a: Cells, b: Cells, k: int)
    requires SameRow(a, b, k)
    ensures SameRow(b, a, k)
  {
    forall o ensures SameAt(b, a, (k, o)) {
      assert SameAt(a, b, (k, o));
    }
  }

  lemma SameRowMoves(a: Cells, b: Cells, c: Cells, k: int)
    requires SameRow(b, c, k)
    ensures SameRow(a, b, k) <==> SameRow(a, c, k)
  {
    hide SameRow;
    SameRowFlips(b, c, k);
    if SameRow(a, b, k) {
      SameRowComposes(a, b, c, k);
    }
    if SameRow(a, c, k) {
      SameRowComposes(a, c, b, k);
    }
  }

  /** Work on other courses does not disturb a seeded one. */
  lemma SeededStays(
    t0: Tables, t: Tables, u: Tables, ids: map<string, int>, known: set<string>, d: CourseData, k: int)
    requires IdsIn(ids, t.objectives) && Seeded(t0, t, ids, known, d, k)
    requires u.objectives == t.objectives && k < |u.courses| && u.courses[k] == t.courses[k]
    requires SameRow(t.cells, u.cells, k)
    ensures Seeded(t0, u, ids, known, d, k)
  {
    hide SameRow, CourseCells, IsAlias;
    SameRowReflexive(t0.cells, k);
    SameRowMoves(t0.cells, t.cells, u.cells, k);
    if !RowWas(t0, d, k).mapped {
      CourseCellsCarryOver(t0.cells, t0.cells, t.cells, u.cells, t.objectives, ids, known, k, Canonical(d.levels));
    }
  }

  lemma NoRowYet(t0: Tables, t: Tables, k: int)
    requires CellsWithin(t0) && CellsWithin(t) && k >= |t.courses| >= |t0.courses|
    ensures SameRow(t0.cells, t.cells, k)
  {
  }

  /** The row a step works on has not been worked on before in the run. */
  lemma StepSeeds(
    t0: Tables, s: Session, ids: map<string, int>, known: set<string>, data: seq<CourseData>, d: CourseData)
    requires CourseShape(s) && Bears(s.live.objectives, ids, known) && DistinctLevels(d.levels)
    requires CourseStep(s, ids, known, d).Ok? && CoursesSeeded(t0, s.live, ids, known, data) && Unlisted(data, d.code)
    ensures Seeded(t0, CourseStep(s, ids, known, d).value.live, ids, known, d, RowFor(s, d))
  {
    hide CourseStep, OthersSame, ForeignSame, SameRow, Unlisted, RowFor, SoundCourses, CourseCells, Bears, HasSeeded, CellsWithin,
         DistinctLevels;
    RowForFinds(s, d);
    BearsAreIn(s.live.objectives, ids, known);
    CourseStepFrame(s, ids, known, d);
    var u, n := CourseStep(s, ids, known, d).value, RowFor(s, d);
    if n == |s.live.courses| {
      NoRowYet(t0, s.live, n);
    }
    assert n < |s.live.courses| ==> Untouched(t0, s.live, n);
    assert SameRow(t0.cells, s.live.cells, n);
    SameRowStarts(t0.cells, s.live.cells, u.live.cells, n);
    if RowBefore(s, d).mapped {
      SameRowReflexive(u.live.cells, n);
    } else {
      CourseStepSettles(s, ids, known, d);
      SameRowReflexive(u.live.cells, n);
      CourseCellsCarryOver(t0.cells, s.live.cells, u.live.cells, u.live.cells, s.live.objectives, ids, known, n, Canonical(d.levels));
    }
  }

  lemma SameRowStarts(a: Cells, b: Cells, c: Cells, k: int)
    requires SameRow(a, b, k)
    ensures SameRow(a, c, k) <==> SameRow(b, c, k)
  {
    hide SameRow;
    SameRowFlips(a, b, k);
    if SameRow(a, c, k) {
      SameRowComposes(b, a, c, k);
    }
    if SameRow(b, c, k) {
      SameRowComposes(a, b, c, k);
    }
  }

  lemma BearsAreIn(objs: seq<Objective>, ids: map<string, int>, known: set<string>)
    requires Bears(objs, ids, known)
    ensures IdsIn(ids, objs)
  {
  }

  lemma CellsStayWithin(t: Tables, u: Tables, k: int)
    requires CellsWithin(t) && OthersSame(t.cells, u.cells, k) && 0 <= k < |u.courses| && |t.courses| <= |u.courses|
    ensures CellsWithin(u)
  {
    forall key | key in u.cells ensures 0 <= key.0 < |u.courses| {
      assert key.0 != k ==> SameAt(t.cells, u.cells, key);
    }
  }

  lemma StepSpares(
    t0: Tables, s: Session, ids: map<string, int>, known: set<string>, data: seq<CourseData>, d: CourseData, k: int)
    requires CourseShape(s) && Bears(s.live.objectives, ids, known)
    requires CourseStep(s, ids, known, d).Ok? && CoursesSeeded(t0, s.live, ids, known, data)
    requires 0 <= k < |CourseStep(s, ids, known, d).value.live.courses|
    requires Unlisted(data + [d], CourseStep(s, ids, known, d).value.live.courses[k].code)
    ensures Untouched(t0, CourseStep(s, ids, known, d).value.live, k)
  {
    hide CourseStep, OthersSame, ForeignSame, SameRow, Unlisted, RowFor, SoundCourses, CourseCells, Bears, HasSeeded, CellsWithin;
    RowForFinds(s, d);
    BearsAreIn(s.live.objectives, ids, known);
    CourseStepFrame(s, ids, known, d);
    var u, n := CourseStep(s, ids, known, d).value, RowFor(s, d);
    UnlistedShrinks(data, d, u.live.courses[k].code);
    assert RowBefore(s, d).code == d.code;
    assert k != n;
    assert Untouched(t0, s.live, k);
    OthersKeepTheirRow(s.live.cells, u.live.cells, n, k);
    SameRowComposes(t0.cells, s.live.cells, u.live.cells, k);
  }

  lemma StepKeepsSeeded(
    t0: Tables, s: Session, ids: map<string, int>, known: set<string>, d: CourseData, e: CourseData)
    requires CourseShape(s) && IdsIn(ids, s.live.objectives)
    requires CourseStep(s, ids, known, d).Ok? && HasSeeded(t0, s.live, ids, known, e) && e.code != d.code
    ensures HasSeeded(t0, CourseStep(s, ids, known, d).value.live, ids, known, e)
  {
    hide CourseStep, OthersSame, ForeignSame, SameRow, RowFor, SoundCourses, CourseCells, IdsIn;
    RowForFinds(s, d);
    CourseStepFrame(s, ids, known, d);
    var u, n := CourseStep(s, ids, known, d).value, RowFor(s, d);
    var k :| Seeded(t0, s.live, ids, known, e, k);
    assert s.live.courses[k].code == e.code;
    OthersKeepTheirRow(s.live.cells, u.live.cells, n, k);
    SeededStays(t0, s.live, u.live, ids, known, e, k);
  }

  lemma CourseStepIsExact(
    t0: Tables, s: Session, ids: map<string, int>, known: set<string>, data: seq<CourseData>, d: CourseData)
    requires CourseShape(s) && Bears(s.live.objectives, ids, known) && DistinctCourses(data + [d])
    requires CourseStep(s, ids, known, d).Ok? && CoursesSeeded(t0, s.live, ids, known, data)
    ensures CoursesSeeded(t0, CourseStep(s, ids, known, d).value.live, ids, known, data + [d])
  {
    hide CourseStep, OthersSame, ForeignSame, SameRow, Unlisted, RowFor, SoundCourses, CourseCells, HasSeeded, CellsWithin, Untouched,
         Identity, Seeded, DistinctLevels;
    LastIsNew(data, d);
    RowForFinds(s, d);
    CourseStepFrame(s, ids, known, d);
    var u := CourseStep(s, ids, known, d).value;
    CellsStayWithin(s.live, u.live, RowFor(s, d));
    StepSeeds(t0, s, ids, known, data, d);
    SeededHas(t0, u.live, ids, known, d, RowFor(s, d));
    var all := data + [d];
    forall k | 0 <= k < |u.live.courses| && Unlisted(all, u.live.courses[k].code) ensures Untouched(t0, u.live, k) {
      StepSpares(t0, s, ids, known, data, d, k);
    }
    forall j | 0 <= j < |all| ensures HasSeeded(t0, u.live, ids, known, all[j]) {
      if j < |data| {
        assert all[j] == data[j];
        StepKeepsSeeded(t0, s, ids, known, d, data[j]);
      }
    }
  }

  lemma SeededHas(t0: Tables, t: Tables, ids: map<string, int>, known: set<string>, d: CourseData, k: int)
    requires IdsIn(ids, t.objectives) && Seeded(t0, t, ids, known, d, k)
    ensures HasSeeded(t0, t, ids, known, d)
  {
  }

  lemma LastIsNew(data: seq<CourseData>, d: CourseData)
    requires DistinctCourses(data + [d])
    ensures DistinctCourses(data) && DistinctLevels(d.levels) && Unlisted(data, d.code)
    ensures forall j :: 0 <= j < |data| ==> data[j].code != d.code
  {
    hide DistinctLevels;
    var all := data + [d];
    assert all[|data|] == d;
    assert forall j :: 0 <= j < |data| ==> all[j] == data[j];
  }

  lemma {:induction false} CoursesAreExact(
    t0: Tables, s: Session, ids: map<string, int>, known: set<string>, data: seq<CourseData>)
    requires CourseShape(s) && Bears(s.live.objectives, ids, known) && DistinctCourses(data)
    requires CoursesSeeded(t0, s.live, ids, known, [])
    requires SeedCourses(s, ids, known, data).Ok?
    ensures CoursesSeeded(t0, SeedCourses(s, ids, known, data).value.live, ids, known, data)
  {
    hide CourseStep, CoursesSeeded, SoundCourses, CoursesKept, Identity, DistinctCourses;
    if data != [] {
      var n := |data| - 1;
      assert data[..n] + [data[n]] == data;
      LastIsNew(data[..n], data[n]);
      CoursesAreExact(t0, s, ids, known, data[..n]);
      CoursesAreKept(s, ids, known, data[..n]);
      CourseStepIsExact(t0, SeedCourses(s, ids, known, data[..n]).value, ids, known, data[..n], data[n]);
    }
  }

  // ---- The whole run ----

  function Begin(t: Tables): Session {
    Session(t, t, false)
  }

  /** The row each payload code was given. */
  function IdsOf(t0: Tables, p: Payload): map<string, int> {
    match SeedObjectives(Begin(t0), p.objectives)
    case Ok(q) => q.ids
    case Err(_) => map[]
  }

  lemma RunUnfolds(t0: Tables, p: Payload)
    requires Run(t0, p).Ok?
    ensures IsAlias(p.program) && SeedObjectives(Begin(t0), p.objectives).Ok?
    ensures
      var q := SeedObjectives(Begin(t0), p.objectives).value;
      var r := SeedCourses(q.session, q.ids, Codes(p.objectives), p.courses);
      r.Ok? && Run(t0, p).value == r.value.live && Sound(r.value.live)
  {
    hide IsAlias, Sound, SeedObjectives, SeedCourses;
  }

  lemma ObjectivesEndInShape(t0: Tables, p: Payload)
    requires Sound(t0) && SeedObjectives(Begin(t0), p.objectives).Ok?
    ensures CourseShape(SeedObjectives(Begin(t0), p.objectives).value.session)
    ensures General(t0, p.objectives, SeedObjectives(Begin(t0), p.objectives).value)
  {
    hide SeedObjectives, SoundObjectives, SoundCells, AnchorsGenuine, Normalised, AllEvolve;
    ObjectivesAreGeneral(t0, p.objectives);
  }

  /**
   Whatever the rows and the payload: administrators' objectives, unlisted courses, the
   cells of administrator-mapped and of unlisted courses and the cells of other programs'
   objectives stay as they were, anchors are never moved, and no row is removed.
   */
  lemma RunLeavesTheRestAlone(t0: Tables, p: Payload)
    requires Sound(t0) && Run(t0, p).Ok?
    ensures
      var t1 := Run(t0, p).value;
      && Sound(t1) && AllEvolve(t0.objectives, t1.objectives) && CoursesKept(t0, t1, p.courses)
      && SeedObjectives(Begin(t0), p.objectives).Ok?
      && General(t0, p.objectives, SeedObjectives(Begin(t0), p.objectives).value)
      && t1.objectives == SeedObjectives(Begin(t0), p.objectives).value.session.live.objectives
  {
    hide Run, SeedObjectives, SeedCourses, SoundObjectives, SoundCourses, SoundCells, AllEvolve, AnchorsGenuine, Normalised;
    RunUnfolds(t0, p);
    ObjectivesEndInShape(t0, p);
    var q := SeedObjectives(Begin(t0), p.objectives).value;
    CoursesAreKept(q.session, q.ids, Codes(p.objectives), p.courses);
    var t1 := Run(t0, p).value;
    AllEvolveTransitive(t0.objectives, q.session.stored.objectives, t1.objectives);
    KeptFrom(t0, q.session.live, t1, p.courses);
  }

  lemma KeptFrom(t0: Tables, t: Tables, t1: Tables, data: seq<CourseData>)
    requires t0.courses == t.courses && t0.cells == t.cells && CoursesKept(t, t1, data)
    ensures CoursesKept(t0, t1, data)
  {
    hide SameRow, ForeignSame, Unlisted;
    forall k | 0 <= k < |t0.courses| ensures RowKept(t0, t1, data, k) {
      assert RowKept(t, t1, data, k);
    }
  }

  /** The two-alias error cannot come from a database that has the normalised index. */
  lemma NeverBothAliases(t0: Tables, p: Payload)
    requires Sound(t0)
    ensures Run(t0, p) != Err(BothAliases)
  {
    hide Sound, SeedCourses, Flush, SeedObjectives;
    NoAliasErrorInObjectives(t0, p.objectives);
    if SeedObjectives(Begin(t0), p.objectives).Ok? {
      var q := SeedObjectives(Begin(t0), p.objectives).value;
      NoAliasErrorInCourses(q.session, q.ids, Codes(p.objectives), p.courses);
      FlushErrs(q.session);
    }
  }

  lemma FlushErrs(s: Session)
    ensures forall u: Session :: Flush(u) != Err(BothAliases)
  {
  }

  lemma {:induction false} NoAliasErrorInObjectives(t0: Tables, data: seq<ObjectiveData>)
    requires Sound(t0)
    ensures SeedObjectives(Begin(t0), data) != Err(BothAliases)
  {
    hide SoundObjectives, SoundCourses, SoundCells, Flush, General, Resolve;
    if data != [] {
      var n := |data| - 1;
      NoAliasErrorInObjectives(t0, data[..n]);
      if SeedObjectives(Begin(t0), data[..n]).Ok? {
        ObjectivesAreGeneral(t0, data[..n]);
        var q := SeedObjectives(Begin(t0), data[..n]).value;
        StoredIsSound(t0, data[..n], q);
        ResolveFindsTheAnswer(q.session.stored.objectives, data[n].code);
        FlushErrs(q.session);
      }
    }
  }

  lemma StoredIsSound(t0: Tables, data: seq<ObjectiveData>, q: Progress)
    requires General(t0, data, q)
    ensures SoundObjectives(q.session.stored.objectives)
  {
  }

  lemma {:induction false} NoAliasErrorInCourses(s: Session, ids: map<string, int>, known: set<string>, data: seq<CourseData>)
    requires SameShape(s) && IdsIn(ids, s.live.objectives)
    ensures SeedCourses(s, ids, known, data) != Err(BothAliases)
  {
    hide CourseStep;
    if data != [] {
      var n := |data| - 1;
      NoAliasErrorInCourses(s, ids, known, data[..n]);
      if SeedCourses(s, ids, known, data[..n]).Ok? {
        NoAliasErrorInCourse(SeedCourses(s, ids, known, data[..n]).value, ids, known, data[n]);
      }
    }
  }

  lemma NoAliasErrorInCourse(s: Session, ids: map<string, int>, known: set<string>, d: CourseData)
    requires SameShape(s) && IdsIn(ids, s.live.objectives)
    ensures CourseStep(s, ids, known, d) != Err(BothAliases)
  {
    hide Flush, DropStale, LevelsOf, Canonical, PutLevels;
    FlushErrs(s);
    if CourseRow(s, d).Ok? {
      var (u, k, isNew) := CourseRow(s, d).value;
      NoAliasErrorInLevels(u, k, ids, Canonical(d.levels));
    }
  }

  lemma {:induction false} NoAliasErrorInLevels(s: Session, k: int, ids: map<string, int>, levels: Levels)
    requires IdsIn(ids, s.live.objectives)
    ensures PutLevels(s, k, ids, levels) != Err(BothAliases)
  {
    if levels != [] {
      NoAliasErrorInLevels(s, k, ids, levels[..|levels| - 1]);
    }
  }

  // ---- When the rows are aligned with the payload ----

  /** At the end each code still stands for the row it was given. */
  lemma GivenRowsAnswer(
    d0: seq<Objective>, codes: set<string>, data: seq<ObjectiveData>, objs: seq<Objective>, ids: map<string, int>, j: int)
    requires Underway(d0, codes, data, objs, objs, ids) && 0 <= j < |data|
    ensures Answers(objs, data[j].code, ids[data[j].code])
    ensures GoesBy(objs[ids[data[j].code]], data[j].code, codes)
  {
    hide SoundObjectives, Undisputed;
    CodesOf(data);
    var c, id := data[j].code, ids[data[j].code];
    AssignedKeepsItsCode(d0, codes, data[j], objs, id);
    if objs[id].seedCode != Some(c) {
      if id < |d0| {
        AnswerKeepsItsCode(d0, codes, data[j], id);
      }
      forall i | 0 <= i < |objs| ensures objs[i].seedCode != Some(c) {
        AnchorStaysAway(d0, codes, data, objs, ids, j, i);
      }
    }
  }

  lemma AnchorStaysAway(
    d0: seq<Objective>, codes: set<string>, data: seq<ObjectiveData>, objs: seq<Objective>, ids: map<string, int>, j: int, i: int)
    requires Underway(d0, codes, data, objs, objs, ids) && 0 <= j < |data| && 0 <= i < |objs|
    requires data[j].code in ids
    requires
      var id := ids[data[j].code];
      id < |d0| && !Anchored(d0, data[j].code) && objs[id].seedCode != Some(data[j].code)
    ensures objs[i].seedCode != Some(data[j].code)
  {
    hide SoundObjectives, Undisputed, Answers, Identity;
    var c, id := data[j].code, ids[data[j].code];
    RowOrigin(d0, data, objs, ids, i);
    if !(i < |d0| && objs[i] == d0[i]) {
      var m :| 0 <= m < |data| && Assigned(d0, data[m], objs, i);
      assert m != j ==> data[m].code != c;
      ResolveFindsTheAnswer(d0, c);
      assert Assigned(d0, data[j], objs, id);
    }
  }

  /** Every code stands for a row that goes by that code. */
  predicate KnownAs(objs: seq<Objective>, c: string) {
    exists i :: 0 <= i < |objs| && Answers(objs, c, i) && Identity(objs[i]) == c
  }

  predicate Settled(objs: seq<Objective>, codes: set<string>) {
    forall c :: c in codes ==> KnownAs(objs, c)
  }

  lemma FinalPass(t0: Tables, p: Payload)
    requires Sound(t0) && PayloadOk(p) && Run(t0, p).Ok? && Undisputed(t0.objectives, Codes(p.objectives))
    ensures
      var t1, ids, codes := Run(t0, p).value, IdsOf(t0, p), Codes(p.objectives);
      && Sound(t1) && Underway(t0.objectives, codes, p.objectives, t1.objectives, t1.objectives, ids)
      && SeedObjectives(Begin(t0), p.objectives).Ok?
      && t1.objectives == SeedObjectives(Begin(t0), p.objectives).value.session.live.objectives
  {
    hide Run, SeedObjectives, SeedCourses, SoundObjectives, SoundCourses, SoundCells, Undisputed, DistinctCourses, DistinctCodes, Exact,
         General, AllEvolve, CoursesKept;
    RunUnfolds(t0, p);
    RunLeavesTheRestAlone(t0, p);
    ObjectivesAreExact(t0, Codes(p.objectives), p.objectives);
  }

  lemma BearsAtTheEnd(
    d0: seq<Objective>, codes: set<string>, data: seq<ObjectiveData>, objs: seq<Objective>, ids: map<string, int>)
    requires Underway(d0, codes, data, objs, objs, ids)
    ensures Bears(objs, ids, codes)
  {
    hide SoundObjectives, Undisputed, Answers, Identity, DistinctCodes;
    CodesOf(data);
    forall c | c in ids ensures GoesBy(objs[ids[c]], c, codes) {
      var j :| 0 <= j < |data| && data[j].code == c;
      GivenRowsAnswer(d0, codes, data, objs, ids, j);
    }
    forall c, e | c in ids && e in ids && ids[c] == ids[e] ensures c == e {
      var j :| 0 <= j < |data| && data[j].code == c;
      var m :| 0 <= m < |data| && data[m].code == e;
      RowsAreApart(d0, codes, data, objs, ids, j, m);
    }
  }

  lemma RowsAreApart(
    d0: seq<Objective>, codes: set<string>, data: seq<ObjectiveData>, objs: seq<Objective>, ids: map<string, int>,
    j: int, m: int)
    requires Underway(d0, codes, data, objs, objs, ids) && 0 <= j < |data| && 0 <= m < |data|
    requires data[j].code in ids && data[m].code in ids && ids[data[j].code] == ids[data[m].code]
    ensures data[j].code == data[m].code
  {
    hide SoundObjectives, Undisputed, Answers, Identity;
    CodesOf(data);
    var id := ids[data[j].code];
    assert Assigned(d0, data[j], objs, id) && Assigned(d0, data[m], objs, id);
    if id < |d0| {
      OneCodeEach(d0, codes, data[j], data[m], id);
    }
  }

  /**
   The exact outcome: each payload code has the row that answered for it, corrected, or a
   new one; each payload course has its corrected or new row, exactly the payload's levels,
   and a version raised by one precisely when its cells changed; everything else is as it was.
   */
  lemma RunIsExact(t0: Tables, p: Payload)
    requires Sound(t0) && PayloadOk(p) && Run(t0, p).Ok? && Undisputed(t0.objectives, Codes(p.objectives))
    ensures
      var t1, ids := Run(t0, p).value, IdsOf(t0, p);
      && Sound(t1) && Bears(t1.objectives, ids, Codes(p.objectives))
      && Exact(t0.objectives, p.objectives, t1.objectives, ids)
      && CoursesSeeded(t0, t1, ids, Codes(p.objectives), p.courses)
  {
    hide Run, SeedObjectives, SeedCourses, SoundObjectives, SoundCourses, SoundCells, Undisputed, DistinctCourses, DistinctCodes, Exact,
         General, CoursesSeeded, Bears;
    FinalPass(t0, p);
    RunUnfolds(t0, p);
    ObjectivesEndInShape(t0, p);
    var q := SeedObjectives(Begin(t0), p.objectives).value;
    var codes := Codes(p.objectives);
    BearsAtTheEnd(t0.objectives, codes, p.objectives, q.session.live.objectives, q.ids);
    BearsAreIn(q.session.live.objectives, q.ids, codes);
    StartOfCourses(t0, p.objectives, q, codes);
    CoursesAreExact(t0, q.session, q.ids, codes, p.courses);
  }

  lemma StartOfCourses(t0: Tables, data: seq<ObjectiveData>, q: Progress, known: set<string>)
    requires Sound(t0) && General(t0, data, q)
    ensures CoursesSeeded(t0, q.session.live, q.ids, known, [])
  {
    hide SoundObjectives, SoundCourses, AllEvolve, AnchorsGenuine, Normalised;
  }

  /**
   The rows end up known by the payload's codes exactly when, before the run, no row
   anchored elsewhere could be taken for a payload code that has no anchor of its own.
   */
  lemma SettledExactlyWhenAligned(t0: Tables, p: Payload)
    requires Sound(t0) && PayloadOk(p) && Run(t0, p).Ok?
    ensures Settled(Run(t0, p).value.objectives, Codes(p.objectives)) <==> Aligned(t0.objectives, Codes(p.objectives))
  {
    hide Run, SeedObjectives, SoundObjectives, SoundCourses, SoundCells, DistinctCourses, DistinctCodes, General, CoursesKept,
         Exact, TakenFor, KnownAs, AllEvolve;
    var codes, objs := Codes(p.objectives), Run(t0, p).value.objectives;
    RunLeavesTheRestAlone(t0, p);
    if Aligned(t0.objectives, codes) {
      AlignedIsUndisputed(t0.objectives, codes);
      FinalPass(t0, p);
      forall c | c in codes ensures KnownAs(objs, c) {
        var j :| 0 <= j < |p.objectives| && p.objectives[j].code == c;
        GivenRowsAreKnown(t0.objectives, codes, p.objectives, objs, IdsOf(t0, p), j);
      }
    } else {
      var i :| 0 <= i < |t0.objectives| && TakenFor(t0.objectives, codes, i);
      var q := SeedObjectives(Begin(t0), p.objectives).value;
      TakenRowIsNotKnown(t0, p.objectives, q, i);
    }
  }

  lemma GivenRowsAreKnown(
    d0: seq<Objective>, codes: set<string>, data: seq<ObjectiveData>, objs: seq<Objective>, ids: map<string, int>, j: int)
    requires Underway(d0, codes, data, objs, objs, ids) && Aligned(d0, codes) && 0 <= j < |data|
    ensures KnownAs(objs, data[j].code)
    ensures data[j].code in ids && 0 <= ids[data[j].code] < |objs| && Identity(objs[ids[data[j].code]]) == data[j].code
  {
    hide SoundObjectives, Undisputed, Identity, DistinctCodes, TakenFor;
    CodesOf(data);
    GivenRowsAnswer(d0, codes, data, objs, ids, j);
    RowsGoByTheirCode(d0, codes, data, objs, ids, j);
  }

  lemma RowsGoByTheirCode(
    d0: seq<Objective>, codes: set<string>, data: seq<ObjectiveData>, objs: seq<Objective>, ids: map<string, int>, j: int)
    requires Underway(d0, codes, data, objs, objs, ids) && 0 <= j < |data|
    ensures data[j].code in ids && 0 <= ids[data[j].code] < |objs|
    ensures var id := ids[data[j].code];
            Identity(objs[id]) == data[j].code || (id < |d0| && TakenFor(d0, codes, id))
  {
    hide SoundObjectives, Undisputed, TakenFor;
    CodesOf(data);
    var id := ids[data[j].code];
    assert Assigned(d0, data[j], objs, id);
    if id < |d0| {
      AnswerKeepsItsCode(d0, codes, data[j], id);
    }
  }

  lemma TakenRowIsNotKnown(t0: Tables, data: seq<ObjectiveData>, q: Progress, i: int)
    requires General(t0, data, q) && 0 <= i < |t0.objectives| && TakenFor(t0.objectives, Codes(data), i)
    requires SoundObjectives(q.session.live.objectives) && DistinctCodes(data)
    ensures t0.objectives[i].code in Codes(data) && !KnownAs(q.session.live.objectives, t0.objectives[i].code)
  {
    hide SoundObjectives;
    var d0, stored, objs := t0.objectives, q.session.stored.objectives, q.session.live.objectives;
    var c := d0[i].code;
    assert c != "";
    AllEvolveTransitive(d0, stored, objs);
    assert Evolves(d0[i], objs[i]);
    assert IsAlias(objs[i].program);
    forall a | 0 <= a < |objs| && Answers(objs, c, a) ensures Identity(objs[a]) != c {
      ResolveFindsTheAnswer(objs, c);
      if objs[a].seedCode == Some(c) {
        assert a < |d0| ==> d0[a].seedCode != Some(c);
        SameCodeSameRow(objs, a, i);
      } else {
        SameCodeSameRow(objs, a, i);
      }
    }
  }

  lemma SameCodeSameRow(objs: seq<Objective>, a: int, b: int)
    requires SoundObjectives(objs) && 0 <= a < |objs| && 0 <= b < |objs|
    requires objs[a].code == objs[b].code && IsAlias(objs[a].program) && IsAlias(objs[b].program)
    ensures a == b
  {
    AliasesShareAKey(objs[a], objs[b]);
  }
}
