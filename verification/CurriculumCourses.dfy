/** What one course step does to the course rows and the cells, and what it leaves alone. */
module CurriculumCourses {
  import opened Basics
  import opened CurriculumModel
  import opened CurriculumObjectives

  predicate SameAt(a: Cells, b: Cells, key: (int, int)) {
    (key in a <==> key in b) && (key in a && key in b ==> a[key] == b[key])
  }

  ghost predicate SameRow(a: Cells, b: Cells, k: int) {
    forall o :: SameAt(a, b, (k, o))
  }

  predicate DistinctLevels(levels: Levels) {
    forall i, j :: 0 <= i < j < |levels| ==> levels[i].0 != levels[j].0
  }

  predicate OneRowEach(ids: map<string, int>) {
    forall c, e :: c in ids && e in ids && ids[c] == ids[e] ==> c == e
  }

  /** Each code was given a row of its own, which goes by that code or by none of the known. */
  predicate Bears(objs: seq<Objective>, ids: map<string, int>, known: set<string>) {
    IdsIn(ids, objs) && OneRowEach(ids) && forall c :: c in ids ==> GoesBy(objs[ids[c]], c, known)
  }

  predicate Wanted(objs: seq<Objective>, ids: map<string, int>, levels: Levels, o: int) {
    && 0 <= o < |objs| && IsAlias(objs[o].program)
    && exists j :: 0 <= j < |levels| && levels[j].0 in ids && ids[levels[j].0] == o
  }

  predicate LevelsPut(cells: Cells, objs: seq<Objective>, ids: map<string, int>, k: int, levels: Levels)
    requires IdsIn(ids, objs)
  {
    forall j :: 0 <= j < |levels| ==>
      && levels[j].0 in ids
      && (IsAlias(objs[ids[levels[j].0]].program) ==>
            (k, ids[levels[j].0]) in cells && cells[(k, ids[levels[j].0])] == levels[j].1)
  }

  /** The cells of one course: the payload's levels, nothing stale, the rest as before. */
  ghost predicate CourseCells(
    before: Cells, after: Cells, objs: seq<Objective>, ids: map<string, int>, known: set<string>, k: int, levels: Levels)
    requires IdsIn(ids, objs)
  {
    && LevelsPut(after, objs, ids, k, levels)
    && forall o :: !Wanted(objs, ids, levels, o) ==>
         if Stale(objs, o, known, levels) then (k, o) !in after else SameAt(before, after, (k, o))
  }

  ghost predicate OthersSame(before: Cells, after: Cells, k: int) {
    forall key: (int, int) :: key.0 != k ==> SameAt(before, after, key)
  }

  /** The cells of another program's objectives. */
  ghost predicate ForeignSame(before: Cells, after: Cells, objs: seq<Objective>) {
    forall key: (int, int) :: 0 <= key.1 < |objs| && !IsAlias(objs[key.1].program) ==> SameAt(before, after, key)
  }

  // ---- Levels ----

  lemma {:induction false} PutLevelsFrame(s: Session, k: int, ids: map<string, int>, levels: Levels)
    requires IdsIn(ids, s.live.objectives) && PutLevels(s, k, ids, levels).Ok?
    ensures
      var t := PutLevels(s, k, ids, levels).value;
      OthersSame(s.live.cells, t.live.cells, k) && ForeignSame(s.live.cells, t.live.cells, s.live.objectives)
  {
    if levels != [] {
      PutLevelsFrame(s, k, ids, levels[..|levels| - 1]);
    }
  }

  lemma {:induction false} PutLevelsPuts(s: Session, k: int, ids: map<string, int>, levels: Levels)
    requires IdsIn(ids, s.live.objectives) && OneRowEach(ids) && DistinctLevels(levels) && PutLevels(s, k, ids, levels).Ok?
    ensures
      var t := PutLevels(s, k, ids, levels).value;
      && LevelsPut(t.live.cells, s.live.objectives, ids, k, levels)
      && forall o :: !Wanted(s.live.objectives, ids, levels, o) ==> SameAt(s.live.cells, t.live.cells, (k, o))
  {
    hide IsAlias, Identity;
    if levels != [] {
      var n := |levels| - 1;
      var front, e := levels[..n], levels[n];
      PutLevelsPuts(s, k, ids, front);
      var objs := s.live.objectives;
      var u := PutLevels(s, k, ids, front).value;
      var t := PutLevels(s, k, ids, levels).value;
      assert e.0 in ids && LevelStep(u, k, ids, e) == Ok(t);
      forall j | 0 <= j < n && IsAlias(objs[ids[levels[j].0]].program)
        ensures (k, ids[levels[j].0]) in t.live.cells && t.live.cells[(k, ids[levels[j].0])] == levels[j].1
      {
        assert front[j] == levels[j] && levels[j].0 != e.0;
        assert ids[levels[j].0] != ids[e.0];
      }
      forall j | 0 <= j < n ensures levels[j].0 in ids {
        assert front[j] == levels[j];
      }
      forall o | !Wanted(objs, ids, levels, o) ensures SameAt(s.live.cells, t.live.cells, (k, o)) {
        WantedGrows(objs, ids, levels, o);
        assert SameAt(s.live.cells, u.live.cells, (k, o));
      }
    }
  }

  lemma WantedGrows(objs: seq<Objective>, ids: map<string, int>, levels: Levels, o: int)
    requires levels != [] && !Wanted(objs, ids, levels, o)
    ensures !Wanted(objs, ids, levels[..|levels| - 1], o)
    ensures 0 <= o < |objs| && IsAlias(objs[o].program) && levels[|levels| - 1].0 in ids ==> ids[levels[|levels| - 1].0] != o
  {
    hide IsAlias;
    var n := |levels| - 1;
    assert forall j :: 0 <= j < n ==> levels[..n][j] == levels[j];
  }

  lemma {:induction false} CanonicalIsDistinct(levels: Levels)
    requires DistinctLevels(levels)
    ensures DistinctLevels(Canonical(levels))
  {
    if levels != [] {
      var n := |levels| - 1;
      CanonicalIsDistinct(levels[..n]);
      var front := Canonical(levels[..n]);
      forall i | 0 <= i < |front| ensures front[i].0 != levels[n].0 {
        assert front[i] in levels[..n];
      }
    }
  }

  // ---- The mapping of one course ----

  /** A wanted objective is listed under its own code, so it is not stale. */
  lemma WantedIsNotStale(objs: seq<Objective>, ids: map<string, int>, known: set<string>, levels: Levels, o: int)
    requires Bears(objs, ids, known) && Wanted(objs, ids, levels, o)
    ensures !Stale(objs, o, known, levels)
  {
    hide IsAlias, Identity;
  }

  lemma LevelsOfRow(s: Session, u: Session, k: int)
    requires s.stored.cells == s.live.cells && u.stored.cells == u.live.cells
    ensures LevelsOf(s, k) == LevelsOf(u, k) <==> SameRow(s.live.cells, u.live.cells, k)
  {
    var a, b := LevelsOf(s, k), LevelsOf(u, k);
    LevelsOfKeys(s, k);
    LevelsOfKeys(u, k);
    if a == b {
      forall o ensures SameAt(s.live.cells, u.live.cells, (k, o)) {
        assert o in a <==> o in b;
      }
    }
    if SameRow(s.live.cells, u.live.cells, k) {
      forall o ensures o in a <==> o in b {
        assert SameAt(s.live.cells, u.live.cells, (k, o));
      }
      forall o | o in a ensures a[o] == b[o] {
        assert SameAt(s.live.cells, u.live.cells, (k, o));
      }
      assert a == b;
    }
  }

  lemma LevelsOfKeys(s: Session, k: int)
    requires s.stored.cells == s.live.cells
    ensures forall o :: o in LevelsOf(s, k) <==> (k, o) in s.live.cells
  {
    forall o ensures o in LevelsOf(s, k) <==> (k, o) in s.live.cells {
      if (k, o) in s.live.cells {
        var key := (k, o);
        assert key in s.stored.cells && key.0 == k;
      }
    }
  }

  predicate Steady(s: Session) {
    !s.clash && SameShape(s) && s.stored.cells == s.live.cells
  }

  function Bumped(c: Course, n: int): Course {
    c.(mappingVersion := c.mappingVersion + n)
  }

  lemma DropStaleDrops(t: Session, before: Cells, ids: map<string, int>, k: int, known: set<string>, levels: Levels)
    requires IdsIn(ids, t.live.objectives)
    requires t.stored.cells == before && OthersSame(before, t.live.cells, k)
    requires ForeignSame(before, t.live.cells, t.live.objectives)
    ensures
      var u := DropStale(t, k, known, levels);
      && OthersSame(before, u.live.cells, k)
      && ForeignSame(before, u.live.cells, t.live.objectives)
  {
  }

  lemma DropStaleSettles(t: Session, before: Cells, ids: map<string, int>, k: int, known: set<string>, levels: Levels)
    requires Bears(t.live.objectives, ids, known) && t.stored.cells == before
    requires LevelsPut(t.live.cells, t.live.objectives, ids, k, levels)
    requires forall o :: !Wanted(t.live.objectives, ids, levels, o) ==> SameAt(before, t.live.cells, (k, o))
    ensures CourseCells(before, DropStale(t, k, known, levels).live.cells, t.live.objectives, ids, known, k, levels)
  {
    hide IsAlias, Identity, Stale;
    var objs := t.live.objectives;
    var after := DropStale(t, k, known, levels).live.cells;
    forall j | 0 <= j < |levels| && IsAlias(objs[ids[levels[j].0]].program)
      ensures (k, ids[levels[j].0]) in after && after[(k, ids[levels[j].0])] == levels[j].1
    {
      assert Wanted(objs, ids, levels, ids[levels[j].0]);
      WantedIsNotStale(objs, ids, known, levels, ids[levels[j].0]);
    }
    forall o | !Wanted(objs, ids, levels, o)
      ensures if Stale(objs, o, known, levels) then (k, o) !in after else SameAt(before, after, (k, o))
    {
      assert SameAt(before, t.live.cells, (k, o));
    }
  }

  /** Whatever the payload, a mapping step stays within its course and its program. */
  lemma MappingFrame(s: Session, k: int, isNew: bool, ids: map<string, int>, known: set<string>, levels: Levels)
    requires Steady(s) && 0 <= k < |s.live.courses| && IdsIn(ids, s.live.objectives)
    requires SeedMapping(s, k, isNew, ids, known, levels).Ok?
    ensures
      var u := SeedMapping(s, k, isNew, ids, known, levels).value;
      && Steady(u) && u.stored.courses == s.live.courses && Sound(u.stored)
      && OthersSame(s.live.cells, u.live.cells, k) && ForeignSame(s.live.cells, u.live.cells, s.live.objectives)
      && u.live.courses == s.live.courses[k := Bumped(s.live.courses[k],
           if isNew || SameRow(s.live.cells, u.live.cells, k) then 0 else 1)]
  {
    hide Sound, OthersSame, ForeignSame, DropStale, LevelsOf, SameRow;
    PutLevelsFrame(s, k, ids, levels);
    var t := PutLevels(s, k, ids, levels).value;
    DropStaleDrops(t, s.live.cells, ids, k, known, levels);
    DropStaleKeepsRest(t, k, known, levels);
    var u := SeedMapping(s, k, isNew, ids, known, levels).value;
    LevelsOfRow(s, Flush(DropStale(t, k, known, levels)).value, k);
    assert s.live.courses[k := s.live.courses[k]] == s.live.courses;
    assert Bumped(s.live.courses[k], 0) == s.live.courses[k];
  }

  lemma DropStaleKeepsRest(t: Session, k: int, known: set<string>, levels: Levels)
    ensures
      var u := DropStale(t, k, known, levels);
      u.clash == t.clash && u.stored == t.stored && u.live == t.live.(cells := u.live.cells)
  {
  }

  lemma MappingSettles(s: Session, k: int, isNew: bool, ids: map<string, int>, known: set<string>, levels: Levels)
    requires Steady(s) && 0 <= k < |s.live.courses| && Bears(s.live.objectives, ids, known) && DistinctLevels(levels)
    requires SeedMapping(s, k, isNew, ids, known, levels).Ok?
    ensures CourseCells(s.live.cells, SeedMapping(s, k, isNew, ids, known, levels).value.live.cells,
              s.live.objectives, ids, known, k, levels)
  {
    hide Sound, CourseCells, LevelsPut, DropStale, LevelsOf, DistinctLevels, Wanted;
    PutLevelsPuts(s, k, ids, levels);
    var t := PutLevels(s, k, ids, levels).value;
    DropStaleSettles(t, s.live.cells, ids, k, known, levels);
    DropStaleKeepsRest(t, k, known, levels);
  }

  // ---- One course step ----

  predicate CourseShape(s: Session) {
    && Steady(s)
    && SoundCourses(s.stored.courses)
    && forall k :: 0 <= k < |s.live.courses| ==> s.stored.courses[k].code == s.live.courses[k].code
  }

  /** The row a course code stands for, or the next free one. */
  function RowFor(s: Session, d: CourseData): int {
    var q := CoursesCoded(s.stored.courses, d.code);
    if q == [] then |s.live.courses| else q[0]
  }

  function RowBefore(s: Session, d: CourseData): Course {
    var k := RowFor(s, d);
    if 0 <= k < |s.live.courses| then s.live.courses[k] else FreshCourse(d)
  }

  lemma RowForFinds(s: Session, d: CourseData)
    requires CourseShape(s)
    ensures |CoursesCoded(s.stored.courses, d.code)| <= 1
    ensures 0 <= RowFor(s, d) <= |s.live.courses|
    ensures forall i :: 0 <= i < |s.live.courses| ==> (s.live.courses[i].code == d.code <==> i == RowFor(s, d))
  {
    var q := CoursesCoded(s.stored.courses, d.code);
    AtMostOne(q);
    assert forall i :: i in q <==> 0 <= i < |s.live.courses| && s.live.courses[i].code == d.code;
    assert q != [] ==> q[0] in q && q == [q[0]];
  }

  /** The row found, corrected or created, before any cell is looked at. */
  lemma CourseRowFrame(s: Session, d: CourseData)
    requires CourseShape(s) && CourseRow(s, d).Ok?
    ensures
      var (t, k, isNew) := CourseRow(s, d).value;
      && CourseShape(t) && k == RowFor(s, d) && (isNew <==> k == |s.live.courses|)
      && (!isNew ==> IsAlias(RowBefore(s, d).program))
      && t.live.objectives == s.live.objectives && t.live.cells == s.live.cells
      && |t.live.courses| == (if isNew then k + 1 else |s.live.courses|)
      && t.live.courses[k] == CorrectedCourse(RowBefore(s, d), d)
      && forall i :: 0 <= i < |s.live.courses| && i != k ==> t.live.courses[i] == s.live.courses[i]
  {
    hide SoundObjectives, SoundCells;
    RowForFinds(s, d);
    var q := CoursesCoded(s.stored.courses, d.code);
    if q == [] {
      var courses := s.live.courses + [FreshCourse(d)];
      assert CourseRow(s, d).value.0 == Flush(s.(live := s.live.(courses := courses))).value;
    }
  }

  /** What a course step does to its row, and that it stays within course and program. */
  lemma CourseStepFrame(s: Session, ids: map<string, int>, known: set<string>, d: CourseData)
    requires CourseShape(s) && IdsIn(ids, s.live.objectives) && CourseStep(s, ids, known, d).Ok?
    ensures
      var u := CourseStep(s, ids, known, d).value;
      var k, row := RowFor(s, d), RowBefore(s, d);
      && CourseShape(u) && 0 <= k < |u.live.courses|
      && (k < |s.live.courses| ==> IsAlias(row.program))
      && |u.live.courses| == (if k == |s.live.courses| then k + 1 else |s.live.courses|)
      && (forall i :: 0 <= i < |s.live.courses| && i != k ==> u.live.courses[i] == s.live.courses[i])
      && u.live.courses[k] == Bumped(CorrectedCourse(row, d),
           if k == |s.live.courses| || SameRow(s.live.cells, u.live.cells, k) then 0 else 1)
      && OthersSame(s.live.cells, u.live.cells, k) && ForeignSame(s.live.cells, u.live.cells, s.live.objectives)
      && (row.mapped ==> u.live.cells == s.live.cells)
  {
    hide SoundObjectives, SoundCells, RowFor, RowBefore, CourseRow, SeedMapping;
    RowForFinds(s, d);
    CourseRowFrame(s, d);
    var (t, k, isNew) := CourseRow(s, d).value;
    if !t.live.courses[k].mapped {
      MappingFrame(t, k, isNew, ids, known, Canonical(d.levels));
    }
  }

  lemma CourseStepSettles(s: Session, ids: map<string, int>, known: set<string>, d: CourseData)
    requires CourseShape(s) && Bears(s.live.objectives, ids, known) && DistinctLevels(d.levels)
    requires CourseStep(s, ids, known, d).Ok? && !RowBefore(s, d).mapped
    ensures CourseCells(s.live.cells, CourseStep(s, ids, known, d).value.live.cells,
              s.live.objectives, ids, known, RowFor(s, d), Canonical(d.levels))
  {
    hide SoundObjectives, SoundCells, RowFor, RowBefore, CourseRow, SeedMapping, CourseCells, DistinctLevels;
    RowForFinds(s, d);
    CourseRowFrame(s, d);
    var (t, k, isNew) := CourseRow(s, d).value;
    CanonicalIsDistinct(d.levels);
    MappingSettles(t, k, isNew, ids, known, Canonical(d.levels));
  }

  // ---- All courses: what stays, whatever the payload ----

  predicate Unlisted(data: seq<CourseData>, code: string) {
    forall j :: 0 <= j < |data| ==> data[j].code != code
  }

  /** A row that was there: unlisted and administrator-mapped courses keep their cells. */
  ghost predicate RowKept(t0: Tables, t: Tables, data: seq<CourseData>, k: int)
    requires 0 <= k < |t0.courses| <= |t.courses|
  {
    var a, b := t0.courses[k], t.courses[k];
    && a.code == b.code && a.mapped == b.mapped && a.mappingVersion <= b.mappingVersion
    && (Unlisted(data, a.code) ==> a == b)
    && (Unlisted(data, a.code) || a.mapped ==> SameRow(t0.cells, t.cells, k))
  }

  ghost predicate CoursesKept(t0: Tables, t: Tables, data: seq<CourseData>) {
    && |t0.courses| <= |t.courses|
    && (forall k :: 0 <= k < |t0.courses| ==> RowKept(t0, t, data, k))
    && ForeignSame(t0.cells, t.cells, t.objectives)
  }

  lemma SameRowComposes(a: Cells, b: Cells, c: Cells, k: int)
    requires SameRow(a, b, k) && SameRow(b, c, k)
    ensures SameRow(a, c, k)
  {
    forall o ensures SameAt(a, c, (k, o)) {
      assert SameAt(a, b, (k, o)) && SameAt(b, c, (k, o));
    }
  }

  lemma OthersKeepTheirRow(a: Cells, b: Cells, k: int, i: int)
    requires OthersSame(a, b, k) && i != k
    ensures SameRow(a, b, i)
  {
  }

  lemma ForeignComposes(a: Cells, b: Cells, c: Cells, objs: seq<Objective>)
    requires ForeignSame(a, b, objs) && ForeignSame(b, c, objs)
    ensures ForeignSame(a, c, objs)
  {
    forall key: (int, int) | 0 <= key.1 < |objs| && !IsAlias(objs[key.1].program) ensures SameAt(a, c, key) {
      assert SameAt(a, b, key) && SameAt(b, c, key);
    }
  }

  lemma UnlistedShrinks(data: seq<CourseData>, d: CourseData, code: string)
    ensures Unlisted(data + [d], code) <==> Unlisted(data, code) && d.code != code
  {
    var all := data + [d];
    assert all[|data|] == d;
    assert forall j :: 0 <= j < |data| ==> all[j] == data[j];
  }

  lemma CourseStepKeeps(
    t0: Tables, s: Session, ids: map<string, int>, known: set<string>, data: seq<CourseData>, d: CourseData)
    requires CourseShape(s) && IdsIn(ids, s.live.objectives) && CourseStep(s, ids, known, d).Ok?
    requires CoursesKept(t0, s.live, data)
    ensures CoursesKept(t0, CourseStep(s, ids, known, d).value.live, data + [d])
  {
    hide CourseStep, OthersSame, ForeignSame, SameRow, Unlisted, RowFor, SoundCourses;
    RowForFinds(s, d);
    CourseStepFrame(s, ids, known, d);
    var u, n := CourseStep(s, ids, known, d).value, RowFor(s, d);
    ForeignComposes(t0.cells, s.live.cells, u.live.cells, s.live.objectives);
    forall k | 0 <= k < |t0.courses| ensures RowKept(t0, u.live, data + [d], k) {
      assert RowKept(t0, s.live, data, k);
      UnlistedShrinks(data, d, t0.courses[k].code);
      if k != n {
        OthersKeepTheirRow(s.live.cells, u.live.cells, n, k);
        if SameRow(t0.cells, s.live.cells, k) {
          SameRowComposes(t0.cells, s.live.cells, u.live.cells, k);
        }
      }
    }
  }

  lemma NothingSeeded(t: Tables)
    ensures CoursesKept(t, t, [])
  {
  }

  lemma {:induction false} CoursesAreKept(s: Session, ids: map<string, int>, known: set<string>, data: seq<CourseData>)
    requires CourseShape(s) && IdsIn(ids, s.live.objectives) && SeedCourses(s, ids, known, data).Ok?
    ensures CourseShape(SeedCourses(s, ids, known, data).value)
    ensures CoursesKept(s.live, SeedCourses(s, ids, known, data).value.live, data)
  {
    hide CourseStep, CoursesKept, SoundCourses;
    if data == [] {
      NothingSeeded(s.live);
    } else {
      var n := |data| - 1;
      CoursesAreKept(s, ids, known, data[..n]);
      var t := SeedCourses(s, ids, known, data[..n]).value;
      CourseStepFrame(t, ids, known, data[n]);
      CourseStepKeeps(s.live, t, ids, known, data[..n], data[n]);
      assert data[..n] + [data[n]] == data;
    }
  }
}
