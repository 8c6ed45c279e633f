/** Exactly the payload's cells, converged tables, and the second run. */
module CurriculumRepeat {
  import opened Basics
  import opened CurriculumModel
  import opened CurriculumObjectives
  import opened CurriculumCourses
  import opened CurriculumTheorems

  // ---- Exactly the payload's levels ----

  lemma {:induction false} CanonicalMembers(levels: Levels, j: int) returns (i: int)
    requires 0 <= j < |levels| && levels[j].1 != ""
    ensures 0 <= i < |Canonical(levels)| && Canonical(levels)[i] == levels[j]
  {
    var n := |levels| - 1;
    if j == n {
      i := |Canonical(levels)| - 1;
    } else {
      i := CanonicalMembers(levels[..n], j);
    }
  }

  /**
   Row `i` can be taken for a code, and is anchored at another payload code or has a cell
   in a course that a payload could seed.
   */
  predicate Strays(t: Tables, codes: set<string>, i: int)
    requires 0 <= i < |t.objectives|
  {
    && TakenFor(t.objectives, codes, i)
    && (|| t.objectives[i].seedCode.value in codes
        || exists k :: 0 <= k < |t.courses| && HoldsCell(t, k, i))
  }

  predicate HoldsCell(t: Tables, k: int, i: int)
    requires 0 <= k < |t.courses|
  {
    (k, i) in t.cells && !t.courses[k].mapped && IsAlias(t.courses[k].program)
  }

  predicate NoneStrays(t: Tables, codes: set<string>) {
    forall i :: 0 <= i < |t.objectives| ==> !Strays(t, codes, i)
  }

  lemma NoneStraysMeansUndisputed(t: Tables, codes: set<string>)
    ensures NoneStrays(t, codes) ==> Undisputed(t.objectives, codes)
    ensures Aligned(t.objectives, codes) ==> NoneStrays(t, codes)
  {
    if NoneStrays(t, codes) {
      forall i | 0 <= i < |t.objectives| ensures !Disputed(t.objectives, codes, i) {
        assert !Strays(t, codes, i);
      }
    }
  }

  /**
   The cell of objective row `o`, which answers for code `c`, in course row `k`, which the
   payload's course `j` describes, holds a level exactly when the payload lists it, not blank.
   */
  ghost predicate CellExact(t: Tables, p: Payload, j: int, k: int, c: string, o: int, level: string) {
    && 0 <= j < |p.courses| && c in Codes(p.objectives)
    && 0 <= k < |t.courses| && t.courses[k].code == p.courses[j].code && !t.courses[k].mapped
    && Answers(t.objectives, c, o) && IsAlias(t.objectives[o].program) ==>
      ((k, o) in t.cells && t.cells[(k, o)] == level <==> level != "" && (c, level) in p.courses[j].levels)
  }

  /** The cells of the payload's courses and objectives are exactly the payload's. */
  ghost predicate CellsExact(t: Tables, p: Payload) {
    forall j, k, c, o, level :: CellExact(t, p, j, k, c, o, level)
  }

  /** A seeded course without administrator mappings has exactly the payload's cells. */
  lemma CellsFollowThePayload(t0: Tables, p: Payload)
    requires Sound(t0) && PayloadOk(p) && Run(t0, p).Ok? && NoneStrays(t0, Codes(p.objectives))
    ensures CellsExact(Run(t0, p).value, p)
  {
    hide *;
    var t1 := Run(t0, p).value;
    forall j, k, c, o, level ensures CellExact(t1, p, j, k, c, o, level) {
      CellFollowsThePayload(t0, p, t1, j, k, c, o, level);
    }
    AllCells(t1, p);
  }

  lemma AllCells(t: Tables, p: Payload)
    requires forall j, k, c, o, level :: CellExact(t, p, j, k, c, o, level)
    ensures CellsExact(t, p)
  {
    hide CellExact;
  }

  lemma CellFollowsThePayload(t0: Tables, p: Payload, t1: Tables, j: int, k: int, c: string, o: int, level: string)
    requires Sound(t0) && PayloadOk(p) && Run(t0, p) == Ok(t1) && NoneStrays(t0, Codes(p.objectives))
    ensures CellExact(t1, p, j, k, c, o, level)
  {
    hide Run, IdsOf, SeedObjectives, SoundObjectives, SoundCells, NoneStrays, DistinctCodes, Exact, Seeded, CoursesSeeded, CourseCells,
         Identity, IsAlias, Canonical, Bears, Underway, Answers, TakenFor, Codes;
    if 0 <= j < |p.courses| && c in Codes(p.objectives) && Answers(t1.objectives, c, o)
       && 0 <= k < |t1.courses| && t1.courses[k].code == p.courses[j].code && !t1.courses[k].mapped
    {
      var ids, known := IdsOf(t0, p), Codes(p.objectives);
      NoneStraysMeansUndisputed(t0, known);
      RunIsExact(t0, p);
      FinalPass(t0, p);
      BearsAreIn(t1.objectives, ids, known);
      IdsCover(t0.objectives, p.objectives, t1.objectives, ids);
      var m := CodeAt(p.objectives, c);
      GivenRowsAnswer(t0.objectives, known, p.objectives, t1.objectives, ids, m);
      ResolveFindsTheAnswer(t1.objectives, c);
      CourseIsSeeded(t0, t1, ids, known, p.courses, j, k);
      RowsGoByTheirCode(t0.objectives, known, p.objectives, t1.objectives, ids, m);
      if Identity(t1.objectives[o]) != c {
        TakenRowHasNoCell(t0, t1, ids, known, p.courses, j, k, o);
      }
      CellOfCode(t0.cells, t1.cells, t1.objectives, ids, known, k, p.courses[j].levels, c, level);
    }
  }

  lemma CodeAt(data: seq<ObjectiveData>, c: string) returns (m: int)
    requires c in Codes(data)
    ensures 0 <= m < |data| && data[m].code == c
  {
    m :| 0 <= m < |data| && data[m].code == c;
  }

  lemma TakenRowHasNoCell(
    t0: Tables, t: Tables, ids: map<string, int>, known: set<string>, data: seq<CourseData>, j: int, k: int, o: int)
    requires IdsIn(ids, t.objectives) && CoursesSeeded(t0, t, ids, known, data) && NoneStrays(t0, known)
    requires 0 <= j < |data| && Seeded(t0, t, ids, known, data[j], k) && !t.courses[k].mapped
    requires 0 <= o < |t0.objectives| && TakenFor(t0.objectives, known, o)
    ensures (k, o) !in t0.cells
  {
    hide SameRow, CourseCells, TakenFor, Canonical;
    assert !Strays(t0, known, o);
    assert k < |t0.courses| ==> !HoldsCell(t0, k, o);
  }

  lemma IdsCover(d0: seq<Objective>, data: seq<ObjectiveData>, objs: seq<Objective>, ids: map<string, int>)
    requires Exact(d0, data, objs, ids)
    ensures ids.Keys == Codes(data) && IdsIn(ids, objs)
  {
  }

  lemma CourseIsSeeded(
    t0: Tables, t: Tables, ids: map<string, int>, known: set<string>, data: seq<CourseData>, j: int, k: int)
    requires IdsIn(ids, t.objectives) && CoursesSeeded(t0, t, ids, known, data) && SoundCourses(t.courses)
    requires 0 <= j < |data| && 0 <= k < |t.courses| && t.courses[k].code == data[j].code
    ensures Seeded(t0, t, ids, known, data[j], k)
    ensures !t.courses[k].mapped ==>
      CourseCells(t0.cells, t.cells, t.objectives, ids, known, k, Canonical(data[j].levels))
  {
    hide CourseCells, SameRow, IsAlias;
    assert HasSeeded(t0, t, ids, known, data[j]);
    var i :| Seeded(t0, t, ids, known, data[j], i);
    assert t.courses[i].code == data[j].code;
  }

  lemma CellOfCode(
    before: Cells, after: Cells, objs: seq<Objective>, ids: map<string, int>, known: set<string>, k: int, levels: Levels,
    c: string, level: string)
    requires Bears(objs, ids, known) && DistinctLevels(levels) && c in ids && c in known
    requires Identity(objs[ids[c]]) == c || (k, ids[c]) !in before
    requires CourseCells(before, after, objs, ids, known, k, Canonical(levels))
    ensures IsAlias(objs[ids[c]].program) ==>
      ((k, ids[c]) in after && after[(k, ids[c])] == level <==> level != "" && (c, level) in levels)
  {
    hide Identity, IsAlias, Canonical;
    var o, canonical := ids[c], Canonical(levels);
    if IsAlias(objs[o].program) {
      CanonicalIsDistinct(levels);
      if Lists(canonical, c) {
        var i :| 0 <= i < |canonical| && canonical[i].0 == c;
        assert canonical[i] in canonical;
        assert after[(k, o)] == canonical[i].1;
        if level != "" && (c, level) in levels {
          assert (c, level) in canonical;
        }
      } else {
        NotListedNotMember(canonical, c, level);
        NotListedNotWanted(objs, ids, known, canonical, c);
        if Identity(objs[o]) == c {
          assert Stale(objs, o, known, canonical);
        } else {
          assert !Stale(objs, o, known, canonical);
          assert SameAt(before, after, (k, o));
        }
      }
    }
  }

  lemma NotListedNotMember(levels: Levels, c: string, level: string)
    requires !Lists(levels, c)
    ensures (c, level) !in levels
  {
  }

  lemma NotListedNotWanted(objs: seq<Objective>, ids: map<string, int>, known: set<string>, levels: Levels, c: string)
    requires Bears(objs, ids, known) && c in ids && !Lists(levels, c)
    ensures !Wanted(objs, ids, levels, ids[c])
  {
    hide Identity, IsAlias;
  }

  // ---- Converged tables ----

  ghost predicate CourseConverged(t: Tables, ids: map<string, int>, known: set<string>, d: CourseData, k: int)
    requires IdsIn(ids, t.objectives)
  {
    && 0 <= k < |t.courses| && t.courses[k].code == d.code && IsAlias(t.courses[k].program)
    && t.courses[k] == CorrectedCourse(t.courses[k], d)
    && (!t.courses[k].mapped ==>
          && LevelsPut(t.cells, t.objectives, ids, k, Canonical(d.levels))
          && forall o :: (k, o) in t.cells ==> !Stale(t.objectives, o, known, Canonical(d.levels)))
  }

  ghost predicate HasConverged(t: Tables, ids: map<string, int>, known: set<string>, d: CourseData)
    requires IdsIn(ids, t.objectives)
  {
    exists k :: CourseConverged(t, ids, known, d, k)
  }

  predicate ObjectiveConverged(objs: seq<Objective>, ids: map<string, int>, d: ObjectiveData)
    requires IdsIn(ids, objs)
  {
    d.code in ids && Answers(objs, d.code, ids[d.code]) && objs[ids[d.code]] == Corrected(objs[ids[d.code]], d)
  }

  ghost predicate Converged(t: Tables, p: Payload, ids: map<string, int>) {
    && IsAlias(p.program) && ids.Keys == Codes(p.objectives) && IdsIn(ids, t.objectives)
    && (forall j :: 0 <= j < |p.objectives| ==> ObjectiveConverged(t.objectives, ids, p.objectives[j]))
    && (forall j :: 0 <= j < |p.courses| ==> HasConverged(t, ids, Codes(p.objectives), p.courses[j]))
  }

  lemma {:induction false} ObjectivesStayPut(t: Tables, ids: map<string, int>, data: seq<ObjectiveData>)
    requires SoundObjectives(t.objectives) && IdsIn(ids, t.objectives)
    requires forall j :: 0 <= j < |data| ==> ObjectiveConverged(t.objectives, ids, data[j])
    ensures
      var r := SeedObjectives(Begin(t), data);
      && r.Ok? && r.value.session == Begin(t) && r.value.ids.Keys == Codes(data)
      && forall c :: c in r.value.ids ==> c in ids && r.value.ids[c] == ids[c]
  {
    hide SoundObjectives, Resolve, Answers, Corrected;
    if data != [] {
      var n := |data| - 1;
      ObjectivesStayPut(t, ids, data[..n]);
      CodesGrow(data);
      assert ObjectiveConverged(t.objectives, ids, data[n]);
      ResolveFindsTheAnswer(t.objectives, data[n].code);
      assert t.objectives[ids[data[n].code] := t.objectives[ids[data[n].code]]] == t.objectives;
    }
  }

  lemma {:induction false} LevelsStayPut(t: Tables, k: int, ids: map<string, int>, levels: Levels)
    requires IdsIn(ids, t.objectives) && LevelsPut(t.cells, t.objectives, ids, k, levels)
    ensures PutLevels(Begin(t), k, ids, levels) == Ok(Begin(t))
  {
    hide IsAlias;
    if levels != [] {
      var n := |levels| - 1;
      assert forall j :: 0 <= j < n ==> levels[..n][j] == levels[j];
      LevelsStayPut(t, k, ids, levels[..n]);
      var e := levels[n];
      if IsAlias(t.objectives[ids[e.0]].program) {
        assert t.cells[(k, ids[e.0]) := e.1] == t.cells;
      }
    }
  }

  lemma NothingStale(t: Tables, k: int, known: set<string>, levels: Levels)
    requires forall o :: (k, o) in t.cells ==> !Stale(t.objectives, o, known, levels)
    ensures DropStale(Begin(t), k, known, levels) == Begin(t)
  {
    hide Stale;
    var after := DropStale(Begin(t), k, known, levels).live.cells;
    assert forall key :: key in t.cells && key.0 == k ==> (k, key.1) in t.cells;
    assert after == t.cells;
  }

  lemma CourseStaysPut(t: Tables, ids: map<string, int>, known: set<string>, d: CourseData)
    requires Sound(t) && IdsIn(ids, t.objectives) && HasConverged(t, ids, known, d)
    ensures CourseStep(Begin(t), ids, known, d) == Ok(Begin(t))
  {
    hide SoundObjectives, SoundCells, DropStale, LevelsOf, PutLevels, Stale, LevelsPut;
    var s := Begin(t);
    var k :| CourseConverged(t, ids, known, d, k);
    RowForFinds(s, d);
    assert k == RowFor(s, d);
    assert t.courses[k := CorrectedCourse(t.courses[k], d)] == t.courses;
    assert CourseRow(s, d) == Ok((s, k, false));
    if !t.courses[k].mapped {
      LevelsStayPut(t, k, ids, Canonical(d.levels));
      NothingStale(t, k, known, Canonical(d.levels));
    }
  }

  lemma {:induction false} CoursesStayPut(t: Tables, ids: map<string, int>, known: set<string>, data: seq<CourseData>)
    requires Sound(t) && IdsIn(ids, t.objectives)
    requires forall j :: 0 <= j < |data| ==> HasConverged(t, ids, known, data[j])
    ensures SeedCourses(Begin(t), ids, known, data) == Ok(Begin(t))
  {
    hide Sound, CourseStep, HasConverged;
    if data != [] {
      CoursesStayPut(t, ids, known, data[..|data| - 1]);
      CourseStaysPut(t, ids, known, data[|data| - 1]);
    }
  }

  /** Converged tables are a fixed point of the run, versions included. */
  lemma ConvergedStaysPut(t: Tables, p: Payload, ids: map<string, int>)
    requires Sound(t) && Converged(t, p, ids)
    ensures Run(t, p) == Ok(t) && IdsOf(t, p) == ids
  {
    hide SoundObjectives, SoundCourses, SoundCells, SeedObjectives, SeedCourses, HasConverged, ObjectiveConverged, IsAlias;
    ObjectivesStayPut(t, ids, p.objectives);
    var q := SeedObjectives(Begin(t), p.objectives).value;
    assert q.ids == ids;
    CoursesStayPut(t, ids, Codes(p.objectives), p.courses);
  }

  lemma CorrectedOnce(o: Objective, d: ObjectiveData)
    requires d.code != ""
    ensures Corrected(Corrected(o, d), d) == Corrected(o, d)
    ensures Corrected(FreshObjective(d), d) == FreshObjective(d)
  {
  }

  lemma SeededConverges(t0: Tables, t: Tables, ids: map<string, int>, known: set<string>, d: CourseData, k: int)
    requires Bears(t.objectives, ids, known) && Seeded(t0, t, ids, known, d, k)
    ensures CourseConverged(t, ids, known, d, k)
  {
    hide Identity, Canonical, Stale, LevelsPut, Wanted, SameRow;
    if !t.courses[k].mapped {
      forall o | (k, o) in t.cells ensures !Stale(t.objectives, o, known, Canonical(d.levels)) {
        if Wanted(t.objectives, ids, Canonical(d.levels), o) {
          WantedIsNotStale(t.objectives, ids, known, Canonical(d.levels), o);
        }
      }
    }
  }

  /** An exact run ends converged. */
  lemma RunConverges(t0: Tables, p: Payload)
    requires Sound(t0) && PayloadOk(p) && Run(t0, p).Ok? && Undisputed(t0.objectives, Codes(p.objectives))
    ensures Sound(Run(t0, p).value) && Converged(Run(t0, p).value, p, IdsOf(t0, p))
  {
    hide Run, IdsOf, SeedObjectives, Sound, Undisputed, DistinctCourses, Exact, Seeded, Underway, Bears, CourseConverged, Answers, Corrected;
    RunIsExact(t0, p);
    RunUnfolds(t0, p);
    FinalPass(t0, p);
    var t1, ids, known := Run(t0, p).value, IdsOf(t0, p), Codes(p.objectives);
    BearsAreIn(t1.objectives, ids, known);
    IdsCover(t0.objectives, p.objectives, t1.objectives, ids);
    forall j | 0 <= j < |p.objectives| ensures ObjectiveConverged(t1.objectives, ids, p.objectives[j]) {
      GivenRowConverges(t0.objectives, known, p.objectives, t1.objectives, ids, j);
    }
    forall j | 0 <= j < |p.courses| ensures HasConverged(t1, ids, known, p.courses[j]) {
      assert HasSeeded(t0, t1, ids, known, p.courses[j]);
      var k :| Seeded(t0, t1, ids, known, p.courses[j], k);
      SeededConverges(t0, t1, ids, known, p.courses[j], k);
    }
  }

  lemma GivenRowConverges(
    d0: seq<Objective>, codes: set<string>, data: seq<ObjectiveData>, objs: seq<Objective>, ids: map<string, int>, j: int)
    requires Underway(d0, codes, data, objs, objs, ids) && 0 <= j < |data| && IdsIn(ids, objs)
    ensures ObjectiveConverged(objs, ids, data[j])
  {
    hide SoundObjectives, Undisputed, Corrected, Answers, Identity;
    GivenRowsAnswer(d0, codes, data, objs, ids, j);
    var id := ids[data[j].code];
    assert Assigned(d0, data[j], objs, id);
    CorrectedOnce(if id < |d0| then d0[id] else objs[id], data[j]);
  }

  /** The second run, with the same payload, succeeds and changes nothing at all. */
  lemma SecondRunChangesNothing(t0: Tables, p: Payload)
    requires Sound(t0) && PayloadOk(p) && Run(t0, p).Ok? && Undisputed(t0.objectives, Codes(p.objectives))
    ensures Run(Run(t0, p).value, p) == Run(t0, p)
  {
    hide Run, IdsOf, Sound, Undisputed, PayloadOk, Converged;
    RunConverges(t0, p);
    ConvergedStaysPut(Run(t0, p).value, p, IdsOf(t0, p));
  }
}
