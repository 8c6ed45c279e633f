/**
 Rows that stand for a payload code while they are anchored at another: what they do to
 repeated runs and to the cells, and that nothing else does.
 */
module CurriculumDisputes {
  import opened Basics
  import opened CurriculumModel
  import opened CurriculumObjectives
  import opened CurriculumCourses
  import opened CurriculumTheorems
  import opened CurriculumRepeat

  // ---- The row a code was given, without any assumption ----

  /** The row each code was given is anchored at the code or goes by it. */
  predicate Claimed(objs: seq<Objective>, ids: map<string, int>) {
    forall c :: c in ids ==> 0 <= ids[c] < |objs| && ClaimedBy(objs[ids[c]], c)
  }

  predicate ClaimedBy(o: Objective, c: string) {
    o.seedCode == Some(c) || (o.code == c && IsAlias(o.program))
  }

  lemma ClaimStays(a: seq<Objective>, b: seq<Objective>, i: int, c: string)
    requires AllEvolve(a, b) && 0 <= i < |a| && ClaimedBy(a[i], c) && c != ""
    ensures ClaimedBy(b[i], c)
  {
    assert Evolves(a[i], b[i]);
  }

  lemma ClaimsStay(a: seq<Objective>, b: seq<Objective>, ids: map<string, int>)
    requires AllEvolve(a, b) && Claimed(a, ids) && "" !in ids
    ensures Claimed(b, ids)
  {
    hide AllEvolve, ClaimedBy;
    forall c | c in ids ensures 0 <= ids[c] < |b| && ClaimedBy(b[ids[c]], c) {
      EvolvedIsLonger(a, b);
      ClaimStays(a, b, ids[c], c);
    }
  }

  lemma EvolvedIsLonger(a: seq<Objective>, b: seq<Objective>)
    requires AllEvolve(a, b)
    ensures |a| <= |b|
  {
  }

  lemma StepClaims(t0: Tables, data: seq<ObjectiveData>, p: Progress, d: ObjectiveData)
    requires General(t0, data, p) && Claimed(p.session.live.objectives, p.ids) && "" !in p.ids && d.code != ""
    requires ObjectiveStep(p, d).Ok?
    ensures var q := ObjectiveStep(p, d).value; Claimed(q.session.live.objectives, q.ids) && "" !in q.ids
  {
    hide SoundObjectives, AnchorsGenuine, Normalised, Answers, Resolve, Claimed;
    var stored, objs := p.session.stored.objectives, p.session.live.objectives;
    ResolveFindsTheAnswer(stored, d.code);
    match Resolve(stored, d.code)
    case Ok(None) =>
      AppendingEvolves(objs, d);
      ClaimsStay(objs, objs + [FreshObjective(d)], p.ids);
      OneMoreClaim(objs + [FreshObjective(d)], p.ids, d.code, |objs|);
    case Ok(Some(i)) =>
      InRange(stored, d.code, i);
      var after := objs[i := Corrected(objs[i], d)];
      AnswerIsClaimed(stored, d.code, i);
      CorrectionKeepsGenuine(t0.objectives, stored, objs, i, d);
      ClaimsStay(objs, after, p.ids);
      ClaimStays(stored, objs, i, d.code);
      ClaimStays(objs, after, i, d.code);
      OneMoreClaim(after, p.ids, d.code, i);
  }

  lemma AnswerIsClaimed(objs: seq<Objective>, c: string, i: int)
    requires Answers(objs, c, i)
    ensures 0 <= i < |objs| && ClaimedBy(objs[i], c)
  {
  }

  lemma OneMoreClaim(objs: seq<Objective>, ids: map<string, int>, c: string, i: int)
    requires Claimed(objs, ids) && 0 <= i < |objs| && ClaimedBy(objs[i], c)
    ensures Claimed(objs, ids[c := i])
  {
    hide ClaimedBy;
  }

  lemma {:induction false} ObjectivesAreClaimed(t0: Tables, data: seq<ObjectiveData>)
    requires SoundObjectives(t0.objectives) && DistinctCodes(data)
    requires SeedObjectives(Begin(t0), data).Ok?
    ensures var q := SeedObjectives(Begin(t0), data).value; Claimed(q.session.live.objectives, q.ids) && "" !in q.ids
  {
    hide ObjectiveStep, SoundObjectives, General;
    if data != [] {
      var n := |data| - 1;
      ObjectivesAreClaimed(t0, data[..n]);
      ObjectivesAreGeneral(t0, data[..n]);
      StepClaims(t0, data[..n], SeedObjectives(Begin(t0), data[..n]).value, data[n]);
    }
  }

  /** A row taken for a code is the row the code is given, and its anchor stays where it was. */
  lemma TakenRowIsGiven(t0: Tables, data: seq<ObjectiveData>, q: Progress, i: int)
    requires Sound(t0) && DistinctCodes(data) && SeedObjectives(Begin(t0), data) == Ok(q)
    requires SoundObjectives(q.session.live.objectives)
    requires 0 <= i < |t0.objectives| && TakenFor(t0.objectives, Codes(data), i)
    ensures i < |q.session.live.objectives|
    ensures var o, a := q.session.live.objectives[i], t0.objectives[i].code;
            && o.code == a && a in q.ids && q.ids[a] == i && IsAlias(o.program)
            && o.seedCode == t0.objectives[i].seedCode
            && Answers(q.session.live.objectives, a, i)
  {
    ObjectivesAreClaimed(t0, data);
    ObjectivesAreGeneral(t0, data);
    hide SeedObjectives, SoundObjectives, SoundCells, SoundCourses;
    var d0, objs := t0.objectives, q.session.live.objectives;
    var a := d0[i].code;
    AllEvolveTransitive(d0, q.session.stored.objectives, objs);
    assert Evolves(d0[i], objs[i]);
    assert Normalised(d0, Codes(data), objs);
    assert IsAlias(objs[i].program);
    forall x | 0 <= x < |objs| && ClaimedBy(objs[x], a) ensures x == i && objs[x].seedCode != Some(a) {
      assert a != "";
      assert x < |d0| ==> d0[x].seedCode != Some(a);
      SameCodeSameRow(objs, x, i);
    }
    assert a in Codes(data) && a in q.ids;
  }

  // ---- Course lists that bring it out ----

  /** A course code no row has. */
  function FreshCode(courses: seq<Course>): (c: string)
    ensures c != "" && forall k :: 0 <= k < |courses| ==> |courses[k].code| < |c|
  {
    if courses == [] then "K"
    else courses[|courses| - 1].code + FreshCode(courses[..|courses| - 1])
  }

  /** One new course with one level, for code `a`. */
  function NewCourse(t: Tables, a: string): CourseData {
    CourseData(FreshCode(t.courses), "T", [(a, "I")])
  }

  /** The tables after the new course is seeded, if `a` was given row `i`. */
  function WithCourse(t: Tables, objs: seq<Objective>, a: string, i: int): Tables {
    Tables(objs, t.courses + [FreshCourse(NewCourse(t, a))], t.cells[(|t.courses|, i) := "I"])
  }

  lemma OneLevelCanonical(a: string)
    ensures Canonical([(a, "I")]) == [(a, "I")]
  {
    var levels := [(a, "I")];
    assert levels[..0] == [];
  }

  lemma WithCourseIsSound(t: Tables, objs: seq<Objective>, a: string, i: int)
    requires Sound(t) && SoundObjectives(objs) && |t.objectives| <= |objs| && 0 <= i < |objs|
    ensures Sound(WithCourse(t, objs, a, i))
    ensures Sound(Tables(objs, t.courses + [FreshCourse(NewCourse(t, a))], t.cells))
    ensures CoursesCoded(t.courses, NewCourse(t, a).code) == []
    ensures forall o :: (|t.courses|, o) !in t.cells
  {
    hide SoundObjectives;
    var c := NewCourse(t, a).code;
    assert forall k :: 0 <= k < |t.courses| ==> t.courses[k].code != c;
    EmptyOfNone(CoursesCoded(t.courses, c));
  }

  lemma EmptyOfNone(q: seq<int>)
    ensures q == [] || q[0] in q
  {
  }

  /** Seeding the new course adds its row and its one cell, and nothing else. */
  lemma NewCourseIsSeeded(t0: Tables, data: seq<ObjectiveData>, q: Progress, a: string, i: int)
    requires Sound(t0) && General(t0, data, q) && SoundObjectives(q.session.live.objectives)
    requires a in q.ids && q.ids[a] == i && IsAlias(q.session.live.objectives[i].program)
    ensures
      var t1 := WithCourse(t0, q.session.live.objectives, a, i);
      CourseStep(q.session, q.ids, Codes(data), NewCourse(t0, a)) == Ok(Begin(t1))
  {
    hide SoundObjectives, SoundCourses, SoundCells, AnchorsGenuine, Normalised, Canonical, LevelsOf, CoursesCoded, AllEvolve, Codes;
    var s, d, objs := q.session, NewCourse(t0, a), q.session.live.objectives;
    var k, known, levels := |t0.courses|, Codes(data), [(a, "I")];
    AllEvolveTransitive(t0.objectives, s.stored.objectives, objs);
    EvolvedIsLonger(t0.objectives, objs);
    WithCourseIsSound(t0, objs, a, i);
    OneLevelCanonical(a);
    var u := Begin(Tables(objs, t0.courses + [FreshCourse(d)], t0.cells));
    assert CourseRow(s, d) == Ok((u, k, true));
    assert levels[..0] == [];
    var t1 := WithCourse(t0, objs, a, i);
    assert PutLevels(u, k, q.ids, levels[..0]) == Ok(u);
    assert PutLevels(u, k, q.ids, levels) == Ok(u.(live := t1));
    NothingStoredNothingDropped(u.(live := t1), k, known, levels);
  }

  lemma NothingStoredNothingDropped(s: Session, k: int, known: set<string>, levels: Levels)
    requires forall o :: (k, o) !in s.stored.cells
    ensures DropStale(s, k, known, levels) == s
  {
    hide Stale;
    assert forall key :: key in s.stored.cells ==> (key.0, key.1) in s.stored.cells;
    assert DropStale(s, k, known, levels).live.cells == s.live.cells;
  }

  // ---- A disputed row keeps the second run from being idle ----

  /** The row is taken again by the next run. */
  lemma TakenAgain(t0: Tables, data: seq<ObjectiveData>, q: Progress, i: int)
    requires Sound(t0) && DistinctCodes(data) && SeedObjectives(Begin(t0), data) == Ok(q)
    requires SoundObjectives(q.session.live.objectives)
    requires 0 <= i < |t0.objectives| && TakenFor(t0.objectives, Codes(data), i)
    ensures i < |q.session.live.objectives| && TakenFor(q.session.live.objectives, Codes(data), i)
  {
    hide Sound, SoundObjectives, SeedObjectives;
    TakenRowIsGiven(t0, data, q, i);
  }

  /** A stale cell that was there before the course is seeded is gone afterwards. */
  lemma StaleCellGoes(s: Session, k: int, isNew: bool, ids: map<string, int>, known: set<string>, levels: Levels, o: int)
    requires SameShape(s) && 0 <= k < |s.live.courses| && IdsIn(ids, s.live.objectives)
    requires SeedMapping(s, k, isNew, ids, known, levels).Ok?
    requires (k, o) in s.stored.cells && Stale(s.live.objectives, o, known, levels)
    ensures (k, o) !in SeedMapping(s, k, isNew, ids, known, levels).value.live.cells
  {
    hide Sound, LevelsOf, Stale;
  }

  /** The second course step, if it succeeds, drops the cell the first one added. */
  lemma SecondStepDropsTheCell(
    t0: Tables, objs: seq<Objective>, data: seq<ObjectiveData>, q: Progress, a: string, i: int)
    requires var t1 := WithCourse(t0, objs, a, i);
             && Sound(t0) && Sound(t1) && General(t1, data, q)
             && 0 <= i < |q.session.live.objectives| && Stale(q.session.live.objectives, i, Codes(data), [(a, "I")])
             && CourseStep(q.session, q.ids, Codes(data), NewCourse(t0, a)).Ok?
    ensures (|t0.courses|, i) !in CourseStep(q.session, q.ids, Codes(data), NewCourse(t0, a)).value.live.cells
  {
    hide SoundObjectives, SoundCells, AnchorsGenuine, Normalised, AllEvolve, Canonical, SeedMapping, Stale, Codes, CourseRow, CoursesCoded;
    var s, d, k := q.session, NewCourse(t0, a), |t0.courses|;
    RowForFinds(s, d);
    assert s.live.courses[k].code == d.code;
    CourseRowFrame(s, d);
    var (t, n, isNew) := CourseRow(s, d).value;
    OneLevelCanonical(a);
    StoredCellsStay(s, d);
    StaleCellGoes(t, k, isNew, q.ids, Codes(data), [(a, "I")], i);
  }

  lemma StoredCellsStay(s: Session, d: CourseData)
    requires CourseShape(s) && CourseRow(s, d).Ok?
    ensures CourseRow(s, d).value.0.stored.cells == s.stored.cells
  {
    hide Sound, SoundCourses;
    CourseRowFrame(s, d);
  }

  lemma OneCourse(s: Session, ids: map<string, int>, known: set<string>, d: CourseData)
    requires SameShape(s) && IdsIn(ids, s.live.objectives)
    ensures SeedCourses(s, ids, known, [d]) == CourseStep(s, ids, known, d)
  {
    hide CourseStep;
    assert [d][..0] == [];
    assert SeedCourses(s, ids, known, [d][..0]) == Ok(s);
  }

  /** A run with one course, from the step that seeds it. */
  lemma RunOfOne(t: Tables, p: Payload, q: Progress, d: CourseData)
    requires IsAlias(p.program) && SeedObjectives(Begin(t), p.objectives) == Ok(q) && p.courses == [d]
    ensures var r := CourseStep(q.session, q.ids, Codes(p.objectives), d);
            && (Run(t, p).Ok? ==> r.Ok? && Run(t, p).value == r.value.live && SoundObjectives(r.value.live.objectives))
            && (r.Ok? && Flush(r.value).Ok? ==> Run(t, p) == Ok(r.value.live))
  {
    hide CourseStep, SeedObjectives, SoundObjectives, SoundCourses, SoundCells, IsAlias;
    OneCourse(q.session, q.ids, Codes(p.objectives), d);
  }

  /** The objective pass of a payload that can be run at all. */
  lemma PassOfRunnable(t0: Tables, program: string, data: seq<ObjectiveData>)
    requires Sound(t0) && Run(t0, Payload(program, data, [])).Ok?
    ensures IsAlias(program) && SeedObjectives(Begin(t0), data).Ok?
    ensures var q := SeedObjectives(Begin(t0), data).value;
            General(t0, data, q) && SoundObjectives(q.session.live.objectives)
  {
    hide SeedObjectives, SoundObjectives, SoundCells, SoundCourses, General, Run;
    var p := Payload(program, data, []);
    RunUnfolds(t0, p);
    ObjectivesAreGeneral(t0, data);
  }

  lemma NewCourseRuns(t0: Tables, program: string, data: seq<ObjectiveData>, i: int)
    requires Sound(t0) && DistinctCodes(data) && Run(t0, Payload(program, data, [])).Ok?
    requires 0 <= i < |t0.objectives| && TakenFor(t0.objectives, Codes(data), i)
    ensures
      var a := t0.objectives[i].code;
      var p := Payload(program, data, [NewCourse(t0, a)]);
      && PayloadOk(p) && SeedObjectives(Begin(t0), data).Ok?
      && var objs := SeedObjectives(Begin(t0), data).value.session.live.objectives;
      && SoundObjectives(objs) && 0 <= i < |objs| && Sound(WithCourse(t0, objs, a, i))
      && Run(t0, p) == Ok(WithCourse(t0, objs, a, i))
  {
    hide SeedObjectives, SoundObjectives, SoundCells, SoundCourses, General, Run, CourseStep, TakenFor, Codes, DistinctCodes;
    var a := t0.objectives[i].code;
    var d := NewCourse(t0, a);
    var p := Payload(program, data, [d]);
    PassOfRunnable(t0, program, data);
    var q := SeedObjectives(Begin(t0), data).value;
    TakenRowIsGiven(t0, data, q, i);
    NewCourseIsSeeded(t0, data, q, a, i);
    ObjectivesOnlyGrow(t0, data, q);
    WithCourseIsSound(t0, q.session.live.objectives, a, i);
    RunOfOne(t0, p, q, d);
  }

  lemma ObjectivesOnlyGrow(t0: Tables, data: seq<ObjectiveData>, q: Progress)
    requires General(t0, data, q)
    ensures |t0.objectives| <= |q.session.live.objectives|
  {
  }

  /** The run that seeds the new course is not repeated by the next. */
  lemma DisputedRunsDiffer(t0: Tables, program: string, data: seq<ObjectiveData>, i: int)
    requires Sound(t0) && DistinctCodes(data) && Run(t0, Payload(program, data, [])).Ok?
    requires 0 <= i < |t0.objectives| && Disputed(t0.objectives, Codes(data), i)
    ensures var p := Payload(program, data, [NewCourse(t0, t0.objectives[i].code)]);
            PayloadOk(p) && Run(t0, p).Ok? && Run(Run(t0, p).value, p) != Run(t0, p)
  {
    hide SeedObjectives, SoundObjectives, SoundCells, SoundCourses, General, Run, CourseStep, TakenFor, Codes, DistinctCodes,
         DistinctLevels, Answers;
    var a := t0.objectives[i].code;
    var d := NewCourse(t0, a);
    var p := Payload(program, data, [d]);
    NewCourseRuns(t0, program, data, i);
    PassOfRunnable(t0, program, data);
    var q := SeedObjectives(Begin(t0), data).value;
    var objs := q.session.live.objectives;
    var t1 := WithCourse(t0, objs, a, i);
    TakenRowIsGiven(t0, data, q, i);
    TakenAgain(t0, data, q, i);
    if Run(t1, p).Ok? {
      RunUnfolds(t1, p);
      var q2 := SeedObjectives(Begin(t1), data).value;
      RunOfOne(t1, p, q2, d);
      ObjectivesAreGeneral(t1, data);
      SameObjectives(q2.session, q2.ids, Codes(data), d);
      TakenRowIsGiven(t1, data, q2, i);
      TakenIsNotListed(t0.objectives, Codes(data), i);
      SecondStepDropsTheCell(t0, objs, data, q2, a, i);
    }
  }

  lemma SameObjectives(s: Session, ids: map<string, int>, known: set<string>, d: CourseData)
    requires SameShape(s) && IdsIn(ids, s.live.objectives) && CourseStep(s, ids, known, d).Ok?
    ensures CourseStep(s, ids, known, d).value.live.objectives == s.live.objectives
  {
    hide CourseStep;
  }

  lemma TakenIsNotListed(objs: seq<Objective>, codes: set<string>, i: int)
    requires 0 <= i < |objs| && TakenFor(objs, codes, i)
    ensures Named(objs[i].seedCode) && Identity(objs[i]) == objs[i].seedCode.value
    ensures !Lists([(objs[i].code, "I")], Identity(objs[i]))
    ensures objs[i].code in codes && objs[i].code != objs[i].seedCode.value && !Anchored(objs, objs[i].code)
  {
  }

  /** The second run with the same payload does nothing. */
  predicate Idempotent(t: Tables, p: Payload) {
    PayloadOk(p) && Run(t, p).Ok? ==> Run(Run(t, p).value, p) == Run(t, p)
  }

  /**
   Whatever the courses of the payload, a second run changes nothing, if and only if no
   row can be taken for a payload code while it is anchored at another payload code.
   */
  lemma IdempotentExactlyWhenUndisputed(t0: Tables, program: string, data: seq<ObjectiveData>)
    requires Sound(t0) && DistinctCodes(data) && Run(t0, Payload(program, data, [])).Ok?
    ensures (forall courses :: Idempotent(t0, Payload(program, data, courses)))
       <==> Undisputed(t0.objectives, Codes(data))
  {
    hide Run, Sound, Disputed, PayloadOk, Codes, DistinctCodes;
    if Undisputed(t0.objectives, Codes(data)) {
      forall courses ensures Idempotent(t0, Payload(program, data, courses)) {
        var p := Payload(program, data, courses);
        if PayloadOk(p) && Run(t0, p).Ok? {
          SecondRunChangesNothing(t0, p);
        }
      }
    } else {
      var i :| 0 <= i < |t0.objectives| && Disputed(t0.objectives, Codes(data), i);
      DisputedRunsDiffer(t0, program, data, i);
      assert !Idempotent(t0, Payload(program, data, [NewCourse(t0, t0.objectives[i].code)]));
    }
  }

  // ---- What taken rows do to the cells ----

  /** The cell of the new course is also a cell of the code the row is anchored at. */
  lemma DisputedCellStrays(t0: Tables, program: string, data: seq<ObjectiveData>, i: int)
    requires Sound(t0) && DistinctCodes(data) && Run(t0, Payload(program, data, [])).Ok?
    requires 0 <= i < |t0.objectives| && Disputed(t0.objectives, Codes(data), i)
    ensures var p := Payload(program, data, [NewCourse(t0, t0.objectives[i].code)]);
            PayloadOk(p) && Run(t0, p).Ok? && !CellsExact(Run(t0, p).value, p)
  {
    hide SeedObjectives, SoundObjectives, SoundCells, SoundCourses, General, Run, CourseStep, Codes, DistinctCodes,
         DistinctLevels, CellsExact, Anchored;
    var a, b := t0.objectives[i].code, t0.objectives[i].seedCode.value;
    var p := Payload(program, data, [NewCourse(t0, a)]);
    NewCourseRuns(t0, program, data, i);
    TakenRowIsGiven(t0, data, SeedObjectives(Begin(t0), data).value, i);
    var t1, k := Run(t0, p).value, |t0.courses|;
    assert (b, "I") !in p.courses[0].levels;
    assert !CellExact(t1, p, 0, k, b, i, "I");
    CellOfAll(t1, p, 0, k, b, i, "I");
  }

  lemma CellOfAll(t: Tables, p: Payload, j: int, k: int, c: string, o: int, level: string)
    ensures CellsExact(t, p) ==> CellExact(t, p, j, k, c, o, level)
  {
    hide CellExact;
  }

  /** Course row `k`, as a payload without a single level describes it. */
  function BareCourse(t: Tables, k: int): CourseData
    requires 0 <= k < |t.courses|
  {
    CourseData(t.courses[k].code, "T", [])
  }

  lemma FewerCellsAreSound(t: Tables, cells: Cells, course: Course, k: int)
    requires Sound(t) && 0 <= k < |t.courses| && course.code == t.courses[k].code
    requires forall key :: key in cells ==> key in t.cells && cells[key] == t.cells[key]
    ensures Sound(Tables(t.objectives, t.courses[k := course], cells))
  {
    hide SoundObjectives;
  }

  /** The bare course can be seeded, and only its stale cells go. */
  lemma BareCourseIsSeeded(t0: Tables, data: seq<ObjectiveData>, q: Progress, k: int, o: int)
    requires Sound(t0) && General(t0, data, q) && SoundObjectives(q.session.live.objectives)
    requires 0 <= k < |t0.courses| && IsAlias(t0.courses[k].program) && !t0.courses[k].mapped
    ensures var r := CourseStep(q.session, q.ids, Codes(data), BareCourse(t0, k));
            && r.Ok? && Flush(r.value).Ok?
            && |r.value.live.courses| == |t0.courses|
            && r.value.live.courses[k].code == t0.courses[k].code && !r.value.live.courses[k].mapped
            && ((k, o) in t0.cells && !Stale(q.session.live.objectives, o, Codes(data), []) ==>
                  (k, o) in r.value.live.cells && r.value.live.cells[(k, o)] == t0.cells[(k, o)])
  {
    hide SoundObjectives, SoundCourses, SoundCells, AnchorsGenuine, Normalised, LevelsOf, CoursesCoded, AllEvolve, Codes, Stale;
    var s, d, known := q.session, BareCourse(t0, k), Codes(data);
    ShapeOfPass(t0, data, q);
    RowForFinds(s, d);
    assert RowFor(s, d) == k;
    var c := CorrectedCourse(t0.courses[k], d);
    var t := s.(live := s.live.(courses := s.live.courses[k := c]));
    assert CourseRow(s, d) == Ok((t, k, false));
    assert PutLevels(t, k, q.ids, []) == Ok(t);
    var u := DropStale(t, k, known, []);
    DropStaleKeepsRest(t, k, known, []);
    var base := Tables(s.live.objectives, t0.courses, t0.cells);
    MoreObjectivesAreSound(t0, data, q);
    FewerCellsAreSound(base, u.live.cells, c, k);
    FewerCellsAreSound(base, u.live.cells, c.(mappingVersion := c.mappingVersion + 1), k);
    assert t0.courses[k := c][k := c.(mappingVersion := c.mappingVersion + 1)]
        == t0.courses[k := c.(mappingVersion := c.mappingVersion + 1)];
  }

  lemma ShapeOfPass(t0: Tables, data: seq<ObjectiveData>, q: Progress)
    requires Sound(t0) && General(t0, data, q)
    ensures CourseShape(q.session)
  {
    hide SoundObjectives, AllEvolve, AnchorsGenuine, Normalised;
  }

  lemma MoreObjectivesAreSound(t0: Tables, data: seq<ObjectiveData>, q: Progress)
    requires Sound(t0) && General(t0, data, q) && SoundObjectives(q.session.live.objectives)
    ensures Sound(Tables(q.session.live.objectives, t0.courses, t0.cells))
  {
    hide SoundObjectives, AnchorsGenuine, Normalised;
  }

  /** A row anchored outside the payload keeps a cell that the payload does not list. */
  lemma ForeignAnchorKeepsItsCell(t0: Tables, program: string, data: seq<ObjectiveData>, i: int, k: int)
    requires Sound(t0) && DistinctCodes(data) && Run(t0, Payload(program, data, [])).Ok?
    requires 0 <= i < |t0.objectives| && TakenFor(t0.objectives, Codes(data), i)
    requires t0.objectives[i].seedCode.value !in Codes(data)
    requires 0 <= k < |t0.courses| && (k, i) in t0.cells && IsAlias(t0.courses[k].program) && !t0.courses[k].mapped
    ensures var p := Payload(program, data, [BareCourse(t0, k)]);
            PayloadOk(p) && Run(t0, p).Ok? && !CellsExact(Run(t0, p).value, p)
  {
    hide SeedObjectives, Sound, SoundObjectives, General, Run, CourseStep, Codes, DistinctCodes, CellsExact, Answers, Anchored,
         TakenFor, Flush, IsAlias;
    var a, d := t0.objectives[i].code, BareCourse(t0, k);
    var p := Payload(program, data, [d]);
    PassOfRunnable(t0, program, data);
    var q := SeedObjectives(Begin(t0), data).value;
    TakenRowIsGiven(t0, data, q, i);
    TakenIsNotListed(t0.objectives, Codes(data), i);
    BareCourseIsSeeded(t0, data, q, k, i);
    ShapeOfPass(t0, data, q);
    SameObjectives(q.session, q.ids, Codes(data), d);
    RunOfOne(t0, p, q, d);
    var t1, level := Run(t0, p).value, t0.cells[(k, i)];
    assert !CellExact(t1, p, 0, k, a, i, level);
    CellOfAll(t1, p, 0, k, a, i, level);
  }

  /** After a run with this payload the cells are exactly what it says. */
  ghost predicate LeavesCellsExact(t: Tables, p: Payload) {
    Sound(t) && PayloadOk(p) && Run(t, p).Ok? ==> CellsExact(Run(t, p).value, p)
  }

  /**
   Whatever the courses of the payload, the cells come out exactly as it says, if and only
   if no row that can be taken for a code is anchored at another payload code or has a
   cell that a payload's course could come to hold.
   */
  lemma CellsExactlyWhenNoneStrays(t0: Tables, program: string, data: seq<ObjectiveData>)
    requires Sound(t0) && DistinctCodes(data) && Run(t0, Payload(program, data, [])).Ok?
    ensures (forall courses :: LeavesCellsExact(t0, Payload(program, data, courses)))
       <==> NoneStrays(t0, Codes(data))
  {
    hide Run, Sound, PayloadOk, Codes, DistinctCodes, CellsExact, TakenFor, IsAlias;
    if NoneStrays(t0, Codes(data)) {
      forall courses ensures LeavesCellsExact(t0, Payload(program, data, courses)) {
        var p := Payload(program, data, courses);
        if PayloadOk(p) && Run(t0, p).Ok? {
          CellsFollowThePayload(t0, p);
        }
      }
    } else {
      var i :| 0 <= i < |t0.objectives| && Strays(t0, Codes(data), i);
      TakenIsNotListed(t0.objectives, Codes(data), i);
      if t0.objectives[i].seedCode.value in Codes(data) {
        DisputedCellStrays(t0, program, data, i);
        assert !LeavesCellsExact(t0, Payload(program, data, [NewCourse(t0, t0.objectives[i].code)]));
      } else {
        var k :| 0 <= k < |t0.courses| && HoldsCell(t0, k, i);
        ForeignAnchorKeepsItsCell(t0, program, data, i, k);
        assert !LeavesCellsExact(t0, Payload(program, data, [BareCourse(t0, k)]));
      }
    }
  }

  // ---- Over every state of the courses and the cells ----

  /** The objective pass looks at neither courses nor cells. */
  lemma {:induction false} PassIgnoresTheRest(a: Tables, b: Tables, data: seq<ObjectiveData>)
    requires a.objectives == b.objectives && Sound(b) && SeedObjectives(Begin(a), data).Ok?
    ensures SeedObjectives(Begin(b), data).Ok?
    ensures var q, r := SeedObjectives(Begin(a), data).value, SeedObjectives(Begin(b), data).value;
            && r.ids == q.ids && !r.session.clash
            && r.session.stored == b.(objectives := q.session.stored.objectives)
            && r.session.live == b.(objectives := q.session.live.objectives)
            && |b.objectives| <= |r.session.live.objectives|
  {
    hide Resolve, Corrected, SoundObjectives, SoundCourses;
    if data != [] {
      PassIgnoresTheRest(a, b, data[..|data| - 1]);
    }
  }

  lemma RunnableAnywhere(a: Tables, b: Tables, program: string, data: seq<ObjectiveData>)
    requires a.objectives == b.objectives && Sound(b) && Run(a, Payload(program, data, [])).Ok?
    ensures Run(b, Payload(program, data, [])).Ok?
  {
    hide SeedObjectives, SoundObjectives, SoundCourses;
    RunUnfolds(a, Payload(program, data, []));
    PassIgnoresTheRest(a, b, data);
  }

  /**
   Whatever the course rows and cells, and whatever the courses of the payload, the cells
   come out exactly as it says, if and only if the objective rows are aligned with it.
   */
  lemma CellsExactEverywhereWhenAligned(objs: seq<Objective>, program: string, data: seq<ObjectiveData>)
    requires Sound(Tables(objs, [], map[])) && DistinctCodes(data)
    requires Run(Tables(objs, [], map[]), Payload(program, data, [])).Ok?
    ensures (forall rows: seq<Course>, cells: Cells, courses: seq<CourseData> ::
               LeavesCellsExact(Tables(objs, rows, cells), Payload(program, data, courses)))
       <==> Aligned(objs, Codes(data))
  {
    hide Run, PayloadOk, Codes, DistinctCodes, CellsExact, TakenFor, LeavesCellsExact, SoundObjectives;
    if Aligned(objs, Codes(data)) {
      forall rows: seq<Course>, cells: Cells, courses: seq<CourseData>
        ensures LeavesCellsExact(Tables(objs, rows, cells), Payload(program, data, courses))
      {
        ExactWhenAligned(Tables(objs, rows, cells), Payload(program, data, courses));
      }
    } else {
      var i :| 0 <= i < |objs| && TakenFor(objs, Codes(data), i);
      var rows, cells := [Course("K", "T", CANONICAL, 1, false)], map[(0, i) := "I"];
      var t := Tables(objs, rows, cells);
      assert Sound(t);
      RunnableAnywhere(Tables(objs, [], map[]), t, program, data);
      TakenIsNotListed(objs, Codes(data), i);
      assert HoldsCell(t, 0, i);
      assert Strays(t, Codes(data), i);
      CellsExactlyWhenNoneStrays(t, program, data);
      var courses :| !LeavesCellsExact(t, Payload(program, data, courses));
    }
  }

  lemma ExactWhenAligned(t: Tables, p: Payload)
    requires Aligned(t.objectives, Codes(p.objectives))
    ensures LeavesCellsExact(t, p)
  {
    hide Run, Sound, PayloadOk, Codes, CellsExact, TakenFor, Aligned;
    NoneStraysMeansUndisputed(t, Codes(p.objectives));
    if Sound(t) && PayloadOk(p) && Run(t, p).Ok? {
      CellsFollowThePayload(t, p);
    }
  }

  // ---- Two levels for one cell ----

  /** Some level of the list is put into cell `o`. */
  predicate PutInto(objs: seq<Objective>, ids: map<string, int>, levels: Levels, o: int) {
    exists i :: 0 <= i < |levels| && IntoCell(objs, ids, levels[i].0, o)
  }

  predicate IntoCell(objs: seq<Objective>, ids: map<string, int>, code: string, o: int) {
    code in ids && ids[code] == o && 0 <= o < |objs| && IsAlias(objs[o].program)
  }

  /** Two levels of the list are put into cell `o`. */
  predicate PutTwice(objs: seq<Objective>, ids: map<string, int>, levels: Levels, o: int) {
    exists i, j :: 0 <= i < j < |levels| && IntoCell(objs, ids, levels[i].0, o) && IntoCell(objs, ids, levels[j].0, o)
  }

  lemma PutTwiceGrows(objs: seq<Objective>, ids: map<string, int>, levels: Levels, o: int)
    requires levels != []
    ensures
      var n := |levels| - 1;
      && (PutInto(objs, ids, levels, o) <==> PutInto(objs, ids, levels[..n], o) || IntoCell(objs, ids, levels[n].0, o))
      && (PutTwice(objs, ids, levels, o) <==>
            PutTwice(objs, ids, levels[..n], o) || (PutInto(objs, ids, levels[..n], o) && IntoCell(objs, ids, levels[n].0, o)))
  {
    hide IntoCell;
    var n := |levels| - 1;
    assert forall i :: 0 <= i < n ==> levels[..n][i] == levels[i];
  }

  /** Two pending rows for one cell that was not stored are noticed, and nothing else is. */
  lemma {:induction false} ClashExactly(s: Session, k: int, ids: map<string, int>, levels: Levels)
    requires Steady(s) && IdsIn(ids, s.live.objectives) && PutLevels(s, k, ids, levels).Ok?
    ensures
      var u := PutLevels(s, k, ids, levels).value;
      && (u.clash <==> exists o :: (k, o) !in s.stored.cells && PutTwice(s.live.objectives, ids, levels, o))
      && forall o :: (k, o) in u.live.cells <==> (k, o) in s.stored.cells || PutInto(s.live.objectives, ids, levels, o)
  {
    hide IsAlias, PutInto, PutTwice;
    if levels == [] {
      NothingPutTwice(s.live.objectives, ids);
    } else {
      var n := |levels| - 1;
      ClashExactly(s, k, ids, levels[..n]);
      forall o
        ensures PutInto(s.live.objectives, ids, levels, o)
           <==> PutInto(s.live.objectives, ids, levels[..n], o) || IntoCell(s.live.objectives, ids, levels[n].0, o)
        ensures PutTwice(s.live.objectives, ids, levels, o)
           <==> PutTwice(s.live.objectives, ids, levels[..n], o)
                || (PutInto(s.live.objectives, ids, levels[..n], o) && IntoCell(s.live.objectives, ids, levels[n].0, o))
      {
        PutTwiceGrows(s.live.objectives, ids, levels, o);
      }
    }
  }

  lemma NothingPutTwice(objs: seq<Objective>, ids: map<string, int>)
    ensures forall o :: !PutInto(objs, ids, [], o) && !PutTwice(objs, ids, [], o)
  {
  }

  /** A course whose codes share a row, with a level for each and no cell yet, is refused. */
  lemma TwoLevelsOfOneCellAreRefused(
    s: Session, k: int, isNew: bool, ids: map<string, int>, known: set<string>, levels: Levels, o: int)
    requires Steady(s) && 0 <= k < |s.live.courses| && IdsIn(ids, s.live.objectives) && PutLevels(s, k, ids, levels).Ok?
    requires (k, o) !in s.stored.cells && PutTwice(s.live.objectives, ids, levels, o)
    ensures SeedMapping(s, k, isNew, ids, known, levels) == Err(IntegrityError)
  {
    hide PutLevels, PutTwice, Sound;
    ClashExactly(s, k, ids, levels);
  }

  // ---- An example ----

  /** One administrator's row that goes by code A but is anchored at B, both in the payload. */
  function Renamed(version: int, mapped: bool): Tables {
    Tables([Objective("A", "x", CANONICAL, 1, true, Some("B"))],
           [Course("K", "T", CANONICAL, version, false)],
           if mapped then map[(0, 0) := "I"] else map[])
  }

  function RenamedPayload(): Payload {
    Payload(CANONICAL, [ObjectiveData("A", "x"), ObjectiveData("B", "x")], [CourseData("K", "T", [("A", "I")])])
  }

  lemma RenamedObjectives(version: int, mapped: bool)
    ensures SeedObjectives(Begin(Renamed(version, mapped)), RenamedPayload().objectives)
            == Ok(Progress(Begin(Renamed(version, mapped)), map["A" := 0, "B" := 0]))
  {
    var t, data := Renamed(version, mapped), RenamedPayload().objectives;
    assert SoundObjectives(t.objectives);
    forall i | 0 <= i < |t.objectives| ensures t.objectives[i].seedCode != Some("A") {
    }
    ResolveFindsTheAnswer(t.objectives, "A");
    ResolveFindsTheAnswer(t.objectives, "B");
    assert Answers(t.objectives, "A", 0) && Answers(t.objectives, "B", 0);
    assert t.objectives[0 := t.objectives[0]] == t.objectives;
    assert data[..1] == [data[0]] && data[..1][..0] == [];
    assert SeedObjectives(Begin(t), data[..1]) == Ok(Progress(Begin(t), map["A" := 0]));
  }

  lemma RenamedRow(version: int, mapped: bool)
    ensures CourseRow(Begin(Renamed(version, mapped)), RenamedPayload().courses[0])
            == Ok((Begin(Renamed(version, mapped)), 0, false))
  {
    hide SoundObjectives, SoundCells;
    var t, d := Renamed(version, mapped), RenamedPayload().courses[0];
    RowForFinds(Begin(t), d);
    assert t.courses[0].code == d.code;
    assert t.courses[0 := CorrectedCourse(t.courses[0], d)] == t.courses;
  }

  lemma RenamedCanonical()
    ensures Canonical(RenamedPayload().courses[0].levels) == [("A", "I")]
  {
    var levels := [("A", "I")];
    assert levels[..0] == [];
  }

  lemma RenamedLevels(version: int, mapped: bool)
    ensures
      var s := Begin(Renamed(version, mapped));
      PutLevels(s, 0, map["A" := 0, "B" := 0], [("A", "I")]) == Ok(s.(live := Renamed(version, true)))
  {
    var s, ids, levels := Begin(Renamed(version, mapped)), map["A" := 0, "B" := 0], [("A", "I")];
    assert levels[..0] == [];
    assert PutLevels(s, 0, ids, levels[..0]) == Ok(s);
    assert LevelStep(s, 0, ids, ("A", "I")) == Ok(s.(live := Renamed(version, true))) by {
      assert s.live.cells[(0, 0) := "I"] == map[(0, 0) := "I"];
    }
  }

  lemma RenamedDrops(version: int, mapped: bool)
    ensures
      var s := Begin(Renamed(version, mapped)).(live := Renamed(version, true));
      DropStale(s, 0, {"A", "B"}, [("A", "I")]) == s.(live := Renamed(version, !mapped))
  {
    var t, levels := Renamed(version, mapped), [("A", "I")];
    var s := Begin(t).(live := Renamed(version, true));
    assert !Lists(levels, "B");
    assert Stale(t.objectives, 0, {"A", "B"}, levels);
    assert DropStale(s, 0, {"A", "B"}, levels).live.cells == Renamed(version, !mapped).cells;
  }

  lemma RenamedIsSound(version: int, mapped: bool)
    ensures Sound(Renamed(version, mapped))
  {
  }

  lemma RenamedMapping(version: int, mapped: bool)
    ensures
      var t, u := Renamed(version, mapped), Renamed(version + 1, !mapped);
      SeedMapping(Begin(t), 0, false, map["A" := 0, "B" := 0], {"A", "B"}, [("A", "I")])
        == Ok(Session(u.(courses := t.courses), u, false))
  {
    hide PutLevels, DropStale, LevelsOf, Sound;
    var t, v := Renamed(version, mapped), Renamed(version, !mapped);
    RenamedLevels(version, mapped);
    RenamedDrops(version, mapped);
    RenamedIsSound(version, !mapped);
    LevelsOfRow(Begin(t), Begin(v), 0);
    assert !SameAt(t.cells, v.cells, (0, 0));
    assert t.courses[0 := t.courses[0].(mappingVersion := version + 1)] == Renamed(version + 1, !mapped).courses;
  }

  lemma RenamedCourse(version: int, mapped: bool)
    ensures
      var t, u := Renamed(version, mapped), Renamed(version + 1, !mapped);
      CourseStep(Begin(t), map["A" := 0, "B" := 0], {"A", "B"}, RenamedPayload().courses[0])
        == Ok(Session(u.(courses := t.courses), u, false))
  {
    hide CourseRow, SeedMapping, Canonical;
    RenamedRow(version, mapped);
    RenamedCanonical();
    RenamedMapping(version, mapped);
  }

  lemma RenamedRun(version: int, mapped: bool)
    ensures Run(Renamed(version, mapped), RenamedPayload()) == Ok(Renamed(version + 1, !mapped))
  {
    hide CourseStep, SeedObjectives, SoundObjectives;
    RenamedIsSound(version + 1, !mapped);
    var t, u, p := Renamed(version, mapped), Renamed(version + 1, !mapped), RenamedPayload();
    RenamedObjectives(version, mapped);
    RenamedCourse(version, mapped);
    assert Codes(p.objectives) == {"A", "B"} by {
      CodesOf(p.objectives);
      assert p.objectives[0].code == "A" && p.objectives[1].code == "B";
    }
    assert p.courses[..0] == [];
    assert SeedCourses(Begin(t), map["A" := 0, "B" := 0], {"A", "B"}, p.courses) == Ok(Session(u.(courses := t.courses), u, false));
  }

  lemma RenamedIsTaken(version: int, codes: set<string>)
    requires "A" in codes && "B" in codes
    ensures TakenFor(Renamed(version, false).objectives, codes, 0)
  {
    var objs := Renamed(version, false).objectives;
    assert objs[0].seedCode.value == "B" && "B" != "A";
    forall i | 0 <= i < |objs| ensures objs[i].seedCode != Some("A") {
    }
  }

  /**
   With a disputed row a run need not converge: the cell added by one run is removed by the
   next and added again by the one after, for ever, and the mapping version keeps rising.
   */
  lemma DisputedRunsOscillate(version: int)
    ensures PayloadOk(RenamedPayload())
    ensures !Undisputed(Renamed(version, false).objectives, Codes(RenamedPayload().objectives))
    ensures Run(Renamed(version, false), RenamedPayload()) == Ok(Renamed(version + 1, true))
    ensures Run(Renamed(version, true), RenamedPayload()) == Ok(Renamed(version + 1, false))
  {
    hide Run;
    var p := RenamedPayload();
    var t, codes := Renamed(version, false), Codes(p.objectives);
    CodesOf(p.objectives);
    assert p.objectives[0].code in codes && p.objectives[1].code in codes;
    RenamedIsTaken(version, codes);
    assert Disputed(t.objectives, codes, 0);
    RenamedRun(version, false);
    RenamedRun(version, true);
  }
}
