/** What a run leaves of each payload objective and course, field by field. */
module CurriculumOutcomes {
  import opened Basics
  import opened CurriculumModel
  import opened CurriculumObjectives
  import opened CurriculumCourses
  import opened CurriculumTheorems

  // ---- Objectives ----

  /** The row is anchored at the code, or goes by it in the program and nothing is anchored there. */
  predicate StandsFor(objs: seq<Objective>, code: string, i: int) {
    && 0 <= i < |objs|
    && (|| objs[i].seedCode == Some(code)
        || (&& objs[i].code == code && objs[i].program in {"BSInfoTech", "BSIT"}
            && forall k :: 0 <= k < |objs| ==> objs[k].seedCode != Some(code)))
  }

  lemma StandsForAnswers(objs: seq<Objective>, code: string)
    ensures forall i :: StandsFor(objs, code, i) <==> Answers(objs, code, i)
  {
    assert Anchored(objs, code) <==> !(forall k :: 0 <= k < |objs| ==> objs[k].seedCode != Some(code));
  }

  /** An administrator's row stays; any other takes the payload's description and the program. */
  predicate Brought(a: Objective, b: Objective, d: ObjectiveData) {
    && b.code == a.code && b.managed == a.managed
    && if a.managed then b == a
       else
         && b.program == "BSInfoTech" && b.description == d.description
         && b.version == a.version + (if a.program != "BSInfoTech" || a.description != d.description then 1 else 0)
         && b.seedCode == if a.seedCode.GetOr("") == "" then Some(d.code) else a.seedCode
  }

  predicate BrandNew(b: Objective, d: ObjectiveData) {
    && b.code == d.code && b.description == d.description && b.program == "BSInfoTech"
    && b.version == 1 && !b.managed && b.seedCode == Some(d.code)
  }

  /** Row `o` stands for the payload objective, and is the row that did, brought up to date, or new. */
  ghost predicate ObjectiveSeeded(d0: seq<Objective>, objs: seq<Objective>, d: ObjectiveData, o: int) {
    && |d0| <= |objs| && StandsFor(objs, d.code, o)
    && if o < |d0| then StandsFor(d0, d.code, o) && Brought(d0[o], objs[o], d)
       else BrandNew(objs[o], d) && forall i :: !StandsFor(d0, d.code, i)
  }

  ghost predicate HasObjective(d0: seq<Objective>, objs: seq<Objective>, d: ObjectiveData) {
    exists o :: ObjectiveSeeded(d0, objs, d, o)
  }

  ghost predicate ForSomeObjective(d0: seq<Objective>, objs: seq<Objective>, data: seq<ObjectiveData>, i: int) {
    exists j :: 0 <= j < |data| && ObjectiveSeeded(d0, objs, data[j], i)
  }

  predicate StandsForNone(d0: seq<Objective>, data: seq<ObjectiveData>, i: int) {
    forall j :: 0 <= j < |data| ==> !StandsFor(d0, data[j].code, i)
  }

  /** Each payload objective has its row; rows that stand for none are kept, and none are added. */
  ghost predicate ObjectivesAsPayload(d0: seq<Objective>, objs: seq<Objective>, data: seq<ObjectiveData>) {
    && |d0| <= |objs|
    && (forall j :: 0 <= j < |data| ==> HasObjective(d0, objs, data[j]))
    && (forall i :: 0 <= i < |d0| && StandsForNone(d0, data, i) ==> objs[i] == d0[i])
    && (forall i :: |d0| <= i < |objs| ==> ForSomeObjective(d0, objs, data, i))
  }

  /**
   When no row stands for two payload codes: each payload objective has its row, the row
   that stood for it brought up to date or a new one, and every other row is as it was.
   */
  lemma ObjectivesEndAsThePayloadSays(t0: Tables, p: Payload)
    requires Sound(t0) && PayloadOk(p) && Run(t0, p).Ok? && Undisputed(t0.objectives, Codes(p.objectives))
    ensures ObjectivesAsPayload(t0.objectives, Run(t0, p).value.objectives, p.objectives)
  {
    hide *;
    FinalPass(t0, p);
    FinalObjectives(t0.objectives, Codes(p.objectives), p.objectives, Run(t0, p).value.objectives, IdsOf(t0, p));
  }

  lemma FinalObjectives(
    d0: seq<Objective>, codes: set<string>, data: seq<ObjectiveData>, objs: seq<Objective>, ids: map<string, int>)
    requires Underway(d0, codes, data, objs, objs, ids)
    ensures ObjectivesAsPayload(d0, objs, data)
  {
    ExactOf(d0, codes, data, objs, ids);
    Widths(d0, data, objs, ids);
    hide Underway, ObjectiveSeeded, StandsFor, Exact;
    forall j | 0 <= j < |data|
      ensures data[j].code in ids && ObjectiveSeeded(d0, objs, data[j], ids[data[j].code])
    {
      OneObjective(d0, codes, data, objs, ids, j);
    }
    forall i | 0 <= i < |objs|
      ensures i >= |d0| ==> ForSomeObjective(d0, objs, data, i)
      ensures i < |d0| && StandsForNone(d0, data, i) ==> objs[i] == d0[i]
    {
      if i in ids.Values {
        var j := GivenTo(d0, data, objs, ids, i);
        StoodBefore(d0, objs, data[j], i);
      } else {
        NotGiven(d0, data, objs, ids, i);
      }
    }
  }

  lemma ExactOf(
    d0: seq<Objective>, codes: set<string>, data: seq<ObjectiveData>, objs: seq<Objective>, ids: map<string, int>)
    requires Underway(d0, codes, data, objs, objs, ids)
    ensures Exact(d0, data, objs, ids)
  {
  }

  lemma StoodBefore(d0: seq<Objective>, objs: seq<Objective>, d: ObjectiveData, i: int)
    requires ObjectiveSeeded(d0, objs, d, i)
    ensures i < |d0| ==> StandsFor(d0, d.code, i)
  {
  }

  lemma OneObjective(
    d0: seq<Objective>, codes: set<string>, data: seq<ObjectiveData>, objs: seq<Objective>, ids: map<string, int>, j: int)
    requires Underway(d0, codes, data, objs, objs, ids) && 0 <= j < |data|
    ensures data[j].code in ids && ObjectiveSeeded(d0, objs, data[j], ids[data[j].code])
  {
    hide SoundObjectives, Undisputed, DistinctCodes, Identity;
    CodesOf(data);
    GivenRowsAnswer(d0, codes, data, objs, ids, j);
    StandsForAnswers(objs, data[j].code);
    StandsForAnswers(d0, data[j].code);
    hide Answers;
    var o := ids[data[j].code];
    assert Assigned(d0, data[j], objs, o);
  }

  lemma GivenTo(d0: seq<Objective>, data: seq<ObjectiveData>, objs: seq<Objective>, ids: map<string, int>, i: int)
    returns (j: int)
    requires Exact(d0, data, objs, ids) && i in ids.Values
    ensures 0 <= j < |data| && data[j].code in ids && ids[data[j].code] == i
  {
    hide Assigned;
    var c :| c in ids && ids[c] == i;
    assert c in Codes(data);
    j :| 0 <= j < |data| && data[j].code == c;
  }

  lemma NotGiven(d0: seq<Objective>, data: seq<ObjectiveData>, objs: seq<Objective>, ids: map<string, int>, i: int)
    requires Exact(d0, data, objs, ids) && 0 <= i < |objs| && i !in ids.Values
    ensures i < |d0| && objs[i] == d0[i]
  {
  }

  // ---- Courses ----

  /** The course is in the program under its payload title; its version counts changes of its cells. */
  ghost predicate CourseSeeded(t0: Tables, t1: Tables, d: CourseData, k: int) {
    && 0 <= k < |t1.courses|
    && var b := t1.courses[k];
    && b.code == d.code && b.title == d.title && b.program == "BSInfoTech"
    && if k < |t0.courses| then
         var a := t0.courses[k];
         && a.code == d.code && a.program in {"BSInfoTech", "BSIT"} && b.mapped == a.mapped
         && b.mappingVersion == a.mappingVersion + if SameRow(t0.cells, t1.cells, k) then 0 else 1
       else b.mappingVersion == 1 && !b.mapped && forall i :: 0 <= i < |t0.courses| ==> t0.courses[i].code != d.code
  }

  ghost predicate HasCourse(t0: Tables, t1: Tables, d: CourseData) {
    exists k :: CourseSeeded(t0, t1, d, k)
  }

  ghost predicate CourseKept(t0: Tables, t1: Tables, k: int) {
    0 <= k < |t0.courses| && k < |t1.courses| && t1.courses[k] == t0.courses[k] && SameRow(t0.cells, t1.cells, k)
  }

  /** Every payload course ends that way, and every course the payload does not list stays as it was. */
  lemma CoursesEndAsThePayloadSays(t0: Tables, p: Payload)
    requires Sound(t0) && PayloadOk(p) && Run(t0, p).Ok? && Undisputed(t0.objectives, Codes(p.objectives))
    ensures var t1 := Run(t0, p).value;
            && |t0.courses| <= |t1.courses|
            && (forall j :: 0 <= j < |p.courses| ==> HasCourse(t0, t1, p.courses[j]))
            && (forall k :: 0 <= k < |t1.courses| && Unlisted(p.courses, t1.courses[k].code) ==> CourseKept(t0, t1, k))
  {
    hide *;
    RunIsExact(t0, p);
    RunLeavesTheRestAlone(t0, p);
    BearsAreIn(Run(t0, p).value.objectives, IdsOf(t0, p), Codes(p.objectives));
    FinalCourses(t0, Run(t0, p).value, IdsOf(t0, p), Codes(p.objectives), p);
  }

  lemma FinalCourses(t0: Tables, t1: Tables, ids: map<string, int>, known: set<string>, p: Payload)
    requires Bears(t1.objectives, ids, known) && IdsIn(ids, t1.objectives) && Sound(t1)
    requires CoursesSeeded(t0, t1, ids, known, p.courses) && CoursesKept(t0, t1, p.courses)
    ensures |t0.courses| <= |t1.courses|
    ensures forall j :: 0 <= j < |p.courses| ==> HasCourse(t0, t1, p.courses[j])
    ensures forall k :: 0 <= k < |t1.courses| && Unlisted(p.courses, t1.courses[k].code) ==> CourseKept(t0, t1, k)
  {
    hide SoundObjectives, SoundCells, SoundCourses, Bears, Seeded, SameRow, CellsWithin, CoursesKept, CourseSeeded, Unlisted;
    forall j | 0 <= j < |p.courses| ensures HasCourse(t0, t1, p.courses[j]) {
      assert HasSeeded(t0, t1, ids, known, p.courses[j]);
      var k :| Seeded(t0, t1, ids, known, p.courses[j], k);
      OneCourseSeeded(t0, t1, ids, known, p, p.courses[j], k);
    }
    forall k | 0 <= k < |t1.courses| && Unlisted(p.courses, t1.courses[k].code) ensures CourseKept(t0, t1, k) {
      assert Untouched(t0, t1, k);
    }
  }

  lemma OneCourseSeeded(
    t0: Tables, t1: Tables, ids: map<string, int>, known: set<string>, p: Payload, d: CourseData, k: int)
    requires IdsIn(ids, t1.objectives) && Seeded(t0, t1, ids, known, d, k)
    requires CoursesKept(t0, t1, p.courses) && SoundCourses(t1.courses)
    ensures CourseSeeded(t0, t1, d, k)
  {
    hide SameRow, CourseCells, ForeignSame;
    forall i | 0 <= i < |t0.courses| && t0.courses[i].code == d.code ensures i == k {
      assert RowKept(t0, t1, p.courses, i);
      assert t1.courses[i].code == t1.courses[k].code;
    }
  }
}
