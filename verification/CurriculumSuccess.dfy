/** Exactly when a run over sound tables succeeds. */
module CurriculumSuccess {
  import opened Basics
  import opened CurriculumModel
  import opened CurriculumObjectives
  import opened CurriculumCourses
  import opened CurriculumTheorems
  import opened CurriculumOutcomes

  // ---- The conditions, before the run ----

  predicate TakenUp(d0: seq<Objective>, data: seq<ObjectiveData>, i: int) {
    exists j :: 0 <= j < |data| && StandsFor(d0, data[j].code, i)
  }

  /** The row is in the program already, under some spelling, or the run brings it there. */
  predicate EndsInProgram(d0: seq<Objective>, data: seq<ObjectiveData>, i: int)
    requires 0 <= i < |d0|
  {
    Normal(d0[i].program) in {"BSIT", "BSINFOTECH"} || (!d0[i].managed && TakenUp(d0, data, i))
  }

  /** Where the row ends in the index of codes and programs. */
  function TargetKey(d0: seq<Objective>, data: seq<ObjectiveData>, i: int): (string, string)
    requires 0 <= i < |d0|
  {
    (Normal(d0[i].code), if EndsInProgram(d0, data, i) then "BSInfoTech" else Normal(d0[i].program))
  }

  function NewKey(d: ObjectiveData): (string, string) {
    (Normal(d.code), "BSInfoTech")
  }

  ghost predicate IsNew(d0: seq<Objective>, d: ObjectiveData) {
    forall i :: !StandsFor(d0, d.code, i)
  }

  /** No two rows, old or new, end at one place of the index. */
  ghost predicate NoCollision(d0: seq<Objective>, data: seq<ObjectiveData>) {
    && (forall i, k :: 0 <= i < k < |d0| ==> TargetKey(d0, data, i) != TargetKey(d0, data, k))
    && (forall i, j :: 0 <= i < |d0| && 0 <= j < |data| && IsNew(d0, data[j]) ==> TargetKey(d0, data, i) != NewKey(data[j]))
    && (forall j, m :: 0 <= j < m < |data| && IsNew(d0, data[j]) && IsNew(d0, data[m]) ==> NewKey(data[j]) != NewKey(data[m]))
  }

  /** An administrator keeps the code's row in another program, so its levels are skipped. */
  predicate KeptOutside(d0: seq<Objective>, code: string) {
    exists i :: 0 <= i < |d0| && StandsFor(d0, code, i) && d0[i].managed && d0[i].program !in {"BSInfoTech", "BSIT"}
  }

  /** Every level that is not blank is of a payload objective, and one the table takes. */
  predicate LevelsFit(d0: seq<Objective>, data: seq<ObjectiveData>, levels: Levels) {
    forall i :: 0 <= i < |levels| && levels[i].1 != "" ==>
      levels[i].0 in Codes(data) && (levels[i].1 in {"I", "E", "D"} || KeptOutside(d0, levels[i].0))
  }

  predicate MappedByHand(courses: seq<Course>, code: string) {
    exists k :: 0 <= k < |courses| && courses[k].code == code && courses[k].mapped
  }

  predicate OfProgram(courses: seq<Course>, code: string) {
    forall k :: 0 <= k < |courses| && courses[k].code == code ==> courses[k].program in {"BSInfoTech", "BSIT"}
  }

  predicate CourseFits(t0: Tables, data: seq<ObjectiveData>, d: CourseData) {
    OfProgram(t0.courses, d.code) && (MappedByHand(t0.courses, d.code) || LevelsFit(t0.objectives, data, d.levels))
  }

  // ---- Keys while the pass is under way ----

  lemma CanonicalKey(code: string)
    ensures forall o: Objective :: o.program == CANONICAL && o.code == code ==> IndexKey(o) == (Normal(code), "BSInfoTech")
  {
    assert Normal(CANONICAL) == "BSINFOTECH";
  }

  /** A row that is not new still has its old key or already its last one. */
  predicate KeyBetween(d0: seq<Objective>, data: seq<ObjectiveData>, o: Objective, i: int)
    requires 0 <= i < |d0|
  {
    IndexKey(o) == IndexKey(d0[i]) || IndexKey(o) == TargetKey(d0, data, i)
  }

  lemma OldKeyInProgram(d0: seq<Objective>, data: seq<ObjectiveData>, i: int)
    requires 0 <= i < |d0| && IndexKey(d0[i]).1 == "BSInfoTech"
    ensures TargetKey(d0, data, i) == IndexKey(d0[i])
  {
    hide TakenUp, Normal;
  }

  lemma TargetIsOldOrIn(d0: seq<Objective>, data: seq<ObjectiveData>, i: int)
    requires 0 <= i < |d0|
    ensures TargetKey(d0, data, i) == IndexKey(d0[i]) || TargetKey(d0, data, i) == (IndexKey(d0[i]).0, "BSInfoTech")
  {
    hide TakenUp, Normal;
  }

  lemma CorrectedKey(d0: seq<Objective>, data: seq<ObjectiveData>, d: ObjectiveData, i: int)
    requires 0 <= i < |d0| && Answers(d0, d.code, i) && d in data
    ensures IndexKey(Corrected(d0[i], d)) == TargetKey(d0, data, i)
  {
    hide Normal, StandsFor, Answers;
    StandsForAnswers(d0, d.code);
    var j :| 0 <= j < |data| && data[j] == d;
    assert TakenUp(d0, data, i);
    CanonicalKey(d0[i].code);
  }

  /** Two old rows part way. */
  lemma OldRowsApart(d0: seq<Objective>, data: seq<ObjectiveData>, a: Objective, b: Objective, i: int, k: int)
    requires SoundObjectives(d0) && 0 <= i < k < |d0| && TargetKey(d0, data, i) != TargetKey(d0, data, k)
    requires KeyBetween(d0, data, a, i) && KeyBetween(d0, data, b, k)
    ensures IndexKey(a) != IndexKey(b)
  {
    hide IndexKey, TargetKey;
    TargetIsOldOrIn(d0, data, i);
    TargetIsOldOrIn(d0, data, k);
    if IndexKey(d0[i]).1 == "BSInfoTech" {
      OldKeyInProgram(d0, data, i);
    }
    if IndexKey(d0[k]).1 == "BSInfoTech" {
      OldKeyInProgram(d0, data, k);
    }
  }

  lemma OldAndNewApart(d0: seq<Objective>, data: seq<ObjectiveData>, a: Objective, i: int, d: ObjectiveData)
    requires 0 <= i < |d0| && KeyBetween(d0, data, a, i) && TargetKey(d0, data, i) != NewKey(d)
    ensures IndexKey(a) != IndexKey(FreshObjective(d))
  {
    hide TargetKey, TakenUp;
    CanonicalKey(d.code);
    if IndexKey(a) == NewKey(d) && IndexKey(a) == IndexKey(d0[i]) {
      OldKeyInProgram(d0, data, i);
    }
  }

  /** Row `i` during the pass: an old row on its way, or the new row of a code nobody stood for. */
  ghost predicate OnItsWay(d0: seq<Objective>, data: seq<ObjectiveData>, objs: seq<Objective>, i: int)
    requires 0 <= i < |objs| && |d0| <= |objs|
  {
    if i < |d0| then
      && KeyBetween(d0, data, objs[i], i)
      && (objs[i].seedCode == d0[i].seedCode || AnchoredAnew(d0, data, objs, i))
    else NewFor(d0, data, objs, i)
  }

  ghost predicate AnchoredAnew(d0: seq<Objective>, data: seq<ObjectiveData>, objs: seq<Objective>, i: int)
    requires 0 <= i < |objs|
  {
    exists j :: 0 <= j < |data| && objs[i].seedCode == Some(data[j].code) && !Anchored(d0, data[j].code) && Answers(d0, data[j].code, i)
  }

  ghost predicate NewFor(d0: seq<Objective>, data: seq<ObjectiveData>, objs: seq<Objective>, i: int)
    requires 0 <= i < |objs|
  {
    exists j :: 0 <= j < |data| && objs[i] == FreshObjective(data[j]) && IsNew(d0, data[j])
  }

  ghost predicate AllOnTheirWay(d0: seq<Objective>, data: seq<ObjectiveData>, objs: seq<Objective>) {
    && |d0| <= |objs|
    && (forall i :: 0 <= i < |objs| ==> OnItsWay(d0, data, objs, i))
    && forall i, k :: |d0| <= i < k < |objs| ==> objs[i].code != objs[k].code
  }

  lemma KeysApart(d0: seq<Objective>, data: seq<ObjectiveData>, objs: seq<Objective>, i: int, k: int)
    requires SoundObjectives(d0) && NoCollision(d0, data) && AllOnTheirWay(d0, data, objs) && 0 <= i < k < |objs|
    ensures IndexKey(objs[i]) != IndexKey(objs[k])
  {
    hide IndexKey, TargetKey, SoundObjectives, IsNew, KeyBetween, AnchoredAnew, FreshObjective, NewKey;
    assert OnItsWay(d0, data, objs, i) && OnItsWay(d0, data, objs, k);
    if k < |d0| {
      OldRowsApart(d0, data, objs[i], objs[k], i, k);
    } else {
      var m :| 0 <= m < |data| && objs[k] == FreshObjective(data[m]) && IsNew(d0, data[m]);
      if i < |d0| {
        OldAndNewApart(d0, data, objs[i], i, data[m]);
      } else {
        var j :| 0 <= j < |data| && objs[i] == FreshObjective(data[j]) && IsNew(d0, data[j]);
        FreshKeys(data[j], data[m]);
        assert j != m;
      }
    }
  }

  lemma FreshKeys(d: ObjectiveData, e: ObjectiveData)
    ensures IndexKey(FreshObjective(d)) == NewKey(d) && IndexKey(FreshObjective(e)) == NewKey(e)
    ensures FreshObjective(d).code == d.code && FreshObjective(e).code == e.code
  {
    CanonicalKey(d.code);
    CanonicalKey(e.code);
  }

  /** The anchor a row has is its old one or that of a code nobody was anchored at. */
  lemma AnchorsApart(d0: seq<Objective>, data: seq<ObjectiveData>, objs: seq<Objective>, i: int, k: int)
    requires SoundObjectives(d0) && AllOnTheirWay(d0, data, objs) && 0 <= i < k < |objs|
    ensures objs[i].seedCode.None? || objs[i].seedCode != objs[k].seedCode
  {
    hide IndexKey, KeyBetween, IsNew;
    assert OnItsWay(d0, data, objs, i) && OnItsWay(d0, data, objs, k);
    if objs[i].seedCode.Some? && objs[i].seedCode == objs[k].seedCode {
      var c := objs[i].seedCode.value;
      AnchorIsTaken(d0, data, objs, i, c);
      AnchorIsTaken(d0, data, objs, k, c);
      ResolveFindsTheAnswer(d0, c);
    }
  }

  /** Whoever carries an anchor answered for it before, or is the new row of that code. */
  lemma AnchorIsTaken(d0: seq<Objective>, data: seq<ObjectiveData>, objs: seq<Objective>, i: int, c: string)
    requires SoundObjectives(d0) && AllOnTheirWay(d0, data, objs) && 0 <= i < |objs| && objs[i].seedCode == Some(c)
    ensures if i < |d0| then Answers(d0, c, i) else objs[i].code == c && forall a :: !Answers(d0, c, a)
  {
    hide KeyBetween, SoundObjectives;
    assert OnItsWay(d0, data, objs, i);
    StandsForAnswers(d0, c);
    if i >= |d0| {
      var j :| 0 <= j < |data| && objs[i] == FreshObjective(data[j]) && IsNew(d0, data[j]);
      assert data[j].code == c;
      assert forall a :: !StandsFor(d0, c, a);
    }
  }

  lemma OnTheirWaySound(d0: seq<Objective>, data: seq<ObjectiveData>, objs: seq<Objective>)
    requires SoundObjectives(d0) && NoCollision(d0, data) && AllOnTheirWay(d0, data, objs)
    ensures SoundObjectives(objs)
  {
    hide IndexKey, NoCollision, AllOnTheirWay;
    forall i, k | 0 <= i < k < |objs|
      ensures IndexKey(objs[i]) != IndexKey(objs[k]) && (objs[i].seedCode.None? || objs[i].seedCode != objs[k].seedCode)
    {
      KeysApart(d0, data, objs, i, k);
      AnchorsApart(d0, data, objs, i, k);
    }
  }

  // ---- The objective pass ----

  /** What the exact description says of every row. */
  lemma ExactIsOnItsWay(
    d0: seq<Objective>, all: seq<ObjectiveData>, data: seq<ObjectiveData>, objs: seq<Objective>, ids: map<string, int>)
    requires Exact(d0, data, objs, ids) && forall d :: d in data ==> d in all
    ensures AllOnTheirWay(d0, all, objs)
  {
    hide Exact, IndexKey, Normal, Corrected, FreshObjective, OnItsWay;
    Widths(d0, data, objs, ids);
    forall i | 0 <= i < |objs| ensures OnItsWay(d0, all, objs, i) {
      RowIsOnItsWay(d0, all, data, objs, ids, i);
    }
    forall i, k | |d0| <= i < k < |objs| ensures objs[i].code != objs[k].code {
      NewCodesApart(d0, data, objs, ids, i, k);
    }
  }

  lemma RowIsOnItsWay(
    d0: seq<Objective>, all: seq<ObjectiveData>, data: seq<ObjectiveData>, objs: seq<Objective>, ids: map<string, int>, i: int)
    requires Exact(d0, data, objs, ids) && (forall d :: d in data ==> d in all) && 0 <= i < |objs|
    ensures |d0| <= |objs| && OnItsWay(d0, all, objs, i)
  {
    hide IndexKey, Normal, TargetKey;
    RowOrigin(d0, data, objs, ids, i);
    if !(i < |d0| && objs[i] == d0[i]) {
      var j :| 0 <= j < |data| && Assigned(d0, data[j], objs, i);
      assert data[j] in all;
      StandsForAnswers(d0, data[j].code);
      if i < |d0| {
        CorrectedKey(d0, all, data[j], i);
        NewAnchor(d0, all, data[j], objs, i);
      } else {
        assert forall a :: StandsFor(d0, data[j].code, a) ==> 0 <= a < |d0|;
        var m :| 0 <= m < |all| && all[m] == data[j];
        assert NewFor(d0, all, objs, i);
      }
    }
  }

  lemma NewAnchor(d0: seq<Objective>, all: seq<ObjectiveData>, d: ObjectiveData, objs: seq<Objective>, i: int)
    requires 0 <= i < |d0| <= |objs| && d in all && Answers(d0, d.code, i) && objs[i] == Corrected(d0[i], d)
    ensures objs[i].seedCode == d0[i].seedCode || AnchoredAnew(d0, all, objs, i)
  {
    if objs[i].seedCode != d0[i].seedCode {
      assert objs[i].seedCode == Some(d.code);
      var m :| 0 <= m < |all| && all[m] == d;
      assert !Anchored(d0, d.code);
    }
  }

  lemma NewCodesApart(
    d0: seq<Objective>, data: seq<ObjectiveData>, objs: seq<Objective>, ids: map<string, int>, i: int, k: int)
    requires Exact(d0, data, objs, ids) && |d0| <= i < k < |objs|
    ensures objs[i].code != objs[k].code
  {
    assert i in ids.Values && k in ids.Values;
    var c :| c in ids && ids[c] == i;
    var e :| e in ids && ids[e] == k;
    var j :| 0 <= j < |data| && data[j].code == c;
    var m :| 0 <= m < |data| && data[m].code == e;
    assert Assigned(d0, data[j], objs, i) && Assigned(d0, data[m], objs, k);
  }

  /** The pass goes through, and leaves objectives that can be flushed. */
  lemma {:induction false} ObjectivesGoThrough(t0: Tables, all: seq<ObjectiveData>, data: seq<ObjectiveData>)
    requires Sound(t0) && Undisputed(t0.objectives, Codes(all)) && DistinctCodes(data) && Codes(data) <= Codes(all)
    requires NoCollision(t0.objectives, all) && forall d :: d in data ==> d in all
    ensures
      var r := SeedObjectives(Begin(t0), data);
      && r.Ok? && Pass(t0, Codes(all), data, r.value) && SoundObjectives(r.value.session.live.objectives)
  {
    hide ObjectiveStep, SoundObjectives, SoundCourses, SoundCells, Undisputed, NoCollision, Underway, Codes, DistinctCodes;
    if data != [] {
      var n, d := |data| - 1, data[|data| - 1];
      CodesGrow(data);
      assert data[..n] + [d] == data;
      ExtendedData(data[..n], d);
      ObjectivesGoThrough(t0, all, data[..n]);
      ObjectiveGoesThrough(t0, all, data[..n], SeedObjectives(Begin(t0), data[..n]).value, d);
    }
    ObjectivesAreExact(t0, Codes(all), data);
    PassIsSound(t0, all, data, SeedObjectives(Begin(t0), data).value);
  }

  lemma PassIsSound(t0: Tables, all: seq<ObjectiveData>, data: seq<ObjectiveData>, q: Progress)
    requires Pass(t0, Codes(all), data, q) && NoCollision(t0.objectives, all) && forall d :: d in data ==> d in all
    ensures SoundObjectives(q.session.live.objectives)
  {
    hide SoundObjectives, NoCollision, Undisputed, Exact, DistinctCodes;
    ExactIsOnItsWay(t0.objectives, all, data, q.session.live.objectives, q.ids);
    OnTheirWaySound(t0.objectives, all, q.session.live.objectives);
  }

  lemma ObjectiveGoesThrough(t0: Tables, all: seq<ObjectiveData>, data: seq<ObjectiveData>, q: Progress, d: ObjectiveData)
    requires Sound(t0) && Pass(t0, Codes(all), data, q) && DistinctCodes(data + [d]) && d in all && d.code in Codes(all)
    requires NoCollision(t0.objectives, all) && forall e :: e in data ==> e in all
    ensures ObjectiveStep(q, d).Ok?
  {
    hide SoundObjectives, NoCollision, Undisputed, Exact, Resolve, Codes, DistinctCodes, SoundCourses;
    var d0, stored, objs := t0.objectives, q.session.stored.objectives, q.session.live.objectives;
    ExtendedData(data, d);
    SameAnswers(d0, Codes(all), data, stored, objs, q.ids, d.code);
    ResolveFindsTheAnswer(d0, d.code);
    if Resolve(stored, d.code) == Ok(None) {
      Widths(d0, data, objs, q.ids);
      ExactIsOnItsWay(d0, all, data, objs, q.ids);
      OneMoreOnItsWay(d0, all, data, objs, q.ids, d);
      OnTheirWaySound(d0, all, objs + [FreshObjective(d)]);
    }
  }

  lemma OneMoreOnItsWay(
    d0: seq<Objective>, all: seq<ObjectiveData>, data: seq<ObjectiveData>, objs: seq<Objective>, ids: map<string, int>,
    d: ObjectiveData)
    requires Exact(d0, data, objs, ids) && AllOnTheirWay(d0, all, objs) && d in all && d.code !in Codes(data)
    requires forall i :: !Answers(d0, d.code, i)
    ensures AllOnTheirWay(d0, all, objs + [FreshObjective(d)])
  {
    hide KeyBetween, Answers, Codes;
    var after := objs + [FreshObjective(d)];
    StandsForAnswers(d0, d.code);
    assert IsNew(d0, d);
    var m :| 0 <= m < |all| && all[m] == d;
    forall i | 0 <= i < |after| ensures OnItsWay(d0, all, after, i) {
      if i < |objs| {
        assert OnItsWay(d0, all, objs, i);
        WayStays(d0, all, objs, after, i);
      } else {
        assert NewFor(d0, all, after, i);
      }
    }
    forall i | |d0| <= i < |objs| ensures objs[i].code != d.code {
      NewRowsCode(d0, data, objs, ids, i);
    }
  }

  lemma WayStays(d0: seq<Objective>, data: seq<ObjectiveData>, objs: seq<Objective>, after: seq<Objective>, i: int)
    requires 0 <= i < |objs| <= |after| && |d0| <= |objs| && after[i] == objs[i] && OnItsWay(d0, data, objs, i)
    ensures OnItsWay(d0, data, after, i)
  {
    hide KeyBetween, IsNew, Answers, Anchored;
  }

  lemma NewRowsCode(d0: seq<Objective>, data: seq<ObjectiveData>, objs: seq<Objective>, ids: map<string, int>, i: int)
    requires Exact(d0, data, objs, ids) && |d0| <= i < |objs|
    ensures objs[i].code in Codes(data)
  {
    hide Answers;
    assert i in ids.Values;
    var c :| c in ids && ids[c] == i;
    var j :| 0 <= j < |data| && data[j].code == c;
    assert Assigned(d0, data[j], objs, i);
  }

  // ---- A run that succeeds met the conditions ----

  lemma FinalRow(
    d0: seq<Objective>, codes: set<string>, data: seq<ObjectiveData>, objs: seq<Objective>, ids: map<string, int>, i: int)
    requires Underway(d0, codes, data, objs, objs, ids) && 0 <= i < |d0|
    ensures |d0| <= |objs| && IndexKey(objs[i]) == TargetKey(d0, data, i)
  {
    hide SoundObjectives, Undisputed, IndexKey, Normal, DistinctCodes;
    Widths(d0, data, objs, ids);
    if TakenUp(d0, data, i) {
      var j :| 0 <= j < |data| && StandsFor(d0, data[j].code, i);
      StandsForAnswers(d0, data[j].code);
      ResolveFindsTheAnswer(d0, data[j].code);
      assert Assigned(d0, data[j], objs, ids[data[j].code]);
      assert ids[data[j].code] == i;
      assert data[j] in data;
      CorrectedKey(d0, data, data[j], i);
    } else {
      NotTaken(d0, data, objs, ids, i);
      UntakenKey(d0, data, i);
    }
  }

  lemma NotTaken(d0: seq<Objective>, data: seq<ObjectiveData>, objs: seq<Objective>, ids: map<string, int>, i: int)
    requires Exact(d0, data, objs, ids) && 0 <= i < |d0|
    ensures |d0| <= |objs| && (TakenUp(d0, data, i) || objs[i] == d0[i])
  {
    hide Answers, StandsFor;
    RowOrigin(d0, data, objs, ids, i);
    if objs[i] != d0[i] {
      var j :| 0 <= j < |data| && Assigned(d0, data[j], objs, i);
      StandsForAnswers(d0, data[j].code);
      assert StandsFor(d0, data[j].code, i);
    }
  }

  lemma UntakenKey(d0: seq<Objective>, data: seq<ObjectiveData>, i: int)
    requires 0 <= i < |d0| && !TakenUp(d0, data, i)
    ensures IndexKey(d0[i]) == TargetKey(d0, data, i)
  {
    hide TakenUp, Normal;
  }

  lemma FinalNew(
    d0: seq<Objective>, codes: set<string>, data: seq<ObjectiveData>, objs: seq<Objective>, ids: map<string, int>, j: int)
    requires Underway(d0, codes, data, objs, objs, ids) && 0 <= j < |data| && IsNew(d0, data[j])
    ensures data[j].code in ids && |d0| <= ids[data[j].code] < |objs| && objs[ids[data[j].code]] == FreshObjective(data[j])
    ensures IndexKey(objs[ids[data[j].code]]) == NewKey(data[j])
  {
    hide SoundObjectives, Undisputed, IndexKey, Normal, DistinctCodes, Answers, StandsFor;
    StandsForAnswers(d0, data[j].code);
    FreshKeys(data[j], data[j]);
    var o := ids[data[j].code];
    assert Assigned(d0, data[j], objs, o);
  }

  lemma FinalMeansNoCollision(
    d0: seq<Objective>, codes: set<string>, data: seq<ObjectiveData>, objs: seq<Objective>, ids: map<string, int>)
    requires Underway(d0, codes, data, objs, objs, ids)
    ensures NoCollision(d0, data)
  {
    assert SoundObjectives(objs) && DistinctCodes(data);
    hide Underway, IndexKey, TargetKey, NewKey, IsNew;
    forall i, k | 0 <= i < k < |d0| ensures TargetKey(d0, data, i) != TargetKey(d0, data, k) {
      FinalRow(d0, codes, data, objs, ids, i);
      FinalRow(d0, codes, data, objs, ids, k);
    }
    forall i, j | 0 <= i < |d0| && 0 <= j < |data| && IsNew(d0, data[j]) ensures TargetKey(d0, data, i) != NewKey(data[j]) {
      FinalRow(d0, codes, data, objs, ids, i);
      FinalNew(d0, codes, data, objs, ids, j);
    }
    forall j, m | 0 <= j < m < |data| && IsNew(d0, data[j]) && IsNew(d0, data[m]) ensures NewKey(data[j]) != NewKey(data[m]) {
      FinalNew(d0, codes, data, objs, ids, j);
      FinalNew(d0, codes, data, objs, ids, m);
      assert ids[data[j].code] != ids[data[m].code];
    }
  }

  /** The row a code was given is outside the program exactly when an administrator keeps it there. */
  lemma GivenOutside(
    d0: seq<Objective>, codes: set<string>, data: seq<ObjectiveData>, stored: seq<Objective>, objs: seq<Objective>,
    ids: map<string, int>, c: string)
    requires Underway(d0, codes, data, stored, objs, ids) && c in Codes(data)
    ensures c in ids && 0 <= ids[c] < |objs| && (IsAlias(objs[ids[c]].program) <==> !KeptOutside(d0, c))
  {
    hide SoundObjectives, Undisputed, DistinctCodes, OldOrLive, Assigned, KeptOutside, IsAlias;
    var j :| 0 <= j < |data| && data[j].code == c;
    Widths(d0, data, objs, ids);
    assert Assigned(d0, data[j], objs, ids[c]);
    AssignedOutside(d0, data[j], objs, ids[c]);
  }

  lemma AssignedOutside(d0: seq<Objective>, d: ObjectiveData, objs: seq<Objective>, o: int)
    requires SoundObjectives(d0) && |d0| <= |objs| && Assigned(d0, d, objs, o)
    ensures 0 <= o < |objs| && (IsAlias(objs[o].program) <==> !KeptOutside(d0, d.code))
  {
    hide SoundObjectives, Answers, StandsFor;
    StandsForAnswers(d0, d.code);
    ResolveFindsTheAnswer(d0, d.code);
  }


  lemma SeededFits(
    t0: Tables, t1: Tables, ids: map<string, int>, known: set<string>, p: Payload, d: CourseData, k: int)
    requires SoundCourses(t0.courses) && Sound(t1) && IdsIn(ids, t1.objectives) && Seeded(t0, t1, ids, known, d, k)
    requires Underway(t0.objectives, known, p.objectives, t1.objectives, t1.objectives, ids) && known == Codes(p.objectives)
    requires CoursesKept(t0, t1, p.courses)
    ensures CourseFits(t0, p.objectives, d)
  {
    hide SoundObjectives, Undisputed, Exact, DistinctCodes, SameRow, ForeignSame, Stale, Wanted, KeptOutside, OldOrLive, DistinctCourses,
         Codes, Canonical;
    forall i | 0 <= i < |t0.courses| && t0.courses[i].code == d.code ensures i == k {
      assert RowKept(t0, t1, p.courses, i);
      assert t1.courses[i].code == t1.courses[k].code;
    }
    if !MappedByHand(t0.courses, d.code) {
      assert LevelsPut(t1.cells, t1.objectives, ids, k, Canonical(d.levels));
      forall i | 0 <= i < |d.levels| && d.levels[i].1 != ""
        ensures d.levels[i].0 in Codes(p.objectives) && (d.levels[i].1 in {"I", "E", "D"} || KeptOutside(t0.objectives, d.levels[i].0))
      {
        assert d.levels[i] in Canonical(d.levels);
        LevelWasPut(t0, t1, ids, p, Canonical(d.levels), d.levels[i], k);
      }
    }
  }

  lemma LevelWasPut(
    t0: Tables, t1: Tables, ids: map<string, int>, p: Payload, levels: Levels, e: (string, string), k: int)
    requires Sound(t1) && IdsIn(ids, t1.objectives) && LevelsPut(t1.cells, t1.objectives, ids, k, levels) && e in levels
    requires Underway(t0.objectives, Codes(p.objectives), p.objectives, t1.objectives, t1.objectives, ids)
    ensures e.0 in Codes(p.objectives) && (e.1 in {"I", "E", "D"} || KeptOutside(t0.objectives, e.0))
  {
    hide SoundObjectives, SoundCourses, Undisputed, DistinctCodes, KeptOutside, OldOrLive, Codes;
    var i :| 0 <= i < |levels| && levels[i] == e;
    assert e.0 in ids;
    GivenOutside(t0.objectives, Codes(p.objectives), p.objectives, t1.objectives, t1.objectives, ids, e.0);
  }

  lemma SuccessMeetsTheConditions(t0: Tables, p: Payload)
    requires Sound(t0) && PayloadOk(p) && Undisputed(t0.objectives, Codes(p.objectives)) && Run(t0, p).Ok?
    ensures IsAlias(p.program) && NoCollision(t0.objectives, p.objectives)
    ensures forall j :: 0 <= j < |p.courses| ==> CourseFits(t0, p.objectives, p.courses[j])
  {
    hide Run, Sound, PayloadOk, Undisputed, NoCollision, Underway, CoursesKept, CourseFits, Bears, Exact, SeedObjectives, General, AllEvolve;
    RunUnfolds(t0, p);
    FinalPass(t0, p);
    RunIsExact(t0, p);
    RunLeavesTheRestAlone(t0, p);
    var t1, ids, known := Run(t0, p).value, IdsOf(t0, p), Codes(p.objectives);
    FinalMeansNoCollision(t0.objectives, known, p.objectives, t1.objectives, ids);
    BearsAreIn(t1.objectives, ids, known);
    forall j | 0 <= j < |p.courses| ensures CourseFits(t0, p.objectives, p.courses[j]) {
      assert HasSeeded(t0, t1, ids, known, p.courses[j]);
      var k :| Seeded(t0, t1, ids, known, p.courses[j], k);
      CoursesOf(t0);
      SeededFits(t0, t1, ids, known, p, p.courses[j], k);
    }
  }

  lemma CoursesOf(t: Tables)
    requires Sound(t)
    ensures SoundCourses(t.courses)
  {
  }

  // ---- Courses that meet the conditions go through ----

  /** Every level is of a known objective, and one the table takes where it is put. */
  predicate Puttable(objs: seq<Objective>, ids: map<string, int>, levels: Levels) {
    && IdsIn(ids, objs) && OneRowEach(ids) && DistinctLevels(levels)
    && forall i :: 0 <= i < |levels| ==>
         levels[i].0 in ids && (levels[i].1 in {"I", "E", "D"} || !IsAlias(objs[ids[levels[i].0]].program))
  }

  predicate PutBy(ids: map<string, int>, levels: Levels, o: int) {
    exists i :: 0 <= i < |levels| && levels[i].0 in ids && ids[levels[i].0] == o
  }

  lemma PutByGrows(ids: map<string, int>, levels: Levels, o: int)
    requires levels != []
    ensures
      var n := |levels| - 1;
      PutBy(ids, levels, o) <==> PutBy(ids, levels[..n], o) || (levels[n].0 in ids && ids[levels[n].0] == o)
  {
    var n := |levels| - 1;
    assert forall i :: 0 <= i < n ==> levels[..n][i] == levels[i];
  }

  lemma {:induction false} LevelsGoIn(s: Session, k: int, ids: map<string, int>, levels: Levels)
    requires Steady(s) && Puttable(s.live.objectives, ids, levels) && 0 <= k < |s.live.courses| && SoundCells(s.live)
    ensures PutLevels(s, k, ids, levels).Ok?
    ensures
      var u := PutLevels(s, k, ids, levels).value;
      && !u.clash && u.stored == s.stored && SoundCells(u.live) && u.live == s.live.(cells := u.live.cells)
      && forall o :: (k, o) in u.live.cells ==> (k, o) in s.stored.cells || PutBy(ids, levels, o)
  {
    hide IsAlias, SoundObjectives, PutBy;
    if levels != [] {
      var n := |levels| - 1;
      assert forall i :: 0 <= i < n ==> levels[..n][i] == levels[i] && levels[i].0 != levels[n].0;
      LevelsGoIn(s, k, ids, levels[..n]);
      NotPutYet(ids, levels);
      forall o ensures PutBy(ids, levels, o) <==> PutBy(ids, levels[..n], o) || ids[levels[n].0] == o {
        PutByGrows(ids, levels, o);
      }
    }
  }

  lemma NotPutYet(ids: map<string, int>, levels: Levels)
    requires levels != [] && OneRowEach(ids) && DistinctLevels(levels)
    ensures var n := |levels| - 1; levels[n].0 in ids ==> !PutBy(ids, levels[..n], ids[levels[n].0])
  {
    var n := |levels| - 1;
    assert forall i :: 0 <= i < n ==> levels[..n][i] == levels[i];
  }

  lemma DropKeepsSound(s: Session, k: int, known: set<string>, levels: Levels)
    requires SoundCells(s.live)
    ensures
      var u := DropStale(s, k, known, levels);
      SoundCells(u.live) && u.live == s.live.(cells := u.live.cells) && u.clash == s.clash && u.stored == s.stored
  {
    hide Stale;
  }

  lemma PuttableIn(objs: seq<Objective>, ids: map<string, int>, levels: Levels)
    requires Puttable(objs, ids, levels)
    ensures IdsIn(ids, objs)
  {
  }

  lemma LiveCoursesAreSound(s: Session)
    requires CourseShape(s)
    ensures SoundCourses(s.live.courses)
  {
  }

  lemma MappingGoesThrough(s: Session, k: int, isNew: bool, ids: map<string, int>, known: set<string>, levels: Levels)
    requires CourseShape(s) && SoundObjectives(s.live.objectives) && SoundCells(s.live) && 0 <= k < |s.live.courses|
    requires Puttable(s.live.objectives, ids, levels) && IdsIn(ids, s.live.objectives)
    ensures
      var r := SeedMapping(s, k, isNew, ids, known, levels);
      r.Ok? && SoundCells(r.value.live) && r.value.live.objectives == s.live.objectives
  {
    LiveCoursesAreSound(s);
    hide SoundObjectives, SoundCourses, Puttable, PutLevels, DropStale, LevelsOf;
    LevelsGoIn(s, k, ids, levels);
    DropKeepsSound(PutLevels(s, k, ids, levels).value, k, known, levels);
  }

  lemma RowGoesThrough(s: Session, d: CourseData)
    requires CourseShape(s) && SoundObjectives(s.live.objectives) && SoundCells(s.live)
    requires RowFor(s, d) < |s.live.courses| ==> IsAlias(RowBefore(s, d).program)
    ensures CourseRow(s, d).Ok? && SoundCells(CourseRow(s, d).value.0.live)
  {
    hide SoundObjectives;
    RowForFinds(s, d);
    LiveCoursesAreSound(s);
    var q := CoursesCoded(s.stored.courses, d.code);
    if q == [] {
      var t := s.live.(courses := s.live.courses + [FreshCourse(d)]);
      assert SoundCourses(t.courses);
      assert SoundCells(t);
      assert CourseRow(s, d) == Ok((Session(t, t, false), |s.live.courses|, true));
    } else {
      assert q[0] in q;
    }
  }

  lemma CourseGoesThrough(s: Session, ids: map<string, int>, known: set<string>, d: CourseData)
    requires CourseShape(s) && SoundObjectives(s.live.objectives) && SoundCells(s.live) && IdsIn(ids, s.live.objectives)
    requires RowFor(s, d) < |s.live.courses| ==> IsAlias(RowBefore(s, d).program)
    requires !RowBefore(s, d).mapped ==> Puttable(s.live.objectives, ids, Canonical(d.levels))
    ensures CourseStep(s, ids, known, d).Ok? && SoundCells(CourseStep(s, ids, known, d).value.live)
  {
    hide SoundObjectives, SoundCells, RowFor, RowBefore, CourseRow, SeedMapping, Puttable, Canonical;
    RowForFinds(s, d);
    RowGoesThrough(s, d);
    CourseRowFrame(s, d);
    var (t, k, isNew) := CourseRow(s, d).value;
    if !t.live.courses[k].mapped {
      MappingGoesThrough(t, k, isNew, ids, known, Canonical(d.levels));
    }
  }

  /** A course not worked on yet is in the tables as before the run. */
  lemma RowOfUnlisted(
    t0: Tables, s: Session, ids: map<string, int>, known: set<string>, data: seq<CourseData>, objectives: seq<ObjectiveData>,
    d: CourseData)
    requires CourseShape(s) && IdsIn(ids, s.live.objectives) && CoursesSeeded(t0, s.live, ids, known, data) && Unlisted(data, d.code)
    requires OfProgram(t0.courses, d.code) && CoursesKept(t0, s.live, data)
    ensures RowFor(s, d) < |s.live.courses| ==> IsAlias(RowBefore(s, d).program)
    ensures RowBefore(s, d).mapped <==> MappedByHand(t0.courses, d.code)
  {
    hide SoundCourses, HasSeeded, CellsWithin, SameRow, Unlisted, RowFor;
    RowForFinds(s, d);
    var k := RowFor(s, d);
    if k < |s.live.courses| {
      assert Untouched(t0, s.live, k);
    }
    forall i | 0 <= i < |t0.courses| && t0.courses[i].code == d.code ensures i == k {
      assert RowKept(t0, s.live, data, i);
    }
  }

  /** The loop over courses. */
  lemma {:induction false} CoursesGoThrough(
    t0: Tables, s: Session, ids: map<string, int>, known: set<string>, data: seq<CourseData>, objectives: seq<ObjectiveData>)
    requires CourseShape(s) && SoundObjectives(s.live.objectives) && SoundCells(s.live) && Bears(s.live.objectives, ids, known)
    requires DistinctCourses(data) && CoursesSeeded(t0, s.live, ids, known, [])
    requires s.live.courses == t0.courses && s.live.cells == t0.cells
    requires forall j :: 0 <= j < |data| ==>
      && OfProgram(t0.courses, data[j].code)
      && (MappedByHand(t0.courses, data[j].code) || Puttable(s.live.objectives, ids, Canonical(data[j].levels)))
    ensures
      var r := SeedCourses(s, ids, known, data);
      && r.Ok? && CourseShape(r.value) && SoundCells(r.value.live) && r.value.live.objectives == s.live.objectives
  {
    hide CourseStep, CoursesSeeded, SoundCourses, SoundObjectives, SoundCells, Bears, DistinctCourses, Puttable, OfProgram, MappedByHand,
         Canonical, RowFor, RowBefore;
    BearsAreIn(s.live.objectives, ids, known);
    if data != [] {
      var n, d := |data| - 1, data[|data| - 1];
      assert data[..n] + [d] == data;
      LastIsNew(data[..n], d);
      CoursesGoThrough(t0, s, ids, known, data[..n], objectives);
      var t := SeedCourses(s, ids, known, data[..n]).value;
      CoursesAreExact(t0, s, ids, known, data[..n]);
      CoursesAreKept(s, ids, known, data[..n]);
      KeptFrom(t0, s.live, t.live, data[..n]);
      RowOfUnlisted(t0, t, ids, known, data[..n], objectives, d);
      CourseGoesThrough(t, ids, known, d);
      CourseStepFrame(t, ids, known, d);
    }
  }

  lemma FitIsPuttable(
    d0: seq<Objective>, codes: set<string>, data: seq<ObjectiveData>, stored: seq<Objective>, objs: seq<Objective>,
    ids: map<string, int>, levels: Levels)
    requires Underway(d0, codes, data, stored, objs, ids) && Bears(objs, ids, codes) && DistinctLevels(levels)
    requires LevelsFit(d0, data, levels)
    ensures Puttable(objs, ids, Canonical(levels))
  {
    hide Underway, KeptOutside, Codes, GoesBy, IsAlias;
    CanonicalIsDistinct(levels);
    var canonical := Canonical(levels);
    forall i | 0 <= i < |canonical|
      ensures canonical[i].0 in ids && (canonical[i].1 in {"I", "E", "D"} || !IsAlias(objs[ids[canonical[i].0]].program))
    {
      assert canonical[i] in canonical;
      var m :| 0 <= m < |levels| && levels[m] == canonical[i];
      GivenOutside(d0, codes, data, stored, objs, ids, canonical[i].0);
    }
  }

  /**
   When no row stands for two payload codes, a run over sound tables succeeds if and only if
   the program is the supported one, no two objectives end at one place of the index, and
   each course is of the program and, unless mapped by hand, lists levels the table takes.
   */
  lemma RunSucceedsExactly(t0: Tables, p: Payload)
    requires Sound(t0) && PayloadOk(p) && Undisputed(t0.objectives, Codes(p.objectives))
    ensures Run(t0, p).Ok? <==>
      && p.program in {"BSInfoTech", "BSIT"} && NoCollision(t0.objectives, p.objectives)
      && forall j :: 0 <= j < |p.courses| ==> CourseFits(t0, p.objectives, p.courses[j])
  {
    hide Run, Sound, PayloadOk, Undisputed, NoCollision, CourseFits;
    if Run(t0, p).Ok? {
      SuccessMeetsTheConditions(t0, p);
    }
    if && p.program in {"BSInfoTech", "BSIT"} && NoCollision(t0.objectives, p.objectives)
       && forall j :: 0 <= j < |p.courses| ==> CourseFits(t0, p.objectives, p.courses[j])
    {
      ConditionsSuffice(t0, p);
    }
  }

  lemma ConditionsSuffice(t0: Tables, p: Payload)
    requires Sound(t0) && PayloadOk(p) && Undisputed(t0.objectives, Codes(p.objectives)) && IsAlias(p.program)
    requires NoCollision(t0.objectives, p.objectives)
    requires forall j :: 0 <= j < |p.courses| ==> CourseFits(t0, p.objectives, p.courses[j])
    ensures Run(t0, p).Ok?
  {
    hide SoundObjectives, SoundCells, Undisputed, NoCollision, Underway, Bears, Exact, SeedObjectives, SeedCourses, General, CoursesSeeded,
         OfProgram, MappedByHand, LevelsFit, Puttable, IsAlias, DistinctLevels, CoursesKept, SoundCourses;
    var codes := Codes(p.objectives);
    ObjectivesGoThrough(t0, p.objectives, p.objectives);
    ObjectivesEndInShape(t0, p);
    var q := SeedObjectives(Begin(t0), p.objectives).value;
    PassAsFinal(t0, codes, p.objectives, q);
    BearsAtTheEnd(t0.objectives, codes, p.objectives, q.session.live.objectives, q.ids);
    BearsAreIn(q.session.live.objectives, q.ids, codes);
    StartOfCourses(t0, p.objectives, q, codes);
    CellsStillSound(t0, q.session.live);
    forall j | 0 <= j < |p.courses|
      ensures OfProgram(t0.courses, p.courses[j].code)
      ensures MappedByHand(t0.courses, p.courses[j].code) || Puttable(q.session.live.objectives, q.ids, Canonical(p.courses[j].levels))
    {
      assert CourseFits(t0, p.objectives, p.courses[j]);
      if LevelsFit(t0.objectives, p.objectives, p.courses[j].levels) {
        FitIsPuttable(t0.objectives, codes, p.objectives, q.session.live.objectives, q.session.live.objectives, q.ids, p.courses[j].levels);
      }
    }
    CoursesGoThrough(t0, q.session, q.ids, codes, p.courses, p.objectives);
    LiveCoursesAreSound(SeedCourses(q.session, q.ids, codes, p.courses).value);
    NoClashInShape(SeedCourses(q.session, q.ids, codes, p.courses).value);
  }

  lemma NoClashInShape(s: Session)
    requires CourseShape(s)
    ensures !s.clash
  {
  }

  lemma PassAsFinal(t0: Tables, codes: set<string>, data: seq<ObjectiveData>, q: Progress)
    requires Pass(t0, codes, data, q) && SoundObjectives(q.session.live.objectives)
    ensures
      var objs := q.session.live.objectives;
      Underway(t0.objectives, codes, data, objs, objs, q.ids) && |t0.objectives| <= |objs|
    ensures q.session.live.courses == t0.courses && q.session.live.cells == t0.cells
  {
    hide SoundObjectives, Undisputed, DistinctCodes;
  }

  lemma CellsStillSound(t0: Tables, t: Tables)
    requires Sound(t0) && t.courses == t0.courses && t.cells == t0.cells && |t0.objectives| <= |t.objectives|
    ensures SoundCells(t)
  {
    hide SoundObjectives, SoundCourses;
  }

  /** A payload of the program whose codes stay apart in upper case can be seeded into an empty database. */
  lemma EmptyDatabaseIsSeeded(p: Payload)
    requires PayloadOk(p) && p.program in {"BSInfoTech", "BSIT"}
    requires forall i, j :: 0 <= i < j < |p.objectives| ==> Normal(p.objectives[i].code) != Normal(p.objectives[j].code)
    requires forall j, i :: 0 <= j < |p.courses| && 0 <= i < |p.courses[j].levels| ==>
      p.courses[j].levels[i].0 in Codes(p.objectives) && p.courses[j].levels[i].1 in {"", "I", "E", "D"}
    ensures Run(Tables([], [], map[]), p).Ok?
  {
    hide Run, PayloadOk, Normal, Codes;
    RunSucceedsExactly(Tables([], [], map[]), p);
  }
}
