/**
 What the objective pass does to the rows it finds, with or without the assumption that
 anchored rows have kept out of each other's codes.
 */
module CurriculumObjectives {
  import opened Basics
  import opened CurriculumModel

  // ---- Which row a code stands for ----

  predicate Anchored(objs: seq<Objective>, code: string) {
    exists i :: 0 <= i < |objs| && objs[i].seedCode == Some(code)
  }

  predicate Answers(objs: seq<Objective>, code: string, i: int) {
    && 0 <= i < |objs|
    && (objs[i].seedCode == Some(code) || (objs[i].code == code && IsAlias(objs[i].program) && !Anchored(objs, code)))
  }

  lemma InRange(objs: seq<Objective>, code: string, i: int)
    requires Answers(objs, code, i)
    ensures 0 <= i < |objs|
  {
  }

  lemma AliasesShareAKey(a: Objective, b: Objective)
    requires a.code == b.code && IsAlias(a.program) && IsAlias(b.program)
    ensures IndexKey(a) == IndexKey(b)
  {
    assert Normal(LEGACY) == "BSIT";
    assert Normal(CANONICAL) == "BSINFOTECH";
  }

  lemma AnchorsAreOne(objs: seq<Objective>, code: string)
    requires SoundObjectives(objs)
    ensures |Anchors(objs, code)| <= 1
    ensures forall i :: i in Anchors(objs, code) <==> 0 <= i < |objs| && objs[i].seedCode == Some(code)
    ensures Anchors(objs, code) != [] <==> Anchored(objs, code)
  {
    var q := Anchors(objs, code);
    AtMostOne(q);
    assert q != [] ==> q[0] in q;
  }

  lemma MatchesAreOne(objs: seq<Objective>, code: string)
    requires SoundObjectives(objs)
    ensures |Matches(objs, code)| <= 1
    ensures forall i :: i in Matches(objs, code) <==> 0 <= i < |objs| && objs[i].code == code && IsAlias(objs[i].program)
  {
    var q := Matches(objs, code);
    forall x, y | x in q && y in q ensures x == y {
      AliasesShareAKey(objs[x], objs[y]);
    }
    AtMostOne(q);
  }

  /**
   Under the constraints of the schema a code stands for at most one row, and the error for
   two alias rows of one code cannot be raised.
   */
  lemma ResolveFindsTheAnswer(objs: seq<Objective>, code: string)
    requires SoundObjectives(objs)
    ensures Resolve(objs, code).Ok?
    ensures forall i :: Resolve(objs, code) == Ok(Some(i)) <==> Answers(objs, code, i)
    ensures Resolve(objs, code) == Ok(None) <==> forall i :: !Answers(objs, code, i)
  {
    hide SoundObjectives, IsAlias;
    AnchorsAreOne(objs, code);
    MatchesAreOne(objs, code);
    var a := Anchors(objs, code);
    var m := Matches(objs, code);
    assert a != [] ==> a[0] in a && a == [a[0]];
    assert m != [] ==> m[0] in m && m == [m[0]];
  }

  // ---- Without any assumption ----

  /** What the seeder may do to a row: an administrator's row not at all, an anchor never. */
  predicate Evolves(a: Objective, b: Objective) {
    && a.code == b.code && a.managed == b.managed
    && (a.managed ==> a == b)
    && (Named(a.seedCode) ==> a.seedCode == b.seedCode)
    && (IsAlias(a.program) ==> IsAlias(b.program))
    && a.version <= b.version
  }

  predicate AllEvolve(a: seq<Objective>, b: seq<Objective>) {
    |a| <= |b| && forall i :: 0 <= i < |a| ==> Evolves(a[i], b[i])
  }

  /** A seed anchor that is not an old one belongs to a row of that code. */
  predicate AnchorsGenuine(d0: seq<Objective>, objs: seq<Objective>) {
    forall i :: 0 <= i < |objs| && Named(objs[i].seedCode) ==>
      (i < |d0| && d0[i].seedCode == objs[i].seedCode) || (objs[i].code == objs[i].seedCode.value && IsAlias(objs[i].program))
  }

  /** Unmanaged rows anchored at a processed code have been normalised. */
  predicate Normalised(d0: seq<Objective>, codes: set<string>, objs: seq<Objective>) {
    && |d0| <= |objs|
    && forall i :: 0 <= i < |d0| && Named(d0[i].seedCode) && d0[i].seedCode.value in codes && !d0[i].managed ==>
      IsAlias(objs[i].program)
  }

  ghost predicate General(t0: Tables, data: seq<ObjectiveData>, p: Progress) {
    var s := p.session;
    && !s.clash && SameShape(s)
    && s.stored.courses == s.live.courses == t0.courses
    && s.stored.cells == s.live.cells == t0.cells
    && SoundObjectives(s.stored.objectives)
    && AllEvolve(t0.objectives, s.stored.objectives) && AllEvolve(s.stored.objectives, s.live.objectives)
    && AnchorsGenuine(t0.objectives, s.stored.objectives) && AnchorsGenuine(t0.objectives, s.live.objectives)
    && Normalised(t0.objectives, Codes(data), s.live.objectives)
    && IdsIn(p.ids, s.live.objectives) && p.ids.Keys == Codes(data)
  }

  lemma AllEvolveTransitive(a: seq<Objective>, b: seq<Objective>, c: seq<Objective>)
    requires AllEvolve(a, b) && AllEvolve(b, c)
    ensures AllEvolve(a, c)
  {
    forall i | 0 <= i < |a| ensures Evolves(a[i], c[i]) {
      assert Evolves(a[i], b[i]) && Evolves(b[i], c[i]);
    }
  }

  lemma CodesGrow(data: seq<ObjectiveData>)
    requires data != []
    ensures Codes(data) == Codes(data[..|data| - 1]) + {data[|data| - 1].code}
  {
    var n := |data| - 1;
    forall c | c in Codes(data) ensures c in Codes(data[..n]) + {data[n].code} {
      var i :| 0 <= i < |data| && data[i].code == c;
      assert i < n ==> data[..n][i].code == c;
    }
    forall c | c in Codes(data[..n]) ensures c in Codes(data) {
      var i :| 0 <= i < n && data[..n][i].code == c;
      assert data[i].code == c;
    }
  }

  /** Correcting the row that answers for a code. */
  lemma CorrectionKeepsGenuine(d0: seq<Objective>, stored: seq<Objective>, objs: seq<Objective>, i: int, d: ObjectiveData)
    requires |stored| == |objs| && AllEvolve(stored, objs) && AnchorsGenuine(d0, objs)
    requires Answers(stored, d.code, i)
    ensures Evolves(objs[i], Corrected(objs[i], d))
    ensures AllEvolve(objs, objs[i := Corrected(objs[i], d)])
    ensures AnchorsGenuine(d0, objs[i := Corrected(objs[i], d)])
  {
    var after := objs[i := Corrected(objs[i], d)];
    assert Evolves(stored[i], objs[i]);
    assert Evolves(objs[i], after[i]);
  }

  lemma CorrectionNormalises(
    d0: seq<Objective>, codes: set<string>, stored: seq<Objective>, objs: seq<Objective>, i: int, d: ObjectiveData)
    requires |stored| == |objs| && AllEvolve(d0, stored) && AllEvolve(stored, objs)
    requires SoundObjectives(stored) && Normalised(d0, codes, objs) && Answers(stored, d.code, i)
    ensures Normalised(d0, codes + {d.code}, objs[i := Corrected(objs[i], d)])
  {
    hide SoundObjectives;
    ResolveFindsTheAnswer(stored, d.code);
    forall j | 0 <= j < |d0| && Named(d0[j].seedCode) && d0[j].seedCode.value == d.code && !d0[j].managed ensures j == i {
      assert Evolves(d0[j], stored[j]);
      assert Answers(stored, d.code, j);
    }
    assert i < |d0| ==> Evolves(d0[i], stored[i]);
    assert Evolves(stored[i], objs[i]);
  }

  lemma AllEvolveReflexive(a: seq<Objective>)
    ensures AllEvolve(a, a)
  {
  }

  lemma AppendingEvolves(a: seq<Objective>, d: ObjectiveData)
    ensures AllEvolve(a, a + [FreshObjective(d)])
  {
  }

  lemma CorrectionStep(t0: Tables, data: seq<ObjectiveData>, p: Progress, d: ObjectiveData, i: int)
    requires General(t0, data, p) && Answers(p.session.stored.objectives, d.code, i)
    ensures
      var s := p.session;
      var objs := s.live.objectives;
      var t := s.(live := s.live.(objectives := objs[i := Corrected(objs[i], d)]));
      General(t0, data + [d], Progress(t, p.ids[d.code := i]))
  {
    hide AllEvolve, AnchorsGenuine, SoundObjectives, Normalised, Corrected, Answers, Codes;
    var s := p.session;
    var stored, objs := s.stored.objectives, s.live.objectives;
    InRange(stored, d.code, i);
    CodesGrow(data + [d]);
    assert (data + [d])[..|data|] == data;
    CorrectionKeepsGenuine(t0.objectives, stored, objs, i, d);
    CorrectionNormalises(t0.objectives, Codes(data), stored, objs, i, d);
    AllEvolveTransitive(stored, objs, objs[i := Corrected(objs[i], d)]);
  }

  lemma CreationStep(t0: Tables, data: seq<ObjectiveData>, p: Progress, d: ObjectiveData)
    requires General(t0, data, p) && forall i :: !Answers(p.session.stored.objectives, d.code, i)
    ensures
      var s := p.session;
      var objs := s.live.objectives + [FreshObjective(d)];
      var t := s.(live := s.live.(objectives := objs));
      SoundObjectives(objs) ==> General(t0, data + [d], Progress(t.(stored := t.live), p.ids[d.code := |objs| - 1]))
  {
    hide SoundObjectives, Codes;
    var s := p.session;
    var d0, stored, objs := t0.objectives, s.stored.objectives, s.live.objectives;
    CodesGrow(data + [d]);
    assert (data + [d])[..|data|] == data;
    AppendingEvolves(objs, d);
    AllEvolveTransitive(stored, objs, objs + [FreshObjective(d)]);
    AllEvolveTransitive(d0, stored, objs + [FreshObjective(d)]);
    AllEvolveReflexive(objs + [FreshObjective(d)]);
    assert Normalised(d0, Codes(data) + {d.code}, objs + [FreshObjective(d)]) by {
      forall j | 0 <= j < |d0| && Named(d0[j].seedCode) && d0[j].seedCode.value in Codes(data) + {d.code} && !d0[j].managed
        ensures IsAlias(objs[j].program)
      {
        assert Evolves(d0[j], stored[j]);
        assert !Answers(stored, d.code, j);
      }
    }
  }

  /** One payload objective keeps the general invariant. */
  lemma ObjectiveStepIsGeneral(t0: Tables, data: seq<ObjectiveData>, p: Progress, d: ObjectiveData)
    requires General(t0, data, p) && ObjectiveStep(p, d).Ok?
    ensures General(t0, data + [d], ObjectiveStep(p, d).value)
  {
    hide AllEvolve, AnchorsGenuine, SoundObjectives, Normalised, Corrected, Answers, Codes, Resolve;
    var s := p.session;
    var stored, objs := s.stored.objectives, s.live.objectives;
    ResolveFindsTheAnswer(stored, d.code);
    match Resolve(stored, d.code)
    case Ok(None) =>
      CreationStep(t0, data, p, d);
      assert SoundObjectives(objs + [FreshObjective(d)]);
    case Ok(Some(i)) =>
      CorrectionStep(t0, data, p, d, i);
  }

  lemma NothingDone(t0: Tables)
    requires SoundObjectives(t0.objectives)
    ensures General(t0, [], Progress(Session(t0, t0, false), map[]))
  {
    hide SoundObjectives;
    AllEvolveReflexive(t0.objectives);
  }

  lemma {:induction false} ObjectivesAreGeneral(t0: Tables, data: seq<ObjectiveData>)
    requires SoundObjectives(t0.objectives)
    requires SeedObjectives(Session(t0, t0, false), data).Ok?
    ensures General(t0, data, SeedObjectives(Session(t0, t0, false), data).value)
  {
    hide ObjectiveStep, SoundObjectives, General;
    if data == [] {
      NothingDone(t0);
    } else {
      var n := |data| - 1;
      ObjectivesAreGeneral(t0, data[..n]);
      ObjectiveStepIsGeneral(t0, data[..n], SeedObjectives(Session(t0, t0, false), data[..n]).value, data[n]);
      assert data[..n] + [data[n]] == data;
    }
  }

  // ---- When anchored rows have kept out of each other's codes ----

  /**
   Row `i` can be taken for its code although it is anchored elsewhere: no row is anchored
   at that code, and the row is, or is about to become, one of the program's.
   */
  predicate TakenFor(objs: seq<Objective>, codes: set<string>, i: int)
    requires 0 <= i < |objs|
  {
    var o := objs[i];
    && o.code in codes && Named(o.seedCode) && o.seedCode.value != o.code && !Anchored(objs, o.code)
    && (IsAlias(o.program) || (!o.managed && o.seedCode.value in codes))
  }

  predicate Aligned(objs: seq<Objective>, codes: set<string>) {
    forall i :: 0 <= i < |objs| ==> !TakenFor(objs, codes, i)
  }

  /** Such a row also stands for another payload code, the one it is anchored at. */
  predicate Disputed(objs: seq<Objective>, codes: set<string>, i: int)
    requires 0 <= i < |objs|
  {
    TakenFor(objs, codes, i) && objs[i].seedCode.value in codes
  }

  predicate Undisputed(objs: seq<Objective>, codes: set<string>) {
    forall i :: 0 <= i < |objs| ==> !Disputed(objs, codes, i)
  }

  lemma AlignedIsUndisputed(objs: seq<Objective>, codes: set<string>)
    ensures Aligned(objs, codes) ==> Undisputed(objs, codes)
  {
  }

  /** The seeder, looking for `known` codes, takes the row for `c` or for none of them. */
  predicate GoesBy(o: Objective, c: string, known: set<string>) {
    Identity(o) == c || Identity(o) !in known
  }

  predicate DistinctCodes(data: seq<ObjectiveData>) {
    && (forall i :: 0 <= i < |data| ==> data[i].code != "")
    && (forall i, j :: 0 <= i < j < |data| ==> data[i].code != data[j].code)
  }

  /** The row a code was given: the answering row, corrected, or a new one. */
  predicate Assigned(d0: seq<Objective>, d: ObjectiveData, objs: seq<Objective>, id: int)
    requires |d0| <= |objs|
  {
    && 0 <= id < |objs|
    && if id < |d0| then Answers(d0, d.code, id) && objs[id] == Corrected(d0[id], d)
       else objs[id] == FreshObjective(d) && forall i :: 0 <= i < |d0| ==> !Answers(d0, d.code, i)
  }

  /** The rows after the pass, exactly. */
  ghost predicate Exact(d0: seq<Objective>, data: seq<ObjectiveData>, objs: seq<Objective>, ids: map<string, int>) {
    && |d0| <= |objs| && ids.Keys == Codes(data) && IdsIn(ids, objs)
    && (forall j :: 0 <= j < |data| ==> data[j].code in ids && Assigned(d0, data[j], objs, ids[data[j].code]))
    && (forall i :: 0 <= i < |objs| && i !in ids.Values ==> i < |d0| && objs[i] == d0[i])
  }

  predicate OldOrLive(d0: seq<Objective>, stored: seq<Objective>, objs: seq<Objective>) {
    && |stored| == |objs|
    && forall i :: 0 <= i < |objs| ==> stored[i] == objs[i] || (i < |d0| && stored[i] == d0[i])
  }

  lemma AnswerKeepsItsCode(d0: seq<Objective>, codes: set<string>, d: ObjectiveData, i: int)
    requires Undisputed(d0, codes) && d.code in codes && d.code != "" && Answers(d0, d.code, i)
    ensures Identity(Corrected(d0[i], d)) == Identity(d0[i]) && GoesBy(d0[i], d.code, codes)
    ensures Identity(d0[i]) != d.code ==>
      && d0[i].code == d.code && IsAlias(d0[i].program) && !Anchored(d0, d.code)
      && TakenFor(d0, codes, i) && Corrected(d0[i], d).seedCode == d0[i].seedCode
  {
    assert !Disputed(d0, codes, i);
  }

  lemma AssignedKeepsItsCode(d0: seq<Objective>, codes: set<string>, d: ObjectiveData, objs: seq<Objective>, id: int)
    requires |d0| <= |objs| && Undisputed(d0, codes) && d.code in codes && d.code != "" && Assigned(d0, d, objs, id)
    ensures GoesBy(objs[id], d.code, codes)
  {
    if id < |d0| {
      AnswerKeepsItsCode(d0, codes, d, id);
    }
  }

  /** No row answers for two codes. */
  lemma OneCodeEach(d0: seq<Objective>, codes: set<string>, d: ObjectiveData, e: ObjectiveData, i: int)
    requires Undisputed(d0, codes) && d.code in codes && d.code != "" && e.code in codes && e.code != ""
    requires Answers(d0, d.code, i) && Answers(d0, e.code, i)
    ensures d.code == e.code
  {
    hide Identity, Undisputed, Corrected;
    AnswerKeepsItsCode(d0, codes, d, i);
    AnswerKeepsItsCode(d0, codes, e, i);
  }

  /** Everything known while the pass is under way. */
  ghost predicate Underway(
    d0: seq<Objective>, codes: set<string>, data: seq<ObjectiveData>, stored: seq<Objective>, objs: seq<Objective>,
    ids: map<string, int>)
  {
    && SoundObjectives(d0) && SoundObjectives(stored) && Undisputed(d0, codes)
    && DistinctCodes(data) && Codes(data) <= codes
    && Exact(d0, data, objs, ids) && OldOrLive(d0, stored, objs)
  }

  lemma RowOrigin(d0: seq<Objective>, data: seq<ObjectiveData>, objs: seq<Objective>, ids: map<string, int>, i: int)
    requires Exact(d0, data, objs, ids) && 0 <= i < |objs|
    ensures (i < |d0| && objs[i] == d0[i]) || exists j :: 0 <= j < |data| && Assigned(d0, data[j], objs, i)
  {
    if i in ids.Values {
      var c :| c in ids && ids[c] == i;
      assert c in Codes(data);
      var j :| 0 <= j < |data| && data[j].code == c;
      assert Assigned(d0, data[j], objs, i);
    }
  }

  lemma Widths(d0: seq<Objective>, data: seq<ObjectiveData>, objs: seq<Objective>, ids: map<string, int>)
    requires Exact(d0, data, objs, ids)
    ensures |d0| <= |objs|
  {
  }

  lemma SameAnchor(
    d0: seq<Objective>, codes: set<string>, data: seq<ObjectiveData>, stored: seq<Objective>, objs: seq<Objective>,
    ids: map<string, int>, c: string, i: int)
    requires Underway(d0, codes, data, stored, objs, ids) && c != "" && c !in Codes(data) && 0 <= i < |objs|
    ensures stored[i].seedCode == Some(c) <==> i < |d0| && d0[i].seedCode == Some(c)
  {
    hide SoundObjectives, Undisputed, Answers;
    RowOrigin(d0, data, objs, ids, i);
    assert forall j :: 0 <= j < |data| ==> data[j].code in Codes(data);
  }

  lemma SameMatch(
    d0: seq<Objective>, codes: set<string>, data: seq<ObjectiveData>, stored: seq<Objective>, objs: seq<Objective>,
    ids: map<string, int>, c: string, i: int)
    requires Underway(d0, codes, data, stored, objs, ids) && c != "" && c in codes && c !in Codes(data)
    requires 0 <= i < |objs| && !Anchored(d0, c)
    ensures stored[i].code == c && IsAlias(stored[i].program) <==> i < |d0| && d0[i].code == c && IsAlias(d0[i].program)
  {
    hide SoundObjectives, Anchored;
    RowOrigin(d0, data, objs, ids, i);
    assert forall j :: 0 <= j < |data| ==> data[j].code in Codes(data);
    if i < |d0| {
      assert !Disputed(d0, codes, i);
    }
  }

  /** Earlier work in the same run does not change which row a later code stands for. */
  lemma SameAnswers(
    d0: seq<Objective>, codes: set<string>, data: seq<ObjectiveData>, stored: seq<Objective>, objs: seq<Objective>,
    ids: map<string, int>, c: string)
    requires Underway(d0, codes, data, stored, objs, ids) && c != "" && c in codes && c !in Codes(data)
    ensures forall i :: Answers(stored, c, i) <==> i < |d0| && Answers(d0, c, i)
    ensures Resolve(stored, c) == Resolve(d0, c)
  {
    hide SoundObjectives, Undisputed, Resolve, Exact;
    Widths(d0, data, objs, ids);
    forall i | 0 <= i < |objs| ensures stored[i].seedCode == Some(c) <==> i < |d0| && d0[i].seedCode == Some(c) {
      SameAnchor(d0, codes, data, stored, objs, ids, c, i);
    }
    assert Anchored(stored, c) <==> Anchored(d0, c);
    forall i | 0 <= i < |objs| && !Anchored(d0, c)
      ensures stored[i].code == c && IsAlias(stored[i].program) <==> i < |d0| && d0[i].code == c && IsAlias(d0[i].program)
    {
      SameMatch(d0, codes, data, stored, objs, ids, c, i);
    }
    AnswersDecide(stored, d0, c);
  }

  lemma AnswersDecide(a: seq<Objective>, b: seq<Objective>, c: string)
    requires SoundObjectives(a) && SoundObjectives(b)
    requires forall i :: Answers(a, c, i) <==> Answers(b, c, i)
    ensures Resolve(a, c) == Resolve(b, c)
  {
    hide SoundObjectives, Answers, Resolve;
    ResolveFindsTheAnswer(a, c);
    ResolveFindsTheAnswer(b, c);
  }

  /** A row that answers for a new code has not been given to an earlier one. */
  lemma AnswerIsUntouched(
    d0: seq<Objective>, codes: set<string>, data: seq<ObjectiveData>, stored: seq<Objective>, objs: seq<Objective>,
    ids: map<string, int>, d: ObjectiveData, i: int)
    requires Underway(d0, codes, data, stored, objs, ids) && d.code != "" && d.code in codes && d.code !in Codes(data)
    requires Answers(d0, d.code, i)
    ensures i !in ids.Values && objs[i] == d0[i]
  {
    hide SoundObjectives, Undisputed, Answers, Identity;
    InRange(d0, d.code, i);
    forall c | c in ids ensures ids[c] != i {
      assert c in Codes(data);
      var j :| 0 <= j < |data| && data[j].code == c;
      assert Assigned(d0, data[j], objs, ids[c]);
      if ids[c] == i {
        OneCodeEach(d0, codes, d, data[j], i);
      }
    }
  }

  /** The pass so far, with the session it works on. */
  ghost predicate Pass(t0: Tables, codes: set<string>, data: seq<ObjectiveData>, p: Progress) {
    var s := p.session;
    && !s.clash && SameShape(s)
    && s.stored.courses == s.live.courses == t0.courses
    && s.stored.cells == s.live.cells == t0.cells
    && Underway(t0.objectives, codes, data, s.stored.objectives, s.live.objectives, p.ids)
  }

  lemma ExtendedData(data: seq<ObjectiveData>, d: ObjectiveData)
    requires DistinctCodes(data + [d])
    ensures DistinctCodes(data) && d.code != "" && d.code !in Codes(data) && Codes(data + [d]) == Codes(data) + {d.code}
  {
    var all := data + [d];
    CodesGrow(all);
    assert all[..|data|] == data;
    assert forall i :: 0 <= i < |data| ==> all[i] == data[i] && data[i].code != all[|data|].code;
  }

  /** The exact description is carried over by one more assignment. */
  lemma ExactExtends(
    d0: seq<Objective>, data: seq<ObjectiveData>, objs: seq<Objective>, ids: map<string, int>, d: ObjectiveData,
    after: seq<Objective>, id: int)
    requires Exact(d0, data, objs, ids) && d.code !in Codes(data) && Codes(data + [d]) == Codes(data) + {d.code}
    requires |objs| <= |after| && id !in ids.Values && Assigned(d0, d, after, id)
    requires forall i :: 0 <= i < |objs| && i != id ==> after[i] == objs[i]
    requires |after| <= |objs| + 1 && (|objs| < |after| ==> id == |objs|)
    ensures Exact(d0, data + [d], after, ids[d.code := id])
  {
    hide Answers, Codes;
    var all, ids' := data + [d], ids[d.code := id];
    CodesOf(data);
    forall j | 0 <= j < |all| ensures all[j].code in ids' && Assigned(d0, all[j], after, ids'[all[j].code]) {
      if j < |data| {
        assert all[j] == data[j] && data[j].code in ids;
        assert Assigned(d0, data[j], objs, ids[data[j].code]);
        assert ids[data[j].code] in ids.Values;
      }
    }
    forall i | 0 <= i < |after| && i !in ids'.Values ensures i < |d0| && after[i] == d0[i] {
      assert ids'[d.code] in ids'.Values;
      assert d.code !in ids;
      ValuesGrow(ids, d.code, id, i);
      assert i < |objs| && after[i] == objs[i];
    }
  }

  lemma CodesOf(data: seq<ObjectiveData>)
    ensures forall j :: 0 <= j < |data| ==> data[j].code in Codes(data)
  {
  }

  lemma ValuesGrow(ids: map<string, int>, c: string, id: int, i: int)
    requires c !in ids && i !in ids[c := id].Values
    ensures i !in ids.Values
  {
    forall e | e in ids ensures ids[e] != i {
      assert ids[c := id][e] == ids[e];
      assert ids[c := id][e] in ids[c := id].Values;
    }
  }

  lemma ObjectiveStepIsExact(t0: Tables, codes: set<string>, data: seq<ObjectiveData>, p: Progress, d: ObjectiveData)
    requires Pass(t0, codes, data, p) && DistinctCodes(data + [d]) && d.code in codes && ObjectiveStep(p, d).Ok?
    ensures Pass(t0, codes, data + [d], ObjectiveStep(p, d).value)
  {
    hide SoundObjectives, Corrected, Answers, Codes, Resolve, Exact, Undisputed, DistinctCodes;
    var s := p.session;
    var d0, stored, objs := t0.objectives, s.stored.objectives, s.live.objectives;
    ExtendedData(data, d);
    Widths(d0, data, objs, p.ids);
    SameAnswers(d0, codes, data, stored, objs, p.ids, d.code);
    ResolveFindsTheAnswer(d0, d.code);
    match Resolve(stored, d.code)
    case Ok(None) =>
      var after := objs + [FreshObjective(d)];
      assert SoundObjectives(after);
      NoIdYet(d0, data, objs, p.ids);
      ExactExtends(d0, data, objs, p.ids, d, after, |objs|);
    case Ok(Some(i)) =>
      InRange(d0, d.code, i);
      AnswerIsUntouched(d0, codes, data, stored, objs, p.ids, d, i);
      ExactExtends(d0, data, objs, p.ids, d, objs[i := Corrected(objs[i], d)], i);
  }

  lemma NoIdYet(d0: seq<Objective>, data: seq<ObjectiveData>, objs: seq<Objective>, ids: map<string, int>)
    requires Exact(d0, data, objs, ids)
    ensures |objs| !in ids.Values
  {
  }

  /**
   When no row stands for two payload codes, the pass assigns each payload code the row
   that answered for it before the run, corrected, or a new row, and touches no other row.
   */
  lemma {:induction false} ObjectivesAreExact(t0: Tables, codes: set<string>, data: seq<ObjectiveData>)
    requires SoundObjectives(t0.objectives) && Undisputed(t0.objectives, codes)
    requires DistinctCodes(data) && Codes(data) <= codes
    requires SeedObjectives(Session(t0, t0, false), data).Ok?
    ensures Pass(t0, codes, data, SeedObjectives(Session(t0, t0, false), data).value)
  {
    hide ObjectiveStep, SoundObjectives, Undisputed;
    if data != [] {
      var n := |data| - 1;
      CodesGrow(data);
      assert data[..n] + [data[n]] == data;
      ObjectivesAreExact(t0, codes, data[..n]);
      ObjectiveStepIsExact(t0, codes, data[..n], SeedObjectives(Session(t0, t0, false), data[..n]).value, data[n]);
    }
  }
}
