/** Writing a run's corrections to the preference log, planning again, and cleaning up. */
module HouseLogs {
  import opened Basics
  import opened Texts
  import opened HouseRules
  import opened HouseRuns

  const PREFIX := "house-rule-seed"

  function Note(run: string): string {
    PREFIX + ":" + run
  }

  function Row(w: CriterionPlan, user: int, run: string): Log {
    Log(w.evaluation, Some(w.generation), user, Some(AGENT), Some(w.code), "EDIT", w.raised, Some(Note(run)))
  }

  function Rows(ws: seq<CriterionPlan>, user: int, run: string): seq<Log> {
    seq(|ws|, i requires 0 <= i < |ws| => Row(ws[i], user, run))
  }

  predicate Tagged(l: Log, user: int, run: string) {
    l.notes == Some(Note(run)) && l.user == user && l.action == "EDIT"
  }

  predicate AnyTagged(logs: seq<Log>, user: int, run: string) {
    exists i :: 0 <= i < |logs| && Tagged(logs[i], user, run)
  }

  predicate AnyWrong(logs: seq<Log>, user: int, run: string) {
    exists i :: 0 <= i < |logs| && Tagged(logs[i], user, run) && !ForAgent(logs[i])
  }

  function Untagged(logs: seq<Log>, user: int, run: string): seq<Log> {
    if logs == [] then []
    else
      var front, last := Untagged(logs[..|logs| - 1], user, run), logs[|logs| - 1];
      if Tagged(last, user, run) then front else front + [last]
  }

  /** Removes exactly the tagged rows, or refuses if one of them is another agent's. */
  function CleanedUp(logs: seq<Log>, user: int, run: string): Option<seq<Log>> {
    if AnyWrong(logs, user, run) then None else Some(Untagged(logs, user, run))
  }

  class PreferenceStore {
    var logs: seq<Log>
    var house: Option<int>

    constructor (rows: seq<Log>)
      ensures logs == rows && house == None
    {
      logs, house := rows, None;
    }

    /** One transaction: every row and the house user, or nothing. */
    method WriteCorrections(ws: seq<CriterionPlan>, run: string, newUser: int, fails: bool) returns (r: Option<int>)
      modifies this
      ensures fails ==> r == None && logs == old(logs) && house == old(house)
      ensures !fails ==>
        && r == Some(|ws|) && house == Some(old(house).GetOr(newUser))
        && logs == old(logs) + Rows(ws, house.value, run)
    {
      var user := house.GetOr(newUser);
      var pending: seq<Log> := [];
      for i := 0 to |ws|
        invariant pending == Rows(ws[..i], user, run)
      {
        pending := pending + [Row(ws[i], user, run)];
      }
      assert ws[..|ws|] == ws;
      if fails {
        return None;
      }
      house := Some(user);
      logs := logs + pending;
      r := Some(|ws|);
    }

    method Cleanup(run: string) returns (r: Option<int>)
      modifies this
      ensures house == old(house)
      ensures house.None? ==> logs == old(logs) && r == Some(0)
      ensures house.Some? ==>
        match CleanedUp(old(logs), house.value, run)
        case None => r == None && logs == old(logs)
        case Some(rest) => logs == rest && r == Some(|old(logs)| - |rest|)
    {
      if house.None? {
        return Some(0);
      }
      var user := house.value;
      if AnyWrong(logs, user, run) {
        return None;
      }
      var rest: seq<Log> := [];
      for i := 0 to |logs|
        invariant logs == old(logs) && house == old(house)
        invariant rest == Untagged(logs[..i], user, run)
      {
        assert logs[..i + 1][..i] == logs[..i];
        if !Tagged(logs[i], user, run) {
          rest := rest + [logs[i]];
        }
      }
      assert logs[..|logs|] == logs;
      r := Some(|logs| - |rest|);
      logs := rest;
    }
  }

  // ---- Round trips ----

  lemma {:induction false} UntaggedOfSum(a: seq<Log>, b: seq<Log>, user: int, run: string)
    ensures Untagged(a + b, user, run) == Untagged(a, user, run) + Untagged(b, user, run)
  {
    if b == [] {
      assert a + b == a;
    } else {
      var n := |b| - 1;
      assert (a + b)[..|a + b| - 1] == a + b[..n];
      UntaggedOfSum(a, b[..n], user, run);
    }
  }

  lemma {:induction false} UntaggedKeepsOthers(logs: seq<Log>, user: int, run: string)
    ensures |Untagged(logs, user, run)| <= |logs|
    ensures Untagged(logs, user, run) == logs <==> !AnyTagged(logs, user, run)
    ensures |Untagged(logs, user, run)| == |logs| <==> !AnyTagged(logs, user, run)
    ensures forall l :: l in Untagged(logs, user, run) <==> l in logs && !Tagged(l, user, run)
  {
    hide Tagged;
    if logs != [] {
      var n := |logs| - 1;
      UntaggedKeepsOthers(logs[..n], user, run);
      assert logs == logs[..n] + [logs[n]];
      assert forall i :: 0 <= i < n ==> logs[..n][i] == logs[i];
    }
  }

  lemma {:induction false} UntaggedIsEmpty(logs: seq<Log>, user: int, run: string)
    requires forall i :: 0 <= i < |logs| ==> Tagged(logs[i], user, run)
    ensures Untagged(logs, user, run) == []
  {
    if logs != [] {
      UntaggedIsEmpty(logs[..|logs| - 1], user, run);
    }
  }

  lemma RowsAreTagged(ws: seq<CriterionPlan>, user: int, run: string)
    ensures forall i :: 0 <= i < |ws| ==> Tagged(Rows(ws, user, run)[i], user, run) && ForAgent(Rows(ws, user, run)[i])
  {
    assert Lower(AGENT) == AGENT;
  }

  lemma AnyWrongOfSum(a: seq<Log>, b: seq<Log>, user: int, run: string)
    ensures AnyWrong(a + b, user, run) <==> AnyWrong(a, user, run) || AnyWrong(b, user, run)
  {
    hide Tagged, ForAgent;
    assert forall i :: 0 <= i < |a| ==> (a + b)[i] == a[i];
    assert forall i :: 0 <= i < |b| ==> (a + b)[|a| + i] == b[i];
    if AnyWrong(b, user, run) {
      var i :| 0 <= i < |b| && Tagged(b[i], user, run) && !ForAgent(b[i]);
      assert (a + b)[|a| + i] == b[i];
    }
  }

  /** Cleanup takes back what was written, and restores the log exactly when the run id was fresh. */
  lemma WriteThenCleanup(logs: seq<Log>, ws: seq<CriterionPlan>, user: int, run: string)
    ensures CleanedUp(logs + Rows(ws, user, run), user, run) == CleanedUp(logs, user, run)
    ensures CleanedUp(logs, user, run) == Some(logs) <==> !AnyTagged(logs, user, run)
  {
    hide Tagged, ForAgent, AnyWrong;
    var rows := Rows(ws, user, run);
    RowsAreTagged(ws, user, run);
    AnyWrongOfSum(logs, rows, user, run);
    NoneWrong(rows, user, run);
    UntaggedOfSum(logs, rows, user, run);
    UntaggedIsEmpty(rows, user, run);
    UntaggedKeepsOthers(logs, user, run);
    WrongIsTagged(logs, user, run);
    assert Untagged(logs, user, run) + [] == Untagged(logs, user, run);
  }

  lemma NoneWrong(rows: seq<Log>, user: int, run: string)
    requires forall i :: 0 <= i < |rows| ==> ForAgent(rows[i])
    ensures !AnyWrong(rows, user, run)
  {
  }

  lemma WrongIsTagged(logs: seq<Log>, user: int, run: string)
    ensures AnyWrong(logs, user, run) ==> AnyTagged(logs, user, run)
  {
  }

  lemma NotesDiffer(a: string, b: string)
    requires a != b
    ensures Note(a) != Note(b)
  {
    var n := |PREFIX + ":"|;
    assert Note(a)[n..] == a;
    assert Note(b)[n..] == b;
  }

  /** Runs do not disturb each other: cleaning one up leaves what another wrote. */
  lemma CleanupSparesOtherRuns(logs: seq<Log>, ws: seq<CriterionPlan>, vs: seq<CriterionPlan>, user: int, run: string, other: string)
    requires run != other && !AnyTagged(logs, user, run)
    ensures CleanedUp(logs + Rows(ws, user, run) + Rows(vs, user, other), user, run) == Some(logs + Rows(vs, user, other))
  {
    hide ForAgent, AnyWrong;
    var rows, others := Rows(ws, user, run), Rows(vs, user, other);
    NotesDiffer(run, other);
    assert !AnyTagged(others, user, run);
    RowsAreTagged(ws, user, run);
    NoneWrong(rows, user, run);
    WrongIsTagged(logs, user, run);
    WrongIsTagged(others, user, run);
    AnyWrongOfSum(logs, rows, user, run);
    AnyWrongOfSum(logs + rows, others, user, run);
    UntaggedOfSum(logs, rows, user, run);
    UntaggedOfSum(logs + rows, others, user, run);
    UntaggedIsEmpty(rows, user, run);
    UntaggedKeepsOthers(logs, user, run);
    UntaggedKeepsOthers(others, user, run);
    assert Untagged(logs, user, run) + [] == logs;
  }

  // ---- The rows themselves ----

  /** The stored row says who corrected what, to which score, in which run. */
  predicate Says(l: Log, w: CriterionPlan, user: int, run: string) {
    && l.evaluation == w.evaluation && l.generation == Some(w.generation) && l.user == user
    && l.agent == Some("sme") && l.criterion == Some(w.code) && l.action == "EDIT" && l.edited == w.raised
    && l.notes == Some("house-rule-seed:" + run)
  }

  /** An edit of the house user that carries the run's note. */
  predicate OfRun(l: Log, user: int, run: string) {
    l.user == user && l.action == "EDIT" && l.notes.Some? && l.notes.value == "house-rule-seed:" + run
  }

  lemma OfRunIsTagged(l: Log, user: int, run: string)
    ensures Tagged(l, user, run) <==> OfRun(l, user, run)
  {
    assert Note(run) == "house-rule-seed:" + run;
  }

  /** Each written row says its correction, and cleaning its run up will find it. */
  lemma RowsSayTheCorrections(ws: seq<CriterionPlan>, user: int, run: string, i: int)
    requires 0 <= i < |ws|
    ensures |Rows(ws, user, run)| == |ws| && Says(Rows(ws, user, run)[i], ws[i], user, run)
    ensures OfRun(Rows(ws, user, run)[i], user, run)
  {
    assert Note(run) == "house-rule-seed:" + run;
  }

  predicate OfOtherAgent(l: Log) {
    l.agent.None? || Lower(l.agent.value) != "sme"
  }

  ghost predicate StrayRow(logs: seq<Log>, user: int, run: string) {
    exists i :: 0 <= i < |logs| && OfRun(logs[i], user, run) && OfOtherAgent(logs[i])
  }

  function WithoutRun(logs: seq<Log>, user: int, run: string): seq<Log> {
    if logs == [] then []
    else (if OfRun(logs[0], user, run) then [] else [logs[0]]) + WithoutRun(logs[1..], user, run)
  }

  /** Cleanup refuses exactly if the run's note is on a row of another agent, and else drops just the run's rows. */
  lemma CleanupExactly(logs: seq<Log>, user: int, run: string)
    ensures CleanedUp(logs, user, run) == if StrayRow(logs, user, run) then None else Some(WithoutRun(logs, user, run))
  {
    hide Tagged, OfRun;
    forall l ensures Tagged(l, user, run) <==> OfRun(l, user, run) {
      OfRunIsTagged(l, user, run);
    }
    UntaggedIsWithout(logs, user, run);
  }

  lemma {:induction false} UntaggedIsWithout(logs: seq<Log>, user: int, run: string)
    ensures Untagged(logs, user, run) == WithoutRun(logs, user, run)
  {
    if logs != [] {
      OfRunIsTagged(logs[0], user, run);
      hide Tagged, OfRun;
      UntaggedIsWithout(logs[1..], user, run);
      UntaggedOfSum([logs[0]], logs[1..], user, run);
      assert logs == [logs[0]] + logs[1..];
      assert [logs[0]][..0] == [];
    }
  }

  // ---- Planning again ----

  predicate HasWrite(ws: seq<CriterionPlan>, id: int, code: string) {
    exists i :: 0 <= i < |ws| && ws[i].evaluation == id && ws[i].code == code
  }

  lemma ExistingAfterWriting(logs: seq<Log>, ws: seq<CriterionPlan>, user: int, run: string, id: int)
    ensures forall code ::
      code in ExistingCodes(logs + Rows(ws, user, run), id) <==> code in ExistingCodes(logs, id) || HasWrite(ws, id, code)
  {
    var rows := Rows(ws, user, run);
    var all := logs + rows;
    assert Lower(AGENT) == AGENT;
    assert forall i :: 0 <= i < |logs| ==> all[i] == logs[i];
    forall i | 0 <= i < |ws| ensures all[|logs| + i] == Row(ws[i], user, run) && ForAgent(all[|logs| + i]) {
    }
    forall code ensures code in ExistingCodes(all, id) <==> code in ExistingCodes(logs, id) || HasWrite(ws, id, code) {
      if code in ExistingCodes(all, id) {
        var i :| 0 <= i < |all| && all[i].evaluation == id && ForAgent(all[i]) && all[i].criterion == Some(code);
        if i >= |logs| {
          assert all[i] == Row(ws[i - |logs|], user, run);
          assert ws[i - |logs|].code == code;
        }
      }
      if code in ExistingCodes(logs, id) {
        var i :| 0 <= i < |logs| && logs[i].evaluation == id && ForAgent(logs[i]) && logs[i].criterion == Some(code);
        assert all[i] == logs[i];
      }
      if HasWrite(ws, id, code) {
        var i :| 0 <= i < |ws| && ws[i].evaluation == id && ws[i].code == code;
        assert all[|logs| + i].criterion == Some(code);
      }
    }
  }

  /** The plan of a criterion after the writes: corrected ones now have a log, others are as before. */
  function After(p: EvaluationPlan, c: CriterionPlan): CriterionPlan {
    if p.train && c.raised.Some? then c.(raised := None, skip := Some(ExistingLog)) else c
  }

  function PlanAfter(p: EvaluationPlan): EvaluationPlan {
    p.(criteria := seq(|p.criteria|, i requires 0 <= i < |p.criteria| => After(p, p.criteria[i])))
  }

  lemma DecisionAfter(c: Context, d: Context, g: int, m: Measurement, now: bool)
    requires Coded(m) && d == c.(existing := d.existing)
    requires m.criterion.value in d.existing <==> m.criterion.value in c.existing || now
    ensures now && PlanOf(c, g, m).raised.Some? ==> PlanOf(d, g, m) == PlanOf(c, g, m).(raised := None, skip := Some(ExistingLog))
    ensures !now ==> PlanOf(d, g, m) == PlanOf(c, g, m)
  {
    hide AsScore;
  }

  lemma CriterionAfter(
    evals: Evaluations, logs: seq<Log>, more: seq<Log>, id: int, edits: set<string>, train: bool, p: EvaluationPlan, i: int)
    requires PlanEvaluation(evals, logs, id, train, edits) == Ok(p)
    requires PlanEvaluation(evals, more, id, train, edits).Ok?
    requires |PlanEvaluation(evals, more, id, train, edits).value.criteria| == |p.criteria| && 0 <= i < |p.criteria|
    requires forall code :: code in ExistingCodes(more, id) <==> code in ExistingCodes(logs, id) || WritesCode(p, code)
    ensures PlanEvaluation(evals, more, id, train, edits).value.criteria[i] == After(p, p.criteria[i])
  {
    hide Measured, UsableOf, ExistingCodes, CodesOf, PlanOf, Planned;
    var e := evals[id];
    var ms := Measured(UsableOf(e.generations));
    var c, d := ContextOf(e, logs, id, edits), ContextOf(e, more, id, edits);
    var code := ms[i].1.criterion.value;
    assert p.criteria[i] == PlanOf(c, ms[i].0, ms[i].1);
    CodeOfPlan(c, ms[i].0, ms[i].1);
    var now := WritesCode(p, code);
    DecisionAfter(c, d, ms[i].0, ms[i].1, now);
    if now {
      var w :| w in PlanWrites(p) && w.code == code;
      var k := PlannedFrom(p.criteria, w);
      PlannedCodeIsAlone(evals, logs, id, train, edits, p, k, i);
    } else if train && p.criteria[i].raised.Some? {
      PlannedHas(p, i);
    }
  }

  predicate WritesCode(p: EvaluationPlan, code: string) {
    exists w :: w in PlanWrites(p) && w.code == code
  }

  lemma PlannedHas(p: EvaluationPlan, i: int)
    requires p.train && 0 <= i < |p.criteria| && p.criteria[i].raised.Some?
    ensures WritesCode(p, p.criteria[i].code)
  {
    assert p.criteria[i] in PlanWrites(p);
  }

  lemma CodeOfPlan(c: Context, g: int, m: Measurement)
    requires Coded(m)
    ensures PlanOf(c, g, m).code == m.criterion.value
  {
  }

  lemma EvaluationAfter(
    evals: Evaluations, logs: seq<Log>, more: seq<Log>, id: int, edits: set<string>, train: bool, p: EvaluationPlan)
    requires PlanEvaluation(evals, logs, id, train, edits) == Ok(p)
    requires forall code :: code in ExistingCodes(more, id) <==> code in ExistingCodes(logs, id) || WritesCode(p, code)
    ensures PlanEvaluation(evals, more, id, train, edits) == Ok(PlanAfter(p))
  {
    hide Measured, UsableOf, ExistingCodes, CodesOf, PlanOf, WritesCode, After;
    var q := PlanEvaluation(evals, more, id, train, edits).value;
    forall i | 0 <= i < |p.criteria| ensures q.criteria[i] == PlanAfter(p).criteria[i] {
      CriterionAfter(evals, logs, more, id, edits, train, p, i);
    }
    assert q.criteria == PlanAfter(p).criteria;
  }

  function PlansAfter(plans: seq<EvaluationPlan>): seq<EvaluationPlan> {
    seq(|plans|, i requires 0 <= i < |plans| => PlanAfter(plans[i]))
  }

  lemma {:induction false} PlanAllAfter(
    evals: Evaluations, logs: seq<Log>, more: seq<Log>, ids: seq<(int, bool)>, edits: set<string>, plans: seq<EvaluationPlan>)
    requires PlanAll(evals, logs, ids, edits) == Ok(plans) && |plans| == |ids|
    requires forall i :: 0 <= i < |ids| ==> PlanEvaluation(evals, more, ids[i].0, ids[i].1, edits) == Ok(PlanAfter(plans[i]))
    ensures PlanAll(evals, more, ids, edits) == Ok(PlansAfter(plans))
  {
    hide PlanEvaluation, PlanAfter;
    if ids != [] {
      var n := |ids| - 1;
      PlansAre(evals, logs, ids[..n], edits);
      PlanAllAfter(evals, logs, more, ids[..n], edits, plans[..n]);
      assert PlansAfter(plans) == PlansAfter(plans[..n]) + [PlanAfter(plans[n])];
    } else {
      assert PlansAfter(plans) == [];
    }
  }

  /** In a run, what an evaluation has written is what its own plan writes. */
  lemma WritesOfOne(plans: seq<EvaluationPlan>, ids: seq<(int, bool)>, i: int)
    requires |plans| == |ids| && Distinct(ids) && 0 <= i < |ids|
    requires forall j :: 0 <= j < |plans| ==> forall w :: w in PlanWrites(plans[j]) ==> w.evaluation == ids[j].0
    ensures forall code :: HasWrite(Writes(plans), ids[i].0, code) <==> WritesCode(plans[i], code)
  {
    hide PlanWrites, Writes;
    WritesAre(plans);
    forall code ensures HasWrite(Writes(plans), ids[i].0, code) <==> WritesCode(plans[i], code) {
      if HasWrite(Writes(plans), ids[i].0, code) {
        var k :| 0 <= k < |Writes(plans)| && Writes(plans)[k].evaluation == ids[i].0 && Writes(plans)[k].code == code;
        var w := Writes(plans)[k];
        assert w in Writes(plans);
        var j :| 0 <= j < |plans| && w in PlanWrites(plans[j]);
        assert j == i;
      }
      if WritesCode(plans[i], code) {
        var w :| w in PlanWrites(plans[i]) && w.code == code;
        assert w in Writes(plans);
      }
    }
  }

  lemma SameChecks(plans: seq<EvaluationPlan>)
    ensures SharesDocument(PlansAfter(plans)) <==> SharesDocument(plans)
    ensures forall c :: Sees(PlansAfter(plans), c) <==> Sees(plans, c)
  {
    var after := PlansAfter(plans);
    assert forall i :: 0 <= i < |plans| ==>
      after[i].document == plans[i].document && after[i].train == plans[i].train && |after[i].criteria| == |plans[i].criteria|;
    assert forall i, k :: 0 <= i < |plans| && 0 <= k < |plans[i].criteria| ==>
      after[i].criteria[k].code == plans[i].criteria[k].code;
    forall c ensures Sees(after, c) <==> Sees(plans, c) {
      if Sees(plans, c) {
        var i, k :| 0 <= i < |plans| && 0 <= k < |plans[i].criteria| && plans[i].criteria[k].code == c;
        assert after[i].criteria[k].code == c;
      }
    }
  }

  lemma NothingPlanned(p: EvaluationPlan)
    ensures PlanWrites(PlanAfter(p)) == []
  {
    if p.train {
      NonePlanned(PlanAfter(p).criteria);
    }
  }

  lemma {:induction false} NonePlanned(criteria: seq<CriterionPlan>)
    requires forall i :: 0 <= i < |criteria| ==> criteria[i].raised.None?
    ensures Planned(criteria) == []
  {
    if criteria != [] {
      NonePlanned(criteria[..|criteria| - 1]);
    }
  }

  lemma {:induction false} NothingWritten(plans: seq<EvaluationPlan>)
    requires forall i :: 0 <= i < |plans| ==> PlanWrites(plans[i]) == []
    ensures Writes(plans) == []
  {
    hide PlanWrites;
    if plans != [] {
      NothingWritten(plans[..|plans| - 1]);
    }
  }

  /**
   Planning after the write succeeds again, differs only in that each corrected criterion
   is now skipped for its existing log, and so writes nothing.
   */
  lemma PlanningAgainWritesNothing(
    evals: Evaluations, logs: seq<Log>, train: seq<int>, reference: seq<int>, raw: seq<string>, user: int, run: string)
    requires PlanRun(evals, logs, train, reference, raw).Ok?
    ensures
      var plan := PlanRun(evals, logs, train, reference, raw).value;
      var more := logs + Rows(Writes(plan.plans), user, run);
      PlanRun(evals, more, train, reference, raw) == Ok(plan.(plans := PlansAfter(plan.plans)))
    ensures Writes(PlansAfter(PlanRun(evals, logs, train, reference, raw).value.plans)) == []
  {
    hide PlanEvaluation, PlanAfter, Writes, PlanWrites, SharesDocument, Sees, Normalized, PlanAll, Rows, ExistingCodes, HasWrite, WritesCode,
         DistinctTargets;
    var plan := PlanRun(evals, logs, train, reference, raw).value;
    var ids, edits, plans := Listed(train, reference), Set(plan.codes), plan.plans;
    var more := logs + Rows(Writes(plans), user, run);
    RunPlanIs(evals, logs, train, reference, raw);
    forall j | 0 <= j < |plans| ensures forall w :: w in PlanWrites(plans[j]) ==> w.evaluation == ids[j].0 {
      PlanIsItsOwn(evals, logs, ids[j].0, ids[j].1, edits, plans[j]);
    }
    forall i | 0 <= i < |ids| ensures PlanEvaluation(evals, more, ids[i].0, ids[i].1, edits) == Ok(PlanAfter(plans[i])) {
      ExistingAfterWriting(logs, Writes(plans), user, run, ids[i].0);
      WritesOfOne(plans, ids, i);
      EvaluationAfter(evals, logs, more, ids[i].0, edits, ids[i].1, plans[i]);
    }
    PlanAllAfter(evals, logs, more, ids, edits, plans);
    SameChecks(plans);
    forall i | 0 <= i < |plans| ensures PlanWrites(PlansAfter(plans)[i]) == [] {
      NothingPlanned(plans[i]);
    }
    NothingWritten(PlansAfter(plans));
  }

  /** Plan, write, plan again, clean up, plan once more, under a run id never used before. */
  method Experiment(
    store: PreferenceStore, evals: Evaluations, train: seq<int>, reference: seq<int>, raw: seq<string>, run: string, newUser: int)
    returns (r: Result<RunPlan, Error>)
    requires !AnyTagged(store.logs, store.house.GetOr(newUser), run)
    modifies store
    ensures r == PlanRun(evals, old(store.logs), train, reference, raw)
    ensures store.logs == old(store.logs)
  {
    hide PlanRun, AnyWrong, AnyTagged, Untagged;
    r := PlanRun(evals, store.logs, train, reference, raw);
    if r.Err? {
      return;
    }
    ghost var logs := store.logs;
    var written := store.WriteCorrections(Writes(r.value.plans), run, newUser, false);
    PlanningAgainWritesNothing(evals, logs, train, reference, raw, store.house.value, run);
    var again := PlanRun(evals, store.logs, train, reference, raw);
    assert again.Ok? && Writes(again.value.plans) == [];
    WriteThenCleanup(logs, Writes(r.value.plans), store.house.value, run);
    var removed := store.Cleanup(run);
    assert PlanRun(evals, store.logs, train, reference, raw) == r;
  }
}
