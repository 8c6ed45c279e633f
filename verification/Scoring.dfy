/**
 Scoring held-out pairs: reply validation, answer keys, per-pair outcomes, and the
 evaluation run that feeds the sign test.  Replies are taken after JSON parsing.
 */
module Scoring {
  import opened Basics
  import opened SignTest

  const MIN_SCORE := 1
  const MAX_SCORE := 4
  const WORST_ERROR := MAX_SCORE - MIN_SCORE

  // ---- Python dictionaries from criterion to score, in insertion order ----

  type Dict = seq<(string, int)>

  predicate Has(d: Dict, id: string) {
    exists i :: 0 <= i < |d| && d[i].0 == id
  }

  function Get(d: Dict, id: string): (v: int)
    requires Has(d, id)
    ensures exists i :: 0 <= i < |d| && d[i] == (id, v)
  {
    if d[0].0 == id then assert d[0] == (id, d[0].1); d[0].1
    else
      var v := Get(d[1..], id);
      assert exists i :: 0 <= i < |d| && d[i] == (id, v) by {
        var j :| 0 <= j < |d[1..]| && d[1..][j] == (id, v);
        assert d[j + 1] == (id, v);
      }
      v
  }

  predicate Distinct(d: Dict) {
    forall i, j :: 0 <= i < j < |d| ==> d[i].0 != d[j].0
  }

  function Put(d: Dict, id: string, v: int): Dict {
    if d == [] then [(id, v)]
    else if d[0].0 == id then [(id, v)] + d[1..]
    else [d[0]] + Put(d[1..], id, v)
  }

  lemma GetAt(d: Dict, i: nat)
    requires Distinct(d) && i < |d|
    ensures Has(d, d[i].0) && Get(d, d[i].0) == d[i].1
  {
    var id := d[i].0;
    var j :| 0 <= j < |d| && d[j] == (id, Get(d, id));
  }

  lemma {:induction false} PutStaysDistinct(d: Dict, id: string, v: int)
    requires Distinct(d)
    ensures Distinct(Put(d, id, v))
  {
    hide Get;
    if d != [] && d[0].0 != id {
      PutStaysDistinct(d[1..], id, v);
      var q := Put(d[1..], id, v);
      forall i | 0 <= i < |q| ensures q[i].0 != d[0].0 {
        PutKeys(d[1..], id, v, i);
      }
    }
  }

  /** After a put, the key reads back the value and every other key reads as before. */
  lemma {:induction false} PutThenGet(d: Dict, id: string, v: int, other: string)
    ensures Has(Put(d, id, v), other) <==> other == id || Has(d, other)
    ensures Has(Put(d, id, v), id) && Get(Put(d, id, v), id) == v
    ensures other != id && Has(d, other) ==> Get(Put(d, id, v), other) == Get(d, other)
  {
    hide Has;
    var p := Put(d, id, v);
    if d == [] {
      NothingHas(other);
    } else {
      TailHas(d, other);
      if d[0].0 != id {
        PutThenGet(d[1..], id, v, other);
      }
    }
    TailHas(p, other);
    TailHas(p, id);
    if d == [] {
      NothingHas(other);
    }
  }

  lemma NothingHas(id: string)
    ensures !Has([], id)
  {
  }

  lemma TailHas(d: Dict, id: string)
    requires d != []
    ensures Has(d, id) <==> d[0].0 == id || Has(d[1..], id)
    ensures Has(d, id) && d[0].0 != id ==> Get(d, id) == Get(d[1..], id)
  {
    if Has(d[1..], id) {
      var i :| 0 <= i < |d[1..]| && d[1..][i].0 == id;
      assert d[i + 1].0 == id;
    }
    if Has(d, id) && d[0].0 != id {
      var i :| 0 <= i < |d| && d[i].0 == id;
      assert d[1..][i - 1].0 == id;
    }
  }

  lemma {:induction false} PutKeys(d: Dict, id: string, v: int, i: nat)
    requires i < |Put(d, id, v)|
    ensures Put(d, id, v)[i].0 == id || exists j :: 0 <= j < |d| && d[j].0 == Put(d, id, v)[i].0
  {
    if d != [] && d[0].0 != id && i > 0 {
      PutKeys(d[1..], id, v, i - 1);
      if Put(d, id, v)[i].0 != id {
        var j :| 0 <= j < |d[1..]| && d[1..][j].0 == Put(d, id, v)[i].0;
        assert d[j + 1].0 == Put(d, id, v)[i].0;
      }
    } else if d != [] && d[0].0 != id {
      assert d[0].0 == Put(d, id, v)[0].0;
    }
  }

  // ---- Validating one reply ----

  /** One entry of `criterion_measurements`; a blank id counts as no id. */
  datatype Measurement =
    | NotAnObject
    | NoCriterionId
    | NotAnInteger(id: string)
    | Measured(id: string, score: int)

  /** A reply: not JSON of the right outer shape, or its list of measurements. */
  datatype Reply = Unusable | Reply(measurements: seq<Measurement>)

  predicate Good(m: Measurement) {
    m.Measured? && MIN_SCORE <= m.score <= MAX_SCORE
  }

  predicate Valid(r: Reply) {
    r.Reply? && r.measurements != [] && forall i :: 0 <= i < |r.measurements| ==> Good(r.measurements[i])
  }

  predicate Mentions(ms: seq<Measurement>, id: string) {
    exists i :: 0 <= i < |ms| && ms[i].Measured? && ms[i].id == id
  }

  /** The score of the last measurement of `id`. */
  function LastScore(ms: seq<Measurement>, id: string): int
    requires Mentions(ms, id)
  {
    var m := ms[|ms| - 1];
    if m.Measured? && m.id == id then m.score else LastScore(ms[..|ms| - 1], id)
  }

  ghost predicate Records(d: Dict, ms: seq<Measurement>) {
    && Distinct(d)
    && (forall id :: Has(d, id) <==> Mentions(ms, id))
    && (forall id :: Mentions(ms, id) ==> Get(d, id) == LastScore(ms, id))
    && (forall i :: 0 <= i < |d| ==> MIN_SCORE <= d[i].1 <= MAX_SCORE)
  }

  lemma MentionsMore(ms: seq<Measurement>, m: Measurement, id: string)
    requires m.Measured?
    ensures Mentions(ms + [m], id) <==> m.id == id || Mentions(ms, id)
    ensures Mentions(ms + [m], id) ==> LastScore(ms + [m], id) == if m.id == id then m.score else LastScore(ms, id)
  {
    assert (ms + [m])[..|ms|] == ms && (ms + [m])[|ms|] == m;
    if Mentions(ms, id) {
      var i :| 0 <= i < |ms| && ms[i].Measured? && ms[i].id == id;
      assert (ms + [m])[i].id == id;
    }
  }

  lemma RecordsMore(d: Dict, ms: seq<Measurement>, m: Measurement)
    requires Records(d, ms) && Good(m)
    ensures Records(Put(d, m.id, m.score), ms + [m])
  {
    hide Has, Put;
    var p := Put(d, m.id, m.score);
    PutStaysDistinct(d, m.id, m.score);
    PutThenGet(d, m.id, m.score, m.id);
    forall id
      ensures Has(p, id) <==> Mentions(ms + [m], id)
      ensures Mentions(ms + [m], id) ==> Get(p, id) == LastScore(ms + [m], id)
    {
      PutThenGet(d, m.id, m.score, id);
      MentionsMore(ms, m, id);
    }
    forall i | 0 <= i < |p| ensures MIN_SCORE <= p[i].1 <= MAX_SCORE {
      GetAt(p, i);
      PutThenGet(d, m.id, m.score, p[i].0);
      if p[i].0 != m.id {
        var j :| 0 <= j < |d| && d[j] == (p[i].0, Get(d, p[i].0));
      }
    }
  }

  /** A valid reply yields the last score of each criterion it mentions; any other yields none. */
  method ValidateSmeReply(r: Reply) returns (scores: Option<Dict>)
    ensures scores.Some? <==> Valid(r)
    ensures scores.Some? ==> Records(scores.value, r.measurements)
  {
    if r.Unusable? || r.measurements == [] {
      return None;
    }
    var ms := r.measurements;
    var d: Dict := [];
    for index := 0 to |ms|
      invariant Records(d, ms[..index])
      invariant forall i :: 0 <= i < index ==> Good(ms[i])
    {
      var entry := ms[index];
      if entry.NotAnObject? || entry.NoCriterionId? || entry.NotAnInteger? {
        return None;
      }
      if !(MIN_SCORE <= entry.score <= MAX_SCORE) {
        return None;
      }
      assert ms[..index + 1] == ms[..index] + [entry];
      RecordsMore(d, ms[..index], entry);
      d := Put(d, entry.id, entry.score);
    }
    assert ms[..|ms|] == ms;
    return Some(d);
  }

  /** Accepted: some measurements, every one of a criterion with a whole score from one to four. */
  lemma AcceptedExactly(r: Reply)
    ensures Valid(r) <==>
      r.Reply? && |r.measurements| > 0
      && forall m :: m in r.measurements ==> m.Measured? && m.score in {1, 2, 3, 4}
  {
    if r.Reply? && |r.measurements| > 0 && forall m :: m in r.measurements ==> m.Measured? && m.score in {1, 2, 3, 4} {
      forall i | 0 <= i < |r.measurements| ensures Good(r.measurements[i]) {
        assert r.measurements[i] in r.measurements;
      }
    }
  }

  /** The score kept is that of the last place that measures the criterion. */
  lemma {:induction false} LastScoreIsTheLast(ms: seq<Measurement>, id: string) returns (i: int)
    requires Mentions(ms, id)
    ensures 0 <= i < |ms| && ms[i] == Measured(id, LastScore(ms, id))
    ensures forall j :: i < j < |ms| && ms[j].Measured? ==> ms[j].id != id
  {
    var n := |ms| - 1;
    if ms[n].Measured? && ms[n].id == id {
      i := n;
    } else {
      i := LastScoreIsTheLast(ms[..n], id);
      assert forall j :: i < j < n ==> ms[..n][j] == ms[j];
    }
  }

  // ---- Answer keys and errors ----

  /** Scores a validated reply can hold. */
  predicate InRange(d: Dict) {
    Distinct(d) && forall i :: 0 <= i < |d| ==> MIN_SCORE <= d[i].1 <= MAX_SCORE
  }

  function Changed(chosen: Dict, rejected: Dict): Dict {
    if chosen == [] then []
    else
      var (id, score) := chosen[0];
      (if Has(rejected, id) && Get(rejected, id) != score then [(id, score)] else [])
        + Changed(chosen[1..], rejected)
  }

  function AnswerKey(chosen: Option<Dict>, rejected: Option<Dict>): Option<Dict> {
    if chosen.None? || rejected.None? then None
    else
      var key := Changed(chosen.value, rejected.value);
      if key == [] then None else Some(key)
  }

  function Abs(x: int): nat {
    if x < 0 then -x else x
  }

  function ErrorOf(id: string, gold: int, scores: Dict): nat {
    if Has(scores, id) then Abs(Get(scores, id) - gold) else WORST_ERROR
  }

  function ErrorSum(key: Dict, scores: Dict): nat {
    if key == [] then 0
    else ErrorOf(key[0].0, key[0].1, scores) + ErrorSum(key[1..], scores)
  }

  function ErrorTotal(key: Dict, scores: Option<Dict>): nat {
    if scores.None? then WORST_ERROR * |key| else ErrorSum(key, scores.value)
  }

  datatype PairOutcome = Win | Loss | Tie

  function ScorePair(key: Dict, base: Option<Dict>, adapter: Option<Dict>): PairOutcome {
    var b, a := ErrorTotal(key, base), ErrorTotal(key, adapter);
    if a < b then Win else if a > b then Loss else Tie
  }

  lemma {:induction false} ChangedEntry(chosen: Dict, rejected: Dict, i: nat)
    requires i < |Changed(chosen, rejected)|
    ensures var e := Changed(chosen, rejected)[i];
            e in chosen && Has(rejected, e.0) && Get(rejected, e.0) != e.1
    decreases chosen
  {
    var (id, score) := chosen[0];
    var here := Has(rejected, id) && Get(rejected, id) != score;
    var rest := Changed(chosen[1..], rejected);
    assert chosen[0] == (id, score);
    if here && i == 0 {
      assert Changed(chosen, rejected)[0] == (id, score);
    } else {
      ChangedEntry(chosen[1..], rejected, if here then i - 1 else i);
    }
  }

  lemma {:induction false} ChangedIsComplete(chosen: Dict, rejected: Dict, e: (string, int))
    requires e in chosen && Has(rejected, e.0) && Get(rejected, e.0) != e.1
    ensures e in Changed(chosen, rejected)
    decreases chosen
  {
    if chosen[0] != e {
      assert e in chosen[1..];
      ChangedIsComplete(chosen[1..], rejected, e);
    }
  }

  /** The key holds exactly the criteria both replies score, differently, at the chosen score. */
  lemma AnswerKeyIsTheChange(chosen: Dict, rejected: Dict, id: string, gold: int)
    requires InRange(chosen) && InRange(rejected)
    ensures (id, gold) in Changed(chosen, rejected)
       <==> Has(chosen, id) && Has(rejected, id) && Get(chosen, id) == gold && Get(rejected, id) != gold
    ensures AnswerKey(Some(chosen), Some(rejected)).None?
       <==> forall c :: Has(chosen, c) && Has(rejected, c) ==> Get(chosen, c) == Get(rejected, c)
  {
    var key := Changed(chosen, rejected);
    if (id, gold) in key {
      var i :| 0 <= i < |key| && key[i] == (id, gold);
      ChangedEntry(chosen, rejected, i);
      var j :| 0 <= j < |chosen| && chosen[j] == (id, gold);
      GetAt(chosen, j);
    }
    if Has(chosen, id) && Has(rejected, id) && Get(chosen, id) == gold && Get(rejected, id) != gold {
      ChangedIsComplete(chosen, rejected, (id, gold));
    }
    if key != [] {
      ChangedEntry(chosen, rejected, 0);
      var j :| 0 <= j < |chosen| && chosen[j] == key[0];
      GetAt(chosen, j);
      assert Has(chosen, key[0].0) && Get(chosen, key[0].0) != Get(rejected, key[0].0);
    }
    forall c | key == [] && Has(chosen, c) && Has(rejected, c)
      ensures Get(chosen, c) == Get(rejected, c)
    {
      if Get(chosen, c) != Get(rejected, c) {
        ChangedIsComplete(chosen, rejected, (c, Get(chosen, c)));
      }
    }
  }

  /** Errors add up between nothing and the worst on every criterion. */
  lemma {:induction false} ErrorIsBounded(key: Dict, scores: Dict)
    requires forall i :: 0 <= i < |key| ==> MIN_SCORE <= key[i].1 <= MAX_SCORE
    requires InRange(scores)
    ensures ErrorSum(key, scores) <= WORST_ERROR * |key|
  {
    if key != [] {
      if Has(scores, key[0].0) {
        var j :| 0 <= j < |scores| && scores[j] == (key[0].0, Get(scores, key[0].0));
      }
      ErrorIsBounded(key[1..], scores);
    }
  }

  lemma {:induction false} ErrorOfAgreement(key: Dict, scores: Dict)
    ensures ErrorSum(key, scores) == 0 <==>
      forall i :: 0 <= i < |key| ==> Has(scores, key[i].0) && Get(scores, key[i].0) == key[i].1
  {
    if key != [] {
      ErrorOfAgreement(key[1..], scores);
      assert (forall i :: 0 <= i < |key| ==> Has(scores, key[i].0) && Get(scores, key[i].0) == key[i].1) <==>
        && Has(scores, key[0].0) && Get(scores, key[0].0) == key[0].1
        && forall i :: 0 <= i < |key[1..]| ==>
             Has(scores, key[1..][i].0) && Get(scores, key[1..][i].0) == key[1..][i].1 by {
        assert forall i :: 1 <= i < |key| ==> key[i] == key[1..][i - 1];
      }
    }
  }

  lemma {:induction false} ErrorOfDisagreement(key: Dict, scores: Dict)
    requires forall i :: 0 <= i < |key| ==> Has(scores, key[i].0) && Get(scores, key[i].0) != key[i].1
    ensures ErrorSum(key, scores) >= |key|
  {
    if key != [] {
      ErrorOfDisagreement(key[1..], scores);
    }
  }

  /** The corrected reply is right on the whole key, the original wrong on all of it: always a win. */
  lemma CorrectionAlwaysWins(chosen: Dict, rejected: Dict)
    requires InRange(chosen) && InRange(rejected)
    requires AnswerKey(Some(chosen), Some(rejected)).Some?
    ensures var key := Changed(chosen, rejected);
            && ErrorTotal(key, Some(chosen)) == 0
            && |key| <= ErrorTotal(key, Some(rejected)) <= WORST_ERROR * |key|
            && ScorePair(key, Some(rejected), Some(chosen)) == Win
  {
    var key := Changed(chosen, rejected);
    forall i | 0 <= i < |key|
      ensures Has(chosen, key[i].0) && Get(chosen, key[i].0) == key[i].1
      ensures Has(rejected, key[i].0) && Get(rejected, key[i].0) != key[i].1
      ensures MIN_SCORE <= key[i].1 <= MAX_SCORE
    {
      ChangedEntry(chosen, rejected, i);
      var j :| 0 <= j < |chosen| && chosen[j] == key[i];
      GetAt(chosen, j);
    }
    ErrorOfAgreement(key, chosen);
    ErrorOfDisagreement(key, rejected);
    ErrorIsBounded(key, rejected);
  }

  // ---- What one criterion is worth ----

  /** The two replies score every criterion of the key alike, but number `k`. */
  predicate AgreeBut(key: Dict, a: Dict, b: Dict, k: nat) {
    forall i :: 0 <= i < |key| && i != k ==>
      (Has(a, key[i].0) <==> Has(b, key[i].0)) && (Has(a, key[i].0) ==> Get(a, key[i].0) == Get(b, key[i].0))
  }

  /** How far a reply is from the corrected score of one criterion: the distance, or three if it is silent. */
  predicate Costs(scores: Dict, id: string, gold: int, cost: int) {
    if Has(scores, id) then cost >= 0 && (Get(scores, id) == gold + cost || Get(scores, id) == gold - cost)
    else cost == 3
  }

  /** The errors of two replies differ by what the one criterion costs each of them. */
  lemma {:induction false} ErrorsDifferByTheCost(key: Dict, a: Dict, b: Dict, k: nat, costA: int, costB: int)
    requires k < |key| && AgreeBut(key, a, b, k)
    requires Costs(a, key[k].0, key[k].1, costA) && Costs(b, key[k].0, key[k].1, costB)
    ensures ErrorTotal(key, Some(a)) - ErrorTotal(key, Some(b)) == costA - costB
  {
    hide Has, Get;
    if k == 0 {
      assert forall i :: 0 <= i < |key[1..]| ==> key[1..][i] == key[i + 1];
      SameErrors(key[1..], a, b);
    } else {
      assert key[0].0 == key[0].0 && key[1..][k - 1] == key[k];
      assert AgreeBut(key[1..], a, b, k - 1) by {
        assert forall i :: 0 <= i < |key[1..]| ==> key[1..][i] == key[i + 1];
      }
      ErrorsDifferByTheCost(key[1..], a, b, k - 1, costA, costB);
    }
  }

  lemma {:induction false} SameErrors(key: Dict, a: Dict, b: Dict)
    requires AgreeBut(key, a, b, |key|)
    ensures ErrorSum(key, a) == ErrorSum(key, b)
  {
    hide Has, Get;
    if key != [] {
      assert AgreeBut(key[1..], a, b, |key[1..]|) by {
        assert forall i :: 0 <= i < |key[1..]| ==> key[1..][i] == key[i + 1];
      }
      SameErrors(key[1..], a, b);
    }
  }

  /** Of two replies that differ on one criterion, the one nearer to the corrected score wins. */
  lemma NearerOnOneWins(key: Dict, base: Dict, adapter: Dict, k: nat, far: int, near: int)
    requires k < |key| && AgreeBut(key, base, adapter, k)
    requires Costs(base, key[k].0, key[k].1, far) && Costs(adapter, key[k].0, key[k].1, near)
    ensures ScorePair(key, Some(base), Some(adapter)) == if near < far then Win else if near > far then Loss else Tie
  {
    hide AgreeBut, Costs, ErrorTotal;
    ErrorsDifferByTheCost(key, base, adapter, k, far, near);
  }

  /** A score one point nearer lowers the error by one, whatever the rest of the reply. */
  lemma OnePointNearer(key: Dict, scores: Dict, k: nat, nearer: int)
    requires k < |key| && Distinct(key) && Has(scores, key[k].0)
    requires var v, gold := Get(scores, key[k].0), key[k].1;
             (v > gold && nearer == v - 1) || (v < gold && nearer == v + 1)
    ensures ErrorTotal(key, Some(Put(scores, key[k].0, nearer))) == ErrorTotal(key, Some(scores)) - 1
  {
    hide Has, Get, Put, ErrorTotal;
    var (id, gold) := key[k];
    var v, moved := Get(scores, id), Put(scores, id, nearer);
    forall i | 0 <= i < |key| && i != k ensures
      && (Has(moved, key[i].0) <==> Has(scores, key[i].0))
      && (Has(moved, key[i].0) ==> Get(moved, key[i].0) == Get(scores, key[i].0))
    {
      PutThenGet(scores, id, nearer, key[i].0);
    }
    PutThenGet(scores, id, nearer, id);
    var far := if v > gold then v - gold else gold - v;
    ErrorsDifferByTheCost(key, moved, scores, k, far - 1, far);
  }

  /** An invalid reply costs what a reply that is silent on the whole key costs: three each. */
  lemma {:induction false} SilenceCostsTheWorst(key: Dict, scores: Dict)
    requires forall i :: 0 <= i < |key| ==> !Has(scores, key[i].0)
    ensures ErrorTotal(key, None) == ErrorTotal(key, Some(scores)) == 3 * |key|
  {
    if key != [] {
      assert forall i :: 0 <= i < |key[1..]| ==> key[1..][i] == key[i + 1];
      SilenceCostsTheWorst(key[1..], scores);
    }
  }

  function Swapped(o: PairOutcome): PairOutcome {
    match o
    case Win => Loss
    case Loss => Win
    case Tie => Tie
  }

  // ---- The evaluation run ----

  /** A held-out pair with its two replies already validated. */
  datatype Pair = Pair(prompt: string, chosen: Option<Dict>, rejected: Option<Dict>)

  /** A pair that can be scored, with its place in the list. */
  datatype Keyed = Keyed(pair: nat, prompt: string, key: Dict)

  datatype Evaluation = Evaluation(
    total: nat, skipped: nat, outcomes: seq<PairOutcome>, baseValid: nat, adapterValid: nat, verdict: Verdict)

  /**
   The model under test: the validated reply it gives when a pair's prompt is sent, adapter
   off or on.  Equal prompts of different pairs may be answered differently.
   */
  type Server = (nat, string, bool) -> Option<Dict>

  function KeyedPairs(pairs: seq<Pair>): seq<Keyed> {
    if pairs == [] then []
    else
      var p := pairs[|pairs| - 1];
      var key := AnswerKey(p.chosen, p.rejected);
      KeyedPairs(pairs[..|pairs| - 1]) + (if key.None? then [] else [Keyed(|pairs| - 1, p.prompt, key.value)])
  }

  function Outcomes(keyed: seq<Keyed>, server: Server): (o: seq<PairOutcome>)
    ensures |o| == |keyed|
  {
    seq(|keyed|, i requires 0 <= i < |keyed| =>
      ScorePair(keyed[i].key, server(keyed[i].pair, keyed[i].prompt, false), server(keyed[i].pair, keyed[i].prompt, true)))
  }

  function Count(outcomes: seq<PairOutcome>, o: PairOutcome): nat {
    if outcomes == [] then 0
    else Count(outcomes[..|outcomes| - 1], o) + (if outcomes[|outcomes| - 1] == o then 1 else 0)
  }

  function CountValid(keyed: seq<Keyed>, server: Server, on: bool): nat {
    if keyed == [] then 0
    else
      CountValid(keyed[..|keyed| - 1], server, on)
        + (if server(keyed[|keyed| - 1].pair, keyed[|keyed| - 1].prompt, on).Some? then 1 else 0)
  }

  lemma {:induction false} EveryOutcomeIsCounted(outcomes: seq<PairOutcome>)
    ensures Count(outcomes, Win) + Count(outcomes, Loss) + Count(outcomes, Tie) == |outcomes|
  {
    if outcomes != [] {
      EveryOutcomeIsCounted(outcomes[..|outcomes| - 1]);
    }
  }

  lemma {:induction false} KeyedAreSome(pairs: seq<Pair>)
    ensures |KeyedPairs(pairs)| <= |pairs|
  {
    if pairs != [] {
      KeyedAreSome(pairs[..|pairs| - 1]);
    }
  }

  // ---- What is counted ----

  function PlacesOf(outcomes: seq<PairOutcome>, o: PairOutcome): set<int> {
    set i | 0 <= i < |outcomes| && outcomes[i] == o
  }

  lemma {:induction false} CountIs(outcomes: seq<PairOutcome>, o: PairOutcome)
    ensures Count(outcomes, o) == |PlacesOf(outcomes, o)|
  {
    if outcomes == [] {
      assert PlacesOf(outcomes, o) == {};
    } else {
      var n := |outcomes| - 1;
      CountIs(outcomes[..n], o);
      LastPlace(outcomes, o);
    }
  }

  lemma LastPlace(outcomes: seq<PairOutcome>, o: PairOutcome)
    requires outcomes != []
    ensures var n := |outcomes| - 1;
            && n !in PlacesOf(outcomes[..n], o)
            && PlacesOf(outcomes, o) == PlacesOf(outcomes[..n], o) + if outcomes[n] == o then {n} else {}
  {
  }

  /** The scoreable pairs that get a valid reply. */
  function ValidAt(keyed: seq<Keyed>, server: Server, on: bool): set<int> {
    set i | 0 <= i < |keyed| && server(keyed[i].pair, keyed[i].prompt, on).Some?
  }

  lemma {:induction false} CountValidIs(keyed: seq<Keyed>, server: Server, on: bool)
    ensures CountValid(keyed, server, on) == |ValidAt(keyed, server, on)|
  {
    if keyed == [] {
      assert ValidAt(keyed, server, on) == {};
    } else {
      var n := |keyed| - 1;
      CountValidIs(keyed[..n], server, on);
      LastValid(keyed, server, on);
      hide ValidAt;
    }
  }

  lemma LastValid(keyed: seq<Keyed>, server: Server, on: bool)
    requires keyed != []
    ensures var n := |keyed| - 1;
            && n !in ValidAt(keyed[..n], server, on)
            && ValidAt(keyed, server, on)
               == ValidAt(keyed[..n], server, on) + if server(keyed[n].pair, keyed[n].prompt, on).Some? then {n} else {}
  {
    var n := |keyed| - 1;
    assert forall i :: 0 <= i < n ==> keyed[..n][i] == keyed[i];
  }

  /** The scoreable pairs are all the pairs with a key, each once, in the order of the list. */
  lemma {:induction false} KeyedPairsAre(pairs: seq<Pair>)
    ensures var keyed := KeyedPairs(pairs);
            && (forall j :: 0 <= j < |keyed| ==>
                  && keyed[j].pair < |pairs| && keyed[j].prompt == pairs[keyed[j].pair].prompt
                  && AnswerKey(pairs[keyed[j].pair].chosen, pairs[keyed[j].pair].rejected) == Some(keyed[j].key))
            && (forall j, k :: 0 <= j < k < |keyed| ==> keyed[j].pair < keyed[k].pair)
            && (forall i :: 0 <= i < |pairs| && AnswerKey(pairs[i].chosen, pairs[i].rejected).Some? ==>
                  exists j :: 0 <= j < |keyed| && keyed[j].pair == i)
  {
    hide AnswerKey;
    if pairs != [] {
      var n := |pairs| - 1;
      KeyedPairsAre(pairs[..n]);
      var front, keyed := KeyedPairs(pairs[..n]), KeyedPairs(pairs);
      assert forall j :: 0 <= j < |front| ==> keyed[j] == front[j];
      forall i | 0 <= i < |pairs| && AnswerKey(pairs[i].chosen, pairs[i].rejected).Some?
        ensures exists j :: 0 <= j < |keyed| && keyed[j].pair == i
      {
        if i < n {
          assert pairs[..n][i] == pairs[i];
          var j :| 0 <= j < |front| && front[j].pair == i;
          assert keyed[j].pair == i;
        } else {
          assert keyed[|front|].pair == n;
        }
      }
    }
  }

  /** Every pair is accounted for, and outcomes, valid counts and verdict are those of the replies. */
  predicate Faithful(e: Evaluation, pairs: seq<Pair>, server: Server, minDecisive: int, alpha: real)
    requires KeyedPairs(pairs) != []
  {
    var keyed := KeyedPairs(pairs);
    && e.total == |pairs|
    && Count(e.outcomes, Win) + Count(e.outcomes, Loss) + Count(e.outcomes, Tie) + e.skipped == e.total
    && e.outcomes == Outcomes(keyed, server)
    && e.baseValid == CountValid(keyed, server, false)
    && e.adapterValid == CountValid(keyed, server, true)
    && e.verdict == RunVerdict(keyed, server, minDecisive, alpha)
  }

  /** All "off" replies first, then all "on" replies; `None` when no pair can be scored. */
  method RunEvaluation(pairs: seq<Pair>, server: Server, minDecisive: int, alpha: real)
    returns (e: Option<Evaluation>)
    ensures match e
            case None => KeyedPairs(pairs) == []
            case Some(v) => KeyedPairs(pairs) != [] && Faithful(v, pairs, server, minDecisive, alpha)
  {
    var keyed: seq<Keyed> := [];
    for i := 0 to |pairs|
      invariant keyed == KeyedPairs(pairs[..i])
    {
      assert pairs[..i + 1][..i] == pairs[..i];
      var key := AnswerKey(pairs[i].chosen, pairs[i].rejected);
      if key.Some? {
        keyed := keyed + [Keyed(i, pairs[i].prompt, key.value)];
      }
    }
    assert pairs[..|pairs|] == pairs;
    if keyed == [] {
      return None;
    }
    var baseReplies, baseValid := Ask(keyed, server, false);
    var adapterReplies, adapterValid := Ask(keyed, server, true);
    var outcomes, wins, losses := Judge(keyed, baseReplies, adapterReplies);
    assert outcomes == Outcomes(keyed, server);
    EveryOutcomeIsCounted(outcomes);
    KeyedAreSome(pairs);
    var n := |keyed| as real;
    var verdict := Decide(wins, losses, Rates(baseValid as real / n, adapterValid as real / n), minDecisive, alpha);
    return Some(Evaluation(|pairs|, |pairs| - |keyed|, outcomes, baseValid, adapterValid, verdict));
  }

  method Judge(keyed: seq<Keyed>, base: seq<Option<Dict>>, adapter: seq<Option<Dict>>)
    returns (outcomes: seq<PairOutcome>, wins: nat, losses: nat)
    requires |keyed| == |base| == |adapter|
    ensures |outcomes| == |keyed|
    ensures forall j :: 0 <= j < |keyed| ==> outcomes[j] == ScorePair(keyed[j].key, base[j], adapter[j])
    ensures wins == Count(outcomes, Win) && losses == Count(outcomes, Loss)
  {
    outcomes, wins, losses := [], 0, 0;
    for i := 0 to |keyed|
      invariant |outcomes| == i
      invariant forall j :: 0 <= j < i ==> outcomes[j] == ScorePair(keyed[j].key, base[j], adapter[j])
      invariant wins == Count(outcomes, Win) && losses == Count(outcomes, Loss)
    {
      var o := ScorePair(keyed[i].key, base[i], adapter[i]);
      assert (outcomes + [o])[..i] == outcomes;
      outcomes := outcomes + [o];
      wins, losses := wins + (if o.Win? then 1 else 0), losses + (if o.Loss? then 1 else 0);
    }
  }

  method Ask(keyed: seq<Keyed>, server: Server, on: bool) returns (replies: seq<Option<Dict>>, valid: nat)
    ensures |replies| == |keyed|
    ensures forall i :: 0 <= i < |keyed| ==> replies[i] == server(keyed[i].pair, keyed[i].prompt, on)
    ensures valid == CountValid(keyed, server, on)
  {
    replies, valid := [], 0;
    for i := 0 to |keyed|
      invariant |replies| == i
      invariant forall j :: 0 <= j < i ==> replies[j] == server(keyed[j].pair, keyed[j].prompt, on)
      invariant valid == CountValid(keyed[..i], server, on)
    {
      assert keyed[..i + 1][..i] == keyed[..i];
      var reply := server(keyed[i].pair, keyed[i].prompt, on);
      replies := replies + [reply];
      if reply.Some? {
        valid := valid + 1;
      }
    }
    assert keyed[..|keyed|] == keyed;
  }

  // ---- What a run can and cannot conclude ----

  /** The same two models with their places exchanged. */
  function Exchanged(server: Server): Server {
    (pair: nat, prompt, on) => server(pair, prompt, !on)
  }

  lemma {:induction false} SwappedCounts(a: seq<PairOutcome>, b: seq<PairOutcome>)
    requires |a| == |b| && forall i :: 0 <= i < |a| ==> b[i] == Swapped(a[i])
    ensures Count(b, Win) == Count(a, Loss) && Count(b, Loss) == Count(a, Win) && Count(b, Tie) == Count(a, Tie)
  {
    if a != [] {
      SwappedCounts(a[..|a| - 1], b[..|b| - 1]);
    }
  }

  /** Exchanging the two models exchanges wins and losses, pair by pair. */
  lemma ExchangeSwapsOutcomes(keyed: seq<Keyed>, server: Server)
    ensures var a, b := Outcomes(keyed, server), Outcomes(keyed, Exchanged(server));
            && (forall i :: 0 <= i < |keyed| ==> b[i] == Swapped(a[i]))
            && Count(b, Win) == Count(a, Loss) && Count(b, Loss) == Count(a, Win)
  {
    var a, b, other := Outcomes(keyed, server), Outcomes(keyed, Exchanged(server)), Exchanged(server);
    forall i | 0 <= i < |keyed| ensures b[i] == Swapped(a[i]) {
      var pair, prompt := keyed[i].pair, keyed[i].prompt;
      assert other(pair, prompt, false) == server(pair, prompt, true);
      assert other(pair, prompt, true) == server(pair, prompt, false);
    }
    SwappedCounts(a, b);
  }

  lemma {:induction false} ExchangeSwapsValid(keyed: seq<Keyed>, server: Server, on: bool)
    ensures CountValid(keyed, Exchanged(server), on) == CountValid(keyed, server, !on)
  {
    if keyed != [] {
      ExchangeSwapsValid(keyed[..|keyed| - 1], server, on);
      var last := keyed[|keyed| - 1];
      assert Exchanged(server)(last.pair, last.prompt, on) == server(last.pair, last.prompt, !on);
    }
  }

  function RunVerdict(keyed: seq<Keyed>, server: Server, minDecisive: int, alpha: real): Verdict
    requires keyed != []
  {
    var outcomes, n := Outcomes(keyed, server), |keyed| as real;
    Decide(Count(outcomes, Win), Count(outcomes, Loss),
           Rates(CountValid(keyed, server, false) as real / n, CountValid(keyed, server, true) as real / n),
           minDecisive, alpha)
  }

  /** The pairs with an outcome. */
  function PairsWith(keyed: seq<Keyed>, server: Server, o: PairOutcome): set<int> {
    PlacesOf(Outcomes(keyed, server), o)
  }

  /**
   The run's verdict, exactly, in terms of which pairs the adapter won and lost and which
   replies were valid.
   */
  lemma RunVerdictExactly(keyed: seq<Keyed>, server: Server, minDecisive: int, alpha: real)
    requires keyed != []
    ensures var v := RunVerdict(keyed, server, minDecisive, alpha);
            var wins, losses := |PairsWith(keyed, server, Win)|, |PairsWith(keyed, server, Loss)|;
            var heard := wins + losses >= minDecisive && Significant(wins, losses, alpha);
            && (v.kind.Better? <==>
                  heard && wins >= losses && |ValidAt(keyed, server, true)| >= |ValidAt(keyed, server, false)|)
            && (v.kind.Worse? <==> heard && losses > wins)
  {
    hide Significant, Decide, CountValid, Outcomes, Count, ValidAt;
    var outcomes, n := Outcomes(keyed, server), |keyed|;
    CountIs(outcomes, Win);
    CountIs(outcomes, Loss);
    CountValidIs(keyed, server, true);
    CountValidIs(keyed, server, false);
    var on, off := CountValid(keyed, server, true), CountValid(keyed, server, false);
    VerdictExactly(Count(outcomes, Win), Count(outcomes, Loss), Rates(off as real / n as real, on as real / n as real),
      minDecisive, alpha);
    SameOrder(on, off, n);
  }

  lemma SameOrder(a: int, b: int, n: int)
    requires n > 0
    ensures a as real / n as real >= b as real / n as real <==> a >= b
  {
    var x, y := a as real / n as real, b as real / n as real;
    assert x * n as real == a as real && y * n as real == b as real;
    assert (x - y) * n as real == a as real - b as real;
    assert x >= y ==> (x - y) * n as real >= 0.0;
    assert x < y ==> (y - x) * n as real > 0.0;
  }

  /** If the adapter is judged better than the base, the base is judged worse than the adapter. */
  lemma ExchangedModelsExchangeVerdicts(keyed: seq<Keyed>, server: Server, minDecisive: int, alpha: real)
    requires keyed != [] && alpha <= 1.0
    ensures RunVerdict(keyed, server, minDecisive, alpha).kind.Better? ==>
      RunVerdict(keyed, Exchanged(server), minDecisive, alpha).kind.Worse?
    ensures RunVerdict(keyed, server, minDecisive, alpha).p
         == RunVerdict(keyed, Exchanged(server), minDecisive, alpha).p
  {
    ExchangeSwapsOutcomes(keyed, server);
    ExchangeSwapsValid(keyed, server, false);
    ExchangeSwapsValid(keyed, server, true);
    var outcomes, n := Outcomes(keyed, server), |keyed| as real;
    hide Decide, Outcomes, CountValid;
    NotBothBetter(Count(outcomes, Win), Count(outcomes, Loss),
      Rates(CountValid(keyed, server, false) as real / n, CountValid(keyed, server, true) as real / n),
      minDecisive, alpha);
    SignTestIsAProbability(Count(outcomes, Win), Count(outcomes, Loss));
    DecideReportsP(Count(outcomes, Win), Count(outcomes, Loss),
      Rates(CountValid(keyed, server, false) as real / n, CountValid(keyed, server, true) as real / n),
      minDecisive, alpha);
    DecideReportsP(Count(outcomes, Loss), Count(outcomes, Win),
      Rates(CountValid(keyed, server, true) as real / n, CountValid(keyed, server, false) as real / n),
      minDecisive, alpha);
  }

  lemma DecideReportsP(wins: nat, losses: nat, rates: Rates, minDecisive: int, alpha: real)
    ensures Decide(wins, losses, rates, minDecisive, alpha).p == SignTestP(wins, losses)
  {
  }

  lemma {:induction false} AllWins(outcomes: seq<PairOutcome>)
    requires forall i :: 0 <= i < |outcomes| ==> outcomes[i] == Win
    ensures Count(outcomes, Win) == |outcomes| && Count(outcomes, Loss) == 0
  {
    if outcomes != [] {
      AllWins(outcomes[..|outcomes| - 1]);
    }
  }

  lemma {:induction false} AllValid(keyed: seq<Keyed>, server: Server, on: bool)
    requires forall i :: 0 <= i < |keyed| ==> server(keyed[i].pair, keyed[i].prompt, on).Some?
    ensures CountValid(keyed, server, on) == |keyed|
  {
    if keyed != [] {
      AllValid(keyed[..|keyed| - 1], server, on);
    }
  }

  /** Off, the server repeats every original reply; on, it gives every corrected one. */
  ghost predicate LearnedEverything(pairs: seq<Pair>, server: Server) {
    forall i :: 0 <= i < |pairs| ==>
      server(i, pairs[i].prompt, false) == pairs[i].rejected && server(i, pairs[i].prompt, true) == pairs[i].chosen
  }

  lemma {:induction false} KeyedComesFromAPair(pairs: seq<Pair>, j: nat) returns (i: nat)
    requires j < |KeyedPairs(pairs)|
    ensures i < |pairs|
    ensures KeyedPairs(pairs)[j].pair == i && KeyedPairs(pairs)[j].prompt == pairs[i].prompt
    ensures AnswerKey(pairs[i].chosen, pairs[i].rejected) == Some(KeyedPairs(pairs)[j].key)
  {
    var n := |pairs| - 1;
    if j < |KeyedPairs(pairs[..n])| {
      i := KeyedComesFromAPair(pairs[..n], j);
    } else {
      i := n;
    }
  }

  /**
   An adapter that reproduces every correction wins every scoreable pair, so it is judged
   better exactly when there are enough of them, and for 2 / 2^n to be significant.
   */
  lemma PerfectAdapterIsBetter(pairs: seq<Pair>, server: Server, minDecisive: int, alpha: real)
    requires LearnedEverything(pairs, server) && KeyedPairs(pairs) != []
    requires forall i :: 0 <= i < |pairs| ==>
      && (pairs[i].chosen.Some? ==> InRange(pairs[i].chosen.value))
      && (pairs[i].rejected.Some? ==> InRange(pairs[i].rejected.value))
    ensures var keyed := KeyedPairs(pairs);
            var outcomes := Outcomes(keyed, server);
            && Count(outcomes, Win) == |keyed| && Count(outcomes, Loss) == 0
            && CountValid(keyed, server, false) == CountValid(keyed, server, true) == |keyed|
            && (RunVerdict(keyed, server, minDecisive, alpha).kind.Better?
                <==> |keyed| >= minDecisive && 2.0 / Pow2(|keyed|) as real < alpha)
  {
    var keyed := KeyedPairs(pairs);
    forall j | 0 <= j < |keyed|
      ensures Outcomes(keyed, server)[j] == Win
      ensures server(keyed[j].pair, keyed[j].prompt, false).Some?
      ensures server(keyed[j].pair, keyed[j].prompt, true).Some?
    {
      var i := KeyedComesFromAPair(pairs, j);
      CorrectionAlwaysWins(pairs[i].chosen.value, pairs[i].rejected.value);
    }
    AllWins(Outcomes(keyed, server));
    AllValid(keyed, server, false);
    AllValid(keyed, server, true);
    ShutoutP(|keyed|);
  }
}
