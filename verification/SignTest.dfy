/**
 The exact two-sided sign test and the verdict built on it, in exact arithmetic.
 */
module SignTest {
  import opened Basics

  /** The binomial coefficient, by Pascal's rule. */
  function Comb(n: nat, k: int): nat {
    if k < 0 || k > n then 0
    else if n == 0 then 1
    else Comb(n - 1, k - 1) + Comb(n - 1, k)
  }

  /** Sum of Comb(n, i) for i = 0 .. m. */
  function Tail(n: nat, m: int): nat
    decreases m
  {
    if m < 0 then 0 else Tail(n, m - 1) + Comb(n, m)
  }

  function SignTestP(wins: nat, losses: nat): real {
    var decisive := wins + losses;
    if decisive == 0 then 1.0
    else
      var p := (2 * Tail(decisive, MinInt(wins, losses))) as real / Pow2(decisive) as real;
      if p < 1.0 then p else 1.0
  }

  // ---- Binomial facts ----

  lemma {:induction false} CombPositive(n: nat, k: nat)
    requires k <= n
    ensures Comb(n, k) > 0
  {
    if n > 0 && k > 0 {
      CombPositive(n - 1, k - 1);
    } else if n > 0 {
      CombPositive(n - 1, k);
    }
  }

  lemma {:induction false} CombSymmetric(n: nat, k: int)
    ensures Comb(n, k) == Comb(n, n - k)
  {
    if 0 <= k <= n && n > 0 {
      CombSymmetric(n - 1, k - 1);
      CombSymmetric(n - 1, k);
    }
  }

  lemma {:induction false} TailStep(n: nat, m: int)
    ensures Tail(n + 1, m) == Tail(n, m) + Tail(n, m - 1)
    decreases if m < 0 then 0 else m + 1
  {
    if m >= 0 {
      TailStep(n, m - 1);
      assert Comb(n + 1, m) == Comb(n, m - 1) + Comb(n, m);
    }
  }

  lemma {:induction false} TailGrows(n: nat, a: int, b: int)
    requires a <= b
    ensures Tail(n, a) <= Tail(n, b)
    decreases b - a
  {
    if a < b {
      TailGrows(n, a, b - 1);
    }
  }

  lemma {:induction false} RowSum(n: nat)
    ensures Tail(n, n) == Pow2(n)
  {
    if n > 0 {
      RowSum(n - 1);
      TailStep(n - 1, n);
      assert Comb(n - 1, n) == 0;
    } else {
      assert Tail(0, -1) == 0;
    }
  }

  /** The two tails of a row complement each other. */
  lemma {:induction false} TailsComplement(n: nat, m: int)
    requires -1 <= m <= n
    ensures Tail(n, m) + Tail(n, n - m - 1) == Pow2(n)
    decreases m + 1
  {
    if m == -1 {
      RowSum(n);
    } else {
      TailsComplement(n, m - 1);
      CombSymmetric(n, m);
      assert Tail(n, n - m) == Tail(n, n - m - 1) + Comb(n, n - m);
    }
  }

  // ---- Exactness ----

  lemma TailVersusHalf(n: nat, m: nat)
    requires 2 * m <= n
    ensures n - 2 * m <= 1 ==> 2 * Tail(n, m) >= Pow2(n)
    ensures n - 2 * m == 1 ==> 2 * Tail(n, m) == Pow2(n)
    ensures n - 2 * m >= 2 ==> 2 * Tail(n, m) < Pow2(n)
    ensures Tail(n, m) >= 1
  {
    TailsComplement(n, m);
    TailGrows(n, 0, m);
    CombPositive(n, 0);
    if n == 2 * m {
      TailGrows(n, m - 1, m);
    } else if n - 2 * m >= 2 {
      CombPositive(n, m + 1);
      TailGrows(n, m + 1, n - m - 1);
      assert Tail(n, m + 1) == Tail(n, m) + Comb(n, m + 1);
    }
  }

  lemma RatioBounds(t: nat, p: nat)
    requires p >= 1
    ensures t as real / p as real >= 0.0
    ensures t >= 1 ==> t as real / p as real > 0.0
    ensures t < p ==> t as real / p as real < 1.0
    ensures t >= p ==> t as real / p as real >= 1.0
    ensures t == p ==> t as real / p as real == 1.0
  {
    var q := t as real / p as real;
    assert q * p as real == t as real;
    assert q >= 1.0 ==> q * p as real >= p as real;
    assert q < 1.0 ==> q * p as real < p as real;
  }

  /** Symmetric, a probability, and certain exactly when the counts differ by at most one. */
  lemma SignTestIsAProbability(wins: nat, losses: nat)
    ensures SignTestP(wins, losses) == SignTestP(losses, wins)
    ensures 0.0 < SignTestP(wins, losses) <= 1.0
    ensures SignTestP(wins, losses) == 1.0 <==> -1 <= wins - losses <= 1
  {
    var n, m := wins + losses, MinInt(wins, losses);
    if n > 0 {
      TailVersusHalf(n, m);
      RatioBounds(2 * Tail(n, m), Pow2(n));
    }
  }

  // ---- What the number means: win/loss records of a fair coin ----

  /** Every sequence of `n` wins and losses. */
  ghost function Records(n: nat): set<seq<bool>> {
    if n == 0 then {[]} else Extended(Records(n - 1), true) + Extended(Records(n - 1), false)
  }

  ghost function Extended(records: set<seq<bool>>, won: bool): set<seq<bool>> {
    set r | r in records :: r + [won]
  }

  function Wins(r: seq<bool>): nat {
    if r == [] then 0 else Wins(r[..|r| - 1]) + (if r[|r| - 1] then 1 else 0)
  }

  ghost function WithWins(n: nat, k: int): set<seq<bool>> {
    set r | r in Records(n) && Wins(r) == k
  }

  /** The records whose wins and losses differ by at least `gap`. */
  ghost function AtLeastAsExtreme(n: nat, gap: nat): set<seq<bool>> {
    set r | r in Records(n) && (n - 2 * Wins(r) >= gap || 2 * Wins(r) - n >= gap)
  }

  lemma {:induction false} ExtendedSize(records: set<seq<bool>>, won: bool)
    ensures |Extended(records, won)| == |records|
    decreases records
  {
    if records == {} {
      assert Extended(records, won) == {};
    } else {
      var r :| r in records;
      ExtendedSize(records - {r}, won);
      assert Extended(records, won) == Extended(records - {r}, won) + {r + [won]};
      forall q | q in records - {r} ensures q + [won] != r + [won] {
        assert (q + [won])[..|q|] == q && (r + [won])[..|r|] == r;
      }
      assert r + [won] !in Extended(records - {r}, won);
    }
  }

  lemma WinsOfExtended(r: seq<bool>, won: bool)
    ensures Wins(r + [won]) == Wins(r) + (if won then 1 else 0)
  {
    assert (r + [won])[..|r|] == r;
  }

  lemma WithWinsSplits(n: nat, k: int)
    requires n > 0
    ensures WithWins(n, k) == Extended(WithWins(n - 1, k - 1), true) + Extended(WithWins(n - 1, k), false)
    ensures Extended(WithWins(n - 1, k - 1), true) !! Extended(WithWins(n - 1, k), false)
  {
    forall r | r in Records(n - 1)
      ensures Wins(r + [true]) == Wins(r) + 1 && Wins(r + [false]) == Wins(r)
    {
      WinsOfExtended(r, true);
      WinsOfExtended(r, false);
    }
  }

  lemma {:induction false} RecordsHaveWins(n: nat, r: seq<bool>)
    requires r in Records(n)
    ensures |r| == n && 0 <= Wins(r) <= n
  {
    if n > 0 {
      var q, won :| q in Records(n - 1) && r == q + [won];
      RecordsHaveWins(n - 1, q);
      WinsOfExtended(q, won);
    }
  }

  /** The binomial coefficient counts records. */
  lemma {:induction false} CombCountsRecords(n: nat, k: int)
    ensures |WithWins(n, k)| == Comb(n, k)
    decreases n
  {
    if n == 0 {
      assert Wins([]) == 0;
      assert WithWins(0, k) == if k == 0 then {[]} else {};
    } else {
      WithWinsSplits(n, k);
      ExtendedSize(WithWins(n - 1, k - 1), true);
      ExtendedSize(WithWins(n - 1, k), false);
      CombCountsRecords(n - 1, k - 1);
      CombCountsRecords(n - 1, k);
      OutsideTheRow(n, k);
    }
  }

  lemma OutsideTheRow(n: nat, k: int)
    requires n > 0
    ensures Comb(n, k) == Comb(n - 1, k - 1) + Comb(n - 1, k)
  {
  }

  ghost function AtMost(n: nat, m: int): set<seq<bool>> {
    set r | r in Records(n) && Wins(r) <= m
  }

  lemma {:induction false} TailCountsRecords(n: nat, m: int)
    requires m >= -1
    ensures |AtMost(n, m)| == Tail(n, m)
    decreases m + 1
  {
    if m == -1 {
      assert AtMost(n, m) == {};
    } else {
      TailCountsRecords(n, m - 1);
      CombCountsRecords(n, m);
      assert AtMost(n, m) == AtMost(n, m - 1) + WithWins(n, m);
      assert AtMost(n, m - 1) !! WithWins(n, m);
    }
  }

  lemma CountRecords(n: nat)
    ensures AtMost(n, n) == Records(n) && |Records(n)| == Pow2(n)
  {
    forall r | r in Records(n) ensures Wins(r) <= n {
      RecordsHaveWins(n, r);
    }
    TailCountsRecords(n, n);
    RowSum(n);
  }

  lemma CountExtremes(n: nat, m: nat)
    requires 2 * m < n
    ensures |AtLeastAsExtreme(n, n - 2 * m)| == 2 * Tail(n, m)
  {
    hide Tail, Comb, Records, Wins;
    var low, notHigh, all := AtMost(n, m), AtMost(n, n - m - 1), Records(n);
    CountRecords(n);
    TailCountsRecords(n, m);
    TailCountsRecords(n, n - m - 1);
    TailsComplement(n, m);
    assert notHigh <= all && low <= notHigh;
    assert AtLeastAsExtreme(n, n - 2 * m) == low + (all - notHigh);
    assert low !! all - notHigh;
    assert |all - notHigh| == |all| - |notHigh|;
  }

  /**
   The p-value is the share, among all win/loss records of that length, of those at
   least as lopsided as the one observed; the cap at 1 never distorts it.
   */
  lemma SignTestIsTheExactTest(wins: nat, losses: nat)
    ensures |Records(wins + losses)| == Pow2(wins + losses)
    ensures var n := wins + losses;
            var gap := if wins <= losses then losses - wins else wins - losses;
            SignTestP(wins, losses) == |AtLeastAsExtreme(n, gap)| as real / |Records(n)| as real
  {
    hide Tail, Comb, Records, Wins;
    var n, m := wins + losses, MinInt(wins, losses);
    CountRecords(n);
    if wins == losses {
      assert AtLeastAsExtreme(n, 0) == Records(n);
      SignTestIsAProbability(wins, losses);
      RatioBounds(Pow2(n), Pow2(n));
    } else {
      CountExtremes(n, m);
      TailVersusHalf(n, m);
      RatioBounds(2 * Tail(n, m), Pow2(n));
    }
  }

  // ---- Monotonicity ----

  lemma HalvedRatio(x: nat, y: nat, p: nat)
    requires p >= 1
    ensures x <= 2 * y ==> x as real / (2 * p) as real <= y as real / p as real
    ensures x >= 2 * y ==> x as real / (2 * p) as real >= y as real / p as real
  {
    var a, b := x as real / (2 * p) as real, y as real / p as real;
    var q := p as real;
    assert (2 * p) as real == 2.0 * q;
    assert a * (2.0 * q) == x as real;
    assert b * q == y as real;
    assert (a - b) * (2.0 * q) == x as real - 2.0 * y as real;
    assert a > b ==> (a - b) * (2.0 * q) > 0.0;
    assert a < b ==> (a - b) * (2.0 * q) < 0.0;
  }

  /** A further win for the side in front, or level, never raises the p-value. */
  lemma WinningLowersP(wins: nat, losses: nat)
    requires wins >= losses
    ensures SignTestP(wins + 1, losses) <= SignTestP(wins, losses)
  {
    var n := wins + losses;
    SignTestIsAProbability(wins + 1, losses);
    TailStep(n, losses);
    TailGrows(n, losses - 1, losses);
    HalvedRatio(2 * Tail(n + 1, losses), 2 * Tail(n, losses), Pow2(n));
  }

  /** A further loss for the side that stays in front never lowers it. */
  lemma LosingRaisesP(wins: nat, losses: nat)
    requires wins > losses
    ensures SignTestP(wins, losses + 1) >= SignTestP(wins, losses)
  {
    var n := wins + losses;
    SignTestIsAProbability(wins, losses);
    TailStep(n, losses + 1);
    TailGrows(n, losses, losses + 1);
    HalvedRatio(2 * Tail(n + 1, losses + 1), 2 * Tail(n, losses), Pow2(n));
  }

  /** Without a single loss the p-value is 2 / 2^n. */
  lemma ShutoutP(n: nat)
    requires n >= 1
    ensures SignTestP(n, 0) == 2.0 / Pow2(n) as real
  {
    CombOfNone(n);
    assert Tail(n, -1) == 0 && Tail(n, 0) == 1;
    assert Pow2(n) == 2 * Pow2(n - 1);
  }

  lemma {:induction false} CombOfNone(n: nat)
    ensures Comb(n, 0) == 1
  {
    if n > 0 {
      CombOfNone(n - 1);
      assert Comb(n - 1, -1) == 0;
    }
  }

  // ---- The verdict ----

  datatype Kind = Better | Worse | Inconclusive

  datatype Reason = TooFewDecisive | NotSignificant | Lost | WonButInvalid | Won

  datatype Verdict = Verdict(kind: Kind, reason: Reason, p: real)

  datatype Rates = Rates(base: real, adapter: real)

  function Decide(wins: nat, losses: nat, rates: Rates, minDecisive: int, alpha: real): Verdict {
    var decisive, p := wins + losses, SignTestP(wins, losses);
    if decisive < minDecisive then Verdict(Inconclusive, TooFewDecisive, p)
    else if p >= alpha then Verdict(Inconclusive, NotSignificant, p)
    else if losses > wins then Verdict(Worse, Lost, p)
    else if rates.adapter < rates.base then Verdict(Inconclusive, WonButInvalid, p)
    else Verdict(Better, Won, p)
  }

  lemma RatioBelow(x: int, y: int, alpha: real)
    requires y > 0
    ensures x as real / y as real < alpha <==> x as real < alpha * y as real
  {
    var q := x as real / y as real;
    assert q * y as real == x as real;
    assert (q - alpha) * y as real == x as real - alpha * y as real;
    assert q < alpha ==> (alpha - q) * y as real > 0.0;
    assert q >= alpha ==> (q - alpha) * y as real >= 0.0;
  }

  /** Fewer than a share `alpha` of all records of that length are at least as lopsided. */
  ghost predicate Significant(wins: nat, losses: nat, alpha: real) {
    var n, gap := wins + losses, if wins <= losses then losses - wins else wins - losses;
    |AtLeastAsExtreme(n, gap)| as real < alpha * |Records(n)| as real
  }

  /**
   The verdict, exactly: "better" and "worse" take enough decisive pairs and a significant
   outcome, "worse" a majority of losses, and "better" no lower rate of valid replies.
   */
  lemma VerdictExactly(wins: nat, losses: nat, rates: Rates, minDecisive: int, alpha: real)
    ensures var v := Decide(wins, losses, rates, minDecisive, alpha);
            var heard := wins + losses >= minDecisive && Significant(wins, losses, alpha);
            && (v.kind.Better? <==> heard && wins >= losses && rates.adapter >= rates.base)
            && (v.kind.Worse? <==> heard && losses > wins)
            && (v.reason.TooFewDecisive? <==> wins + losses < minDecisive)
            && (v.reason.NotSignificant? <==> wins + losses >= minDecisive && !Significant(wins, losses, alpha))
            && (v.reason.WonButInvalid? <==> heard && wins >= losses && rates.adapter < rates.base)
            && (v.kind.Better? <==> v.reason.Won?) && (v.kind.Worse? <==> v.reason.Lost?)
            && v.p == SignTestP(wins, losses)
  {
    hide SignTestP, Records, AtLeastAsExtreme;
    var n, gap := wins + losses, if wins <= losses then losses - wins else wins - losses;
    SignTestIsTheExactTest(wins, losses);
    SomeRecord(n);
    RatioBelow(|AtLeastAsExtreme(n, gap)|, |Records(n)|, alpha);
  }

  lemma SomeRecord(n: nat)
    ensures |Records(n)| > 0
  {
    hide Records;
    CountRecords(n);
  }

  /**
   For any level up to 1, "better" and "worse" mean what they say: a significant
   majority on that side.  Above 1, two blank score sheets are already "better".
   */
  lemma VerdictSidesWithTheMajority(alpha: real)
    ensures (forall wins: nat, losses: nat, rates, minDecisive ::
               Decide(wins, losses, rates, minDecisive, alpha).kind.Better? ==> wins > losses)
       <==> alpha <= 1.0
  {
    if alpha <= 1.0 {
      forall wins: nat, losses: nat, rates, minDecisive
        | Decide(wins, losses, rates, minDecisive, alpha).kind.Better?
        ensures wins > losses
      {
        SignTestIsAProbability(wins, losses);
      }
    } else {
      assert Decide(0, 0, Rates(1.0, 1.0), 0, alpha).kind.Better?;
    }
  }

  /** Trading places turns "worse" into a win and never leaves both sides better. */
  lemma NotBothBetter(wins: nat, losses: nat, rates: Rates, minDecisive: int, alpha: real)
    requires alpha <= 1.0
    ensures Decide(wins, losses, rates, minDecisive, alpha).kind.Worse?
       <==> Decide(losses, wins, Rates(rates.adapter, rates.base), minDecisive, alpha).kind.Better?
            || Decide(losses, wins, Rates(rates.adapter, rates.base), minDecisive, alpha).reason.WonButInvalid?
    ensures Decide(wins, losses, rates, minDecisive, alpha).kind.Better? ==>
            Decide(losses, wins, Rates(rates.adapter, rates.base), minDecisive, alpha).kind.Worse?
  {
    SignTestIsAProbability(wins, losses);
  }

  /** One more win, valid rates unchanged, keeps "better". */
  lemma AnotherWinKeepsBetter(wins: nat, losses: nat, rates: Rates, minDecisive: int, alpha: real)
    requires alpha <= 1.0
    requires Decide(wins, losses, rates, minDecisive, alpha).kind.Better?
    ensures Decide(wins + 1, losses, rates, minDecisive, alpha).kind.Better?
  {
    SignTestIsAProbability(wins, losses);
    WinningLowersP(wins, losses);
  }

  /**
   One more loss turns a verdict into "better" exactly when that loss is the decisive
   pair that reaches the minimum; past the minimum it never does.
   */
  lemma WhenALossMakesBetter(wins: nat, losses: nat, rates: Rates, minDecisive: int, alpha: real)
    requires alpha <= 1.0
    ensures (!Decide(wins, losses, rates, minDecisive, alpha).kind.Better?
             && Decide(wins, losses + 1, rates, minDecisive, alpha).kind.Better?)
       <==> (wins + losses + 1 == minDecisive && SignTestP(wins, losses + 1) < alpha
             && rates.adapter >= rates.base && wins > losses + 1)
  {
    SignTestIsAProbability(wins, losses + 1);
    if wins > losses {
      LosingRaisesP(wins, losses);
    }
  }

  lemma {:induction false} FirstTails(n: nat)
    ensures Tail(n, 0) == 1 && Tail(n, 1) == n + 1
  {
    assert Tail(n, -1) == 0;
    if n == 0 {
      assert Comb(0, 0) == 1 && Comb(0, 1) == 0;
    } else {
      FirstTails(n - 1);
      TailStep(n - 1, 1);
      TailStep(n - 1, 0);
    }
  }

  /** It does happen: eight wins are too few for a minimum of nine, and a loss makes nine. */
  lemma ALossCanMakeBetter()
    ensures var rates := Rates(1.0, 1.0);
            && Decide(8, 0, rates, 9, 0.05).kind.Inconclusive?
            && Decide(8, 1, rates, 9, 0.05).kind.Better?
  {
    FirstTails(9);
    assert Pow2(9) == 512 by {
      assert Pow2(4) == 16;
      assert Pow2(8) == 2 * (2 * (2 * (2 * Pow2(4))));
    }
    assert SignTestP(8, 1) == 20.0 / 512.0;
  }
}
