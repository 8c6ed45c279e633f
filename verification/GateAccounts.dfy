/**
 Whose steps a run is made of.  An account of a run says what one caller did in it, and
 that everything else was done by the others.
 */
module GateAccounts {
  import opened GateModel
  import opened GateRuns
  import opened GateTheorems

  type Duration = d: real | d >= 0.0

  /** Something another caller does, some time after the previous thing. */
  datatype Doing = Doing(after: Duration, step: Step)

  /** One sleep of a waiter: what others do during it, and how long it lasts after that. */
  datatype Nap = Nap(others: seq<Doing>, rest: Duration)

  /** One step of a run, and whether the caller that the run is about took it. */
  datatype Move = Move(timed: TimedStep, mine: bool)

  /** A waiter that was queued, and when. */
  datatype Arrival = Arrival(waiter: Waiter, at: real)

  function Steps(moves: seq<Move>): (run: seq<TimedStep>)
    ensures |run| == |moves|
  {
    seq(|moves|, i requires 0 <= i < |moves| => moves[i].timed)
  }

  function StepsOf(others: seq<Doing>): set<Step> {
    set doing | doing in others :: doing.step
  }

  function StepsDuring(naps: seq<Nap>): set<Step> {
    set nap, doing | nap in naps && doing in nap.others :: doing.step
  }

  /** How long `others` take. */
  function Elapsed(others: seq<Doing>): (d: Duration) {
    if others == [] then 0.0 else Elapsed(others[..|others| - 1]) + others[|others| - 1].after
  }

  /** How long the naps last, with what the others do in them. */
  function Slept(naps: seq<Nap>): (d: Duration) {
    if naps == [] then 0.0
    else
      var nap := naps[|naps| - 1];
      Slept(naps[..|naps| - 1]) + Elapsed(nap.others) + nap.rest
  }

  lemma OneMoreNap(naps: seq<Nap>, i: nat)
    requires i < |naps|
    ensures Slept(naps[..i + 1]) == Slept(naps[..i]) + Elapsed(naps[i].others) + naps[i].rest
  {
    hide Elapsed;
    assert naps[..i + 1][..i] == naps[..i];
  }

  lemma AllNaps(naps: seq<Nap>)
    ensures Slept(naps[..0]) == 0.0 && naps[..|naps|] == naps
  {
  }

  function ArrivalBy(w: World, move: Move): seq<Arrival> {
    if move.mine && move.timed.step.Arrive? && !OverQuota(move.timed.step.request) then
      [Arrival(Waiter(w.arrivals, move.timed.step.request), move.timed.at)]
    else []
  }

  function ReturnBy(move: Move): seq<TimedStep> {
    if move.mine && (move.timed.step.Release? || move.timed.step.BlockFor? || move.timed.step.ReleaseAndBlock?) then
      [move.timed]
    else []
  }

  lemma HeadIsLegal(w: World, moves: seq<Move>)
    requires Inv(w) && |moves| > 0 && Legal(w, Steps(moves))
    ensures Enabled(w, moves[0].timed) && Legal(Then(w, moves[0].timed), Steps(moves[1..]))
  {
    hide Inv, Enabled, Then;
    assert Steps(moves)[0] == moves[0].timed && Steps(moves)[1..] == Steps(moves[1..]);
  }

  /** The waiters the caller queued, in order. */
  ghost function OwnArrivals(w: World, moves: seq<Move>): seq<Arrival>
    requires Inv(w) && Legal(w, Steps(moves))
    decreases |moves|
  {
    hide *;
    if moves == [] then []
    else
      HeadIsLegal(w, moves);
      ArrivalBy(w, moves[0]) + OwnArrivals(Then(w, moves[0].timed), moves[1..])
  }

  /** Everything the caller did but queue and wait: its releases and its cooldowns. */
  function OwnReturns(moves: seq<Move>): seq<TimedStep> {
    if moves == [] then [] else ReturnBy(moves[0]) + OwnReturns(moves[1..])
  }

  /** The caller only ever moves its own waiters; the others do only what they are down for. */
  ghost predicate Accounted(move: Move, arrivals: seq<Arrival>, prompts: set<Step>) {
    var step := move.timed.step;
    if move.mine then
      step.Wake? || step.Interrupt? ==>
        exists i :: 0 <= i < |arrivals| && arrivals[i].waiter == step.waiter
    else step in prompts
  }

  /**
   `moves` lead from `start` to `w`.  In them the caller queued `arrivals` and nobody
   else, and gave back or blocked by `returned` and nothing else; whatever it did not do
   itself is one of `prompts`.
   */
  ghost predicate Accounts(
    start: World, w: World, moves: seq<Move>, arrivals: seq<Arrival>, returned: seq<TimedStep>, prompts: set<Step>) {
    && Inv(start) && Legal(start, Steps(moves)) && w == After(start, Steps(moves))
    && OwnArrivals(start, moves) == arrivals
    && OwnReturns(moves) == returned
    && forall i :: 0 <= i < |moves| ==> Accounted(moves[i], arrivals, prompts)
  }

  lemma StepsCompose(first: seq<Move>, rest: seq<Move>)
    ensures Steps(first + rest) == Steps(first) + Steps(rest)
  {
  }

  lemma {:induction false} OwnReturnsCompose(first: seq<Move>, rest: seq<Move>)
    ensures OwnReturns(first + rest) == OwnReturns(first) + OwnReturns(rest)
  {
    hide ReturnBy;
    if first == [] {
      assert first + rest == rest;
    } else {
      assert (first + rest)[1..] == first[1..] + rest;
      OwnReturnsCompose(first[1..], rest);
    }
  }

  lemma NoMoves(w: World)
    requires Inv(w)
    ensures Steps([]) == [] && Legal(w, Steps([])) && After(w, Steps([])) == w && OwnArrivals(w, []) == []
  {
    hide Inv;
  }

  lemma {:induction false} HeadOfMoves(w: World, moves: seq<Move>)
    requires Inv(w) && |moves| > 0 && Legal(w, Steps(moves))
    ensures Steps(moves)[0] == moves[0].timed && Enabled(w, moves[0].timed)
    ensures Legal(Then(w, moves[0].timed), Steps(moves[1..]))
    ensures After(w, Steps(moves)) == After(Then(w, moves[0].timed), Steps(moves[1..]))
    ensures OwnArrivals(w, moves)
         == ArrivalBy(w, moves[0]) + OwnArrivals(Then(w, moves[0].timed), moves[1..])
  {
    hide Inv, Enabled, Then, ArrivalBy;
    assert Steps(moves)[0] == moves[0].timed && Steps(moves)[1..] == Steps(moves[1..]);
  }

  lemma {:induction false} OwnArrivalsCompose(w: World, first: seq<Move>, rest: seq<Move>)
    requires Inv(w) && Legal(w, Steps(first)) && Legal(After(w, Steps(first)), Steps(rest))
    requires Legal(w, Steps(first + rest))
    ensures OwnArrivals(w, first + rest) == OwnArrivals(w, first) + OwnArrivals(After(w, Steps(first)), rest)
    decreases |first|
  {
    hide Inv, Enabled, Then, ArrivalBy, Legal, After, OwnArrivals, Steps;
    if first == [] {
      NoMoves(w);
      assert first + rest == rest;
    } else {
      var all := first + rest;
      assert all[0] == first[0] && all[1..] == first[1..] + rest;
      HeadOfMoves(w, first);
      HeadOfMoves(w, all);
      OwnArrivalsCompose(Then(w, first[0].timed), first[1..], rest);
    }
  }

  /** One account after another. */
  lemma AccountsCompose(
    start: World, w: World, moves: seq<Move>, arrivals: seq<Arrival>, returned: seq<TimedStep>, prompts: set<Step>,
    v: World, more: seq<Move>, newArrivals: seq<Arrival>, newReturned: seq<TimedStep>, newPrompts: set<Step>)
    requires Accounts(start, w, moves, arrivals, returned, prompts)
    requires Accounts(w, v, more, newArrivals, newReturned, newPrompts)
    ensures Accounts(start, v, moves + more, arrivals + newArrivals, returned + newReturned, prompts + newPrompts)
  {
    hide Inv, Legal, After, OwnArrivals, OwnReturns, Accounted, Steps;
    var all := arrivals + newArrivals;
    StepsCompose(moves, more);
    RunsCompose(start, Steps(moves), Steps(more));
    OwnReturnsCompose(moves, more);
    OwnArrivalsCompose(start, moves, more);
    forall i | 0 <= i < |moves + more| ensures Accounted((moves + more)[i], all, prompts + newPrompts) {
      if i < |moves| {
        MoreIsAccounted(moves[i], [], arrivals, newArrivals, prompts, prompts + newPrompts);
      } else {
        MoreIsAccounted(more[i - |moves|], arrivals, newArrivals, [], newPrompts, prompts + newPrompts);
      }
    }
  }

  lemma MoreIsAccounted(
    move: Move, before: seq<Arrival>, arrivals: seq<Arrival>, after: seq<Arrival>, prompts: set<Step>, more: set<Step>)
    requires Accounted(move, arrivals, prompts) && prompts <= more
    ensures Accounted(move, before + arrivals + after, more)
    ensures before == [] ==> Accounted(move, arrivals + after, more)
    ensures after == [] ==> Accounted(move, before + arrivals, more)
  {
    var step, all := move.timed.step, before + arrivals + after;
    assert before == [] ==> all == arrivals + after;
    assert after == [] ==> all == before + arrivals;
    if move.mine && (step.Wake? || step.Interrupt?) {
      var i :| 0 <= i < |arrivals| && arrivals[i].waiter == step.waiter;
      assert all[|before| + i] == arrivals[i];
    }
  }

  lemma MorePrompts(
    start: World, w: World, moves: seq<Move>, arrivals: seq<Arrival>, returned: seq<TimedStep>,
    prompts: set<Step>, more: set<Step>)
    requires Accounts(start, w, moves, arrivals, returned, prompts) && prompts <= more
    ensures Accounts(start, w, moves, arrivals, returned, more)
  {
    hide Inv, Legal, After, OwnArrivals, OwnReturns, Steps;
  }

  lemma NothingToAccount(w: World, prompts: set<Step>)
    requires Inv(w)
    ensures Accounts(w, w, [], [], [], prompts)
  {
  }

  lemma OneMoreMove(
    start: World, w: World, moves: seq<Move>, arrivals: seq<Arrival>, returned: seq<TimedStep>, prompts: set<Step>,
    move: Move)
    requires Accounts(start, w, moves, arrivals, returned, prompts) && Inv(w) && Enabled(w, move.timed)
    requires Accounted(move, arrivals + ArrivalBy(w, move), prompts)
    ensures Accounts(start, Then(w, move.timed), moves + [move],
                     arrivals + ArrivalBy(w, move), returned + ReturnBy(move), prompts)
  {
    hide Inv, Legal, After, OwnArrivals, OwnReturns, Accounted, Steps, Enabled, Then, ArrivalBy, ReturnBy;
    var all := arrivals + ArrivalBy(w, move);
    StepsCompose(moves, [move]);
    StepsOfOne(w, move);
    RunsCompose(start, Steps(moves), [move.timed]);
    OwnReturnsCompose(moves, [move]);
    OwnArrivalsCompose(start, moves, [move]);
    forall i | 0 <= i < |moves + [move]| ensures Accounted((moves + [move])[i], all, prompts) {
      if i < |moves| {
        MoreIsAccounted(moves[i], [], arrivals, ArrivalBy(w, move), prompts, prompts);
      }
    }
  }

  lemma OneStep(w: World, t: TimedStep)
    requires Inv(w) && Enabled(w, t)
    ensures Legal(w, [t]) && After(w, [t]) == Then(w, t)
  {
    hide Inv, Enabled, Then;
    assert [t][1..] == [];
    assert Legal(Then(w, t), []);
  }

  lemma StepsOfOne(w: World, move: Move)
    requires Inv(w) && Enabled(w, move.timed)
    ensures Steps([move]) == [move.timed]
    ensures Legal(w, [move.timed]) && After(w, [move.timed]) == Then(w, move.timed)
    ensures OwnArrivals(w, [move]) == ArrivalBy(w, move)
    ensures OwnReturns([move]) == ReturnBy(move)
  {
    hide Inv, Enabled, Then, ArrivalBy, ReturnBy;
    OneStep(w, move.timed);
    assert Steps([move]) == [move.timed];
    assert [move][1..] == [];
    assert OwnArrivals(Then(w, move.timed), []) == [];
  }

  /** A turn or an interruption of a waiter that the caller queued. */
  lemma OwnTurnAccounted(
    start: World, w: World, moves: seq<Move>, arrivals: seq<Arrival>, returned: seq<TimedStep>, prompts: set<Step>,
    t: TimedStep)
    requires Accounts(start, w, moves, arrivals, returned, prompts) && Inv(w) && Enabled(w, t)
    requires (t.step.Wake? || t.step.Interrupt?) && exists i :: 0 <= i < |arrivals| && arrivals[i].waiter == t.step.waiter
    ensures Accounts(start, Then(w, t), moves + [Move(t, true)], arrivals, returned, prompts)
  {
    hide Inv, Accounts, Enabled, Then;
    var move := Move(t, true);
    assert arrivals + ArrivalBy(w, move) == arrivals && returned + ReturnBy(move) == returned;
    OneMoreMove(start, w, moves, arrivals, returned, prompts, move);
  }

  /** The caller gives a ticket back or blocks. */
  lemma OwnReturnAccounted(
    start: World, w: World, moves: seq<Move>, arrivals: seq<Arrival>, returned: seq<TimedStep>, prompts: set<Step>,
    t: TimedStep)
    requires Accounts(start, w, moves, arrivals, returned, prompts) && Inv(w) && Enabled(w, t)
    requires t.step.Release? || t.step.ReleaseAndBlock?
    ensures Accounts(start, Then(w, t), moves + [Move(t, true)], arrivals, returned + [t], prompts)
  {
    hide Inv, Accounts, Enabled, Then;
    var move := Move(t, true);
    assert arrivals + ArrivalBy(w, move) == arrivals;
    OneMoreMove(start, w, moves, arrivals, returned, prompts, move);
  }

  lemma OthersMoveAccounted(
    start: World, w: World, moves: seq<Move>, arrivals: seq<Arrival>, returned: seq<TimedStep>, prompts: set<Step>,
    t: TimedStep)
    requires Accounts(start, w, moves, arrivals, returned, prompts) && Inv(w) && Enabled(w, t) && t.step in prompts
    ensures Accounts(start, Then(w, t), moves + [Move(t, false)], arrivals, returned, prompts)
  {
    hide Inv, Accounts, Enabled, Then;
    var move := Move(t, false);
    assert arrivals + ArrivalBy(w, move) == arrivals && returned + ReturnBy(move) == returned;
    OneMoreMove(start, w, moves, arrivals, returned, prompts, move);
  }

  lemma ArrivalAccounted(w: World, t: TimedStep, prompts: set<Step>)
    requires Inv(w) && Enabled(w, t) && t.step.Arrive?
    ensures Accounts(w, Then(w, t), [Move(t, true)], OneArrival(w, t.step.request, t.at), [], prompts)
  {
    hide Inv, Accounts, Enabled, Then;
    var move := Move(t, true);
    NothingToAccount(w, prompts);
    assert [] + [move] == [move] && [] + ReturnBy(move) == [];
    assert [] + ArrivalBy(w, move) == OneArrival(w, t.step.request, t.at);
    OneMoreMove(w, w, [], [], [], prompts, move);
  }

  /** A while of others' steps adds nothing to what the caller did. */
  lemma OthersAccounted(
    start: World, w: World, moves: seq<Move>, arrivals: seq<Arrival>, returned: seq<TimedStep>, prompts: set<Step>,
    v: World, more: seq<Move>, theirs: set<Step>)
    requires Accounts(start, w, moves, arrivals, returned, prompts)
    requires Accounts(w, v, more, [], [], theirs) && theirs <= prompts
    ensures Accounts(start, v, moves + more, arrivals, returned, prompts)
    ensures |w.history| <= |v.history| && w.gaveUp <= v.gaveUp
  {
    hide Accounts;
    AccountsGrow(w, v, more, [], [], theirs);
    AccountsCompose(start, w, moves, arrivals, returned, prompts, v, more, [], [], theirs);
    assert arrivals + [] == arrivals && returned + [] == returned && prompts + theirs == prompts;
  }

  lemma AccountsGrow(
    start: World, w: World, moves: seq<Move>, arrivals: seq<Arrival>, returned: seq<TimedStep>, prompts: set<Step>)
    requires Accounts(start, w, moves, arrivals, returned, prompts)
    ensures Inv(w) && start.history <= w.history && start.gaveUp <= w.gaveUp && start.clock <= w.clock
    ensures start.gate.blockedUntil <= w.gate.blockedUntil
  {
    hide Inv, Legal, OwnArrivals, OwnReturns, Accounted, Steps;
  }

  lemma NapIsPrompted(naps: seq<Nap>, i: nat)
    requires i < |naps|
    ensures StepsOf(naps[i].others) <= StepsDuring(naps)
  {
  }

  /** What one `acquire` queues: a waiter, unless the request is refused outright. */
  function OneArrival(w: World, request: Request, at: real): seq<Arrival> {
    if OverQuota(request) then [] else [Arrival(Waiter(w.arrivals, request), at)]
  }
}
