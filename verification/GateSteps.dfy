/** Every step of the gate keeps the invariant. */
module GateSteps {
  import opened Basics
  import opened GateModel
  import opened GateRuns

  // ---- The ledger after a purge is the window ----

  lemma {:induction false} PurgeLeavesTheWindow(
    s: GateState, h: seq<Admission>, recorded: seq<int>, now: real)
    requires s.Ledger() && LedgerIsTail(s.nextId, s.order, s.events, h, recorded)
    requires Sorted(h)
    requires forall i :: 0 <= i < |h| - |s.order| ==> now - h[i].at >= WINDOW
    ensures var p := Purged(s, now);
            LedgerIsTail(s.nextId, p.order, p.events, h, recorded)
    ensures var p := Purged(s, now);
            forall i :: 0 <= i < |h| ==> (now - h[i].at < WINDOW <==> |h| - |p.order| <= i)
    decreases |s.order|
  {
    var first := |h| - |s.order|;
    if |s.order| > 0 {
      assert s.order[0] == first + 1;
      assert s.events[first + 1] == Event(h[first].at, recorded[first]);
      if now - h[first].at >= WINDOW {
        var t := s.(order := s.order[1..], events := s.events - {s.order[0]});
        assert LedgerIsTail(t.nextId, t.order, t.events, h, recorded);
        PurgeLeavesTheWindow(t, h, recorded, now);
      } else {
        forall i | first <= i < |h| ensures now - h[i].at < WINDOW {
          assert h[first].at <= h[i].at;
        }
      }
    }
  }

  lemma {:induction false} CountYoungIs(h: seq<Admission>, now: real, k: nat)
    requires k <= |h|
    requires forall i :: 0 <= i < |h| ==> (now - h[i].at < WINDOW <==> k <= i)
    ensures CountYoung(h, now) == |h| - k
  {
    if h != [] {
      if k == |h| {
        CountYoungIs(h[..|h| - 1], now, k - 1);
      } else {
        CountYoungIs(h[..|h| - 1], now, k);
      }
    }
  }

  lemma {:induction false} SizeOfRange(keys: set<nat>, lo: nat, hi: nat)
    requires lo <= hi
    requires forall id :: id in keys <==> lo < id <= hi
    ensures |keys| == hi - lo
    decreases hi
  {
    if lo == hi {
      assert keys == {};
    } else {
      SizeOfRange(keys - {hi}, lo, hi - 1);
    }
  }

  lemma {:induction false} UsedIsSum(
    events: map<nat, Event>, order: seq<nat>, h: seq<Admission>, tokens: seq<int>, now: real)
    requires |order| <= |h| == |tokens|
    requires forall k :: 0 <= k < |order| ==> order[k] == |h| - |order| + k + 1
    requires forall k :: 0 <= k < |order| ==>
      order[k] in events && events[order[k]].tokens == tokens[order[k] - 1]
    requires forall i :: 0 <= i < |h| ==> (now - h[i].at < WINDOW <==> |h| - |order| <= i)
    ensures Used(events, order) == SumYoung(h, tokens, now)
    decreases |h|
  {
    if h != [] {
      var n := |h| - 1;
      if order == [] {
        UsedIsSum(events, order, h[..n], tokens[..n], now);
      } else {
        var m := |order| - 1;
        assert order[m] == |h|;
        UsedIsSum(events, order[..m], h[..n], tokens[..n], now);
      }
    }
  }

  /** The three quantities the gate tests, in the observer's terms. */
  lemma PurgedGateCountsTheWindow(w: World, now: real)
    requires Inv(w) && w.clock <= now
    ensures var p := Purged(w.gate, now);
            && LedgerIsTail(p.nextId, p.order, p.events, w.history, w.recorded)
            && |p.events| == |p.order| == CountYoung(w.history, now)
            && |w.recorded| == |w.history|
            && Used(p.events, p.order) == SumYoung(w.history, w.recorded, now)
            && TimesOk(w.history, |w.history| - |p.order|, now)
            && forall i :: 0 <= i < |w.history| ==>
                 (now - w.history[i].at < WINDOW <==> |w.history| - |p.order| <= i)
  {
    hide QueueOk, SlotsOk, QuotasOk, DeadlinesOk, CooldownOk, Purged;
    var p := Purged(w.gate, now);
    PurgeLeavesTheWindow(w.gate, w.history, w.recorded, now);
    TailCounts(p, w.history, w.recorded, now);
    TimesAge(w.history, 0, w.clock, now);
  }

  lemma TailCounts(p: GateState, h: seq<Admission>, recorded: seq<int>, now: real)
    requires p.Ledger() && LedgerIsTail(p.nextId, p.order, p.events, h, recorded)
    requires forall i :: 0 <= i < |h| ==> (now - h[i].at < WINDOW <==> |h| - |p.order| <= i)
    ensures |p.events| == |p.order| == CountYoung(h, now)
    ensures |recorded| == |h| && Used(p.events, p.order) == SumYoung(h, recorded, now)
  {
    CountYoungIs(h, now, |h| - |p.order|);
    SizeOfRange(p.events.Keys, |h| - |p.order|, |h|);
    assert |p.events| == |p.events.Keys|;
    UsedIsSum(p.events, p.order, h, recorded, now);
  }

  // ---- The queue ----

  lemma {:induction false} WithoutSplits(ws: seq<Waiter>, w: Waiter) returns (k: nat)
    requires w in ws
    ensures k < |ws| && ws[k] == w
    ensures Without(ws, w) == ws[..k] + ws[k + 1..]
    decreases ws
  {
    if ws[0] == w {
      k := 0;
    } else {
      var j := WithoutSplits(ws[1..], w);
      k := j + 1;
      assert [ws[0]] + (ws[1..][..j] + ws[1..][j + 1..]) == ws[..k] + ws[k + 1..];
    }
  }

  lemma DropKeepsOrder(line: seq<Waiter>, k: nat)
    requires Increasing(line) && k < |line|
    ensures Increasing(line[..k] + line[k + 1..])
  {
  }

  lemma DropKeepsOthers(line: seq<Waiter>, k: nat)
    requires Increasing(line) && k < |line|
    ensures Ids(line[..k] + line[k + 1..]) == Ids(line) - {line[k].id}
  {
    var rest := line[..k] + line[k + 1..];
    assert line == line[..k] + [line[k]] + line[k + 1..];
    assert forall waiter :: waiter in line <==> waiter in rest || waiter == line[k];
    forall waiter | waiter in rest ensures waiter.id != line[k].id {
      if waiter in line[..k] {
        var i :| 0 <= i < k && line[i] == waiter;
      } else {
        var i :| k < i < |line| && line[i] == waiter;
      }
    }
  }

  /** The waiter at position `k` gives up. */
  lemma LeavingKeepsQueue(q: seq<Waiter>, h: seq<Admission>, arrivals: nat, gaveUp: set<nat>, k: nat)
    requires QueueOk(q, h, arrivals, gaveUp) && k < |q|
    ensures QueueOk(q[..k] + q[k + 1..], h, arrivals, gaveUp + {q[k].id})
  {
    var line, at := Waiters(h) + q, |h| + k;
    assert line[at] == q[k] && line[at] in line;
    DropKeepsOrder(line, at);
    DropKeepsOthers(line, at);
    assert line[..at] + line[at + 1..] == Waiters(h) + (q[..k] + q[k + 1..]);
  }

  lemma AdmittingKeepsQueue(
    q: seq<Waiter>, h: seq<Admission>, arrivals: nat, gaveUp: set<nat>, now: real)
    requires QueueOk(q, h, arrivals, gaveUp) && |q| > 0
    ensures QueueOk(q[1..], h + [Admission(q[0], now)], arrivals, gaveUp)
  {
    assert Waiters(h + [Admission(q[0], now)]) + q[1..] == Waiters(h) + q;
  }

  lemma JoiningKeepsQueue(
    q: seq<Waiter>, h: seq<Admission>, arrivals: nat, gaveUp: set<nat>, r: Request)
    requires QueueOk(q, h, arrivals, gaveUp) && !OverQuota(r)
    ensures QueueOk(q + [Waiter(arrivals, r)], h, arrivals + 1, gaveUp)
  {
    var line, line' := Waiters(h) + q, Waiters(h) + (q + [Waiter(arrivals, r)]);
    assert line' == line + [Waiter(arrivals, r)];
    forall i | 0 <= i < |line| ensures line[i].id < arrivals {
      assert line[i] in line && line[i].id in Ids(line);
    }
    assert Ids(line') == Ids(line) + {arrivals} by {
      assert forall waiter :: waiter in line' <==> waiter in line || waiter == Waiter(arrivals, r);
    }
  }

  // ---- Quotas ----

  lemma {:induction false} SumYoungMonotone(h: seq<Admission>, a: seq<int>, b: seq<int>, now: real)
    requires |h| == |a| == |b|
    requires forall i :: 0 <= i < |h| ==> a[i] <= b[i]
    ensures SumYoung(h, a, now) <= SumYoung(h, b, now)
  {
    if h != [] {
      var n := |h| - 1;
      SumYoungMonotone(h[..n], a[..n], b[..n], now);
    }
  }

  /** Lowering charges, and admitting more callers, keep old admissions in quota. */
  lemma OldAdmissionsStayInQuota(
    h: seq<Admission>, before: seq<int>, more: seq<Admission>, after: seq<int>, j: nat)
    requires |h| == |before| && |h + more| == |after| && j < |h|
    requires forall i :: 0 <= i < |h| ==> Charged(h + more, after)[i] <= Charged(h, before)[i]
    requires AdmissionInQuota(h, before, j)
    ensures AdmissionInQuota(h + more, after, j)
  {
    assert (h + more)[..j + 1] == h[..j + 1];
    assert (h + more)[..j] == h[..j];
    SumYoungMonotone(h[..j], Charged(h + more, after)[..j], Charged(h, before)[..j], h[j].at);
  }

  /** Overwriting an estimate with a report never raises what the caller is charged. */
  lemma ReportingKeepsQuota(h: seq<Admission>, recorded: seq<int>, k: nat, usage: int)
    requires QuotasOk(h, recorded) && k < |h| && recorded[k] == h[k].waiter.request.estimate
    ensures QuotasOk(h, recorded[k := usage])
  {
    var after := recorded[k := usage];
    assert forall i :: 0 <= i < |h| ==> Charged(h, after)[i] <= Charged(h, recorded)[i];
    hide Charged;
    forall j: nat | j < |h| ensures AdmissionInQuota(h, after, j) {
      assert h + [] == h;
      assert AdmissionInQuota(h, recorded, j);
      OldAdmissionsStayInQuota(h, recorded, [], after, j);
    }
  }

  lemma CountYoungOfOneMore(h: seq<Admission>, a: Admission)
    ensures CountYoung(h + [a], a.at) == CountYoung(h, a.at) + 1
  {
    assert (h + [a])[..|h|] == h;
  }

  lemma ChargedIsAPrefix(h: seq<Admission>, recorded: seq<int>, a: Admission)
    requires |h| == |recorded|
    ensures var estimate := a.waiter.request.estimate;
            Charged(h + [a], recorded + [estimate])[..|h|] == Charged(h, recorded)
  {
  }

  lemma AdmittingKeepsQuota(h: seq<Admission>, recorded: seq<int>, a: Admission)
    requires QuotasOk(h, recorded)
    requires var r := a.waiter.request;
             && (r.rpm == 0 || CountYoung(h, a.at) < r.rpm)
             && (r.tpm == 0 || SumYoung(h, recorded, a.at) + r.estimate <= r.tpm)
    ensures QuotasOk(h + [a], recorded + [a.waiter.request.estimate])
  {
    var n := |h|;
    var h', recorded' := h + [a], recorded + [a.waiter.request.estimate];
    ChargedIsAPrefix(h, recorded, a);
    SumYoungMonotone(h, Charged(h, recorded), recorded, a.at);
    CountYoungOfOneMore(h, a);
    forall j: nat | j < n + 1 ensures AdmissionInQuota(h', recorded', j) {
      if j < n {
        assert AdmissionInQuota(h, recorded, j);
        forall i | 0 <= i < n ensures Charged(h', recorded')[i] <= Charged(h, recorded)[i] {
          assert Charged(h', recorded')[i] == Charged(h', recorded')[..n][i];
        }
        OldAdmissionsStayInQuota(h, recorded, [a], recorded', j);
      } else {
        assert h'[..j + 1] == h' && h'[..j] == h;
      }
    }
  }

  // ---- Slots and times ----

  lemma IssuingKeepsSlots(
    active: map<nat, Ticket>, limit: int, h: seq<Admission>, recorded: seq<int>, a: Admission)
    requires SlotsOk(active, limit, h, recorded) && |active| < limit
    ensures var estimate := a.waiter.request.estimate;
            SlotsOk(active[|h| + 1 := Ticket(|h| + 1, estimate, a.at)], limit,
                    h + [a], recorded + [estimate])
  {
    var id := |h| + 1;
    var active' := active[id := Ticket(id, a.waiter.request.estimate, a.at)];
    assert active'.Keys == active.Keys + {id};
    assert |active'| == |active.Keys + {id}|;
  }

  lemma ReleasingKeepsSlots(
    active: map<nat, Ticket>, limit: int, h: seq<Admission>, recorded: seq<int>, id: nat, usage: int)
    requires SlotsOk(active, limit, h, recorded) && id in active
    ensures SlotsOk(active - {id}, limit, h, recorded)
    ensures 0 < id <= |h| && recorded[id - 1] == h[id - 1].waiter.request.estimate
    ensures 0 <= usage <= MAX_USAGE ==> SlotsOk(active - {id}, limit, h, recorded[id - 1 := usage])
  {
    assert (active - {id}).Keys == active.Keys - {id};
    assert |active - {id}| == |active.Keys - {id}|;
  }

  lemma ReportingKeepsTail(
    nextId: nat, order: seq<nat>, events: map<nat, Event>, h: seq<Admission>, recorded: seq<int>,
    id: nat, usage: int)
    requires LedgerOk(order, events) && LedgerIsTail(nextId, order, events, h, recorded) && id in events
    ensures var events' := events[id := Event(events[id].at, usage)];
            && LedgerOk(order, events')
            && LedgerIsTail(nextId, order, events', h, recorded[id - 1 := usage])
  {
  }

  lemma TailExtends(
    nextId: nat, order: seq<nat>, events: map<nat, Event>, h: seq<Admission>, recorded: seq<int>,
    a: Admission, tokens: int)
    requires LedgerIsTail(nextId, order, events, h, recorded)
    ensures var events' := events[nextId + 1 := Event(a.at, tokens)];
            && LedgerOk(order + [nextId + 1], events')
            && LedgerIsTail(nextId + 1, order + [nextId + 1], events', h + [a], recorded + [tokens])
  {
    var h', recorded' := h + [a], recorded + [tokens];
    assert forall i :: 0 <= i < |h| ==> h'[i] == h[i] && recorded'[i] == recorded[i];
  }

  lemma TimesExtend(h: seq<Admission>, left: int, a: Admission)
    requires TimesOk(h, left, a.at) && left <= |h|
    ensures TimesOk(h + [a], left, a.at)
  {
  }

  lemma DeadlinesExtend(h: seq<Admission>, a: Admission)
    requires DeadlinesOk(h) && a.at < a.waiter.request.deadline
    ensures DeadlinesOk(h + [a])
  {
  }

  lemma TimesAge(h: seq<Admission>, left: int, clock: real, now: real)
    requires TimesOk(h, left, clock) && clock <= now
    ensures TimesOk(h, left, now)
  {
  }

  // ---- One pass ----

  lemma AdmittedShape(w: World, waiter: Waiter, now: real)
    requires w.gate.Ledger() && waiter in w.gate.waiters
    requires Pass(w.gate, waiter, now).outcome.Admitted?
    ensures var p := Purged(w.gate, now);
            var v := Noted(w, waiter, Pass(w.gate, waiter, now), now);
            var estimate, id := waiter.request.estimate, w.gate.nextId + 1;
            && Allowed(p, waiter, now)
            && now < waiter.request.deadline
            && p.nextId == w.gate.nextId && p.active == w.gate.active && p.limit == w.gate.limit
            && v == w.(gate := w.gate.(waiters := w.gate.waiters[1..],
                                       nextId := id,
                                       active := w.gate.active[id := Ticket(id, estimate, now)],
                                       events := p.events[id := Event(now, estimate)],
                                       order := p.order + [id]),
                       clock := now,
                       history := w.history + [Admission(waiter, now)],
                       recorded := w.recorded + [estimate])
  {
  }

  lemma AdmittedPassKeepsInv(w: World, waiter: Waiter, now: real)
    requires Inv(w) && w.clock <= now && waiter in w.gate.waiters
    requires Pass(w.gate, waiter, now).outcome.Admitted?
    ensures Inv(Noted(w, waiter, Pass(w.gate, waiter, now), now))
  {
    hide Purged, Pass, Noted, QueueOk, LedgerIsTail, LedgerOk, TimesOk, SlotsOk, QuotasOk, Used, SumYoung,
         CountYoung, DeadlinesOk;
    var p, a := Purged(w.gate, now), Admission(waiter, now);
    PurgedGateCountsTheWindow(w, now);
    AdmittedShape(w, waiter, now);
    NextIdCounts(w);
    DeadlinesExtend(w.history, a);
    AdmittingKeepsQueue(w.gate.waiters, w.history, w.arrivals, w.gaveUp, now);
    TailExtends(p.nextId, p.order, p.events, w.history, w.recorded, a, waiter.request.estimate);
    TimesExtend(w.history, |w.history| - |p.order|, a);
    IssuingKeepsSlots(w.gate.active, w.gate.limit, w.history, w.recorded, a);
    AdmittingKeepsQuota(w.history, w.recorded, a);
  }

  lemma NextIdCounts(w: World)
    requires Inv(w)
    ensures |w.history| == |w.recorded| == w.gate.nextId
  {
  }

  lemma IdleShape(w: World, waiter: Waiter, now: real)
    requires w.gate.Ledger() && waiter in w.gate.waiters
    requires !Pass(w.gate, waiter, now).outcome.Admitted?
    ensures var p := Purged(w.gate, now);
            var result := Pass(w.gate, waiter, now);
            var v := Noted(w, waiter, result, now);
            && LedgerOk(p.order, p.events)
            && v == w.(gate := w.gate.(waiters := result.gate.waiters, events := p.events, order := p.order),
                       clock := now,
                       gaveUp := if result.outcome.TimedOut? then w.gaveUp + {waiter.id} else w.gaveUp)
            && result.gate.waiters ==
                 (if result.outcome.TimedOut? then Without(w.gate.waiters, waiter) else w.gate.waiters)
  {
  }

  lemma IdlePassKeepsInv(w: World, waiter: Waiter, now: real)
    requires Inv(w) && w.clock <= now && waiter in w.gate.waiters
    requires !Pass(w.gate, waiter, now).outcome.Admitted?
    ensures Inv(Noted(w, waiter, Pass(w.gate, waiter, now), now))
  {
    hide Purged, Pass, Noted, QueueOk, LedgerIsTail, LedgerOk, TimesOk, SlotsOk, QuotasOk, Used, SumYoung,
         CountYoung, DeadlinesOk;
    PurgedGateCountsTheWindow(w, now);
    IdleShape(w, waiter, now);
    NextIdCounts(w);
    var k := WithoutSplits(w.gate.waiters, waiter);
    LeavingKeepsQueue(w.gate.waiters, w.history, w.arrivals, w.gaveUp, k);
  }

  lemma PassKeepsInv(w: World, waiter: Waiter, now: real)
    requires Inv(w) && w.clock <= now && waiter in w.gate.waiters
    ensures Inv(Noted(w, waiter, Pass(w.gate, waiter, now), now))
  {
    if Pass(w.gate, waiter, now).outcome.Admitted? {
      AdmittedPassKeepsInv(w, waiter, now);
    } else {
      IdlePassKeepsInv(w, waiter, now);
    }
  }

  // ---- Every step ----

  lemma ReleaseKeepsInv(w: World, ticket: Option<Ticket>, usage: Option<int>, now: real)
    requires Inv(w) && w.clock <= now && Holds(w.gate, ticket)
    ensures Inv(w.(gate := Released(w.gate, ticket, usage),
                   clock := now,
                   recorded := NotedRelease(w, ticket, usage)))
  {
    hide QueueOk, LedgerIsTail, LedgerOk, TimesOk, SlotsOk, QuotasOk;
    var id := ticket.value.id;
    NextIdCounts(w);
    TimesAge(w.history, |w.history| - |w.gate.order|, w.clock, now);
    ReleasingKeepsSlots(w.gate.active, w.gate.limit, w.history, w.recorded, id, usage.GetOr(0));
    if Reported(usage) && id in w.gate.events {
      ReportingKeepsTail(w.gate.nextId, w.gate.order, w.gate.events, w.history, w.recorded, id, usage.value);
      ReportingKeepsQuota(w.history, w.recorded, id - 1, usage.value);
    }
  }

  lemma CooldownKeepsInv(w: World, delay: real, now: real)
    requires Inv(w) && w.clock <= now
    ensures Inv(w.(gate := Blocked(w.gate, delay, now), clock := now))
    ensures Inv(w.(clock := now))
  {
    hide QueueOk, LedgerIsTail, LedgerOk, TimesOk, SlotsOk, QuotasOk;
    TimesAge(w.history, |w.history| - |w.gate.order|, w.clock, now);
  }

  lemma ArrivalKeepsInv(w: World, r: Request, now: real)
    requires Inv(w) && w.clock <= now
    ensures Inv(Next(w, TimedStep(Arrive(r), now)))
  {
    hide QueueOk, LedgerIsTail, LedgerOk, TimesOk, SlotsOk, QuotasOk, Pass, Noted;
    if OverQuota(r) {
      CooldownKeepsInv(w, 0.0, now);
    } else {
      JoiningKeepsQueue(w.gate.waiters, w.history, w.arrivals, w.gaveUp, r);
      PassKeepsInv(Joined(w, r), Waiter(w.arrivals, r), now);
    }
  }

  lemma InterruptKeepsInv(w: World, waiter: Waiter, now: real)
    requires Inv(w) && w.clock <= now && waiter in w.gate.waiters
    ensures Inv(Next(w, TimedStep(Interrupt(waiter), now)))
  {
    hide QueueOk, LedgerIsTail, LedgerOk, TimesOk, SlotsOk, QuotasOk;
    TimesAge(w.history, |w.history| - |w.gate.order|, w.clock, now);
    var k := WithoutSplits(w.gate.waiters, waiter);
    LeavingKeepsQueue(w.gate.waiters, w.history, w.arrivals, w.gaveUp, k);
  }

  /** The inductive heart: one step of anybody keeps the whole invariant. */
  lemma StepKeepsInv(w: World, t: TimedStep)
    requires Inv(w) && Enabled(w, t)
    ensures Inv(Next(w, t))
  {
    match t.step {
      case Arrive(r) =>
        ArrivalKeepsInv(w, r, t.at);
      case Wake(waiter) =>
        PassKeepsInv(w, waiter, t.at);
      case Interrupt(waiter) =>
        InterruptKeepsInv(w, waiter, t.at);
      case Release(ticket, usage) =>
        ReleaseStepKeepsInv(w, t);
      case BlockFor(delay) =>
        CooldownKeepsInv(w, delay, t.at);
      case ReleaseAndBlock(ticket, delay, usage) =>
        ReleaseStepKeepsInv(w, t);
    }
  }

  lemma ReleaseStepKeepsInv(w: World, t: TimedStep)
    requires Inv(w) && Enabled(w, t) && (t.step.Release? || t.step.ReleaseAndBlock?)
    ensures Inv(Next(w, t))
  {
    var ticket, usage := t.step.ticket, t.step.usage;
    CooldownKeepsInv(w, 0.0, t.at);
    if Holds(w.gate, ticket) {
      ReleaseKeepsInv(w, ticket, usage, t.at);
      if t.step.ReleaseAndBlock? {
        var u := w.(gate := Released(w.gate, ticket, usage),
                    clock := t.at,
                    recorded := NotedRelease(w, ticket, usage));
        CooldownKeepsInv(u, t.step.delay, t.at);
      }
    } else {
      assert Released(w.gate, ticket, usage) == w.gate;
    }
  }
}
