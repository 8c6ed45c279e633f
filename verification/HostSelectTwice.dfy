/** Selecting from what was selected selects all of it. */
module HostSelectTwice {
  import opened Basics
  import opened Texts
  import opened HostSelect

  // ---- Sorted agents ----

  predicate Rising(s: seq<string>) {
    forall i, j :: 0 <= i < j < |s| ==> Less(s[i], s[j])
  }

  lemma {:induction false} AddAgentRises(agents: seq<string>, a: string)
    requires Rising(agents)
    ensures Rising(AddAgent(agents, a))
  {
    if agents != [] && agents[0] != a {
      if Less(a, agents[0]) {
        forall i | 0 < i < |agents| ensures Less(a, agents[i]) {
          LessIsTransitive(a, agents[0], agents[i]);
        }
      } else {
        LessIsTotal(a, agents[0]);
        AddAgentRises(agents[1..], a);
        var rest := AddAgent(agents[1..], a);
        AddAgentMembers(agents[1..], a);
        forall i | 0 <= i < |rest| ensures Less(agents[0], rest[i]) {
          assert rest[i] in rest;
        }
      }
    }
  }

  lemma {:induction false} AgentsRise(entries: seq<Entry>)
    ensures Rising(Agents(entries))
  {
    if entries != [] {
      AgentsRise(entries[..|entries| - 1]);
      AddAgentRises(Agents(entries[..|entries| - 1]), entries[|entries| - 1].agent);
    }
  }

  lemma LeastFirst(s: seq<string>, x: string)
    requires Rising(s) && x in s
    ensures s[0] == x || Less(s[0], x)
  {
    var i :| 0 <= i < |s| && s[i] == x;
  }

  lemma FirstIsIn(s: seq<string>)
    ensures s != [] ==> s[0] in s
  {
  }

  lemma TailIsTheRest(s: seq<string>)
    requires Rising(s) && s != []
    ensures forall x :: x in s[1..] <==> x in s && x != s[0]
  {
    assert s == [s[0]] + s[1..];
    forall i | 0 < i < |s| ensures s[i] != s[0] {
      LessIsTotal(s[0], s[i]);
    }
  }

  lemma {:induction false} RisingListsAreEqual(a: seq<string>, b: seq<string>)
    requires Rising(a) && Rising(b) && forall x :: x in a <==> x in b
    ensures a == b
  {
    if a == [] {
      FirstIsIn(b);
    } else {
      assert a[0] in a;
      LeastFirst(b, a[0]);
      assert b[0] in b;
      LeastFirst(a, b[0]);
      LessIsTotal(a[0], b[0]);
      TailIsTheRest(a);
      TailIsTheRest(b);
      RisingListsAreEqual(a[1..], b[1..]);
      assert a == [a[0]] + a[1..] && b == [b[0]] + b[1..];
    }
  }

  // ---- Groups of what was selected ----

  lemma {:induction false} GroupOfSum(a: seq<Entry>, b: seq<Entry>, agent: string)
    ensures GroupOf(a + b, agent) == GroupOf(a, agent) + GroupOf(b, agent)
  {
    if b == [] {
      assert a + b == a;
    } else {
      assert (a + b)[..|a + b| - 1] == a + b[..|b| - 1];
      GroupOfSum(a, b[..|b| - 1], agent);
    }
  }

  lemma {:induction false} GroupOfOne(s: seq<Entry>, of: string, agent: string)
    requires forall i :: 0 <= i < |s| ==> s[i].agent == of
    ensures GroupOf(s, agent) == if of == agent then s else []
  {
    if s != [] {
      var n := |s| - 1;
      GroupOfOne(s[..n], of, agent);
      assert s == s[..n] + [s[n]];
    }
  }

  lemma KeptIsOfAgent(entries: seq<Entry>, agent: string, keep: int)
    ensures forall i :: 0 <= i < |KeptOf(entries, agent, keep)| ==> KeptOf(entries, agent, keep)[i].agent == agent
  {
    KeptMembers(entries, agent, keep);
    var k := KeptOf(entries, agent, keep);
    assert forall i :: 0 <= i < |k| ==> k[i] in k;
  }

  lemma {:induction false} GroupOfSelected(entries: seq<Entry>, agents: seq<string>, keep: int, agent: string)
    requires Rising(agents)
    ensures GroupOf(KeptOfAll(entries, agents, keep), agent) == if agent in agents then KeptOf(entries, agent, keep) else []
  {
    hide KeptOf, GroupOf;
    if agents == [] {
      NoEntries(agent);
    } else {
      var n := |agents| - 1;
      var last := KeptOf(entries, agents[n], keep);
      GroupOfSelected(entries, agents[..n], keep, agent);
      GroupOfSum(KeptOfAll(entries, agents[..n], keep), last, agent);
      KeptIsOfAgent(entries, agents[n], keep);
      GroupOfOne(last, agents[n], agent);
      assert agents == agents[..n] + [agents[n]];
      LastIsNew(agents);
    }
  }

  lemma NoEntries(agent: string)
    ensures GroupOf([], agent) == []
  {
  }

  lemma LastIsNew(agents: seq<string>)
    requires Rising(agents) && agents != []
    ensures agents[|agents| - 1] !in agents[..|agents| - 1]
  {
    var n := |agents| - 1;
    forall i | 0 <= i < n ensures agents[i] != agents[n] {
      LessIsTotal(agents[i], agents[n]);
    }
  }

  // ---- Choosing again ----

  lemma {:induction false} ChosenAll(s: seq<Entry>, ordered: seq<Entry>, keep: int)
    requires forall i :: 0 <= i < |s| ==> KeepsId(ordered, keep, s[i].adapter)
    ensures Chosen(s, ordered, keep) == s
  {
    hide KeepsId;
    if s != [] {
      var n := |s| - 1;
      ChosenAll(s[..n], ordered, keep);
      assert s == s[..n] + [s[n]];
    }
  }

  lemma {:induction false} ChosenOfSum(a: seq<Entry>, b: seq<Entry>, ordered: seq<Entry>, keep: int)
    ensures Chosen(a + b, ordered, keep) == Chosen(a, ordered, keep) + Chosen(b, ordered, keep)
  {
    hide KeepsId;
    if b == [] {
      assert a + b == a;
    } else {
      assert (a + b)[..|a + b| - 1] == a + b[..|b| - 1];
      ChosenOfSum(a, b[..|b| - 1], ordered, keep);
    }
  }

  lemma {:induction false} ChosenIsOrdered(s: seq<Entry>, ordered: seq<Entry>, keep: int)
    requires Ordered(s)
    ensures Ordered(Chosen(s, ordered, keep))
  {
    hide KeepsId;
    if s != [] {
      var n := |s| - 1;
      ChosenIsOrdered(s[..n], ordered, keep);
      var front := Chosen(s[..n], ordered, keep);
      forall i | 0 <= i < |front| ensures front[i].version <= s[n].version {
        assert front[i] in front;
        var j :| 0 <= j < n && s[..n][j] == front[i];
      }
    }
  }

  /** The newest are all chosen, and they are the newest of the chosen. */
  lemma NewestStay(o: seq<Entry>, keep: int)
    ensures Newest(Chosen(o, o, keep), keep) == Newest(o, keep)
  {
    if keep > 0 {
      var m := MaxInt(0, |o| - keep);
      var newest := Newest(o, keep);
      assert o == o[..m] + newest;
      ChosenOfSum(o[..m], newest, o, keep);
      ChosenAll(newest, o, keep);
      var k := Chosen(o, o, keep);
      assert k == Chosen(o[..m], o, keep) + newest;
      if m == 0 {
        assert o[..m] == [] && k == o;
      }
    }
  }

  lemma ChosenAgain(o: seq<Entry>, keep: int)
    ensures var k := Chosen(o, o, keep); Chosen(k, k, keep) == k
  {
    var k := Chosen(o, o, keep);
    NewestStay(o, keep);
    forall i | 0 <= i < |k| ensures KeepsId(k, keep, k[i].adapter) {
      var id := k[i].adapter;
      assert k[i] in k;
      if j :| 0 <= j < |o| && o[j].published && o[j].adapter == id {
        assert o[j] in k;
      }
    }
    ChosenAll(k, k, keep);
  }

  lemma KeptOfSelected(entries: seq<Entry>, keep: int, agent: string)
    ensures KeptOf(SelectLoaded(entries, keep), agent, keep)
            == if agent in Agents(entries) then KeptOf(entries, agent, keep) else []
  {
    hide GroupOf, Agents, KeepsId;
    var agents := Agents(entries);
    AgentsRise(entries);
    GroupOfSelected(entries, agents, keep, agent);
    if agent in agents {
      var o := ByVersion(GroupOf(entries, agent));
      ByVersionOrders(GroupOf(entries, agent));
      ChosenIsOrdered(o, o, keep);
      OrderedStays(KeptOf(entries, agent, keep));
      ChosenAgain(o, keep);
    }
  }

  function NonEmpty(entries: seq<Entry>, agents: seq<string>, keep: int): (r: seq<string>)
    ensures forall a :: a in r <==> a in agents && KeptOf(entries, a, keep) != []
  {
    if agents == [] then []
    else
      var front, last := NonEmpty(entries, agents[..|agents| - 1], keep), agents[|agents| - 1];
      if KeptOf(entries, last, keep) != [] then front + [last] else front
  }

  lemma {:induction false} NonEmptyRises(entries: seq<Entry>, agents: seq<string>, keep: int)
    requires Rising(agents)
    ensures Rising(NonEmpty(entries, agents, keep))
  {
    hide KeptOf, Less;
    if agents != [] {
      var n := |agents| - 1;
      NonEmptyRises(entries, agents[..n], keep);
      var front := NonEmpty(entries, agents[..n], keep);
      forall i | 0 <= i < |front| ensures Less(front[i], agents[n]) {
        assert front[i] in front;
        var j :| 0 <= j < n && agents[..n][j] == front[i];
        assert agents[j] == front[i];
      }
    }
  }

  lemma {:induction false} NonEmptySuffices(entries: seq<Entry>, agents: seq<string>, keep: int)
    ensures KeptOfAll(entries, NonEmpty(entries, agents, keep), keep) == KeptOfAll(entries, agents, keep)
  {
    hide KeptOf;
    if agents != [] {
      var n := |agents| - 1;
      NonEmptySuffices(entries, agents[..n], keep);
      var front := NonEmpty(entries, agents[..n], keep);
      assert (front + [agents[n]])[..|front|] == front;
    }
  }

  lemma {:induction false} SameKept(a: seq<Entry>, b: seq<Entry>, agents: seq<string>, keep: int)
    requires forall x :: x in agents ==> KeptOf(a, x, keep) == KeptOf(b, x, keep)
    ensures KeptOfAll(a, agents, keep) == KeptOfAll(b, agents, keep)
  {
    hide KeptOf;
    if agents != [] {
      SameKept(a, b, agents[..|agents| - 1], keep);
    }
  }

  /** Selection is idempotent, whatever the entries. */
  lemma SelectTwice(entries: seq<Entry>, keep: int)
    ensures SelectLoaded(SelectLoaded(entries, keep), keep) == SelectLoaded(entries, keep)
  {
    hide KeptOf, Agents, NonEmpty, KeptOfAll;
    var c := SelectLoaded(entries, keep);
    var agents, kept := Agents(entries), NonEmpty(entries, Agents(entries), keep);
    AgentsRise(entries);
    AgentsRise(c);
    NonEmptyRises(entries, agents, keep);
    NonEmptySuffices(entries, agents, keep);
    KeptOfAllMembers(entries, agents, keep);
    AgentsMembers(c);
    forall a ensures a in Agents(c) <==> a in kept {
      KeptAgents(entries, keep, a);
    }
    RisingListsAreEqual(Agents(c), kept);
    forall a | a in kept ensures KeptOf(c, a, keep) == KeptOf(entries, a, keep) {
      KeptOfSelected(entries, keep, a);
    }
    SameKept(c, entries, kept, keep);
  }

  lemma KeptAgents(entries: seq<Entry>, keep: int, a: string)
    ensures a in Agents(SelectLoaded(entries, keep)) <==> a in Agents(entries) && KeptOf(entries, a, keep) != []
  {
    hide KeptOf, Agents;
    var c, agents := SelectLoaded(entries, keep), Agents(entries);
    KeptOfAllMembers(entries, agents, keep);
    AgentsMembers(c);
    if a in Agents(c) {
      var i :| 0 <= i < |c| && c[i].agent == a;
      assert c[i] in c;
      var j :| 0 <= j < |agents| && c[i] in KeptOf(entries, agents[j], keep);
      KeptIsOfAgent(entries, agents[j], keep);
    }
    if a in agents && KeptOf(entries, a, keep) != [] {
      KeptIsOfAgent(entries, a, keep);
      var x := KeptOf(entries, a, keep)[0];
      var j :| 0 <= j < |agents| && agents[j] == a;
      assert x in KeptOf(entries, agents[j], keep) && x in c;
      var i :| 0 <= i < |c| && c[i] == x;
    }
  }

  // ---- Order and multiplicity ----

  predicate InOrder(a: Entry, b: Entry) {
    Less(a.agent, b.agent) || (a.agent == b.agent && a.version <= b.version)
  }

  predicate SortedByAgent(s: seq<Entry>) {
    forall i, j :: 0 <= i < j < |s| ==> InOrder(s[i], s[j])
  }

  lemma KeptIsOrdered(entries: seq<Entry>, agent: string, keep: int)
    ensures Ordered(KeptOf(entries, agent, keep))
  {
    ByVersionOrders(GroupOf(entries, agent));
    var ordered := ByVersion(GroupOf(entries, agent));
    ChosenIsOrdered(ordered, ordered, keep);
  }

  lemma {:induction false} KeptOfAllIsSorted(entries: seq<Entry>, agents: seq<string>, keep: int)
    requires Rising(agents)
    ensures SortedByAgent(KeptOfAll(entries, agents, keep))
    ensures forall i :: 0 <= i < |KeptOfAll(entries, agents, keep)| ==> KeptOfAll(entries, agents, keep)[i].agent in agents
  {
    hide KeptOf, Less;
    if agents != [] {
      var n := |agents| - 1;
      var front, last := KeptOfAll(entries, agents[..n], keep), KeptOf(entries, agents[n], keep);
      KeptOfAllIsSorted(entries, agents[..n], keep);
      KeptIsOfAgent(entries, agents[n], keep);
      KeptIsOrdered(entries, agents[n], keep);
      forall i, j | 0 <= i < |front| && 0 <= j < |last| ensures InOrder(front[i], last[j]) {
        var k :| 0 <= k < n && agents[..n][k] == front[i].agent;
        assert agents[k] == front[i].agent && Less(agents[k], agents[n]);
      }
      assert forall j :: 0 <= j < |last| ==> last[j].agent == agents[n];
      assert KeptOfAll(entries, agents, keep) == front + last;
    }
  }

  lemma {:induction false} GroupCounts(entries: seq<Entry>, e: Entry)
    ensures multiset(GroupOf(entries, e.agent))[e] == multiset(entries)[e]
  {
    if entries != [] {
      var n := |entries| - 1;
      GroupCounts(entries[..n], e);
      assert entries == entries[..n] + [entries[n]];
    }
  }

  lemma {:induction false} InsertCounts(e: Entry, s: seq<Entry>)
    ensures multiset(InsertLast(e, s)) == multiset(s) + multiset{e}
  {
    if s != [] && s[|s| - 1].version > e.version {
      var n := |s| - 1;
      InsertCounts(e, s[..n]);
      assert s == s[..n] + [s[n]];
    }
  }

  lemma {:induction false} SortingCounts(s: seq<Entry>)
    ensures multiset(ByVersion(s)) == multiset(s)
  {
    if s != [] {
      var n := |s| - 1;
      SortingCounts(s[..n]);
      InsertCounts(s[n], ByVersion(s[..n]));
      assert s == s[..n] + [s[n]];
    }
  }

  lemma {:induction false} ChosenCounts(s: seq<Entry>, ordered: seq<Entry>, keep: int, e: Entry)
    requires KeepsId(ordered, keep, e.adapter)
    ensures multiset(Chosen(s, ordered, keep))[e] == multiset(s)[e]
  {
    hide KeepsId;
    if s != [] {
      var n := |s| - 1;
      ChosenCounts(s[..n], ordered, keep, e);
      assert s == s[..n] + [s[n]];
    }
  }

  /** What is selected comes agent by agent, oldest version first, and each entry as often as it is available. */
  lemma SelectedInOrder(entries: seq<Entry>, keep: int)
    ensures SortedByAgent(SelectLoaded(entries, keep))
    ensures forall e :: e in SelectLoaded(entries, keep) ==> multiset(SelectLoaded(entries, keep))[e] == multiset(entries)[e]
  {
    hide *;
    var r := SelectLoaded(entries, keep);
    AgentsRise(entries);
    KeptOfAllIsSorted(entries, Agents(entries), keep);
    assert r == KeptOfAll(entries, Agents(entries), keep) by {
      SelectedOfAgents(entries, keep);
    }
    forall e | e in r ensures multiset(r)[e] == multiset(entries)[e] {
      SelectedAsOften(entries, keep, e);
    }
  }

  lemma SelectedOfAgents(entries: seq<Entry>, keep: int)
    ensures SelectLoaded(entries, keep) == KeptOfAll(entries, Agents(entries), keep)
  {
    hide KeptOfAll, Agents;
  }

  lemma SelectedAsOften(entries: seq<Entry>, keep: int, e: Entry)
    requires e in SelectLoaded(entries, keep)
    ensures multiset(SelectLoaded(entries, keep))[e] == multiset(entries)[e]
  {
    hide GroupOf, Agents, KeepsId, KeptOfAll, ByVersion, Chosen;
    var r, agents := SelectLoaded(entries, keep), Agents(entries);
    AgentsRise(entries);
    GroupCounts(r, e);
    GroupOfSelected(entries, agents, keep, e.agent);
    assert multiset(r)[e] > 0;
    KeptCounts(entries, keep, e);
  }

  lemma KeptCounts(entries: seq<Entry>, keep: int, e: Entry)
    ensures multiset(KeptOf(entries, e.agent, keep))[e] == 0 || multiset(KeptOf(entries, e.agent, keep))[e] == multiset(entries)[e]
  {
    hide GroupOf, KeepsId, ByVersion;
    var group := GroupOf(entries, e.agent);
    var ordered := ByVersion(group);
    SortingCounts(group);
    GroupCounts(entries, e);
    if KeepsId(ordered, keep, e.adapter) {
      ChosenCounts(ordered, ordered, keep, e);
    } else {
      assert e !in Chosen(ordered, ordered, keep);
    }
  }
}
