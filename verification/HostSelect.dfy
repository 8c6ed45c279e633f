/** Which of the available models the host loads: the newest of each agent and the published ones. */
module HostSelect {
  import opened Basics
  import opened Texts

  datatype Entry = Entry(
    filename: string, sha256: string, size: int, adapter: string, agent: string, version: int, published: bool)

  // ---- Groups and their order ----

  function AddAgent(agents: seq<string>, a: string): seq<string> {
    if agents == [] then [a]
    else if agents[0] == a then agents
    else if Less(a, agents[0]) then [a] + agents
    else [agents[0]] + AddAgent(agents[1..], a)
  }

  /** The agents of the entries, each once, in order. */
  function Agents(entries: seq<Entry>): seq<string> {
    if entries == [] then []
    else AddAgent(Agents(entries[..|entries| - 1]), entries[|entries| - 1].agent)
  }

  function GroupOf(entries: seq<Entry>, agent: string): seq<Entry> {
    if entries == [] then []
    else
      var front, last := GroupOf(entries[..|entries| - 1], agent), entries[|entries| - 1];
      if last.agent == agent then front + [last] else front
  }

  /** Into its place in a list ordered by version, after any of the same version. */
  function InsertLast(e: Entry, s: seq<Entry>): seq<Entry> {
    if s == [] || s[|s| - 1].version <= e.version then s + [e]
    else InsertLast(e, s[..|s| - 1]) + [s[|s| - 1]]
  }

  /** Stable sort by version. */
  function ByVersion(s: seq<Entry>): seq<Entry> {
    if s == [] then [] else InsertLast(s[|s| - 1], ByVersion(s[..|s| - 1]))
  }

  function Newest(ordered: seq<Entry>, keep: int): seq<Entry> {
    if keep > 0 then ordered[MaxInt(0, |ordered| - keep)..] else []
  }

  predicate KeepsId(ordered: seq<Entry>, keep: int, id: string) {
    || (exists i :: 0 <= i < |Newest(ordered, keep)| && Newest(ordered, keep)[i].adapter == id)
    || (exists i :: 0 <= i < |ordered| && ordered[i].published && ordered[i].adapter == id)
  }

  function Chosen(s: seq<Entry>, ordered: seq<Entry>, keep: int): (r: seq<Entry>)
    ensures forall e :: e in r <==> e in s && KeepsId(ordered, keep, e.adapter)
  {
    if s == [] then []
    else
      var front, last := Chosen(s[..|s| - 1], ordered, keep), s[|s| - 1];
      if KeepsId(ordered, keep, last.adapter) then front + [last] else front
  }

  function KeptOf(entries: seq<Entry>, agent: string, keep: int): seq<Entry> {
    var ordered := ByVersion(GroupOf(entries, agent));
    Chosen(ordered, ordered, keep)
  }

  function KeptOfAll(entries: seq<Entry>, agents: seq<string>, keep: int): seq<Entry> {
    if agents == [] then [] else KeptOfAll(entries, agents[..|agents| - 1], keep) + KeptOf(entries, agents[|agents| - 1], keep)
  }

  function SelectLoaded(entries: seq<Entry>, keep: int): seq<Entry> {
    KeptOfAll(entries, Agents(entries), keep)
  }

  // ---- The loops of the script ----

  ghost predicate Grouped(byAgent: map<string, seq<Entry>>, entries: seq<Entry>) {
    && (forall a :: a in byAgent <==> a in Agents(entries))
    && (forall a :: a in byAgent ==> byAgent[a] == GroupOf(entries, a))
  }

  method Select(entries: seq<Entry>, keep: int) returns (chosen: seq<Entry>)
    ensures chosen == SelectLoaded(entries, keep)
  {
    hide AddAgent, Agents, GroupOf, ByVersion, Chosen, Grouped;
    var byAgent: map<string, seq<Entry>> := map[];
    NothingGrouped();
    for i := 0 to |entries|
      invariant Grouped(byAgent, entries[..i])
    {
      assert entries[..i] + [entries[i]] == entries[..i + 1];
      var e := entries[i];
      GroupedGrows(byAgent, entries[..i], e);
      if e.agent in byAgent {
        byAgent := byAgent[e.agent := byAgent[e.agent] + [e]];
      } else {
        byAgent := byAgent[e.agent := [e]];
      }
    }
    assert entries[..|entries|] == entries;
    var agents := Agents(entries);
    chosen := [];
    for i := 0 to |agents|
      invariant chosen == KeptOfAll(entries, agents[..i], keep)
    {
      assert agents[..i + 1][..i] == agents[..i];
      assert agents[i] in agents;
      GroupedHas(byAgent, entries, agents[i]);
      var ordered := ByVersion(byAgent[agents[i]]);
      chosen := chosen + Chosen(ordered, ordered, keep);
    }
    assert agents[..|agents|] == agents;
  }

  lemma NothingGrouped()
    ensures Grouped(map[], [])
  {
  }

  lemma GroupedHas(byAgent: map<string, seq<Entry>>, entries: seq<Entry>, a: string)
    requires Grouped(byAgent, entries) && a in Agents(entries)
    ensures a in byAgent && byAgent[a] == GroupOf(entries, a)
  {
  }

  lemma GroupedGrows(byAgent: map<string, seq<Entry>>, entries: seq<Entry>, e: Entry)
    requires Grouped(byAgent, entries)
    ensures Grouped(byAgent[e.agent := (if e.agent in byAgent then byAgent[e.agent] else []) + [e]], entries + [e])
    ensures e.agent !in byAgent ==> [] + [e] == [e]
  {
    hide AddAgent;
    var all := entries + [e];
    assert all[..|entries|] == entries;
    AddAgentMembers(Agents(entries), e.agent);
    if e.agent !in byAgent {
      NoGroupYet(entries, e.agent);
    }
  }

  lemma {:induction false} AddAgentMembers(agents: seq<string>, a: string)
    ensures forall b :: b in AddAgent(agents, a) <==> b in agents || b == a
  {
    if agents != [] && agents[0] != a && !Less(a, agents[0]) {
      AddAgentMembers(agents[1..], a);
      assert agents == [agents[0]] + agents[1..];
    }
  }

  lemma {:induction false} AgentsMembers(entries: seq<Entry>)
    ensures forall a :: a in Agents(entries) <==> exists i :: 0 <= i < |entries| && entries[i].agent == a
  {
    if entries != [] {
      var n := |entries| - 1;
      AgentsMembers(entries[..n]);
      AddAgentMembers(Agents(entries[..n]), entries[n].agent);
      assert forall i :: 0 <= i < n ==> entries[..n][i] == entries[i];
    }
  }

  lemma {:induction false} NoGroupYet(entries: seq<Entry>, a: string)
    requires a !in Agents(entries)
    ensures GroupOf(entries, a) == []
  {
    if entries != [] {
      var n := |entries| - 1;
      AddAgentMembers(Agents(entries[..n]), entries[n].agent);
      NoGroupYet(entries[..n], a);
    }
  }

  lemma {:induction false} GroupMembers(entries: seq<Entry>, a: string)
    ensures forall e :: e in GroupOf(entries, a) <==> e in entries && e.agent == a
  {
    if entries != [] {
      var n := |entries| - 1;
      GroupMembers(entries[..n], a);
      assert entries == entries[..n] + [entries[n]];
    }
  }

  // ---- Sorting ----

  predicate Ordered(s: seq<Entry>) {
    forall i, j :: 0 <= i < j < |s| ==> s[i].version <= s[j].version
  }

  function Above(s: seq<Entry>, v: int): nat {
    if s == [] then 0 else Above(s[..|s| - 1], v) + if s[|s| - 1].version > v then 1 else 0
  }

  /** Where an insertion puts the entry. */
  function Place(e: Entry, s: seq<Entry>): (k: nat)
    ensures k <= |s|
  {
    if s == [] || s[|s| - 1].version <= e.version then |s| else Place(e, s[..|s| - 1])
  }

  lemma {:induction false} InsertIsAtPlace(e: Entry, s: seq<Entry>)
    ensures InsertLast(e, s) == s[..Place(e, s)] + [e] + s[Place(e, s)..]
  {
    var k := Place(e, s);
    if s == [] || s[|s| - 1].version <= e.version {
      assert s[..k] == s && s[k..] == [];
    } else {
      var n := |s| - 1;
      InsertIsAtPlace(e, s[..n]);
      assert s[..n][..k] == s[..k] && s[..n][k..] + [s[n]] == s[k..];
    }
  }

  lemma {:induction false} PlaceDivides(e: Entry, s: seq<Entry>)
    requires Ordered(s)
    ensures forall i :: 0 <= i < Place(e, s) ==> s[i].version <= e.version
    ensures forall i :: Place(e, s) <= i < |s| ==> s[i].version > e.version
    ensures |s| - Place(e, s) == Above(s, e.version)
  {
    if s == [] || s[|s| - 1].version <= e.version {
      NoneAbove(s, e.version);
    } else {
      var front := s[..|s| - 1];
      assert forall i :: 0 <= i < |front| ==> s[i] == front[i];
      PlaceDivides(e, front);
    }
  }

  /** An insertion splits the list into what is not newer and what is. */
  lemma InsertSplits(e: Entry, s: seq<Entry>) returns (k: nat)
    requires Ordered(s)
    ensures k <= |s| && InsertLast(e, s) == s[..k] + [e] + s[k..]
    ensures forall i :: 0 <= i < k ==> s[i].version <= e.version
    ensures forall i :: k <= i < |s| ==> s[i].version > e.version
    ensures |s| - k == Above(s, e.version)
  {
    hide Ordered, Above, InsertLast, Place;
    k := Place(e, s);
    InsertIsAtPlace(e, s);
    PlaceDivides(e, s);
  }

  lemma {:induction false} NoneAbove(s: seq<Entry>, v: int)
    requires forall i :: 0 <= i < |s| ==> s[i].version <= v
    ensures Above(s, v) == 0
  {
    if s != [] {
      NoneAbove(s[..|s| - 1], v);
    }
  }

  lemma {:induction false} ByVersionOrders(s: seq<Entry>)
    ensures Ordered(ByVersion(s)) && |ByVersion(s)| == |s|
    ensures forall e :: e in ByVersion(s) <==> e in s
  {
    hide InsertLast;
    if s != [] {
      var n := |s| - 1;
      ByVersionOrders(s[..n]);
      InsertOrders(s[n], ByVersion(s[..n]));
      assert s == s[..n] + [s[n]];
    }
  }

  lemma InsertOrders(e: Entry, s: seq<Entry>)
    requires Ordered(s)
    ensures Ordered(InsertLast(e, s)) && |InsertLast(e, s)| == |s| + 1
    ensures forall x :: x in InsertLast(e, s) <==> x in s || x == e
  {
    hide InsertLast, Above;
    var k := InsertSplits(e, s);
    SplitMembers(s, e, k);
    SplitOrders(s, e, k);
  }

  lemma SplitMembers(s: seq<Entry>, e: Entry, k: nat)
    requires k <= |s|
    ensures forall x :: x in s[..k] + [e] + s[k..] <==> x in s || x == e
  {
    assert s == s[..k] + s[k..];
  }

  lemma SplitOrders(s: seq<Entry>, e: Entry, k: nat)
    requires Ordered(s) && k <= |s|
    requires forall i :: 0 <= i < k ==> s[i].version <= e.version
    requires forall i :: k <= i < |s| ==> s[i].version > e.version
    ensures Ordered(s[..k] + [e] + s[k..])
  {
    var t := s[..k] + [e] + s[k..];
    assert forall i :: 0 <= i < |t| ==> t[i] == if i < k then s[i] else if i == k then e else s[i - 1];
  }

  /** Sorting an ordered list leaves it as it is. */
  lemma {:induction false} OrderedStays(s: seq<Entry>)
    requires Ordered(s)
    ensures ByVersion(s) == s
  {
    hide InsertLast, Ordered;
    if s != [] {
      var n := |s| - 1;
      FrontIsOrdered(s);
      OrderedStays(s[..n]);
      LastStays(s[..n], s[n]);
      assert ByVersion(s) == s[..n] + [s[n]];
    }
  }

  lemma FrontIsOrdered(s: seq<Entry>)
    requires Ordered(s) && s != []
    ensures Ordered(s[..|s| - 1])
    ensures |s| > 1 ==> s[|s| - 2].version <= s[|s| - 1].version
  {
  }

  lemma LastStays(s: seq<Entry>, e: Entry)
    requires s != [] ==> s[|s| - 1].version <= e.version
    ensures InsertLast(e, s) == s + [e]
  {
  }

  // ---- Exactly which entries are loaded ----

  predicate DistinctAdapters(s: seq<Entry>) {
    forall i, j :: 0 <= i < j < |s| ==> s[i].adapter != s[j].adapter
  }

  /** How many entries of the same agent are newer: of a higher version, or listed later with the same. */
  function NewerThan(entries: seq<Entry>, i: int): nat
    requires 0 <= i < |entries|
  {
    var n, e := |entries| - 1, entries[i];
    if i == n then Above(GroupOf(entries[..n], e.agent), e.version)
    else NewerThan(entries[..n], i) + if entries[n].agent == e.agent && entries[n].version >= e.version then 1 else 0
  }

  lemma {:induction false} AboveOfSum(a: seq<Entry>, b: seq<Entry>, v: int)
    ensures Above(a + b, v) == Above(a, v) + Above(b, v)
  {
    if b == [] {
      assert a + b == a;
    } else {
      assert (a + b)[..|a + b| - 1] == a + b[..|b| - 1];
      AboveOfSum(a, b[..|b| - 1], v);
    }
  }

  lemma AboveOfOne(e: Entry, v: int)
    ensures Above([e], v) == if e.version > v then 1 else 0
  {
    assert [e][..0] == [];
  }

  lemma AboveOfInsert(s: seq<Entry>, e: Entry, k: nat, v: int)
    requires k <= |s|
    ensures Above(s[..k] + [e] + s[k..], v) == Above(s, v) + if e.version > v then 1 else 0
  {
    hide Above;
    AboveOfSum(s[..k] + [e], s[k..], v);
    AboveOfSum(s[..k], [e], v);
    AboveOfSum(s[..k], s[k..], v);
    AboveOfOne(e, v);
    assert s == s[..k] + s[k..];
  }

  lemma {:induction false} SortingKeepsAbove(s: seq<Entry>, v: int)
    ensures Above(ByVersion(s), v) == Above(s, v)
  {
    hide InsertLast, Place, Ordered;
    if s != [] {
      var n := |s| - 1;
      SortingKeepsAbove(s[..n], v);
      InsertIsAtPlace(s[n], ByVersion(s[..n]));
      AboveOfInsert(ByVersion(s[..n]), s[n], Place(s[n], ByVersion(s[..n])), v);
    }
  }

  function OrderedGroup(entries: seq<Entry>, agent: string): seq<Entry> {
    ByVersion(GroupOf(entries, agent))
  }

  lemma GroupGrows(entries: seq<Entry>, agent: string)
    requires entries != []
    ensures
      var n := |entries| - 1;
      OrderedGroup(entries, agent)
        == if entries[n].agent == agent then InsertLast(entries[n], OrderedGroup(entries[..n], agent)) else OrderedGroup(entries[..n], agent)
  {
    var n := |entries| - 1;
    var front := GroupOf(entries[..n], agent);
    if entries[n].agent == agent {
      assert GroupOf(entries, agent) == front + [entries[n]];
      assert (front + [entries[n]])[..|front|] == front;
    }
  }

  /** An insertion moves an earlier entry one from the end exactly if it is not older. */
  lemma InsertMoves(e: Entry, o: seq<Entry>, q: int) returns (p: int)
    requires Ordered(o) && 0 <= q < |o|
    ensures
      var t := InsertLast(e, o);
      && 0 <= p < |t| && t[p] == o[q]
      && |t| - p == |o| - q + if e.version >= o[q].version then 1 else 0
  {
    hide Above, InsertLast;
    var k := InsertSplits(e, o);
    p := if q < k then q else q + 1;
  }

  /** In the ordered group the entry has after it just the newer ones. */
  lemma {:induction false} RankIsTail(entries: seq<Entry>, i: int) returns (p: int)
    requires 0 <= i < |entries|
    ensures
      var o := OrderedGroup(entries, entries[i].agent);
      0 <= p < |o| && o[p] == entries[i] && |o| - 1 - p == NewerThan(entries, i)
  {
    hide ByVersion, GroupOf, Above, InsertLast, Ordered, OrderedGroup;
    var n, e := |entries| - 1, entries[i];
    var front := OrderedGroup(entries[..n], e.agent);
    GroupGrows(entries, e.agent);
    GroupIsOrdered(entries[..n], e.agent);
    if i == n {
      p := InsertSplits(e, front);
      GroupAbove(entries[..n], e.agent, e.version);
    } else {
      var q := RankIsTail(entries[..n], i);
      assert entries[..n][i] == e;
      p := q;
      if entries[n].agent == e.agent {
        p := InsertMoves(entries[n], front, q);
      }
    }
  }

  lemma GroupIsOrdered(entries: seq<Entry>, agent: string)
    ensures Ordered(OrderedGroup(entries, agent))
  {
    hide Ordered, ByVersion;
    ByVersionOrders(GroupOf(entries, agent));
  }

  lemma GroupAbove(entries: seq<Entry>, agent: string, v: int)
    ensures Above(OrderedGroup(entries, agent), v) == Above(GroupOf(entries, agent), v)
  {
    hide Above, ByVersion;
    SortingKeepsAbove(GroupOf(entries, agent), v);
  }

  lemma {:induction false} OrderedGroupIsDistinct(entries: seq<Entry>, agent: string)
    requires DistinctAdapters(entries)
    ensures DistinctAdapters(OrderedGroup(entries, agent))
    ensures forall e :: e in OrderedGroup(entries, agent) <==> e in entries && e.agent == agent
  {
    hide ByVersion, GroupOf;
    ByVersionOrders(GroupOf(entries, agent));
    GroupMembers(entries, agent);
    if entries == [] {
      NoGroup(agent);
    } else {
      var n := |entries| - 1;
      GroupGrows(entries, agent);
      assert forall i :: 0 <= i < n ==> entries[..n][i] == entries[i];
      OrderedGroupIsDistinct(entries[..n], agent);
      if entries[n].agent == agent {
        var front := OrderedGroup(entries[..n], agent);
        ByVersionOrders(GroupOf(entries[..n], agent));
        forall i | 0 <= i < |front| ensures front[i].adapter != entries[n].adapter {
          assert front[i] in front;
          var j :| 0 <= j < n && entries[..n][j] == front[i];
        }
        var k := InsertSplits(entries[n], front);
      }
    }
  }

  lemma NoGroup(agent: string)
    ensures OrderedGroup([], agent) == []
  {
  }

  lemma KeepsByRank(o: seq<Entry>, keep: int, p: int)
    requires DistinctAdapters(o) && 0 <= p < |o|
    ensures KeepsId(o, keep, o[p].adapter) <==> o[p].published || |o| - 1 - p < keep
  {
    var newest := Newest(o, keep);
    if keep > 0 {
      var m := MaxInt(0, |o| - keep);
      assert forall i :: 0 <= i < |newest| ==> newest[i] == o[m + i];
      if p >= m {
        assert newest[p - m] == o[p];
      }
      forall i | 0 <= i < |newest| && newest[i].adapter == o[p].adapter ensures p >= m {
        assert o[m + i].adapter == o[p].adapter;
      }
    }
    forall i | 0 <= i < |o| && o[i].published && o[i].adapter == o[p].adapter ensures i == p {
    }
  }

  lemma {:induction false} KeptOfAllMembers(entries: seq<Entry>, agents: seq<string>, keep: int)
    ensures forall e :: e in KeptOfAll(entries, agents, keep) <==> exists i :: 0 <= i < |agents| && e in KeptOf(entries, agents[i], keep)
  {
    hide KeptOf;
    if agents != [] {
      var n := |agents| - 1;
      KeptOfAllMembers(entries, agents[..n], keep);
      assert forall i :: 0 <= i < n ==> agents[..n][i] == agents[i];
    }
  }

  /** An available entry is loaded exactly when it is published or among the newest `keep` of its agent. */
  lemma SelectedExactly(entries: seq<Entry>, keep: int, i: int)
    requires DistinctAdapters(entries) && 0 <= i < |entries|
    ensures entries[i] in SelectLoaded(entries, keep) <==> entries[i].published || NewerThan(entries, i) < keep
    ensures forall e :: e in SelectLoaded(entries, keep) ==> e in entries
  {
    hide NewerThan, KeepsId, Agents, OrderedGroup, GroupOf, ByVersion, DistinctAdapters;
    var e := entries[i];
    var agents := Agents(entries);
    KeptOfAllMembers(entries, agents, keep);
    AgentsMembers(entries);
    forall a ensures forall x :: x in KeptOf(entries, a, keep) <==>
      x in entries && x.agent == a && KeepsId(OrderedGroup(entries, a), keep, x.adapter)
    {
      KeptMembers(entries, a, keep);
    }
    OrderedGroupIsDistinct(entries, e.agent);
    var p := RankIsTail(entries, i);
    KeepsByRank(OrderedGroup(entries, e.agent), keep, p);
    assert exists q :: 0 <= q < |entries| && entries[q].agent == e.agent;
    assert e.agent in agents;
    var a :| 0 <= a < |agents| && agents[a] == e.agent;
  }

  /** Whatever the entries, only available ones are loaded. */
  lemma SelectedAreAvailable(entries: seq<Entry>, keep: int)
    ensures forall e :: e in SelectLoaded(entries, keep) ==> e in entries
  {
    hide KeepsId, Agents, OrderedGroup, KeptOf;
    KeptOfAllMembers(entries, Agents(entries), keep);
    forall a ensures forall x :: x in KeptOf(entries, a, keep) ==> x in entries {
      KeptMembers(entries, a, keep);
    }
  }

  lemma KeptMembers(entries: seq<Entry>, a: string, keep: int)
    ensures forall x :: x in KeptOf(entries, a, keep) <==>
      x in entries && x.agent == a && KeepsId(OrderedGroup(entries, a), keep, x.adapter)
  {
    hide KeepsId, GroupOf, ByVersion;
    ByVersionOrders(GroupOf(entries, a));
    GroupMembers(entries, a);
  }
}
