/**
 Copying every source collection to the destination, resumably.

 The process may be stopped before any write to the destination: `budget` is how many
 writes it lives to make.  `Stopped` then stands for the process being gone.
 */
module ChromaMigration {
  import opened Basics
  import opened ChromaRecords

  datatype Collection = Collection(
    legacy: Option<string>, labels: Option<Meta>, configured: Option<string>, rows: seq<Record>)

  const METRICS: set<string> := {"l2", "cosine", "ip"}

  type Store = map<string, Collection>

  /** The source: its collections in listing order. */
  type Source = seq<(string, Collection)>

  ghost predicate SourceOk(source: Source) {
    && (forall i, j :: 0 <= i < j < |source| ==> source[i].0 != source[j].0)
    && (forall i :: 0 <= i < |source| ==> DistinctIds(source[i].1.rows))
  }

  // ---- Metrics ----

  function Named(o: Option<string>): Option<string> {
    if o == Some("") then None else o
  }

  function Metric(c: Collection): Result<Option<string>, Error> {
    var legacy, configured := Named(c.legacy), Named(c.configured);
    if legacy.Some? && configured.Some? && legacy != configured then Err(MetricConflict)
    else Ok(if configured.Some? then configured else legacy)
  }

  function SourceMetric(c: Collection): Result<string, Error> {
    match Metric(c)
    case Err(e) => Err(e)
    case Ok(o) =>
      var metric := o.GetOr("l2");
      if metric in METRICS then Ok(metric) else Err(UnsupportedMetric)
  }

  predicate SameInfo(c: Collection, d: Collection) {
    c.legacy == d.legacy && MetaEq(c.labels, d.labels)
  }

  // ---- How a destination stands to its source ----

  /** Every row is the same as some source record: a sub-map of the source. */
  ghost predicate SubCopy(f32: F32, src: seq<Record>, rows: seq<Record>)
    requires AllSound(src) && AllSound(rows)
  {
    forall i :: 0 <= i < |rows| ==> HasTwin(f32, src, rows[i])
  }

  ghost predicate HasTwin(f32: F32, src: seq<Record>, row: Record)
    requires AllSound(src) && Sound(row)
  {
    exists j :: 0 <= j < |src| && Same(f32, src[j], row)
  }

  ghost predicate Copyable(c: Collection) {
    AllSound(c.rows) && SourceMetric(c).Ok?
  }

  ghost predicate Consistent(f32: F32, c: Collection, d: Collection)
    requires Copyable(c)
  {
    && AllSound(d.rows)
    && SameInfo(c, d)
    && Metric(d) == Ok(Some(SourceMetric(c).value))
    && SubCopy(f32, c.rows, d.rows)
  }

  ghost predicate Mirrors(f32: F32, c: Collection, d: Collection)
    requires Copyable(c)
  {
    Consistent(f32, c, d) && |c.rows| == |d.rows|
  }

  /** Nothing of `before` is changed; what is added comes from the source, rounded. */
  ghost predicate Grown(f32: F32, src: seq<Record>, before: seq<Record>, after: seq<Record>) {
    && before <= after
    && DistinctIds(after)
    && (forall i :: |before| <= i < |after| ==> CopyOf(f32, src, after[i]))
  }

  ghost predicate CopyOf(f32: F32, src: seq<Record>, row: Record) {
    exists j :: 0 <= j < |src| && Sound(src[j]) && row == Stored(f32, src[j])
  }

  function IdsOf(rs: seq<Record>): set<string> {
    set r | r in rs :: r.id
  }

  lemma {:induction false} IdsCount(rs: seq<Record>)
    requires DistinctIds(rs)
    ensures |IdsOf(rs)| == |rs|
    ensures forall id :: id in IdsOf(rs) <==> HasId(rs, id)
  {
    if rs == [] {
      assert IdsOf(rs) == {};
      assert forall id :: !HasId(rs, id);
    } else {
      var n := |rs| - 1;
      IdsCount(rs[..n]);
      assert rs == rs[..n] + [rs[n]];
      assert IdsOf(rs) == IdsOf(rs[..n]) + {rs[n].id};
      assert forall i :: 0 <= i < n ==> rs[..n][i].id != rs[n].id;
      assert !HasId(rs[..n], rs[n].id);
      IdsAreHad(rs);
    }
  }

  lemma IdsAreHad(rs: seq<Record>)
    ensures forall id :: id in IdsOf(rs) <==> HasId(rs, id)
  {
    forall id ensures id in IdsOf(rs) <==> HasId(rs, id) {
      if id in IdsOf(rs) {
        var r :| r in rs && r.id == id;
      }
      if HasId(rs, id) {
        var i :| 0 <= i < |rs| && rs[i].id == id;
        assert rs[i] in rs;
      }
    }
  }

  lemma SubCopyIds(f32: F32, src: seq<Record>, rows: seq<Record>)
    requires AllSound(src) && AllSound(rows) && DistinctIds(src) && DistinctIds(rows)
    requires SubCopy(f32, src, rows)
    ensures IdsOf(rows) <= IdsOf(src)
    ensures |rows| == |src| <==> IdsOf(rows) == IdsOf(src)
  {
    IdsCount(src);
    IdsCount(rows);
    forall id | id in IdsOf(rows) ensures id in IdsOf(src) {
      var i :| 0 <= i < |rows| && rows[i].id == id;
      assert HasTwin(f32, src, rows[i]);
    }
    assert IdsOf(src) == IdsOf(rows) + (IdsOf(src) - IdsOf(rows));
    assert |IdsOf(src)| == |IdsOf(rows)| + |IdsOf(src) - IdsOf(rows)|;
  }

  predicate Verified(f32: F32, a: seq<Record>, b: seq<Record>)
    requires AllSound(a) && AllSound(b)
  {
    |a| == |b| && forall i :: 0 <= i < |a| ==> Same(f32, a[i], b[i])
  }

  lemma SortedFacts(rs: seq<Record>)
    requires DistinctIds(rs) && AllSound(rs)
    ensures var s := SortById(rs);
            && Increasing(s) && AllSound(s) && |s| == |rs|
            && (forall r :: r in s <==> r in rs)
            && (forall id :: HasId(s, id) <==> id in IdsOf(rs))
  {
    SortIsIncreasing(rs);
    SortMembers(rs);
    IdsCount(rs);
    var s := SortById(rs);
    forall i | 0 <= i < |s| ensures Sound(s[i]) {
      assert s[i] in rs;
    }
    forall id ensures HasId(s, id) <==> id in IdsOf(rs) {
      if HasId(s, id) {
        var i :| 0 <= i < |s| && s[i].id == id;
        assert s[i] in rs;
      }
      if id in IdsOf(rs) {
        var r :| r in rs && r.id == id;
        assert r in s;
      }
    }
  }

  /** Comparing the two sorted listings decides whether one collection mirrors the other. */
  lemma VerifyingDecidesMirroring(f32: F32, src: seq<Record>, rows: seq<Record>)
    requires AllSound(src) && AllSound(rows) && DistinctIds(src) && DistinctIds(rows)
    ensures AllSound(SortById(src)) && AllSound(SortById(rows))
    ensures Verified(f32, SortById(src), SortById(rows))
       <==> SubCopy(f32, src, rows) && |src| == |rows|
  {
    hide SortById, Same, Sound, Increasing, IdsOf, HasId, DistinctIds;
    SortedFacts(src);
    SortedFacts(rows);
    var a, b := SortById(src), SortById(rows);
    if Verified(f32, a, b) {
      forall i | 0 <= i < |rows| ensures HasTwin(f32, src, rows[i]) {
        assert rows[i] in b;
        var k :| 0 <= k < |b| && b[k] == rows[i];
        assert a[k] in src;
        assert Same(f32, a[k], rows[i]);
      }
    }
    if SubCopy(f32, src, rows) && |src| == |rows| {
      MirrorsVerify(f32, src, rows);
    }
  }

  lemma MirrorsVerify(f32: F32, src: seq<Record>, rows: seq<Record>)
    requires AllSound(src) && AllSound(rows) && DistinctIds(src) && DistinctIds(rows)
    requires SubCopy(f32, src, rows) && |src| == |rows|
    ensures AllSound(SortById(src)) && AllSound(SortById(rows))
    ensures Verified(f32, SortById(src), SortById(rows))
  {
    SortedFacts(src);
    SortedFacts(rows);
    SubCopyIds(f32, src, rows);
    var a, b := SortById(src), SortById(rows);
    IncreasingListsPairUp(a, b);
    forall i | 0 <= i < |a| ensures Same(f32, a[i], b[i]) {
      assert a[i] in src && b[i] in rows;
      var p :| 0 <= p < |rows| && rows[p] == b[i];
      assert HasTwin(f32, src, rows[p]);
      var j :| 0 <= j < |src| && Same(f32, src[j], rows[p]);
      var k :| 0 <= k < |src| && src[k] == a[i];
      assert src[j].id == src[k].id;
    }
  }

  // ---- Grouping a batch by which optional fields are present ----

  type Shape = (bool, bool)

  function ShapeOf(r: Record): Shape {
    (r.document.Some?, r.metadata.Some?)
  }

  function OfShape(rs: seq<Record>, s: Shape): seq<Record> {
    if rs == [] then []
    else OfShape(rs[..|rs| - 1], s) + (if ShapeOf(rs[|rs| - 1]) == s then [rs[|rs| - 1]] else [])
  }

  lemma {:induction false} OfShapeMembers(rs: seq<Record>, s: Shape)
    ensures forall r :: r in OfShape(rs, s) <==> r in rs && ShapeOf(r) == s
    ensures DistinctIds(rs) ==> DistinctIds(OfShape(rs, s))
  {
    if rs != [] {
      var n := |rs| - 1;
      assert rs == rs[..n] + [rs[n]];
      OfShapeMembers(rs[..n], s);
      if DistinctIds(rs) {
        var kept := OfShape(rs[..n], s);
        forall i | 0 <= i < |kept| ensures kept[i].id != rs[n].id {
          assert kept[i] in rs[..n];
        }
      }
    }
  }

  lemma NothingOfShape()
    ensures forall s :: OfShape([], s) == []
  {
  }

  lemma OneMoreOfShape(rs: seq<Record>, k: nat)
    requires k < |rs|
    ensures forall s :: OfShape(rs[..k + 1], s) == OfShape(rs[..k], s) + (if ShapeOf(rs[k]) == s then [rs[k]] else [])
    ensures rs[..k + 1] == rs[..k] + [rs[k]]
  {
    assert rs[..k + 1][..k] == rs[..k];
  }

  method GroupByShape(records: seq<Record>) returns (order: seq<Shape>, groups: map<Shape, seq<Record>>)
    ensures forall i, j :: 0 <= i < j < |order| ==> order[i] != order[j]
    ensures forall s :: s in groups <==> s in order
    ensures forall s :: s in groups ==> groups[s] == OfShape(records, s)
    ensures forall r :: r in records ==> ShapeOf(r) in order
  {
    hide OfShape;
    order, groups := [], map[];
    NothingOfShape();
    assert records[..0] == [];
    for k := 0 to |records|
      invariant forall i, j :: 0 <= i < j < |order| ==> order[i] != order[j]
      invariant forall s :: s in groups <==> s in order
      invariant forall s :: s in groups ==> groups[s] == OfShape(records[..k], s)
      invariant forall s :: s !in groups ==> OfShape(records[..k], s) == []
      invariant forall r :: r in records[..k] ==> ShapeOf(r) in order
    {
      var record := records[k];
      var key := ShapeOf(record);
      OneMoreOfShape(records, k);
      if key !in groups {
        order := order + [key];
        groups := groups[key := []];
      }
      groups := groups[key := groups[key] + [record]];
    }
    assert records[..|records|] == records;
  }

  function StoredAll(f32: F32, rs: seq<Record>): (s: seq<Record>)
    requires AllSound(rs)
    ensures |s| == |rs| && forall i :: 0 <= i < |rs| ==> s[i] == Stored(f32, rs[i])
  {
    seq(|rs|, i requires 0 <= i < |rs| => Stored(f32, rs[i]))
  }

  /** The rows the server makes of one `add` call; a field that is omitted is absent. */
  function NewRows(f32: F32, ids: seq<string>, embeddings: seq<seq<Component>>,
                   documents: Option<seq<string>>, metadatas: Option<seq<Meta>>): (rows: seq<Record>)
    requires |embeddings| == |ids| && forall i :: 0 <= i < |ids| ==> Clean(embeddings[i])
    requires documents.Some? ==> |documents.value| == |ids|
    requires metadatas.Some? ==> |metadatas.value| == |ids|
  {
    seq(|ids|, i requires 0 <= i < |ids| =>
      Record(ids[i],
             if documents.Some? then Some(documents.value[i]) else None,
             if metadatas.Some? then Some(metadatas.value[i]) else None,
             Some(Rounded(f32, embeddings[i]))))
  }

  lemma AppendingGrows(f32: F32, src: seq<Record>, before: seq<Record>, rows: seq<Record>, group: seq<Record>)
    requires Grown(f32, src, before, rows) && AllSound(group) && DistinctIds(group)
    requires forall r :: r in group ==> r in src && !HasId(rows, r.id)
    ensures Grown(f32, src, before, rows + StoredAll(f32, group))
    ensures forall id :: HasId(rows + StoredAll(f32, group), id) <==> HasId(rows, id) || HasId(group, id)
  {
    var more := StoredAll(f32, group);
    var after := rows + more;
    assert forall i :: 0 <= i < |rows| ==> HasId(rows, rows[i].id);
    forall i | |before| <= i < |after| ensures CopyOf(f32, src, after[i]) {
      if i >= |rows| {
        assert group[i - |rows|] in src;
      }
    }
    forall id ensures HasId(after, id) <==> HasId(rows, id) || HasId(group, id) {
      if HasId(rows, id) {
        var i :| 0 <= i < |rows| && rows[i].id == id;
        assert after[i].id == id;
      }
      if HasId(group, id) {
        var i :| 0 <= i < |group| && group[i].id == id;
        assert after[|rows| + i].id == id;
      }
    }
  }

  lemma GrownTransitive(f32: F32, src: seq<Record>, a: seq<Record>, b: seq<Record>, c: seq<Record>)
    requires Grown(f32, src, a, b) && Grown(f32, src, b, c)
    ensures Grown(f32, src, a, c)
  {
    forall i | |a| <= i < |c| ensures CopyOf(f32, src, c[i]) {
      if i < |b| {
        assert c[i] == b[i];
      }
    }
  }

  lemma GrownStaysSound(f32: F32, src: seq<Record>, before: seq<Record>, after: seq<Record>)
    requires Grown(f32, src, before, after) && AllSound(src) && AllSound(before)
    ensures AllSound(after)
  {
    forall i | 0 <= i < |after| ensures Sound(after[i]) {
      if i < |before| {
        assert after[i] == before[i];
      } else {
        assert CopyOf(f32, src, after[i]);
      }
    }
  }

  /** Adding rounded source records to a sub-map of the source leaves a sub-map. */
  lemma GrownStaysSubCopy(f32: F32, src: seq<Record>, before: seq<Record>, after: seq<Record>)
    requires Idempotent(f32) && AllSound(src) && AllSound(before)
    requires Grown(f32, src, before, after) && SubCopy(f32, src, before)
    ensures AllSound(after) && SubCopy(f32, src, after)
  {
    GrownStaysSound(f32, src, before, after);
    forall i | 0 <= i < |after| ensures HasTwin(f32, src, after[i]) {
      if i < |before| {
        assert after[i] == before[i];
        assert HasTwin(f32, src, before[i]);
      } else {
        assert CopyOf(f32, src, after[i]);
        var j :| 0 <= j < |src| && Sound(src[j]) && after[i] == Stored(f32, src[j]);
        StoredIsSame(f32, src[j]);
        assert Same(f32, src[j], after[i]);
      }
    }
  }

  // ---- The destination client ----

  class Destination {
    const f32: F32
    var store: Store
    var budget: Option<nat>

    ghost predicate Valid()
      reads this
    {
      forall n :: n in store ==> DistinctIds(store[n].rows)
    }

    constructor (f32: F32, store: Store, budget: Option<nat>)
      requires forall n :: n in store ==> DistinctIds(store[n].rows)
      ensures Valid() && this.f32 == f32 && this.store == store && this.budget == budget
    {
      this.f32, this.store, this.budget := f32, store, budget;
    }

    /** One more write, if the process is still there to make it. */
    method Spend() returns (alive: bool)
      modifies this`budget
      ensures old(budget).None? ==> alive && budget.None?
      ensures old(budget).Some? ==> budget == Some(if alive then old(budget).value - 1 else 0)
      ensures alive <==> old(budget) != Some(0)
    {
      alive := true;
      if budget.Some? {
        alive := budget.value > 0;
        budget := Some(if alive then budget.value - 1 else 0);
      }
    }

    method CreateCollection(name: string, legacy: Option<string>, labels: Option<Meta>, space: string)
      returns (alive: bool)
      requires Valid() && name !in store
      modifies this
      ensures Valid()
      ensures old(budget).None? ==> alive && budget.None?
      ensures store == if alive then old(store)[name := Collection(legacy, labels, Some(space), [])] else old(store)
    {
      alive := Spend();
      if alive {
        store := store[name := Collection(legacy, labels, Some(space), [])];
      }
    }

    method Add(name: string, ids: seq<string>, embeddings: seq<seq<Component>>,
               documents: Option<seq<string>>, metadatas: Option<seq<Meta>>)
      returns (alive: bool)
      requires name in store
      requires |embeddings| == |ids| && forall i :: 0 <= i < |ids| ==> Clean(embeddings[i])
      requires documents.Some? ==> |documents.value| == |ids|
      requires metadatas.Some? ==> |metadatas.value| == |ids|
      modifies this
      ensures old(budget).None? ==> alive && budget.None?
      ensures !alive ==> store == old(store)
      ensures alive ==>
        var c := old(store)[name];
        store == old(store)[name := c.(rows := c.rows + NewRows(f32, ids, embeddings, documents, metadatas))]
    {
      alive := Spend();
      if alive {
        var c := store[name];
        store := store[name := c.(rows := c.rows + NewRows(f32, ids, embeddings, documents, metadatas))];
      }
    }

    /** One `add` call for records that all have the same optional fields. */
    method AddGroup(name: string, group: seq<Record>, shape: Shape, ghost src: seq<Record>, ghost before: seq<Record>)
      returns (alive: bool)
      requires Valid() && name in store && AllSound(group) && DistinctIds(group)
      requires forall r :: r in group ==> ShapeOf(r) == shape && r in src && !HasId(store[name].rows, r.id)
      requires Grown(f32, src, before, store[name].rows)
      modifies this
      ensures old(budget).None? ==> alive && budget.None?
      ensures !alive ==> store == old(store)
      ensures alive ==>
        var c := old(store)[name];
        store == old(store)[name := c.(rows := c.rows + StoredAll(f32, group))]
      ensures Valid() && Grown(f32, src, before, store[name].rows)
      ensures alive ==> forall id :: HasId(store[name].rows, id) <==> HasId(old(store)[name].rows, id) || HasId(group, id)
    {
      var n := |group|;
      assert forall i :: 0 <= i < n ==> group[i] in group;
      var ids := seq(n, i requires 0 <= i < n => group[i].id);
      var embeddings := seq(n, i requires 0 <= i < n && Sound(group[i]) => group[i].embedding.value);
      var documents := if shape.0 then Some(seq(n, i requires 0 <= i < n && group[i].document.Some? => group[i].document.value)) else None;
      var metadatas := if shape.1 then Some(seq(n, i requires 0 <= i < n && group[i].metadata.Some? => group[i].metadata.value)) else None;
      assert NewRows(f32, ids, embeddings, documents, metadatas) == StoredAll(f32, group);
      AppendingGrows(f32, src, before, store[name].rows, group);
      alive := Add(name, ids, embeddings, documents, metadatas);
    }

    /** Adds one batch, one call per group; may be stopped between any two calls. */
    method AddRecords(name: string, records: seq<Record>, ghost src: seq<Record>, ghost before: seq<Record>)
      returns (alive: bool)
      requires Valid() && name in store && AllSound(records) && DistinctIds(records)
      requires forall r :: r in records ==> r in src && !HasId(store[name].rows, r.id)
      requires Grown(f32, src, before, store[name].rows)
      modifies this
      ensures old(budget).None? ==> alive && budget.None?
      ensures Valid() && name in store && Grown(f32, src, before, store[name].rows)
      ensures store == old(store)[name := old(store)[name].(rows := store[name].rows)]
      ensures alive ==> forall id :: HasId(store[name].rows, id) <==> HasId(old(store)[name].rows, id) || HasId(records, id)
    {
      var order, groups := GroupByShape(records);
      ghost var start := store[name].rows;
      alive := true;
      for k := 0 to |order|
        invariant old(budget).None? ==> budget.None?
        invariant Valid() && name in store && Grown(f32, src, before, store[name].rows)
        invariant store == old(store)[name := old(store)[name].(rows := store[name].rows)]
        invariant forall id :: HasId(store[name].rows, id) <==> HasId(start, id) || Placed(records, order[..k], id)
      {
        var shape := order[k];
        assert shape in groups;
        OfShapeMembers(records, shape);
        var group := groups[shape];
        forall r: Record | r in group ensures !HasId(store[name].rows, r.id) {
          NotPlacedYet(records, order, k, r);
        }
        assert AllSound(group) by {
          assert forall i :: 0 <= i < |group| ==> group[i] in records;
        }
        alive := AddGroup(name, group, shape, src, before);
        if !alive {
          return;
        }
        PlacedGrows(records, order, k);
      }
      AllPlaced(records, order);
    }

    /** Adds everything missing, `batchSize` records at a time. */
    method CopyMissing(name: string, missing: seq<Record>, batchSize: int, ghost src: seq<Record>)
      returns (alive: bool)
      requires Valid() && name in store && AllSound(missing) && DistinctIds(missing) && batchSize >= 1
      requires forall r :: r in missing ==> r in src && !HasId(store[name].rows, r.id)
      modifies this
      ensures old(budget).None? ==> alive && budget.None?
      ensures Valid() && name in store && Grown(f32, src, old(store)[name].rows, store[name].rows)
      ensures store == old(store)[name := old(store)[name].(rows := store[name].rows)]
      ensures alive ==> forall id :: HasId(store[name].rows, id) <==> HasId(old(store)[name].rows, id) || HasId(missing, id)
      ensures missing == [] ==> alive && store == old(store)
    {
      ghost var before := store[name].rows;
      var start := 0;
      assert HasNone(missing[..0]);
      while start < |missing|
        invariant 0 <= start <= |missing|
        invariant old(budget).None? ==> budget.None?
        invariant Valid() && name in store && Grown(f32, src, before, store[name].rows)
        invariant store == old(store)[name := old(store)[name].(rows := store[name].rows)]
        invariant forall id :: HasId(store[name].rows, id) <==> HasId(before, id) || HasId(missing[..start], id)
        invariant start == 0 ==> store == old(store)
      {
        var end := MinInt(start + batchSize, |missing|);
        var records := missing[start..end];
        forall r: Record | r in records ensures r in src && !HasId(store[name].rows, r.id) {
          var i :| 0 <= i < |records| && records[i] == r;
          assert r == missing[start + i];
          assert forall j :: 0 <= j < start ==> missing[..start][j].id != missing[start + i].id;
        }
        alive := AddRecords(name, records, src, before);
        if !alive {
          return;
        }
        SplitIds(missing, start, end);
        start := end;
      }
      assert missing[..start] == missing;
      alive := true;
    }
  }

  ghost predicate HasNone(rs: seq<Record>) {
    forall id :: !HasId(rs, id)
  }

  lemma SplitIds(rs: seq<Record>, a: nat, b: nat)
    requires a <= b <= |rs|
    ensures forall id :: HasId(rs[..b], id) <==> HasId(rs[..a], id) || HasId(rs[a..b], id)
  {
    forall id ensures HasId(rs[..b], id) <==> HasId(rs[..a], id) || HasId(rs[a..b], id) {
      if HasId(rs[..b], id) {
        var i :| 0 <= i < b && rs[..b][i].id == id;
        if i < a {
          assert rs[..a][i].id == id;
        } else {
          assert rs[a..b][i - a].id == id;
        }
      }
      if HasId(rs[..a], id) {
        var i :| 0 <= i < a && rs[..a][i].id == id;
        assert rs[..b][i].id == id;
      }
      if HasId(rs[a..b], id) {
        var i :| 0 <= i < b - a && rs[a..b][i].id == id;
        assert rs[..b][a + i].id == id;
      }
    }
  }

  /** Some record of a shape already handled has this id. */
  ghost predicate Placed(records: seq<Record>, done: seq<Shape>, id: string) {
    exists r :: r in records && r.id == id && ShapeOf(r) in done
  }

  lemma NotPlacedYet(records: seq<Record>, order: seq<Shape>, k: nat, r: Record)
    requires DistinctIds(records) && k < |order| && r in records && ShapeOf(r) == order[k]
    requires forall i, j :: 0 <= i < j < |order| ==> order[i] != order[j]
    ensures !Placed(records, order[..k], r.id)
  {
    assert order[k] !in order[..k];
    var j :| 0 <= j < |records| && records[j] == r;
    forall q | q in records && q.id == r.id ensures q == r {
      var i :| 0 <= i < |records| && records[i] == q;
    }
  }

  lemma PlacedGrows(records: seq<Record>, order: seq<Shape>, k: nat)
    requires k < |order|
    ensures forall id :: Placed(records, order[..k + 1], id)
                    <==> Placed(records, order[..k], id) || HasId(OfShape(records, order[k]), id)
  {
    OfShapeMembers(records, order[k]);
    assert order[..k + 1] == order[..k] + [order[k]];
    forall id ensures Placed(records, order[..k + 1], id)
                 <==> Placed(records, order[..k], id) || HasId(OfShape(records, order[k]), id)
    {
      var group := OfShape(records, order[k]);
      if Placed(records, order[..k + 1], id) && !Placed(records, order[..k], id) {
        var r :| r in records && r.id == id && ShapeOf(r) in order[..k + 1];
        assert r in group;
      }
      if HasId(group, id) {
        var i :| 0 <= i < |group| && group[i].id == id;
        assert group[i] in records;
      }
    }
  }

  lemma AllPlaced(records: seq<Record>, order: seq<Shape>)
    requires forall r :: r in records ==> ShapeOf(r) in order
    ensures forall id :: Placed(records, order[..|order|], id) <==> HasId(records, id)
  {
    assert order[..|order|] == order;
    forall id ensures Placed(records, order, id) <==> HasId(records, id) {
      if HasId(records, id) {
        var i :| 0 <= i < |records| && records[i].id == id;
        assert records[i] in records;
      }
    }
  }
}
