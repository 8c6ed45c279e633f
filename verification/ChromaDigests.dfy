/**
 What verifying decides, told by digests: with every number of the metadata written in one
 kind, a destination verifies exactly if it feeds the hash the same as its source.
 */
module ChromaDigests {
  import opened Basics
  import opened ChromaRecords
  import opened ChromaMigration
  import opened ChromaRuns

  // ---- One kind of number ----

  function NormalValue(v: MetaValue): MetaValue {
    match v
    case Str(_) => v
    case Int(i) => Float(i as real)
    case Float(_) => v
    case Bool(b) => Float(if b then 1.0 else 0.0)
  }

  function NormalMeta(m: Option<Meta>): Option<Meta> {
    if m.None? then None else Some(map k | k in m.value :: NormalValue(m.value[k]))
  }

  /** The record with 1, 1.0 and True written alike in its metadata. */
  function Normal(r: Record): (n: Record)
    ensures Sound(r) <==> Sound(n)
  {
    r.(metadata := NormalMeta(r.metadata))
  }

  function AllNormal(rs: seq<Record>): (ns: seq<Record>)
    requires AllSound(rs)
    ensures AllSound(ns) && |ns| == |rs|
  {
    seq(|rs|, i requires 0 <= i < |rs| => Normal(rs[i]))
  }

  lemma MetaEqIsNormal(m: Option<Meta>, n: Option<Meta>)
    ensures MetaEq(m, n) <==> NormalMeta(m) == NormalMeta(n)
  {
    if m.Some? && n.Some? {
      var a, b := NormalMeta(m).value, NormalMeta(n).value;
      if a == b {
        forall k ensures k in m.value <==> k in n.value {
          assert k in a <==> k in b;
        }
        forall k | k in m.value ensures ValueEq(m.value[k], n.value[k]) {
          assert a[k] == b[k];
        }
      }
      if MetaEq(m, n) {
        forall k | k in a ensures a[k] == b[k] {
          assert ValueEq(m.value[k], n.value[k]);
        }
      }
    }
  }

  // ---- One record ----

  /** What is fed for a record is its id, document, metadata and rounded vector, each in full. */
  lemma FeedIsTheRecord(f32: F32, l: Record, r: Record)
    requires Sound(l) && Sound(r)
    ensures RecordFeed(f32, l) == RecordFeed(f32, r) <==>
      var v, w := l.embedding.value, r.embedding.value;
      && l.id == r.id && l.document == r.document && l.metadata == r.metadata
      && |v| == |w| && forall i :: 0 <= i < |v| ==> f32(v[i].value) == f32(w[i].value)
  {
    var v, w := l.embedding.value, r.embedding.value;
    var a, b := RecordFeed(f32, l), RecordFeed(f32, r);
    assert a[0] == IdText(l.id) && a[1] == DocumentText(l.document) && a[2] == MetaText(l.metadata);
    assert b[0] == IdText(r.id) && b[1] == DocumentText(r.document) && b[2] == MetaText(r.metadata);
    assert forall i :: 0 <= i < |v| ==> a[3 + i] == Packed(f32(v[i].value));
    assert forall i :: 0 <= i < |w| ==> b[3 + i] == Packed(f32(w[i].value));
    if a == b {
      forall i | 0 <= i < |v| ensures f32(v[i].value) == f32(w[i].value) {
        assert a[3 + i] == b[3 + i];
      }
    }
  }

  /** Two records verify as the same exactly if, numbers written alike, they feed the same. */
  lemma SameIsSameDigest(f32: F32, l: Record, r: Record)
    requires Sound(l) && Sound(r)
    ensures Same(f32, l, r) <==> RecordFeed(f32, Normal(l)) == RecordFeed(f32, Normal(r))
  {
    hide RecordFeed, MetaEq, NormalMeta;
    MetaEqIsNormal(l.metadata, r.metadata);
    FeedIsTheRecord(f32, Normal(l), Normal(r));
  }

  // ---- Lists of records ----

  lemma FeedStarts(f32: F32, rs: seq<Record>)
    requires AllSound(rs)
    ensures rs == [] <==> Feed(f32, rs) == []
    ensures rs != [] ==> |Feed(f32, rs)| >= 3 && Feed(f32, rs)[0] == IdText(rs[0].id)
  {
  }

  /** Only vector components come between a record's metadata and the next record's id. */
  lemma WhereARecordEnds(f32: F32, r: Record, rest: seq<Record>)
    requires Sound(r) && AllSound(rest)
    ensures var all, k := RecordFeed(f32, r) + Feed(f32, rest), |RecordFeed(f32, r)|;
            && 3 <= k <= |all| && (forall i :: 3 <= i < k ==> all[i].Packed?)
            && (k < |all| ==> all[k].IdText?)
  {
    hide Feed;
    FeedStarts(f32, rest);
  }

  lemma RecordsEndAlike(f32: F32, l: Record, r: Record, ls: seq<Record>, rs: seq<Record>)
    requires Sound(l) && Sound(r) && AllSound(ls) && AllSound(rs)
    requires RecordFeed(f32, l) + Feed(f32, ls) == RecordFeed(f32, r) + Feed(f32, rs)
    ensures |RecordFeed(f32, l)| == |RecordFeed(f32, r)|
  {
    hide Feed, RecordFeed;
    WhereARecordEnds(f32, l, ls);
    WhereARecordEnds(f32, r, rs);
  }

  /** The pieces fed for a list determine it record by record. */
  lemma {:induction false} FeedsDetermineRecords(f32: F32, ls: seq<Record>, rs: seq<Record>)
    requires AllSound(ls) && AllSound(rs)
    ensures Feed(f32, ls) == Feed(f32, rs) <==>
      |ls| == |rs| && forall i :: 0 <= i < |ls| ==> RecordFeed(f32, ls[i]) == RecordFeed(f32, rs[i])
  {
    hide RecordFeed;
    FeedStarts(f32, ls);
    FeedStarts(f32, rs);
    if ls != [] && rs != [] {
      var l, r := RecordFeed(f32, ls[0]), RecordFeed(f32, rs[0]);
      FeedsDetermineRecords(f32, ls[1..], rs[1..]);
      if Feed(f32, ls) == Feed(f32, rs) {
        RecordsEndAlike(f32, ls[0], rs[0], ls[1..], rs[1..]);
        AppendEq(l, r, Feed(f32, ls[1..]), Feed(f32, rs[1..]));
        forall i | 0 <= i < |ls| ensures RecordFeed(f32, ls[i]) == RecordFeed(f32, rs[i]) {
          if i > 0 {
            assert ls[1..][i - 1] == ls[i] && rs[1..][i - 1] == rs[i];
          }
        }
      }
      if |ls| == |rs| && forall i :: 0 <= i < |ls| ==> RecordFeed(f32, ls[i]) == RecordFeed(f32, rs[i]) {
        forall i | 0 <= i < |ls[1..]| ensures RecordFeed(f32, ls[1..][i]) == RecordFeed(f32, rs[1..][i]) {
          assert ls[1..][i] == ls[i + 1] && rs[1..][i] == rs[i + 1];
        }
      }
    }
  }

  lemma VerifiedIsSameDigest(f32: F32, ls: seq<Record>, rs: seq<Record>)
    requires AllSound(ls) && AllSound(rs)
    ensures Verified(f32, ls, rs) <==> Feed(f32, AllNormal(ls)) == Feed(f32, AllNormal(rs))
  {
    hide Same, RecordFeed, Feed, Sound, Normal;
    FeedsDetermineRecords(f32, AllNormal(ls), AllNormal(rs));
    forall i | 0 <= i < |ls| && i < |rs|
      ensures Same(f32, ls[i], rs[i]) <==> RecordFeed(f32, AllNormal(ls)[i]) == RecordFeed(f32, AllNormal(rs)[i])
    {
      SameIsSameDigest(f32, ls[i], rs[i]);
    }
  }

  // ---- Metrics ----

  /** The collection says `metric`, in one place or both, and nothing else. */
  predicate SaysMetric(c: Collection, metric: string) {
    && metric != ""
    && (c.legacy.GetOr("") in {"", metric}) && (c.configured.GetOr("") in {"", metric})
    && (c.legacy == Some(metric) || c.configured == Some(metric))
  }

  predicate SaysNothing(c: Collection) {
    c.legacy.GetOr("") == "" && c.configured.GetOr("") == ""
  }

  /** A source is copied at the metric it says, or at l2 if it says none, and at no other. */
  lemma MetricsExactly(c: Collection, metric: string)
    ensures Metric(c) == Ok(Some(metric)) <==> SaysMetric(c, metric)
    ensures SourceMetric(c) == Ok(metric) <==>
      metric in {"l2", "cosine", "ip"} && (SaysMetric(c, metric) || (SaysNothing(c) && metric == "l2"))
  {
  }

  // ---- One collection, and a whole store ----

  /** The destination collection is there, with its source's metadata, metric and digest. */
  ghost predicate SameDigest(f32: F32, name: string, c: Collection, store: Store) {
    && AllSound(c.rows) && name in store && AllSound(store[name].rows)
    && AllSound(SortById(c.rows)) && AllSound(SortById(store[name].rows))
    && c.legacy == store[name].legacy && NormalMeta(c.labels) == NormalMeta(store[name].labels)
    && (exists metric :: SourceMetric(c) == Ok(metric) && SaysMetric(store[name], metric))
    && Feed(f32, AllNormal(SortById(c.rows))) == Feed(f32, AllNormal(SortById(store[name].rows)))
  }

  lemma DoneExactlyWithSameDigest(f32: F32, name: string, c: Collection, store: Store)
    requires DistinctIds(c.rows) && (name in store ==> DistinctIds(store[name].rows))
    ensures Done(f32, name, c, store) <==> SameDigest(f32, name, c, store)
  {
    hide SubCopy, Feed, SortById, MetaEq, NormalMeta, AllNormal, AllSound, Metric, SourceMetric, SaysMetric, Verified, DistinctIds;
    if AllSound(c.rows) && name in store && AllSound(store[name].rows) {
      var d := store[name];
      MetaEqIsNormal(c.labels, d.labels);
      VerifyingDecidesMirroring(f32, c.rows, d.rows);
      VerifiedIsSameDigest(f32, SortById(c.rows), SortById(d.rows));
      if SourceMetric(c).Ok? {
        MetricsExactly(d, SourceMetric(c).value);
      }
    }
  }

  /**
   A store is complete, which is what verify-only tests and apply ends with, if and only if
   every source collection's canonical digest is that of its copy: nothing stale can pass.
   */
  lemma CompleteExactlyWithSameDigests(f32: F32, source: Source, store: Store)
    requires SourceOk(source) && ValidStore(store)
    ensures Complete(f32, source, store) <==>
      forall i :: 0 <= i < |source| ==> SameDigest(f32, source[i].0, source[i].1, store)
  {
    hide Done, SameDigest, DistinctIds;
    forall i | 0 <= i < |source|
      ensures Done(f32, source[i].0, source[i].1, store) <==> SameDigest(f32, source[i].0, source[i].1, store)
    {
      DoneExactlyWithSameDigest(f32, source[i].0, source[i].1, store);
    }
  }
}
