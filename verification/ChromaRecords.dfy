/**
 Stored vector records: how they are listed, compared, rounded and digested.

 `F32` is the rounding to single precision; the only thing assumed of it, where it
 matters, is that rounding twice is rounding once.
 */
module ChromaRecords {
  import opened Basics
  import opened Texts

  datatype Error =
    | InvalidBatchSize
    | MissingVector
    | InvalidVector
    | OperationFailed
    | MetricConflict
    | UnsupportedMetric
    | MetadataMismatch
    | MetricMismatch
    | DestinationMismatch
    | VerificationFailed
    | Stopped

  /** A vector component as Python holds it; `TooLarge` overflows single precision. */
  datatype Component = NonFinite | TooLarge | Finite(value: real)

  type F32 = real -> real

  ghost predicate Idempotent(f32: F32) {
    forall x :: f32(f32(x)) == f32(x)
  }

  datatype MetaValue = Str(s: string) | Int(i: int) | Float(r: real) | Bool(b: bool)

  type Meta = map<string, MetaValue>

  datatype Record = Record(id: string, document: Option<string>, metadata: Option<Meta>,
                           embedding: Option<seq<Component>>)

  // ---- Equality as Python sees it ----

  function Number(v: MetaValue): real
    requires !v.Str?
  {
    match v
    case Int(i) => i as real
    case Float(r) => r
    case Bool(b) => if b then 1.0 else 0.0
  }

  /** Python's `==`: 1, 1.0 and True are equal. */
  predicate ValueEq(v: MetaValue, w: MetaValue) {
    if v.Str? || w.Str? then v == w else Number(v) == Number(w)
  }

  predicate MetaEq(m: Option<Meta>, n: Option<Meta>) {
    match (m, n)
    case (None, None) => true
    case (Some(a), Some(b)) => a.Keys == b.Keys && forall k :: k in a.Keys ==> ValueEq(a[k], b[k])
    case _ => false
  }

  predicate Clean(v: seq<Component>) {
    forall i :: 0 <= i < |v| ==> v[i].Finite?
  }

  predicate VectorEq(f32: F32, v: seq<Component>, w: seq<Component>)
    requires Clean(v) && Clean(w)
  {
    |v| == |w| && forall i :: 0 <= i < |v| ==> f32(v[i].value) == f32(w[i].value)
  }

  /** A record `_records` lets through: it has a vector, and every component packs. */
  predicate Sound(r: Record) {
    r.embedding.Some? && Clean(r.embedding.value)
  }

  predicate AllSound(rs: seq<Record>) {
    forall i :: 0 <= i < |rs| ==> Sound(rs[i])
  }

  predicate Same(f32: F32, l: Record, r: Record)
    requires Sound(l) && Sound(r)
  {
    && l.id == r.id
    && l.document == r.document
    && MetaEq(l.metadata, r.metadata)
    && VectorEq(f32, l.embedding.value, r.embedding.value)
  }

  // ---- Order of ids ----

  ghost predicate Increasing(rs: seq<Record>) {
    forall i, j :: 0 <= i < j < |rs| ==> Less(rs[i].id, rs[j].id)
  }

  ghost predicate DistinctIds(rs: seq<Record>) {
    forall i, j :: 0 <= i < j < |rs| ==> rs[i].id != rs[j].id
  }

  predicate HasId(rs: seq<Record>, id: string) {
    exists i :: 0 <= i < |rs| && rs[i].id == id
  }

  // ---- Listing a collection ----

  function Insert(r: Record, rs: seq<Record>): (s: seq<Record>)
    ensures multiset(s) == multiset(rs) + multiset{r}
  {
    if rs == [] || Less(r.id, rs[0].id) then [r] + rs
    else
      assert rs == [rs[0]] + rs[1..];
      [rs[0]] + Insert(r, rs[1..])
  }

  function SortById(rs: seq<Record>): (s: seq<Record>)
    ensures multiset(s) == multiset(rs)
  {
    if rs == [] then []
    else
      assert rs == rs[..|rs| - 1] + [rs[|rs| - 1]];
      Insert(rs[|rs| - 1], SortById(rs[..|rs| - 1]))
  }

  lemma {:induction false} InsertKeepsIncreasing(r: Record, rs: seq<Record>)
    requires Increasing(rs) && forall i :: 0 <= i < |rs| ==> rs[i].id != r.id
    ensures Increasing(Insert(r, rs))
  {
    if rs != [] && Less(r.id, rs[0].id) {
      forall i | 0 < i < |rs| ensures Less(r.id, rs[i].id) {
        LessIsTransitive(r.id, rs[0].id, rs[i].id);
      }
    } else if rs != [] {
      LessIsTotal(r.id, rs[0].id);
      var rest := Insert(r, rs[1..]);
      InsertKeepsIncreasing(r, rs[1..]);
      forall i | 0 <= i < |rest| ensures Less(rs[0].id, rest[i].id) {
        assert rest[i] in multiset(rest);
        assert rest[i] in rs[1..] || rest[i] == r;
        if rest[i] in rs[1..] {
          var j :| 0 <= j < |rs[1..]| && rs[1..][j] == rest[i];
        }
      }
    }
  }

  lemma SortMembers(rs: seq<Record>)
    ensures forall r :: r in SortById(rs) <==> r in rs
    ensures |SortById(rs)| == |rs|
  {
    forall r ensures r in SortById(rs) <==> r in rs {
      assert r in multiset(SortById(rs)) <==> r in multiset(rs);
    }
    assert |multiset(SortById(rs))| == |multiset(rs)|;
  }

  lemma {:induction false} SortIsIncreasing(rs: seq<Record>)
    requires DistinctIds(rs)
    ensures Increasing(SortById(rs))
  {
    if rs != [] {
      var n := |rs| - 1;
      SortIsIncreasing(rs[..n]);
      var s := SortById(rs[..n]);
      SortMembers(rs[..n]);
      forall i | 0 <= i < |s| ensures s[i].id != rs[n].id {
        assert s[i] in rs[..n];
      }
      InsertKeepsIncreasing(rs[n], s);
    }
  }

  /** The complaint about the first record that cannot be packed, if there is one. */
  function Complaint(rs: seq<Record>): (e: Option<Error>)
    ensures e.None? <==> AllSound(rs)
  {
    if rs == [] then None
    else
      assert forall i :: 1 <= i < |rs| ==> rs[i] == rs[1..][i - 1];
      if rs[0].embedding.None? then Some(MissingVector)
      else
        match VectorComplaint(rs[0].embedding.value)
        case Some(e) => Some(e)
        case None => Complaint(rs[1..])
  }

  function VectorComplaint(v: seq<Component>): (e: Option<Error>)
    ensures e.None? <==> Clean(v)
  {
    if v == [] then None
    else if v[0].NonFinite? then Some(InvalidVector)
    else if v[0].TooLarge? then Some(OperationFailed)
    else
      assert forall i :: 1 <= i < |v| ==> v[i] == v[1..][i - 1];
      VectorComplaint(v[1..])
  }

  function Listing(rows: seq<Record>): Result<seq<Record>, Error> {
    match Complaint(rows)
    case Some(e) => Err(e)
    case None => Ok(SortById(rows))
  }

  /** Reads a collection page by page, checks every vector, and sorts by id. */
  method Records(rows: seq<Record>, batchSize: int) returns (r: Result<seq<Record>, Error>)
    requires batchSize >= 1
    ensures r == Listing(rows)
  {
    var result: seq<Record>, offset := [], 0;
    while true
      invariant 0 <= offset <= |rows| && result == rows[..offset]
      decreases |rows| - offset
    {
      var batch := rows[offset..MinInt(offset + batchSize, |rows|)];
      if batch == [] {
        break;
      }
      result := result + batch;
      offset := offset + |batch|;
    }
    assert result == rows;
    return match Complaint(result) case Some(e) => Err(e) case None => Ok(SortById(result));
  }

  /** Two increasing lists over the same ids pair up, position by position. */
  lemma {:induction false} IncreasingListsPairUp(a: seq<Record>, b: seq<Record>)
    requires Increasing(a) && Increasing(b)
    requires forall id :: HasId(a, id) <==> HasId(b, id)
    ensures |a| == |b| && forall i :: 0 <= i < |a| ==> a[i].id == b[i].id
  {
    if a == [] {
      if b != [] {
        assert HasId(b, b[0].id);
      }
    } else {
      assert HasId(a, a[0].id);
      assert HasId(b, a[0].id);
      var k :| 0 <= k < |b| && b[k].id == a[0].id;
      assert HasId(b, b[0].id);
      var m :| 0 <= m < |a| && a[m].id == b[0].id;
      HeadsAgree(a, b, k, m);
      forall id ensures HasId(a[1..], id) <==> HasId(b[1..], id) {
        TailHasId(a, id);
        TailHasId(b, id);
      }
      IncreasingListsPairUp(a[1..], b[1..]);
    }
  }

  lemma HeadsAgree(a: seq<Record>, b: seq<Record>, k: nat, m: nat)
    requires Increasing(a) && Increasing(b) && k < |b| && m < |a|
    requires b[k].id == a[0].id && a[m].id == b[0].id
    ensures a[0].id == b[0].id
  {
    LessIsTotal(a[0].id, b[0].id);
  }

  lemma TailHasId(a: seq<Record>, id: string)
    requires Increasing(a) && a != []
    ensures HasId(a[1..], id) <==> HasId(a, id) && id != a[0].id
  {
    if HasId(a[1..], id) {
      var i :| 0 <= i < |a[1..]| && a[1..][i].id == id;
      assert a[i + 1].id == id;
      LessIsTotal(a[0].id, a[i + 1].id);
    }
    if HasId(a, id) && id != a[0].id {
      var i :| 0 <= i < |a| && a[i].id == id;
      assert a[1..][i - 1].id == id;
    }
  }

  // ---- What the destination keeps of a record ----

  function Rounded(f32: F32, v: seq<Component>): (w: seq<Component>)
    requires Clean(v)
    ensures Clean(w) && |w| == |v|
    ensures forall i :: 0 <= i < |v| ==> w[i] == Finite(f32(v[i].value))
  {
    seq(|v|, i requires 0 <= i < |v| => Finite(f32(v[i].value)))
  }

  function Stored(f32: F32, r: Record): (s: Record)
    requires Sound(r)
    ensures Sound(s) && s.id == r.id
  {
    r.(embedding := Some(Rounded(f32, r.embedding.value)))
  }

  lemma MetaEqReflexive(m: Option<Meta>)
    ensures MetaEq(m, m)
  {
  }

  lemma StoredIsSame(f32: F32, r: Record)
    requires Sound(r) && Idempotent(f32)
    ensures Same(f32, r, Stored(f32, r))
  {
    MetaEqReflexive(r.metadata);
  }

  // ---- Digests ----

  /** What is fed to the hash, piece by piece; JSON keeps 1, 1.0 and true apart. */
  datatype Piece = IdText(id: string) | DocumentText(d: Option<string>) | MetaText(m: Option<Meta>) | Packed(x: real)

  function VectorFeed(f32: F32, v: seq<Component>): seq<Piece>
    requires Clean(v)
  {
    seq(|v|, i requires 0 <= i < |v| => Packed(f32(v[i].value)))
  }

  function RecordFeed(f32: F32, r: Record): seq<Piece>
    requires Sound(r)
  {
    [IdText(r.id), DocumentText(r.document), MetaText(r.metadata)] + VectorFeed(f32, r.embedding.value)
  }

  function Feed(f32: F32, rs: seq<Record>): seq<Piece>
    requires AllSound(rs)
  {
    if rs == [] then [] else RecordFeed(f32, rs[0]) + Feed(f32, rs[1..])
  }

  lemma RecordFeedOfSame(f32: F32, l: Record, r: Record)
    requires Sound(l) && Sound(r) && Same(f32, l, r)
    ensures |RecordFeed(f32, l)| == |RecordFeed(f32, r)|
    ensures RecordFeed(f32, l) == RecordFeed(f32, r) <==> l.metadata == r.metadata
  {
    assert VectorFeed(f32, l.embedding.value) == VectorFeed(f32, r.embedding.value);
    if RecordFeed(f32, l) == RecordFeed(f32, r) {
      assert RecordFeed(f32, l)[2] == MetaText(l.metadata);
      assert RecordFeed(f32, r)[2] == MetaText(r.metadata);
    }
  }

  lemma AppendEq<T>(a: seq<T>, b: seq<T>, c: seq<T>, d: seq<T>)
    requires |a| == |b|
    ensures a + c == b + d <==> a == b && c == d
  {
    if a + c == b + d {
      assert a == (a + c)[..|a|] == (b + d)[..|b|] == b;
      assert c == (a + c)[|a|..] == (b + d)[|b|..] == d;
    }
  }

  /**
   Two lists verified as the same, record by record, feed the hash the same bytes if
   and only if their metadata agree in kind as well as in value.
   */
  lemma {:induction false} SameListsDigest(f32: F32, ls: seq<Record>, rs: seq<Record>)
    requires |ls| == |rs| && AllSound(ls) && AllSound(rs)
    requires forall i :: 0 <= i < |ls| ==> Same(f32, ls[i], rs[i])
    ensures Feed(f32, ls) == Feed(f32, rs)
       <==> forall i :: 0 <= i < |ls| ==> ls[i].metadata == rs[i].metadata
  {
    if ls != [] {
      SameListsDigest(f32, ls[1..], rs[1..]);
      RecordFeedOfSame(f32, ls[0], rs[0]);
      AppendEq(RecordFeed(f32, ls[0]), RecordFeed(f32, rs[0]), Feed(f32, ls[1..]), Feed(f32, rs[1..]));
      assert (forall i :: 0 <= i < |ls| ==> ls[i].metadata == rs[i].metadata) <==>
        && ls[0].metadata == rs[0].metadata
        && forall i :: 0 <= i < |ls[1..]| ==> ls[1..][i].metadata == rs[1..][i].metadata by {
        assert forall i :: 1 <= i < |ls| ==> ls[i] == ls[1..][i - 1] && rs[i] == rs[1..][i - 1];
      }
    }
  }

  /** It can happen: `1` and `True` verify as the same and digest differently. */
  lemma SameButDifferentDigest(f32: F32)
    ensures var l := Record("a", None, Some(map["flag" := Int(1)]), Some([]));
            var r := Record("a", None, Some(map["flag" := Bool(true)]), Some([]));
            Same(f32, l, r) && Feed(f32, [l]) != Feed(f32, [r])
  {
    var l := Record("a", None, Some(map["flag" := Int(1)]), Some([]));
    var r := Record("a", None, Some(map["flag" := Bool(true)]), Some([]));
    SameListsDigest(f32, [l], [r]);
    assert l.metadata.value["flag"] != r.metadata.value["flag"];
    assert [l][0] == l && [r][0] == r;
  }
}
