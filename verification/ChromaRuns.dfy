/** The migration itself, in its three modes, and what holds of it across crashes. */
module ChromaRuns {
  import opened Basics
  import opened Texts
  import opened ChromaRecords
  import opened ChromaMigration

  datatype Status = VerifiedStatus | InventoryStatus

  datatype Summary = Summary(
    name: string, count: nat, sourceFeed: seq<Piece>, destinationCount: nat, destinationFeed: seq<Piece>,
    metric: string, status: Status)

  /** `apply` without `verifyOnly` writes; with it, or without either, nothing is written. */
  datatype Mode = Mode(apply: bool, verifyOnly: bool) {
    predicate Writes() {
      apply && !verifyOnly
    }
  }

  // ---- Lookups by id ----

  lemma LastOrEarlier(rs: seq<Record>, id: string)
    requires rs != []
    ensures HasId(rs, id) <==> rs[|rs| - 1].id == id || HasId(rs[..|rs| - 1], id)
  {
    var n := |rs| - 1;
    if HasId(rs, id) && rs[n].id != id {
      var i :| 0 <= i < |rs| && rs[i].id == id;
      assert rs[..n][i].id == id;
    }
    if HasId(rs[..n], id) {
      var i :| 0 <= i < n && rs[..n][i].id == id;
      assert rs[i].id == id;
    }
  }

  function Lookup(rs: seq<Record>, id: string): (o: Option<Record>)
    ensures o.Some? ==> o.value in rs && o.value.id == id
    ensures o.None? <==> !HasId(rs, id)
  {
    if rs == [] then None
    else
      LastOrEarlier(rs, id);
      if rs[|rs| - 1].id == id then Some(rs[|rs| - 1]) else Lookup(rs[..|rs| - 1], id)
  }

  function Missing(src: seq<Record>, rows: seq<Record>): seq<Record> {
    if src == [] then []
    else
      Missing(src[..|src| - 1], rows)
        + (if HasId(rows, src[|src| - 1].id) then [] else [src[|src| - 1]])
  }

  lemma {:induction false} MissingMembers(src: seq<Record>, rows: seq<Record>)
    ensures forall r :: r in Missing(src, rows) <==> r in src && !HasId(rows, r.id)
    ensures DistinctIds(src) ==> DistinctIds(Missing(src, rows))
  {
    if src != [] {
      var n := |src| - 1;
      assert src == src[..n] + [src[n]];
      MissingMembers(src[..n], rows);
      if DistinctIds(src) {
        var kept := Missing(src[..n], rows);
        forall i | 0 <= i < |kept| ensures kept[i].id != src[n].id {
          assert kept[i] in src[..n];
        }
      }
    }
  }

  lemma TwinByLookup(f32: F32, src: seq<Record>, row: Record)
    requires AllSound(src) && DistinctIds(src) && Sound(row)
    ensures var o := Lookup(SortById(src), row.id);
            && (o.Some? ==> Sound(o.value))
            && (HasTwin(f32, src, row) <==> o.Some? && Same(f32, o.value, row))
  {
    SortedFacts(src);
    IdsCount(src);
    var o := Lookup(SortById(src), row.id);
    assert forall j :: 0 <= j < |src| && Same(f32, src[j], row) ==> HasId(src, row.id);
    if o.Some? {
      assert o.value in src;
      var k :| 0 <= k < |src| && src[k] == o.value;
      assert forall j :: 0 <= j < |src| && Same(f32, src[j], row) ==> j == k;
      assert Same(f32, o.value, row) ==> Same(f32, src[k], row);
    }
  }

  /** Compares each destination record with the source record of the same id. */
  method CheckRecords(f32: F32, source: seq<Record>, destination: seq<Record>, ghost src: seq<Record>)
    returns (ok: bool)
    requires AllSound(src) && DistinctIds(src) && source == SortById(src) && AllSound(destination)
    ensures ok <==> SubCopy(f32, src, destination)
  {
    hide Same, HasTwin, Lookup, SortById, Clean;
    for i := 0 to |destination|
      invariant forall k :: 0 <= k < i ==> HasTwin(f32, src, destination[k])
    {
      var expected := Lookup(source, destination[i].id);
      TwinByLookup(f32, src, destination[i]);
      if expected.None? || !Same(f32, expected.value, destination[i]) {
        return false;
      }
    }
    return true;
  }

  lemma SubCopyOfListing(f32: F32, src: seq<Record>, rows: seq<Record>)
    requires AllSound(src) && AllSound(rows) && DistinctIds(rows)
    ensures AllSound(SortById(rows))
    ensures SubCopy(f32, src, SortById(rows)) <==> SubCopy(f32, src, rows)
  {
    SortedFacts(rows);
    var s := SortById(rows);
    if SubCopy(f32, src, s) {
      forall i | 0 <= i < |rows| ensures HasTwin(f32, src, rows[i]) {
        assert rows[i] in s;
      }
    }
    if SubCopy(f32, src, rows) {
      forall i | 0 <= i < |s| ensures HasTwin(f32, src, s[i]) {
        assert s[i] in rows;
      }
    }
  }

  /** What each error says of a collection and its copy. */
  ghost predicate Blames(error: Error, f32: F32, c: Collection, copy: Option<Collection>, mode: Mode) {
    var found := copy.Some?;
    match error
    case MissingVector | InvalidVector | OperationFailed =>
      !AllSound(c.rows) || (found && !AllSound(copy.value.rows))
    case MetricConflict => Metric(c).Err? || (found && Metric(copy.value).Err?)
    case UnsupportedMetric => Metric(c).Ok? && SourceMetric(c).Err?
    case MetadataMismatch => found && !SameInfo(c, copy.value)
    case MetricMismatch =>
      found && SourceMetric(c).Ok? && Metric(copy.value).Ok? && Metric(copy.value).value != Some(SourceMetric(c).value)
    case DestinationMismatch =>
      && found && Copyable(c) && AllSound(copy.value.rows)
      && (!SubCopy(f32, c.rows, copy.value.rows) || (!mode.Writes() && |c.rows| != |copy.value.rows|))
    case VerificationFailed => if mode.verifyOnly then !found else mode.Writes() && !Idempotent(f32)
    case Stopped => mode.Writes()
    case InvalidBatchSize => false
  }

  lemma {:induction false} VectorComplaintsBlame(v: seq<Component>)
    ensures VectorComplaint(v).Some? ==> VectorComplaint(v).value in {InvalidVector, OperationFailed}
  {
    if v != [] {
      VectorComplaintsBlame(v[1..]);
    }
  }

  lemma {:induction false} ComplaintsBlame(rs: seq<Record>)
    ensures Complaint(rs).Some? ==> Complaint(rs).value in {MissingVector, InvalidVector, OperationFailed}
  {
    if rs != [] {
      if rs[0].embedding.Some? {
        VectorComplaintsBlame(rs[0].embedding.value);
      }
      ComplaintsBlame(rs[1..]);
    }
  }

  /**
   Everything checked of an existing destination collection before anything is added;
   on success, its listing.
   */
  method CheckExisting(f32: F32, c: Collection, d: Collection, source: seq<Record>, metric: string,
                       mode: Mode, batchSize: int)
    returns (r: Result<seq<Record>, Error>)
    requires DistinctIds(c.rows) && DistinctIds(d.rows) && batchSize >= 1
    requires Copyable(c) && source == SortById(c.rows) && SourceMetric(c) == Ok(metric)
    ensures r.Ok? <==> Consistent(f32, c, d) && (mode.Writes() || |c.rows| == |d.rows|)
    ensures r.Ok? ==> r.value == SortById(d.rows)
    ensures r.Err? ==> r.error !in {Stopped, VerificationFailed, InvalidBatchSize}
    ensures r.Err? ==> Blames(r.error, f32, c, Some(d), mode)
  {
    hide SubCopy, SortById, HasId, MetaEq, METRICS, Same, SourceMetric;
    SortMembers(c.rows);
    SortMembers(d.rows);
    ComplaintsBlame(d.rows);
    var listed := Records(d.rows, batchSize);
    if listed.Err? {
      return Err(listed.error);
    }
    if !SameInfo(c, d) {
      return Err(MetadataMismatch);
    }
    var m := Metric(d);
    if m.Err? {
      return Err(m.error);
    }
    if m.value != Some(metric) {
      return Err(MetricMismatch);
    }
    SubCopyOfListing(f32, c.rows, d.rows);
    var ok := CheckRecords(f32, source, listed.value, c.rows);
    if !ok {
      return Err(DestinationMismatch);
    }
    if (!mode.apply || mode.verifyOnly) && |listed.value| != |source| {
      return Err(DestinationMismatch);
    }
    return listed;
  }

  function RowsAt(store: Store, name: string): seq<Record> {
    if name in store then store[name].rows else []
  }

  /** What one collection's turn may do to the store. */
  ghost predicate OnlyGrew(f32: F32, name: string, c: Collection, before: Store, after: Store) {
    && (forall n :: n != name ==> (n in after <==> n in before) && (n in before ==> after[n] == before[n]))
    && (name in before ==>
          && name in after
          && after[name] == before[name].(rows := after[name].rows)
          && Grown(f32, c.rows, before[name].rows, after[name].rows))
    && (name !in before && name in after ==>
          && Copyable(c)
          && after[name] == Collection(c.legacy, c.labels, Some(SourceMetric(c).value), after[name].rows)
          && Grown(f32, c.rows, [], after[name].rows))
  }

  /** A collection just created, or grown from a consistent one, agrees in everything but count. */
  lemma CreatedIsConsistent(f32: F32, c: Collection)
    requires Copyable(c)
    ensures Consistent(f32, c, Collection(c.legacy, c.labels, Some(SourceMetric(c).value), []))
  {
    MetaEqReflexive(c.labels);
  }

  lemma ReadsBackTheSource(f32: F32, c: Collection, before: seq<Record>, after: seq<Record>)
    requires Idempotent(f32) && AllSound(c.rows) && DistinctIds(c.rows) && AllSound(before) && DistinctIds(before)
    requires SubCopy(f32, c.rows, before) && Grown(f32, c.rows, before, after)
    ensures AllSound(after) && SubCopy(f32, c.rows, after)
    ensures (forall r :: r in c.rows ==> HasId(after, r.id)) ==> |after| == |c.rows|
  {
    GrownStaysSubCopy(f32, c.rows, before, after);
    SubCopyIds(f32, c.rows, after);
    IdsCount(after);
    if forall r :: r in c.rows ==> HasId(after, r.id) {
      forall id | id in IdsOf(c.rows) ensures id in IdsOf(after) {
        var r :| r in c.rows && r.id == id;
      }
    }
  }

  /** Copies what is missing into an existing destination collection and verifies the result. */
  method CopyAndVerify(dest: Destination, name: string, c: Collection, source: seq<Record>,
                       existing: seq<Record>, batchSize: int)
    returns (r: Result<seq<Record>, Error>)
    requires dest.Valid() && name in dest.store && batchSize >= 1
    requires Copyable(c) && DistinctIds(c.rows) && source == SortById(c.rows)
    requires Consistent(dest.f32, c, dest.store[name]) && existing == SortById(dest.store[name].rows)
    modifies dest
    ensures dest.Valid() && OnlyGrew(dest.f32, name, c, old(dest.store), dest.store) && name in dest.store
    ensures r.Ok? ==> Mirrors(dest.f32, c, dest.store[name]) && r.value == SortById(dest.store[name].rows)
    ensures Idempotent(dest.f32) ==>
      && Consistent(dest.f32, c, dest.store[name])
      && (r.Ok? || r == Err(Stopped)) && (old(dest.budget).None? ==> r.Ok? && dest.budget.None?)
    ensures r.Err? ==> r.error == Stopped || r.error == VerificationFailed
    ensures Mirrors(dest.f32, c, old(dest.store)[name]) ==> r.Ok? && dest.store == old(dest.store)
  {
    hide Idempotent, SubCopy, Same, SortById, DistinctIds, Grown, HasId, MetaEq, Verified, AllSound, Missing;
    ghost var before := dest.store[name].rows;
    MissingFacts(dest.f32, c.rows, before);
    var missing := Missing(source, existing);
    var alive := dest.CopyMissing(name, missing, batchSize, c.rows);
    ghost var after := dest.store[name].rows;
    GrownStaysSound(dest.f32, c.rows, before, after);
    if Idempotent(dest.f32) {
      ReadsBackTheSource(dest.f32, c, before, after);
    }
    if !alive {
      return Err(Stopped);
    }
    var listed := Records(dest.store[name].rows, batchSize);
    SortedFacts(c.rows);
    SortedFacts(after);
    VerifyingDecidesMirroring(dest.f32, c.rows, after);
    if !Verified(dest.f32, source, listed.value) {
      return Err(VerificationFailed);
    }
    return listed;
  }

  lemma MissingFacts(f32: F32, src: seq<Record>, rows: seq<Record>)
    requires AllSound(src) && AllSound(rows) && DistinctIds(src) && DistinctIds(rows)
    requires SubCopy(f32, src, rows)
    ensures var missing := Missing(SortById(src), SortById(rows));
            && AllSound(missing) && DistinctIds(missing)
            && (forall r :: r in missing ==> r in src && !HasId(rows, r.id))
            && (forall r :: r in src ==> HasId(rows, r.id) || HasId(missing, r.id))
            && (|src| == |rows| ==> missing == [])
  {
    var source, existing := SortById(src), SortById(rows);
    var missing := Missing(source, existing);
    SortedFacts(src);
    SortedFacts(rows);
    IdsCount(rows);
    IdsCount(src);
    IncreasingIsDistinct(source);
    MissingMembers(source, existing);
    forall i | 0 <= i < |missing| ensures Sound(missing[i]) {
      assert missing[i] in source;
      var k :| 0 <= k < |source| && source[k] == missing[i];
    }
    forall r | r in src ensures HasId(rows, r.id) || HasId(missing, r.id) {
      if !HasId(rows, r.id) {
        assert r in missing;
      }
    }
    if |src| == |rows| {
      SubCopyIds(f32, src, rows);
      NothingMissing(source, existing);
    }
  }

  lemma IncreasingIsDistinct(rs: seq<Record>)
    requires Increasing(rs)
    ensures DistinctIds(rs)
  {
    forall i, j | 0 <= i < j < |rs| ensures rs[i].id != rs[j].id {
      LessIsTotal(rs[i].id, rs[j].id);
    }
  }

  lemma {:induction false} NothingMissing(src: seq<Record>, rows: seq<Record>)
    requires forall r :: r in src ==> HasId(rows, r.id)
    ensures Missing(src, rows) == []
  {
    if src != [] {
      assert src[|src| - 1] in src;
      NothingMissing(src[..|src| - 1], rows);
    }
  }

  // ---- One collection ----

  /** The collection's turn may proceed: it can be copied, and what is there agrees with it. */
  ghost predicate Ready(f32: F32, name: string, c: Collection, store: Store) {
    Copyable(c) && (name in store ==> Consistent(f32, c, store[name]))
  }

  ghost predicate Done(f32: F32, name: string, c: Collection, store: Store) {
    Copyable(c) && name in store && Mirrors(f32, c, store[name])
  }

  /** A summary says what is really there. */
  ghost predicate Truthful(f32: F32, s: Summary, name: string, c: Collection, store: Store, mode: Mode) {
    var rows := RowsAt(store, name);
    && s.name == name && (s.status.VerifiedStatus? <==> mode.verifyOnly || mode.apply)
    && Copyable(c) && SourceMetric(c) == Ok(s.metric)
    && s.count == |c.rows| && s.destinationCount == |rows|
    && AllSound(SortById(c.rows)) && s.sourceFeed == Feed(f32, SortById(c.rows))
    && AllSound(SortById(rows)) && s.destinationFeed == Feed(f32, SortById(rows))
  }

  function Report(f32: F32, name: string, source: seq<Record>, destination: seq<Record>, metric: string, mode: Mode): Summary
    requires AllSound(source) && AllSound(destination)
  {
    Summary(name, |source|, Feed(f32, source), |destination|, Feed(f32, destination), metric,
            if mode.verifyOnly || mode.apply then VerifiedStatus else InventoryStatus)
  }

  lemma ReportIsTruthful(f32: F32, name: string, c: Collection, store: Store, metric: string, mode: Mode)
    requires Copyable(c) && SourceMetric(c) == Ok(metric) && DistinctIds(c.rows)
    requires AllSound(RowsAt(store, name)) && DistinctIds(RowsAt(store, name))
    ensures AllSound(SortById(c.rows)) && AllSound(SortById(RowsAt(store, name)))
    ensures Truthful(f32, Report(f32, name, SortById(c.rows), SortById(RowsAt(store, name)), metric, mode), name, c, store, mode)
  {
    SortedFacts(c.rows);
    SortedFacts(RowsAt(store, name));
  }

  lemma EmptyListing()
    ensures SortById([]) == [] && AllSound([]) && DistinctIds([])
  {
  }

  method MigrateOne(dest: Destination, name: string, c: Collection, mode: Mode, batchSize: int)
    returns (r: Result<Summary, Error>)
    requires dest.Valid() && DistinctIds(c.rows) && batchSize >= 1
    modifies dest
    ensures dest.Valid() && OnlyGrew(dest.f32, name, c, old(dest.store), dest.store)
    ensures mode.verifyOnly || !mode.apply ==> dest.store == old(dest.store)
    ensures !Ready(dest.f32, name, c, old(dest.store)) ==> r.Err? && dest.store == old(dest.store)
    ensures r.Ok? ==> Truthful(dest.f32, r.value, name, c, dest.store, mode)
    ensures r.Err? ==>
      Blames(r.error, dest.f32, c, if name in old(dest.store) then Some(old(dest.store)[name]) else None, mode)
    ensures mode.verifyOnly ==> (r.Ok? <==> Done(dest.f32, name, c, old(dest.store)))
    ensures !mode.apply && !mode.verifyOnly ==>
      (r.Ok? <==> Copyable(c) && (name in old(dest.store) ==> Done(dest.f32, name, c, old(dest.store))))
    ensures mode.Writes() && r.Ok? ==> Done(dest.f32, name, c, dest.store)
    ensures mode.Writes() && Idempotent(dest.f32) && Ready(dest.f32, name, c, old(dest.store)) ==>
      && Ready(dest.f32, name, c, dest.store)
      && (r.Ok? || r == Err(Stopped)) && (old(dest.budget).None? ==> r.Ok? && dest.budget.None?)
    ensures Done(dest.f32, name, c, old(dest.store)) ==> r.Ok? && dest.store == old(dest.store)
  {
    hide Idempotent, SubCopy, Same, SortById, HasId, MetaEq, Verified, AllSound, Missing, Feed, METRICS;
    ghost var before := dest.store;
    UnchangedOnlyGrew(dest.f32, name, c, before);
    SortedCounts(c.rows);
    ComplaintsBlame(c.rows);
    var listed := Records(c.rows, batchSize);
    if listed.Err? {
      return Err(listed.error);
    }
    var source := listed.value;
    var chosen := SourceMetric(c);
    if chosen.Err? {
      return Err(chosen.error);
    }
    var metric := chosen.value;
    EmptyListing();
    var destination: seq<Record> := [];
    if name in dest.store {
      var checked := CheckExisting(dest.f32, c, dest.store[name], source, metric, mode, batchSize);
      if checked.Err? {
        return Err(checked.error);
      }
      destination := checked.value;
      if mode.verifyOnly {
        VerifyingDecidesMirroring(dest.f32, c.rows, dest.store[name].rows);
        if !Verified(dest.f32, source, destination) {
          return Err(VerificationFailed);
        }
      }
    } else if mode.verifyOnly {
      return Err(VerificationFailed);
    } else if mode.apply {
      CreatedIsConsistent(dest.f32, c);
      var alive := dest.CreateCollection(name, c.legacy, c.labels, metric);
      if !alive {
        return Err(Stopped);
      }
    }
    if name in dest.store {
      if !SameInfo(c, dest.store[name]) {
        return Err(MetadataMismatch);
      }
      match Metric(dest.store[name]) {
        case Err(e) => return Err(e);
        case Ok(m) =>
          if m != Some(metric) {
            return Err(MetricMismatch);
          }
      }
    }
    if mode.apply && !mode.verifyOnly {
      ghost var mid := dest.store;
      var copied := CopyAndVerify(dest, name, c, source, destination, batchSize);
      GrowthsCompose(dest.f32, name, c, before, mid, dest.store);
      if copied.Err? {
        return Err(copied.error);
      }
      destination := copied.value;
    }
    ReportIsTruthful(dest.f32, name, c, dest.store, metric, mode);
    return Ok(Report(dest.f32, name, source, destination, metric, mode));
  }

  lemma UnchangedOnlyGrew(f32: F32, name: string, c: Collection, store: Store)
    requires name in store ==> DistinctIds(store[name].rows)
    ensures OnlyGrew(f32, name, c, store, store)
  {
  }

  lemma SortedCounts(rs: seq<Record>)
    requires DistinctIds(rs)
    ensures AllSound(rs) ==> AllSound(SortById(rs)) && |SortById(rs)| == |rs|
  {
    if AllSound(rs) {
      SortedFacts(rs);
    }
  }

  /** A creation or nothing, then the copy. */
  lemma GrowthsCompose(f32: F32, name: string, c: Collection, a: Store, b: Store, d: Store)
    requires Copyable(c) && name in b && OnlyGrew(f32, name, c, b, d)
    requires a == b
      || (name !in a && b == a[name := Collection(c.legacy, c.labels, Some(SourceMetric(c).value), [])])
    ensures OnlyGrew(f32, name, c, a, d)
  {
  }

  // ---- The whole source ----

  /** Across a run: nothing is lost or changed, and only rounded source records appear. */
  ghost predicate Evolved(f32: F32, source: Source, before: Store, after: Store) {
    && (forall n :: n in before ==> n in after && before[n].rows <= after[n].rows
                                    && after[n] == before[n].(rows := after[n].rows))
    && (forall n :: n in after && !Named(source, n) ==> n in before && after[n] == before[n])
    && (forall i :: 0 <= i < |source| && source[i].0 in after ==>
          var (n, c) := source[i];
          Grown(f32, c.rows, RowsAt(before, n), after[n].rows))
  }

  ghost predicate Named(source: Source, name: string) {
    exists i :: 0 <= i < |source| && source[i].0 == name
  }

  ghost predicate Resumable(f32: F32, source: Source, store: Store) {
    forall i :: 0 <= i < |source| ==> Ready(f32, source[i].0, source[i].1, store)
  }

  ghost predicate Complete(f32: F32, source: Source, store: Store) {
    forall i :: 0 <= i < |source| ==> Done(f32, source[i].0, source[i].1, store)
  }

  ghost predicate ValidStore(store: Store) {
    forall n :: n in store ==> DistinctIds(store[n].rows)
  }

  lemma NothingEvolved(f32: F32, source: Source, store: Store)
    requires ValidStore(store)
    ensures Evolved(f32, source, store, store)
  {
  }

  lemma OneMoreEvolved(f32: F32, source: Source, k: nat, a: Store, b: Store, d: Store)
    requires SourceOk(source) && k < |source|
    requires Evolved(f32, source, a, b) && ValidStore(b)
    requires OnlyGrew(f32, source[k].0, source[k].1, b, d)
    ensures Evolved(f32, source, a, d)
  {
    hide DistinctIds;
    var (name, c) := source[k];
    forall i | 0 <= i < |source| && source[i].0 in d
      ensures Grown(f32, source[i].1.rows, RowsAt(a, source[i].0), d[source[i].0].rows)
    {
      if i == k && name in b {
        GrownTransitive(f32, c.rows, RowsAt(a, name), b[name].rows, d[name].rows);
      }
    }
    forall n | n in d && !Named(source, n) ensures n in a && d[n] == a[n] {
      assert n != name;
    }
  }

  lemma OthersStayReady(f32: F32, source: Source, k: nat, i: nat, b: Store, d: Store)
    requires SourceOk(source) && k < |source| && i < |source| && i != k
    requires OnlyGrew(f32, source[k].0, source[k].1, b, d)
    ensures Ready(f32, source[i].0, source[i].1, b) <==> Ready(f32, source[i].0, source[i].1, d)
    ensures Done(f32, source[i].0, source[i].1, b) <==> Done(f32, source[i].0, source[i].1, d)
  {
    hide Consistent, Mirrors, Copyable, Grown;
    assert source[i].0 != source[k].0;
  }

  lemma EvolutionsCompose(f32: F32, source: Source, a: Store, b: Store, d: Store)
    requires Evolved(f32, source, a, b) && Evolved(f32, source, b, d)
    ensures Evolved(f32, source, a, d)
  {
    hide DistinctIds;
    forall i | 0 <= i < |source| && source[i].0 in d
      ensures Grown(f32, source[i].1.rows, RowsAt(a, source[i].0), d[source[i].0].rows)
    {
      var (n, c) := source[i];
      if n in b {
        GrownTransitive(f32, c.rows, RowsAt(a, n), b[n].rows, d[n].rows);
      } else {
        assert n !in a;
      }
    }
  }

  /**
   All source collections in turn.  In every mode and wherever the process is stopped,
   existing records stay as they were; without `--apply` nothing is written; a
   collection in disagreement stops the run before it is touched.
   */
  method MigrateChroma(dest: Destination, source: Source, mode: Mode, batchSize: int)
    returns (r: Result<seq<Summary>, Error>)
    requires dest.Valid() && SourceOk(source)
    modifies dest
    ensures dest.Valid() && Evolved(dest.f32, source, old(dest.store), dest.store)
    ensures batchSize < 1 ==> r == Err(InvalidBatchSize)
    ensures mode.verifyOnly || !mode.apply ==> dest.store == old(dest.store)
    ensures r.Ok? ==>
      && |r.value| == |source|
      && forall i :: 0 <= i < |source| ==> Truthful(dest.f32, r.value[i], source[i].0, source[i].1, dest.store, mode)
    ensures batchSize >= 1 && mode.verifyOnly ==> (r.Ok? <==> Complete(dest.f32, source, old(dest.store)))
    ensures mode.Writes() && r.Ok? ==> Complete(dest.f32, source, dest.store)
    ensures batchSize >= 1 && mode.Writes() && Idempotent(dest.f32) && Resumable(dest.f32, source, old(dest.store)) ==>
      && Resumable(dest.f32, source, dest.store)
      && (r.Ok? || r == Err(Stopped)) && (old(dest.budget).None? ==> r.Ok? && dest.budget.None?)
    ensures batchSize >= 1 && Complete(dest.f32, source, old(dest.store)) ==> r.Ok? && dest.store == old(dest.store)
  {
    hide Idempotent, Ready, Done, OnlyGrew, Evolved, Truthful, DistinctIds;
    ghost var before := dest.store;
    NothingEvolved(dest.f32, source, before);
    if batchSize < 1 {
      return Err(InvalidBatchSize);
    }
    var summaries: seq<Summary> := [];
    for k := 0 to |source|
      invariant dest.Valid() && Evolved(dest.f32, source, before, dest.store)
      invariant !mode.Writes() ==> dest.store == before
      invariant |summaries| == k
      invariant forall i :: 0 <= i < k ==> Truthful(dest.f32, summaries[i], source[i].0, source[i].1, dest.store, mode)
      invariant mode.verifyOnly ==> forall i :: 0 <= i < k ==> Done(dest.f32, source[i].0, source[i].1, before)
      invariant mode.Writes() ==> forall i :: 0 <= i < k ==> Done(dest.f32, source[i].0, source[i].1, dest.store)
      invariant mode.Writes() && Idempotent(dest.f32) && Resumable(dest.f32, source, before) ==>
        Resumable(dest.f32, source, dest.store) && (old(dest.budget).None? ==> dest.budget.None?)
      invariant Complete(dest.f32, source, before) ==> dest.store == before
    {
      var (name, c) := source[k];
      ghost var prior := dest.store;
      var one := MigrateOne(dest, name, c, mode, batchSize);
      OneMoreEvolved(dest.f32, source, k, before, prior, dest.store);
      forall i | 0 <= i < |source| && i != k
        ensures Ready(dest.f32, source[i].0, source[i].1, prior) <==> Ready(dest.f32, source[i].0, source[i].1, dest.store)
        ensures Done(dest.f32, source[i].0, source[i].1, prior) <==> Done(dest.f32, source[i].0, source[i].1, dest.store)
      {
        OthersStayReady(dest.f32, source, k, i, prior, dest.store);
      }
      if one.Err? {
        return Err(one.error);
      }
      forall i | 0 <= i < k
        ensures Truthful(dest.f32, summaries[i], source[i].0, source[i].1, dest.store, mode)
      {
        StaysTruthful(dest.f32, source, k, i, summaries[i], prior, dest.store, mode);
      }
      summaries := summaries + [one.value];
    }
    return Ok(summaries);
  }

  lemma StaysTruthful(f32: F32, source: Source, k: nat, i: nat, s: Summary, b: Store, d: Store, mode: Mode)
    requires SourceOk(source) && k < |source| && i < |source| && i != k
    requires OnlyGrew(f32, source[k].0, source[k].1, b, d)
    requires Truthful(f32, s, source[i].0, source[i].1, b, mode)
    ensures Truthful(f32, s, source[i].0, source[i].1, d, mode)
  {
    hide Copyable, Grown, Feed, SortById;
    assert source[i].0 != source[k].0;
    assert RowsAt(b, source[i].0) == RowsAt(d, source[i].0);
  }

  // ---- Crash and resume ----

  /**
   Two complete copies grown from the same store hold the same records, whatever the
   crashes and batch sizes on the way.
   */
  lemma CompleteCopiesAgree(f32: F32, source: Source, start: Store, a: Store, b: Store, i: nat, row: Record)
    requires SourceOk(source) && i < |source|
    requires Evolved(f32, source, start, a) && Evolved(f32, source, start, b)
    requires Complete(f32, source, a) && Complete(f32, source, b)
    ensures Done(f32, source[i].0, source[i].1, a) && Done(f32, source[i].0, source[i].1, b)
    ensures row in a[source[i].0].rows <==> row in b[source[i].0].rows
  {
    if row in a[source[i].0].rows {
      RowsCarryOver(f32, source, start, a, b, i, row);
    }
    if row in b[source[i].0].rows {
      RowsCarryOver(f32, source, start, b, a, i, row);
    }
  }

  lemma RowsCarryOver(f32: F32, source: Source, start: Store, a: Store, b: Store, i: nat, row: Record)
    requires SourceOk(source) && i < |source|
    requires Evolved(f32, source, start, a) && Evolved(f32, source, start, b)
    requires Done(f32, source[i].0, source[i].1, a) && Done(f32, source[i].0, source[i].1, b)
    requires row in a[source[i].0].rows
    ensures row in b[source[i].0].rows
  {
    var (n, c) := source[i];
    var base := RowsAt(start, n);
    SourceIdsPresent(f32, c, b[n]);
    SameRowElsewhere(f32, c.rows, base, a[n].rows, b[n].rows, row);
  }

  lemma SourceIdsPresent(f32: F32, c: Collection, d: Collection)
    requires Copyable(c) && Mirrors(f32, c, d) && DistinctIds(c.rows) && DistinctIds(d.rows)
    ensures forall r :: r in c.rows ==> HasId(d.rows, r.id)
  {
    SubCopyIds(f32, c.rows, d.rows);
    IdsCount(d.rows);
    forall r | r in c.rows ensures HasId(d.rows, r.id) {
      assert r.id in IdsOf(c.rows);
    }
  }

  lemma SameRowElsewhere(
    f32: F32, src: seq<Record>, base: seq<Record>, a: seq<Record>, b: seq<Record>, row: Record)
    requires AllSound(src) && DistinctIds(src)
    requires Grown(f32, src, base, a) && Grown(f32, src, base, b)
    requires forall r :: r in src ==> HasId(b, r.id)
    requires row in a
    ensures row in b
  {
    var k :| 0 <= k < |a| && a[k] == row;
    if k < |base| {
      assert b[k] == row;
    } else {
      assert CopyOf(f32, src, a[k]);
      var j :| 0 <= j < |src| && row == Stored(f32, src[j]);
      assert src[j] in src;
      var m :| 0 <= m < |b| && b[m].id == src[j].id;
      assert forall q :: 0 <= q < |base| ==> b[q] == base[q] && base[q] == a[q] && a[q].id != a[k].id;
      assert m >= |base|;
      assert CopyOf(f32, src, b[m]);
      var p :| 0 <= p < |src| && b[m] == Stored(f32, src[p]);
      assert p == j;
    }
  }

  /**
   Stop an apply run after any number of writes, run apply again, and once more: the
   second run succeeds, the copy is complete, and the third adds nothing.
   */
  method CrashThenResume(dest: Destination, source: Source, crash: nat, batches: (int, int, int))
    returns (ghost crashed: Store, ghost resumed: Store)
    requires dest.Valid() && SourceOk(source) && Idempotent(dest.f32)
    requires Resumable(dest.f32, source, dest.store)
    requires batches.0 >= 1 && batches.1 >= 1 && batches.2 >= 1
    modifies dest
    ensures dest.Valid()
    ensures Evolved(dest.f32, source, old(dest.store), crashed) && Resumable(dest.f32, source, crashed)
    ensures Evolved(dest.f32, source, old(dest.store), resumed) && Complete(dest.f32, source, resumed)
    ensures dest.store == resumed
  {
    hide Idempotent, Resumable, Complete, Evolved;
    var apply := Mode(true, false);
    ghost var start := dest.store;
    dest.budget := Some(crash);
    var first := MigrateChroma(dest, source, apply, batches.0);
    crashed := dest.store;
    dest.budget := None;
    var second := MigrateChroma(dest, source, apply, batches.1);
    resumed := dest.store;
    EvolutionsCompose(dest.f32, source, start, crashed, resumed);
    var third := MigrateChroma(dest, source, apply, batches.2);
  }
}
