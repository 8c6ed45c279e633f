/**
 Tables whose rows are named by position and looked up by a key; a deleted row leaves its
 position empty.  `Put` says what a series of upserts with different keys has made of a table.
 */
module Upserts {
  import opened Basics

  predicate HasKey<T, K(==)>(rows: seq<Option<T>>, key: T -> K, k: K, i: int) {
    0 <= i < |rows| && rows[i].Some? && key(rows[i].value) == k
  }

  predicate KeyedIn<T, K(==)>(xs: seq<T>, key: T -> K, k: K) {
    exists q :: 0 <= q < |xs| && key(xs[q]) == k
  }

  ghost predicate NoRow<T, K>(rows: seq<Option<T>>, key: T -> K, k: K) {
    forall i :: !HasKey(rows, key, k, i)
  }

  ghost predicate OneRow<T, K>(rows: seq<Option<T>>, key: T -> K, k: K) {
    forall i, j :: HasKey(rows, key, k, i) && HasKey(rows, key, k, j) ==> i == j
  }

  predicate DistinctKeys<T, K(==)>(xs: seq<T>, key: T -> K) {
    forall i, j :: 0 <= i < j < |xs| ==> key(xs[i]) != key(xs[j])
  }

  /** An old row: replaced by the new row of its key, or as it was. */
  predicate OldRow<T(==), K(==)>(before: seq<Option<T>>, key: T -> K, xs: seq<T>, after: seq<Option<T>>, i: int)
    requires 0 <= i < |before| <= |after|
  {
    if before[i].Some? && KeyedIn(xs, key, key(before[i].value))
    then after[i].Some? && after[i].value in xs && key(after[i].value) == key(before[i].value)
    else after[i] == before[i]
  }

  /** A row added at the end: one of the new rows, of a key the table did not have. */
  ghost predicate NewRow<T, K>(before: seq<Option<T>>, key: T -> K, xs: seq<T>, after: seq<Option<T>>, i: int)
    requires |before| <= i < |after|
  {
    after[i].Some? && after[i].value in xs && NoRow(before, key, key(after[i].value))
  }

  ghost predicate Present<T, K>(rows: seq<Option<T>>, key: T -> K, x: T) {
    Some(x) in rows && OneRow(rows, key, key(x))
  }

  ghost predicate Put<T, K>(before: seq<Option<T>>, key: T -> K, xs: seq<T>, after: seq<Option<T>>) {
    && |before| <= |after|
    && (forall i :: 0 <= i < |before| ==> OldRow(before, key, xs, after, i))
    && (forall i :: |before| <= i < |after| ==> NewRow(before, key, xs, after, i))
    && (forall q :: 0 <= q < |xs| ==> Present(after, key, xs[q]))
  }

  lemma NothingPut<T, K>(rows: seq<Option<T>>, key: T -> K)
    ensures Put(rows, key, [], rows)
  {
  }

  /** Keys that have not been upserted have the rows they had. */
  lemma OtherKeysKeepRows<T, K>(before: seq<Option<T>>, key: T -> K, xs: seq<T>, after: seq<Option<T>>, k: K)
    requires Put(before, key, xs, after) && !KeyedIn(xs, key, k)
    ensures forall i :: HasKey(after, key, k, i) <==> HasKey(before, key, k, i)
  {
    hide Present;
    forall i ensures HasKey(after, key, k, i) <==> HasKey(before, key, k, i) {
      if 0 <= i < |before| {
        assert OldRow(before, key, xs, after, i);
      } else if i < |after| && 0 <= i {
        assert NewRow(before, key, xs, after, i);
      }
    }
  }

  lemma KeyedInExtended<T, K>(xs: seq<T>, key: T -> K, x: T, k: K)
    ensures KeyedIn(xs + [x], key, k) <==> KeyedIn(xs, key, k) || key(x) == k
  {
    var all := xs + [x];
    assert all[|xs|] == x;
    assert forall q :: 0 <= q < |xs| ==> all[q] == xs[q];
  }

  lemma PresentStays<T, K>(
    rows: seq<Option<T>>, key: T -> K, x: T, y: T, i: int)
    requires Present(rows, key, x) && key(x) != key(y) && 0 <= i <= |rows|
    requires i < |rows| ==> HasKey(rows, key, key(y), i)
    ensures Present(if i < |rows| then rows[i := Some(y)] else rows + [Some(y)], key, x)
  {
    var after := if i < |rows| then rows[i := Some(y)] else rows + [Some(y)];
    var m :| 0 <= m < |rows| && rows[m] == Some(x);
    assert after[m] == Some(x);
    forall j | HasKey(after, key, key(x), j) ensures HasKey(rows, key, key(x), j) {
    }
  }

  /** One more upsert: in place where the table has the key, at the end where it does not. */
  lemma PutOneMore<T, K>(before: seq<Option<T>>, key: T -> K, xs: seq<T>, after: seq<Option<T>>, x: T, i: int)
    requires Put(before, key, xs, after) && !KeyedIn(xs, key, key(x))
    requires if NoRow(before, key, key(x)) then i == |after| else HasKey(before, key, key(x), i)
    requires OneRow(before, key, key(x))
    ensures 0 <= i <= |after| && (i < |after| ==> HasKey(after, key, key(x), i))
    ensures Put(before, key, xs + [x], if i < |after| then after[i := Some(x)] else after + [Some(x)])
  {
    hide Present, NoRow, OneRow;
    OtherKeysKeepRows(before, key, xs, after, key(x));
    var then' := if i < |after| then after[i := Some(x)] else after + [Some(x)];
    NoRowHere(before, key, key(x), i, |after|);
    forall k: int | 0 <= k < |before| ensures OldRow(before, key, xs + [x], then', k) {
      assert OldRow(before, key, xs, after, k);
      if before[k].Some? {
        KeyedInExtended(xs, key, x, key(before[k].value));
        OnlyRow(before, key, key(x), i, |after|, k);
      }
    }
    forall k: int | |before| <= k < |then'| ensures NewRow(before, key, xs + [x], then', k) {
      if k < |after| {
        assert NewRow(before, key, xs, after, k);
      }
    }
    forall q | 0 <= q < |xs + [x]| ensures Present(then', key, (xs + [x])[q]) {
      if q < |xs| {
        PresentStays(after, key, xs[q], x, i);
      } else {
        LastPresent(before, key, after, x, i);
      }
    }
  }

  lemma NoRowHere<T, K>(before: seq<Option<T>>, key: T -> K, k: K, i: int, n: int)
    requires |before| <= n && if NoRow(before, key, k) then i == n else HasKey(before, key, k, i)
    ensures i < |before| <==> !NoRow(before, key, k)
    ensures 0 <= i <= n
  {
  }

  lemma OnlyRow<T, K>(before: seq<Option<T>>, key: T -> K, k: K, i: int, n: int, j: int)
    requires |before| <= n && if NoRow(before, key, k) then i == n else HasKey(before, key, k, i)
    requires OneRow(before, key, k) && 0 <= j < |before| && before[j].Some?
    ensures key(before[j].value) == k ==> j == i
  {
    assert key(before[j].value) == k ==> HasKey(before, key, k, j);
  }

  lemma LastPresent<T, K>(before: seq<Option<T>>, key: T -> K, after: seq<Option<T>>, x: T, i: int)
    requires forall j :: HasKey(after, key, key(x), j) <==> HasKey(before, key, key(x), j)
    requires OneRow(before, key, key(x)) && |before| <= |after|
    requires if NoRow(before, key, key(x)) then i == |after| else HasKey(before, key, key(x), i)
    ensures Present(if i < |after| then after[i := Some(x)] else after + [Some(x)], key, x)
  {
    var then' := if i < |after| then after[i := Some(x)] else after + [Some(x)];
    assert then'[i] == Some(x);
    forall j | HasKey(then', key, key(x), j) ensures j == i {
      assert j != i ==> HasKey(after, key, key(x), j);
    }
  }
}
