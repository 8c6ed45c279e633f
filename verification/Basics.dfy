/** Datatypes, one-line arithmetic and row selection shared by the models. */
module Basics {

  datatype Option<+T> = None | Some(value: T) {
    function GetOr(default: T): T {
      match this
      case Some(v) => v
      case None => default
    }
  }

  datatype Result<+T, +E> = Ok(value: T) | Err(error: E)

  function MinReal(a: real, b: real): real {
    if a <= b then a else b
  }

  function MaxReal(a: real, b: real): real {
    if a <= b then b else a
  }

  function MinInt(a: int, b: int): int {
    if a <= b then a else b
  }

  function MaxInt(a: int, b: int): int {
    if a <= b then b else a
  }

  function Pow2(n: nat): (p: nat)
    ensures p >= 1
  {
    if n == 0 then 1 else 2 * Pow2(n - 1)
  }

  // ---- Selecting rows of a table by position ----

  /** The positions of the wanted rows, in order. */
  function Query<T>(rows: seq<T>, want: T -> bool): (ids: seq<int>)
    ensures forall i :: i in ids <==> 0 <= i < |rows| && want(rows[i])
    ensures forall a, b :: 0 <= a < b < |ids| ==> ids[a] < ids[b]
  {
    if rows == [] then []
    else
      var n := |rows| - 1;
      var q := Query(rows[..n], want);
      assert forall i :: i in q <==> 0 <= i < n && want(rows[..n][i]);
      assert forall a :: 0 <= a < |q| ==> q[a] in q;
      if want(rows[n]) then q + [n] else q
  }

  /** At most one element when any two are equal. */
  lemma AtMostOne(q: seq<int>)
    requires forall a, b :: 0 <= a < b < |q| ==> q[a] < q[b]
    requires forall x, y :: x in q && y in q ==> x == y
    ensures |q| <= 1
  {
    if |q| >= 2 {
      TwoDiffer(q);
    }
  }

  lemma TwoDiffer(q: seq<int>)
    requires |q| >= 2 && forall a, b :: 0 <= a < b < |q| ==> q[a] < q[b]
    ensures exists x, y :: x in q && y in q && x != y
  {
    assert q[0] in q && q[1] in q && q[0] != q[1];
  }
}
