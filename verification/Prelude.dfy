/** Shared vocabulary: optional values, and sums over sequences with the
    few laws the table proofs need. */
module Prelude {

  datatype Option<+T> = None | Some(value: T)

  /** Adds `f` over the rows of a table. */
  function Sum<T>(rows: seq<T>, f: T -> int): int {
    if rows == [] then 0 else Sum(rows[..|rows| - 1], f) + f(rows[|rows| - 1])
  }

  lemma {:induction false} SumAppend<T>(rows: seq<T>, row: T, f: T -> int)
    ensures Sum(rows + [row], f) == Sum(rows, f) + f(row)
  {
    assert (rows + [row])[..|rows|] == rows;
  }

  lemma {:induction false} SumConcat<T>(a: seq<T>, b: seq<T>, f: T -> int)
    ensures Sum(a + b, f) == Sum(a, f) + Sum(b, f)
    decreases |b|
  {
    if b == [] {
      assert a + b == a;
    } else {
      var m := |b| - 1;
      SumConcat(a, b[..m], f);
      assert (a + b)[..|a + b| - 1] == a + b[..m];
    }
  }

  lemma {:induction false} SumUpdate<T>(rows: seq<T>, i: nat, row: T, f: T -> int)
    requires i < |rows|
    ensures Sum(rows[i := row], f) == Sum(rows, f) - f(rows[i]) + f(row)
    decreases |rows|
  {
    var m := |rows| - 1;
    if i == m {
      assert rows[i := row][..m] == rows[..m];
    } else {
      SumUpdate(rows[..m], i, row, f);
      assert rows[i := row][..m] == rows[..m][i := row];
    }
  }

  /** Row-wise comparison of two tables lifts to their sums. */
  lemma {:induction false} SumMono<T>(a: seq<T>, f: T -> int, g: T -> int)
    requires forall i :: 0 <= i < |a| ==> f(a[i]) <= g(a[i])
    ensures Sum(a, f) <= Sum(a, g)
    decreases |a|
  {
    if a != [] {
      SumMono(a[..|a| - 1], f, g);
    }
  }

  lemma {:induction false} SumNonNegative<T>(rows: seq<T>, f: T -> int)
    requires forall i :: 0 <= i < |rows| ==> f(rows[i]) >= 0
    ensures Sum(rows, f) >= 0
    ensures forall i :: 0 <= i < |rows| ==> f(rows[i]) <= Sum(rows, f)
    decreases |rows|
  {
    if rows != [] {
      SumNonNegative(rows[..|rows| - 1], f);
    }
  }

  lemma {:induction false} SumZero<T>(rows: seq<T>, f: T -> int)
    requires forall i :: 0 <= i < |rows| ==> f(rows[i]) == 0
    ensures Sum(rows, f) == 0
    decreases |rows|
  {
    if rows != [] {
      SumZero(rows[..|rows| - 1], f);
    }
  }

  /** If every row of `b` differs from the row of `a` at its place by `d`,
      so does the whole sum. */
  lemma {:induction false} SumShift<T>(a: seq<T>, b: seq<T>, f: T -> int, d: T -> int)
    requires |a| == |b|
    requires forall i :: 0 <= i < |a| ==> f(b[i]) == f(a[i]) - d(a[i])
    ensures Sum(b, f) == Sum(a, f) - Sum(a, d)
    decreases |a|
  {
    if a != [] {
      SumShift(a[..|a| - 1], b[..|b| - 1], f, d);
    }
  }

  /** Sums agree when they agree row by row. */
  lemma {:induction false} SumSame<T>(a: seq<T>, b: seq<T>, f: T -> int, g: T -> int)
    requires |a| == |b| && forall i :: 0 <= i < |a| ==> f(a[i]) == g(b[i])
    ensures Sum(a, f) == Sum(b, g)
    decreases |a|
  {
    if a != [] {
      SumSame(a[..|a| - 1], b[..|b| - 1], f, g);
    }
  }

  lemma {:induction false} SumAdd<T>(rows: seq<T>, f: T -> int, g: T -> int, h: T -> int)
    requires forall i :: 0 <= i < |rows| ==> f(rows[i]) == g(rows[i]) + h(rows[i])
    ensures Sum(rows, f) == Sum(rows, g) + Sum(rows, h)
    decreases |rows|
  {
    if rows != [] {
      SumAdd(rows[..|rows| - 1], f, g, h);
    }
  }

  /** Adds `f` over a finite set of keys. */
  ghost function SumOver<K(!new)>(keys: set<K>, f: K -> int): int {
    if keys == {} then 0
    else
      var k :| k in keys;
      f(k) + SumOver(keys - {k}, f)
  }

  lemma {:induction false} SumOverPick<K(!new)>(keys: set<K>, k: K, f: K -> int)
    requires k in keys
    ensures SumOver(keys, f) == f(k) + SumOver(keys - {k}, f)
    decreases keys
  {
    var first :| first in keys && SumOver(keys, f) == f(first) + SumOver(keys - {first}, f);
    if first != k {
      SumOverPick(keys - {first}, k, f);
      SumOverPick(keys - {k}, first, f);
      assert keys - {first} - {k} == keys - {k} - {first};
    }
  }

  lemma {:induction false} SumOverSame<K(!new)>(keys: set<K>, f: K -> int, g: K -> int)
    requires forall k :: k in keys ==> f(k) == g(k)
    ensures SumOver(keys, f) == SumOver(keys, g)
    decreases keys
  {
    if keys != {} {
      var k :| k in keys;
      SumOverPick(keys, k, f);
      SumOverPick(keys, k, g);
      SumOverSame(keys - {k}, f, g);
    }
  }

  function Min(a: int, b: int): int { if a <= b then a else b }

  function Max(a: int, b: int): int { if a <= b then b else a }
}
