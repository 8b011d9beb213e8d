/** Square matrices as rows of values, their product, and what a permutation does to sums and multisets. */
module Matrices {
  import opened Sequences

  type Matrix = seq<seq<real>>

  predicate Square(m: Matrix, n: nat) {
    |m| == n && forall i :: 0 <= i < n ==> |m[i]| == n
  }

  function At(m: Matrix, i: nat, j: nat): (r: real) {
    if i < |m| && j < |m[i]| then m[i][j] else 0.0
  }

  /** The matrix with these entries. */
  function Entries(n: nat, f: (nat, nat) -> real): (r: Matrix) {
    seq(n, i requires 0 <= i => seq(n, j requires 0 <= j => f(i, j)))
  }

  lemma {:induction false} SameEntries(a: Matrix, b: Matrix, n: nat)
    requires Square(a, n) && Square(b, n)
    requires forall i: nat, j: nat :: i < n && j < n ==> At(a, i, j) == At(b, i, j)
    ensures a == b
  {
    forall i | 0 <= i < n
      ensures a[i] == b[i]
    {
      forall j | 0 <= j < n
        ensures a[i][j] == b[i][j]
      {
        assert At(a, i, j) == At(b, i, j);
      }
    }
  }

  /** The inner product of a row and a column, over their first n entries. */
  function Dot(a: Matrix, b: Matrix, i: nat, j: nat, n: nat): (r: real) {
    if n == 0 then 0.0 else Dot(a, b, i, j, n - 1) + At(a, i, n - 1) * At(b, n - 1, j)
  }

  /** `a @ b`. */
  function Product(a: Matrix, b: Matrix, n: nat): (r: Matrix) {
    Entries(n, (i: nat, j: nat) => Dot(a, b, i, j, n))
  }

  function Transpose(a: Matrix, n: nat): (r: Matrix) {
    Entries(n, (i: nat, j: nat) => At(a, j, i))
  }

  lemma {:induction false} ZeroProduct(x: real, y: real)
    requires x == 0.0 || y == 0.0
    ensures x * y == 0.0
  {
    if x == 0.0 {
      assert 0.0 * y == 0.0;
    } else {
      assert x * 0.0 == 0.0;
    }
  }

  lemma {:induction false} DotOneLeft(a: Matrix, b: Matrix, i: nat, j: nat, n: nat, k: nat)
    requires forall l: nat :: l < n && l != k ==> At(a, i, l) == 0.0
    ensures Dot(a, b, i, j, n) == if k < n then At(a, i, k) * At(b, k, j) else 0.0
  {
    if n > 0 {
      DotOneLeft(a, b, i, j, n - 1, k);
      if n - 1 != k {
        assert At(a, i, n - 1) == 0.0;
        ZeroProduct(At(a, i, n - 1), At(b, n - 1, j));
      }
    }
  }

  lemma {:induction false} DotOneRight(a: Matrix, b: Matrix, i: nat, j: nat, n: nat, k: nat)
    requires forall l: nat :: l < n && l != k ==> At(b, l, j) == 0.0
    ensures Dot(a, b, i, j, n) == if k < n then At(a, i, k) * At(b, k, j) else 0.0
  {
    if n > 0 {
      DotOneRight(a, b, i, j, n - 1, k);
      if n - 1 != k {
        assert At(b, n - 1, j) == 0.0;
        ZeroProduct(At(a, i, n - 1), At(b, n - 1, j));
      }
    }
  }

  // ---- Sums and rotations

  /** Position k of a rotation by the offset holds what stood at k plus the offset, cyclically. */
  function Rotate<T>(s: seq<T>, offset: nat): (r: seq<T>)
    requires offset <= |s|
  {
    s[offset..] + s[..offset]
  }

  lemma {:induction false} TwiceOrMore(n: nat, q: nat)
    requires q > 1
    ensures n * q >= 2 * n
  {
    assert n * q == 2 * n + n * (q - 2) && n * (q - 2) >= 0;
  }

  lemma {:induction false} RemainderIs(x: nat, n: nat)
    requires x < 2 * n
    ensures x % n == if x < n then x else x - n
  {
    var q := x / n;
    assert x == n * q + x % n;
    if q > 1 {
      TwiceOrMore(n, q);
    } else {
      assert n * q == if q == 1 then n else 0;
    }
  }

  /** `(k + offset) % n`. */
  function Shifted(k: nat, offset: nat, n: nat): (r: nat)
    requires k < n && offset < n
    ensures r == if k + offset < n then k + offset else k + offset - n
    ensures r < n
  {
    RemainderIs(k + offset, n);
    (k + offset) % n
  }

  lemma {:induction false} RotateTotal(s: seq<real>, offset: nat)
    requires offset <= |s|
    ensures Total(Rotate(s, offset)) == Total(s)
  {
    var front, back := s[..offset], s[offset..];
    assert front + back == s;
    TotalsSwap(front, back);
  }

  lemma {:induction false} TotalsSwap(a: seq<real>, b: seq<real>)
    ensures Total(b + a) == Total(a + b)
  {
    TotalJoins(a, b);
    TotalJoins(b, a);
  }

  lemma {:induction false} RotateMultiset<T>(s: seq<T>, offset: nat)
    requires offset <= |s|
    ensures multiset(Rotate(s, offset)) == multiset(s)
  {
    assert s[..offset] + s[offset..] == s;
  }

  /** How often a weight occurs among the entries. */
  function Occurrences(rows: Matrix, w: real): (r: nat) {
    if rows == [] then 0 else multiset(rows[0])[w] + Occurrences(rows[1..], w)
  }

  lemma {:induction false} OccurrencesJoin(a: Matrix, b: Matrix, w: real)
    ensures Occurrences(a + b, w) == Occurrences(a, w) + Occurrences(b, w)
  {
    if a == [] {
      assert a + b == b;
    } else {
      OccurrencesJoin(a[1..], b, w);
      assert (a + b)[1..] == a[1..] + b;
    }
  }

  lemma {:induction false} RotateOccurrences(rows: Matrix, offset: nat, w: real)
    requires offset <= |rows|
    ensures Occurrences(Rotate(rows, offset), w) == Occurrences(rows, w)
  {
    OccurrencesJoin(rows[offset..], rows[..offset], w);
    OccurrencesJoin(rows[..offset], rows[offset..], w);
    assert rows[..offset] + rows[offset..] == rows;
  }

  lemma {:induction false} SameRowMultisets(a: Matrix, b: Matrix, w: real)
    requires |a| == |b| && forall i :: 0 <= i < |a| ==> multiset(a[i]) == multiset(b[i])
    ensures Occurrences(a, w) == Occurrences(b, w)
  {
    if a != [] {
      assert multiset(a[0]) == multiset(b[0]);
      SameRowMultisets(a[1..], b[1..], w);
    }
  }
}
