/** Sequences without repetition, and sums of reals. */
module Sequences {

  predicate NoRepeat<T(==)>(s: seq<T>) {
    forall i, j :: 0 <= i < j < |s| ==> s[i] != s[j]
  }

  lemma {:induction false} NoRepeatJoins<T>(a: seq<T>, b: seq<T>)
    requires NoRepeat(a) && NoRepeat(b) && forall x :: x in a ==> x !in b
    ensures NoRepeat(a + b)
  {
    assert forall i :: 0 <= i < |a| ==> a[i] in a;
  }

  ghost function Members<T>(s: seq<T>): (members: set<T>) {
    set x | x in s
  }

  lemma {:induction false} NoRepeatSize<T>(s: seq<T>)
    requires NoRepeat(s)
    ensures |Members(s)| == |s|
  {
    if s != [] {
      var n := |s| - 1;
      NoRepeatSize(s[..n]);
      assert s == s[..n] + [s[n]];
      assert Members(s) == Members(s[..n]) + {s[n]};
    }
  }

  function Total(s: seq<real>): (total: real) {
    if s == [] then 0.0 else Total(s[..|s| - 1]) + s[|s| - 1]
  }

  lemma {:induction false} TotalJoins(a: seq<real>, b: seq<real>)
    ensures Total(a + b) == Total(a) + Total(b)
  {
    if b == [] {
      assert a + b == a;
    } else {
      var n := |b| - 1;
      TotalJoins(a, b[..n]);
      assert (a + b)[..|a + b| - 1] == a + b[..n];
    }
  }
}
