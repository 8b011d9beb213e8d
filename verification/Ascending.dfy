/** Results of fallible operations, and the ascending enumeration of a finite set.

    Identifiers that the program only compares and sorts (slot ids, paths, market families) are
    integers throughout the project: an identifier stands for its position in Python's order. */
module Ascending {

  datatype Option<+T> = None | Some(value: T)

  /** A returned value, or a raised exception. */
  datatype Result<+T> = Ok(value: T) | Err(reason: string)

  predicate StrictlyAscending(s: seq<int>) {
    forall i, j :: 0 <= i < j < |s| ==> s[i] < s[j]
  }

  predicate IsLeast(m: int, s: set<int>) {
    m in s && forall x :: x in s ==> m <= x
  }

  lemma {:induction false} LeastExists(s: set<int>) returns (m: int)
    requires s != {}
    ensures IsLeast(m, s)
  {
    assert (forall y :: y !in s) ==> s == {};
    m :| m in s;
    if m' :| m' in s && m' < m {
      var rest := s - {m};
      assert m' in rest;
      var least := LeastExists(rest);
      assert s == rest + {m};
      m := least;
    }
  }

  lemma {:induction false} SortedExists(s: set<int>)
    ensures exists r :: StrictlyAscending(r) && (forall x :: x in r <==> x in s) && |r| == |s|
  {
    if s == {} {
      var r: seq<int> := [];
      assert forall x :: x in r <==> x in s;
      assert StrictlyAscending(r) && |r| == |s|;
    } else {
      var m := LeastExists(s);
      SortedExists(s - {m});
      var rest :| StrictlyAscending(rest) && (forall x :: x in rest <==> x in s - {m}) && |rest| == |s - {m}|;
      var r := [m] + rest;
      forall i | 0 <= i < |rest| ensures m < rest[i] { assert rest[i] in rest; }
      assert StrictlyAscending(r);
      assert forall x :: x in r <==> x in s;
      assert |r| == |s|;
    }
  }

  /** `sorted(s)` for a set: each element once, smallest first. */
  ghost function Sorted(s: set<int>): (r: seq<int>)
    ensures StrictlyAscending(r)
    ensures forall x :: x in r <==> x in s
    ensures |r| == |s|
  {
    SortedExists(s);
    var r :| StrictlyAscending(r) && (forall x :: x in r <==> x in s) && |r| == |s|;
    r
  }

  lemma {:induction false} AscendingIsUnique(a: seq<int>, b: seq<int>)
    requires StrictlyAscending(a) && StrictlyAscending(b)
    requires forall x :: x in a <==> x in b
    ensures a == b
  {
    assert a != [] ==> a[0] in a;
    assert b != [] ==> b[0] in b;
    if a != [] && b != [] {
      var i :| 0 <= i < |a| && a[i] == b[0];
      var j :| 0 <= j < |b| && b[j] == a[0];
      TailElements(a);
      TailElements(b);
      AscendingIsUnique(a[1..], b[1..]);
      assert a == [a[0]] + a[1..] && b == [b[0]] + b[1..];
    }
  }

  lemma {:induction false} TailElements(r: seq<int>)
    requires StrictlyAscending(r) && r != []
    ensures forall x :: x in r[1..] <==> x in r && x != r[0]
  {
    forall x ensures x in r[1..] <==> x in r && x != r[0] {
      if x in r && x != r[0] {
        var k :| 0 <= k < |r| && r[k] == x;
        assert r[1..][k - 1] == x;
      }
    }
  }

  /** An ascending enumeration is determined by its elements. */
  lemma {:induction false} SortedIsUnique(r: seq<int>, s: set<int>)
    requires StrictlyAscending(r)
    requires forall x :: x in r <==> x in s
    ensures r == Sorted(s)
  {
    AscendingIsUnique(r, Sorted(s));
  }

  method SortSet(s: set<int>) returns (r: seq<int>)
    ensures r == Sorted(s)
  {
    r := [];
    var left := s;
    while left != {}
      invariant left <= s
      invariant StrictlyAscending(r)
      invariant forall x :: x in r <==> x in s - left
      invariant forall x, y :: x in r && y in left ==> x < y
      decreases |left|
    {
      ghost var least := LeastExists(left);
      var m :| m in left && forall x :: x in left ==> m <= x;
      assert forall k :: 0 <= k < |r| ==> r[k] in r;
      r := r + [m];
      left := left - {m};
    }
    SortedIsUnique(r, s);
  }

  // ---- numbers one to n

  ghost function UpTo(n: nat): (r: set<int>)
    ensures |r| == n && forall j :: j in r <==> 1 <= j <= n
  {
    if n == 0 then {} else UpTo(n - 1) + {n}
  }

  lemma {:induction false} SubsetSize(a: set<int>, b: set<int>)
    requires a <= b
    ensures |a| <= |b|
  {
    assert b == a + (b - a);
  }

  /** A set of n numbers that misses one of 1..n holds one outside it. */
  lemma {:induction false} SomeOutside(keys: set<int>, n: nat, k: int)
    requires |keys| == n && 1 <= k <= n && k !in keys
    ensures exists j :: j in keys && !(1 <= j <= n)
  {
    var others := UpTo(n) - {k};
    if keys <= others {
      SubsetSize(keys, others);
    }
    var j :| j in keys && j !in others;
  }

  /** A set of n numbers that misses none of 1..n holds nothing else. */
  lemma {:induction false} NoneOutside(keys: set<int>, n: nat)
    requires |keys| == n && forall j :: 1 <= j <= n ==> j in keys
    ensures forall j :: j in keys ==> 1 <= j <= n
  {
    forall j | j in keys
      ensures 1 <= j <= n
    {
      SubsetSize(UpTo(n) + {j}, keys);
    }
  }
}
