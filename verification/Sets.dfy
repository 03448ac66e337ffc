/** Facts about duplicate-free sequences and the sets they list. */
module Sets {

  ghost predicate NoDup<T>(s: seq<T>) {
    forall i, j :: 0 <= i < j < |s| ==> s[i] != s[j]
  }

  function Elems<T>(s: seq<T>): set<T> {
    set x | x in s
  }

  lemma ElemsConcat<T>(a: seq<T>, b: seq<T>)
    ensures Elems(a + b) == Elems(a) + Elems(b)
  {}

  /** A duplicate-free sequence is as long as its set is large. */
  lemma {:induction false} NoDupSize<T>(s: seq<T>)
    requires NoDup(s)
    ensures |Elems(s)| == |s|
  {
    if s != [] {
      var t := s[..|s| - 1];
      NoDupSize(t);
      assert s == t + [s[|s| - 1]];
      assert Elems(s) == Elems(t) + {s[|s| - 1]};
    }
  }

  /** A sequence as long as its set is large has no duplicates. */
  lemma {:induction false} SizeNoDup<T>(s: seq<T>)
    ensures |Elems(s)| <= |s|
    ensures |Elems(s)| == |s| ==> NoDup(s)
  {
    if s != [] {
      var t, x := s[..|s| - 1], s[|s| - 1];
      SizeNoDup(t);
      assert s == t + [x];
      assert Elems(s) == Elems(t) + {x};
      if x in Elems(t) {
        assert Elems(s) == Elems(t);
      }
    }
  }

  lemma {:induction false} SubsetSize<T>(a: set<T>, b: set<T>)
    requires a <= b
    ensures |a| + |b - a| == |b|
  {
    assert b == a + (b - a);
    assert |b| == |a| + |b - a|;
  }

  /** Sets of one size, one inside the other, are equal. */
  lemma SameSizeSubset<T>(a: set<T>, b: set<T>)
    requires a <= b && |a| == |b|
    ensures a == b
  {
    SubsetSize(a, b);
    assert b - a == {};
  }

  /** At most 64 distinct CPU ids exist. */
  lemma {:induction false} CpuSetSize(a: set<int>, n: nat)
    requires forall c | c in a :: 0 <= c < n
    ensures |a| <= n
  {
    if n > 0 {
      CpuSetSize(a - {n - 1}, n - 1);
    } else {
      assert forall c :: c !in a;
    }
  }
}
