/** Totals over a sequence, how one update moves them, and counting by pairing off. */
module Sums {

  function SumBy<T>(s: seq<T>, f: T -> int): int {
    if s == [] then 0 else SumBy(s[..|s| - 1], f) + f(s[|s| - 1])
  }

  lemma {:induction false} SumUpdate<T>(s: seq<T>, f: T -> int, i: nat, x: T)
    requires i < |s|
    ensures SumBy(s[i := x], f) == SumBy(s, f) - f(s[i]) + f(x)
  {
    var m := |s| - 1;
    if i < m {
      assert s[i := x][..m] == s[..m][i := x];
      SumUpdate(s[..m], f, i, x);
    } else {
      assert s[i := x][..m] == s[..m];
    }
  }

  lemma {:induction false} SumSame<T>(s: seq<T>, t: seq<T>, f: T -> int)
    requires |s| == |t| && forall i :: 0 <= i < |s| ==> f(s[i]) == f(t[i])
    ensures SumBy(s, f) == SumBy(t, f)
  {
    if s != [] {
      SumSame(s[..|s| - 1], t[..|t| - 1], f);
    }
  }

  lemma {:induction false} SumConst<T>(s: seq<T>, f: T -> int, k: int)
    requires forall i :: 0 <= i < |s| ==> f(s[i]) == k
    ensures SumBy(s, f) == |s| * k
  {
    if s != [] {
      SumConst(s[..|s| - 1], f, k);
      assert (|s| - 1) * k + k == |s| * k;
    }
  }

  ghost predicate Injective(f: map<nat, nat>) { forall x, y :: x in f && y in f && f[x] == f[y] ==> x == y }

  /** A one-to-one map has as many values as keys. */
  lemma {:induction false} PairedOff(f: map<nat, nat>)
    requires Injective(f)
    ensures |f.Keys| == |f.Values|
    decreases |f.Keys|
  {
    if f != map[] {
      var x :| x in f;
      var rest := f - {x};
      PairedOff(rest);
      assert f.Keys == rest.Keys + {x};
      assert f.Values == rest.Values + {f[x]} && f[x] !in rest.Values by {
        forall v | v in f.Values
          ensures v in rest.Values + {f[x]}
        {
          var y :| y in f && f[y] == v;
          if y != x { assert y in rest; }
        }
      }
    } else {
      assert f.Values == {};
    }
  }
}
