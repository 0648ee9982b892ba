/** Sizes of finite sets. */
module Sets {
  lemma {:induction false} SubsetSize<T>(a: set<T>, b: set<T>)
    requires a <= b
    ensures |a| <= |b|
    ensures |a| == |b| ==> a == b
  {
    if a != {} {
      var x :| x in a;
      SubsetSize(a - {x}, b - {x});
    }
  }

  /** A sequence without repetition is no longer than the set it is drawn from is large. */
  lemma {:induction false} DistinctFit<T>(s: seq<T>, all: set<T>)
    requires forall i :: 0 <= i < |s| ==> s[i] in all
    requires forall i, j :: 0 <= i < j < |s| ==> s[i] != s[j]
    ensures |s| <= |all|
  {
    if s != [] {
      var n := |s| - 1;
      DistinctFit(s[..n], all - {s[n]});
    }
  }

  /** The positions of the elements that satisfy `f`. */
  ghost function Where<T>(s: seq<T>, f: T -> bool): set<nat>
  {
    set i | 0 <= i < |s| && f(s[i])
  }

  lemma WhereNext<T>(s: seq<T>, f: T -> bool)
    requires s != []
    ensures |Where(s, f)| == |Where(s[..|s| - 1], f)| + if f(s[|s| - 1]) then 1 else 0
  {
    var n := |s| - 1;
    assert n !in Where(s[..n], f);
    if f(s[n]) {
      assert Where(s, f) == Where(s[..n], f) + {n};
    } else {
      assert Where(s, f) == Where(s[..n], f);
    }
  }
}
