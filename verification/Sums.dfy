/** Sums and inner products of integer sequences: the specification of every dot product. */
module Sums {

  function Sum(s: seq<int>): int {
    if |s| == 0 then 0 else Sum(s[..|s| - 1]) + s[|s| - 1]
  }

  function Inner(a: seq<int>, b: seq<int>): int
    requires |a| == |b|
  {
    if |a| == 0 then 0 else Inner(a[..|a| - 1], b[..|a| - 1]) + a[|a| - 1] * b[|a| - 1]
  }

  lemma {:induction false} SumConcat(a: seq<int>, b: seq<int>)
    ensures Sum(a + b) == Sum(a) + Sum(b)
  {
    if |b| == 0 {
      assert a + b == a;
    } else {
      assert (a + b)[..|a + b| - 1] == a + b[..|b| - 1];
      SumConcat(a, b[..|b| - 1]);
    }
  }

  lemma {:induction false} SumUpdate(s: seq<int>, i: nat, v: int)
    requires i < |s|
    ensures Sum(s[i := v]) == Sum(s) - s[i] + v
  {
    var n := |s| - 1;
    if i < n {
      assert s[i := v][..n] == s[..n][i := v];
      SumUpdate(s[..n], i, v);
    } else {
      assert s[i := v][..n] == s[..n];
    }
  }

  lemma {:induction false} SumZeros(s: seq<int>)
    requires forall i :: 0 <= i < |s| ==> s[i] == 0
    ensures Sum(s) == 0
  {
    if |s| == 0 {
    } else {
      SumZeros(s[..|s| - 1]);
    }
  }

  lemma {:induction false} InnerConcat(a: seq<int>, b: seq<int>, c: seq<int>, d: seq<int>)
    requires |a| == |b| && |c| == |d|
    ensures Inner(a + c, b + d) == Inner(a, b) + Inner(c, d)
  {
    if |c| == 0 {
      assert a + c == a && b + d == b;
    } else {
      var n := |c| - 1;
      assert (a + c)[..|a| + n] == a + c[..n] && (b + d)[..|a| + n] == b + d[..n];
      InnerConcat(a, b, c[..n], d[..n]);
    }
  }

  /** A range of an inner product splits at any point. */
  lemma InnerSplit(a: seq<int>, b: seq<int>, lo: nat, mid: nat, hi: nat)
    requires |a| == |b| && lo <= mid <= hi <= |a|
    ensures Inner(a[lo..hi], b[lo..hi]) == Inner(a[lo..mid], b[lo..mid]) + Inner(a[mid..hi], b[mid..hi])
  {
    InnerConcat(a[lo..mid], b[lo..mid], a[mid..hi], b[mid..hi]);
    assert a[lo..hi] == a[lo..mid] + a[mid..hi] && b[lo..hi] == b[lo..mid] + b[mid..hi];
  }

  lemma InnerSnoc(a: seq<int>, b: seq<int>, lo: nat, k: nat)
    requires |a| == |b| && lo <= k < |a|
    ensures Inner(a[lo..k + 1], b[lo..k + 1]) == Inner(a[lo..k], b[lo..k]) + a[k] * b[k]
  {
    var s, t, n := a[lo..k + 1], b[lo..k + 1], k - lo;
    assert |s| == |t| == n + 1 && s[n] == a[k] && t[n] == b[k];
    assert s[..n] == a[lo..k] && t[..n] == b[lo..k];
  }

  lemma InnerSnoc4(a: seq<int>, b: seq<int>, lo: nat, k: nat)
    requires |a| == |b| && lo <= k && k + 4 <= |a|
    ensures Inner(a[lo..k + 4], b[lo..k + 4]) == Inner(a[lo..k], b[lo..k])
      + a[k] * b[k] + a[k + 1] * b[k + 1] + a[k + 2] * b[k + 2] + a[k + 3] * b[k + 3]
  {
    InnerSnoc(a, b, lo, k);
    InnerSnoc(a, b, lo, k + 1);
    InnerSnoc(a, b, lo, k + 2);
    InnerSnoc(a, b, lo, k + 3);
  }

  /** Magnitude of an inner product with entries of magnitude at most m and 1. */
  lemma {:induction false} InnerBound(a: seq<int>, b: seq<int>, m: int)
    requires |a| == |b| && 0 <= m
    requires forall i :: 0 <= i < |a| ==> -m <= a[i] <= m && -1 <= b[i] <= 1
    ensures -(m * |a|) <= Inner(a, b) <= m * |a|
  {
    if |a| == 0 {
    } else {
      var n := |a| - 1;
      InnerBound(a[..n], b[..n], m);
      assert m * |a| == m * n + m;
    }
  }

  // ---- folding a sequence onto its first half ----

  /** Entry i of the result is entry i plus entry i + h. */
  function Fold(s: seq<int>, h: nat): (r: seq<int>)
    requires |s| == 2 * h
    ensures |r| == h
  {
    seq(h, i requires 0 <= i < h => s[i] + s[i + h])
  }

  lemma {:induction false} SumPointwise(a: seq<int>, b: seq<int>, c: seq<int>)
    requires |a| == |b| == |c| && forall i :: 0 <= i < |a| ==> c[i] == a[i] + b[i]
    ensures Sum(c) == Sum(a) + Sum(b)
  {
    if |a| == 0 {
    } else {
      var n := |a| - 1;
      SumPointwise(a[..n], b[..n], c[..n]);
    }
  }

  lemma FoldKeepsSum(s: seq<int>, h: nat)
    requires |s| == 2 * h
    ensures Sum(Fold(s, h)) == Sum(s)
  {
    SumPointwise(s[..h], s[h..], Fold(s, h));
    SumConcat(s[..h], s[h..]);
    assert s == s[..h] + s[h..];
  }

  // ---- magnitudes ----

  function Abs(v: int): nat { if v < 0 then -v else v }

  function Mag(s: seq<int>): nat {
    if |s| == 0 then 0 else Mag(s[..|s| - 1]) + Abs(s[|s| - 1])
  }

  lemma {:induction false} MagEntry(s: seq<int>, i: nat)
    requires i < |s|
    ensures Abs(s[i]) <= Mag(s)
  {
    if i == |s| - 1 {
    } else {
      MagEntry(s[..|s| - 1], i);
    }
  }

  lemma {:induction false} MagConcat(a: seq<int>, b: seq<int>)
    ensures Mag(a + b) == Mag(a) + Mag(b)
  {
    if |b| == 0 {
      assert a + b == a;
    } else {
      assert (a + b)[..|a + b| - 1] == a + b[..|b| - 1];
      MagConcat(a, b[..|b| - 1]);
    }
  }

  lemma {:induction false} MagPointwise(a: seq<int>, b: seq<int>, c: seq<int>)
    requires |a| == |b| == |c| && forall i :: 0 <= i < |a| ==> c[i] == a[i] + b[i]
    ensures Mag(c) <= Mag(a) + Mag(b)
  {
    if |a| == 0 {
    } else {
      var n := |a| - 1;
      MagPointwise(a[..n], b[..n], c[..n]);
    }
  }

  /** Folding does not increase the magnitude. */
  lemma FoldMag(s: seq<int>, h: nat)
    requires |s| == 2 * h
    ensures Mag(Fold(s, h)) <= Mag(s)
  {
    MagPointwise(s[..h], s[h..], Fold(s, h));
    MagConcat(s[..h], s[h..]);
    assert s == s[..h] + s[h..];
  }

  lemma {:induction false} MagZeros(s: seq<int>)
    requires forall i :: 0 <= i < |s| ==> s[i] == 0
    ensures Mag(s) == 0
  {
    if |s| == 0 {
    } else {
      MagZeros(s[..|s| - 1]);
    }
  }

  lemma {:induction false} MagUpdate(s: seq<int>, i: nat, v: int)
    requires i < |s|
    ensures Mag(s[i := v]) == Mag(s) - Abs(s[i]) + Abs(v)
  {
    var n := |s| - 1;
    if i == n {
      assert s[i := v][..n] == s[..n];
    } else {
      assert s[i := v][..n] == s[..n][i := v];
      MagUpdate(s[..n], i, v);
    }
  }

  /** Constant operands give the largest product. */
  lemma {:induction false} InnerConstant(a: seq<int>, b: seq<int>, u: int, v: int)
    requires |a| == |b| && forall i :: 0 <= i < |a| ==> a[i] == u && b[i] == v
    ensures Inner(a, b) == u * v * |a|
  {
    if |a| == 0 {
    } else {
      var n := |a| - 1;
      InnerConstant(a[..n], b[..n], u, v);
      assert u * v * |a| == u * v * n + u * v;
    }
  }
}
