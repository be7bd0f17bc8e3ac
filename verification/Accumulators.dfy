/** The 64-bit accumulators of the vector unit: the exact number of TVMACs up to which their lanes
    and the sum of the lanes suffice. */
module Accumulators {
  import opened Arithmetic
  import opened Sums
  import opened Machine

  predicate Fits64(v: int) { -0x8000_0000_0000_0000 <= v < 0x8000_0000_0000_0000 }

  function Lanes(v: int): Vec { seq(27, i => v) }

  /** A cleared accumulator after TVMACs of the given operands. */
  function Macs(a: seq<Vec>, b: seq<Vec>): Vec
    requires |a| == |b|
  {
    if |a| == 0 then Lanes(0)
    else
      var n := |a| - 1;
      VMac(Macs(a[..n], b[..n]), a[n], b[n])
  }

  /** Every lane, and the running sums of a TVSUM. */
  ghost predicate AccFits(acc: Vec) {
    && (forall i :: 0 <= i < 27 ==> Fits64(acc[i]))
    && (forall j :: 0 <= j <= 27 ==> Fits64(Sum(acc[..j])))
  }

  /** The accumulator fits after every TVMAC. */
  ghost predicate MacsFit(a: seq<Vec>, b: seq<Vec>)
    requires |a| == |b|
  {
    forall k :: 0 <= k <= |a| ==> AccFits(Macs(a[..k], b[..k]))
  }

  ghost predicate Within(a: seq<Vec>, m: int) {
    forall k, i :: 0 <= k < |a| && 0 <= i < 27 ==> -m <= a[k][i] <= m
  }

  lemma ProductBound(x: int, y: int, m: int)
    requires 0 <= m && -m <= x <= m && -m <= y <= m
    ensures -(m * m) <= x * y <= m * m
  {
    MulMono(x, m, if y >= 0 then y else -y);
    MulMono(-m, x, if y >= 0 then y else -y);
    MulMono(if y >= 0 then y else -y, m, m);
  }

  lemma MacsNext(a: seq<Vec>, b: seq<Vec>, i: nat)
    requires |a| == |b| > 0 && i < 27
    ensures Macs(a, b)[i] == Macs(a[..|a| - 1], b[..|a| - 1])[i] + a[|a| - 1][i] * b[|a| - 1][i]
  {
    var n := |a| - 1;
    assert Macs(a, b) == VMac(Macs(a[..n], b[..n]), a[n], b[n]);
    hide Macs;
  }

  /** If no product of lane i exceeds u, neither does the lane by more than u a TVMAC. */
  lemma {:induction false} MacsBound(a: seq<Vec>, b: seq<Vec>, i: nat, u: int)
    requires |a| == |b| && i < 27 && forall k :: 0 <= k < |a| ==> -u <= a[k][i] * b[k][i] <= u
    ensures -(|a| * u) <= Macs(a, b)[i] <= |a| * u
  {
    if |a| == 0 {
    } else {
      var n := |a| - 1;
      MacsBound(a[..n], b[..n], i, u);
      MacsNext(a, b, i);
      OneMore(n, u);
    }
    hide Macs;
  }

  lemma OneMore(n: int, u: int)
    ensures (n + 1) * u == n * u + u
  {
  }

  lemma {:induction false} SumWithin(s: seq<int>, bound: int)
    requires 0 <= bound && forall i :: 0 <= i < |s| ==> -bound <= s[i] <= bound
    ensures -(|s| * bound) <= Sum(s) <= |s| * bound
  {
    if |s| == 0 {
    } else {
      SumWithin(s[..|s| - 1], bound);
    }
  }

  lemma MacsWithin(a: seq<Vec>, b: seq<Vec>, m: int)
    requires |a| == |b| && 0 <= m && Within(a, m) && Within(b, m) && 27 * (|a| * (m * m)) < 0x8000_0000_0000_0000
    ensures MacsFit(a, b)
  {
    hide Macs, Sum;
    var bound := |a| * (m * m);
    forall k | 0 <= k <= |a| ensures AccFits(Macs(a[..k], b[..k])) {
      var acc := Macs(a[..k], b[..k]);
      MulMono(k, |a|, m * m);
      forall i | 0 <= i < 27 ensures -bound <= acc[i] <= bound {
        forall l | 0 <= l < k ensures -(m * m) <= a[l][i] * b[l][i] <= m * m { ProductBound(a[l][i], b[l][i], m); }
        MacsBound(a[..k], b[..k], i, m * m);
      }
      forall j | 0 <= j <= 27 ensures Fits64(Sum(acc[..j])) {
        SumWithin(acc[..j], bound);
        MulMono(j, 27, bound);
      }
    }
  }

  /** The lowest lanes throughout. */
  function Lowest(n: nat, m: int): (r: seq<Vec>)
    ensures |r| == n && forall k :: 0 <= k < n ==> r[k] == Lanes(-m)
  {
    if n == 0 then [] else Lowest(n - 1, m) + [Lanes(-m)]
  }

  lemma {:induction false} LowestMacs(n: nat, m: int)
    ensures Macs(Lowest(n, m), Lowest(n, m)) == Lanes(n * (m * m))
  {
    if n == 0 {
      assert Macs([], []) == Lanes(0);
    } else {
      hide Macs;
      var a := Lowest(n, m);
      LowestMacs(n - 1, m);
      assert a[..n - 1] == Lowest(n - 1, m) && a[n - 1] == Lanes(-m);
      forall i | 0 <= i < 27 ensures Macs(a, a)[i] == n * (m * m) { LowestLane(n, m, i); }
    }
  }

  lemma LowestLane(n: nat, m: int, i: nat)
    requires n > 0 && i < 27 && Macs(Lowest(n - 1, m), Lowest(n - 1, m)) == Lanes((n - 1) * (m * m))
    ensures Macs(Lowest(n, m), Lowest(n, m))[i] == n * (m * m)
  {
    var a := Lowest(n, m);
    MacsNext(a, a, i);
    hide Macs;
    assert a[..n - 1] == Lowest(n - 1, m);
    AddSquare(n, m, a[n - 1][i], Macs(a[..n - 1], a[..n - 1])[i]);
  }

  lemma AddSquare(n: int, m: int, x: int, before: int)
    requires x == -m && before == (n - 1) * (m * m)
    ensures before + x * x == n * (m * m)
  {
    assert (-m) * (-m) == m * m;
    OneMore(n - 1, m * m);
  }

  lemma {:induction false} SumConstant(s: seq<int>, v: int)
    requires forall i :: 0 <= i < |s| ==> s[i] == v
    ensures Sum(s) == |s| * v
  {
    if |s| == 0 {
    } else {
      SumConstant(s[..|s| - 1], v);
    }
  }

  lemma MacsOver(n: nat, m: int)
    requires 0 <= m
    ensures Within(Lowest(n, m), m)
    ensures 27 * (n * (m * m)) >= 0x8000_0000_0000_0000 ==> !MacsFit(Lowest(n, m), Lowest(n, m))
  {
    hide Macs, Sum;
    var a := Lowest(n, m);
    LowestMacs(n, m);
    var acc := Lanes(n * (m * m));
    SumConstant(acc, n * (m * m));
    assert a[..n] == a && acc[..27] == acc;
    assert AccFits(Macs(a[..n], a[..n])) ==> Fits64(27 * (n * (m * m)));
  }

  /** With operand lanes of magnitude at most m, n TVMACs on a cleared accumulator and a TVSUM
      stay within 64 bits for all operands exactly when 27 * n * m * m does. */
  lemma MacsExact(n: nat, m: int)
    requires 0 <= m
    ensures (forall a, b :: |a| == |b| == n && Within(a, m) && Within(b, m) ==> MacsFit(a, b))
      <==> 27 * (n * (m * m)) < 0x8000_0000_0000_0000
  {
    hide MacsFit, Within;
    if 27 * (n * (m * m)) < 0x8000_0000_0000_0000 {
      forall a, b | |a| == |b| == n && Within(a, m) && Within(b, m) ensures MacsFit(a, b) { MacsWithin(a, b, m); }
    } else {
      MacsOver(n, m);
    }
  }

  /** Loaded and broadcast lanes hold nine trits: 3527341427 TVMACs are safe. Sums and products of
      lanes reach 32 bits: then not even one is. */
  lemma MacsBounds(n: nat)
    ensures (forall a, b :: |a| == |b| == n && Within(a, 9841) && Within(b, 9841) ==> MacsFit(a, b))
      <==> n <= 3527341427
    ensures (forall a, b :: |a| == |b| == n && Wide(a) && Wide(b) ==> MacsFit(a, b)) <==> n == 0
  {
    hide MacsFit;
    MacsExact(n, 9841);
    if n > 0 {
      MacsOver(n, 0x8000_0000);
      assert Wide(Lowest(n, 0x8000_0000));
    } else {
      forall a, b | |a| == |b| == n && Wide(a) && Wide(b) ensures MacsFit(a, b) { MacsWithin(a, b, 0); }
    }
  }

  /** What the vector registers hold. */
  ghost predicate Wide(a: seq<Vec>) {
    forall k :: 0 <= k < |a| ==> LanesFit(a[k])
  }
}
