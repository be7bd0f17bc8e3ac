/** How many rows the 32-bit accumulators of the kernels can take: for each kernel, the exact bound
    up to which no value it computes on the way leaves 32 bits, for any activations and weights. */
module Widths {
  import opened Sums
  import opened PackedKernels
  import opened StridedKernel
  import opened Int4Kernel

  predicate Fits32(v: int) { -0x8000_0000 <= v < 0x8000_0000 }

  /** A column of ternary weights for the activations. */
  ghost predicate Weights(x: seq<Int8>, col: seq<int>) {
    |x| == |col| && forall k :: 0 <= k < |col| ==> -1 <= col[k] <= 1
  }

  /** Each lane value at every stage of the butterfly. */
  ghost predicate ButterflyFits(vals: seq<int>)
    requires |vals| == WARP
  {
    forall o, i :: (IsOffset(o) || o == WARP) && 0 <= i < o ==> Fits32(Stage(vals, o)[i])
  }

  lemma {:induction false} StageMag(vals: seq<int>, o: nat)
    requires |vals| == WARP && (IsOffset(o) || o == WARP)
    ensures Mag(Stage(vals, o)) <= Mag(vals)
    decreases WARP - o
  {
    if o == WARP {
    } else {
      StageMag(vals, 2 * o);
      FoldMag(Stage(vals, 2 * o), o);
    }
  }

  lemma ButterflyWithin(vals: seq<int>)
    requires |vals| == WARP && Mag(vals) < 0x8000_0000
    ensures ButterflyFits(vals)
  {
    forall o: nat, i: nat | (IsOffset(o) || o == WARP) && 0 <= i < o ensures Fits32(Stage(vals, o)[i]) {
      StageMag(vals, o);
      MagEntry(Stage(vals, o), i);
    }
  }

  lemma {:induction false} StageSum(vals: seq<int>, o: nat)
    requires |vals| == WARP && (IsOffset(o) || o == WARP)
    ensures Sum(Stage(vals, o)) == Sum(vals)
    decreases WARP - o
  {
    hide Sum;
    if o == WARP {
    } else {
      StageSum(vals, 2 * o);
      FoldKeepsSum(Stage(vals, 2 * o), o);
    }
  }

  /** The last exchange leaves the sum of the lanes. */
  lemma ButterflyOver(vals: seq<int>)
    requires |vals| == WARP && !Fits32(Sum(vals))
    ensures !ButterflyFits(vals)
  {
    hide Stage;
    StageSum(vals, 1);
    SumSingle(Stage(vals, 1));
  }

  lemma SumSingle(s: seq<int>)
    requires |s| == 1
    ensures Sum(s) == s[0]
  {
  }

  lemma RangeBound(x: seq<Int8>, col: seq<int>, lo: nat, hi: nat)
    requires Weights(x, col) && lo <= hi <= |x|
    ensures Abs(Inner(x[lo..hi], col[lo..hi])) <= 128 * (hi - lo)
  {
    InnerBound(x[lo..hi], col[lo..hi], 128);
  }

  /** The extreme activations and weights. */
  function Lowest(n: nat): (r: seq<Int8>)
    ensures |r| == n
  {
    seq(n, i => -128)
  }

  function Minus(n: nat): (r: seq<int>)
    ensures |r| == n
  {
    seq(n, i => -1)
  }

  // ---- contiguous lanes ----

  /** The sums of the loops, over any part of a lane's rows, and of the shuffles. */
  ghost predicate ContiguousFits(x: seq<Int8>, col: seq<int>)
    requires |x| == |col|
  {
    && (forall l, lo, hi :: 0 <= l < WARP && LaneStart(|x|, l) <= lo <= hi <= LaneStart(|x|, l + 1) ==>
          Fits32(Inner(x[lo..hi], col[lo..hi])))
    && ButterflyFits(FirstLanes(x, col, WARP))
  }

  lemma {:induction false} LanesMag(x: seq<Int8>, col: seq<int>, n: nat)
    requires Weights(x, col)
    ensures Mag(FirstLanes(x, col, n)) <= 128 * LaneStart(|x|, n)
  {
    hide Inner, LaneStart;
    if n == 0 {
    } else {
      LanesMag(x, col, n - 1);
      StartsOrdered(|x|, n - 1);
      RangeBound(x, col, LaneStart(|x|, n - 1), LaneStart(|x|, n));
      assert FirstLanes(x, col, n)[..n - 1] == FirstLanes(x, col, n - 1);
    }
  }

  lemma ContiguousWithin(x: seq<Int8>, col: seq<int>)
    requires Weights(x, col) && |x| < 0x100_0000
    ensures ContiguousFits(x, col)
  {
    hide Inner, LaneStart;
    forall l, lo, hi | 0 <= l < WARP && LaneStart(|x|, l) <= lo <= hi <= LaneStart(|x|, l + 1)
      ensures Fits32(Inner(x[lo..hi], col[lo..hi]))
    {
      RangeBound(x, col, lo, hi);
    }
    LanesMag(x, col, WARP);
    LanesCover(|x|);
    ButterflyWithin(FirstLanes(x, col, WARP));
  }

  /** The dp4a, add-only and table kernels stay within 32 bits for all inputs of n rows exactly
      when n is below 2^24. */
  lemma ContiguousBound(n: nat)
    ensures (forall x, col :: |x| == n && Weights(x, col) ==> ContiguousFits(x, col)) <==> n < 0x100_0000
  {
    hide ContiguousFits;
    if n < 0x100_0000 {
      forall x, col | |x| == n && Weights(x, col) ensures ContiguousFits(x, col) { ContiguousWithin(x, col); }
    } else {
      ContiguousOver(n);
    }
  }

  lemma ContiguousOver(n: nat)
    requires n >= 0x100_0000
    ensures |Lowest(n)| == n && Weights(Lowest(n), Minus(n)) && !ContiguousFits(Lowest(n), Minus(n))
  {
    hide Inner, ButterflyFits;
    var x, col := Lowest(n), Minus(n);
    InnerConstant(x, col, -128, -1);
    AllLanes(x, col);
    ButterflyOver(FirstLanes(x, col, WARP));
  }

  // ---- strided lanes ----

  /** A lane's share before each of its chunks with any part of that chunk, and the shuffles. */
  ghost predicate StridedFits(x: seq<Int8>, col: seq<int>)
    requires |x| == |col| && |x| % 16 == 0
  {
    && (forall c, r :: 0 <= c < |x| / 16 && 0 <= r <= 16 ==> Fits32(Partial(x, col, c, r)))
    && ButterflyFits(Shares(x, col, |x| / 16))
  }

  /** What the lane of chunk c has accumulated after r rows of the chunk. */
  function Partial(x: seq<Int8>, col: seq<int>, c: nat, r: nat): int
    requires |x| == |col| && 16 * c + r <= |x|
  {
    Share(x, col, c % WARP, c) + Inner(x[16 * c..16 * c + r], col[16 * c..16 * c + r])
  }

  lemma {:induction false} ShareBound(x: seq<Int8>, col: seq<int>, l: nat, n: nat)
    requires Weights(x, col) && 16 * n <= |x|
    ensures Abs(Share(x, col, l, n)) <= 128 * (16 * n)
  {
    hide Inner;
    if n == 0 {
    } else {
      ShareBound(x, col, l, n - 1);
      RangeBound(x, col, 16 * (n - 1), 16 * (n - 1) + 16);
    }
  }

  lemma {:induction false} SharesMag(x: seq<Int8>, col: seq<int>, n: nat)
    requires Weights(x, col) && 16 * n <= |x|
    ensures Mag(Shares(x, col, n)) <= 128 * (16 * n)
  {
    hide Inner;
    if n == 0 {
      MagZeros(Shares(x, col, 0));
    } else {
      SharesMag(x, col, n - 1);
      RangeBound(x, col, 16 * (n - 1), 16 * (n - 1) + 16);
      var i, before := (n - 1) % WARP, Shares(x, col, n - 1);
      assert Shares(x, col, n) == before[i := before[i] + ChunkInner(x, col, n - 1)];
      MagUpdate(before, i, before[i] + ChunkInner(x, col, n - 1));
    }
  }

  lemma StridedWithin(x: seq<Int8>, col: seq<int>)
    requires Weights(x, col) && |x| % 16 == 0 && |x| < 0x100_0000
    ensures StridedFits(x, col)
  {
    hide Inner, Share;
    forall c, r | 0 <= c < |x| / 16 && 0 <= r <= 16 ensures Fits32(Partial(x, col, c, r)) {
      ShareBound(x, col, c % WARP, c);
      RangeBound(x, col, 16 * c, 16 * c + r);
    }
    SharesMag(x, col, |x| / 16);
    ButterflyWithin(Shares(x, col, |x| / 16));
  }

  lemma StridedOver(n: nat)
    requires n >= 0x100_0000 && n % 16 == 0
    ensures |Lowest(n)| == n && Weights(Lowest(n), Minus(n)) && !StridedFits(Lowest(n), Minus(n))
  {
    hide Inner, Shares, ButterflyFits;
    var x, col := Lowest(n), Minus(n);
    InnerConstant(x, col, -128, -1);
    SharesPartition(x, col, n / 16);
    assert 16 * (n / 16) == n && x[..n] == x && col[..n] == col;
    ButterflyOver(Shares(x, col, n / 16));
  }

  // ---- the INT4 kernels ----

  /** Both accumulators after any rows, and the epilogue from left to right. */
  ghost predicate PreciseFits(x: seq<Int8>, col: seq<int>)
    requires |x| == |col|
  {
    && (forall k :: 0 <= k <= |x| ==> Fits32(Inner(Highs(x)[..k], col[..k])) && Fits32(Inner(Lows(x)[..k], col[..k])))
    && var hi, lo, w := Inner(Highs(x), col), Inner(Lows(x), col), Sum(col);
       Fits32(16 * hi) && Fits32(16 * hi + lo) && Fits32(w) && Fits32(8 * w) && Fits32(16 * hi + lo + 8 * w)
  }

  lemma {:induction false} SumBound(col: seq<int>)
    requires forall k :: 0 <= k < |col| ==> -1 <= col[k] <= 1
    ensures -|col| <= Sum(col) <= |col|
  {
    if |col| == 0 {
    } else {
      SumBound(col[..|col| - 1]);
    }
  }

  lemma PreciseWithin(x: seq<Int8>, col: seq<int>)
    requires Weights(x, col) && 136 * |x| < 0x8000_0000
    ensures PreciseFits(x, col)
  {
    var h, l := Highs(x), Lows(x);
    assert forall k :: 0 <= k < |x| ==> -8 <= h[k] <= 7 && -8 <= l[k] <= 7;
    hide Inner;
    forall k | 0 <= k <= |x| ensures Fits32(Inner(h[..k], col[..k])) && Fits32(Inner(l[..k], col[..k])) {
      InnerBound(h[..k], col[..k], 8);
      InnerBound(l[..k], col[..k], 8);
    }
    InnerBound(h, col, 8);
    InnerBound(l, col, 8);
    SumBound(col);
    SplitExact(x, col);
    InnerBound(x, col, 128);
  }

  lemma PreciseOver(n: nat)
    requires 136 * n >= 0x8000_0000
    ensures |Lowest(n)| == n && Weights(Lowest(n), Minus(n)) && !PreciseFits(Lowest(n), Minus(n))
  {
    hide Inner;
    var x, col := Lowest(n), Minus(n);
    assert forall k :: 0 <= k < n ==> Highs(x)[k] == -8 && Lows(x)[k] == -8;
    InnerConstant(Highs(x), col, -8, -1);
    InnerConstant(Lows(x), col, -8, -1);
  }

  /** The precise kernel stays within 32 bits for all inputs of n rows exactly when 136 * n does:
      up to 15790320 rows, fewer than the final sum alone would allow. */
  lemma PreciseBound(n: nat)
    ensures (forall x, col :: |x| == n && Weights(x, col) ==> PreciseFits(x, col)) <==> 136 * n < 0x8000_0000
    ensures 136 * n < 0x8000_0000 <==> n <= 15790320
  {
    hide PreciseFits;
    if 136 * n < 0x8000_0000 {
      forall x, col | |x| == n && Weights(x, col) ensures PreciseFits(x, col) { PreciseWithin(x, col); }
    } else {
      PreciseOver(n);
    }
  }

  /** The strided kernel, for its multiples of 16 rows. */
  lemma StridedBound(n: nat)
    requires n % 16 == 0
    ensures (forall x, col :: |x| == n && Weights(x, col) ==> StridedFits(x, col)) <==> n < 0x100_0000
  {
    hide StridedFits;
    if n < 0x100_0000 {
      forall x, col | |x| == n && Weights(x, col) ensures StridedFits(x, col) { StridedWithin(x, col); }
    } else {
      StridedOver(n);
    }
  }

  /** The lossy kernel's accumulator after any rows. */
  ghost predicate LossyFits(x: seq<Int8>, col: seq<int>)
    requires |x| == |col|
  {
    forall k :: 0 <= k <= |x| ==> Fits32(Inner(Clamped(x)[..k], col[..k]))
  }

  lemma LossyOver(n: nat)
    requires 7 * n >= 0x8000_0000
    ensures |Lowest(n)| == n && Weights(Lowest(n), Minus(n)) && !LossyFits(Lowest(n), Minus(n))
  {
    hide Inner;
    var x, col := Lowest(n), Minus(n);
    assert forall k :: 0 <= k < n ==> Clamped(x)[k] == -7;
    InnerConstant(Clamped(x), col, -7, -1);
    assert Clamped(x)[..n] == Clamped(x) && col[..n] == col;
  }

  lemma LossyBound(n: nat)
    ensures (forall x, col :: |x| == n && Weights(x, col) ==> LossyFits(x, col)) <==> 7 * n < 0x8000_0000
  {
    if 7 * n < 0x8000_0000 {
      forall x, col | |x| == n && Weights(x, col) ensures LossyFits(x, col) { LossyWithin(x, col); }
    } else {
      LossyOver(n);
    }
  }

  lemma LossyWithin(x: seq<Int8>, col: seq<int>)
    requires Weights(x, col) && 7 * |x| < 0x8000_0000
    ensures LossyFits(x, col)
  {
    hide Inner;
    forall k | 0 <= k <= |x| ensures Fits32(Inner(Clamped(x)[..k], col[..k])) {
      InnerBound(Clamped(x)[..k], col[..k], 7);
    }
  }
}
