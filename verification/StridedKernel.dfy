/** The v12 kernel: X staged in shared memory, sixteen rows per lane per pass with a stride of
    a whole warp, and eight columns per warp from two adjacent byte-columns. */
module StridedKernel {
  import opened Arithmetic
  import opened Sums
  import opened PackedKernels

  /** The 16-row chunk c of an inner product. */
  function ChunkInner(x: seq<int>, col: seq<int>, c: nat): int
    requires |x| == |col| && 16 * c + 16 <= |x|
  {
    Inner(x[16 * c..16 * c + 16], col[16 * c..16 * c + 16])
  }

  /** Lane l's share of the first n chunks: those congruent to l modulo the warp size. */
  function Share(x: seq<int>, col: seq<int>, l: nat, n: nat): int
    requires |x| == |col| && 16 * n <= |x|
  {
    if n == 0 then 0
    else Share(x, col, l, n - 1) + if (n - 1) % WARP == l then ChunkInner(x, col, n - 1) else 0
  }

  function Shares(x: seq<int>, col: seq<int>, n: nat): (r: seq<int>)
    requires |x| == |col| && 16 * n <= |x|
    ensures |r| == WARP
  {
    seq(WARP, l requires 0 <= l < WARP => Share(x, col, l, n))
  }

  /** The strided shares cover every chunk exactly once. */
  lemma {:induction false} SharesPartition(x: seq<int>, col: seq<int>, n: nat)
    requires |x| == |col| && 16 * n <= |x|
    ensures Sum(Shares(x, col, n)) == Inner(x[..16 * n], col[..16 * n])
  {
    hide Inner;
    if n == 0 {
      SumZeros(Shares(x, col, 0));
      NoRows(x, col);
    } else {
      SharesPartition(x, col, n - 1);
      var i, before := (n - 1) % WARP, Shares(x, col, n - 1);
      assert Shares(x, col, n) == before[i := before[i] + ChunkInner(x, col, n - 1)];
      SumUpdate(before, i, before[i] + ChunkInner(x, col, n - 1));
      InnerSplit(x, col, 0, 16 * n - 16, 16 * n);
      assert x[0..16 * n] == x[..16 * n] && col[0..16 * n] == col[..16 * n];
      assert x[0..16 * n - 16] == x[..16 * (n - 1)] && col[0..16 * n - 16] == col[..16 * (n - 1)];
    }
  }

  lemma NoRows(x: seq<int>, col: seq<int>)
    requires |x| == |col|
    ensures Inner(x[..0], col[..0]) == 0
  {
  }

  /** Chunks of other lanes add nothing. */
  lemma {:induction false} ShareSkips(x: seq<int>, col: seq<int>, l: nat, n: nat, m: nat)
    requires |x| == |col| && n <= m && 16 * m <= |x|
    requires forall c :: n <= c < m ==> c % WARP != l
    ensures Share(x, col, l, m) == Share(x, col, l, n)
    decreases m
  {
    if n == m {
    } else {
      ShareSkips(x, col, l, n, m - 1);
    }
  }

  /** The share after one more chunk of the lane, wherever the next one lands. */
  lemma ShareStep(x: seq<int>, col: seq<int>, l: nat, c: nat, n: nat)
    requires |x| == |col| && 16 * n <= |x| && l < WARP && c % WARP == l && c < n
    ensures Share(x, col, l, if c + WARP < n then c + WARP else n)
         == Share(x, col, l, c) + ChunkInner(x, col, c)
  {
    var m := if c + WARP < n then c + WARP else n;
    forall d | c + 1 <= d < m ensures d % WARP != l {
      var k := d - c;
      assert 1 <= k < WARP && d == c + k;
    }
    ShareSkips(x, col, l, c + 1, m);
  }

  /** The 16-byte piece p of the shared copy has arrived. */
  predicate Staged(shared: seq<Int8>, x: seq<Int8>, p: nat) {
    16 * p + 16 <= |shared| == |x| && shared[16 * p..16 * p + 16] == x[16 * p..16 * p + 16]
  }

  /** Staging: the threads of a block copy pieces in strides of the block size. */
  method StageX(x: seq<Int8>, blockSize: nat) returns (sx: seq<Int8>)
    requires |x| % 16 == 0 && blockSize > 0
    ensures sx == x
  {
    var shared := new Int8[|x|](i => 0);
    var pieces := |x| / 16;
    for tid := 0 to blockSize
      invariant forall p: nat :: p < pieces && p % blockSize < tid ==> Staged(shared[..], x, p)
    {
      var i := tid;
      SmallMod(tid, blockSize);
      forall p: nat | p < tid ensures p % blockSize != tid { SmallMod(p, blockSize); }
      while i < pieces
        invariant i % blockSize == tid
        invariant forall p: nat :: p < pieces && p % blockSize < tid ==> Staged(shared[..], x, p)
        invariant forall p: nat :: p < pieces && p < i && p % blockSize == tid ==> Staged(shared[..], x, p)
      {
        ghost var before := shared[..];
        forall b | 0 <= b < 16 { shared[16 * i + b] := x[16 * i + b]; }
        assert Staged(shared[..], x, i);
        forall p: nat | p < pieces && p != i && Staged(before, x, p) ensures Staged(shared[..], x, p) {
          assert shared[..][16 * p..16 * p + 16] == before[16 * p..16 * p + 16];
        }
        NextPiece(i, blockSize);
        i := i + blockSize;
      }
    }
    forall k | 0 <= k < |x| ensures shared[k] == x[k] {
      assert Staged(shared[..], x, k / 16) by { InRange(k / 16, blockSize); }
      assert shared[..][16 * (k / 16)..16 * (k / 16) + 16][k % 16] == shared[k];
      assert x[16 * (k / 16)..16 * (k / 16) + 16][k % 16] == x[k];
    }
    sx := shared[..];
  }

  lemma SmallMod(p: nat, bs: nat)
    requires p < bs
    ensures p % bs == p
  {
    ModUnique(p, bs, 0, p);
  }

  lemma InRange(p: nat, bs: nat)
    requires bs > 0
    ensures p % bs < bs
  {
  }

  lemma NextPiece(i: nat, bs: nat)
    requires bs > 0
    ensures (i + bs) % bs == i % bs
    ensures forall p: nat :: i < p < i + bs ==> p % bs != i % bs
  {
    var q, r := i / bs, i % bs;
    ModUnique(i + bs, bs, q + 1, r);
    forall p: nat | i < p < i + bs ensures p % bs != r {
      if r + (p - i) < bs {
        ModUnique(p, bs, q, r + (p - i));
      } else {
        ModUnique(p, bs, q + 1, r + (p - i) - bs);
      }
    }
  }

  /** The eight accumulators hold the lane's chunks below c. */
  ghost predicate LaneState(sx: seq<Int8>, wc0: seq<Byte>, wc1: seq<Byte>, lane: nat, c: nat, acc: seq<int>)
    requires |sx| == |wc0| == |wc1|
  {
    var n := Until(c, |sx| / 16);
    |acc| == 8
    && (forall sub :: 0 <= sub < 4 ==> acc[sub] == Share(sx, Column(wc0, sub), lane, n))
    && (forall sub :: 0 <= sub < 4 ==> acc[sub + 4] == Share(sx, Column(wc1, sub), lane, n))
  }

  lemma LaneBegins(sx: seq<Int8>, wc0: seq<Byte>, wc1: seq<Byte>, lane: nat)
    requires |sx| == |wc0| == |wc1| && lane < WARP
    ensures LaneState(sx, wc0, wc1, lane, lane, [0, 0, 0, 0, 0, 0, 0, 0])
  {
    hide TritOf, Inner;
    var n := Until(lane, |sx| / 16);
    forall sub | 0 <= sub < 4
      ensures Share(sx, Column(wc0, sub), lane, n) == 0 && Share(sx, Column(wc1, sub), lane, n) == 0
    {
      ShareSkips(sx, Column(wc0, sub), lane, 0, n);
      ShareSkips(sx, Column(wc1, sub), lane, 0, n);
    }
  }

  /** One pass: the lane's next chunk of all eight columns. */
  method LanePass(sx: seq<Int8>, wc0: seq<Byte>, wc1: seq<Byte>, lane: nat, c: nat, acc: seq<int>)
    returns (acc': seq<int>)
    requires |sx| == |wc0| == |wc1| && lane < WARP && c % WARP == lane && 16 * c + 16 <= |sx|
    requires LaneState(sx, wc0, wc1, lane, c, acc)
    ensures LaneState(sx, wc0, wc1, lane, c + WARP, acc')
  {
    hide TritOf, Inner, Share, ChunkInner;
    var n := |sx| / 16;
    ghost var done := Until(c + WARP, n);
    acc' := acc;
    for sub := 0 to 4
      invariant |acc'| == 8
      invariant forall j :: sub <= j < 4 || sub + 4 <= j < 8 ==> acc'[j] == acc[j]
      invariant forall j :: 0 <= j < sub ==> acc'[j] == Share(sx, Column(wc0, j), lane, done)
      invariant forall j :: 0 <= j < sub ==> acc'[j + 4] == Share(sx, Column(wc1, j), lane, done)
    {
      var a := ChunkProduct(sx, wc0, sub, 16 * c, acc'[sub]);
      var b := ChunkProduct(sx, wc1, sub, 16 * c, acc'[sub + 4]);
      ShareStep(sx, Column(wc0, sub), lane, c, n);
      ShareStep(sx, Column(wc1, sub), lane, c, n);
      acc' := acc'[sub := a][sub + 4 := b];
    }
  }

  /** The thread body: 16 rows of both byte-columns per pass, in strides of a warp. */
  method LaneKernel(sx: seq<Int8>, wc0: seq<Byte>, wc1: seq<Byte>, lane: nat) returns (acc: seq<int>)
    requires |sx| == |wc0| == |wc1| && |sx| % 16 == 0 && lane < WARP
    ensures |acc| == 8
    ensures forall sub :: 0 <= sub < 4 ==> acc[sub] == Share(sx, Column(wc0, sub), lane, |sx| / 16)
    ensures forall sub :: 0 <= sub < 4 ==> acc[sub + 4] == Share(sx, Column(wc1, sub), lane, |sx| / 16)
  {
    hide TritOf, Inner, Share;
    acc := [0, 0, 0, 0, 0, 0, 0, 0];
    LaneBegins(sx, wc0, wc1, lane);
    var k := lane * 16;
    ghost var c: nat := lane;
    while k + 16 <= |sx|
      invariant k == 16 * c && c % WARP == lane && LaneState(sx, wc0, wc1, lane, c, acc)
    {
      acc := LanePass(sx, wc0, wc1, lane, k / 16, acc);
      k := k + 512;
      c := c + WARP;
    }
  }

  function Until(c: nat, n: nat): nat { if c < n then c else n }

  /** Four dp4a steps over one 16-row piece of one column. */
  method ChunkProduct(sx: seq<Int8>, wc: seq<Byte>, sub: nat, k: nat, acc: int) returns (acc': int)
    requires |sx| == |wc| && sub < 4 && k % 16 == 0 && k + 16 <= |sx|
    ensures acc' == acc + ChunkInner(sx, Column(wc, sub), k / 16)
  {
    hide TritOf, Word4, ByteOf;
    acc' := acc;
    assert sx[k..k] == [] && Column(wc, sub)[k..k] == [];
    for chunk := 0 to 4
      invariant acc' == acc + Inner(sx[k..k + 4 * chunk], Column(wc, sub)[k..k + 4 * chunk])
    {
      InnerSnoc4(sx, Column(wc, sub), k, k + 4 * chunk);
      acc' := QuadStep(ByDp4a, sx, wc, k + 4 * chunk, sub, acc');
    }
  }

  method WarpKernel(sx: seq<Int8>, wc0: seq<Byte>, wc1: seq<Byte>) returns (acc: seq<int>)
    requires |sx| == |wc0| == |wc1| && |sx| % 16 == 0
    ensures |acc| == 8
    ensures forall sub :: 0 <= sub < 4 ==> acc[sub] == Inner(sx, Column(wc0, sub))
    ensures forall sub :: 0 <= sub < 4 ==> acc[sub + 4] == Inner(sx, Column(wc1, sub))
  {
    hide TritOf, Inner;
    var n := |sx| / 16;
    var lanes: seq<seq<int>> := [];
    for lane := 0 to WARP
      invariant |lanes| == lane && forall l :: 0 <= l < lane ==> |lanes[l]| == 8
      invariant forall l, sub :: 0 <= l < lane && 0 <= sub < 4 ==>
        lanes[l][sub] == Share(sx, Column(wc0, sub), l, n) && lanes[l][sub + 4] == Share(sx, Column(wc1, sub), l, n)
    {
      var a := LaneKernel(sx, wc0, wc1, lane);
      lanes := lanes + [a];
    }
    acc := [0, 0, 0, 0, 0, 0, 0, 0];
    for s := 0 to 8
      invariant |acc| == 8
      invariant forall j :: 0 <= j < 4 && j < s ==> acc[j] == Inner(sx, Column(wc0, j))
      invariant forall j :: 0 <= j < 4 && j + 4 < s ==> acc[j + 4] == Inner(sx, Column(wc1, j))
    {
      var vals := seq(WARP, l requires 0 <= l < WARP => lanes[l][s]);
      ghost var col := if s < 4 then Column(wc0, s) else Column(wc1, s - 4);
      assert vals == Shares(sx, col, n);
      SharesPartition(sx, col, n);
      assert sx[..16 * n] == sx && col[..16 * n] == col;
      var r := WarpReduce(vals);
      acc := acc[s := r[0]];
    }
  }

  /** The eight columns of the warp whose first column is jBase. */
  method WarpColumns(sx: seq<Int8>, w: seq<Byte>, kk: nat, n: nat, jBase: nat) returns (acc: seq<int>)
    requires Shape(sx, w, kk, n) && kk % 16 == 0 && jBase % 8 == 0 && jBase + 8 <= n
    ensures |acc| == 8 && forall s :: 0 <= s < 8 ==> acc[s] == Dot(sx, w, kk, n, jBase + s)
  {
    hide Dot, Inner, Column, ByteColumn;
    var j0 := jBase / 4;
    assert j0 * 4 == jBase;
    WhichColumn(sx, w, kk, n, j0, 0);
    WhichColumn(sx, w, kk, n, j0, 4);
    acc := WarpKernel(sx, ByteColumn(w, kk, j0), ByteColumn(w, kk, j0 + 1));
    forall s | 0 <= s < 8 ensures acc[s] == Dot(sx, w, kk, n, jBase + s) {
      WhichColumn(sx, w, kk, n, j0, s);
      if s >= 4 { assert acc[s - 4 + 4] == acc[s]; }
    }
  }

  /** The blocks of 64 columns cover all, and a warp that starts below n has all its columns. */
  lemma BlocksCover(n: nat, warp: nat)
    requires n % 8 == 0
    ensures (n + 63) / 64 * 8 * 8 >= n
    ensures warp * 8 < n ==> warp * 8 + 8 <= n && warp * 8 % 8 == 0
  {
  }

  /** The grid of v12 warps: eight columns each. */
  method Launch(x: seq<Int8>, w: seq<Byte>, kk: nat, n: nat) returns (out: array<int>)
    requires Shape(x, w, kk, n) && kk % 16 == 0 && n % 8 == 0
    ensures out.Length == n && forall col :: 0 <= col < n ==> out[col] == Dot(x, w, kk, n, col)
  {
    assert |x| % 16 == 0;
    hide Dot, Shape;
    out := new int[n];
    var blocks := (n + 63) / 64;
    for warp := 0 to blocks * 8
      invariant forall col :: 0 <= col < n && col < warp * 8 ==> out[col] == Dot(x, w, kk, n, col)
    {
      var sx := StageX(x, 256);
      var jBase := warp * 8;
      BlocksCover(n, warp);
      if jBase < n {
        var acc := WarpColumns(sx, w, kk, n, jBase);
        StoreTile(out, jBase, acc);
        forall col | 0 <= col < n && col < jBase + 8 ensures out[col] == Dot(x, w, kk, n, col) {
          if col >= jBase { assert acc[col - jBase] == Dot(x, w, kk, n, jBase + (col - jBase)); }
        }
      }
    }
    BlocksCover(n, 0);
  }

  /** Columns 8j .. 8j+3 are in the first byte-column of the warp, the next four in the second. */
  lemma WhichColumn(x: seq<Int8>, w: seq<Byte>, kk: nat, n: nat, j0: nat, s: nat)
    requires Shape(x, w, kk, n) && j0 * 4 + 8 <= n && s < 8
    ensures (j0 + 2) * kk <= |w| && (j0 + 1) * kk <= |w|
    ensures Dot(x, w, kk, n, j0 * 4 + s) ==
      if s < 4 then Inner(x, Column(ByteColumn(w, kk, j0), s)) else Inner(x, Column(ByteColumn(w, kk, j0 + 1), s - 4))
  {
    hide Inner, Column, ByteColumn;
    ColumnFits(kk, j0, n / 4);
    ColumnFits(kk, j0 + 1, n / 4);
    assert (j0 * 4 + s) / 4 == if s < 4 then j0 else j0 + 1;
    assert (j0 * 4 + s) % 4 == if s < 4 then s else s - 4;
  }
}
