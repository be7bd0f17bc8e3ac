/** The packed-trit matrix-vector kernels. Four kernels with different unpacking, lane
    partitions and layouts are proved to leave the same integer dot product in every column.
    A warp is 32 lanes; each lane has its own accumulators, and the lanes meet only in the
    shuffle reduction, where all of them update at once. */
module PackedKernels {
  import opened Positional
  import opened Sums

  type Byte = b: int | 0 <= b < 256
  type Int8 = v: int | -128 <= v < 128

  const WARP: nat := 32

  // ---- bytes, trits and 32-bit words ----

  /** The two's-complement byte of a small integer, and back. */
  function U8(v: Int8): Byte { if v >= 0 then v else v + 256 }

  function S8(b: Byte): Int8 { if b < 128 then b else b - 256 }

  /** The weight in field sub of a byte: code 1 is +1, code 2 is -1, codes 0 and 3 are 0. */
  function TritOf(b: Byte, sub: nat): int
    requires sub < 4
  {
    var t := FieldAt(4, b, sub);
    (if t == 1 then 1 else 0) - (if t == 2 then 1 else 0)
  }

  /** A little-endian 32-bit word of four bytes. */
  function Word4(b0: Byte, b1: Byte, b2: Byte, b3: Byte): nat {
    b0 + 0x100 * b1 + 0x1_0000 * b2 + 0x100_0000 * b3
  }

  /** Byte i of a word: shift right by 8*i, mask with 0xff. */
  function ByteOf(w: nat, i: nat): Byte
    requires i < 4
  {
    match i
    case 0 => w % 256
    case 1 => w / 0x100 % 256
    case 2 => w / 0x1_0000 % 256
    case 3 => w / 0x100_0000 % 256
  }

  lemma ByteOfWord4(b0: Byte, b1: Byte, b2: Byte, b3: Byte)
    ensures var w := Word4(b0, b1, b2, b3);
      ByteOf(w, 0) == b0 && ByteOf(w, 1) == b1 && ByteOf(w, 2) == b2 && ByteOf(w, 3) == b3
  {
    var w := Word4(b0, b1, b2, b3);
    assert w / 0x100 == b1 + 0x100 * b2 + 0x1_0000 * b3;
    assert w / 0x1_0000 == b2 + 0x100 * b3;
    assert w / 0x100_0000 == b3;
  }

  /** A load of the four bytes at k. */
  function LoadWord(bytes: seq<Byte>, k: nat): nat
    requires k + 4 <= |bytes|
  {
    Word4(bytes[k], bytes[k + 1], bytes[k + 2], bytes[k + 3])
  }

  function LoadX(x: seq<Int8>, k: nat): nat
    requires k + 4 <= |x|
  {
    Word4(U8(x[k]), U8(x[k + 1]), U8(x[k + 2]), U8(x[k + 3]))
  }

  /** dp4a: four signed byte products added to an accumulator. */
  function Dp4a(x: nat, w: nat, acc: int): int {
    acc + S8(ByteOf(x, 0)) * S8(ByteOf(w, 0)) + S8(ByteOf(x, 1)) * S8(ByteOf(w, 1))
        + S8(ByteOf(x, 2)) * S8(ByteOf(w, 2)) + S8(ByteOf(x, 3)) * S8(ByteOf(w, 3))
  }

  lemma Dp4aOfTrits(x: seq<Int8>, k: nat, t0: Int8, t1: Int8, t2: Int8, t3: Int8, acc: int)
    requires k + 4 <= |x|
    ensures Dp4a(LoadX(x, k), Word4(U8(t0), U8(t1), U8(t2), U8(t3)), acc)
         == acc + x[k] * t0 + x[k + 1] * t1 + x[k + 2] * t2 + x[k + 3] * t3
  {
    hide Word4, ByteOf;
    ByteOfWord4(U8(x[k]), U8(x[k + 1]), U8(x[k + 2]), U8(x[k + 3]));
    ByteOfWord4(U8(t0), U8(t1), U8(t2), U8(t3));
  }

  // ---- the dot product every kernel must compute ----

  /** The weights of one column of a byte-column: one trit of each byte. */
  function Column(wc: seq<Byte>, sub: nat): (r: seq<int>)
    requires sub < 4
    ensures |r| == |wc|
  {
    seq(|wc|, k requires 0 <= k < |wc| => TritOf(wc[k], sub))
  }

  /** Column-major storage: byte j*K + k holds row k of columns 4j .. 4j+3. */
  function ByteColumn(w: seq<Byte>, kk: nat, j: nat): (r: seq<Byte>)
    requires (j + 1) * kk <= |w|
    ensures |r| == kk
  {
    ColumnStart(kk, j);
    w[j * kk..(j + 1) * kk]
  }

  lemma ColumnStart(kk: nat, j: nat)
    ensures 0 <= j * kk && (j + 1) * kk == j * kk + kk
  {
  }

  lemma ColumnFits(kk: nat, j: nat, cols: nat)
    requires j < cols
    ensures (j + 1) * kk <= cols * kk
  {
    assert cols * kk == (j + 1) * kk + (cols - j - 1) * kk;
  }

  /** A weight buffer of K rows and N columns. */
  predicate Shape(x: seq<Int8>, w: seq<Byte>, kk: nat, n: nat) {
    |x| == kk && n % 4 == 0 && |w| == n / 4 * kk
  }

  function Dot(x: seq<Int8>, w: seq<Byte>, kk: nat, n: nat, col: nat): int
    requires Shape(x, w, kk, n) && col < n
  {
    ColumnFits(kk, col / 4, n / 4);
    Inner(x, Column(ByteColumn(w, kk, col / 4), col % 4))
  }

  // ---- the warp shuffle reduction ----

  /** The lane a butterfly exchange of offset o pairs with: lane xor o, for o a power of two. */
  function Partner(lane: nat, o: nat): (p: int)
    requires o > 0
  {
    if lane / o % 2 == 0 then lane + o else lane - o
  }

  /** Every lane holds entry (lane mod o) of s. */
  predicate Periodic(acc: seq<int>, s: seq<int>, o: nat)
    requires o > 0 && |s| == o
  {
    |acc| == WARP && forall l :: 0 <= l < WARP ==> acc[l] == s[l % o]
  }

  predicate IsOffset(h: nat) { h == 1 || h == 2 || h == 4 || h == 8 || h == 16 }

  /** A lane and its partner sit h apart in one period of 2h; i is the place both fold onto. */
  predicate PartnerIs(lane: nat, h: nat, mine: int, other: int, i: int)
    requires h > 0
  {
    && 0 <= Partner(lane, h) < WARP && 0 <= i < h
    && ((mine == i && other == i + h) || (mine == i + h && other == i))
  }

  lemma Partner1(lane: nat)
    requires lane < WARP
    ensures PartnerIs(lane, 1, lane % 2, Partner(lane, 1) % 2, lane % 1)
  {
  }

  lemma Partner2(lane: nat)
    requires lane < WARP
    ensures PartnerIs(lane, 2, lane % 4, Partner(lane, 2) % 4, lane % 2)
  {
  }

  lemma Partner4(lane: nat)
    requires lane < WARP
    ensures PartnerIs(lane, 4, lane % 8, Partner(lane, 4) % 8, lane % 4)
  {
  }

  lemma Partner8(lane: nat)
    requires lane < WARP
    ensures PartnerIs(lane, 8, lane % 16, Partner(lane, 8) % 16, lane % 8)
  {
  }

  lemma Partner16(lane: nat)
    requires lane < WARP
    ensures PartnerIs(lane, 16, lane % 32, Partner(lane, 16) % 32, lane % 16)
  {
  }

  lemma PartnerIndex(lane: nat, h: nat)
    requires IsOffset(h) && lane < WARP
    ensures PartnerIs(lane, h, lane % (2 * h), Partner(lane, h) % (2 * h), lane % h)
  {
    hide PartnerIs, Partner;
    match h
    case 1 => Partner1(lane);
    case 2 => Partner2(lane);
    case 4 => Partner4(lane);
    case 8 => Partner8(lane);
    case _ => Partner16(lane);
  }

  lemma PartnerFolds(acc: seq<int>, s: seq<int>, h: nat, lane: nat)
    requires IsOffset(h) && |s| == 2 * h && Periodic(acc, s, 2 * h) && lane < WARP
    ensures 0 <= Partner(lane, h) < WARP
    ensures 0 <= lane % h < h && acc[lane] + acc[Partner(lane, h)] == Fold(s, h)[lane % h]
  {
    hide Partner;
    PartnerIndex(lane, h);
    var p := Partner(lane, h);
    assert acc[lane] == s[lane % (2 * h)] && acc[p] == s[p % (2 * h)];
  }

  /** The distinct lane values once the exchanges down to offset o are done. */
  function Stage(vals: seq<int>, o: nat): (r: seq<int>)
    requires |vals| == WARP && (IsOffset(o) || o == WARP)
    ensures |r| == o
  {
    if o == WARP then vals
    else
      var s16 := Fold(vals, 16);
      if o == 16 then s16
      else
        var s8 := Fold(s16, 8);
        if o == 8 then s8
        else
          var s4 := Fold(s8, 4);
          if o == 4 then s4
          else
            var s2 := Fold(s4, 2);
            if o == 2 then s2 else Fold(s2, 1)
  }

  /** for (o = 16; o > 0; o >>= 1) acc += shfl_xor(acc, o): every lane ends with the full sum. */
  method WarpReduce(vals: seq<int>) returns (acc: seq<int>)
    requires |vals| == WARP
    ensures |acc| == WARP && forall l :: 0 <= l < WARP ==> acc[l] == Sum(vals)
  {
    acc := vals;
    var o: nat := 16;
    ghost var s := vals;
    while o > 0
      invariant o == 0 || IsOffset(o)
      invariant |s| == (if o == 0 then 1 else 2 * o) && s == Stage(vals, |s|) && Periodic(acc, s, |s|)
      invariant Sum(s) == Sum(vals)
    {
      var before := acc;
      forall l | 0 <= l < WARP
        ensures 0 <= Partner(l, o) < WARP && before[l] + before[Partner(l, o)] == Fold(s, o)[l % o]
      {
        PartnerFolds(before, s, o, l);
      }
      acc := seq(WARP, l requires 0 <= l < WARP && 0 <= Partner(l, o) < WARP => before[l] + before[Partner(l, o)]);
      FoldKeepsSum(s, o);
      s := Fold(s, o);
      o := o / 2;
    }
    assert Sum(s) == Sum(s[..0]) + s[0];
  }

  // ---- contiguous lanes: v11 (dp4a), add-only and LUT ----

  /** K positions per lane. */
  function PerLane(kk: nat): nat { (kk + 31) / 32 }

  /** Where lane l's range starts and ends; ranges past the end are empty. */
  function LaneStart(kk: nat, l: nat): (r: nat)
    ensures r <= kk
  {
    if l * PerLane(kk) <= kk then l * PerLane(kk) else kk
  }

  /** The inner product over one lane's range. */
  function LaneInner(x: seq<Int8>, col: seq<int>, l: nat): int
    requires |x| == |col|
  {
    StartsOrdered(|x|, l);
    var lo, hi := LaneStart(|x|, l), LaneStart(|x|, l + 1);
    Inner(x[lo..hi], col[lo..hi])
  }

  lemma StartsOrdered(kk: nat, l: nat)
    ensures 0 <= l * PerLane(kk) && (l + 1) * PerLane(kk) == l * PerLane(kk) + PerLane(kk)
    ensures LaneStart(kk, l) <= LaneStart(kk, l + 1)
  {
  }

  lemma LanesCover(kk: nat)
    ensures LaneStart(kk, 0) == 0 && LaneStart(kk, WARP) == kk
  {
  }

  function FirstLanes(x: seq<Int8>, col: seq<int>, n: nat): (r: seq<int>)
    requires |x| == |col|
    ensures |r| == n
  {
    seq(n, l requires 0 <= l < n => LaneInner(x, col, l))
  }

  /** The lane ranges cover [0, K) exactly once. */
  lemma {:induction false} LanesPartition(x: seq<Int8>, col: seq<int>, n: nat)
    requires |x| == |col|
    ensures Sum(FirstLanes(x, col, n)) == Inner(x[..LaneStart(|x|, n)], col[..LaneStart(|x|, n)])
    decreases n
  {
    if n == 0 {
      assert x[..LaneStart(|x|, 0)] == [];
    } else {
      LanesPartition(x, col, n - 1);
      assert FirstLanes(x, col, n)[..n - 1] == FirstLanes(x, col, n - 1);
      StartsOrdered(|x|, n - 1);
      var lo, hi := LaneStart(|x|, n - 1), LaneStart(|x|, n);
      InnerSplit(x, col, 0, lo, hi);
      assert x[0..hi] == x[..hi] && col[0..hi] == col[..hi] && x[0..lo] == x[..lo] && col[0..lo] == col[..lo];
    }
  }

  lemma AllLanes(x: seq<Int8>, col: seq<int>)
    requires |x| == |col|
    ensures Sum(FirstLanes(x, col, WARP)) == Inner(x, col)
  {
    LanesPartition(x, col, WARP);
    LanesCover(|x|);
    assert x[..|x|] == x && col[..|x|] == col;
  }

  datatype Unpack = ByDp4a | ByAdds | ByTable(table: seq<nat>)

  /** The table entry of a byte: its four signed trits, one per byte of a word. */
  function TableEntry(b: Byte): nat {
    Word4(U8(TritOf(b, 0)), U8(TritOf(b, 1)), U8(TritOf(b, 2)), U8(TritOf(b, 3)))
  }

  ghost predicate IsTable(table: seq<nat>) {
    |table| == 256 && forall b: Byte :: table[b] == TableEntry(b)
  }

  /** init_unpack_lut_host */
  method InitUnpackTable() returns (table: seq<nat>)
    ensures IsTable(table)
  {
    table := [];
    for b := 0 to 256
      invariant |table| == b && forall c: Byte :: c < b ==> table[c] == TableEntry(c)
    {
      var v := [0, 0, 0, 0];
      for s := 0 to 4
        invariant |v| == 4 && forall j :: 0 <= j < s ==> v[j] == TritOf(b, j)
      {
        var t := FieldAt(4, b, s);
        v := v[s := (if t == 1 then 1 else 0) - (if t == 2 then 1 else 0)];
      }
      table := table + [Word4(U8(v[0]), U8(v[1]), U8(v[2]), U8(v[3]))];
    }
  }

  /** One column's four products in the unrolled body, by each kernel's own unpacking. */
  method QuadStep(how: Unpack, x: seq<Int8>, wc: seq<Byte>, k: nat, sub: nat, acc: int) returns (acc': int)
    requires |x| == |wc| && k + 4 <= |x| && sub < 4 && (how.ByTable? ==> IsTable(how.table))
    ensures acc' == acc + x[k] * TritOf(wc[k], sub) + x[k + 1] * TritOf(wc[k + 1], sub)
                        + x[k + 2] * TritOf(wc[k + 2], sub) + x[k + 3] * TritOf(wc[k + 3], sub)
  {
    hide Word4, ByteOf, FieldAt;
    var w := LoadWord(wc, k);
    var x4 := LoadX(x, k);
    ByteOfWord4(wc[k], wc[k + 1], wc[k + 2], wc[k + 3]);
    match how {
      case ByDp4a =>
        var w4 := Word4(U8(TritOf(ByteOf(w, 0), sub)), U8(TritOf(ByteOf(w, 1), sub)),
                        U8(TritOf(ByteOf(w, 2), sub)), U8(TritOf(ByteOf(w, 3), sub)));
        Dp4aOfTrits(x, k, TritOf(wc[k], sub), TritOf(wc[k + 1], sub), TritOf(wc[k + 2], sub),
                    TritOf(wc[k + 3], sub), acc);
        acc' := Dp4a(x4, w4, acc);
      case ByAdds =>
        ByteOfWord4(U8(x[k]), U8(x[k + 1]), U8(x[k + 2]), U8(x[k + 3]));
        acc' := AddTrit(acc, S8(ByteOf(x4, 0)), FieldAt(4, ByteOf(w, 0), sub));
        acc' := AddTrit(acc', S8(ByteOf(x4, 1)), FieldAt(4, ByteOf(w, 1), sub));
        acc' := AddTrit(acc', S8(ByteOf(x4, 2)), FieldAt(4, ByteOf(w, 2), sub));
        acc' := AddTrit(acc', S8(ByteOf(x4, 3)), FieldAt(4, ByteOf(w, 3), sub));
      case ByTable(table) =>
        TableByte(wc[k], sub);
        TableByte(wc[k + 1], sub);
        TableByte(wc[k + 2], sub);
        TableByte(wc[k + 3], sub);
        var v0, v1 := ByteOf(table[ByteOf(w, 0)], sub), ByteOf(table[ByteOf(w, 1)], sub);
        var v2, v3 := ByteOf(table[ByteOf(w, 2)], sub), ByteOf(table[ByteOf(w, 3)], sub);
        Dp4aOfTrits(x, k, TritOf(wc[k], sub), TritOf(wc[k + 1], sub), TritOf(wc[k + 2], sub),
                    TritOf(wc[k + 3], sub), acc);
        acc' := Dp4a(x4, Word4(v0, v1, v2, v3), acc);
    }
  }

  lemma TableByte(b: Byte, sub: nat)
    requires sub < 4
    ensures ByteOf(TableEntry(b), sub) == U8(TritOf(b, sub))
  {
    hide Word4, ByteOf, FieldAt;
    ByteOfWord4(U8(TritOf(b, 0)), U8(TritOf(b, 1)), U8(TritOf(b, 2)), U8(TritOf(b, 3)));
  }

  /** No multiplication: add, subtract or skip. */
  method AddTrit(acc: int, x: int, code: nat) returns (acc': int)
    ensures acc' == acc + x * ((if code == 1 then 1 else 0) - (if code == 2 then 1 else 0))
  {
    acc' := acc;
    if code == 1 { acc' := acc + x; } else if code == 2 { acc' := acc - x; }
  }

  /** One product of the tail loop. */
  method TailStep(how: Unpack, xv: Int8, b: Byte, sub: nat, acc: int) returns (acc': int)
    requires sub < 4 && (how.ByTable? ==> IsTable(how.table))
    ensures acc' == acc + xv * TritOf(b, sub)
  {
    hide Word4, ByteOf, FieldAt;
    match how {
      case ByDp4a => acc' := acc + xv * TritOf(b, sub);
      case ByAdds => acc' := AddTrit(acc, xv, FieldAt(4, b, sub));
      case ByTable(table) =>
        TableByte(b, sub);
        acc' := acc + xv * S8(ByteOf(table[b], sub));
    }
  }

  /** The thread body: an unrolled loop over four rows at a time, then the rest one by one,
      skipping zero activations. */
  method LaneKernel(how: Unpack, x: seq<Int8>, wc: seq<Byte>, lane: nat) returns (acc: seq<int>)
    requires |x| == |wc| && lane < WARP && (how.ByTable? ==> IsTable(how.table))
    ensures |acc| == 4 && forall sub :: 0 <= sub < 4 ==> acc[sub] == LaneInner(x, Column(wc, sub), lane)
  {
    hide TritOf, Inner;
    var kpt := (|x| + 31) / 32;
    var kstart := lane * kpt;
    var kend := if |x| < kstart + kpt then |x| else kstart + kpt;
    StartsOrdered(|x|, lane);
    ghost var lo := LaneStart(|x|, lane);
    acc := [0, 0, 0, 0];
    var k := kstart;
    EmptyState(x, wc, lo);
    if kstart >= kend { return; }
    while k + 4 <= kend
      invariant kstart <= k <= kend && LaneState(x, wc, lo, k, acc)
    {
      var prev := acc;
      for sub := 0 to 4
        invariant |acc| == 4
        invariant forall j :: 0 <= j < 4 ==> acc[j] == if j < sub then QuadSum(x, wc, k, j, prev[j]) else prev[j]
      {
        var a := QuadStep(how, x, wc, k, sub, acc[sub]);
        acc := acc[sub := a];
      }
      QuadState(x, wc, lo, k, prev, acc);
      k := k + 4;
    }
    while k < kend
      invariant kstart <= k <= kend && LaneState(x, wc, lo, k, acc)
    {
      var prev := acc;
      if x[k] != 0 {
        for sub := 0 to 4
          invariant |acc| == 4
          invariant forall j :: 0 <= j < 4 ==>
            acc[j] == if j < sub then prev[j] + x[k] * TritOf(wc[k], j) else prev[j]
        {
          var a := TailStep(how, x[k], wc[k], sub, acc[sub]);
          acc := acc[sub := a];
        }
      }
      TailState(x, wc, lo, k, prev, acc);
      k := k + 1;
    }
  }

  function QuadSum(x: seq<Int8>, wc: seq<Byte>, k: nat, sub: nat, acc: int): int
    requires |x| == |wc| && k + 4 <= |x| && sub < 4
  {
    acc + x[k] * TritOf(wc[k], sub) + x[k + 1] * TritOf(wc[k + 1], sub)
        + x[k + 2] * TritOf(wc[k + 2], sub) + x[k + 3] * TritOf(wc[k + 3], sub)
  }

  /** The accumulators hold the products of rows [lo, k). */
  ghost predicate LaneState(x: seq<Int8>, wc: seq<Byte>, lo: nat, k: nat, acc: seq<int>)
    requires |x| == |wc|
  {
    lo <= k <= |x| && |acc| == 4 &&
    forall sub :: 0 <= sub < 4 ==> acc[sub] == Inner(x[lo..k], Column(wc, sub)[lo..k])
  }

  lemma EmptyState(x: seq<Int8>, wc: seq<Byte>, lo: nat)
    requires |x| == |wc| && lo <= |x|
    ensures LaneState(x, wc, lo, lo, [0, 0, 0, 0])
  {
  }

  lemma QuadState(x: seq<Int8>, wc: seq<Byte>, lo: nat, k: nat, prev: seq<int>, acc: seq<int>)
    requires |x| == |wc| && LaneState(x, wc, lo, k, prev) && k + 4 <= |x| && |acc| == 4
    requires forall sub :: 0 <= sub < 4 ==> acc[sub] == QuadSum(x, wc, k, sub, prev[sub])
    ensures LaneState(x, wc, lo, k + 4, acc)
  {
    hide TritOf, Inner;
    forall sub | 0 <= sub < 4 ensures acc[sub] == Inner(x[lo..k + 4], Column(wc, sub)[lo..k + 4]) {
      InnerSnoc4(x, Column(wc, sub), lo, k);
    }
  }

  lemma TailState(x: seq<Int8>, wc: seq<Byte>, lo: nat, k: nat, prev: seq<int>, acc: seq<int>)
    requires |x| == |wc| && LaneState(x, wc, lo, k, prev) && k < |x| && |acc| == 4
    requires forall sub :: 0 <= sub < 4 ==> acc[sub] == prev[sub] + x[k] * TritOf(wc[k], sub)
    ensures LaneState(x, wc, lo, k + 1, acc)
  {
    hide TritOf, Inner;
    forall sub | 0 <= sub < 4 ensures acc[sub] == Inner(x[lo..k + 1], Column(wc, sub)[lo..k + 1]) {
      InnerSnoc(x, Column(wc, sub), lo, k);
    }
  }

  /** Whole blocks of eight warps cover every tile. */
  /** The epilogue's stores: the columns of one tile. */
  method StoreTile(out: array<int>, at: nat, y: seq<int>)
    requires at + |y| <= out.Length
    modifies out
    ensures forall col :: 0 <= col < out.Length ==>
      out[col] == if at <= col < at + |y| then y[col - at] else old(out[col])
  {
    for s := 0 to |y|
      invariant forall col :: 0 <= col < out.Length ==>
        out[col] == if at <= col < at + s then y[col - at] else old(out[col])
    {
      out[at + s] := y[s];
    }
  }

  /** One warp: four columns, reduced across its lanes. */
  method WarpKernel(how: Unpack, x: seq<Int8>, wc: seq<Byte>) returns (acc: seq<int>)
    requires |x| == |wc| && (how.ByTable? ==> IsTable(how.table))
    ensures |acc| == 4 && forall sub :: 0 <= sub < 4 ==> acc[sub] == Inner(x, Column(wc, sub))
  {
    var lanes: seq<seq<int>> := [];
    for lane := 0 to WARP
      invariant |lanes| == lane && forall l :: 0 <= l < lane ==> |lanes[l]| == 4
      invariant forall l, sub :: 0 <= l < lane && 0 <= sub < 4 ==>
        lanes[l][sub] == LaneInner(x, Column(wc, sub), l)
    {
      var a := LaneKernel(how, x, wc, lane);
      lanes := lanes + [a];
    }
    acc := [0, 0, 0, 0];
    for sub := 0 to 4
      invariant |acc| == 4 && forall j :: 0 <= j < sub ==> acc[j] == Inner(x, Column(wc, j))
    {
      var vals := seq(WARP, l requires 0 <= l < WARP => lanes[l][sub]);
      assert vals == FirstLanes(x, Column(wc, sub), WARP);
      AllLanes(x, Column(wc, sub));
      var r := WarpReduce(vals);
      acc := acc[sub := r[0]];
    }
  }

  /** The grid of v11, add-only or LUT warps: the four columns of each warp, lane 0 writing. */
  method Launch(how: Unpack, x: seq<Int8>, w: seq<Byte>, kk: nat, n: nat) returns (out: array<int>)
    requires Shape(x, w, kk, n) && (how.ByTable? ==> IsTable(how.table))
    ensures out.Length == n && forall col :: 0 <= col < n ==> out[col] == Dot(x, w, kk, n, col)
  {
    out := new int[n];
    var warps := (n / 4 + 7) / 8 * 8;
    for warp := 0 to warps
      invariant forall col :: 0 <= col < n && col < 4 * warp ==> out[col] == Dot(x, w, kk, n, col)
    {
      var jBase := warp * 4;
      if jBase < n {
        var jByte := jBase / 4;
        ColumnFits(kk, jByte, n / 4);
        var acc := WarpKernel(how, x, ByteColumn(w, kk, jByte));
        forall sub | 0 <= sub < 4 {
          out[jBase + sub] := acc[sub];
        }
      }
    }
  }
}
