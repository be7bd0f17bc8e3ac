/** The INT4 tensor-core kernels. Weights are repacked into per-lane fragments of eight signed
    nibbles; the precise kernel splits each int8 activation into two signed nibbles, runs two
    matrix products and recombines them; the lossy kernel clamps activations to [-7, 7]. */
module Int4Kernel {
  import opened Positional
  import opened Sums
  import opened PackedKernels

  type Nibble = d: int | 0 <= d < 16

  /** The signed value of a nibble, and the nibble of a small signed value (v & 0xF). */
  function S4(d: Nibble): int { if d < 8 then d else d - 16 }

  function Nib(v: int): Nibble { v % 16 }

  lemma SignedNibble(v: int)
    requires -8 <= v <= 7
    ensures S4(Nib(v)) == v
  {
  }

  /** Trit code to signed nibble: 0x1, 0xF, or 0 for codes 0 and 3. */
  function TritToInt4(code: nat): Nibble { if code == 1 then 1 else if code == 2 then 15 else 0 }

  /** Nibble i of a 32-bit fragment. */
  function NibbleAt(w: nat, i: nat): Nibble
    requires i < 8
  {
    FieldAt(16, w, i)
  }

  // ---- weight fragments ----

  /** The nibble of the weight at row k, column col. */
  function WeightNibble(w: seq<Byte>, kk: nat, n: nat, k: nat, col: nat): Nibble
    requires n % 4 == 0 && |w| == n / 4 * kk && k < kk && col < n
  {
    ColumnFits(kk, col / 4, n / 4);
    TritToInt4(FieldAt(4, ByteColumn(w, kk, col / 4)[k], col % 4))
  }

  /** Lane l's fragment of the 32 by 8 tile (nTile, kTile): eight consecutive rows of one column. */
  function Fragment(w: seq<Byte>, kk: nat, n: nat, nTile: nat, kTile: nat, lane: nat): (r: seq<int>)
    requires n % 8 == 0 && |w| == n / 4 * kk && nTile < n / 8 && kTile < kk / 32 && lane < 32
    ensures |r| == 8 && Fields(16, r)
  {
    var r := seq(8, i requires 0 <= i < 8 => FragmentNibble(w, kk, n, nTile, kTile, lane, i));
    assert forall i :: 0 <= i < 8 ==> r[i] == FragmentNibble(w, kk, n, nTile, kTile, lane, i);
    r
  }

  function FragmentNibble(w: seq<Byte>, kk: nat, n: nat, nTile: nat, kTile: nat, lane: nat, i: nat): Nibble
    requires n % 8 == 0 && |w| == n / 4 * kk && nTile < n / 8 && kTile < kk / 32 && lane < 32 && i < 8
  {
    WeightNibble(w, kk, n, kTile * 32 + lane % 4 * 8 + i, nTile * 8 + lane / 4)
  }

  function FragmentIndex(kTiles: nat, nt: nat, kt: nat, lane: nat): nat {
    (nt * kTiles + kt) * 32 + lane
  }

  /** The repacked buffer: the fragment of (nTile, kTile, lane) at its index. */
  ghost predicate Repacked(w: seq<Byte>, kk: nat, n: nat, out: seq<nat>)
    requires n % 8 == 0 && |w| == n / 4 * kk
  {
    forall nt, kt, lane :: 0 <= nt < n / 8 && 0 <= kt < kk / 32 && 0 <= lane < 32 ==>
      RepackedAt(w, kk, n, out, nt, kt, lane)
  }

  ghost predicate RepackedAt(w: seq<Byte>, kk: nat, n: nat, out: seq<nat>, nt: nat, kt: nat, lane: nat)
    requires n % 8 == 0 && |w| == n / 4 * kk && nt < n / 8 && kt < kk / 32 && lane < 32
  {
    var at := FragmentIndex(kk / 32, nt, kt, lane);
    at < |out| && out[at] == Join(16, Fragment(w, kk, n, nt, kt, lane))
  }

  /** Appending one word keeps every fragment already in place, and places the next. */
  lemma AppendFragment(w: seq<Byte>, kk: nat, n: nat, out: seq<nat>, word: nat,
                       nt: nat, kt: nat, lane: nat)
    requires n % 8 == 0 && |w| == n / 4 * kk && nt < n / 8 && kt < kk / 32 && lane < 32
    requires |out| == FragmentIndex(kk / 32, nt, kt, lane)
    requires word == Join(16, Fragment(w, kk, n, nt, kt, lane))
    ensures RepackedAt(w, kk, n, out + [word], nt, kt, lane)
    ensures forall a, b, c :: 0 <= a < n / 8 && 0 <= b < kk / 32 && 0 <= c < 32 ==>
      (RepackedAt(w, kk, n, out, a, b, c) ==> RepackedAt(w, kk, n, out + [word], a, b, c))
  {
    hide Fragment, Join, FragmentIndex;
  }

  lemma NextIndex(kTiles: nat, nt: nat, kt: nat, lane: nat)
    ensures FragmentIndex(kTiles, 0, 0, 0) == 0
    ensures FragmentIndex(kTiles, nt, kt, lane + 1) == FragmentIndex(kTiles, nt, kt, lane) + 1
    ensures FragmentIndex(kTiles, nt, kt + 1, 0) == FragmentIndex(kTiles, nt, kt, 32)
    ensures FragmentIndex(kTiles, nt, kTiles, 0) == FragmentIndex(kTiles, nt + 1, 0, 0)
  {
  }

  /** repack_trits_to_int4_host: the output is written front to back. */
  method RepackTrits(w: seq<Byte>, kk: nat, n: nat) returns (out: seq<nat>)
    requires kk % 32 == 0 && n % 8 == 0 && |w| == n / 4 * kk
    ensures Repacked(w, kk, n, out)
  {
    hide RepackedAt, Fragment, Join, FragmentIndex;
    out := [];
    NextIndex(kk / 32, 0, 0, 0);
    for nt := 0 to n / 8
      invariant |out| == FragmentIndex(kk / 32, nt, 0, 0)
      invariant forall a, b, c :: 0 <= a < nt && 0 <= b < kk / 32 && 0 <= c < 32 ==>
        RepackedAt(w, kk, n, out, a, b, c)
    {
      for kt := 0 to kk / 32
        invariant |out| == FragmentIndex(kk / 32, nt, kt, 0)
        invariant forall a, b, c :: 0 <= a < nt && 0 <= b < kk / 32 && 0 <= c < 32 ==>
          RepackedAt(w, kk, n, out, a, b, c)
        invariant forall b, c :: 0 <= b < kt && 0 <= c < 32 ==> RepackedAt(w, kk, n, out, nt, b, c)
      {
        for lane := 0 to 32
          invariant |out| == FragmentIndex(kk / 32, nt, kt, lane)
          invariant forall a, b, c :: 0 <= a < nt && 0 <= b < kk / 32 && 0 <= c < 32 ==>
            RepackedAt(w, kk, n, out, a, b, c)
          invariant forall b, c :: 0 <= b < kt && 0 <= c < 32 ==> RepackedAt(w, kk, n, out, nt, b, c)
          invariant forall c :: 0 <= c < lane ==> RepackedAt(w, kk, n, out, nt, kt, c)
        {
          var packed := PackFragment(w, kk, n, nt, kt, lane);
          AppendFragment(w, kk, n, out, packed, nt, kt, lane);
          NextIndex(kk / 32, nt, kt, lane);
          out := out + [packed];
        }
        NextIndex(kk / 32, nt, kt, 0);
      }
      NextIndex(kk / 32, nt, 0, 0);
    }
  }

  /** The innermost loop: eight nibbles or-ed into one word. */
  method PackFragment(w: seq<Byte>, kk: nat, n: nat, nt: nat, kt: nat, lane: nat) returns (packed: nat)
    requires kk % 32 == 0 && n % 8 == 0 && |w| == n / 4 * kk && nt < n / 8 && kt < kk / 32 && lane < 32
    ensures packed == Join(16, Fragment(w, kk, n, nt, kt, lane))
  {
    hide Join, FieldAt, Fragment, WeightNibble, ByteColumn;
    var group, tid := lane / 4, lane % 4;
    var col := nt * 8 + group;
    ghost var frag := Fragment(w, kk, n, nt, kt, lane);
    var weight: nat := 1;
    packed := 0;
    EmptyJoin();
    for i := 0 to 8
      invariant packed == Join(16, frag[..i]) && weight == Pow(16, i)
    {
      var k := kt * 32 + tid * 8 + i;
      var jByte, sub := col / 4, col % 4;
      FragmentPlace(kk, n, nt, kt, lane, i);
      WeightPlace(w, kk, n, k, col);
      var nib := TritToInt4(FieldAt(4, w[jByte * kk + k], sub));
      FragmentEntry(w, kk, n, nt, kt, lane, i);
      JoinSnoc(16, frag[..i], frag[i]);
      assert frag[..i + 1] == frag[..i] + [frag[i]];
      packed := packed + nib * weight;
      weight := weight * 16;
    }
    assert frag[..8] == frag;
  }

  /** The weight of row k and column col lies in byte k of the column's group of four. */
  lemma WeightPlace(w: seq<Byte>, kk: nat, n: nat, k: nat, col: nat)
    requires n % 4 == 0 && |w| == n / 4 * kk && k < kk && col < n
    ensures 0 <= col / 4 * kk + k < |w|
    ensures WeightNibble(w, kk, n, k, col) == TritToInt4(FieldAt(4, w[col / 4 * kk + k], col % 4))
  {
    hide FieldAt, TritToInt4;
    ColumnFits(kk, col / 4, n / 4);
    ColumnStart(kk, col / 4);
  }

  lemma EmptyJoin()
    ensures Join(16, []) == 0 && Pow(16, 0) == 1
  {
  }

  // ---- activation streams: two nibbles a byte ----

  /** bytes holds the nibbles of vals in order, the even one low. */
  ghost predicate Stream(bytes: seq<Byte>, vals: seq<int>) {
    && |vals| == 2 * |bytes|
    && forall t :: 0 <= t < |bytes| ==> bytes[t] == Nib(vals[2 * t]) + 16 * Nib(vals[2 * t + 1])
  }

  /** The high and low parts of int8 activations, and their clamp. */
  function Highs(x: seq<Int8>): (r: seq<int>)
    ensures |r| == |x|
  {
    seq(|x|, k requires 0 <= k < |x| => x[k] / 16)
  }

  function Lows(x: seq<Int8>): (r: seq<int>)
    ensures |r| == |x|
  {
    seq(|x|, k requires 0 <= k < |x| => x[k] % 16 - 8)
  }

  function Clamp7(v: int): int { if v < -7 then -7 else if v > 7 then 7 else v }

  /** The clamp is the value of [-7, 7] nearest to v. */
  lemma ClampNearest(v: int, w: int)
    requires -7 <= w <= 7
    ensures -7 <= Clamp7(v) <= 7 && Abs(v - Clamp7(v)) <= Abs(v - w)
  {
  }

  function Clamped(x: seq<Int8>): (r: seq<int>)
    ensures |r| == |x|
  {
    seq(|x|, k requires 0 <= k < |x| => Clamp7(x[k]))
  }

  /** quant_int8_to_int4_p_k: arithmetic shift right by 4, and the low nibble less 8. */
  method QuantPrecise(x: seq<Int8>) returns (hi: seq<Byte>, lo: seq<Byte>)
    requires |x| % 2 == 0
    ensures Stream(hi, Highs(x)) && Stream(lo, Lows(x))
  {
    hi, lo := [], [];
    for tid := 0 to |x| / 2
      invariant |hi| == |lo| == tid
      invariant forall t :: 0 <= t < tid ==> hi[t] == Nib(Highs(x)[2 * t]) + 16 * Nib(Highs(x)[2 * t + 1])
      invariant forall t :: 0 <= t < tid ==> lo[t] == Nib(Lows(x)[2 * t]) + 16 * Nib(Lows(x)[2 * t + 1])
    {
      var a, b := x[2 * tid], x[2 * tid + 1];
      var aHi, bHi := a / 16, b / 16;
      var aLo, bLo := a % 16 - 8, b % 16 - 8;
      hi := hi + [Nib(aHi) + 16 * Nib(bHi)];
      lo := lo + [Nib(aLo) + 16 * Nib(bLo)];
    }
  }

  /** quant_int8_to_int4_k: the lossy clamp. */
  method QuantLossy(x: seq<Int8>) returns (bytes: seq<Byte>)
    requires |x| % 2 == 0
    ensures Stream(bytes, Clamped(x))
  {
    bytes := [];
    for tid := 0 to |x| / 2
      invariant |bytes| == tid
      invariant forall t :: 0 <= t < tid ==> bytes[t] == Nib(Clamped(x)[2 * t]) + 16 * Nib(Clamped(x)[2 * t + 1])
    {
      var a: int, b: int := x[2 * tid], x[2 * tid + 1];
      assert Clamped(x)[2 * tid] == Clamp7(a) && Clamped(x)[2 * tid + 1] == Clamp7(b);
      if a < -7 { a := -7; }
      if a > 7 { a := 7; }
      if b < -7 { b := -7; }
      if b > 7 { b := 7; }
      bytes := bytes + [Nib(a) + 16 * Nib(b)];
    }
  }

  /** load_a_frag_m1: four bytes, eight nibbles, starting at row kBase + 8*tid. */
  function LoadA(bytes: seq<Byte>, kBase: nat, tid: nat): nat
    requires (kBase + tid * 8) / 2 + 4 <= |bytes|
  {
    LoadWord(bytes, (kBase + tid * 8) / 2)
  }

  lemma Join8(d: seq<int>)
    requires |d| == 8 && Fields(16, d)
    ensures Join(16, d) == (d[0] + 16 * d[1]) + 0x100 * (d[2] + 16 * d[3]) + 0x1_0000 * (d[4] + 16 * d[5])
                         + 0x100_0000 * (d[6] + 16 * d[7])
  {
    assert Join(16, d) == d[0] + 16 * Join(16, d[1..]);
    assert d[1..][1..] == d[2..] && d[2..][1..] == d[3..] && d[3..][1..] == d[4..];
    assert d[4..][1..] == d[5..] && d[5..][1..] == d[6..] && d[6..][1..] == d[7..];
    assert Join(16, d[1..]) == d[1] + 16 * Join(16, d[2..]);
    assert Join(16, d[2..]) == d[2] + 16 * Join(16, d[3..]);
    assert Join(16, d[3..]) == d[3] + 16 * Join(16, d[4..]);
    assert Join(16, d[4..]) == d[4] + 16 * Join(16, d[5..]);
    assert Join(16, d[5..]) == d[5] + 16 * Join(16, d[6..]);
    assert Join(16, d[6..]) == d[6] + 16 * Join(16, d[7..]);
    assert Join(16, d[7..]) == d[7];
  }

  function Nibbles(vals: seq<int>): (r: seq<int>)
    ensures |r| == |vals| && Fields(16, r)
  {
    var r := seq(|vals|, i requires 0 <= i < |vals| => Nib(vals[i]));
    assert forall i :: 0 <= i < |vals| ==> r[i] == Nib(vals[i]);
    r
  }

  /** Four bytes loaded from a stream are eight of its nibbles. */
  lemma LoadedWord(bytes: seq<Byte>, vals: seq<int>, at: nat)
    requires Stream(bytes, vals) && 2 * at + 8 <= |vals|
    ensures at + 4 <= |bytes| && LoadWord(bytes, at) == Join(16, Nibbles(vals[2 * at..2 * at + 8]))
  {
    hide Join, Nib;
    var d := Nibbles(vals[2 * at..2 * at + 8]);
    assert forall i :: 0 <= i < 8 ==> d[i] == Nib(vals[2 * at + i]);
    assert bytes[at] == d[0] + 16 * d[1] && bytes[at + 1] == d[2] + 16 * d[3];
    assert bytes[at + 2] == d[4] + 16 * d[5] && bytes[at + 3] == d[6] + 16 * d[7];
    Join8(d);
  }

  lemma LoadedNibbles(bytes: seq<Byte>, vals: seq<int>, kBase: nat, tid: nat, i: nat)
    requires Stream(bytes, vals) && kBase % 2 == 0 && kBase + tid * 8 + 8 <= |vals| && i < 8
    ensures (kBase + tid * 8) / 2 + 4 <= |bytes|
    ensures NibbleAt(LoadA(bytes, kBase, tid), i) == Nib(vals[kBase + tid * 8 + i])
  {
    hide FieldAt, Join, LoadWord, Stream, Nib;
    var at := (kBase + tid * 8) / 2;
    LoadedWord(bytes, vals, at);
    FieldOfJoin(16, Nibbles(vals[2 * at..2 * at + 8]), i);
  }

  // ---- the matrix instruction (mma.m8n8k32 on signed nibbles) ----

  /** Row `row` of A and column `col` of B as their fragments hold them across the warp. */
  function ARow(a: seq<nat>, row: nat): (r: seq<int>)
    requires |a| == 32 && row < 8
    ensures |r| == 32
  {
    seq(32, k requires 0 <= k < 32 => S4(NibbleAt(a[row * 4 + k / 8], k % 8)))
  }

  function BColumn(b: seq<nat>, col: nat): (r: seq<int>)
    requires |b| == 32 && col < 8
    ensures |r| == 32
  {
    seq(32, k requires 0 <= k < 32 => S4(NibbleAt(b[col * 4 + k / 8], k % 8)))
  }

  /** Each lane holds two elements of the accumulator: row lane / 4, columns 2 (lane mod 4) and the next. */
  datatype Pair = Pair(c0: int, c1: int)

  function Mma(a: seq<nat>, b: seq<nat>, c: seq<Pair>): (d: seq<Pair>)
    requires |a| == |b| == |c| == 32
    ensures |d| == 32
  {
    seq(32, l requires 0 <= l < 32 =>
      Pair(c[l].c0 + Inner(ARow(a, l / 4), BColumn(b, l % 4 * 2)),
           c[l].c1 + Inner(ARow(a, l / 4), BColumn(b, l % 4 * 2 + 1))))
  }

  /** The weights of a column as integers. */
  function WeightColumn(w: seq<Byte>, kk: nat, n: nat, col: nat): (r: seq<int>)
    requires n % 4 == 0 && |w| == n / 4 * kk && col < n
    ensures |r| == kk
  {
    ColumnFits(kk, col / 4, n / 4);
    Column(ByteColumn(w, kk, col / 4), col % 4)
  }

  /** The B operand of tile (nt, kt) is 32 rows of eight weight columns. */
  lemma BIsWeights(w: seq<Byte>, kk: nat, n: nat, w4: seq<nat>, nt: nat, kt: nat, b: seq<nat>, col: nat)
    requires n % 8 == 0 && |w| == n / 4 * kk && Repacked(w, kk, n, w4) && nt < n / 8 && kt < kk / 32 && col < 8
    requires |b| == 32
    requires forall l :: 0 <= l < 32 ==>
      FragmentIndex(kk / 32, nt, kt, l) < |w4| && b[l] == w4[FragmentIndex(kk / 32, nt, kt, l)]
    ensures BColumn(b, col) == WeightColumn(w, kk, n, nt * 8 + col)[32 * kt..32 * kt + 32]
  {
    hide WeightColumn, RepackedAt, FragmentIndex, NibbleAt;
    var weights := WeightColumn(w, kk, n, nt * 8 + col)[32 * kt..32 * kt + 32];
    forall k | 0 <= k < 32 ensures BColumn(b, col)[k] == weights[k] {
      var lane, i := col * 4 + k / 8, k % 8;
      ColumnLane(col, k);
      assert RepackedAt(w, kk, n, w4, nt, kt, lane);
      FragmentPlace(kk, n, nt, kt, lane, i);
      FragmentIsWeight(w, kk, n, w4, nt, kt, lane, i, 32 * kt + k, nt * 8 + col);
    }
  }

  lemma ColumnLane(col: nat, k: nat)
    requires col < 8 && k < 32
    ensures col * 4 + k / 8 < 32 && (col * 4 + k / 8) % 4 * 8 + k % 8 == k && (col * 4 + k / 8) / 4 == col
  {
  }

  lemma FragmentIsWeight(w: seq<Byte>, kk: nat, n: nat, w4: seq<nat>, nt: nat, kt: nat, lane: nat, i: nat,
                         row: nat, col: nat)
    requires n % 8 == 0 && |w| == n / 4 * kk && nt < n / 8 && kt < kk / 32 && lane < 32 && i < 8
    requires RepackedAt(w, kk, n, w4, nt, kt, lane)
    requires n % 4 == 0 && row == kt * 32 + lane % 4 * 8 + i < kk && col == nt * 8 + lane / 4 < n
    ensures FragmentIndex(kk / 32, nt, kt, lane) < |w4|
    ensures S4(NibbleAt(w4[FragmentIndex(kk / 32, nt, kt, lane)], i)) == WeightColumn(w, kk, n, col)[row]
  {
    hide Join, FieldAt, WeightNibble, WeightColumn, FragmentIndex, Fragment, Fields;
    FieldOfJoin(16, Fragment(w, kk, n, nt, kt, lane), i);
    FragmentEntry(w, kk, n, nt, kt, lane, i);
    WeightOfNibble(w, kk, n, row, col);
  }

  lemma FragmentPlace(kk: nat, n: nat, nt: nat, kt: nat, lane: nat, i: nat)
    requires n % 8 == 0 && nt < n / 8 && kt < kk / 32 && lane < 32 && i < 8
    ensures n % 4 == 0 && 0 <= kt * 32 + lane % 4 * 8 + i < kk && 0 <= nt * 8 + lane / 4 < n
  {
  }

  lemma FragmentEntry(w: seq<Byte>, kk: nat, n: nat, nt: nat, kt: nat, lane: nat, i: nat)
    requires n % 8 == 0 && |w| == n / 4 * kk && nt < n / 8 && kt < kk / 32 && lane < 32 && i < 8
    ensures Fragment(w, kk, n, nt, kt, lane)[i] == FragmentNibble(w, kk, n, nt, kt, lane, i)
  {
    hide WeightNibble;
  }

  lemma WeightOfNibble(w: seq<Byte>, kk: nat, n: nat, k: nat, col: nat)
    requires n % 4 == 0 && |w| == n / 4 * kk && k < kk && col < n
    ensures S4(WeightNibble(w, kk, n, k, col)) == WeightColumn(w, kk, n, col)[k]
  {
    hide FieldAt;
  }

  /** Lane l holds the A fragment of the rows from base on. */
  predicate LaneLoads(bytes: seq<Byte>, base: nat, a: seq<nat>, l: nat) {
    l < |a| && (base + l % 4 * 8) / 2 + 4 <= |bytes| && a[l] == LoadA(bytes, base, l % 4)
  }

  /** The A operand: every row is the same 32 activations. */
  lemma AIsActivations(bytes: seq<Byte>, vals: seq<int>, base: nat, a: seq<nat>, row: nat)
    requires Stream(bytes, vals) && base % 2 == 0 && base + 32 <= |vals| && |a| == 32 && row < 8
    requires forall k :: 0 <= k < |vals| ==> -8 <= vals[k] <= 7
    requires forall l :: 0 <= l < 32 ==> LaneLoads(bytes, base, a, l)
    ensures ARow(a, row) == vals[base..base + 32]
  {
    hide LoadA, Stream, ARow, LaneLoads;
    forall k | 0 <= k < 32 ensures ARow(a, row)[k] == vals[base + k] {
      LanePlace(row, k);
      ActivationAt(bytes, vals, base, a, row * 4 + k / 8, k);
      ARowAt(a, row, k);
    }
  }

  lemma ARowAt(a: seq<nat>, row: nat, k: nat)
    requires |a| == 32 && row < 8 && k < 32 && row * 4 + k / 8 < 32
    ensures ARow(a, row)[k] == S4(NibbleAt(a[row * 4 + k / 8], k % 8))
  {
    hide S4, NibbleAt;
  }

  /** Nibble k % 8 of a lane that loads for thread k / 8 is activation k. */
  lemma ActivationAt(bytes: seq<Byte>, vals: seq<int>, base: nat, a: seq<nat>, lane: nat, k: nat)
    requires Stream(bytes, vals) && base % 2 == 0 && base + 32 <= |vals| && k < 32 && lane % 4 == k / 8
    requires LaneLoads(bytes, base, a, lane) && -8 <= vals[base + k] <= 7
    ensures lane < |a| && S4(NibbleAt(a[lane], k % 8)) == vals[base + k]
  {
    hide LoadA, NibbleAt, S4, Stream;
    LoadedActivation(bytes, vals, base, k);
  }

  lemma LanePlace(row: nat, k: nat)
    requires row < 8 && k < 32
    ensures row * 4 + k / 8 < 32 && (row * 4 + k / 8) % 4 == k / 8
  {
  }

  lemma LoadedActivation(bytes: seq<Byte>, vals: seq<int>, kBase: nat, k: nat)
    requires Stream(bytes, vals) && kBase % 2 == 0 && kBase + 32 <= |vals| && k < 32 && -8 <= vals[kBase + k] <= 7
    ensures (kBase + k / 8 * 8) / 2 + 4 <= |bytes|
    ensures S4(NibbleAt(LoadA(bytes, kBase, k / 8), k % 8)) == vals[kBase + k]
  {
    hide LoadA, NibbleAt, S4, Stream, Nib;
    LoadedNibbles(bytes, vals, kBase, k / 8, k % 8);
    SignedNibble(vals[kBase + k]);
    assert kBase + k / 8 * 8 + k % 8 == kBase + k;
  }

  // ---- the kernels ----

  /** Every lane's pair holds the first `rows` products of its two columns. */
  ghost predicate Accumulated(c: seq<Pair>, vals: seq<int>, w: seq<Byte>, kk: nat, n: nat, nt: nat, rows: nat)
    requires n % 8 == 0 && |w| == n / 4 * kk && nt < n / 8 && rows <= |vals| == kk
  {
    |c| == 32 && forall l :: 0 <= l < 32 ==>
      && c[l].c0 == Inner(vals[..rows], WeightColumn(w, kk, n, nt * 8 + l % 4 * 2)[..rows])
      && c[l].c1 == Inner(vals[..rows], WeightColumn(w, kk, n, nt * 8 + l % 4 * 2 + 1)[..rows])
  }

  lemma NothingAccumulated(vals: seq<int>, w: seq<Byte>, kk: nat, n: nat, nt: nat)
    requires n % 8 == 0 && |w| == n / 4 * kk && nt < n / 8 && |vals| == kk
    ensures Accumulated(seq(32, l => Pair(0, 0)), vals, w, kk, n, nt, 0)
  {
  }

  lemma InnerGrows(a: seq<int>, b: seq<int>, lo: nat, hi: nat)
    requires |a| == |b| && lo <= hi <= |a|
    ensures Inner(a[..hi], b[..hi]) == Inner(a[..lo], b[..lo]) + Inner(a[lo..hi], b[lo..hi])
  {
    InnerSplit(a, b, 0, lo, hi);
    assert a[0..hi] == a[..hi] && b[0..hi] == b[..hi] && a[0..lo] == a[..lo] && b[0..lo] == b[..lo];
  }

  /** One matrix instruction adds the next 32 rows. */
  lemma MmaAccumulates(c: seq<Pair>, bytes: seq<Byte>, vals: seq<int>, w: seq<Byte>, kk: nat, n: nat,
                       w4: seq<nat>, nt: nat, kt: nat, a: seq<nat>, b: seq<nat>)
    requires kk % 32 == 0 && n % 8 == 0 && |w| == n / 4 * kk && Repacked(w, kk, n, w4) && nt < n / 8 && kt < kk / 32
    requires |vals| == kk && Stream(bytes, vals) && forall k :: 0 <= k < kk ==> -8 <= vals[k] <= 7
    requires Accumulated(c, vals, w, kk, n, nt, 32 * kt) && |a| == |b| == 32
    requires forall l :: 0 <= l < 32 ==> LaneLoads(bytes, kt * 32, a, l)
    requires forall l :: 0 <= l < 32 ==>
      FragmentIndex(kk / 32, nt, kt, l) < |w4| && b[l] == w4[FragmentIndex(kk / 32, nt, kt, l)]
    ensures Accumulated(Mma(a, b, c), vals, w, kk, n, nt, 32 * kt + 32)
  {
    hide Inner, ARow, BColumn, WeightColumn, LaneLoads, FragmentIndex, Repacked, Stream;
    forall l | 0 <= l < 32
      ensures Mma(a, b, c)[l].c0 ==
        Inner(vals[..32 * kt + 32], WeightColumn(w, kk, n, nt * 8 + l % 4 * 2)[..32 * kt + 32])
      ensures Mma(a, b, c)[l].c1 ==
        Inner(vals[..32 * kt + 32], WeightColumn(w, kk, n, nt * 8 + l % 4 * 2 + 1)[..32 * kt + 32])
    {
      ColumnGrows(bytes, vals, w, kk, n, w4, nt, kt, a, b, l / 4, l % 4 * 2);
      ColumnGrows(bytes, vals, w, kk, n, w4, nt, kt, a, b, l / 4, l % 4 * 2 + 1);
    }
  }

  /** One row of A times one column of B extends that column's product by 32 rows. */
  lemma ColumnGrows(bytes: seq<Byte>, vals: seq<int>, w: seq<Byte>, kk: nat, n: nat, w4: seq<nat>, nt: nat, kt: nat,
                    a: seq<nat>, b: seq<nat>, row: nat, j: nat)
    requires n % 8 == 0 && |w| == n / 4 * kk && Repacked(w, kk, n, w4) && nt < n / 8
    requires kt < kk / 32 && 32 * kt + 32 <= kk && n % 4 == 0 && nt * 8 + 8 <= n
    requires |vals| == kk && Stream(bytes, vals) && forall k :: 0 <= k < kk ==> -8 <= vals[k] <= 7
    requires |a| == |b| == 32 && row < 8 && j < 8
    requires forall l :: 0 <= l < 32 ==> LaneLoads(bytes, kt * 32, a, l)
    requires forall l :: 0 <= l < 32 ==>
      FragmentIndex(kk / 32, nt, kt, l) < |w4| && b[l] == w4[FragmentIndex(kk / 32, nt, kt, l)]
    ensures var column := WeightColumn(w, kk, n, nt * 8 + j);
      Inner(vals[..32 * kt + 32], column[..32 * kt + 32])
        == Inner(vals[..32 * kt], column[..32 * kt]) + Inner(ARow(a, row), BColumn(b, j))
  {
    hide Inner, ARow, BColumn, WeightColumn, LaneLoads, FragmentIndex, Repacked, Stream;
    AIsActivations(bytes, vals, kt * 32, a, row);
    BIsWeights(w, kk, n, w4, nt, kt, b, j);
    InnerGrows(vals, WeightColumn(w, kk, n, nt * 8 + j), 32 * kt, 32 * kt + 32);
  }

  /** Loads the fragments of one step across the warp. */
  method LoadFragments(bytes: seq<Byte>, w4: seq<nat>, kTiles: nat, nt: nat, kt: nat) returns (a: seq<nat>, b: seq<nat>)
    requires forall l :: 0 <= l < 32 ==> (kt * 32 + l % 4 * 8) / 2 + 4 <= |bytes|
    requires forall l :: 0 <= l < 32 ==> FragmentIndex(kTiles, nt, kt, l) < |w4|
    ensures |a| == |b| == 32
    ensures forall l :: 0 <= l < 32 ==>
      LaneLoads(bytes, kt * 32, a, l) && b[l] == w4[FragmentIndex(kTiles, nt, kt, l)]
  {
    hide LoadA, FragmentIndex;
    a, b := [], [];
    for lane := 0 to 32
      invariant |a| == |b| == lane
      invariant forall l :: 0 <= l < lane ==>
        a[l] == LoadA(bytes, kt * 32, l % 4) && b[l] == w4[FragmentIndex(kTiles, nt, kt, l)]
    {
      a := a + [LoadA(bytes, kt * 32, lane % 4)];
      b := b + [w4[FragmentIndex(kTiles, nt, kt, lane)]];
    }
    forall l | 0 <= l < 32 ensures LaneLoads(bytes, kt * 32, a, l) {
      assert a[l] == LoadA(bytes, kt * 32, l % 4);
    }
  }

  /** One stream of activations against the weights of one tile of eight columns. */
  method WarpProduct(bytes: seq<Byte>, ghost vals: seq<int>, ghost w: seq<Byte>, kk: nat, n: nat, w4: seq<nat>, nt: nat)
    returns (c: seq<Pair>)
    requires kk % 32 == 0 && n % 8 == 0 && |w| == n / 4 * kk && Repacked(w, kk, n, w4) && nt < n / 8
    requires |vals| == kk && Stream(bytes, vals) && forall k :: 0 <= k < kk ==> -8 <= vals[k] <= 7
    ensures Accumulated(c, vals, w, kk, n, nt, kk)
  {
    hide Accumulated, Mma, LoadA;
    c := seq(32, l => Pair(0, 0));
    NothingAccumulated(vals, w, kk, n, nt);
    for kt := 0 to kk / 32
      invariant |c| == 32 && Accumulated(c, vals, w, kk, n, nt, 32 * kt)
    {
      forall l | 0 <= l < 32 ensures FragmentIndex(kk / 32, nt, kt, l) < |w4| {
        assert RepackedAt(w, kk, n, w4, nt, kt, l);
      }
      var a, b := LoadFragments(bytes, w4, kk / 32, nt, kt);
      MmaAccumulates(c, bytes, vals, w, kk, n, w4, nt, kt, a, b);
      c := Mma(a, b, c);
    }
  }

  /** compute_w_sum_k */
  method WeightSums(w: seq<Byte>, kk: nat, n: nat) returns (sums: seq<int>)
    requires n % 4 == 0 && |w| == n / 4 * kk
    ensures SumsOf(w, kk, n, sums)
  {
    hide FieldAt;
    sums := [];
    for col := 0 to n
      invariant |sums| == col && forall j :: 0 <= j < col ==> sums[j] == Sum(WeightColumn(w, kk, n, j))
    {
      var jByte, sub := col / 4, col % 4;
      ColumnFits(kk, jByte, n / 4);
      ColumnStart(kk, jByte);
      ghost var weights := WeightColumn(w, kk, n, col);
      var acc := 0;
      for k := 0 to kk
        invariant acc == Sum(weights[..k])
      {
        assert weights[..k + 1][..k] == weights[..k];
        assert weights[k] == TritOf(w[jByte * kk + k], sub);
        var t := FieldAt(4, w[jByte * kk + k], sub);
        acc := acc + ((if t == 1 then 1 else 0) - (if t == 2 then 1 else 0));
      }
      assert weights[..kk] == weights;
      sums := sums + [acc];
    }
  }

  /** The split is exact: x = 16 * high + low + 8 under every column of weights. */
  lemma {:induction false} SplitExact(x: seq<Int8>, col: seq<int>)
    requires |x| == |col|
    ensures Inner(x, col) == 16 * Inner(Highs(x), col) + Inner(Lows(x), col) + 8 * Sum(col)
  {
    if |x| == 0 {
    } else {
      var n := |x| - 1;
      SplitExact(x[..n], col[..n]);
      assert Highs(x)[..n] == Highs(x[..n]) && Lows(x)[..n] == Lows(x[..n]);
      SplitProduct(x[n], col[n]);
    }
  }

  lemma SplitProduct(v: Int8, w: int)
    ensures v * w == 16 * (v / 16 * w) + (v % 16 - 8) * w + 8 * w
  {
    var h, l := v / 16, v % 16;
    assert v == 16 * h + l;
    assert (16 * h + l) * w == 16 * (h * w) + l * w;
  }

  lemma Epilogue(x: seq<Int8>, w: seq<Byte>, kk: nat, n: nat, nt: nat, lane: nat, hi: seq<Pair>, lo: seq<Pair>)
    requires kk % 32 == 0 && n % 8 == 0 && Shape(x, w, kk, n) && nt < n / 8 && lane < 4
    requires Accumulated(hi, Highs(x), w, kk, n, nt, kk) && Accumulated(lo, Lows(x), w, kk, n, nt, kk)
    ensures var col := nt * 8 + lane * 2;
      && 16 * hi[lane].c0 + lo[lane].c0 + 8 * Sum(WeightColumn(w, kk, n, col)) == Dot(x, w, kk, n, col)
      && 16 * hi[lane].c1 + lo[lane].c1 + 8 * Sum(WeightColumn(w, kk, n, col + 1)) == Dot(x, w, kk, n, col + 1)
  {
    hide Inner, Column;
    var col := nt * 8 + lane * 2;
    assert lane % 4 == lane;
    assert Highs(x)[..kk] == Highs(x) && Lows(x)[..kk] == Lows(x);
    var c0, c1 := WeightColumn(w, kk, n, col), WeightColumn(w, kk, n, col + 1);
    assert c0[..kk] == c0 && c1[..kk] == c1;
    SplitExact(x, c0);
    SplitExact(x, c1);
  }

  /** The precise loop of one warp: two matrix instructions a step over the same weight fragment. */
  method WarpPrecise(hi: seq<Byte>, lo: seq<Byte>, ghost x: seq<Int8>, ghost w: seq<Byte>, kk: nat, n: nat,
                     w4: seq<nat>, nt: nat) returns (cHi: seq<Pair>, cLo: seq<Pair>)
    requires kk % 32 == 0 && n % 8 == 0 && |w| == n / 4 * kk && Repacked(w, kk, n, w4) && nt < n / 8
    requires |x| == kk && Stream(hi, Highs(x)) && Stream(lo, Lows(x))
    ensures Accumulated(cHi, Highs(x), w, kk, n, nt, kk) && Accumulated(cLo, Lows(x), w, kk, n, nt, kk)
  {
    hide Accumulated, Mma, LoadA;
    cHi, cLo := seq(32, l => Pair(0, 0)), seq(32, l => Pair(0, 0));
    NothingAccumulated(Highs(x), w, kk, n, nt);
    NothingAccumulated(Lows(x), w, kk, n, nt);
    for kt := 0 to kk / 32
      invariant |cHi| == 32 && Accumulated(cHi, Highs(x), w, kk, n, nt, 32 * kt)
      invariant |cLo| == 32 && Accumulated(cLo, Lows(x), w, kk, n, nt, 32 * kt)
    {
      forall l | 0 <= l < 32 ensures FragmentIndex(kk / 32, nt, kt, l) < |w4| {
        assert RepackedAt(w, kk, n, w4, nt, kt, l);
      }
      var aHi, b := LoadFragments(hi, w4, kk / 32, nt, kt);
      var aLo, b' := LoadFragments(lo, w4, kk / 32, nt, kt);
      MmaAccumulates(cHi, hi, Highs(x), w, kk, n, w4, nt, kt, aHi, b);
      MmaAccumulates(cLo, lo, Lows(x), w, kk, n, w4, nt, kt, aLo, b');
      cHi := Mma(aHi, b, cHi);
      cLo := Mma(aLo, b', cLo);
    }
  }

  /** The epilogue of a precise warp: lanes 0 to 3 hold row 0, two columns each. */
  method TilePrecise(hi: seq<Byte>, lo: seq<Byte>, ghost x: seq<Int8>, ghost w: seq<Byte>, kk: nat, n: nat,
                     w4: seq<nat>, wSum: seq<int>, nt: nat) returns (y: seq<int>)
    requires kk % 32 == 0 && n % 8 == 0 && Shape(x, w, kk, n) && Repacked(w, kk, n, w4) && nt < n / 8
    requires Stream(hi, Highs(x)) && Stream(lo, Lows(x)) && SumsOf(w, kk, n, wSum)
    ensures |y| == 8 && forall s :: 0 <= s < 8 ==> y[s] == Dot(x, w, kk, n, nt * 8 + s)
  {
    hide Dot, WeightColumn, Stream, Repacked;
    var cHi, cLo := WarpPrecise(hi, lo, x, w, kk, n, w4, nt);
    y := [];
    for lane := 0 to 4
      invariant |y| == 2 * lane && forall s :: 0 <= s < 2 * lane ==> y[s] == Dot(x, w, kk, n, nt * 8 + s)
    {
      var col0 := nt * 8 + lane * 2;
      Epilogue(x, w, kk, n, nt, lane, cHi, cLo);
      var y0 := 16 * cHi[lane].c0 + cLo[lane].c0 + 8 * wSum[col0];
      var y1 := 16 * cHi[lane].c1 + cLo[lane].c1 + 8 * wSum[col0 + 1];
      y := y + [y0, y1];
    }
  }

  ghost predicate SumsOf(w: seq<Byte>, kk: nat, n: nat, sums: seq<int>)
    requires n % 4 == 0 && |w| == n / 4 * kk
  {
    |sums| == n && forall col :: 0 <= col < n ==> sums[col] == Sum(WeightColumn(w, kk, n, col))
  }

  lemma ColumnsCover(n: nat)
    requires n % 8 == 0
    ensures 8 * ((n / 8 + 7) / 8 * 8) >= n
  {
  }

  lemma TileRoom(n: nat, nt: nat)
    requires n % 8 == 0 && nt * 8 < n
    ensures nt < n / 8 && nt * 8 + 8 <= n
  {
  }

  /** The precise path: 16 * acc_hi + acc_lo + 8 * W_sum is exact for every activation and byte. */
  method LaunchPrecise(x: seq<Int8>, ghost w: seq<Byte>, w4: seq<nat>, wSum: seq<int>, kk: nat, n: nat)
    returns (out: array<int>)
    requires kk % 32 == 0 && n % 8 == 0 && Shape(x, w, kk, n) && Repacked(w, kk, n, w4) && SumsOf(w, kk, n, wSum)
    ensures out.Length == n && forall col :: 0 <= col < n ==> out[col] == Dot(x, w, kk, n, col)
  {
    assert |x| % 2 == 0;
    hide Dot, Stream, Repacked, SumsOf, Shape, Highs, Lows;
    ColumnsCover(n);
    var hi, lo := QuantPrecise(x);
    out := new int[n];
    var warps := (n / 8 + 7) / 8 * 8;
    for nt := 0 to warps
      invariant forall col :: 0 <= col < n && col < 8 * nt ==> out[col] == Dot(x, w, kk, n, col)
    {
      if nt * 8 < n {
        TileRoom(n, nt);
        var y := TilePrecise(hi, lo, x, w, kk, n, w4, wSum, nt);
        var at := nt * 8;
        StoreTile(out, at, y);
        forall col | 0 <= col < n && col < at + 8 ensures out[col] == Dot(x, w, kk, n, col) {
          if col >= at { assert y[col - at] == Dot(x, w, kk, n, at + (col - at)); }
        }
      }
    }
  }

  // ---- the lossy path ----

  function LossyDot(x: seq<Int8>, w: seq<Byte>, kk: nat, n: nat, col: nat): int
    requires Shape(x, w, kk, n) && col < n
  {
    Inner(Clamped(x), WeightColumn(w, kk, n, col))
  }

  method TileLossy(bytes: seq<Byte>, ghost x: seq<Int8>, ghost w: seq<Byte>, kk: nat, n: nat, w4: seq<nat>, nt: nat)
    returns (y: seq<int>)
    requires kk % 32 == 0 && n % 8 == 0 && Shape(x, w, kk, n) && Repacked(w, kk, n, w4) && nt < n / 8
    requires Stream(bytes, Clamped(x))
    ensures |y| == 8 && forall s :: 0 <= s < 8 ==> y[s] == LossyDot(x, w, kk, n, nt * 8 + s)
  {
    hide Inner, Stream, Repacked;
    var c := WarpProduct(bytes, Clamped(x), w, kk, n, w4, nt);
    assert Clamped(x)[..kk] == Clamped(x);
    y := [];
    for lane := 0 to 4
      invariant |y| == 2 * lane && forall s :: 0 <= s < 2 * lane ==> y[s] == LossyDot(x, w, kk, n, nt * 8 + s)
    {
      assert lane % 4 == lane;
      ghost var c0 := WeightColumn(w, kk, n, nt * 8 + lane * 2);
      ghost var c1 := WeightColumn(w, kk, n, nt * 8 + lane * 2 + 1);
      assert c0[..kk] == c0 && c1[..kk] == c1;
      y := y + [c[lane].c0, c[lane].c1];
    }
  }

  /** The lossy path computes the product of the clamped activations. */
  method LaunchLossy(x: seq<Int8>, ghost w: seq<Byte>, w4: seq<nat>, kk: nat, n: nat) returns (out: array<int>)
    requires kk % 32 == 0 && n % 8 == 0 && Shape(x, w, kk, n) && Repacked(w, kk, n, w4)
    ensures out.Length == n && forall col :: 0 <= col < n ==> out[col] == LossyDot(x, w, kk, n, col)
  {
    assert |x| % 2 == 0;
    hide LossyDot, Stream, Repacked, Shape;
    ColumnsCover(n);
    var bytes := QuantLossy(x);
    out := new int[n];
    var warps := (n / 8 + 7) / 8 * 8;
    for nt := 0 to warps
      invariant forall col :: 0 <= col < n && col < 8 * nt ==> out[col] == LossyDot(x, w, kk, n, col)
    {
      if nt * 8 < n {
        TileRoom(n, nt);
        var y := TileLossy(bytes, x, w, kk, n, w4, nt);
        var at := nt * 8;
        StoreTile(out, at, y);
        forall col | 0 <= col < n && col < at + 8 ensures out[col] == LossyDot(x, w, kk, n, col) {
          if col >= at { assert y[col - at] == LossyDot(x, w, kk, n, at + (col - at)); }
        }
      }
    }
  }

  /** Clamping changes nothing, whatever the ternary weights, exactly when every activation is
      within [-7, 7] already. */
  lemma LossyExactWhenSmall(x: seq<Int8>)
    ensures (forall col: seq<int> :: |col| == |x| && (forall k :: 0 <= k < |col| ==> -1 <= col[k] <= 1) ==>
               Inner(Clamped(x), col) == Inner(x, col))
      <==> forall k :: 0 <= k < |x| ==> -7 <= x[k] <= 7
  {
    if forall k :: 0 <= k < |x| ==> -7 <= x[k] <= 7 {
      assert Clamped(x) == x;
    } else {
      var k :| 0 <= k < |x| && !(-7 <= x[k] <= 7);
      var unit: seq<int> := seq(|x|, i => if i == k then 1 else 0);
      InnerUnit(x, unit, k);
      InnerUnit(Clamped(x), unit, k);
      assert Inner(Clamped(x), unit) != Inner(x, unit);
    }
  }

  /** A column with a single 1 picks out one entry. */
  lemma {:induction false} InnerUnit(a: seq<int>, unit: seq<int>, k: nat)
    requires |a| == |unit| && forall i :: 0 <= i < |unit| ==> unit[i] == if i == k then 1 else 0
    ensures Inner(a, unit) == if k < |a| then a[k] else 0
  {
    if |a| == 0 {
    } else {
      InnerUnit(a[..|a| - 1], unit[..|a| - 1], k);
    }
  }
}
