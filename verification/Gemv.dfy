/** The host matrix-vector product and the kernel calls it stands for: the zero-skipping host
    loop leaves in every column what calling the tile kernel once per tile and adding the stored
    sums would, and accounts for exactly the multiply-accumulates those calls issue. */
module Gemv {
  import opened Arithmetic
  import opened Sums
  import opened Isa
  import opened Machine
  import opened Simulator
  import opened Kernels
  import opened TileKernel

  /** The number of 27-lane tiles that cover kk rows. */
  function Tiles(kk: nat): nat { (kk + 26) / 27 }

  /** Column j of a row-major kk by n payload. */
  function ColumnOf(w: seq<int>, kk: nat, n: nat, j: nat): (r: seq<int>)
    requires |w| == kk * n && j < n
    ensures |r| == kk
  {
    seq(kk, k requires 0 <= k < kk => At(w, kk, n, k, j))
  }

  function At(w: seq<int>, kk: nat, n: nat, k: nat, j: nat): int
    requires |w| == kk * n && k < kk && j < n
  {
    RowFits(kk, n, k);
    w[k * n + j]
  }

  lemma RowFits(kk: nat, n: nat, k: nat)
    requires k < kk
    ensures 0 <= k * n && k * n + n <= kk * n
  {
    MulMono(k + 1, kk, n);
    assert (k + 1) * n == k * n + n;
  }

  ghost predicate RowsDone(acc: array<int>, x: seq<int>, w: seq<int>, kk: nat, n: nat, rows: nat, from: nat, to: nat)
    requires |x| == kk && |w| == kk * n && rows <= kk && to <= n
    reads acc
  {
    acc.Length == n && forall j :: from <= j < to ==> acc[j] == Inner(x[..rows], ColumnOf(w, kk, n, j)[..rows])
  }

  /** mm_row without block scales: rows outermost, zero activations skipped. */
  method MmRow(x: seq<int>, w: seq<int>, kk: nat, n: nat, counters: OpCounters) returns (acc: array<int>)
    requires |x| == kk && |w| == kk * n && counters.counts.Length == 256
    modifies counters, counters.counts
    ensures fresh(acc) && acc.Length == n
    ensures forall j :: 0 <= j < n ==> acc[j] == Inner(x, ColumnOf(w, kk, n, j))
    ensures counters.counts[..] ==
      old(counters.counts[..])[OpValue(TVMAC) := old(counters.counts[OpValue(TVMAC)]) + Tiles(kk) * n]
    ensures counters.total == old(counters.total) + Tiles(kk) * n
  {
    acc := Products(x, w, kk, n);
    counters.BumpN(TVMAC, Tiles(kk) * n);
  }

  method Products(x: seq<int>, w: seq<int>, kk: nat, n: nat) returns (acc: array<int>)
    requires |x| == kk && |w| == kk * n
    ensures fresh(acc) && acc.Length == n && forall j :: 0 <= j < n ==> acc[j] == Inner(x, ColumnOf(w, kk, n, j))
  {
    hide ColumnOf;
    acc := new int[n](j => 0);
    assert RowsDone(acc, x, w, kk, n, 0, 0, n);
    for k := 0 to kk
      invariant RowsDone(acc, x, w, kk, n, k, 0, n)
    {
      if x[k] == 0 {
        forall j | 0 <= j < n ensures Inner(x[..k + 1], ColumnOf(w, kk, n, j)[..k + 1]) == acc[j] {
          NextRow(x, w, kk, n, k, j);
        }
      } else {
        RowFits(kk, n, k);
        for j := 0 to n
          invariant RowsDone(acc, x, w, kk, n, k + 1, 0, j) && RowsDone(acc, x, w, kk, n, k, j, n)
        {
          NextRow(x, w, kk, n, k, j);
          acc[j] := acc[j] + x[k] * w[k * n + j];
        }
      }
    }
    forall j | 0 <= j < n ensures acc[j] == Inner(x, ColumnOf(w, kk, n, j)) {
      assert x[..kk] == x && ColumnOf(w, kk, n, j)[..kk] == ColumnOf(w, kk, n, j);
    }
  }

  lemma NextRow(x: seq<int>, w: seq<int>, kk: nat, n: nat, k: nat, j: nat)
    requires |x| == kk && |w| == kk * n && k < kk && j < n
    ensures 0 <= k * n + j < |w|
    ensures Inner(x[..k + 1], ColumnOf(w, kk, n, j)[..k + 1])
         == Inner(x[..k], ColumnOf(w, kk, n, j)[..k]) + x[k] * w[k * n + j]
  {
    RowFits(kk, n, k);
    InnerSnoc(x, ColumnOf(w, kk, n, j), 0, k);
    assert x[0..k] == x[..k] && x[0..k + 1] == x[..k + 1];
    var c := ColumnOf(w, kk, n, j);
    assert c[0..k] == c[..k] && c[0..k + 1] == c[..k + 1];
  }

  // ---- the same product by calls of the tile kernel ----

  /** A zero-padded copy of the operand sits in memory from base on, in whole tiles. */
  ghost predicate PaddedAt(mem: seq<int>, base: int, v: seq<int>) {
    && 0 <= base && base + 27 * Tiles(|v|) <= |mem|
    && forall k :: 0 <= k < 27 * Tiles(|v|) ==> mem[base + k] == Padded(v, k)
  }

  function Padded(v: seq<int>, k: nat): int { if k < |v| then v[k] else 0 }

  /** Tile t of an operand. */
  function Tile(v: seq<int>, t: nat): Vec {
    seq(27, k requires 0 <= k < 27 => Padded(v, 27 * t + k))
  }

  ghost predicate AllPayload(v: seq<int>) { forall k :: 0 <= k < |v| ==> Payload(v[k]) }

  lemma LoadTile(mem: seq<int>, base: int, v: seq<int>, t: nat)
    requires PaddedAt(mem, base, v) && t < Tiles(|v|) && AllPayload(v)
    ensures RunInMem(mem, base + 27 * t) && VLoad(mem, base + 27 * t) == Tile(v, t)
  {
    forall k | 0 <= k < 27 ensures VLoad(mem, base + 27 * t)[k] == Tile(v, t)[k] {
      assert mem[base + (27 * t + k)] == Padded(v, 27 * t + k);
      assert VLoad(mem, base + 27 * t)[k] == LoadLane(mem[base + 27 * t + k]);
      PayloadLoads(Padded(v, 27 * t + k));
    }
  }

  /** No clamp and no cut fires on a payload value. */
  lemma PayloadLoads(v: int)
    requires Payload(v)
    ensures LoadLane(v) == v
  {
  }

  /** The rows of the first t tiles, zero-padded. */
  function Prefix(v: seq<int>, t: nat): (r: seq<int>)
    ensures |r| == 27 * t
  {
    seq(27 * t, k requires 0 <= k < 27 * t => Padded(v, k))
  }

  lemma PrefixStep(v: seq<int>, t: nat)
    ensures Prefix(v, t + 1) == Prefix(v, t) + Tile(v, t)
  {
  }

  lemma PaddingAddsNothing(x: seq<int>, w: seq<int>, t: nat)
    requires |x| == |w| <= 27 * t
    ensures Inner(Prefix(x, t), Prefix(w, t)) == Inner(x, w)
  {
    var px, pw := Prefix(x, t)[|x|..], Prefix(w, t)[|x|..];
    assert Prefix(x, t) == x + px && Prefix(w, t) == w + pw;
    InnerConcat(x, w, px, pw);
    InnerZeros(px, pw);
  }

  lemma {:induction false} InnerZeros(a: seq<int>, b: seq<int>)
    requires |a| == |b| && forall i :: 0 <= i < |a| ==> a[i] == 0
    ensures Inner(a, b) == 0
  {
    if |a| == 0 {
    } else {
      InnerZeros(a[..|a| - 1], b[..|a| - 1]);
    }
  }

  /** The inner products of the first t tiles. */
  function TileSum(x: seq<int>, w: seq<int>, t: nat): int {
    if t == 0 then 0 else TileSum(x, w, t - 1) + Inner(Tile(x, t - 1), Tile(w, t - 1))
  }

  lemma {:induction false} TileSumIsPrefix(x: seq<int>, w: seq<int>, t: nat)
    ensures TileSum(x, w, t) == Inner(Prefix(x, t), Prefix(w, t))
  {
    if t == 0 {
    } else {
      TileSumIsPrefix(x, w, t - 1);
      PrefixStep(x, t - 1);
      PrefixStep(w, t - 1);
      InnerConcat(Prefix(x, t - 1), Prefix(w, t - 1), Tile(x, t - 1), Tile(w, t - 1));
    }
  }

  /** The tiles of two operands add up to their inner product. */
  lemma TilesCover(x: seq<int>, w: seq<int>)
    requires |x| == |w|
    ensures TileSum(x, w, Tiles(|x|)) == Inner(x, w)
  {
    TileSumIsPrefix(x, w, Tiles(|x|));
    PaddingAddsNothing(x, w, Tiles(|x|));
  }

  /** Where the host keeps things: the kernel at base, the activations at xa, results at ya. */
  datatype Place = Place(base: nat, xa: int, ya: int)

  /** The machine after some calls, the sum the host has collected, and the fault that ended it. */
  datatype Tally = Tally(s: State, got: int, fault: Option<Fault>)

  /** The host loop over the tiles of one column: call the kernel, add what it stored. */
  function TileCalls(s: State, at: Place, wa: int, t: nat): (r: Tally)
    requires Shaped(s)
    ensures Shaped(r.s)
    decreases t, s
  {
    if t == 0 then Tally(s, 0, None)
    else
      var before := TileCalls(s, at, wa, t - 1);
      if before.fault.Some? then before
      else
        var args := TileArgs(at.xa + 27 * (t - 1), wa + 27 * (t - 1), at.ya);
        var o := RunToHalt(CallState(before.s, at.base, args));
        if o.fault.Some? then Tally(o.s, before.got, o.fault)
        else if !InMem(o.s.mem, at.ya) then Tally(o.s, before.got, Some(OutOfBounds))
        else Tally(o.s, before.got + o.s.mem[at.ya], None)
  }

  /** The kernel is loaded and x is in place, both away from the result cell. */
  ghost predicate Ready(mem: seq<int>, at: Place, x: seq<int>) {
    && Loaded(mem, at.base) && at.base + 6 <= MAX27 && !(at.base <= at.ya < at.base + 6)
    && InMem(mem, at.ya) && AwayFrom(at.ya, at.xa, |x|) && PaddedAt(mem, at.xa, x) && AllPayload(x)
  }

  predicate AwayFrom(ya: int, base: int, rows: nat) { !(base <= ya < base + 27 * Tiles(rows)) }

  /** A column of weights is in place. */
  ghost predicate ColumnReady(mem: seq<int>, at: Place, wa: int, c: seq<int>) {
    PaddedAt(mem, wa, c) && AwayFrom(at.ya, wa, |c|) && AllPayload(c)
  }

  /** Only the result cell differs. */
  ghost predicate SameButResult(m: seq<int>, m': seq<int>, at: Place) {
    |m| == |m'| && forall a :: 0 <= a < |m| && a != at.ya ==> m'[a] == m[a]
  }

  lemma StaysReady(m: seq<int>, m': seq<int>, at: Place, x: seq<int>)
    requires Ready(m, at, x) && SameButResult(m, m', at)
    ensures Ready(m', at, x)
  {
    hide DecodeInt;
    forall k | 0 <= k < 6 ensures DecodeInt(m'[at.base + k]) == Some(CODE[k]) {
      assert m'[at.base + k] == m[at.base + k];
    }
  }

  lemma ColumnStaysReady(m: seq<int>, m': seq<int>, at: Place, wa: int, c: seq<int>)
    requires ColumnReady(m, at, wa, c) && SameButResult(m, m', at)
    ensures ColumnReady(m', at, wa, c)
  {
  }

  /** After t calls no fault has occurred, the host has the sum of the first t tiles, memory
      differs in the result cell only, and t multiply-accumulates were counted. */
  lemma {:induction false} TilesAdd(s: State, at: Place, wa: int, x: seq<int>, c: seq<int>, t: nat)
    requires Shaped(s) && |x| == |c| && t <= Tiles(|x|)
    requires Ready(s.mem, at, x) && ColumnReady(s.mem, at, wa, c)
    ensures var r := TileCalls(s, at, wa, t);
      && r.fault.None? && r.got == TileSum(x, c, t) && SameButResult(s.mem, r.s.mem, at)
      && r.s.counts[OpValue(TVMAC)] == s.counts[OpValue(TVMAC)] + t
    decreases t
  {
    hide VLoad, Tile, Inner, Loaded, TileCounts, RunToHalt, PaddedAt, CallState;
    if t == 0 {
    } else {
      TilesAdd(s, at, wa, x, c, t - 1);
      var before := TileCalls(s, at, wa, t - 1).s;
      StaysReady(s.mem, before.mem, at, x);
      ColumnStaysReady(s.mem, before.mem, at, wa, c);
      LoadTile(before.mem, at.xa, x, t - 1);
      LoadTile(before.mem, wa, c, t - 1);
      TileCall(before, at.base, at.xa + 27 * (t - 1), wa + 27 * (t - 1), at.ya);
    }
  }

  /** One column by kernel calls: the sum the host collects is the inner product, for every
      number of rows. */
  lemma ColumnByTiles(s: State, at: Place, wa: int, x: seq<int>, c: seq<int>)
    requires Shaped(s) && |x| == |c| && Ready(s.mem, at, x) && ColumnReady(s.mem, at, wa, c)
    ensures var r := TileCalls(s, at, wa, Tiles(|x|));
      && r.fault.None? && r.got == Inner(x, c) && SameButResult(s.mem, r.s.mem, at)
      && r.s.counts[OpValue(TVMAC)] == s.counts[OpValue(TVMAC)] + Tiles(|x|)
  {
    TilesAdd(s, at, wa, x, c, Tiles(|x|));
    TilesCover(x, c);
  }

  /** A whole output row: the columns one after another, each from its own address. */
  datatype Routed = Routed(s: State, out: seq<int>, fault: Option<Fault>)

  function RowCalls(s: State, at: Place, was: seq<int>, tiles: nat, n: nat): (r: Routed)
    requires Shaped(s) && n <= |was|
    ensures Shaped(r.s)
    decreases n, s
  {
    if n == 0 then Routed(s, [], None)
    else
      var before := RowCalls(s, at, was, tiles, n - 1);
      if before.fault.Some? then before
      else
        var r := TileCalls(before.s, at, was[n - 1], tiles);
        Routed(r.s, before.out + [r.got], r.fault)
  }

  /** Every column of the weights is in place. */
  ghost predicate WeightsReady(mem: seq<int>, at: Place, was: seq<int>, w: seq<int>, kk: nat, n: nat)
    requires |w| == kk * n && |was| == n
  {
    forall j :: 0 <= j < n ==> ColumnReady(mem, at, was[j], ColumnOf(w, kk, n, j))
  }

  /** Kernel calls and host loop agree: for payload operands, calling the kernel for every tile
      of every column faults nowhere, collects in every column what the host loop computes, and
      counts exactly the multiply-accumulates the host accounts for. */
  lemma {:induction false} CallsAgree(s: State, at: Place, was: seq<int>, x: seq<int>, w: seq<int>,
                                      kk: nat, n: nat, m: nat)
    requires Shaped(s) && |x| == kk && |w| == kk * n && |was| == n && m <= n
    requires Ready(s.mem, at, x) && WeightsReady(s.mem, at, was, w, kk, n)
    ensures var r := RowCalls(s, at, was, Tiles(kk), m);
      && r.fault.None? && |r.out| == m && SameButResult(s.mem, r.s.mem, at)
      && (forall j :: 0 <= j < m ==> r.out[j] == Inner(x, ColumnOf(w, kk, n, j)))
      && r.s.counts[OpValue(TVMAC)] == s.counts[OpValue(TVMAC)] + Tiles(kk) * m
    decreases m
  {
    hide ColumnOf, Inner, TileCalls, Ready, ColumnReady, Tiles;
    if m == 0 {
    } else {
      CallsAgree(s, at, was, x, w, kk, n, m - 1);
      var before := RowCalls(s, at, was, Tiles(kk), m - 1).s;
      var c := ColumnOf(w, kk, n, m - 1);
      StaysReady(s.mem, before.mem, at, x);
      ColumnStaysReady(s.mem, before.mem, at, was[m - 1], c);
      ColumnByTiles(before, at, was[m - 1], x, c);
      assert Tiles(kk) * m == Tiles(kk) * (m - 1) + Tiles(kk);
    }
  }
}
