/** Converting interleaved two-bit weight storage to the column-major packed layout, and the
    path from storage to the product a kernel computes. */
module Conversion {
  import opened Arithmetic
  import opened Positional
  import opened Sums
  import opened PackedKernels
  import Int4Kernel

  /** The storage code of flat element e: blocks of 128 elements in 32 bytes; byte p of a block
      holds elements p, p+32, p+64 and p+96, the first in the high bits. */
  function StoredCode(raw: seq<Byte>, e: nat): (c: nat)
    requires e < 4 * |raw| && |raw| % 32 == 0
    ensures c < 4
  {
    InBlock(e, |raw|);
    FieldAt(4, raw[e / 128 * 32 + e % 32], 3 - e % 128 / 32)
  }

  lemma InBlock(e: nat, bytes: nat)
    requires e < 4 * bytes && bytes % 32 == 0
    ensures 0 <= e / 128 * 32 + e % 32 < bytes && 0 <= e % 128 / 32 <= 3
  {
    var b := bytes / 32;
    assert e < 128 * b;
    assert e / 128 <= b - 1;
  }

  /** The weight a storage code stands for: 0 is -1, 1 is 0, 2 is +1, 3 is 0. */
  function StoredWeight(c: nat): (w: int)
    ensures c < 3 ==> w == c - 1
    ensures c == 3 ==> w == 0
  {
    if c == 0 then -1 else if c == 2 then 1 else 0
  }

  // ---- decoding the interleaved blocks ----

  function GroupCode(raw: seq<Byte>, b: nat, group: nat, p: nat): nat
    requires b * 32 + 32 <= |raw| && group < 4 && p < 32
  {
    FieldAt(4, raw[b * 32 + p], 3 - group)
  }

  /** The 32 codes of one group of one block. */
  function GroupCodes(raw: seq<Byte>, b: nat, group: nat): (r: seq<nat>)
    requires b * 32 + 32 <= |raw| && group < 4
    ensures |r| == 32
  {
    seq(32, p requires 0 <= p < 32 => GroupCode(raw, b, group, p))
  }

  ghost predicate GroupPlaced(flat: seq<nat>, raw: seq<Byte>, b: nat, group: nat) {
    && group < 4 && b * 32 + 32 <= |raw| && |flat| == 4 * |raw|
    && flat[b * 128 + group * 32..b * 128 + group * 32 + 32] == GroupCodes(raw, b, group)
  }

  /** One slice assignment places its group and moves no other. */
  lemma SlicePlaced(flat: seq<nat>, flat': seq<nat>, raw: seq<Byte>, b: nat, group: nat)
    requires group < 4 && b * 32 + 32 <= |raw| && |flat| == |flat'| == 4 * |raw|
    requires var at := b * 128 + group * 32;
      forall e :: 0 <= e < |flat| ==>
        (flat'[e] == if at <= e < at + 32 then GroupCodes(raw, b, group)[e - at] else flat[e])
    ensures GroupPlaced(flat', raw, b, group)
    ensures forall b', g' :: 0 <= b' && 0 <= g' && GroupPlaced(flat, raw, b', g') ==> GroupPlaced(flat', raw, b', g')
  {
    hide GroupCodes;
    forall b', g' | 0 <= b' && 0 <= g' && GroupPlaced(flat, raw, b', g')
      ensures GroupPlaced(flat', raw, b', g')
    {
      if b' != b || g' != group {
        var at, at' := b * 128 + group * 32, b' * 128 + g' * 32;
        assert at + 32 <= at' || at' + 32 <= at;
        assert flat'[at'..at' + 32] == flat[at'..at' + 32];
      }
    }
  }

  method DecodeBlocks(raw: seq<Byte>) returns (flat: seq<nat>)
    requires |raw| % 32 == 0
    ensures |flat| == 4 * |raw| && forall e :: 0 <= e < |flat| ==> flat[e] == StoredCode(raw, e)
    ensures forall e :: 0 <= e < |flat| ==> flat[e] < 4
    ensures forall b, p :: 0 <= b < |raw| / 32 && 0 <= p < 32 ==> ByteHolds(raw, flat, b, p)
  {
    hide FieldAt, GroupPlaced, GroupCodes, ByteHolds;
    var blocks := |raw| / 32;
    var codes := new nat[4 * |raw|](i => 0);
    for group := 0 to 4
      invariant forall b, g :: 0 <= b < blocks && 0 <= g < group ==> GroupPlaced(codes[..], raw, b, g)
    {
      for b := 0 to blocks
        invariant forall b', g :: 0 <= b' < blocks && 0 <= g < group ==> GroupPlaced(codes[..], raw, b', g)
        invariant forall b' :: 0 <= b' < b ==> GroupPlaced(codes[..], raw, b', group)
      {
        ghost var before := codes[..];
        var decoded := GroupCodes(raw, b, group);
        var at := b * 128 + group * 32;
        forall p | 0 <= p < 32 { codes[at + p] := decoded[p]; }
        SlicePlaced(before, codes[..], raw, b, group);
      }
    }
    flat := codes[..];
    forall e | 0 <= e < |flat| ensures flat[e] == StoredCode(raw, e) {
      assert GroupPlaced(flat, raw, e / 128, e % 128 / 32);
      PlacedElement(flat, raw, e);
    }
    forall b, p | 0 <= b < blocks && 0 <= p < 32 ensures ByteHolds(raw, flat, b, p) {
      ByteOfCodes(raw, flat, b, p);
    }
  }

  /** Byte p of block b is the base-4 number of elements p, p + 32, p + 64 and p + 96 of the block. */
  predicate ByteHolds(raw: seq<Byte>, flat: seq<nat>, b: nat, p: nat) {
    32 * b + p < |raw| && 128 * b + p + 96 < |flat| &&
    raw[32 * b + p] == 64 * flat[128 * b + p] + 16 * flat[128 * b + p + 32]
                     + 4 * flat[128 * b + p + 64] + flat[128 * b + p + 96]
  }

  lemma CodeOfBlock(raw: seq<Byte>, b: nat, g: nat, p: nat)
    requires |raw| % 32 == 0 && b < |raw| / 32 && g < 4 && p < 32
    ensures 128 * b + 32 * g + p < 4 * |raw| && 32 * b + p < |raw|
    ensures StoredCode(raw, 128 * b + 32 * g + p) == FieldAt(4, raw[32 * b + p], 3 - g)
  {
    hide FieldAt;
    var e := 128 * b + 32 * g + p;
    ModUnique(e, 128, b, 32 * g + p);
    ModUnique(32 * g + p, 32, g, p);
    ModUnique(e, 32, 4 * b + g, p);
  }

  lemma ByteOfCodes(raw: seq<Byte>, flat: seq<nat>, b: nat, p: nat)
    requires |raw| % 32 == 0 && |flat| == 4 * |raw| && b < |raw| / 32 && p < 32
    requires forall e :: 0 <= e < |flat| ==> flat[e] == StoredCode(raw, e)
    ensures ByteHolds(raw, flat, b, p)
  {
    hide FieldAt, StoredCode;
    CodeOfBlock(raw, b, 0, p);
    CodeOfBlock(raw, b, 1, p);
    CodeOfBlock(raw, b, 2, p);
    CodeOfBlock(raw, b, 3, p);
    FourFields(raw[32 * b + p]);
  }

  lemma FourFields(v: Byte)
    ensures v == 64 * FieldAt(4, v, 3) + 16 * FieldAt(4, v, 2) + 4 * FieldAt(4, v, 1) + FieldAt(4, v, 0)
  {
    assert Pow(4, 1) == 4 && Pow(4, 2) == 16 && Pow(4, 3) == 64;
  }

  lemma PlaceOf(e: nat)
    ensures e == e / 128 * 128 + e % 128 / 32 * 32 + e % 32
  {
    var r := e % 128;
    ModUnique(e, 32, 4 * (e / 128) + r / 32, r % 32);
  }

  lemma GroupCodesAt(raw: seq<Byte>, b: nat, group: nat, p: nat)
    requires b * 32 + 32 <= |raw| && group < 4 && p < 32
    ensures GroupCodes(raw, b, group)[p] == GroupCode(raw, b, group, p)
  {
    hide GroupCode;
  }

  lemma PlacedElement(flat: seq<nat>, raw: seq<Byte>, e: nat)
    requires e < |flat| && |raw| % 32 == 0 && GroupPlaced(flat, raw, e / 128, e % 128 / 32)
    ensures flat[e] == StoredCode(raw, e)
  {
    hide FieldAt;
    var b, g, p := e / 128, e % 128 / 32, e % 32;
    PlaceOf(e);
    var at := b * 128 + g * 32;
    assert flat[at..at + 32][p] == flat[at + p];
    GroupCodesAt(raw, b, g, p);
  }

  // ---- remapping and column-major packing ----

  /** Storage codes to packed codes: 0 to 2, 1 to 0, 2 to 1, 3 to 0. */
  const REMAP: seq<nat> := [2, 0, 1, 0]

  lemma RemapKeepsWeight(c: nat)
    requires c < 4
    ensures REMAP[c] < 4
    ensures (if REMAP[c] == 1 then 1 else 0) - (if REMAP[c] == 2 then 1 else 0) == StoredWeight(c)
  {
  }

  function Remapped(flat: seq<nat>): (r: seq<nat>)
    requires forall e :: 0 <= e < |flat| ==> flat[e] < 4
    ensures |r| == |flat| && forall e :: 0 <= e < |r| ==> r[e] == REMAP[flat[e]] < 4
  {
    seq(|flat|, e requires 0 <= e < |flat| => REMAP[flat[e]])
  }

  /** N rows of K codes, flat and in range. */
  ghost predicate Matrix(codes: seq<nat>, n: nat, kk: nat) {
    |codes| == n * kk && forall e :: 0 <= e < |codes| ==> codes[e] < 4
  }

  function CodeAt(codes: seq<nat>, n: nat, kk: nat, row: nat, k: nat): (c: nat)
    requires Matrix(codes, n, kk) && row < n && k < kk
    ensures c < 4
  {
    ColumnFits(kk, row, n);
    ColumnStart(kk, row);
    codes[row * kk + k]
  }

  /** The first `subs` codes that share the packed byte (j, k): row k of columns 4j, 4j+1, ... */
  function ByteCodes(codes: seq<nat>, n: nat, kk: nat, j: nat, k: nat, subs: nat): (r: seq<nat>)
    requires Matrix(codes, n, kk) && 4 * j + 4 <= n && k < kk && subs <= 4
    ensures |r| == subs && Fields(4, r)
  {
    var r := seq(subs, s requires 0 <= s < subs => CodeAt(codes, n, kk, 4 * j + s, k));
    assert forall s :: 0 <= s < subs ==> r[s] == CodeAt(codes, n, kk, 4 * j + s, k);
    r
  }

  lemma OrNextCode(codes: seq<nat>, n: nat, kk: nat, j: nat, k: nat, sub: nat)
    requires Matrix(codes, n, kk) && 4 * j + 4 <= n && k < kk && sub < 4
    ensures Join(4, ByteCodes(codes, n, kk, j, k, sub + 1))
         == Join(4, ByteCodes(codes, n, kk, j, k, sub)) + CodeAt(codes, n, kk, 4 * j + sub, k) * Pow(4, sub)
  {
    var before := ByteCodes(codes, n, kk, j, k, sub);
    JoinSnoc(4, before, CodeAt(codes, n, kk, 4 * j + sub, k));
    assert ByteCodes(codes, n, kk, j, k, sub + 1) == before + [CodeAt(codes, n, kk, 4 * j + sub, k)];
  }

  ghost predicate Rows(out: array2<int>, codes: seq<nat>, n: nat, kk: nat, rows: nat, subs: nat)
    requires Matrix(codes, n, kk) && n % 4 == 0 && subs <= 4 && rows <= n / 4
    reads out
  {
    out.Length0 == n / 4 && out.Length1 == kk &&
    forall j, k :: 0 <= j < rows && 0 <= k < kk ==> out[j, k] == Join(4, ByteCodes(codes, n, kk, j, k, subs))
  }

  /** Ors the codes of every fourth column, starting at sub, into field sub of the whole matrix. */
  method OrPass(out: array2<int>, codes: seq<nat>, n: nat, kk: nat, sub: nat)
    requires Matrix(codes, n, kk) && n % 4 == 0 && sub < 4 && Rows(out, codes, n, kk, n / 4, sub)
    modifies out
    ensures Rows(out, codes, n, kk, n / 4, sub + 1)
  {
    hide ByteCodes, Join;
    for j := 0 to n / 4
      invariant Rows(out, codes, n, kk, j, sub + 1)
      invariant forall j', k :: j <= j' < n / 4 && 0 <= k < kk ==>
        out[j', k] == Join(4, ByteCodes(codes, n, kk, j', k, sub))
    {
      for k := 0 to kk
        invariant Rows(out, codes, n, kk, j, sub + 1)
        invariant forall j', k :: j < j' < n / 4 && 0 <= k < kk ==>
          out[j', k] == Join(4, ByteCodes(codes, n, kk, j', k, sub))
        invariant forall k' :: k <= k' < kk ==> out[j, k'] == Join(4, ByteCodes(codes, n, kk, j, k', sub))
        invariant forall k' :: 0 <= k' < k ==> out[j, k'] == Join(4, ByteCodes(codes, n, kk, j, k', sub + 1))
      {
        OrNextCode(codes, n, kk, j, k, sub);
        out[j, k] := out[j, k] + CodeAt(codes, n, kk, 4 * j + sub, k) * Pow(4, sub);
      }
    }
  }

  /** The packed buffer: row j of the byte matrix is byte-column j. */
  ghost predicate PackedFrom(packed: seq<Byte>, codes: seq<nat>, n: nat, kk: nat, rows: nat)
    requires Matrix(codes, n, kk) && n % 4 == 0 && rows <= n / 4
  {
    |packed| == rows * kk && forall j :: 0 <= j < rows ==> PackedRow(packed, codes, n, kk, rows, j)
  }

  ghost predicate PackedRow(packed: seq<Byte>, codes: seq<nat>, n: nat, kk: nat, rows: nat, j: nat)
    requires Matrix(codes, n, kk) && n % 4 == 0 && j < rows <= n / 4 && |packed| == rows * kk
  {
    ColumnFits(kk, j, rows);
    forall k :: 0 <= k < kk ==> ByteColumn(packed, kk, j)[k] == Join(4, ByteCodes(codes, n, kk, j, k, 4))
  }

  method PackColumns(codes: seq<nat>, n: nat, kk: nat) returns (packed: seq<Byte>)
    requires Matrix(codes, n, kk) && n % 4 == 0
    ensures PackedFrom(packed, codes, n, kk, n / 4)
  {
    hide ByteCodes, Join, PackedRow;
    var out := new int[n / 4, kk]((j, k) => 0);
    NoCodes(codes, n, kk);
    for sub := 0 to 4
      invariant Rows(out, codes, n, kk, n / 4, sub)
    {
      OrPass(out, codes, n, kk, sub);
    }
    packed := Flatten(out, codes, n, kk);
  }

  /** The rows of the byte matrix, one after another. */
  method Flatten(out: array2<int>, ghost codes: seq<nat>, n: nat, kk: nat) returns (packed: seq<Byte>)
    requires Matrix(codes, n, kk) && n % 4 == 0 && Rows(out, codes, n, kk, n / 4, 4)
    ensures PackedFrom(packed, codes, n, kk, n / 4)
  {
    hide ByteCodes, Join, PackedRow;
    packed := [];
    for j := 0 to n / 4
      invariant PackedFrom(packed, codes, n, kk, j)
    {
      var row: seq<Byte> := [];
      for k := 0 to kk
        invariant |row| == k && forall k' :: 0 <= k' < k ==> row[k'] == Join(4, ByteCodes(codes, n, kk, j, k', 4))
      {
        ByteRange(codes, n, kk, j, k);
        row := row + [out[j, k]];
      }
      AppendRow(packed, row, codes, n, kk, j);
      packed := packed + row;
    }
  }

  lemma NoCodes(codes: seq<nat>, n: nat, kk: nat)
    requires Matrix(codes, n, kk)
    ensures forall j, k :: 0 <= j && 4 * j + 4 <= n && 0 <= k < kk ==> Join(4, ByteCodes(codes, n, kk, j, k, 0)) == 0
  {
  }

  lemma ByteRange(codes: seq<nat>, n: nat, kk: nat, j: nat, k: nat)
    requires Matrix(codes, n, kk) && 4 * j + 4 <= n && k < kk
    ensures Join(4, ByteCodes(codes, n, kk, j, k, 4)) < 256
  {
    JoinBound(4, ByteCodes(codes, n, kk, j, k, 4));
    assert Pow(4, 4) == 256;
  }

  lemma AppendRow(packed: seq<Byte>, row: seq<Byte>, codes: seq<nat>, n: nat, kk: nat, j: nat)
    requires Matrix(codes, n, kk) && n % 4 == 0 && j < n / 4 && PackedFrom(packed, codes, n, kk, j)
    requires |row| == kk && forall k :: 0 <= k < kk ==> row[k] == Join(4, ByteCodes(codes, n, kk, j, k, 4))
    ensures PackedFrom(packed + row, codes, n, kk, j + 1)
  {
    hide ByteCodes, Join;
    ColumnStart(kk, j);
    var rows, longer := j + 1, packed + row;
    forall i | 0 <= i < rows ensures PackedRow(longer, codes, n, kk, rows, i) {
      ColumnFits(kk, i, rows);
      ColumnStart(kk, i);
      if i < j {
        ColumnFits(kk, i, j);
        assert PackedRow(packed, codes, n, kk, j, i);
        assert ByteColumn(longer, kk, i) == ByteColumn(packed, kk, i);
      } else {
        assert ByteColumn(longer, kk, i) == row;
      }
    }
  }

  /** i2s_to_col_packed */
  method Convert(raw: seq<Byte>, n: nat, kk: nat) returns (packed: seq<Byte>)
    requires |raw| % 32 == 0 && 4 * |raw| == n * kk && n % 4 == 0 && kk % 4 == 0
    ensures |packed| == n / 4 * kk
    ensures forall col :: 0 <= col < n ==> Int4Kernel.WeightColumn(packed, kk, n, col) == StoredColumn(raw, n, kk, col)
  {
    hide StoredCode, PackedFrom;
    var flat := DecodeBlocks(raw);
    var codes := Remapped(flat);
    packed := PackColumns(codes, n, kk);
    assert |packed| == n / 4 * kk by { PackedSize(packed, codes, n, kk); }
    forall col | 0 <= col < n ensures Int4Kernel.WeightColumn(packed, kk, n, col) == StoredColumn(raw, n, kk, col) {
      PackedWeights(raw, flat, codes, packed, n, kk, col);
    }
  }

  lemma PackedSize(packed: seq<Byte>, codes: seq<nat>, n: nat, kk: nat)
    requires Matrix(codes, n, kk) && n % 4 == 0 && PackedFrom(packed, codes, n, kk, n / 4)
    ensures |packed| == n / 4 * kk
  {
  }

  /** Column col of the stored matrix: elements col*K .. col*K + K - 1 of the flat tensor. */
  function StoredColumn(raw: seq<Byte>, n: nat, kk: nat, col: nat): (r: seq<int>)
    requires |raw| % 32 == 0 && 4 * |raw| == n * kk && col < n
    ensures |r| == kk
  {
    seq(kk, k requires 0 <= k < kk => StoredAt(raw, n, kk, col, k))
  }

  function StoredAt(raw: seq<Byte>, n: nat, kk: nat, col: nat, k: nat): int
    requires |raw| % 32 == 0 && 4 * |raw| == n * kk && col < n && k < kk
  {
    ColumnFits(kk, col, n);
    ColumnStart(kk, col);
    StoredWeight(StoredCode(raw, col * kk + k))
  }

  /** The weights of the flat tensor, in storage order. */
  function FlatWeights(raw: seq<Byte>): (r: seq<int>)
    requires |raw| % 32 == 0
    ensures |r| == 4 * |raw|
  {
    seq(4 * |raw|, e requires 0 <= e < 4 * |raw| => StoredWeight(StoredCode(raw, e)))
  }

  /** The first m columns, one after another. */
  function Columns(raw: seq<Byte>, n: nat, kk: nat, m: nat): (r: seq<int>)
    requires |raw| % 32 == 0 && 4 * |raw| == n * kk && m <= n
    ensures |r| == m * kk
  {
    if m == 0 then []
    else
      ColumnStart(kk, m - 1);
      Columns(raw, n, kk, m - 1) + StoredColumn(raw, n, kk, m - 1)
  }

  /** The stored columns, one after another, are the flat tensor: each of its elements is in exactly
      one column, in order. */
  lemma {:induction false} ColumnsAreFlat(raw: seq<Byte>, n: nat, kk: nat, m: nat)
    requires |raw| % 32 == 0 && 4 * |raw| == n * kk && m <= n
    ensures m * kk <= 4 * |raw| && Columns(raw, n, kk, m) == FlatWeights(raw)[..m * kk]
    decreases m
  {
    hide StoredCode, StoredWeight;
    if m == 0 {
    } else {
      ColumnFits(kk, m - 1, n);
      ColumnStart(kk, m - 1);
      ColumnsAreFlat(raw, n, kk, m - 1);
      var flat, column := FlatWeights(raw), StoredColumn(raw, n, kk, m - 1);
      forall k | 0 <= k < kk ensures column[k] == flat[(m - 1) * kk + k] {
        assert column[k] == StoredAt(raw, n, kk, m - 1, k);
      }
      assert flat[..m * kk] == flat[..(m - 1) * kk] + column;
    }
  }

  /** Every flat slot is read at the right place: the weight a kernel sees is the stored one. */
  lemma PackedWeights(raw: seq<Byte>, flat: seq<nat>, codes: seq<nat>, packed: seq<Byte>,
                      n: nat, kk: nat, col: nat)
    requires |raw| % 32 == 0 && 4 * |raw| == n * kk && n % 4 == 0 && col < n
    requires |flat| == 4 * |raw| && forall e :: 0 <= e < |flat| ==> flat[e] == StoredCode(raw, e) && flat[e] < 4
    requires codes == Remapped(flat) && PackedFrom(packed, codes, n, kk, n / 4)
    ensures Int4Kernel.WeightColumn(packed, kk, n, col) == StoredColumn(raw, n, kk, col)
  {
    hide StoredCode, Join, FieldAt, REMAP, StoredWeight;
    var j, sub := col / 4, col % 4;
    ColumnFits(kk, j, n / 4);
    assert PackedRow(packed, codes, n, kk, n / 4, j);
    forall k | 0 <= k < kk
      ensures Int4Kernel.WeightColumn(packed, kk, n, col)[k] == StoredAt(raw, n, kk, col, k)
    {
      ColumnFits(kk, col, n);
      ColumnStart(kk, col);
      FieldOfJoin(4, ByteCodes(codes, n, kk, j, k, 4), sub);
      assert ByteCodes(codes, n, kk, j, k, 4)[sub] == CodeAt(codes, n, kk, 4 * j + sub, k);
      assert 4 * j + sub == col;
      RemapKeepsWeight(flat[col * kk + k]);
    }
  }

  /** From storage to product: converting any raw bytes and running the add-only kernel leaves
      in every column the sum of activations times stored weights. */
  method StoredProduct(raw: seq<Byte>, x: seq<Int8>, n: nat, kk: nat) returns (out: array<int>)
    requires |raw| % 32 == 0 && 4 * |raw| == n * kk && n % 4 == 0 && kk % 4 == 0 && |x| == kk
    ensures out.Length == n
    ensures forall col :: 0 <= col < n ==> out[col] == Inner(x, StoredColumn(raw, n, kk, col))
  {
    hide StoredColumn, Inner, Column;
    var packed := Convert(raw, n, kk);
    out := Launch(ByAdds, x, packed, kk, n);
    forall col | 0 <= col < n ensures out[col] == Inner(x, StoredColumn(raw, n, kk, col)) {
      assert out[col] == Dot(x, packed, kk, n, col);
      assert Int4Kernel.WeightColumn(packed, kk, n, col) == StoredColumn(raw, n, kk, col);
    }
  }
}
