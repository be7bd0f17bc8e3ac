/** The lane loops of the vector unit, each proved to compute the lanes the integer machine
    prescribes. */
module Vectors {
  import opened Sums
  import opened Machine
  import Words

  const ZERO_VEC: Vec := seq(27, i => 0)

  /** Vec::set_lane: clamps to the nine-trit payload range. */
  function SetLane(r: Vec, i: nat, v: int): Vec
    requires i < 27
  {
    r[i := if v < -9841 then -9841 else if v > 9841 then 9841 else v]
  }

  /** Vec::set_lane_wide: clamps at the 32-bit boundary only. */
  function SetLaneWide(r: Vec, i: nat, v: int): Vec
    requires i < 27
  {
    var hi := if v > 0x7fff_ffff then 0x7fff_ffff else v;
    r[i := if hi < -0x8000_0000 then -0x8000_0000 else hi]
  }

  method VecAdd(a: Vec, b: Vec) returns (r: Vec)
    ensures r == VAdd(a, b)
  {
    r := ZERO_VEC;
    for i := 0 to 27
      invariant forall k :: 0 <= k < i ==> r[k] == VAdd(a, b)[k]
    {
      r := SetLaneWide(r, i, ClampInt32(a[i] + b[i]));
    }
  }

  method VecSub(a: Vec, b: Vec) returns (r: Vec)
    ensures r == VSub(a, b)
  {
    r := ZERO_VEC;
    for i := 0 to 27
      invariant forall k :: 0 <= k < i ==> r[k] == VSub(a, b)[k]
    {
      r := SetLaneWide(r, i, ClampInt32(a[i] - b[i]));
    }
  }

  /** The most negative lane has no negation in 32 bits and becomes the largest value. */
  method VecNeg(a: Vec) returns (r: Vec)
    requires LanesFit(a)
    ensures r == VNeg(a)
  {
    r := ZERO_VEC;
    for i := 0 to 27
      invariant forall k :: 0 <= k < i ==> r[k] == VNeg(a)[k]
    {
      var v := a[i];
      if v == -0x8000_0000 { v := 0x7fff_ffff; } else { v := -v; }
      r := SetLaneWide(r, i, v);
    }
  }

  method VecMul(a: Vec, b: Vec) returns (r: Vec)
    ensures r == VMul(a, b)
  {
    r := ZERO_VEC;
    for i := 0 to 27
      invariant forall k :: 0 <= k < i ==> r[k] == VMul(a, b)[k]
    {
      var prod := a[i] * b[i];
      r := SetLaneWide(r, i, prod);
    }
  }

  method VecBroadcast(v: int) returns (r: Vec)
    ensures r == VBroadcast(v)
  {
    r := ZERO_VEC;
    for i := 0 to 27
      invariant forall k :: 0 <= k < i ==> r[k] == VBroadcast(v)[k]
    {
      assert VBroadcast(v)[i] == ClampLane(v);
      r := SetLane(r, i, v);
    }
  }

  method VecMac(acc: Vec, a: Vec, b: Vec) returns (acc': Vec)
    ensures acc' == VMac(acc, a, b)
  {
    acc' := acc;
    for i := 0 to 27
      invariant forall k :: 0 <= k < 27 ==> acc'[k] == if k < i then VMac(acc, a, b)[k] else acc[k]
    {
      acc' := acc'[i := acc'[i] + a[i] * b[i]];
    }
  }

  method VecSum(acc: Vec) returns (s: int)
    ensures s == Sum(acc)
  {
    s := 0;
    for i := 0 to 27
      invariant s == Sum(acc[..i])
    {
      assert acc[..i + 1][..i] == acc[..i];
      s := s + acc[i];
    }
    assert acc[..27] == acc;
  }

  /** The scan of TVMAX: each lane is compared with the lane before it, already updated. */
  method VecMax(a: Vec) returns (r: Vec)
    ensures r == VMax(a)
  {
    r := a;
    for k := 1 to 27
      invariant forall j :: 0 <= j < 27 ==> r[j] == if j < k then MaxScan(a, j) else a[j]
    {
      if r[k - 1] > r[k] { r := SetLane(r, k, r[k - 1]); }
    }
  }

  /** A rotation; the shift is reduced with the truncating remainder, made positive, reduced again. */
  method VecShuf(a: Vec, imm: int) returns (r: Vec)
    ensures r == VShuf(a, imm)
  {
    r := ZERO_VEC;
    var n := 27;
    var shift := (Words.CRem(imm, n) + n) % n;
    Words.RemReduced(imm, n);
    for k := 0 to n
      invariant forall j :: 0 <= j < k ==> r[j] == VShuf(a, imm)[j]
    {
      assert VShuf(a, imm)[k] == ClampLane(a[(k + imm % 27) % 27]);
      r := SetLane(r, k, a[(k + shift) % n]);
    }
  }

  /** With every lane in the payload range, TVMAX leaves in lane k the maximum of lanes 0..k. */
  lemma {:induction false} MaxScanIsMaximum(a: Vec, k: nat)
    requires k < 27 && forall j :: 0 <= j <= k ==> -9841 <= a[j] <= 9841
    ensures (forall j :: 0 <= j <= k ==> a[j] <= MaxScan(a, k)) && MaxScan(a, k) in a[..k + 1]
  {
    if k == 0 {
    } else {
      MaxScanIsMaximum(a, k - 1);
      var j :| 0 <= j < k && a[..k][j] == MaxScan(a, k - 1);
      assert a[..k + 1][j] == a[j] && a[..k + 1][k] == a[k];
    }
  }
}
