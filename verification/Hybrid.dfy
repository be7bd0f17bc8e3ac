/** The hybrid dispatch: wide outputs go to the tensor cores, in the precise or the lossy form
    a global flag selects; everything else goes to the dp4a kernel. */
module Hybrid {
  import opened Isa
  import opened PackedKernels
  import opened Int4Kernel

  datatype Kernel = V11Dp4a | V13Int4 | V13Int4Precise

  /** Both weight layouts; the tensor-core one and its column sums only when the shape allows. */
  datatype HybridWeights =
    HybridWeights(packed: seq<Byte>, int4: Option<seq<nat>>, sums: Option<seq<int>>, kk: nat, n: nat)

  predicate Tiled(kk: nat, n: nat) { kk % 32 == 0 && n % 8 == 0 }

  ghost predicate Prepacked(h: HybridWeights) {
    && h.n % 4 == 0 && |h.packed| == h.n / 4 * h.kk
    && (h.int4.Some? <==> Tiled(h.kk, h.n)) && (h.sums.Some? <==> Tiled(h.kk, h.n))
    && (h.int4.Some? ==> Repacked(h.packed, h.kk, h.n, h.int4.value))
    && (h.sums.Some? ==> SumsOf(h.packed, h.kk, h.n, h.sums.value))
  }

  /** prepack_hybrid_weights */
  method Prepack(w: seq<Byte>, kk: nat, n: nat) returns (h: HybridWeights)
    requires n % 4 == 0 && |w| == n / 4 * kk
    ensures Prepacked(h) && h.packed == w && h.kk == kk && h.n == n
  {
    hide Repacked, SumsOf;
    if kk % 32 == 0 && n % 8 == 0 {
      var w4 := RepackTrits(w, kk, n);
      var sums := WeightSums(w, kk, n);
      h := HybridWeights(w, Some(w4), Some(sums), kk, n);
    } else {
      h := HybridWeights(w, None, None, kk, n);
    }
  }

  class Dispatch {
    var precise: bool

    constructor ()
      ensures !precise
    {
      precise := false;
    }

    method SetPrecise(v: bool)
      modifies this
      ensures precise == v
    {
      precise := v;
    }

    function PickKernel(n: nat): Kernel
      reads this
    {
      if n >= 4096 then if precise then V13Int4Precise else V13Int4 else V11Dp4a
    }

    /** launch_hybrid_matmul. Only the lossy kernel, on a shape it can take, departs from the
        exact product; in precise mode every shape gets what the dp4a kernel computes. */
    method Launch(x: seq<Int8>, h: HybridWeights) returns (out: array<int>)
      requires Prepacked(h) && |x| == h.kk
      ensures out.Length == h.n
      ensures precise || h.n < 4096 || !Tiled(h.kk, h.n) ==>
        forall col :: 0 <= col < h.n ==> out[col] == Dot(x, h.packed, h.kk, h.n, col)
      ensures !precise && h.n >= 4096 && Tiled(h.kk, h.n) ==>
        forall col :: 0 <= col < h.n ==> out[col] == LossyDot(x, h.packed, h.kk, h.n, col)
    {
      hide Repacked, SumsOf, Dot, LossyDot;
      var k := PickKernel(h.n);
      if k == V13Int4Precise && h.int4 != None && h.sums != None {
        out := LaunchPrecise(x, h.packed, h.int4.value, h.sums.value, h.kk, h.n);
      } else if k == V13Int4 && h.int4 != None {
        out := LaunchLossy(x, h.packed, h.int4.value, h.kk, h.n);
      } else {
        out := PackedKernels.Launch(ByDp4a, x, h.packed, h.kk, h.n);
      }
    }
  }
}
