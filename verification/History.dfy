/** The global history of the predictor and what it costs: the history register holds the last
    outcomes, the newest lowest, and a loop branch trains a new counter for each of them. */
module History {
  import opened Arithmetic
  import opened Predictor

  // ---- bits ----

  function Bit(v: nat, k: nat): (b: nat)
    ensures b <= 1
    decreases k
  {
    if k == 0 then v % 2 else Bit(v / 2, k - 1)
  }

  /** Numbers with the same bits are equal. */
  lemma {:induction false} BitsDetermine(a: nat, b: nat)
    requires forall k :: 0 <= k ==> Bit(a, k) == Bit(b, k)
    ensures a == b
    decreases a + b
  {
    assert Bit(a, 0) == Bit(b, 0);
    if a == 0 && b == 0 {
    } else {
      forall k | 0 <= k ensures Bit(a / 2, k) == Bit(b / 2, k) {
        assert Bit(a, k + 1) == Bit(b, k + 1);
      }
      BitsDetermine(a / 2, b / 2);
    }
  }

  lemma {:induction false} ZeroBits(k: nat)
    ensures Bit(0, k) == 0
  {
    if k == 0 {
    } else {
      ZeroBits(k - 1);
    }
  }

  lemma Appended(v: nat, b: nat)
    requires b <= 1
    ensures (2 * v + b) / 2 == v && (2 * v + b) % 2 == b
  {
  }

  /** Xor works bit by bit. */
  lemma {:induction false} XorBits(a: nat, b: nat, k: nat)
    ensures Bit(Xor(a, b), k) == if Bit(a, k) == Bit(b, k) then 0 else 1
    decreases k
  {
    if a == 0 && b == 0 {
      ZeroBits(k);
    } else {
      var low := if a % 2 == b % 2 then 0 else 1;
      assert Xor(a, b) == 2 * Xor(a / 2, b / 2) + low;
      Appended(Xor(a / 2, b / 2), low);
      if k > 0 { XorBits(a / 2, b / 2, k - 1); }
    }
  }

  lemma TwiceRemainder(m: nat, q: nat, r: nat, b: nat)
    requires r < m && b <= 1
    ensures (2 * (q * m + r) + b) % (2 * m) == 2 * r + b
  {
    assert q * (2 * m) == 2 * (q * m);
    ModUnique(2 * (q * m + r) + b, 2 * m, q, 2 * r + b);
  }

  lemma HalfOfRemainder(v: nat, m: nat)
    requires m > 0
    ensures v % (2 * m) % 2 == v % 2 && v % (2 * m) / 2 == v / 2 % m
  {
    var half, b := v / 2, v % 2;
    var q, r := half / m, half % m;
    assert half == q * m + r;
    TwiceRemainder(m, q, r, b);
    Appended(r, b);
  }

  /** The remainder modulo 2^n keeps the low n bits. */
  lemma {:induction false} LowBits(v: nat, n: nat, k: nat)
    ensures Bit(v % Pow2(n), k) == if k < n then Bit(v, k) else 0
    decreases k
  {
    if n == 0 {
      assert v % 1 == 0;
      ZeroBits(k);
    } else {
      HalfOfRemainder(v, Pow2(n - 1));
      if k > 0 { LowBits(v / 2, n - 1, k - 1); }
    }
  }

  // ---- the history register ----

  /** The state after a stream of branches. */
  function Learned(cfg: BpConfig, s: BpState, stream: seq<Branch>): (r: BpState)
    requires Fits(cfg, s)
    ensures Fits(cfg, r)
  {
    if |stream| == 0 then s
    else Learn(cfg, Learned(cfg, s, stream[..|stream| - 1]), stream[|stream| - 1])
  }

  /** The outcome k branches ago, counting from the last one. */
  function OutcomeAgo(stream: seq<Branch>, k: nat): nat {
    if k < |stream| && stream[|stream| - 1 - k].taken then 1 else 0
  }

  /** After any stream from reset, bit k of the history is the outcome k branches ago for the
      configured number of bits, and no other bit is set. */
  lemma {:induction false} HistoryIsOutcomes(cfg: BpConfig, stream: seq<Branch>, k: nat)
    requires SoundBp(cfg) && !cfg.perfect
    ensures Fits(cfg, Reset(cfg))
    ensures Bit(Learned(cfg, Reset(cfg), stream).ghr, k) == if k < cfg.historyBits then OutcomeAgo(stream, k) else 0
  {
    hide Xor, Pow2;
    if |stream| == 0 {
      ZeroBits(k);
    } else {
      var n := |stream| - 1;
      var g, t := Learned(cfg, Reset(cfg), stream[..n]).ghr, if stream[n].taken then 1 else 0;
      LowBits(2 * g + t, cfg.historyBits, k);
      if k > 0 { HistoryIsOutcomes(cfg, stream[..n], k - 1); }
      Appended(g, t);
    }
  }

  /** Nothing else decides it: the history is the one number with those bits. */
  lemma HistoryUnique(cfg: BpConfig, stream: seq<Branch>, v: nat)
    requires SoundBp(cfg) && !cfg.perfect && Fits(cfg, Reset(cfg))
    requires forall k :: 0 <= k ==> Bit(v, k) == if k < cfg.historyBits then OutcomeAgo(stream, k) else 0
    ensures Learned(cfg, Reset(cfg), stream).ghr == v
  {
    var g := Learned(cfg, Reset(cfg), stream).ghr;
    forall k: nat ensures Bit(g, k) == Bit(v, k) { HistoryIsOutcomes(cfg, stream, k); }
    BitsDetermine(g, v);
  }

  // ---- a loop branch with history ----

  /** All mispredictions of a stream. */
  function Mispredicts(cfg: BpConfig, s: BpState, stream: seq<Branch>): nat
    requires Fits(cfg, s)
  {
    if |stream| == 0 then 0
    else
      var n := |stream| - 1;
      var miss := if Correct(cfg, Learned(cfg, s, stream[..n]), stream[n]) then 0 else 1;
      Mispredicts(cfg, s, stream[..n]) + miss
  }

  function Ones(k: nat): nat { Pow2(k) - 1 }

  lemma {:induction false} OnesBits(n: nat, k: nat)
    ensures Bit(Ones(n), k) == if k < n then 1 else 0
    decreases k
  {
    if n == 0 {
      ZeroBits(k);
    } else {
      assert Ones(n) == 2 * Ones(n - 1) + 1;
      if k > 0 { OnesBits(n - 1, k - 1); }
    }
  }

  /** The counter the branch uses while its last k outcomes were taken. */
  function Entry(cfg: BpConfig, pc: nat, k: nat): (i: nat)
    requires SoundBp(cfg)
    ensures i < cfg.phtEntries
  {
    Xor(pc, Ones(k)) % cfg.phtEntries
  }

  ghost predicate DistinctEntries(cfg: BpConfig, pc: nat)
    requires SoundBp(cfg)
  {
    forall j, k :: 0 <= j < k <= cfg.historyBits ==> Entry(cfg, pc, j) != Entry(cfg, pc, k)
  }

  /** A table of a power of two entries, at least as many as histories, separates them all. */
  lemma PowersSeparate(cfg: BpConfig, pc: nat, e: nat)
    requires SoundBp(cfg) && cfg.phtEntries == Pow2(e) && cfg.historyBits <= e
    ensures DistinctEntries(cfg, pc)
  {
    hide Xor, Pow2, Bit, Ones;
    forall j, k | 0 <= j < k <= cfg.historyBits ensures Entry(cfg, pc, j) != Entry(cfg, pc, k) {
      OnesBits(j, j);
      OnesBits(k, j);
      XorBits(pc, Ones(j), j);
      XorBits(pc, Ones(k), j);
      LowBits(Xor(pc, Ones(j)), e, j);
      LowBits(Xor(pc, Ones(k)), e, j);
    }
  }

  function Loop(pc: nat, target: nat, n: nat): (r: seq<Branch>)
    ensures |r| == n
  {
    seq(n, i => Branch(pc, true, target))
  }

  /** The counter of history k after m taken outcomes: it was trained once, unless it is that of a
      full history, which is trained every time from then on. */
  function Trained(h: nat, k: nat, m: nat): nat {
    if m <= k then 1 else if k < h || m == h + 1 then 2 else 3
  }

  ghost predicate InLoop(cfg: BpConfig, s: BpState, pc: nat, target: nat, m: nat)
    requires SoundBp(cfg)
  {
    && Fits(cfg, s) && s.ghr == Ones(if m < cfg.historyBits then m else cfg.historyBits)
    && (forall k :: 0 <= k <= cfg.historyBits ==> s.pht[Entry(cfg, pc, k)] == Trained(cfg.historyBits, k, m))
    && (m > 0 ==> s.valid[BtbIndex(cfg, pc)] && s.target[BtbIndex(cfg, pc)] == target)
  }

  lemma NextOnes(m: nat, h: nat)
    ensures m < h ==> (2 * Ones(m) + 1) % Pow2(h) == Ones(m + 1)
    ensures (2 * Ones(h) + 1) % Pow2(h) == Ones(h)
  {
    assert 2 * Ones(m) + 1 == Ones(m + 1) && Ones(h) == Pow2(h) - 1;
    if m < h { PowersGrow(m + 1, h); }
    hide Pow2;
    if m < h { ModUnique(Ones(m + 1), Pow2(h), 0, Ones(m + 1)); }
    ModUnique(2 * Ones(h) + 1, Pow2(h), 1, Ones(h));
  }

  lemma {:induction false} PowersGrow(m: nat, n: nat)
    requires m <= n
    ensures Pow2(m) <= Pow2(n)
    decreases n
  {
    if m == n {
    } else {
      PowersGrow(m, n - 1);
    }
  }

  /** One more taken outcome: mispredicted until the history is full and its counter trained. */
  lemma LoopStep(cfg: BpConfig, s: BpState, pc: nat, target: nat, m: nat)
    requires SoundBp(cfg) && !cfg.perfect && DistinctEntries(cfg, pc) && InLoop(cfg, s, pc, target, m)
    ensures InLoop(cfg, Learn(cfg, s, Branch(pc, true, target)), pc, target, m + 1)
    ensures Correct(cfg, s, Branch(pc, true, target)) <==> m > cfg.historyBits
    ensures Correct(cfg, s, Branch(pc, false, target)) <==> m <= cfg.historyBits
  {
    hide Xor, Pow2, Ones;
    NextOnes(m, cfg.historyBits);
    var at := if m < cfg.historyBits then m else cfg.historyBits;
    assert PhtIndex(cfg, s, pc) == Entry(cfg, pc, at);
  }

  lemma {:induction false} LoopFrom(cfg: BpConfig, pc: nat, target: nat, n: nat)
    requires SoundBp(cfg) && !cfg.perfect && DistinctEntries(cfg, pc)
    ensures Fits(cfg, Reset(cfg)) && InLoop(cfg, Learned(cfg, Reset(cfg), Loop(pc, target, n)), pc, target, n)
    ensures Mispredicts(cfg, Reset(cfg), Loop(pc, target, n)) == if n <= cfg.historyBits then n else cfg.historyBits + 1
  {
    hide Learn, Correct, Entry, Ones;
    if n == 0 {
      assert Ones(0) == 0 by { OnesNone(); }
    } else {
      LoopFrom(cfg, pc, target, n - 1);
      assert Loop(pc, target, n)[..n - 1] == Loop(pc, target, n - 1);
      LoopStep(cfg, Learned(cfg, Reset(cfg), Loop(pc, target, n - 1)), pc, target, n - 1);
    }
  }

  lemma OnesNone()
    ensures Ones(0) == 0
  {
  }

  /** A loop branch alone from reset, n times taken and then not: each history costs one
      misprediction until its counter is trained. While the loop is no longer than the history the
      way out is predicted for nothing; beyond that it costs one more. */
  lemma LoopWithHistory(cfg: BpConfig, pc: nat, target: nat, n: nat)
    requires SoundBp(cfg) && !cfg.perfect && DistinctEntries(cfg, pc)
    ensures Fits(cfg, Reset(cfg))
    ensures Mispredicts(cfg, Reset(cfg), Loop(pc, target, n) + [Branch(pc, false, target)])
         == if n <= cfg.historyBits then n else cfg.historyBits + 2
  {
    hide Learn, Correct, InLoop;
    LoopFrom(cfg, pc, target, n);
    var s := Learned(cfg, Reset(cfg), Loop(pc, target, n));
    LoopStep(cfg, s, pc, target, n);
    assert (Loop(pc, target, n) + [Branch(pc, false, target)])[..n] == Loop(pc, target, n);
  }
}
