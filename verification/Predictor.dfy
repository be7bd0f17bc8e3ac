/** The gshare direction predictor with its branch target buffer.
    Addresses and the history register are numbers: masking with 2^h - 1 is the remainder
    modulo 2^h, shifting left and or-ing the outcome in is 2 * history + outcome. */
module Predictor {

  datatype BpConfig = BpConfig(phtEntries: nat, historyBits: nat, btbEntries: nat, perfect: bool, penalty: nat)

  predicate SoundBp(cfg: BpConfig) {
    cfg.phtEntries > 0 && cfg.btbEntries > 0 && cfg.historyBits < 64
  }

  datatype BpStats = BpStats(branches: nat, correct: nat, mispredicts: nat)

  /** Two-bit counters, the target buffer and the global history. */
  datatype BpState = BpState(pht: seq<nat>, target: seq<nat>, valid: seq<bool>, ghr: nat)

  datatype Branch = Branch(pc: nat, taken: bool, target: nat)

  ghost predicate Fits(cfg: BpConfig, s: BpState) {
    && SoundBp(cfg)
    && |s.pht| == cfg.phtEntries && |s.target| == |s.valid| == cfg.btbEntries
    && forall i :: 0 <= i < |s.pht| ==> s.pht[i] <= 3
  }

  function Pow2(n: nat): (p: nat)
    ensures p > 0
  {
    if n == 0 then 1 else 2 * Pow2(n - 1)
  }

  /** Bitwise exclusive or. */
  function Xor(a: nat, b: nat): nat {
    if a == 0 && b == 0 then 0
    else (if a % 2 == b % 2 then 0 else 1) + 2 * Xor(a / 2, b / 2)
  }

  lemma {:induction false} XorZero(a: nat)
    ensures Xor(a, 0) == a
  {
    if a == 0 {
    } else {
      XorZero(a / 2);
    }
  }

  function PhtIndex(cfg: BpConfig, s: BpState, pc: nat): (i: nat)
    requires SoundBp(cfg)
    ensures i < cfg.phtEntries
  {
    Xor(pc, s.ghr) % cfg.phtEntries
  }

  function BtbIndex(cfg: BpConfig, pc: nat): (i: nat)
    requires SoundBp(cfg)
    ensures i < cfg.btbEntries
  {
    pc % cfg.btbEntries
  }

  function Penalty(cfg: BpConfig): nat { if cfg.perfect then 0 else cfg.penalty }

  /** Saturating two-bit counter. */
  function Count(c: nat, taken: bool): nat {
    if taken then if c < 3 then c + 1 else c else if c > 0 then c - 1 else c
  }

  /** A taken branch predicted taken still mispredicts if the buffer does not hold its target. */
  predicate Correct(cfg: BpConfig, s: BpState, b: Branch)
    requires Fits(cfg, s)
  {
    cfg.perfect ||
    ((s.pht[PhtIndex(cfg, s, b.pc)] >= 2 <==> b.taken) &&
     (b.taken ==> s.valid[BtbIndex(cfg, b.pc)] && s.target[BtbIndex(cfg, b.pc)] == b.target))
  }

  function Learn(cfg: BpConfig, s: BpState, b: Branch): (r: BpState)
    requires Fits(cfg, s)
    ensures Fits(cfg, r)
  {
    if cfg.perfect then s
    else
      var i, j := PhtIndex(cfg, s, b.pc), BtbIndex(cfg, b.pc);
      BpState(s.pht[i := Count(s.pht[i], b.taken)],
              if b.taken then s.target[j := b.target] else s.target,
              if b.taken then s.valid[j := true] else s.valid,
              (2 * s.ghr + if b.taken then 1 else 0) % Pow2(cfg.historyBits))
  }

  class BranchPredictor {
    const cfg: BpConfig
    const modulus: nat
    const pht: array<nat>
    const btbTarget: array<nat>
    const btbValid: array<bool>
    var ghr: nat
    var stats: BpStats

    constructor (cfg: BpConfig)
      requires SoundBp(cfg)
      ensures Valid() && fresh(Repr()) && this.cfg == cfg
      ensures Abs() == Reset(cfg) && stats == BpStats(0, 0, 0)
    {
      this.cfg := cfg;
      modulus := Pow2(cfg.historyBits);
      pht := new nat[cfg.phtEntries](i => 1);
      btbTarget := new nat[cfg.btbEntries](i => 0);
      btbValid := new bool[cfg.btbEntries](i => false);
      ghr := 0;
      stats := BpStats(0, 0, 0);
    }

    ghost function Repr(): set<object> { {this, pht, btbTarget, btbValid} }

    ghost predicate Valid()
      reads Repr()
    {
      && Fits(cfg, Abs()) && pht != btbTarget && modulus == Pow2(cfg.historyBits)
      && stats.correct + stats.mispredicts == stats.branches
    }

    ghost function Abs(): BpState
      reads Repr()
    {
      BpState(pht[..], btbTarget[..], btbValid[..], ghr)
    }

    /** BranchPredictor::predict_and_update */
    method PredictAndUpdate(b: Branch) returns (correct: bool)
      requires Valid()
      modifies Repr()
      ensures Valid()
      ensures correct == Correct(cfg, old(Abs()), b)
      ensures Abs() == Learn(cfg, old(Abs()), b)
      ensures stats.branches == old(stats).branches + 1
      ensures stats.mispredicts == old(stats).mispredicts + if correct then 0 else 1
    {
      hide Xor;
      stats := stats.(branches := stats.branches + 1);
      if cfg.perfect {
        correct := true;
      } else {
        var i := Xor(b.pc, ghr) % cfg.phtEntries;
        var j := b.pc % cfg.btbEntries;
        var cnt := pht[i];
        var predTaken := cnt >= 2;
        correct := predTaken == b.taken;
        if correct && b.taken {
          if !btbValid[j] || btbTarget[j] != b.target { correct := false; }
        }
        if b.taken && cnt < 3 { pht[i] := cnt + 1; }
        if !b.taken && cnt > 0 { pht[i] := cnt - 1; }
        if b.taken {
          btbTarget[j] := b.target;
          btbValid[j] := true;
        }
        ghr := (2 * ghr + if b.taken then 1 else 0) % modulus;
      }
      if correct {
        stats := stats.(correct := stats.correct + 1);
      } else {
        stats := stats.(mispredicts := stats.mispredicts + 1);
      }
    }
  }

  function Reset(cfg: BpConfig): BpState {
    BpState(seq(cfg.phtEntries, i => 1), seq(cfg.btbEntries, i => 0), seq(cfg.btbEntries, i => false), 0)
  }

  // ---- without global history, branches on distinct entries do not disturb each other ----

  /** What the tables say about one branch: its counter, and whether its target is known. */
  datatype Lone = Lone(count: nat, known: bool)

  function View(cfg: BpConfig, s: BpState, pc: nat, target: nat): Lone
    requires Fits(cfg, s)
  {
    var i, j := pc % cfg.phtEntries, BtbIndex(cfg, pc);
    Lone(s.pht[i], s.valid[j] && s.target[j] == target)
  }

  predicate LoneCorrect(l: Lone, taken: bool) {
    (l.count >= 2 <==> taken) && (taken ==> l.known)
  }

  function LoneNext(l: Lone, taken: bool): Lone {
    Lone(Count(l.count, taken), l.known || taken)
  }

  function LoneMisses(l: Lone, outcomes: seq<bool>): nat
    decreases outcomes
  {
    if |outcomes| == 0 then 0
    else (if LoneCorrect(l, outcomes[0]) then 0 else 1) + LoneMisses(LoneNext(l, outcomes[0]), outcomes[1..])
  }

  /** The mispredictions charged to one branch in an interleaved stream. */
  function MissesOf(cfg: BpConfig, s: BpState, stream: seq<Branch>, pc: nat): nat
    requires Fits(cfg, s)
    decreases stream
  {
    if |stream| == 0 then 0
    else
      var miss := if stream[0].pc == pc && !Correct(cfg, s, stream[0]) then 1 else 0;
      miss + MissesOf(cfg, Learn(cfg, s, stream[0]), stream[1..], pc)
  }

  function Outcomes(stream: seq<Branch>, pc: nat): seq<bool> {
    if |stream| == 0 then []
    else (if stream[0].pc == pc then [stream[0].taken] else []) + Outcomes(stream[1..], pc)
  }

  /** The branch at pc always has this target and shares no table entry with another branch. */
  ghost predicate Alone(cfg: BpConfig, stream: seq<Branch>, pc: nat, target: nat)
    requires SoundBp(cfg)
  {
    forall k :: 0 <= k < |stream| ==>
      && (stream[k].pc == pc ==> stream[k].target == target)
      && (stream[k].pc != pc ==> stream[k].pc % cfg.phtEntries != pc % cfg.phtEntries)
      && (stream[k].pc != pc ==> stream[k].pc % cfg.btbEntries != pc % cfg.btbEntries)
  }

  ghost predicate NoHistory(cfg: BpConfig, s: BpState) {
    Fits(cfg, s) && !cfg.perfect && cfg.historyBits == 0 && s.ghr == 0
  }

  lemma PlainIndex(cfg: BpConfig, s: BpState, pc: nat)
    requires NoHistory(cfg, s)
    ensures PhtIndex(cfg, s, pc) == pc % cfg.phtEntries
  {
    XorZero(pc);
  }

  lemma LearnNoHistory(cfg: BpConfig, s: BpState, b: Branch)
    requires NoHistory(cfg, s)
    ensures NoHistory(cfg, Learn(cfg, s, b))
  {
    assert Pow2(0) == 1;
  }

  /** One event seen from one branch: its own moves its view, another's leaves it. */
  lemma ViewStep(cfg: BpConfig, s: BpState, stream: seq<Branch>, pc: nat, target: nat)
    requires NoHistory(cfg, s) && |stream| > 0 && Alone(cfg, stream, pc, target)
    ensures var b, l := stream[0], View(cfg, s, pc, target);
      View(cfg, Learn(cfg, s, b), pc, target) == (if b.pc == pc then LoneNext(l, b.taken) else l)
      && (b.pc == pc ==> (Correct(cfg, s, b) <==> LoneCorrect(l, b.taken)))
  {
    hide Xor;
    PlainIndex(cfg, s, stream[0].pc);
  }

  /** Isolation: in any interleaved stream, a branch that shares no entry is mispredicted exactly
      as often as it would be alone. */
  lemma {:induction false} Isolation(cfg: BpConfig, s: BpState, stream: seq<Branch>, pc: nat, target: nat)
    requires NoHistory(cfg, s) && Alone(cfg, stream, pc, target)
    ensures MissesOf(cfg, s, stream, pc) == LoneMisses(View(cfg, s, pc, target), Outcomes(stream, pc))
    decreases stream
  {
    hide View, Correct, Learn;
    if |stream| == 0 {
    } else {
      var b := stream[0];
      ViewStep(cfg, s, stream, pc, target);
      LearnNoHistory(cfg, s, b);
      Isolation(cfg, Learn(cfg, s, b), stream[1..], pc, target);
      if b.pc == pc {
        assert Outcomes(stream, pc)[1..] == Outcomes(stream[1..], pc);
      } else {
        assert Outcomes(stream, pc) == Outcomes(stream[1..], pc);
      }
    }
  }

  // ---- two mispredictions per run of equal outcomes ----

  /** The number of maximal runs of equal outcomes. */
  function Runs(outcomes: seq<bool>): nat {
    if |outcomes| == 0 then 0
    else if |outcomes| == 1 then 1
    else Runs(outcomes[1..]) + if outcomes[0] == outcomes[1] then 0 else 1
  }

  /** The mispredictions still to come in a run of this outcome. */
  function Debt(l: Lone, taken: bool): nat {
    if taken then (if l.count < 2 then 2 - l.count else if l.known then 0 else 1)
    else if l.count <= 1 then 0 else l.count - 1
  }

  lemma {:induction false} MissesPerRun(l: Lone, outcomes: seq<bool>)
    requires l.count <= 3
    ensures LoneMisses(l, outcomes) <= 2 * Runs(outcomes)
    ensures |outcomes| > 0 ==> LoneMisses(l, outcomes) <= Debt(l, outcomes[0]) + 2 * (Runs(outcomes) - 1)
    decreases outcomes
  {
    if |outcomes| == 0 {
    } else {
      MissesPerRun(LoneNext(l, outcomes[0]), outcomes[1..]);
    }
  }

  /** Every branch that shares no entry costs at most two mispredictions per maximal run of
      equal outcomes, from any table contents and whatever is interleaved with it. */
  lemma TwoMissesPerRun(cfg: BpConfig, s: BpState, stream: seq<Branch>, pc: nat, target: nat)
    requires NoHistory(cfg, s) && Alone(cfg, stream, pc, target)
    ensures MissesOf(cfg, s, stream, pc) <= 2 * Runs(Outcomes(stream, pc))
  {
    Isolation(cfg, s, stream, pc, target);
    MissesPerRun(View(cfg, s, pc, target), Outcomes(stream, pc));
  }

  // ---- a loop branch ----

  function Times(n: nat, taken: bool): seq<bool> { seq(n, i => taken) }

  /** m rounds of n taken outcomes and one not taken. */
  function Loops(m: nat, n: nat): seq<bool> {
    if m == 0 then [] else Times(n, true) + [false] + Loops(m - 1, n)
  }

  /** The mispredictions of those rounds from reset. */
  function LoopCost(m: nat, n: nat): nat {
    if m == 0 || n == 0 then 0 else if n == 1 then 2 * m else m + 1
  }

  lemma {:induction false} TakenRun(l: Lone, n: nat, rest: seq<bool>)
    requires l.known && 2 <= l.count <= 3
    ensures LoneMisses(l, Times(n, true) + rest)
         == LoneMisses(Lone(if n == 0 then l.count else 3, true), rest)
    decreases n
  {
    if n == 0 {
      assert Times(0, true) + rest == rest;
    } else {
      assert (Times(n, true) + rest)[1..] == Times(n - 1, true) + rest;
      TakenRun(LoneNext(l, true), n - 1, rest);
    }
  }

  lemma {:induction false} LaterRounds(m: nat, n: nat)
    requires n >= 2
    ensures LoneMisses(Lone(2, true), Loops(m, n)) == m
    decreases m
  {
    if m == 0 {
    } else {
      var rest := [false] + Loops(m - 1, n);
      assert Loops(m, n) == Times(n, true) + rest;
      TakenRun(Lone(2, true), n, rest);
      assert rest[1..] == Loops(m - 1, n);
      LaterRounds(m - 1, n);
    }
  }

  /** The exact cost of a loop branch from reset: m + 1 mispredictions for m rounds of n >= 2. */
  lemma {:induction false} LoopMisses(m: nat, n: nat)
    ensures LoneMisses(Lone(1, false), Loops(m, n)) == LoopCost(m, n)
    ensures n == 0 ==> LoneMisses(Lone(0, false), Loops(m, n)) == 0
    ensures n == 1 ==> LoneMisses(Lone(1, true), Loops(m, n)) == 2 * m
    decreases m
  {
    if m == 0 {
    } else {
      var rest := [false] + Loops(m - 1, n);
      assert rest[1..] == Loops(m - 1, n);
      assert Loops(m, n) == Times(n, true) + rest;
      if n == 0 {
        LoopMisses(m - 1, 0);
        assert Loops(m, n) == rest;
      } else if n == 1 {
        LoopMisses(m - 1, 1);
        assert Loops(m, n)[1..] == rest;
      } else {
        assert Loops(m, n)[1..] == Times(n - 1, true) + rest;
        TakenRun(Lone(2, true), n - 1, rest);
        LaterRounds(m - 1, n);
      }
    }
  }

  /** In any stream run from reset, a loop branch that shares no entry costs exactly that. */
  lemma LoopBranchCost(cfg: BpConfig, stream: seq<Branch>, pc: nat, target: nat, m: nat, n: nat)
    requires SoundBp(cfg) && !cfg.perfect && cfg.historyBits == 0 && Alone(cfg, stream, pc, target)
    requires Outcomes(stream, pc) == Loops(m, n)
    ensures Fits(cfg, Reset(cfg)) && MissesOf(cfg, Reset(cfg), stream, pc) == LoopCost(m, n)
  {
    Isolation(cfg, Reset(cfg), stream, pc, target);
    LoopMisses(m, n);
  }
}
