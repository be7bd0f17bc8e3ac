/** What holds of the pipeline model over every trace: operands are read after they are
    written, the issue cycle is fully accounted for, and no configuration that is faster
    piece by piece ever makes an instruction issue or retire later. */
module TimingTheorems {
  import opened Isa
  import opened Hierarchy
  import opened Predictor
  import opened Pipeline

  /** The state after a trace. */
  function After(cfg: Config, s: PipeState, trace: seq<Trace>): (r: PipeState)
    requires Matches(cfg, s)
    ensures Matches(cfg, r)
  {
    if |trace| == 0 then s
    else Retire(cfg, After(cfg, s, trace[..|trace| - 1]), trace[|trace| - 1])
  }

  /** The timing of instruction j of a trace. */
  function TimingAt(cfg: Config, s: PipeState, trace: seq<Trace>, j: nat): Timing
    requires Matches(cfg, s) && j < |trace|
  {
    TimingOf(cfg, After(cfg, s, trace[..j]), trace[j])
  }

  /** The hierarchy tracks its misses, and no later access is proposed before an earlier issue. */
  ghost predicate Steady(cfg: Config, s: PipeState) {
    && Matches(cfg, s)
    && (cfg.mem.Some? ==> Tracks(cfg.mem.value, s.mem.value) && s.mem.value.now <= s.next)
  }

  function Start(cfg: Config): PipeState {
    PipeState(0, 0, Ready(seq(27, i => 0), seq(9, i => 0), seq(3, i => 0)), Report(0, 0, 0, 0, [0, 0, 0, 0, 0]),
              if cfg.mem.Some? then Some(IDLE) else None,
              if cfg.bp.Some? then Some(Reset(cfg.bp.value)) else None)
  }

  ghost predicate SoundConfig(cfg: Config) {
    && SoundPipe(cfg.pipe) && (cfg.mem.Some? ==> SoundMem(cfg.mem.value)) && (cfg.bp.Some? ==> SoundBp(cfg.bp.value))
  }

  lemma StartSteady(cfg: Config)
    requires SoundConfig(cfg)
    ensures Steady(cfg, Start(cfg))
  {
  }

  lemma RetireSteady(cfg: Config, s: PipeState, t: Trace)
    requires Steady(cfg, s)
    ensures Steady(cfg, Retire(cfg, s, t))
  {
    hide Tracks, Access, DepIssue, SetReady;
    if UsesMem(cfg, t) {
      AccessTracks(cfg.mem.value, s.mem.value, t.memAddr, Proposed(cfg, s, t));
    }
  }

  lemma {:induction false} AfterSteady(cfg: Config, s: PipeState, trace: seq<Trace>)
    requires Steady(cfg, s)
    ensures Steady(cfg, After(cfg, s, trace))
  {
    hide Retire;
    if |trace| == 0 {
    } else {
      AfterSteady(cfg, s, trace[..|trace| - 1]);
      RetireSteady(cfg, After(cfg, s, trace[..|trace| - 1]), trace[|trace| - 1]);
    }
  }

  /** Over any trace, every first-level miss issues at the earliest cycle, from the proposed one
      on, at which fewer of the misses so far are outstanding than there are registers. */
  lemma MissesEarliest(cfg: Config, s: PipeState, trace: seq<Trace>, j: nat)
    requires Steady(cfg, s) && j < |trace| && UsesMem(cfg, trace[j])
    ensures var before := After(cfg, s, trace[..j]);
      !Hit1(cfg.mem.value, before.mem.value, trace[j].memAddr) ==>
        Earliest(cfg.mem.value, before.mem.value.frees, Proposed(cfg, before, trace[j]),
                 TimingAt(cfg, s, trace, j).issue)
  {
    hide Tracks, Access, Hit1, Earliest, DepIssue;
    AfterSteady(cfg, s, trace[..j]);
    var before := After(cfg, s, trace[..j]);
    if !Hit1(cfg.mem.value, before.mem.value, trace[j].memAddr) {
      InOrderEarliest(cfg.mem.value, before.mem.value, trace[j].memAddr, Proposed(cfg, before, trace[j]));
    }
  }

  // ---- operands are read after they are written ----

  /** The register exists in its file. */
  predicate Tracked(k: RegKind, idx: nat) {
    match k case Scalar => idx < 27 case Vector => idx < 9 case Acc => idx < 3 case NoReg => false
  }

  predicate Writes(t: Trace, k: RegKind, idx: nat) {
    InfoOf(t.op).dst == k && t.dst == idx
  }

  predicate Reads(t: Trace, k: RegKind, idx: nat) {
    var i := InfoOf(t.op);
    (i.src1 == k && t.src1 == idx) || (i.src2 == k && t.src2 == idx) || (i.rmw && i.dst == k && t.dst == idx)
  }

  lemma ReadySetGet(r: Ready, k: RegKind, idx: nat, c: nat, k': RegKind, idx': nat)
    requires ReadyShaped(r) && Tracked(k', idx')
    ensures ReadyAt(SetReady(r, k, idx, c), k', idx') == if k == k' && idx == idx' then c else ReadyAt(r, k', idx')
  {
  }

  /** The instruction among the first j whose write of the register is visible last: the latest one. */
  ghost predicate LatestWriter(trace: seq<Trace>, j: nat, k: RegKind, idx: nat, i: nat) {
    i < j <= |trace| && Writes(trace[i], k, idx) && forall m :: i < m < j ==> !Writes(trace[m], k, idx)
  }

  /** The ready cycle of a register is when its latest writer's value becomes visible. */
  lemma {:induction false} ReadyIsLatestWrite(cfg: Config, s: PipeState, trace: seq<Trace>, j: nat,
                                              k: RegKind, idx: nat, i: nat)
    requires Matches(cfg, s) && cfg.pipe.trackRaw && Tracked(k, idx) && LatestWriter(trace, j, k, idx, i)
    ensures ReadyAt(After(cfg, s, trace[..j]).ready, k, idx) == TimingAt(cfg, s, trace, i).written
    decreases j
  {
    hide TimingOf, InfoOf, SetReady, ReadyAt, Tracked;
    assert trace[..j][..j - 1] == trace[..j - 1];
    var before := After(cfg, s, trace[..j - 1]);
    ReadySetGet(before.ready, InfoOf(trace[j - 1].op).dst, trace[j - 1].dst,
                TimingOf(cfg, before, trace[j - 1]).written, k, idx);
    if i == j - 1 {
    } else {
      assert !Writes(trace[j - 1], k, idx);
      ReadyIsLatestWrite(cfg, s, trace, j - 1, k, idx, i);
    }
  }

  lemma DepCovers(cfg: PipeConfig, r: Ready, t: Trace, k: RegKind, idx: nat)
    requires cfg.trackRaw && Reads(t, k, idx)
    ensures ReadyAt(r, k, idx) <= DepIssue(cfg, r, t) + ReadOffset(cfg)
  {
  }

  /** RAW safety: an instruction reaches its read stage no earlier than the latest earlier
      writer of any operand it reads makes the value visible. */
  lemma RawSafe(cfg: Config, s: PipeState, trace: seq<Trace>, j: nat, k: RegKind, idx: nat, i: nat)
    requires Matches(cfg, s) && cfg.pipe.trackRaw && j < |trace| && Tracked(k, idx)
    requires Reads(trace[j], k, idx) && LatestWriter(trace, j, k, idx, i)
    ensures TimingAt(cfg, s, trace, i).written <= TimingAt(cfg, s, trace, j).issue + ReadOffset(cfg.pipe)
  {
    hide Reads, ReadyAt, Tracked, InfoOf;
    ReadyIsLatestWrite(cfg, s, trace, j, k, idx, i);
    DepCovers(cfg.pipe, After(cfg, s, trace[..j]).ready, trace[j], k, idx);
  }

  /** One instruction a cycle: issue cycles strictly increase along a trace. */
  lemma {:induction false} IssueIncreases(cfg: Config, s: PipeState, trace: seq<Trace>, i: nat, j: nat)
    requires Matches(cfg, s) && i < j < |trace|
    ensures TimingAt(cfg, s, trace, i).issue < TimingAt(cfg, s, trace, j).issue
    decreases j
  {
    hide DepIssue, Extra, PenaltyOf, ReadyAfter, MemAfter, BpAfter;
    assert trace[..j][..j - 1] == trace[..j - 1];
    if i == j - 1 {
    } else {
      IssueIncreases(cfg, s, trace, i, j - 1);
    }
  }

  // ---- every issue cycle is accounted for ----

  /** Cycles lost waiting for operands. */
  function RawStalls(cfg: Config, s: PipeState, trace: seq<Trace>): nat
    requires Matches(cfg, s)
  {
    if |trace| == 0 then 0
    else
      var before := After(cfg, s, trace[..|trace| - 1]);
      RawStalls(cfg, s, trace[..|trace| - 1]) + (Proposed(cfg, before, trace[|trace| - 1]) - before.next)
  }

  function Total(byFu: seq<nat>): nat
    requires |byFu| == 5
  {
    byFu[0] + byFu[1] + byFu[2] + byFu[3] + byFu[4]
  }

  /** From reset, the next issue cycle is the instructions retired plus every reported stall,
      the unit counts sum to the instructions, and a nonempty trace takes at least one cycle
      per instruction plus the pipeline's depth. */
  lemma {:induction false} Accounting(cfg: Config, trace: seq<Trace>)
    requires SoundConfig(cfg)
    ensures var s := After(cfg, Start(cfg), trace);
      && s.next == s.report.insns + RawStalls(cfg, Start(cfg), trace) + s.report.mshrStalls + s.report.bpPenalty
      && s.report.insns == |trace| == Total(s.report.byFu)
      && (|trace| > 0 ==> s.report.cycles == s.last + 1 && s.report.cycles >= |trace| + cfg.pipe.depth - 1)
  {
    hide DepIssue, Extra, PenaltyOf, ReadyAfter, MemAfter, BpAfter;
    if |trace| == 0 {
    } else {
      Accounting(cfg, trace[..|trace| - 1]);
    }
  }

  /** How many instructions of the trace a unit executes. */
  function CountOf(trace: seq<Trace>, k: FuKind): nat {
    if |trace| == 0 then 0
    else CountOf(trace[..|trace| - 1], k) + if Classify(trace[|trace| - 1].op) == k then 1 else 0
  }

  /** Every unit's count is that of its instructions. */
  lemma {:induction false} UnitCounts(cfg: Config, trace: seq<Trace>, k: FuKind)
    requires SoundConfig(cfg)
    ensures After(cfg, Start(cfg), trace).report.byFu[FuSlot(k)] == CountOf(trace, k)
  {
    hide Classify, TimingOf, PenaltyOf, ReadyAfter, MemAfter, BpAfter;
    if |trace| == 0 {
    } else {
      UnitCounts(cfg, trace[..|trace| - 1], k);
    }
  }

  /** Neither waits for operands, nor occupies a unit longer, nor accesses a cache or the predictor. */
  predicate Simple(t: Trace) {
    var i := InfoOf(t.op);
    i.src1 == NoReg && i.src2 == NoReg && !i.rmw && Classify(t.op) != FuMemory && Classify(t.op) != FuBranch
  }

  /** The pipeline law: n instructions that wait for nothing take the depth plus n - 1 cycles, and
      instruction j issues in cycle j. */
  lemma {:induction false} FullThroughput(cfg: Config, trace: seq<Trace>)
    requires SoundConfig(cfg) && forall j :: 0 <= j < |trace| ==> Simple(trace[j])
    ensures var s := After(cfg, Start(cfg), trace);
      && s.next == |trace|
      && (|trace| > 0 ==> s.report.cycles == cfg.pipe.depth + |trace| - 1 && s.last + 1 == s.report.cycles)
    ensures |trace| == 0 ==> After(cfg, Start(cfg), trace).last == 0
  {
    hide Retire, Simple;
    if |trace| == 0 {
    } else {
      var n := |trace| - 1;
      FullThroughput(cfg, trace[..n]);
      SimpleRetires(cfg, After(cfg, Start(cfg), trace[..n]), trace[n]);
    }
  }

  lemma SimpleRetires(cfg: Config, s: PipeState, t: Trace)
    requires Matches(cfg, s) && Simple(t)
    ensures var r := Retire(cfg, s, t);
      && r.next == s.next + 1 && r.last == Max(s.last, s.next + cfg.pipe.depth - 1) && r.report.cycles == r.last + 1
  {
    hide SetReady;
  }

  /** An instruction alone takes the depth of the pipeline and the extra cycles of its unit; with caches
      attached, its access misses everywhere. */
  lemma AloneTakes(cfg: Config, t: Trace)
    requires SoundConfig(cfg)
    ensures var s := After(cfg, Start(cfg), [t]);
      s.report.cycles == cfg.pipe.depth +
        (if UsesMem(cfg, t) then
           if cfg.mem.value.dramLatency < 1 then 0 else cfg.mem.value.dramLatency - 1
         else if t.op == TVMAC then cfg.pipe.tvmacExtra
         else if t.op == TVMUL then cfg.pipe.vmulExtra
         else if IsMemOp(t.op) then cfg.pipe.memExtra
         else 0)
  {
    hide SetReady, PenaltyOf, BpAfter, InfoOf, Least;
    assert [t][..0] == [] && [t][0] == t;
    NothingReady(cfg, t);
  }

  lemma NothingReady(cfg: Config, t: Trace)
    requires SoundConfig(cfg)
    ensures DepIssue(cfg.pipe, Start(cfg).ready, t) == 0
  {
  }

  // ---- no timing anomaly ----

  /** How far behind its producer's issue a dependent instruction trails, beyond the extra cycles. */
  function Lag(cfg: PipeConfig): int {
    if cfg.forwarding then 0 else cfg.depth - 3
  }

  /** No deeper, no larger latency, no tracking the other lacks, and no longer trail. Turning
      forwarding on shortens the trail exactly when the depth is at least 3. */
  predicate FasterPipe(fast: PipeConfig, slow: PipeConfig) {
    && SoundPipe(fast) && fast.depth <= slow.depth
    && fast.tvmacExtra <= slow.tvmacExtra && fast.vmulExtra <= slow.vmulExtra && fast.memExtra <= slow.memExtra
    && (fast.trackRaw ==> slow.trackRaw && Lag(fast) <= Lag(slow))
  }

  /** The same tables with a smaller penalty, or a perfect predictor. */
  predicate FasterBp(fast: BpConfig, slow: BpConfig) {
    fast.perfect || (fast == slow.(penalty := fast.penalty) && fast.penalty <= slow.penalty)
  }

  ghost predicate Faster(fast: Config, slow: Config) {
    && FasterPipe(fast.pipe, slow.pipe)
    && (fast.mem.Some? <==> slow.mem.Some?) && (fast.mem.Some? ==> FasterMem(fast.mem.value, slow.mem.value))
    && (fast.bp.Some? ==> slow.bp.Some? && FasterBp(fast.bp.value, slow.bp.value))
  }

  ghost predicate Lead(fast: PipeConfig, slow: PipeConfig, r: Ready, q: Ready) {
    forall k, idx :: Wait(fast, ReadyAt(r, k, idx)) <= Wait(slow, ReadyAt(q, k, idx))
  }

  /** The faster run is nowhere behind the slower one. */
  ghost predicate Ahead(fast: Config, slow: Config, p: PipeState, q: PipeState) {
    && Steady(fast, p) && Steady(slow, q)
    && p.next <= q.next && p.last <= q.last
    && (fast.pipe.trackRaw ==> Lead(fast.pipe, slow.pipe, p.ready, q.ready))
    && (fast.mem.Some? && slow.mem.Some? ==> AheadMem(p.mem.value, q.mem.value))
    && (fast.bp.Some? && slow.bp.Some? && !fast.bp.value.perfect ==> p.bp == q.bp)
  }

  lemma DepAhead(fast: PipeConfig, slow: PipeConfig, r: Ready, q: Ready, t: Trace)
    requires FasterPipe(fast, slow) && (fast.trackRaw ==> Lead(fast, slow, r, q))
    ensures DepIssue(fast, r, t) <= DepIssue(slow, q, t)
  {
  }

  /** Writing a register no later, relative to what its readers wait for, keeps the lead. */
  lemma LeadAfterWrite(fast: PipeConfig, slow: PipeConfig, r: Ready, q: Ready, k: RegKind, idx: nat, c: nat, d: nat)
    requires ReadyShaped(r) && ReadyShaped(q) && Lead(fast, slow, r, q) && Wait(fast, c) <= Wait(slow, d)
    ensures Lead(fast, slow, SetReady(r, k, idx, c), SetReady(q, k, idx, d))
  {
    forall k', idx'
      ensures Wait(fast, ReadyAt(SetReady(r, k, idx, c), k', idx'))
           <= Wait(slow, ReadyAt(SetReady(q, k, idx, d), k', idx'))
    {
      assert Wait(fast, ReadyAt(r, k', idx')) <= Wait(slow, ReadyAt(q, k', idx'));
    }
  }

  lemma TimingAhead(fast: Config, slow: Config, p: PipeState, q: PipeState, t: Trace)
    requires Faster(fast, slow) && Ahead(fast, slow, p, q)
    ensures Proposed(fast, p, t) <= Proposed(slow, q, t)
    ensures IssueCycle(fast, p, t) <= IssueCycle(slow, q, t) && Extra(fast, p, t) <= Extra(slow, q, t)
    ensures UsesMem(fast, t) ==> AheadMem(MemAfter(fast, p, t).value, MemAfter(slow, q, t).value)
  {
    hide Access, DepIssue, Lead, AheadMem, FasterMem;
    DepAhead(fast.pipe, slow.pipe, p.ready, q.ready, t);
    if UsesMem(fast, t) {
      AccessMonotone(fast.mem.value, slow.mem.value, p.mem.value, q.mem.value, t.memAddr,
                     Proposed(fast, p, t), Proposed(slow, q, t));
    }
  }

  /** The same outcomes are predicted correctly, so no more is paid. */
  lemma BpAhead(fast: Config, slow: Config, p: PipeState, q: PipeState, t: Trace)
    requires Faster(fast, slow) && Ahead(fast, slow, p, q)
    ensures PenaltyOf(fast, p, t) <= PenaltyOf(slow, q, t)
    ensures fast.bp.Some? && slow.bp.Some? && !fast.bp.value.perfect ==> BpAfter(fast, p, t) == BpAfter(slow, q, t)
  {
    hide Lead, Tracks, AheadMem, FasterMem, FasterPipe, Xor;
  }

  /** One instruction: the faster run issues and retires it no later, and stays ahead. */
  lemma RetireAhead(fast: Config, slow: Config, p: PipeState, q: PipeState, t: Trace)
    requires Faster(fast, slow) && Ahead(fast, slow, p, q)
    ensures TimingOf(fast, p, t).issue <= TimingOf(slow, q, t).issue
    ensures TimingOf(fast, p, t).retire <= TimingOf(slow, q, t).retire
    ensures Ahead(fast, slow, Retire(fast, p, t), Retire(slow, q, t))
  {
    hide IssueCycle, Extra, Proposed, Lead, SetReady, Tracks, AheadMem, FasterMem, PenaltyOf, BpAfter, InfoOf;
    TimingAhead(fast, slow, p, q, t);
    BpAhead(fast, slow, p, q, t);
    RetireSteady(fast, p, t);
    RetireSteady(slow, q, t);
    if fast.pipe.trackRaw {
      LeadAfterWrite(fast.pipe, slow.pipe, p.ready, q.ready, InfoOf(t.op).dst, t.dst,
                     TimingOf(fast, p, t).written, TimingOf(slow, q, t).written);
    }
  }

  /** No timing anomaly: over any trace, a configuration that is faster piece by piece makes no
      instruction issue or retire later, and finishes no later. */
  lemma {:induction false} NoAnomaly(fast: Config, slow: Config, p: PipeState, q: PipeState, trace: seq<Trace>)
    requires Faster(fast, slow) && Ahead(fast, slow, p, q)
    ensures Ahead(fast, slow, After(fast, p, trace), After(slow, q, trace))
    ensures forall j :: 0 <= j < |trace| ==>
      TimingAt(fast, p, trace, j).issue <= TimingAt(slow, q, trace, j).issue
      && TimingAt(fast, p, trace, j).retire <= TimingAt(slow, q, trace, j).retire
  {
    hide TimingOf, Retire, Lead, Tracks, FasterPipe, FasterMem, FasterBp;
    if |trace| == 0 {
    } else {
      var front, t := trace[..|trace| - 1], trace[|trace| - 1];
      NoAnomaly(fast, slow, p, q, front);
      RetireAhead(fast, slow, After(fast, p, front), After(slow, q, front), t);
      forall j | 0 <= j < |trace|
        ensures TimingAt(fast, p, trace, j).issue <= TimingAt(slow, q, trace, j).issue
        ensures TimingAt(fast, p, trace, j).retire <= TimingAt(slow, q, trace, j).retire
      {
        if j < |front| {
          assert front[..j] == trace[..j] && front[j] == trace[j];
          assert TimingAt(fast, p, front, j).issue <= TimingAt(slow, q, front, j).issue;
        } else {
          assert trace[..j] == front;
        }
      }
    }
  }

  lemma StartAhead(fast: Config, slow: Config)
    requires SoundConfig(fast) && SoundConfig(slow) && Faster(fast, slow)
    ensures Ahead(fast, slow, Start(fast), Start(slow))
  {
    StartSteady(fast);
    StartSteady(slow);
  }
}
