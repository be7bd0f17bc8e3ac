/** The in-order pipeline timing model: read-after-write tracking, the miss-register stall of
    the memory hierarchy and the misprediction penalty, one retired instruction at a time. */
module Pipeline {
  import opened Isa
  import opened Hierarchy
  import opened Predictor

  datatype RegKind = NoReg | Scalar | Vector | Acc

  datatype OpInfo = OpInfo(src1: RegKind, src2: RegKind, dst: RegKind, rmw: bool)

  /** op_info: the register file of each operand. TCALL and TRET name the encoded dst field. */
  function InfoOf(op: Opcode): OpInfo {
    match op
    case TADD | TSUB | TAND3 | TOR3 | TXOR3 | TCMP => OpInfo(Scalar, Scalar, Scalar, false)
    case TNEG | TABS | TSIGN => OpInfo(Scalar, NoReg, Scalar, false)
    case TLOADI => OpInfo(NoReg, NoReg, Scalar, false)
    case TLOAD => OpInfo(Scalar, NoReg, Scalar, false)
    case TSTORE => OpInfo(Scalar, Scalar, NoReg, false)
    case TVLOAD => OpInfo(Scalar, NoReg, Vector, false)
    case TVSTORE => OpInfo(Vector, Scalar, NoReg, false)
    case TBEQ | TBNE | TBLT => OpInfo(Scalar, Scalar, NoReg, false)
    case TCALL | TRET => OpInfo(NoReg, NoReg, Scalar, true)
    case TVADD | TVSUB | TVMUL => OpInfo(Vector, Vector, Vector, false)
    case TVNEG | TVMAX | TVSHUF => OpInfo(Vector, NoReg, Vector, false)
    case TVBROADCAST => OpInfo(NoReg, NoReg, Vector, false)
    case TVMAC => OpInfo(Vector, Vector, Acc, true)
    case TVSUM => OpInfo(Acc, NoReg, Scalar, false)
    case TJUMP | TNOP | THALT | TDBG => OpInfo(NoReg, NoReg, NoReg, false)
  }

  datatype FuKind = FuScalar | FuVector | FuMemory | FuBranch | FuControl

  function Classify(op: Opcode): FuKind {
    match op
    case TVADD | TVSUB | TVNEG | TVBROADCAST | TVMAC | TVSUM | TVMAX | TVSHUF | TVMUL => FuVector
    case TLOAD | TSTORE | TVLOAD | TVSTORE => FuMemory
    case TJUMP | TBEQ | TBNE | TBLT | TCALL | TRET => FuBranch
    case TNOP | THALT | TDBG => FuControl
    case _ => FuScalar
  }

  function FuSlot(k: FuKind): (i: nat)
    ensures i < 5
  {
    match k case FuScalar => 0 case FuVector => 1 case FuMemory => 2 case FuBranch => 3 case FuControl => 4
  }

  predicate IsMemOp(op: Opcode) { Classify(op) == FuMemory }

  predicate IsBranchOp(op: Opcode) { Classify(op) == FuBranch }

  datatype PipeConfig = PipeConfig(depth: nat, tvmacExtra: nat, vmulExtra: nat, memExtra: nat,
                                   trackRaw: bool, forwarding: bool)

  predicate SoundPipe(cfg: PipeConfig) { cfg.depth >= 1 }

  /** One retired instruction of a trace. */
  datatype Trace = Trace(pc: nat, op: Opcode, dst: nat, src1: nat, src2: nat, memAddr: nat,
                         taken: bool, target: nat)

  function StaticExtra(cfg: PipeConfig, op: Opcode): nat {
    match op
    case TVMAC => cfg.tvmacExtra
    case TVMUL => cfg.vmulExtra
    case TLOAD | TVLOAD | TSTORE | TVSTORE => cfg.memExtra
    case _ => 0
  }

  /** The cycle at which each register's value is visible, per register file. */
  datatype Ready = Ready(scalar: seq<nat>, vector: seq<nat>, acc: seq<nat>)

  predicate ReadyShaped(r: Ready) { |r.scalar| == 27 && |r.vector| == 9 && |r.acc| == 3 }

  /** Indices outside the file are never ready late. */
  function ReadyAt(r: Ready, k: RegKind, idx: nat): nat {
    match k
    case Scalar => if idx < |r.scalar| then r.scalar[idx] else 0
    case Vector => if idx < |r.vector| then r.vector[idx] else 0
    case Acc => if idx < |r.acc| then r.acc[idx] else 0
    case NoReg => 0
  }

  function SetReady(r: Ready, k: RegKind, idx: nat, c: nat): (r': Ready)
    ensures ReadyShaped(r) ==> ReadyShaped(r')
  {
    match k
    case Scalar => if idx < |r.scalar| then r.(scalar := r.scalar[idx := c]) else r
    case Vector => if idx < |r.vector| then r.(vector := r.vector[idx := c]) else r
    case Acc => if idx < |r.acc| then r.(acc := r.acc[idx := c]) else r
    case NoReg => r
  }

  function ReadOffset(cfg: PipeConfig): nat { if cfg.forwarding then 4 else 2 }

  function WriteOffset(cfg: PipeConfig, extra: nat): nat
    requires SoundPipe(cfg)
  {
    if cfg.forwarding then 4 + extra else cfg.depth - 1 + extra
  }

  /** The earliest issue at which a value ready at r is seen by the read stage. */
  function Wait(cfg: PipeConfig, r: nat): nat {
    if r > ReadOffset(cfg) then r - ReadOffset(cfg) else 0
  }

  /** The earliest issue that respects every operand the instruction reads. */
  function DepIssue(cfg: PipeConfig, r: Ready, t: Trace): nat {
    if !cfg.trackRaw then 0
    else
      var i := InfoOf(t.op);
      var d1 := Wait(cfg, ReadyAt(r, i.src1, t.src1));
      var d2 := Wait(cfg, ReadyAt(r, i.src2, t.src2));
      var d3 := if i.rmw then Wait(cfg, ReadyAt(r, i.dst, t.dst)) else 0;
      Max(Max(d1, d2), d3)
  }

  datatype Report = Report(cycles: nat, insns: nat, mshrStalls: nat, bpPenalty: nat, byFu: seq<nat>)

  datatype PipeState = PipeState(next: nat, last: nat, ready: Ready, report: Report,
                                 mem: Option<MemState>, bp: Option<BpState>)

  /** Everything a run is configured with; None means that model is not attached. */
  datatype Config = Config(pipe: PipeConfig, mem: Option<MemConfig>, bp: Option<BpConfig>)

  ghost predicate Matches(cfg: Config, s: PipeState) {
    && SoundPipe(cfg.pipe) && ReadyShaped(s.ready) && |s.report.byFu| == 5
    && (cfg.mem.Some? <==> s.mem.Some?) && (cfg.mem.Some? ==> SoundMem(cfg.mem.value))
    && (cfg.bp.Some? <==> s.bp.Some?) && (cfg.bp.Some? ==> Fits(cfg.bp.value, s.bp.value))
  }

  datatype Timing = Timing(issue: nat, retire: nat, written: nat)

  /** The cycle proposed for an instruction before any miss-register stall. */
  function Proposed(cfg: Config, s: PipeState, t: Trace): nat {
    Max(s.next, DepIssue(cfg.pipe, s.ready, t))
  }

  predicate UsesMem(cfg: Config, t: Trace) { cfg.mem.Some? && IsMemOp(t.op) }

  predicate UsesBp(cfg: Config, t: Trace) { cfg.bp.Some? && IsBranchOp(t.op) }

  function IssueCycle(cfg: Config, s: PipeState, t: Trace): (c: nat)
    requires Matches(cfg, s)
    ensures Proposed(cfg, s, t) <= c
  {
    var p := Proposed(cfg, s, t);
    if UsesMem(cfg, t) then Access(cfg.mem.value, s.mem.value, t.memAddr, p).1.issue else p
  }

  /** Execute cycles beyond the first. */
  function Extra(cfg: Config, s: PipeState, t: Trace): nat
    requires Matches(cfg, s)
  {
    if UsesMem(cfg, t) then
      var latency := Access(cfg.mem.value, s.mem.value, t.memAddr, Proposed(cfg, s, t)).1.latency;
      if latency < 1 then 0 else latency - 1
    else StaticExtra(cfg.pipe, t.op)
  }

  function TimingOf(cfg: Config, s: PipeState, t: Trace): Timing
    requires Matches(cfg, s)
  {
    var issue, extra := IssueCycle(cfg, s, t), Extra(cfg, s, t);
    Timing(issue, issue + cfg.pipe.depth - 1 + extra, issue + WriteOffset(cfg.pipe, extra))
  }

  function BranchOf(t: Trace): Branch { Branch(t.pc, t.taken, t.target) }

  function PenaltyOf(cfg: Config, s: PipeState, t: Trace): nat
    requires Matches(cfg, s)
  {
    if UsesBp(cfg, t) && !Correct(cfg.bp.value, s.bp.value, BranchOf(t)) then Penalty(cfg.bp.value) else 0
  }

  function ReadyAfter(cfg: Config, s: PipeState, t: Trace): Ready
    requires Matches(cfg, s)
  {
    if cfg.pipe.trackRaw then SetReady(s.ready, InfoOf(t.op).dst, t.dst, TimingOf(cfg, s, t).written)
    else s.ready
  }

  function MemAfter(cfg: Config, s: PipeState, t: Trace): Option<MemState>
    requires Matches(cfg, s)
  {
    if UsesMem(cfg, t) then Some(Access(cfg.mem.value, s.mem.value, t.memAddr, Proposed(cfg, s, t)).0) else s.mem
  }

  function BpAfter(cfg: Config, s: PipeState, t: Trace): Option<BpState>
    requires Matches(cfg, s)
  {
    if UsesBp(cfg, t) then Some(Learn(cfg.bp.value, s.bp.value, BranchOf(t))) else s.bp
  }

  /** on_retire */
  function Retire(cfg: Config, s: PipeState, t: Trace): (s': PipeState)
    requires Matches(cfg, s)
    ensures Matches(cfg, s')
  {
    var tm := TimingOf(cfg, s, t);
    var last := Max(s.last, tm.retire);
    var fu := FuSlot(Classify(t.op));
    PipeState(tm.issue + 1 + PenaltyOf(cfg, s, t), last, ReadyAfter(cfg, s, t),
      Report(last + 1, s.report.insns + 1,
             s.report.mshrStalls + (tm.issue - Proposed(cfg, s, t)),
             s.report.bpPenalty + PenaltyOf(cfg, s, t),
             s.report.byFu[fu := s.report.byFu[fu] + 1]),
      MemAfter(cfg, s, t), BpAfter(cfg, s, t))
  }

  class PipelineModel {
    const cfg: PipeConfig
    const mem: MemHierarchy?
    const bp: BranchPredictor?
    const readyScalar: array<nat>
    const readyVector: array<nat>
    const readyAcc: array<nat>
    var nextIssue: nat
    var lastRetire: nat
    var report: Report

    constructor (cfg: PipeConfig, mem: MemHierarchy?, bp: BranchPredictor?)
      requires SoundPipe(cfg) && (mem != null ==> mem.Valid()) && (bp != null ==> bp.Valid())
      ensures Valid() && fresh(this) && fresh(readyScalar) && fresh(readyVector) && fresh(readyAcc)
      ensures this.cfg == cfg && this.mem == mem && this.bp == bp
      ensures nextIssue == 0 && lastRetire == 0 && report == Report(0, 0, 0, 0, [0, 0, 0, 0, 0])
      ensures Readiness() == Ready(seq(27, i => 0), seq(9, i => 0), seq(3, i => 0))
    {
      this.cfg, this.mem, this.bp := cfg, mem, bp;
      readyScalar := new nat[27](i => 0);
      readyVector := new nat[9](i => 0);
      readyAcc := new nat[3](i => 0);
      nextIssue, lastRetire := 0, 0;
      report := Report(0, 0, 0, 0, [0, 0, 0, 0, 0]);
    }

    ghost function Own(): set<object> { {this, readyScalar, readyVector, readyAcc} }

    ghost function MemRepr(): set<object> { if mem == null then {} else mem.Repr() }

    ghost function BpRepr(): set<object> { if bp == null then {} else bp.Repr() }

    ghost function Repr(): set<object> { Own() + MemRepr() + BpRepr() }

    ghost predicate Valid()
      reads Repr()
    {
      && SoundPipe(cfg) && readyScalar != readyVector && readyVector != readyAcc && readyScalar != readyAcc
      && Own() !! MemRepr() && Own() !! BpRepr() && MemRepr() !! BpRepr()
      && readyScalar.Length == 27 && readyVector.Length == 9 && readyAcc.Length == 3
      && |report.byFu| == 5
      && (mem != null ==> mem.Valid()) && (bp != null ==> bp.Valid())
    }

    ghost function Readiness(): Ready
      reads readyScalar, readyVector, readyAcc
    {
      Ready(readyScalar[..], readyVector[..], readyAcc[..])
    }

    ghost function Cfg(): Config {
      Config(cfg, if mem == null then None else Some(mem.cfg), if bp == null then None else Some(bp.cfg))
    }

    ghost function Abs(): (s: PipeState)
      reads Repr()
      ensures Valid() ==> Matches(Cfg(), s)
    {
      PipeState(nextIssue, lastRetire, Readiness(), report,
                if mem == null then None else Some(mem.Abs()), if bp == null then None else Some(bp.Abs()))
    }

    method ReadyCycle(k: RegKind, idx: nat) returns (c: nat)
      ensures c == ReadyAt(Readiness(), k, idx)
    {
      match k {
        case Scalar => c := if idx < readyScalar.Length then readyScalar[idx] else 0;
        case Vector => c := if idx < readyVector.Length then readyVector[idx] else 0;
        case Acc => c := if idx < readyAcc.Length then readyAcc[idx] else 0;
        case NoReg => c := 0;
      }
    }

    method StoreReady(k: RegKind, idx: nat, c: nat)
      requires readyScalar != readyVector && readyVector != readyAcc && readyScalar != readyAcc
      modifies readyScalar, readyVector, readyAcc
      ensures Readiness() == SetReady(old(Readiness()), k, idx, c)
    {
      match k {
        case Scalar => if idx < readyScalar.Length { readyScalar[idx] := c; }
        case Vector => if idx < readyVector.Length { readyVector[idx] := c; }
        case Acc => if idx < readyAcc.Length { readyAcc[idx] := c; }
        case NoReg =>
      }
    }

    /** One operand's contribution to the earliest issue. */
    method Bump(dep: nat, k: RegKind, idx: nat) returns (dep': nat)
      ensures dep' == Max(dep, Wait(cfg, ReadyAt(Readiness(), k, idx)))
    {
      dep' := dep;
      var r := ReadyCycle(k, idx);
      var offset := if cfg.forwarding then 4 else 2;
      if r > offset {
        var cand := r - offset;
        if cand > dep { dep' := cand; }
      }
    }

    method Dependence(t: Trace) returns (dep: nat)
      ensures dep == DepIssue(cfg, Readiness(), t)
    {
      dep := 0;
      if cfg.trackRaw {
        var info := InfoOf(t.op);
        if info.src1 != NoReg { dep := Bump(dep, info.src1, t.src1); }
        if info.src2 != NoReg { dep := Bump(dep, info.src2, t.src2); }
        if info.rmw && info.dst != NoReg { dep := Bump(dep, info.dst, t.dst); }
      }
    }

    /** The memory part of on_retire: it may push the issue cycle and sets the latency. */
    method MemoryTiming(t: Trace, proposed: nat) returns (issued: nat, extra: nat)
      requires Valid() && proposed == Proposed(Cfg(), Abs(), t)
      modifies MemRepr(), this`report
      ensures Valid()
      ensures issued == old(IssueCycle(Cfg(), Abs(), t)) && extra == old(Extra(Cfg(), Abs(), t))
      ensures report == old(report).(mshrStalls := old(report).mshrStalls + (issued - proposed))
      ensures Abs().mem == old(MemAfter(Cfg(), Abs(), t))
    {
      hide Access, Wait, DepIssue;
      issued := proposed;
      extra := StaticExtra(cfg, t.op);
      if mem != null && IsMemOp(t.op) {
        var pre := mem.stats.stallCycles;
        var r := mem.AccessAt(t.memAddr, issued);
        issued := r.issue;
        extra := if r.latency < 1 then 0 else r.latency - 1;
        report := report.(mshrStalls := report.mshrStalls + (mem.stats.stallCycles - pre));
      }
    }

    /** The branch part of on_retire: a misprediction pushes the next issue by the penalty. */
    method BranchTiming(t: Trace)
      requires Valid()
      modifies BpRepr(), this`report, this`nextIssue
      ensures Valid()
      ensures nextIssue == old(nextIssue) + old(PenaltyOf(Cfg(), Abs(), t))
      ensures report == old(report).(bpPenalty := old(report).bpPenalty + old(PenaltyOf(Cfg(), Abs(), t)))
      ensures Abs().bp == old(BpAfter(Cfg(), Abs(), t))
    {
      hide Correct, Learn;
      if bp != null && IsBranchOp(t.op) {
        var correct := bp.PredictAndUpdate(Branch(t.pc, t.taken, t.target));
        if !correct {
          var pen := if bp.cfg.perfect then 0 else bp.cfg.penalty;
          nextIssue := nextIssue + pen;
          report := report.(bpPenalty := report.bpPenalty + pen);
        }
      }
    }

    method WriteBack(t: Trace, written: nat)
      requires Valid()
      modifies readyScalar, readyVector, readyAcc
      ensures Valid()
      ensures Readiness() == if cfg.trackRaw then SetReady(old(Readiness()), InfoOf(t.op).dst, t.dst, written)
                             else old(Readiness())
    {
      hide SetReady, InfoOf;
      if cfg.trackRaw {
        var info := InfoOf(t.op);
        StoreReady(info.dst, t.dst, written);
      }
    }

    /** Resolves operands and memory, and records when the result is visible. */
    method Issue(t: Trace) returns (issued: nat, extra: nat)
      requires Valid()
      modifies Own(), MemRepr()
      ensures Valid()
      ensures issued == old(IssueCycle(Cfg(), Abs(), t)) && extra == old(Extra(Cfg(), Abs(), t))
      ensures Abs() == old(Abs()).(next := issued + 1, ready := old(ReadyAfter(Cfg(), Abs(), t)),
        report := old(report).(mshrStalls := old(report).mshrStalls + (issued - old(Proposed(Cfg(), Abs(), t)))),
        mem := old(MemAfter(Cfg(), Abs(), t)))
    {
      hide IssueCycle, Extra, DepIssue, MemAfter, SetReady, InfoOf, Fits;
      var dep := Dependence(t);
      issued, extra := MemoryTiming(t, Max(nextIssue, dep));
      var writeOffset := if cfg.forwarding then 4 + extra else cfg.depth - 1 + extra;
      WriteBack(t, issued + writeOffset);
      nextIssue := issued + 1;
    }

    /** PipelineModel::on_retire */
    method OnRetire(t: Trace) returns (issued: nat, retired: nat)
      requires Valid()
      modifies Repr()
      ensures Valid() && Abs() == Retire(Cfg(), old(Abs()), t)
      ensures issued == old(TimingOf(Cfg(), Abs(), t).issue) && retired == old(TimingOf(Cfg(), Abs(), t).retire)
    {
      hide IssueCycle, Extra, ReadyAfter, PenaltyOf, MemAfter, BpAfter, Classify, Fits;
      hide MemHierarchy.Valid, BranchPredictor.Valid, MemHierarchy.Abs, BranchPredictor.Abs;
      ghost var s0 := Abs();
      var extra;
      issued, extra := Issue(t);
      retired := issued + (cfg.depth - 1 + extra);
      BpOnly(Cfg(), Abs(), s0, t);
      BranchTiming(t);
      if retired > lastRetire { lastRetire := retired; }
      var fu := FuSlot(Classify(t.op));
      report := report.(insns := report.insns + 1, byFu := report.byFu[fu := report.byFu[fu] + 1],
                        cycles := lastRetire + 1);
    }
  }

  lemma BpOnly(cfg: Config, s: PipeState, s': PipeState, t: Trace)
    requires Matches(cfg, s) && Matches(cfg, s') && s.bp == s'.bp
    ensures PenaltyOf(cfg, s, t) == PenaltyOf(cfg, s', t) && BpAfter(cfg, s, t) == BpAfter(cfg, s', t)
  {
  }
}
