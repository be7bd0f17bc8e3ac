/** The integer machine: the same instruction set over plain integers. Registers and memory
    cells hold values of 27 trits, arithmetic wraps into that range, and nothing below this
    level mentions trits except the three bitwise logic operations. The simulator is proved
    to follow this machine step by step. */
module Machine {
  import opened Sums
  import opened Trits
  import opened Isa

  const MAX27: int := 3812798742493

  /** The exceptions and failed assertions that can end a step. */
  datatype Fault = OutOfBounds | BadRegister | IllegalOpcode | AssertionFailed | SafetyLimit

  type Vec = v: seq<int> | |v| == 27 witness seq(27, i => 0)

  datatype State = State(
    regs: seq<int>, pc: int, halted: bool,
    vecs: seq<Vec>, accs: seq<Vec>,
    mem: seq<int>,
    counts: seq<nat>, total: nat)

  datatype Outcome = Outcome(s: State, fault: Option<Fault>)

  predicate In27(v: int) { -MAX27 <= v <= MAX27 }

  predicate InInt32(v: int) { -0x8000_0000 <= v <= 0x7fff_ffff }

  /** The sizes of the register files and of the counter table. */
  predicate Shaped(s: State) {
    |s.regs| == 27 && |s.vecs| == 9 && |s.accs| == 3 && |s.counts| == 256
  }

  ghost predicate WellFormed(s: State) {
    && Shaped(s)
    && s.regs[0] == 0 && (forall i :: 0 <= i < 27 ==> In27(s.regs[i]))
    && In27(s.pc)
    && (forall i :: 0 <= i < 9 ==> LanesFit(s.vecs[i]))
    && (forall a :: 0 <= a < |s.mem| ==> In27(s.mem[a]))
  }

  predicate LanesFit(v: Vec) {
    forall k :: 0 <= k < 27 ==> InInt32(v[k])
  }

  /** The representative of v modulo 3^27 within 27 trits. */
  function Wrap27(v: int): (r: int)
    ensures In27(r)
  {
    (v + MAX27) % 7625597484987 - MAX27
  }

  lemma Wrap27IsWrap(v: int)
    ensures Wrap27(v) == Wrap(v, 27)
  {
    Pow3At27();
  }

  // ---- lanes ----

  function ClampLane(v: int): (r: int)
    ensures -9841 <= r <= 9841
  {
    if v < -9841 then -9841 else if v > 9841 then 9841 else v
  }

  function ClampInt32(v: int): (r: int)
    ensures InInt32(r)
  {
    if v > 0x7fff_ffff then 0x7fff_ffff else if v < -0x8000_0000 then -0x8000_0000 else v
  }

  function Distance(a: int, b: int): nat { if a < b then b - a else a - b }

  /** Both clamps give the value in range that is nearest. */
  lemma ClampsNearest(v: int, w: int)
    ensures -9841 <= w <= 9841 ==> Distance(v, ClampLane(v)) <= Distance(v, w)
    ensures InInt32(w) ==> Distance(v, ClampInt32(v)) <= Distance(v, w)
  {
  }

  /** static_cast to a 32-bit integer. */
  function WrapInt32(v: int): (r: int)
    ensures InInt32(r) && (v - r) % 0x1_0000_0000 == 0
  {
    (v + 0x8000_0000) % 0x1_0000_0000 - 0x8000_0000
  }

  function VAdd(a: Vec, b: Vec): (r: Vec)
    ensures LanesFit(r)
  {
    var r: Vec := seq(27, k requires 0 <= k < 27 => ClampInt32(a[k] + b[k]));
    assert forall k :: 0 <= k < 27 ==> r[k] == ClampInt32(a[k] + b[k]);
    r
  }

  function VSub(a: Vec, b: Vec): (r: Vec)
    ensures LanesFit(r)
  {
    var r: Vec := seq(27, k requires 0 <= k < 27 => ClampInt32(a[k] - b[k]));
    assert forall k :: 0 <= k < 27 ==> r[k] == ClampInt32(a[k] - b[k]);
    r
  }

  function VNeg(a: Vec): (r: Vec)
    ensures LanesFit(r)
  {
    var r: Vec := seq(27, k requires 0 <= k < 27 => ClampInt32(-a[k]));
    assert forall k :: 0 <= k < 27 ==> r[k] == ClampInt32(-a[k]);
    r
  }

  function VMul(a: Vec, b: Vec): (r: Vec)
    ensures LanesFit(r)
  {
    var r: Vec := seq(27, k requires 0 <= k < 27 => ClampInt32(a[k] * b[k]));
    assert forall k :: 0 <= k < 27 ==> r[k] == ClampInt32(a[k] * b[k]);
    r
  }

  function VBroadcast(v: int): (r: Vec)
    ensures LanesFit(r)
  {
    var r: Vec := seq(27, k requires 0 <= k < 27 => ClampLane(v));
    assert forall k :: 0 <= k < 27 ==> r[k] == ClampLane(v);
    r
  }

  function VMac(acc: Vec, a: Vec, b: Vec): Vec {
    seq(27, k requires 0 <= k < 27 => acc[k] + a[k] * b[k])
  }

  /** Lane k of the running maximum; a lane that is overwritten is clamped. */
  function MaxScan(a: Vec, k: nat): int
    requires k < 27
  {
    if k == 0 then a[0]
    else if MaxScan(a, k - 1) > a[k] then ClampLane(MaxScan(a, k - 1)) else a[k]
  }

  function VMax(a: Vec): Vec { seq(27, k requires 0 <= k < 27 => MaxScan(a, k)) }

  function VShuf(a: Vec, imm: int): (r: Vec)
    ensures LanesFit(r)
  {
    var r: Vec := seq(27, k requires 0 <= k < 27 => ClampLane(a[(k + imm % 27) % 27]));
    assert forall k :: 0 <= k < 27 ==> r[k] == ClampLane(a[(k + imm % 27) % 27]);
    r
  }

  // ---- memory ----

  predicate InMem(mem: seq<int>, addr: int) { 0 <= addr < |mem| }

  predicate RunInMem(mem: seq<int>, base: int) { 0 <= base && base + 27 <= |mem| }

  function LoadLane(v: int): (r: int)
    ensures -9841 <= r <= 9841
  {
    ClampLane(WrapInt32(v))
  }

  /** The lanes loaded from a run of 27 cells: cut to 32 bits, then clamped. */
  function VLoad(mem: seq<int>, base: int): (r: Vec)
    requires RunInMem(mem, base)
    ensures LanesFit(r)
  {
    var r: Vec := seq(27, k requires 0 <= k < 27 => LoadLane(mem[base + k]));
    assert forall k :: 0 <= k < 27 ==> r[k] == LoadLane(mem[base + k]);
    r
  }

  /** Memory after storing lanes k, k+1, ... until the first address out of bounds. */
  function VStoreFrom(mem: seq<int>, base: int, v: Vec, k: nat): (r: seq<int>)
    requires k <= 27
    ensures |r| == |mem|
    decreases 27 - k
  {
    if k == 27 || !InMem(mem, base + k) then mem
    else VStoreFrom(mem[base + k := v[k]], base, v, k + 1)
  }

  // ---- logic on the trits of two values ----

  function LogicTrit(op: Opcode, a: Trit, b: Trit): Trit {
    match op
    case TAND3 => TritMin(a, b)
    case TOR3 => TritMax(a, b)
    case _ => TritXor(a, b)
  }

  function LogicWord(op: Opcode, x: seq<Trit>, y: seq<Trit>): (z: seq<Trit>)
    requires |x| == |y|
    ensures |z| == |x|
  {
    seq(|x|, k requires 0 <= k < |x| => LogicTrit(op, x[k], y[k]))
  }

  function Logic3(op: Opcode, a: int, b: int): (r: int)
    ensures In27(r)
  {
    var z := LogicWord(op, Digits(a, 27), Digits(b, 27));
    ValueBound(z); Pow3At27();
    Value(z)
  }

  // ---- one instruction ----

  /** Register 0 reads as zero because writes to it are dropped. */
  function SetReg(s: State, d: int, v: int): (r: State)
    requires |s.regs| == 27 && 0 <= d < 27
  {
    if d == 0 then s else s.(regs := s.regs[d := v])
  }

  function Ok(s: State): Outcome { Outcome(s, None) }

  function Fail(s: State, f: Fault): Outcome { Outcome(s, Some(f)) }

  function Bump(s: State, op: Opcode): State
    requires |s.counts| == 256
  {
    s.(counts := s.counts[OpValue(op) := s.counts[OpValue(op)] + 1], total := s.total + 1)
  }

  predicate IsBranch(op: Opcode) {
    op == TBEQ || op == TBNE || op == TBLT || op == TJUMP || op == TCALL || op == TRET
  }

  predicate IsVector(op: Opcode) {
    match op
    case TVADD | TVSUB | TVNEG | TVBROADCAST | TVMAC | TVSUM | TVMAX | TVSHUF | TVMUL => true
    case _ => false
  }

  predicate IsMemory(op: Opcode) {
    op == TLOAD || op == TSTORE || op == TVLOAD || op == TVSTORE
  }

  predicate IsScalar(op: Opcode) {
    !IsBranch(op) && !IsVector(op) && !IsMemory(op)
  }

  predicate IsPlain(op: Opcode) { op == TNOP || op == TDBG || op == THALT }

  /** The result of a scalar instruction on the values of its two source registers. */
  function ScalarValue(i: Instr, a: int, b: int): int
    requires IsScalar(i.op) && !IsPlain(i.op)
  {
    match i.op
    case TLOADI => i.imm
    case TADD => Wrap27(a + b)
    case TSUB => Wrap27(a - b)
    case TNEG => -a
    case TABS => if a < 0 then -a else a
    case TSIGN => Sign(a)
    case TCMP => Sign(Wrap27(a - b))
    case TAND3 | TOR3 | TXOR3 => Logic3(i.op, a, b)
  }

  function ExecScalar(s: State, i: Instr): State
    requires Shaped(s) && Legal(i) && IsScalar(i.op)
  {
    if i.op == THALT then s.(halted := true)
    else if IsPlain(i.op) then s
    else SetReg(s, i.dst, ScalarValue(i, s.regs[i.src1], s.regs[i.src2]))
  }

  predicate Taken(s: State, i: Instr)
    requires |s.regs| == 27 && Legal(i)
  {
    var a, b := s.regs[i.src1], s.regs[i.src2];
    match i.op
    case TJUMP => true
    case TBEQ => a == b
    case TBNE => a != b
    case TBLT => Wrap27(a - b) < 0
    case _ => false
  }

  function ExecBranch(s: State, i: Instr): Outcome
    requires Shaped(s) && Legal(i) && IsBranch(i.op)
  {
    var sp := s.regs[26];
    match i.op
    case TCALL =>
      if !InMem(s.mem, sp) then Fail(s, OutOfBounds)
      else
        var s1 := s.(mem := s.mem[sp := s.pc]);
        if !In27(sp + 1) then Fail(s1, AssertionFailed)
        else Ok(SetReg(s1, 26, sp + 1).(pc := i.imm))
    case TRET =>
      if !In27(sp - 1) then Fail(s, AssertionFailed)
      else
        var s1 := SetReg(s, 26, sp - 1);
        if !InMem(s.mem, sp - 1) then Fail(s1, OutOfBounds)
        else Ok(s1.(pc := s.mem[sp - 1]))
    case _ => if Taken(s, i) then Ok(s.(pc := i.imm)) else Ok(s)
  }

  function ExecMemory(s: State, i: Instr): Outcome
    requires Shaped(s) && Legal(i) && IsMemory(i.op)
  {
    var load, store := s.regs[i.src1], s.regs[i.src2];
    match i.op
    case TLOAD =>
      if InMem(s.mem, load) then Ok(SetReg(s, i.dst, s.mem[load])) else Fail(s, OutOfBounds)
    case TSTORE =>
      if InMem(s.mem, store) then Ok(s.(mem := s.mem[store := s.regs[i.src1]])) else Fail(s, OutOfBounds)
    case TVLOAD =>
      if !RunInMem(s.mem, load) then Fail(s, OutOfBounds)
      else if i.dst >= 9 then Fail(s, BadRegister)
      else Ok(s.(vecs := s.vecs[i.dst := VLoad(s.mem, load)]))
    case TVSTORE =>
      if i.src1 >= 9 then Fail(s, BadRegister)
      else
        var s1 := s.(mem := VStoreFrom(s.mem, store, s.vecs[i.src1], 0));
        if RunInMem(s.mem, store) then Ok(s1) else Fail(s1, OutOfBounds)
  }

  /** The registers a vector instruction names exist. */
  predicate VectorRegsOk(i: Instr)
    requires IsVector(i.op)
  {
    match i.op
    case TVADD | TVSUB | TVMUL => i.dst < 9 && i.src1 < 9 && i.src2 < 9
    case TVNEG | TVMAX | TVSHUF => i.dst < 9 && i.src1 < 9
    case TVBROADCAST => i.dst < 9
    case TVMAC => i.dst < 3 && i.src1 < 9 && i.src2 < 9
    case TVSUM => i.src1 < 3
  }

  function SetVec(s: State, d: int, v: Vec): State
    requires 0 <= d < |s.vecs|
  {
    s.(vecs := s.vecs[d := v])
  }

  function ExecVector(s: State, i: Instr): Outcome
    requires Shaped(s) && Legal(i) && IsVector(i.op)
  {
    if !VectorRegsOk(i) then Fail(s, BadRegister) else
    match i.op
    case TVADD => Ok(SetVec(s, i.dst, VAdd(s.vecs[i.src1], s.vecs[i.src2])))
    case TVSUB => Ok(SetVec(s, i.dst, VSub(s.vecs[i.src1], s.vecs[i.src2])))
    case TVMUL => Ok(SetVec(s, i.dst, VMul(s.vecs[i.src1], s.vecs[i.src2])))
    case TVNEG => Ok(SetVec(s, i.dst, VNeg(s.vecs[i.src1])))
    case TVMAX => Ok(SetVec(s, i.dst, VMax(s.vecs[i.src1])))
    case TVSHUF => Ok(SetVec(s, i.dst, VShuf(s.vecs[i.src1], i.imm)))
    case TVBROADCAST => Ok(SetVec(s, i.dst, VBroadcast(i.imm)))
    case TVMAC =>
      Ok(s.(accs := s.accs[i.dst := VMac(s.accs[i.dst], s.vecs[i.src1], s.vecs[i.src2])]))
    case TVSUM =>
      var t := Sum(s.accs[i.src1]);
      if In27(t) then Ok(SetReg(s, i.dst, t)) else Fail(s, AssertionFailed)
  }

  function Exec(s0: State, i: Instr): (o: Outcome)
    requires Shaped(s0) && Legal(i)
    ensures Shaped(o.s) && |o.s.mem| == |s0.mem|
  {
    var s := Bump(s0, i.op);
    if IsBranch(i.op) then ExecBranch(s, i)
    else if IsVector(i.op) then ExecVector(s, i)
    else if IsMemory(i.op) then ExecMemory(s, i)
    else Ok(ExecScalar(s, i))
  }

  // ---- fetch, step and run ----

  function DecodeInt(v: int): Option<Instr> {
    DecodeSpec(Digits(v, 27))
  }

  lemma DecodeIntLegal(v: int)
    requires DecodeInt(v).Some?
    ensures Legal(DecodeInt(v).value)
  {
    DecodeRoundTrip(Digits(v, 27));
  }

  function Step(s: State): (o: Outcome)
    requires Shaped(s)
    ensures Shaped(o.s) && |o.s.mem| == |s.mem|
  {
    if s.halted then Ok(s)
    else if !InMem(s.mem, s.pc) then Fail(s, OutOfBounds)
    else if !In27(s.pc + 1) then Fail(s, AssertionFailed)
    else
      var s1 := s.(pc := s.pc + 1);
      match DecodeInt(s.mem[s.pc])
      case None => Fail(s1, IllegalOpcode)
      case Some(i) => DecodeIntLegal(s.mem[s.pc]); Exec(s1, i)
  }

  /** At most n steps, ending early at a halt or a fault. */
  function Run(s: State, n: nat): (o: Outcome)
    requires Shaped(s)
    ensures Shaped(o.s) && |o.s.mem| == |s.mem|
    decreases n, s
  {
    if n == 0 || s.halted then Ok(s)
    else
      var o := Step(s);
      if o.fault.Some? then o else Run(o.s, n - 1)
  }

  const SAFETY_LIMIT: nat := 1_000_000

  /** Sim::run: a machine that has not halted within the limit is an error. */
  function RunToHalt(s: State): (o: Outcome)
    requires Shaped(s)
    ensures Shaped(o.s)
  {
    var o := Run(s, SAFETY_LIMIT);
    if o.fault.None? && !o.s.halted then Fail(o.s, SafetyLimit) else o
  }

  lemma StepIs(s: State, i: Instr)
    requires Shaped(s) && !s.halted && InMem(s.mem, s.pc) && In27(s.pc + 1)
    requires DecodeInt(s.mem[s.pc]) == Some(i) && Legal(i)
    ensures Step(s) == Exec(s.(pc := s.pc + 1), i)
  {
    hide Exec, DecodeInt, Legal;
  }

  // ---- every step keeps every cell, register and lane within its width ----

  /** A vector store writes lane j at base + j, up to the first address out of bounds, and no other cell. */
  lemma {:induction false} VStoreCell(mem: seq<int>, base: int, v: Vec, k: nat, x: int)
    requires k <= 27 && InMem(mem, x)
    ensures VStoreFrom(mem, base, v, k)[x] == if 0 <= base + k <= x < base + 27 then v[x - base] else mem[x]
    decreases 27 - k
  {
    if k == 27 || !InMem(mem, base + k) {
    } else {
      VStoreCell(mem[base + k := v[k]], base, v, k + 1, x);
    }
  }

  lemma {:induction false} VStoreFits(mem: seq<int>, base: int, v: Vec, k: nat)
    requires k <= 27 && LanesFit(v) && forall a :: 0 <= a < |mem| ==> In27(mem[a])
    ensures forall a :: 0 <= a < |mem| ==> In27(VStoreFrom(mem, base, v, k)[a])
    decreases 27 - k
  {
    if k == 27 || !InMem(mem, base + k) {
    } else {
      VStoreFits(mem[base + k := v[k]], base, v, k + 1);
    }
  }

  lemma {:induction false} MaxScanFits(a: Vec, k: nat)
    requires k < 27 && LanesFit(a)
    ensures InInt32(MaxScan(a, k))
  {
    if k == 0 {
    } else {
      MaxScanFits(a, k - 1);
    }
  }

  lemma ScalarWellFormed(s: State, i: Instr)
    requires WellFormed(s) && Legal(i) && IsScalar(i.op)
    ensures WellFormed(ExecScalar(s, i))
  {
  }

  lemma BranchWellFormed(s: State, i: Instr)
    requires WellFormed(s) && Legal(i) && IsBranch(i.op)
    ensures WellFormed(ExecBranch(s, i).s)
  {
  }

  lemma MemoryWellFormed(s: State, i: Instr)
    requires WellFormed(s) && Legal(i) && IsMemory(i.op)
    ensures WellFormed(ExecMemory(s, i).s)
  {
    if i.op == TVSTORE && i.src1 < 9 {
      VStoreFits(s.mem, s.regs[i.src2], s.vecs[i.src1], 0);
    }
  }

  lemma VectorWellFormed(s: State, i: Instr)
    requires WellFormed(s) && Legal(i) && IsVector(i.op)
    ensures WellFormed(ExecVector(s, i).s)
  {
    if i.op == TVMAX && VectorRegsOk(i) {
      forall k | 0 <= k < 27 ensures InInt32(MaxScan(s.vecs[i.src1], k)) {
        MaxScanFits(s.vecs[i.src1], k);
      }
    }
  }

  lemma ExecWellFormed(s: State, i: Instr)
    requires WellFormed(s) && Legal(i)
    ensures WellFormed(Exec(s, i).s)
  {
    var b := Bump(s, i.op);
    assert WellFormed(b);
    if IsBranch(i.op) { BranchWellFormed(b, i); }
    else if IsVector(i.op) { VectorWellFormed(b, i); }
    else if IsMemory(i.op) { MemoryWellFormed(b, i); }
    else { ScalarWellFormed(b, i); }
  }

  lemma StepWellFormed(s: State)
    requires WellFormed(s)
    ensures WellFormed(Step(s).s)
  {
    if !s.halted && InMem(s.mem, s.pc) && In27(s.pc + 1) {
      var s1 := s.(pc := s.pc + 1);
      assert WellFormed(s1);
      hide Exec;
      match DecodeInt(s.mem[s.pc])
      case None =>
      case Some(i) =>
        DecodeIntLegal(s.mem[s.pc]);
        ExecWellFormed(s1, i);
    }
  }

  lemma {:induction false} RunWellFormed(s: State, n: nat)
    requires WellFormed(s)
    ensures WellFormed(Run(s, n).s)
    decreases n
  {
    hide Step;
    if n == 0 || s.halted {
    } else {
      StepWellFormed(s);
      if Step(s).fault.None? { RunWellFormed(Step(s).s, n - 1); }
    }
  }

  // ---- order comparisons ----

  lemma WrappedOrder27(a: int, b: int)
    requires In27(a) && In27(b)
    ensures Sign(Wrap27(a - b)) == if In27(a - b) then Sign(a - b) else -Sign(a - b)
    ensures !In27(a - b) ==> a != b
  {
    hide Wrap27, Wrap;
    Pow3At27();
    Wrap27IsWrap(a - b);
    WrappedOrder(a, b, 27);
  }

  /** TBLT and TCMP decide by the sign of a wrapped difference. That is the true order exactly
      when the difference itself fits in a word. */
  lemma ComparisonExact(s: State, i: Instr)
    requires WellFormed(s) && Legal(i) && (i.op == TBLT || i.op == TCMP)
    ensures var a, b := s.regs[i.src1], s.regs[i.src2];
      && (i.op == TBLT ==> ((Taken(s, i) <==> a < b) <==> In27(a - b)))
      && (i.op == TCMP ==> (ScalarValue(i, a, b) == Sign(a - b) <==> In27(a - b)))
  {
    hide Wrap27;
    WrappedOrder27(s.regs[i.src1], s.regs[i.src2]);
  }

  /** The largest word against -1: the difference wraps to the smallest word, so TBLT takes the
      branch and TCMP gives -1, although the first operand is the larger. */
  lemma ComparisonWraps(s: State, i: Instr)
    requires Shaped(s) && Legal(i) && s.regs[i.src1] == MAX27 && s.regs[i.src2] == -1
    ensures s.regs[i.src1] > s.regs[i.src2] && Wrap27(MAX27 + 1) == -MAX27
    ensures i.op == TBLT ==> Taken(s, i)
    ensures i.op == TCMP ==> ScalarValue(i, s.regs[i.src1], s.regs[i.src2]) == -1
  {
  }
}
