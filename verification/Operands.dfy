/** The operands the timing model declares for an instruction are the registers the machine uses:
    they decide the outcome, the declared destination alone changes, and none is declared in vain. */
module Operands {
  import opened Trits
  import opened Isa
  import opened Machine
  import opened Pipeline
  import Accumulators
  import Sums

  /** What a register holds; registers that do not exist hold nothing. */
  function Holds(s: State, k: RegKind, idx: int): seq<int> {
    match k
    case Scalar => if 0 <= idx < |s.regs| then [s.regs[idx]] else []
    case Vector => if 0 <= idx < |s.vecs| then s.vecs[idx] else []
    case Acc => if 0 <= idx < |s.accs| then s.accs[idx] else []
    case NoReg => []
  }

  predicate IsCall(op: Opcode) { op == TCALL || op == TRET }

  predicate DeclaredRead(i: Instr, k: RegKind, idx: int) {
    var f := InfoOf(i.op);
    (f.src1 == k && i.src1 == idx) || (f.src2 == k && i.src2 == idx) || (f.rmw && f.dst == k && i.dst == idx)
  }

  /** Register 0 is never written. */
  predicate DeclaredWrite(i: Instr, k: RegKind, idx: int) {
    InfoOf(i.op).dst == k && i.dst == idx && !(k == Scalar && idx == 0)
  }

  /** The states agree on all the machine shows but registers, and on the registers declared as read. */
  ghost predicate Alike(i: Instr, s: State, t: State) {
    && s.pc == t.pc && s.mem == t.mem && s.halted == t.halted
    && forall k, idx :: DeclaredRead(i, k, idx) ==> Holds(s, k, idx) == Holds(t, k, idx)
  }

  /** The same fault, memory, program counter and halt, and the same value in the destination. */
  ghost predicate SameEffect(i: Instr, o: Outcome, o': Outcome) {
    && o.fault == o'.fault && o.s.pc == o'.s.pc && o.s.mem == o'.s.mem && o.s.halted == o'.s.halted
    && forall k, idx :: DeclaredWrite(i, k, idx) && o.fault.None? ==> Holds(o.s, k, idx) == Holds(o'.s, k, idx)
  }

  /** No register changes but the declared destination, and that one only without a fault. */
  ghost predicate OnlyDestination(i: Instr, s: State, o: Outcome) {
    forall k, idx :: !DeclaredWrite(i, k, idx) || o.fault.Some? ==> Holds(o.s, k, idx) == Holds(s, k, idx)
  }

  // ---- what is declared decides ----

  /** What agreement on the declared registers says of the register files. */
  lemma ReadsAgree(i: Instr, s: State, t: State)
    requires Shaped(s) && Shaped(t) && Legal(i) && Alike(i, s, t)
    ensures InfoOf(i.op).src1 == Scalar ==> s.regs[i.src1] == t.regs[i.src1]
    ensures InfoOf(i.op).src2 == Scalar ==> s.regs[i.src2] == t.regs[i.src2]
    ensures InfoOf(i.op).src1 == Vector && i.src1 < 9 ==> s.vecs[i.src1] == t.vecs[i.src1]
    ensures InfoOf(i.op).src2 == Vector && i.src2 < 9 ==> s.vecs[i.src2] == t.vecs[i.src2]
    ensures InfoOf(i.op).src1 == Acc && i.src1 < 3 ==> s.accs[i.src1] == t.accs[i.src1]
    ensures InfoOf(i.op).rmw && InfoOf(i.op).dst == Acc && i.dst < 3 ==> s.accs[i.dst] == t.accs[i.dst]
  {
    hide InfoOf;
    var f := InfoOf(i.op);
    assert DeclaredRead(i, f.src1, i.src1) && DeclaredRead(i, f.src2, i.src2);
    assert f.rmw ==> DeclaredRead(i, f.dst, i.dst);
  }

  predicate SameRegisters(s: State, t: State) { s.regs == t.regs && s.vecs == t.vecs && s.accs == t.accs }

  /** No register was written. */
  lemma NothingWritten(i: Instr, s: State, t: State, o: Outcome, o': Outcome)
    requires o.fault == o'.fault && o.s.pc == o'.s.pc && o.s.mem == o'.s.mem && o.s.halted == o'.s.halted
    requires SameRegisters(o.s, s) && SameRegisters(o'.s, t) && (o.fault.Some? || InfoOf(i.op).dst == NoReg)
    ensures SameEffect(i, o, o') && OnlyDestination(i, s, o)
  {
    hide InfoOf;
  }

  lemma ScalarWritten(i: Instr, s: State, t: State, o: Outcome, o': Outcome, v: int)
    requires Shaped(s) && Shaped(t) && Legal(i) && InfoOf(i.op).dst == Scalar && o.fault == o'.fault == None
    requires o.s.pc == o'.s.pc && o.s.mem == o'.s.mem && o.s.halted == o'.s.halted
    requires SameRegisters(o.s, SetReg(s, i.dst, v)) && SameRegisters(o'.s, SetReg(t, i.dst, v))
    ensures SameEffect(i, o, o') && OnlyDestination(i, s, o)
  {
    hide InfoOf;
  }

  lemma VectorWritten(i: Instr, s: State, t: State, o: Outcome, o': Outcome, v: Vec)
    requires Shaped(s) && Shaped(t) && 0 <= i.dst < 9 && InfoOf(i.op).dst == Vector && o.fault == o'.fault == None
    requires o.s.pc == o'.s.pc && o.s.mem == o'.s.mem && o.s.halted == o'.s.halted
    requires SameRegisters(o.s, SetVec(s, i.dst, v)) && SameRegisters(o'.s, SetVec(t, i.dst, v))
    ensures SameEffect(i, o, o') && OnlyDestination(i, s, o)
  {
    hide InfoOf;
  }

  lemma AccWritten(i: Instr, s: State, t: State, o: Outcome, o': Outcome, v: Vec)
    requires Shaped(s) && Shaped(t) && 0 <= i.dst < 3 && InfoOf(i.op).dst == Acc && o.fault == o'.fault == None
    requires o.s.pc == o'.s.pc && o.s.mem == o'.s.mem && o.s.halted == o'.s.halted
    requires SameRegisters(o.s, s.(accs := s.accs[i.dst := v]))
    requires SameRegisters(o'.s, t.(accs := t.accs[i.dst := v]))
    ensures SameEffect(i, o, o') && OnlyDestination(i, s, o)
  {
    hide InfoOf;
  }

  lemma ScalarValueOperands(i: Instr, a: int, b: int, c: int, d: int)
    requires IsScalar(i.op) && !IsPlain(i.op)
    requires (InfoOf(i.op).src1 == Scalar ==> a == c) && (InfoOf(i.op).src2 == Scalar ==> b == d)
    ensures ScalarValue(i, a, b) == ScalarValue(i, c, d)
    ensures InfoOf(i.op).dst == Scalar
  {
    hide Wrap27, Logic3;
  }

  lemma ScalarOperands(s: State, t: State, i: Instr)
    requires Shaped(s) && Shaped(t) && Legal(i) && IsScalar(i.op) && Alike(i, s, t)
    ensures SameEffect(i, Ok(ExecScalar(s, i)), Ok(ExecScalar(t, i)))
    ensures OnlyDestination(i, s, Ok(ExecScalar(s, i)))
  {
    var o, o' := Ok(ExecScalar(s, i)), Ok(ExecScalar(t, i));
    if IsPlain(i.op) {
      NothingWritten(i, s, t, o, o');
    } else {
      ReadsAgree(i, s, t);
      hide InfoOf, ScalarValue, IsScalar, DeclaredRead, DeclaredWrite, OnlyDestination, SameEffect;
      ScalarValueOperands(i, s.regs[i.src1], s.regs[i.src2], t.regs[i.src1], t.regs[i.src2]);
      ScalarWritten(i, s, t, o, o', ScalarValue(i, s.regs[i.src1], s.regs[i.src2]));
    }
  }

  lemma BranchOperands(s: State, t: State, i: Instr)
    requires Shaped(s) && Shaped(t) && Legal(i) && IsBranch(i.op) && !IsCall(i.op) && Alike(i, s, t)
    ensures SameEffect(i, ExecBranch(s, i), ExecBranch(t, i))
    ensures OnlyDestination(i, s, ExecBranch(s, i))
  {
    ReadsAgree(i, s, t);
    hide Wrap27, DeclaredRead, DeclaredWrite, OnlyDestination, SameEffect;
    NothingWritten(i, s, t, ExecBranch(s, i), ExecBranch(t, i));
  }

  lemma MemoryOperands(s: State, t: State, i: Instr)
    requires Shaped(s) && Shaped(t) && Legal(i) && IsMemory(i.op) && Alike(i, s, t)
    ensures SameEffect(i, ExecMemory(s, i), ExecMemory(t, i))
    ensures OnlyDestination(i, s, ExecMemory(s, i))
  {
    ReadsAgree(i, s, t);
    hide VLoad, VStoreFrom, DeclaredRead, DeclaredWrite, OnlyDestination, SameEffect;
    var o, o' := ExecMemory(s, i), ExecMemory(t, i);
    var base := s.regs[i.src1];
    if i.op == TLOAD && InMem(s.mem, base) {
      ScalarWritten(i, s, t, o, o', s.mem[base]);
    } else if i.op == TVLOAD && o.fault.None? {
      VectorWritten(i, s, t, o, o', VLoad(s.mem, base));
    } else {
      NothingWritten(i, s, t, o, o');
    }
  }

  /** What a vector instruction leaves in its vector register. */
  function VectorValue(s: State, i: Instr): Vec
    requires Shaped(s) && Legal(i) && IsVector(i.op) && VectorRegsOk(i) && i.op != TVMAC && i.op != TVSUM
  {
    ExecVector(s, i).s.vecs[i.dst]
  }

  lemma VectorValueOperands(s: State, t: State, i: Instr)
    requires Shaped(s) && Shaped(t) && Legal(i) && IsVector(i.op) && VectorRegsOk(i) && i.op != TVMAC && i.op != TVSUM
    requires InfoOf(i.op).src1 == Vector ==> s.vecs[i.src1] == t.vecs[i.src1]
    requires InfoOf(i.op).src2 == Vector ==> s.vecs[i.src2] == t.vecs[i.src2]
    ensures VectorValue(s, i) == VectorValue(t, i)
    ensures ExecVector(s, i) == Ok(SetVec(s, i.dst, VectorValue(s, i)))
    ensures InfoOf(i.op).dst == Vector
  {
    hide VAdd, VSub, VMul, VNeg, VMax, VShuf, VBroadcast;
  }

  lemma VectorOperands(s: State, t: State, i: Instr)
    requires Shaped(s) && Shaped(t) && Legal(i) && IsVector(i.op) && Alike(i, s, t)
    ensures SameEffect(i, ExecVector(s, i), ExecVector(t, i))
    ensures OnlyDestination(i, s, ExecVector(s, i))
  {
    ReadsAgree(i, s, t);
    hide VMac, Sums.Sum, DeclaredRead, DeclaredWrite, OnlyDestination, SameEffect;
    var o, o' := ExecVector(s, i), ExecVector(t, i);
    if !VectorRegsOk(i) {
      NothingWritten(i, s, t, o, o');
    } else if i.op == TVMAC {
      AccWritten(i, s, t, o, o', VMac(s.accs[i.dst], s.vecs[i.src1], s.vecs[i.src2]));
    } else if i.op == TVSUM {
      var v := Sums.Sum(s.accs[i.src1]);
      if In27(v) { ScalarWritten(i, s, t, o, o', v); } else { NothingWritten(i, s, t, o, o'); }
    } else {
      VectorResultOperands(s, t, i);
    }
  }

  lemma VectorResultOperands(s: State, t: State, i: Instr)
    requires Shaped(s) && Shaped(t) && Legal(i) && IsVector(i.op) && VectorRegsOk(i) && i.op != TVMAC && i.op != TVSUM
    requires Alike(i, s, t)
    ensures SameEffect(i, ExecVector(s, i), ExecVector(t, i))
    ensures OnlyDestination(i, s, ExecVector(s, i))
  {
    ReadsAgree(i, s, t);
    VectorRegistersExist(i);
    hide ExecVector, InfoOf, VectorValue, IsVector, VectorRegsOk;
    hide DeclaredRead, DeclaredWrite, OnlyDestination, SameEffect;
    VectorValueOperands(s, t, i);
    VectorValueOperands(t, t, i);
    VectorWritten(i, s, t, ExecVector(s, i), ExecVector(t, i), VectorValue(s, i));
  }

  lemma VectorRegistersExist(i: Instr)
    requires IsVector(i.op) && VectorRegsOk(i) && i.op != TVMAC && i.op != TVSUM && Legal(i)
    ensures 0 <= i.dst < 9
    ensures (InfoOf(i.op).src1 == Vector ==> i.src1 < 9) && (InfoOf(i.op).src2 == Vector ==> i.src2 < 9)
  {
  }

  /** For every instruction but calls and returns, states that agree on what it declares to read
      agree on all it does, and it changes no register but its declared destination. */
  lemma DeclaredDecide(s: State, t: State, i: Instr)
    requires Shaped(s) && Shaped(t) && Legal(i) && !IsCall(i.op) && Alike(i, s, t)
    ensures SameEffect(i, Exec(s, i), Exec(t, i))
    ensures OnlyDestination(i, s, Exec(s, i))
  {
    hide ExecScalar, ExecBranch, ExecMemory, ExecVector, InfoOf, SameEffect;
    var b, c := Bump(s, i.op), Bump(t, i.op);
    BumpHolds(s, i.op);
    BumpHolds(t, i.op);
    if IsBranch(i.op) { BranchOperands(b, c, i); }
    else if IsMemory(i.op) { MemoryOperands(b, c, i); }
    else if IsVector(i.op) { VectorOperands(b, c, i); }
    else { ScalarOperands(b, c, i); }
  }

  lemma BumpHolds(s: State, op: Opcode)
    requires |s.counts| == 256
    ensures forall k, idx :: Holds(Bump(s, op), k, idx) == Holds(s, k, idx)
  {
  }

  /** Calls and returns use R26, whatever destination they encode. */
  lemma CallsUseR26(s: State, t: State, i: Instr)
    requires Shaped(s) && Shaped(t) && Legal(i) && IsCall(i.op)
    requires s.pc == t.pc && s.mem == t.mem && s.halted == t.halted && s.regs[26] == t.regs[26]
    ensures var o, o' := Exec(s, i), Exec(t, i);
      && o.fault == o'.fault && o.s.pc == o'.s.pc && o.s.mem == o'.s.mem && o.s.halted == o'.s.halted
      && o.s.regs[26] == o'.s.regs[26]
      && (forall k, idx :: !(k == Scalar && idx == 26) ==> Holds(o.s, k, idx) == Holds(s, k, idx))
      && (o.fault.None? ==> o.s.regs[26] != s.regs[26])
  {
  }

  // ---- nothing is declared in vain ----

  function Lanes(v: int): Vec { seq(27, k => v) }

  /** The scalar operands hold a, the vector operands ones, the accumulators zeros; memory cell k
      holds k; register 3 of each kind holds something else. */
  function Sample(a: int): State {
    State(seq(27, k => if k == 1 || k == 2 then a else if k == 3 then 50 else 0), 10, false,
          seq(9, k => Lanes(1))[3 := Lanes(9)], seq(3, k => Lanes(0)),
          seq(64, k => k), seq(256, k => 0), 0)
  }

  /** The state with another value in one register. */
  function With(s: State, k: RegKind, idx: int, v: int): State {
    match k
    case Scalar => if 0 <= idx < |s.regs| then s.(regs := s.regs[idx := v]) else s
    case Vector => if 0 <= idx < |s.vecs| then s.(vecs := s.vecs[idx := Lanes(v)]) else s
    case Acc => if 0 <= idx < |s.accs| then s.(accs := s.accs[idx := Lanes(v)]) else s
    case NoReg => s
  }

  /** An instruction that reads registers 1 and 2 and writes register 3, or accumulator 0. */
  function Probe(op: Opcode): Instr { Instr(op, if op == TVMAC then 0 else 3, 1, 2, 5) }

  function SampleOf(op: Opcode): State { Sample(if op == TAND3 || op == TXOR3 then 1 else 0) }

  /** What to put in an operand so that the outcome shows it. */
  function OtherValue(op: Opcode, k: RegKind, first: bool): int {
    if k == Vector then 2
    else if op == TAND3 then 0
    else if op == TXOR3 || (op == TBLT && first) then -1
    else 1
  }

  lemma SampleParts(a: int)
    ensures Shaped(Sample(a)) && Sample(a).regs[1] == Sample(a).regs[2] == a && Sample(a).regs[3] == 50
    ensures Sample(a).pc == 10 && !Sample(a).halted && |Sample(a).mem| == 64
    ensures Sample(a).vecs[1] == Sample(a).vecs[2] == Lanes(1) && Sample(a).vecs[3] == Lanes(9)
    ensures Sample(a).accs[0] == Sample(a).accs[1] == Lanes(0)
    ensures forall k :: 0 <= k < 64 ==> Sample(a).mem[k] == k
    ensures Legal(Instr(TNOP, 3, 1, 2, 5))
  {
  }

  /** The other value in the first, the second or the updated operand shows in the outcome. */
  ghost predicate Shows(op: Opcode, k: RegKind, idx: int, first: bool) {
    var s := SampleOf(op);
    var t := With(s, k, idx, OtherValue(op, k, first));
    && Legal(Probe(op)) && Shaped(s) && Shaped(t)
    && !SameEffect(Probe(op), Exec(s, Probe(op)), Exec(t, Probe(op)))
  }

  lemma LogicLowest(op: Opcode, a: int, b: int)
    ensures Digit(Logic3(op, a, b)) == LogicTrit(op, Digit(a), Digit(b))
  {
    hide LogicTrit;
    var z: seq<Trit> := LogicWord(op, Digits(a, 27), Digits(b, 27));
    LowestTrit(a, 27);
    LowestTrit(b, 27);
    hide Digits, Digit;
    assert Value(z) == z[0] + 3 * Value(z[1..]);
    LowestDigit(z[0], Value(z[1..]));
  }

  lemma LowestTrit(v: int, n: nat)
    requires n > 0
    ensures Digits(v, n)[0] == Digit(v)
  {
  }

  lemma LowestDigit(t: Trit, rest: int)
    ensures Digit(t + 3 * rest) == t
  {
  }

  function SampleValue(op: Opcode): int { if op == TAND3 || op == TXOR3 then 1 else 0 }

  /** The scalar result on the sample, or with another value in one operand. */
  predicate ValuesDiffer(op: Opcode)
    requires IsScalar(op) && !IsPlain(op)
  {
    var a, i := SampleValue(op), Probe(op);
    && (InfoOf(op).src1 == Scalar ==> ScalarValue(i, a, a) != ScalarValue(i, OtherValue(op, Scalar, true), a))
    && (InfoOf(op).src2 == Scalar ==> ScalarValue(i, a, a) != ScalarValue(i, a, OtherValue(op, Scalar, false)))
    && ScalarValue(i, a, a) != 50
  }

  lemma LogicDiffers(op: Opcode)
    requires op == TAND3 || op == TOR3 || op == TXOR3
    ensures ValuesDiffer(op)
  {
    hide Logic3;
    var a, b, c := SampleValue(op), OtherValue(op, Scalar, true), OtherValue(op, Scalar, false);
    LogicLowest(op, a, a);
    LogicLowest(op, b, a);
    LogicLowest(op, a, c);
  }

  lemma ArithmeticDiffers(op: Opcode)
    requires IsScalar(op) && !IsPlain(op) && op != TAND3 && op != TOR3 && op != TXOR3
    ensures ValuesDiffer(op)
  {
    hide Logic3;
    assert Wrap27(0) == 0 && Wrap27(1) == 1 && Wrap27(-1) == -1;
  }

  /** A scalar result that differs shows. */
  lemma ScalarShows(op: Opcode, s: State, t: State)
    requires IsScalar(op) && !IsPlain(op) && Shaped(s) && Shaped(t) && Legal(Probe(op))
    requires ScalarValue(Probe(op), s.regs[1], s.regs[2]) != ScalarValue(Probe(op), t.regs[1], t.regs[2])
    ensures !SameEffect(Probe(op), Exec(s, Probe(op)), Exec(t, Probe(op)))
  {
    hide ScalarValue;
    assert DeclaredWrite(Probe(op), Scalar, 3);
    assert Holds(Exec(s, Probe(op)).s, Scalar, 3) != Holds(Exec(t, Probe(op)).s, Scalar, 3);
  }

  lemma SampleShaped(op: Opcode, k: RegKind, idx: int, v: int)
    ensures var s := SampleOf(op); Shaped(s) && Shaped(With(s, k, idx, v)) && Legal(Probe(op))
    ensures SampleOf(op).regs[1] == SampleOf(op).regs[2] == SampleValue(op)
  {
    SampleParts(SampleValue(op));
    hide Sample;
  }

  lemma ScalarNeeds(op: Opcode)
    requires IsScalar(op) && !IsPlain(op)
    ensures InfoOf(op).src1 != NoReg ==> Shows(op, InfoOf(op).src1, 1, true)
    ensures InfoOf(op).src2 != NoReg ==> Shows(op, InfoOf(op).src2, 2, false)
  {
    hide Exec, Shows, ValuesDiffer, ScalarValue;
    if op == TAND3 || op == TOR3 || op == TXOR3 { LogicDiffers(op); } else { ArithmeticDiffers(op); }
    if InfoOf(op).src1 == Scalar { ScalarNeeds1(op); }
    if InfoOf(op).src2 == Scalar { ScalarNeeds2(op); }
  }

  lemma ScalarNeeds1(op: Opcode)
    requires IsScalar(op) && !IsPlain(op) && ValuesDiffer(op) && InfoOf(op).src1 == Scalar
    ensures Shows(op, Scalar, 1, true)
  {
    hide Exec, ScalarValue, SampleOf, SameEffect, OtherValue, InfoOf, Probe, IsScalar, SampleValue;
    var v := OtherValue(op, Scalar, true);
    SampleShaped(op, Scalar, 1, v);
    ScalarShows(op, SampleOf(op), With(SampleOf(op), Scalar, 1, v));
  }

  lemma ScalarNeeds2(op: Opcode)
    requires IsScalar(op) && !IsPlain(op) && ValuesDiffer(op) && InfoOf(op).src2 == Scalar
    ensures Shows(op, Scalar, 2, false)
  {
    hide Exec, ScalarValue, SampleOf, SameEffect, OtherValue, InfoOf, Probe, IsScalar, SampleValue;
    var v := OtherValue(op, Scalar, false);
    SampleShaped(op, Scalar, 2, v);
    ScalarShows(op, SampleOf(op), With(SampleOf(op), Scalar, 2, v));
  }

  lemma BranchPc(op: Opcode, s: State)
    requires (op == TBEQ || op == TBNE || op == TBLT) && Shaped(s) && Legal(Probe(op))
    ensures Exec(s, Probe(op)).s.pc == if Taken(s, Probe(op)) then 5 else s.pc
  {
    hide Wrap27;
  }

  lemma BranchNeeds(op: Opcode)
    requires op == TBEQ || op == TBNE || op == TBLT
    ensures Shows(op, Scalar, 1, true) && Shows(op, Scalar, 2, false)
  {
    hide Sample, Exec;
    SampleParts(0);
    assert Wrap27(0) == 0 && Wrap27(-1) == -1;
    var s := SampleOf(op);
    BranchPc(op, s);
    BranchPc(op, With(s, Scalar, 1, OtherValue(op, Scalar, true)));
    BranchPc(op, With(s, Scalar, 2, OtherValue(op, Scalar, false)));
  }

  lemma LoadResult(s: State, a: int)
    requires Shaped(s) && s.regs[1] == a && RunInMem(s.mem, a) && Legal(Probe(TLOAD)) && Legal(Probe(TVLOAD))
    ensures Exec(s, Probe(TLOAD)).fault.None? && Holds(Exec(s, Probe(TLOAD)).s, Scalar, 3) == [s.mem[a]]
    ensures Exec(s, Probe(TVLOAD)).fault.None? && Holds(Exec(s, Probe(TVLOAD)).s, Vector, 3) == VLoad(s.mem, a)
  {
    hide VLoad;
  }

  lemma LoadNeeds()
    ensures Shows(TLOAD, Scalar, 1, true)
  {
    hide Sample, Exec, VLoad;
    SampleParts(0);
    var s := SampleOf(TLOAD);
    LoadResult(s, 0);
    LoadResult(With(s, Scalar, 1, 1), 1);
    assert DeclaredWrite(Probe(TLOAD), Scalar, 3);
  }

  lemma FirstLane(mem: seq<int>, base: int)
    requires RunInMem(mem, base) && 0 <= mem[base] <= 1
    ensures VLoad(mem, base)[0] == mem[base]
  {
    assert VLoad(mem, base)[0] == LoadLane(mem[base + 0]);
  }

  lemma VectorLoadNeeds()
    ensures Shows(TVLOAD, Scalar, 1, true)
  {
    hide Sample, Exec;
    SampleParts(0);
    var s := SampleOf(TVLOAD);
    FirstLane(s.mem, 0);
    FirstLane(s.mem, 1);
    hide VLoad;
    LoadResult(s, 0);
    LoadResult(With(s, Scalar, 1, 1), 1);
    assert DeclaredWrite(Probe(TVLOAD), Vector, 3);
  }

  lemma StoreNeeds()
    ensures Shows(TSTORE, Scalar, 1, true) && Shows(TSTORE, Scalar, 2, false)
  {
    hide Sample;
    SampleParts(0);
    var i, s := Probe(TSTORE), SampleOf(TSTORE);
    assert Exec(s, i).s.mem[0] != Exec(With(s, Scalar, 1, 1), i).s.mem[0];
    assert Exec(s, i).s.mem[1] != Exec(With(s, Scalar, 2, 1), i).s.mem[1];
  }

  lemma VectorStoreNeeds()
    ensures Shows(TVSTORE, Vector, 1, true) && Shows(TVSTORE, Scalar, 2, false)
  {
    hide Sample, VStoreFrom;
    SampleParts(0);
    var i, s := Probe(TVSTORE), SampleOf(TVSTORE);
    VStoreCell(s.mem, 0, Lanes(1), 0, 5);
    VStoreCell(s.mem, 0, Lanes(2), 0, 5);
    VStoreCell(s.mem, 0, Lanes(1), 0, 27);
    VStoreCell(s.mem, 1, Lanes(1), 0, 27);
    assert Exec(s, i).s.mem[5] != Exec(With(s, Vector, 1, 2), i).s.mem[5];
    assert Exec(s, i).s.mem[27] != Exec(With(s, Scalar, 2, 1), i).s.mem[27];
  }

  /** Lane 0 of a vector result on operands of equal lanes. */
  function LaneOf(op: Opcode, a: int, b: int): int {
    match op
    case TVADD => a + b
    case TVSUB => a - b
    case TVMUL => a * b
    case TVNEG => -a
    case TVBROADCAST => 5
    case _ => a
  }

  lemma LaneSums(a: int, b: int)
    requires 1 <= a <= 2 && 1 <= b <= 2
    ensures VAdd(Lanes(a), Lanes(b))[0] == a + b && VSub(Lanes(a), Lanes(b))[0] == a - b
    ensures VNeg(Lanes(a))[0] == -a
    ensures VMax(Lanes(a))[0] == a && VShuf(Lanes(a), 5)[0] == a
  {
    hide VMul;
    var x, y := Lanes(a), Lanes(b);
    assert VAdd(x, y)[0] == ClampInt32(x[0] + y[0]) && VSub(x, y)[0] == ClampInt32(x[0] - y[0]);
    assert VNeg(x)[0] == ClampInt32(-x[0]) && VShuf(x, 5)[0] == ClampLane(x[(0 + 5 % 27) % 27]);
  }

  lemma BroadcastLane(v: int)
    requires -9841 <= v <= 9841
    ensures VBroadcast(v)[0] == v
  {
    assert VBroadcast(v)[0] == ClampLane(v);
  }

  lemma LaneProduct(a: int, b: int)
    requires 1 <= a <= 2 && 1 <= b <= 2
    ensures VMul(Lanes(a), Lanes(b))[0] == a * b
  {
    var x, y := Lanes(a), Lanes(b);
    assert x[0] == a && y[0] == b && VMul(x, y)[0] == ClampInt32(x[0] * y[0]);
    SmallProduct(a, b);
  }

  lemma SmallProduct(a: int, b: int)
    requires 1 <= a <= 2 && 1 <= b <= 2
    ensures 1 <= a * b <= 4
  {
    if b == 1 { assert a * b == a; } else { assert a * b == 2 * a; }
  }

  lemma LaneResult(op: Opcode, s: State, a: int, b: int)
    requires IsVector(op) && op != TVMAC && op != TVSUM && Shaped(s) && Legal(Probe(op))
    requires s.vecs[1] == Lanes(a) && s.vecs[2] == Lanes(b) && 1 <= a <= 2 && 1 <= b <= 2
    ensures Exec(s, Probe(op)).fault.None? && |Holds(Exec(s, Probe(op)).s, Vector, 3)| == 27
    ensures Holds(Exec(s, Probe(op)).s, Vector, 3)[0] == LaneOf(op, a, b)
  {
    hide VAdd, VSub, VMul, VNeg, VMax, VShuf, VBroadcast, Lanes, LaneOf;
    VectorLane(op, s);
    LaneOfIs(op, a, b);
  }

  /** Lane 0 of the result, by instruction. */
  function LaneFrom(op: Opcode, x: Vec, y: Vec): int {
    match op
    case TVADD => VAdd(x, y)[0]
    case TVSUB => VSub(x, y)[0]
    case TVMUL => VMul(x, y)[0]
    case TVNEG => VNeg(x)[0]
    case TVMAX => VMax(x)[0]
    case TVSHUF => VShuf(x, 5)[0]
    case _ => VBroadcast(5)[0]
  }

  lemma VectorLane(op: Opcode, s: State)
    requires IsVector(op) && op != TVMAC && op != TVSUM && Shaped(s) && Legal(Probe(op))
    ensures Exec(s, Probe(op)).fault.None? && |Holds(Exec(s, Probe(op)).s, Vector, 3)| == 27
    ensures Holds(Exec(s, Probe(op)).s, Vector, 3)[0] == LaneFrom(op, s.vecs[1], s.vecs[2])
  {
    hide Exec, VAdd, VSub, VMul, VNeg, VMax, VShuf, VBroadcast;
    ExecOfVector(s, Probe(op));
    assert VectorRegsOk(Probe(op));
  }

  lemma ExecOfVector(s: State, i: Instr)
    requires Shaped(s) && Legal(i) && IsVector(i.op)
    ensures Exec(s, i) == ExecVector(Bump(s, i.op), i)
  {
    hide ExecVector, ExecScalar, ExecMemory, ExecBranch;
  }

  lemma LaneOfIs(op: Opcode, a: int, b: int)
    requires IsVector(op) && op != TVMAC && op != TVSUM && 1 <= a <= 2 && 1 <= b <= 2
    ensures LaneFrom(op, Lanes(a), Lanes(b)) == LaneOf(op, a, b)
  {
    hide VAdd, VSub, VMul, VNeg, VMax, VShuf, VBroadcast, Lanes;
    LaneSums(a, b);
    LaneProduct(a, b);
    BroadcastLane(5);
  }

  lemma VectorNeeds(op: Opcode)
    requires IsVector(op) && op != TVMAC && op != TVSUM
    ensures InfoOf(op).src1 != NoReg ==> Shows(op, InfoOf(op).src1, 1, true)
    ensures InfoOf(op).src2 != NoReg ==> Shows(op, InfoOf(op).src2, 2, false)
  {
    hide Sample, Exec;
    SampleParts(0);
    var i, s := Probe(op), SampleOf(op);
    LaneResult(op, s, 1, 1);
    LaneResult(op, With(s, Vector, 1, 2), 2, 1);
    LaneResult(op, With(s, Vector, 2, 2), 1, 2);
    assert DeclaredWrite(i, Vector, 3);
  }

  lemma MacResult(s: State, c: int, a: int, b: int)
    requires Shaped(s) && s.accs[0] == Lanes(c) && s.vecs[1] == Lanes(a) && s.vecs[2] == Lanes(b)
    requires Legal(Probe(TVMAC))
    ensures Exec(s, Probe(TVMAC)).fault.None?
    ensures Holds(Exec(s, Probe(TVMAC)).s, Acc, 0)[0] == c + a * b
  {
  }

  lemma MacNeeds()
    ensures Shows(TVMAC, Vector, 1, true) && Shows(TVMAC, Vector, 2, false) && Shows(TVMAC, Acc, 0, false)
  {
    hide Sample, Exec;
    SampleParts(0);
    var i, s := Probe(TVMAC), SampleOf(TVMAC);
    MacResult(s, 0, 1, 1);
    MacResult(With(s, Vector, 1, 2), 0, 2, 1);
    MacResult(With(s, Vector, 2, 2), 0, 1, 2);
    MacResult(With(s, Acc, 0, 1), 1, 1, 1);
    assert DeclaredWrite(i, Acc, 0);
  }

  lemma SumResult(s: State, c: int)
    requires Shaped(s) && s.accs[1] == Lanes(c) && 0 <= c <= 1 && Legal(Probe(TVSUM))
    ensures Exec(s, Probe(TVSUM)).fault.None? && Holds(Exec(s, Probe(TVSUM)).s, Scalar, 3) == [27 * c]
  {
    hide Sums.Sum;
    Accumulators.SumConstant(Lanes(c), c);
  }

  lemma SumNeeds()
    ensures Shows(TVSUM, Acc, 1, true)
  {
    hide Sample, Exec;
    SampleParts(0);
    var i, s := Probe(TVSUM), SampleOf(TVSUM);
    SumResult(s, 0);
    SumResult(With(s, Acc, 1, 1), 1);
    assert DeclaredWrite(i, Scalar, 3);
  }

  /** Every declared source decides something: for some state, another value in it alone shows. */
  lemma SourcesNeeded(op: Opcode)
    ensures InfoOf(op).src1 != NoReg ==> Shows(op, InfoOf(op).src1, 1, true)
    ensures InfoOf(op).src2 != NoReg ==> Shows(op, InfoOf(op).src2, 2, false)
    ensures InfoOf(op).rmw && !IsCall(op) ==> Shows(op, InfoOf(op).dst, Probe(op).dst, false)
  {
    hide Shows;
    match op
    case TBEQ | TBNE | TBLT => BranchNeeds(op);
    case TLOAD => LoadNeeds();
    case TVLOAD => VectorLoadNeeds();
    case TSTORE => StoreNeeds();
    case TVSTORE => VectorStoreNeeds();
    case TVMAC => MacNeeds();
    case TVSUM => SumNeeds();
    case TVADD | TVSUB | TVMUL | TVNEG | TVMAX | TVSHUF => VectorNeeds(op);
    case TVBROADCAST | TNOP | THALT | TDBG | TJUMP | TCALL | TRET =>
    case _ => ScalarNeeds(op);
  }

  /** The sample's outcome holds another value in the destination than before. */
  ghost predicate Changes(op: Opcode) {
    var s, i := SampleOf(op), Probe(op);
    && Legal(i) && Shaped(s) && Exec(s, i).fault.None?
    && Holds(Exec(s, i).s, InfoOf(op).dst, i.dst) != Holds(s, InfoOf(op).dst, i.dst)
  }

  lemma LoadsChange()
    ensures Changes(TLOAD) && Changes(TVLOAD)
  {
    hide Sample, Exec, VLoad;
    SampleParts(0);
    var s := SampleOf(TLOAD);
    LoadResult(s, 0);
    FirstLane(s.mem, 0);
  }

  lemma AccumulatorsChange()
    ensures Changes(TVMAC) && Changes(TVSUM)
  {
    hide Sample, Exec;
    SampleParts(0);
    MacResult(SampleOf(TVMAC), 0, 1, 1);
    SumResult(SampleOf(TVSUM), 0);
  }

  lemma LanesChange(op: Opcode)
    requires IsVector(op) && op != TVMAC && op != TVSUM
    ensures Changes(op)
  {
    hide Sample, Exec;
    SampleParts(0);
    LaneResult(op, SampleOf(op), 1, 1);
  }

  lemma ScalarsChange(op: Opcode)
    requires IsScalar(op) && !IsPlain(op)
    ensures Changes(op)
  {
    hide Sample, Exec, ScalarValue;
    SampleParts(SampleValue(op));
    ScalarResult(op, SampleOf(op));
    if op == TAND3 || op == TOR3 || op == TXOR3 { LogicDiffers(op); } else { ArithmeticDiffers(op); }
  }

  lemma ScalarResult(op: Opcode, s: State)
    requires IsScalar(op) && !IsPlain(op) && Shaped(s) && Legal(Probe(op))
    ensures Exec(s, Probe(op)).fault.None?
    ensures Exec(s, Probe(op)).s.regs[3] == ScalarValue(Probe(op), s.regs[1], s.regs[2])
  {
    hide ScalarValue;
  }

  /** Every declared destination is written: on the sample it changes. */
  lemma DestinationNeeded(op: Opcode)
    requires InfoOf(op).dst != NoReg && !IsCall(op)
    ensures Changes(op)
  {
    hide Changes;
    match op
    case TLOAD | TVLOAD => LoadsChange();
    case TVMAC | TVSUM => AccumulatorsChange();
    case TVADD | TVSUB | TVMUL | TVNEG | TVMAX | TVSHUF | TVBROADCAST => LanesChange(op);
    case _ => ScalarsChange(op);
  }

  // ---- the units ----

  /** The unit an instruction is counted for, and with it which instructions access the data caches
      or the predictor, is the class the machine executes it in. */
  lemma UnitIsClass(op: Opcode)
    ensures (IsMemOp(op) <==> IsMemory(op)) && (IsBranchOp(op) <==> IsBranch(op))
    ensures (Classify(op) == FuVector <==> IsVector(op)) && (Classify(op) == FuControl <==> IsPlain(op))
  {
  }
}
