/** The simulator's classes: packed memory, the register file, the counters and the machine
    that owns them. Every method is proved against the integer machine: the abstract state
    after the call is the integer machine's state, computed from the one before. */
module Simulator {
  import opened Trits
  import opened Words
  import opened Positional
  import opened Packing
  import opened Isa
  import opened Machine
  import opened Vectors

  const ZERO_WORD: Word27 := Zeros(27)

  function ValuesOf(ws: seq<Word27>): (r: seq<int>)
    ensures |r| == |ws|
  {
    seq(|ws|, i requires 0 <= i < |ws| => Value(ws[i]))
  }

  function CellValues(cells: seq<Cell>): (r: seq<int>)
    ensures |r| == |cells|
  {
    seq(|cells|, i requires 0 <= i < |cells| => Value(Unpacked(cells[i])))
  }

  /** The digits of a register or cell value are the trits it is stored in. */
  lemma WordOfValue(w: Word27)
    ensures Digits(Value(w), 27) == w && In27(Value(w))
  {
    ValueDigits(w);
    ValueBound(w);
    Pow3At27();
  }

  class Memory {
    const data: array<Cell>

    constructor (n: nat)
      ensures fresh(data) && Valid() && Values() == seq(n, i => 0)
    {
      data := new Cell[n](i => 0);
      new;
      PackedIsWord(ZERO_WORD);
      ZeroCell();
    }

    /** Only canonical cells are ever stored: no code 3 and nothing above bit 53. */
    ghost predicate Valid()
      reads data
    {
      forall a :: 0 <= a < data.Length ==> Canonical(data[a])
    }

    ghost function Values(): (r: seq<int>)
      reads data
      ensures |r| == data.Length
    {
      CellValues(data[..])
    }

    /** None stands for the out_of_range exception; a negative address casts to one too large. */
    method LoadWord(addr: int) returns (r: Option<Word27>)
      ensures r.Some? <==> InMem(Values(), addr)
      ensures r.Some? ==> Value(r.value) == Values()[addr]
    {
      if addr < 0 || addr >= data.Length { return None; }
      var w := UnpackWord27(data[addr]);
      r := Some(w);
    }

    method StoreWord(addr: int, w: Word27) returns (ok: bool)
      requires Valid()
      modifies data
      ensures Valid()
      ensures ok == InMem(old(Values()), addr)
      ensures Values() == if ok then old(Values())[addr := Value(w)] else old(Values())
    {
      if addr < 0 || addr >= data.Length { return false; }
      data[addr] := PackWord27(w);
      ok := true;
    }

    /** The store loop of TVSTORE: it stops at the first lane whose address is out of bounds,
        and the lanes before it stay written. */
    method StoreLanes(base: int, v: Vec) returns (ok: bool)
      requires Valid() && LanesFit(v)
      modifies data
      ensures Valid() && Values() == VStoreFrom(old(Values()), base, v, 0)
      ensures ok == RunInMem(old(Values()), base)
    {
      hide Value, Unpacked, Canonical;
      for k := 0 to 27
        invariant Valid()
        invariant VStoreFrom(old(Values()), base, v, 0) == VStoreFrom(Values(), base, v, k)
        invariant k > 0 ==> 0 <= base && base + k <= data.Length
      {
        var w := WordOf(v[k]);
        ok := StoreWord(base + k, w);
        if !ok { return; }
      }
      ok := true;
    }
  }

  lemma ZeroCell()
    ensures Canonical(0) && Value(Unpacked(0)) == 0
  {
    assert Join(4, Codes(ZERO_WORD)) == 0 by { PackedZeros(27); }
    PackedIsWord(ZERO_WORD);
    ValueZeros(27);
  }

  lemma {:induction false} PackedZeros(n: nat)
    ensures Join(4, Codes(Zeros(n))) == 0
  {
    if n == 0 {
    } else {
      assert Codes(Zeros(n))[1..] == Codes(Zeros(n - 1));
      PackedZeros(n - 1);
    }
  }

  class RegFile {
    const scalars: array<Word27>
    const vecs: array<Vec>
    const accs: array<Vec>
    var pc: Word27
    var halted: bool

    constructor ()
      ensures Valid() && fresh(scalars) && fresh(vecs) && fresh(accs)
      ensures scalars[..] == seq(27, i => ZERO_WORD) && pc == ZERO_WORD && !halted
      ensures vecs[..] == seq(9, i => ZERO_VEC) && accs[..] == seq(3, i => ZERO_VEC)
    {
      scalars := new Word27[27](i => ZERO_WORD);
      vecs := new Vec[9](i => ZERO_VEC);
      accs := new Vec[3](i => ZERO_VEC);
      pc := ZERO_WORD;
      halted := false;
      new;
      ValueZeros(27);
    }

    ghost predicate Valid()
      reads this, scalars, vecs
    {
      && scalars.Length == 27 && vecs.Length == 9 && accs.Length == 3 && vecs != accs
      && scalars[0] == ZERO_WORD
      && forall i :: 0 <= i < 9 ==> LanesFit(vecs[i])
    }

    ghost function Repr(): set<object> {
      {this, scalars, vecs, accs}
    }

    /** None stands for the out_of_range exception. */
    method ReadScalar(idx: int) returns (w: Option<Word27>)
      requires Valid()
      ensures w == if 0 <= idx < 27 then Some(scalars[idx]) else None
    {
      if idx < 0 || idx >= 27 { return None; }
      if idx == 0 { return Some(ZERO_WORD); }
      w := Some(scalars[idx]);
    }

    /** A write to register 0 is dropped. */
    method WriteScalar(idx: int, v: Word27) returns (ok: bool)
      requires Valid()
      modifies scalars
      ensures Valid() && ok == (0 <= idx < 27)
      ensures scalars[..] == if ok && idx != 0 then old(scalars[..])[idx := v] else old(scalars[..])
    {
      if idx < 0 || idx >= 27 { return false; }
      if idx == 0 { return true; }
      scalars[idx] := v;
      ok := true;
    }

    /** Clears R8..R15 and every vector and accumulator register. */
    method ResetCallerSaved()
      requires Valid()
      modifies scalars, vecs, accs
      ensures Valid()
      ensures vecs[..] == seq(9, i => ZERO_VEC) && accs[..] == seq(3, i => ZERO_VEC)
      ensures forall r :: 0 <= r < 27 ==>
        scalars[r] == if 8 <= r <= 15 then ZERO_WORD else old(scalars[r])
    {
      for i := 8 to 16
        invariant Valid()
        invariant forall r :: 0 <= r < 27 ==>
          scalars[r] == if 8 <= r < i then ZERO_WORD else old(scalars[r])
      {
        scalars[i] := ZERO_WORD;
      }
      ghost var done := scalars[..];
      for i := 0 to 9
        invariant Valid() && scalars[..] == done
        invariant forall r :: 0 <= r < i ==> vecs[r] == ZERO_VEC
      {
        vecs[i] := ZERO_VEC;
      }
      for i := 0 to 3
        invariant Valid() && scalars[..] == done && vecs[..] == seq(9, i => ZERO_VEC)
        invariant forall r :: 0 <= r < i ==> accs[r] == ZERO_VEC
      {
        accs[i] := ZERO_VEC;
      }
    }
  }

  class OpCounters {
    const counts: array<nat>
    var total: nat

    constructor ()
      ensures fresh(counts) && counts[..] == seq(256, i => 0) && total == 0
    {
      counts := new nat[256](i => 0);
      total := 0;
    }

    method BumpN(op: Opcode, n: nat)
      requires counts.Length == 256
      modifies this, counts
      ensures counts[..] == old(counts[..])[OpValue(op) := old(counts[OpValue(op)]) + n]
      ensures total == old(total) + n
    {
      counts[OpValue(op)] := counts[OpValue(op)] + n;
      total := total + n;
    }
  }

  /** A machine with n cells before anything ran. */
  function Blank(n: nat): State {
    State(seq(27, i => 0), 0, false, seq(9, i => ZERO_VEC), seq(3, i => ZERO_VEC), seq(n, i => 0), seq(256, i => 0), 0)
  }

  lemma BlankState(n: nat)
    ensures Blank(n) == State(ValuesOf(seq(27, i => ZERO_WORD)), Value(ZERO_WORD), false, seq(9, i => ZERO_VEC),
                              seq(3, i => ZERO_VEC), seq(n, i => 0), seq(256, i => 0), 0)
  {
    hide Value;
    ValueZeros(27);
    var zeros := seq(27, i => ZERO_WORD);
    assert forall i :: 0 <= i < 27 ==> zeros[i] == ZERO_WORD;
    assert ValuesOf(zeros) == seq(27, i => 0);
  }

  class Sim {
    const mem: Memory
    const regs: RegFile
    const counters: OpCounters

    constructor (n: nat)
      ensures Valid() && fresh(Repr())
      ensures Abs() == Blank(n)
    {
      mem := new Memory(n);
      regs := new RegFile();
      counters := new OpCounters();
      new;
      hide Value, CellValues, LanesFit, ValuesOf, Memory.Values, Memory.Valid, Blank;
      BlankState(n);
    }

    ghost function Repr(): set<object> {
      {mem, mem.data, counters, counters.counts} + regs.Repr()
    }

    ghost predicate Valid()
      reads Repr()
    {
      && mem.Valid() && regs.Valid() && counters.counts.Length == 256
      && (mem.data as object) != counters.counts
      && (regs.scalars as object) != regs.vecs && (regs.scalars as object) != regs.accs
    }

    /** The integer machine's view of the simulator. */
    ghost function Abs(): (s: State)
      requires Valid()
      reads Repr()
      ensures Shaped(s)
    {
      State(ValuesOf(regs.scalars[..]), Value(regs.pc), regs.halted, regs.vecs[..], regs.accs[..],
            mem.Values(), counters.counts[..], counters.total)
    }

    // ---- register access, seen from the integer machine ----

    method ReadReg(idx: int) returns (w: Word27)
      requires Valid() && 0 <= idx < 27
      ensures Value(w) == Abs().regs[idx] && w == Digits(Abs().regs[idx], 27)
    {
      var r := regs.ReadScalar(idx);
      w := r.value;
      WordOfValue(w);
    }

    method WriteReg(idx: int, w: Word27)
      requires Valid() && 0 <= idx < 27
      modifies regs.scalars
      ensures Valid() && Abs() == SetReg(old(Abs()), idx, Value(w))
    {
      var ok := regs.WriteScalar(idx, w);
    }

    method SetPc(v: int)
      requires Valid() && In27(v)
      modifies regs
      ensures Valid() && Abs() == old(Abs()).(pc := v)
    {
      var w := WordOf(v);
      SetPcWord(w);
    }

    method SetPcWord(w: Word27)
      requires Valid()
      modifies regs
      ensures Valid() && Abs() == old(Abs()).(pc := Value(w))
    {
      regs.pc := w;
    }

    // ---- one instruction ----

    /** Trit-by-trit logic: the three loops of TAND3, TOR3 and TXOR3. */
    method Logic(op: Opcode, a: Word27, b: Word27) returns (r: Word27)
      requires op == TAND3 || op == TOR3 || op == TXOR3
      ensures Value(r) == Logic3(op, Value(a), Value(b))
    {
      r := ZERO_WORD;
      WordOfValue(a);
      WordOfValue(b);
      for k := 0 to 27
        invariant forall j :: 0 <= j < k ==> r[j] == LogicTrit(op, a[j], b[j])
      {
        var t: Trit;
        match op {
          case TAND3 => t := TritMin(a[k], b[k]);
          case TOR3 => t := TritMax(a[k], b[k]);
          case TXOR3 => if a[k] == b[k] { t := 0; } else { t := -a[k]; }
        }
        r := r[k := t];
      }
      assert r == LogicWord(op, a, b);
    }

    method ScalarWord(i: Instr, a: Word27, b: Word27) returns (w: Word27)
      requires Legal(i) && IsScalar(i.op) && !IsPlain(i.op)
      ensures Value(w) == ScalarValue(i, Value(a), Value(b))
    {
      hide Wrap27, Logic3, Digits, Value, Half;
      match i.op {
        case TLOADI =>
          w := WordOf(i.imm);
        case TADD =>
          w := Add27(a, b);
        case TSUB =>
          w := Sub27(a, b);
        case TNEG =>
          w := Neg(a);
        case TABS =>
          var sign := SignTrit(a);
          w := a;
          if sign == -1 { w := Neg(a); }
        case TSIGN =>
          var sign := SignTrit(a);
          w := SignWord(sign);
        case TCMP =>
          var d := Sub27(a, b);
          var sign := SignTrit(d);
          w := SignWord(sign);
        case TAND3 | TOR3 | TXOR3 =>
          w := Logic(i.op, a, b);
      }
    }

    method RunScalar(i: Instr)
      requires Valid() && Legal(i) && IsScalar(i.op)
      modifies Repr()
      ensures Valid() && Abs() == ExecScalar(old(Abs()), i)
    {
      hide ScalarValue;
      if i.op == THALT {
        regs.halted := true;
      } else if !IsPlain(i.op) {
        var a := ReadReg(i.src1);
        var b := ReadReg(i.src2);
        var w := ScalarWord(i, a, b);
        WriteReg(i.dst, w);
      }
    }

    method TakenTest(i: Instr) returns (taken: bool)
      requires Valid() && Legal(i)
      ensures taken == Taken(Abs(), i)
    {
      hide Wrap27, Digits, Value;
      var a := ReadReg(i.src1);
      var b := ReadReg(i.src2);
      match i.op {
        case TJUMP => taken := true;
        case TBEQ => taken := a == b;
        case TBNE => taken := a != b;
        case TBLT =>
          var d := Sub27(a, b);
          var sign := SignTrit(d);
          taken := sign == -1;
        case _ => taken := false;
      }
    }

    method RunCall(i: Instr) returns (fault: Option<Fault>)
      requires Valid() && Legal(i) && i.op == TCALL
      modifies Repr()
      ensures Valid() && Outcome(Abs(), fault) == ExecBranch(old(Abs()), i)
    {
      hide Value, Digits, Taken, Unpacked, Canonical;
      var spw := ReadReg(26);
      var sp := ToInt(spw);
      var ok := mem.StoreWord(sp, regs.pc);
      if !ok { return Some(OutOfBounds); }
      if sp + 1 > MAX27 { return Some(AssertionFailed); }
      WordFits(spw);
      var w := WordOf(sp + 1);
      WriteReg(26, w);
      SetPc(i.imm);
      fault := None;
    }

    method RunReturn(i: Instr) returns (fault: Option<Fault>)
      requires Valid() && Legal(i) && i.op == TRET
      modifies Repr()
      ensures Valid() && Outcome(Abs(), fault) == ExecBranch(old(Abs()), i)
    {
      hide Value, Digits, Taken, Memory.Valid, Memory.Values, RegFile.Valid, Valid, ValuesOf;
      var spw := ReadReg(26);
      var sp := ToInt(spw);
      sp := sp - 1;
      if sp < -MAX27 { return Some(AssertionFailed); }
      WordFits(spw);
      var w := WordOf(sp);
      WriteReg(26, w);
      var target := mem.LoadWord(sp);
      if target == None { return Some(OutOfBounds); }
      SetPcWord(target.value);
      fault := None;
    }

    method RunBranch(i: Instr) returns (fault: Option<Fault>)
      requires Valid() && Legal(i) && IsBranch(i.op)
      modifies Repr()
      ensures Valid() && Outcome(Abs(), fault) == ExecBranch(old(Abs()), i)
    {
      hide Taken;
      if i.op == TCALL {
        fault := RunCall(i);
      } else if i.op == TRET {
        fault := RunReturn(i);
      } else {
        var taken := TakenTest(i);
        if taken { SetPc(i.imm); }
        fault := None;
      }
    }

    method SetVecReg(d: nat, v: Vec)
      requires Valid() && d < 9 && LanesFit(v)
      modifies regs.vecs
      ensures Valid() && Abs() == SetVec(old(Abs()), d, v)
    {
      regs.vecs[d] := v;
    }

    /** The result of a vector instruction that writes a vector register. */
    method VectorResult(i: Instr) returns (r: Vec)
      requires Valid() && Legal(i) && IsVector(i.op) && VectorRegsOk(i)
      requires i.op != TVMAC && i.op != TVSUM
      ensures LanesFit(r) && ExecVector(Abs(), i) == Ok(SetVec(Abs(), i.dst, r))
    {
      match i.op {
        case TVADD => r := VecAdd(regs.vecs[i.src1], regs.vecs[i.src2]);
        case TVSUB => r := VecSub(regs.vecs[i.src1], regs.vecs[i.src2]);
        case TVMUL => r := VecMul(regs.vecs[i.src1], regs.vecs[i.src2]);
        case TVNEG => r := VecNeg(regs.vecs[i.src1]);
        case TVMAX =>
          VMaxFits(regs.vecs[i.src1]);
          r := VecMax(regs.vecs[i.src1]);
        case TVSHUF => r := VecShuf(regs.vecs[i.src1], i.imm);
        case TVBROADCAST => r := VecBroadcast(i.imm);
      }
    }

    method RunVector(i: Instr) returns (fault: Option<Fault>)
      requires Valid() && Legal(i) && IsVector(i.op)
      modifies Repr()
      ensures Valid() && Outcome(Abs(), fault) == ExecVector(old(Abs()), i)
    {
      hide VAdd, VSub, VMul, VNeg, VMax, VShuf, VBroadcast;
      if !VectorRegsOk(i) { return Some(BadRegister); }
      if i.op == TVMAC {
        regs.accs[i.dst] := VecMac(regs.accs[i.dst], regs.vecs[i.src1], regs.vecs[i.src2]);
      } else if i.op == TVSUM {
        var t := VecSum(regs.accs[i.src1]);
        if t < -MAX27 || t > MAX27 { return Some(AssertionFailed); }
        var w := WordOf(t);
        WriteReg(i.dst, w);
      } else {
        var r := VectorResult(i);
        SetVecReg(i.dst, r);
      }
      fault := None;
    }

    method RunLoad(i: Instr) returns (fault: Option<Fault>)
      requires Valid() && Legal(i) && i.op == TLOAD
      modifies Repr()
      ensures Valid() && Outcome(Abs(), fault) == ExecMemory(old(Abs()), i)
    {
      hide Value, Digits, Unpacked, Canonical;
      var aw := ReadReg(i.src1);
      var addr := ToInt(aw);
      var w := mem.LoadWord(addr);
      if w == None { return Some(OutOfBounds); }
      WriteReg(i.dst, w.value);
      fault := None;
    }

    method RunStore(i: Instr) returns (fault: Option<Fault>)
      requires Valid() && Legal(i) && i.op == TSTORE
      modifies Repr()
      ensures Valid() && Outcome(Abs(), fault) == ExecMemory(old(Abs()), i)
    {
      hide Value, Digits, Unpacked, Canonical;
      var aw := ReadReg(i.src2);
      var addr := ToInt(aw);
      var val := ReadReg(i.src1);
      var ok := mem.StoreWord(addr, val);
      fault := if ok then None else Some(OutOfBounds);
    }

    method RunVectorLoad(i: Instr) returns (fault: Option<Fault>)
      requires Valid() && Legal(i) && i.op == TVLOAD
      modifies Repr()
      ensures Valid() && Outcome(Abs(), fault) == ExecMemory(old(Abs()), i)
    {
      hide Value, Digits, LoadLane, WrapInt32, Memory.Valid, Memory.Values, ValuesOf;
      var bw := ReadReg(i.src1);
      var base := ToInt(bw);
      var r := ZERO_VEC;
      for k := 0 to 27
        invariant Valid() && Abs() == old(Abs())
        invariant k > 0 ==> InMem(mem.Values(), base) && InMem(mem.Values(), base + k - 1)
        invariant forall j :: 0 <= j < k ==> r[j] == LoadLane(mem.Values()[base + j])
      {
        var w := mem.LoadWord(base + k);
        if w == None { return Some(OutOfBounds); }
        var v := ToInt(w.value);
        LoadLaneClamps(v);
        r := SetLane(r, k, WrapInt32(v));
      }
      assert r == VLoad(mem.Values(), base);
      if i.dst >= 9 { return Some(BadRegister); }
      SetVecReg(i.dst, r);
      fault := None;
    }

    method RunVectorStore(i: Instr) returns (fault: Option<Fault>)
      requires Valid() && Legal(i) && i.op == TVSTORE
      modifies Repr()
      ensures Valid() && Outcome(Abs(), fault) == ExecMemory(old(Abs()), i)
    {
      hide VStoreFrom;
      var bw := ReadReg(i.src2);
      var base := ToInt(bw);
      if i.src1 >= 9 { return Some(BadRegister); }
      var ok := mem.StoreLanes(base, regs.vecs[i.src1]);
      fault := if ok then None else Some(OutOfBounds);
    }

    method RunMemory(i: Instr) returns (fault: Option<Fault>)
      requires Valid() && Legal(i) && IsMemory(i.op)
      modifies Repr()
      ensures Valid() && Outcome(Abs(), fault) == ExecMemory(old(Abs()), i)
    {
      hide ExecMemory;
      if i.op == TLOAD { fault := RunLoad(i); }
      else if i.op == TSTORE { fault := RunStore(i); }
      else if i.op == TVLOAD { fault := RunVectorLoad(i); }
      else { fault := RunVectorStore(i); }
    }

    /** Sim::run_one */
    method RunOne(i: Instr) returns (fault: Option<Fault>)
      requires Valid() && Legal(i)
      modifies Repr()
      ensures Valid() && Outcome(Abs(), fault) == Exec(old(Abs()), i)
    {
      hide ExecScalar, ExecBranch, ExecVector, ExecMemory;
      counters.BumpN(i.op, 1);
      assert Abs() == Bump(old(Abs()), i.op);
      fault := None;
      if IsBranch(i.op) { fault := RunBranch(i); }
      else if IsVector(i.op) { fault := RunVector(i); }
      else if IsMemory(i.op) { fault := RunMemory(i); }
      else { RunScalar(i); }
    }

    /** Sim::step: fetch, advance the program counter, decode, execute. */
    method Step() returns (fault: Option<Fault>)
      requires Valid()
      modifies Repr()
      ensures Valid() && Outcome(Abs(), fault) == Machine.Step(old(Abs()))
    {
      hide Exec;
      if regs.halted { return None; }
      var pc := ToInt(regs.pc);
      var raw := mem.LoadWord(pc);
      if raw == None { return Some(OutOfBounds); }
      if pc + 1 > MAX27 { return Some(AssertionFailed); }
      WordFits(regs.pc);
      WordOfValue(raw.value);
      SetPc(pc + 1);
      var i := Decode(raw.value);
      if i == None { return Some(IllegalOpcode); }
      DecodeRoundTrip(raw.value);
      fault := RunOne(i.value);
    }

    /** Sim::run */
    method Run() returns (fault: Option<Fault>)
      requires Valid()
      modifies Repr()
      ensures Valid() && Outcome(Abs(), fault) == RunToHalt(old(Abs()))
    {
      hide Machine.Step;
      ghost var s0 := Abs();
      var n := 0;
      while n < SAFETY_LIMIT && !regs.halted
        invariant Valid() && 0 <= n <= SAFETY_LIMIT
        invariant Machine.Run(s0, SAFETY_LIMIT) == Machine.Run(Abs(), SAFETY_LIMIT - n)
        decreases SAFETY_LIMIT - n
      {
        fault := Step();
        if fault.Some? { return; }
        n := n + 1;
      }
      fault := if regs.halted then None else Some(SafetyLimit);
    }
  }

  lemma WordFits(w: Word27)
    ensures In27(Value(w))
  {
    ValueBound(w);
    Pow3At27();
  }

  lemma LoadLaneClamps(v: int)
    ensures LoadLane(v) == ClampLane(WrapInt32(v))
  {
  }

  lemma VMaxFits(a: Vec)
    requires LanesFit(a)
    ensures LanesFit(VMax(a))
  {
    forall k | 0 <= k < 27 ensures InInt32(MaxScan(a, k)) {
      MaxScanFits(a, k);
    }
  }

  // ---- 27-trit instances of the word operations ----

  method Add27(a: Word27, b: Word27) returns (w: Word27)
    ensures Value(w) == Wrap27(Value(a) + Value(b))
  {
    w := Add(a, b);
    Wrap27IsWrap(Value(a) + Value(b));
  }

  method Sub27(a: Word27, b: Word27) returns (w: Word27)
    ensures Value(w) == Wrap27(Value(a) - Value(b))
  {
    w := Sub(a, b);
    Wrap27IsWrap(Value(a) - Value(b));
  }

  method WordOf(v: int) returns (w: Word27)
    requires In27(v)
    ensures Value(w) == v
  {
    Pow3At27();
    w := FromInt(v, 27);
  }

  /** A word whose only nonzero trit is the lowest. */
  method SignWord(t: Trit) returns (w: Word27)
    ensures Value(w) == t
  {
    w := ZERO_WORD[0 := t];
    assert w[1..] == Zeros(26);
    ValueZeros(26);
  }
}
