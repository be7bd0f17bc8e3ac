/** Laws between instructions: what one does another undoes, reads back or complements. */
module InstructionLaws {
  import opened Sums
  import opened Trits
  import opened Isa
  import opened Machine
  import Words

  // ---- scalar arithmetic and logic ----

  /** Subtracting what was added gives the first operand back, with or without wrap-around. */
  lemma SubtractUndoesAdd(s: State, add: Instr, sub: Instr)
    requires WellFormed(s) && Legal(add) && Legal(sub) && add.op == TADD && sub.op == TSUB
    requires add.dst != 0 && sub.dst != 0 && add.dst != add.src2 && sub.src1 == add.dst && sub.src2 == add.src2
    ensures Exec(Exec(s, add).s, sub).s.regs[sub.dst] == s.regs[add.src1]
  {
    hide Exec, ScalarValue;
    ScalarEffect(s, add);
    ScalarEffect(Exec(s, add).s, sub);
    SumThenDifference(add, sub, s.regs[add.src1], s.regs[add.src2]);
  }

  lemma ScalarEffect(s: State, i: Instr)
    requires Shaped(s) && Legal(i) && IsScalar(i.op) && !IsPlain(i.op)
    ensures Exec(s, i) == Ok(SetReg(Bump(s, i.op), i.dst, ScalarValue(i, s.regs[i.src1], s.regs[i.src2])))
  {
    hide ScalarValue;
  }

  lemma SumThenDifference(add: Instr, sub: Instr, a: int, b: int)
    requires add.op == TADD && sub.op == TSUB && In27(a)
    ensures ScalarValue(sub, ScalarValue(add, a, b), b) == a
  {
    WrapDifference(a, b);
    hide Wrap27;
  }

  lemma WrapDifference(a: int, b: int)
    requires In27(a)
    ensures Wrap27(Wrap27(a + b) - b) == a
  {
  }

  /** The sign times the magnitude is the value, and the magnitude is not negative. */
  lemma SignTimesMagnitude(s: State, magnitude: Instr, sign: Instr)
    requires WellFormed(s) && Legal(magnitude) && Legal(sign) && magnitude.op == TABS && sign.op == TSIGN
    requires magnitude.dst != 0 && sign.dst != 0 && magnitude.src1 == sign.src1
    ensures var m, g := Exec(s, magnitude).s.regs[magnitude.dst], Exec(s, sign).s.regs[sign.dst];
      m >= 0 && -1 <= g <= 1 && g * m == s.regs[sign.src1]
  {
    hide Exec, ScalarValue;
    ScalarEffect(s, magnitude);
    ScalarEffect(s, sign);
    var a := s.regs[sign.src1];
    MagnitudeAndSign(magnitude, sign, a, s.regs[magnitude.src2], s.regs[sign.src2]);
  }

  lemma MagnitudeAndSign(magnitude: Instr, sign: Instr, a: int, b: int, c: int)
    requires magnitude.op == TABS && sign.op == TSIGN
    ensures var m, g := ScalarValue(magnitude, a, b), ScalarValue(sign, a, c);
      m >= 0 && -1 <= g <= 1 && g * m == a
  {
  }

  lemma NegateTwice(s: State, first: Instr, second: Instr)
    requires WellFormed(s) && Legal(first) && Legal(second) && first.op == second.op == TNEG
    requires first.dst != 0 && second.dst != 0 && second.src1 == first.dst
    ensures Exec(s, first).s.regs[first.dst] + s.regs[first.src1] == 0
    ensures Exec(Exec(s, first).s, second).s.regs[second.dst] == s.regs[first.src1]
  {
    hide Exec, Logic3;
    ScalarEffect(s, first);
    ScalarEffect(Exec(s, first).s, second);
  }

  /** The trits of a negated word. */
  lemma NegatedTrits(v: int, k: nat)
    requires In27(v) && k < 27
    ensures Digits(-v, 27)[k] == -Digits(v, 27)[k]
  {
    hide Digits, Value, Pow3, Half;
    var w := Digits(v, 27);
    Pow3At27();
    DigitsValue(v, 27);
    Words.ValueScale(-1, w);
    ValueDigits(Words.Scale(-1, w));
  }

  /** Minimum and maximum change places under negation. */
  lemma DeMorgan(a: int, b: int)
    requires In27(a) && In27(b)
    ensures Logic3(TAND3, -a, -b) == -Logic3(TOR3, a, b)
  {
    hide Digits, Value;
    var x, y := Digits(a, 27), Digits(b, 27);
    var low, high := LogicWord(TAND3, Digits(-a, 27), Digits(-b, 27)), LogicWord(TOR3, x, y);
    forall k | 0 <= k < 27 ensures low[k] == -high[k] {
      NegatedTrits(a, k);
      NegatedTrits(b, k);
    }
    Words.ValueScale(-1, high);
    assert low == Words.Scale(-1, high);
  }

  /** A word with itself, and with zero. */
  lemma LogicOfEqual(a: int)
    requires In27(a)
    ensures Logic3(TAND3, a, a) == a == Logic3(TOR3, a, a) && Logic3(TXOR3, a, a) == 0
    ensures Logic3(TXOR3, a, 0) == -a && Logic3(TXOR3, 0, a) == 0
  {
    hide Digits, Value, Pow3, Half, LogicWord, Zeros;
    var x, zero := Digits(a, 27), Zeros(27);
    Words.DigitsOfZero(27);
    Pow3At27();
    DigitsValue(a, 27);
    ValueZeros(27);
    Words.ValueScale(-1, x);
    LogicWithItself(x);
    LogicWithZeros(x);
  }

  lemma LogicWithItself(x: seq<Trit>)
    ensures LogicWord(TAND3, x, x) == x == LogicWord(TOR3, x, x) && LogicWord(TXOR3, x, x) == Zeros(|x|)
  {
  }

  lemma LogicWithZeros(x: seq<Trit>)
    ensures LogicWord(TXOR3, x, Zeros(|x|)) == Words.Scale(-1, x) && LogicWord(TXOR3, Zeros(|x|), x) == Zeros(|x|)
  {
  }

  // ---- branches ----

  /** Of TBEQ and TBNE on the same registers exactly one jumps; TBEQ on one register always does, and
      TJUMP always does. Nothing but the program counter and the counters changes. */
  lemma BranchesComplement(s: State, eq: Instr, ne: Instr)
    requires Shaped(s) && Legal(eq) && Legal(ne) && eq.op == TBEQ && ne.op == TBNE
    requires eq.src1 == ne.src1 && eq.src2 == ne.src2 && eq.imm == ne.imm != s.pc
    ensures Exec(s, eq).s.pc == eq.imm <==> Exec(s, ne).s.pc == s.pc
    ensures Exec(s, ne).s.pc == ne.imm <==> Exec(s, eq).s.pc == s.pc
    ensures s.regs[eq.src1] == s.regs[eq.src2] ==> Exec(s, eq).s.pc == eq.imm
  {
    hide Wrap27;
  }

  /** An instruction that is no branch falls through to the next cell. */
  lemma FallThrough(s: State, i: Instr)
    requires Shaped(s) && !s.halted && InMem(s.mem, s.pc) && In27(s.pc + 1)
    requires DecodeInt(s.mem[s.pc]) == Some(i) && Legal(i) && !IsBranch(i.op)
    ensures Step(s).s.pc == s.pc + 1
  {
    hide ExecVector, ExecMemory, DecodeInt, Legal;
    var b := Bump(s.(pc := s.pc + 1), i.op);
    StepIs(s, i);
    if IsVector(i.op) { VectorKeepsPc(b, i); }
    else if IsMemory(i.op) { MemoryKeepsPc(b, i); }
  }

  lemma VectorKeepsPc(s: State, i: Instr)
    requires Shaped(s) && Legal(i) && IsVector(i.op)
    ensures ExecVector(s, i).s.pc == s.pc
  {
    hide VAdd, VSub, VMul, VNeg, VMax, VShuf, VBroadcast, VMac, Sum;
  }

  lemma MemoryKeepsPc(s: State, i: Instr)
    requires Shaped(s) && Legal(i) && IsMemory(i.op)
    ensures ExecMemory(s, i).s.pc == s.pc
  {
    hide VLoad, VStoreFrom;
  }

  // ---- memory ----

  /** What TSTORE puts at an address TLOAD reads from it, and no other cell changes. */
  lemma LoadAfterStore(s: State, store: Instr, load: Instr)
    requires Shaped(s) && Legal(store) && Legal(load) && store.op == TSTORE && load.op == TLOAD && load.dst != 0
    requires s.regs[load.src1] == s.regs[store.src2] && InMem(s.mem, s.regs[store.src2])
    ensures var o := Exec(s, store); var p := Exec(o.s, load);
      && o.fault.None? && p.fault.None? && p.s.regs[load.dst] == s.regs[store.src1]
      && forall x :: 0 <= x < |s.mem| && x != s.regs[store.src2] ==> p.s.mem[x] == s.mem[x]
  {
  }

  /** Storing a vector and loading it again clamps every lane to nine trits and changes nothing else. */
  lemma VectorRoundTrip(mem: seq<int>, base: int, v: Vec)
    requires RunInMem(mem, base) && LanesFit(v)
    ensures var mem' := VStoreFrom(mem, base, v, 0);
      forall k :: 0 <= k < 27 ==> VLoad(mem', base)[k] == ClampLane(v[k])
  {
    hide VStoreFrom, ClampLane;
    var mem' := VStoreFrom(mem, base, v, 0);
    forall k | 0 <= k < 27 ensures VLoad(mem', base)[k] == ClampLane(v[k]) {
      VStoreCell(mem, base, v, 0, base + k);
      assert VLoad(mem', base)[k] == LoadLane(mem'[base + k]);
    }
  }

  // ---- lanes ----

  /** A lane j moves to lane j - imm, modulo 27. */
  lemma ShuffleMoves(v: Vec, imm: int, j: nat)
    requires j < 27
    ensures VShuf(v, imm)[(j - imm) % 27] == ClampLane(v[j])
  {
    var k := (j - imm) % 27;
    assert (k + imm % 27) % 27 == j;
    assert VShuf(v, imm)[k] == ClampLane(v[(k + imm % 27) % 27]);
  }

  /** Subtracting is adding the negated lanes, unless a lane is the least 32-bit value. */
  lemma SubtractLanes(a: Vec, b: Vec)
    requires forall k :: 0 <= k < 27 ==> -0x8000_0000 < b[k] <= 0x7fff_ffff
    ensures VSub(a, b) == VAdd(a, VNeg(b))
  {
    forall k | 0 <= k < 27 ensures VSub(a, b)[k] == VAdd(a, VNeg(b))[k] {
      assert VNeg(b)[k] == ClampInt32(-b[k]);
      assert VSub(a, b)[k] == ClampInt32(a[k] - b[k]);
      assert VAdd(a, VNeg(b))[k] == ClampInt32(a[k] + VNeg(b)[k]);
    }
  }

  /** The broadcast constants 0, 1 and -1 are neutral, unit and negation. */
  lemma BroadcastLaws(v: Vec)
    requires LanesFit(v)
    ensures VAdd(v, VBroadcast(0)) == v && VMul(v, VBroadcast(1)) == v && VMul(v, VBroadcast(-1)) == VNeg(v)
  {
    BroadcastLanes(0);
    BroadcastLanes(1);
    BroadcastLanes(-1);
    forall k | 0 <= k < 27 ensures VAdd(v, VBroadcast(0))[k] == v[k] && VMul(v, VBroadcast(1))[k] == v[k] {
      assert VAdd(v, VBroadcast(0))[k] == ClampInt32(v[k] + VBroadcast(0)[k]);
      assert VMul(v, VBroadcast(1))[k] == ClampInt32(v[k] * VBroadcast(1)[k]);
    }
    forall k | 0 <= k < 27 ensures VMul(v, VBroadcast(-1))[k] == VNeg(v)[k] {
      assert VMul(v, VBroadcast(-1))[k] == ClampInt32(v[k] * VBroadcast(-1)[k]);
      assert VNeg(v)[k] == ClampInt32(-v[k]);
    }
  }

  lemma BroadcastLanes(c: int)
    requires -9841 <= c <= 9841
    ensures forall k :: 0 <= k < 27 ==> VBroadcast(c)[k] == c
  {
    var r := VBroadcast(c);
    assert forall k :: 0 <= k < 27 ==> r[k] == ClampLane(c);
  }

  // ---- counters ----

  /** The total is the sum of the counts of all opcodes, after any step. */
  lemma StepCounts(s: State)
    requires Shaped(s) && Sum(s.counts) == s.total
    ensures Sum(Step(s).s.counts) == Step(s).s.total
    ensures Step(s).s.total == s.total || Step(s).s.total == s.total + 1
  {
    hide Sum, DecodeInt, Legal;
    if !s.halted && InMem(s.mem, s.pc) && In27(s.pc + 1) && DecodeInt(s.mem[s.pc]).Some? {
      var i := DecodeInt(s.mem[s.pc]).value;
      DecodeIntLegal(s.mem[s.pc]);
      ExecCounts(s.(pc := s.pc + 1), i);
      SumUpdate(s.counts, OpValue(i.op), s.counts[OpValue(i.op)] + 1);
      hide Exec;
    }
  }

  lemma ExecCounts(s: State, i: Instr)
    requires Shaped(s) && Legal(i)
    ensures Exec(s, i).s.counts == Bump(s, i.op).counts && Exec(s, i).s.total == s.total + 1
  {
    hide VAdd, VSub, VMul, VNeg, VMax, VShuf, VBroadcast, VMac, Sum, VLoad, VStoreFrom, ScalarValue, Taken, OpValue;
  }

  /** Conservation over whole runs. */
  lemma {:induction false} RunCounts(s: State, n: nat)
    requires Shaped(s) && Sum(s.counts) == s.total
    ensures Sum(Run(s, n).s.counts) == Run(s, n).s.total <= s.total + n
    decreases n
  {
    hide Step, Sum;
    if n == 0 || s.halted {
    } else {
      StepCounts(s);
      if Step(s).fault.None? { RunCounts(Step(s).s, n - 1); }
    }
  }
}
