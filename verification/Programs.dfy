/** Straight-line programs in memory: what the loader makes of a list of instructions without
    jumps, and running it one instruction at a time. */
module Programs {
  import opened Trits
  import opened Packing
  import opened Isa
  import opened Machine
  import opened Vectors
  import opened Kernels

  /** Instructions that encode and carry no target to move. */
  predicate Straight(code: seq<Instr>) {
    forall k :: 0 <= k < |code| ==> Legal(code[k]) && !IsJumpOp(code[k].op)
  }

  /** The blob the assembler makes of them. */
  function Assembled(code: seq<Instr>): (blob: seq<Word27>)
    ensures |blob| == |code|
  {
    seq(|code|, k requires 0 <= k < |code| => EncodeSpec(code[k]))
  }

  /** The cells from base on decode to the code. */
  ghost predicate LoadedAt(mem: seq<int>, base: nat, code: seq<Instr>) {
    base + |code| <= |mem| && forall k :: 0 <= k < |code| ==> DecodeInt(mem[base + k]) == Some(code[k])
  }

  lemma AssembledDecodes(code: seq<Instr>, k: nat)
    requires Straight(code) && k < |code|
    ensures DecodeSpec(Assembled(code)[k]) == Some(code[k])
  {
    hide EncodeSpec, DecodeSpec;
    EncodeRoundTrip(code[k]);
  }

  lemma StoredDecodes(w: Word27, i: Instr, base: nat)
    requires DecodeSpec(w) == Some(i) && !IsJumpOp(i.op)
    ensures DecodeInt(MovedValue(w, base)) == Some(i)
  {
    hide DecodeSpec, EncodeSpec, Value, Digits;
    DecodeRoundTrip(w);
    ValueDigits(w);
  }

  /** Installing the blob loads the code. */
  lemma InstalledIsLoaded(mem: seq<int>, base: nat, code: seq<Instr>)
    requires Straight(code) && |code| > 0
    ensures Decodable(Assembled(code))
    ensures Image(mem, base, Assembled(code)) ==> LoadedAt(mem, base, code)
  {
    hide DecodeSpec, MovedValue, DecodeInt, Assembled;
    forall k | 0 <= k < |code| ensures DecodeSpec(Assembled(code)[k]) == Some(code[k]) {
      AssembledDecodes(code, k);
    }
    if Image(mem, base, Assembled(code)) {
      forall k | 0 <= k < |code| ensures DecodeInt(mem[base + k]) == Some(code[k]) {
        StoredDecodes(Assembled(code)[k], code[k], base);
        assert mem[base + k] == MovedValue(Assembled(code)[k], base);
      }
    }
  }

  /** The state instruction k runs from. */
  ghost predicate Ready(s: State, base: nat, code: seq<Instr>, k: nat) {
    Shaped(s) && !s.halted && s.pc == base + k && LoadedAt(s.mem, base, code) && base + |code| <= MAX27
  }

  lemma RunNext(s: State, base: nat, code: seq<Instr>, k: nat, n: nat, t: State)
    requires k < |code| && Ready(s, base, code, k) && n > 0 && Shaped(t)
    requires Legal(code[k]) && Exec(s.(pc := base + k + 1), code[k]) == Ok(t)
    ensures Run(s, n) == Run(t, n - 1)
  {
    hide Exec, DecodeInt, Legal;
    assert DecodeInt(s.mem[base + k]) == Some(code[k]);
    StepIs(s, code[k]);
  }

  lemma RunHalted(s: State, n: nat)
    requires Shaped(s) && s.halted
    ensures Run(s, n) == Ok(s)
  {
  }

  lemma HaltEffect(s: State, i: Instr)
    requires Shaped(s) && Legal(i) && i.op == THALT
    ensures Exec(s, i) == Ok(Bump(s, THALT).(halted := true))
  {
  }

  lemma LoadedAfterStore(mem: seq<int>, base: nat, code: seq<Instr>, ya: int, v: int)
    requires LoadedAt(mem, base, code) && InMem(mem, ya) && !(base <= ya < base + |code|)
    ensures LoadedAt(mem[ya := v], base, code)
  {
    hide DecodeInt;
  }

  // ---- the smallest kernel: TADD R1,R1,R2 and THALT ----

  const SUM: seq<Instr> := [Instr(TADD, 1, 1, 2, 0), Instr(THALT, 0, 0, 0, 0)]

  lemma AddEffect(s: State)
    requires Shaped(s)
    ensures Exec(s, SUM[0]) == Ok(Bump(s, TADD).(regs := s.regs[1 := Wrap27(s.regs[1] + s.regs[2])]))
  {
    hide Wrap27;
  }

  /** What the sum kernel leaves. */
  function Summed(s: State): (r: State)
    requires Shaped(s)
    ensures Shaped(r)
  {
    var s1 := Bump(s, TADD).(regs := s.regs[1 := Wrap27(s.regs[1] + s.regs[2])]);
    Bump(s1, THALT).(pc := s.pc + 2, halted := true)
  }

  lemma RunSum(s: State, base: nat, n: nat)
    requires Ready(s, base, SUM, 0) && n >= 2
    ensures Run(s, n) == Ok(Summed(s))
  {
    hide LoadedAt, Run, Exec, Wrap27, In27;
    AddEffect(s.(pc := base + 1));
    var s1 := Bump(s, TADD).(regs := s.regs[1 := Wrap27(s.regs[1] + s.regs[2])], pc := base + 1);
    RunNext(s, base, SUM, 0, n, s1);
    HaltEffect(s1.(pc := base + 2), SUM[1]);
    RunNext(s1, base, SUM, 1, n - 1, Summed(s));
    RunHalted(Summed(s), n - 2);
  }

  /** A call of the sum kernel returns the sum of the first two arguments modulo 3^27, the sum itself
      when that is a word. It leaves the other arguments in place, R8 to R15 and all lanes clear, R16
      to R26 and memory as they were, and counts its two instructions. */
  ghost predicate SumReturned(s: State, args: seq<int>, o: Outcome)
    requires Shaped(s) && Shaped(o.s) && 2 <= |args| <= 7
  {
    && CallResult(o).Returned?
    && var r := CallResult(o).value;
    && In27(r) && (args[0] + args[1] - r) % 7625597484987 == 0 && (In27(args[0] + args[1]) ==> r == args[0] + args[1])
    && (forall k :: 2 <= k <= |args| ==> o.s.regs[k] == args[k - 1])
    && (forall k :: 8 <= k <= 15 ==> o.s.regs[k] == 0)
    && (forall k :: 16 <= k <= 26 ==> o.s.regs[k] == s.regs[k])
    && o.s.vecs == seq(9, i => ZERO_VEC) && o.s.accs == seq(3, i => ZERO_VEC)
    && o.s.mem == s.mem && o.s.total == s.total + 2
  }

  /** From anywhere the kernel is installed. */
  lemma SumCall(s: State, base: nat, args: seq<int>)
    requires Shaped(s) && base + 2 <= MAX27 && 2 <= |args| <= 7
    requires Decodable(Assembled(SUM)) && Image(s.mem, base, Assembled(SUM))
    ensures SumReturned(s, args, RunToHalt(CallState(s, base, args)))
  {
    hide Run, SumReturned, CallState, Image, Assembled;
    var s0 := CallState(s, base, args);
    InstalledIsLoaded(s.mem, base, SUM);
    CallReady(s, base, args);
    RunSum(s0, base, SAFETY_LIMIT);
    SummedReturned(s, base, args);
  }

  lemma CallReady(s: State, base: nat, args: seq<int>)
    requires Shaped(s) && base + 2 <= MAX27 && |args| <= 7 && LoadedAt(s.mem, base, SUM)
    ensures Ready(CallState(s, base, args), base, SUM, 0)
  {
    hide LoadedAt;
  }

  lemma SummedReturned(s: State, base: nat, args: seq<int>)
    requires Shaped(s) && 2 <= |args| <= 7
    ensures SumReturned(s, args, Ok(Summed(CallState(s, base, args))))
  {
    hide Wrap27, In27;
    WrapCongruent(args[0] + args[1]);
  }

  lemma WrapCongruent(v: int)
    ensures In27(Wrap27(v)) && (v - Wrap27(v)) % 7625597484987 == 0
    ensures In27(v) ==> Wrap27(v) == v
  {
  }
}
