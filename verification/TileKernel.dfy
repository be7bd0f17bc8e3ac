/** The kernel that computes one 27-row tile of a matrix product, and what one call of it does:
    the stored sum is the inner product of the two loaded tiles, whatever memory holds. */
module TileKernel {
  import opened Sums
  import opened Trits
  import opened Packing
  import opened Isa
  import opened Machine
  import opened Vectors
  import opened Kernels
  import opened Programs

  /** tk_matmul_b_9t: R1 and R2 point at the operands, R3 at the result. */
  const CODE: seq<Instr> := [
    Instr(TVLOAD, 0, 1, 0, 0), Instr(TVLOAD, 1, 2, 0, 0), Instr(TVMAC, 0, 0, 1, 0),
    Instr(TVSUM, 4, 0, 0, 0), Instr(TSTORE, 0, 4, 3, 0), Instr(THALT, 0, 0, 0, 0)]

  /** Six cells from base on decode to the kernel. */
  ghost predicate Loaded(mem: seq<int>, base: nat) { LoadedAt(mem, base, CODE) }

  /** Installing the assembled blob loads the kernel: it has no target to move. */
  lemma InstalledIsLoaded(mem: seq<int>, base: nat)
    ensures Decodable(Assembled(CODE))
    ensures Image(mem, base, Assembled(CODE)) ==> Loaded(mem, base)
  {
    Programs.InstalledIsLoaded(mem, base, CODE);
    hide Image, LoadedAt, Assembled;
  }

  // ---- one call ----

  /** The state each of the six instructions runs from. */
  ghost predicate At(s: State, base: nat, k: nat) { Ready(s, base, CODE, k) }

  lemma RunOne(s: State, base: nat, k: nat, n: nat, t: State)
    requires k < 6 && At(s, base, k) && n > 0 && Shaped(t)
    requires Legal(CODE[k]) && Exec(s.(pc := base + k + 1), CODE[k]) == Ok(t)
    ensures Run(s, n) == Run(t, n - 1)
  {
    hide Exec, Legal, LoadedAt, Run;
    RunNext(s, base, CODE, k, n, t);
  }

  lemma LoadEffect(s: State, d: nat, r: nat)
    requires Shaped(s) && d < 9 && r < 27 && RunInMem(s.mem, s.regs[r])
    ensures Exec(s, Instr(TVLOAD, d, r, 0, 0)) == Ok(SetVec(Bump(s, TVLOAD), d, VLoad(s.mem, s.regs[r])))
  {
    hide VLoad;
  }

  lemma MacEffect(s: State)
    requires Shaped(s)
    ensures Exec(s, CODE[2]) == Ok(Bump(s, TVMAC).(accs := s.accs[0 := VMac(s.accs[0], s.vecs[0], s.vecs[1])]))
  {
    hide VMac;
  }

  lemma SumEffect(s: State)
    requires Shaped(s) && In27(Sum(s.accs[0]))
    ensures Exec(s, CODE[3]) == Ok(SetReg(Bump(s, TVSUM), 4, Sum(s.accs[0])))
  {
    hide Sum, In27;
  }

  lemma StoreEffect(s: State)
    requires Shaped(s) && InMem(s.mem, s.regs[3])
    ensures Exec(s, CODE[4]) == Ok(Bump(s, TSTORE).(mem := s.mem[s.regs[3] := s.regs[4]]))
  {
  }

  function Loads(s: State, xa: int, wa: int): (r: State)
    requires Shaped(s) && RunInMem(s.mem, xa) && RunInMem(s.mem, wa)
    ensures Shaped(r)
  {
    var s1 := SetVec(Bump(s, TVLOAD), 0, VLoad(s.mem, xa));
    SetVec(Bump(s1, TVLOAD), 1, VLoad(s.mem, wa)).(pc := s.pc + 2)
  }

  lemma RunLoads(s: State, base: nat, n: nat, xa: int, wa: int)
    requires At(s, base, 0) && n >= 2 && s.regs[1] == xa && s.regs[2] == wa
    requires RunInMem(s.mem, xa) && RunInMem(s.mem, wa)
    ensures Run(s, n) == Run(Loads(s, xa, wa), n - 2) && At(Loads(s, xa, wa), base, 2)
  {
    hide VLoad, LoadedAt, Run, Exec;
    LoadEffect(s.(pc := base + 1), 0, 1);
    var s1 := SetVec(Bump(s, TVLOAD), 0, VLoad(s.mem, xa)).(pc := base + 1);
    RunOne(s, base, 0, n, s1);
    LoadEffect(s1.(pc := base + 2), 1, 2);
    RunOne(s1, base, 1, n - 1, Loads(s, xa, wa));
  }

  /** From cleared accumulators the lane sum is the inner product of the two vectors. */
  lemma {:induction false} MacSum(acc: seq<int>, a: seq<int>, b: seq<int>, c: seq<int>)
    requires |acc| == |a| == |b| == |c| && forall i :: 0 <= i < |a| ==> c[i] == acc[i] + a[i] * b[i]
    ensures Sum(c) == Sum(acc) + Inner(a, b)
  {
    if |a| == 0 {
    } else {
      var n := |a| - 1;
      MacSum(acc[..n], a[..n], b[..n], c[..n]);
    }
  }

  predicate Payload(v: int) { -9841 <= v <= 9841 }

  lemma {:induction false} PayloadInner(x: seq<int>, w: seq<int>)
    requires |x| == |w| && forall k :: 0 <= k < |x| ==> Payload(x[k]) && Payload(w[k])
    ensures -(96845281 * |x|) <= Inner(x, w) <= 96845281 * |x|
  {
    if |x| == 0 {
    } else {
      var n := |x| - 1;
      PayloadInner(x[..n], w[..n]);
      Words.AbsProduct(x[n], w[n], 9841);
    }
  }

  /** A tile's sum always fits a word: its lanes were clamped when they were loaded. */
  lemma TileFits(mem: seq<int>, xa: int, wa: int)
    requires RunInMem(mem, xa) && RunInMem(mem, wa)
    ensures In27(Inner(VLoad(mem, xa), VLoad(mem, wa)))
  {
    hide Inner;
    var x, w := VLoad(mem, xa), VLoad(mem, wa);
    assert forall k :: 0 <= k < 27 ==> x[k] == LoadLane(mem[xa + k]) && w[k] == LoadLane(mem[wa + k]);
    PayloadInner(x, w);
  }

  function Accumulates(s: State): (r: State)
    requires Shaped(s)
    ensures Shaped(r)
  {
    var s1 := Bump(s, TVMAC).(accs := s.accs[0 := VMac(s.accs[0], s.vecs[0], s.vecs[1])]);
    SetReg(Bump(s1, TVSUM), 4, Sum(s1.accs[0])).(pc := s.pc + 2)
  }

  lemma RunAccumulates(s: State, base: nat, n: nat)
    requires At(s, base, 2) && n >= 2 && s.accs[0] == ZERO_VEC && In27(Inner(s.vecs[0], s.vecs[1]))
    ensures Run(s, n) == Run(Accumulates(s), n - 2) && At(Accumulates(s), base, 4)
    ensures Accumulates(s).regs[4] == Inner(s.vecs[0], s.vecs[1])
  {
    var acc := VMac(s.accs[0], s.vecs[0], s.vecs[1]);
    MacSum(s.accs[0], s.vecs[0], s.vecs[1], acc);
    SumZeros(ZERO_VEC);
    hide LoadedAt, Run, Sum, Inner, VMac, Exec, In27;
    MacEffect(s.(pc := base + 3));
    var s1 := Bump(s, TVMAC).(accs := s.accs[0 := acc], pc := base + 3);
    RunOne(s, base, 2, n, s1);
    SumEffect(s1.(pc := base + 4));
    RunOne(s1, base, 3, n - 1, Accumulates(s));
  }

  function Stores(s: State, ya: int): (r: State)
    requires Shaped(s) && InMem(s.mem, ya)
    ensures Shaped(r)
  {
    var s1 := Bump(s, TSTORE).(mem := s.mem[ya := s.regs[4]]);
    Bump(s1, THALT).(pc := s.pc + 2, halted := true)
  }

  function AfterStore(s: State, ya: int): (r: State)
    requires Shaped(s) && InMem(s.mem, ya)
    ensures Shaped(r)
  {
    Bump(s, TSTORE).(mem := s.mem[ya := s.regs[4]], pc := s.pc + 1)
  }

  lemma RunStore(s: State, base: nat, n: nat, ya: int)
    requires At(s, base, 4) && n >= 1 && s.regs[3] == ya && InMem(s.mem, ya) && !(base <= ya < base + 6)
    ensures Run(s, n) == Run(AfterStore(s, ya), n - 1) && At(AfterStore(s, ya), base, 5)
  {
    LoadedAfterStore(s.mem, base, CODE, ya, s.regs[4]);
    hide LoadedAt, Exec, Run, In27;
    StoreEffect(s.(pc := base + 5));
    RunOne(s, base, 4, n, AfterStore(s, ya));
  }

  lemma RunHalt(s: State, base: nat, n: nat)
    requires At(s, base, 5) && n >= 1
    ensures Run(s, n) == Ok(Bump(s, THALT).(pc := s.pc + 1, halted := true))
  {
    var t := Bump(s, THALT).(pc := s.pc + 1, halted := true);
    HaltEffect(s.(pc := base + 6), CODE[5]);
    RunHalted(t, n - 1);
    hide LoadedAt, Exec, Run, In27;
    RunOne(s, base, 5, n, t);
  }

  lemma RunStores(s: State, base: nat, n: nat, ya: int)
    requires At(s, base, 4) && n >= 2 && s.regs[3] == ya && InMem(s.mem, ya) && !(base <= ya < base + 6)
    ensures Run(s, n) == Ok(Stores(s, ya))
  {
    hide LoadedAt, Run, In27;
    RunStore(s, base, n, ya);
    RunHalt(AfterStore(s, ya), base, n - 1);
  }

  function Counted(c: seq<nat>, op: Opcode): (r: seq<nat>)
    requires |c| == 256
    ensures |r| == 256
  {
    c[OpValue(op) := c[OpValue(op)] + 1]
  }

  /** What a call adds to the counters. */
  function TileCounts(c: seq<nat>): (r: seq<nat>)
    requires |c| == 256
    ensures |r| == 256 && r[OpValue(TVMAC)] == c[OpValue(TVMAC)] + 1 && r[OpValue(TVSUM)] == c[OpValue(TVSUM)] + 1
  {
    var loaded := Counted(Counted(c, TVLOAD), TVLOAD);
    Counted(Counted(Counted(Counted(loaded, TVMAC), TVSUM), TSTORE), THALT)
  }

  function TileArgs(xa: int, wa: int, ya: int): seq<int> { [xa, wa, ya, 0, 0, 0, 0] }

  lemma CallTotals(s: State, xa: int, wa: int, ya: int)
    requires Shaped(s) && RunInMem(s.mem, xa) && RunInMem(s.mem, wa) && InMem(s.mem, ya)
    ensures var t := Stores(Accumulates(Loads(s, xa, wa)), ya);
      t.counts == TileCounts(s.counts) && t.total == s.total + 6 && t.halted
  {
    hide VLoad, VMac, Sum, OpValue;
    var s2 := Loads(s, xa, wa);
    assert s2.counts == Counted(Counted(s.counts, TVLOAD), TVLOAD);
    var s4 := Accumulates(s2);
    assert s4.counts == Counted(Counted(s2.counts, TVMAC), TVSUM);
    hide Loads, Accumulates;
  }

  /** One call of the kernel: it never faults, and it changes one cell of memory, to the inner
      product of the two tiles as the vector unit loads them. */
  lemma TileCall(s: State, base: nat, xa: int, wa: int, ya: int)
    requires Shaped(s) && Loaded(s.mem, base) && base + 6 <= MAX27
    requires RunInMem(s.mem, xa) && RunInMem(s.mem, wa) && InMem(s.mem, ya) && !(base <= ya < base + 6)
    ensures var o := RunToHalt(CallState(s, base, TileArgs(xa, wa, ya)));
      && o.fault.None?
      && o.s.mem == s.mem[ya := Inner(VLoad(s.mem, xa), VLoad(s.mem, wa))]
      && o.s.counts == TileCounts(s.counts) && o.s.total == s.total + 6
  {
    var s0 := CallState(s, base, TileArgs(xa, wa, ya));
    RunCall(s0, base, SAFETY_LIMIT, xa, wa, ya);
    CallTotals(s0, xa, wa, ya);
    hide LoadedAt, Run, VLoad, Inner, Loads, Accumulates, Stores, TileCounts;
  }

  lemma RunCall(s: State, base: nat, n: nat, xa: int, wa: int, ya: int)
    requires At(s, base, 0) && n >= 6 && s.accs[0] == ZERO_VEC
    requires s.regs[1] == xa && s.regs[2] == wa && s.regs[3] == ya
    requires RunInMem(s.mem, xa) && RunInMem(s.mem, wa) && InMem(s.mem, ya) && !(base <= ya < base + 6)
    ensures var t := Stores(Accumulates(Loads(s, xa, wa)), ya);
      Run(s, n) == Ok(t) && t.mem == s.mem[ya := Inner(VLoad(s.mem, xa), VLoad(s.mem, wa))]
  {
    hide LoadedAt, Run, VLoad, Inner, Sum, In27, VMac;
    RunLoads(s, base, n, xa, wa);
    var s2 := Loads(s, xa, wa);
    TileFits(s.mem, xa, wa);
    RunAccumulates(s2, base, n - 2);
    RunStores(Accumulates(s2), base, n - 4, ya);
  }
}
