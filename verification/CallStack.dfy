/** Calls and returns. R26 points at the next free cell of a stack that grows upwards; the cells
    below it hold the return addresses of the calls still open, over whole runs, so a subroutine
    comes back to the instruction behind its call with the stack as it was. */
module CallStack {
  import opened Isa
  import opened Machine
  import opened Programs

  // ---- one call and one return ----

  /** From any later state with the stack pointer the call left and its return cell untouched, a
      return goes back to where the call came from and restores the stack pointer. */
  lemma ReturnMatchesCall(s: State, call: Instr, t: State, ret: Instr)
    requires Shaped(s) && Legal(call) && call.op == TCALL && Exec(s, call).fault.None?
    requires Shaped(t) && Legal(ret) && ret.op == TRET
    requires InMem(s.mem, s.regs[26])
    requires |t.mem| == |s.mem| && t.mem[s.regs[26]] == Exec(s, call).s.mem[s.regs[26]]
    requires t.regs[26] == Exec(s, call).s.regs[26]
    ensures Exec(t, ret) == Ok(Bump(t, TRET).(regs := t.regs[26 := s.regs[26]], pc := s.pc))
  {
  }

  /** A call made before that return uses another cell and leaves the first one alone. */
  lemma NestedCallsApart(s: State, outer: Instr, t: State, inner: Instr)
    requires Shaped(s) && Legal(outer) && outer.op == TCALL && Exec(s, outer).fault.None?
    requires Shaped(t) && Legal(inner) && inner.op == TCALL && Exec(t, inner).fault.None?
    requires |t.mem| == |s.mem| && t.regs[26] == Exec(s, outer).s.regs[26]
    ensures InMem(s.mem, s.regs[26]) && InMem(t.mem, t.regs[26]) && s.regs[26] != t.regs[26]
    ensures Exec(t, inner).s.mem[s.regs[26]] == t.mem[s.regs[26]]
    ensures Exec(t, inner).s.mem[t.regs[26]] == t.pc
  {
  }

  // ---- whole runs ----

  /** The instruction about to run. */
  function Current(s: State): Option<Instr> {
    if InMem(s.mem, s.pc) then DecodeInt(s.mem[s.pc]) else None
  }

  /** The return addresses of the calls still open, oldest first, after the step about to run. */
  function NextFrames(s: State, frames: seq<int>): seq<int> {
    match Current(s)
    case Some(i) =>
      if i.op == TCALL then frames + [s.pc + 1]
      else if i.op == TRET && |frames| > 0 then frames[..|frames| - 1]
      else frames
    case None => frames
  }

  /** The open calls after at most n steps, ending early at a halt or a fault. */
  function FramesAfter(s: State, n: nat, frames: seq<int>): seq<int>
    requires Shaped(s)
    decreases n
  {
    if n == 0 || s.halted || Step(s).fault.Some? then frames
    else FramesAfter(Step(s).s, n - 1, NextFrames(s, frames))
  }

  /** The stack in memory: from sp up to R26, the return addresses of the open calls. */
  ghost predicate OnStack(s: State, sp: int, frames: seq<int>) {
    && Shaped(s) && 0 <= sp && sp + |frames| <= |s.mem| && s.regs[26] == sp + |frames|
    && forall j :: 0 <= j < |frames| ==> s.mem[sp + j] == frames[j]
  }

  /** The register a scalar result goes to, if any. */
  predicate WritesScalar(op: Opcode) {
    (IsScalar(op) && !IsPlain(op)) || op == TLOAD || op == TVSUM
  }

  /** Only calls and returns touch the stack: nothing else writes R26 or a cell in use, and a return
      has a call to return from. */
  ghost predicate Disciplined(s: State, i: Instr, sp: int, frames: seq<int>)
    requires Shaped(s) && Legal(i)
  {
    var top, at := sp + |frames|, s.regs[i.src2];
    && (WritesScalar(i.op) ==> i.dst != 26)
    && (i.op == TSTORE ==> !(sp <= at < top))
    && (i.op == TVSTORE ==> at + 27 <= sp || top <= at)
    && (i.op == TRET ==> |frames| > 0)
  }

  lemma BranchFrames(s: State, i: Instr, sp: int, frames: seq<int>)
    requires Legal(i) && IsBranch(i.op) && OnStack(s, sp, frames) && Disciplined(s, i, sp, frames)
    requires ExecBranch(s, i).fault.None?
    ensures i.op == TCALL ==> OnStack(ExecBranch(s, i).s, sp, frames + [s.pc])
    ensures i.op == TRET ==> OnStack(ExecBranch(s, i).s, sp, frames[..|frames| - 1])
    ensures i.op == TRET ==> ExecBranch(s, i).s.pc == frames[|frames| - 1]
    ensures i.op != TCALL && i.op != TRET ==> OnStack(ExecBranch(s, i).s, sp, frames)
  {
    hide Taken;
  }

  lemma MemoryFrames(s: State, i: Instr, sp: int, frames: seq<int>)
    requires Legal(i) && IsMemory(i.op) && OnStack(s, sp, frames) && Disciplined(s, i, sp, frames)
    ensures OnStack(ExecMemory(s, i).s, sp, frames)
  {
    hide VLoad, VStoreFrom;
    if i.op == TVSTORE && i.src1 < 9 {
      var base := s.regs[i.src2];
      var mem := VStoreFrom(s.mem, base, s.vecs[i.src1], 0);
      forall x | sp <= x < sp + |frames| ensures mem[x] == s.mem[x] {
        VStoreCell(s.mem, base, s.vecs[i.src1], 0, x);
      }
    }
  }

  lemma VectorFrames(s: State, i: Instr, sp: int, frames: seq<int>)
    requires Legal(i) && IsVector(i.op) && OnStack(s, sp, frames) && Disciplined(s, i, sp, frames)
    ensures OnStack(ExecVector(s, i).s, sp, frames)
  {
    hide VAdd, VSub, VMul, VNeg, VMax, VShuf, VBroadcast, VMac, Sums.Sum;
  }

  lemma ScalarFrames(s: State, i: Instr, sp: int, frames: seq<int>)
    requires Legal(i) && IsScalar(i.op) && OnStack(s, sp, frames) && Disciplined(s, i, sp, frames)
    ensures OnStack(ExecScalar(s, i), sp, frames)
  {
    hide ScalarValue;
  }

  /** One step keeps the stack; a return goes to the address on top of it. */
  lemma StepFrames(s: State, i: Instr, sp: int, frames: seq<int>)
    requires OnStack(s, sp, frames) && !s.halted && Step(s).fault.None?
    requires Current(s) == Some(i) && Legal(i) && Disciplined(s, i, sp, frames)
    ensures OnStack(Step(s).s, sp, NextFrames(s, frames))
    ensures i.op == TRET ==> Step(s).s.pc == frames[|frames| - 1]
  {
    hide DecodeInt, ExecBranch, ExecMemory, ExecVector, ExecScalar, Legal;
    StepIs(s, i);
    var b := Bump(s.(pc := s.pc + 1), i.op);
    assert OnStack(b, sp, frames) && Disciplined(b, i, sp, frames);
    if IsBranch(i.op) { BranchFrames(b, i, sp, frames); }
    else if IsMemory(i.op) { MemoryFrames(b, i, sp, frames); }
    else if IsVector(i.op) { VectorFrames(b, i, sp, frames); }
    else { ScalarFrames(b, i, sp, frames); }
  }

  /** Every instruction of the first n steps is disciplined. */
  ghost predicate AllDisciplined(s: State, n: nat, sp: int, frames: seq<int>)
    requires Shaped(s)
    decreases n
  {
    n > 0 && !s.halted && Step(s).fault.None? ==>
      && Current(s).Some? && Legal(Current(s).value) && Disciplined(s, Current(s).value, sp, frames)
      && AllDisciplined(Step(s).s, n - 1, sp, NextFrames(s, frames))
  }

  /** Over whole runs the stack holds exactly the return addresses of the open calls. */
  lemma {:induction false} RunFrames(s: State, n: nat, sp: int, frames: seq<int>)
    requires OnStack(s, sp, frames) && AllDisciplined(s, n, sp, frames) && Run(s, n).fault.None?
    ensures OnStack(Run(s, n).s, sp, FramesAfter(s, n, frames))
    decreases n
  {
    hide Step, NextFrames, Disciplined, Legal;
    if n == 0 || s.halted {
    } else {
      StepFrames(s, Current(s).value, sp, frames);
      RunFrames(Step(s).s, n - 1, sp, NextFrames(s, frames));
    }
  }

  /** From inside a call until it is closed: the run is then behind it. */
  lemma {:induction false} ClosingReturn(s: State, n: nat, sp: int, frames: seq<int>, below: seq<int>, ret: int)
    requires OnStack(s, sp, frames) && AllDisciplined(s, n, sp, frames) && Run(s, n).fault.None? && n > 0
    requires |frames| > |below| && frames[..|below| + 1] == below + [ret]
    requires forall m :: 0 <= m < n ==> |FramesAfter(s, m, frames)| > |below|
    requires |FramesAfter(s, n, frames)| == |below|
    ensures FramesAfter(s, n, frames) == below && Run(s, n).s.pc == ret
    decreases n
  {
    hide Step, Disciplined, Legal, Current;
    assert |FramesAfter(s, 0, frames)| > |below|;
    var next := NextFrames(s, frames);
    if !s.halted {
      var i := Current(s).value;
      StepFrames(s, i, sp, frames);
      var t := Step(s).s;
      assert FramesAfter(s, 1, frames) == FramesAfter(t, 0, next) == next;
      if n == 1 {
        assert i.op == TRET && frames == below + [ret];
      } else {
        forall m | 0 <= m < n - 1 ensures |FramesAfter(t, m, next)| > |below| {
          assert FramesAfter(s, m + 1, frames) == FramesAfter(t, m, next);
        }
        assert |next| > |below| by { assert |FramesAfter(s, 1, frames)| > |below|; }
        assert next[..|below| + 1] == below + [ret];
        ClosingReturn(t, n - 1, sp, next, below, ret);
      }
    }
  }

  lemma FirstStep(s: State, n: nat)
    requires Shaped(s) && n > 0 && !s.halted && Run(s, n).fault.None?
    ensures Step(s).fault.None? && Run(s, n) == Run(Step(s).s, n - 1)
  {
    hide Step;
  }

  lemma CallPushes(s: State, frames: seq<int>)
    requires Current(s).Some? && Current(s).value.op == TCALL
    ensures NextFrames(s, frames) == frames + [s.pc + 1]
  {
    hide Current;
  }

  /** A subroutine comes back: when a run that starts with a call first closes it again, it is at
      the instruction behind the call, with the stack pointer and the open calls as before. */
  lemma SubroutineReturns(s: State, n: nat, sp: int, frames: seq<int>)
    requires OnStack(s, sp, frames) && AllDisciplined(s, n, sp, frames) && Run(s, n).fault.None? && n > 1
    requires !s.halted && Current(s).Some? && Current(s).value.op == TCALL
    requires forall m :: 0 < m < n ==> |FramesAfter(s, m, frames)| > |frames|
    requires |FramesAfter(s, n, frames)| == |frames|
    ensures FramesAfter(s, n, frames) == frames
    ensures Run(s, n).s.pc == s.pc + 1 && Run(s, n).s.regs[26] == s.regs[26]
  {
    hide Step, Disciplined, Legal, Run, Current, NextFrames;
    RunFrames(s, n, sp, frames);
    FirstStep(s, n);
    CallPushes(s, frames);
    var t, next := Step(s).s, frames + [s.pc + 1];
    StepFrames(s, Current(s).value, sp, frames);
    forall m | 0 <= m < n - 1 ensures |FramesAfter(t, m, next)| > |frames| {
      assert FramesAfter(s, m + 1, frames) == FramesAfter(t, m, next);
    }
    assert next[..|frames| + 1] == next;
    ClosingReturn(t, n - 1, sp, next, frames, s.pc + 1);
  }

  // ---- a program that calls and returns ----

  /** TLOADI R26,50; TCALL 4; TLOADI R1,88; THALT; TLOADI R2,33; TRET. */
  const CALLER: seq<Instr> := [
    Instr(TLOADI, 26, 0, 0, 50), Instr(TCALL, 0, 0, 0, 4), Instr(TLOADI, 1, 0, 0, 88),
    Instr(THALT, 0, 0, 0, 0), Instr(TLOADI, 2, 0, 0, 33), Instr(TRET, 0, 0, 0, 0)]

  lemma LoadsImmediate(s: State, i: Instr)
    requires Shaped(s) && Legal(i) && i.op == TLOADI && i.dst != 0
    ensures Exec(s, i) == Ok(Bump(s, TLOADI).(regs := s.regs[i.dst := i.imm]))
  {
  }

  /** The state k instructions later, with a register set. */
  function Loaded(s: State, d: nat, v: int): (r: State)
    requires Shaped(s) && 0 < d < 27
    ensures Shaped(r)
  {
    Bump(s, TLOADI).(regs := s.regs[d := v], pc := s.pc + 1)
  }

  lemma RunImmediate(s: State, k: nat, n: nat, d: nat, v: int)
    requires k < 6 && Ready(s, 0, CALLER, k) && n > 0 && 0 < d < 27 && CALLER[k] == Instr(TLOADI, d, 0, 0, v)
    ensures Run(s, n) == Run(Loaded(s, d, v), n - 1) && Ready(Loaded(s, d, v), 0, CALLER, k + 1)
  {
    hide LoadedAt, Exec, Run, In27;
    LoadsImmediate(s.(pc := k + 1), CALLER[k]);
    RunNext(s, 0, CALLER, k, n, Loaded(s, d, v));
  }

  /** It calls the subroutine at 4, comes back, and halts with both registers loaded. */
  lemma CallerRuns(s: State, n: nat)
    requires Ready(s, 0, CALLER, 0) && |s.mem| > 50 && n >= 6
    ensures var o := Run(s, n);
      o.fault.None? && o.s.halted && o.s.regs[1] == 88 && o.s.regs[2] == 33 && o.s.regs[26] == 50
  {
    hide LoadedAt, Exec, Run, In27;
    var s1 := Loaded(s, 26, 50);
    RunImmediate(s, 0, n, 26, 50);
    var s2 := CallTo4(s1, n - 1);
    var s3 := Loaded(s2, 2, 33);
    RunImmediate(s2, 4, n - 2, 2, 33);
    var s4 := BackTo2(s3, n - 3);
    var s5 := Loaded(s4, 1, 88);
    RunImmediate(s4, 2, n - 4, 1, 88);
    var s6 := Bump(s5, THALT).(pc := s5.pc + 1, halted := true);
    HaltEffect(s5.(pc := 4), CALLER[3]);
    RunNext(s5, 0, CALLER, 3, n - 5, s6);
    RunHalted(s6, n - 6);
  }

  lemma CallTo4(s: State, n: nat) returns (t: State)
    requires Ready(s, 0, CALLER, 1) && |s.mem| > 50 && s.regs[26] == 50 && n > 0
    ensures Shaped(t) && Run(s, n) == Run(t, n - 1) && Ready(t, 0, CALLER, 4)
    ensures t.regs == s.regs[26 := 51] && |t.mem| > 50 && t.mem[50] == 2
  {
    LoadedAfterStore(s.mem, 0, CALLER, 50, 2);
    hide LoadedAt, Run;
    t := Bump(s, TCALL).(regs := s.regs[26 := 51], pc := 4, mem := s.mem[50 := 2]);
    hide DecodeInt;
    CallEffect(s.(pc := 2), CALLER[1]);
    RunNext(s, 0, CALLER, 1, n, t);
  }

  lemma CallEffect(s: State, i: Instr)
    requires Shaped(s) && Legal(i) && i.op == TCALL && InMem(s.mem, s.regs[26]) && In27(s.regs[26] + 1)
    ensures var sp := s.regs[26];
      Exec(s, i) == Ok(Bump(s, TCALL).(regs := s.regs[26 := sp + 1], pc := i.imm, mem := s.mem[sp := s.pc]))
  {
  }

  lemma BackTo2(s: State, n: nat) returns (t: State)
    requires Ready(s, 0, CALLER, 5) && |s.mem| > 50 && s.regs[26] == 51 && s.mem[50] == 2 && n > 0
    ensures Shaped(t) && Run(s, n) == Run(t, n - 1) && Ready(t, 0, CALLER, 2) && t.regs == s.regs[26 := 50]
  {
    hide LoadedAt, Run;
    t := Bump(s, TRET).(regs := s.regs[26 := 50], pc := 2);
    ReturnEffect(s.(pc := 6), CALLER[5]);
    RunNext(s, 0, CALLER, 5, n, t);
  }

  lemma ReturnEffect(s: State, i: Instr)
    requires Shaped(s) && Legal(i) && i.op == TRET && InMem(s.mem, s.regs[26] - 1) && In27(s.regs[26] - 1)
    ensures var sp := s.regs[26] - 1;
      Exec(s, i) == Ok(Bump(s, TRET).(regs := s.regs[26 := sp], pc := s.mem[sp]))
  {
  }
}
