/** Relocation preserves meaning: one blob installed at two addresses runs in lockstep.
    The two runs agree on every register, lane, counter and data cell; the program counters
    and the return addresses saved by TCALL differ by exactly the distance of the copies. */
module Relocation {
  import opened Sums
  import opened Trits
  import opened Packing
  import opened Isa
  import opened Machine
  import opened Kernels

  datatype Layout = Layout(blob: seq<Word27>, a: nat, b: nat) {
    /** The distance between the two copies. */
    function Gap(): int { b - a }

    predicate InCode(x: int) {
      a <= x < a + |blob| || b <= x < b + |blob|
    }

    /** Every word decodes and no moved jump target leaves the immediate field, at either base. */
    ghost predicate Placeable() {
      Decodable(blob) && PlaceableAt(blob, a) && PlaceableAt(blob, b)
    }
  }

  ghost predicate PlaceableAt(blob: seq<Word27>, base: nat)
    requires Decodable(blob)
  {
    && base + |blob| <= 0x7fff_ffff
    && forall k :: 0 <= k < |blob| ==> TargetFits(DecodeSpec(blob[k]).value, base)
  }

  predicate TargetFits(i: Instr, base: nat) {
    IsJumpOp(i.op) ==> -265720 <= base + i.imm <= 265720
  }

  /** An installed word decodes to the moved instruction exactly when its target fits. */
  lemma MovedDecodes(w: Word27, base: nat)
    requires DecodeSpec(w).Some? && base <= 0x7fff_ffff
    ensures DecodeInt(MovedValue(w, base)) == Some(Moved(DecodeSpec(w).value, base))
      <==> TargetFits(DecodeSpec(w).value, base)
  {
    hide EncodeSpec, DecodeSpec, Value, Digits;
    var i := DecodeSpec(w).value;
    DecodeRoundTrip(w);
    ValueDigits(EncodeSpec(Moved(i, base)));
    EncodeRoundTrip(Moved(i, base));
  }

  /** A jump moved to 265721, one past the largest target, decodes as a jump to -265720. */
  lemma TargetWraps()
    ensures var w := EncodeSpec(Instr(TJUMP, 13, 13, 13, 265720));
      && DecodeSpec(w) == Some(Instr(TJUMP, 13, 13, 13, 265720))
      && DecodeInt(MovedValue(w, 1)) == Some(Instr(TJUMP, 13, 13, 13, -265720))
  {
    hide EncodeSpec, DecodeSpec, Value, Digits, Wrap, Pow3, Half;
    var i, moved := Instr(TJUMP, 13, 13, 13, 265720), Instr(TJUMP, 13, 13, 13, 265721);
    Pow3At27();
    assert Pow3(12) == 2 * Half(12) + 1;
    EncodeRoundTrip(i);
    DecodeOfEncode(moved);
    WrapUnique(265721, 12, 1, -265720);
    WrapInRange(0, 3);
    ValueDigits(EncodeSpec(moved));
  }

  // ---- the relation between the two runs ----

  /** Outside both copies, cells agree, except that a return cell holds addresses Gap apart. */
  ghost predicate SameData(l: Layout, m: seq<int>, m': seq<int>, rets: set<int>) {
    && |m| == |m'|
    && forall x :: 0 <= x < |m| && !l.InCode(x) ==> m'[x] == m[x] + if x in rets then l.Gap() else 0
  }

  ghost predicate Related(l: Layout, s: State, t: State, rets: set<int>)
    requires l.Placeable()
  {
    && Shaped(s) && t == s.(pc := s.pc + l.Gap(), mem := t.mem)
    && SameData(l, s.mem, t.mem, rets)
    && Image(s.mem, l.a, l.blob) && Image(t.mem, l.b, l.blob)
  }

  /** The blob's instruction at the program counter of the copy at l.a, as it was moved there. */
  ghost function Current(l: Layout, s: State): Instr
    requires l.Placeable() && l.a <= s.pc < l.a + |l.blob|
  {
    Moved(DecodeSpec(l.blob[s.pc - l.a]).value, l.a)
  }

  /** What the step about to run must respect: it is in the blob, its data accesses and stack
      cells avoid both copies, loads avoid return cells, and a return pops one. */
  ghost predicate Behaves(l: Layout, s: State, rets: set<int>)
    requires l.Placeable() && Shaped(s)
  {
    && l.a <= s.pc < l.a + |l.blob|
    && Legal(Current(l, s)) && Avoids(l, s, Current(l, s), rets)
  }

  ghost predicate Avoids(l: Layout, s: State, i: Instr, rets: set<int>)
    requires Shaped(s) && Legal(i)
  {
    var x, y, sp := s.regs[i.src1], s.regs[i.src2], s.regs[26];
    match i.op
    case TLOAD => !l.InCode(x) && x !in rets
    case TSTORE => !l.InCode(y)
    case TVLOAD => forall k :: x <= k < x + 27 ==> !l.InCode(k) && k !in rets
    case TVSTORE => forall k :: y <= k < y + 27 ==> !l.InCode(k)
    case TCALL => !l.InCode(sp)
    case TRET => !l.InCode(sp - 1) && sp - 1 in rets
    case _ => true
  }

  /** The return cells after an instruction: a call adds one, a data store removes what it overwrites. */
  ghost function NextRets(s: State, i: Instr, rets: set<int>): set<int>
    requires Shaped(s) && Legal(i)
  {
    var y := s.regs[i.src2];
    match i.op
    case TSTORE => rets - {y}
    case TVSTORE => if i.src1 < 9 && 0 <= y then set x | x in rets && !(y <= x < y + 27) else rets
    case TCALL => rets + {s.regs[26]}
    case _ => rets
  }

  // ---- memory updates keep the relation ----

  ghost predicate SameMemory(l: Layout, m: seq<int>, m': seq<int>, rets: set<int>)
    requires l.Placeable()
  {
    SameData(l, m, m', rets) && Image(m, l.a, l.blob) && Image(m', l.b, l.blob)
  }

  lemma StoreKeeps(l: Layout, m: seq<int>, m': seq<int>, x: int, v: int, w: int,
                   rets: set<int>, rets': set<int>)
    requires l.Placeable() && SameMemory(l, m, m', rets) && InMem(m, x) && !l.InCode(x)
    requires w == v + if x in rets' then l.Gap() else 0
    requires rets' - {x} == rets - {x}
    ensures SameMemory(l, m[x := v], m'[x := w], rets')
  {
    hide MovedValue;
    forall y | 0 <= y < |m| && !l.InCode(y)
      ensures m'[x := w][y] == m[x := v][y] + if y in rets' then l.Gap() else 0
    {
      if y != x { assert y in rets <==> y in rets - {x}; assert y in rets' <==> y in rets' - {x}; }
    }
  }

  lemma {:induction false} VectorStoreKeeps(l: Layout, m: seq<int>, m': seq<int>, base: int, v: Vec, k: nat,
                                            rets: set<int>)
    requires l.Placeable() && SameMemory(l, m, m', rets) && k <= 27 && 0 <= base
    requires forall x :: base <= x < base + 27 ==> !l.InCode(x)
    ensures SameMemory(l, VStoreFrom(m, base, v, k), VStoreFrom(m', base, v, k),
                       set x | x in rets && !(base + k <= x < base + 27))
    decreases 27 - k
  {
    hide MovedValue, Image;
    var rest := set x | x in rets && !(base + k <= x < base + 27);
    if k == 27 {
      assert rest == rets;
    } else if !InMem(m, base + k) {
      assert VStoreFrom(m, base, v, k) == m && VStoreFrom(m', base, v, k) == m';
    } else {
      var rets1 := rets - {base + k};
      StoreKeeps(l, m, m', base + k, v[k], v[k], rets, rets1);
      VectorStoreKeeps(l, m[base + k := v[k]], m'[base + k := v[k]], base, v, k + 1, rets1);
      assert rest == set x | x in rets1 && !(base + k + 1 <= x < base + 27);
    }
  }

  // ---- one instruction ----

  /** The two outcomes of an instruction: the same fault, and related states. */
  ghost predicate SameOutcome(l: Layout, o: Outcome, o': Outcome, rets: set<int>)
    requires l.Placeable()
  {
    o.fault == o'.fault && Related(l, o.s, o'.s, rets)
  }

  /** The instruction the copy at l.b holds where the copy at l.a holds i. */
  function Twin(l: Layout, i: Instr): Instr {
    if IsJumpOp(i.op) then i.(imm := i.imm + l.Gap()) else i
  }

  lemma PushLockstep(l: Layout, s: State, t: State, i: Instr, rets: set<int>)
    requires l.Placeable() && Related(l, s, t, rets) && Legal(i) && Legal(Twin(l, i))
    requires i.op == TCALL && Avoids(l, s, i, rets)
    ensures SameOutcome(l, ExecBranch(s, i), ExecBranch(t, Twin(l, i)), rets + {s.regs[26]})
  {
    hide MovedValue, Wrap27, Image;
    var sp := s.regs[26];
    if InMem(s.mem, sp) {
      StoreKeeps(l, s.mem, t.mem, sp, s.pc, t.pc, rets, rets + {sp});
    } else {
      assert SameData(l, s.mem, t.mem, rets + {sp});
    }
  }

  lemma PopLockstep(l: Layout, s: State, t: State, i: Instr, rets: set<int>)
    requires l.Placeable() && Related(l, s, t, rets) && Legal(i) && i.op == TRET && Avoids(l, s, i, rets)
    ensures SameOutcome(l, ExecBranch(s, i), ExecBranch(t, i), rets)
  {
    hide MovedValue, Wrap27, Image, Taken;
  }

  lemma TakenAlike(l: Layout, s: State, t: State, i: Instr)
    requires |s.regs| == 27 && t.regs == s.regs && Legal(i) && Legal(Twin(l, i))
    ensures Taken(t, Twin(l, i)) == Taken(s, i)
  {
    hide Wrap27;
  }

  lemma JumpLockstep(l: Layout, s: State, t: State, i: Instr, rets: set<int>)
    requires l.Placeable() && Related(l, s, t, rets) && Legal(i) && Legal(Twin(l, i))
    requires IsBranch(i.op) && i.op != TCALL && i.op != TRET
    ensures SameOutcome(l, ExecBranch(s, i), ExecBranch(t, Twin(l, i)), rets)
  {
    hide Taken, Image, SameData, Decodable, PlaceableAt;
    TakenAlike(l, s, t, i);
  }

  lemma BranchLockstep(l: Layout, s: State, t: State, i: Instr, rets: set<int>)
    requires l.Placeable() && Related(l, s, t, rets) && Legal(i) && Legal(Twin(l, i))
    requires IsBranch(i.op) && Avoids(l, s, i, rets)
    ensures SameOutcome(l, ExecBranch(s, i), ExecBranch(t, Twin(l, i)), NextRets(s, i, rets))
  {
    hide ExecBranch, Related, SameOutcome;
    match i.op
    case TCALL => PushLockstep(l, s, t, i, rets);
    case TRET => PopLockstep(l, s, t, i, rets);
    case _ => JumpLockstep(l, s, t, i, rets);
  }

  lemma LoadsAgree(m: seq<int>, m': seq<int>, base: int)
    requires RunInMem(m, base) && RunInMem(m', base)
    requires forall x :: base <= x < base + 27 ==> m[x] == m'[x]
    ensures VLoad(m, base) == VLoad(m', base)
  {
  }

  lemma LoadLockstep(l: Layout, s: State, t: State, i: Instr, rets: set<int>)
    requires l.Placeable() && Related(l, s, t, rets) && Legal(i)
    requires (i.op == TLOAD || i.op == TVLOAD) && Avoids(l, s, i, rets)
    ensures SameOutcome(l, ExecMemory(s, i), ExecMemory(t, i), rets)
  {
    hide MovedValue, Image, VLoad;
    var x := s.regs[i.src1];
    if i.op == TVLOAD && RunInMem(s.mem, x) {
      LoadsAgree(s.mem, t.mem, x);
    }
  }

  lemma StoreLockstep(l: Layout, s: State, t: State, i: Instr, rets: set<int>)
    requires l.Placeable() && Related(l, s, t, rets) && Legal(i)
    requires (i.op == TSTORE || i.op == TVSTORE) && Avoids(l, s, i, rets)
    ensures SameOutcome(l, ExecMemory(s, i), ExecMemory(t, i), NextRets(s, i, rets))
  {
    hide MovedValue, Image;
    var x, y := s.regs[i.src1], s.regs[i.src2];
    if i.op == TVSTORE {
      if i.src1 < 9 && 0 <= y { VectorStoreKeeps(l, s.mem, t.mem, y, s.vecs[i.src1], 0, rets); }
    } else if InMem(s.mem, y) {
      StoreKeeps(l, s.mem, t.mem, y, x, x, rets, rets - {y});
    } else {
      assert SameData(l, s.mem, t.mem, rets - {y});
    }
  }

  lemma MemoryLockstep(l: Layout, s: State, t: State, i: Instr, rets: set<int>)
    requires l.Placeable() && Related(l, s, t, rets) && Legal(i)
    requires IsMemory(i.op) && Avoids(l, s, i, rets)
    ensures SameOutcome(l, ExecMemory(s, i), ExecMemory(t, i), NextRets(s, i, rets))
  {
    hide ExecMemory, Related, SameOutcome, Avoids;
    if i.op == TLOAD || i.op == TVLOAD {
      LoadLockstep(l, s, t, i, rets);
    } else {
      StoreLockstep(l, s, t, i, rets);
    }
  }

  lemma ScalarLockstep(l: Layout, s: State, t: State, i: Instr, rets: set<int>)
    requires l.Placeable() && Related(l, s, t, rets) && Legal(i) && IsScalar(i.op)
    ensures SameOutcome(l, Ok(ExecScalar(s, i)), Ok(ExecScalar(t, i)), rets)
  {
    hide ScalarValue, SameData, Image;
  }

  lemma VectorLockstep(l: Layout, s: State, t: State, i: Instr, rets: set<int>)
    requires l.Placeable() && Related(l, s, t, rets) && Legal(i) && IsVector(i.op)
    ensures SameOutcome(l, ExecVector(s, i), ExecVector(t, i), rets)
  {
    hide MovedValue, Image, SameData, ExecVector;
    VectorLocal(s, t, i);
  }

  /** Vector instructions neither read nor change the program counter and memory. */
  lemma VectorLocal(s: State, t: State, i: Instr)
    requires Shaped(s) && Shaped(t) && Legal(i) && IsVector(i.op) && t == s.(pc := t.pc, mem := t.mem)
    ensures var o, o' := ExecVector(s, i), ExecVector(t, i);
      && o.fault == o'.fault && o'.s == o.s.(pc := t.pc, mem := t.mem)
      && o.s.pc == s.pc && o.s.mem == s.mem && Shaped(o.s)
  {
    hide VAdd, VSub, VMul, VNeg, VMax, VShuf, VBroadcast, VMac, Sum;
  }

  /** Where the program counter and the counters stand plays no part in what an instruction must avoid. */
  lemma PcIrrelevant(l: Layout, s: State, s1: State, i: Instr, rets: set<int>)
    requires Shaped(s) && Shaped(s1) && Legal(i) && s1.regs == s.regs
    ensures Avoids(l, s, i, rets) <==> Avoids(l, s1, i, rets)
    ensures NextRets(s1, i, rets) == NextRets(s, i, rets)
  {
  }

  lemma ExecLockstep(l: Layout, s: State, t: State, i: Instr, rets: set<int>)
    requires l.Placeable() && Related(l, s, t, rets) && Legal(i) && Legal(Twin(l, i))
    requires Avoids(l, s, i, rets)
    ensures SameOutcome(l, Exec(s, i), Exec(t, Twin(l, i)), NextRets(s, i, rets))
  {
    hide ExecBranch, ExecMemory, ExecVector, ExecScalar, SameData, Image, Avoids;
    var s1, t1 := Bump(s, i.op), Bump(t, i.op);
    assert Related(l, s1, t1, rets);
    PcIrrelevant(l, s, s1, i, rets);
    if IsBranch(i.op) { BranchLockstep(l, s1, t1, i, rets); }
    else if IsMemory(i.op) { MemoryLockstep(l, s1, t1, i, rets); }
    else if IsVector(i.op) { VectorLockstep(l, s1, t1, i, rets); }
    else { ScalarLockstep(l, s1, t1, i, rets); }
  }

  // ---- one step, and whole runs ----

  lemma ImageAt(mem: seq<int>, base: nat, blob: seq<Word27>, k: nat)
    requires Decodable(blob) && Image(mem, base, blob) && k < |blob|
    ensures base + k < |mem| && DecodeSpec(blob[k]).Some? && mem[base + k] == MovedValue(blob[k], base)
  {
    hide MovedValue, DecodeSpec;
    assert DecodeSpec(blob[k]).Some?;
  }

  lemma FetchLockstep(l: Layout, s: State, t: State, rets: set<int>)
    requires l.Placeable() && Related(l, s, t, rets) && Behaves(l, s, rets)
    ensures DecodeInt(s.mem[s.pc]) == Some(Current(l, s))
    ensures InMem(t.mem, t.pc) && DecodeInt(t.mem[t.pc]) == Some(Twin(l, Current(l, s)))
    ensures Legal(Twin(l, Current(l, s)))
  {
    hide MovedValue, DecodeInt, DecodeSpec, Image, SameData, Avoids;
    var k := s.pc - l.a;
    ImageAt(s.mem, l.a, l.blob, k);
    ImageAt(t.mem, l.b, l.blob, k);
    MovedDecodes(l.blob[k], l.a);
    MovedDecodes(l.blob[k], l.b);
    DecodeIntLegal(t.mem[t.pc]);
  }

  /** One step of a well-behaved run: both copies fault alike or not at all, and stay related. */
  lemma StepLockstep(l: Layout, s: State, t: State, rets: set<int>)
    requires l.Placeable() && Related(l, s, t, rets) && !s.halted && Behaves(l, s, rets)
    ensures SameOutcome(l, Step(s), Step(t), NextRets(s, Current(l, s), rets))
  {
    assert In27(s.pc + 1) && In27(t.pc + 1);
    hide Step, Exec, DecodeInt, DecodeSpec, Current, SameData, Image, Avoids, NextRets, Legal, SameOutcome, In27;
    hide Layout.Placeable;
    FetchLockstep(l, s, t, rets);
    var i := Current(l, s);
    var s1, t1 := s.(pc := s.pc + 1), t.(pc := t.pc + 1);
    StepIs(s, i);
    StepIs(t, Twin(l, i));
    assert Related(l, s1, t1, rets);
    PcIrrelevant(l, s, s1, i, rets);
    ExecLockstep(l, s1, t1, i, rets);
  }

  /** Every step of the first n from s behaves. */
  ghost predicate RunBehaves(l: Layout, s: State, rets: set<int>, n: nat)
    requires l.Placeable() && Shaped(s)
    decreases n, s
  {
    n == 0 || s.halted ||
    (Behaves(l, s, rets) &&
     (Step(s).fault.Some? || RunBehaves(l, Step(s).s, NextRets(s, Current(l, s), rets), n - 1)))
  }

  /** The return cells after those steps. */
  ghost function RetsAfter(l: Layout, s: State, rets: set<int>, n: nat): set<int>
    requires l.Placeable() && Shaped(s)
    decreases n, s
  {
    if n == 0 || s.halted || !Behaves(l, s, rets) then rets
    else
      var rets1 := NextRets(s, Current(l, s), rets);
      if Step(s).fault.Some? then rets1 else RetsAfter(l, Step(s).s, rets1, n - 1)
  }

  /** Relocation theorem: the two copies run in lockstep for every number of steps. */
  lemma {:induction false} RunLockstep(l: Layout, s: State, t: State, rets: set<int>, n: nat)
    requires l.Placeable() && Related(l, s, t, rets) && RunBehaves(l, s, rets, n)
    ensures SameOutcome(l, Run(s, n), Run(t, n), RetsAfter(l, s, rets, n))
    decreases n
  {
    hide Step, Avoids, NextRets, SameData, Image, MovedValue, DecodeSpec;
    if n == 0 || s.halted {
    } else {
      StepLockstep(l, s, t, rets);
      if Step(s).fault.None? {
        RunLockstep(l, Step(s).s, Step(t).s, NextRets(s, Current(l, s), rets), n - 1);
      }
    }
  }

  /** A kernel call: from machines that agree outside the two copies, calling either copy with
      the same arguments gives the same result or the same fault, the same counters, and
      memories that agree on every data cell. */
  lemma CallLockstep(l: Layout, s: State, t: State, args: seq<int>)
    requires l.Placeable() && Shaped(s) && |args| <= 7
    requires t == s.(pc := t.pc, mem := t.mem, vecs := t.vecs, accs := t.accs, halted := t.halted)
    requires Shaped(t) && SameMemory(l, s.mem, t.mem, {})
    requires RunBehaves(l, CallState(s, l.a, args), {}, SAFETY_LIMIT)
    ensures var o, o' := RunToHalt(CallState(s, l.a, args)), RunToHalt(CallState(t, l.b, args));
      CallResult(o) == CallResult(o')
      && o.s.counts == o'.s.counts && o.s.total == o'.s.total
      && SameMemory(l, o.s.mem, o'.s.mem, RetsAfter(l, CallState(s, l.a, args), {}, SAFETY_LIMIT))
  {
    hide Run, SameData, Image, RunBehaves, RetsAfter;
    RunLockstep(l, CallState(s, l.a, args), CallState(t, l.b, args), {}, SAFETY_LIMIT);
  }

  /** Two installations of one blob into the same memory, at l.a and at l.b, satisfy the
      hypothesis of the theorem: each changed only the words it wrote. */
  lemma InstalledCopiesRelated(l: Layout, m: seq<int>, ma: seq<int>, mb: seq<int>)
    requires l.Placeable() && |ma| == |m| == |mb|
    requires Image(ma, l.a, l.blob) && Image(mb, l.b, l.blob)
    requires forall x :: 0 <= x < |m| && !(l.a <= x < l.a + |l.blob|) ==> ma[x] == m[x]
    requires forall x :: 0 <= x < |m| && !(l.b <= x < l.b + |l.blob|) ==> mb[x] == m[x]
    ensures SameMemory(l, ma, mb, {})
  {
    hide MovedValue;
  }

  // ---- blobs that satisfy the hypothesis by inspection ----

  /** No memory access, call or return; every target in the blob; no falling off its end. */
  ghost predicate Closed(blob: seq<Word27>) {
    Decodable(blob) && forall k :: 0 <= k < |blob| ==> ClosedAt(blob, k, DecodeSpec(blob[k]).value)
  }

  ghost predicate ClosedAt(blob: seq<Word27>, k: nat, i: Instr) {
    && !IsMemory(i.op) && i.op != TCALL && i.op != TRET
    && (IsJumpOp(i.op) ==> 0 <= i.imm < |blob|)
    && (i.op == THALT || i.op == TJUMP || k + 1 < |blob|)
  }

  lemma ClosedPlaceable(l: Layout)
    requires Closed(l.blob) && l.a + |l.blob| <= 265721 && l.b + |l.blob| <= 265721
    ensures l.Placeable()
  {
    hide DecodeSpec;
    forall k | 0 <= k < |l.blob|
      ensures TargetFits(DecodeSpec(l.blob[k]).value, l.a) && TargetFits(DecodeSpec(l.blob[k]).value, l.b)
    {
      assert ClosedAt(l.blob, k, DecodeSpec(l.blob[k]).value);
    }
  }

  lemma ScalarStaysPut(s: State, i: Instr)
    requires Shaped(s) && Legal(i) && IsScalar(i.op)
    ensures ExecScalar(s, i).mem == s.mem && ExecScalar(s, i).pc == s.pc
    ensures i.op == THALT ==> ExecScalar(s, i).halted
  {
    hide ScalarValue;
  }

  /** A branch other than a call or a return changes the program counter only. */
  lemma JumpGoes(s: State, i: Instr)
    requires Shaped(s) && Legal(i) && IsBranch(i.op) && i.op != TCALL && i.op != TRET
    ensures ExecBranch(s, i).s == s.(pc := if Taken(s, i) then i.imm else s.pc)
    ensures i.op == TJUMP ==> Taken(s, i)
  {
    hide Wrap27;
  }

  lemma ExecStaysPut(s: State, i: Instr)
    requires Shaped(s) && Legal(i) && !IsMemory(i.op) && i.op != TCALL && i.op != TRET
    ensures Exec(s, i).s.mem == s.mem
    ensures Exec(s, i).s.pc == s.pc || (IsJumpOp(i.op) && Exec(s, i).s.pc == i.imm)
    ensures (i.op == THALT ==> Exec(s, i).s.halted) && (i.op == TJUMP ==> Exec(s, i).s.pc == i.imm)
  {
    hide ExecVector, ExecScalar, ExecBranch, ExecMemory;
    var b := Bump(s, i.op);
    if IsBranch(i.op) { JumpGoes(b, i); }
    else if IsVector(i.op) { VectorLocal(b, b, i); }
    else if IsScalar(i.op) { ScalarStaysPut(b, i); }
  }

  lemma ClosedCurrent(l: Layout, s: State)
    requires l.Placeable() && Closed(l.blob) && l.a <= s.pc < l.a + |l.blob|
    ensures var i := Current(l, s);
      && !IsMemory(i.op) && i.op != TCALL && i.op != TRET
      && (IsJumpOp(i.op) ==> l.a <= i.imm < l.a + |l.blob|)
      && (i.op == THALT || i.op == TJUMP || s.pc + 1 < l.a + |l.blob|)
  {
    hide DecodeSpec;
    var k := s.pc - l.a;
    assert ClosedAt(l.blob, k, DecodeSpec(l.blob[k]).value);
  }

  lemma FetchAt(l: Layout, s: State)
    requires l.Placeable() && Image(s.mem, l.a, l.blob) && l.a <= s.pc < l.a + |l.blob|
    ensures DecodeInt(s.mem[s.pc]) == Some(Current(l, s)) && Legal(Current(l, s))
  {
    hide DecodeInt, DecodeSpec, MovedValue, Image, Legal, Moved;
    var k := s.pc - l.a;
    ImageAt(s.mem, l.a, l.blob, k);
    assert TargetFits(DecodeSpec(l.blob[k]).value, l.a);
    MovedDecodes(l.blob[k], l.a);
    DecodeIntLegal(s.mem[s.pc]);
  }

  lemma NothingToAvoid(l: Layout, s: State, i: Instr, rets: set<int>)
    requires Shaped(s) && Legal(i) && !IsMemory(i.op) && i.op != TCALL && i.op != TRET
    ensures Avoids(l, s, i, rets) && NextRets(s, i, rets) == rets
  {
  }

  /** From inside a closed blob a step behaves, changes no memory, and halts or stays inside. */
  lemma ClosedStep(l: Layout, s: State, rets: set<int>)
    requires l.Placeable() && Closed(l.blob) && Shaped(s) && !s.halted
    requires Image(s.mem, l.a, l.blob) && l.a <= s.pc < l.a + |l.blob|
    ensures Behaves(l, s, rets) && NextRets(s, Current(l, s), rets) == rets
    ensures Step(s).s.mem == s.mem
    ensures Step(s).fault.None? ==> Step(s).s.halted || l.a <= Step(s).s.pc < l.a + |l.blob|
  {
    hide Exec, DecodeInt, DecodeSpec, Current, Closed, Image, Legal, Layout.Placeable, Avoids, NextRets, IsMemory;
    FetchAt(l, s);
    ClosedCurrent(l, s);
    NothingToAvoid(l, s, Current(l, s), rets);
    ExecStaysPut(s.(pc := s.pc + 1), Current(l, s));
  }

  lemma {:induction false} ClosedBehaves(l: Layout, s: State, rets: set<int>, n: nat)
    requires l.Placeable() && Closed(l.blob) && Shaped(s)
    requires Image(s.mem, l.a, l.blob) && (s.halted || l.a <= s.pc < l.a + |l.blob|)
    ensures RunBehaves(l, s, rets, n) && RetsAfter(l, s, rets, n) == rets
    decreases n
  {
    hide Step, Behaves, NextRets, Current, Closed, Image;
    if n == 0 || s.halted {
    } else {
      ClosedStep(l, s, rets);
      if Step(s).fault.None? { ClosedBehaves(l, Step(s).s, rets, n - 1); }
    }
  }

  /** A closed blob relocates with no condition on its runs: wherever both copies fit the
      immediate, a call of either gives the same result or fault and leaves the same data. */
  lemma ClosedCallLockstep(l: Layout, s: State, t: State, args: seq<int>)
    requires Closed(l.blob) && l.blob != [] && l.Placeable() && Shaped(s) && |args| <= 7
    requires t == s.(pc := t.pc, mem := t.mem, vecs := t.vecs, accs := t.accs, halted := t.halted)
    requires Shaped(t) && SameMemory(l, s.mem, t.mem, {})
    ensures var o, o' := RunToHalt(CallState(s, l.a, args)), RunToHalt(CallState(t, l.b, args));
      CallResult(o) == CallResult(o')
      && o.s.counts == o'.s.counts && o.s.total == o'.s.total && SameMemory(l, o.s.mem, o'.s.mem, {})
  {
    hide Run, SameData, Image, RunBehaves, RetsAfter, Closed;
    ClosedBehaves(l, CallState(s, l.a, args), {}, SAFETY_LIMIT);
    CallLockstep(l, s, t, args);
  }
}
