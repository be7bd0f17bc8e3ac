/** Two hazards of the pipeline model and the exact configurations that are free of them: results
    that forwarding delays instead of speeding up, and the stack pointer, which calls and returns
    use without declaring it. Caches and a predictor may be attached or not. */
module HazardTheorems {
  import opened Isa
  import opened Hierarchy
  import opened Latencies
  import opened Predictor
  import opened Pipeline
  import opened TimingTheorems

  // ---- the longest latency a load can have ----

  /** Execute cycles beyond the first that some load of some trace takes, and none exceeds. */
  function LongestLoad(cfg: Config): nat
    requires SoundConfig(cfg)
  {
    if cfg.mem.None? then cfg.pipe.memExtra
    else
      var l := Longest(cfg.mem.value);
      if l < 1 then 0 else l - 1
  }

  /** The addresses a trace accesses. */
  function Addresses(trace: seq<Trace>): seq<nat> {
    if |trace| == 0 then []
    else
      var n := |trace| - 1;
      Addresses(trace[..n]) + if IsMemOp(trace[n].op) then [trace[n].memAddr] else []
  }

  /** The cache contents after a trace depend on its addresses alone. */
  lemma {:induction false} LevelsAfter(cfg: Config, trace: seq<Trace>)
    requires SoundConfig(cfg) && cfg.mem.Some?
    ensures LevelsOf(After(cfg, Start(cfg), trace).mem.value) == Visits(cfg.mem.value, Addresses(trace))
  {
    hide Access, Visit, FirstHit;
    if |trace| == 0 {
    } else {
      var n := |trace| - 1;
      LevelsAfter(cfg, trace[..n]);
      var s := After(cfg, Start(cfg), trace[..n]);
      if IsMemOp(trace[n].op) {
        AccessVisits(cfg.mem.value, s.mem.value, trace[n].memAddr, Proposed(cfg, s, trace[n]));
        VisitsNext(cfg.mem.value, Addresses(trace[..n]), trace[n].memAddr);
      } else {
        assert Addresses(trace) == Addresses(trace[..n]);
      }
    }
  }

  lemma ExtraWithin(cfg: Config, trace: seq<Trace>, t: Trace)
    requires SoundConfig(cfg) && IsMemOp(t.op)
    ensures Extra(cfg, After(cfg, Start(cfg), trace), t) <= LongestLoad(cfg)
  {
    hide Access, Longest, Visits, LatencyOf;
    if cfg.mem.Some? {
      var s := After(cfg, Start(cfg), trace);
      LevelsAfter(cfg, trace);
      AccessVisits(cfg.mem.value, s.mem.value, t.memAddr, Proposed(cfg, s, t));
      LatencyWithin(cfg.mem.value, Addresses(trace), t.memAddr);
    }
  }

  // ---- a warm-up that writes no register ----

  function Store(addr: nat): Trace { Trace(0, TSTORE, 0, 0, 0, addr, false, 0) }

  function Stores(addrs: seq<nat>): (r: seq<Trace>)
    ensures |r| == |addrs|
  {
    seq(|addrs|, i requires 0 <= i < |addrs| => Store(addrs[i]))
  }

  lemma {:induction false} StoresAddresses(addrs: seq<nat>)
    ensures Addresses(Stores(addrs)) == addrs
  {
    if |addrs| == 0 {
    } else {
      var n := |addrs| - 1;
      StoresAddresses(addrs[..n]);
      assert Stores(addrs)[..n] == Stores(addrs[..n]) && Stores(addrs)[n] == Store(addrs[n]);
      assert addrs == addrs[..n] + [addrs[n]];
    }
  }

  /** No register is waited for. */
  ghost predicate Idle(s: PipeState) { forall k, idx :: ReadyAt(s.ready, k, idx) == 0 }

  function Forwarded(cfg: Config): Config { cfg.(pipe := cfg.pipe.(forwarding := true)) }

  lemma StoreRetires(cfg: Config, s: PipeState, addr: nat)
    requires Matches(cfg, s) && Idle(s)
    ensures Matches(Forwarded(cfg), s)
    ensures Retire(cfg, s, Store(addr)).ready == s.ready
    ensures Retire(Forwarded(cfg), s, Store(addr)) == Retire(cfg, s, Store(addr))
  {
    hide Access;
    assert ReadyAt(s.ready, Scalar, 0) == 0 && ReadyAt(s.ready, NoReg, 0) == 0;
    assert DepIssue(cfg.pipe, s.ready, Store(addr)) == 0 == DepIssue(Forwarded(cfg).pipe, s.ready, Store(addr));
  }

  /** After it every register is still ready, with forwarding or without. */
  lemma {:induction false} StoresIdle(cfg: Config, addrs: seq<nat>)
    requires SoundConfig(cfg)
    ensures Idle(After(cfg, Start(cfg), Stores(addrs)))
    ensures After(Forwarded(cfg), Start(cfg), Stores(addrs)) == After(cfg, Start(cfg), Stores(addrs))
  {
    hide Retire;
    if |addrs| == 0 {
    } else {
      var n := |addrs| - 1;
      StoresIdle(cfg, addrs[..n]);
      assert Stores(addrs)[..n] == Stores(addrs[..n]) && Stores(addrs)[n] == Store(addrs[n]);
      StoreRetires(cfg, After(cfg, Start(cfg), Stores(addrs[..n])), addrs[n]);
    }
  }

  function Load(dst: nat, addr: nat): Trace { Trace(0, TLOAD, dst, 0, 0, addr, false, 0) }

  /** Some warmed-up load takes the longest latency. */
  lemma LongestLoadReached(cfg: Config, dst: nat) returns (addrs: seq<nat>, addr: nat)
    requires SoundConfig(cfg)
    ensures Extra(cfg, After(cfg, Start(cfg), Stores(addrs)), Load(dst, addr)) == LongestLoad(cfg)
  {
    hide Access, Longest, Visits, LatencyOf, Stores;
    addrs, addr := [], 0;
    if cfg.mem.Some? {
      addrs, addr := LongestReached(cfg.mem.value);
      var s := After(cfg, Start(cfg), Stores(addrs));
      LevelsAfter(cfg, Stores(addrs));
      StoresAddresses(addrs);
      AccessVisits(cfg.mem.value, s.mem.value, addr, Proposed(cfg, s, Load(dst, addr)));
    }
  }

  // ---- when forwarding helps ----

  ghost predicate NeverLater(fast: Config, slow: Config, trace: seq<Trace>)
    requires SoundConfig(fast) && SoundConfig(slow)
  {
    forall j :: 0 <= j < |trace| ==>
      TimingAt(fast, Start(fast), trace, j).issue <= TimingAt(slow, Start(slow), trace, j).issue
  }

  /** No unit takes more than one extra cycle, in any trace. */
  predicate ShortLatencies(cfg: Config)
    requires SoundConfig(cfg)
  {
    cfg.pipe.tvmacExtra <= 1 && cfg.pipe.vmulExtra <= 1 && LongestLoad(cfg) <= 1
  }

  /** The same configuration with operands never waited for. */
  function Untracked(cfg: Config): Config { cfg.(pipe := cfg.pipe.(trackRaw := false)) }

  /** Nothing waits, and nothing but the ready times tells the runs apart. */
  ghost predicate Free(cfg: Config, p: PipeState, q: PipeState) {
    && p == q.(ready := p.ready)
    && forall k, idx :: Wait(cfg.pipe, ReadyAt(p.ready, k, idx)) <= p.next
  }

  lemma NewReady(cfg: Config, s: PipeState, t: Trace, k: RegKind, idx: nat)
    requires Matches(cfg, s)
    ensures ReadyAt(Retire(cfg, s, t).ready, k, idx) == ReadyAt(s.ready, k, idx)
         || ReadyAt(Retire(cfg, s, t).ready, k, idx) == TimingOf(cfg, s, t).written
  {
    hide TimingOf, InfoOf;
  }

  lemma FreeIssue(cfg: Config, p: PipeState, q: PipeState, t: Trace)
    requires Matches(cfg, p) && Matches(Untracked(cfg), q) && Free(cfg, p, q)
    ensures Proposed(cfg, p, t) == Proposed(Untracked(cfg), q, t) == p.next
    ensures TimingOf(cfg, p, t) == TimingOf(Untracked(cfg), q, t)
  {
    hide Access, InfoOf;
    var i := InfoOf(t.op);
    assert Wait(cfg.pipe, ReadyAt(p.ready, i.src1, t.src1)) <= p.next;
    assert Wait(cfg.pipe, ReadyAt(p.ready, i.src2, t.src2)) <= p.next;
    assert Wait(cfg.pipe, ReadyAt(p.ready, i.dst, t.dst)) <= p.next;
  }

  lemma FreeStep(cfg: Config, p: PipeState, q: PipeState, t: Trace)
    requires Matches(cfg, p) && Matches(Untracked(cfg), q) && Free(cfg, p, q)
    requires cfg.pipe.forwarding && Extra(cfg, p, t) <= 1
    ensures Free(cfg, Retire(cfg, p, t), Retire(Untracked(cfg), q, t))
  {
    FreeIssue(cfg, p, q, t);
    var p', q' := Retire(cfg, p, t), Retire(Untracked(cfg), q, t);
    assert p' == q'.(ready := p'.ready) by { hide Access, Learn, Correct, InfoOf, SetReady; }
    forall k, idx ensures Wait(cfg.pipe, ReadyAt(p'.ready, k, idx)) <= p'.next {
      assert Wait(cfg.pipe, ReadyAt(p.ready, k, idx)) <= p.next;
      NewReady(cfg, p, t, k, idx);
    }
  }

  lemma ExtraShort(cfg: Config, trace: seq<Trace>, t: Trace)
    requires SoundConfig(cfg) && ShortLatencies(cfg)
    ensures Extra(cfg, After(cfg, Start(cfg), trace), t) <= 1
  {
    hide LongestLoad, Access;
    if IsMemOp(t.op) {
      ExtraWithin(cfg, trace, t);
    }
  }

  /** With forwarding and short latencies no instruction of any trace waits for an operand. */
  lemma {:induction false} FreeRun(cfg: Config, trace: seq<Trace>)
    requires SoundConfig(cfg) && cfg.pipe.forwarding && ShortLatencies(cfg)
    ensures Free(cfg, After(cfg, Start(cfg), trace), After(Untracked(cfg), Start(cfg), trace))
  {
    hide Retire, Extra, ShortLatencies;
    if |trace| == 0 {
    } else {
      var n := |trace| - 1;
      FreeRun(cfg, trace[..n]);
      ExtraShort(cfg, trace[..n], trace[n]);
      FreeStep(cfg, After(cfg, Start(cfg), trace[..n]), After(Untracked(cfg), Start(cfg), trace[..n]), trace[n]);
    }
  }

  lemma ShortNeverLater(cfg: Config, trace: seq<Trace>)
    requires SoundConfig(cfg) && cfg.pipe.trackRaw && !cfg.pipe.forwarding && ShortLatencies(Forwarded(cfg))
    ensures NeverLater(Forwarded(cfg), cfg, trace)
  {
    var fast := Forwarded(cfg);
    var loose := Untracked(fast);
    assert Faster(loose, cfg);
    StartAhead(loose, cfg);
    NoAnomaly(loose, cfg, Start(loose), Start(cfg), trace);
    hide ShortLatencies, TimingOf, After, Free, Faster;
    forall j | 0 <= j < |trace|
      ensures TimingAt(fast, Start(fast), trace, j).issue <= TimingAt(cfg, Start(cfg), trace, j).issue
    {
      FreeRun(fast, trace[..j]);
      FreeIssue(fast, After(fast, Start(fast), trace[..j]), After(loose, Start(fast), trace[..j]), trace[j]);
    }
  }

  // ---- a producer and its consumer ----

  /** One register is ready at c, every other at 0. */
  ghost predicate OneReady(r: Ready, k: RegKind, idx: nat, c: nat) {
    forall k', idx' :: ReadyAt(r, k', idx') == if k' == k && idx' == idx then c else 0
  }

  lemma OneReadyDep(pipe: PipeConfig, r: Ready, t: Trace, k: RegKind, idx: nat, c: nat)
    requires pipe.trackRaw && Tracked(k, idx) && OneReady(r, k, idx, c)
    ensures DepIssue(pipe, r, t) == if Reads(t, k, idx) then Wait(pipe, c) else 0
  {
    hide InfoOf, ReadyAt;
    var i := InfoOf(t.op);
    assert ReadyAt(r, i.src1, t.src1) == if i.src1 == k && t.src1 == idx then c else 0;
    assert ReadyAt(r, i.src2, t.src2) == if i.src2 == k && t.src2 == idx then c else 0;
    assert ReadyAt(r, i.dst, t.dst) == if i.dst == k && t.dst == idx then c else 0;
  }

  lemma ProducerReady(cfg: Config, s: PipeState, a: Trace, k: RegKind, idx: nat)
    requires Matches(cfg, s) && Idle(s) && cfg.pipe.trackRaw && Tracked(k, idx) && Writes(a, k, idx)
    ensures OneReady(Retire(cfg, s, a).ready, k, idx, TimingOf(cfg, s, a).written)
  {
    hide InfoOf, TimingOf;
    var c := TimingOf(cfg, s, a).written;
    forall k', idx'
      ensures ReadyAt(SetReady(s.ready, k, idx, c), k', idx') == if k' == k && idx' == idx then c else 0
    {
      assert ReadyAt(s.ready, k', idx') == 0;
    }
  }

  /** From an idle state, a producer that is no branch and then an instruction that is no memory
      access: it waits for the result if it declares that it reads it, and otherwise does not wait. */
  lemma PairIssue(cfg: Config, s: PipeState, a: Trace, b: Trace, k: RegKind, idx: nat)
    requires Matches(cfg, s) && Idle(s) && cfg.pipe.trackRaw && Tracked(k, idx)
    requires Writes(a, k, idx) && !IsBranchOp(a.op) && !IsMemOp(b.op)
    ensures var issue, written := TimingOf(cfg, s, a).issue, TimingOf(cfg, s, a).written;
      TimingOf(cfg, Retire(cfg, s, a), b).issue
        == Max(issue + 1, if Reads(b, k, idx) then Wait(cfg.pipe, written) else 0)
  {
    ProducerReady(cfg, s, a, k, idx);
    OneReadyDep(cfg.pipe, Retire(cfg, s, a).ready, b, k, idx, TimingOf(cfg, s, a).written);
    hide DepIssue, InfoOf, ReadyAfter, MemAfter, BpAfter, OneReady, Extra;
  }

  /** The two instructions after a warm-up. */
  function Pair(addrs: seq<nat>, a: Trace, b: Trace): (r: seq<Trace>)
    ensures |r| == |addrs| + 2
  {
    Stores(addrs) + [a, b]
  }

  lemma PairTiming(cfg: Config, addrs: seq<nat>, a: Trace, b: Trace)
    requires SoundConfig(cfg)
    ensures var s, trace := After(cfg, Start(cfg), Stores(addrs)), Pair(addrs, a, b);
      && TimingAt(cfg, Start(cfg), trace, |addrs|) == TimingOf(cfg, s, a)
      && TimingAt(cfg, Start(cfg), trace, |addrs| + 1) == TimingOf(cfg, Retire(cfg, s, a), b)
  {
    hide TimingOf, Retire, Stores;
    var trace := Pair(addrs, a, b);
    assert trace[..|addrs|] == Stores(addrs);
    assert trace[..|addrs| + 1][..|addrs|] == Stores(addrs);
  }

  // ---- forwarding hurts a short pipeline with a long latency ----

  lemma LongerWait(pipe: PipeConfig, issue: nat, e: nat)
    requires SoundPipe(pipe) && !pipe.forwarding && pipe.depth < 3 && e > 1
    ensures var fast := pipe.(forwarding := true);
      Max(issue + 1, Wait(fast, issue + WriteOffset(fast, e)))
        > Max(issue + 1, Wait(pipe, issue + WriteOffset(pipe, e)))
  {
  }

  /** A result with more than one extra cycle, consumed at once, is delayed. */
  lemma PairDelayed(cfg: Config, addrs: seq<nat>, a: Trace, b: Trace, k: RegKind, idx: nat)
    requires SoundConfig(cfg) && cfg.pipe.trackRaw && !cfg.pipe.forwarding && cfg.pipe.depth < 3 && Tracked(k, idx)
    requires Writes(a, k, idx) && !IsBranchOp(a.op) && !IsMemOp(b.op) && Reads(b, k, idx)
    requires Extra(cfg, After(cfg, Start(cfg), Stores(addrs)), a) > 1
    ensures !NeverLater(Forwarded(cfg), cfg, Pair(addrs, a, b))
  {
    hide After, Retire, IssueCycle, Extra, Reads, Writes, Stores, Pair, Tracked, WriteOffset, Wait;
    hide InfoOf, IsMemOp, IsBranchOp;
    var fast, s := Forwarded(cfg), After(cfg, Start(cfg), Stores(addrs));
    StoresIdle(cfg, addrs);
    PairTiming(cfg, addrs, a, b);
    PairTiming(fast, addrs, a, b);
    PairIssue(cfg, s, a, b, k, idx);
    PairIssue(fast, s, a, b, k, idx);
    SameProducer(cfg, s, a);
    LongerWait(cfg.pipe, TimingOf(cfg, s, a).issue, Extra(cfg, s, a));
    assert TimingAt(fast, Start(fast), Pair(addrs, a, b), |addrs| + 1).issue
         > TimingAt(cfg, Start(cfg), Pair(addrs, a, b), |addrs| + 1).issue;
  }

  lemma SameProducer(cfg: Config, s: PipeState, a: Trace)
    requires Matches(cfg, s) && Idle(s)
    ensures Matches(Forwarded(cfg), s)
    ensures IssueCycle(Forwarded(cfg), s, a) == IssueCycle(cfg, s, a) && Extra(Forwarded(cfg), s, a) == Extra(cfg, s, a)
  {
    hide Access, InfoOf;
    var i := InfoOf(a.op);
    assert ReadyAt(s.ready, i.src1, a.src1) == 0 && ReadyAt(s.ready, i.src2, a.src2) == 0;
    assert ReadyAt(s.ready, i.dst, a.dst) == 0;
  }

  /** Instructions that forwarding delays, when the pipeline is too short and a latency too long. */
  lemma ForwardingHurts(cfg: Config) returns (trace: seq<Trace>)
    requires SoundConfig(cfg) && cfg.pipe.trackRaw && !cfg.pipe.forwarding
    requires cfg.pipe.depth < 3 && !ShortLatencies(cfg)
    ensures !NeverLater(Forwarded(cfg), cfg, trace)
  {
    hide NeverLater, After, LongestLoad, Access;
    if cfg.pipe.tvmacExtra > 1 {
      var a := Trace(0, TVMAC, 0, 0, 0, 0, false, 0);
      PairDelayed(cfg, [], a, a, Acc, 0);
      trace := Pair([], a, a);
    } else if cfg.pipe.vmulExtra > 1 {
      var a, b := Trace(0, TVMUL, 0, 0, 0, 0, false, 0), Trace(1, TVNEG, 1, 0, 0, 0, false, 0);
      PairDelayed(cfg, [], a, b, Vector, 0);
      trace := Pair([], a, b);
    } else {
      var addrs, addr := LongestLoadReached(cfg, 1);
      var b := Trace(1, TNEG, 2, 1, 0, 0, false, 0);
      PairDelayed(cfg, addrs, Load(1, addr), b, Scalar, 1);
      trace := Pair(addrs, Load(1, addr), b);
    }
  }

  /** With or without caches and a predictor, turning forwarding on delays no instruction of any
      trace exactly when the pipeline has at least three stages or no unit takes more than one
      extra cycle in any trace. */
  lemma ForwardingHelps(cfg: Config)
    requires SoundConfig(cfg) && cfg.pipe.trackRaw && !cfg.pipe.forwarding
    ensures (forall trace :: NeverLater(Forwarded(cfg), cfg, trace))
      <==> cfg.pipe.depth >= 3 || ShortLatencies(cfg)
  {
    if cfg.pipe.depth >= 3 {
      StartAhead(Forwarded(cfg), cfg);
      forall trace ensures NeverLater(Forwarded(cfg), cfg, trace) {
        NoAnomaly(Forwarded(cfg), cfg, Start(Forwarded(cfg)), Start(cfg), trace);
      }
    } else if ShortLatencies(cfg) {
      forall trace ensures NeverLater(Forwarded(cfg), cfg, trace) { ShortNeverLater(cfg, trace); }
    } else {
      var trace := ForwardingHurts(cfg);
    }
  }

  // ---- the stack pointer ----

  /** Calls and returns read and write R26, whatever they encode. */
  predicate UsesStack(t: Trace) { t.op == TCALL || t.op == TRET }

  predicate ReadsSp(t: Trace) { Reads(t, Scalar, 26) || UsesStack(t) }

  predicate WritesSp(t: Trace) { Writes(t, Scalar, 26) || UsesStack(t) }

  /** The latest instruction before j that writes R26. */
  ghost predicate LatestSpWriter(trace: seq<Trace>, j: nat, i: nat) {
    i < j <= |trace| && WritesSp(trace[i]) && forall m :: i < m < j ==> !WritesSp(trace[m])
  }

  /** Every read of R26 comes no earlier than its latest write is visible. */
  ghost predicate SpSafe(cfg: Config, trace: seq<Trace>)
    requires SoundConfig(cfg)
  {
    forall i, j :: 0 <= i < j < |trace| && ReadsSp(trace[j]) && LatestSpWriter(trace, j, i) ==>
      TimingAt(cfg, Start(cfg), trace, i).written <= TimingAt(cfg, Start(cfg), trace, j).issue + ReadOffset(cfg.pipe)
  }

  /** Calls and returns encode register d as their destination. */
  ghost predicate Encodes(trace: seq<Trace>, d: nat) {
    forall k :: 0 <= k < |trace| && UsesStack(trace[k]) ==> trace[k].dst == d
  }

  /** Even a longest load is visible to the instruction right behind it. */
  predicate NoHazard(cfg: Config)
    requires SoundConfig(cfg)
  {
    WriteOffset(cfg.pipe, LongestLoad(cfg)) <= ReadOffset(cfg.pipe) + 1
  }

  lemma DeclaredSp(t: Trace)
    requires UsesStack(t) ==> t.dst == 26
    ensures ReadsSp(t) <==> Reads(t, Scalar, 26)
    ensures WritesSp(t) <==> Writes(t, Scalar, 26)
  {
  }

  /** Encoding R26 makes every use declared. */
  lemma DeclaredSafe(cfg: Config, trace: seq<Trace>)
    requires SoundConfig(cfg) && cfg.pipe.trackRaw && Encodes(trace, 26)
    ensures SpSafe(cfg, trace)
  {
    hide TimingAt, Reads, Writes, ReadsSp, WritesSp;
    forall i, j | 0 <= i < j < |trace| && ReadsSp(trace[j]) && LatestSpWriter(trace, j, i)
      ensures TimingAt(cfg, Start(cfg), trace, i).written
           <= TimingAt(cfg, Start(cfg), trace, j).issue + ReadOffset(cfg.pipe)
    {
      forall m | 0 <= m < |trace| ensures ReadsSp(trace[m]) <==> Reads(trace[m], Scalar, 26)
        ensures WritesSp(trace[m]) <==> Writes(trace[m], Scalar, 26)
      {
        DeclaredSp(trace[m]);
      }
      RawSafe(cfg, Start(cfg), trace, j, Scalar, 26, i);
    }
  }

  lemma SpWriterExtra(cfg: Config, trace: seq<Trace>, t: Trace)
    requires SoundConfig(cfg) && WritesSp(t)
    ensures Extra(cfg, After(cfg, Start(cfg), trace), t) <= LongestLoad(cfg)
  {
    hide LongestLoad, Access;
    if IsMemOp(t.op) { ExtraWithin(cfg, trace, t); }
  }

  lemma QuickSafe(cfg: Config, trace: seq<Trace>)
    requires SoundConfig(cfg) && NoHazard(cfg)
    ensures SpSafe(cfg, trace)
  {
    hide Extra, IssueCycle, LongestLoad, ReadsSp, WritesSp;
    forall i, j | 0 <= i < j < |trace| && ReadsSp(trace[j]) && LatestSpWriter(trace, j, i)
      ensures TimingAt(cfg, Start(cfg), trace, i).written
           <= TimingAt(cfg, Start(cfg), trace, j).issue + ReadOffset(cfg.pipe)
    {
      SpWriterExtra(cfg, trace[..i], trace[i]);
      IssueIncreases(cfg, Start(cfg), trace, i, j);
    }
  }

  function Call(d: nat): Trace { Trace(1, TCALL, d, 0, 0, 0, true, 0) }

  lemma PairUsesSp(addrs: seq<nat>, addr: nat, d: nat)
    ensures var n, trace := |addrs|, Pair(addrs, Load(26, addr), Call(d));
      && Encodes(trace, d) && ReadsSp(trace[n + 1]) && LatestSpWriter(trace, n + 1, n)
  {
    var n, trace := |addrs|, Pair(addrs, Load(26, addr), Call(d));
    assert trace[n] == Load(26, addr) && trace[n + 1] == Call(d);
    assert forall k :: 0 <= k < n ==> trace[k] == Store(addrs[k]);
  }

  /** A longest load of R26 with a call right behind it that encodes another register. */
  lemma SpUnsafe(cfg: Config, d: nat) returns (trace: seq<Trace>)
    requires SoundConfig(cfg) && cfg.pipe.trackRaw && d != 26 && !NoHazard(cfg)
    ensures Encodes(trace, d) && !SpSafe(cfg, trace)
  {
    hide After, Retire, IssueCycle, LongestLoad, TimingAt, Extra, Pair, Stores, ReadsSp, LatestSpWriter, Encodes;
    var addrs, addr := LongestLoadReached(cfg, 26);
    var s := After(cfg, Start(cfg), Stores(addrs));
    trace := Pair(addrs, Load(26, addr), Call(d));
    StoresIdle(cfg, addrs);
    PairTiming(cfg, addrs, Load(26, addr), Call(d));
    PairIssue(cfg, s, Load(26, addr), Call(d), Scalar, 26);
    PairUsesSp(addrs, addr, d);
  }

  /** Stack-pointer safety: over all traces whose calls and returns encode d, R26 is read no
      earlier than its latest write is visible exactly when d is 26 or no latency is long enough. */
  lemma StackPointerSafe(cfg: Config, d: nat)
    requires SoundConfig(cfg) && cfg.pipe.trackRaw
    ensures (forall trace :: Encodes(trace, d) ==> SpSafe(cfg, trace)) <==> d == 26 || NoHazard(cfg)
  {
    hide SpSafe, Encodes, NoHazard;
    if d == 26 {
      forall trace | Encodes(trace, d) ensures SpSafe(cfg, trace) { DeclaredSafe(cfg, trace); }
    } else if NoHazard(cfg) {
      forall trace | Encodes(trace, d) ensures SpSafe(cfg, trace) { QuickSafe(cfg, trace); }
    } else {
      var trace := SpUnsafe(cfg, d);
    }
  }

  /** The default pipeline: seven stages, forwarding, extra cycles 1, 1 and 2, nothing attached. */
  const DEFAULT_PIPE := Config(PipeConfig(7, 1, 1, 2, true, true), None, None)

  /** A load of R26 and an assembled call, which encodes R0: the call reads in cycle 5 what is
      written in cycle 6. */
  lemma AssembledCallTooEarly()
    ensures var trace := [Load(26, 0), Call(0)];
      && TimingAt(DEFAULT_PIPE, Start(DEFAULT_PIPE), trace, 0).written == 6
      && TimingAt(DEFAULT_PIPE, Start(DEFAULT_PIPE), trace, 1).issue + ReadOffset(DEFAULT_PIPE.pipe) == 5
      && !SpSafe(DEFAULT_PIPE, trace)
  {
    var cfg, a, b := DEFAULT_PIPE, Load(26, 0), Call(0);
    var trace := [a, b];
    StoresIdle(cfg, []);
    PairTiming(cfg, [], a, b);
    assert Pair([], a, b) == trace;
    PairIssue(cfg, Start(cfg), a, b, Scalar, 26);
    assert ReadsSp(trace[1]) && LatestSpWriter(trace, 1, 0);
  }
}
