/** The two-level data hierarchy with a bounded number of outstanding first-level misses.
    A miss issues at the earliest cycle, not before the proposed one, at which a miss register
    is free. */
module Hierarchy {
  import opened LruStack
  import opened CacheModel

  /** mshrs <= 0 means no bound. */
  datatype MemConfig = MemConfig(l1: CacheConfig, l2: CacheConfig, dramLatency: nat, mshrs: int)

  datatype MemStats = MemStats(l1: CacheStats, l2: CacheStats, dramAccesses: nat, stallCycles: nat)

  datatype MemResult = MemResult(latency: nat, issue: nat)

  /** The hierarchy as its history: the lines each level was asked for, the completion cycles
      of all misses so far and of those still recorded, the latest cycle any access issued at,
      and the cycle last proposed. */
  datatype MemState = MemState(lines1: seq<nat>, lines2: seq<nat>, frees: seq<nat>, inFlight: seq<nat>,
                               now: nat, asked: nat)

  function Max(a: nat, b: nat): nat { if a > b then a else b }

  predicate SoundMem(cfg: MemConfig) { Sound(cfg.l1) && Sound(cfg.l2) }

  // ---- the list of completion cycles ----

  /** The entries later than t, in order. */
  function Prune(s: seq<nat>, t: nat): (r: seq<nat>)
    ensures |r| <= |s|
  {
    if |s| == 0 then []
    else if s[0] > t then [s[0]] + Prune(s[1..], t)
    else Prune(s[1..], t)
  }

  function Least(s: seq<nat>): (m: nat)
    requires |s| > 0
    ensures m in s
  {
    if |s| == 1 then s[0]
    else if s[0] < Least(s[1..]) then s[0] else Least(s[1..])
  }

  lemma {:induction false} PruneMembers(s: seq<nat>, t: nat, c: nat)
    ensures c in Prune(s, t) <==> c in s && c > t
  {
    if |s| == 0 {
    } else {
      assert s == [s[0]] + s[1..];
      PruneMembers(s[1..], t, c);
    }
  }

  /** How many misses are outstanding after cycle t. */
  function Outstanding(frees: seq<nat>, t: nat): nat { |Prune(frees, t)| }

  // ---- one access ----

  function LineOf1(cfg: MemConfig, addr: nat): nat requires SoundMem(cfg) { addr / cfg.l1.lineBytes }

  function LineOf2(cfg: MemConfig, addr: nat): nat requires SoundMem(cfg) { addr / cfg.l2.lineBytes }

  predicate Hit1(cfg: MemConfig, m: MemState, addr: nat)
    requires SoundMem(cfg)
  {
    ReuseHit(m.lines1, LineOf1(cfg, addr), Sets(cfg.l1), cfg.l1.ways)
  }

  predicate Hit2(cfg: MemConfig, m: MemState, addr: nat)
    requires SoundMem(cfg)
  {
    ReuseHit(m.lines2, LineOf2(cfg, addr), Sets(cfg.l2), cfg.l2.ways)
  }

  function MissLatency(cfg: MemConfig, m: MemState, addr: nat): nat
    requires SoundMem(cfg)
  {
    if Hit2(cfg, m, addr) then cfg.l2.hitLatency else cfg.dramLatency
  }

  /** The cycle a miss proposed for p issues at, given the misses recorded after p. */
  function IssueOf(cfg: MemConfig, live: seq<nat>, p: nat): nat {
    if cfg.mshrs > 0 && |live| >= cfg.mshrs then Least(live) else p
  }

  lemma IssueNotBefore(cfg: MemConfig, s: seq<nat>, p: nat)
    ensures p <= IssueOf(cfg, Prune(s, p), p)
  {
    var issue := IssueOf(cfg, Prune(s, p), p);
    if issue != p { PruneMembers(s, p, issue); }
  }

  function Access(cfg: MemConfig, m: MemState, addr: nat, p: nat): (r: (MemState, MemResult))
    requires SoundMem(cfg)
    ensures p <= r.1.issue
  {
    var live := Prune(m.inFlight, p);
    IssueNotBefore(cfg, m.inFlight, p);
    var lines1 := m.lines1 + [LineOf1(cfg, addr)];
    if Hit1(cfg, m, addr) then
      (m.(lines1 := lines1, inFlight := live, now := Max(m.now, p), asked := p), MemResult(cfg.l1.hitLatency, p))
    else
      var issue := IssueOf(cfg, live, p);
      var left := if issue == p then live else Prune(live, issue);
      var latency := MissLatency(cfg, m, addr);
      (MemState(lines1, m.lines2 + [LineOf2(cfg, addr)], m.frees + [issue + latency],
                left + [issue + latency], Max(m.now, issue), p),
       MemResult(latency, issue))
  }

  const IDLE := MemState([], [], [], [], 0, 0)

  // ---- what any proposals keep ----

  /** No more misses are recorded than there are registers, and none that is not outstanding. */
  ghost predicate Counted(cfg: MemConfig, m: MemState) {
    && (cfg.mshrs > 0 ==> |m.inFlight| <= cfg.mshrs)
    && forall t :: Outstanding(m.inFlight, t) <= Outstanding(m.frees, t)
  }

  /** From the latest issue cycle on, the recorded misses are the outstanding ones. */
  ghost predicate Tracks(cfg: MemConfig, m: MemState) {
    Counted(cfg, m) && forall t :: t >= m.now ==> Prune(m.inFlight, t) == Prune(m.frees, t)
  }

  /** With nondecreasing proposals, the latest issue lies after the last proposal only because of
      a stall: until then every register is taken. */
  ghost predicate Paced(cfg: MemConfig, m: MemState) {
    && Tracks(cfg, m)
    && (m.asked < m.now ==> cfg.mshrs > 0)
    && forall t :: m.asked <= t < m.now ==> Outstanding(m.frees, t) >= cfg.mshrs
  }

  lemma {:induction false} PruneTwice(s: seq<nat>, t: nat, u: nat)
    requires t <= u
    ensures Prune(Prune(s, t), u) == Prune(s, u)
  {
    if |s| == 0 {
    } else {
      PruneTwice(s[1..], t, u);
    }
  }

  lemma {:induction false} PruneSnoc(s: seq<nat>, c: nat, t: nat)
    ensures Prune(s + [c], t) == Prune(s, t) + if c > t then [c] else []
  {
    if |s| == 0 {
    } else {
      assert (s + [c])[1..] == s[1..] + [c];
      PruneSnoc(s[1..], c, t);
    }
  }

  /** Pruning drops something as soon as an entry has completed. */
  lemma {:induction false} PruneShrinks(s: seq<nat>, t: nat, c: nat)
    requires c in s && c <= t
    ensures |Prune(s, t)| < |s|
  {
    if s[0] <= t {
    } else {
      assert s == [s[0]] + s[1..];
      PruneShrinks(s[1..], t, c);
    }
  }

  /** Before the least entry nothing completes. */
  lemma {:induction false} PruneBelowLeast(s: seq<nat>, t: nat)
    requires |s| > 0 && t < Least(s)
    ensures Prune(s, t) == s
  {
    if |s| == 1 {
    } else {
      PruneBelowLeast(s[1..], t);
    }
  }

  lemma {:induction false} PruneFewer(s: seq<nat>, t: nat, u: nat)
    ensures Outstanding(Prune(s, t), u) <= Outstanding(s, u)
  {
    if |s| == 0 {
    } else {
      PruneFewer(s[1..], t, u);
    }
  }

  /** A stalled miss waits for the least recorded completion: all registers are taken until
      then, and one is free then. */
  lemma IssueRoom(cfg: MemConfig, m: MemState, p: nat)
    requires Counted(cfg, m)
    ensures var live := Prune(m.inFlight, p); var issue := IssueOf(cfg, live, p);
      && p <= issue
      && (cfg.mshrs > 0 ==> Outstanding(m.inFlight, issue) < cfg.mshrs)
      && (p < issue ==> cfg.mshrs > 0)
      && (forall t :: p <= t < issue ==> Outstanding(m.frees, t) >= cfg.mshrs)
  {
    var live := Prune(m.inFlight, p);
    var issue := IssueOf(cfg, live, p);
    IssueNotBefore(cfg, m.inFlight, p);
    if cfg.mshrs > 0 && |live| >= cfg.mshrs {
      PruneTwice(m.inFlight, p, issue);
      PruneFewer(m.inFlight, p, p);
      PruneLength(m.inFlight, p);
      PruneShrinks(live, issue, issue);
      forall t | p <= t < issue ensures Outstanding(m.frees, t) >= cfg.mshrs {
        PruneTwice(m.inFlight, p, t);
        PruneBelowLeast(live, t);
        assert Outstanding(m.inFlight, t) <= Outstanding(m.frees, t);
      }
    }
  }

  lemma PruneLength(s: seq<nat>, t: nat)
    ensures |Prune(s, t)| <= |s|
  {
  }

  /** The bound on the registers holds whatever is proposed. */
  lemma AccessCounted(cfg: MemConfig, m: MemState, addr: nat, p: nat)
    requires SoundMem(cfg) && Counted(cfg, m)
    ensures Counted(cfg, Access(cfg, m, addr, p).0)
  {
    hide Hit1, MissLatency, Prune;
    var (m', r) := Access(cfg, m, addr, p);
    var live := Prune(m.inFlight, p);
    PruneLength(m.inFlight, p);
    forall t ensures Outstanding(live, t) <= Outstanding(m.frees, t) { PruneFewer(m.inFlight, p, t); }
    if !Hit1(cfg, m, addr) {
      IssueRoom(cfg, m, p);
      var left := if r.issue == p then live else Prune(live, r.issue);
      PruneTwice(m.inFlight, p, r.issue);
      assert left == Prune(m.inFlight, r.issue);
      var c := r.issue + MissLatency(cfg, m, addr);
      forall t ensures Outstanding(m'.inFlight, t) <= Outstanding(m'.frees, t) {
        PruneFewer(live, r.issue, t);
        PruneSnoc(left, c, t);
        PruneSnoc(m.frees, c, t);
      }
    }
  }

  lemma AccessTracks(cfg: MemConfig, m: MemState, addr: nat, p: nat)
    requires SoundMem(cfg) && Tracks(cfg, m)
    ensures Tracks(cfg, Access(cfg, m, addr, p).0)
    ensures Access(cfg, m, addr, p).0.now == Max(m.now, Access(cfg, m, addr, p).1.issue)
  {
    AccessCounted(cfg, m, addr, p);
    var m' := Access(cfg, m, addr, p).0;
    forall t | t >= m'.now ensures Prune(m'.inFlight, t) == Prune(m'.frees, t) {
      TracksFrom(cfg, m, addr, p, t);
    }
    hide Access, Counted, Prune;
  }

  lemma TracksFrom(cfg: MemConfig, m: MemState, addr: nat, p: nat, t: nat)
    requires SoundMem(cfg) && Tracks(cfg, m) && t >= Access(cfg, m, addr, p).0.now
    ensures var m' := Access(cfg, m, addr, p).0;
      Prune(m'.inFlight, t) == Prune(m'.frees, t)
  {
    hide Hit1, MissLatency, Counted, IssueOf, Prune;
    var issue, live := Access(cfg, m, addr, p).1.issue, Prune(m.inFlight, p);
    PruneTwice(m.inFlight, p, t);
    if !Hit1(cfg, m, addr) {
      var left := if issue == p then live else Prune(live, issue);
      PruneTwice(live, issue, t);
      var c := issue + MissLatency(cfg, m, addr);
      PruneSnoc(left, c, t);
      PruneSnoc(m.frees, c, t);
    }
  }

  // ---- nondecreasing proposals, and when a miss issues as early as it can ----

  lemma AccessPaced(cfg: MemConfig, m: MemState, addr: nat, p: nat)
    requires SoundMem(cfg) && Paced(cfg, m) && m.asked <= p
    ensures Paced(cfg, Access(cfg, m, addr, p).0)
  {
    AccessTracks(cfg, m, addr, p);
    var m' := Access(cfg, m, addr, p).0;
    assert m'.asked == p;
    hide Access, Tracks, Outstanding;
    if m'.asked < m'.now { PacedBefore(cfg, m, addr, p, p); }
    forall t | m'.asked <= t < m'.now ensures Outstanding(m'.frees, t) >= cfg.mshrs {
      PacedBefore(cfg, m, addr, p, t);
    }
  }

  lemma PacedBefore(cfg: MemConfig, m: MemState, addr: nat, p: nat, t: nat)
    requires SoundMem(cfg) && Paced(cfg, m) && m.asked <= p
    requires p <= t < Access(cfg, m, addr, p).0.now
    ensures cfg.mshrs > 0 && Outstanding(Access(cfg, m, addr, p).0.frees, t) >= cfg.mshrs
  {
    IssueRoom(cfg, m, p);
    hide Hit1, MissLatency, Tracks, IssueOf, Prune;
    assert t < m.now ==> Outstanding(m.frees, t) >= cfg.mshrs;
    if !Hit1(cfg, m, addr) {
      PruneSnoc(m.frees, Access(cfg, m, addr, p).1.issue + MissLatency(cfg, m, addr), t);
    }
  }

  /** The cycle is the first from p on at which a register is free. */
  ghost predicate Earliest(cfg: MemConfig, frees: seq<nat>, p: nat, issue: nat) {
    && p <= issue
    && (cfg.mshrs > 0 ==> Outstanding(frees, issue) < cfg.mshrs)
    && (p < issue ==> cfg.mshrs > 0)
    && forall t :: p <= t < issue ==> Outstanding(frees, t) >= cfg.mshrs
  }

  /** Proposed for p, a miss does not issue before an earlier access: it is proposed no earlier, or
      every register is taken at p and the first to complete does so no earlier. */
  predicate InOrder(cfg: MemConfig, m: MemState, p: nat) {
    var live := Prune(m.inFlight, p);
    p >= m.now || (cfg.mshrs > 0 && |live| >= cfg.mshrs && Least(live) >= m.now)
  }

  lemma InOrderIssue(cfg: MemConfig, m: MemState, addr: nat, p: nat)
    requires SoundMem(cfg) && !Hit1(cfg, m, addr)
    ensures InOrder(cfg, m, p) <==> Access(cfg, m, addr, p).1.issue >= m.now
  {
    IssueNotBefore(cfg, m.inFlight, p);
  }

  /** For nondecreasing proposals a miss issues at the earliest cycle with a free register exactly
      when it does not issue before an earlier access. */
  lemma EarliestIssue(cfg: MemConfig, m: MemState, addr: nat, p: nat)
    requires SoundMem(cfg) && Paced(cfg, m) && m.asked <= p && !Hit1(cfg, m, addr)
    ensures Earliest(cfg, m.frees, p, Access(cfg, m, addr, p).1.issue) <==> InOrder(cfg, m, p)
  {
    hide Hit1, MissLatency, InOrder;
    InOrderIssue(cfg, m, addr, p);
    if InOrder(cfg, m, p) {
      InOrderEarliest(cfg, m, addr, p);
    } else {
      assert Outstanding(m.frees, Access(cfg, m, addr, p).1.issue) >= cfg.mshrs;
    }
  }

  /** For any proposals, a miss that does not issue before an earlier access issues at the earliest cycle. */
  lemma InOrderEarliest(cfg: MemConfig, m: MemState, addr: nat, p: nat)
    requires SoundMem(cfg) && Tracks(cfg, m) && !Hit1(cfg, m, addr) && InOrder(cfg, m, p)
    ensures Earliest(cfg, m.frees, p, Access(cfg, m, addr, p).1.issue)
  {
    hide Hit1, MissLatency, InOrder;
    InOrderIssue(cfg, m, addr, p);
    IssueRoom(cfg, m, p);
    var issue := Access(cfg, m, addr, p).1.issue;
    assert Prune(m.inFlight, issue) == Prune(m.frees, issue);
  }

  /** Requests in the order they are made: an address and a proposed cycle each. */
  function Requests(cfg: MemConfig, reqs: seq<(nat, nat)>): MemState
    requires SoundMem(cfg)
  {
    if |reqs| == 0 then IDLE
    else
      var n := |reqs| - 1;
      Access(cfg, Requests(cfg, reqs[..n]), reqs[n].0, reqs[n].1).0
  }

  /** When the data of each first-level miss arrives: its issue cycle plus its latency, as returned. */
  function Arrivals(cfg: MemConfig, reqs: seq<(nat, nat)>): seq<nat>
    requires SoundMem(cfg)
  {
    if |reqs| == 0 then []
    else
      var n := |reqs| - 1;
      var m, r := Requests(cfg, reqs[..n]), ResultOf(cfg, reqs, n);
      Arrivals(cfg, reqs[..n]) + if Hit1(cfg, m, reqs[n].0) then [] else [r.issue + r.latency]
  }

  /** What request j is answered. */
  function ResultOf(cfg: MemConfig, reqs: seq<(nat, nat)>, j: nat): MemResult
    requires SoundMem(cfg) && j < |reqs|
  {
    Access(cfg, Requests(cfg, reqs[..j]), reqs[j].0, reqs[j].1).1
  }

  /** The completion cycles that outstanding misses are counted by are those of the answers given. */
  lemma {:induction false} CompletionsAreArrivals(cfg: MemConfig, reqs: seq<(nat, nat)>)
    requires SoundMem(cfg)
    ensures Requests(cfg, reqs).frees == Arrivals(cfg, reqs)
  {
    hide Hit1, MissLatency, Prune, IssueOf;
    if |reqs| == 0 {
    } else {
      CompletionsAreArrivals(cfg, reqs[..|reqs| - 1]);
    }
  }

  /** Asking again at once hits the first level, and only there. */
  lemma AgainHits(cfg: MemConfig, m: MemState, addr: nat, p: nat, q: nat)
    requires SoundMem(cfg)
    ensures Access(cfg, Access(cfg, m, addr, p).0, addr, q).1 == MemResult(cfg.l1.hitLatency, q)
  {
    hide Prune, IssueOf, MissLatency, Sets;
    var line := LineOf1(cfg, addr);
    JustUsedAgain(m.lines1, line, Sets(cfg.l1), cfg.l1.ways);
  }

  lemma JustUsedAgain(front: seq<nat>, x: nat, sets: nat, ways: nat)
    requires sets > 0 && ways > 0
    ensures ReuseHit(front + [x], x, sets, ways)
  {
    assert OthersSince(front + [x], x, sets) == {};
  }

  ghost predicate Nondecreasing(reqs: seq<(nat, nat)>) {
    forall i, j :: 0 <= i < j < |reqs| ==> reqs[i].1 <= reqs[j].1
  }

  /** From reset, any requests at all stay within the bound. */
  lemma {:induction false} RequestsTracked(cfg: MemConfig, reqs: seq<(nat, nat)>)
    requires SoundMem(cfg)
    ensures Tracks(cfg, Requests(cfg, reqs))
    ensures cfg.mshrs > 0 ==> |Requests(cfg, reqs).inFlight| <= cfg.mshrs
  {
    hide Access;
    if |reqs| == 0 {
    } else {
      var n := |reqs| - 1;
      RequestsTracked(cfg, reqs[..n]);
      AccessTracks(cfg, Requests(cfg, reqs[..n]), reqs[n].0, reqs[n].1);
    }
  }

  lemma {:induction false} RequestsPaced(cfg: MemConfig, reqs: seq<(nat, nat)>)
    requires SoundMem(cfg) && Nondecreasing(reqs)
    ensures Paced(cfg, Requests(cfg, reqs))
    ensures |reqs| > 0 ==> Requests(cfg, reqs).asked == reqs[|reqs| - 1].1
  {
    if |reqs| == 0 {
    } else {
      var n := |reqs| - 1;
      RequestsPaced(cfg, reqs[..n]);
      AccessPaced(cfg, Requests(cfg, reqs[..n]), reqs[n].0, reqs[n].1);
    }
  }

  /** Two registers, 80 cycles to memory, one line per set: addresses 0, 64, 128 and 192 miss. */
  function TwoRegisters(mshrs: nat): MemConfig {
    MemConfig(CacheConfig(64, 64, 1, 3), CacheConfig(64, 64, 1, 12), 80, mshrs)
  }

  /** Three misses proposed at cycle 0. */
  function ThreeMisses(mshrs: nat): MemState {
    var cfg := TwoRegisters(mshrs);
    var m := Access(cfg, IDLE, 0, 0).0;
    var m := Access(cfg, m, 64, 0).0;
    Access(cfg, m, 128, 0).0
  }

  lemma ThreeMissesState(mshrs: nat)
    requires mshrs == 2 || mshrs == 3
    ensures var m := ThreeMisses(mshrs);
      && m.lines1 == m.lines2 == [0, 1, 2] && m.asked == 0
      && (mshrs == 2 ==> m.frees == [80, 80, 160] && m.inFlight == [160] && m.now == 80)
      && (mshrs == 3 ==> m.frees == [80, 80, 80] && m.inFlight == [80, 80, 80] && m.now == 0)
  {
    var cfg := TwoRegisters(mshrs);
    var m1, m2 := MemState([0], [0], [80], [80], 0, 0), MemState([0, 1], [0, 1], [80, 80], [80, 80], 0, 0);
    hide Access, Prune, Least, Hit1, MissLatency;
    PruneTwo();
    Missed(cfg, IDLE, 0, 0);
    Missed(cfg, m1, 64, 0);
    Missed(cfg, m2, 128, 0);
    assert Access(cfg, IDLE, 0, 0).0 == m1;
    assert Access(cfg, m1, 64, 0).0 == m2;
  }

  lemma PruneTwo()
    ensures Prune([], 0) == [] && Prune([80], 0) == [80] && Prune([80, 80], 0) == [80, 80]
    ensures Least([80, 80]) == 80 && Prune([80, 80], 80) == []
  {
    var two: seq<nat> := [80, 80];
    assert two[1..] == [80] && [80][1..] == [];
  }

  /** A line never asked for misses everywhere. */
  lemma Missed(cfg: MemConfig, m: MemState, addr: nat, p: nat)
    requires SoundMem(cfg) && LineOf1(cfg, addr) !in m.lines1 && LineOf2(cfg, addr) !in m.lines2
    ensures !Hit1(cfg, m, addr)
    ensures var live := Prune(m.inFlight, p); var issue := IssueOf(cfg, live, p);
      Access(cfg, m, addr, p).0 ==
        MemState(m.lines1 + [LineOf1(cfg, addr)], m.lines2 + [LineOf2(cfg, addr)],
                 m.frees + [issue + cfg.dramLatency],
                 (if issue == p then live else Prune(live, issue)) + [issue + cfg.dramLatency],
                 Max(m.now, issue), p)
    ensures Access(cfg, m, addr, p).1 == MemResult(cfg.dramLatency, IssueOf(cfg, Prune(m.inFlight, p), p))
  {
    hide Prune, Least;
  }

  /** A run with nondecreasing proposals whose last miss does not wait: the stall to cycle 80
      dropped two misses that are still outstanding at cycle 1. */
  lemma IssuesTooEarly()
    ensures var cfg, m := TwoRegisters(2), ThreeMisses(2);
      && !Hit1(cfg, m, 192) && Access(cfg, m, 192, 1).1.issue == 1
      && Outstanding(m.frees, 1) == 3 && !Earliest(cfg, m.frees, 1, 1)
  {
    ThreeMissesState(2);
    var f: seq<nat> := [80, 80, 160];
    assert f[1..] == [80, 160] && f[1..][1..] == [160];
    assert Prune([160], 1) == [160];
  }

  // ---- fewer outstanding misses ----

  /** Every miss of the second history completes no later than the same miss of the first. */
  ghost predicate NoLater(a: seq<nat>, b: seq<nat>) {
    |a| == |b| && forall i :: 0 <= i < |a| ==> a[i] <= b[i]
  }

  lemma {:induction false} NoLaterOutstanding(a: seq<nat>, b: seq<nat>, t: nat)
    requires NoLater(a, b)
    ensures Outstanding(a, t) <= Outstanding(b, t)
  {
    if |a| == 0 {
    } else {
      NoLaterOutstanding(a[1..], b[1..], t);
    }
  }

  /** At least as many registers; no bound counts as the most. */
  predicate MoreMshrs(many: int, few: int) {
    many <= 0 || (0 < few <= many)
  }

  /** Same geometry, latencies no larger, at least as many miss registers. */
  ghost predicate FasterMem(fast: MemConfig, slow: MemConfig) {
    && SoundMem(slow)
    && fast.l1 == slow.l1.(hitLatency := fast.l1.hitLatency) && fast.l1.hitLatency <= slow.l1.hitLatency
    && fast.l2 == slow.l2.(hitLatency := fast.l2.hitLatency) && fast.l2.hitLatency <= slow.l2.hitLatency
    && fast.dramLatency <= slow.dramLatency && MoreMshrs(fast.mshrs, slow.mshrs)
  }

  /** The same accesses so far, each miss completing no later. */
  ghost predicate AheadMem(fast: MemState, slow: MemState) {
    fast.lines1 == slow.lines1 && fast.lines2 == slow.lines2 && NoLater(fast.frees, slow.frees)
  }

  /** Monotonicity of one access: proposed no later, it issues and completes no later, and stays
      ahead, as long as the slower hierarchy does not issue it before an earlier access. */
  lemma AccessMonotone(fast: MemConfig, slow: MemConfig, m: MemState, n: MemState, addr: nat, p: nat, q: nat)
    requires FasterMem(fast, slow) && AheadMem(m, n) && p <= q
    requires Counted(fast, m) && Tracks(slow, n) && (Hit1(slow, n, addr) || InOrder(slow, n, q))
    ensures SoundMem(fast)
    ensures var (m', r), (n', s) := Access(fast, m, addr, p), Access(slow, n, addr, q);
      AheadMem(m', n') && r.issue <= s.issue && r.latency <= s.latency
  {
    hide ReuseHit, InOrder;
    var r, s := Access(fast, m, addr, p).1, Access(slow, n, addr, q).1;
    if !Hit1(fast, m, addr) {
      IssueRoom(fast, m, p);
      InOrderEarliest(slow, n, addr, q);
      InOrderIssue(slow, n, addr, q);
      NoLaterOutstanding(m.frees, n.frees, s.issue);
      assert r.issue <= s.issue;
    }
  }

  /** No faster hierarchy that is ahead issues the access later. */
  ghost predicate NeverLater(slow: MemConfig, n: MemState, addr: nat, q: nat)
    requires SoundMem(slow)
  {
    forall fast, m, p: nat :: FasterMem(fast, slow) && AheadMem(m, n) && Counted(fast, m) && p <= q ==>
      Access(fast, m, addr, p).1.issue <= Access(slow, n, addr, q).1.issue
  }

  /** The exact condition, for nondecreasing proposals: a faster hierarchy never issues the access
      later exactly when it hits the first level or does not issue before an earlier access. */
  lemma FasterNeverLater(slow: MemConfig, n: MemState, addr: nat, q: nat)
    requires SoundMem(slow) && Paced(slow, n) && n.asked <= q
    ensures NeverLater(slow, n, addr, q) <==> Hit1(slow, n, addr) || InOrder(slow, n, q)
  {
    hide Hit1, InOrder, Access, Counted;
    if Hit1(slow, n, addr) || InOrder(slow, n, q) {
      forall fast, m, p: nat | FasterMem(fast, slow) && AheadMem(m, n) && Counted(fast, m) && p <= q
        ensures Access(fast, m, addr, p).1.issue <= Access(slow, n, addr, q).1.issue
      {
        AccessMonotone(fast, slow, m, n, addr, p, q);
      }
    } else {
      MoreLater(slow, n, addr, q);
    }
  }

  /** A register for each miss outstanding at the slower issue, all of them taken until then. */
  function Crowded(slow: MemConfig, n: MemState, q: nat, at: nat): (r: (MemConfig, MemState)) {
    (slow.(mshrs := Outstanding(n.frees, at)), n.(inFlight := Prune(n.frees, at), now := at, asked := q))
  }

  /** A miss issued before an earlier access is issued later with more registers, though they are
      given nondecreasing proposals too: those that keep every miss still outstanding are all taken. */
  lemma MoreLater(slow: MemConfig, n: MemState, addr: nat, q: nat)
    requires SoundMem(slow) && Paced(slow, n) && n.asked <= q && !Hit1(slow, n, addr) && !InOrder(slow, n, q)
    ensures var at := Access(slow, n, addr, q).1.issue; var (fast, m) := Crowded(slow, n, q, at);
      FasterMem(fast, slow) && AheadMem(m, n) && Paced(fast, m) && at < Access(fast, m, addr, q).1.issue
  {
    hide Hit1, MissLatency, InOrder;
    InOrderIssue(slow, n, addr, q);
    var at := Access(slow, n, addr, q).1.issue;
    var (fast, m) := Crowded(slow, n, q, at);
    assert Outstanding(n.frees, at) >= slow.mshrs > 0;
    CrowdedPaced(fast, m);
    PruneMembers(n.frees, at, Least(m.inFlight));
    PruneBelowLeast(m.inFlight, q);
    SameHit1(fast, m, slow, n, addr);
  }

  lemma CrowdedPaced(cfg: MemConfig, m: MemState)
    requires m.inFlight == Prune(m.frees, m.now) && |m.inFlight| == cfg.mshrs > 0
    ensures Paced(cfg, m)
  {
    hide Prune;
    forall t ensures Outstanding(m.inFlight, t) <= Outstanding(m.frees, t) { PruneFewer(m.frees, m.now, t); }
    forall t | t >= m.now ensures Prune(m.inFlight, t) == Prune(m.frees, t) { PruneTwice(m.frees, m.now, t); }
    forall t: nat | t < m.now ensures Outstanding(m.frees, t) >= cfg.mshrs {
      PruneTwice(m.frees, t, m.now);
      PruneLength(Prune(m.frees, t), m.now);
    }
  }

  lemma SameHit1(fast: MemConfig, m: MemState, slow: MemConfig, n: MemState, addr: nat)
    requires SoundMem(slow) && fast.l1 == slow.l1 && fast.l2 == slow.l2 && m.lines1 == n.lines1
    ensures Hit1(fast, m, addr) == Hit1(slow, n, addr)
  {
    hide ReuseHit;
  }

  /** Such an input from reset: with three registers the fourth miss waits until cycle 80, while
      with two it issues at cycle 1. */
  lemma MoreRegistersLater()
    ensures FasterMem(TwoRegisters(3), TwoRegisters(2)) && AheadMem(ThreeMisses(3), ThreeMisses(2))
    ensures Access(TwoRegisters(3), ThreeMisses(3), 192, 1).1.issue == 80
    ensures Access(TwoRegisters(2), ThreeMisses(2), 192, 1).1.issue == 1
  {
    hide Access, Prune, Least, ThreeMisses;
    ThreeMissesState(2);
    ThreeMissesState(3);
    PruneAtOne();
    FourthMiss(3, ThreeMisses(3));
    FourthMiss(2, ThreeMisses(2));
  }

  lemma FourthMiss(mshrs: nat, m: MemState)
    requires m.lines1 == m.lines2 == [0, 1, 2]
    ensures Access(TwoRegisters(mshrs), m, 192, 1).1.issue == IssueOf(TwoRegisters(mshrs), Prune(m.inFlight, 1), 1)
  {
    hide Prune, IssueOf;
    Missed(TwoRegisters(mshrs), m, 192, 1);
  }

  lemma PruneAtOne()
    ensures Prune([160], 1) == [160] && Prune([80, 80, 80], 1) == [80, 80, 80] && Least([80, 80, 80]) == 80
  {
    var three: seq<nat> := [80, 80, 80];
    assert three[1..] == [80, 80] && three[1..][1..] == [80];
    assert Prune([80], 1) == [80];
  }

  class MemHierarchy {
    const cfg: MemConfig
    const l1d: Cache
    const l2: Cache
    var stats: MemStats
    var mshrFree: seq<nat>
    ghost var frees: seq<nat>
    ghost var now: nat
    ghost var asked: nat

    constructor (cfg: MemConfig)
      requires SoundMem(cfg)
      ensures Valid() && fresh(Repr()) && this.cfg == cfg
      ensures Abs() == IDLE && stats.stallCycles == 0
    {
      this.cfg := cfg;
      l1d := new Cache(cfg.l1);
      l2 := new Cache(cfg.l2);
      stats := MemStats(CacheStats(0, 0, 0), CacheStats(0, 0, 0), 0, 0);
      mshrFree := [];
      frees, now, asked := [], 0, 0;
    }

    ghost function Repr(): set<object> {
      {this, l1d, l1d.tags, l2, l2.tags}
    }

    /** Both levels refine their histories; the second level is asked exactly on first-level
        misses, and main memory exactly on second-level misses. */
    ghost predicate Valid()
      reads Repr()
    {
      && SoundMem(cfg) && l1d != l2 && l1d.tags != l2.tags
      && l1d.cfg == cfg.l1 && l2.cfg == cfg.l2
      && l1d.sets == Sets(cfg.l1) && l2.sets == Sets(cfg.l2)
      && l1d.ways == cfg.l1.ways && l2.ways == cfg.l2.ways
      && l1d.Valid() && l2.Valid()
      && stats.l1 == l1d.stats && stats.l2 == l2.stats
      && stats.l2.accesses == stats.l1.misses && stats.dramAccesses == stats.l2.misses
    }

    ghost function Abs(): MemState
      reads Repr()
    {
      MemState(l1d.history, l2.history, frees, mshrFree, now, asked)
    }

    /** The pruning passes: remove_if followed by erase. */
    method DropCompleted(cycle: nat)
      modifies this`mshrFree
      ensures mshrFree == Prune(old(mshrFree), cycle)
    {
      var kept := [];
      for i := 0 to |mshrFree|
        invariant mshrFree == old(mshrFree)
        invariant kept + Prune(mshrFree[i..], cycle) == Prune(mshrFree, cycle)
      {
        assert mshrFree[i..] == [mshrFree[i]] + mshrFree[i + 1..];
        if mshrFree[i] > cycle { kept := kept + [mshrFree[i]]; }
      }
      mshrFree := kept;
    }

    /** min_element */
    method Oldest() returns (m: nat)
      requires |mshrFree| > 0
      ensures m == Least(mshrFree)
    {
      m := mshrFree[|mshrFree| - 1];
      var i := |mshrFree| - 1;
      while i > 0
        invariant 0 <= i < |mshrFree| && m == Least(mshrFree[i..])
      {
        i := i - 1;
        assert mshrFree[i..][1..] == mshrFree[i + 1..];
        if mshrFree[i] < m { m := mshrFree[i]; }
      }
      assert mshrFree[0..] == mshrFree;
    }

    /** The stall of a miss that finds every register taken: it waits for the oldest one. */
    method Reserve(proposed: nat) returns (issue: nat)
      requires forall c :: c in mshrFree ==> proposed < c
      modifies this`mshrFree, this`stats
      ensures issue == IssueOf(cfg, old(mshrFree), proposed) >= proposed
      ensures mshrFree == if issue == proposed then old(mshrFree) else Prune(old(mshrFree), issue)
      ensures stats == old(stats).(stallCycles := old(stats).stallCycles + (issue - proposed))
    {
      issue := proposed;
      if cfg.mshrs > 0 && |mshrFree| >= cfg.mshrs {
        var oldest := Oldest();
        stats := stats.(stallCycles := stats.stallCycles + (oldest - issue));
        issue := oldest;
        DropCompleted(issue);
      }
    }

    /** The second level, and main memory behind it. */
    method LowerLevels(addr: nat) returns (latency: nat)
      requires SoundMem(cfg) && l2.Valid() && l2.cfg == cfg.l2 && l2.sets == Sets(cfg.l2) && l2.ways == cfg.l2.ways
      requires stats.dramAccesses == l2.stats.misses
      modifies this`stats, l2, l2.tags
      ensures l2.Valid() && l2.history == old(l2.history) + [LineOf2(cfg, addr)]
      ensures l2.stats.accesses == old(l2.stats.accesses) + 1
      ensures latency == if ReuseHit(old(l2.history), LineOf2(cfg, addr), Sets(cfg.l2), cfg.l2.ways)
        then cfg.l2.hitLatency else cfg.dramLatency
      ensures stats == old(stats).(l2 := l2.stats, dramAccesses := l2.stats.misses)
    {
      hide ReuseHit, Sets, Sound, Cache.Valid;
      latency := cfg.l2.hitLatency;
      var hit2 := l2.Access(addr);
      if !hit2 {
        stats := stats.(dramAccesses := stats.dramAccesses + 1);
        latency := cfg.dramLatency;
      }
      stats := stats.(l2 := l2.stats);
    }

    /** MemHierarchy::access_at */
    method AccessAt(addr: nat, proposed: nat) returns (r: MemResult)
      requires Valid()
      modifies Repr()
      ensures Valid()
      ensures (Abs(), r) == Access(cfg, old(Abs()), addr, proposed)
      ensures proposed <= r.issue && stats.stallCycles == old(stats.stallCycles) + (r.issue - proposed)
    {
      hide ReuseHit, Prune, IssueOf, Sets, Sound, Cache.Valid, Least;
      DropCompleted(proposed);
      now, asked := Max(now, proposed), proposed;
      var hit1 := l1d.Access(addr);
      if hit1 {
        stats := stats.(l1 := l1d.stats);
        return MemResult(cfg.l1.hitLatency, proposed);
      }
      forall c | c in mshrFree ensures proposed < c { PruneMembers(old(mshrFree), proposed, c); }
      var issue := Reserve(proposed);
      var latency := LowerLevels(addr);
      stats := stats.(l1 := l1d.stats);
      mshrFree := mshrFree + [issue + latency];
      frees := frees + [issue + latency];
      now := Max(now, issue);
      r := MemResult(latency, issue);
    }
  }
}
