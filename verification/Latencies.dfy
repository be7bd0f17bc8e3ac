/** Which latencies a hierarchy can answer with. First-level hits and main memory are always
    reachable; a second-level hit is reachable exactly for the geometries named here. */
module Latencies {
  import opened Arithmetic
  import opened LruStack
  import opened CacheModel
  import opened Hierarchy

  /** The lines each level was asked for: all that decides hits. */
  datatype Levels = Levels(first: seq<nat>, second: seq<nat>)

  const EMPTY := Levels([], [])

  function LevelsOf(m: MemState): Levels { Levels(m.lines1, m.lines2) }

  predicate FirstHit(cfg: MemConfig, v: Levels, addr: nat)
    requires SoundMem(cfg)
  {
    ReuseHit(v.first, LineOf1(cfg, addr), Sets(cfg.l1), cfg.l1.ways)
  }

  predicate SecondHit(cfg: MemConfig, v: Levels, addr: nat)
    requires SoundMem(cfg)
  {
    ReuseHit(v.second, LineOf2(cfg, addr), Sets(cfg.l2), cfg.l2.ways)
  }

  function Visit(cfg: MemConfig, v: Levels, addr: nat): Levels
    requires SoundMem(cfg)
  {
    Levels(v.first + [LineOf1(cfg, addr)],
           if FirstHit(cfg, v, addr) then v.second else v.second + [LineOf2(cfg, addr)])
  }

  function Visits(cfg: MemConfig, addrs: seq<nat>): Levels
    requires SoundMem(cfg)
  {
    if |addrs| == 0 then EMPTY else Visit(cfg, Visits(cfg, addrs[..|addrs| - 1]), addrs[|addrs| - 1])
  }

  function LatencyOf(cfg: MemConfig, v: Levels, addr: nat): nat
    requires SoundMem(cfg)
  {
    if FirstHit(cfg, v, addr) then cfg.l1.hitLatency
    else if SecondHit(cfg, v, addr) then cfg.l2.hitLatency
    else cfg.dramLatency
  }

  lemma VisitsNext(cfg: MemConfig, addrs: seq<nat>, addr: nat)
    requires SoundMem(cfg)
    ensures Visits(cfg, addrs + [addr]) == Visit(cfg, Visits(cfg, addrs), addr)
  {
    assert (addrs + [addr])[..|addrs|] == addrs;
  }

  lemma AccessVisits(cfg: MemConfig, m: MemState, addr: nat, p: nat)
    requires SoundMem(cfg)
    ensures LevelsOf(Access(cfg, m, addr, p).0) == Visit(cfg, LevelsOf(m), addr)
    ensures Access(cfg, m, addr, p).1.latency == LatencyOf(cfg, LevelsOf(m), addr)
  {
    hide ReuseHit, Prune;
  }

  // ---- where a second-level hit is possible ----

  /** Second-level lines that straddle first-level ones, two second-level ways, or a line in the
      same first-level set but another second-level set. */
  predicate SecondHitPossible(cfg: MemConfig)
    requires SoundMem(cfg)
  {
    || cfg.l1.lineBytes % cfg.l2.lineBytes != 0
    || cfg.l2.ways >= 2
    || AwayPossible(cfg)
  }

  /** Some other line of the same first-level set lies in another second-level set. */
  predicate AwayPossible(cfg: MemConfig)
    requires SoundMem(cfg)
  {
    || (cfg.l1.lineBytes > cfg.l2.lineBytes && Sets(cfg.l2) >= 2)
    || (cfg.l1.lineBytes == cfg.l2.lineBytes && Sets(cfg.l1) % Sets(cfg.l2) != 0)
  }

  /** Whatever the second level holds, the first level holds too. */
  ghost predicate Nested(cfg: MemConfig, v: Levels)
    requires SoundMem(cfg)
  {
    forall addr :: SecondHit(cfg, v, addr) ==> FirstHit(cfg, v, addr)
  }

  /** A hit keeps every line of the level. */
  lemma HitKeepsLines(trace: seq<nat>, x: nat, z: nat, sets: nat, ways: nat)
    requires sets > 0 && ways > 0 && ReuseHit(trace, x, sets, ways) && ReuseHit(trace, z, sets, ways)
    ensures ReuseHit(trace + [z], x, sets, ways)
  {
    TopIsReuseHit(trace, x, sets, ways);
    TopIsReuseHit(trace, z, sets, ways);
    TopIsReuseHit(trace + [z], x, sets, ways);
    assert (trace + [z])[..|trace|] == trace;
    if z % sets == x % sets {
      TopStep(Stack(trace, sets, x % sets), z, ways);
    }
  }

  lemma JustUsed(front: seq<nat>, x: nat, sets: nat)
    requires sets > 0
    ensures OthersSince(front + [x], x, sets) == {}
  {
  }

  /** Away from x's set nothing changes for x. */
  lemma OtherSetKeepsHit(trace: seq<nat>, x: nat, z: nat, sets: nat, ways: nat)
    requires sets > 0 && ReuseHit(trace, x, sets, ways) && z % sets != x % sets
    ensures ReuseHit(trace + [z], x, sets, ways)
  {
    OthersSinceStep(trace, z, x, sets);
  }

  /** With one way, a line still held after another line was not in that line's set. */
  lemma OneWayHeld(trace: seq<nat>, y: nat, z: nat, sets: nat)
    requires sets > 0 && y != z && ReuseHit(trace + [z], y, sets, 1)
    ensures ReuseHit(trace, y, sets, 1) && z % sets != y % sets
  {
    assert y in trace;
    OthersSinceStep(trace, z, y, sets);
    assert OthersSince(trace + [z], y, sets) == {};
  }

  /** With whole first-level lines and one way, lines of one first-level set share a second-level set. */
  lemma SameSecondSet(cfg: MemConfig, a: nat, b: nat)
    requires SoundMem(cfg) && !SecondHitPossible(cfg)
    requires LineOf1(cfg, a) % Sets(cfg.l1) == LineOf1(cfg, b) % Sets(cfg.l1)
    ensures LineOf2(cfg, a) % Sets(cfg.l2) == LineOf2(cfg, b) % Sets(cfg.l2)
  {
    if cfg.l1.lineBytes == cfg.l2.lineBytes {
      ModOfMod(LineOf1(cfg, a), Sets(cfg.l1), Sets(cfg.l2));
      ModOfMod(LineOf1(cfg, b), Sets(cfg.l1), Sets(cfg.l2));
    } else {
      LargerLine(cfg.l1.lineBytes, cfg.l2.lineBytes);
    }
  }

  lemma LargerLine(a: nat, b: nat)
    requires a > 0 && b > 0 && a % b == 0
    ensures a >= b
  {
  }

  lemma ModOfMod(x: nat, m: nat, n: nat)
    requires m > 0 && n > 0 && m % n == 0
    ensures x % m % n == x % n
  {
    var q, r := x / m, x % m;
    var c, d := m / n, r / n;
    assert x == q * m + r && m == c * n && r == d * n + r % n;
    assert q * (c * n) == (q * c) * n;
    ModUnique(x, n, q * c + d, r % n);
  }

  /** A second-level line lies in one first-level line. */
  lemma SameFirstLine(cfg: MemConfig, a: nat, b: nat)
    requires SoundMem(cfg) && cfg.l1.lineBytes % cfg.l2.lineBytes == 0 && LineOf2(cfg, a) == LineOf2(cfg, b)
    ensures LineOf1(cfg, a) == LineOf1(cfg, b)
  {
    FirstFromSecond(a, cfg.l1.lineBytes, cfg.l2.lineBytes);
    FirstFromSecond(b, cfg.l1.lineBytes, cfg.l2.lineBytes);
  }

  lemma FirstFromSecond(a: nat, m: nat, n: nat)
    requires m > 0 && n > 0 && m % n == 0
    ensures m / n > 0 && a / m == a / n / (m / n)
  {
    var c, q, r := m / n, a / m, a % m;
    assert m == c * n;
    var d := r / n;
    assert a == q * m + r && r == d * n + r % n && q * (c * n) == (q * c) * n;
    ModUnique(a, n, q * c + d, r % n);
    DividesBelow(d, c, n, r);
    ModUnique(q * c + d, c, q, d);
  }

  lemma DividesBelow(d: nat, c: int, n: nat, r: nat)
    requires n > 0 && d * n <= r < c * n
    ensures d < c
  {
    if d >= c { MulMono(c, d, n); }
  }

  lemma NestedStep(cfg: MemConfig, v: Levels, b: nat)
    requires SoundMem(cfg) && !SecondHitPossible(cfg) && Nested(cfg, v)
    ensures Nested(cfg, Visit(cfg, v, b))
  {
    var v' := Visit(cfg, v, b);
    var sets1, ways1, sets2 := Sets(cfg.l1), cfg.l1.ways, Sets(cfg.l2);
    var x1, x2 := LineOf1(cfg, b), LineOf2(cfg, b);
    forall a | SecondHit(cfg, v', a) ensures FirstHit(cfg, v', a) {
      var y1, y2 := LineOf1(cfg, a), LineOf2(cfg, a);
      JustUsed(v.first, x1, sets1);
      if y1 == x1 {
      } else if FirstHit(cfg, v, b) {
        assert SecondHit(cfg, v, a);
        HitKeepsLines(v.first, y1, x1, sets1, ways1);
      } else {
        if y2 == x2 {
          SameFirstLine(cfg, a, b);
        } else {
          OneWayHeld(v.second, y2, x2, sets2);
          if x1 % sets1 == y1 % sets1 { SameSecondSet(cfg, a, b); }
          assert SecondHit(cfg, v, a);
          OtherSetKeepsHit(v.first, y1, x1, sets1, ways1);
        }
      }
    }
  }

  lemma {:induction false} NestedVisits(cfg: MemConfig, addrs: seq<nat>)
    requires SoundMem(cfg) && !SecondHitPossible(cfg)
    ensures Nested(cfg, Visits(cfg, addrs))
  {
    if |addrs| == 0 {
    } else {
      NestedVisits(cfg, addrs[..|addrs| - 1]);
      NestedStep(cfg, Visits(cfg, addrs[..|addrs| - 1]), addrs[|addrs| - 1]);
    }
  }

  // ---- sequences that reach a second-level hit ----

  lemma {:induction false} UsedBefore(front: seq<nat>, x: nat, tail: seq<nat>)
    requires x !in tail
    ensures x in front + [x] + tail && LastUse(front + [x] + tail, x) == |front|
  {
    var trace := front + [x] + tail;
    assert trace[|front|] == x;
    if |tail| == 0 {
    } else {
      var n := |tail| - 1;
      assert trace[..|trace| - 1] == front + [x] + tail[..n];
      UsedBefore(front, x, tail[..n]);
    }
  }

  /** What was used since x, when tail is everything after its last use. */
  lemma OthersAre(front: seq<nat>, x: nat, tail: seq<nat>, sets: nat)
    requires sets > 0 && x !in tail
    ensures x in front + [x] + tail
    ensures OthersSince(front + [x] + tail, x, sets) == set y | y in tail && y % sets == x % sets
  {
    UsedBefore(front, x, tail);
    assert (front + [x] + tail)[|front| + 1..] == tail;
  }

  /** A line is gone once as many distinct others of its set were used as there are ways. */
  lemma Evicted(front: seq<nat>, x: nat, tail: seq<nat>, sets: nat, ways: nat)
    requires sets > 0 && x !in tail && NoRepeats(tail) && |tail| >= ways
    requires forall y :: y in tail ==> y % sets == x % sets
    ensures !ReuseHit(front + [x] + tail, x, sets, ways)
  {
    OthersAre(front, x, tail, sets);
    ElementsSize(tail);
    assert OthersSince(front + [x] + tail, x, sets) == Elements(tail);
  }

  /** A line is held while fewer others of its set were used since. */
  lemma Kept(front: seq<nat>, x: nat, tail: seq<nat>, sets: nat, ways: nat, others: set<nat>)
    requires sets > 0 && x !in tail && |others| < ways
    requires forall y :: y in tail && y % sets == x % sets ==> y in others
    ensures ReuseHit(front + [x] + tail, x, sets, ways)
  {
    OthersAre(front, x, tail, sets);
    SubsetSize(OthersSince(front + [x] + tail, x, sets), others);
  }

  /** Among at most `ways` lines every reuse hits. */
  lemma FewLines(trace: seq<nat>, x: nat, sets: nat, ways: nat, lines: set<nat>)
    requires sets > 0 && x in trace && |lines| <= ways && forall y :: y in trace ==> y in lines
    ensures ReuseHit(trace, x, sets, ways)
  {
    var o := OthersSince(trace, x, sets);
    assert x !in o && o <= lines - {x};
    SubsetSize(o, lines - {x});
  }

  /** The reachable second-level hit: a sequence of addresses and the one that hits. */
  ghost predicate Reaches(cfg: MemConfig, addrs: seq<nat>, addr: nat)
    requires SoundMem(cfg)
  {
    var v := Visits(cfg, addrs);
    !FirstHit(cfg, v, addr) && SecondHit(cfg, v, addr)
  }

  /** Two bytes of one second-level line on either side of the end of a first-level line. */
  lemma ReachAcross(cfg: MemConfig) returns (addrs: seq<nat>, addr: nat)
    requires SoundMem(cfg) && cfg.l1.lineBytes % cfg.l2.lineBytes != 0
    ensures Reaches(cfg, addrs, addr)
  {
    var m, n := cfg.l1.lineBytes, cfg.l2.lineBytes;
    addrs, addr := [m - 1], m;
    ModUnique(m - 1, m, 0, m - 1);
    ModUnique(m, m, 1, 0);
    var q, r := m / n, m % n;
    assert m == q * n + r;
    ModUnique(m - 1, n, q, r - 1);
    assert addrs[..0] == [];
    assert Visits(cfg, addrs) == Visit(cfg, EMPTY, m - 1) == Levels([0], [q]);
    JustUsed([], q, Sets(cfg.l2));
    assert [] + [q] == [q];
  }

  // ---- many fresh lines of one first-level set ----

  /** The first-level lines of the addresses are new and distinct. */
  ghost predicate Fresh(cfg: MemConfig, addrs: seq<nat>)
    requires SoundMem(cfg)
  {
    forall i, j :: 0 <= i < j < |addrs| ==> LineOf1(cfg, addrs[i]) != LineOf1(cfg, addrs[j])
  }

  function Lines1(cfg: MemConfig, addrs: seq<nat>): (r: seq<nat>)
    requires SoundMem(cfg)
    ensures |r| == |addrs| && forall i :: 0 <= i < |r| ==> r[i] == LineOf1(cfg, addrs[i])
  {
    var r := seq(|addrs|, i requires 0 <= i < |addrs| => LineOf1(cfg, addrs[i]));
    assert forall i :: 0 <= i < |r| ==> r[i] == LineOf1(cfg, addrs[i]);
    r
  }

  function Lines2(cfg: MemConfig, addrs: seq<nat>): (r: seq<nat>)
    requires SoundMem(cfg)
    ensures |r| == |addrs| && forall i :: 0 <= i < |r| ==> r[i] == LineOf2(cfg, addrs[i])
  {
    var r := seq(|addrs|, i requires 0 <= i < |addrs| => LineOf2(cfg, addrs[i]));
    assert forall i :: 0 <= i < |r| ==> r[i] == LineOf2(cfg, addrs[i]);
    r
  }

  lemma NewMisses(cfg: MemConfig, v: Levels, addr: nat)
    requires SoundMem(cfg) && LineOf1(cfg, addr) !in v.first
    ensures Visit(cfg, v, addr) == Levels(v.first + [LineOf1(cfg, addr)], v.second + [LineOf2(cfg, addr)])
  {
    hide LineOf1, LineOf2, Sets;
  }

  /** Fresh lines all miss, so both levels are asked for all of them. */
  lemma {:induction false} FreshMiss(cfg: MemConfig, addrs: seq<nat>)
    requires SoundMem(cfg) && Fresh(cfg, addrs)
    ensures Visits(cfg, addrs) == Levels(Lines1(cfg, addrs), Lines2(cfg, addrs))
  {
    hide LineOf1, LineOf2, Visit, Sound;
    if |addrs| == 0 {
    } else {
      var n := |addrs| - 1;
      FreshMiss(cfg, addrs[..n]);
      assert LineOf1(cfg, addrs[n]) !in Lines1(cfg, addrs[..n]);
      NewMisses(cfg, Visits(cfg, addrs[..n]), addrs[n]);
      LinesSnoc(cfg, addrs[..n], addrs[n]);
      assert addrs == addrs[..n] + [addrs[n]];
    }
  }

  lemma LinesSnoc(cfg: MemConfig, addrs: seq<nat>, a: nat)
    requires SoundMem(cfg)
    ensures Lines1(cfg, addrs + [a]) == Lines1(cfg, addrs) + [LineOf1(cfg, a)]
    ensures Lines2(cfg, addrs + [a]) == Lines2(cfg, addrs) + [LineOf2(cfg, a)]
  {
    hide LineOf1, LineOf2, Sound;
  }

  lemma Lines1Cons(cfg: MemConfig, a: nat, others: seq<nat>)
    requires SoundMem(cfg)
    ensures Lines1(cfg, [a] + others) == [] + [LineOf1(cfg, a)] + Lines1(cfg, others)
    ensures Lines2(cfg, [a] + others) == [] + [LineOf2(cfg, a)] + Lines2(cfg, others)
  {
    hide LineOf1, LineOf2;
  }

  lemma ZeroLines(cfg: MemConfig)
    requires SoundMem(cfg)
    ensures LineOf1(cfg, 0) == 0 == LineOf2(cfg, 0)
  {
  }

  /** Fresh lines of one set: as many as there are ways push out the first. */
  lemma GoneAfter(cfg: MemConfig, front: seq<nat>, a: nat, others: seq<nat>)
    requires SoundMem(cfg) && |others| >= cfg.l1.ways && Fresh(cfg, [a] + others)
    requires forall i :: 0 <= i < |others| ==> LineOf1(cfg, others[i]) % Sets(cfg.l1) == LineOf1(cfg, a) % Sets(cfg.l1)
    ensures !ReuseHit(front + [LineOf1(cfg, a)] + Lines1(cfg, others), LineOf1(cfg, a), Sets(cfg.l1), cfg.l1.ways)
  {
    hide LineOf1, ReuseHit;
    var addrs, t := [a] + others, Lines1(cfg, others);
    forall i | 0 <= i < |others| ensures t[i] != LineOf1(cfg, a) {
      assert LineOf1(cfg, addrs[0]) != LineOf1(cfg, addrs[i + 1]);
    }
    forall i, j | 0 <= i < j < |others| ensures t[i] != t[j] {
      assert LineOf1(cfg, addrs[i + 1]) != LineOf1(cfg, addrs[j + 1]);
    }
    Evicted(front, LineOf1(cfg, a), t, Sets(cfg.l1), cfg.l1.ways);
  }

  lemma StaysBehind(cfg: MemConfig, a: nat, others: seq<nat>)
    requires SoundMem(cfg)
    requires forall i :: 0 <= i < |others| ==> LineOf2(cfg, others[i]) % Sets(cfg.l2) != LineOf2(cfg, a) % Sets(cfg.l2)
    ensures ReuseHit([] + [LineOf2(cfg, a)] + Lines2(cfg, others), LineOf2(cfg, a), Sets(cfg.l2), cfg.l2.ways)
  {
    hide LineOf2, ReuseHit;
    Kept([], LineOf2(cfg, a), Lines2(cfg, others), Sets(cfg.l2), cfg.l2.ways, {});
  }

  /** Address 0, then as many fresh lines of its first-level set as there are ways, all in other
      second-level sets: address 0 is gone from the first level and still in the second. */
  lemma ReachAround(cfg: MemConfig, others: seq<nat>)
    requires SoundMem(cfg) && |others| == cfg.l1.ways && Fresh(cfg, [0] + others)
    requires forall i :: 0 <= i < |others| ==> LineOf1(cfg, others[i]) % Sets(cfg.l1) == 0
    requires forall i :: 0 <= i < |others| ==> LineOf2(cfg, others[i]) % Sets(cfg.l2) != 0
    ensures Reaches(cfg, [0] + others, 0)
  {
    hide LineOf1, LineOf2, ReuseHit, Visits, Lines1, Lines2;
    ZeroLines(cfg);
    ZeroMod(Sets(cfg.l1));
    ZeroMod(Sets(cfg.l2));
    FreshMiss(cfg, [0] + others);
    Lines1Cons(cfg, 0, others);
    GoneAfter(cfg, [], 0, others);
    StaysBehind(cfg, 0, others);
  }

  lemma ZeroMod(n: nat)
    requires n > 0
    ensures 0 % n == 0
  {
  }

  /** The address of the k-th line of first-level set 0. */
  function SetZero(cfg: MemConfig, k: nat): nat
    requires SoundMem(cfg)
  {
    k * Sets(cfg.l1) * cfg.l1.lineBytes
  }

  lemma SetZeroLine(cfg: MemConfig, k: nat, off: nat)
    requires SoundMem(cfg) && off < cfg.l1.lineBytes
    ensures LineOf1(cfg, SetZero(cfg, k) + off) == k * Sets(cfg.l1)
    ensures LineOf1(cfg, SetZero(cfg, k) + off) % Sets(cfg.l1) == 0
  {
    var line := k * Sets(cfg.l1);
    ModUnique(SetZero(cfg, k) + off, cfg.l1.lineBytes, line, off);
    ModUnique(line, Sets(cfg.l1), k, 0);
  }

  lemma ProductsDiffer(i: nat, j: nat, m: nat)
    requires i < j && m > 0
    ensures i * m < j * m
  {
    MulMono(i + 1, j, m);
  }

  /** A sequence of addresses on distinct lines of first-level set 0. */
  ghost predicate OnSetZero(cfg: MemConfig, addrs: seq<nat>, ks: seq<nat>)
    requires SoundMem(cfg)
  {
    && |ks| == |addrs| && NoRepeats(ks)
    && forall i :: 0 <= i < |ks| ==> LineOf1(cfg, addrs[i]) == ks[i] * Sets(cfg.l1)
  }

  lemma SetZeroFresh(cfg: MemConfig, addrs: seq<nat>, ks: seq<nat>)
    requires SoundMem(cfg) && OnSetZero(cfg, addrs, ks)
    ensures Fresh(cfg, addrs)
    ensures forall i :: 0 <= i < |addrs| ==> LineOf1(cfg, addrs[i]) % Sets(cfg.l1) == 0
  {
    hide LineOf1;
    forall i, j | 0 <= i < j < |addrs| ensures LineOf1(cfg, addrs[i]) != LineOf1(cfg, addrs[j]) {
      if ks[i] < ks[j] {
        ProductsDiffer(ks[i], ks[j], Sets(cfg.l1));
      } else {
        ProductsDiffer(ks[j], ks[i], Sets(cfg.l1));
      }
    }
    forall i | 0 <= i < |addrs| ensures LineOf1(cfg, addrs[i]) % Sets(cfg.l1) == 0 {
      ModUnique(ks[i] * Sets(cfg.l1), Sets(cfg.l1), ks[i], 0);
    }
  }

  /** The number, and the offset, of a line of set 0 away from second-level set 0. */
  function AwayLine(cfg: MemConfig, i: nat): nat
    requires SoundMem(cfg)
  {
    if cfg.l1.lineBytes == cfg.l2.lineBytes then 1 + i * Sets(cfg.l2) else 1 + i
  }

  function AwayAddr(cfg: MemConfig, i: nat): nat
    requires SoundMem(cfg)
  {
    var at := SetZero(cfg, AwayLine(cfg, i));
    if LineOf2(cfg, at) % Sets(cfg.l2) != 0 then at else at + cfg.l2.lineBytes
  }

  lemma SetAfterWraps(m: nat, n: nat, i: nat)
    requires n > 0
    ensures (1 + i * n) * m % n == m % n
  {
    var q, r := m / n, m % n;
    assert m == q * n + r;
    assert (1 + i * n) * m == m + (i * m) * n;
    assert (q + i * m) * n == q * n + (i * m) * n;
    ModUnique((1 + i * n) * m, n, q + i * m, r);
  }

  lemma NextLine(at: nat, n: nat)
    requires n > 0
    ensures (at + n) / n == at / n + 1
  {
    var q := at / n;
    assert at == q * n + at % n && (q + 1) * n == q * n + n;
    ModUnique(at + n, n, q + 1, at % n);
  }

  lemma NextSet(line: nat, n: nat)
    requires n >= 2 && line % n == 0
    ensures (line + 1) % n == 1
  {
    ModUnique(line + 1, n, line / n, 1);
  }

  lemma AwayEqual(cfg: MemConfig, i: nat)
    requires SoundMem(cfg) && cfg.l1.lineBytes == cfg.l2.lineBytes && Sets(cfg.l1) % Sets(cfg.l2) != 0
    ensures LineOf1(cfg, AwayAddr(cfg, i)) == AwayLine(cfg, i) * Sets(cfg.l1)
    ensures LineOf2(cfg, AwayAddr(cfg, i)) % Sets(cfg.l2) != 0
  {
    hide SetZero;
    SetZeroLine(cfg, AwayLine(cfg, i), 0);
    SetAfterWraps(Sets(cfg.l1), Sets(cfg.l2), i);
  }

  lemma AwayWider(cfg: MemConfig, i: nat)
    requires SoundMem(cfg) && cfg.l1.lineBytes > cfg.l2.lineBytes && Sets(cfg.l2) >= 2
    ensures LineOf1(cfg, AwayAddr(cfg, i)) == AwayLine(cfg, i) * Sets(cfg.l1)
    ensures LineOf2(cfg, AwayAddr(cfg, i)) % Sets(cfg.l2) != 0
  {
    hide SetZero, Sets;
    var k, n := AwayLine(cfg, i), cfg.l2.lineBytes;
    var at := SetZero(cfg, k);
    SetZeroLine(cfg, k, 0);
    SetZeroLine(cfg, k, n);
    NextLine(at, n);
    if LineOf2(cfg, at) % Sets(cfg.l2) == 0 { NextSet(LineOf2(cfg, at), Sets(cfg.l2)); }
  }

  lemma AwayIncreases(cfg: MemConfig, i: nat, j: nat)
    requires SoundMem(cfg) && i < j
    ensures 0 < AwayLine(cfg, i) < AwayLine(cfg, j)
  {
    hide Sets;
    ProductsDiffer(i, j, Sets(cfg.l2));
  }

  lemma AwayPlace(cfg: MemConfig, i: nat)
    requires SoundMem(cfg) && AwayPossible(cfg)
    ensures LineOf1(cfg, AwayAddr(cfg, i)) == AwayLine(cfg, i) * Sets(cfg.l1)
    ensures LineOf2(cfg, AwayAddr(cfg, i)) % Sets(cfg.l2) != 0
  {
    hide LineOf1, LineOf2, AwayAddr, AwayLine, Sets, Sound;
    if cfg.l1.lineBytes == cfg.l2.lineBytes { AwayEqual(cfg, i); } else { AwayWider(cfg, i); }
  }

  function AwayAddrs(cfg: MemConfig, n: nat): (r: seq<nat>)
    requires SoundMem(cfg)
    ensures |r| == n && forall i :: 0 <= i < n ==> r[i] == AwayAddr(cfg, i)
  {
    seq(n, i requires 0 <= i < n => AwayAddr(cfg, i))
  }

  function AwayLines(cfg: MemConfig, n: nat): (r: seq<nat>)
    requires SoundMem(cfg)
    ensures |r| == n && forall i :: 0 <= i < n ==> r[i] == AwayLine(cfg, i)
  {
    seq(n, i requires 0 <= i < n => AwayLine(cfg, i))
  }

  lemma AwayOnSetZero(cfg: MemConfig, n: nat)
    requires SoundMem(cfg) && AwayPossible(cfg)
    ensures OnSetZero(cfg, [0] + AwayAddrs(cfg, n), [0] + AwayLines(cfg, n))
  {
    hide LineOf1, LineOf2, AwayAddr, AwayLine, AwayPossible, AwayAddrs, AwayLines, Sets, Sound;
    var addrs, ks := [0] + AwayAddrs(cfg, n), [0] + AwayLines(cfg, n);
    ZeroLines(cfg);
    forall i, j | 0 <= i < j < |ks| ensures ks[i] != ks[j] {
      if i == 0 { AwayIncreases(cfg, j - 1, j); } else { AwayIncreases(cfg, i - 1, j - 1); }
    }
    forall i | 0 <= i < |ks| ensures LineOf1(cfg, addrs[i]) == ks[i] * Sets(cfg.l1) {
      if i > 0 { AwayPlace(cfg, i - 1); }
    }
  }

  lemma ReachAway(cfg: MemConfig) returns (addrs: seq<nat>, addr: nat)
    requires SoundMem(cfg) && AwayPossible(cfg)
    ensures Reaches(cfg, addrs, addr)
  {
    hide LineOf1, LineOf2, AwayAddr, AwayAddrs, AwayLines, AwayPossible, Reaches, OnSetZero, Fresh, Sets;
    var w := cfg.l1.ways;
    var others := AwayAddrs(cfg, w);
    addrs, addr := [0] + others, 0;
    AwayOnSetZero(cfg, w);
    SetZeroFresh(cfg, addrs, [0] + AwayLines(cfg, w));
    forall i | 0 <= i < w
      ensures LineOf1(cfg, others[i]) % Sets(cfg.l1) == 0 && LineOf2(cfg, others[i]) % Sets(cfg.l2) != 0
    {
      assert addrs[i + 1] == others[i];
      AwayPlace(cfg, i);
    }
    ReachAround(cfg, others);
  }

  lemma FillLines(cfg: MemConfig, fill: seq<nat>, again: seq<nat>)
    requires SoundMem(cfg) && Fresh(cfg, fill) && forall a :: a in again ==> a in fill
    ensures forall y :: y in Lines1(cfg, again) ==> y in Lines1(cfg, fill)
    ensures forall y :: y in Lines1(cfg, fill) + Lines1(cfg, again) ==> y in Elements(Lines1(cfg, fill))
    ensures |Elements(Lines1(cfg, fill))| == |fill|
  {
    hide LineOf1;
    ElementsSize(Lines1(cfg, fill));
    forall y | y in Lines1(cfg, again) ensures y in Lines1(cfg, fill) {
      var i :| 0 <= i < |again| && Lines1(cfg, again)[i] == y;
      assert again[i] in again;
      var j :| 0 <= j < |fill| && fill[j] == again[i];
      assert Lines1(cfg, fill)[j] == y;
    }
  }
  /** Reusing lines of a set that holds them all: every access hits. */
  lemma {:induction false} ReuseHits(cfg: MemConfig, fill: seq<nat>, again: seq<nat>)
    requires SoundMem(cfg) && Fresh(cfg, fill) && |fill| == cfg.l1.ways && forall a :: a in again ==> a in fill
    ensures Visits(cfg, fill + again) == Levels(Lines1(cfg, fill) + Lines1(cfg, again), Lines2(cfg, fill))
  {
    hide LineOf1, LineOf2, Visits, Visit;
    if |again| == 0 {
      FreshMiss(cfg, fill);
      assert fill + again == fill && Lines1(cfg, fill) + Lines1(cfg, again) == Lines1(cfg, fill);
    } else {
      var n := |again| - 1;
      ReuseHits(cfg, fill, again[..n]);
      VisitsNext(cfg, fill + again[..n], again[n]);
      assert fill + again == fill + again[..n] + [again[n]];
      ReuseHitsOnce(cfg, fill, again[..n], again[n]);
      assert again == again[..n] + [again[n]];
    }
  }

  lemma ReuseHitsOnce(cfg: MemConfig, fill: seq<nat>, again: seq<nat>, a: nat)
    requires SoundMem(cfg) && Fresh(cfg, fill) && |fill| == cfg.l1.ways
    requires a in fill && forall b :: b in again ==> b in fill
    ensures Visit(cfg, Levels(Lines1(cfg, fill) + Lines1(cfg, again), Lines2(cfg, fill)), a)
         == Levels(Lines1(cfg, fill) + Lines1(cfg, again + [a]), Lines2(cfg, fill))
  {
    hide LineOf1, ReuseHit;
    var trace := Lines1(cfg, fill) + Lines1(cfg, again);
    FillLines(cfg, fill, again);
    FillLines(cfg, fill, [a]);
    assert Lines1(cfg, [a])[0] == LineOf1(cfg, a);
    FewLines(trace, LineOf1(cfg, a), Sets(cfg.l1), cfg.l1.ways, Elements(Lines1(cfg, fill)));
    assert Lines1(cfg, fill) + Lines1(cfg, again + [a]) == trace + [LineOf1(cfg, a)];
  }

  /** Fill the set, use all but the last line filled again, and fill one more: the last line filled
      is gone from the first level, but only one line was asked of the second level since. */
  lemma ReachByReuse(cfg: MemConfig, front: seq<nat>, x: nat, y: nat)
    requires SoundMem(cfg) && cfg.l2.ways >= 2 && |front| == cfg.l1.ways - 1
    requires Fresh(cfg, front + [x]) && Fresh(cfg, [x] + (front + [y]))
    requires forall i :: 0 <= i < |front| + 1 ==>
      LineOf1(cfg, (front + [y])[i]) % Sets(cfg.l1) == LineOf1(cfg, x) % Sets(cfg.l1)
    ensures Reaches(cfg, front + [x] + front + [y], x)
  {
    hide LineOf1, LineOf2, ReuseHit, Visits;
    var fill, x1, x2, y1, y2 := front + [x], LineOf1(cfg, x), LineOf2(cfg, x), LineOf1(cfg, y), LineOf2(cfg, y);
    ReuseHits(cfg, fill, front);
    VisitsNext(cfg, fill + front, y);
    NeverUsed(cfg, front, x, y);
    NotHeld(Lines1(cfg, fill) + Lines1(cfg, front), y1, Sets(cfg.l1), cfg.l1.ways);
    assert Lines1(cfg, fill) == Lines1(cfg, front) + [x1] && Lines2(cfg, fill) == Lines2(cfg, front) + [x2];
    assert Lines1(cfg, front + [y]) == Lines1(cfg, front) + [y1];
    var tail := Lines1(cfg, front + [y]);
    assert Lines1(cfg, fill) + Lines1(cfg, front) + [y1] == Lines1(cfg, front) + [x1] + tail;
    GoneAfter(cfg, Lines1(cfg, front), x, front + [y]);
    LastKept(Lines2(cfg, front), x2, y2, Sets(cfg.l2), cfg.l2.ways);
  }

  lemma NeverUsed(cfg: MemConfig, front: seq<nat>, x: nat, y: nat)
    requires SoundMem(cfg) && Fresh(cfg, [x] + (front + [y]))
    ensures LineOf1(cfg, y) !in Lines1(cfg, front + [x]) + Lines1(cfg, front)
  {
    hide LineOf1;
    var all := [x] + (front + [y]);
    assert all[|front| + 1] == y && all[0] == x;
    assert forall i :: 0 <= i < |front| ==> all[i + 1] == front[i];
  }

  lemma NotHeld(trace: seq<nat>, x: nat, sets: nat, ways: nat)
    requires sets > 0 && x !in trace
    ensures !ReuseHit(trace, x, sets, ways)
  {
  }

  lemma LastKept(front: seq<nat>, x: nat, y: nat, sets: nat, ways: nat)
    requires sets > 0 && ways >= 2
    ensures ReuseHit(front + [x] + [y], x, sets, ways)
  {
    if x == y {
      JustUsed(front + [x], x, sets);
    } else {
      Kept(front, x, [y], sets, ways, {y});
    }
  }

  lemma ReachInPlace(cfg: MemConfig) returns (addrs: seq<nat>, addr: nat)
    requires SoundMem(cfg) && cfg.l2.ways >= 2
    ensures Reaches(cfg, addrs, addr)
  {
    hide Reaches;
    var w := cfg.l1.ways;
    var front := seq(w - 1, k requires 0 <= k < w - 1 => SetZero(cfg, k));
    var ks := seq(w - 1, k requires 0 <= k < w - 1 => k as nat);
    var x, y := SetZero(cfg, w - 1), SetZero(cfg, w);
    forall k | 0 <= k < w - 1 ensures front[k] == SetZero(cfg, k) && LineOf1(cfg, front[k]) == ks[k] * Sets(cfg.l1) {
      SetZeroLine(cfg, k, 0);
    }
    SetZeroLine(cfg, w - 1, 0);
    SetZeroLine(cfg, w, 0);
    hide SetZero, LineOf1;
    assert OnSetZero(cfg, front + [x], ks + [w - 1]);
    SetZeroFresh(cfg, front + [x], ks + [w - 1]);
    assert OnSetZero(cfg, [x] + (front + [y]), [w - 1] + (ks + [w]));
    SetZeroFresh(cfg, [x] + (front + [y]), [w - 1] + (ks + [w]));
    assert forall i :: 0 <= i < w ==> (front + [y])[i] == ([x] + (front + [y]))[i + 1];
    assert ([x] + (front + [y]))[0] == x;
    addrs, addr := front + [x] + front + [y], x;
    ReachByReuse(cfg, front, x, y);
  }

  /** A second-level hit is reachable from empty caches exactly for those geometries. */
  lemma SecondHitReachable(cfg: MemConfig)
    requires SoundMem(cfg)
    ensures (exists addrs, addr :: Reaches(cfg, addrs, addr)) <==> SecondHitPossible(cfg)
  {
    if SecondHitPossible(cfg) {
      var addrs, addr := ReachSecond(cfg);
    } else {
      forall addrs, addr ensures !Reaches(cfg, addrs, addr) { NestedVisits(cfg, addrs); }
    }
  }

  lemma ReachSecond(cfg: MemConfig) returns (addrs: seq<nat>, addr: nat)
    requires SoundMem(cfg) && SecondHitPossible(cfg)
    ensures Reaches(cfg, addrs, addr)
  {
    hide Reaches;
    if cfg.l1.lineBytes % cfg.l2.lineBytes != 0 {
      addrs, addr := ReachAcross(cfg);
    } else if cfg.l2.ways >= 2 {
      addrs, addr := ReachInPlace(cfg);
    } else {
      addrs, addr := ReachAway(cfg);
    }
  }

  // ---- the longest latency ----

  /** The largest latency any access can take. */
  function Longest(cfg: MemConfig): nat
    requires SoundMem(cfg)
  {
    var l := Max(cfg.l1.hitLatency, cfg.dramLatency);
    if SecondHitPossible(cfg) then Max(l, cfg.l2.hitLatency) else l
  }

  lemma LatencyWithin(cfg: MemConfig, addrs: seq<nat>, addr: nat)
    requires SoundMem(cfg)
    ensures LatencyOf(cfg, Visits(cfg, addrs), addr) <= Longest(cfg)
  {
    hide FirstHit, SecondHit;
    if !SecondHitPossible(cfg) {
      NestedVisits(cfg, addrs);
      assert SecondHit(cfg, Visits(cfg, addrs), addr) ==> FirstHit(cfg, Visits(cfg, addrs), addr);
    }
  }

  lemma LongestReached(cfg: MemConfig) returns (addrs: seq<nat>, addr: nat)
    requires SoundMem(cfg)
    ensures LatencyOf(cfg, Visits(cfg, addrs), addr) == Longest(cfg)
  {
    addrs, addr := [], 0;
    NotHeld([], LineOf1(cfg, 0), Sets(cfg.l1), cfg.l1.ways);
    NotHeld([], LineOf2(cfg, 0), Sets(cfg.l2), cfg.l2.ways);
    if Longest(cfg) != cfg.dramLatency {
      if Longest(cfg) == cfg.l1.hitLatency {
        VisitsNext(cfg, [], 0);
        JustUsed([], LineOf1(cfg, 0), Sets(cfg.l1));
        addrs := [] + [0];
      } else {
        addrs, addr := ReachSecond(cfg);
      }
    }
  }
}
