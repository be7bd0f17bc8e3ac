/** The set-associative cache: ways stamped with ages from one counter, the oldest replaced.
    Valid() ties the ways to the recency stacks of the lines accessed so far, so the result of
    an access is stated by reuse distance over the history. */
module CacheModel {
  import opened LruStack

  datatype Way = Way(tag: nat, age: nat, valid: bool)

  datatype CacheConfig = CacheConfig(totalBytes: nat, lineBytes: nat, ways: nat, hitLatency: nat)

  /** The geometry the constructor asserts. */
  predicate Sound(cfg: CacheConfig) {
    cfg.lineBytes > 0 && cfg.ways > 0 && cfg.totalBytes / (cfg.lineBytes * cfg.ways) > 0
  }

  function Sets(cfg: CacheConfig): (n: nat)
    requires Sound(cfg)
    ensures n > 0
  {
    cfg.totalBytes / (cfg.lineBytes * cfg.ways)
  }

  /** As many sets as fit: they take no more than the capacity, and one more would. */
  lemma SetsFit(cfg: CacheConfig)
    requires Sound(cfg)
    ensures Sets(cfg) * (cfg.ways * cfg.lineBytes) <= cfg.totalBytes
    ensures cfg.totalBytes < (Sets(cfg) + 1) * (cfg.ways * cfg.lineBytes)
  {
    var row := cfg.lineBytes * cfg.ways;
    assert cfg.totalBytes == Sets(cfg) * row + cfg.totalBytes % row;
    assert (Sets(cfg) + 1) * row == Sets(cfg) * row + row;
  }

  datatype CacheStats = CacheStats(hits: nat, misses: nat, accesses: nat)

  function LineOf(tag: nat, sets: nat, idx: nat): nat {
    tag * sets + idx
  }

  /** One set: order lists its valid ways, most recently used first; ages fall along it; the
      ways in that order hold the lines of the list. */
  ghost predicate SetHolds(row: seq<Way>, order: seq<nat>, lines: seq<nat>, sets: nat, idx: nat, clock: nat)
    requires sets > 0
  {
    && |order| == |lines| <= |row|
    && NoRepeats(order)
    && (forall w :: 0 <= w < |row| ==> (row[w].valid <==> w in order))
    && (forall p :: 0 <= p < |order| ==> order[p] < |row|)
    && (forall p :: 0 <= p < |order| ==> LineOf(row[order[p]].tag, sets, idx) == lines[p])
    && (forall p :: 0 <= p < |order| ==> row[order[p]].age <= clock)
    && (forall p, q :: 0 <= p < q < |order| ==> row[order[p]].age > row[order[q]].age)
  }

  /** Where entry k of a list with p taken out and put in front came from. */
  function Source(k: nat, p: nat): nat
    requires k > 0
  {
    if k <= p then k - 1 else k
  }

  lemma FrontedAt(s: seq<nat>, x: nat, p: nat)
    requires p < |s|
    ensures forall k :: 1 <= k < |s| ==> ([x] + Without(s, p))[k] == s[Source(k, p)]
    ensures forall y :: y in [x] + Without(s, p) ==> y == x || y in s
    ensures forall y :: y in s && y != s[p] ==> y in [x] + Without(s, p)
  {
  }

  /** Restamping the way at place p of the order moves it, with its new line, to the front. */
  lemma RestampKeeps(row: seq<Way>, order: seq<nat>, lines: seq<nat>, sets: nat, idx: nat,
                     clock: nat, tag: nat, p: nat)
    requires sets > 0 && SetHolds(row, order, lines, sets, idx, clock) && p < |order|
    ensures SetHolds(row[order[p] := Way(tag, clock + 1, true)],
                     [order[p]] + Without(order, p), [LineOf(tag, sets, idx)] + Without(lines, p),
                     sets, idx, clock + 1)
  {
    hide LineOf, Without;
    var w := order[p];
    var row' := row[w := Way(tag, clock + 1, true)];
    var order' := [w] + Without(order, p);
    var lines' := [LineOf(tag, sets, idx)] + Without(lines, p);
    FrontedAt(order, w, p);
    FrontedAt(lines, lines'[0], p);
    forall k | 1 <= k < |order'|
      ensures order'[k] == order[Source(k, p)] != w && row'[order'[k]] == row[order[Source(k, p)]]
      ensures lines'[k] == lines[Source(k, p)]
    {
      assert order'[k] == order[Source(k, p)];
    }
    forall k, m | 0 <= k < m < |order'|
      ensures order'[k] != order'[m] && row'[order'[k]].age > row'[order'[m]].age
    {
      if k > 0 { assert Source(k, p) < Source(m, p); }
    }
    forall v | 0 <= v < |row'| ensures row'[v].valid <==> v in order' {
      assert v in order' <==> v in order;
    }
  }

  /** Filling an invalid way puts it, with its line, at the front. */
  lemma FillKeeps(row: seq<Way>, order: seq<nat>, lines: seq<nat>, sets: nat, idx: nat,
                  clock: nat, tag: nat, w: nat)
    requires sets > 0 && SetHolds(row, order, lines, sets, idx, clock)
    requires w < |row| && !row[w].valid
    ensures |order| < |row|
    ensures SetHolds(row[w := Way(tag, clock + 1, true)], [w] + order, [LineOf(tag, sets, idx)] + lines,
                     sets, idx, clock + 1)
  {
    hide LineOf;
    ConsNoRepeats(w, order);
    OrderFits([w] + order, |row|);
    assert forall k :: 1 <= k < |order| + 1 ==> ([w] + order)[k] == order[k - 1] != w;
  }

  /** A list of distinct numbers below n has at most n entries. */
  lemma OrderFits(order: seq<nat>, n: nat)
    requires NoRepeats(order) && forall p :: 0 <= p < |order| ==> order[p] < n
    ensures |order| <= n
  {
    ElementsSize(order);
    SubsetSize(Elements(order), Below(n));
  }

  function Below(n: nat): (r: set<nat>)
    ensures |r| == n && forall i: nat :: i in r <==> i < n
  {
    if n == 0 then {} else assert n - 1 !in Below(n - 1); Below(n - 1) + {n - 1}
  }

  lemma {:induction false} SubsetSize(a: set<nat>, b: set<nat>)
    requires a <= b
    ensures |a| <= |b|
    decreases a
  {
    if a == {} {
    } else {
      var x :| x in a;
      SubsetSize(a - {x}, b - {x});
    }
  }

  /** With every way valid, the order is full. */
  lemma FullOrder(row: seq<Way>, order: seq<nat>, lines: seq<nat>, sets: nat, idx: nat, clock: nat)
    requires sets > 0 && SetHolds(row, order, lines, sets, idx, clock)
    requires forall w :: 0 <= w < |row| ==> row[w].valid
    ensures |order| == |row|
  {
    ElementsSize(order);
    assert Below(|row|) <= Elements(order);
    SubsetSize(Below(|row|), Elements(order));
  }

  /** The ways of one set within the flat table. */
  function Row(tags: seq<Way>, ways: nat, idx: nat): (r: seq<Way>)
    requires (idx + 1) * ways <= |tags|
    ensures |r| == ways
  {
    RowStart(ways, idx);
    tags[idx * ways..(idx + 1) * ways]
  }

  lemma RowStart(ways: nat, idx: nat)
    ensures 0 <= idx * ways && (idx + 1) * ways == idx * ways + ways
  {
  }

  lemma RowFits(ways: nat, idx: nat, sets: nat)
    requires idx < sets
    ensures (idx + 1) * ways <= sets * ways
  {
    var d := sets - idx - 1;
    assert sets * ways == (idx + 1) * ways + d * ways;
  }

  lemma RowsApart(ways: nat, idx: nat, other: nat, w: nat)
    requires idx != other && w < ways
    ensures idx * ways + w < other * ways || (other + 1) * ways <= idx * ways + w
  {
    if idx < other {
      RowFits(ways, idx, other);
    } else {
      RowFits(ways, other, idx);
    }
  }

  /** Every set holds the top of the recency stack of its lines. */
  ghost predicate Holds(tags: seq<Way>, orders: seq<seq<nat>>, history: seq<nat>, sets: nat, ways: nat, clock: nat)
    requires sets > 0
  {
    && |tags| == sets * ways && |orders| == sets
    && forall idx :: 0 <= idx < sets ==>
      SetHoldsAt(tags, orders, history, sets, ways, clock, idx)
  }

  ghost predicate SetHoldsAt(tags: seq<Way>, orders: seq<seq<nat>>, history: seq<nat>, sets: nat, ways: nat,
                             clock: nat, idx: nat)
    requires sets > 0 && |tags| == sets * ways && |orders| == sets && idx < sets
  {
    RowFits(ways, idx, sets);
    SetHolds(Row(tags, ways, idx), orders[idx], Top(Stack(history, sets, idx), ways), sets, idx, clock)
  }

  /** A set whose ways were not touched still holds its stack after a line of another set. */
  lemma OtherSetKeeps(tags: seq<Way>, orders: seq<seq<nat>>, history: seq<nat>, sets: nat, ways: nat,
                      clock: nat, line: nat, w: nat, v: Way, order: seq<nat>, idx: nat)
    requires sets > 0 && ways > 0 && Holds(tags, orders, history, sets, ways, clock)
    requires idx < sets && idx != line % sets && w < ways
    requires (line % sets) * ways + w < |tags|
    ensures SetHoldsAt(tags[(line % sets) * ways + w := v], orders[line % sets := order], history + [line],
                       sets, ways, clock + 1, idx)
  {
    hide SetHolds, Stack, Row;
    RowFits(ways, idx, sets);
    RowTouched(tags, ways, line % sets, w, v, idx, sets);
    StackElsewhere(history, line, sets, idx);
    assert SetHoldsAt(tags, orders, history, sets, ways, clock, idx);
    LaterClock(Row(tags, ways, idx), orders[idx], Top(Stack(history, sets, idx), ways), sets, idx, clock);
  }

  lemma LaterClock(row: seq<Way>, order: seq<nat>, lines: seq<nat>, sets: nat, idx: nat, clock: nat)
    requires sets > 0 && SetHolds(row, order, lines, sets, idx, clock)
    ensures SetHolds(row, order, lines, sets, idx, clock + 1)
  {
    hide LineOf;
  }

  lemma StackElsewhere(history: seq<nat>, line: nat, sets: nat, idx: nat)
    requires sets > 0 && line % sets != idx
    ensures Stack(history + [line], sets, idx) == Stack(history, sets, idx)
  {
    assert (history + [line])[..|history|] == history;
  }

  /** Writing one way changes the row of its set only. */
  lemma RowTouched(tags: seq<Way>, ways: nat, at: nat, w: nat, v: Way, idx: nat, sets: nat)
    requires |tags| == sets * ways && at < sets && idx < sets && w < ways && 0 <= at * ways + w < |tags|
    requires (idx + 1) * ways <= sets * ways
    ensures Row(tags[at * ways + w := v], ways, idx)
         == if idx == at then Row(tags, ways, idx)[w := v] else Row(tags, ways, idx)
  {
    RowStart(ways, idx);
    if idx != at { RowsApart(ways, at, idx, w); }
  }

  lemma EmptyHolds(sets: nat, ways: nat)
    requires sets > 0
    ensures 0 <= sets * ways
    ensures Holds(seq(sets * ways, i => Way(0, 0, false)), seq(sets, i => []), [], sets, ways, 0)
  {
    var tags, orders := seq(sets * ways, i => Way(0, 0, false)), seq(sets, i => []);
    forall idx | 0 <= idx < sets ensures SetHoldsAt(tags, orders, [], sets, ways, 0, idx) {
      RowFits(ways, idx, sets);
    }
  }

  class Cache {
    const cfg: CacheConfig
    const sets: nat
    const ways: nat
    const tags: array<Way>
    var clock: nat
    var stats: CacheStats
    ghost var history: seq<nat>
    ghost var orders: seq<seq<nat>>

    constructor (cfg: CacheConfig)
      requires Sound(cfg)
      ensures Valid() && fresh(tags) && this.cfg == cfg && history == []
      ensures sets == Sets(cfg) && ways == cfg.ways
    {
      this.cfg := cfg;
      sets := cfg.totalBytes / (cfg.lineBytes * cfg.ways);
      ways := cfg.ways;
      tags := new Way[Sets(cfg) * cfg.ways](i => Way(0, 0, false));
      clock := 0;
      stats := CacheStats(0, 0, 0);
      history := [];
      orders := seq(Sets(cfg), i => []);
      new;
      assert tags[..] == seq(Sets(cfg) * cfg.ways, i => Way(0, 0, false));
      EmptyHolds(sets, ways);
    }

    /** The ways refine the recency stacks of the history, and the counters count it. */
    ghost predicate Valid()
      reads this, tags
    {
      && cfg.lineBytes > 0 && sets > 0 && ways > 0 && ways == cfg.ways
      && Holds(tags[..], orders, history, sets, ways, clock)
      && stats.accesses == |history| && stats.misses == Misses(history, sets, ways)
      && stats.hits == stats.accesses - stats.misses
    }

    /** The hit scan: the way of the set that holds the tag, or -1. */
    method FindTag(base: nat, tag: nat) returns (hitWay: int)
      requires base + ways <= tags.Length
      ensures -1 <= hitWay < ways
      ensures hitWay >= 0 ==> tags[base + hitWay].valid && tags[base + hitWay].tag == tag
      ensures hitWay < 0 ==> forall w :: base <= w < base + ways ==> !(tags[w].valid && tags[w].tag == tag)
    {
      hitWay := -1;
      for w := 0 to ways
        invariant forall v :: base <= v < base + w ==> !(tags[v].valid && tags[v].tag == tag)
      {
        if tags[base + w].valid && tags[base + w].tag == tag {
          return w;
        }
      }
    }

    /** The victim scan: the first invalid way, or the oldest one if all are valid. */
    method FindVictim(base: nat) returns (victim: nat)
      requires ways > 0 && base + ways <= tags.Length
      ensures victim < ways
      ensures tags[base + victim].valid ==> forall w :: base <= w < base + ways ==>
        tags[w].valid && tags[base + victim].age <= tags[w].age
    {
      victim := 0;
      for w := 0 to ways
        invariant victim < ways && (if w > 0 then victim < w else victim == 0)
        invariant forall v :: base <= v < base + w ==> tags[v].valid && tags[base + victim].age <= tags[v].age
      {
        if !tags[base + w].valid { return w; }
        if tags[base + w].age < tags[base + victim].age { victim := w; }
      }
    }

    /** Cache::access. It hits exactly when the line was accessed before and fewer than `ways`
        distinct other lines of its set have been accessed since. */
    method Access(byteAddr: nat) returns (hit: bool)
      requires Valid()
      modifies this, tags
      ensures Valid()
      ensures hit == ReuseHit(old(history), byteAddr / cfg.lineBytes, sets, ways)
      ensures history == old(history) + [byteAddr / cfg.lineBytes]
      ensures stats == if hit then old(stats).(accesses := old(stats).accesses + 1, hits := old(stats).hits + 1)
                       else old(stats).(accesses := old(stats).accesses + 1, misses := old(stats).misses + 1)
    {
      hide Row, SetHoldsAt, Stamped, ReuseHit, Misses;
      var line := byteAddr / cfg.lineBytes;
      var idx := line % sets;
      var tag := line / sets;
      MissesStep(history, line, sets, ways);
      stats := stats.(accesses := stats.accesses + 1);
      RowFits(ways, idx, sets);
      RowStart(ways, idx);
      var base := idx * ways;

      var hitWay := FindTag(base, tag);
      if hitWay >= 0 {
        ghost var order := HitOrder(tags[..], orders, history, sets, ways, clock, line, hitWay);
        Stamp(line, hitWay, tag, order);
        stats := stats.(hits := stats.hits + 1);
        return true;
      }
      var victim := FindVictim(base);
      ghost var order := MissOrder(tags[..], orders, history, sets, ways, clock, line, base, victim);
      Stamp(line, victim, tag, order);
      stats := stats.(misses := stats.misses + 1);
      hit := false;
    }

    /** Writes one way with the next age; every set keeps holding its stack. */
    method Stamp(line: nat, w: nat, tag: nat, ghost order: seq<nat>)
      requires sets > 0 && w < ways && Holds(tags[..], orders, history, sets, ways, clock)
      requires (line % sets + 1) * ways <= tags.Length
      requires Stamped(tags[..], history, sets, ways, clock, line, w, tag, order)
      modifies this`clock, this`history, this`orders, tags
      ensures Holds(tags[..], orders, history, sets, ways, clock)
      ensures history == old(history) + [line]
    {
      hide Stamped, SetHoldsAt, ReuseHit;
      RowStart(ways, line % sets);
      AllSetsKeep(tags[..], orders, history, sets, ways, clock, line, w, tag, order);
      clock := clock + 1;
      tags[line % sets * ways + w] := Way(tag, clock, true);
      orders := orders[line % sets := order];
      history := history + [line];
    }
  }

  lemma LineSplits(line: nat, sets: nat, tag: nat)
    requires sets > 0
    ensures LineOf(tag, sets, line % sets) == line <==> tag == line / sets
  {
  }

  lemma HitKeeps(row: seq<Way>, order: seq<nat>, lines: seq<nat>, sets: nat, ways: nat,
                 line: nat, clock: nat, w: nat) returns (order': seq<nat>)
    requires sets > 0 && ways > 0 && SetHolds(row, order, lines, sets, line % sets, clock) && NoRepeats(lines)
    requires w < |row| && row[w].valid && row[w].tag == line / sets
    ensures line in lines
    ensures SetHolds(row[w := Way(line / sets, clock + 1, true)], order', TopAfter(lines, line, ways),
                     sets, line % sets, clock + 1)
  {
    var p :| 0 <= p < |order| && order[p] == w;
    LineSplits(line, sets, row[w].tag);
    assert lines[p] == line;
    RemoveAt(lines, line, p);
    RestampKeeps(row, order, lines, sets, line % sets, clock, row[w].tag, p);
    order' := [w] + Without(order, p);
  }

  lemma MissKeeps(row: seq<Way>, order: seq<nat>, lines: seq<nat>, sets: nat, ways: nat,
                  line: nat, clock: nat, w: nat) returns (order': seq<nat>)
    requires sets > 0 && ways == |row| && SetHolds(row, order, lines, sets, line % sets, clock)
    requires w < |row| && forall v :: 0 <= v < |row| ==> row[v].valid ==> row[v].tag != line / sets
    requires row[w].valid ==> forall v :: 0 <= v < |row| ==> row[v].valid && row[w].age <= row[v].age
    ensures line !in lines
    ensures SetHolds(row[w := Way(line / sets, clock + 1, true)], order', TopAfter(lines, line, ways),
                     sets, line % sets, clock + 1)
  {
    forall p | 0 <= p < |lines| ensures lines[p] != line {
      assert order[p] in order;
      LineSplits(line, sets, row[order[p]].tag);
    }
    LineSplits(line, sets, line / sets);
    if row[w].valid {
      FullOrder(row, order, lines, sets, line % sets, clock);
      var last := |order| - 1;
      var p :| 0 <= p < |order| && order[p] == w;
      assert order[last] in order;
      assert p == last;
      RestampKeeps(row, order, lines, sets, line % sets, clock, line / sets, last);
      assert Without(lines, last) == lines[..last];
      order' := [w] + Without(order, last);
    } else {
      FillKeeps(row, order, lines, sets, line % sets, clock, line / sets, w);
      order' := [w] + order;
    }
  }

  /** The set of the line holds its next stack once way w carries the tag and the next age. */
  ghost predicate Stamped(tags: seq<Way>, history: seq<nat>, sets: nat, ways: nat, clock: nat,
                          line: nat, w: nat, tag: nat, order: seq<nat>)
    requires sets > 0 && ways > 0 && (line % sets + 1) * ways <= |tags|
  {
    w < ways &&
    SetHolds(Row(tags, ways, line % sets)[w := Way(tag, clock + 1, true)], order,
             TopAfter(Top(Stack(history, sets, line % sets), ways), line, ways),
             sets, line % sets, clock + 1)
  }

  lemma RowAt(tags: seq<Way>, ways: nat, idx: nat)
    requires (idx + 1) * ways <= |tags|
    ensures idx * ways + ways <= |tags|
    ensures forall w :: 0 <= w < ways ==> Row(tags, ways, idx)[w] == tags[idx * ways + w]
  {
    RowStart(ways, idx);
  }

  lemma HitOrder(tags: seq<Way>, orders: seq<seq<nat>>, history: seq<nat>, sets: nat, ways: nat,
                 clock: nat, line: nat, w: nat) returns (order: seq<nat>)
    requires sets > 0 && ways > 0 && Holds(tags, orders, history, sets, ways, clock) && w < ways
    requires (line % sets + 1) * ways <= |tags| && line % sets * ways + w < |tags|
    requires tags[line % sets * ways + w].valid && tags[line % sets * ways + w].tag == line / sets
    ensures ReuseHit(history, line, sets, ways)
    ensures Stamped(tags, history, sets, ways, clock, line, w, line / sets, order)
  {
    var idx := line % sets;
    RowAt(tags, ways, idx);
    assert SetHoldsAt(tags, orders, history, sets, ways, clock, idx);
    TopIsReuseHit(history, line, sets, ways);
    order := HitKeeps(Row(tags, ways, idx), orders[idx], Top(Stack(history, sets, idx), ways),
                      sets, ways, line, clock, w);
  }

  lemma MissOrder(tags: seq<Way>, orders: seq<seq<nat>>, history: seq<nat>, sets: nat, ways: nat,
                  clock: nat, line: nat, base: nat, w: nat) returns (order: seq<nat>)
    requires sets > 0 && ways > 0 && Holds(tags, orders, history, sets, ways, clock) && w < ways
    requires (line % sets + 1) * ways <= |tags|
    requires base == line % sets * ways && base + ways <= |tags|
    requires forall v :: base <= v < base + ways ==> !(tags[v].valid && tags[v].tag == line / sets)
    requires tags[base + w].valid ==>
      forall v :: base <= v < base + ways ==> tags[v].valid && tags[base + w].age <= tags[v].age
    ensures !ReuseHit(history, line, sets, ways)
    ensures Stamped(tags, history, sets, ways, clock, line, w, line / sets, order)
  {
    var idx := line % sets;
    RowAt(tags, ways, idx);
    var row := Row(tags, ways, idx);
    assert SetHoldsAt(tags, orders, history, sets, ways, clock, idx);
    TopIsReuseHit(history, line, sets, ways);
    assert forall v :: 0 <= v < ways ==> row[v] == tags[base + v];
    order := MissKeeps(row, orders[idx], Top(Stack(history, sets, idx), ways), sets, ways, line, clock, w);
  }

  lemma StackHere(history: seq<nat>, line: nat, sets: nat)
    requires sets > 0
    ensures Stack(history + [line], sets, line % sets) == [line] + Remove(Stack(history, sets, line % sets), line)
  {
    assert (history + [line])[..|history|] == history;
  }

  /** The set of the line holds its new stack. */
  lemma LineSetKeeps(tags: seq<Way>, orders: seq<seq<nat>>, history: seq<nat>, sets: nat, ways: nat,
                     clock: nat, line: nat, w: nat, tag: nat, order: seq<nat>)
    requires sets > 0 && ways > 0 && |tags| == sets * ways && |orders| == sets && w < ways
    requires (line % sets + 1) * ways <= |tags| && 0 <= line % sets * ways + w < |tags|
    requires Stamped(tags, history, sets, ways, clock, line, w, tag, order)
    ensures SetHoldsAt(tags[line % sets * ways + w := Way(tag, clock + 1, true)], orders[line % sets := order],
                       history + [line], sets, ways, clock + 1, line % sets)
  {
    hide SetHolds, Row, Stack;
    var at := line % sets;
    RowTouched(tags, ways, at, w, Way(tag, clock + 1, true), at, sets);
    TopStep(Stack(history, sets, at), line, ways);
    StackHere(history, line, sets);
  }

  lemma AllSetsKeep(tags: seq<Way>, orders: seq<seq<nat>>, history: seq<nat>, sets: nat, ways: nat,
                    clock: nat, line: nat, w: nat, tag: nat, order: seq<nat>)
    requires sets > 0 && ways > 0 && Holds(tags, orders, history, sets, ways, clock)
    requires (line % sets + 1) * ways <= |tags|
    requires Stamped(tags, history, sets, ways, clock, line, w, tag, order)
    ensures 0 <= line % sets * ways + w < |tags|
    ensures Holds(tags[line % sets * ways + w := Way(tag, clock + 1, true)], orders[line % sets := order],
                  history + [line], sets, ways, clock + 1)
  {
    hide SetHoldsAt, SetHolds, Row, Stack, Top, TopAfter;
    var at := line % sets;
    RowStart(ways, at);
    RowFits(ways, at, sets);
    var v := Way(tag, clock + 1, true);
    var tags', orders', history', clock' := tags[at * ways + w := v], orders[at := order], history + [line], clock + 1;
    forall idx | 0 <= idx < sets ensures SetHoldsAt(tags', orders', history', sets, ways, clock', idx)
    {
      if idx == at {
        LineSetKeeps(tags, orders, history, sets, ways, clock, line, w, tag, order);
      } else {
        OtherSetKeeps(tags, orders, history, sets, ways, clock, line, w, v, order, idx);
      }
    }
  }
}
