/** Least-recently-used replacement, seen as one unbounded stack per set: the lines of a set,
    most recently used first. A cache of w ways holds the top w of it. */
module LruStack {

  /** The index of the last use of x. */
  function LastUse(trace: seq<nat>, x: nat): (i: nat)
    requires x in trace
    ensures i < |trace| && trace[i] == x && x !in trace[i + 1..]
  {
    if trace[|trace| - 1] == x then |trace| - 1
    else
      var i := LastUse(trace[..|trace| - 1], x);
      assert trace[i + 1..] == trace[..|trace| - 1][i + 1..] + [trace[|trace| - 1]];
      i
  }

  /** The distinct other lines of x's set used since the last use of x. */
  function OthersSince(trace: seq<nat>, x: nat, sets: nat): set<nat>
    requires x in trace && sets > 0
  {
    set y | y in trace[LastUse(trace, x) + 1..] && y % sets == x % sets
  }

  /** Reuse distance: x was used before, and fewer than w other lines of its set since. */
  predicate ReuseHit(trace: seq<nat>, x: nat, sets: nat, ways: nat)
    requires sets > 0
  {
    x in trace && |OthersSince(trace, x, sets)| < ways
  }

  function Remove(s: seq<nat>, x: nat): (r: seq<nat>)
    ensures forall y :: y in r <==> y in s && y != x
    ensures |r| <= |s|
  {
    if |s| == 0 then [] else if s[0] == x then Remove(s[1..], x) else [s[0]] + Remove(s[1..], x)
  }

  predicate NoRepeats(s: seq<nat>) {
    forall i, j :: 0 <= i < j < |s| ==> s[i] != s[j]
  }

  /** The lines of one set in order of recency. */
  function Stack(trace: seq<nat>, sets: nat, idx: nat): (s: seq<nat>)
    requires sets > 0
    ensures forall y :: y in s <==> y in trace && y % sets == idx
    ensures NoRepeats(s)
  {
    if |trace| == 0 then []
    else
      var x := trace[|trace| - 1];
      var rest := Stack(trace[..|trace| - 1], sets, idx);
      assert trace == trace[..|trace| - 1] + [x];
      if x % sets != idx then rest else
      RemoveNoRepeats(rest, x);
      ConsNoRepeats(x, Remove(rest, x));
      [x] + Remove(rest, x)
  }

  lemma {:induction false} RemoveNoRepeats(s: seq<nat>, x: nat)
    requires NoRepeats(s)
    ensures NoRepeats(Remove(s, x))
  {
    if |s| == 0 {
    } else {
      RemoveNoRepeats(s[1..], x);
      assert s[0] !in s[1..];
      ConsNoRepeats(s[0], Remove(s[1..], x));
    }
  }

  lemma ConsNoRepeats(x: nat, s: seq<nat>)
    requires NoRepeats(s) && x !in s
    ensures NoRepeats([x] + s)
  {
  }

  lemma {:induction false} RemoveAbsent(s: seq<nat>, x: nat)
    requires x !in s
    ensures Remove(s, x) == s
  {
    if |s| == 0 {
    } else {
      RemoveAbsent(s[1..], x);
    }
  }

  function Without(s: seq<nat>, p: nat): (r: seq<nat>)
    requires p < |s|
    ensures |r| == |s| - 1
  {
    s[..p] + s[p + 1..]
  }

  lemma {:induction false} RemoveAt(s: seq<nat>, x: nat, p: nat)
    requires NoRepeats(s) && p < |s| && s[p] == x
    ensures Remove(s, x) == Without(s, p)
  {
    if p == 0 {
      RemoveAbsent(s[1..], x);
      assert Without(s, 0) == s[1..];
    } else {
      RemoveAt(s[1..], x, p - 1);
      assert Without(s, p) == [s[0]] + Without(s[1..], p - 1);
    }
  }

  function Elements(s: seq<nat>): set<nat> { set y | y in s }

  lemma {:induction false} ElementsSize(s: seq<nat>)
    requires NoRepeats(s)
    ensures |Elements(s)| == |s|
  {
    if |s| == 0 {
    } else {
      ElementsSize(s[1..]);
      assert Elements(s) == {s[0]} + Elements(s[1..]);
    }
  }

  /** Moving z to the front puts z above x and leaves everything else above x there. */
  lemma AboveAfterPush(s: seq<nat>, x: nat, p: nat, z: nat) returns (p': nat)
    requires NoRepeats(s) && p < |s| && s[p] == x && z != x
    ensures var s' := [z] + Remove(s, z);
      p' < |s'| && s'[p'] == x && Elements(s'[..p']) == Elements(s[..p]) + {z}
  {
    hide Remove;
    if z in s {
      var q :| 0 <= q < |s| && s[q] == z;
      RemoveAt(s, z, q);
      if q < p {
        p' := p;
        PushFromAbove(s, p, q);
      } else {
        p' := p + 1;
        assert ([z] + Without(s, q))[..p'] == [z] + s[..p];
      }
    } else {
      RemoveAbsent(s, z);
      p' := p + 1;
      assert ([z] + s)[..p'] == [z] + s[..p];
    }
  }

  lemma PushFromAbove(s: seq<nat>, p: nat, q: nat)
    requires q < p < |s|
    ensures ([s[q]] + Without(s, q))[p] == s[p]
    ensures Elements(([s[q]] + Without(s, q))[..p]) == Elements(s[..p])
  {
    assert ([s[q]] + Without(s, q))[..p] == [s[q]] + s[..q] + s[q + 1..p];
    assert s[..p] == s[..q] + [s[q]] + s[q + 1..p];
  }

  lemma OthersSinceStep(front: seq<nat>, z: nat, x: nat, sets: nat)
    requires sets > 0 && x in front && z != x
    ensures OthersSince(front + [z], x, sets)
         == OthersSince(front, x, sets) + if z % sets == x % sets then {z} else {}
  {
  }

  /** What lies above x in the stack is exactly what was used since x. */
  lemma {:induction false} AboveIsOthersSince(trace: seq<nat>, x: nat, sets: nat) returns (p: nat)
    requires sets > 0 && x in trace
    ensures var s := Stack(trace, sets, x % sets);
      p < |s| && s[p] == x && Elements(s[..p]) == OthersSince(trace, x, sets)
  {
    var n := |trace| - 1;
    var z, front := trace[n], trace[..n];
    assert trace == front + [z];
    if z == x {
      p := 0;
    } else {
      p := AboveIsOthersSince(front, x, sets);
      OthersSinceStep(front, z, x, sets);
      if z % sets == x % sets {
        p := AboveAfterPush(Stack(front, sets, x % sets), x, p, z);
      }
    }
  }

  // ---- a cache of w ways holds the top w of every stack ----

  function Top(s: seq<nat>, ways: nat): (r: seq<nat>)
    ensures |r| <= ways
  {
    if |s| <= ways then s else s[..ways]
  }

  /** Being in the cache is a reuse distance below the number of ways. */
  lemma TopIsReuseHit(trace: seq<nat>, x: nat, sets: nat, ways: nat)
    requires sets > 0
    ensures x in Top(Stack(trace, sets, x % sets), ways) <==> ReuseHit(trace, x, sets, ways)
  {
    var s := Stack(trace, sets, x % sets);
    if x in trace {
      var p := AboveIsOthersSince(trace, x, sets);
      ElementsSize(s[..p]);
      if p < ways { assert Top(s, ways)[p] == x; }
    }
  }

  /** The top of the stack after one more use, computed from the top alone. */
  function TopAfter(top: seq<nat>, x: nat, ways: nat): seq<nat>
    requires ways > 0
  {
    if x in top then [x] + Remove(top, x)
    else if |top| < ways then [x] + top
    else [x] + top[..|top| - 1]
  }

  lemma TopStep(s: seq<nat>, x: nat, ways: nat)
    requires NoRepeats(s) && ways > 0
    ensures Top([x] + Remove(s, x), ways) == TopAfter(Top(s, ways), x, ways)
  {
    if x in s {
      var q :| 0 <= q < |s| && s[q] == x;
      RemoveAt(s, x, q);
      if q < ways { TopStepHit(s, x, q, ways); } else { TopStepDeep(s, x, q, ways); }
    } else {
      RemoveAbsent(s, x);
      assert x !in Top(s, ways);
    }
  }

  lemma TopStepHit(s: seq<nat>, x: nat, q: nat, ways: nat)
    requires NoRepeats(s) && q < |s| && s[q] == x && q < ways
    ensures Top([x] + Without(s, q), ways) == TopAfter(Top(s, ways), x, ways)
  {
    var top := Top(s, ways);
    assert top[q] == x;
    RemoveAt(top, x, q);
    if |s| > ways { assert Without(top, q) == Without(s, q)[..ways - 1]; }
  }

  lemma TopStepDeep(s: seq<nat>, x: nat, q: nat, ways: nat)
    requires NoRepeats(s) && q < |s| && s[q] == x && 0 < ways <= q
    ensures Top([x] + Without(s, q), ways) == TopAfter(Top(s, ways), x, ways)
  {
  }

  // ---- misses over a whole trace, and associativity ----

  function Misses(trace: seq<nat>, sets: nat, ways: nat): nat
    requires sets > 0
  {
    if |trace| == 0 then 0
    else
      var front := trace[..|trace| - 1];
      Misses(front, sets, ways) + if ReuseHit(front, trace[|trace| - 1], sets, ways) then 0 else 1
  }

  lemma MissesStep(trace: seq<nat>, x: nat, sets: nat, ways: nat)
    requires sets > 0
    ensures Misses(trace + [x], sets, ways)
         == Misses(trace, sets, ways) + if ReuseHit(trace, x, sets, ways) then 0 else 1
  {
    assert (trace + [x])[..|trace|] == trace;
  }

  /** Stack property: with the same sets, whatever hits with w ways hits with more. */
  lemma MoreWaysStillHit(trace: seq<nat>, x: nat, sets: nat, ways: nat, more: nat)
    requires sets > 0 && ways <= more
    ensures ReuseHit(trace, x, sets, ways) ==> ReuseHit(trace, x, sets, more)
    ensures forall y :: y in Top(Stack(trace, sets, x % sets), ways) ==>
      y in Top(Stack(trace, sets, x % sets), more)
  {
  }

  lemma {:induction false} MoreWaysNoMoreMisses(trace: seq<nat>, sets: nat, ways: nat, more: nat)
    requires sets > 0 && ways <= more
    ensures Misses(trace, sets, more) <= Misses(trace, sets, ways)
  {
    if |trace| == 0 {
    } else {
      MoreWaysNoMoreMisses(trace[..|trace| - 1], sets, ways, more);
      MoreWaysStillHit(trace[..|trace| - 1], trace[|trace| - 1], sets, ways, more);
    }
  }
}
