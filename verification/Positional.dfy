/** Fields of equal width packed into one number: the reading of shifts, masks and ors that
    the packed formats share. In base b = 2^k, shifting right by k*i divides i times by b,
    masking with b - 1 is the remainder modulo b, and or-ing a value into a clear field i adds
    value * b^i. */
module Positional {
  import opened Arithmetic

  function Pow(b: nat, n: nat): nat {
    if n == 0 then 1 else b * Pow(b, n - 1)
  }

  /** Every entry fits in a field. */
  predicate Fields(b: nat, ds: seq<int>) {
    forall i :: 0 <= i < |ds| ==> 0 <= ds[i] < b
  }

  /** The number whose fields are ds, lowest first. */
  function Join(b: nat, ds: seq<int>): (w: nat)
    requires Fields(b, ds)
  {
    if |ds| == 0 then 0 else ds[0] + b * Join(b, ds[1..])
  }

  /** Field i of w. */
  function FieldAt(b: nat, w: nat, i: nat): (d: nat)
    requires b > 0
    ensures d < b
    decreases i, w
  {
    if i == 0 then w % b else FieldAt(b, w / b, i - 1)
  }

  lemma ConsParts(b: nat, d: int, x: nat)
    requires 0 <= d < b
    ensures (d + b * x) % b == d && (d + b * x) / b == x
  {
    ModUnique(d + b * x, b, x, d);
  }

  lemma Scaled(b: int, k: int)
    requires b > 0 && k >= 1
    ensures b * k >= b
  {
  }

  /** Reading a field back gives what was put there, and fields never written read as zero. */
  lemma {:induction false} FieldOfJoin(b: nat, ds: seq<int>, i: nat)
    requires b > 0 && Fields(b, ds)
    ensures FieldAt(b, Join(b, ds), i) == if i < |ds| then ds[i] else 0
    decreases i
  {
    if |ds| == 0 {
      if i > 0 { FieldOfJoin(b, ds, i - 1); }
    } else {
      ConsParts(b, ds[0], Join(b, ds[1..]));
      if i > 0 { FieldOfJoin(b, ds[1..], i - 1); }
    }
  }

  lemma {:induction false} JoinBound(b: nat, ds: seq<int>)
    requires b > 0 && Fields(b, ds)
    ensures Join(b, ds) < Pow(b, |ds|)
  {
    if |ds| == 0 {
    } else {
      JoinBound(b, ds[1..]);
      BoundStep(b, ds[0], Join(b, ds[1..]), Pow(b, |ds| - 1));
    }
  }

  lemma BoundStep(b: nat, d: int, x: nat, p: nat)
    requires 0 <= d < b && x < p
    ensures d + b * x < b * p
  {
    assert b * p == b * x + b * (p - x);
    Scaled(b, p - x);
  }

  /** Or-ing a value into the next clear field. */
  lemma {:induction false} JoinSnoc(b: nat, ds: seq<int>, d: int)
    requires Fields(b, ds) && 0 <= d < b
    ensures Fields(b, ds + [d]) && Join(b, ds + [d]) == Join(b, ds) + d * Pow(b, |ds|)
  {
    if |ds| == 0 {
      assert (ds + [d])[1..] == [];
    } else {
      JoinSnoc(b, ds[1..], d);
      assert (ds + [d])[1..] == ds[1..] + [d];
      Spread(b, Join(b, ds[1..]), d, Pow(b, |ds| - 1));
    }
  }

  lemma Spread(b: nat, x: nat, d: int, p: nat)
    ensures b * (x + d * p) == b * x + d * (b * p)
  {
  }

  /** A number below b^n is determined by its n low fields. */
  lemma {:induction false} SameFields(b: nat, p: nat, q: nat, n: nat)
    requires b > 0 && p < Pow(b, n) && q < Pow(b, n)
    requires forall i :: 0 <= i < n ==> FieldAt(b, p, i) == FieldAt(b, q, i)
    ensures p == q
    decreases n
  {
    if n == 0 {
    } else {
      assert FieldAt(b, p, 0) == FieldAt(b, q, 0);
      forall i | 0 <= i < n - 1 ensures FieldAt(b, p / b, i) == FieldAt(b, q / b, i) {
        assert FieldAt(b, p, i + 1) == FieldAt(b, q, i + 1);
      }
      QuotientBound(b, p, Pow(b, n - 1));
      QuotientBound(b, q, Pow(b, n - 1));
      SameFields(b, p / b, q / b, n - 1);
      Rebuild(b, p);
      Rebuild(b, q);
    }
  }

  lemma Rebuild(b: nat, p: nat)
    requires b > 0
    ensures p == p % b + b * (p / b)
  {
  }

  lemma QuotientBound(b: nat, p: nat, m: nat)
    requires b > 0 && p < b * m
    ensures p / b < m
  {
    Rebuild(b, p);
    if p / b >= m {
      MulMono(m, p / b, b);
      assert false;
    }
  }
}
