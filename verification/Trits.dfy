/** Balanced-ternary digits and the integers they denote.
    A word of n trits is a sequence with the least significant trit first. Everything here
    is stated for any n; the machine uses n = 27, 54, 12, 6 and 3. */
module Trits {
  import opened Arithmetic

  type Trit = t: int | -1 <= t <= 1

  /** The constructor of a trit keeps only the sign of its argument. */
  function MakeTrit(v: int): Trit {
    if v < 0 then -1 else if v > 0 then 1 else 0
  }

  datatype TritAdd = TritAdd(sum: Trit, carry: Trit)

  /** One column of the ripple-carry adder. */
  function FullAdd(a: Trit, b: Trit, c: Trit): (r: TritAdd)
    ensures a + b + c == r.sum + 3 * r.carry
  {
    var s := a + b + c;
    if s >= 2 then TritAdd(MakeTrit(s - 3), 1)
    else if s <= -2 then TritAdd(MakeTrit(s + 3), -1)
    else TritAdd(MakeTrit(s), 0)
  }

  function TritMin(a: Trit, b: Trit): Trit { if a < b then a else b }

  function TritMax(a: Trit, b: Trit): Trit { if a > b then a else b }

  /** The logic of TXOR3 on one trit: equal trits give zero, otherwise the first is negated. */
  function TritXor(a: Trit, b: Trit): Trit { if a == b then 0 else -a }

  function Pow3(n: nat): (p: nat)
    ensures p % 2 == 1
  {
    if n == 0 then 1 else 3 * Pow3(n - 1)
  }

  /** The largest value of an n-trit word; the smallest is its negation. */
  function Half(n: nat): (h: int)
    ensures 0 <= h && Pow3(n) == 2 * h + 1
  {
    (Pow3(n) - 1) / 2
  }

  /** The integer a word denotes. */
  function Value(w: seq<Trit>): int
  {
    if |w| == 0 then 0 else w[0] + 3 * Value(w[1..])
  }

  /** The remainder of v modulo 3, taken in {-1, 0, 1}. */
  function Digit(v: int): Trit {
    if v % 3 == 2 then -1 else v % 3
  }

  /** The n low balanced digits of v. */
  function Digits(v: int, n: nat): (w: seq<Trit>)
    ensures |w| == n
    decreases n, v
  {
    if n == 0 then [] else [Digit(v)] + Digits((v - Digit(v)) / 3, n - 1)
  }

  /** The representative of v modulo 3^n that n trits can hold. */
  function Wrap(v: int, n: nat): (r: int)
    ensures -Half(n) <= r <= Half(n)
  {
    (v + Half(n)) % Pow3(n) - Half(n)
  }

  function Sign(v: int): Trit { if v < 0 then -1 else if v > 0 then 1 else 0 }

  predicate InRange(v: int, n: nat) { -Half(n) <= v <= Half(n) }

  // ---- bounds, uniqueness and the two inverse directions ----

  lemma HalfStep(n: nat)
    ensures Half(n + 1) == 3 * Half(n) + 1
  {
    assert Pow3(n + 1) == 3 * Pow3(n);
  }

  lemma {:induction false} ValueBound(w: seq<Trit>)
    ensures InRange(Value(w), |w|)
  {
    if |w| == 0 {
    } else {
      ValueBound(w[1..]);
      HalfStep(|w| - 1);
    }
  }

  /** Words are unique representations. */
  lemma {:induction false} ValueInjective(a: seq<Trit>, b: seq<Trit>)
    requires |a| == |b| && Value(a) == Value(b)
    ensures a == b
  {
    if |a| == 0 {
    } else {
      assert a[0] == b[0] by {
        assert (a[0] - b[0]) + 3 * (Value(a[1..]) - Value(b[1..])) == 0;
      }
      ValueInjective(a[1..], b[1..]);
      assert a == [a[0]] + a[1..] && b == [b[0]] + b[1..];
    }
  }

  lemma {:induction false} DigitsValue(v: int, n: nat)
    requires InRange(v, n)
    ensures Value(Digits(v, n)) == v
    decreases n
  {
    if n == 0 {
    } else {
      HalfStep(n - 1);
      var q := (v - Digit(v)) / 3;
      assert v == Digit(v) + 3 * q;
      DigitsValue(q, n - 1);
      assert Digits(v, n)[1..] == Digits(q, n - 1);
    }
  }

  lemma ValueDigits(w: seq<Trit>)
    ensures Digits(Value(w), |w|) == w
  {
    ValueBound(w);
    DigitsValue(Value(w), |w|);
    ValueInjective(Digits(Value(w), |w|), w);
  }

  // ---- modular arithmetic ----

  /** Wrap is characterised by its range and its residue. */
  lemma WrapUnique(v: int, n: nat, q: int, r: int)
    requires InRange(r, n) && v == q * Pow3(n) + r
    ensures Wrap(v, n) == r
  {
    ModUnique(v + Half(n), Pow3(n), q, r + Half(n));
  }

  lemma WrapInRange(v: int, n: nat)
    requires InRange(v, n)
    ensures Wrap(v, n) == v
  {
    hide Wrap;
    WrapUnique(v, n, 0, v);
  }

  lemma WrapQuotient(v: int, n: nat) returns (q: int)
    ensures v == q * Pow3(n) + Wrap(v, n)
  {
    q := (v + Half(n)) / Pow3(n);
    assert v + Half(n) == Pow3(n) * q + (v + Half(n)) % Pow3(n);
  }

  /** Wrapping an operand first changes nothing. */
  lemma WrapAdd(x: int, y: int, n: nat)
    ensures Wrap(Wrap(x, n) + y, n) == Wrap(x + y, n)
  {
    hide Wrap;
    var q := WrapQuotient(x, n);
    var p := WrapQuotient(Wrap(x, n) + y, n);
    assert x + y == (q + p) * Pow3(n) + Wrap(Wrap(x, n) + y, n) by {
      assert (q + p) * Pow3(n) == q * Pow3(n) + p * Pow3(n);
    }
    WrapUnique(x + y, n, q + p, Wrap(Wrap(x, n) + y, n));
  }

  /** Writing any integer into n trits keeps its residue. */
  lemma DigitsWrap(v: int, n: nat)
    ensures Value(Digits(v, n)) == Wrap(v, n)
  {
    hide Wrap, Digits;
    var r := DigitsResidue(v, n);
    ValueBound(Digits(v, n));
    WrapUnique(v, n, r, Value(Digits(v, n)));
  }

  lemma TripleProduct(q: int, p: int)
    ensures 3 * (q * p) == q * (3 * p)
  {
  }

  lemma {:induction false} DigitsResidue(v: int, n: nat) returns (q: int)
    ensures v == q * Pow3(n) + Value(Digits(v, n))
    decreases n
  {
    if n == 0 {
      q := v;
    } else {
      var v' := (v - Digit(v)) / 3;
      assert v == Digit(v) + 3 * v';
      q := DigitsResidue(v', n - 1);
      assert Digits(v, n)[1..] == Digits(v', n - 1);
      TripleProduct(q, Pow3(n - 1));
    }
  }

  /** The sign of a difference computed modulo 3^n is the true order exactly when the
      difference itself fits in n trits; otherwise it is the opposite order. */
  lemma WrappedOrder(a: int, b: int, n: nat)
    requires InRange(a, n) && InRange(b, n)
    ensures Sign(Wrap(a - b, n)) == if InRange(a - b, n) then Sign(a - b) else -Sign(a - b)
    ensures !InRange(a - b, n) ==> a != b
  {
    hide Wrap;
    if InRange(a - b, n) {
      WrapInRange(a - b, n);
    } else if a - b > 0 {
      WrapUnique(a - b, n, 1, a - b - Pow3(n));
    } else {
      WrapUnique(a - b, n, -1, a - b + Pow3(n));
    }
  }

  // ---- slices and concatenations ----

  lemma {:induction false} ValueConcat(a: seq<Trit>, b: seq<Trit>)
    ensures Value(a + b) == Value(a) + Pow3(|a|) * Value(b)
  {
    if |a| == 0 {
      assert a + b == b;
    } else {
      ValueConcat(a[1..], b);
      assert (a + b)[1..] == a[1..] + b;
      assert 3 * (Pow3(|a| - 1) * Value(b)) == Pow3(|a|) * Value(b);
    }
  }

  lemma ValueSnoc(a: seq<Trit>, t: Trit)
    ensures Value(a + [t]) == Value(a) + Pow3(|a|) * t
  {
    ValueConcat(a, [t]);
    assert Value([t]) == t;
  }

  function Zeros(n: nat): (w: seq<Trit>)
    ensures |w| == n && forall i :: 0 <= i < n ==> w[i] == 0
  {
    seq(n, i => 0)
  }

  lemma {:induction false} ValueZeros(n: nat)
    ensures Value(Zeros(n)) == 0
  {
    if n == 0 {
    } else {
      assert Zeros(n)[1..] == Zeros(n - 1);
      ValueZeros(n - 1);
    }
  }

  lemma Pow3At27()
    ensures Pow3(27) == 7625597484987 && Half(27) == 3812798742493
    ensures Half(12) == 265720 && Half(9) == 9841 && Half(6) == 364 && Half(3) == 13
  {
    assert Pow3(9) == 19683;
    assert Pow3(12) == 531441;
    assert Pow3(18) == 387420489;
    assert Pow3(27) == 7625597484987;
    assert Pow3(3) == 27 && Pow3(6) == 729;
  }
}
