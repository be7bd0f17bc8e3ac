/** Ternary words and their arithmetic: the loops of the word library, each proved against
    integer arithmetic on the values the words denote. */
module Words {
  import opened Arithmetic
  import opened Trits

  /** The remainder operator of the host language: it takes the sign of the dividend. */
  function CRem(a: int, b: int): int
    requires b > 0
  {
    if a >= 0 then a % b else -((-a) % b)
  }

  /** The truncating remainder, made positive and reduced again, is the Euclidean one. */
  lemma RemReduced(a: int, b: int)
    requires b > 0
    ensures (CRem(a, b) + b) % b == a % b
  {
    var q, r := (-a) / b, (-a) % b;
    if a < 0 && r == 0 {
      assert -a == q * b && a == (-q) * b;
      ModUnique(a, b, -q, 0);
      ModUnique(b, b, 1, 0);
    } else if a < 0 {
      assert -a == q * b + r && a == (-q - 1) * b + (b - r);
      ModUnique(a, b, -q - 1, b - r);
      ModUnique(b - r, b, 0, b - r);
    } else {
      ModUnique(a % b + b, b, 1, a % b);
    }
  }

  // ---- specification: a word operation is an integer operation followed by Digits ----

  function AddSpec(a: seq<Trit>, b: seq<Trit>): (r: seq<Trit>)
    requires |a| == |b|
    ensures |r| == |a|
  {
    Digits(Value(a) + Value(b), |a|)
  }

  function NegSpec(a: seq<Trit>): (r: seq<Trit>)
    ensures |r| == |a|
  {
    Digits(-Value(a), |a|)
  }

  // ---- conversions ----

  /** Word27::from_int; its assertion is the precondition. */
  method FromInt(v: int, n: nat) returns (w: seq<Trit>)
    requires InRange(v, n)
    ensures w == Digits(v, n) && Value(w) == v
  {
    hide Digits, CRem;
    w := Zeros(n);
    var x := v;
    for i := 0 to n
      invariant |w| == n && w[..i] + Digits(x, n - i) == Digits(v, n)
    {
      var r := (CRem(x, 3) + 3) % 3;
      RemReduced(x, 3);
      var digit := if r == 2 then -1 else r;
      ghost var w0 := w;
      w := w[i := MakeTrit(digit)];
      DigitStep(w0, w, v, x, i);
      x := (x - digit) / 3;
    }
    DigitsValue(v, n);
    assert w == w[..n] + Digits(x, 0);
  }

  lemma DigitStep(w: seq<Trit>, w': seq<Trit>, v: int, x: int, i: nat)
    requires i < |w| && w' == w[i := Digit(x)]
    requires w[..i] + Digits(x, |w| - i) == Digits(v, |w|)
    ensures w'[..i + 1] + Digits((x - Digit(x)) / 3, |w| - i - 1) == Digits(v, |w|)
  {
    assert w'[..i + 1] == w[..i] + [Digit(x)];
  }

  lemma {:induction false} DigitsOfZero(n: nat)
    ensures Digits(0, n) == Zeros(n)
  {
    if n == 0 {
    } else {
      DigitsOfZero(n - 1);
    }
  }

  method ToInt(w: seq<Trit>) returns (v: int)
    ensures v == Value(w)
  {
    v := 0;
    var place: int := 1;
    for i := 0 to |w|
      invariant v == Value(w[..i]) && place == Pow3(i)
    {
      v := v + w[i] * place;
      place := place * 3;
      ValueSnoc(w[..i], w[i]);
      assert w[..i + 1] == w[..i] + [w[i]];
    }
    assert w[..|w|] == w;
  }

  // ---- addition and negation ----

  method Neg(a: seq<Trit>) returns (r: seq<Trit>)
    ensures r == NegSpec(a) && Value(r) == -Value(a)
  {
    r := Zeros(|a|);
    assert Value(r[..0]) == -Value(a[..0]);
    hide Value, Digits, Pow3;
    for i := 0 to |a|
      invariant |r| == |a| && Value(r[..i]) == -Value(a[..i])
    {
      ghost var p := Pow3(i);
      assert p * -a[i] == -(p * a[i]);
      r := r[i := -a[i]];
      assert r[..i + 1] == r[..i] + [-a[i]] && a[..i + 1] == a[..i] + [a[i]];
      ValueSnoc(r[..i], -a[i]);
      ValueSnoc(a[..i], a[i]);
    }
    assert r[..|a|] == r && a[..|a|] == a;
    ValueDigits(r);
  }

  /** Ripple-carry addition: the carry out of the last trit is dropped. */
  method Add(a: seq<Trit>, b: seq<Trit>) returns (r: seq<Trit>)
    requires |a| == |b|
    ensures r == AddSpec(a, b) && Value(r) == Wrap(Value(a) + Value(b), |a|)
  {
    var n := |a|;
    r := Zeros(n);
    var carry: Trit := 0;
    for i := 0 to n
      invariant |r| == n
      invariant Value(r[..i]) + Pow3(i) * carry == Value(a[..i]) + Value(b[..i])
    {
      var rr := FullAdd(a[i], b[i], carry);
      r := r[i := rr.sum];
      assert r[..i + 1] == r[..i] + [rr.sum];
      assert a[..i + 1] == a[..i] + [a[i]] && b[..i + 1] == b[..i] + [b[i]];
      ValueSnoc(r[..i], rr.sum);
      ValueSnoc(a[..i], a[i]);
      ValueSnoc(b[..i], b[i]);
      CarryStep(Pow3(i), a[i], b[i], carry, rr.sum, rr.carry);
      carry := rr.carry;
    }
    assert r[..n] == r && a[..n] == a && b[..n] == b;
    ValueBound(r);
    WrapUnique(Value(a) + Value(b), n, carry, Value(r));
    ValueDigits(r);
    DigitsWrap(Value(a) + Value(b), n);
    ValueInjective(r, AddSpec(a, b));
  }

  lemma CarryStep(p: int, a: int, b: int, c: int, s: int, c': int)
    requires a + b + c == s + 3 * c'
    ensures p * s + 3 * p * c' == p * a + p * b + p * c
  {
    assert p * (a + b + c) == p * (s + 3 * c');
  }

  method Sub(a: seq<Trit>, b: seq<Trit>) returns (r: seq<Trit>)
    requires |a| == |b|
    ensures r == AddSpec(a, NegSpec(b)) && Value(r) == Wrap(Value(a) - Value(b), |a|)
  {
    hide Value, Digits, Wrap, AddSpec, NegSpec;
    var nb := Neg(b);
    r := Add(a, nb);
  }

  /** The leading nonzero trit. */
  method SignTrit(w: seq<Trit>) returns (s: Trit)
    ensures s == Sign(Value(w))
  {
    var i := |w| - 1;
    assert w[..i + 1] == w;
    while i >= 0
      invariant -1 <= i < |w|
      invariant Value(w) == Value(w[..i + 1])
    {
      ghost var low := w[..i];
      assert w[..i + 1] == low + [w[i]];
      ValueSnoc(low, w[i]);
      ValueBound(low);
      if w[i] != 0 {
        return w[i];
      }
      i := i - 1;
    }
    s := 0;
  }

  // ---- multiplication ----

  /** Shift-and-add product of two n-trit words in 2n trits: exact, for all operands. */
  method Mul(a: seq<Trit>, b: seq<Trit>) returns (acc: seq<Trit>)
    requires |a| == |b|
    ensures |acc| == 2 * |a| && Value(acc) == Value(a) * Value(b)
  {
    var n := |a|;
    acc := Zeros(2 * n);
    ValueZeros(2 * n);
    for j := 0 to n
      invariant |acc| == 2 * n && Value(acc) == Value(a) * Value(b[..j])
    {
      var bj := b[j];
      assert b[..j + 1] == b[..j] + [bj];
      ValueSnoc(b[..j], bj);
      if bj == 0 { continue; }
      var partial := Zeros(2 * n);
      var i := 0;
      while i < n
        invariant 0 <= i <= n && |partial| == 2 * n
        invariant forall k :: 0 <= k < 2 * n ==> partial[k] == if j <= k < j + i then bj * a[k - j] else 0
      {
        var dst := i + j;
        if dst >= 2 * n { break; }
        var ai := a[i];
        partial := partial[dst := if bj < 0 then -ai else ai];
        i := i + 1;
      }
      PartialValue(partial, a, bj, j);
      ghost var before := Value(acc);
      ProductFits(a, b[..j + 1]);
      acc := Add(acc, partial);
      ProductStep(Value(a), Value(b[..j]), Pow3(j), bj);
      WrapInRange(before + Value(partial), 2 * n);
    }
    assert b[..n] == b;
  }

  lemma ProductStep(a: int, b: int, p: int, t: int)
    ensures a * b + p * (t * a) == a * (b + p * t)
  {
  }

  function Scale(t: Trit, a: seq<Trit>): (r: seq<Trit>)
    ensures |r| == |a| && forall k :: 0 <= k < |a| ==> r[k] == t * a[k]
  {
    seq(|a|, k requires 0 <= k < |a| => t * a[k])
  }

  lemma {:induction false} ValueScale(t: Trit, a: seq<Trit>)
    ensures Value(Scale(t, a)) == t * Value(a)
  {
    if |a| == 0 {
    } else {
      assert Scale(t, a)[1..] == Scale(t, a[1..]);
      ValueScale(t, a[1..]);
    }
  }

  lemma {:induction false} PartialValue(partial: seq<Trit>, a: seq<Trit>, t: Trit, j: nat)
    requires |partial| == 2 * |a| && j < |a|
    requires forall k :: 0 <= k < |partial| ==> partial[k] == if j <= k < j + |a| then t * a[k - j] else 0
    ensures Value(partial) == Pow3(j) * (t * Value(a))
  {
    var top := Zeros(|a| - j);
    var mid := Scale(t, a) + top;
    assert partial == Zeros(j) + mid;
    ValueConcat(Zeros(j), mid);
    ValueConcat(Scale(t, a), top);
    ValueZeros(j);
    ValueZeros(|a| - j);
    ValueScale(t, a);
  }

  lemma {:induction false} Pow3Add(m: nat, n: nat)
    ensures Pow3(m + n) == Pow3(m) * Pow3(n)
  {
    if m == 0 {
    } else {
      Pow3Add(m - 1, n);
      assert 3 * (Pow3(m - 1) * Pow3(n)) == Pow3(m) * Pow3(n);
    }
  }

  /** A product with any prefix of the multiplier fits in twice the width. */
  lemma ProductFits(a: seq<Trit>, b: seq<Trit>)
    requires |b| <= |a|
    ensures InRange(Value(a) * Value(b), 2 * |a|)
  {
    var n := |a|;
    ValueBound(a);
    ValueBound(b);
    HalfMonotone(|b|, n);
    Pow3Add(n, n);
    assert n + n == 2 * n;
    var h := Half(n);
    SquareOfOdd(h);
    MulPositive(h);
    AbsProduct(Value(a), Value(b), h);
  }

  lemma SquareOfOdd(h: int)
    ensures (2 * h + 1) * (2 * h + 1) == 2 * (2 * (h * h) + 2 * h) + 1
  {
  }

  lemma MulPositive(h: int)
    requires 0 <= h
    ensures 0 <= h * h
  {
  }

  lemma {:induction false} HalfMonotone(m: nat, n: nat)
    requires m <= n
    ensures Half(m) <= Half(n)
    decreases n - m
  {
    if m == n {
    } else {
      HalfStep(m);
      HalfMonotone(m + 1, n);
    }
  }

  lemma AbsProduct(x: int, y: int, h: int)
    requires -h <= x <= h && -h <= y <= h
    ensures -(h * h) <= x * y <= h * h
  {
    assert (h - x) * (h + y) >= 0 && (h + x) * (h - y) >= 0;
    assert (h - x) * (h - y) >= 0 && (h + x) * (h + y) >= 0;
  }

  /** Multiply-accumulate wraps the accumulator only. */
  method MacInplace(acc: seq<Trit>, a: seq<Trit>, b: seq<Trit>) returns (acc': seq<Trit>)
    requires |a| == |b| && |acc| == 2 * |a|
    ensures |acc'| == |acc| && Value(acc') == Wrap(Value(acc) + Value(a) * Value(b), |acc|)
  {
    var p := Mul(a, b);
    acc' := Add(acc, p);
  }

  // ---- the abelian group of n-trit words ----

  lemma {:induction false} AddValue(a: seq<Trit>, b: seq<Trit>)
    requires |a| == |b|
    ensures Value(AddSpec(a, b)) == Wrap(Value(a) + Value(b), |a|)
  {
    DigitsWrap(Value(a) + Value(b), |a|);
  }

  lemma {:induction false} AddTwice(a: seq<Trit>, b: seq<Trit>, c: seq<Trit>)
    requires |a| == |b| == |c|
    ensures Value(AddSpec(AddSpec(a, b), c)) == Wrap(Value(a) + Value(b) + Value(c), |a|)
  {
    var ab := AddSpec(a, b);
    AddValue(a, b);
    AddValue(ab, c);
    WrapAdd(Value(a) + Value(b), Value(c), |a|);
  }

  lemma AddCommutes(a: seq<Trit>, b: seq<Trit>)
    requires |a| == |b|
    ensures AddSpec(a, b) == AddSpec(b, a)
  {
    assert Value(a) + Value(b) == Value(b) + Value(a);
  }

  lemma AddAssociative(a: seq<Trit>, b: seq<Trit>, c: seq<Trit>)
    requires |a| == |b| == |c|
    ensures AddSpec(AddSpec(a, b), c) == AddSpec(a, AddSpec(b, c))
  {
    AddTwice(a, b, c);
    AddTwice(b, c, a);
    ValueInjective(AddSpec(AddSpec(a, b), c), AddSpec(AddSpec(b, c), a));
    AddCommutes(AddSpec(b, c), a);
  }

  lemma AddInverse(a: seq<Trit>)
    ensures AddSpec(a, NegSpec(a)) == Zeros(|a|) && AddSpec(a, Zeros(|a|)) == a
  {
    ValueBound(a);
    DigitsValue(-Value(a), |a|);
    ValueZeros(|a|);
    DigitsOfZero(|a|);
    ValueDigits(a);
  }
}
