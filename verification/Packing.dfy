/** Two-bit packing of a 27-trit word into a 64-bit cell: code 0 is 0, code 1 is +1, code 2 is
    -1, and code 3 is read as 0 but never written. A cell is a number below 2^64. */
module Packing {
  import opened Trits
  import opened Positional

  type Word27 = w: seq<Trit> | |w| == 27 witness Zeros(27)

  type Code = c: int | 0 <= c < 4

  type Cell = p: int | 0 <= p < 0x1_0000_0000_0000_0000

  function TritToCode(t: Trit): Code {
    if t == 0 then 0 else if t == 1 then 1 else 2
  }

  function CodeToTrit(c: Code): Trit {
    if c == 1 then 1 else if c == 2 then -1 else 0
  }

  function Field(p: nat, i: nat): Code {
    FieldAt(4, p, i)
  }

  function Codes(w: seq<Trit>): (c: seq<Code>)
    ensures |c| == |w|
  {
    seq(|w|, i requires 0 <= i < |w| => TritToCode(w[i]))
  }

  /** The word a cell reads as. */
  function Unpacked(p: nat): Word27 {
    seq(27, i requires 0 <= i < 27 => CodeToTrit(Field(p, i)))
  }

  /** What store_word leaves in memory: nothing above bit 53 and no field with code 3. */
  ghost predicate Canonical(p: nat) {
    p < Pow(4, 27) && forall i :: 0 <= i < 27 ==> Field(p, i) != 3
  }

  lemma Pow4Values()
    ensures Pow(4, 27) == 0x40_0000_0000_0000
  {
    assert Pow(4, 8) == 0x1_0000;
    assert Pow(4, 16) == 0x1_0000_0000;
    assert Pow(4, 24) == 0x1_0000_0000_0000;
  }

  /** pack_word27 */
  method PackWord27(w: Word27) returns (out: Cell)
    ensures Canonical(out) && Unpacked(out) == w
  {
    var acc: nat, weight: nat := 0, 1;
    var codes := Codes(w);
    for i := 0 to 27
      invariant acc == Join(4, codes[..i]) && weight == Pow(4, i)
    {
      JoinSnoc(4, codes[..i], codes[i]);
      assert codes[..i + 1] == codes[..i] + [codes[i]];
      acc := acc + TritToCode(w[i]) * weight;
      weight := weight * 4;
    }
    assert codes[..27] == codes;
    PackedIsWord(w);
    out := acc;
  }

  lemma PackedIsWord(w: Word27)
    ensures Join(4, Codes(w)) < 0x40_0000_0000_0000
    ensures Canonical(Join(4, Codes(w))) && Unpacked(Join(4, Codes(w))) == w
  {
    JoinBound(4, Codes(w));
    Pow4Values();
    forall i | 0 <= i < 27 ensures Field(Join(4, Codes(w)), i) == Codes(w)[i] {
      FieldOfJoin(4, Codes(w), i);
    }
  }

  method UnpackWord27(packed: Cell) returns (w: Word27)
    ensures w == Unpacked(packed)
  {
    w := Zeros(27);
    for i := 0 to 27
      invariant forall k :: 0 <= k < i ==> w[k] == CodeToTrit(Field(packed, k))
    {
      var code := FieldAt(4, packed, i);
      w := w[i := CodeToTrit(code)];
    }
  }

  /** Canonical cells are unique: two that read as the same word are the same bits, so
      packing what was unpacked gives the cell back. */
  lemma CanonicalUnique(p: nat, q: nat)
    requires Canonical(p) && Canonical(q) && Unpacked(p) == Unpacked(q)
    ensures p == q
  {
    forall i | 0 <= i < 27 ensures FieldAt(4, p, i) == FieldAt(4, q, i) {
      assert Unpacked(p)[i] == Unpacked(q)[i];
    }
    SameFields(4, p, q, 27);
  }
}
