/** The instruction set and its 27-trit encoding:
    trits 0-11 immediate, 12-14 src2, 15-17 src1, 18-20 dst (registers biased by 13),
    21-26 opcode. */
module Isa {
  import opened Trits
  import opened Words
  import opened Packing

  datatype Option<+T> = None | Some(value: T)

  datatype Opcode =
    | TNOP | THALT | TDBG
    | TADD | TSUB | TNEG | TABS | TAND3 | TOR3 | TXOR3 | TCMP | TSIGN
    | TLOAD | TSTORE | TLOADI
    | TBEQ | TBNE | TBLT | TJUMP | TCALL | TRET
    | TVADD | TVSUB | TVNEG | TVBROADCAST | TVMAC | TVSUM | TVMAX | TVSHUF
    | TVLOAD | TVSTORE | TVMUL

  function OpValue(op: Opcode): (v: int)
    ensures 0 <= v <= 122
  {
    match op
    case TNOP => 0 case THALT => 1 case TDBG => 2
    case TADD => 10 case TSUB => 11 case TNEG => 12 case TABS => 13
    case TAND3 => 14 case TOR3 => 15 case TXOR3 => 16 case TCMP => 17 case TSIGN => 18
    case TLOAD => 30 case TSTORE => 31 case TLOADI => 32
    case TBEQ => 50 case TBNE => 51 case TBLT => 52 case TJUMP => 53 case TCALL => 54 case TRET => 55
    case TVADD => 100 case TVSUB => 101 case TVNEG => 102 case TVBROADCAST => 103
    case TVMAC => 110 case TVSUM => 111 case TVMAX => 112 case TVSHUF => 113
    case TVLOAD => 120 case TVSTORE => 121 case TVMUL => 122
  }

  /** is_valid_opcode together with the cast it guards. */
  function OpcodeOf(v: int): (r: Option<Opcode>)
    ensures r.Some? ==> OpValue(r.value) == v
  {
    match v
    case 0 => Some(TNOP) case 1 => Some(THALT) case 2 => Some(TDBG)
    case 10 => Some(TADD) case 11 => Some(TSUB) case 12 => Some(TNEG) case 13 => Some(TABS)
    case 14 => Some(TAND3) case 15 => Some(TOR3) case 16 => Some(TXOR3) case 17 => Some(TCMP)
    case 18 => Some(TSIGN)
    case 30 => Some(TLOAD) case 31 => Some(TSTORE) case 32 => Some(TLOADI)
    case 50 => Some(TBEQ) case 51 => Some(TBNE) case 52 => Some(TBLT) case 53 => Some(TJUMP)
    case 54 => Some(TCALL) case 55 => Some(TRET)
    case 100 => Some(TVADD) case 101 => Some(TVSUB) case 102 => Some(TVNEG) case 103 => Some(TVBROADCAST)
    case 110 => Some(TVMAC) case 111 => Some(TVSUM) case 112 => Some(TVMAX) case 113 => Some(TVSHUF)
    case 120 => Some(TVLOAD) case 121 => Some(TVSTORE) case 122 => Some(TVMUL)
    case _ => None
  }

  lemma OpcodeOfValue(op: Opcode)
    ensures OpcodeOf(OpValue(op)) == Some(op)
  {
  }

  datatype Instr = Instr(op: Opcode, dst: int, src1: int, src2: int, imm: int)

  /** An instruction whose fields fit: registers 0..26 and a 12-trit immediate. */
  predicate Legal(i: Instr) {
    0 <= i.dst <= 26 && 0 <= i.src1 <= 26 && 0 <= i.src2 <= 26 && -265720 <= i.imm <= 265720
  }

  // ---- specification of the two directions ----

  function EncodeSpec(i: Instr): (w: Word27) {
    Digits(i.imm, 12) + Digits(i.src2 - 13, 3) + Digits(i.src1 - 13, 3) + Digits(i.dst - 13, 3)
      + Digits(OpValue(i.op), 6)
  }

  function DecodeSpec(w: Word27): (r: Option<Instr>) {
    match OpcodeOf(Value(w[21..27]))
    case None => None
    case Some(op) =>
      Some(Instr(op, Value(w[18..21]) + 13, Value(w[15..18]) + 13, Value(w[12..15]) + 13, Value(w[0..12])))
  }

  /** What the fields of an arbitrary instruction become after they are cut to their width. */
  function Truncated(i: Instr): Instr {
    Instr(i.op, Wrap(i.dst - 13, 3) + 13, Wrap(i.src1 - 13, 3) + 13, Wrap(i.src2 - 13, 3) + 13, Wrap(i.imm, 12))
  }

  // ---- the loops ----

  method PutTrits(w: Word27, start: nat, n: nat, value: int) returns (r: Word27)
    requires start + n <= 27
    ensures r == w[..start] + Digits(value, n) + w[start + n..]
  {
    hide Digits, CRem, PutState;
    r := w;
    var x := value;
    PutNothing(w, start, n, value);
    for i := 0 to n
      invariant PutState(w, r, start, i, n, x, value)
    {
      var rem := (CRem(x, 3) + 3) % 3;
      RemReduced(x, 3);
      var digit := if rem == 2 then -1 else rem;
      PutStep(w, r, start, i, n, x, value);
      r := r[start + i := MakeTrit(digit)];
      x := (x - digit) / 3;
    }
    PutDone(w, r, start, n, x, value);
  }

  /** i trits of the field are written, x is what is left of the value, the rest is untouched. */
  ghost predicate PutState(w: Word27, r: Word27, start: nat, i: nat, n: nat, x: int, value: int)
    requires i <= n && start + n <= 27
  {
    && r[..start] == w[..start] && r[start + n..] == w[start + n..]
    && r[start..start + i] + Digits(x, n - i) == Digits(value, n)
  }

  lemma PutNothing(w: Word27, start: nat, n: nat, value: int)
    requires start + n <= 27
    ensures PutState(w, w, start, 0, n, value, value)
  {
    hide Digits;
    assert w[start..start + 0] + Digits(value, n) == Digits(value, n);
  }

  lemma PutStep(w: Word27, r: Word27, start: nat, i: nat, n: nat, x: int, value: int)
    requires i < n && start + n <= 27 && PutState(w, r, start, i, n, x, value)
    ensures PutState(w, r[start + i := Digit(x)], start, i + 1, n, (x - Digit(x)) / 3, value)
  {
    hide Digit;
    var r', rest := r[start + i := Digit(x)], Digits((x - Digit(x)) / 3, n - i - 1);
    assert Digits(x, n - i) == [Digit(x)] + rest;
    assert r'[start..start + i + 1] == r[start..start + i] + [Digit(x)];
    assert r[start..start + i] + ([Digit(x)] + rest) == r[start..start + i] + [Digit(x)] + rest;
  }

  lemma PutDone(w: Word27, r: Word27, start: nat, n: nat, x: int, value: int)
    requires start + n <= 27 && PutState(w, r, start, n, n, x, value)
    ensures r == w[..start] + Digits(value, n) + w[start + n..]
  {
    hide Digits;
    assert r[start..start + n] + Digits(x, 0) == r[start..start + n];
    assert r == r[..start] + r[start..start + n] + r[start + n..];
  }

  method GetTrits(w: Word27, start: nat, n: nat) returns (acc: int)
    requires start + n <= 27
    ensures acc == Value(w[start..start + n])
  {
    acc := 0;
    var place: int := 1;
    for i := 0 to n
      invariant acc == Value(w[start..start + i]) && place == Pow3(i)
    {
      acc := acc + w[start + i] * place;
      place := place * 3;
      ValueSnoc(w[start..start + i], w[start + i]);
      assert w[start..start + i + 1] == w[start..start + i] + [w[start + i]];
    }
  }

  method Encode(i: Instr) returns (w: Word27)
    ensures w == EncodeSpec(i)
  {
    hide Digits;
    w := Zeros(27);
    w := PutTrits(w, 0, 12, i.imm);
    w := PutTrits(w, 12, 3, i.src2 - 13);
    w := PutTrits(w, 15, 3, i.src1 - 13);
    w := PutTrits(w, 18, 3, i.dst - 13);
    w := PutTrits(w, 21, 6, OpValue(i.op));
  }

  /** None stands for the IllegalOpcode exception. */
  method Decode(w: Word27) returns (r: Option<Instr>)
    ensures r == DecodeSpec(w)
  {
    var opv := GetTrits(w, 21, 6);
    if OpcodeOf(opv) == None { return None; }
    var dst := GetTrits(w, 18, 3);
    var src1 := GetTrits(w, 15, 3);
    var src2 := GetTrits(w, 12, 3);
    var imm := GetTrits(w, 0, 12);
    r := Some(Instr(OpcodeOf(opv).value, dst + 13, src1 + 13, src2 + 13, imm));
  }

  // ---- encoding is a bijection between legal instructions and decodable words ----

  lemma FieldsOfEncode(i: Instr)
    ensures var w := EncodeSpec(i);
      && w[0..12] == Digits(i.imm, 12) && w[12..15] == Digits(i.src2 - 13, 3)
      && w[15..18] == Digits(i.src1 - 13, 3) && w[18..21] == Digits(i.dst - 13, 3)
      && w[21..27] == Digits(OpValue(i.op), 6)
  {
    hide Digits, OpValue;
    Pieces(Digits(i.imm, 12), Digits(i.src2 - 13, 3), Digits(i.src1 - 13, 3), Digits(i.dst - 13, 3),
           Digits(OpValue(i.op), 6));
  }

  lemma Pieces(imm: seq<Trit>, src2: seq<Trit>, src1: seq<Trit>, dst: seq<Trit>, op: seq<Trit>)
    requires |imm| == 12 && |src2| == |src1| == |dst| == 3 && |op| == 6
    ensures var w := imm + src2 + src1 + dst + op;
      w[0..12] == imm && w[12..15] == src2 && w[15..18] == src1 && w[18..21] == dst && w[21..27] == op
  {
  }

  lemma DecodeOfEncode(i: Instr)
    ensures DecodeSpec(EncodeSpec(i)) == Some(Truncated(i))
  {
    hide Wrap, Digits, EncodeSpec, OpcodeOf;
    FieldsOfEncode(i);
    DigitsWrap(i.imm, 12);
    DigitsWrap(i.src2 - 13, 3);
    DigitsWrap(i.src1 - 13, 3);
    DigitsWrap(i.dst - 13, 3);
    OpFieldValue(i.op);
  }

  lemma OpFieldValue(op: Opcode)
    ensures OpcodeOf(Value(Digits(OpValue(op), 6))) == Some(op)
  {
    Pow3At27();
    DigitsValue(OpValue(op), 6);
    OpcodeOfValue(op);
  }

  /** Decoding undoes encoding for the legal instructions and for no others. */
  lemma EncodeRoundTrip(i: Instr)
    ensures DecodeSpec(EncodeSpec(i)) == Some(i) <==> Legal(i)
  {
    hide Wrap, EncodeSpec, DecodeSpec;
    DecodeOfEncode(i);
    Pow3At27();
    if Legal(i) {
      WrapInRange(i.imm, 12);
      WrapInRange(i.dst - 13, 3);
      WrapInRange(i.src1 - 13, 3);
      WrapInRange(i.src2 - 13, 3);
    }
  }

  lemma DecodeRoundTrip(w: Word27)
    requires DecodeSpec(w).Some?
    ensures Legal(DecodeSpec(w).value) && EncodeSpec(DecodeSpec(w).value) == w
  {
    hide Digits, Value, OpcodeOf;
    Pow3At27();
    ValueBound(w[0..12]);
    ValueBound(w[12..15]);
    ValueBound(w[15..18]);
    ValueBound(w[18..21]);
    ValueDigits(w[0..12]);
    ValueDigits(w[12..15]);
    ValueDigits(w[15..18]);
    ValueDigits(w[18..21]);
    ValueDigits(w[21..27]);
    assert w == w[0..12] + w[12..15] + w[15..18] + w[18..21] + w[21..27];
  }

  /** The integer an encoded instruction is: its fields as digits of a number in mixed base, the
      immediate lowest, the registers less 13, the opcode highest. */
  lemma EncodedValue(i: Instr)
    requires Legal(i)
    ensures Value(EncodeSpec(i)) == i.imm + 531441 * (i.src2 - 13) + 14348907 * (i.src1 - 13)
      + 387420489 * (i.dst - 13) + 10460353203 * OpValue(i.op)
  {
    hide Digits, Value, Pow3, Half;
    Pow3At27();
    FieldPowers();
    var imm, src2, src1 := Digits(i.imm, 12), Digits(i.src2 - 13, 3), Digits(i.src1 - 13, 3);
    var dst, op := Digits(i.dst - 13, 3), Digits(OpValue(i.op), 6);
    DigitsValue(i.imm, 12);
    DigitsValue(i.src2 - 13, 3);
    DigitsValue(i.src1 - 13, 3);
    DigitsValue(i.dst - 13, 3);
    DigitsValue(OpValue(i.op), 6);
    ValueConcat(imm, src2);
    ValueConcat(imm + src2, src1);
    ValueConcat(imm + src2 + src1, dst);
    ValueConcat(imm + src2 + src1 + dst, op);
  }

  lemma FieldPowers()
    ensures Pow3(12) == 531441 && Pow3(15) == 14348907 && Pow3(18) == 387420489 && Pow3(21) == 10460353203
  {
    assert Pow3(6) == 729;
    assert Pow3(12) == 531441;
    assert Pow3(18) == 387420489;
  }
}
