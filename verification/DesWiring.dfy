/** The tables as wiring between hex digits, so that a block can be followed through the cipher
    digit by digit. */
module DesWiring {
  import opened Bits
  import opened DesTables
  import opened Des
  import opened DesHex
  import opened DesBoxes

  // ----- The wiring -----

  function InitialLeft(x: Eight, y: Eight): Eight {
    Eight(Hex(y.n6.b, y.n4.b, y.n2.b, y.n0.b), Hex(x.n6.b, x.n4.b, x.n2.b, x.n0.b),
          Hex(y.n6.d, y.n4.d, y.n2.d, y.n0.d), Hex(x.n6.d, x.n4.d, x.n2.d, x.n0.d),
          Hex(y.n7.b, y.n5.b, y.n3.b, y.n1.b), Hex(x.n7.b, x.n5.b, x.n3.b, x.n1.b),
          Hex(y.n7.d, y.n5.d, y.n3.d, y.n1.d), Hex(x.n7.d, x.n5.d, x.n3.d, x.n1.d))
  }

  function InitialRight(x: Eight, y: Eight): Eight {
    Eight(Hex(y.n6.a, y.n4.a, y.n2.a, y.n0.a), Hex(x.n6.a, x.n4.a, x.n2.a, x.n0.a),
          Hex(y.n6.c, y.n4.c, y.n2.c, y.n0.c), Hex(x.n6.c, x.n4.c, x.n2.c, x.n0.c),
          Hex(y.n7.a, y.n5.a, y.n3.a, y.n1.a), Hex(x.n7.a, x.n5.a, x.n3.a, x.n1.a),
          Hex(y.n7.c, y.n5.c, y.n3.c, y.n1.c), Hex(x.n7.c, x.n5.c, x.n3.c, x.n1.c))
  }

  function ChooseLeft(x: Eight, y: Eight): Seven {
    Seven(Hex(y.n6.a, y.n4.a, y.n2.a, y.n0.a), Hex(x.n6.a, x.n4.a, x.n2.a, x.n0.a),
          Hex(y.n6.b, y.n4.b, y.n2.b, y.n0.b), Hex(x.n6.b, x.n4.b, x.n2.b, x.n0.b),
          Hex(y.n6.c, y.n4.c, y.n2.c, y.n0.c), Hex(x.n6.c, x.n4.c, x.n2.c, x.n0.c),
          Hex(y.n6.d, y.n4.d, y.n2.d, y.n0.d))
  }

  function ChooseRight(x: Eight, y: Eight): Seven {
    Seven(Hex(y.n7.c, y.n5.c, y.n3.c, y.n1.c), Hex(x.n7.c, x.n5.c, x.n3.c, x.n1.c),
          Hex(y.n7.b, y.n5.b, y.n3.b, y.n1.b), Hex(x.n7.b, x.n5.b, x.n3.b, x.n1.b),
          Hex(y.n7.a, y.n5.a, y.n3.a, y.n1.a), Hex(x.n7.a, x.n5.a, x.n3.a, x.n1.a),
          Hex(x.n6.d, x.n4.d, x.n2.d, x.n0.d))
  }

  function RotateOne(c: Seven): Seven {
    Seven(Hex(c.n0.b, c.n0.c, c.n0.d, c.n1.a), Hex(c.n1.b, c.n1.c, c.n1.d, c.n2.a), Hex(c.n2.b, c.n2.c, c.n2.d, c.n3.a),
          Hex(c.n3.b, c.n3.c, c.n3.d, c.n4.a), Hex(c.n4.b, c.n4.c, c.n4.d, c.n5.a), Hex(c.n5.b, c.n5.c, c.n5.d, c.n6.a),
          Hex(c.n6.b, c.n6.c, c.n6.d, c.n0.a))
  }

  function Select(c: Seven, d: Seven): Twelve {
    Twelve(Hex(c.n3.b, c.n4.a, c.n2.c, c.n5.d), Hex(c.n0.a, c.n1.a, c.n0.c, c.n6.d),
           Hex(c.n3.c, c.n1.b, c.n5.a, c.n2.b), Hex(c.n5.c, c.n4.c, c.n2.d, c.n0.d),
           Hex(c.n6.b, c.n1.d, c.n3.d, c.n1.c), Hex(c.n6.c, c.n4.d, c.n3.a, c.n0.b),
           Hex(d.n3.a, d.n5.d, d.n0.c, d.n2.a), Hex(d.n4.c, d.n6.c, d.n0.b, d.n2.d),
           Hex(d.n5.c, d.n4.a, d.n1.a, d.n4.d), Hex(d.n3.d, d.n5.a, d.n2.c, d.n6.d),
           Hex(d.n1.b, d.n6.a, d.n4.b, d.n3.b), Hex(d.n5.b, d.n1.d, d.n0.a, d.n0.d))
  }

  function Expand(r: Eight): Twelve {
    Twelve(Hex(r.n7.d, r.n0.a, r.n0.b, r.n0.c), Hex(r.n0.d, r.n1.a, r.n0.d, r.n1.a),
           Hex(r.n1.b, r.n1.c, r.n1.d, r.n2.a), Hex(r.n1.d, r.n2.a, r.n2.b, r.n2.c),
           Hex(r.n2.d, r.n3.a, r.n2.d, r.n3.a), Hex(r.n3.b, r.n3.c, r.n3.d, r.n4.a),
           Hex(r.n3.d, r.n4.a, r.n4.b, r.n4.c), Hex(r.n4.d, r.n5.a, r.n4.d, r.n5.a),
           Hex(r.n5.b, r.n5.c, r.n5.d, r.n6.a), Hex(r.n5.d, r.n6.a, r.n6.b, r.n6.c),
           Hex(r.n6.d, r.n7.a, r.n6.d, r.n7.a), Hex(r.n7.b, r.n7.c, r.n7.d, r.n0.a))
  }

  function XorHex(x: Hex, y: Hex): Hex {
    Hex(x.a != y.a, x.b != y.b, x.c != y.c, x.d != y.d)
  }

  function Xor32(x: Eight, y: Eight): Eight {
    Eight(XorHex(x.n0, y.n0), XorHex(x.n1, y.n1), XorHex(x.n2, y.n2), XorHex(x.n3, y.n3),
          XorHex(x.n4, y.n4), XorHex(x.n5, y.n5), XorHex(x.n6, y.n6), XorHex(x.n7, y.n7))
  }

  function Xor48(x: Twelve, y: Twelve): Twelve {
    Twelve(XorHex(x.n0, y.n0), XorHex(x.n1, y.n1), XorHex(x.n2, y.n2), XorHex(x.n3, y.n3),
           XorHex(x.n4, y.n4), XorHex(x.n5, y.n5), XorHex(x.n6, y.n6), XorHex(x.n7, y.n7),
           XorHex(x.n8, y.n8), XorHex(x.n9, y.n9), XorHex(x.n10, y.n10), XorHex(x.n11, y.n11))
  }

  function In1(x: Twelve): Input { Input(x.n0.a, x.n0.b, x.n0.c, x.n0.d, x.n1.a, x.n1.b) }
  function In2(x: Twelve): Input { Input(x.n1.c, x.n1.d, x.n2.a, x.n2.b, x.n2.c, x.n2.d) }
  function In3(x: Twelve): Input { Input(x.n3.a, x.n3.b, x.n3.c, x.n3.d, x.n4.a, x.n4.b) }
  function In4(x: Twelve): Input { Input(x.n4.c, x.n4.d, x.n5.a, x.n5.b, x.n5.c, x.n5.d) }
  function In5(x: Twelve): Input { Input(x.n6.a, x.n6.b, x.n6.c, x.n6.d, x.n7.a, x.n7.b) }
  function In6(x: Twelve): Input { Input(x.n7.c, x.n7.d, x.n8.a, x.n8.b, x.n8.c, x.n8.d) }
  function In7(x: Twelve): Input { Input(x.n9.a, x.n9.b, x.n9.c, x.n9.d, x.n10.a, x.n10.b) }
  function In8(x: Twelve): Input { Input(x.n10.c, x.n10.d, x.n11.a, x.n11.b, x.n11.c, x.n11.d) }

  function Boxes(x: Twelve): Eight {
    Eight(Digit1(In1(x)), Digit2(In2(x)), Digit3(In3(x)), Digit4(In4(x)),
          Digit5(In5(x)), Digit6(In6(x)), Digit7(In7(x)), Digit8(In8(x)))
  }

  function Wire(s: Eight): Eight {
    Eight(Hex(s.n3.d, s.n1.c, s.n4.d, s.n5.a), Hex(s.n7.a, s.n2.d, s.n6.d, s.n4.a),
          Hex(s.n0.a, s.n3.c, s.n5.c, s.n6.b), Hex(s.n1.a, s.n4.b, s.n7.c, s.n2.b),
          Hex(s.n0.b, s.n1.d, s.n5.d, s.n3.b), Hex(s.n7.d, s.n6.c, s.n0.c, s.n2.a),
          Hex(s.n4.c, s.n3.a, s.n7.b, s.n1.b), Hex(s.n5.b, s.n2.c, s.n0.d, s.n6.a))
  }

  /** The half a round makes. */
  function NextHalf(l: Eight, r: Eight, k: Twelve): Eight {
    Xor32(l, Wire(Boxes(Xor48(Expand(r), k))))
  }

  // ----- It is the tables' -----

  ghost predicate InitialWired(x: Eight, y: Eight, i: int) {
    |IP| == 64 && (0 <= i < 64 ==> 1 <= IP[i] <= 64 && Bit64(InitialLeft(x, y), InitialRight(x, y), i) == Bit64(x, y, IP[i] - 1))
  }

  lemma InitialWired0(x: Eight, y: Eight) ensures forall i :: 0 <= i < 8 ==> InitialWired(x, y, i) {}
  lemma InitialWired1(x: Eight, y: Eight) ensures forall i :: 8 <= i < 16 ==> InitialWired(x, y, i) {}
  lemma InitialWired2(x: Eight, y: Eight) ensures forall i :: 16 <= i < 24 ==> InitialWired(x, y, i) {}
  lemma InitialWired3(x: Eight, y: Eight) ensures forall i :: 24 <= i < 32 ==> InitialWired(x, y, i) {}
  lemma InitialWired4(x: Eight, y: Eight) ensures forall i :: 32 <= i < 40 ==> InitialWired(x, y, i) {}
  lemma InitialWired5(x: Eight, y: Eight) ensures forall i :: 40 <= i < 48 ==> InitialWired(x, y, i) {}
  lemma InitialWired6(x: Eight, y: Eight) ensures forall i :: 48 <= i < 56 ==> InitialWired(x, y, i) {}
  lemma InitialWired7(x: Eight, y: Eight) ensures forall i :: 56 <= i < 64 ==> InitialWired(x, y, i) {}

  lemma InitialWiredAll(x: Eight, y: Eight, i: nat)
    requires i < 64
    ensures InitialWired(x, y, i)
  {
    InitialWired0(x, y); InitialWired1(x, y); InitialWired2(x, y); InitialWired3(x, y); InitialWired4(x, y); InitialWired5(x, y); InitialWired6(x, y); InitialWired7(x, y);
  }

  ghost predicate ChoiceWired(x: Eight, y: Eight, i: int) {
    |PC1| == 56 && (0 <= i < 56 ==> 1 <= PC1[i] <= 64 && Bit56(ChooseLeft(x, y), ChooseRight(x, y), i) == Bit64(x, y, PC1[i] - 1))
  }

  lemma ChoiceWired0(x: Eight, y: Eight) ensures forall i :: 0 <= i < 8 ==> ChoiceWired(x, y, i) {}
  lemma ChoiceWired1(x: Eight, y: Eight) ensures forall i :: 8 <= i < 16 ==> ChoiceWired(x, y, i) {}
  lemma ChoiceWired2(x: Eight, y: Eight) ensures forall i :: 16 <= i < 24 ==> ChoiceWired(x, y, i) {}
  lemma ChoiceWired3(x: Eight, y: Eight) ensures forall i :: 24 <= i < 32 ==> ChoiceWired(x, y, i) {}
  lemma ChoiceWired4(x: Eight, y: Eight) ensures forall i :: 32 <= i < 40 ==> ChoiceWired(x, y, i) {}
  lemma ChoiceWired5(x: Eight, y: Eight) ensures forall i :: 40 <= i < 48 ==> ChoiceWired(x, y, i) {}
  lemma ChoiceWired6(x: Eight, y: Eight) ensures forall i :: 48 <= i < 56 ==> ChoiceWired(x, y, i) {}

  lemma ChoiceWiredAll(x: Eight, y: Eight, i: nat)
    requires i < 56
    ensures ChoiceWired(x, y, i)
  {
    ChoiceWired0(x, y); ChoiceWired1(x, y); ChoiceWired2(x, y); ChoiceWired3(x, y); ChoiceWired4(x, y); ChoiceWired5(x, y); ChoiceWired6(x, y);
  }

  ghost predicate SelectWired(c: Seven, d: Seven, i: int) {
    |PC2| == 48 && (0 <= i < 48 ==> 1 <= PC2[i] <= 56 && Bit48(Select(c, d), i) == Bit56(c, d, PC2[i] - 1))
  }

  lemma SelectWired0(c: Seven, d: Seven) ensures forall i :: 0 <= i < 8 ==> SelectWired(c, d, i) {}
  lemma SelectWired1(c: Seven, d: Seven) ensures forall i :: 8 <= i < 16 ==> SelectWired(c, d, i) {}
  lemma SelectWired2(c: Seven, d: Seven) ensures forall i :: 16 <= i < 24 ==> SelectWired(c, d, i) {}
  lemma SelectWired3(c: Seven, d: Seven) ensures forall i :: 24 <= i < 32 ==> SelectWired(c, d, i) {}
  lemma SelectWired4(c: Seven, d: Seven) ensures forall i :: 32 <= i < 40 ==> SelectWired(c, d, i) {}
  lemma SelectWired5(c: Seven, d: Seven) ensures forall i :: 40 <= i < 48 ==> SelectWired(c, d, i) {}

  lemma SelectWiredAll(c: Seven, d: Seven, i: nat)
    requires i < 48
    ensures SelectWired(c, d, i)
  {
    SelectWired0(c, d); SelectWired1(c, d); SelectWired2(c, d); SelectWired3(c, d); SelectWired4(c, d); SelectWired5(c, d);
  }

  ghost predicate ExpandWired(r: Eight, i: int) {
    |E| == 48 && (0 <= i < 48 ==> 1 <= E[i] <= 32 && Bit48(Expand(r), i) == Bit32(r, E[i] - 1))
  }

  lemma ExpandWired0(r: Eight) ensures forall i :: 0 <= i < 8 ==> ExpandWired(r, i) {}
  lemma ExpandWired1(r: Eight) ensures forall i :: 8 <= i < 16 ==> ExpandWired(r, i) {}
  lemma ExpandWired2(r: Eight) ensures forall i :: 16 <= i < 24 ==> ExpandWired(r, i) {}
  lemma ExpandWired3(r: Eight) ensures forall i :: 24 <= i < 32 ==> ExpandWired(r, i) {}
  lemma ExpandWired4(r: Eight) ensures forall i :: 32 <= i < 40 ==> ExpandWired(r, i) {}
  lemma ExpandWired5(r: Eight) ensures forall i :: 40 <= i < 48 ==> ExpandWired(r, i) {}

  lemma ExpandWiredAll(r: Eight, i: nat)
    requires i < 48
    ensures ExpandWired(r, i)
  {
    ExpandWired0(r); ExpandWired1(r); ExpandWired2(r); ExpandWired3(r); ExpandWired4(r); ExpandWired5(r);
  }

  ghost predicate WireWired(s: Eight, i: int) {
    |P| == 32 && (0 <= i < 32 ==> 1 <= P[i] <= 32 && Bit32(Wire(s), i) == Bit32(s, P[i] - 1))
  }

  lemma WireWired0(s: Eight) ensures forall i :: 0 <= i < 8 ==> WireWired(s, i) {}
  lemma WireWired1(s: Eight) ensures forall i :: 8 <= i < 16 ==> WireWired(s, i) {}
  lemma WireWired2(s: Eight) ensures forall i :: 16 <= i < 24 ==> WireWired(s, i) {}
  lemma WireWired3(s: Eight) ensures forall i :: 24 <= i < 32 ==> WireWired(s, i) {}

  lemma WireWiredAll(s: Eight, i: nat)
    requires i < 32
    ensures WireWired(s, i)
  {
    WireWired0(s); WireWired1(s); WireWired2(s); WireWired3(s);
  }

  lemma InitialIsIP(x: Eight, y: Eight)
    ensures Initial(Bits32(x) + Bits32(y)) == Bits32(InitialLeft(x, y)) + Bits32(InitialRight(x, y))
  {
    hide Bit32, InitialLeft, InitialRight;
    IPSelects();
    forall i | 0 <= i < 64
      ensures Initial(Bits32(x) + Bits32(y))[i] == (Bits32(InitialLeft(x, y)) + Bits32(InitialRight(x, y)))[i]
    {
      InitialWiredAll(x, y, i);
    }
  }

  lemma ChoiceIsPC1(x: Eight, y: Eight)
    ensures Choose(Bits32(x) + Bits32(y)) == Bits28(ChooseLeft(x, y)) + Bits28(ChooseRight(x, y))
  {
    hide Bit32, Bit28, ChooseLeft, ChooseRight;
    PC1Selects();
    forall i | 0 <= i < 56
      ensures Choose(Bits32(x) + Bits32(y))[i] == (Bits28(ChooseLeft(x, y)) + Bits28(ChooseRight(x, y)))[i]
    {
      ChoiceWiredAll(x, y, i);
    }
  }

  lemma SelectIsPC2(c: Seven, d: Seven)
    ensures |PC2| == 48 && Selects(PC2, 56) && PermuteWord(Bits28(c) + Bits28(d), PC2) == Bits48(Select(c, d))
  {
    hide Bit28, Bit48, Select;
    PC2Selects();
    forall i | 0 <= i < 48 ensures PermuteWord(Bits28(c) + Bits28(d), PC2)[i] == Bits48(Select(c, d))[i] {
      SelectWiredAll(c, d, i);
    }
  }

  lemma ExpandIsE(r: Eight)
    ensures |E| == 48 && Selects(E, 32) && PermuteWord(Bits32(r), E) == Bits48(Expand(r))
  {
    hide Bit32, Bit48, Expand;
    ESelects();
    forall i | 0 <= i < 48 ensures PermuteWord(Bits32(r), E)[i] == Bits48(Expand(r))[i] { ExpandWiredAll(r, i); }
  }

  lemma WireIsP(s: Eight)
    ensures |P| == 32 && Selects(P, 32) && PermuteWord(Bits32(s), P) == Bits32(Wire(s))
  {
    hide Bit32, Wire;
    PSelects();
    forall i | 0 <= i < 32 ensures PermuteWord(Bits32(s), P)[i] == Bits32(Wire(s))[i] { WireWiredAll(s, i); }
  }

  lemma XorHexBit(x: Hex, y: Hex, j: nat)
    ensures HexBit(XorHex(x, y), j) == (HexBit(x, j) != HexBit(y, j))
  {
  }

  lemma Xor32Bits(x: Eight, y: Eight)
    ensures XorWords(Bits32(x), Bits32(y)) == Bits32(Xor32(x, y))
  {
    hide At32, XorHex, HexBit, Xor32;
    forall i | 0 <= i < 32 ensures Bit32(Xor32(x, y), i) == (Bit32(x, i) != Bit32(y, i)) {
      Xor32At(x, y, i / 4);
      XorHexBit(At32(x, i / 4), At32(y, i / 4), i % 4);
    }
  }

  lemma Xor32At(x: Eight, y: Eight, q: nat)
    ensures At32(Xor32(x, y), q) == XorHex(At32(x, q), At32(y, q))
  {
  }

  lemma Xor48Bits(x: Twelve, y: Twelve)
    ensures XorWords(Bits48(x), Bits48(y)) == Bits48(Xor48(x, y))
  {
    hide At48, XorHex, HexBit, Xor48;
    forall i | 0 <= i < 48 ensures Bit48(Xor48(x, y), i) == (Bit48(x, i) != Bit48(y, i)) {
      Xor48At(x, y, i / 4);
      XorHexBit(At48(x, i / 4), At48(y, i / 4), i % 4);
    }
  }

  lemma Xor48At(x: Twelve, y: Twelve, q: nat)
    ensures At48(Xor48(x, y), q) == XorHex(At48(x, q), At48(y, q))
  {
  }

  lemma RotateOneBits(c: Seven)
    ensures RotateLeft(Bits28(c), 1) == Bits28(RotateOne(c))
  {
    forall i | 0 <= i < 28 ensures Bit28(RotateOne(c), i) == Bit28(c, if i < 27 then i + 1 else 0) {
    }
  }

  lemma RotateAgain(w: Register)
    ensures RotateLeft(RotateLeft(w, 1), 1) == RotateLeft(w, 2)
  {
  }

  function RotateBy(c: Seven, shift: nat): Seven {
    if shift == 1 then RotateOne(c) else RotateOne(RotateOne(c))
  }

  lemma RotateByBits(c: Seven, shift: nat)
    requires 1 <= shift <= 2
    ensures RotateLeft(Bits28(c), shift) == Bits28(RotateBy(c, shift))
  {
    hide Bits28, RotateOne, RotateLeft;
    RotateOneBits(c);
    RotateOneBits(RotateOne(c));
    RotateAgain(Bits28(c));
  }

  // ----- The boxes and a whole round -----

  function InputAt(x: Twelve, b: nat): Input {
    Input(Bit48(x, 6 * b), Bit48(x, 6 * b + 1), Bit48(x, 6 * b + 2), Bit48(x, 6 * b + 3), Bit48(x, 6 * b + 4), Bit48(x, 6 * b + 5))
  }

  lemma In1At(x: Twelve) ensures In1(x) == InputAt(x, 0) {}
  lemma In2At(x: Twelve) ensures In2(x) == InputAt(x, 1) {}
  lemma In3At(x: Twelve) ensures In3(x) == InputAt(x, 2) {}
  lemma In4At(x: Twelve) ensures In4(x) == InputAt(x, 3) {}
  lemma In5At(x: Twelve) ensures In5(x) == InputAt(x, 4) {}
  lemma In6At(x: Twelve) ensures In6(x) == InputAt(x, 5) {}
  lemma In7At(x: Twelve) ensures In7(x) == InputAt(x, 6) {}
  lemma In8At(x: Twelve) ensures In8(x) == InputAt(x, 7) {}

  lemma BoxesAt(x: Twelve, b: nat)
    requires b < 8
    ensures At32(Boxes(x), b) == BoxOf(b, InputAt(x, b))
  {
    hide InputAt, Pick, In1, In2, In3, In4, In5, In6, In7, In8;
    In1At(x); In2At(x); In3At(x); In4At(x); In5At(x); In6At(x); In7At(x); In8At(x);
  }

  lemma PlaceIsIndex(x: Twelve, b: nat)
    requires b < 8
    ensures BoxIndex(Bits48(x)[6 * b..6 * b + 6]) == Place(InputAt(x, b))
  {
    hide Bit48;
  }

  lemma BitsOfDigit(s: Eight, b: nat)
    requires b < 8
    ensures Bits32(s)[4 * b..4 * b + 4] == [At32(s, b).a, At32(s, b).b, At32(s, b).c, At32(s, b).d]
  {
    hide At32;
  }

  lemma {:induction false} SubstituteIsBoxes(x: Twelve, n: nat)
    requires n <= 8
    ensures Substitute(Bits48(x), n) == Bits32(Boxes(x))[..4 * n]
  {
    hide Bits32, Bits48, BoxEntry, BoxIndex, HexOf, At32, Boxes, InputAt, WordOf, Place, BoxOf;
    if n > 0 {
      var s, c := Boxes(x), InputAt(x, n - 1);
      SubstituteIsBoxes(x, n - 1);
      BoxesAt(x, n - 1);
      PlaceIsIndex(x, n - 1);
      BoxOfTable(n - 1, c);
      BitsOfDigit(s, n - 1);
      DigitBits(BoxEntry(n - 1, Place(c)));
      assert Bits32(s)[..4 * n] == Bits32(s)[..4 * (n - 1)] + Bits32(s)[4 * (n - 1)..4 * n];
    }
  }

  lemma NextHalfIsRound(l: Eight, r: Eight, k: Twelve)
    ensures Round(Halves(Bits32(l), Bits32(r)), Bits48(k)) == Halves(Bits32(r), Bits32(NextHalf(l, r, k)))
  {
    hide Bits32, Bits48, Boxes, Wire, Expand, Xor32, Xor48, PermuteWord, Substitute, XorWords;
    ESelects();
    PSelects();
    var x := Xor48(Expand(r), k);
    ExpandIsE(r);
    Xor48Bits(Expand(r), k);
    SubstituteIsBoxes(x, 8);
    assert Bits32(Boxes(x))[..32] == Bits32(Boxes(x));
    WireIsP(Boxes(x));
    Xor32Bits(l, Wire(Boxes(x)));
  }
}
