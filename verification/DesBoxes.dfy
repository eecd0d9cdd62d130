/** The boxes, digit by digit, and the published criteria they were chosen by. */
module DesBoxes {
  import opened Bits
  import opened DesTables
  import opened Des
  import opened DesHex

  /** The six bits that enter a box. */
  datatype Input = Input(c0: bool, c1: bool, c2: bool, c3: bool, c4: bool, c5: bool)

  function Column(c: Input): nat {
    8 * Digit(c.c1) + 4 * Digit(c.c2) + 2 * Digit(c.c3) + Digit(c.c4)
  }

  function Place(c: Input): nat {
    32 * Digit(c.c0) + 16 * Digit(c.c5) + Column(c)
  }

  datatype Row = Row(h0: Hex, h1: Hex, h2: Hex, h3: Hex, h4: Hex, h5: Hex, h6: Hex, h7: Hex,
                     h8: Hex, h9: Hex, hA: Hex, hB: Hex, hC: Hex, hD: Hex, hE: Hex, hF: Hex)

  function Entry(r: Row, c: Input): Hex {
    if !c.c1 then
      if !c.c2 then if !c.c3 then if !c.c4 then r.h0 else r.h1 else if !c.c4 then r.h2 else r.h3
      else if !c.c3 then if !c.c4 then r.h4 else r.h5 else if !c.c4 then r.h6 else r.h7
    else
      if !c.c2 then if !c.c3 then if !c.c4 then r.h8 else r.h9 else if !c.c4 then r.hA else r.hB
      else if !c.c3 then if !c.c4 then r.hC else r.hD else if !c.c4 then r.hE else r.hF
  }

  /** Row from the outer bits, column from the inner four. */
  function Pick(c: Input, r0: Row, r1: Row, r2: Row, r3: Row): Hex {
    Entry(if !c.c0 then if !c.c5 then r0 else r1 else if !c.c5 then r2 else r3, c)
  }

  const R10 := Row(XE, X4, XD, X1, X2, XF, XB, X8, X3, XA, X6, XC, X5, X9, X0, X7)
  const R11 := Row(X0, XF, X7, X4, XE, X2, XD, X1, XA, X6, XC, XB, X9, X5, X3, X8)
  const R12 := Row(X4, X1, XE, X8, XD, X6, X2, XB, XF, XC, X9, X7, X3, XA, X5, X0)
  const R13 := Row(XF, XC, X8, X2, X4, X9, X1, X7, X5, XB, X3, XE, XA, X0, X6, XD)
  const R20 := Row(XF, X1, X8, XE, X6, XB, X3, X4, X9, X7, X2, XD, XC, X0, X5, XA)
  const R21 := Row(X3, XD, X4, X7, XF, X2, X8, XE, XC, X0, X1, XA, X6, X9, XB, X5)
  const R22 := Row(X0, XE, X7, XB, XA, X4, XD, X1, X5, X8, XC, X6, X9, X3, X2, XF)
  const R23 := Row(XD, X8, XA, X1, X3, XF, X4, X2, XB, X6, X7, XC, X0, X5, XE, X9)
  const R30 := Row(XA, X0, X9, XE, X6, X3, XF, X5, X1, XD, XC, X7, XB, X4, X2, X8)
  const R31 := Row(XD, X7, X0, X9, X3, X4, X6, XA, X2, X8, X5, XE, XC, XB, XF, X1)
  const R32 := Row(XD, X6, X4, X9, X8, XF, X3, X0, XB, X1, X2, XC, X5, XA, XE, X7)
  const R33 := Row(X1, XA, XD, X0, X6, X9, X8, X7, X4, XF, XE, X3, XB, X5, X2, XC)
  const R40 := Row(X7, XD, XE, X3, X0, X6, X9, XA, X1, X2, X8, X5, XB, XC, X4, XF)
  const R41 := Row(XD, X8, XB, X5, X6, XF, X0, X3, X4, X7, X2, XC, X1, XA, XE, X9)
  const R42 := Row(XA, X6, X9, X0, XC, XB, X7, XD, XF, X1, X3, XE, X5, X2, X8, X4)
  const R43 := Row(X3, XF, X0, X6, XA, X1, XD, X8, X9, X4, X5, XB, XC, X7, X2, XE)
  const R50 := Row(X2, XC, X4, X1, X7, XA, XB, X6, X8, X5, X3, XF, XD, X0, XE, X9)
  const R51 := Row(XE, XB, X2, XC, X4, X7, XD, X1, X5, X0, XF, XA, X3, X9, X8, X6)
  const R52 := Row(X4, X2, X1, XB, XA, XD, X7, X8, XF, X9, XC, X5, X6, X3, X0, XE)
  const R53 := Row(XB, X8, XC, X7, X1, XE, X2, XD, X6, XF, X0, X9, XA, X4, X5, X3)
  const R60 := Row(XC, X1, XA, XF, X9, X2, X6, X8, X0, XD, X3, X4, XE, X7, X5, XB)
  const R61 := Row(XA, XF, X4, X2, X7, XC, X9, X5, X6, X1, XD, XE, X0, XB, X3, X8)
  const R62 := Row(X9, XE, XF, X5, X2, X8, XC, X3, X7, X0, X4, XA, X1, XD, XB, X6)
  const R63 := Row(X4, X3, X2, XC, X9, X5, XF, XA, XB, XE, X1, X7, X6, X0, X8, XD)
  const R70 := Row(X4, XB, X2, XE, XF, X0, X8, XD, X3, XC, X9, X7, X5, XA, X6, X1)
  const R71 := Row(XD, X0, XB, X7, X4, X9, X1, XA, XE, X3, X5, XC, X2, XF, X8, X6)
  const R72 := Row(X1, X4, XB, XD, XC, X3, X7, XE, XA, XF, X6, X8, X0, X5, X9, X2)
  const R73 := Row(X6, XB, XD, X8, X1, X4, XA, X7, X9, X5, X0, XF, XE, X2, X3, XC)
  const R80 := Row(XD, X2, X8, X4, X6, XF, XB, X1, XA, X9, X3, XE, X5, X0, XC, X7)
  const R81 := Row(X1, XF, XD, X8, XA, X3, X7, X4, XC, X5, X6, XB, X0, XE, X9, X2)
  const R82 := Row(X7, XB, X4, X1, X9, XC, XE, X2, X0, X6, XA, XD, XF, X3, X5, X8)
  const R83 := Row(X2, X1, XE, X7, X4, XA, X8, XD, XF, XC, X9, X0, X3, X5, X6, XB)

  function Digit1(c: Input): Hex { Pick(c, R10, R11, R12, R13) }
  function Digit2(c: Input): Hex { Pick(c, R20, R21, R22, R23) }
  function Digit3(c: Input): Hex { Pick(c, R30, R31, R32, R33) }
  function Digit4(c: Input): Hex { Pick(c, R40, R41, R42, R43) }
  function Digit5(c: Input): Hex { Pick(c, R50, R51, R52, R53) }
  function Digit6(c: Input): Hex { Pick(c, R60, R61, R62, R63) }
  function Digit7(c: Input): Hex { Pick(c, R70, R71, R72, R73) }
  function Digit8(c: Input): Hex { Pick(c, R80, R81, R82, R83) }

  // ----- They are the tables' -----

  ghost predicate RowIs(s: seq<nat>, r: nat, row: Row, c: Input)
    requires r < 4
  {
    |s| == 64 && HexOf(s[16 * r + Column(c)]) == Entry(row, c)
  }

  lemma Rows10(c0: bool, c1: bool, c2: bool, c3: bool, c4: bool, c5: bool)
    ensures var c := Input(c0, c1, c2, c3, c4, c5); RowIs(S1, 0, R10, c) && RowIs(S1, 1, R11, c)
  {
    hide HexOf;
    HexDigits();
  }

  lemma Rows12(c0: bool, c1: bool, c2: bool, c3: bool, c4: bool, c5: bool)
    ensures var c := Input(c0, c1, c2, c3, c4, c5); RowIs(S1, 2, R12, c) && RowIs(S1, 3, R13, c)
  {
    hide HexOf;
    HexDigits();
  }

  lemma Rows20(c0: bool, c1: bool, c2: bool, c3: bool, c4: bool, c5: bool)
    ensures var c := Input(c0, c1, c2, c3, c4, c5); RowIs(S2, 0, R20, c) && RowIs(S2, 1, R21, c)
  {
    hide HexOf;
    HexDigits();
  }

  lemma Rows22(c0: bool, c1: bool, c2: bool, c3: bool, c4: bool, c5: bool)
    ensures var c := Input(c0, c1, c2, c3, c4, c5); RowIs(S2, 2, R22, c) && RowIs(S2, 3, R23, c)
  {
    hide HexOf;
    HexDigits();
  }

  lemma Rows30(c0: bool, c1: bool, c2: bool, c3: bool, c4: bool, c5: bool)
    ensures var c := Input(c0, c1, c2, c3, c4, c5); RowIs(S3, 0, R30, c) && RowIs(S3, 1, R31, c)
  {
    hide HexOf;
    HexDigits();
  }

  lemma Rows32(c0: bool, c1: bool, c2: bool, c3: bool, c4: bool, c5: bool)
    ensures var c := Input(c0, c1, c2, c3, c4, c5); RowIs(S3, 2, R32, c) && RowIs(S3, 3, R33, c)
  {
    hide HexOf;
    HexDigits();
  }

  lemma Rows40(c0: bool, c1: bool, c2: bool, c3: bool, c4: bool, c5: bool)
    ensures var c := Input(c0, c1, c2, c3, c4, c5); RowIs(S4, 0, R40, c) && RowIs(S4, 1, R41, c)
  {
    hide HexOf;
    HexDigits();
  }

  lemma Rows42(c0: bool, c1: bool, c2: bool, c3: bool, c4: bool, c5: bool)
    ensures var c := Input(c0, c1, c2, c3, c4, c5); RowIs(S4, 2, R42, c) && RowIs(S4, 3, R43, c)
  {
    hide HexOf;
    HexDigits();
  }

  lemma Rows50(c0: bool, c1: bool, c2: bool, c3: bool, c4: bool, c5: bool)
    ensures var c := Input(c0, c1, c2, c3, c4, c5); RowIs(S5, 0, R50, c) && RowIs(S5, 1, R51, c)
  {
    hide HexOf;
    HexDigits();
  }

  lemma Rows52(c0: bool, c1: bool, c2: bool, c3: bool, c4: bool, c5: bool)
    ensures var c := Input(c0, c1, c2, c3, c4, c5); RowIs(S5, 2, R52, c) && RowIs(S5, 3, R53, c)
  {
    hide HexOf;
    HexDigits();
  }

  lemma Rows60(c0: bool, c1: bool, c2: bool, c3: bool, c4: bool, c5: bool)
    ensures var c := Input(c0, c1, c2, c3, c4, c5); RowIs(S6, 0, R60, c) && RowIs(S6, 1, R61, c)
  {
    hide HexOf;
    HexDigits();
  }

  lemma Rows62(c0: bool, c1: bool, c2: bool, c3: bool, c4: bool, c5: bool)
    ensures var c := Input(c0, c1, c2, c3, c4, c5); RowIs(S6, 2, R62, c) && RowIs(S6, 3, R63, c)
  {
    hide HexOf;
    HexDigits();
  }

  lemma Rows70(c0: bool, c1: bool, c2: bool, c3: bool, c4: bool, c5: bool)
    ensures var c := Input(c0, c1, c2, c3, c4, c5); RowIs(S7, 0, R70, c) && RowIs(S7, 1, R71, c)
  {
    hide HexOf;
    HexDigits();
  }

  lemma Rows72(c0: bool, c1: bool, c2: bool, c3: bool, c4: bool, c5: bool)
    ensures var c := Input(c0, c1, c2, c3, c4, c5); RowIs(S7, 2, R72, c) && RowIs(S7, 3, R73, c)
  {
    hide HexOf;
    HexDigits();
  }

  lemma Rows80(c0: bool, c1: bool, c2: bool, c3: bool, c4: bool, c5: bool)
    ensures var c := Input(c0, c1, c2, c3, c4, c5); RowIs(S8, 0, R80, c) && RowIs(S8, 1, R81, c)
  {
    hide HexOf;
    HexDigits();
  }

  lemma Rows82(c0: bool, c1: bool, c2: bool, c3: bool, c4: bool, c5: bool)
    ensures var c := Input(c0, c1, c2, c3, c4, c5); RowIs(S8, 2, R82, c) && RowIs(S8, 3, R83, c)
  {
    hide HexOf;
    HexDigits();
  }


  ghost predicate BoxIs(s: seq<nat>, h: Hex, c: Input) {
    |s| == 64 && HexOf(s[Place(c)]) == h
  }

  lemma FourRows(s: seq<nat>, r0: Row, r1: Row, r2: Row, r3: Row, c: Input)
    requires RowIs(s, 0, r0, c) && RowIs(s, 1, r1, c) && RowIs(s, 2, r2, c) && RowIs(s, 3, r3, c)
    ensures BoxIs(s, Pick(c, r0, r1, r2, r3), c)
  {
    hide Entry, HexOf;
  }

  function BoxOf(box: nat, c: Input): Hex {
    match box
    case 0 => Digit1(c) case 1 => Digit2(c) case 2 => Digit3(c) case 3 => Digit4(c)
    case 4 => Digit5(c) case 5 => Digit6(c) case 6 => Digit7(c) case _ => Digit8(c)
  }

  lemma BoxOfTable(box: nat, c: Input)
    requires box < 8
    ensures HexOf(BoxEntry(box, Place(c))) == BoxOf(box, c)
  {
    hide RowIs, HexOf, Pick, IsBox, Place;
    BoxesWellFormed(box);
    match box
    case 0 =>
      Rows10(c.c0, c.c1, c.c2, c.c3, c.c4, c.c5);
      Rows12(c.c0, c.c1, c.c2, c.c3, c.c4, c.c5);
      FourRows(S1, R10, R11, R12, R13, c);
    case 1 =>
      Rows20(c.c0, c.c1, c.c2, c.c3, c.c4, c.c5);
      Rows22(c.c0, c.c1, c.c2, c.c3, c.c4, c.c5);
      FourRows(S2, R20, R21, R22, R23, c);
    case 2 =>
      Rows30(c.c0, c.c1, c.c2, c.c3, c.c4, c.c5);
      Rows32(c.c0, c.c1, c.c2, c.c3, c.c4, c.c5);
      FourRows(S3, R30, R31, R32, R33, c);
    case 3 =>
      Rows40(c.c0, c.c1, c.c2, c.c3, c.c4, c.c5);
      Rows42(c.c0, c.c1, c.c2, c.c3, c.c4, c.c5);
      FourRows(S4, R40, R41, R42, R43, c);
    case 4 =>
      Rows50(c.c0, c.c1, c.c2, c.c3, c.c4, c.c5);
      Rows52(c.c0, c.c1, c.c2, c.c3, c.c4, c.c5);
      FourRows(S5, R50, R51, R52, R53, c);
    case 5 =>
      Rows60(c.c0, c.c1, c.c2, c.c3, c.c4, c.c5);
      Rows62(c.c0, c.c1, c.c2, c.c3, c.c4, c.c5);
      FourRows(S6, R60, R61, R62, R63, c);
    case 6 =>
      Rows70(c.c0, c.c1, c.c2, c.c3, c.c4, c.c5);
      Rows72(c.c0, c.c1, c.c2, c.c3, c.c4, c.c5);
      FourRows(S7, R70, R71, R72, R73, c);
    case _ =>
      Rows80(c.c0, c.c1, c.c2, c.c3, c.c4, c.c5);
      Rows82(c.c0, c.c1, c.c2, c.c3, c.c4, c.c5);
      FourRows(S8, R80, R81, R82, R83, c);
  }

  // ----- What they were chosen for -----

  function Flip(c: Input, i: nat): Input {
    match i
    case 0 => c.(c0 := !c.c0)
    case 1 => c.(c1 := !c.c1)
    case 2 => c.(c2 := !c.c2)
    case 3 => c.(c3 := !c.c3)
    case 4 => c.(c4 := !c.c4)
    case _ => c.(c5 := !c.c5)
  }

  /** Of the four bits at least two differ. */
  predicate Apart(x: Hex, y: Hex) {
    Digit(x.a != y.a) + Digit(x.b != y.b) + Digit(x.c != y.c) + Digit(x.d != y.d) >= 2
  }

  function Ends(c: Input, e: bool, f: bool): Input {
    Input(!c.c0, !c.c1, e, f, c.c4, c.c5)
  }

  /** A row holds no entry twice. */
  ghost predicate Once(row: seq<nat>) {
    |row| == 16 && forall i, j :: 0 <= i < j < 16 ==> row[i] != row[j]
  }

  lemma Flips10(c0: bool, c1: bool, c2: bool, c3: bool, c4: bool, c5: bool)
    ensures var c := Input(c0, c1, c2, c3, c4, c5);
            Apart(Digit1(c), Digit1(Flip(c, 0)))
            && Apart(Digit1(c), Digit1(Flip(c, 1)))
  {
  }

  lemma Flips12(c0: bool, c1: bool, c2: bool, c3: bool, c4: bool, c5: bool)
    ensures var c := Input(c0, c1, c2, c3, c4, c5);
            Apart(Digit1(c), Digit1(Flip(c, 2)))
            && Apart(Digit1(c), Digit1(Flip(c, 3)))
  {
  }

  lemma Flips14(c0: bool, c1: bool, c2: bool, c3: bool, c4: bool, c5: bool)
    ensures var c := Input(c0, c1, c2, c3, c4, c5);
            Apart(Digit1(c), Digit1(Flip(c, 4)))
            && Apart(Digit1(c), Digit1(Flip(c, 5)))
  {
  }

  lemma Flips1(c: Input, i: nat)
    requires i < 6
    ensures Apart(Digit1(c), Digit1(Flip(c, i)))
  {
    hide Apart, Digit1, Flip;
    Flips10(c.c0, c.c1, c.c2, c.c3, c.c4, c.c5);
    Flips12(c.c0, c.c1, c.c2, c.c3, c.c4, c.c5);
    Flips14(c.c0, c.c1, c.c2, c.c3, c.c4, c.c5);
  }

  lemma Pairs1(c0: bool, c1: bool, c2: bool, c3: bool, c4: bool, c5: bool, e: bool, f: bool)
    ensures var c := Input(c0, c1, c2, c3, c4, c5);
            Apart(Digit1(c), Digit1(Flip(Flip(c, 2), 3))) && Digit1(c) != Digit1(Ends(c, e, f))
  {
  }

  lemma Once10() ensures |S1| == 64 && Once(S1[0..16]) {}
  lemma Once11() ensures |S1| == 64 && Once(S1[16..32]) {}
  lemma Once12() ensures |S1| == 64 && Once(S1[32..48]) {}
  lemma Once13() ensures |S1| == 64 && Once(S1[48..64]) {}

  lemma Flips20(c0: bool, c1: bool, c2: bool, c3: bool, c4: bool, c5: bool)
    ensures var c := Input(c0, c1, c2, c3, c4, c5);
            Apart(Digit2(c), Digit2(Flip(c, 0)))
            && Apart(Digit2(c), Digit2(Flip(c, 1)))
  {
  }

  lemma Flips22(c0: bool, c1: bool, c2: bool, c3: bool, c4: bool, c5: bool)
    ensures var c := Input(c0, c1, c2, c3, c4, c5);
            Apart(Digit2(c), Digit2(Flip(c, 2)))
            && Apart(Digit2(c), Digit2(Flip(c, 3)))
  {
  }

  lemma Flips24(c0: bool, c1: bool, c2: bool, c3: bool, c4: bool, c5: bool)
    ensures var c := Input(c0, c1, c2, c3, c4, c5);
            Apart(Digit2(c), Digit2(Flip(c, 4)))
            && Apart(Digit2(c), Digit2(Flip(c, 5)))
  {
  }

  lemma Flips2(c: Input, i: nat)
    requires i < 6
    ensures Apart(Digit2(c), Digit2(Flip(c, i)))
  {
    hide Apart, Digit2, Flip;
    Flips20(c.c0, c.c1, c.c2, c.c3, c.c4, c.c5);
    Flips22(c.c0, c.c1, c.c2, c.c3, c.c4, c.c5);
    Flips24(c.c0, c.c1, c.c2, c.c3, c.c4, c.c5);
  }

  lemma Pairs2(c0: bool, c1: bool, c2: bool, c3: bool, c4: bool, c5: bool, e: bool, f: bool)
    ensures var c := Input(c0, c1, c2, c3, c4, c5);
            Apart(Digit2(c), Digit2(Flip(Flip(c, 2), 3))) && Digit2(c) != Digit2(Ends(c, e, f))
  {
  }

  lemma Once20() ensures |S2| == 64 && Once(S2[0..16]) {}
  lemma Once21() ensures |S2| == 64 && Once(S2[16..32]) {}
  lemma Once22() ensures |S2| == 64 && Once(S2[32..48]) {}
  lemma Once23() ensures |S2| == 64 && Once(S2[48..64]) {}

  lemma Flips30(c0: bool, c1: bool, c2: bool, c3: bool, c4: bool, c5: bool)
    ensures var c := Input(c0, c1, c2, c3, c4, c5);
            Apart(Digit3(c), Digit3(Flip(c, 0)))
            && Apart(Digit3(c), Digit3(Flip(c, 1)))
  {
  }

  lemma Flips32(c0: bool, c1: bool, c2: bool, c3: bool, c4: bool, c5: bool)
    ensures var c := Input(c0, c1, c2, c3, c4, c5);
            Apart(Digit3(c), Digit3(Flip(c, 2)))
            && Apart(Digit3(c), Digit3(Flip(c, 3)))
  {
  }

  lemma Flips34(c0: bool, c1: bool, c2: bool, c3: bool, c4: bool, c5: bool)
    ensures var c := Input(c0, c1, c2, c3, c4, c5);
            Apart(Digit3(c), Digit3(Flip(c, 4)))
            && Apart(Digit3(c), Digit3(Flip(c, 5)))
  {
  }

  lemma Flips3(c: Input, i: nat)
    requires i < 6
    ensures Apart(Digit3(c), Digit3(Flip(c, i)))
  {
    hide Apart, Digit3, Flip;
    Flips30(c.c0, c.c1, c.c2, c.c3, c.c4, c.c5);
    Flips32(c.c0, c.c1, c.c2, c.c3, c.c4, c.c5);
    Flips34(c.c0, c.c1, c.c2, c.c3, c.c4, c.c5);
  }

  lemma Pairs3(c0: bool, c1: bool, c2: bool, c3: bool, c4: bool, c5: bool, e: bool, f: bool)
    ensures var c := Input(c0, c1, c2, c3, c4, c5);
            Apart(Digit3(c), Digit3(Flip(Flip(c, 2), 3))) && Digit3(c) != Digit3(Ends(c, e, f))
  {
  }

  lemma Once30() ensures |S3| == 64 && Once(S3[0..16]) {}
  lemma Once31() ensures |S3| == 64 && Once(S3[16..32]) {}
  lemma Once32() ensures |S3| == 64 && Once(S3[32..48]) {}
  lemma Once33() ensures |S3| == 64 && Once(S3[48..64]) {}

  lemma Flips40(c0: bool, c1: bool, c2: bool, c3: bool, c4: bool, c5: bool)
    ensures var c := Input(c0, c1, c2, c3, c4, c5);
            Apart(Digit4(c), Digit4(Flip(c, 0)))
            && Apart(Digit4(c), Digit4(Flip(c, 1)))
  {
  }

  lemma Flips42(c0: bool, c1: bool, c2: bool, c3: bool, c4: bool, c5: bool)
    ensures var c := Input(c0, c1, c2, c3, c4, c5);
            Apart(Digit4(c), Digit4(Flip(c, 2)))
            && Apart(Digit4(c), Digit4(Flip(c, 3)))
  {
  }

  lemma Flips44(c0: bool, c1: bool, c2: bool, c3: bool, c4: bool, c5: bool)
    ensures var c := Input(c0, c1, c2, c3, c4, c5);
            Apart(Digit4(c), Digit4(Flip(c, 4)))
            && Apart(Digit4(c), Digit4(Flip(c, 5)))
  {
  }

  lemma Flips4(c: Input, i: nat)
    requires i < 6
    ensures Apart(Digit4(c), Digit4(Flip(c, i)))
  {
    hide Apart, Digit4, Flip;
    Flips40(c.c0, c.c1, c.c2, c.c3, c.c4, c.c5);
    Flips42(c.c0, c.c1, c.c2, c.c3, c.c4, c.c5);
    Flips44(c.c0, c.c1, c.c2, c.c3, c.c4, c.c5);
  }

  lemma Pairs4(c0: bool, c1: bool, c2: bool, c3: bool, c4: bool, c5: bool, e: bool, f: bool)
    ensures var c := Input(c0, c1, c2, c3, c4, c5);
            Apart(Digit4(c), Digit4(Flip(Flip(c, 2), 3))) && Digit4(c) != Digit4(Ends(c, e, f))
  {
  }

  lemma Once40() ensures |S4| == 64 && Once(S4[0..16]) {}
  lemma Once41() ensures |S4| == 64 && Once(S4[16..32]) {}
  lemma Once42() ensures |S4| == 64 && Once(S4[32..48]) {}
  lemma Once43() ensures |S4| == 64 && Once(S4[48..64]) {}

  lemma Flips50(c0: bool, c1: bool, c2: bool, c3: bool, c4: bool, c5: bool)
    ensures var c := Input(c0, c1, c2, c3, c4, c5);
            Apart(Digit5(c), Digit5(Flip(c, 0)))
            && Apart(Digit5(c), Digit5(Flip(c, 1)))
  {
  }

  lemma Flips52(c0: bool, c1: bool, c2: bool, c3: bool, c4: bool, c5: bool)
    ensures var c := Input(c0, c1, c2, c3, c4, c5);
            Apart(Digit5(c), Digit5(Flip(c, 2)))
            && Apart(Digit5(c), Digit5(Flip(c, 3)))
  {
  }

  lemma Flips54(c0: bool, c1: bool, c2: bool, c3: bool, c4: bool, c5: bool)
    ensures var c := Input(c0, c1, c2, c3, c4, c5);
            Apart(Digit5(c), Digit5(Flip(c, 4)))
            && Apart(Digit5(c), Digit5(Flip(c, 5)))
  {
  }

  lemma Flips5(c: Input, i: nat)
    requires i < 6
    ensures Apart(Digit5(c), Digit5(Flip(c, i)))
  {
    hide Apart, Digit5, Flip;
    Flips50(c.c0, c.c1, c.c2, c.c3, c.c4, c.c5);
    Flips52(c.c0, c.c1, c.c2, c.c3, c.c4, c.c5);
    Flips54(c.c0, c.c1, c.c2, c.c3, c.c4, c.c5);
  }

  lemma Pairs5(c0: bool, c1: bool, c2: bool, c3: bool, c4: bool, c5: bool, e: bool, f: bool)
    ensures var c := Input(c0, c1, c2, c3, c4, c5);
            Apart(Digit5(c), Digit5(Flip(Flip(c, 2), 3))) && Digit5(c) != Digit5(Ends(c, e, f))
  {
  }

  lemma Once50() ensures |S5| == 64 && Once(S5[0..16]) {}
  lemma Once51() ensures |S5| == 64 && Once(S5[16..32]) {}
  lemma Once52() ensures |S5| == 64 && Once(S5[32..48]) {}
  lemma Once53() ensures |S5| == 64 && Once(S5[48..64]) {}

  lemma Flips60(c0: bool, c1: bool, c2: bool, c3: bool, c4: bool, c5: bool)
    ensures var c := Input(c0, c1, c2, c3, c4, c5);
            Apart(Digit6(c), Digit6(Flip(c, 0)))
            && Apart(Digit6(c), Digit6(Flip(c, 1)))
  {
  }

  lemma Flips62(c0: bool, c1: bool, c2: bool, c3: bool, c4: bool, c5: bool)
    ensures var c := Input(c0, c1, c2, c3, c4, c5);
            Apart(Digit6(c), Digit6(Flip(c, 2)))
            && Apart(Digit6(c), Digit6(Flip(c, 3)))
  {
  }

  lemma Flips64(c0: bool, c1: bool, c2: bool, c3: bool, c4: bool, c5: bool)
    ensures var c := Input(c0, c1, c2, c3, c4, c5);
            Apart(Digit6(c), Digit6(Flip(c, 4)))
            && Apart(Digit6(c), Digit6(Flip(c, 5)))
  {
  }

  lemma Flips6(c: Input, i: nat)
    requires i < 6
    ensures Apart(Digit6(c), Digit6(Flip(c, i)))
  {
    hide Apart, Digit6, Flip;
    Flips60(c.c0, c.c1, c.c2, c.c3, c.c4, c.c5);
    Flips62(c.c0, c.c1, c.c2, c.c3, c.c4, c.c5);
    Flips64(c.c0, c.c1, c.c2, c.c3, c.c4, c.c5);
  }

  lemma Pairs6(c0: bool, c1: bool, c2: bool, c3: bool, c4: bool, c5: bool, e: bool, f: bool)
    ensures var c := Input(c0, c1, c2, c3, c4, c5);
            Apart(Digit6(c), Digit6(Flip(Flip(c, 2), 3))) && Digit6(c) != Digit6(Ends(c, e, f))
  {
  }

  lemma Once60() ensures |S6| == 64 && Once(S6[0..16]) {}
  lemma Once61() ensures |S6| == 64 && Once(S6[16..32]) {}
  lemma Once62() ensures |S6| == 64 && Once(S6[32..48]) {}
  lemma Once63() ensures |S6| == 64 && Once(S6[48..64]) {}

  lemma Flips70(c0: bool, c1: bool, c2: bool, c3: bool, c4: bool, c5: bool)
    ensures var c := Input(c0, c1, c2, c3, c4, c5);
            Apart(Digit7(c), Digit7(Flip(c, 0)))
            && Apart(Digit7(c), Digit7(Flip(c, 1)))
  {
  }

  lemma Flips72(c0: bool, c1: bool, c2: bool, c3: bool, c4: bool, c5: bool)
    ensures var c := Input(c0, c1, c2, c3, c4, c5);
            Apart(Digit7(c), Digit7(Flip(c, 2)))
            && Apart(Digit7(c), Digit7(Flip(c, 3)))
  {
  }

  lemma Flips74(c0: bool, c1: bool, c2: bool, c3: bool, c4: bool, c5: bool)
    ensures var c := Input(c0, c1, c2, c3, c4, c5);
            Apart(Digit7(c), Digit7(Flip(c, 4)))
            && Apart(Digit7(c), Digit7(Flip(c, 5)))
  {
  }

  lemma Flips7(c: Input, i: nat)
    requires i < 6
    ensures Apart(Digit7(c), Digit7(Flip(c, i)))
  {
    hide Apart, Digit7, Flip;
    Flips70(c.c0, c.c1, c.c2, c.c3, c.c4, c.c5);
    Flips72(c.c0, c.c1, c.c2, c.c3, c.c4, c.c5);
    Flips74(c.c0, c.c1, c.c2, c.c3, c.c4, c.c5);
  }

  lemma Pairs7(c0: bool, c1: bool, c2: bool, c3: bool, c4: bool, c5: bool, e: bool, f: bool)
    ensures var c := Input(c0, c1, c2, c3, c4, c5);
            Apart(Digit7(c), Digit7(Flip(Flip(c, 2), 3))) && Digit7(c) != Digit7(Ends(c, e, f))
  {
  }

  lemma Once70() ensures |S7| == 64 && Once(S7[0..16]) {}
  lemma Once71() ensures |S7| == 64 && Once(S7[16..32]) {}
  lemma Once72() ensures |S7| == 64 && Once(S7[32..48]) {}
  lemma Once73() ensures |S7| == 64 && Once(S7[48..64]) {}

  lemma Flips80(c0: bool, c1: bool, c2: bool, c3: bool, c4: bool, c5: bool)
    ensures var c := Input(c0, c1, c2, c3, c4, c5);
            Apart(Digit8(c), Digit8(Flip(c, 0)))
            && Apart(Digit8(c), Digit8(Flip(c, 1)))
  {
  }

  lemma Flips82(c0: bool, c1: bool, c2: bool, c3: bool, c4: bool, c5: bool)
    ensures var c := Input(c0, c1, c2, c3, c4, c5);
            Apart(Digit8(c), Digit8(Flip(c, 2)))
            && Apart(Digit8(c), Digit8(Flip(c, 3)))
  {
  }

  lemma Flips84(c0: bool, c1: bool, c2: bool, c3: bool, c4: bool, c5: bool)
    ensures var c := Input(c0, c1, c2, c3, c4, c5);
            Apart(Digit8(c), Digit8(Flip(c, 4)))
            && Apart(Digit8(c), Digit8(Flip(c, 5)))
  {
  }

  lemma Flips8(c: Input, i: nat)
    requires i < 6
    ensures Apart(Digit8(c), Digit8(Flip(c, i)))
  {
    hide Apart, Digit8, Flip;
    Flips80(c.c0, c.c1, c.c2, c.c3, c.c4, c.c5);
    Flips82(c.c0, c.c1, c.c2, c.c3, c.c4, c.c5);
    Flips84(c.c0, c.c1, c.c2, c.c3, c.c4, c.c5);
  }

  lemma Pairs8(c0: bool, c1: bool, c2: bool, c3: bool, c4: bool, c5: bool, e: bool, f: bool)
    ensures var c := Input(c0, c1, c2, c3, c4, c5);
            Apart(Digit8(c), Digit8(Flip(Flip(c, 2), 3))) && Digit8(c) != Digit8(Ends(c, e, f))
  {
  }

  lemma Once80() ensures |S8| == 64 && Once(S8[0..16]) {}
  lemma Once81() ensures |S8| == 64 && Once(S8[16..32]) {}
  lemma Once82() ensures |S8| == 64 && Once(S8[32..48]) {}
  lemma Once83() ensures |S8| == 64 && Once(S8[48..64]) {}

  lemma FlipOf(box: nat, c: Input, i: nat)
    requires box < 8 && i < 6
    ensures Apart(BoxOf(box, c), BoxOf(box, Flip(c, i)))
  {
    hide Apart, Flip, Pick;
    match box
    case 0 => Flips1(c, i);
    case 1 => Flips2(c, i);
    case 2 => Flips3(c, i);
    case 3 => Flips4(c, i);
    case 4 => Flips5(c, i);
    case 5 => Flips6(c, i);
    case 6 => Flips7(c, i);
    case _ => Flips8(c, i);
  }

  lemma MiddleOf(box: nat, c: Input)
    requires box < 8
    ensures Apart(BoxOf(box, c), BoxOf(box, Flip(Flip(c, 2), 3)))
  {
    hide Apart, Flip, Pick;
    match box
    case 0 => Pairs1(c.c0, c.c1, c.c2, c.c3, c.c4, c.c5, false, false);
    case 1 => Pairs2(c.c0, c.c1, c.c2, c.c3, c.c4, c.c5, false, false);
    case 2 => Pairs3(c.c0, c.c1, c.c2, c.c3, c.c4, c.c5, false, false);
    case 3 => Pairs4(c.c0, c.c1, c.c2, c.c3, c.c4, c.c5, false, false);
    case 4 => Pairs5(c.c0, c.c1, c.c2, c.c3, c.c4, c.c5, false, false);
    case 5 => Pairs6(c.c0, c.c1, c.c2, c.c3, c.c4, c.c5, false, false);
    case 6 => Pairs7(c.c0, c.c1, c.c2, c.c3, c.c4, c.c5, false, false);
    case _ => Pairs8(c.c0, c.c1, c.c2, c.c3, c.c4, c.c5, false, false);
  }

  lemma EndsOf(box: nat, c: Input, e: bool, f: bool)
    requires box < 8
    ensures BoxOf(box, c) != BoxOf(box, Ends(c, e, f))
  {
    hide Ends, Pick;
    match box
    case 0 => Pairs1(c.c0, c.c1, c.c2, c.c3, c.c4, c.c5, e, f);
    case 1 => Pairs2(c.c0, c.c1, c.c2, c.c3, c.c4, c.c5, e, f);
    case 2 => Pairs3(c.c0, c.c1, c.c2, c.c3, c.c4, c.c5, e, f);
    case 3 => Pairs4(c.c0, c.c1, c.c2, c.c3, c.c4, c.c5, e, f);
    case 4 => Pairs5(c.c0, c.c1, c.c2, c.c3, c.c4, c.c5, e, f);
    case 5 => Pairs6(c.c0, c.c1, c.c2, c.c3, c.c4, c.c5, e, f);
    case 6 => Pairs7(c.c0, c.c1, c.c2, c.c3, c.c4, c.c5, e, f);
    case _ => Pairs8(c.c0, c.c1, c.c2, c.c3, c.c4, c.c5, e, f);
  }

  // ----- The same of the boxes on words -----

  ghost function Output(box: nat, c: Word): Word
    requires box < 8 && |c| == 6
  {
    WordOf(BoxEntry(box, BoxIndex(c)), 4)
  }

  ghost predicate FarApart(a: Word, b: Word) {
    |a| == |b| && exists i, j :: 0 <= i < j < |a| && a[i] != b[i] && a[j] != b[j]
  }

  function InputOf(c: Word): Input
    requires |c| == 6
  {
    Input(c[0], c[1], c[2], c[3], c[4], c[5])
  }

  function HexWord(h: Hex): Word {
    [h.a, h.b, h.c, h.d]
  }

  lemma PlaceOf(c: Word)
    requires |c| == 6
    ensures BoxIndex(c) == Place(InputOf(c))
  {
  }

  lemma OutputIs(box: nat, c: Word)
    requires box < 8 && |c| == 6
    ensures Output(box, c) == HexWord(BoxOf(box, InputOf(c)))
  {
    hide HexOf, BoxOf, WordOf, BoxIndex, Place, InputOf, BoxEntry;
    PlaceOf(c);
    BoxOfTable(box, InputOf(c));
    DigitBits(BoxEntry(box, BoxIndex(c)));
  }

  lemma ApartIsFar(x: Hex, y: Hex)
    requires Apart(x, y)
    ensures FarApart(HexWord(x), HexWord(y))
  {
    var a, b := HexWord(x), HexWord(y);
    var i := if a[0] != b[0] then 0 else if a[1] != b[1] then 1 else 2;
    var j := if a[3] != b[3] then 3 else if a[2] != b[2] then 2 else 1;
    assert a[i] != b[i] && a[j] != b[j];
  }

  /** Inputs one bit apart give outputs at least two bits apart. */
  lemma OneBitMovesTwo(box: nat, c: Word, i: nat)
    requires box < 8 && |c| == 6 && i < 6
    ensures FarApart(Output(box, c), Output(box, c[i := !c[i]]))
  {
    hide BoxOf, Apart, FarApart, Output, HexWord;
    OutputIs(box, c);
    OutputIs(box, c[i := !c[i]]);
    FlipOf(box, InputOf(c), i);
    ApartIsFar(BoxOf(box, InputOf(c)), BoxOf(box, Flip(InputOf(c), i)));
  }

  /** So do inputs that differ in the two middle bits. */
  lemma MiddleMovesTwo(box: nat, c: Word)
    requires box < 8 && |c| == 6
    ensures FarApart(Output(box, c), Output(box, c[2 := !c[2]][3 := !c[3]]))
  {
    hide BoxOf, Apart, FarApart, Output, HexWord;
    OutputIs(box, c);
    OutputIs(box, c[2 := !c[2]][3 := !c[3]]);
    MiddleOf(box, InputOf(c));
    ApartIsFar(BoxOf(box, InputOf(c)), BoxOf(box, Flip(Flip(InputOf(c), 2), 3)));
  }

  /** Inputs that differ in the first two bits and agree in the last two give different outputs. */
  lemma EndsMove(box: nat, c: Word, d: Word)
    requires box < 8 && |c| == |d| == 6
    requires c[0] != d[0] && c[1] != d[1] && c[4] == d[4] && c[5] == d[5]
    ensures Output(box, c) != Output(box, d)
  {
    hide BoxOf, Output;
    OutputIs(box, c);
    OutputIs(box, d);
    EndsOf(box, InputOf(c), d[2], d[3]);
    assert InputOf(d) == Ends(InputOf(c), d[2], d[3]);
  }

  lemma RowOf(box: nat, r: nat)
    requires box < 8 && r < 4
    ensures |S| == 8 && |S[box]| == 64 && Once(S[box][16 * r..16 * r + 16])
  {
    hide Once;
    BoxesWellFormed(box);
    match box
    case 0 => Once10(); Once11(); Once12(); Once13();
    case 1 => Once20(); Once21(); Once22(); Once23();
    case 2 => Once30(); Once31(); Once32(); Once33();
    case 3 => Once40(); Once41(); Once42(); Once43();
    case 4 => Once50(); Once51(); Once52(); Once53();
    case 5 => Once60(); Once61(); Once62(); Once63();
    case 6 => Once70(); Once71(); Once72(); Once73();
    case _ => Once80(); Once81(); Once82(); Once83();
  }

  lemma {:induction false} AllHeld(q: seq<nat>, n: nat, v: nat)
    requires |q| == n && v < n && (forall i :: 0 <= i < n ==> q[i] < n)
    requires forall i, j :: 0 <= i < j < n ==> q[i] != q[j]
    ensures v in q
    decreases n
  {
    var top := n - 1;
    if top !in q {
      AllHeld(q[..top], top, q[top]);
      assert false;
    } else if v != top {
      var k :| 0 <= k < n && q[k] == top;
      AllHeld(q[..k] + q[k + 1..], top, v);
    }
  }

  /** Each row of each box holds each of 0 to 15 once. */
  lemma RowsArePermutations(box: nat, r: nat, v: nat)
    requires box < 8 && r < 4 && v < 16
    ensures |S| == 8 && |S[box]| == 64
    ensures var row := S[box][16 * r..16 * r + 16]; v in row && forall i, j :: 0 <= i < j < 16 ==> row[i] != row[j]
  {
    BoxesWellFormed(box);
    RowOf(box, r);
    AllHeld(S[box][16 * r..16 * r + 16], 16, v);
  }
}
