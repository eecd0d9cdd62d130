/** Hex digits as four bits, and words spelled with them. */
module DesHex {
  import opened Bits
  import opened Des

  datatype Hex = Hex(a: bool, b: bool, c: bool, d: bool)
  datatype Seven = Seven(n0: Hex, n1: Hex, n2: Hex, n3: Hex, n4: Hex, n5: Hex, n6: Hex)
  datatype Eight = Eight(n0: Hex, n1: Hex, n2: Hex, n3: Hex, n4: Hex, n5: Hex, n6: Hex, n7: Hex)
  datatype Twelve = Twelve(n0: Hex, n1: Hex, n2: Hex, n3: Hex, n4: Hex, n5: Hex,
                           n6: Hex, n7: Hex, n8: Hex, n9: Hex, n10: Hex, n11: Hex)

  function HexOf(v: nat): Hex {
    Hex(v / 8 % 2 == 1, v / 4 % 2 == 1, v / 2 % 2 == 1, v % 2 == 1)
  }

  const X0 := Hex(false, false, false, false)
  const X1 := Hex(false, false, false, true)
  const X2 := Hex(false, false, true, false)
  const X3 := Hex(false, false, true, true)
  const X4 := Hex(false, true, false, false)
  const X5 := Hex(false, true, false, true)
  const X6 := Hex(false, true, true, false)
  const X7 := Hex(false, true, true, true)
  const X8 := Hex(true, false, false, false)
  const X9 := Hex(true, false, false, true)
  const XA := Hex(true, false, true, false)
  const XB := Hex(true, false, true, true)
  const XC := Hex(true, true, false, false)
  const XD := Hex(true, true, false, true)
  const XE := Hex(true, true, true, false)
  const XF := Hex(true, true, true, true)

  lemma HexDigits()
    ensures HexOf(0) == X0 && HexOf(1) == X1 && HexOf(2) == X2 && HexOf(3) == X3
    ensures HexOf(4) == X4 && HexOf(5) == X5 && HexOf(6) == X6 && HexOf(7) == X7
    ensures HexOf(8) == X8 && HexOf(9) == X9 && HexOf(10) == XA && HexOf(11) == XB
    ensures HexOf(12) == XC && HexOf(13) == XD && HexOf(14) == XE && HexOf(15) == XF
  {
  }

  function HexBit(h: Hex, j: nat): bool {
    match j
    case 0 => h.a
    case 1 => h.b
    case 2 => h.c
    case _ => h.d
  }

  function At28(h: Seven, q: nat): Hex {
    match q
    case 0 => h.n0 case 1 => h.n1 case 2 => h.n2 case 3 => h.n3
    case 4 => h.n4 case 5 => h.n5 case _ => h.n6
  }

  function At32(h: Eight, q: nat): Hex {
    match q
    case 0 => h.n0 case 1 => h.n1 case 2 => h.n2 case 3 => h.n3
    case 4 => h.n4 case 5 => h.n5 case 6 => h.n6 case _ => h.n7
  }

  function At48(h: Twelve, q: nat): Hex {
    match q
    case 0 => h.n0 case 1 => h.n1 case 2 => h.n2 case 3 => h.n3 case 4 => h.n4 case 5 => h.n5
    case 6 => h.n6 case 7 => h.n7 case 8 => h.n8 case 9 => h.n9 case 10 => h.n10 case _ => h.n11
  }

  function Bit28(h: Seven, i: nat): bool {
    HexBit(At28(h, i / 4), i % 4)
  }

  function Bit32(h: Eight, i: nat): bool {
    HexBit(At32(h, i / 4), i % 4)
  }

  function Bit48(h: Twelve, i: nat): bool {
    HexBit(At48(h, i / 4), i % 4)
  }

  function Bit56(c: Seven, d: Seven, i: nat): bool {
    if i < 28 then Bit28(c, i) else Bit28(d, i - 28)
  }

  function Bit64(x: Eight, y: Eight, i: nat): bool {
    if i < 32 then Bit32(x, i) else Bit32(y, i - 32)
  }

  function Bits28(h: Seven): Register {
    seq(28, i requires 0 <= i < 28 => Bit28(h, i))
  }

  function Bits32(h: Eight): Half {
    seq(32, i requires 0 <= i < 32 => Bit32(h, i))
  }

  function Bits48(h: Twelve): Subkey {
    seq(48, i requires 0 <= i < 48 => Bit48(h, i))
  }

  lemma TwoBits(v: nat)
    ensures WordOf(v, 2) == [v / 2 % 2 == 1, v % 2 == 1]
  {
    assert WordOf(v / 2, 1) == WordOf(v / 2 / 2, 0) + [v / 2 % 2 == 1];
  }

  lemma WordOfTwice(v: nat, n: nat)
    requires n > 1
    ensures WordOf(v, n) == WordOf(v / 4, n - 2) + [v / 2 % 2 == 1, v % 2 == 1]
  {
    assert WordOf(v / 2, n - 1) == WordOf(v / 2 / 2, n - 2) + [v / 2 % 2 == 1];
  }

  lemma DigitBits(v: nat)
    ensures WordOf(v, 4) == [HexOf(v).a, HexOf(v).b, HexOf(v).c, HexOf(v).d]
  {
    hide WordOf;
    WordOfTwice(v, 4);
    TwoBits(v / 4);
  }
}
