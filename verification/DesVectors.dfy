/** Published known answers of the cipher, followed round by round. */
module DesVectors {
  import opened Bits
  import opened DesTables
  import opened Des
  import opened DesProgram
  import opened DesHex
  import opened DesWiring

  // ----- Traces -----

  ghost function KeyWords(ks: seq<Twelve>): (r: seq<Subkey>)
    ensures |r| == |ks|
  {
    seq(|ks|, i requires 0 <= i < |ks| => Bits48(ks[i]))
  }

  /** The registers and subkeys of a key schedule. */
  ghost predicate Scheduled(cs: seq<Seven>, ds: seq<Seven>, ks: seq<Twelve>, shifts: seq<nat>) {
    && |cs| == |ds| == |ks| + 1 && |shifts| == |ks| && (forall i :: 0 <= i < |shifts| ==> 1 <= shifts[i] <= 2)
    && forall i :: 0 <= i < |ks| ==> Turned(cs, ds, ks, shifts[i], i)
  }

  predicate Turned(cs: seq<Seven>, ds: seq<Seven>, ks: seq<Twelve>, shift: nat, i: nat)
    requires i < |ks| && |cs| == |ds| == |ks| + 1
  {
    cs[i + 1] == RotateBy(cs[i], shift) && ds[i + 1] == RotateBy(ds[i], shift) && ks[i] == Select(cs[i + 1], ds[i + 1])
  }

  lemma {:induction false} ScheduledIs(cs: seq<Seven>, ds: seq<Seven>, ks: seq<Twelve>, shifts: seq<nat>)
    requires Scheduled(cs, ds, ks, shifts)
    ensures Schedule(Bits28(cs[0]), Bits28(ds[0]), shifts) == KeyWords(ks)
    decreases |ks|
  {
    hide RotateBy, Bits28, Bits48, Select, PermuteWord, RotateLeft;
    if ks != [] {
      PC2Selects();
      assert Turned(cs, ds, ks, shifts[0], 0);
      RotateByBits(cs[0], shifts[0]);
      RotateByBits(ds[0], shifts[0]);
      SelectIsPC2(cs[1], ds[1]);
      forall i | 0 <= i < |ks| - 1 ensures Turned(cs[1..], ds[1..], ks[1..], shifts[1..][i], i) {
        assert Turned(cs, ds, ks, shifts[i + 1], i + 1);
      }
      ScheduledIs(cs[1..], ds[1..], ks[1..], shifts[1..]);
    }
  }

  /** A round in three stages: into the boxes, out of them, onto the other half. */
  predicate Staged(l: Eight, r: Eight, k: Twelve, s: Eight, x: Twelve, n: Eight) {
    Xor48(Expand(r), k) == x && Boxes(x) == s && Xor32(l, Wire(s)) == n
  }

  lemma StagedIs()
    ensures forall l, r, k, s, x, n :: Staged(l, r, k, s, x, n) ==> NextHalf(l, r, k) == n
  {
  }

  /** The halves of the rounds, each made from the two before it. */
  ghost predicate Traced(hs: seq<Eight>, ks: seq<Twelve>) {
    |hs| == |ks| + 2 && forall i :: 0 <= i < |ks| ==> NextHalf(hs[i], hs[i + 1], ks[i]) == hs[i + 2]
  }

  lemma {:induction false} TracedIs(hs: seq<Eight>, ks: seq<Twelve>)
    requires Traced(hs, ks)
    ensures Rounds(Halves(Bits32(hs[0]), Bits32(hs[1])), KeyWords(ks)) == Halves(Bits32(hs[|ks|]), Bits32(hs[|ks| + 1]))
    decreases |ks|
  {
    hide NextHalf, Bits32, Bits48, Round;
    if ks != [] {
      NextHalfIsRound(hs[0], hs[1], ks[0]);
      assert NextHalf(hs[0], hs[1], ks[0]) == hs[0 + 2];
      forall i | 0 <= i < |ks| - 1 ensures NextHalf(hs[1..][i], hs[1..][i + 1], ks[1..][i]) == hs[1..][i + 2] {
        assert NextHalf(hs[i + 1], hs[i + 1 + 1], ks[i + 1]) == hs[i + 1 + 2];
      }
      TracedIs(hs[1..], ks[1..]);
      assert KeyWords(ks)[0] == Bits48(ks[0]) && KeyWords(ks)[1..] == KeyWords(ks[1..]);
    }
  }

  /** Sixteen digits, as a key or a block. */
  datatype Sixteen = Sixteen(x: Eight, y: Eight)

  function Bits64(b: Sixteen): Block {
    Bits32(b.x) + Bits32(b.y)
  }

  /** A schedule of the key, and a trace of the block that ends at the output's own halves. */
  ghost predicate Leads(key: Sixteen, block: Sixteen, output: Sixteen, cs: seq<Seven>, ds: seq<Seven>, ks: seq<Twelve>,
                        hs: seq<Eight>)
  {
    && |ks| == 16 && |cs| == |ds| == 17 && |hs| == 18 && Scheduled(cs, ds, ks, SHIFTS) && Traced(hs, ks)
    && cs[0] == ChooseLeft(key.x, key.y) && ds[0] == ChooseRight(key.x, key.y)
    && hs[0] == InitialLeft(block.x, block.y) && hs[1] == InitialRight(block.x, block.y)
    && hs[17] == InitialLeft(output.x, output.y) && hs[16] == InitialRight(output.x, output.y)
  }

  lemma LeadsIs(key: Sixteen, block: Sixteen, output: Sixteen, cs: seq<Seven>, ds: seq<Seven>, ks: seq<Twelve>,
                hs: seq<Eight>)
    requires Leads(key, block, output, cs, ds, ks, hs)
    ensures Encrypt(Bits64(key), Bits64(block)) == Bits64(output)
  {
    hide Scheduled, Traced, Bits28, Bits32, Schedule, Rounds, Initial, Final, Choose, KeyWords, InitialLeft,
         InitialRight, ChooseLeft, ChooseRight;
    ShiftsSmall();
    ChoiceIsPC1(key.x, key.y);
    HalvesOfChoice(cs[0], ds[0]);
    ScheduledIs(cs, ds, ks, SHIFTS);
    InitialIsIP(block.x, block.y);
    InitialIsIP(output.x, output.y);
    TracedIs(hs, ks);
    assert Cut(Bits32(hs[0]) + Bits32(hs[1])) == Halves(Bits32(hs[0]), Bits32(hs[1]));
    FPUndoesIP(Bits64(output));
  }

  lemma HalvesOfChoice(c: Seven, d: Seven)
    ensures (Bits28(c) + Bits28(d))[..28] == Bits28(c) && (Bits28(c) + Bits28(d))[28..] == Bits28(d)
  {
  }

  // ----- Bytes -----

  function EightOf(bs: seq<byte>, i: nat): Eight
    requires i + 4 <= |bs|
  {
    Eight(HexOf(bs[i] / 16), HexOf(bs[i] % 16), HexOf(bs[i + 1] / 16), HexOf(bs[i + 1] % 16),
          HexOf(bs[i + 2] / 16), HexOf(bs[i + 2] % 16), HexOf(bs[i + 3] / 16), HexOf(bs[i + 3] % 16))
  }

  function SixteenOf(bs: seq<byte>): Sixteen
    requires |bs| == 8
  {
    Sixteen(EightOf(bs, 0), EightOf(bs, 4))
  }

  lemma ByteDigits(v: nat)
    ensures var (h, l) := (HexOf(v / 16), HexOf(v % 16)); WordOf(v, 8) == [h.a, h.b, h.c, h.d, l.a, l.b, l.c, l.d]
  {
    hide WordOf;
    WordOfTwice(v, 8);
    WordOfTwice(v / 4, 6);
    DigitBits(v / 16);
    LowDigit(v);
  }

  lemma EvenMore(m: nat, x: nat)
    ensures (2 * m + x) % 2 == x % 2
  {
  }

  lemma LowDigit(v: nat)
    ensures v % 16 / 8 % 2 == v / 8 % 2 && v % 16 / 4 % 2 == v / 4 % 2 && v % 16 / 2 % 2 == v / 2 % 2 && v % 16 % 2 == v % 2
  {
    var h, l := v / 16, v % 16;
    Eighths(h, l);
    Quarters(h, l);
    Pairs(h, l);
    EvenMore(h, l / 8);
    EvenMore(2 * h, l / 4);
    EvenMore(4 * h, l / 2);
    EvenMore(8 * h, l);
  }

  lemma Eighths(h: nat, l: nat) ensures (16 * h + l) / 8 == 2 * h + l / 8 {}
  lemma Quarters(h: nat, l: nat) ensures (16 * h + l) / 4 == 2 * (2 * h) + l / 4 {}
  lemma Pairs(h: nat, l: nat) ensures (16 * h + l) / 2 == 2 * (4 * h) + l / 2 {}

  lemma EightAt(bs: seq<byte>, i: nat, j: nat)
    requires i + 4 <= |bs| && j < 4
    ensures At32(EightOf(bs, i), 2 * j) == HexOf(bs[i + j] / 16) && At32(EightOf(bs, i), 2 * j + 1) == HexOf(bs[i + j] % 16)
  {
    hide HexOf;
  }

  lemma EightBits32(bs: seq<byte>, i: nat, j: nat)
    requires i + 4 <= |bs| && j < 4
    ensures Bits32(EightOf(bs, i))[8 * j..8 * j + 8] == WordOf(bs[i + j], 8)
  {
    hide HexOf, At32, WordOf, EightOf, Bits32;
    var e := EightOf(bs, i);
    EightAt(bs, i, j);
    ByteDigits(bs[i + j]);
    BitsOfDigit(e, 2 * j);
    BitsOfDigit(e, 2 * j + 1);
    TwoPieces(Bits32(e), 8 * j);
  }

  lemma TwoPieces(w: Word, i: nat)
    requires i + 8 <= |w|
    ensures w[i..i + 8] == w[i..i + 4] + w[i + 4..i + 8]
  {
  }

  lemma SixteenBits(bs: seq<byte>)
    requires |bs| == 8
    ensures WordOfBytes(bs) == Bits64(SixteenOf(bs))
  {
    hide Bits32, WordOf, WordOfBytes, EightOf;
    var w := Bits64(SixteenOf(bs));
    forall i | 0 <= i < 8 ensures WordOfBytes(bs)[8 * i..8 * i + 8] == w[8 * i..8 * i + 8] {
      WordOfBytesAt(bs, i);
      if i < 4 {
        EightBits32(bs, 0, i);
        assert w[8 * i..8 * i + 8] == Bits32(EightOf(bs, 0))[8 * i..8 * i + 8];
      } else {
        EightBits32(bs, 4, i - 4);
        assert w[8 * i..8 * i + 8] == Bits32(EightOf(bs, 4))[8 * (i - 4)..8 * (i - 4) + 8];
      }
    }
    ChunksDecide(WordOfBytes(bs), w);
  }

  lemma AnswerIs(key: seq<byte>, block: seq<byte>, output: seq<byte>, cs: seq<Seven>, ds: seq<Seven>, ks: seq<Twelve>,
                 hs: seq<Eight>)
    requires |key| == |block| == |output| == 8
    requires Leads(SixteenOf(key), SixteenOf(block), SixteenOf(output), cs, ds, ks, hs)
    ensures EncryptBytes(key, block) == output
  {
    hide Leads, Bits64, SixteenOf, Encrypt;
    SixteenBits(key);
    SixteenBits(block);
    SixteenBits(output);
    LeadsIs(SixteenOf(key), SixteenOf(block), SixteenOf(output), cs, ds, ks, hs);
    BytesRoundTrip(output);
  }

  // ----- An empty password and a zero challenge -----

  const NoTurn: Seven := Seven(X0, X0, X0, X0, X0, X0, X0)
  const NoKey: Twelve := Twelve(X0, X0, X0, X0, X0, X0, X0, X0, X0, X0, X0, X0)

  const ZeroHalves: seq<Eight> :=
    [Eight(X0, X0, X0, X0, X0, X0, X0, X0), Eight(X0, X0, X0, X0, X0, X0, X0, X0), Eight(XD, X8, XD, X8, XD, XB, XB, XC),
     Eight(XE, X7, X3, XA, XE, XD, X4, XF), Eight(X5, XB, XF, XA, X6, XB, XA, X6), Eight(X5, XE, X4, X5, XE, X2, X5, X7),
     Eight(X8, XB, X1, X9, X7, XB, XE, X0), Eight(XF, XD, XE, X9, X8, X9, X4, XA), Eight(X1, X9, XD, XF, X0, XB, X5, XC),
     Eight(X9, X0, X7, XA, X1, X3, XF, X0), Eight(X8, X8, X1, X9, X0, XC, X5, X0), Eight(X2, X5, XD, X1, X5, X1, X7, XC),
     Eight(XF, X3, XE, XF, X9, X1, X7, XE), Eight(X9, X6, XE, X3, X9, X7, X1, X2), Eight(X5, XA, X5, XD, XA, X3, X4, XA),
     Eight(X0, X5, X8, XC, XA, XD, X0, XA), Eight(XB, XB, XE, XA, X0, XD, XC, X2), Eight(X1, XC, X2, X0, X8, X7, XF, XC)]

  lemma ZeroStages0()
    ensures Staged(Eight(X0, X0, X0, X0, X0, X0, X0, X0), Eight(X0, X0, X0, X0, X0, X0, X0, X0),
                   Twelve(X0, X0, X0, X0, X0, X0, X0, X0, X0, X0, X0, X0), Eight(XE, XF, XA, X7, X2, XC, X4, XD),
                   Twelve(X0, X0, X0, X0, X0, X0, X0, X0, X0, X0, X0, X0), Eight(XD, X8, XD, X8, XD, XB, XB, XC))
    ensures Staged(Eight(X0, X0, X0, X0, X0, X0, X0, X0), Eight(XD, X8, XD, X8, XD, XB, XB, XC),
                   Twelve(X0, X0, X0, X0, X0, X0, X0, X0, X0, X0, X0, X0), Eight(X5, XB, XB, X9, X9, X7, XF, X3),
                   Twelve(X6, XF, X1, X6, XF, X1, X6, XF, X7, XD, XF, X9), Eight(XE, X7, X3, XA, XE, XD, X4, XF))
    ensures Staged(Eight(XD, X8, XD, X8, XD, XB, XB, XC), Eight(XE, X7, X3, XA, XE, XD, X4, XF),
                   Twelve(X0, X0, X0, X0, X0, X0, X0, X0, X0, X0, X0, X0), Eight(X5, X4, X0, X5, X8, X7, X1, X2),
                   Twelve(XF, X0, XE, X9, XF, X5, X7, X5, XA, XA, X5, XF), Eight(X5, XB, XF, XA, X6, XB, XA, X6))
    ensures Staged(Eight(XE, X7, X3, XA, XE, XD, X4, XF), Eight(X5, XB, XF, XA, X6, XB, XA, X6),
                   Twelve(X0, X0, X0, X0, X0, X0, X0, X0, X0, X0, X0, X0), Eight(X2, XC, XC, X3, XD, XE, X6, XB),
                   Twelve(X2, XF, X7, XF, XF, X4, X3, X5, X7, XD, X0, XC), Eight(X5, XE, X4, X5, XE, X2, X5, X7))
  {
  }

  lemma ZeroStages1()
    ensures Staged(Eight(X5, XB, XF, XA, X6, XB, XA, X6), Eight(X5, XE, X4, X5, XE, X2, X5, X7),
                   Twelve(X0, X0, X0, X0, X0, X0, X0, X0, X0, X0, X0, X0), Eight(X9, X2, X6, XF, X0, XA, X0, X2),
                   Twelve(XA, XF, XC, X2, X0, XB, XF, X0, X4, X2, XA, XE), Eight(X8, XB, X1, X9, X7, XB, XE, X0))
    ensures Staged(Eight(X5, XE, X4, X5, XE, X2, X5, X7), Eight(X8, XB, X1, X9, X7, XB, XE, X0),
                   Twelve(X0, X0, X0, X0, X0, X0, X0, X0, X0, X0, X0, X0), Eight(XA, XD, XA, X1, XD, X7, X9, X1),
                   Twelve(X4, X5, X6, X8, XF, X2, XB, XF, X7, XF, X0, X1), Eight(XF, XD, XE, X9, X8, X9, X4, XA))
    ensures Staged(Eight(X8, XB, X1, X9, X7, XB, XE, X0), Eight(XF, XD, XE, X9, X8, X9, X4, XA),
                   Twelve(X0, X0, X0, X0, X0, X0, X0, X0, X0, X0, X0, X0), Eight(X8, X5, X2, X7, X6, XD, X1, X6),
                   Twelve(X7, XF, XB, XF, X5, X3, XC, X5, X2, XA, X5, X5), Eight(X1, X9, XD, XF, X0, XB, X5, XC))
    ensures Staged(Eight(XF, XD, XE, X9, X8, X9, X4, XA), Eight(X1, X9, XD, XF, X0, XB, X5, XC),
                   Twelve(X0, X0, X0, X0, X0, X0, X0, X0, X0, X0, X0, X0), Eight(XF, X6, X5, X4, XB, X4, X4, XF),
                   Twelve(X0, XF, X3, XE, XF, XE, X8, X5, X6, XA, XF, X8), Eight(X9, X0, X7, XA, X1, X3, XF, X0))
  {
  }

  lemma ZeroStages2()
    ensures Staged(Eight(X1, X9, XD, XF, X0, XB, X5, XC), Eight(X9, X0, X7, XA, X1, X3, XF, X0),
                   Twelve(X0, X0, X0, X0, X0, X0, X0, X0, X0, X0, X0, X0), Eight(XA, X0, XA, X3, XC, XC, X2, X2),
                   Twelve(X4, XA, X0, X3, XF, X4, X0, XA, X7, XF, XA, X1), Eight(X8, X8, X1, X9, X0, XC, X5, X0))
    ensures Staged(Eight(X9, X0, X7, XA, X1, X3, XF, X0), Eight(X8, X8, X1, X9, X0, XC, X5, X0),
                   Twelve(X0, X0, X0, X0, X0, X0, X0, X0, X0, X0, X0, X0), Eight(XA, X9, X7, X1, XB, XE, X0, X2),
                   Twelve(X4, X5, X0, X0, XF, X2, X8, X5, X8, X2, XA, X1), Eight(X2, X5, XD, X1, X5, X1, X7, XC))
    ensures Staged(Eight(X8, X8, X1, X9, X0, XC, X5, X0), Eight(X2, X5, XD, X1, X5, X1, X7, XC),
                   Twelve(X0, X0, X0, X0, X0, X0, X0, X0, X0, X0, X0, X0), Eight(XD, X2, XA, X6, XD, XE, X7, XF),
                   Twelve(X1, X0, XB, XE, XA, X2, XA, XA, X2, XB, XF, X8), Eight(XF, X3, XE, XF, X9, X1, X7, XE))
    ensures Staged(Eight(X2, X5, XD, X1, X5, X1, X7, XC), Eight(XF, X3, XE, XF, X9, X1, X7, XE),
                   Twelve(X0, X0, X0, X0, X0, X0, X0, X0, X0, X0, X0, X0), Eight(X7, X1, X2, X9, X9, XE, X7, X6),
                   Twelve(X7, XA, X7, XF, X5, XF, XC, XA, X2, XB, XF, XD), Eight(X9, X6, XE, X3, X9, X7, X1, X2))
  {
  }

  lemma ZeroStages3()
    ensures Staged(Eight(XF, X3, XE, XF, X9, X1, X7, XE), Eight(X9, X6, XE, X3, X9, X7, X1, X2),
                   Twelve(X0, X0, X0, X0, X0, X0, X0, X0, X0, X0, X0, X0), Eight(XA, X4, X2, X5, X9, X3, X4, XE),
                   Twelve(X4, XA, XD, X7, X0, X7, XC, XA, XE, X8, XA, X5), Eight(X5, XA, X5, XD, XA, X3, X4, XA))
    ensures Staged(Eight(X9, X6, XE, X3, X9, X7, X1, X2), Eight(X5, XA, X5, XD, XA, X3, X4, XA),
                   Twelve(X0, X0, X0, X0, X0, X0, X0, X0, X0, X0, X0, X0), Eight(X2, XC, X4, X7, XC, XF, X1, X3),
                   Twelve(X2, XF, X4, X2, XF, XB, XD, X0, X6, XA, X5, X4), Eight(X0, X5, X8, XC, XA, XD, X0, XA))
    ensures Staged(Eight(X5, XA, X5, XD, XA, X3, X4, XA), Eight(X0, X5, X8, XC, XA, XD, X0, XA),
                   Twelve(X0, X0, X0, X0, X0, X0, X0, X0, X0, X0, X0, X0), Eight(XE, X2, X4, X1, XF, X7, X6, X3),
                   Twelve(X0, X0, XB, XC, X5, X9, X5, X5, XA, X8, X5, X4), Eight(XB, XB, XE, XA, X0, XD, XC, X2))
    ensures Staged(Eight(X0, X5, X8, XC, XA, XD, X0, XA), Eight(XB, XB, XE, XA, X0, XD, XC, X2),
                   Twelve(X0, X0, X0, X0, X0, X0, X0, X0, X0, X0, X0, X0), Eight(XB, XC, X2, X8, XE, XB, X0, XD),
                   Twelve(X5, XF, X7, XF, X5, X4, X0, X5, XB, XE, X0, X5), Eight(X1, XC, X2, X0, X8, X7, XF, XC))
  {
  }

  lemma ZeroRounds0()
    ensures forall i :: 0 <= i < 4 ==> NextHalf(ZeroHalves[i], ZeroHalves[i + 1], NoKey) == ZeroHalves[i + 2]
  {
    hide Staged, NextHalf;
    StagedIs();
    ZeroStages0();
  }

  lemma ZeroRounds1()
    ensures forall i :: 4 <= i < 8 ==> NextHalf(ZeroHalves[i], ZeroHalves[i + 1], NoKey) == ZeroHalves[i + 2]
  {
    hide Staged, NextHalf;
    StagedIs();
    ZeroStages1();
  }

  lemma ZeroRounds2()
    ensures forall i :: 8 <= i < 12 ==> NextHalf(ZeroHalves[i], ZeroHalves[i + 1], NoKey) == ZeroHalves[i + 2]
  {
    hide Staged, NextHalf;
    StagedIs();
    ZeroStages2();
  }

  lemma ZeroRounds3()
    ensures forall i :: 12 <= i < 16 ==> NextHalf(ZeroHalves[i], ZeroHalves[i + 1], NoKey) == ZeroHalves[i + 2]
  {
    hide Staged, NextHalf;
    StagedIs();
    ZeroStages3();
  }


  // ----- Key 133457799BBCDFF1, block 0123456789ABCDEF -----

  const MixedC: seq<Seven> :=
    [Seven(XF, X0, XC, XC, XA, XA, XF), Seven(XE, X1, X9, X9, X5, X5, XF), Seven(XC, X3, X3, X2, XA, XB, XF),
     Seven(X0, XC, XC, XA, XA, XF, XF), Seven(X3, X3, X2, XA, XB, XF, XC), Seven(XC, XC, XA, XA, XF, XF, X0),
     Seven(X3, X2, XA, XB, XF, XC, X3), Seven(XC, XA, XA, XF, XF, X0, XC), Seven(X2, XA, XB, XF, XC, X3, X3),
     Seven(X5, X5, X7, XF, X8, X6, X6), Seven(X5, X5, XF, XE, X1, X9, X9), Seven(X5, X7, XF, X8, X6, X6, X5),
     Seven(X5, XF, XE, X1, X9, X9, X5), Seven(X7, XF, X8, X6, X6, X5, X5), Seven(XF, XE, X1, X9, X9, X5, X5),
     Seven(XF, X8, X6, X6, X5, X5, X7), Seven(XF, X0, XC, XC, XA, XA, XF)]

  const MixedD: seq<Seven> :=
    [Seven(X5, X5, X6, X6, X7, X8, XF), Seven(XA, XA, XC, XC, XF, X1, XE), Seven(X5, X5, X9, X9, XE, X3, XD),
     Seven(X5, X6, X6, X7, X8, XF, X5), Seven(X5, X9, X9, XE, X3, XD, X5), Seven(X6, X6, X7, X8, XF, X5, X5),
     Seven(X9, X9, XE, X3, XD, X5, X5), Seven(X6, X7, X8, XF, X5, X5, X6), Seven(X9, XE, X3, XD, X5, X5, X9),
     Seven(X3, XC, X7, XA, XA, XB, X3), Seven(XF, X1, XE, XA, XA, XC, XC), Seven(XC, X7, XA, XA, XB, X3, X3),
     Seven(X1, XE, XA, XA, XC, XC, XF), Seven(X7, XA, XA, XB, X3, X3, XC), Seven(XE, XA, XA, XC, XC, XF, X1),
     Seven(XA, XA, XB, X3, X3, XC, X7), Seven(X5, X5, X6, X6, X7, X8, XF)]

  const MixedKeys: seq<Twelve> :=
    [Twelve(X1, XB, X0, X2, XE, XF, XF, XC, X7, X0, X7, X2), Twelve(X7, X9, XA, XE, XD, X9, XD, XB, XC, X9, XE, X5),
     Twelve(X5, X5, XF, XC, X8, XA, X4, X2, XC, XF, X9, X9), Twelve(X7, X2, XA, XD, XD, X6, XD, XB, X3, X5, X1, XD),
     Twelve(X7, XC, XE, XC, X0, X7, XE, XB, X5, X3, XA, X8), Twelve(X6, X3, XA, X5, X3, XE, X5, X0, X7, XB, X2, XF),
     Twelve(XE, XC, X8, X4, XB, X7, XF, X6, X1, X8, XB, XC), Twelve(XF, X7, X8, XA, X3, XA, XC, X1, X3, XB, XF, XB),
     Twelve(XE, X0, XD, XB, XE, XB, XE, XD, XE, X7, X8, X1), Twelve(XB, X1, XF, X3, X4, X7, XB, XA, X4, X6, X4, XF),
     Twelve(X2, X1, X5, XF, XD, X3, XD, XE, XD, X3, X8, X6), Twelve(X7, X5, X7, X1, XF, X5, X9, X4, X6, X7, XE, X9),
     Twelve(X9, X7, XC, X5, XD, X1, XF, XA, XB, XA, X4, X1), Twelve(X5, XF, X4, X3, XB, X7, XF, X2, XE, X7, X3, XA),
     Twelve(XB, XF, X9, X1, X8, XD, X3, XD, X3, XF, X0, XA), Twelve(XC, XB, X3, XD, X8, XB, X0, XE, X1, X7, XF, X5)]

  lemma MixedTurn0()
    ensures Turned(MixedC, MixedD, MixedKeys, SHIFTS[0], 0)
    ensures Turned(MixedC, MixedD, MixedKeys, SHIFTS[1], 1)
    ensures Turned(MixedC, MixedD, MixedKeys, SHIFTS[2], 2)
    ensures Turned(MixedC, MixedD, MixedKeys, SHIFTS[3], 3)
  {
  }

  lemma MixedTurn1()
    ensures Turned(MixedC, MixedD, MixedKeys, SHIFTS[4], 4)
    ensures Turned(MixedC, MixedD, MixedKeys, SHIFTS[5], 5)
    ensures Turned(MixedC, MixedD, MixedKeys, SHIFTS[6], 6)
    ensures Turned(MixedC, MixedD, MixedKeys, SHIFTS[7], 7)
  {
  }

  lemma MixedTurn2()
    ensures Turned(MixedC, MixedD, MixedKeys, SHIFTS[8], 8)
    ensures Turned(MixedC, MixedD, MixedKeys, SHIFTS[9], 9)
    ensures Turned(MixedC, MixedD, MixedKeys, SHIFTS[10], 10)
    ensures Turned(MixedC, MixedD, MixedKeys, SHIFTS[11], 11)
  {
  }

  lemma MixedTurn3()
    ensures Turned(MixedC, MixedD, MixedKeys, SHIFTS[12], 12)
    ensures Turned(MixedC, MixedD, MixedKeys, SHIFTS[13], 13)
    ensures Turned(MixedC, MixedD, MixedKeys, SHIFTS[14], 14)
    ensures Turned(MixedC, MixedD, MixedKeys, SHIFTS[15], 15)
  {
  }


  const MixedHalves: seq<Eight> :=
    [Eight(XC, XC, X0, X0, XC, XC, XF, XF), Eight(XF, X0, XA, XA, XF, X0, XA, XA), Eight(XE, XF, X4, XA, X6, X5, X4, X4),
     Eight(XC, XC, X0, X1, X7, X7, X0, X9), Eight(XA, X2, X5, XC, X0, XB, XF, X4), Eight(X7, X7, X2, X2, X0, X0, X4, X5),
     Eight(X8, XA, X4, XF, XA, X6, X3, X7), Eight(XE, X9, X6, X7, XC, XD, X6, X9), Eight(X0, X6, X4, XA, XB, XA, X1, X0),
     Eight(XD, X5, X6, X9, X4, XB, X9, X0), Eight(X2, X4, X7, XC, XC, X6, X7, XA), Eight(XB, X7, XD, X5, XD, X7, XB, X2),
     Eight(XC, X5, X7, X8, X3, XC, X7, X8), Eight(X7, X5, XB, XD, X1, X8, X5, X8), Eight(X1, X8, XC, X3, X1, X5, X5, XA),
     Eight(XC, X2, X8, XC, X9, X6, X0, XD), Eight(X4, X3, X4, X2, X3, X2, X3, X4), Eight(X0, XA, X4, XC, XD, X9, X9, X5)]

  lemma MixedStages0()
    ensures Staged(Eight(XC, XC, X0, X0, XC, XC, XF, XF), Eight(XF, X0, XA, XA, XF, X0, XA, XA),
                   Twelve(X1, XB, X0, X2, XE, XF, XF, XC, X7, X0, X7, X2), Eight(X5, XC, X8, X2, XB, X5, X9, X7),
                   Twelve(X6, X1, X1, X7, XB, XA, X8, X6, X6, X5, X2, X7), Eight(XE, XF, X4, XA, X6, X5, X4, X4))
    ensures Staged(Eight(XF, X0, XA, XA, XF, X0, XA, XA), Eight(XE, XF, X4, XA, X6, X5, X4, X4),
                   Twelve(X7, X9, XA, XE, XD, X9, XD, XB, XC, X9, XE, X5), Eight(XF, X8, XD, X0, X3, XA, XA, XE),
                   Twelve(X0, XC, X4, X4, X8, XD, XE, XB, X6, X3, XE, XC), Eight(XC, XC, X0, X1, X7, X7, X0, X9))
    ensures Staged(Eight(XE, XF, X4, XA, X6, X5, X4, X4), Eight(XC, XC, X0, X1, X7, X7, X0, X9),
                   Twelve(X5, X5, XF, XC, X8, XA, X4, X2, XC, XF, X9, X9), Eight(X2, X7, X1, X0, XE, X1, X6, XF),
                   Twelve(XB, X0, X7, XC, X8, X8, XF, X8, X2, X7, XC, XA), Eight(XA, X2, X5, XC, X0, XB, XF, X4))
    ensures Staged(Eight(XC, XC, X0, X1, X7, X7, X0, X9), Eight(XA, X2, X5, XC, X0, XB, XF, X4),
                   Twelve(X7, X2, XA, XD, XD, X6, XD, XB, X3, X5, X1, XD), Eight(X2, X1, XE, XD, X9, XF, X3, XA),
                   Twelve(X2, X2, XE, XF, X2, XE, XD, XE, X4, XA, XB, X4), Eight(X7, X7, X2, X2, X0, X0, X4, X5))
  {
  }

  lemma MixedStages1()
    ensures Staged(Eight(XA, X2, X5, XC, X0, XB, XF, X4), Eight(X7, X7, X2, X2, X0, X0, X4, X5),
                   Twelve(X7, XC, XE, XC, X0, X7, XE, XB, X5, X3, XA, X8), Eight(X5, X0, XC, X8, X3, X1, XE, XB),
                   Twelve(XC, X6, X0, X5, X0, X3, XE, XB, X5, X1, XA, X2), Eight(X8, XA, X4, XF, XA, X6, X3, X7))
    ensures Staged(Eight(X7, X7, X2, X2, X0, X0, X4, X5), Eight(X8, XA, X4, XF, XA, X6, X3, X7),
                   Twelve(X6, X3, XA, X5, X3, XE, X5, X0, X7, XB, X2, XF), Eight(X4, X1, XF, X3, X4, XC, X3, XD),
                   Twelve(XA, X6, XE, X7, X6, X1, X8, X0, XB, XA, X8, X0), Eight(XE, X9, X6, X7, XC, XD, X6, X9))
    ensures Staged(Eight(X8, XA, X4, XF, XA, X6, X3, X7), Eight(XE, X9, X6, X7, XC, XD, X6, X9),
                   Twelve(XE, XC, X8, X4, XB, X7, XF, X6, X1, X8, XB, XC), Eight(X1, X0, X7, X5, X4, X0, XA, XD),
                   Twelve(X1, X9, XA, XF, XB, X8, X1, X3, XB, X3, XE, XF), Eight(X0, X6, X4, XA, XB, XA, X1, X0))
    ensures Staged(Eight(XE, X9, X6, X7, XC, XD, X6, X9), Eight(X0, X6, X4, XA, XB, XA, X1, X0),
                   Twelve(XF, X7, X8, XA, X3, XA, XC, X1, X3, XB, XF, XB), Eight(X6, XC, X1, X8, X7, XC, XA, XE),
                   Twelve(XF, X7, X4, X8, X6, XF, X9, XE, X7, XB, X5, XB), Eight(XD, X5, X6, X9, X4, XB, X9, X0))
  {
  }

  lemma MixedStages2()
    ensures Staged(Eight(X0, X6, X4, XA, XB, XA, X1, X0), Eight(XD, X5, X6, X9, X4, XB, X9, X0),
                   Twelve(XE, X0, XD, XB, XE, XB, XE, XD, XE, X7, X8, X1), Eight(X1, X1, X0, XC, X5, X7, X7, X7),
                   Twelve(X8, XA, X7, X0, XB, X9, X4, X8, X9, XB, X2, X0), Eight(X2, X4, X7, XC, XC, X6, X7, XA))
    ensures Staged(Eight(XD, X5, X6, X9, X4, XB, X9, X0), Eight(X2, X4, X7, XC, XC, X6, X7, XA),
                   Twelve(XB, X1, XF, X3, X4, X7, XB, XA, X4, X6, X4, XF), Eight(XD, XA, X0, X4, X5, X2, X7, X5),
                   Twelve(XA, X1, X7, X0, XB, XE, XD, XA, X8, X5, XB, XB), Eight(XB, X7, XD, X5, XD, X7, XB, X2))
    ensures Staged(Eight(X2, X4, X7, XC, XC, X6, X7, XA), Eight(XB, X7, XD, X5, XD, X7, XB, X2),
                   Twelve(X2, X1, X5, XF, XD, X3, XD, XE, XD, X3, X8, X6), Eight(X7, X3, X0, X5, XD, X1, X0, X1),
                   Twelve(X7, XB, XA, X1, X7, X8, X3, X4, X2, XE, X2, X3), Eight(XC, X5, X7, X8, X3, XC, X7, X8))
    ensures Staged(Eight(XB, X7, XD, X5, XD, X7, XB, X2), Eight(XC, X5, X7, X8, X3, XC, X7, X8),
                   Twelve(X7, X5, X7, X1, XF, X5, X9, X4, X6, X7, XE, X9), Eight(X7, XB, X8, XB, X2, X6, X3, X5),
                   Twelve(X1, X5, XD, XA, X0, X5, X8, XB, XE, X4, X1, X8), Eight(X7, X5, XB, XD, X1, X8, X5, X8))
  {
  }

  lemma MixedStages3()
    ensures Staged(Eight(XC, X5, X7, X8, X3, XC, X7, X8), Eight(X7, X5, XB, XD, X1, X8, X5, X8),
                   Twelve(X9, X7, XC, X5, XD, X1, XF, XA, XB, XA, X4, X1), Eight(X9, XA, XD, X1, X8, XB, X4, XF),
                   Twelve(XA, XD, X7, X8, X2, XB, X7, X5, XB, X8, XB, X1), Eight(X1, X8, XC, X3, X1, X5, X5, XA))
    ensures Staged(Eight(X7, X5, XB, XD, X1, X8, X5, X8), Eight(X1, X8, XC, X3, X1, X5, X5, XA),
                   Twelve(X5, XF, X4, X3, XB, X7, XF, X2, XE, X7, X3, XA), Eight(X6, X4, X7, X9, X9, XA, XF, X1),
                   Twelve(X5, X0, X5, X5, XB, X1, X7, X8, X4, XD, XC, XE), Eight(XC, X2, X8, XC, X9, X6, X0, XD))
    ensures Staged(Eight(X1, X8, XC, X3, X1, X5, X5, XA), Eight(XC, X2, X8, XC, X9, X6, X0, XD),
                   Twelve(XB, XF, X9, X1, X8, XD, X3, XD, X3, XF, X0, XA), Eight(XB, X2, XE, X8, X8, XD, X3, XC),
                   Twelve(X5, XF, XC, X5, XD, X4, X7, X7, XF, XF, X5, X1), Eight(X4, X3, X4, X2, X3, X2, X3, X4))
    ensures Staged(Eight(XC, X2, X8, XC, X9, X6, X0, XD), Eight(X4, X3, X4, X2, X3, X2, X3, X4),
                   Twelve(XC, XB, X3, XD, X8, XB, X0, XE, X1, X7, XF, X5), Eight(XA, X7, X8, X3, X2, X4, X2, X9),
                   Twelve(XE, XB, X5, X7, X8, XF, X1, X4, X5, X6, X5, XD), Eight(X0, XA, X4, XC, XD, X9, X9, X5))
  {
  }

  lemma MixedRounds0()
    ensures forall i :: 0 <= i < 4 ==> NextHalf(MixedHalves[i], MixedHalves[i + 1], MixedKeys[i]) == MixedHalves[i + 2]
  {
    hide Staged, NextHalf;
    StagedIs();
    MixedStages0();
  }

  lemma MixedRounds1()
    ensures forall i :: 4 <= i < 8 ==> NextHalf(MixedHalves[i], MixedHalves[i + 1], MixedKeys[i]) == MixedHalves[i + 2]
  {
    hide Staged, NextHalf;
    StagedIs();
    MixedStages1();
  }

  lemma MixedRounds2()
    ensures forall i :: 8 <= i < 12 ==> NextHalf(MixedHalves[i], MixedHalves[i + 1], MixedKeys[i]) == MixedHalves[i + 2]
  {
    hide Staged, NextHalf;
    StagedIs();
    MixedStages2();
  }

  lemma MixedRounds3()
    ensures forall i :: 12 <= i < 16 ==> NextHalf(MixedHalves[i], MixedHalves[i + 1], MixedKeys[i]) == MixedHalves[i + 2]
  {
    hide Staged, NextHalf;
    StagedIs();
    MixedStages3();
  }


  // ----- The answers -----

  lemma Spelled(bs: seq<byte>, i: nat, ds: seq<nat>)
    requires i + 4 <= |bs| && |ds| == 8
    requires forall j :: 0 <= j < 4 ==> ds[2 * j + 1] < 16 && bs[i + j] == 16 * ds[2 * j] + ds[2 * j + 1]
    ensures EightOf(bs, i) == Eight(HexOf(ds[0]), HexOf(ds[1]), HexOf(ds[2]), HexOf(ds[3]),
                                    HexOf(ds[4]), HexOf(ds[5]), HexOf(ds[6]), HexOf(ds[7]))
  {
    hide HexOf;
    assert bs[i] == 16 * ds[2 * 0] + ds[2 * 0 + 1] && bs[i + 1] == 16 * ds[2 * 1] + ds[2 * 1 + 1];
    assert bs[i + 2] == 16 * ds[2 * 2] + ds[2 * 2 + 1] && bs[i + 3] == 16 * ds[2 * 3] + ds[2 * 3 + 1];
  }

  lemma ShiftsShort()
    ensures |SHIFTS| == 16 && forall i :: 0 <= i < 16 ==> 1 <= SHIFTS[i] <= 2
  {
  }

  lemma ZeroTurns()
    ensures RotateOne(NoTurn) == NoTurn && Select(NoTurn, NoTurn) == NoKey
  {
  }

  lemma ZeroScheduled()
    ensures Scheduled(seq(17, _ => NoTurn), seq(17, _ => NoTurn), seq(16, _ => NoKey), SHIFTS)
  {
    hide RotateOne, Select;
    ShiftsShort();
    ZeroTurns();
  }

  lemma ZeroTraced()
    ensures Traced(ZeroHalves, seq(16, _ => NoKey))
  {
    hide NextHalf;
    ZeroRounds0(); ZeroRounds1(); ZeroRounds2(); ZeroRounds3();
  }

  lemma MixedScheduled()
    ensures Scheduled(MixedC, MixedD, MixedKeys, SHIFTS)
  {
    hide Turned;
    ShiftsShort();
    MixedTurn0(); MixedTurn1(); MixedTurn2(); MixedTurn3();
  }

  lemma MixedTraced()
    ensures Traced(MixedHalves, MixedKeys)
  {
    hide NextHalf;
    MixedRounds0(); MixedRounds1(); MixedRounds2(); MixedRounds3();
  }

  lemma Zero0()
    ensures SixteenOf([0, 0, 0, 0, 0, 0, 0, 0])
         == Sixteen(Eight(X0, X0, X0, X0, X0, X0, X0, X0), Eight(X0, X0, X0, X0, X0, X0, X0, X0))
  {
    hide HexOf, EightOf;
    HexDigits();
    Spelled([0, 0, 0, 0, 0, 0, 0, 0], 0, [0, 0, 0, 0, 0, 0, 0, 0]);
    Spelled([0, 0, 0, 0, 0, 0, 0, 0], 4, [0, 0, 0, 0, 0, 0, 0, 0]);
  }

  lemma Zero1()
    ensures SixteenOf([0x8C, 0xA6, 0x4D, 0xE9, 0xC1, 0xB1, 0x23, 0xA7])
         == Sixteen(Eight(X8, XC, XA, X6, X4, XD, XE, X9), Eight(XC, X1, XB, X1, X2, X3, XA, X7))
  {
    hide HexOf, EightOf;
    HexDigits();
    Spelled([0x8C, 0xA6, 0x4D, 0xE9, 0xC1, 0xB1, 0x23, 0xA7], 0, [8, 12, 10, 6, 4, 13, 14, 9]);
    Spelled([0x8C, 0xA6, 0x4D, 0xE9, 0xC1, 0xB1, 0x23, 0xA7], 4, [12, 1, 11, 1, 2, 3, 10, 7]);
  }

  lemma ZeroEnds()
    ensures |ZeroHalves| == 18
    ensures ChooseLeft(Eight(X0, X0, X0, X0, X0, X0, X0, X0), Eight(X0, X0, X0, X0, X0, X0, X0, X0)) == NoTurn
    ensures ChooseRight(Eight(X0, X0, X0, X0, X0, X0, X0, X0), Eight(X0, X0, X0, X0, X0, X0, X0, X0)) == NoTurn
    ensures InitialLeft(Eight(X0, X0, X0, X0, X0, X0, X0, X0), Eight(X0, X0, X0, X0, X0, X0, X0, X0)) == ZeroHalves[0]
    ensures InitialRight(Eight(X0, X0, X0, X0, X0, X0, X0, X0), Eight(X0, X0, X0, X0, X0, X0, X0, X0)) == ZeroHalves[1]
    ensures InitialLeft(Eight(X8, XC, XA, X6, X4, XD, XE, X9), Eight(XC, X1, XB, X1, X2, X3, XA, X7)) == ZeroHalves[17]
    ensures InitialRight(Eight(X8, XC, XA, X6, X4, XD, XE, X9), Eight(XC, X1, XB, X1, X2, X3, XA, X7)) == ZeroHalves[16]
  {
  }

  lemma Mixed0()
    ensures SixteenOf([0x13, 0x34, 0x57, 0x79, 0x9B, 0xBC, 0xDF, 0xF1])
         == Sixteen(Eight(X1, X3, X3, X4, X5, X7, X7, X9), Eight(X9, XB, XB, XC, XD, XF, XF, X1))
  {
    hide HexOf, EightOf;
    HexDigits();
    Spelled([0x13, 0x34, 0x57, 0x79, 0x9B, 0xBC, 0xDF, 0xF1], 0, [1, 3, 3, 4, 5, 7, 7, 9]);
    Spelled([0x13, 0x34, 0x57, 0x79, 0x9B, 0xBC, 0xDF, 0xF1], 4, [9, 11, 11, 12, 13, 15, 15, 1]);
  }

  lemma Mixed1()
    ensures SixteenOf([0x01, 0x23, 0x45, 0x67, 0x89, 0xAB, 0xCD, 0xEF])
         == Sixteen(Eight(X0, X1, X2, X3, X4, X5, X6, X7), Eight(X8, X9, XA, XB, XC, XD, XE, XF))
  {
    hide HexOf, EightOf;
    HexDigits();
    Spelled([0x01, 0x23, 0x45, 0x67, 0x89, 0xAB, 0xCD, 0xEF], 0, [0, 1, 2, 3, 4, 5, 6, 7]);
    Spelled([0x01, 0x23, 0x45, 0x67, 0x89, 0xAB, 0xCD, 0xEF], 4, [8, 9, 10, 11, 12, 13, 14, 15]);
  }

  lemma Mixed2()
    ensures SixteenOf([0x85, 0xE8, 0x13, 0x54, 0x0F, 0x0A, 0xB4, 0x05])
         == Sixteen(Eight(X8, X5, XE, X8, X1, X3, X5, X4), Eight(X0, XF, X0, XA, XB, X4, X0, X5))
  {
    hide HexOf, EightOf;
    HexDigits();
    Spelled([0x85, 0xE8, 0x13, 0x54, 0x0F, 0x0A, 0xB4, 0x05], 0, [8, 5, 14, 8, 1, 3, 5, 4]);
    Spelled([0x85, 0xE8, 0x13, 0x54, 0x0F, 0x0A, 0xB4, 0x05], 4, [0, 15, 0, 10, 11, 4, 0, 5]);
  }

  lemma MixedEnds()
    ensures |MixedHalves| == 18
    ensures ChooseLeft(Eight(X1, X3, X3, X4, X5, X7, X7, X9), Eight(X9, XB, XB, XC, XD, XF, XF, X1)) == MixedC[0]
    ensures ChooseRight(Eight(X1, X3, X3, X4, X5, X7, X7, X9), Eight(X9, XB, XB, XC, XD, XF, XF, X1)) == MixedD[0]
    ensures InitialLeft(Eight(X0, X1, X2, X3, X4, X5, X6, X7), Eight(X8, X9, XA, XB, XC, XD, XE, XF)) == MixedHalves[0]
    ensures InitialRight(Eight(X0, X1, X2, X3, X4, X5, X6, X7), Eight(X8, X9, XA, XB, XC, XD, XE, XF)) == MixedHalves[1]
    ensures InitialLeft(Eight(X8, X5, XE, X8, X1, X3, X5, X4), Eight(X0, XF, X0, XA, XB, X4, X0, X5)) == MixedHalves[17]
    ensures InitialRight(Eight(X8, X5, XE, X8, X1, X3, X5, X4), Eight(X0, XF, X0, XA, XB, X4, X0, X5)) == MixedHalves[16]
  {
  }

  lemma ZeroLeads()
    ensures Leads(SixteenOf([0, 0, 0, 0, 0, 0, 0, 0]), SixteenOf([0, 0, 0, 0, 0, 0, 0, 0]),
                  SixteenOf([0x8C, 0xA6, 0x4D, 0xE9, 0xC1, 0xB1, 0x23, 0xA7]),
                  seq(17, _ => NoTurn), seq(17, _ => NoTurn), seq(16, _ => NoKey), ZeroHalves)
  {
    hide Scheduled, Traced, SixteenOf, InitialLeft, InitialRight, ChooseLeft, ChooseRight;
    ZeroScheduled(); ZeroTraced();
    Zero0(); Zero1(); ZeroEnds();
  }

  lemma MixedLeads()
    ensures Leads(SixteenOf([0x13, 0x34, 0x57, 0x79, 0x9B, 0xBC, 0xDF, 0xF1]), SixteenOf([0x01, 0x23, 0x45, 0x67, 0x89, 0xAB, 0xCD, 0xEF]),
                  SixteenOf([0x85, 0xE8, 0x13, 0x54, 0x0F, 0x0A, 0xB4, 0x05]),
                  MixedC, MixedD, MixedKeys, MixedHalves)
  {
    hide Scheduled, Traced, SixteenOf, InitialLeft, InitialRight, ChooseLeft, ChooseRight;
    MixedScheduled(); MixedTraced();
    Mixed0(); Mixed1(); Mixed2(); MixedEnds();
  }

  /** Two published answers: key and block all zero, and the textbook example. */
  lemma KnownAnswers()
    ensures EncryptBytes([0, 0, 0, 0, 0, 0, 0, 0], [0, 0, 0, 0, 0, 0, 0, 0])
         == [0x8C, 0xA6, 0x4D, 0xE9, 0xC1, 0xB1, 0x23, 0xA7]
    ensures EncryptBytes([0x13, 0x34, 0x57, 0x79, 0x9B, 0xBC, 0xDF, 0xF1], [0x01, 0x23, 0x45, 0x67, 0x89, 0xAB, 0xCD, 0xEF])
         == [0x85, 0xE8, 0x13, 0x54, 0x0F, 0x0A, 0xB4, 0x05]
  {
    hide Leads, EncryptBytes, SixteenOf;
    ZeroLeads();
    AnswerIs([0, 0, 0, 0, 0, 0, 0, 0], [0, 0, 0, 0, 0, 0, 0, 0], [0x8C, 0xA6, 0x4D, 0xE9, 0xC1, 0xB1, 0x23, 0xA7],
             seq(17, _ => NoTurn), seq(17, _ => NoTurn), seq(16, _ => NoKey), ZeroHalves);
    MixedLeads();
    AnswerIs([0x13, 0x34, 0x57, 0x79, 0x9B, 0xBC, 0xDF, 0xF1], [0x01, 0x23, 0x45, 0x67, 0x89, 0xAB, 0xCD, 0xEF], [0x85, 0xE8, 0x13, 0x54, 0x0F, 0x0A, 0xB4, 0x05],
             MixedC, MixedD, MixedKeys, MixedHalves);
  }
}
