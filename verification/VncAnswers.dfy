/** Known responses of VNCAuth, and which part of a password counts. */
module VncAnswers {
  import opened Bits
  import opened Des
  import opened DesHex
  import opened DesProgram
  import opened DesVectors
  import opened VncAuth

  /** Only the first eight code points count, those past Latin-1 as a question mark, and a shorter
      password as if it went on in zeros. */
  lemma PasswordMeans(p: seq<nat>, q: seq<nat>, challenge: seq<byte>)
    requires |challenge| == 16
    requires forall i :: 0 <= i < 8 ==>
               (if i < |p| then if p[i] > 255 then 63 else p[i] else 0) == (if i < |q| then if q[i] > 255 then 63 else q[i] else 0)
    ensures Response(p, challenge) == Response(q, challenge)
  {
    forall i | 0 <= i < 8 ensures PasswordByte(p, i) == PasswordByte(q, i) {
    }
    assert KeyOf(p) == KeyOf(q);
  }

  function Digits(v: nat): (w: Word)
    ensures |w| == 8
  {
    var (h, l) := (HexOf(v / 16), HexOf(v % 16));
    [h.a, h.b, h.c, h.d, l.a, l.b, l.c, l.d]
  }

  lemma DigitsSpell(v: nat)
    ensures WordOf(v, 8) == Digits(v)
  {
    hide WordOf, HexOf;
    ByteDigits(v);
  }

  lemma ReversedIs(b: byte, r: byte)
    requires forall j :: 0 <= j < 8 ==> Digits(r)[j] == Digits(b)[7 - j]
    ensures Reversed(b) == r
  {
    hide WordOf, Digits, Reverse;
    DigitsSpell(b);
    DigitsSpell(r);
    var w := Reverse(WordOf(b, 8));
    forall j | 0 <= j < 8 ensures w[j] == Digits(r)[j] {
      ReverseAt(WordOf(b, 8), j);
      assert Digits(r)[j] == Digits(b)[7 - j];
    }
    assert w == Digits(r);
    EightBits();
    WordNatRoundTrip(r, 8);
  }

  lemma ReversedBytes()
    ensures Reversed(0) == 0
    ensures Reversed(0xC8) == 0x13 && Reversed(0x2C) == 0x34 && Reversed(0xEA) == 0x57 && Reversed(0x9E) == 0x79
    ensures Reversed(0xD9) == 0x9B && Reversed(0x3D) == 0xBC && Reversed(0xFB) == 0xDF && Reversed(0x8F) == 0xF1
  {
    hide Reversed, HexOf;
    HexDigits();
    ReversedIs(0, 0);
    ReversedIs(0xC8, 0x13); ReversedIs(0x2C, 0x34); ReversedIs(0xEA, 0x57); ReversedIs(0x9E, 0x79);
    ReversedIs(0xD9, 0x9B); ReversedIs(0x3D, 0xBC); ReversedIs(0xFB, 0xDF); ReversedIs(0x8F, 0xF1);
  }

  /** An empty password and a zero challenge. */
  lemma EmptyPasswordAnswer(challenge: seq<byte>)
    requires |challenge| == 16 && forall i :: 0 <= i < 16 ==> challenge[i] == 0
    ensures Response([], challenge)
         == [0x8C, 0xA6, 0x4D, 0xE9, 0xC1, 0xB1, 0x23, 0xA7, 0x8C, 0xA6, 0x4D, 0xE9, 0xC1, 0xB1, 0x23, 0xA7]
  {
    hide Reversed, EncryptBytes;
    ReversedBytes();
    KnownAnswers();
    assert KeyOf([]) == [0, 0, 0, 0, 0, 0, 0, 0];
    assert challenge[..8] == [0, 0, 0, 0, 0, 0, 0, 0] && challenge[8..] == [0, 0, 0, 0, 0, 0, 0, 0];
  }

  /** The password whose bytes are, bit-reversed, the textbook key: each half is answered by itself. */
  lemma TextbookAnswer(challenge: seq<byte>)
    requires |challenge| == 16 && challenge[..8] == [0x01, 0x23, 0x45, 0x67, 0x89, 0xAB, 0xCD, 0xEF]
    ensures Response([0xC8, 0x2C, 0xEA, 0x9E, 0xD9, 0x3D, 0xFB, 0x8F], challenge)[..8]
         == [0x85, 0xE8, 0x13, 0x54, 0x0F, 0x0A, 0xB4, 0x05]
  {
    hide Reversed, EncryptBytes;
    ReversedBytes();
    KnownAnswers();
    assert KeyOf([0xC8, 0x2C, 0xEA, 0x9E, 0xD9, 0x3D, 0xFB, 0x8F]) == [0x13, 0x34, 0x57, 0x79, 0x9B, 0xBC, 0xDF, 0xF1];
  }
}
