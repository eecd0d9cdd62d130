/** The VNCAuth response (RFC 6143 section 7.2.2): both halves of the challenge
    under a key made of the password's first eight bytes, each bit-reversed. */
module VncAuth {
  import opened Bits
  import opened Des
  import opened DesKeys
  import opened DesProgram

  /** Code points past Latin-1 become "?". */
  function Latin1(code: nat): byte {
    if code <= 0xff then code else 0x3f
  }

  /** The password byte at `i`, zero past the end of the password. */
  function PasswordByte(password: seq<nat>, i: nat): byte {
    if i < |password| then Latin1(password[i]) else 0
  }

  ghost function Reversed(b: byte): byte {
    NatOfBound(Reverse(WordOf(b, 8)));
    EightBits();
    NatOf(Reverse(WordOf(b, 8)))
  }

  ghost function KeyOf(password: seq<nat>): (key: seq<byte>)
    ensures |key| == 8
  {
    seq(8, i requires 0 <= i < 8 => Reversed(PasswordByte(password, i)))
  }

  ghost function Response(password: seq<nat>, challenge: seq<byte>): (r: seq<byte>)
    requires |challenge| == 16
    ensures |r| == 16
  {
    EncryptBytes(KeyOf(password), challenge[..8]) + EncryptBytes(KeyOf(password), challenge[8..])
  }

  // ----- The program -----

  lemma {:induction false} ReverseAt<T>(s: seq<T>, i: nat)
    requires i < |s|
    ensures Reverse(s)[i] == s[|s| - 1 - i]
  {
    if i < |s| - 1 { ReverseAt(s[1..], i); }
  }

  /** Setting bit `7 - k` of a word whose bits from there down are clear. */
  lemma SetBit(pre: Word, k: nat, b: bool)
    requires k < 8 && |pre| == k
    ensures Or(NatOf(pre + Zeros(8 - k)), Shl(Digit(b), 7 - k)) == NatOf(pre + [b] + Zeros(7 - k))
  {
    var one := Zeros(k) + ([b] + Zeros(7 - k));
    assert NatOf([b]) == Digit(b);
    ShlAgrees([b], 7 - k);
    LeadingZeros(k, [b] + Zeros(7 - k));
    OrAgrees(pre + Zeros(8 - k), one);
    assert OrWords(pre + Zeros(8 - k), one) == pre + [b] + Zeros(7 - k);
  }

  lemma ReverseStep(b: byte, bit: nat, w: Word)
    requires bit < 8 && w == Reverse(WordOf(b, 8))
    ensures Or(NatOf(w[..bit] + Zeros(8 - bit)), Shl(And(Shr(b, bit), 1), 7 - bit)) == NatOf(w[..bit + 1] + Zeros(7 - bit))
  {
    hide Or, And, Shl, Shr, WordOf, NatOf;
    ReverseAt(WordOf(b, 8), bit);
    WordBit(b, 8, 7 - bit);
    AndOne(Shr(b, bit));
    SetBit(w[..bit], bit, w[bit]);
    assert w[..bit] + [w[bit]] == w[..bit + 1];
  }

  lemma ReverseEnds(w: Word)
    requires |w| == 8
    ensures NatOf(w[..0] + Zeros(8)) == 0 && w[..8] + Zeros(0) == w
  {
    LeadingZeros(8, []);
    assert w[..0] + Zeros(8) == Zeros(8) + [];
  }

  method ReverseBits(b: byte) returns (reversed: nat)
    ensures reversed == Reversed(b)
  {
    hide Or, And, Shl, Shr, WordOf, NatOf, Reverse, Zeros;
    reversed := 0;
    ghost var w := Reverse(WordOf(b, 8));
    ReverseEnds(w);
    for bit := 0 to 8
      invariant reversed == NatOf(w[..bit] + Zeros(8 - bit))
    {
      ReverseStep(b, bit, w);
      reversed := Or(reversed, Shl(And(Shr(b, bit), 1), 7 - bit));
    }
  }

  method BuildKey(password: seq<nat>) returns (key: array<byte>)
    ensures key[..] == KeyOf(password)
  {
    key := new byte[8](_ => 0);
    ghost var want := KeyOf(password);
    ReversedZero();
    for index := 0 to if |password| < 8 then |password| else 8
      invariant key.Length == 8
      invariant forall j :: 0 <= j < index ==> key[j] == want[j]
      invariant forall j :: index <= j < 8 ==> key[j] == 0
    {
      var reversed := ReverseBits(Latin1(password[index]));
      key[index] := reversed;
    }
  }

  method VncAuthResponse(password: seq<nat>, challenge: seq<byte>) returns (out: array<byte>)
    requires |challenge| == 16
    ensures out[..] == Response(password, challenge)
  {
    var key := BuildKey(password);
    var first := DesEncryptBlock(key[..], challenge[..8]);
    var second := DesEncryptBlock(key[..], challenge[8..]);
    out := Join(first[..], second[..]);
  }

  method Join(first: seq<byte>, second: seq<byte>) returns (out: array<byte>)
    requires |first| == |second| == 8
    ensures out[..] == first + second
  {
    out := new byte[16];
    forall i | 0 <= i < 8 { out[i] := first[i]; }
    forall i | 0 <= i < 8 { out[8 + i] := second[i]; }
  }

  lemma ReversedZero()
    ensures Reversed(0) == 0
  {
    var w := Reverse(WordOf(0, 8));
    forall i | 0 <= i < 8 ensures !w[i] {
      ReverseAt(WordOf(0, 8), i);
      WordBit(0, 8, 7 - i);
      ShrZero(i);
    }
    assert w == Zeros(8) + [];
    LeadingZeros(8, []);
  }

  lemma {:induction false} ShrZero(k: nat)
    ensures Shr(0, k) == 0
  {
    if k != 0 { ShrZero(k - 1); }
  }

  // ----- What the response depends on -----

  lemma KeyWordAt(password: seq<nat>, i: nat)
    requires i < 8
    ensures WordOfBytes(KeyOf(password))[8 * i..8 * i + 8] == Reverse(WordOf(PasswordByte(password, i), 8))
  {
    WordOfBytesAt(KeyOf(password), i);
    NatWordRoundTrip(Reverse(WordOf(PasswordByte(password, i), 8)));
  }

  lemma LowSevenBits(b: byte)
    ensures b % 128 == NatOf(WordOf(b, 8)[1..])
  {
    EightBits();
    WordNatRoundTrip(b, 8);
    HeadDigit(WordOf(b, 8));
    NatOfBound(WordOf(b, 8)[1..]);
    assert Pow2(7) == 128;
  }

  lemma {:induction false} HeadDigit(w: Word)
    requires w != []
    ensures NatOf(w) == Digit(w[0]) * Pow2(|w| - 1) + NatOf(w[1..])
  {
    if |w| > 1 {
      var v := w[..|w| - 1];
      HeadDigit(v);
      assert w[1..][..|w| - 2] == v[1..];
    }
  }

  ghost predicate SameLowBits(p: seq<nat>, q: seq<nat>) {
    forall i :: 0 <= i < 8 ==> PasswordByte(p, i) % 128 == PasswordByte(q, i) % 128
  }

  lemma SameLowBitsAt(p: seq<nat>, q: seq<nat>, i: nat)
    requires i < 8
    ensures PasswordByte(p, i) % 128 == PasswordByte(q, i) % 128
       <==> WordOf(PasswordByte(p, i), 8)[1..] == WordOf(PasswordByte(q, i), 8)[1..]
  {
    LowSevenBits(PasswordByte(p, i));
    LowSevenBits(PasswordByte(q, i));
    if PasswordByte(p, i) % 128 == PasswordByte(q, i) % 128 {
      NatOfInjective(WordOf(PasswordByte(p, i), 8)[1..], WordOf(PasswordByte(q, i), 8)[1..]);
    }
  }

  /** Key position `8 * i + j` is bit `j` of password byte `i`. */
  lemma KeyBit(password: seq<nat>, i: nat, j: nat)
    requires i < 8 && j < 8
    ensures WordOfBytes(KeyOf(password))[8 * i + j] == WordOf(PasswordByte(password, i), 8)[7 - j]
  {
    KeyWordAt(password, i);
    ReverseAt(WordOf(PasswordByte(password, i), 8), j);
    var key := WordOfBytes(KeyOf(password));
    assert key[8 * i..8 * i + 8][j] == key[8 * i + j];
  }

  lemma LowBitsAreKeyBits(p: seq<nat>, q: seq<nat>)
    ensures SameLowBits(p, q) <==> SameUpToParity(WordOfBytes(KeyOf(p)), WordOfBytes(KeyOf(q)))
  {
    var k, k' := WordOfBytes(KeyOf(p)), WordOfBytes(KeyOf(q));
    if SameLowBits(p, q) {
      forall n | 0 <= n < 64 && n % 8 != 7 ensures k[n] == k'[n] {
        var i, j := n / 8, n % 8;
        KeyBit(p, i, j);
        KeyBit(q, i, j);
        SameLowBitsAt(p, q, i);
        assert WordOf(PasswordByte(p, i), 8)[1..][6 - j] == WordOf(PasswordByte(p, i), 8)[7 - j];
      }
    }
    if SameUpToParity(k, k') {
      forall i | 0 <= i < 8 ensures PasswordByte(p, i) % 128 == PasswordByte(q, i) % 128 {
        forall m | 0 <= m < 7
          ensures WordOf(PasswordByte(p, i), 8)[1..][m] == WordOf(PasswordByte(q, i), 8)[1..][m]
        {
          KeyBit(p, i, 6 - m);
          KeyBit(q, i, 6 - m);
        }
        SameLowBitsAt(p, q, i);
      }
    }
  }

  /** Two passwords run the cipher with the same subkeys exactly when their first
      eight (zero-padded) bytes agree on the low seven bits. */
  lemma SubkeysFromLowBits(p: seq<nat>, q: seq<nat>)
    ensures KeySchedule(WordOfBytes(KeyOf(p))) == KeySchedule(WordOfBytes(KeyOf(q))) <==> SameLowBits(p, q)
  {
    LowBitsAreKeyBits(p, q);
    SubkeysSeeAllButParity(WordOfBytes(KeyOf(p)), WordOfBytes(KeyOf(q)));
  }

  /** No response depends on bit 7 of a password byte or on anything past the eighth. */
  lemma ResponseIgnoresTopBits(p: seq<nat>, q: seq<nat>, challenge: seq<byte>)
    requires |challenge| == 16 && SameLowBits(p, q)
    ensures Response(p, challenge) == Response(q, challenge)
  {
    SubkeysFromLowBits(p, q);
  }

  // ----- The cipher's laws, on the bytes the program handles -----

  function Complement(bs: seq<byte>): (r: seq<byte>)
    ensures |r| == |bs|
  {
    seq(|bs|, i requires 0 <= i < |bs| => 255 - bs[i])
  }

  lemma {:induction false} ComplementDigits(n: nat, width: nat)
    requires n < Pow2(width)
    ensures WordOf(Pow2(width) - 1 - n, width) == NotWord(WordOf(n, width))
  {
    if width != 0 {
      var m := Pow2(width) - 1 - n;
      assert m / 2 == Pow2(width - 1) - 1 - n / 2 && (m % 2 == 1) == !(n % 2 == 1);
      ComplementDigits(n / 2, width - 1);
      NotConcat(WordOf(n / 2, width - 1), [n % 2 == 1]);
    }
  }

  lemma NotNothing()
    ensures NotWord([]) == []
  {
  }

  lemma {:induction false} ComplementAgrees(bs: seq<byte>)
    ensures WordOfBytes(Complement(bs)) == NotWord(WordOfBytes(bs))
  {
    hide WordOf, NotWord, Pow2;
    if bs == [] {
      NotNothing();
    } else {
      var init, last := bs[..|bs| - 1], bs[|bs| - 1];
      ComplementAgrees(init);
      EightBits();
      ComplementDigits(last, 8);
      assert Complement(bs)[..|bs| - 1] == Complement(init);
      NotConcat(WordOfBytes(init), WordOf(last, 8));
    }
  }

  lemma ComplementationOfBytes(key: seq<byte>, block: seq<byte>)
    requires |key| == |block| == 8
    ensures EncryptBytes(Complement(key), Complement(block)) == Complement(EncryptBytes(key, block))
  {
    ComplementAgrees(key);
    ComplementAgrees(block);
    Complementation(WordOfBytes(key), WordOfBytes(block));
    var out := Encrypt(WordOfBytes(key), WordOfBytes(block));
    WordRoundTrip(out);
    ComplementAgrees(BytesOfWord(out));
    BytesRoundTrip(Complement(BytesOfWord(out)));
  }

  ghost function DecryptBytes(key: seq<byte>, block: seq<byte>): (r: seq<byte>)
    requires |key| == |block| == 8
    ensures |r| == 8
  {
    BytesOfWord(Decrypt(WordOfBytes(key), WordOfBytes(block)))
  }

  /** For each key the block program is one-to-one and onto. */
  lemma EncryptBytesIsBijective(key: seq<byte>, block: seq<byte>)
    requires |key| == |block| == 8
    ensures DecryptBytes(key, EncryptBytes(key, block)) == block
    ensures EncryptBytes(key, DecryptBytes(key, block)) == block
  {
    var k, b := WordOfBytes(key), WordOfBytes(block);
    EncryptionIsBijective(k, b);
    WordRoundTrip(Encrypt(k, b));
    WordRoundTrip(Decrypt(k, b));
    BytesRoundTrip(block);
  }
}
