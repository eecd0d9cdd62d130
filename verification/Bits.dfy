/** Non-negative big integers and their bits, most significant bit first. */
module Bits {
  type Word = seq<bool>

  function Pow2(n: nat): (r: nat)
    ensures r > 0
  {
    if n == 0 then 1 else 2 * Pow2(n - 1)
  }

  function Digit(b: bool): nat {
    if b then 1 else 0
  }

  /** The number a word spells. */
  function NatOf(w: Word): nat {
    if w == [] then 0 else 2 * NatOf(w[..|w| - 1]) + Digit(w[|w| - 1])
  }

  /** The low `width` bits of `n`. */
  function WordOf(n: nat, width: nat): (w: Word)
    ensures |w| == width
  {
    if width == 0 then [] else WordOf(n / 2, width - 1) + [n % 2 == 1]
  }

  // ----- The operators the program applies to big integers -----

  function Shl(n: nat, k: nat): nat {
    if k == 0 then n else 2 * Shl(n, k - 1)
  }

  function Shr(n: nat, k: nat): nat {
    if k == 0 then n else Shr(n / 2, k - 1)
  }

  function Xor(a: nat, b: nat): nat
    decreases a + b
  {
    if a == 0 && b == 0 then 0 else 2 * Xor(a / 2, b / 2) + Digit((a % 2 == 1) != (b % 2 == 1))
  }

  function Or(a: nat, b: nat): nat
    decreases a + b
  {
    if a == 0 && b == 0 then 0 else 2 * Or(a / 2, b / 2) + Digit(a % 2 == 1 || b % 2 == 1)
  }

  function And(a: nat, b: nat): nat
    decreases a + b
  {
    if a == 0 && b == 0 then 0 else 2 * And(a / 2, b / 2) + Digit(a % 2 == 1 && b % 2 == 1)
  }

  // ----- The same operators on words -----


  function XorWords(a: Word, b: Word): (r: Word)
    requires |a| == |b|
    ensures |r| == |a|
  {
    seq(|a|, i requires 0 <= i < |a| => a[i] != b[i])
  }

  function OrWords(a: Word, b: Word): (r: Word)
    requires |a| == |b|
    ensures |r| == |a|
  {
    seq(|a|, i requires 0 <= i < |a| => a[i] || b[i])
  }

  function AndWords(a: Word, b: Word): (r: Word)
    requires |a| == |b|
    ensures |r| == |a|
  {
    seq(|a|, i requires 0 <= i < |a| => a[i] && b[i])
  }

  function NotWord(a: Word): (r: Word)
    ensures |r| == |a|
  {
    seq(|a|, i requires 0 <= i < |a| => !a[i])
  }

  function Zeros(n: nat): (r: Word)
    ensures |r| == n
  {
    seq(n, _ => false)
  }

  // ----- Agreement of the two views -----

  lemma {:induction false} NatWordRoundTrip(w: Word)
    ensures WordOf(NatOf(w), |w|) == w
  {
    if w != [] { NatWordRoundTrip(w[..|w| - 1]); }
  }

  lemma {:induction false} WordNatRoundTrip(n: nat, width: nat)
    requires n < Pow2(width)
    ensures NatOf(WordOf(n, width)) == n
  {
    if width != 0 {
      WordNatRoundTrip(n / 2, width - 1);
      assert WordOf(n, width)[..width - 1] == WordOf(n / 2, width - 1);
    }
  }

  lemma {:induction false} NatOfBound(w: Word)
    ensures NatOf(w) < Pow2(|w|)
  {
    if w != [] { NatOfBound(w[..|w| - 1]); }
  }

  lemma {:induction false} WordBit(n: nat, width: nat, j: nat)
    requires j < width
    ensures WordOf(n, width)[j] == (Shr(n, width - 1 - j) % 2 == 1)
  {
    if j < width - 1 { WordBit(n / 2, width - 1, j); }
  }

  lemma {:induction false} XorAgrees(a: Word, b: Word)
    requires |a| == |b|
    ensures Xor(NatOf(a), NatOf(b)) == NatOf(XorWords(a, b))
  {
    if a != [] {
      var a', b' := a[..|a| - 1], b[..|b| - 1];
      XorAgrees(a', b');
      assert XorWords(a, b)[..|a| - 1] == XorWords(a', b');
    }
  }

  lemma {:induction false} OrAgrees(a: Word, b: Word)
    requires |a| == |b|
    ensures Or(NatOf(a), NatOf(b)) == NatOf(OrWords(a, b))
  {
    if a != [] {
      var a', b' := a[..|a| - 1], b[..|b| - 1];
      OrAgrees(a', b');
      assert OrWords(a, b)[..|a| - 1] == OrWords(a', b');
    }
  }

  lemma {:induction false} AndAgrees(a: Word, b: Word)
    requires |a| == |b|
    ensures And(NatOf(a), NatOf(b)) == NatOf(AndWords(a, b))
  {
    if a != [] {
      var a', b' := a[..|a| - 1], b[..|b| - 1];
      AndAgrees(a', b');
      assert AndWords(a, b)[..|a| - 1] == AndWords(a', b');
    }
  }

  lemma {:induction false} ShlAgrees(w: Word, k: nat)
    ensures Shl(NatOf(w), k) == NatOf(w + Zeros(k))
  {
    if k == 0 {
      assert w + Zeros(0) == w;
    } else {
      ShlAgrees(w, k - 1);
      assert (w + Zeros(k))[..|w| + k - 1] == w + Zeros(k - 1);
    }
  }

  lemma {:induction false} ShrAgrees(w: Word, k: nat)
    requires k <= |w|
    ensures Shr(NatOf(w), k) == NatOf(w[..|w| - k])
  {
    if k == 0 {
      assert w[..|w|] == w;
    } else {
      var w' := w[..|w| - 1];
      ShrAgrees(w', k - 1);
      assert w'[..|w'| - (k - 1)] == w[..|w| - k];
    }
  }

  lemma {:induction false} LeadingZeros(k: nat, w: Word)
    ensures NatOf(Zeros(k) + w) == NatOf(w)
  {
    if w == [] {
      assert Zeros(k) + w == Zeros(k);
      if k != 0 {
        LeadingZeros(k - 1, w);
        assert Zeros(k)[..k - 1] == Zeros(k - 1) == Zeros(k - 1) + w;
      }
    } else {
      LeadingZeros(k, w[..|w| - 1]);
      assert (Zeros(k) + w)[..k + |w| - 1] == Zeros(k) + w[..|w| - 1];
    }
  }

  /** Concatenation is shift and or. */
  lemma ConcatAgrees(a: Word, b: Word)
    ensures Or(Shl(NatOf(a), |b|), NatOf(b)) == NatOf(a + b)
  {
    ShlAgrees(a, |b|);
    LeadingZeros(|a|, b);
    OrAgrees(a + Zeros(|b|), Zeros(|a|) + b);
    assert OrWords(a + Zeros(|b|), Zeros(|a|) + b) == a + b;
  }

  function Ones(n: nat): (r: Word)
    ensures |r| == n
  {
    seq(n, _ => true)
  }

  /** A mask of `k` ones keeps the last `k` bits. */
  lemma MaskAgrees(w: Word, k: nat)
    requires k <= |w|
    ensures And(NatOf(w), Pow2(k) - 1) == NatOf(w[|w| - k..])
  {
    var mask := Zeros(|w| - k) + Ones(k);
    OnesMask(k);
    LeadingZeros(|w| - k, Ones(k));
    AndAgrees(w, mask);
    MaskedWord(w, k);
    LeadingZeros(|w| - k, w[|w| - k..]);
  }

  lemma MaskedWord(w: Word, k: nat)
    requires k <= |w|
    ensures AndWords(w, Zeros(|w| - k) + Ones(k)) == Zeros(|w| - k) + w[|w| - k..]
  {
  }

  lemma {:induction false} OnesMask(k: nat)
    ensures NatOf(Ones(k)) == Pow2(k) - 1
  {
    if k != 0 {
      OnesMask(k - 1);
      assert Ones(k)[..k - 1] == Ones(k - 1);
    }
  }

  lemma NatOfInjective(a: Word, b: Word)
    requires |a| == |b| && NatOf(a) == NatOf(b)
    ensures a == b
  {
    NatWordRoundTrip(a);
    NatWordRoundTrip(b);
  }
}
