/** The big-integer program: shifts, masks and table loops over byte arrays,
    each loop proved to compute the cipher's meaning in module Des. */
module DesProgram {
  import opened Bits
  import opened DesTables
  import opened Des

  type byte = n: nat | n < 256

  // ----- Bytes as words -----

  function WordOfBytes(bs: seq<byte>): (w: Word)
    ensures |w| == 8 * |bs|
  {
    if bs == [] then [] else WordOfBytes(bs[..|bs| - 1]) + WordOf(bs[|bs| - 1], 8)
  }

  function BytesOfWord(w: Word): (bs: seq<byte>)
    requires |w| % 8 == 0
    ensures |bs| == |w| / 8
  {
    seq(|w| / 8, i requires 0 <= i < |w| / 8 => ByteAt(w, i))
  }

  function ByteAt(w: Word, i: nat): byte
    requires 8 * i + 8 <= |w|
  {
    NatOfBound(w[8 * i..8 * i + 8]);
    EightBits();
    NatOf(w[8 * i..8 * i + 8])
  }

  lemma EightBits()
    ensures Pow2(8) == 256
  {
    assert Pow2(4) == 16;
  }

  lemma {:induction false} WordOfBytesAt(bs: seq<byte>, i: nat)
    requires i < |bs|
    ensures WordOfBytes(bs)[8 * i..8 * i + 8] == WordOf(bs[i], 8)
  {
    var before, last := WordOfBytes(bs[..|bs| - 1]), WordOf(bs[|bs| - 1], 8);
    assert WordOfBytes(bs) == before + last;
    if i < |bs| - 1 {
      WordOfBytesAt(bs[..|bs| - 1], i);
      assert WordOfBytes(bs)[8 * i..8 * i + 8] == before[8 * i..8 * i + 8];
    } else {
      assert WordOfBytes(bs)[8 * i..8 * i + 8] == last;
    }
  }

  lemma BytesRoundTrip(bs: seq<byte>)
    ensures BytesOfWord(WordOfBytes(bs)) == bs
  {
    EightBits();
    forall i | 0 <= i < |bs| ensures BytesOfWord(WordOfBytes(bs))[i] == bs[i] {
      WordOfBytesAt(bs, i);
      WordNatRoundTrip(bs[i], 8);
    }
  }

  lemma ChunksDecide(a: Word, b: Word)
    requires |a| == |b| && |a| % 8 == 0
    requires forall i :: 0 <= i < |a| / 8 ==> a[8 * i..8 * i + 8] == b[8 * i..8 * i + 8]
    ensures a == b
  {
    forall j | 0 <= j < |a| ensures a[j] == b[j] {
      var i := j / 8;
      assert a[8 * i..8 * i + 8][j - 8 * i] == b[8 * i..8 * i + 8][j - 8 * i];
    }
  }

  lemma WordRoundTrip(w: Word)
    requires |w| % 8 == 0
    ensures WordOfBytes(BytesOfWord(w)) == w
  {
    var bs := BytesOfWord(w);
    forall i | 0 <= i < |bs| ensures WordOfBytes(bs)[8 * i..8 * i + 8] == w[8 * i..8 * i + 8] {
      WordOfBytesAt(bs, i);
      NatWordRoundTrip(w[8 * i..8 * i + 8]);
    }
    ChunksDecide(WordOfBytes(bs), w);
  }

  // ----- permute, toBigInt -----

  lemma AndOne(n: nat)
    ensures And(n, 1) == n % 2
  {
    assert And(n / 2, 0) == 0 by { AndZero(n / 2); }
  }

  lemma {:induction false} AndZero(n: nat)
    ensures And(n, 0) == 0
  {
    if n != 0 { AndZero(n / 2); }
  }

  /** Pushing one more bit below the number a word spells. */
  lemma PushBit(w: Word, n: nat)
    ensures Or(Shl(NatOf(w), 1), And(n, 1)) == NatOf(w + [n % 2 == 1])
  {
    AndOne(n);
    assert NatOf([n % 2 == 1]) == n % 2;
    ConcatAgrees(w, [n % 2 == 1]);
  }

  method Permute(value: nat, table: seq<nat>, width: nat) returns (out: nat)
    requires Selects(table, width)
    ensures out == NatOf(PermuteWord(WordOf(value, width), table))
  {
    out := 0;
    ghost var done: Word := PermuteWord(WordOf(value, width), table);
    for i := 0 to |table|
      invariant out == NatOf(done[..i])
    {
      WordBit(value, width, table[i] - 1);
      PushBit(done[..i], Shr(value, width - table[i]));
      out := Or(Shl(out, 1), And(Shr(value, width - table[i]), 1));
      assert done[..i + 1] == done[..i] + [done[i]];
    }
    assert done[..|table|] == done;
  }

  method ToBigInt(bytes: seq<byte>) returns (value: nat)
    ensures value == NatOf(WordOfBytes(bytes))
  {
    value := 0;
    EightBits();
    for i := 0 to |bytes|
      invariant value == NatOf(WordOfBytes(bytes[..i]))
    {
      WordNatRoundTrip(bytes[i], 8);
      ConcatAgrees(WordOfBytes(bytes[..i]), WordOf(bytes[i], 8));
      value := Or(Shl(value, 8), bytes[i]);
      assert bytes[..i + 1][..i] == bytes[..i];
    }
    assert bytes[..|bytes|] == bytes;
  }

  // ----- subkeys -----

  const REGISTER_MASK: nat := 0xfffffff

  lemma RegisterMask()
    ensures REGISTER_MASK == Pow2(28) - 1
  {
    assert Pow2(7) == 128;
    assert Pow2(14) == 128 * 128;
    assert Pow2(21) == 128 * 128 * 128;
  }

  lemma RotateAgrees(w: Register, s: nat)
    requires s <= 28
    ensures And(Or(Shl(NatOf(w), s), Shr(NatOf(w), 28 - s)), REGISTER_MASK) == NatOf(RotateLeft(w, s))
  {
    ShrAgrees(w, 28 - s);
    ConcatAgrees(w, w[..s]);
    RegisterMask();
    MaskAgrees(w + w[..s], 28);
    assert (w + w[..s])[s..] == RotateLeft(w, s);
  }

  ghost predicate Spells(ns: seq<nat>, ks: seq<Subkey>) {
    |ns| == |ks| && forall i :: 0 <= i < |ns| ==> ns[i] == NatOf(ks[i])
  }

  lemma RegistersAgree(w: Word)
    requires |w| == 56
    ensures Shr(NatOf(w), 28) == NatOf(w[..28])
    ensures And(NatOf(w), REGISTER_MASK) == NatOf(w[28..])
  {
    ShrAgrees(w, 28);
    RegisterMask();
    MaskAgrees(w, 28);
  }

  lemma JoinedRegisters(c: Register, d: Register)
    ensures WordOf(Or(Shl(NatOf(c), 28), NatOf(d)), 56) == c + d
  {
    ConcatAgrees(c, d);
    NatWordRoundTrip(c + d);
  }

  /** The rotation loop, for any list of shifts. */
  method RotateAndSelect(k: nat, shifts: seq<nat>, ghost chosen: Word) returns (ks: seq<nat>)
    requires |chosen| == 56 && k == NatOf(chosen) && Rotations(shifts)
    ensures Spells(ks, SubkeysOf(chosen, shifts))
  {
    hide PermuteWord, RotateLeft, Or, Shl, And, Shr, NatOf;
    PC2Selects();
    RegistersAgree(chosen);
    ghost var cw: Register, dw: Register := chosen[..28], chosen[28..];
    var c, d := Shr(k, 28), And(k, REGISTER_MASK);
    ks := [];
    ghost var all := SubkeysOf(chosen, shifts);
    for i := 0 to |shifts|
      invariant c == NatOf(cw) && d == NatOf(dw)
      invariant all[i..] == Schedule(cw, dw, shifts[i..])
      invariant Spells(ks, all[..i])
    {
      ScheduleStep(cw, dw, shifts, i, all);
      RotateAgrees(cw, shifts[i]);
      RotateAgrees(dw, shifts[i]);
      cw, dw := RotateLeft(cw, shifts[i]), RotateLeft(dw, shifts[i]);
      c := And(Or(Shl(c, shifts[i]), Shr(c, 28 - shifts[i])), REGISTER_MASK);
      d := And(Or(Shl(d, shifts[i]), Shr(d, 28 - shifts[i])), REGISTER_MASK);
      JoinedRegisters(cw, dw);
      var sub := Permute(Or(Shl(c, 28), d), PC2, 56);
      ks := ks + [sub];
    }
    assert all[..|shifts|] == all;
  }

  method Subkeys(key: seq<byte>) returns (ks: seq<nat>)
    requires |key| == 8
    ensures Spells(ks, KeySchedule(WordOfBytes(key)))
  {
    PC1Selects(); ShiftsSmall();
    var n := ToBigInt(key);
    NatWordRoundTrip(WordOfBytes(key));
    var k := Permute(n, PC1, 64);
    ks := RotateAndSelect(k, SHIFTS, Choose(WordOfBytes(key)));
  }

  lemma ScheduleStep(c: Register, d: Register, shifts: seq<nat>, i: nat, all: seq<Subkey>)
    requires i < |shifts| && Rotations(shifts) && |all| == |shifts| && Selects(PC2, 56)
    requires all[i..] == Schedule(c, d, shifts[i..])
    ensures shifts[i] <= 28
    ensures all[i] == PermuteWord(RotateLeft(c, shifts[i]) + RotateLeft(d, shifts[i]), PC2)
    ensures all[i + 1..] == Schedule(RotateLeft(c, shifts[i]), RotateLeft(d, shifts[i]), shifts[i + 1..])
  {
    var rest := shifts[i..];
    assert rest[0] == shifts[i] && rest[1..] == shifts[i + 1..];
    assert all[i..][0] == all[i] && all[i..][1..] == all[i + 1..];
  }

  // ----- desEncryptBlock -----

  lemma TwoDigits(c: Word)
    requires |c| == 2
    ensures NatOf(c) == 2 * Digit(c[0]) + Digit(c[1])
  {
    assert c[..1] == [c[0]] && NatOf([c[0]]) == Digit(c[0]);
  }

  lemma FourDigits(c: Word)
    requires |c| == 4
    ensures NatOf(c) == 8 * Digit(c[0]) + 4 * Digit(c[1]) + 2 * Digit(c[2]) + Digit(c[3])
  {
    TwoDigits(c[..2]);
    assert c[..3][..2] == c[..2];
    assert NatOf(c[..3]) == 2 * NatOf(c[..2]) + Digit(c[2]);
  }

  lemma SixDigits(c: Word)
    requires |c| == 6
    ensures NatOf(c) == 2 * NatOf(c[..5]) + Digit(c[5])
    ensures NatOf(c[..2]) == 2 * Digit(c[0]) + Digit(c[1])
  {
    TwoDigits(c[..2]);
  }

  lemma AndTwo(n: nat)
    requires n < 4
    ensures And(n, 2) == n / 2 * 2
  {
    AndOne(n / 2);
  }

  lemma FourBits()
    ensures Pow2(4) == 16 && 0x3f == Pow2(6) - 1 && 0xf == Pow2(4) - 1
  {
    assert Pow2(6) == 4 * Pow2(4);
  }

  lemma RowAgrees(c: Word, chunk: nat)
    requires |c| == 6 && chunk == NatOf(c)
    ensures Or(And(Shr(chunk, 4), 2), And(chunk, 1)) == 2 * Digit(c[0]) + Digit(c[5])
  {
    SixDigits(c);
    ShrAgrees(c, 4);
    AndTwo(NatOf(c[..2]));
    AndOne(chunk);
    OrDigits(c[0], c[5]);
  }

  lemma OrDigits(a: bool, b: bool)
    ensures Or(2 * Digit(a), Digit(b)) == 2 * Digit(a) + Digit(b)
  {
    assert Or(Digit(a), 0) == Digit(a);
  }

  lemma ColumnAgrees(c: Word, chunk: nat)
    requires |c| == 6 && chunk == NatOf(c)
    ensures And(Shr(chunk, 1), 0xf) == 8 * Digit(c[1]) + 4 * Digit(c[2]) + 2 * Digit(c[3]) + Digit(c[4])
  {
    ShrAgrees(c, 1);
    FourBits();
    MaskAgrees(c[..5], 4);
    assert c[..5][1..] == c[1..5];
    FourDigits(c[1..5]);
  }

  /** The six-bit chunk `index` of a 48-bit number. */
  lemma ChunkAgrees(x: Subkey, index: nat)
    requires index < 8
    ensures And(Shr(NatOf(x), 42 - 6 * index), 0x3f) == NatOf(x[6 * index..6 * index + 6])
  {
    var pre := x[..6 * index + 6];
    ShrAgrees(x, 42 - 6 * index);
    FourBits();
    MaskAgrees(pre, 6);
    assert pre[6 * index..] == x[6 * index..6 * index + 6];
  }

  lemma BoxStep(x: Subkey, index: nat, v: nat)
    requires index < 8 && v == BoxEntry(index, BoxIndex(x[6 * index..6 * index + 6]))
    ensures Or(Shl(NatOf(Substitute(x, index)), 4), v) == NatOf(Substitute(x, index + 1))
  {
    FourBits();
    WordNatRoundTrip(v, 4);
    ConcatAgrees(Substitute(x, index), WordOf(v, 4));
  }

  /** The inner loop over the eight boxes. */
  method ApplyBoxes(mixed: nat, ghost x: Subkey) returns (sboxed: nat)
    requires mixed == NatOf(x)
    ensures sboxed == NatOf(Substitute(x, 8))
  {
    sboxed := 0;
    for index := 0 to 8
      invariant sboxed == NatOf(Substitute(x, index))
    {
      var chunk := And(Shr(mixed, 42 - 6 * index), 0x3f);
      ChunkAgrees(x, index);
      ghost var c := x[6 * index..6 * index + 6];
      var row := Or(And(Shr(chunk, 4), 2), And(chunk, 1));
      var column := And(Shr(chunk, 1), 0xf);
      RowAgrees(c, chunk);
      ColumnAgrees(c, chunk);
      assert row * 16 + column == BoxIndex(c);
      BoxStep(x, index, BoxEntry(index, row * 16 + column));
      sboxed := Or(Shl(sboxed, 4), BoxEntry(index, row * 16 + column));
    }
  }

  method MixRight(right: nat, subkey: nat, ghost r: Half, ghost k: Subkey) returns (mixed: nat)
    requires right == NatOf(r) && subkey == NatOf(k)
    ensures mixed == NatOf(Mix(r, k))
  {
    ESelects(); PSelects();
    NatWordRoundTrip(r);
    var e := Permute(right, E, 32);
    ghost var x: Subkey := XorWords(PermuteWord(r, E), k);
    XorAgrees(PermuteWord(r, E), k);
    var sboxed := ApplyBoxes(Xor(e, subkey), x);
    NatWordRoundTrip(Substitute(x, 8));
    mixed := Permute(sboxed, P, 32);
  }

  ghost function EncryptBytes(key: seq<byte>, block: seq<byte>): (r: seq<byte>)
    requires |key| == |block| == 8
    ensures |r| == 8
  {
    BytesOfWord(Encrypt(WordOfBytes(key), WordOfBytes(block)))
  }

  const HALF_MASK: nat := 0xffffffff

  lemma HalfMask()
    ensures HALF_MASK == Pow2(32) - 1
  {
    assert Pow2(8) == 256;
    assert Pow2(16) == 256 * 256;
    assert Pow2(24) == 256 * 256 * 256;
  }

  lemma HalvesAgree(v: Block)
    ensures Shr(NatOf(v), 32) == NatOf(Cut(v).left) && And(NatOf(v), HALF_MASK) == NatOf(Cut(v).right)
  {
    ShrAgrees(v, 32);
    HalfMask();
    MaskAgrees(v, 32);
  }

  method DesEncryptBlock(key: seq<byte>, block: seq<byte>) returns (bytes: array<byte>)
    requires |key| == |block| == 8
    ensures bytes[..] == EncryptBytes(key, block)
  {
    hide PermuteWord, KeySchedule, WordOfBytes, Or, Shl, And, Shr, Xor, NatOf, Mix, WordOf, Pow2;
    IPSelects(); FPSelects();
    ghost var bw: Block, ks := WordOfBytes(block), KeySchedule(WordOfBytes(key));
    var n := ToBigInt(block);
    NatWordRoundTrip(bw);
    var value := Permute(n, IP, 64);
    HalvesAgree(Initial(bw));
    var left, right := Shr(value, 32), And(value, HALF_MASK);
    var subkeys := Subkeys(key);
    ghost var h := Cut(Initial(bw));
    for i := 0 to |subkeys|
      invariant left == NatOf(h.left) && right == NatOf(h.right)
      invariant Rounds(h, ks[i..]) == Rounds(Cut(Initial(bw)), ks)
    {
      var mixed := MixRight(right, subkeys[i], h.right, ks[i]);
      XorAgrees(h.left, Mix(h.right, ks[i]));
      left, right := right, Xor(left, mixed);
      assert ks[i..][0] == ks[i] && ks[i..][1..] == ks[i + 1..];
      h := Round(h, ks[i]);
    }
    ghost var g := Glue(Swap(h));
    ConcatAgrees(h.right, h.left);
    NatWordRoundTrip(g);
    var out := Permute(Or(Shl(right, 32), left), FP, 64);
    bytes := WriteBytes(out, Final(g));
  }

  /** Peels bytes off the low end into a buffer, last byte first. */
  method WriteBytes(number: nat, ghost w: Block) returns (bytes: array<byte>)
    requires number == NatOf(w)
    ensures bytes[..] == BytesOfWord(w)
  {
    bytes := new byte[8];
    ghost var want := BytesOfWord(w);
    assert w[..64] == w;
    var out, i := number, 8;
    while i > 0
      invariant 0 <= i <= 8 && bytes.Length == 8
      invariant out == NatOf(w[..8 * i])
      invariant bytes[i..] == want[i..]
    {
      i := i - 1;
      LastByte(w, i);
      bytes[i] := And(out, 0xff);
      out := Shr(out, 8);
      assert bytes[i..] == [want[i]] + bytes[i + 1..];
    }
  }

  lemma LastByte(w: Block, i: nat)
    requires i < 8
    ensures And(NatOf(w[..8 * i + 8]), 0xff) == BytesOfWord(w)[i]
    ensures Shr(NatOf(w[..8 * i + 8]), 8) == NatOf(w[..8 * i])
  {
    var v := w[..8 * i + 8];
    EightBits();
    MaskAgrees(v, 8);
    ShrAgrees(v, 8);
    assert v[..8 * i] == w[..8 * i] && v[8 * i..] == w[8 * i..8 * i + 8];
  }
}
