/** The block cipher on words: what the tables, the key schedule and the sixteen
    rounds mean, and the laws that meaning obeys. */
module Des {
  import opened Bits
  import opened DesTables

  type Block = w: Word | |w| == 64 witness Zeros(64)
  type Half = w: Word | |w| == 32 witness Zeros(32)
  type Subkey = w: Word | |w| == 48 witness Zeros(48)
  type Register = w: Word | |w| == 28 witness Zeros(28)

  // ----- Tables -----

  ghost predicate Selects(table: seq<nat>, width: nat) {
    forall i :: 0 <= i < |table| ==> 1 <= table[i] <= width
  }

  ghost function PermuteWord(w: Word, table: seq<nat>): (r: Word)
    requires Selects(table, |w|)
    ensures |r| == |table|
  {
    seq(|table|, i requires 0 <= i < |table| => w[table[i] - 1])
  }

  lemma IPSelects() ensures |IP| == 64 && Selects(IP, 64) {}
  lemma FPSelects() ensures |FP| == 64 && Selects(FP, 64) {}
  lemma ESelects() ensures |E| == 48 && Selects(E, 32) {}
  lemma PSelects() ensures |P| == 32 && Selects(P, 32) {}
  lemma PC1Selects() ensures |PC1| == 56 && Selects(PC1, 64) {}
  lemma PC2Selects() ensures |PC2| == 48 && Selects(PC2, 56) {}
  lemma ShiftsSmall() ensures |SHIFTS| == 16 && forall i :: 0 <= i < 16 ==> 1 <= SHIFTS[i] <= 2 {}

  ghost predicate IsBox(s: seq<nat>) {
    |s| == 64 && forall j :: 0 <= j < 64 ==> s[j] < 16
  }

  lemma Box1() ensures IsBox(S1) {}
  lemma Box2() ensures IsBox(S2) {}
  lemma Box3() ensures IsBox(S3) {}
  lemma Box4() ensures IsBox(S4) {}
  lemma Box5() ensures IsBox(S5) {}
  lemma Box6() ensures IsBox(S6) {}
  lemma Box7() ensures IsBox(S7) {}
  lemma Box8() ensures IsBox(S8) {}

  lemma BoxesWellFormed(k: nat)
    requires k < 8
    ensures |S| == 8 && IsBox(S[k])
  {
    Box1(); Box2(); Box3(); Box4(); Box5(); Box6(); Box7(); Box8();
  }

  // ----- Key schedule -----

  function RotateLeft(w: Word, s: nat): (r: Word)
    requires s <= |w|
    ensures |r| == |w|
  {
    w[s..] + w[..s]
  }

  ghost predicate Rotations(shifts: seq<nat>) {
    forall i :: 0 <= i < |shifts| ==> shifts[i] <= 28
  }

  ghost function Schedule(c: Register, d: Register, shifts: seq<nat>): (ks: seq<Subkey>)
    requires Rotations(shifts)
    ensures |ks| == |shifts|
    decreases |shifts|
  {
    if shifts == [] then []
    else
      PC2Selects();
      var c', d' := RotateLeft(c, shifts[0]), RotateLeft(d, shifts[0]);
      [PermuteWord(c' + d', PC2)] + Schedule(c', d', shifts[1..])
  }

  ghost function Choose(key: Block): (r: Word)
    ensures |r| == 56
  {
    PC1Selects();
    PermuteWord(key, PC1)
  }

  ghost function SubkeysOf(chosen: Word, shifts: seq<nat>): (ks: seq<Subkey>)
    requires |chosen| == 56 && Rotations(shifts)
    ensures |ks| == |shifts|
  {
    Schedule(chosen[..28], chosen[28..], shifts)
  }

  ghost function KeySchedule(key: Block): (ks: seq<Subkey>)
    ensures |ks| == 16
  {
    ShiftsSmall();
    SubkeysOf(Choose(key), SHIFTS)
  }

  // ----- Rounds -----

  /** Row from the outer bits, column from the inner four. */
  function BoxIndex(c: Word): (k: nat)
    requires |c| == 6
    ensures k < 64
  {
    32 * Digit(c[0]) + 16 * Digit(c[5]) + 8 * Digit(c[1]) + 4 * Digit(c[2]) + 2 * Digit(c[3]) + Digit(c[4])
  }

  function BoxEntry(box: nat, k: nat): (v: nat)
    requires box < 8 && k < 64
    ensures v < 16
  {
    BoxesWellFormed(box);
    S[box][k]
  }

  /** The first `n` boxes applied to the first `n` six-bit chunks. */
  ghost function Substitute(x: Word, n: nat): (r: Word)
    requires |x| == 48 && n <= 8
    ensures |r| == 4 * n
  {
    if n == 0 then []
    else Substitute(x, n - 1) + WordOf(BoxEntry(n - 1, BoxIndex(x[6 * (n - 1)..6 * n])), 4)
  }

  ghost function Mix(right: Half, subkey: Subkey): Half {
    ESelects(); PSelects();
    PermuteWord(Substitute(XorWords(PermuteWord(right, E), subkey), 8), P)
  }

  datatype Halves = Halves(left: Half, right: Half)

  ghost function Round(h: Halves, k: Subkey): Halves {
    Halves(h.right, XorWords(h.left, Mix(h.right, k)))
  }

  ghost function Rounds(h: Halves, ks: seq<Subkey>): Halves
    decreases |ks|
  {
    if ks == [] then h else Rounds(Round(h, ks[0]), ks[1..])
  }

  function Cut(w: Block): Halves {
    Halves(w[..32], w[32..])
  }

  function Glue(h: Halves): Block {
    h.left + h.right
  }

  function Swap(h: Halves): Halves {
    Halves(h.right, h.left)
  }

  ghost function Initial(block: Block): Block {
    IPSelects();
    PermuteWord(block, IP)
  }

  ghost function Final(block: Block): Block {
    FPSelects();
    PermuteWord(block, FP)
  }

  /** The cipher under any list of subkeys. */
  ghost function Crypt(ks: seq<Subkey>, block: Block): Block {
    Final(Glue(Swap(Rounds(Cut(Initial(block)), ks))))
  }

  ghost function Encrypt(key: Block, block: Block): Block {
    Crypt(KeySchedule(key), block)
  }

  ghost function Decrypt(key: Block, block: Block): Block {
    Crypt(Reverse(KeySchedule(key)), block)
  }

  function Reverse<T>(s: seq<T>): (r: seq<T>)
    ensures |r| == |s|
  {
    if s == [] then [] else Reverse(s[1..]) + [s[0]]
  }

  // ----- Complementation -----

  ghost function NotAll(ks: seq<Subkey>): (r: seq<Subkey>)
    ensures |r| == |ks|
  {
    if ks == [] then [] else [NotWord(ks[0])] + NotAll(ks[1..])
  }

  function NotHalves(h: Halves): Halves {
    Halves(NotWord(h.left), NotWord(h.right))
  }

  lemma PermuteNot(w: Word, table: seq<nat>)
    requires Selects(table, |w|)
    ensures PermuteWord(NotWord(w), table) == NotWord(PermuteWord(w, table))
  {
  }

  lemma RotateNot(w: Word, s: nat)
    requires s <= |w|
    ensures RotateLeft(NotWord(w), s) == NotWord(RotateLeft(w, s))
  {
  }

  lemma NotConcat(a: Word, b: Word)
    ensures NotWord(a + b) == NotWord(a) + NotWord(b)
  {
  }

  lemma {:induction false} ScheduleNot(c: Register, d: Register, shifts: seq<nat>)
    requires Rotations(shifts)
    ensures Schedule(NotWord(c), NotWord(d), shifts) == NotAll(Schedule(c, d, shifts))
    decreases |shifts|
  {
    if shifts != [] {
      PC2Selects();
      var s := shifts[0];
      var c', d' := RotateLeft(c, s), RotateLeft(d, s);
      RotateNot(c, s);
      RotateNot(d, s);
      NotConcat(c', d');
      PermuteNot(c' + d', PC2);
      ScheduleNot(c', d', shifts[1..]);
    }
  }

  lemma SubkeysNot(chosen: Word, shifts: seq<nat>)
    requires |chosen| == 56 && Rotations(shifts)
    ensures SubkeysOf(NotWord(chosen), shifts) == NotAll(SubkeysOf(chosen, shifts))
  {
    NotConcat(chosen[..28], chosen[28..]);
    assert chosen == chosen[..28] + chosen[28..];
    ScheduleNot(chosen[..28], chosen[28..], shifts);
  }

  lemma KeyScheduleNot(key: Block)
    ensures KeySchedule(NotWord(key)) == NotAll(KeySchedule(key))
  {
    PC1Selects(); ShiftsSmall();
    PermuteNot(key, PC1);
    SubkeysNot(Choose(key), SHIFTS);
  }

  lemma XorNotNot(a: Word, b: Word)
    requires |a| == |b|
    ensures XorWords(NotWord(a), NotWord(b)) == XorWords(a, b)
    ensures XorWords(NotWord(a), b) == NotWord(XorWords(a, b))
  {
  }

  /** The round function cannot tell a complemented half and subkey apart. */
  lemma MixNot(right: Half, subkey: Subkey)
    ensures Mix(NotWord(right), NotWord(subkey)) == Mix(right, subkey)
  {
    ESelects();
    PermuteNot(right, E);
    XorNotNot(PermuteWord(right, E), subkey);
  }

  lemma RoundNot(h: Halves, k: Subkey)
    ensures Round(NotHalves(h), NotWord(k)) == NotHalves(Round(h, k))
  {
    MixNot(h.right, k);
    XorNotNot(h.left, Mix(h.right, k));
  }

  lemma {:induction false} RoundsNot(h: Halves, ks: seq<Subkey>)
    ensures Rounds(NotHalves(h), NotAll(ks)) == NotHalves(Rounds(h, ks))
    decreases |ks|
  {
    if ks != [] {
      RoundNot(h, ks[0]);
      RoundsNot(Round(h, ks[0]), ks[1..]);
      assert NotAll(ks)[1..] == NotAll(ks[1..]);
    }
  }

  lemma CutNot(w: Block)
    ensures Cut(NotWord(w)) == NotHalves(Cut(w))
  {
    NotConcat(w[..32], w[32..]);
    assert w == w[..32] + w[32..];
  }

  lemma CryptNot(ks: seq<Subkey>, block: Block)
    ensures Crypt(NotAll(ks), NotWord(block)) == NotWord(Crypt(ks, block))
  {
    IPSelects(); FPSelects();
    PermuteNot(block, IP);
    var v := Initial(block);
    CutNot(v);
    RoundsNot(Cut(v), ks);
    var h := Swap(Rounds(Cut(v), ks));
    NotConcat(h.left, h.right);
    PermuteNot(Glue(h), FP);
  }

  /** Complementing every bit of key and block complements the output. */
  lemma Complementation(key: Block, block: Block)
    ensures Encrypt(NotWord(key), NotWord(block)) == NotWord(Encrypt(key, block))
  {
    KeyScheduleNot(key);
    CryptNot(KeySchedule(key), block);
  }

  // ----- Invertibility -----

  ghost predicate FPUndoes(i: int) {
    |IP| == |FP| == 64 && (0 <= i < 64 ==> 1 <= FP[i] <= 64 && IP[FP[i] - 1] == i + 1)
  }

  lemma FPUndoes0() ensures forall i :: 0 <= i < 8 ==> FPUndoes(i) {}
  lemma FPUndoes1() ensures forall i :: 8 <= i < 16 ==> FPUndoes(i) {}
  lemma FPUndoes2() ensures forall i :: 16 <= i < 24 ==> FPUndoes(i) {}
  lemma FPUndoes3() ensures forall i :: 24 <= i < 32 ==> FPUndoes(i) {}
  lemma FPUndoes4() ensures forall i :: 32 <= i < 40 ==> FPUndoes(i) {}
  lemma FPUndoes5() ensures forall i :: 40 <= i < 48 ==> FPUndoes(i) {}
  lemma FPUndoes6() ensures forall i :: 48 <= i < 56 ==> FPUndoes(i) {}
  lemma FPUndoes7() ensures forall i :: 56 <= i < 64 ==> FPUndoes(i) {}

  lemma FPUndoesAll(i: nat)
    requires i < 64
    ensures FPUndoes(i)
  {
    FPUndoes0(); FPUndoes1(); FPUndoes2(); FPUndoes3();
    FPUndoes4(); FPUndoes5(); FPUndoes6(); FPUndoes7();
  }

  lemma FPUndoesIP(w: Block)
    ensures Final(Initial(w)) == w
  {
    IPSelects(); FPSelects();
    forall i | 0 <= i < 64 ensures Final(Initial(w))[i] == w[i] {
      FPUndoesAll(i);
    }
  }

  ghost predicate IPUndoes(i: int) {
    |FP| == |IP| == 64 && (0 <= i < 64 ==> 1 <= IP[i] <= 64 && FP[IP[i] - 1] == i + 1)
  }

  lemma IPUndoes0() ensures forall i :: 0 <= i < 8 ==> IPUndoes(i) {}
  lemma IPUndoes1() ensures forall i :: 8 <= i < 16 ==> IPUndoes(i) {}
  lemma IPUndoes2() ensures forall i :: 16 <= i < 24 ==> IPUndoes(i) {}
  lemma IPUndoes3() ensures forall i :: 24 <= i < 32 ==> IPUndoes(i) {}
  lemma IPUndoes4() ensures forall i :: 32 <= i < 40 ==> IPUndoes(i) {}
  lemma IPUndoes5() ensures forall i :: 40 <= i < 48 ==> IPUndoes(i) {}
  lemma IPUndoes6() ensures forall i :: 48 <= i < 56 ==> IPUndoes(i) {}
  lemma IPUndoes7() ensures forall i :: 56 <= i < 64 ==> IPUndoes(i) {}

  lemma IPUndoesAll(i: nat)
    requires i < 64
    ensures IPUndoes(i)
  {
    IPUndoes0(); IPUndoes1(); IPUndoes2(); IPUndoes3();
    IPUndoes4(); IPUndoes5(); IPUndoes6(); IPUndoes7();
  }

  lemma IPUndoesFP(w: Block)
    ensures Initial(Final(w)) == w
  {
    IPSelects(); FPSelects();
    forall i | 0 <= i < 64 ensures Initial(Final(w))[i] == w[i] {
      IPUndoesAll(i);
    }
  }

  lemma {:induction false} RoundsSnoc(h: Halves, ks: seq<Subkey>, k: Subkey)
    ensures Rounds(h, ks + [k]) == Round(Rounds(h, ks), k)
    decreases |ks|
  {
    if ks == [] {
      assert ks + [k] == [k];
    } else {
      RoundsSnoc(Round(h, ks[0]), ks[1..], k);
      assert (ks + [k])[0] == ks[0] && (ks + [k])[1..] == ks[1..] + [k];
    }
  }

  lemma RoundUndone(h: Halves, k: Subkey)
    ensures Round(Swap(Round(h, k)), k) == Swap(h)
  {
    XorTwice(h.left, Mix(h.right, k));
  }

  lemma XorTwice(a: Word, b: Word)
    requires |a| == |b|
    ensures XorWords(XorWords(a, b), b) == a
  {
  }

  /** The same rounds with the subkeys reversed, from the swapped halves, lead back. */
  lemma {:induction false} RoundsUndone(h: Halves, ks: seq<Subkey>)
    ensures Rounds(Swap(Rounds(h, ks)), Reverse(ks)) == Swap(h)
    decreases |ks|
  {
    if ks != [] {
      var h1 := Round(h, ks[0]);
      RoundsUndone(h1, ks[1..]);
      RoundsSnoc(Swap(Rounds(h, ks)), Reverse(ks[1..]), ks[0]);
      RoundUndone(h, ks[0]);
    }
  }

  lemma CutGlue(h: Halves)
    ensures Cut(Glue(h)) == h
  {
  }

  lemma GlueCut(w: Block)
    ensures Glue(Cut(w)) == w
  {
  }

  lemma ReversedSubkeysDecrypt(ks: seq<Subkey>, block: Block)
    ensures Crypt(Reverse(ks), Crypt(ks, block)) == block
  {
    var h0 := Cut(Initial(block));
    var h := Swap(Rounds(h0, ks));
    IPUndoesFP(Glue(h));
    CutGlue(h);
    RoundsUndone(h0, ks);
    GlueCut(Initial(block));
    FPUndoesIP(block);
  }

  lemma {:induction false} ReverseTwice<T>(s: seq<T>)
    ensures Reverse(Reverse(s)) == s
  {
    if s != [] {
      ReverseTwice(s[1..]);
      ReverseSnoc(Reverse(s[1..]), s[0]);
    }
  }

  lemma {:induction false} ReverseSnoc<T>(s: seq<T>, x: T)
    ensures Reverse(s + [x]) == [x] + Reverse(s)
  {
    if s != [] {
      assert (s + [x])[1..] == s[1..] + [x];
      ReverseSnoc(s[1..], x);
    }
  }

  /** For each key, encryption is a bijection on blocks with `Decrypt` as its inverse. */
  lemma EncryptionIsBijective(key: Block, block: Block)
    ensures Decrypt(key, Encrypt(key, block)) == block
    ensures Encrypt(key, Decrypt(key, block)) == block
  {
    ReversedSubkeysDecrypt(KeySchedule(key), block);
    ReversedSubkeysDecrypt(Reverse(KeySchedule(key)), block);
    ReverseTwice(KeySchedule(key));
  }

  // ----- The schedule comes full circle -----

  function Sum(xs: seq<nat>): nat {
    if xs == [] then 0 else xs[0] + Sum(xs[1..])
  }

  function RotateAll(w: Register, shifts: seq<nat>): Register
    requires Rotations(shifts)
    decreases |shifts|
  {
    if shifts == [] then w else RotateAll(RotateLeft(w, shifts[0]), shifts[1..])
  }

  lemma RotateTwice(w: Word, s: nat, t: nat)
    requires s + t <= |w|
    ensures RotateLeft(RotateLeft(w, s), t) == RotateLeft(w, s + t)
  {
  }

  lemma {:induction false} RotateAllAdds(w: Register, shifts: seq<nat>)
    requires Sum(shifts) <= 28 && Rotations(shifts)
    ensures RotateAll(w, shifts) == RotateLeft(w, Sum(shifts))
    decreases |shifts|
  {
    if shifts != [] {
      var s, t := shifts[0], Sum(shifts[1..]);
      RotateAllAdds(RotateLeft(w, s), shifts[1..]);
      RotateTwice(w, s, t);
    }
  }

  /** After all sixteen rounds each half-key register is back at its start. */
  lemma HalvesReturn(w: Register)
    ensures Rotations(SHIFTS) && RotateAll(w, SHIFTS) == w
  {
    hide RotateAll, Sum;
    ShiftsSmall();
    ShiftsSum();
    RotateAllAdds(w, SHIFTS);
  }

  lemma ShiftsSum()
    ensures Sum(SHIFTS) == 28
  {
    var a, b := [1, 1, 2, 2, 2, 2, 2, 2], [1, 2, 2, 2, 2, 2, 2, 1];
    assert SHIFTS == a + b;
    SumEight(a);
    SumEight(b);
    SumAppend(a, b);
  }

  lemma SumEight(x: seq<nat>)
    requires |x| == 8
    ensures Sum(x) == x[0] + x[1] + x[2] + x[3] + x[4] + x[5] + x[6] + x[7]
  {
    assert Sum(x[4..]) == x[4] + x[5] + x[6] + x[7] by { SumFour(x[4..]); }
    SumFour(x[..4]);
    SumAppend(x[..4], x[4..]);
    assert x == x[..4] + x[4..];
  }

  lemma SumFour(x: seq<nat>)
    requires |x| == 4
    ensures Sum(x) == x[0] + x[1] + x[2] + x[3]
  {
    assert Sum(x[2..]) == x[2] + Sum(x[2..][1..]);
    assert x[1..][1..] == x[2..];
    assert x[2..][1..][1..] == [];
  }

  lemma {:induction false} SumAppend(xs: seq<nat>, ys: seq<nat>)
    ensures Sum(xs + ys) == Sum(xs) + Sum(ys)
  {
    if xs == [] {
      assert xs + ys == ys;
    } else {
      SumAppend(xs[1..], ys);
      assert (xs + ys)[1..] == xs[1..] + ys;
    }
  }
}
