/** Which bits of a 64-bit key the cipher sees: all but every eighth one. */
module DesKeys {
  import opened Bits
  import opened DesTables
  import opened Des

  /** The keys agree everywhere except perhaps on positions 8, 16, .., 64. */
  ghost predicate SameUpToParity(k: Block, k': Block) {
    forall i :: 0 <= i < 64 && i % 8 != 7 ==> k[i] == k'[i]
  }

  ghost predicate AvoidsEighths(table: seq<nat>) {
    forall i :: 0 <= i < |table| ==> table[i] % 8 != 0
  }

  ghost predicate CoversRest(table: seq<nat>) {
    forall p :: 0 < p < 64 && p % 8 != 0 ==> p in table
  }

  lemma PC1Avoids()
    ensures AvoidsEighths(PC1)
  {
  }

  lemma PC1Covers()
    ensures CoversRest(PC1)
  {
  }

  lemma PermuteHidesEighths(k: Block, k': Block, table: seq<nat>)
    requires Selects(table, 64) && AvoidsEighths(table) && SameUpToParity(k, k')
    ensures PermuteWord(k, table) == PermuteWord(k', table)
  {
  }

  lemma PermuteShowsRest(k: Block, k': Block, table: seq<nat>)
    requires Selects(table, 64) && CoversRest(table)
    requires PermuteWord(k, table) == PermuteWord(k', table)
    ensures SameUpToParity(k, k')
  {
    forall i | 0 <= i < 64 && i % 8 != 7 ensures k[i] == k'[i] {
      SelectedAgree(k, k', table, i + 1);
    }
  }

  /** PC2 drops these eight of the 56 register positions. */
  predicate Dropped(p: nat) {
    p in [9, 18, 22, 25, 35, 38, 43, 54]
  }

  lemma PC2Covers()
    ensures forall p :: 1 <= p <= 56 && !Dropped(p) ==> p in PC2
  {
  }

  lemma SelectedAgree(w: Word, w': Word, table: seq<nat>, p: nat)
    requires |w| == |w'| && Selects(table, |w|)
    requires PermuteWord(w, table) == PermuteWord(w', table)
    requires p in table
    ensures 1 <= p <= |w| && w[p - 1] == w'[p - 1]
  {
    var i :| 0 <= i < |table| && table[i] == p;
    assert PermuteWord(w, table)[i] == w[p - 1] && PermuteWord(w', table)[i] == w'[p - 1];
  }

  /** Two registers with the same first two subkeys are the same. */
  lemma RegistersFromSubkeys(c: Register, d: Register, c': Register, d': Register)
    requires Selects(PC2, 56)
    requires PermuteWord(c + d, PC2) == PermuteWord(c' + d', PC2)
    requires PermuteWord(RotateLeft(c, 1) + RotateLeft(d, 1), PC2)
          == PermuteWord(RotateLeft(c', 1) + RotateLeft(d', 1), PC2)
    ensures c == c' && d == d'
  {
    var w, w' := c + d, c' + d';
    var v, v' := RotateLeft(c, 1) + RotateLeft(d, 1), RotateLeft(c', 1) + RotateLeft(d', 1);
    forall i | 0 <= i < 56 ensures w[i] == w'[i] {
      PC2Covers();
      if Dropped(i + 1) {
        SelectedAgree(v, v', PC2, i);
        assert v[i - 1] == w[i] && v'[i - 1] == w'[i];
      } else {
        SelectedAgree(w, w', PC2, i + 1);
      }
    }
    assert c == w[..28] && c' == w'[..28] && d == w[28..] && d' == w'[28..];
  }

  ghost predicate StartsByOnes(shifts: seq<nat>) {
    |shifts| >= 2 && shifts[0] == shifts[1] == 1
  }

  lemma ScheduleHead(c: Register, d: Register, shifts: seq<nat>)
    requires Rotations(shifts) && StartsByOnes(shifts) && Selects(PC2, 56)
    ensures Schedule(c, d, shifts)[0] == PermuteWord(RotateLeft(c, 1) + RotateLeft(d, 1), PC2)
    ensures Schedule(c, d, shifts)[1]
         == PermuteWord(RotateLeft(RotateLeft(c, 1), 1) + RotateLeft(RotateLeft(d, 1), 1), PC2)
  {
    assert shifts[1..][0] == 1;
  }

  lemma RotateInjective(c: Word, c': Word)
    requires |c| == |c'| >= 1 && RotateLeft(c, 1) == RotateLeft(c', 1)
    ensures c == c'
  {
    var r, r' := RotateLeft(c, 1), RotateLeft(c', 1);
    var n := |c| - 1;
    assert c == [r[n]] + r[..n] && c' == [r'[n]] + r'[..n];
  }

  lemma ParityUnseen(k: Block, k': Block)
    requires SameUpToParity(k, k')
    ensures KeySchedule(k) == KeySchedule(k')
  {
    PC1Selects(); PC1Avoids();
    PermuteHidesEighths(k, k', PC1);
  }

  lemma SubkeysFixChoice(w: Word, w': Word, shifts: seq<nat>)
    requires |w| == |w'| == 56 && Rotations(shifts) && StartsByOnes(shifts)
    requires SubkeysOf(w, shifts) == SubkeysOf(w', shifts)
    ensures w == w'
  {
    PC2Selects();
    RegistersFixed(w[..28], w[28..], w'[..28], w'[28..], shifts);
    assert w == w[..28] + w[28..] && w' == w'[..28] + w'[28..];
  }

  lemma SubkeysFixKey(k: Block, k': Block)
    requires KeySchedule(k) == KeySchedule(k')
    ensures SameUpToParity(k, k')
  {
    ShiftsSmall();
    SubkeysFixChoice(Choose(k), Choose(k'), SHIFTS);
    PC1Selects(); PC1Covers();
    PermuteShowsRest(k, k', PC1);
  }

  lemma RegistersFixed(c: Register, d: Register, c': Register, d': Register, shifts: seq<nat>)
    requires Rotations(shifts) && StartsByOnes(shifts) && Selects(PC2, 56)
    requires Schedule(c, d, shifts) == Schedule(c', d', shifts)
    ensures c == c' && d == d'
  {
    ScheduleHead(c, d, shifts);
    ScheduleHead(c', d', shifts);
    RegistersFromSubkeys(RotateLeft(c, 1), RotateLeft(d, 1), RotateLeft(c', 1), RotateLeft(d', 1));
    RotateInjective(c, c');
    RotateInjective(d, d');
  }

  /** The schedule sees exactly the 56 positions other than each eighth. */
  lemma SubkeysSeeAllButParity(k: Block, k': Block)
    ensures KeySchedule(k) == KeySchedule(k') <==> SameUpToParity(k, k')
  {
    if SameUpToParity(k, k') { ParityUnseen(k, k'); }
    if KeySchedule(k) == KeySchedule(k') { SubkeysFixKey(k, k'); }
  }
}
