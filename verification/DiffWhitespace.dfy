/** Diffing with whitespace ignored: the texts are stripped, compared, and the changes
    mapped back to the texts the user sees. */
module DiffWhitespace {
  datatype Mode = Keep | Trailing | All

  predicate Blank(c: char) {
    c == ' ' || c == '\t'
  }

  /** Where the run of blanks from `i` ends. */
  function RunEnd(text: string, i: nat): (j: nat)
    requires i <= |text|
    ensures i <= j <= |text| && (j < |text| ==> !Blank(text[j]))
    ensures forall m :: i <= m < j ==> Blank(text[m])
    decreases |text| - i
  {
    if i < |text| && Blank(text[i]) then RunEnd(text, i + 1) else i
  }

  predicate Dropped(text: string, mode: Mode, i: nat)
    requires i < |text|
  {
    mode != Keep && Blank(text[i]) &&
    (mode == All || var j := RunEnd(text, i); j == |text| || text[j] == '\n')
  }

  /** The characters kept from a stretch of the text. */
  function Kept(text: string, mode: Mode, from: nat, end: nat): string
    requires from <= end <= |text|
  {
    if from == end then []
    else Kept(text, mode, from, end - 1) + if Dropped(text, mode, end - 1) then [] else [text[end - 1]]
  }

  /** The offsets kept below `to`. */
  function Offsets(text: string, mode: Mode, end: nat): seq<nat>
    requires end <= |text|
  {
    if end == 0 then []
    else Offsets(text, mode, end - 1) + if Dropped(text, mode, end - 1) then [] else [end - 1]
  }

  function Norm(text: string, mode: Mode): string {
    Kept(text, mode, 0, |text|)
  }

  function MapOf(text: string, mode: Mode): seq<nat> {
    Offsets(text, mode, |text|)
  }

  lemma {:induction false} KeepAll(text: string, i: nat)
    requires i <= |text|
    ensures Kept(text, Keep, 0, i) == text[..i]
    ensures Offsets(text, Keep, i) == seq(i, k requires 0 <= k < i => k)
  {
    if i > 0 {
      KeepAll(text, i - 1);
      assert text[..i] == text[..i - 1] + [text[i - 1]];
    }
  }

  method NormalizeWhitespace(text: string, mode: Mode) returns (norm: string, map_: seq<nat>)
    ensures norm == Norm(text, mode) && map_ == MapOf(text, mode)
  {
    if mode == Keep {
      KeepAll(text, |text|);
      assert text[..|text|] == text;
      return text, seq(|text|, k requires 0 <= k < |text| => k);
    }
    norm, map_ := [], [];
    for i := 0 to |text|
      invariant norm == Kept(text, mode, 0, i) && map_ == Offsets(text, mode, i)
    {
      var drop := false;
      if Blank(text[i]) {
        if mode == All {
          drop := true;
        } else {
          var j := i;
          while j < |text| && Blank(text[j])
            invariant i <= j <= |text| && RunEnd(text, j) == RunEnd(text, i)
          {
            j := j + 1;
          }
          drop := j >= |text| || text[j] == '\n';
        }
      }
      if !drop {
        norm, map_ := norm + [text[i]], map_ + [i];
      }
    }
  }

  /** Keep mode drops nothing, and all mode exactly the spaces and tabs. */
  lemma OtherModesMean(text: string, i: nat)
    requires i < |text|
    ensures !Dropped(text, Keep, i)
    ensures Dropped(text, All, i) <==> text[i] == ' ' || text[i] == '\t'
  {
  }

  /** Only spaces and tabs from `i` to the end of the line, at `e`. */
  ghost predicate BlankTo(text: string, i: nat, e: nat)
    requires e <= |text|
  {
    (e == |text| || text[e] == '\n') && forall m :: i <= m < e ==> text[m] == ' ' || text[m] == '\t'
  }

  /** In trailing mode exactly the blanks with nothing but blanks after them on their line go. */
  lemma TrailingMeans(text: string, i: nat)
    requires i < |text|
    ensures Dropped(text, Trailing, i) <==> exists e :: i < e <= |text| && BlankTo(text, i, e)
  {
    var j := RunEnd(text, i);
    if e :| i < e <= |text| && BlankTo(text, i, e) {
      assert Blank(text[i]) && j == e;
    }
    if Dropped(text, Trailing, i) { assert i < j && BlankTo(text, i, j); }
  }

  // ----- The map -----

  ghost predicate GoodMap(text: string, mode: Mode, end: nat, norm: string, map_: seq<nat>)
    requires end <= |text|
  {
    && |norm| == |map_|
    && (forall k :: 0 <= k < |map_| ==> map_[k] < end && norm[k] == text[map_[k]] && !Dropped(text, mode, map_[k]))
    && (forall k, l :: 0 <= k < l < |map_| ==> map_[k] < map_[l])
    && (forall i :: 0 <= i < end && !Dropped(text, mode, i) ==> i in map_)
  }

  lemma {:induction false} MapIsGood(text: string, mode: Mode, end: nat)
    requires end <= |text|
    ensures GoodMap(text, mode, end, Kept(text, mode, 0, end), Offsets(text, mode, end))
  {
    if end > 0 {
      MapIsGood(text, mode, end - 1);
    }
  }

  lemma {:induction false} KeptSplit(text: string, mode: Mode, from: nat, mid: nat, end: nat)
    requires from <= mid <= end <= |text|
    ensures Kept(text, mode, from, end) == Kept(text, mode, from, mid) + Kept(text, mode, mid, end)
    decreases end
  {
    if mid < end { KeptSplit(text, mode, from, mid, end - 1); }
  }

  lemma {:induction false} AsManyOffsets(text: string, mode: Mode, end: nat)
    requires end <= |text|
    ensures |Kept(text, mode, 0, end)| == |Offsets(text, mode, end)|
    ensures forall o :: o in Offsets(text, mode, end) ==> o < end
  {
    if end > 0 { AsManyOffsets(text, mode, end - 1); }
  }

  /** The kept characters below `map[p]` are the first `p`. */
  lemma {:induction false} KeptBelow(text: string, mode: Mode, end: nat, p: nat)
    requires end <= |text| && p < |Offsets(text, mode, end)|
    ensures p < |Kept(text, mode, 0, end)| && Offsets(text, mode, end)[p] < end
    ensures Kept(text, mode, 0, Offsets(text, mode, end)[p]) == Kept(text, mode, 0, end)[..p]
    decreases end
  {
    AsManyOffsets(text, mode, end);
    assert Offsets(text, mode, end)[p] in Offsets(text, mode, end);
    AsManyOffsets(text, mode, end - 1);
    if p < |Offsets(text, mode, end - 1)| {
      KeptBelow(text, mode, end - 1, p);
      assert Kept(text, mode, 0, end)[..p] == Kept(text, mode, 0, end - 1)[..p];
    } else {
      assert Kept(text, mode, 0, end)[..p] == Kept(text, mode, 0, end - 1);
    }
  }

  // ----- Normalising twice -----

  lemma NormKeepsRun(text: string, mode: Mode, k: nat)
    requires mode == Trailing && k < |Norm(text, mode)| && Blank(Norm(text, mode)[k])
    ensures !Dropped(Norm(text, mode), mode, k)
  {
    var norm, at := Norm(text, mode), MapOf(text, mode);
    MapIsGood(text, mode, |text|);
    var j := RunEnd(text, at[k]);
    assert !Dropped(text, mode, j);
    var l :| 0 <= l < |at| && at[l] == j;
    assert k < l;
    forall m | k <= m < l ensures Blank(norm[m]) { assert at[k] <= at[m] < j; }
    assert RunEnd(norm, k) == l;
  }

  lemma {:induction false} NothingDropped(text: string, mode: Mode, end: nat)
    requires end <= |text| && forall i :: 0 <= i < end ==> !Dropped(text, mode, i)
    ensures Kept(text, mode, 0, end) == text[..end]
  {
    if end > 0 { NothingDropped(text, mode, end - 1); }
  }

  /** Normalising is done after one pass. */
  lemma NormIdempotent(text: string, mode: Mode)
    ensures Norm(Norm(text, mode), mode) == Norm(text, mode)
  {
    var norm := Norm(text, mode);
    MapIsGood(text, mode, |text|);
    forall k | 0 <= k < |norm| ensures !Dropped(norm, mode, k) {
      if mode == Trailing && Blank(norm[k]) { NormKeepsRun(text, mode, k); }
    }
    NothingDropped(norm, mode, |norm|);
  }

  // ----- Mapping changes back -----

  function MapPos(map_: seq<nat>, originalLength: nat, pos: int): nat {
    if pos <= 0 then 0 else if pos >= |map_| then originalLength else map_[pos]
  }

  lemma MapPosMonotone(text: string, mode: Mode, p: int, q: int)
    requires p <= q
    ensures MapPos(MapOf(text, mode), |text|, p) <= MapPos(MapOf(text, mode), |text|, q) <= |text|
  {
    MapIsGood(text, mode, |text|);
  }

  lemma KeptToPos(text: string, mode: Mode, p: nat)
    requires p <= |Norm(text, mode)|
    ensures MapPos(MapOf(text, mode), |text|, p) <= |text|
    ensures Kept(text, mode, 0, MapPos(MapOf(text, mode), |text|, p)) == Norm(text, mode)[..p]
  {
    MapIsGood(text, mode, |text|);
    if 0 < p < |MapOf(text, mode)| { KeptBelow(text, mode, |text|, p); }
    if p == |Norm(text, mode)| { assert Norm(text, mode)[..p] == Norm(text, mode); }
    if p == 0 == |Norm(text, mode)| { assert Kept(text, mode, 0, 0) == []; }
  }

  /** Between two mapped positions lie exactly the characters between the positions. */
  lemma KeptBetween(text: string, mode: Mode, p: nat, q: nat)
    requires p <= q <= |Norm(text, mode)|
    ensures var i, j := MapPos(MapOf(text, mode), |text|, p), MapPos(MapOf(text, mode), |text|, q);
            i <= j <= |text| && Kept(text, mode, i, j) == Norm(text, mode)[p..q]
  {
    var i, j := MapPos(MapOf(text, mode), |text|, p), MapPos(MapOf(text, mode), |text|, q);
    MapPosMonotone(text, mode, p, q);
    KeptToPos(text, mode, p);
    KeptToPos(text, mode, q);
    KeptSplit(text, mode, 0, i, j);
    var norm := Norm(text, mode);
    assert norm[..q] == norm[..p] + norm[p..q];
  }

  datatype Change = Change(fromA: nat, toA: nat, fromB: nat, toB: nat)

  /** The changes are in order and in bounds from the given positions on, and outside them the
      texts hold the same kept characters. */
  predicate Sound(a: string, b: string, mode: Mode, changes: seq<Change>, pa: nat, pb: nat)
    requires pa <= |a| && pb <= |b|
    decreases |changes|
  {
    if changes == [] then Kept(a, mode, pa, |a|) == Kept(b, mode, pb, |b|)
    else
      var c := changes[0];
      && pa <= c.fromA <= c.toA <= |a| && pb <= c.fromB <= c.toB <= |b|
      && Kept(a, mode, pa, c.fromA) == Kept(b, mode, pb, c.fromB)
      && Sound(a, b, mode, changes[1..], c.toA, c.toB)
  }

  /** `a` with each change's stretch replaced by that of `b`, its kept characters only. */
  function Patched(a: string, b: string, mode: Mode, changes: seq<Change>, pa: nat, pb: nat): string
    requires pa <= |a| && pb <= |b| && Sound(a, b, mode, changes, pa, pb)
    decreases |changes|
  {
    if changes == [] then Kept(a, mode, pa, |a|)
    else
      var c := changes[0];
      Kept(a, mode, pa, c.fromA) + Kept(b, mode, c.fromB, c.toB) + Patched(a, b, mode, changes[1..], c.toA, c.toB)
  }

  function MapBack(a: string, b: string, mode: Mode, c: Change): Change {
    Change(MapPos(MapOf(a, mode), |a|, c.fromA), MapPos(MapOf(a, mode), |a|, c.toA),
           MapPos(MapOf(b, mode), |b|, c.fromB), MapPos(MapOf(b, mode), |b|, c.toB))
  }

  function MapAllBack(a: string, b: string, mode: Mode, changes: seq<Change>): seq<Change> {
    if changes == [] then [] else [MapBack(a, b, mode, changes[0])] + MapAllBack(a, b, mode, changes[1..])
  }

  lemma KeepSlice(text: string, i: nat, j: nat)
    requires i <= j <= |text|
    ensures Kept(text, Keep, i, j) == text[i..j]
  {
    KeepAll(text, i);
    KeepAll(text, j);
    KeptSplit(text, Keep, 0, i, j);
    assert text[..j] == text[..i] + text[i..j];
  }

  lemma EndKept(text: string, mode: Mode, p: nat)
    requires p <= |Norm(text, mode)|
    ensures MapPos(MapOf(text, mode), |text|, p) <= |text|
    ensures Kept(text, mode, MapPos(MapOf(text, mode), |text|, p), |text|) == Norm(text, mode)[p..]
  {
    var i, norm := MapPos(MapOf(text, mode), |text|, p), Norm(text, mode);
    KeptToPos(text, mode, p);
    KeptSplit(text, mode, 0, i, |text|);
    assert norm == norm[..p] + norm[p..];
  }

  /** Changes sound for the normalised texts, where every character counts, map to changes
      sound for the texts themselves, up to dropped characters. */
  lemma {:induction false} MappedBackSound(a: string, b: string, mode: Mode, changes: seq<Change>, pa: nat, pb: nat)
    requires pa <= |Norm(a, mode)| && pb <= |Norm(b, mode)|
    requires Sound(Norm(a, mode), Norm(b, mode), Keep, changes, pa, pb)
    ensures var i, j := MapPos(MapOf(a, mode), |a|, pa), MapPos(MapOf(b, mode), |b|, pb);
            i <= |a| && j <= |b| && Sound(a, b, mode, MapAllBack(a, b, mode, changes), i, j)
    decreases |changes|
  {
    if changes == [] {
      NothingLeft(a, b, mode, pa, pb);
    } else {
      var c := changes[0];
      MappedBackSound(a, b, mode, changes[1..], c.toA, c.toB);
      FirstMapsBack(a, b, mode, c, pa, pb);
      var mapped := MapAllBack(a, b, mode, changes);
      assert mapped[0] == MapBack(a, b, mode, c) && mapped[1..] == MapAllBack(a, b, mode, changes[1..]);
    }
  }

  lemma NothingLeft(a: string, b: string, mode: Mode, pa: nat, pb: nat)
    requires pa <= |Norm(a, mode)| && pb <= |Norm(b, mode)|
    requires Sound(Norm(a, mode), Norm(b, mode), Keep, [], pa, pb)
    ensures var i, j := MapPos(MapOf(a, mode), |a|, pa), MapPos(MapOf(b, mode), |b|, pb);
            i <= |a| && j <= |b| && Sound(a, b, mode, [], i, j)
  {
    var na, nb := Norm(a, mode), Norm(b, mode);
    EndKept(a, mode, pa);
    EndKept(b, mode, pb);
    KeepSlice(na, pa, |na|);
    KeepSlice(nb, pb, |nb|);
    assert na[pa..|na|] == na[pa..] && nb[pb..|nb|] == nb[pb..];
  }

  lemma FirstMapsBack(a: string, b: string, mode: Mode, c: Change, pa: nat, pb: nat)
    requires pa <= c.fromA <= c.toA <= |Norm(a, mode)| && pb <= c.fromB <= c.toB <= |Norm(b, mode)|
    requires Kept(Norm(a, mode), Keep, pa, c.fromA) == Kept(Norm(b, mode), Keep, pb, c.fromB)
    ensures var i, j, m := MapPos(MapOf(a, mode), |a|, pa), MapPos(MapOf(b, mode), |b|, pb), MapBack(a, b, mode, c);
            && i <= m.fromA <= m.toA <= |a| && j <= m.fromB <= m.toB <= |b|
            && Kept(a, mode, i, m.fromA) == Kept(b, mode, j, m.fromB)
  {
    KeepSlice(Norm(a, mode), pa, c.fromA);
    KeepSlice(Norm(b, mode), pb, c.fromB);
    KeptBetween(a, mode, pa, c.fromA);
    KeptBetween(b, mode, pb, c.fromB);
    MapPosMonotone(a, mode, c.fromA, c.toA);
    MapPosMonotone(b, mode, c.fromB, c.toB);
  }

  /** Sound changes turn one text into the other, up to dropped characters. */
  lemma {:induction false} SoundPatches(a: string, b: string, mode: Mode, changes: seq<Change>, pa: nat, pb: nat)
    requires pa <= |a| && pb <= |b| && Sound(a, b, mode, changes, pa, pb)
    ensures Patched(a, b, mode, changes, pa, pb) == Kept(b, mode, pb, |b|)
    decreases |changes|
  {
    if changes != [] {
      var c := changes[0];
      SoundPatches(a, b, mode, changes[1..], c.toA, c.toB);
      KeptSplit(b, mode, pb, c.fromB, |b|);
      KeptSplit(b, mode, c.fromB, c.toB, |b|);
    }
  }

  /** The override: whatever sound diff the normalised texts get, the changes it shows are in
      order and in bounds, leave out only dropped characters, and lead from `a` to `b`. */
  lemma OverrideIsFaithful(a: string, b: string, mode: Mode, changes: seq<Change>)
    requires Sound(Norm(a, mode), Norm(b, mode), Keep, changes, 0, 0)
    ensures Sound(a, b, mode, MapAllBack(a, b, mode, changes), 0, 0)
    ensures Patched(a, b, mode, MapAllBack(a, b, mode, changes), 0, 0) == Norm(b, mode)
  {
    MappedBackSound(a, b, mode, changes, 0, 0);
    SoundPatches(a, b, mode, MapAllBack(a, b, mode, changes), 0, 0);
  }
}
