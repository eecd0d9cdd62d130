/** The benchmark's word and character error count: the two-row dynamic
    program, the optimum over all edit scripts, and the metric laws. */
module EditDistance {

  /** One step of an edit script, read left to right over the source. */
  datatype Edit<T> = Keep(x: T) | Replace(x: T, y: T) | Delete(x: T) | Insert(y: T)

  function Reads<T>(e: Edit<T>): seq<T> {
    match e
    case Keep(x) => [x]
    case Replace(x, _) => [x]
    case Delete(x) => [x]
    case Insert(_) => []
  }

  function Writes<T>(e: Edit<T>): seq<T> {
    match e
    case Keep(x) => [x]
    case Replace(_, y) => [y]
    case Delete(_) => []
    case Insert(y) => [y]
  }

  function Price<T>(e: Edit<T>): nat {
    if e.Keep? then 0 else 1
  }

  function Source<T>(s: seq<Edit<T>>): seq<T> {
    if s == [] then [] else Reads(s[0]) + Source(s[1..])
  }

  function Target<T>(s: seq<Edit<T>>): seq<T> {
    if s == [] then [] else Writes(s[0]) + Target(s[1..])
  }

  function Cost<T>(s: seq<Edit<T>>): nat {
    if s == [] then 0 else Price(s[0]) + Cost(s[1..])
  }

  ghost predicate Turns<T>(s: seq<Edit<T>>, a: seq<T>, b: seq<T>) {
    Source(s) == a && Target(s) == b
  }

  /** `d` is the least cost of any script from `a` to `b`, and is attained. */
  ghost predicate IsOptimum<T(!new)>(d: nat, a: seq<T>, b: seq<T>) {
    && (exists s :: Turns(s, a, b) && Cost(s) == d)
    && (forall s :: Turns(s, a, b) ==> d <= Cost(s))
  }

  function Min3(x: nat, y: nat, z: nat): nat {
    if x <= y && x <= z then x else if y <= z then y else z
  }

  function Mismatch<T(==)>(x: T, y: T): nat {
    if x != y then 1 else 0
  }

  /** The recurrence one cell of the program computes, on whole prefixes. */
  function Lev<T(==)>(a: seq<T>, b: seq<T>): nat
    decreases |a| + |b|
  {
    if a == [] then |b|
    else if b == [] then |a|
    else
      var a', b' := a[..|a| - 1], b[..|b| - 1];
      Min3(Lev(a', b') + Mismatch(a[|a| - 1], b[|b| - 1]), Lev(a', b) + 1, Lev(a, b') + 1)
  }

  // ----- The two-row program -----

  /** `row` holds the costs from the first `i` symbols of `a` to each prefix of `b` up to `n`. */
  ghost predicate IsRow<T>(row: seq<nat>, a: seq<T>, i: nat, b: seq<T>, n: nat)
    requires i <= |a| && n <= |b|
  {
    |row| == n + 1 && forall j :: 0 <= j <= n ==> row[j] == Lev(a[..i], b[..j])
  }

  method Distance<T(==,!new)>(reference: seq<T>, actual: seq<T>) returns (d: nat)
    ensures IsOptimum(d, reference, actual)
    ensures d == Lev(reference, actual)
  {
    hide Lev, IsOptimum;
    var previous: seq<nat> := seq(|actual| + 1, k => k);
    var i := 0;
    FirstRow(previous, reference, actual);
    while i < |reference|
      invariant 0 <= i <= |reference|
      invariant IsRow(previous, reference, i, actual, |actual|)
    {
      var row: seq<nat> := [i + 1];
      var j := 0;
      FirstCell(reference, i, actual);
      while j < |actual|
        invariant 0 <= j <= |actual|
        invariant IsRow(row, reference, i + 1, actual, j)
      {
        LevCell(reference, actual, i, j);
        row := row + [Min3(previous[j] + Mismatch(reference[i], actual[j]), previous[j + 1] + 1, row[j] + 1)];
        j := j + 1;
      }
      previous := row;
      i := i + 1;
    }
    assert reference[..i] == reference && actual[..|actual|] == actual;
    d := previous[|previous| - 1];
    LevIsOptimum(reference, actual);
  }

  lemma FirstRow<T>(row: seq<nat>, a: seq<T>, b: seq<T>)
    requires |row| == |b| + 1 && forall k :: 0 <= k <= |b| ==> row[k] == k
    ensures IsRow(row, a, 0, b, |b|)
  {
  }

  lemma FirstCell<T>(a: seq<T>, i: nat, b: seq<T>)
    requires i < |a|
    ensures IsRow([i + 1], a, i + 1, b, 0)
  {
  }

  lemma LevCell<T>(a: seq<T>, b: seq<T>, i: nat, j: nat)
    requires i < |a| && j < |b|
    ensures Lev(a[..i + 1], b[..j + 1])
         == Min3(Lev(a[..i], b[..j]) + Mismatch(a[i], b[j]), Lev(a[..i], b[..j + 1]) + 1, Lev(a[..i + 1], b[..j]) + 1)
  {
    var p, q := a[..i + 1], b[..j + 1];
    assert p[..|p| - 1] == a[..i] && q[..|q| - 1] == b[..j];
  }

  // ----- Lev is attained by a script and bounds every script -----

  lemma {:induction false} SnocSource<T>(s: seq<Edit<T>>, e: Edit<T>)
    ensures Source(s + [e]) == Source(s) + Reads(e)
    decreases |s|
  {
    if s == [] {
      assert s + [e] == [e];
    } else {
      SnocSource(s[1..], e);
      assert (s + [e])[1..] == s[1..] + [e];
    }
  }

  lemma {:induction false} SnocTarget<T>(s: seq<Edit<T>>, e: Edit<T>)
    ensures Target(s + [e]) == Target(s) + Writes(e)
    decreases |s|
  {
    if s == [] {
      assert s + [e] == [e];
    } else {
      SnocTarget(s[1..], e);
      assert (s + [e])[1..] == s[1..] + [e];
    }
  }

  lemma {:induction false} SnocCost<T>(s: seq<Edit<T>>, e: Edit<T>)
    ensures Cost(s + [e]) == Cost(s) + Price(e)
    decreases |s|
  {
    if s == [] {
      assert s + [e] == [e];
    } else {
      SnocCost(s[1..], e);
      assert (s + [e])[1..] == s[1..] + [e];
    }
  }

  /** A cheapest script, built backwards along the recurrence. */
  ghost function BestScript<T>(a: seq<T>, b: seq<T>): (s: seq<Edit<T>>)
    decreases |a| + |b|
  {
    if a == [] && b == [] then []
    else if a == [] then BestScript(a, b[..|b| - 1]) + [Insert(b[|b| - 1])]
    else if b == [] then BestScript(a[..|a| - 1], b) + [Delete(a[|a| - 1])]
    else
      var a', b', x, y := a[..|a| - 1], b[..|b| - 1], a[|a| - 1], b[|b| - 1];
      if Lev(a, b) == Lev(a', b') + Mismatch(x, y) then
        BestScript(a', b') + [if x == y then Keep(x) else Replace(x, y)]
      else if Lev(a, b) == Lev(a', b) + 1 then BestScript(a', b) + [Delete(x)]
      else BestScript(a, b') + [Insert(y)]
  }

  lemma SnocTurns<T>(s: seq<Edit<T>>, a: seq<T>, b: seq<T>, e: Edit<T>)
    requires Turns(s, a, b)
    ensures Turns(s + [e], a + Reads(e), b + Writes(e)) && Cost(s + [e]) == Cost(s) + Price(e)
  {
    SnocSource(s, e);
    SnocTarget(s, e);
    SnocCost(s, e);
  }

  lemma NothingTurns<T>()
    ensures Turns<T>([], [], []) && Cost<T>([]) == 0
  {
  }

  lemma {:induction false} BestScriptAttains<T>(a: seq<T>, b: seq<T>)
    ensures Turns(BestScript(a, b), a, b) && Cost(BestScript(a, b)) == Lev(a, b)
    decreases |a| + |b|
  {
    hide Turns, Cost;
    if a == [] && b == [] {
      NothingTurns<T>();
    } else if a == [] {
      var b', y := b[..|b| - 1], b[|b| - 1];
      BestScriptAttains(a, b');
      SnocTurns(BestScript(a, b'), a, b', Insert(y));
      assert b' + [y] == b;
    } else if b == [] {
      var a', x := a[..|a| - 1], a[|a| - 1];
      BestScriptAttains(a', b);
      SnocTurns(BestScript(a', b), a', b, Delete(x));
      assert a' + [x] == a;
    } else {
      var a', b', x, y := a[..|a| - 1], b[..|b| - 1], a[|a| - 1], b[|b| - 1];
      assert a' + [x] == a && b' + [y] == b;
      if Lev(a, b) == Lev(a', b') + Mismatch(x, y) {
        BestScriptAttains(a', b');
        SnocTurns(BestScript(a', b'), a', b', if x == y then Keep(x) else Replace(x, y));
      } else if Lev(a, b) == Lev(a', b) + 1 {
        BestScriptAttains(a', b);
        SnocTurns(BestScript(a', b), a', b, Delete(x));
        assert b + [] == b;
      } else {
        BestScriptAttains(a, b');
        SnocTurns(BestScript(a, b'), a, b', Insert(y));
        assert a + [] == a;
      }
    }
  }

  /** No script is cheaper than the recurrence. */
  lemma {:induction false} LevBoundsScripts<T>(s: seq<Edit<T>>)
    ensures Lev(Source(s), Target(s)) <= Cost(s)
  {
    if s != [] {
      var t, e := s[..|s| - 1], s[|s| - 1];
      assert s == t + [e];
      SnocTurns(t, Source(t), Target(t), e);
      LevBoundsScripts(t);
      LevSteps(Source(t), Target(t), e);
    }
  }

  lemma LevSteps<T>(a: seq<T>, b: seq<T>, e: Edit<T>)
    ensures Lev(a + Reads(e), b + Writes(e)) <= Lev(a, b) + Price(e)
  {
    var a', b' := a + Reads(e), b + Writes(e);
    match e {
      case Keep(_) | Replace(_, _) =>
        assert a'[..|a'| - 1] == a && b'[..|b'| - 1] == b;
      case Delete(_) =>
        assert a'[..|a'| - 1] == a && b' == b;
      case Insert(_) =>
        assert b'[..|b'| - 1] == b && a' == a;
    }
  }

  lemma LevIsOptimum<T(!new)>(a: seq<T>, b: seq<T>)
    ensures IsOptimum(Lev(a, b), a, b)
  {
    BestScriptAttains(a, b);
    forall s | Turns(s, a, b) ensures Lev(a, b) <= Cost(s) {
      LevBoundsScripts(s);
    }
  }

  // ----- Metric laws -----

  /** The script that undoes `s`. */
  function Undo<T>(s: seq<Edit<T>>): seq<Edit<T>> {
    if s == [] then []
    else [match s[0]
          case Keep(x) => Keep(x)
          case Replace(x, y) => Replace(y, x)
          case Delete(x) => Insert(x)
          case Insert(y) => Delete(y)] + Undo(s[1..])
  }

  lemma {:induction false} UndoReverses<T>(s: seq<Edit<T>>)
    ensures Turns(Undo(s), Target(s), Source(s)) && Cost(Undo(s)) == Cost(s)
  {
    if s != [] {
      UndoReverses(s[1..]);
      assert Undo(s)[1..] == Undo(s[1..]);
    }
  }

  /** One script doing the work of `s` and then `t`. */
  ghost function Compose<T>(s: seq<Edit<T>>, t: seq<Edit<T>>): seq<Edit<T>>
    requires Target(s) == Source(t)
    decreases |s| + |t|
  {
    if s == [] then t
    else if s[0].Delete? then [s[0]] + Compose(s[1..], t)
    else if t == [] then s
    else if t[0].Insert? then [t[0]] + Compose(s, t[1..])
    else
      assert Target(s)[1..] == Target(s[1..]) && Source(t)[1..] == Source(t[1..]);
      Join(s[0], t[0]) + Compose(s[1..], t[1..])
  }

  /** `e` yields one symbol and `f` consumes it. */
  function Join<T>(e: Edit<T>, f: Edit<T>): seq<Edit<T>>
    requires !e.Delete? && !f.Insert?
  {
    match (e, f)
    case (Keep(_), _) => [f]
    case (Replace(_, _), Keep(_)) => [e]
    case (Replace(x, _), Replace(_, z)) => [Replace(x, z)]
    case (Replace(x, _), Delete(_)) => [Delete(x)]
    case (Insert(_), Keep(_)) => [e]
    case (Insert(_), Replace(_, z)) => [Insert(z)]
    case (Insert(_), Delete(_)) => []
  }

  /** `c` does what `s` then `t` do, for no more. */
  ghost predicate Does<T>(c: seq<Edit<T>>, s: seq<Edit<T>>, t: seq<Edit<T>>) {
    Turns(c, Source(s), Target(t)) && Cost(c) <= Cost(s) + Cost(t)
  }

  lemma JoinDoes<T>(e: Edit<T>, f: Edit<T>, c: seq<Edit<T>>, s: seq<Edit<T>>, t: seq<Edit<T>>)
    requires s != [] && t != [] && e == s[0] && f == t[0]
    requires !e.Delete? && !f.Insert? && Writes(e) == Reads(f)
    requires Does(c, s[1..], t[1..])
    ensures Does(Join(e, f) + c, s, t)
  {
    var j := Join(e, f);
    if j == [] {
      assert j + c == c;
    } else {
      assert (j + c)[0] == j[0] && (j + c)[1..] == c;
    }
  }

  lemma {:induction false} ComposeDoes<T>(s: seq<Edit<T>>, t: seq<Edit<T>>)
    requires Target(s) == Source(t)
    ensures Does(Compose(s, t), s, t)
    decreases |s| + |t|
  {
    if s == [] {
    } else if s[0].Delete? {
      ComposeDoes(s[1..], t);
      assert ([s[0]] + Compose(s[1..], t))[1..] == Compose(s[1..], t);
    } else if t == [] {
    } else if t[0].Insert? {
      ComposeDoes(s, t[1..]);
      assert ([t[0]] + Compose(s, t[1..]))[1..] == Compose(s, t[1..]);
    } else {
      assert Target(s)[0] == Writes(s[0])[0] && Source(t)[0] == Reads(t[0])[0];
      assert Target(s)[1..] == Target(s[1..]) && Source(t)[1..] == Source(t[1..]);
      ComposeDoes(s[1..], t[1..]);
      JoinDoes(s[0], t[0], Compose(s[1..], t[1..]), s, t);
    }
  }

  lemma {:induction false} FreeScriptKeeps<T>(s: seq<Edit<T>>)
    requires Cost(s) == 0
    ensures Source(s) == Target(s)
  {
    if s != [] { FreeScriptKeeps(s[1..]); }
  }

  lemma {:induction false} CostBoundsLengths<T>(s: seq<Edit<T>>)
    ensures |Source(s)| <= |Target(s)| + Cost(s)
    ensures |Target(s)| <= |Source(s)| + Cost(s)
  {
    if s != [] { CostBoundsLengths(s[1..]); }
  }

  lemma {:induction false} LevAtMostLonger<T>(a: seq<T>, b: seq<T>)
    ensures Lev(a, b) <= if |a| <= |b| then |b| else |a|
    decreases |a| + |b|
  {
    if a != [] && b != [] { LevAtMostLonger(a[..|a| - 1], b[..|b| - 1]); }
  }

  lemma {:induction false} LevSelf<T>(a: seq<T>)
    ensures Lev(a, a) == 0
  {
    if a != [] { LevSelf(a[..|a| - 1]); }
  }

  lemma {:induction false} DistanceZeroIffEqual<T>(a: seq<T>, b: seq<T>)
    ensures Lev(a, b) == 0 <==> a == b
  {
    LevSelf(a);
    BestScriptAttains(a, b);
    if Lev(a, b) == 0 { FreeScriptKeeps(BestScript(a, b)); }
  }

  lemma {:induction false} DistanceSymmetric<T>(a: seq<T>, b: seq<T>)
    ensures Lev(a, b) == Lev(b, a)
  {
    BestScriptAttains(a, b);
    BestScriptAttains(b, a);
    UndoReverses(BestScript(a, b));
    UndoReverses(BestScript(b, a));
    LevBoundsScripts(Undo(BestScript(a, b)));
    LevBoundsScripts(Undo(BestScript(b, a)));
  }

  lemma {:induction false} DistanceTriangle<T>(a: seq<T>, b: seq<T>, c: seq<T>)
    ensures Lev(a, c) <= Lev(a, b) + Lev(b, c)
  {
    BestScriptAttains(a, b);
    BestScriptAttains(b, c);
    ComposeDoes(BestScript(a, b), BestScript(b, c));
    LevBoundsScripts(Compose(BestScript(a, b), BestScript(b, c)));
  }

  lemma {:induction false} DistanceBounds<T>(a: seq<T>, b: seq<T>)
    ensures |a| - |b| <= Lev(a, b) && |b| - |a| <= Lev(a, b)
    ensures Lev(a, b) <= if |a| <= |b| then |b| else |a|
  {
    BestScriptAttains(a, b);
    CostBoundsLengths(BestScript(a, b));
    LevAtMostLonger(a, b);
  }
}
