/** Searching a workspace: matches stream out in batches, under a limit for each file and
    one for the whole search. */
module WorkspaceSearch {
  import opened Options

  const DEFAULT_TOTAL_MATCH_LIMIT := 10_000
  const DEFAULT_FILE_MATCH_LIMIT := 1_000
  const MAX_TOTAL_MATCH_LIMIT := 100_000
  const MAX_FILE_MATCH_LIMIT := 10_000
  const EVENT_BATCH_SIZE := 200

  /** The matches of a file, by matching line. A file that `fails` gives an error after the
      lines listed, unless the search has stopped reading it by then. */
  datatype Entry<+M> = Broken | NotAFile | File(lines: seq<seq<M>>, fails: bool)

  datatype Root<+M> = Root(usable: bool, entries: seq<Entry<M>>)

  datatype Summary = Summary(filesScanned: nat, totalMatches: nat, truncated: bool, cancelled: bool)

  datatype Result<+T> = Ok(value: T) | Err

  // ----- What a search should find -----

  function Concat<M>(parts: seq<seq<M>>): seq<M> {
    if parts == [] then [] else Concat(parts[..|parts| - 1]) + parts[|parts| - 1]
  }

  function Cut<M>(s: seq<M>, n: nat): seq<M> {
    if |s| <= n then s else s[..n]
  }

  /** The files in walk order, each as the list of its matches. */
  function FilesOf<M>(entries: seq<Entry<M>>): seq<seq<M>> {
    if entries == [] then []
    else
      var before, last := FilesOf(entries[..|entries| - 1]), entries[|entries| - 1];
      if last.File? then before + [Concat(last.lines)] else before
  }

  function AllFiles<M>(roots: seq<Root<M>>): seq<seq<M>> {
    if roots == [] then [] else AllFiles(roots[..|roots| - 1]) + FilesOf(roots[|roots| - 1].entries)
  }

  /** The first `fileLimit` matches of each file, one after the other. */
  function Items<M>(files: seq<seq<M>>, fileLimit: nat): seq<M> {
    if files == [] then [] else Items(files[..|files| - 1], fileLimit) + Cut(files[|files| - 1], fileLimit)
  }

  function Wanted<M>(files: seq<seq<M>>, fileLimit: nat, totalLimit: nat): seq<M> {
    Cut(Items(files, fileLimit), totalLimit)
  }

  // ----- Cutting and adding -----

  lemma ConcatSnoc<M>(parts: seq<seq<M>>, part: seq<M>)
    ensures Concat(parts + [part]) == Concat(parts) + part
  {
    assert (parts + [part])[..|parts|] == parts;
  }

  lemma NoLines<M>()
    ensures Concat<M>([]) == []
  {
  }

  lemma PushedFound<M>(emitted: seq<seq<M>>, batch: seq<M>, m: M)
    ensures Concat(emitted) + (batch + [m]) == Concat(emitted) + batch + [m]
    ensures Concat(emitted + [batch + [m]]) + [] == Concat(emitted) + batch + [m]
  {
    ConcatSnoc(emitted, batch + [m]);
  }

  lemma {:induction false} ConcatPrefix<M>(parts: seq<seq<M>>, i: nat)
    requires i <= |parts|
    ensures Concat(parts[..i]) <= Concat(parts)
    decreases |parts| - i
  {
    if i < |parts| {
      ConcatPrefix(parts, i + 1);
      assert parts[..i + 1][..i] == parts[..i];
    } else {
      assert parts[..i] == parts;
    }
  }

  /** A line's matches lie after those of the lines before it. */
  lemma LineLies<M>(lines: seq<seq<M>>, i: nat)
    requires i < |lines|
    ensures Concat(lines[..i + 1]) == Concat(lines[..i]) + lines[i]
    ensures |Concat(lines[..i])| + |lines[i]| <= |Concat(lines)|
    ensures forall n :: 0 <= n <= |lines[i]| ==>
              Concat(lines[..i]) + lines[i][..n] == Concat(lines)[..|Concat(lines[..i])| + n]
  {
    assert lines[..i + 1][..i] == lines[..i];
    ConcatPrefix(lines, i + 1);
    var all := Concat(lines[..i + 1]);
    assert forall k :: 0 <= k < |all| ==> Concat(lines)[k] == all[k];
  }

  lemma ItemsSnoc<M>(files: seq<seq<M>>, file: seq<M>, fileLimit: nat)
    ensures Items(files + [file], fileLimit) == Items(files, fileLimit) + Cut(file, fileLimit)
  {
    assert (files + [file])[..|files|] == files;
  }

  lemma {:induction false} ItemsPrefix<M>(files: seq<seq<M>>, more: seq<seq<M>>, fileLimit: nat)
    ensures Items(files, fileLimit) <= Items(files + more, fileLimit)
    decreases |more|
  {
    if more == [] {
      assert files + more == files;
    } else {
      var init := more[..|more| - 1];
      ItemsPrefix(files, init, fileLimit);
      ItemsSnoc(files + init, more[|more| - 1], fileLimit);
      assert files + more == files + init + [more[|more| - 1]];
    }
  }

  lemma CutPrefix<M>(a: seq<M>, b: seq<M>, n: nat)
    requires a <= b
    ensures Cut(a, n) <= Cut(b, n) && (|a| >= n ==> Cut(a, n) == Cut(b, n))
  {
  }

  lemma CutAppend<M>(items: seq<M>, file: seq<M>, fileLimit: nat, totalLimit: nat, n: nat)
    requires n <= |file| && n <= fileLimit && |items| + n <= totalLimit
    ensures items + file[..n] <= Cut(items + Cut(file, fileLimit), totalLimit)
    ensures n == |file| || n == fileLimit || |items| + n == totalLimit ==>
              items + file[..n] == Cut(items + Cut(file, fileLimit), totalLimit)
  {
    var more := Cut(file, fileLimit);
    assert more[..n] == file[..n];
    assert (items + more)[..|items| + n] == items + file[..n];
    assert |items + more| > totalLimit ==> (items + more)[..totalLimit][..|items| + n] == items + file[..n];
  }

  /** One more file: what is found grows by as much of it as both limits leave room for. */
  lemma WantedSnoc<M>(files: seq<seq<M>>, file: seq<M>, fileLimit: nat, totalLimit: nat, n: nat)
    requires n <= |file| && n <= fileLimit && |Wanted(files, fileLimit, totalLimit)| + n <= totalLimit
    ensures Wanted(files, fileLimit, totalLimit) + file[..n] <= Wanted(files + [file], fileLimit, totalLimit)
    ensures n == |file| || n == fileLimit || |Wanted(files, fileLimit, totalLimit)| + n == totalLimit ==>
              Wanted(files, fileLimit, totalLimit) + file[..n] == Wanted(files + [file], fileLimit, totalLimit)
  {
    hide Items;
    ItemsSnoc(files, file, fileLimit);
    var items := Items(files, fileLimit);
    if |items| > totalLimit {
      assert n == 0 && file[..0] == [];
      CutPrefix(items, items + Cut(file, fileLimit), totalLimit);
    } else {
      CutAppend(items, file, fileLimit, totalLimit, n);
    }
  }

  lemma WantedPrefix<M>(files: seq<seq<M>>, more: seq<seq<M>>, fileLimit: nat, totalLimit: nat)
    ensures Wanted(files, fileLimit, totalLimit) <= Wanted(files + more, fileLimit, totalLimit)
    ensures |Wanted(files, fileLimit, totalLimit)| == totalLimit ==>
              Wanted(files, fileLimit, totalLimit) == Wanted(files + more, fileLimit, totalLimit)
  {
    ItemsPrefix(files, more, fileLimit);
    CutPrefix(Items(files, fileLimit), Items(files + more, fileLimit), totalLimit);
  }

  // ----- The search -----

  function Clamp(n: nat, low: nat, high: nat): nat {
    if n < low then low else if n > high then high else n
  }

  function TotalLimit(limit: Option<nat>): nat {
    Clamp(if limit.Some? then limit.value else DEFAULT_TOTAL_MATCH_LIMIT, 1, MAX_TOTAL_MATCH_LIMIT)
  }

  function FileLimit(limit: Option<nat>): nat {
    Clamp(if limit.Some? then limit.value else DEFAULT_FILE_MATCH_LIMIT, 1, MAX_FILE_MATCH_LIMIT)
  }

  /** Once set, the flag stays set. */
  ghost predicate StaysSet(cancel: nat -> bool) {
    forall t, u :: t <= u && cancel(t) ==> cancel(u)
  }

  /** Batches of exactly 200. */
  ghost predicate FullBatches<M>(batches: seq<seq<M>>) {
    forall i :: 0 <= i < |batches| ==> |batches[i]| == EVENT_BATCH_SIZE
  }

  /** Batches of exactly 200, the last of 1 to 200. */
  ghost predicate WellBatched<M>(batches: seq<seq<M>>) {
    batches == [] || (FullBatches(batches[..|batches| - 1]) && 0 < |batches[|batches| - 1]| <= EVENT_BATCH_SIZE)
  }

  /** The variables of one search and of the callbacks it passes down. `cancel(t)` is what
      reading the flag for the `t`-th time gives. */
  class Search<M(!new)> {
    const totalLimit: nat
    const fileLimit: nat
    const cancel: nat -> bool
    var looks: nat
    var filesScanned: nat
    var totalMatches: nat
    var truncated: bool
    var cancelled: bool
    var batch: seq<M>
    var emitted: seq<seq<M>>

    constructor (totalLimit: nat, fileLimit: nat, cancel: nat -> bool)
      requires totalLimit > 0 && fileLimit > 0 && StaysSet(cancel)
      ensures this.totalLimit == totalLimit && this.fileLimit == fileLimit && this.cancel == cancel
      ensures Valid() && Progress([]) && Marked([]) && totalMatches < totalLimit && !cancelled && filesScanned == 0
    {
      this.totalLimit, this.fileLimit, this.cancel := totalLimit, fileLimit, cancel;
      looks, filesScanned, totalMatches, truncated, cancelled, batch, emitted := 0, 0, 0, false, false, [], [];
    }

    ghost function Found(): seq<M>
      reads this
    {
      Concat(emitted) + batch
    }

    ghost predicate Valid()
      reads this
    {
      && StaysSet(cancel)
      && totalMatches == |Found()| <= totalLimit
      && |batch| < EVENT_BATCH_SIZE && FullBatches(emitted)
    }

    /** The flag has been seen set. */
    predicate Stopped()
      reads this
    {
      looks > 0 && cancel(looks - 1)
    }

    method ReadFlag() returns (set_: bool)
      modifies this`looks
      ensures looks == old(looks) + 1 && set_ == Stopped() == cancel(old(looks))
    {
      set_ := cancel(looks);
      looks := looks + 1;
    }

    method Push(m: M)
      requires Valid() && totalMatches < totalLimit
      modifies this`batch, this`emitted, this`totalMatches
      ensures Valid() && Found() == old(Found()) + [m]
    {
      hide Concat;
      PushedFound(emitted, batch, m);
      batch := batch + [m];
      totalMatches := totalMatches + 1;
      if |batch| >= EVENT_BATCH_SIZE {
        emitted := emitted + [batch];
        batch := [];
      }
    }

    /** The matches of one line, until a limit or the flag stops them. */
    method ScanLine(matches: seq<M>, before: nat) returns (keep: bool, n: nat)
      requires Valid() && before <= fileLimit
      modifies this`looks, this`batch, this`emitted, this`totalMatches
      ensures Valid() && n <= |matches| && before + n <= fileLimit
      ensures Found() == old(Found()) + matches[..n]
      ensures if keep then n == |matches|
              else n < |matches| && (Stopped() || before + n == fileLimit || totalMatches == totalLimit)
    {
      n := 0;
      while n < |matches|
        invariant Valid() && n <= |matches| && before + n <= fileLimit
        invariant Found() == old(Found()) + matches[..n]
      {
        var seen := ReadFlag();
        if seen || before + n >= fileLimit || totalMatches >= totalLimit { return false, n; }
        Push(matches[n]);
        n := n + 1;
      }
      keep := true;
    }

    /** The matching lines of one file. */
    method ScanFile(lines: seq<seq<M>>) returns (fileMatches: nat, finished: bool)
      requires Valid()
      modifies this`looks, this`batch, this`emitted, this`totalMatches
      ensures Valid() && fileMatches <= |Concat(lines)| && fileMatches <= fileLimit
      ensures Found() == old(Found()) + Concat(lines)[..fileMatches]
      ensures fileMatches == |Concat(lines)| || Stopped() || fileMatches == fileLimit || totalMatches == totalLimit
      ensures if finished then fileMatches == |Concat(lines)|
              else Stopped() || fileMatches == fileLimit || totalMatches == totalLimit
    {
      hide Concat;
      fileMatches := 0;
      assert lines[..0] == [] && Concat<M>([]) == [] by { NoLines<M>(); }
      for i := 0 to |lines|
        invariant Valid() && fileMatches == |Concat(lines[..i])| <= fileLimit
        invariant Found() == old(Found()) + Concat(lines[..i])
      {
        LineLies(lines, i);
        var seen := ReadFlag();
        if seen || fileMatches >= fileLimit || totalMatches >= totalLimit {
          assert lines[i][..0] == [];
          return fileMatches, false;
        }
        var keep, n := ScanLine(lines[i], fileMatches);
        fileMatches := fileMatches + n;
        if !keep { return fileMatches, false; }
        assert lines[i][..n] == lines[i];
      }
      assert lines[..|lines|] == lines;
      finished := true;
    }

    // ----- The walk -----

    /** What has been found is what should be of the files read so far, unless the flag
        stopped it short. */
    ghost predicate Progress(files: seq<seq<M>>)
      reads this
    {
      && Found() <= Wanted(files, fileLimit, totalLimit)
      && (Found() == Wanted(files, fileLimit, totalLimit) || Stopped())
    }

    /** The mark says that some limit was reached. */
    ghost predicate Marked(files: seq<seq<M>>)
      reads this
    {
      !Stopped() ==> (truncated <==> totalMatches == totalLimit || HasFull(files, fileLimit))
    }

    /** One file of the walk; `fails` gives an error if the search reads it to its end. */
    method VisitFile(lines: seq<seq<M>>, fails: bool, ghost files: seq<seq<M>>) returns (ok: bool)
      requires Valid() && Progress(files) && Marked(files) && !Stopped() && totalMatches < totalLimit
      modifies this
      ensures Valid() && Progress(files + [Concat(lines)]) && cancelled == old(cancelled)
      ensures ok ==> Marked(files + [Concat(lines)])
      ensures filesScanned == old(filesScanned) + 1
      ensures !ok ==> fails && |Concat(lines)| <= fileLimit
      ensures ok && fails && |Concat(lines)| < fileLimit ==> Stopped() || totalMatches == totalLimit
    {
      filesScanned := filesScanned + 1;
      var fileMatches, finished := ScanFile(lines);
      WantedSnoc(files, Concat(lines), fileLimit, totalLimit, fileMatches);
      HasFullSnoc(files, Concat(lines), fileLimit);
      if finished && fails { return false; }
      if fileMatches >= fileLimit || totalMatches >= totalLimit { truncated := true; }
      ok := true;
    }

    /** The walk of one root. */
    method VisitRoot(entries: seq<Entry<M>>, ghost files: seq<seq<M>>) returns (ok: bool, ghost visited: seq<seq<M>>)
      requires Valid() && Progress(files) && Marked(files) && totalMatches < totalLimit && !cancelled
      requires filesScanned == |files|
      modifies this
      ensures Valid() && Progress(visited) && visited <= files + FilesOf(entries)
      ensures filesScanned == |visited|
      ensures ok ==> Marked(visited)
      ensures cancelled ==> Stopped()
      ensures ok && !cancelled && totalMatches < totalLimit ==> visited == files + FilesOf(entries)
      ensures !ok ==> !AllRead(entries, fileLimit + 1)
      ensures ok && !cancelled && totalMatches < totalLimit ==> Stopped() || AllRead(entries, fileLimit)
    {
      hide FilesOf, Concat, Wanted, HasFull;
      visited := files;
      NoFiles(entries, files);
      for i := 0 to |entries|
        invariant Valid() && Progress(visited) && Marked(visited) && totalMatches < totalLimit && !cancelled
        invariant visited == files + FilesOf(entries[..i]) && filesScanned == |visited|
        invariant Stopped() || AllRead(entries[..i], fileLimit)
      {
        FilesLie(entries, i, files);
        EntriesRead(entries, i, fileLimit);
        EntryRead(entries, i, fileLimit + 1);
        var seen := ReadFlag();
        if seen {
          cancelled := true;
          return true, visited;
        }
        match entries[i]
        case Broken => return false, visited;
        case NotAFile => continue;
        case File(lines, fails) =>
          ok := VisitFile(lines, fails, visited);
          visited := visited + [Concat(lines)];
          if !ok || totalMatches >= totalLimit { return; }
      }
      assert entries[..|entries|] == entries;
      ok := true;
    }

    method VisitRoots(roots: seq<Root<M>>) returns (ok: bool, ghost visited: seq<seq<M>>)
      requires Valid() && Progress([]) && Marked([]) && totalMatches < totalLimit && !cancelled
      requires filesScanned == 0
      modifies this
      ensures Valid() && Progress(visited) && visited <= AllFiles(roots)
      ensures filesScanned == |visited|
      ensures ok ==> Marked(visited)
      ensures cancelled ==> Stopped()
      ensures ok && !cancelled && totalMatches < totalLimit ==> visited == AllFiles(roots)
      ensures !ok ==> !AllUsable(roots, fileLimit + 1)
      ensures ok && !cancelled && totalMatches < totalLimit ==> Stopped() || AllUsable(roots, fileLimit)
    {
      hide FilesOf, AllFiles, Wanted, HasFull, AllRead;
      visited := [];
      NoRoots(roots);
      for i := 0 to |roots|
        invariant Valid() && Progress(visited) && Marked(visited) && totalMatches < totalLimit && !cancelled
        invariant visited == AllFiles(roots[..i]) && filesScanned == |visited|
        invariant Stopped() || AllUsable(roots[..i], fileLimit)
      {
        RootsLie(roots, i);
        RootsRead(roots, i, fileLimit);
        var seen := ReadFlag();
        if seen {
          cancelled := true;
          return true, visited;
        }
        if !roots[i].usable { return false, visited; }
        ok, visited := VisitRoot(roots[i].entries, visited);
        if !ok || cancelled || totalMatches >= totalLimit { return; }
      }
      assert roots[..|roots|] == roots;
      ok := true;
    }

    /** The whole search. On an error the batch under way is dropped with it. */
    method Run(roots: seq<Root<M>>) returns (r: Result<Summary>)
      requires Valid() && Progress([]) && Marked([]) && totalMatches < totalLimit && !cancelled
      requires filesScanned == 0
      modifies this
      ensures AllUsable(roots, fileLimit + 1) ==> r.Ok?
      ensures r.Ok? ==> looks > 0 && (r.value.cancelled <==> Stopped())
      ensures r.Ok? ==> r.value.filesScanned <= |AllFiles(roots)|
      ensures r.Ok? && !r.value.cancelled ==>
                Concat(emitted) == Wanted(AllFiles(roots)[..r.value.filesScanned], fileLimit, totalLimit)
      ensures r.Ok? && !r.value.cancelled && r.value.totalMatches < totalLimit ==>
                AllUsable(roots, fileLimit) && r.value.filesScanned == |AllFiles(roots)|
      ensures Concat(emitted) <= Wanted(AllFiles(roots), fileLimit, totalLimit)
      ensures r.Ok? ==> WellBatched(emitted) && r.value.totalMatches == |Concat(emitted)|
      ensures r.Err? ==> FullBatches(emitted)
      ensures r.Ok? && !r.value.cancelled ==>
                Concat(emitted) == Wanted(AllFiles(roots), fileLimit, totalLimit)
                && (r.value.truncated <==>
                      |Concat(emitted)| == totalLimit || HasFull(AllFiles(roots), fileLimit))
    {
      hide AllFiles, Wanted, Concat, AllUsable, HasFull;
      var ok, visited := VisitRoots(roots);
      assert visited == AllFiles(roots)[..filesScanned];
      RestIsWanted(visited, AllFiles(roots), fileLimit, totalLimit);
      if !ok { return Err; }
      ghost var found := Found();
      ConcatSnoc(emitted, batch);
      if |batch| > 0 {
        emitted := emitted + [batch];
        batch := [];
      }
      assert Concat(emitted) == found;
      var seen := ReadFlag();
      if seen { cancelled := true; }
      r := Ok(Summary(filesScanned, totalMatches, truncated, cancelled));
    }
  }

  /** No entry is broken, and no file fails that the search could read to its end: fewer matches
      than `bound` could have stopped it. */
  ghost predicate AllRead<M>(entries: seq<Entry<M>>, bound: nat) {
    forall i :: 0 <= i < |entries| ==>
      entries[i] != Broken && (entries[i].File? && entries[i].fails ==> |Concat(entries[i].lines)| >= bound)
  }

  ghost predicate AllUsable<M>(roots: seq<Root<M>>, bound: nat) {
    forall i :: 0 <= i < |roots| ==> roots[i].usable && AllRead(roots[i].entries, bound)
  }

  lemma EntriesRead<M>(entries: seq<Entry<M>>, i: nat, bound: nat)
    requires i < |entries|
    ensures AllRead(entries[..i + 1], bound) <==>
              AllRead(entries[..i], bound) && entries[i] != Broken
              && (entries[i].File? && entries[i].fails ==> |Concat(entries[i].lines)| >= bound)
  {
    var all := entries[..i + 1];
    assert all[i] == entries[i] && forall j :: 0 <= j < i ==> all[j] == entries[..i][j];
  }

  lemma EntryRead<M>(entries: seq<Entry<M>>, i: nat, bound: nat)
    requires i < |entries|
    ensures AllRead(entries, bound) ==>
              entries[i] != Broken && (entries[i].File? && entries[i].fails ==> |Concat(entries[i].lines)| >= bound)
  {
  }

  lemma RootsRead<M>(roots: seq<Root<M>>, i: nat, bound: nat)
    requires i < |roots|
    ensures AllUsable(roots[..i + 1], bound) <==>
              AllUsable(roots[..i], bound) && roots[i].usable && AllRead(roots[i].entries, bound)
  {
    var all := roots[..i + 1];
    assert all[i] == roots[i] && forall j :: 0 <= j < i ==> all[j] == roots[..i][j];
  }

  lemma RestIsWanted<M>(visited: seq<seq<M>>, all: seq<seq<M>>, fileLimit: nat, totalLimit: nat)
    requires visited <= all
    ensures Wanted(visited, fileLimit, totalLimit) <= Wanted(all, fileLimit, totalLimit)
    ensures |Wanted(visited, fileLimit, totalLimit)| == totalLimit ==>
              Wanted(visited, fileLimit, totalLimit) == Wanted(all, fileLimit, totalLimit)
  {
    assert all == visited + all[|visited|..];
    WantedPrefix(visited, all[|visited|..], fileLimit, totalLimit);
  }

  ghost predicate HasFull<M>(files: seq<seq<M>>, fileLimit: nat) {
    exists i :: 0 <= i < |files| && |files[i]| >= fileLimit
  }

  lemma HasFullSnoc<M>(files: seq<seq<M>>, file: seq<M>, fileLimit: nat)
    ensures HasFull(files + [file], fileLimit) <==> HasFull(files, fileLimit) || |file| >= fileLimit
  {
    var all := files + [file];
    if i :| 0 <= i < |files| && |files[i]| >= fileLimit { assert |all[i]| >= fileLimit; }
    if |file| >= fileLimit { assert |all[|files|]| >= fileLimit; }
  }

  lemma NoFiles<M>(entries: seq<Entry<M>>, files: seq<seq<M>>)
    ensures FilesOf(entries[..0]) == [] && files + [] == files && files <= files + FilesOf(entries)
  {
  }

  /** The files of a walk come in order. */
  lemma FilesLie<M>(entries: seq<Entry<M>>, i: nat, files: seq<seq<M>>)
    requires i < |entries|
    ensures FilesOf(entries[..i + 1])
         == FilesOf(entries[..i]) + if entries[i].File? then [Concat(entries[i].lines)] else []
    ensures files + FilesOf(entries[..i + 1]) <= files + FilesOf(entries)
  {
    assert entries[..i + 1][..i] == entries[..i];
    FilesGrow(entries, i + 1);
  }

  lemma {:induction false} FilesGrow<M>(entries: seq<Entry<M>>, i: nat)
    requires i <= |entries|
    ensures FilesOf(entries[..i]) <= FilesOf(entries)
    decreases |entries| - i
  {
    if i < |entries| {
      FilesGrow(entries, i + 1);
      assert entries[..i + 1][..i] == entries[..i];
    } else {
      assert entries[..i] == entries;
    }
  }

  lemma NoRoots<M>(roots: seq<Root<M>>)
    ensures AllFiles(roots[..0]) == [] && [] <= AllFiles(roots)
  {
  }

  lemma RootsLie<M>(roots: seq<Root<M>>, i: nat)
    requires i < |roots|
    ensures AllFiles(roots[..i + 1]) == AllFiles(roots[..i]) + FilesOf(roots[i].entries)
    ensures AllFiles(roots[..i]) <= AllFiles(roots[..i + 1]) <= AllFiles(roots)
  {
    assert roots[..i + 1][..i] == roots[..i];
    RootsGrow(roots, i + 1);
  }

  lemma {:induction false} RootsGrow<M>(roots: seq<Root<M>>, i: nat)
    requires i <= |roots|
    ensures AllFiles(roots[..i]) <= AllFiles(roots)
    decreases |roots| - i
  {
    if i < |roots| {
      RootsGrow(roots, i + 1);
      assert roots[..i + 1][..i] == roots[..i];
    } else {
      assert roots[..i] == roots;
    }
  }

  /** `run_workspace_search` with its options. */
  method RunWorkspaceSearch<M(!new)>(roots: seq<Root<M>>, maxTotal: Option<nat>, maxPerFile: Option<nat>, cancel: nat -> bool)
      returns (r: Result<Summary>, batches: seq<seq<M>>, ghost looks: nat)
    requires StaysSet(cancel)
    ensures AllUsable(roots, FileLimit(maxPerFile) + 1) ==> r.Ok?
    ensures r.Ok? ==> (r.value.cancelled <==> exists t :: 0 <= t < looks && cancel(t))
    ensures r.Ok? ==> looks > 0 && r.value.filesScanned <= |AllFiles(roots)|
    ensures r.Ok? && !r.value.cancelled ==>
              Concat(batches)
              == Wanted(AllFiles(roots)[..r.value.filesScanned], FileLimit(maxPerFile), TotalLimit(maxTotal))
    ensures r.Ok? && !r.value.cancelled && r.value.totalMatches < TotalLimit(maxTotal) ==>
              AllUsable(roots, FileLimit(maxPerFile)) && r.value.filesScanned == |AllFiles(roots)|
    ensures Concat(batches) <= Wanted(AllFiles(roots), FileLimit(maxPerFile), TotalLimit(maxTotal))
    ensures r.Ok? ==> WellBatched(batches) && r.value.totalMatches == |Concat(batches)|
    ensures r.Err? ==> FullBatches(batches)
    ensures r.Ok? && !r.value.cancelled ==>
              Concat(batches) == Wanted(AllFiles(roots), FileLimit(maxPerFile), TotalLimit(maxTotal))
              && (r.value.truncated <==>
                    |Concat(batches)| == TotalLimit(maxTotal) || HasFull(AllFiles(roots), FileLimit(maxPerFile)))
  {
    var search := new Search<M>(TotalLimit(maxTotal), FileLimit(maxPerFile), cancel);
    r := search.Run(roots);
    batches, looks := search.emitted, search.looks;
  }

  /** The limits asked for, between 1 and 100000 in all and 10000 a file; 10000 and 1000 when none is. */
  lemma LimitsSpelled(n: nat)
    ensures TotalLimit(None) == 10000 && FileLimit(None) == 1000
    ensures TotalLimit(Some(n)) == if n == 0 then 1 else if n > 100000 then 100000 else n
    ensures FileLimit(Some(n)) == if n == 0 then 1 else if n > 10000 then 10000 else n
  {
  }

  /** Batches are of 200 matches, the last of at most that many. */
  lemma BatchesSpelled<M>(batches: seq<seq<M>>, i: nat)
    requires WellBatched(batches) && i < |batches|
    ensures if i < |batches| - 1 then |batches[i]| == 200 else 0 < |batches[i]| <= 200
  {
    if i < |batches| - 1 { assert batches[..|batches| - 1][i] == batches[i]; }
  }

  // ----- What the truncation mark tells -----

  /** A limit cut something off. */
  ghost predicate CutSomething<M>(files: seq<seq<M>>, fileLimit: nat, totalLimit: nat) {
    (exists i :: 0 <= i < |files| && |files[i]| > fileLimit) || |Items(files, fileLimit)| > totalLimit
  }

  lemma {:induction false} ItemsLength<M>(files: seq<seq<M>>, fileLimit: nat)
    ensures |Items(files, fileLimit)| <= |Concat(files)|
    ensures (forall i :: 0 <= i < |files| ==> |files[i]| <= fileLimit) ==> Items(files, fileLimit) == Concat(files)
    ensures (exists i :: 0 <= i < |files| && |files[i]| > fileLimit) ==> |Items(files, fileLimit)| < |Concat(files)|
    decreases |files|
  {
    if files != [] {
      var n := |files| - 1;
      ItemsLength(files[..n], fileLimit);
      assert forall i :: 0 <= i < n ==> files[..n][i] == files[i];
    }
  }

  /** Matches are missing exactly when a file has more than its limit or all files together,
      so cut, more than the total. */
  lemma OmittedIff<M>(files: seq<seq<M>>, fileLimit: nat, totalLimit: nat)
    ensures Wanted(files, fileLimit, totalLimit) != Concat(files) <==> CutSomething(files, fileLimit, totalLimit)
  {
    ItemsLength(files, fileLimit);
    if !CutSomething(files, fileLimit, totalLimit) {
      assert forall i :: 0 <= i < |files| ==> |files[i]| <= fileLimit;
    }
  }

  /** Without the mark nothing is missing. */
  lemma UnmarkedIsComplete<M>(files: seq<seq<M>>, fileLimit: nat, totalLimit: nat)
    requires |Wanted(files, fileLimit, totalLimit)| != totalLimit && !HasFull(files, fileLimit)
    ensures Wanted(files, fileLimit, totalLimit) == Concat(files)
  {
    OmittedIff(files, fileLimit, totalLimit);
  }

  /** With it, something is missing unless a limit was met to the match: the mark goes up as
      soon as a limit is reached, before anything has been cut off. */
  lemma MarkedIsIncompleteIff<M>(files: seq<seq<M>>, fileLimit: nat, totalLimit: nat)
    requires |Wanted(files, fileLimit, totalLimit)| == totalLimit || HasFull(files, fileLimit)
    ensures Wanted(files, fileLimit, totalLimit) == Concat(files) <==>
              (forall i :: 0 <= i < |files| ==> |files[i]| <= fileLimit) && |Concat(files)| <= totalLimit
  {
    ItemsLength(files, fileLimit);
    OmittedIff(files, fileLimit, totalLimit);
  }

  lemma ExactlyFullIsMarkedYetComplete<M>(file: seq<M>, fileLimit: nat, totalLimit: nat)
    requires |file| == fileLimit <= totalLimit
    ensures HasFull([file], fileLimit) && Wanted([file], fileLimit, totalLimit) == Concat([file])
  {
    assert [file][..0] == [] && [] + file == file;
    assert |[file][0]| >= fileLimit;
    ItemsLength([file], fileLimit);
  }
}
