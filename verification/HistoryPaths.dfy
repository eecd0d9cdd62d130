/** What local history files a snapshot under. */
module HistoryPaths {
  import opened HistoryRows
  import opened LocalHistory
  import opened Options

  /** `core` is the text without its outer white space. */
  ghost predicate CoreOf(path: string, before: string, core: string, after: string) {
    && path == before + core + after
    && (forall i :: 0 <= i < |before| ==> IsSpace(before[i])) && (forall i :: 0 <= i < |after| ==> IsSpace(after[i]))
    && (core != "" ==> !IsSpace(core[0]) && !IsSpace(core[|core| - 1]))
  }

  predicate Slash(c: char) {
    c == '/' || c == '\\'
  }

  /** The same but for the direction of slashes. */
  ghost predicate SameButSlashes(a: string, b: string) {
    |a| == |b| && forall i :: 0 <= i < |a| ==> a[i] == b[i] || (Slash(a[i]) && Slash(b[i]))
  }

  lemma {:induction false} TrimStartTo(before: string, s: string)
    requires (forall i :: 0 <= i < |before| ==> IsSpace(before[i])) && (s != "" ==> !IsSpace(s[0]))
    ensures TrimStart(before + s) == s
  {
    if before == "" {
      assert before + s == s;
    } else {
      assert (before + s)[1..] == before[1..] + s;
      TrimStartTo(before[1..], s);
    }
  }

  lemma {:induction false} TrimEndTo(s: string, after: string)
    requires (forall i :: 0 <= i < |after| ==> IsSpace(after[i])) && (s != "" ==> !IsSpace(s[|s| - 1]))
    ensures TrimEnd(s + after) == s
    decreases |after|
  {
    if after == "" {
      assert s + after == s;
    } else {
      var n := |after| - 1;
      assert (s + after)[..|s + after| - 1] == s + after[..n];
      TrimEndTo(s, after[..n]);
    }
  }

  lemma TrimIsCore(path: string, before: string, core: string, after: string)
    requires CoreOf(path, before, core, after)
    ensures TrimEnd(TrimStart(path)) == core
  {
    if core == "" {
      assert path == (before + after) + "";
      TrimStartTo(before + after, "");
    } else {
      assert path == before + (core + after);
      TrimStartTo(before, core + after);
      TrimEndTo(core, after);
    }
  }

  /** Every text has a core. */
  lemma {:induction false} SomeCore(path: string)
    ensures exists before, core, after :: CoreOf(path, before, core, after)
    decreases |path|
  {
    if path != "" && IsSpace(path[0]) {
      SomeCore(path[1..]);
      var before, core, after :| CoreOf(path[1..], before, core, after);
      assert path == [path[0]] + path[1..] && path == ([path[0]] + before) + core + after;
      assert CoreOf(path, [path[0]] + before, core, after);
    } else if path != "" && IsSpace(path[|path| - 1]) {
      var n := |path| - 1;
      SomeCore(path[..n]);
      var before, core, after :| CoreOf(path[..n], before, core, after);
      assert path == path[..n] + [path[n]] && path == before + core + (after + [path[n]]);
      assert CoreOf(path, before, core, after + [path[n]]);
    } else {
      assert path == "" + path + "";
      assert CoreOf(path, "", path, "");
    }
  }

  lemma {:induction false} SlashesAt(s: string)
    ensures |Slashes(s)| == |s|
    ensures forall i :: 0 <= i < |s| ==> Slashes(s)[i] == if s[i] == '\\' then '/' else s[i]
  {
    if s != "" {
      SlashesAt(s[1..]);
      assert s == [s[0]] + s[1..];
    }
  }

  /** A path of nothing but white space is refused; any other two are filed under the same name
      exactly when they agree up to outer white space and the direction of slashes. */
  lemma SameHistoryIff(p: string, a: string, c: string, b: string, q: string, x: string, d: string, y: string)
    requires CoreOf(p, a, c, b) && CoreOf(q, x, d, y)
    ensures NormalizePath(p) == Err(PathRequired) <==> c == ""
    ensures c != "" && d != "" ==> (NormalizePath(p) == NormalizePath(q) <==> SameButSlashes(c, d))
  {
    TrimIsCore(p, a, c, b);
    TrimIsCore(q, x, d, y);
    SlashesAt(c);
    SlashesAt(d);
    if c != "" && d != "" && NormalizePath(p) == NormalizePath(q) {
      assert |c| == |d|;
      forall i | 0 <= i < |c| ensures c[i] == d[i] || (Slash(c[i]) && Slash(d[i])) {
        assert Slashes(c)[i] == Slashes(d)[i];
      }
    }
    if SameButSlashes(c, d) { assert Slashes(c) == Slashes(d); }
  }

  /** The name a row is filed under has only forward slashes and no outer white space, and a
      snapshot is refused, skipped or filed under its own path's name. */
  lemma FiledUnderItsName(lib: Library, s: Store, path: string, text: string, reason: Option<string>, createdAt: int, now: int)
    ensures match Snapshot(lib, s, path, text, reason, createdAt, now).1
            case Err(e) => (e == PathRequired && NormalizePath(path).Err?) || (e == TooLarge && lib.bytes(text) > 2097152)
            case Ok(None) => NormalizePath(path).Ok? && Latest(s.rows, NormalizePath(path).value) == Some(lib.hash(text))
            case Ok(Some(row)) =>
              && NormalizePath(path) == Ok(row.path) && row.id == s.nextId && row.hash == lib.hash(text)
              && row.createdAt == createdAt && row.byteLen == lib.bytes(text) <= 2097152
              && Latest(s.rows, row.path) != Some(row.hash) && '\\' !in row.path && row.path != ""
  {
    hide Inserted;
    var trimmed := TrimEnd(TrimStart(path));
    SlashesAt(trimmed);
  }

  /** The reason shown: at most 64 characters of what was said, `save` when that is nothing. */
  lemma ReasonMeans(said: string, before: string, core: string, after: string)
    requires CoreOf(said, before, core, after)
    ensures Reason(None) == "save"
    ensures Reason(Some(said)) == if core == "" then "save" else if |core| > 64 then core[..64] else core
  {
    TrimIsCore(said, before, core, after);
    assert CoreOf("save", "", "save", "");
    TrimIsCore("save", "", "save", "");
  }

  /** What a pruning keeps: at most fifty rows, none older than a week, and no fewer than that. */
  lemma KeptSpelled(list: seq<Row>, kept: seq<Row>, now: int)
    requires KeepsNewest(list, kept, now - MAX_AGE_SECS)
    ensures kept <= list && |kept| <= 50 && (forall i :: 0 <= i < |kept| ==> kept[i].createdAt >= now - 604800)
    ensures |kept| < |list| ==> |kept| == 50 || list[|kept|].createdAt < now - 604800
  {
  }
}
