/** What trimming takes off a name. */
module Trimming {
  import opened MetadataKeys

  ghost predicate Spaces(s: string) {
    forall i :: 0 <= i < |s| ==> IsSpace(s[i])
  }

  lemma {:induction false} TrimStartPadded(before: string, s: string)
    requires Spaces(before) && (s != "" ==> !IsSpace(s[0]))
    ensures TrimStart(before + s) == s
  {
    if before == "" {
      assert before + s == s;
    } else {
      assert IsSpace(before[0]) && (before + s)[1..] == before[1..] + s;
      TrimStartPadded(before[1..], s);
    }
  }

  lemma {:induction false} TrimEndPadded(s: string, after: string)
    requires Spaces(after) && (s != "" ==> !IsSpace(s[|s| - 1]))
    ensures TrimEnd(s + after) == s
    decreases |after|
  {
    if after == "" {
      assert s + after == s;
    } else {
      var n := |after| - 1;
      assert IsSpace(after[n]) && (s + after)[..|s + after| - 1] == s + after[..n];
      TrimEndPadded(s, after[..n]);
    }
  }

  lemma TrimPadded(before: string, s: string, after: string)
    requires Spaces(before) && Spaces(after)
    requires s != "" && !IsSpace(s[0]) && !IsSpace(s[|s| - 1])
    ensures Trim(before + s + after) == s
  {
    assert before + s + after == before + (s + after);
    TrimStartPadded(before, s + after);
    TrimEndPadded(s, after);
  }

  lemma TrimNothing(before: string, after: string)
    requires Spaces(before) && Spaces(after)
    ensures Trim(before + "" + after) == ""
  {
    assert before + "" + after == (before + after) + "";
    TrimStartPadded(before + after, "");
  }

  /** Spaces, tabs and line ends are white space; letters, digits and the marks of SQL names are not. */
  lemma WhiteSpace(c: char)
    ensures c == ' ' || c == '\t' || c == '\n' || c == '\r' ==> IsSpace(c)
    ensures '!' <= c <= '~' ==> !IsSpace(c)
  {
  }
}
