/** The regular-expression rewrites the two HTML cleaners apply, written out
    as the leftmost-first, non-overlapping scans Go's `regexp` performs for
    `ReplaceAllString`. `\s` in these patterns is RE2's ASCII class
    `[\t\n\f\r ]`; `[^>]` also matches a newline. */
module Html {
  import opened Text

  /** A rune of RE2's `\s`. */
  predicate IsReSpace(c: char)
  {
    c == '\t' || c == '\n' || c == '\U{000C}' || c == '\r' || c == ' '
  }

  /** Index of the first `c` in s, if there is one. */
  function IndexOf(s: string, c: char): (k: int)
    ensures -1 <= k < |s|
    ensures k == -1 <==> c !in s
    ensures k >= 0 ==> s[k] == c && c !in s[..k]
  {
    if |s| == 0 then -1
    else if s[0] == c then 0
    else
      var k := IndexOf(s[1..], c);
      if k == -1 then -1
      else
        assert s[..k + 1] == [s[0]] + s[1..][..k];
        k + 1
  }

  /** No `<` is followed, anywhere later, by a `>`. */
  predicate NoTag(s: string)
    decreases |s|
  {
    |s| == 0 || ((s[0] == '<' ==> '>' !in s[1..]) && NoTag(s[1..]))
  }

  /** `regexp.MustCompile("<[^>]*>").ReplaceAllString(s, "")`: a `<` with a
      later `>` is removed together with everything up to the first such
      `>`; a `<` without one stays. */
  function StripTags(s: string): (r: string)
    ensures |r| <= |s|
    decreases |s|
  {
    if |s| == 0 then []
    else
      var k := IndexOf(s[1..], '>');
      if s[0] == '<' && k >= 0 then StripTags(s[k + 2..])
      else [s[0]] + StripTags(s[1..])
  }

  /** `StripTags` only removes characters: a character absent from s is
      absent from the result. */
  lemma {:induction false} StripTagsRemovesOnly(s: string, c: char)
    requires c !in s
    ensures c !in StripTags(s)
    decreases |s|
  {
    if |s| > 0 {
      var k := IndexOf(s[1..], '>');
      if s[0] == '<' && k >= 0 {
        assert c !in s[k + 2..] by {
          assert s == s[..k + 2] + s[k + 2..];
        }
        StripTagsRemovesOnly(s[k + 2..], c);
      } else {
        assert c !in s[1..] by {
          assert s == [s[0]] + s[1..];
        }
        StripTagsRemovesOnly(s[1..], c);
      }
    }
  }

  /** No tag survives `StripTags`. */
  lemma {:induction false} StripTagsLeavesNoTag(s: string)
    ensures NoTag(StripTags(s))
    decreases |s|
  {
    if |s| > 0 {
      var k := IndexOf(s[1..], '>');
      if s[0] == '<' && k >= 0 {
        StripTagsLeavesNoTag(s[k + 2..]);
      } else {
        StripTagsLeavesNoTag(s[1..]);
        var r := StripTags(s[1..]);
        assert s[0] == '<' ==> '>' !in r by {
          if s[0] == '<' {
            StripTagsRemovesOnly(s[1..], '>');
          }
        }
        assert ([s[0]] + r)[1..] == r;
      }
    }
  }

  /** Text without a `<` passes `StripTags` unchanged. */
  lemma {:induction false} StripTagsWithoutOpen(s: string)
    requires '<' !in s
    ensures StripTags(s) == s
    decreases |s|
  {
    if |s| > 0 {
      StripTagsWithoutOpen(s[1..]);
      assert s == [s[0]] + s[1..];
    }
  }

  /** Length of the run of RE2 spaces at the front of s. */
  function SpaceRun(s: string): (n: nat)
    ensures n <= |s|
    ensures forall i :: 0 <= i < n ==> IsReSpace(s[i])
    ensures n < |s| ==> !IsReSpace(s[n])
  {
    if |s| == 0 || !IsReSpace(s[0]) then 0 else 1 + SpaceRun(s[1..])
  }

  /** Index of the last newline of s, or -1. */
  function LastNewline(s: string): (k: int)
    ensures -1 <= k < |s|
    ensures k >= 0 ==> s[k] == '\n'
    ensures forall i :: k < i < |s| ==> s[i] != '\n'
  {
    if |s| == 0 then -1
    else if s[|s| - 1] == '\n' then |s| - 1
    else LastNewline(s[..|s| - 1])
  }

  /** `regexp.MustCompile("\n\\s*\n").ReplaceAllString(s, "\n\n")`: from a
      newline, the greedy `\s*` takes the whole run of spaces after it and
      gives back up to the last newline in that run. */
  function CollapseBlankLines(s: string): (r: string)
    decreases |s|
  {
    if |s| == 0 then []
    else
      var run := SpaceRun(s[1..]);
      var k := LastNewline(s[1..][..run]);
      if s[0] == '\n' && k >= 0 then "\n\n" + CollapseBlankLines(s[k + 2..])
      else [s[0]] + CollapseBlankLines(s[1..])
  }

  /** Text without a newline passes `CollapseBlankLines` unchanged. */
  lemma {:induction false} CollapseWithoutNewline(s: string)
    requires '\n' !in s
    ensures CollapseBlankLines(s) == s
    decreases |s|
  {
    if |s| > 0 {
      CollapseWithoutNewline(s[1..]);
      assert s == [s[0]] + s[1..];
    }
  }

  /** `regexp.MustCompile("\\s+").ReplaceAllString(s, " ")`: every maximal
      run of RE2 spaces becomes one blank. */
  function CollapseSpaces(s: string): (r: string)
    ensures |r| <= |s|
    ensures |s| > 0 ==> |r| > 0 && r[0] == (if IsReSpace(s[0]) then ' ' else s[0])
    decreases |s|
  {
    if |s| == 0 then []
    else if IsReSpace(s[0]) then
      var run := SpaceRun(s[1..]);
      " " + CollapseSpaces(s[1 + run..])
    else [s[0]] + CollapseSpaces(s[1..])
  }

  /** The two facts `CollapseSpacesSingle` states about position i of r. */
  predicate SingleAt(r: string, i: int)
    requires 0 <= i < |r|
  {
    (IsReSpace(r[i]) ==> r[i] == ' ') && (i + 1 < |r| && r[i] == ' ' ==> !IsReSpace(r[i + 1]))
  }

  /** After `CollapseSpaces` the only RE2 space left is the blank, and no two
      blanks are adjacent. */
  lemma {:induction false} CollapseSpacesSingle(s: string)
    ensures forall i :: 0 <= i < |CollapseSpaces(s)| ==> SingleAt(CollapseSpaces(s), i)
    decreases |s|
  {
    if |s| > 0 {
      var r := CollapseSpaces(s);
      var t := if IsReSpace(s[0]) then s[1 + SpaceRun(s[1..])..] else s[1..];
      var rt := CollapseSpaces(t);
      CollapseSpacesSingle(t);
      assert r == [r[0]] + rt;
      if IsReSpace(s[0]) {
        assert |t| > 0 ==> !IsReSpace(t[0]);
      }
      forall i | 0 <= i < |r| ensures SingleAt(r, i) {
        if i > 0 {
          assert SingleAt(rt, i - 1);
        }
      }
    }
  }
}
