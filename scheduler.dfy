/** The daily scheduler: the delay arithmetic of its loop and its two text
    helpers. */
module Scheduler {
  import opened Text
  import opened Times
  import opened Html

  /** `convertDifficultyToChinese`: the three English difficulty words, in
      any letter case, become their Chinese names; anything else is kept. */
  function ConvertDifficultyToChinese(difficulty: string): string
  {
    var lower := ToLower(difficulty);
    if lower == "easy" then "简单"
    else if lower == "medium" then "中等"
    else if lower == "hard" then "困难"
    else difficulty
  }

  /** Letter case does not matter: two spellings with the same lower-case
      form either translate alike or are both kept as they are. */
  lemma DifficultyIgnoresCase(a: string, b: string)
    requires ToLower(a) == ToLower(b)
    ensures ConvertDifficultyToChinese(a) == ConvertDifficultyToChinese(b)
            || (ConvertDifficultyToChinese(a) == a && ConvertDifficultyToChinese(b) == b)
  {
  }

  /** The result is a Chinese name exactly when the lower-case form is one of
      the English words (or the input already was that name). */
  lemma DifficultyTranslations(d: string)
    ensures ConvertDifficultyToChinese(d) == "简单" <==> ToLower(d) == "easy" || d == "简单"
    ensures ConvertDifficultyToChinese(d) == "中等" <==> ToLower(d) == "medium" || d == "中等"
    ensures ConvertDifficultyToChinese(d) == "困难" <==> ToLower(d) == "hard" || d == "困难"
    ensures ToLower(d) != "easy" && ToLower(d) != "medium" && ToLower(d) != "hard"
            ==> ConvertDifficultyToChinese(d) == d
  {
    ChineseNamesKept();
  }

  /** The Chinese names have no English lower-case form, so they are kept. */
  lemma ChineseNamesKept()
    ensures ConvertDifficultyToChinese("简单") == "简单"
    ensures ConvertDifficultyToChinese("中等") == "中等"
    ensures ConvertDifficultyToChinese("困难") == "困难"
  {
    assert |ToLower("简单")| == 2 && |ToLower("中等")| == 2 && |ToLower("困难")| == 2;
  }

  /** Translating twice is translating once. */
  lemma DifficultyIdempotent(d: string)
    ensures ConvertDifficultyToChinese(ConvertDifficultyToChinese(d)) == ConvertDifficultyToChinese(d)
  {
    ChineseNamesKept();
  }

  /** The eight tag rewrites of `cleanHTMLContent`, in this order: paragraph
      and line-break tags become newlines, `strong` and `em` become Markdown
      emphasis. */
  function TagRewrites(content: string): string
  {
    var c := ReplaceAll(content, "<p>", "\n");
    var c := ReplaceAll(c, "</p>", "\n");
    var c := ReplaceAll(c, "<br>", "\n");
    var c := ReplaceAll(c, "<br/>", "\n");
    var c := ReplaceAll(c, "<strong>", "**");
    var c := ReplaceAll(c, "</strong>", "**");
    var c := ReplaceAll(c, "<em>", "*");
    ReplaceAll(c, "</em>", "*")
  }

  /** The scheduler's `cleanHTMLContent`: the tag rewrites, then every other
      tag removed, runs of blank lines collapsed and the ends trimmed. */
  function CleanHtmlContent(content: string): string
  {
    TrimSpace(CollapseBlankLines(StripTags(TagRewrites(content))))
  }

  /** After tag stripping no `<` is followed by a `>`, and the cleaned text
      has no white space at either end. */
  lemma CleanHtmlShape(content: string)
    ensures NoTag(StripTags(TagRewrites(content)))
    ensures var r := CleanHtmlContent(content); |r| == 0 || (!IsSpace(r[0]) && !IsSpace(r[|r| - 1]))
  {
    StripTagsLeavesNoTag(TagRewrites(content));
    TrimSpaceEdges(CollapseBlankLines(StripTags(TagRewrites(content))));
  }

  /** Plain text without tags or line breaks is only trimmed. */
  lemma CleanHtmlPlainText(w: string)
    requires '<' !in w && '\n' !in w
    ensures CleanHtmlContent(w) == TrimSpace(w)
  {
    ReplaceAllAbsent(w, "<p>", "\n");
    ReplaceAllAbsent(w, "</p>", "\n");
    ReplaceAllAbsent(w, "<br>", "\n");
    ReplaceAllAbsent(w, "<br/>", "\n");
    ReplaceAllAbsent(w, "<strong>", "**");
    ReplaceAllAbsent(w, "</strong>", "**");
    ReplaceAllAbsent(w, "<em>", "*");
    ReplaceAllAbsent(w, "</em>", "*");
    assert TagRewrites(w) == w;
    StripTagsWithoutOpen(w);
    CollapseWithoutNewline(w);
  }

  /** A rewrite misses `pre + w + post` when its tag starts with `<`, only
      the first rune of each of the two tags is a `<`, and the tag is a
      prefix of neither. */
  lemma RewriteMisses(pre: string, w: string, post: string, pat: string, rep: string)
    requires |pat| > 0 && pat[0] == '<' && '<' !in w
    requires |pre| > 0 && '<' !in pre[1..] && |post| > 0 && '<' !in post[1..]
    requires !HasPrefix(pre + w + post, pat) && !HasPrefix(post, pat)
    ensures ReplaceAll(pre + w + post, pat, rep) == pre + w + post
  {
    assert pre + w + post == [pre[0]] + (pre[1..] + w + post);
    ReplaceAllSkipHead(pre[0], pre[1..] + w + post, pat, rep);
    ReplaceAllSkips(pre[1..] + w, post, pat, rep);
    assert post == [post[0]] + post[1..];
    ReplaceAllSkipHead(post[0], post[1..], pat, rep);
    ReplaceAllAbsent(post[1..], pat, rep);
  }

  /** A rewrite of the opening tag of `pat + w + post`. */
  lemma RewriteHitsFront(w: string, post: string, pat: string, rep: string)
    requires |pat| > 0 && pat[0] == '<' && '<' !in w
    requires |post| > 0 && '<' !in post[1..] && !HasPrefix(post, pat)
    ensures ReplaceAll(pat + w + post, pat, rep) == rep + w + post
  {
    assert pat + w + post == pat + (w + post);
    ReplaceAllAtFront(w + post, pat, rep);
    ReplaceAllSkips(w, post, pat, rep);
    assert post == [post[0]] + post[1..];
    ReplaceAllSkipHead(post[0], post[1..], pat, rep);
    ReplaceAllAbsent(post[1..], pat, rep);
  }

  /** A rewrite of the closing tag of `a + pat`. */
  lemma RewriteHitsBack(a: string, pat: string, rep: string)
    requires |pat| > 0 && pat[0] !in a
    ensures ReplaceAll(a + pat, pat, rep) == a + rep
  {
    ReplaceAllSkips(a, pat, pat, rep);
    assert pat == pat + [];
    ReplaceAllAtFront([], pat, rep);
    assert rep + [] == rep;
  }

  /** None of the four newline rewrites touches `<strong>w</strong>`. */
  lemma NewlineRewritesMissStrong(w: string)
    requires '<' !in w
    ensures var s := "<strong>" + w + "</strong>";
            ReplaceAll(ReplaceAll(ReplaceAll(ReplaceAll(s, "<p>", "\n"), "</p>", "\n"), "<br>", "\n"), "<br/>", "\n") == s
  {
    var open, close := "<strong>", "</strong>";
    var s := open + w + close;
    assert s[1] == 's' && close[1] == '/' && close[2] == 's';
    assert '<' !in open[1..] && '<' !in close[1..];
    NotPrefixAt(s, "<p>", 1);
    NotPrefixAt(close, "<p>", 1);
    RewriteMisses(open, w, close, "<p>", "\n");
    NotPrefixAt(s, "</p>", 1);
    NotPrefixAt(close, "</p>", 2);
    RewriteMisses(open, w, close, "</p>", "\n");
    NotPrefixAt(s, "<br>", 1);
    NotPrefixAt(close, "<br>", 1);
    RewriteMisses(open, w, close, "<br>", "\n");
    NotPrefixAt(s, "<br/>", 1);
    NotPrefixAt(close, "<br/>", 1);
    RewriteMisses(open, w, close, "<br/>", "\n");
  }

  /** The two `strong` rewrites turn `<strong>w</strong>` into `**w**`. */
  lemma StrongRewrites(w: string)
    requires '<' !in w
    ensures ReplaceAll(ReplaceAll("<strong>" + w + "</strong>", "<strong>", "**"), "</strong>", "**") == "**" + w + "**"
  {
    var open, close := "<strong>", "</strong>";
    assert close[1] == '/' && '<' !in close[1..];
    NotPrefixAt(close, open, 1);
    RewriteHitsFront(w, close, open, "**");
    assert "**" + w + close == ("**" + w) + close;
    RewriteHitsBack("**" + w, close, "**");
  }

  /** `<strong>w</strong>` is rewritten to Markdown emphasis before the tag
      stripping could remove it: for a text without tags or line breaks the
      cleaned result is `**w**`. */
  lemma StrongBecomesEmphasis(w: string)
    requires '<' !in w && '\n' !in w
    ensures TagRewrites("<strong>" + w + "</strong>") == "**" + w + "**"
    ensures CleanHtmlContent("<strong>" + w + "</strong>") == "**" + w + "**"
  {
    NewlineRewritesMissStrong(w);
    StrongRewrites(w);
    var md := "**" + w + "**";
    assert '<' !in md && '\n' !in md;
    ReplaceAllAbsent(md, "<em>", "*");
    ReplaceAllAbsent(md, "</em>", "*");
    assert TagRewrites("<strong>" + w + "</strong>") == md;
    StripTagsWithoutOpen(md);
    CollapseWithoutNewline(md);
    TrimSpaceKeeps(md);
  }

  // --------------------------------------------------------------- waiting

  /** The `next` of `scheduleTask`: midnight at the start of the local day
      after `now`, in the zone `offset` seconds east of UTC. */
  function NextMidnight(now: Time, offset: int): Time
  {
    var l := LocalDate(now, offset);
    MidnightOf(l.year, l.month, l.day + 1, offset)
  }

  /** The time to sleep is positive and at most one day, and the wake-up time
      is a local midnight (a whole second whose local time of day is 0). */
  lemma NextMidnightDelay(now: Time, offset: int)
    ensures 0 < Sub(NextMidnight(now, offset), now) <= NanosPerDay
    ensures NextMidnight(now, offset).unixNano % NanosPerSecond == 0
    ensures (UnixSeconds(NextMidnight(now, offset)) + offset) % SecondsPerDay == 0
  {
    var n := (UnixSeconds(now) + offset) / SecondsPerDay;
    var l := LocalDate(now, offset);
    DaysFromCivilFromDays(n);
    assert DaysFromCivil(Date(l.year, l.month, l.day + 1)) == n + 1;
    var next := NextMidnight(now, offset);
    assert next.unixNano == ((n + 1) * SecondsPerDay - offset) * NanosPerSecond;
    assert UnixSeconds(next) == (n + 1) * SecondsPerDay - offset;
  }

  /** Rounds of the `scheduleTask` loop, given the clock reading at the top
      of each round: each round sleeps until the next local midnight and only
      then fetches, so every fetch, the first included, comes after a wait. */
  method ScheduleRounds(clock: seq<Time>, offset: int) returns (fetchAt: seq<Time>)
    ensures |fetchAt| == |clock|
    ensures forall i :: 0 <= i < |clock| ==> fetchAt[i] == NextMidnight(clock[i], offset)
    ensures forall i :: 0 <= i < |clock| ==> clock[i].unixNano < fetchAt[i].unixNano <= clock[i].unixNano + NanosPerDay
  {
    fetchAt := [];
    var i := 0;
    while i < |clock|
      invariant 0 <= i <= |clock|
      invariant |fetchAt| == i
      invariant forall k :: 0 <= k < i ==> fetchAt[k] == NextMidnight(clock[k], offset)
      invariant forall k :: 0 <= k < i ==> clock[k].unixNano < fetchAt[k].unixNano <= clock[k].unixNano + NanosPerDay
    {
      var now := clock[i];
      var next := NextMidnight(now, offset);
      NextMidnightDelay(now, offset);
      fetchAt := fetchAt + [next];
      i := i + 1;
    }
  }
}
