/** The LeetCode crawler: it turns decoded GraphQL responses into catalog
    problems and reconciles them with the store.

    The network is not modelled. A GraphQL answer enters as the value that
    `encoding/json` would have decoded from it: `today` is the list of
    "today" records (None when the request or the decoding failed), and
    `detail` maps every slug whose detail request and decoding succeed to
    the decoded question. Store failures are parameters: a flag per store
    call, or for the loops the set of iteration indices whose call fails.
    Every `time.Now()` of one pass is the same instant `now`. */
module Crawler {
  import opened Wrappers
  import opened Text
  import opened Times
  import opened Domain
  import opened ProblemDao
  import opened ProblemRepository
  import Html
  import DailyFacts

  // ------------------------------------------------------ decoded responses

  /** `todayRecord[i].question` of the `questionOfToday` query. */
  datatype TodayQuestion = TodayQuestion(
    frontendId: string,
    titleSlug: string,
    title: string,
    translatedTitle: string,
    difficulty: string)

  datatype TopicTag = TopicTag(name: string, slug: string)

  /** `data.question` of the detail query; a missing question decodes to empty strings. */
  datatype DetailQuestion = DetailQuestion(
    questionId: string,
    frontendId: string,
    title: string,
    titleSlug: string,
    content: string,
    difficulty: string,
    topicTags: seq<TopicTag>)

  /** An entry of the crawler's Hot 100 list. */
  datatype HotEntry = HotEntry(id: string, title: string, titleSlug: string, difficulty: string)

  /** A value decoded into `interface{}`. */
  datatype Json =
    | JNull
    | JBool(b: bool)
    | JNumber(n: int)
    | JString(str: string)
    | JArray(items: seq<Json>)
    | JObject(fields: map<string, Json>)

  datatype CrawlError =
    | RequestFailed
    | DecodeFailed
    | NoTodayRecord
    | EmptyProblem
    | StoreFailed(cause: DbError)
    | CreatedIdUnknown

  const ProblemsUrl: string := "https://leetcode.cn/problems/"
  const Hot100Tag: string := "Hot 100"
  const AlgorithmTag: string := "算法"

  /** `fmt.Sprintf("https://leetcode.cn/problems/%s/", slug)`. */
  function ProblemUrl(slug: string): string
  {
    ProblemsUrl + slug + "/"
  }

  // ------------------------------------------------------------ drafts

  /** `fallbackTitle`: the translated title unless it is empty. */
  function FallbackTitle(translated: string, original: string): (title: string)
    ensures translated != "" ==> title == translated
    ensures translated == "" ==> title == original
  {
    if translated != "" then translated else original
  }

  lemma FallbackTitleExamples()
    ensures FallbackTitle("两数之和", "Two Sum") == "两数之和"
    ensures FallbackTitle("", "Two Sum") == "Two Sum"
  {
  }

  /** The names of the topic tags, in order. */
  function TagNames(tags: seq<TopicTag>): (names: seq<string>)
    ensures |names| == |tags|
    ensures forall i :: 0 <= i < |tags| ==> names[i] == tags[i].name
  {
    if |tags| == 0 then [] else TagNames(tags[..|tags| - 1]) + [tags[|tags| - 1].name]
  }

  /** `CrawlProblemBySlug`: a failed request and a question without a
      title are errors; otherwise a fresh `not_started` leetcode problem. */
  function CrawlProblemBySlug(slug: string, detail: map<string, DetailQuestion>, now: Time): (r: Result<CodingProblem, CrawlError>)
    ensures slug !in detail ==> r == Err(RequestFailed)
    ensures slug in detail && detail[slug].title == "" ==> r == Err(EmptyProblem)
    ensures slug in detail && detail[slug].title != "" ==> r.Ok?
    ensures r.Ok? ==>
              var q := detail[slug];
              var p := r.value;
              && p.id == 0 && p.title == q.title && p.difficulty == q.difficulty
              && |p.tags| == |q.topicTags| && (forall i :: 0 <= i < |q.topicTags| ==> p.tags[i] == q.topicTags[i].name)
              && p.source == LeetCode && p.sourceId == q.frontendId && p.sourceUrl == ProblemUrl(q.titleSlug)
              && p.studyStatus == NotStarted && p.lastStudied.None?
              && !p.isDailyProblem && p.dailyDate.None? && !p.isHot100
              && p.ctime == now && p.utime == now
  {
    if slug !in detail then Err(RequestFailed)
    else
      var q := detail[slug];
      if q.title == "" then Err(EmptyProblem)
      else
        Ok(CodingProblem(0, q.title, q.difficulty, TagNames(q.topicTags), LeetCode, q.frontendId,
                         ProblemUrl(q.titleSlug), NotStarted, None, false, None, false, now, now))
  }

  /** The draft `GetDailyProblem` returns: from the detail of record 0 when
      that detail is fetched, else from record 0 itself with the tag `算法`. */
  function GetDailyProblem(today: Option<seq<TodayQuestion>>, detail: map<string, DetailQuestion>, now: Time)
    : (r: Result<DailyProblem, CrawlError>)
    ensures today.None? ==> r == Err(RequestFailed)
    ensures today.Some? ==> (r.Err? <==> |today.value| == 0)
    ensures today.Some? && r.Err? ==> r.error == NoTodayRecord
    ensures r.Ok? ==> r.value.date == now && r.value.ctime == now && r.value.utime == now
    ensures r.Ok? && CrawlProblemBySlug(today.value[0].titleSlug, detail, now).Err? ==>
              var q := today.value[0];
              var d := r.value;
              && d.title == FallbackTitle(q.translatedTitle, q.title) && d.difficulty == q.difficulty
              && d.tags == [AlgorithmTag] && d.source == LeetCode && d.sourceId == q.frontendId
              && d.sourceUrl == ProblemUrl(q.titleSlug)
    ensures r.Ok? && CrawlProblemBySlug(today.value[0].titleSlug, detail, now).Ok? ==>
              var p := CrawlProblemBySlug(today.value[0].titleSlug, detail, now).value;
              var d := r.value;
              && d.title == p.title && d.difficulty == p.difficulty && d.tags == p.tags
              && d.source == p.source && d.sourceId == p.sourceId && d.sourceUrl == p.sourceUrl
  {
    if today.None? then Err(RequestFailed)
    else if |today.value| == 0 then Err(NoTodayRecord)
    else
      var q := today.value[0];
      var title := FallbackTitle(q.translatedTitle, q.title);
      var problem := CrawlProblemBySlug(q.titleSlug, detail, now);
      if problem.Err? then
        Ok(DailyProblem(0, now, title, q.difficulty, [AlgorithmTag], LeetCode, q.frontendId,
                        ProblemUrl(q.titleSlug), now, now))
      else
        var p := problem.value;
        Ok(DailyProblem(0, now, p.title, p.difficulty, p.tags, p.source, p.sourceId, p.sourceUrl, now, now))
  }

  /** Only record 0 of the "today" list is read. */
  lemma DraftUsesFirstRecord(q: TodayQuestion, rest: seq<TodayQuestion>, detail: map<string, DetailQuestion>, now: Time)
    ensures GetDailyProblem(Some([q] + rest), detail, now) == GetDailyProblem(Some([q]), detail, now)
  {
    assert ([q] + rest)[0] == [q][0];
  }

  // ------------------------------------------------------------ lookups

  /** The leetcode problems as `FindBySource(ctx, "leetcode")` lists them;
      a failed lookup is treated as an empty list. */
  function ExistingLeetCode(s: TableState, findDown: bool): seq<CodingProblem>
  {
    if findDown then [] else MapToDomain(RowsBySource(s.problems, LeetCode))
  }

  /** Index of the first problem with that `SourceId`, or -1. */
  function FirstIndex(ps: seq<CodingProblem>, sourceId: string): (k: int)
    ensures -1 <= k < |ps|
    ensures k == -1 <==> forall i :: 0 <= i < |ps| ==> ps[i].sourceId != sourceId
    ensures k >= 0 ==> ps[k].sourceId == sourceId && forall i :: 0 <= i < k ==> ps[i].sourceId != sourceId
  {
    if |ps| == 0 then -1
    else if ps[0].sourceId == sourceId then 0
    else
      var k := FirstIndex(ps[1..], sourceId);
      if k == -1 then -1 else k + 1
  }

  /** Every listed leetcode problem is a leetcode row of the table, converted. */
  lemma ListedAreLeetCodeRows(s: TableState)
    ensures forall j :: 0 <= j < |MapToDomain(RowsBySource(s.problems, LeetCode))| ==>
              exists k :: 0 <= k < |s.problems| && s.problems[k].source == LeetCode
                          && MapToDomain(RowsBySource(s.problems, LeetCode))[j] == ToDomain(s.problems[k])
  {
    var rows := RowsBySource(s.problems, LeetCode);
    var ex := MapToDomain(rows);
    forall j | 0 <= j < |ex|
      ensures exists k :: 0 <= k < |s.problems| && s.problems[k].source == LeetCode && ex[j] == ToDomain(s.problems[k])
    {
      assert rows[j] in rows;
      var k :| 0 <= k < |s.problems| && s.problems[k] == rows[j];
    }
  }

  /** Every leetcode row of the table is listed. */
  lemma LeetCodeRowListed(s: TableState, x: ProblemRow)
    requires x in s.problems && x.source == LeetCode
    ensures exists j :: 0 <= j < |ExistingLeetCode(s, false)| && ExistingLeetCode(s, false)[j] == ToDomain(x)
  {
    var rows := RowsBySource(s.problems, LeetCode);
    assert HasSource(x, LeetCode);
    assert x in rows;
    var j :| 0 <= j < |rows| && rows[j] == x;
    assert ExistingLeetCode(s, false)[j] == ToDomain(x);
  }

  /** No leetcode row has the `SourceId` exactly when the list shows none. */
  lemma NoLeetCodeMatch(s: TableState, sourceId: string)
    ensures FirstIndex(ExistingLeetCode(s, false), sourceId) == -1 <==>
            forall x :: x in s.problems && x.source == LeetCode ==> x.sourceId != sourceId
  {
    var ex := ExistingLeetCode(s, false);
    if FirstIndex(ex, sourceId) >= 0 {
      ListedAreLeetCodeRows(s);
      var j := FirstIndex(ex, sourceId);
      var k :| 0 <= k < |s.problems| && s.problems[k].source == LeetCode && ex[j] == ToDomain(s.problems[k]);
      assert s.problems[k] in s.problems;
    } else {
      forall x | x in s.problems && x.source == LeetCode ensures x.sourceId != sourceId {
        LeetCodeRowListed(s, x);
        var j :| 0 <= j < |ex| && ex[j] == ToDomain(x);
      }
    }
  }

  // ------------------------------------------------------ the daily pass

  /** Which store calls of one daily pass fail: `FindBySource`, `Update`,
      `Create`, the re-query by `SourceId`, and the statement of the marking
      that fails (0 for none). */
  datatype DailyFaults = DailyFaults(findDown: bool, updateDown: bool, createDown: bool, requeryDown: bool, markFailAt: nat)

  /** The existing problem as updated for the day. */
  function DailyEdit(p: CodingProblem, d: DailyProblem, now: Time): CodingProblem
  {
    p.(tags := d.tags, isDailyProblem := true, dailyDate := Some(d.date), utime := now)
  }

  /** The problem created from the draft when none matches. */
  function DailyNew(d: DailyProblem, now: Time): CodingProblem
  {
    CodingProblem(0, d.title, d.difficulty, d.tags, d.source, d.sourceId, d.sourceUrl, NotStarted,
                  None, true, Some(d.date), false, now, now)
  }

  /** The upsert of `CrawlAndSaveDailyProblem`: the new state and the id
      it goes on to mark, or the error the pass returns. */
  function UpsertSpec(s: TableState, d: DailyProblem, now: Time, f: DailyFaults): (o: (TableState, Result<int, CrawlError>))
    requires ValidState(s)
    ensures ValidState(o.0)
  {
    var ex := ExistingLeetCode(s, f.findDown);
    var k := FirstIndex(ex, d.sourceId);
    if k >= 0 then
      var cp := DailyEdit(ex[k], d, now);
      var u := UpdateSpec(s, ToEntity(cp), now, f.updateDown);
      SameKeysKeepValid(s, ReplaceById(s.problems, ToEntity(cp).(utime := now)));
      if u.1.Some? then (u.0, Err(StoreFailed(u.1.value))) else (u.0, Ok(cp.id))
    else
      var c := InsertSpec(s, ToEntity(DailyNew(d, now)), now, f.createDown);
      if c.1.Some? then (c.0, Err(StoreFailed(c.1.value)))
      else
        var created := RowsBySourceId(c.0.problems, d.sourceId);
        if f.requeryDown || |created| == 0 then (c.0, Err(CreatedIdUnknown))
        else (c.0, Ok(created[0].id))
  }

  /** One run of `CrawlAndSaveDailyProblem`; `offset` is the local zone the
      marking formats the date in. A failed marking is not reported. */
  function DailyPass(s: TableState, today: Option<seq<TodayQuestion>>, detail: map<string, DetailQuestion>,
                     now: Time, offset: int, f: DailyFaults): (o: (TableState, Option<CrawlError>))
    requires ValidState(s)
    ensures ValidState(o.0)
  {
    var draft := GetDailyProblem(today, detail, now);
    if draft.Err? then (s, Some(draft.error))
    else
      var u := UpsertSpec(s, draft.value, now, f);
      if u.1.Err? then (u.0, Some(u.1.error))
      else (MarkSpec(u.0, u.1.value, draft.value.date, offset, f.markFailAt).0, None)
  }

  /** When a leetcode row has the draft's `SourceId`, the first listed one is
      updated in place and no row is created: its tags become the draft's,
      it is flagged daily for the draft date, every other column and every
      other row stay as they were, and its id is the one marked. */
  lemma UpsertUpdatesFirstMatch(s: TableState, d: DailyProblem, now: Time, f: DailyFaults)
    requires ValidState(s) && !f.findDown && !f.updateDown
    requires exists x :: x in s.problems && x.source == LeetCode && x.sourceId == d.sourceId
    ensures var o := UpsertSpec(s, d, now, f);
            var ex := ExistingLeetCode(s, false);
            exists k :: 0 <= k < |s.problems|
              && s.problems[k].source == LeetCode && s.problems[k].sourceId == d.sourceId
              && ex[FirstIndex(ex, d.sourceId)] == ToDomain(s.problems[k])
              && o.1 == Ok(s.problems[k].id)
              && o.0 == s.(problems := s.problems[k := s.problems[k].(tags := d.tags, isDailyProblem := true,
                                                                  dailyDate := Some(d.date), utime := now)])
  {
    NoLeetCodeMatch(s, d.sourceId);
    ListedAreLeetCodeRows(s);
    var ex := ExistingLeetCode(s, false);
    var j := FirstIndex(ex, d.sourceId);
    var k :| 0 <= k < |s.problems| && s.problems[k].source == LeetCode && ex[j] == ToDomain(s.problems[k]);
    UpsertUpdateAt(s, d, now, f, k);
  }

  /** The update branch when the first listed match is row k. */
  lemma UpsertUpdateAt(s: TableState, d: DailyProblem, now: Time, f: DailyFaults, k: int)
    requires ValidState(s) && !f.findDown && !f.updateDown && 0 <= k < |s.problems|
    requires FirstIndex(ExistingLeetCode(s, false), d.sourceId) >= 0
    requires ExistingLeetCode(s, false)[FirstIndex(ExistingLeetCode(s, false), d.sourceId)] == ToDomain(s.problems[k])
    ensures UpsertSpec(s, d, now, f)
            == (s.(problems := s.problems[k := s.problems[k].(tags := d.tags, isDailyProblem := true,
                                                              dailyDate := Some(d.date), utime := now)]),
                Ok(s.problems[k].id))
  {
    var ex := ExistingLeetCode(s, false);
    var row := s.problems[k];
    EntityOfDomain(row);
    var target := row.(tags := d.tags, isDailyProblem := true, dailyDate := Some(d.date), utime := now);
    assert ToEntity(DailyEdit(ex[FirstIndex(ex, d.sourceId)], d, now)).(utime := now) == target;
    ReplaceAtUniqueKey(s.problems, k, target);
    UpsertUpdatePath(s, d, now, f);
  }

  /** The update branch of the upsert. */
  lemma UpsertUpdatePath(s: TableState, d: DailyProblem, now: Time, f: DailyFaults)
    requires ValidState(s) && !f.updateDown && FirstIndex(ExistingLeetCode(s, f.findDown), d.sourceId) >= 0
    ensures var ex := ExistingLeetCode(s, f.findDown);
            var cp := DailyEdit(ex[FirstIndex(ex, d.sourceId)], d, now);
            UpsertSpec(s, d, now, f) == (s.(problems := ReplaceById(s.problems, ToEntity(cp).(utime := now))), Ok(cp.id))
  {
  }

  /** Rewriting the row of a key that occurs once rewrites just that position. */
  lemma ReplaceAtUniqueKey(rows: seq<ProblemRow>, k: int, target: ProblemRow)
    requires SortedIds(rows) && 0 <= k < |rows| && target.id == rows[k].id
    ensures ReplaceById(rows, target) == rows[k := target]
  {
    var out := ReplaceById(rows, target);
    forall i | 0 <= i < |rows| ensures out[i] == rows[k := target][i] {
      if rows[i].id == target.id {
        DailyFacts.SortedIdsInjective(rows, i, k);
      }
    }
  }

  /** When no leetcode row has the draft's `SourceId` (or the lookup failed),
      exactly one row is created, appended under the next key: the draft as
      a `not_started` problem flagged daily for the draft date. When no row of
      any source had that `SourceId`, the re-query finds it and it is the row
      marked; a failed re-query is an error after the row was created. */
  lemma UpsertCreatesOne(s: TableState, d: DailyProblem, now: Time, f: DailyFaults)
    requires ValidState(s) && !f.createDown
    requires f.findDown || forall x :: x in s.problems && x.source == LeetCode ==> x.sourceId != d.sourceId
    ensures var o := UpsertSpec(s, d, now, f);
            var row := ToEntity(DailyNew(d, now)).(id := s.nextId);
            && row.studyStatus == NotStarted && row.isDailyProblem && row.dailyDate == Some(d.date)
            && o.0 == s.(problems := s.problems + [row], nextId := s.nextId + 1)
            && (f.requeryDown ==> o.1 == Err(CreatedIdUnknown))
            && (!f.requeryDown && (forall x :: x in s.problems ==> x.sourceId != d.sourceId) ==> o.1 == Ok(s.nextId))
  {
    if !f.findDown {
      NoLeetCodeMatch(s, d.sourceId);
    }
    var p := ToEntity(DailyNew(d, now));
    assert WithInsertDefaults(p, now) == p;
    var row := p.(id := s.nextId);
    var t := s.problems + [row];
    if !f.requeryDown && (forall x :: x in s.problems ==> x.sourceId != d.sourceId) {
      var created := RowsBySourceId(t, d.sourceId);
      assert row in t && HasSourceId(row, d.sourceId);
      assert created[0] in created;
    }
  }

  /** The re-query matches on `SourceId` alone: when an older row of any
      source already has that `SourceId`, the id marked is an older row's,
      not the one just created. */
  lemma UpsertMayMarkOlderRow(s: TableState, d: DailyProblem, now: Time, f: DailyFaults)
    requires ValidState(s) && !f.createDown && !f.requeryDown
    requires f.findDown || forall x :: x in s.problems && x.source == LeetCode ==> x.sourceId != d.sourceId
    requires exists x :: x in s.problems && x.sourceId == d.sourceId
    ensures var o := UpsertSpec(s, d, now, f);
            o.1.Ok? && o.1.value < s.nextId && exists x :: x in s.problems && x.id == o.1.value
  {
    UpsertCreatesOne(s, d, now, f);
    var row := ToEntity(DailyNew(d, now)).(id := s.nextId);
    RequeryFindsOlder(s.problems, row, d.sourceId);
  }

  /** Appending a row under key `row.id` above all others: the first row
      with a `SourceId` an older row has is an older row. */
  lemma RequeryFindsOlder(rows: seq<ProblemRow>, row: ProblemRow, sourceId: string)
    requires SortedIds(rows + [row]) && forall x :: x in rows ==> x.id < row.id
    requires exists x :: x in rows && x.sourceId == sourceId
    ensures var created := RowsBySourceId(rows + [row], sourceId);
            |created| > 0 && created[0].id < row.id && created[0] in rows
  {
    var t := rows + [row];
    var created := RowsBySourceId(t, sourceId);
    var y :| y in rows && y.sourceId == sourceId;
    assert y in t && HasSourceId(y, sourceId);
    var j :| 0 <= j < |created| && created[j] == y;
    assert created[0] in created;
    if j > 0 {
      assert created[0].id < created[j].id;
    }
    assert created[0] in t;
  }

  /** A failed `Update` or `Create` is the pass's error and leaves the table
      as it was; a failed `FindBySource` counts as an empty list, so that no
      problem matches and the draft is created. */
  lemma UpsertStoreFailures(s: TableState, d: DailyProblem, now: Time, f: DailyFaults)
    requires ValidState(s)
    ensures var k := FirstIndex(ExistingLeetCode(s, f.findDown), d.sourceId);
            k >= 0 && f.updateDown ==> UpsertSpec(s, d, now, f) == (s, Err(StoreFailed(DbFailure)))
    ensures var k := FirstIndex(ExistingLeetCode(s, f.findDown), d.sourceId);
            k < 0 && f.createDown ==> UpsertSpec(s, d, now, f) == (s, Err(StoreFailed(DbFailure)))
    ensures f.findDown ==> FirstIndex(ExistingLeetCode(s, f.findDown), d.sourceId) == -1
  {
  }

  /** The id the upsert hands to the marking belongs to a row of the new state. */
  lemma UpsertIdExists(s: TableState, d: DailyProblem, now: Time, f: DailyFaults)
    requires ValidState(s) && UpsertSpec(s, d, now, f).1.Ok?
    ensures var o := UpsertSpec(s, d, now, f);
            exists i :: 0 <= i < |o.0.problems| && o.0.problems[i].id == o.1.value
  {
    var o := UpsertSpec(s, d, now, f);
    var ex := ExistingLeetCode(s, f.findDown);
    var k := FirstIndex(ex, d.sourceId);
    if k >= 0 {
      ListedAreLeetCodeRows(s);
      var m :| 0 <= m < |s.problems| && s.problems[m].source == LeetCode && ex[k] == ToDomain(s.problems[m]);
      assert o.0.problems[m].id == o.1.value;
    } else {
      var created := RowsBySourceId(o.0.problems, d.sourceId);
      assert created[0] in created;
    }
  }

  /** A pass whose draft cannot be built fails before any store call; once
      the upsert succeeds the pass succeeds whatever happens to the marking;
      and with a marking that does not fail, the upserted row ends as the
      only row flagged daily, dated with the draft's date. */
  lemma DailyPassOutcome(s: TableState, today: Option<seq<TodayQuestion>>, detail: map<string, DetailQuestion>,
                         now: Time, offset: int, f: DailyFaults)
    requires ValidState(s)
    ensures var draft := GetDailyProblem(today, detail, now);
            var o := DailyPass(s, today, detail, now, offset, f);
            && (draft.Err? ==> o == (s, Some(draft.error)))
            && (draft.Ok? ==> (o.1.None? <==> UpsertSpec(s, draft.value, now, f).1.Ok?))
    ensures var draft := GetDailyProblem(today, detail, now);
            var o := DailyPass(s, today, detail, now, offset, f);
            draft.Ok? && UpsertSpec(s, draft.value, now, f).1.Ok? && f.markFailAt == 0 ==>
              var id := UpsertSpec(s, draft.value, now, f).1.value;
              && (exists i :: 0 <= i < |o.0.problems| && o.0.problems[i].id == id)
              && (forall x :: x in o.0.problems ==> (x.isDailyProblem <==> x.id == id))
              && (forall x :: x in o.0.problems && x.id == id ==> x.dailyDate == Some(now))
  {
    var draft := GetDailyProblem(today, detail, now);
    if draft.Ok? && UpsertSpec(s, draft.value, now, f).1.Ok? && f.markFailAt == 0 {
      var u := UpsertSpec(s, draft.value, now, f);
      UpsertIdExists(s, draft.value, now, f);
      var key := DateKey(draft.value.date, offset);
      DailyFacts.MarkSucceedsOnExisting(u.0, u.1.value, draft.value.date, key);
      DailyFacts.MarkLeavesOneDailyRow(u.0, u.1.value, draft.value.date, key, 0);
    }
  }

  // ------------------------------------------------------------ Hot 100

  /** The problem saved for a Hot 100 entry (the loop body of
      `CrawlAndSaveHot100Problems` up to the create). */
  function Hot100Candidate(e: HotEntry, detail: map<string, DetailQuestion>, now: Time): CodingProblem
  {
    var crawled := CrawlProblemBySlug(e.titleSlug, detail, now);
    if crawled.Err? then
      CodingProblem(0, e.title, e.difficulty, [Hot100Tag, AlgorithmTag], LeetCode, e.id, ProblemUrl(e.titleSlug),
                    NotStarted, None, false, None, true, now, now)
    else
      crawled.value.(isHot100 := true, tags := crawled.value.tags + [Hot100Tag])
  }

  /** The candidate is the crawled problem with `Hot 100` appended to its
      tags, or, when the crawl fails, one built from the entry with the tags
      `Hot 100` and `算法`. Either way it is a new, unstudied leetcode
      problem flagged Hot 100. */
  lemma Hot100CandidateShape(e: HotEntry, detail: map<string, DetailQuestion>, now: Time)
    ensures var p := Hot100Candidate(e, detail, now);
            p.isHot100 && p.id == 0 && p.source == LeetCode && p.studyStatus == NotStarted && p.ctime == now
    ensures var p := Hot100Candidate(e, detail, now);
            CrawlProblemBySlug(e.titleSlug, detail, now).Err? ==>
              && p.tags == [Hot100Tag, AlgorithmTag] && p.title == e.title && p.difficulty == e.difficulty
              && p.sourceId == e.id && p.sourceUrl == ProblemUrl(e.titleSlug)
    ensures var p := Hot100Candidate(e, detail, now);
            CrawlProblemBySlug(e.titleSlug, detail, now).Ok? ==>
              var c := CrawlProblemBySlug(e.titleSlug, detail, now).value;
              p.tags == c.tags + [Hot100Tag] && p.(tags := c.tags, isHot100 := c.isHot100) == c
  {
  }

  /** One entry of `CrawlAndSaveHot100Problems`: skipped when the lookup by
      `SourceId` succeeds with rows, else the candidate is created (a failed
      create is logged and skipped). */
  function Hot100Step(s: TableState, e: HotEntry, detail: map<string, DetailQuestion>, now: Time,
                      findDown: bool, createDown: bool): (t: TableState)
    requires ValidState(s)
    ensures ValidState(t)
  {
    if !findDown && |RowsBySourceId(s.problems, e.id)| > 0 then s
    else InsertSpec(s, ToEntity(Hot100Candidate(e, detail, now)), now, createDown).0
  }

  /** The state after the first `n` entries; entry i's lookup fails when
      i is in `findDown`, its create when i is in `createDown`. */
  function Hot100Run(s: TableState, hot: seq<HotEntry>, n: nat, detail: map<string, DetailQuestion>, now: Time,
                     findDown: set<nat>, createDown: set<nat>): (t: TableState)
    requires ValidState(s) && n <= |hot|
    ensures ValidState(t)
  {
    if n == 0 then s
    else Hot100Step(Hot100Run(s, hot, n - 1, detail, now, findDown, createDown), hot[n - 1], detail, now,
                    (n - 1) in findDown, (n - 1) in createDown)
  }

  /** An entry whose `SourceId` is already stored is skipped when the lookup works. */
  lemma Hot100SkipsPresent(s: TableState, e: HotEntry, detail: map<string, DetailQuestion>, now: Time, createDown: bool)
    requires ValidState(s) && Stored(s, e.id)
    ensures Hot100Step(s, e, detail, now, false, createDown) == s
  {
    LookupFindsStored(s, e.id);
  }

  /** Otherwise (the lookup found nothing or failed) the candidate is
      appended under the next key, unless the create fails. */
  lemma Hot100InsertsCandidate(s: TableState, e: HotEntry, detail: map<string, DetailQuestion>, now: Time, findDown: bool)
    requires ValidState(s)
    requires findDown || !Stored(s, e.id)
    ensures Hot100Step(s, e, detail, now, findDown, false)
            == s.(problems := s.problems + [ToEntity(Hot100Candidate(e, detail, now)).(id := s.nextId)], nextId := s.nextId + 1)
    ensures Hot100Step(s, e, detail, now, findDown, true) == s
  {
    var p := ToEntity(Hot100Candidate(e, detail, now));
    assert WithInsertDefaults(p, now) == p;
    LookupFindsStored(s, e.id);
  }

  /** When every entry's `SourceId` is stored and no lookup fails, the pass changes nothing. */
  lemma {:induction false} Hot100RunSkipsAll(s: TableState, hot: seq<HotEntry>, n: nat, detail: map<string, DetailQuestion>,
                                             now: Time, findDown: set<nat>, createDown: set<nat>)
    requires ValidState(s) && n <= |hot|
    requires forall i :: 0 <= i < n ==> i !in findDown
    requires forall i :: 0 <= i < n ==> Stored(s, hot[i].id)
    ensures Hot100Run(s, hot, n, detail, now, findDown, createDown) == s
  {
    if n > 0 {
      var i := n - 1;
      assert Hot100Run(s, hot, i, detail, now, findDown, createDown) == s by {
        Hot100RunSkipsAll(s, hot, i, detail, now, findDown, createDown);
      }
      assert i !in findDown && Stored(s, hot[i].id);
      Hot100SkipOne(s, hot, i, detail, now, findDown, createDown);
    }
  }

  /** A state one `Hot100Step` after `Hot100Run` of i entries is `Hot100Run` of i + 1. */
  lemma Hot100RunGrows(s: TableState, hot: seq<HotEntry>, i: nat, detail: map<string, DetailQuestion>, now: Time,
                       findDown: set<nat>, createDown: set<nat>, before: TableState, after: TableState)
    requires ValidState(s) && i < |hot|
    requires before == Hot100Run(s, hot, i, detail, now, findDown, createDown)
    requires after == Hot100Step(before, hot[i], detail, now, i in findDown, i in createDown)
    ensures after == Hot100Run(s, hot, i + 1, detail, now, findDown, createDown)
  {
    Hot100RunNext(s, hot, i, detail, now, findDown, createDown);
  }

  /** The step of `Hot100RunSkipsAll`. */
  lemma Hot100SkipOne(s: TableState, hot: seq<HotEntry>, i: nat, detail: map<string, DetailQuestion>,
                      now: Time, findDown: set<nat>, createDown: set<nat>)
    requires ValidState(s) && i < |hot| && i !in findDown && Stored(s, hot[i].id)
    requires Hot100Run(s, hot, i, detail, now, findDown, createDown) == s
    ensures Hot100Run(s, hot, i + 1, detail, now, findDown, createDown) == s
  {
    Hot100RunNext(s, hot, i, detail, now, findDown, createDown);
    Hot100SkipsPresent(s, hot[i], detail, now, i in createDown);
  }

  /** `Hot100Run` one entry further. */
  lemma Hot100RunNext(s: TableState, hot: seq<HotEntry>, i: nat, detail: map<string, DetailQuestion>,
                      now: Time, findDown: set<nat>, createDown: set<nat>)
    requires ValidState(s) && i < |hot|
    ensures Hot100Run(s, hot, i + 1, detail, now, findDown, createDown)
            == Hot100Step(Hot100Run(s, hot, i, detail, now, findDown, createDown), hot[i], detail, now,
                          i in findDown, i in createDown)
  {
  }

  // ------------------------------------------------------------ batch crawl

  /** One slug of `BatchCrawlProblems`: a failed crawl is skipped, and the
      problem is created only when no listed leetcode problem has its `SourceId`. */
  function BatchStep(s: TableState, slug: string, detail: map<string, DetailQuestion>, now: Time,
                     findDown: bool, createDown: bool): (t: TableState)
    requires ValidState(s)
    ensures ValidState(t)
  {
    var crawled := CrawlProblemBySlug(slug, detail, now);
    if crawled.Err? then s
    else if FirstIndex(ExistingLeetCode(s, findDown), crawled.value.sourceId) >= 0 then s
    else InsertSpec(s, ToEntity(crawled.value), now, createDown).0
  }

  function BatchRun(s: TableState, slugs: seq<string>, n: nat, detail: map<string, DetailQuestion>, now: Time,
                    findDown: set<nat>, createDown: set<nat>): (t: TableState)
    requires ValidState(s) && n <= |slugs|
    ensures ValidState(t)
  {
    if n == 0 then s
    else BatchStep(BatchRun(s, slugs, n - 1, detail, now, findDown, createDown), slugs[n - 1], detail, now,
                   (n - 1) in findDown, (n - 1) in createDown)
  }

  /** A slug either changes nothing or appends exactly its crawled problem,
      and then (when the lookup worked) no leetcode row had its `SourceId`;
      a slug whose `SourceId` a leetcode row already has changes nothing. */
  lemma BatchStepCreatesOnlyAbsent(s: TableState, slug: string, detail: map<string, DetailQuestion>, now: Time,
                                   findDown: bool, createDown: bool)
    requires ValidState(s)
    ensures var t := BatchStep(s, slug, detail, now, findDown, createDown);
            var c := CrawlProblemBySlug(slug, detail, now);
            t == s || (&& c.Ok? && !createDown
                       && t == s.(problems := s.problems + [ToEntity(c.value).(id := s.nextId)], nextId := s.nextId + 1)
                       && (!findDown ==> forall x :: x in s.problems && x.source == LeetCode ==> x.sourceId != c.value.sourceId))
    ensures var c := CrawlProblemBySlug(slug, detail, now);
            !findDown && c.Ok? && (exists x :: x in s.problems && x.source == LeetCode && x.sourceId == c.value.sourceId) ==>
              BatchStep(s, slug, detail, now, findDown, createDown) == s
  {
    var c := CrawlProblemBySlug(slug, detail, now);
    if c.Ok? {
      NoLeetCodeMatch(s, c.value.sourceId);
      var p := ToEntity(c.value);
      assert WithInsertDefaults(p, now) == p;
    }
  }

  // ------------------------------------------------------------ problem lists

  /** `result["data"]["problemsetQuestionList"]["questions"]`, or nothing
      when a step of that path is missing or has another type. */
  function QuestionList(j: Json): seq<Json>
  {
    if j.JObject? && "data" in j.fields && j.fields["data"].JObject? then
      var data := j.fields["data"].fields;
      if "problemsetQuestionList" in data && data["problemsetQuestionList"].JObject? then
        var list := data["problemsetQuestionList"].fields;
        if "questions" in list && list["questions"].JArray? then list["questions"].items else []
      else []
    else []
  }

  /** The slug a question contributes: its `titleSlug` when both that and
      `frontendQuestionId` are strings and the id parses (`strconv.Atoi`)
      to a number in [start, end]. */
  function Selected(q: Json, start: int, end: int): Option<string>
  {
    if q.JObject? && "titleSlug" in q.fields && q.fields["titleSlug"].JString?
       && "frontendQuestionId" in q.fields && q.fields["frontendQuestionId"].JString? then
      var id := ParseInt(q.fields["frontendQuestionId"].str);
      if id.Some? && start <= id.value <= end then Some(q.fields["titleSlug"].str) else None
    else None
  }

  /** The selected slugs in question order. */
  function SlugsInRange(qs: seq<Json>, start: int, end: int): (r: seq<string>)
    ensures |r| <= |qs|
  {
    if |qs| == 0 then []
    else
      var s := Selected(qs[|qs| - 1], start, end);
      SlugsInRange(qs[..|qs| - 1], start, end) + (if s.Some? then [s.value] else [])
  }

  /** The selection keeps question order: the slugs of a concatenation are the
      slugs of its parts, one after the other. */
  lemma {:induction false} SlugsInRangeConcat(a: seq<Json>, b: seq<Json>, start: int, end: int)
    ensures SlugsInRange(a + b, start, end) == SlugsInRange(a, start, end) + SlugsInRange(b, start, end)
  {
    if |b| == 0 {
      assert a + b == a;
    } else {
      SlugsInRangeConcat(a, b[..|b| - 1], start, end);
      assert (a + b)[..|a + b| - 1] == a + b[..|b| - 1];
    }
  }

  /** A slug is listed exactly when some question selects it. */
  lemma {:induction false} SlugsInRangeMembers(qs: seq<Json>, start: int, end: int)
    ensures forall s :: s in SlugsInRange(qs, start, end) <==>
                        exists i :: 0 <= i < |qs| && Selected(qs[i], start, end) == Some(s)
  {
    if |qs| > 0 {
      var init := qs[..|qs| - 1];
      SlugsInRangeMembers(init, start, end);
      forall s ensures s in SlugsInRange(qs, start, end) <==> exists i :: 0 <= i < |qs| && Selected(qs[i], start, end) == Some(s) {
        if exists i :: 0 <= i < |qs| && Selected(qs[i], start, end) == Some(s) {
          var i :| 0 <= i < |qs| && Selected(qs[i], start, end) == Some(s);
          if i < |qs| - 1 {
            assert qs[i] == init[i];
          }
        }
        if s in SlugsInRange(init, start, end) {
          var i :| 0 <= i < |init| && Selected(init[i], start, end) == Some(s);
          assert qs[i] == init[i];
        }
      }
    }
  }

  // ------------------------------------------------------------ HTML

  /** The five entities, decoded in this order. */
  function DecodeEntities(s: string): string
  {
    var s1 := ReplaceAll(s, "&nbsp;", " ");
    var s2 := ReplaceAll(s1, "&lt;", "<");
    var s3 := ReplaceAll(s2, "&gt;", ">");
    var s4 := ReplaceAll(s3, "&amp;", "&");
    ReplaceAll(s4, "&quot;", "\"")
  }

  /** The crawler's `cleanHTMLContent`: strip tags, collapse whitespace runs
      to one blank, decode the entities, trim. */
  function CleanHtmlContent(content: string): string
  {
    TrimSpace(DecodeEntities(Html.CollapseSpaces(Html.StripTags(content))))
  }

  lemma DecodeWithoutAmpersand(s: string)
    requires '&' !in s
    ensures DecodeEntities(s) == s
  {
    ReplaceAllAbsent(s, "&nbsp;", " ");
    ReplaceAllAbsent(s, "&lt;", "<");
    ReplaceAllAbsent(s, "&gt;", ">");
    ReplaceAllAbsent(s, "&amp;", "&");
    ReplaceAllAbsent(s, "&quot;", "\"");
  }

  lemma {:induction false} CollapseWithoutSpace(s: string)
    requires forall i :: 0 <= i < |s| ==> !Html.IsReSpace(s[i])
    ensures Html.CollapseSpaces(s) == s
  {
    if |s| > 0 {
      CollapseWithoutSpace(s[1..]);
      assert s == [s[0]] + s[1..];
    }
  }

  /** The result never starts or ends with white space. */
  lemma CleanedHasNoEdgeSpace(content: string)
    ensures var r := CleanHtmlContent(content);
            |r| == 0 || (!IsSpace(r[0]) && !IsSpace(r[|r| - 1]))
  {
    TrimSpaceEdges(DecodeEntities(Html.CollapseSpaces(Html.StripTags(content))));
  }

  /** Text without `<`, `&` and `\s` runes comes out only trimmed. */
  lemma CleanPlainText(w: string)
    requires '<' !in w && '&' !in w
    requires forall i :: 0 <= i < |w| ==> !Html.IsReSpace(w[i])
    ensures CleanHtmlContent(w) == TrimSpace(w)
  {
    Html.StripTagsWithoutOpen(w);
    CollapseWithoutSpace(w);
    DecodeWithoutAmpersand(w);
  }

  /** A pattern that starts `&x` with x not the second rune of `s`, in a
      text whose only `&` is its first rune, is not found. */
  lemma AmpersandHeadKept(s: string, pat: string, rep: string)
    requires |s| >= 2 && |pat| >= 2 && s[0] == '&' && pat[0] == '&' && s[1] != pat[1] && '&' !in s[1..]
    ensures ReplaceAll(s, pat, rep) == s
  {
    NotPrefixAt(s, pat, 1);
    assert s == [s[0]] + s[1..];
    ReplaceAllSkipHead('&', s[1..], pat, rep);
    ReplaceAllAbsent(s[1..], pat, rep);
  }

  /** Each entity is decoded once: an escaped ampersand `&amp;` followed by
      text without `&` becomes `&` and that text, so `&amp;lt;` stays `&lt;`,
      because `&lt;` is decoded before `&amp;`. */
  lemma EscapedAmpersandDecodedOnce(w: string)
    requires '&' !in w && |w| > 0 && w[0] != 'q'
    ensures DecodeEntities("&amp;" + w) == "&" + w
  {
    var s := "&amp;" + w;
    assert s[1] == 'a';
    assert s[1..] == "amp;" + w;
    AmpersandHeadKept(s, "&nbsp;", " ");
    AmpersandHeadKept(s, "&lt;", "<");
    AmpersandHeadKept(s, "&gt;", ">");
    ReplaceAllAtFront(w, "&amp;", "&");
    ReplaceAllAbsent(w, "&amp;", "&");
    var out := "&" + w;
    assert out[1] == w[0] && out[1..] == w;
    AmpersandHeadKept(out, "&quot;", "\"");
  }

  // ------------------------------------------------------------ the crawler

  /** The loop both passes run over the listed leetcode problems: the index
      of the first with that `SourceId`, or -1. */
  method FirstWithSourceId(existing: seq<CodingProblem>, sourceId: string) returns (k: int)
    ensures k == FirstIndex(existing, sourceId)
  {
    k := -1;
    var i := 0;
    while i < |existing|
      invariant 0 <= i <= |existing| && k == -1
      invariant forall j :: 0 <= j < i ==> existing[j].sourceId != sourceId
    {
      if existing[i].sourceId == sourceId {
        k := i;
        break;
      }
      i := i + 1;
    }
  }

  class LeetCodeCrawler {
    const repo: CodingProblemRepository

    constructor (repo: CodingProblemRepository)
      ensures this.repo == repo
    {
      this.repo := repo;
    }

    /** `CrawlAndSaveDailyProblem`. */
    method CrawlAndSaveDailyProblem(today: Option<seq<TodayQuestion>>, detail: map<string, DetailQuestion>,
                                    now: Time, offset: int, f: DailyFaults) returns (err: Option<CrawlError>)
      requires repo.dao.Valid()
      modifies repo.dao
      ensures repo.dao.Valid()
      ensures (repo.dao.State(), err) == DailyPass(old(repo.dao.State()), today, detail, now, offset, f)
    {
      var draft := GetDailyProblem(today, detail, now);
      if draft.Err? {
        return Some(draft.error);
      }
      var d := draft.value;
      var problemId := SaveDraft(d, now, f);
      if problemId.Err? {
        return Some(problemId.error);
      }
      var markErr := repo.MarkAsDailyProblem(problemId.value, d.date, offset, f.markFailAt);
      return None;
    }

    /** The part of `CrawlAndSaveDailyProblem` between the draft and the
        marking: update the first leetcode problem with the draft's
        `SourceId`, or create one and re-query its id. */
    method SaveDraft(d: DailyProblem, now: Time, f: DailyFaults) returns (problemId: Result<int, CrawlError>)
      requires repo.dao.Valid()
      modifies repo.dao
      ensures repo.dao.Valid()
      ensures (repo.dao.State(), problemId) == UpsertSpec(old(repo.dao.State()), d, now, f)
    {
      var found := repo.FindBySource(LeetCode, f.findDown);
      var existing := if found.Ok? then found.value else [];
      var k := FirstWithSourceId(existing, d.sourceId);
      if k >= 0 {
        var codingProblem := existing[k];
        codingProblem := codingProblem.(tags := d.tags, isDailyProblem := true, dailyDate := Some(d.date), utime := now);
        var e := repo.Update(codingProblem, now, f.updateDown);
        if e.Some? {
          return Err(StoreFailed(e.value));
        }
        return Ok(codingProblem.id);
      }
      var codingProblem := CodingProblem(0, d.title, d.difficulty, d.tags, d.source, d.sourceId, d.sourceUrl,
                                         NotStarted, None, true, Some(d.date), false, now, now);
      var e := repo.Create(codingProblem, now, f.createDown);
      if e.Some? {
        return Err(StoreFailed(e.value));
      }
      var created := repo.FindBySourceId(d.sourceId, f.requeryDown);
      if created.Err? || |created.value| == 0 {
        return Err(CreatedIdUnknown);
      }
      return Ok(created.value[0].id);
    }

    /** `CrawlAndSaveHot100Problems` over the list `hot`; it always returns nil. */
    method CrawlAndSaveHot100Problems(hot: seq<HotEntry>, detail: map<string, DetailQuestion>, now: Time,
                                      findDown: set<nat>, createDown: set<nat>)
      requires repo.dao.Valid()
      modifies repo.dao
      ensures repo.dao.Valid()
      ensures repo.dao.State() == Hot100Run(old(repo.dao.State()), hot, |hot|, detail, now, findDown, createDown)
    {
      for i := 0 to |hot|
        invariant repo.dao.Valid()
        invariant repo.dao.State() == Hot100Run(old(repo.dao.State()), hot, i, detail, now, findDown, createDown)
      {
        ghost var before := repo.dao.State();
        SaveHot100Entry(hot[i], detail, now, i in findDown, i in createDown);
        Hot100RunGrows(old(repo.dao.State()), hot, i, detail, now, findDown, createDown, before, repo.dao.State());
      }
    }

    /** One iteration of the Hot 100 loop. */
    method SaveHot100Entry(hotProblem: HotEntry, detail: map<string, DetailQuestion>, now: Time, findDown: bool, createDown: bool)
      requires repo.dao.Valid()
      modifies repo.dao
      ensures repo.dao.Valid()
      ensures repo.dao.State() == Hot100Step(old(repo.dao.State()), hotProblem, detail, now, findDown, createDown)
    {
      var existing := repo.FindBySourceId(hotProblem.id, findDown);
      if existing.Ok? && |existing.value| > 0 {
        return;
      }
      var crawled := CrawlProblemBySlug(hotProblem.titleSlug, detail, now);
      var problem: CodingProblem;
      if crawled.Err? {
        problem := CodingProblem(0, hotProblem.title, hotProblem.difficulty, [Hot100Tag, AlgorithmTag], LeetCode,
                                 hotProblem.id, ProblemUrl(hotProblem.titleSlug), NotStarted, None, false, None, true,
                                 now, now);
      } else {
        problem := crawled.value;
        problem := problem.(isHot100 := true);
        problem := problem.(tags := problem.tags + [Hot100Tag]);
      }
      var e := repo.Create(problem, now, createDown);
    }

    /** `BatchCrawlProblems`; it always returns nil. */
    method BatchCrawlProblems(slugs: seq<string>, detail: map<string, DetailQuestion>, now: Time,
                              findDown: set<nat>, createDown: set<nat>)
      requires repo.dao.Valid()
      modifies repo.dao
      ensures repo.dao.Valid()
      ensures repo.dao.State() == BatchRun(old(repo.dao.State()), slugs, |slugs|, detail, now, findDown, createDown)
    {
      for i := 0 to |slugs|
        invariant repo.dao.Valid()
        invariant repo.dao.State() == BatchRun(old(repo.dao.State()), slugs, i, detail, now, findDown, createDown)
      {
        CrawlAndSaveSlug(slugs[i], detail, now, i in findDown, i in createDown);
      }
    }

    /** One iteration of the batch loop. */
    method CrawlAndSaveSlug(slug: string, detail: map<string, DetailQuestion>, now: Time, findDown: bool, createDown: bool)
      requires repo.dao.Valid()
      modifies repo.dao
      ensures repo.dao.Valid()
      ensures repo.dao.State() == BatchStep(old(repo.dao.State()), slug, detail, now, findDown, createDown)
    {
      var crawled := CrawlProblemBySlug(slug, detail, now);
      if crawled.Err? {
        return;
      }
      var problem := crawled.value;
      var found := repo.FindBySource(LeetCode, findDown);
      var existing := if found.Ok? then found.value else [];
      var k := FirstWithSourceId(existing, problem.sourceId);
      var present := k >= 0;
      if !present {
        var e := repo.Create(problem, now, createDown);
      }
    }

    /** `GetProblemsInRange`: `response` is the decoded answer (None when the
        request failed). A JSON `null` decodes to a nil map and yields no
        slugs; any other non-object is a decoding error. */
    method GetProblemsInRange(response: Option<Json>, start: int, end: int) returns (r: Result<seq<string>, CrawlError>)
      ensures response.None? ==> r == Err(RequestFailed)
      ensures response.Some? && response.value.JNull? ==> r == Ok([])
      ensures response.Some? && !response.value.JNull? && !response.value.JObject? ==> r == Err(DecodeFailed)
      ensures response.Some? && response.value.JObject? ==> r == Ok(SlugsInRange(QuestionList(response.value), start, end))
    {
      if response.None? {
        return Err(RequestFailed);
      }
      var result := response.value;
      if !result.JNull? && !result.JObject? {
        return Err(DecodeFailed);
      }
      var questions := QuestionList(result);
      var titleSlugs: seq<string> := [];
      for i := 0 to |questions|
        invariant titleSlugs == SlugsInRange(questions[..i], start, end)
      {
        assert questions[..i + 1][..i] == questions[..i];
        var q := questions[i];
        if q.JObject? && "titleSlug" in q.fields && q.fields["titleSlug"].JString?
           && "frontendQuestionId" in q.fields && q.fields["frontendQuestionId"].JString? {
          var id := ParseInt(q.fields["frontendQuestionId"].str);
          if id.Some? && id.value >= start && id.value <= end {
            titleSlugs := titleSlugs + [q.fields["titleSlug"].str];
          }
        }
      }
      assert questions[..|questions|] == questions;
      return Ok(titleSlugs);
    }
  }
}
