/** The HTTP handlers of the coding-problem catalog (`/api/coding/...`).

    A handler's reply is its status code and, for a successful call, the
    JSON body it writes. The service between the handlers and the
    repository only forwards each call, so the handlers here call the
    repository directly; the gin engine is built with `gin.Default()`,
    whose recovery middleware turns a panic into a 500 reply. */
module Web {
  import opened Wrappers
  import opened Text
  import opened Times
  import opened Domain
  import opened ProblemDao
  import opened ProblemRepository

  datatype Reply<T> = Reply(code: int, body: Option<T>)

  /** The body of `GET /api/coding/problems`. */
  datatype PageBody = PageBody(problems: seq<CodingProblem>, total: int, page: int, limit: int)

  /** The body of `GET /api/coding/stats`. */
  datatype StatsBody = StatsBody(
    total: int,
    easy: int,
    medium: int,
    hard: int,
    byDifficulty: map<string, int>,
    bySource: map<string, int>,
    byStatus: map<string, int>)

  // ------------------------------------------------------------ pagination

  /** The `page` query parameter: 1 unless it parses as a positive integer. */
  function PageParam(s: string): (page: int)
    ensures page >= 1
    ensures page == 1 || ParseInt(s) == Some(page)
    ensures ParseInt(s).Some? && ParseInt(s).value > 0 ==> page == ParseInt(s).value
  {
    var p := ParseInt(s);
    if p.Some? && p.value > 0 then p.value else 1
  }

  /** The `limit` query parameter: 50 unless it parses as an integer in 1..100. */
  function LimitParam(s: string): (limit: int)
    ensures 1 <= limit <= 100
    ensures limit == 50 || ParseInt(s) == Some(limit)
    ensures ParseInt(s).Some? && 1 <= ParseInt(s).value <= 100 ==> limit == ParseInt(s).value
  {
    var l := ParseInt(s);
    if l.Some? && 0 < l.value <= 100 then l.value else 50
  }

  /** `page` is page number `pageNo` of `all` cut into pages of `limit`:
      the items from `(pageNo - 1) * limit` on, at most `limit` of them, and
      none when that start is past the end. */
  ghost predicate IsPage<T>(page: seq<T>, all: seq<T>, pageNo: int, limit: int)
  {
    var start := (pageNo - 1) * limit;
    && |page| == (if start >= |all| || start < 0 then 0 else if |all| - start < limit then |all| - start else limit)
    && forall i :: 0 <= i < |page| ==> 0 <= start + i < |all| && page[i] == all[start + i]
  }

  /** A page never holds more than `limit` items, and is empty past the end. */
  lemma PageBounds<T>(page: seq<T>, all: seq<T>, pageNo: int, limit: int)
    requires IsPage(page, all, pageNo, limit) && limit >= 0
    ensures |page| <= limit
    ensures (pageNo - 1) * limit >= |all| ==> page == []
  {
  }

  /** Pages are consecutive: page n + 1 starts where page n ends, when page n is full. */
  lemma PagesAdjoin<T>(p: seq<T>, q: seq<T>, all: seq<T>, n: int, limit: int)
    requires n >= 1 && limit >= 1 && IsPage(p, all, n, limit) && IsPage(q, all, n + 1, limit)
    requires |p| == limit && |q| > 0
    ensures q[0] == all[n * limit]
    ensures p[limit - 1] == all[n * limit - 1]
  {
  }

  lemma StartNonNegative(page: int, limit: int)
    requires page >= 1 && limit >= 1
    ensures (page - 1) * limit >= 0
  {
  }

  /** The slice the handler cuts is the page. */
  lemma SliceIsPage<T>(all: seq<T>, page: int, limit: int, end: int)
    requires page >= 1 && limit >= 1
    requires 0 <= (page - 1) * limit < |all|
    requires end == (if (page - 1) * limit + limit > |all| then |all| else (page - 1) * limit + limit)
    ensures IsPage(all[(page - 1) * limit..end], all, page, limit)
  {
  }

  /** The value an int64 wraps to. */
  function Wrap64(x: int): (r: int)
    ensures MinInt64 <= r <= MaxInt64
    ensures (r - x) % 0x1_0000_0000_0000_0000 == 0
  {
    (x - MinInt64) % 0x1_0000_0000_0000_0000 + MinInt64
  }

  /** The paging of `GetAllProblems` as written, in 64-bit arithmetic:
      `start := (page-1)*limit` and `end := start+limit` wrap around, and a
      slice with a negative bound panics, which the recovery middleware
      answers with 500. */
  function PagedAsWritten(all: seq<CodingProblem>, page: int, limit: int): Reply<PageBody>
    requires |all| <= MaxInt64
  {
    var total := |all|;
    var start := Wrap64((page - 1) * limit);
    var end := Wrap64(start + limit);
    if start >= total then Reply(200, Some(PageBody([], total, page, limit)))
    else
      var end := if end > total then total else end;
      if start < 0 || end < start then Reply(500, None)
      else Reply(200, Some(PageBody(all[start..end], total, page, limit)))
  }

  /** While `page * limit` stays within int64 the written paging is the intended one. */
  lemma PagedAsWrittenWithoutOverflow(all: seq<CodingProblem>, page: int, limit: int)
    requires |all| <= MaxInt64 && page >= 1 && 1 <= limit && page * limit <= MaxInt64
    ensures var r := PagedAsWritten(all, page, limit);
            r.code == 200 && r.body.Some? && IsPage(r.body.value.problems, all, page, limit)
  {
    var start := (page - 1) * limit;
    assert start + limit == page * limit;
    StartNonNegative(page, limit);
    Wrap64InRange(start);
    Wrap64InRange(start + limit);
    if start < |all| {
      var end := if start + limit > |all| then |all| else start + limit;
      SliceIsPage(all, page, limit, end);
    }
  }

  /** A value within int64 wraps to itself. */
  lemma Wrap64InRange(x: int)
    requires MinInt64 <= x <= MaxInt64
    ensures Wrap64(x) == x
  {
  }

  /** The largest page number the handler accepts, with the largest limit,
      wraps the start to -200: the catalog is fetched and then the slice panics. */
  lemma PagedAsWrittenPanics(all: seq<CodingProblem>)
    requires 1 <= |all| <= MaxInt64
    ensures Wrap64((MaxInt64 - 1) * 100) == -200
    ensures PagedAsWritten(all, MaxInt64, 100).code == 500
  {
  }

  /** The query `page=9223372036854775807&limit=100` reaches the handler's
      arithmetic as those two numbers. */
  lemma LargestPageAccepted(pageStr: string, limitStr: string)
    requires pageStr == IntToDecimal(MaxInt64) && limitStr == IntToDecimal(100)
    ensures PageParam(pageStr) == MaxInt64 && LimitParam(limitStr) == 100
  {
    ParseIntOfDecimal(MaxInt64);
    ParseIntOfDecimal(100);
  }

  /** Page 2^62 + 1 of limit 4 wraps the start to 0 and answers the first
      page, where the intended reply is an empty page. */
  lemma PagedAsWrittenRepeatsFirstPage(all: seq<CodingProblem>)
    requires 4 <= |all| <= MaxInt64
    ensures var r := PagedAsWritten(all, 0x4000_0000_0000_0001, 4);
            r.code == 200 && r.body.Some? && r.body.value.problems == all[..4]
    ensures forall page: seq<CodingProblem> :: IsPage(page, all, 0x4000_0000_0000_0001, 4) ==> page == []
  {
    assert Wrap64(0x4000_0000_0000_0000 * 4) == 0;
    assert Wrap64(4) == 4;
  }

  // ----------------------------------------------------------------- stats

  /** How many problems have difficulty `a` or `b`. */
  function CountDifficulty(ps: seq<CodingProblem>, a: string, b: string): (n: nat)
    ensures n <= |ps|
  {
    if |ps| == 0 then 0
    else CountDifficulty(ps[..|ps| - 1], a, b) + (if ps[|ps| - 1].difficulty == a || ps[|ps| - 1].difficulty == b then 1 else 0)
  }

  /** Counts of disjoint difficulty names add up to at most the total. */
  lemma {:induction false} DifficultyCountsBounded(ps: seq<CodingProblem>)
    ensures CountDifficulty(ps, "Easy", "简单") + CountDifficulty(ps, "Medium", "中等")
            + CountDifficulty(ps, "Hard", "困难") <= |ps|
  {
    if |ps| > 0 {
      DifficultyCountsBounded(ps[..|ps| - 1]);
    }
  }

  /** `m[k]++` on a Go map: a missing key counts from 0. */
  function Bump(m: map<string, int>, k: string): (r: map<string, int>)
    ensures r.Keys == m.Keys + {k}
    ensures r[k] == (if k in m then m[k] else 0) + 1
    ensures forall j :: j in m && j != k ==> r[j] == m[j]
  {
    m[k := (if k in m then m[k] else 0) + 1]
  }

  /** The map a loop of `m[keys[i]]++` leaves, starting from `m`. */
  function Tally(m: map<string, int>, keys: seq<string>): map<string, int>
  {
    if |keys| == 0 then m else Bump(Tally(m, keys[..|keys| - 1]), keys[|keys| - 1])
  }

  function Sources(ps: seq<CodingProblem>): (r: seq<string>)
    ensures |r| == |ps| && forall i :: 0 <= i < |ps| ==> r[i] == ps[i].source
  {
    seq(|ps|, i requires 0 <= i < |ps| => ps[i].source)
  }

  function Statuses(ps: seq<CodingProblem>): (r: seq<string>)
    ensures |r| == |ps| && forall i :: 0 <= i < |ps| ==> r[i] == ps[i].studyStatus
  {
    seq(|ps|, i requires 0 <= i < |ps| => ps[i].studyStatus)
  }

  predicate IsEasy(d: string) { d == "Easy" || d == "简单" }
  predicate IsMedium(d: string) { d == "Medium" || d == "中等" }
  predicate IsHard(d: string) { d == "Hard" || d == "困难" }

  /** The `if`/`else if` chain of the loop counts each problem at most once. */
  lemma DifficultyNamesDistinct(d: string)
    ensures IsEasy(d) ==> !IsMedium(d) && !IsHard(d)
    ensures IsMedium(d) ==> !IsHard(d)
  {
    assert "Easy"[0] != "Hard"[0];
    assert "简单"[0] != "中等"[0] && "简单"[0] != "困难"[0] && "中等"[0] != "困难"[0];
  }

  /** One more problem adds its difficulty, source and status to the prefix. */
  lemma StatsStep(ps: seq<CodingProblem>, i: int)
    requires 0 <= i < |ps|
    ensures CountDifficulty(ps[..i + 1], "Easy", "简单") == CountDifficulty(ps[..i], "Easy", "简单") + (if IsEasy(ps[i].difficulty) then 1 else 0)
    ensures CountDifficulty(ps[..i + 1], "Medium", "中等") == CountDifficulty(ps[..i], "Medium", "中等") + (if IsMedium(ps[i].difficulty) then 1 else 0)
    ensures CountDifficulty(ps[..i + 1], "Hard", "困难") == CountDifficulty(ps[..i], "Hard", "困难") + (if IsHard(ps[i].difficulty) then 1 else 0)
    ensures Tally(map[], Sources(ps[..i + 1])) == Bump(Tally(map[], Sources(ps[..i])), ps[i].source)
    ensures Tally(StatusesAtZero, Statuses(ps[..i + 1])) == Bump(Tally(StatusesAtZero, Statuses(ps[..i])), ps[i].studyStatus)
  {
    assert ps[..i + 1][..i] == ps[..i];
    var a := Sources(ps[..i + 1]);
    assert a[..i] == Sources(ps[..i]);
    var b := Statuses(ps[..i + 1]);
    assert b[..i] == Statuses(ps[..i]);
  }

  /** `statusMap` before the loop: the three statuses at 0. */
  const StatusesAtZero: map<string, int> := map[NotStarted := 0, InProgress := 0, Completed := 0]

  /** Some key of a non-empty set, always the same one for the same set. */
  ghost function Pick(s: set<string>): string
    requires s != {}
  {
    var k :| k in s; k
  }

  /** The sum of a map's values. */
  ghost function MapTotal(m: map<string, int>): int
    decreases |m.Keys|
  {
    if m.Keys == {} then 0
    else
      var k := Pick(m.Keys);
      assert |(m - {k}).Keys| < |m.Keys| by {
        assert (m - {k}).Keys == m.Keys - {k};
      }
      m[k] + MapTotal(m - {k})
  }

  /** The sum does not depend on which key is taken out first. */
  lemma {:induction false} MapTotalRemove(m: map<string, int>, k: string)
    requires k in m
    ensures MapTotal(m) == m[k] + MapTotal(m - {k})
    decreases |m.Keys|
  {
    var j := Pick(m.Keys);
    if j != k {
      assert (m - {j}).Keys == m.Keys - {j};
      assert (m - {k}).Keys == m.Keys - {k};
      MapTotalRemove(m - {j}, k);
      MapTotalRemove(m - {k}, j);
      assert m - {j} - {k} == m - {k} - {j};
    }
  }

  lemma MapTotalBump(m: map<string, int>, k: string)
    ensures MapTotal(Bump(m, k)) == MapTotal(m) + 1
  {
    var r := Bump(m, k);
    MapTotalRemove(r, k);
    assert r - {k} == m - {k};
    if k in m {
      MapTotalRemove(m, k);
    } else {
      assert m - {k} == m;
    }
  }

  /** Each counted key adds one to the sum. */
  lemma {:induction false} TallyTotal(m: map<string, int>, keys: seq<string>)
    ensures MapTotal(Tally(m, keys)) == MapTotal(m) + |keys|
  {
    if |keys| > 0 {
      TallyTotal(m, keys[..|keys| - 1]);
      MapTotalBump(Tally(m, keys[..|keys| - 1]), keys[|keys| - 1]);
    }
  }

  /** Tallying keeps every key it started from. */
  lemma {:induction false} TallyKeepsKeys(m: map<string, int>, keys: seq<string>)
    ensures m.Keys <= Tally(m, keys).Keys
  {
    if |keys| > 0 {
      TallyKeepsKeys(m, keys[..|keys| - 1]);
    }
  }

  lemma StatusesAtZeroTotal()
    ensures MapTotal(StatusesAtZero) == 0
  {
    var m := StatusesAtZero;
    MapTotalRemove(m, NotStarted);
    var m1 := m - {NotStarted};
    MapTotalRemove(m1, InProgress);
    var m2 := m1 - {InProgress};
    MapTotalRemove(m2, Completed);
    assert m2 - {Completed} == map[];
  }

  /** `by_source` and `by_status` count every problem once, and `by_status`
      always holds the three statuses. */
  lemma StatsTotals(ps: seq<CodingProblem>)
    ensures MapTotal(Tally(map[], Sources(ps))) == |ps|
    ensures MapTotal(Tally(StatusesAtZero, Statuses(ps))) == |ps|
    ensures {NotStarted, InProgress, Completed} <= Tally(StatusesAtZero, Statuses(ps)).Keys
  {
    TallyTotal(map[], Sources(ps));
    assert MapTotal(map[]) == 0;
    TallyTotal(StatusesAtZero, Statuses(ps));
    StatusesAtZeroTotal();
    TallyKeepsKeys(StatusesAtZero, Statuses(ps));
  }

  // ------------------------------------------------------------ study status

  predicate ValidStatus(s: string)
  {
    s == NotStarted || s == InProgress || s == Completed
  }

  /** The problem `UpdateStudyStatus` saves: the new status, and `now` as the
      last-studied time unless the status is `not_started`. */
  function WithNewStatus(p: CodingProblem, status: string, now: Time): CodingProblem
  {
    p.(studyStatus := status, lastStudied := if status != NotStarted then Some(now) else p.lastStudied)
  }

  /** Saving the re-read problem with its new status changes only the study
      status, the last-studied time (exactly when the status is not
      `not_started`) and `utime` of that one row. */
  lemma StudyStatusSaveEffect(s: TableState, k: int, status: string, now: Time)
    requires ValidState(s) && 0 <= k < |s.problems|
    ensures var row := s.problems[k];
            var t := UpdateSpec(s, ToEntity(WithNewStatus(ToDomain(row), status, now)), now, false).0;
            t.history == s.history && t.nextId == s.nextId && |t.problems| == |s.problems|
            && (forall i :: 0 <= i < |s.problems| && i != k ==> t.problems[i] == s.problems[i])
            && t.problems[k] == row.(studyStatus := status, utime := now,
                                     lastStudied := if status != NotStarted then Some(now) else row.lastStudied)
  {
    var row := s.problems[k];
    EntityOfDomain(row);
    var t := UpdateSpec(s, ToEntity(WithNewStatus(ToDomain(row), status, now)), now, false).0;
    forall i | 0 <= i < |s.problems| && i != k ensures t.problems[i] == s.problems[i] {
      if s.problems[i].id == row.id {
        IdsInjective(s.problems, i, k);
      }
    }
  }

  lemma IdsInjective(rows: seq<ProblemRow>, i: int, j: int)
    requires SortedIds(rows) && 0 <= i < |rows| && 0 <= j < |rows| && rows[i].id == rows[j].id
    ensures i == j
  {
  }

  // ------------------------------------------------------------ the handler

  class CodingProblemHandler {
    const repo: CodingProblemRepository

    constructor (repo: CodingProblemRepository)
      ensures this.repo == repo
    {
      this.repo := repo;
    }

    /** `GET /api/coding/problems?page=&limit=`. The start of the page is
        computed without 64-bit wrap-around (see PagedAsWritten). */
    method GetAllProblems(pageStr: string, limitStr: string, dbDown: bool) returns (r: Reply<PageBody>)
      ensures r.code == 200 <==> !dbDown
      ensures dbDown ==> r == Reply(500, None)
      ensures r.code == 200 ==>
                (&& r.body.Some?
                 && r.body.value.page == PageParam(pageStr) && r.body.value.limit == LimitParam(limitStr)
                 && r.body.value.total == |repo.dao.problems|
                 && IsPage(r.body.value.problems, repo.FindAll(false).value, r.body.value.page, r.body.value.limit))
    {
      var page := 1;
      var limit := 50;
      if pageStr != "" {
        var p := ParseInt(pageStr);
        if p.Some? && p.value > 0 {
          page := p.value;
        }
      }
      if limitStr != "" {
        var l := ParseInt(limitStr);
        if l.Some? && l.value > 0 && l.value <= 100 {
          limit := l.value;
        }
      }
      var found := repo.FindAll(dbDown);
      if found.Err? {
        return Reply(500, None);
      }
      var problems := found.value;
      var total := |problems|;
      var start := (page - 1) * limit;
      StartNonNegative(page, limit);
      var end := start + limit;
      if start >= total {
        return Reply(200, Some(PageBody([], total, page, limit)));
      }
      if end > total {
        end := total;
      }
      SliceIsPage(problems, page, limit, end);
      return Reply(200, Some(PageBody(problems[start..end], total, page, limit)));
    }

    /** `GET /api/coding/problems/:id`: a malformed id is rejected before
        the store is asked; any store error, a missing row included, is 500. */
    function GetProblemById(idStr: string, dbDown: bool): (r: Reply<CodingProblem>)
      reads repo.dao
      ensures ParseInt(idStr).None? <==> r.code == 400
      ensures r.code == 200 <==> ParseInt(idStr).Some? && repo.FindById(ParseInt(idStr).value, dbDown).Ok?
      ensures r.code == 200 ==> r.body.Some? && exists i :: 0 <= i < |repo.dao.problems| && repo.dao.problems[i].id == ParseInt(idStr).value
                                                 && r.body.value == ToDomain(repo.dao.problems[i])
      ensures r.code != 200 ==> r.body.None? && (r.code == 400 || r.code == 500)
    {
      var id := ParseInt(idStr);
      if id.None? then Reply(400, None)
      else
        var found := repo.FindById(id.value, dbDown);
        if found.Err? then Reply(500, None) else Reply(200, Some(found.value))
    }

    /** `PUT /api/coding/problems/:id/study-status`. `body` is the bound
        `study_status` (None when the JSON does not bind); `findDown` and
        `updateDown` make the lookup or the save fail. */
    method UpdateStudyStatus(idStr: string, body: Option<string>, now: Time, findDown: bool, updateDown: bool)
      returns (code: int)
      requires repo.dao.Valid()
      modifies repo.dao
      ensures repo.dao.Valid()
      ensures code == 400 <==> ParseInt(idStr).None? || body.None? || !ValidStatus(body.value)
      ensures code == 400 ==> repo.dao.State() == old(repo.dao.State())
      ensures code != 400 ==>
                var found := old(repo.FindById(ParseInt(idStr).value, findDown));
                && (found.Err? ==> code == 500 && repo.dao.State() == old(repo.dao.State()))
                && (found.Ok? ==>
                      (&& code == (if updateDown then 500 else 200)
                       && repo.dao.State() == UpdateSpec(old(repo.dao.State()),
                            ToEntity(WithNewStatus(found.value, body.value, now)), now, updateDown).0))
    {
      var id := ParseInt(idStr);
      if id.None? {
        return 400;
      }
      if body.None? || body.value == "" {
        return 400;
      }
      var status := body.value;
      if !ValidStatus(status) {
        return 400;
      }
      var found := repo.FindById(id.value, findDown);
      if found.Err? {
        return 500;
      }
      var problem := found.value;
      problem := problem.(studyStatus := status);
      if status != NotStarted {
        problem := problem.(lastStudied := Some(now));
      }
      problem := problem.(utime := now);
      var err := repo.Update(problem, now, updateDown);
      if err.Some? {
        return 500;
      }
      return 200;
    }

    /** `GET /api/coding/random`; `clock` is `time.Now().UnixNano()`. The
        index is Go's `%`, which keeps the sign of the clock; a negative
        index panics, which is answered with 500. */
    function GetRandomProblem(clock: int, dbDown: bool): (r: Reply<CodingProblem>)
      reads repo.dao
      ensures dbDown ==> r.code == 500
      ensures !dbDown && |repo.dao.problems| == 0 ==> r.code == 404
      ensures !dbDown && |repo.dao.problems| > 0 && clock >= 0 ==>
                r.code == 200 && r.body == Some(ToDomain(repo.dao.problems[clock % |repo.dao.problems|]))
      ensures r.code == 200 ==> r.body.Some? && exists i :: 0 <= i < |repo.dao.problems| && r.body.value == ToDomain(repo.dao.problems[i])
    {
      var found := repo.FindAll(dbDown);
      if found.Err? then Reply(500, None)
      else
        var problems := found.value;
        if |problems| == 0 then Reply(404, None)
        else
          var n := |problems|;
          var index := if clock >= 0 then clock % n else -((-clock) % n);
          if index < 0 then Reply(500, None) else Reply(200, Some(problems[index]))
    }

    /** `GET /api/coding/stats`. */
    method GetStats(dbDown: bool) returns (r: Reply<StatsBody>)
      ensures r.code == 200 <==> !dbDown
      ensures dbDown ==> r == Reply(500, None)
      ensures r.code == 200 ==> r.body.Some?
      ensures r.code == 200 ==>
                var ps := repo.FindAll(false).value;
                var b := r.body.value;
                && b.total == |ps|
                && b.easy == CountDifficulty(ps, "Easy", "简单")
                && b.medium == CountDifficulty(ps, "Medium", "中等")
                && b.hard == CountDifficulty(ps, "Hard", "困难")
                && b.byDifficulty == map["Easy" := b.easy, "Medium" := b.medium, "Hard" := b.hard]
                && b.bySource == Tally(map[], Sources(ps))
                && b.byStatus == Tally(StatusesAtZero, Statuses(ps))
    {
      var found := repo.FindAll(dbDown);
      if found.Err? {
        return Reply(500, None);
      }
      var problems := found.value;
      var easy, medium, hard := 0, 0, 0;
      var sourceMap: map<string, int> := map[];
      var statusMap := StatusesAtZero;
      for i := 0 to |problems|
        invariant easy == CountDifficulty(problems[..i], "Easy", "简单")
        invariant medium == CountDifficulty(problems[..i], "Medium", "中等")
        invariant hard == CountDifficulty(problems[..i], "Hard", "困难")
        invariant sourceMap == Tally(map[], Sources(problems[..i]))
        invariant statusMap == Tally(StatusesAtZero, Statuses(problems[..i]))
      {
        var p := problems[i];
        StatsStep(problems, i);
        DifficultyNamesDistinct(p.difficulty);
        if IsEasy(p.difficulty) {
          easy := easy + 1;
        } else if IsMedium(p.difficulty) {
          medium := medium + 1;
        } else if IsHard(p.difficulty) {
          hard := hard + 1;
        }
        sourceMap := Bump(sourceMap, p.source);
        statusMap := Bump(statusMap, p.studyStatus);
      }
      assert problems[..|problems|] == problems;
      var stats := StatsBody(|problems|, easy, medium, hard,
                             map["Easy" := easy, "Medium" := medium, "Hard" := hard],
                             sourceMap, statusMap);
      return Reply(200, Some(stats));
    }

    /** `GET /api/coding/daily`: the repository never answers nil without an
        error, so the 404 branch is never taken. */
    method GetDailyProblem(now: Time, offset: int, pick: nat, failAt: nat) returns (r: Reply<CodingProblem>)
      requires repo.dao.Valid()
      modifies repo.dao
      ensures repo.dao.Valid()
      ensures var o := GetDailySpec(old(repo.dao.State()), now, offset, pick, failAt);
              && repo.dao.State() == o.0
              && (o.1.Err? ==> r == Reply(500, None))
              && (o.1.Ok? ==> r == Reply(200, Some(ToDomain(o.1.value))))
      ensures r.code != 404
    {
      var found := repo.GetDailyProblem(now, offset, pick, failAt);
      if found.Err? {
        return Reply(500, None);
      }
      if found.value.None? {
        return Reply(404, None);
      }
      return Reply(200, Some(found.value.value));
    }
  }
}
