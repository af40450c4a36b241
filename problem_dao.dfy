/** The GORM data-access object over the `coding_problems` and
    `daily_problems` tables, with the two tables held in memory.

    Rows are kept in primary-key order, so GORM's `First` (which orders by
    the primary key) is the first matching row and `Find` lists matches in
    that order. A failing database statement is selected by a parameter:
    `dbDown` for an operation of one statement, `failAt` (the 1-based
    index of the statement that fails, 0 for none) for an operation of
    several. A failed statement changes nothing. */
module ProblemDao {
  import opened Wrappers
  import opened Text
  import opened Times
  import Domain

  /** One row of `coding_problems`. */
  datatype ProblemRow = ProblemRow(
    id: int,
    title: string,
    difficulty: string,
    tags: seq<string>,
    source: string,
    sourceId: string,
    sourceUrl: string,
    studyStatus: string,
    lastStudied: Option<Time>,
    isDailyProblem: bool,
    dailyDate: Option<Time>,
    isHot100: bool,
    ctime: Time,
    utime: Time)

  /** One row of `daily_problems`; `date` is unique and `problemId` names a problem. */
  datatype DailyRow = DailyRow(
    id: int,
    date: string,
    title: string,
    difficulty: string,
    tags: seq<string>,
    source: string,
    sourceId: string,
    sourceUrl: string,
    problemId: int,
    ctime: Time,
    utime: Time)

  datatype DbError = RecordNotFound | DuplicateKey | DbFailure

  /** Both tables and their auto-increment counters. */
  datatype TableState = TableState(
    problems: seq<ProblemRow>,
    history: seq<DailyRow>,
    nextId: int,
    nextHistoryId: int)

  // ------------------------------------------------------------ invariants

  predicate SortedIds(rows: seq<ProblemRow>)
  {
    forall i, j :: 0 <= i < j < |rows| ==> rows[i].id < rows[j].id
  }

  predicate SortedHistoryIds(h: seq<DailyRow>)
  {
    forall i, j :: 0 <= i < j < |h| ==> h[i].id < h[j].id
  }

  predicate UniqueDates(h: seq<DailyRow>)
  {
    forall i, j :: 0 <= i < j < |h| ==> h[i].date != h[j].date
  }

  /** Primary keys are unique (rows in key order) and below the counters,
      and `daily_problems.date` is unique. */
  predicate ValidState(s: TableState)
  {
    && SortedIds(s.problems)
    && (forall x :: x in s.problems ==> x.id < s.nextId)
    && SortedHistoryIds(s.history)
    && (forall x :: x in s.history ==> x.id < s.nextHistoryId)
    && UniqueDates(s.history)
  }

  lemma SortedBelowHead(rows: seq<ProblemRow>)
    requires |rows| > 0
    ensures SortedIds(rows) ==> forall x :: x in rows[1..] ==> rows[0].id < x.id
  {
    if SortedIds(rows) {
      forall x | x in rows[1..] ensures rows[0].id < x.id {
        var k :| 0 <= k < |rows[1..]| && rows[1..][k] == x;
        assert rows[k + 1] == x;
      }
    }
  }

  /** The tail of a key-ordered list is key ordered. */
  lemma SortedDrop(rows: seq<ProblemRow>)
    requires |rows| > 0
    ensures SortedIds(rows) ==> SortedIds(rows[1..])
  {
    assert forall i :: 1 <= i < |rows| ==> rows[1..][i - 1] == rows[i];
  }

  /** ... and still lacks a key the whole list lacks. */
  lemma SortedTail(rows: seq<ProblemRow>, r: ProblemRow)
    requires |rows| > 0 && SortedIds(rows) && forall x :: x in rows ==> x.id != r.id
    ensures SortedIds(rows[1..]) && forall x :: x in rows[1..] ==> x.id != r.id
  {
    SortedDrop(rows);
    assert rows == [rows[0]] + rows[1..];
  }

  lemma SortedCons(a: ProblemRow, rest: seq<ProblemRow>)
    ensures SortedIds(rest) && (forall x :: x in rest ==> a.id < x.id) ==> SortedIds([a] + rest)
  {
    if SortedIds(rest) && (forall x :: x in rest ==> a.id < x.id) {
      forall i, j | 0 <= i < j < |[a] + rest| ensures ([a] + rest)[i].id < ([a] + rest)[j].id {
        assert ([a] + rest)[j] == rest[j - 1];
        if i > 0 {
          assert ([a] + rest)[i] == rest[i - 1];
        }
      }
    }
  }

  lemma HistoryBelowHead(h: seq<DailyRow>)
    requires |h| > 0
    ensures SortedHistoryIds(h) ==> forall x :: x in h[1..] ==> h[0].id < x.id
    ensures UniqueDates(h) ==> forall x :: x in h[1..] ==> h[0].date != x.date
  {
    forall x | x in h[1..] ensures exists k :: 1 <= k < |h| && h[k] == x {
      var k :| 0 <= k < |h[1..]| && h[1..][k] == x;
      assert h[k + 1] == x;
    }
  }

  lemma HistoryCons(a: DailyRow, rest: seq<DailyRow>)
    ensures SortedHistoryIds(rest) && (forall x :: x in rest ==> a.id < x.id) ==> SortedHistoryIds([a] + rest)
    ensures UniqueDates(rest) && (forall x :: x in rest ==> a.date != x.date) ==> UniqueDates([a] + rest)
  {
    forall j | 0 < j < |[a] + rest| ensures ([a] + rest)[j] == rest[j - 1] && rest[j - 1] in rest {
    }
  }

  // ------------------------------------------------------ statement semantics

  /** Rows satisfying a WHERE condition, in key order. */
  function Where(rows: seq<ProblemRow>, f: ProblemRow -> bool): (r: seq<ProblemRow>)
    ensures forall x :: x in r <==> x in rows && f(x)
    ensures |r| <= |rows|
    ensures SortedIds(rows) ==> SortedIds(r)
  {
    if |rows| == 0 then []
    else
      SortedDrop(rows);
      var rest := Where(rows[1..], f);
      if f(rows[0]) then
        SortedBelowHead(rows);
        SortedCons(rows[0], rest);
        [rows[0]] + rest
      else rest
  }

  /** `First`: the matching row of least key, if any. */
  function First(rows: seq<ProblemRow>, f: ProblemRow -> bool): (r: Option<ProblemRow>)
    ensures r.None? <==> forall x :: x in rows ==> !f(x)
    ensures r.Some? ==> r.value in rows && f(r.value)
    ensures r.Some? && SortedIds(rows) ==> forall x :: x in rows && f(x) ==> r.value.id <= x.id
  {
    if |rows| == 0 then None
    else if f(rows[0]) then Some(rows[0])
    else First(rows[1..], f)
  }

  /** `Where("id = ?", id).First(...)`. */
  function FindRow(rows: seq<ProblemRow>, id: int): (r: Option<ProblemRow>)
    ensures r.Some? <==> exists i :: 0 <= i < |rows| && rows[i].id == id
    ensures r.Some? ==> r.value in rows && r.value.id == id
  {
    if |rows| == 0 then None
    else if rows[0].id == id then Some(rows[0])
    else
      var r := FindRow(rows[1..], id);
      assert forall i :: 1 <= i < |rows| ==> rows[i] == rows[1..][i - 1];
      r
  }

  /** The `IsZero` default of `Insert`, then GORM's column default for an
      empty study status. */
  function WithInsertDefaults(p: ProblemRow, now: Time): (r: ProblemRow)
  {
    p.(ctime := if IsZero(p.ctime) then now else p.ctime,
       utime := if IsZero(p.utime) then now else p.utime,
       studyStatus := if p.studyStatus == "" then Domain.NotStarted else p.studyStatus)
  }

  /** Places a row with a fresh key at its place in key order. */
  function InsertByKey(rows: seq<ProblemRow>, r: ProblemRow): (out: seq<ProblemRow>)
    requires SortedIds(rows) && forall x :: x in rows ==> x.id != r.id
    ensures SortedIds(out) && |out| == |rows| + 1
    ensures multiset(out) == multiset(rows) + multiset{r}
  {
    if |rows| == 0 || r.id < rows[0].id then
      SortedCons(r, rows);
      [r] + rows
    else
      SortedTail(rows, r);
      var rest := InsertByKey(rows[1..], r);
      InsertBehindHead(rows, r, rest);
      [rows[0]] + rest
  }

  /** The step of `InsertByKey` that keeps the head in front. */
  lemma InsertBehindHead(rows: seq<ProblemRow>, r: ProblemRow, rest: seq<ProblemRow>)
    requires |rows| > 0 && SortedIds(rows) && rows[0].id < r.id
    requires SortedIds(rest) && multiset(rest) == multiset(rows[1..]) + multiset{r}
    ensures SortedIds([rows[0]] + rest)
    ensures multiset([rows[0]] + rest) == multiset(rows) + multiset{r}
  {
    SortedBelowHead(rows);
    assert forall x :: x in rest ==> rows[0].id < x.id by {
      forall x | x in rest ensures rows[0].id < x.id {
        assert x in multiset(rest);
      }
    }
    SortedCons(rows[0], rest);
    assert rows == [rows[0]] + rows[1..];
  }

  /** `Create` of one coding problem: key 0 takes the next auto-increment
      value; an explicit key must be new and moves the counter past itself. */
  function CreateProblem(s: TableState, p: ProblemRow): (o: (TableState, Option<DbError>))
    requires ValidState(s)
    ensures ValidState(o.0)
  {
    if p.id == 0 then
      AppendKeepsValid(s, p);
      (s.(problems := s.problems + [p.(id := s.nextId)], nextId := s.nextId + 1), None)
    else if exists i :: 0 <= i < |s.problems| && s.problems[i].id == p.id then
      (s, Some(DuplicateKey))
    else
      InsertKeepsValid(s, p);
      (s.(problems := InsertByKey(s.problems, p), nextId := if p.id >= s.nextId then p.id + 1 else s.nextId), None)
  }

  /** A row appended under the next key keeps the state valid. */
  lemma AppendKeepsValid(s: TableState, p: ProblemRow)
    requires ValidState(s)
    ensures ValidState(s.(problems := s.problems + [p.(id := s.nextId)], nextId := s.nextId + 1))
  {
    var rows := s.problems + [p.(id := s.nextId)];
    assert forall i :: 0 <= i < |s.problems| ==> rows[i] == s.problems[i];
    assert forall i :: 0 <= i < |s.problems| ==> s.problems[i].id < s.nextId by {
      forall i | 0 <= i < |s.problems| ensures s.problems[i].id < s.nextId {
        assert s.problems[i] in s.problems;
      }
    }
  }

  /** A row with a new explicit key, placed in key order, keeps the state
      valid once the counter is past that key. */
  lemma InsertKeepsValid(s: TableState, p: ProblemRow)
    requires ValidState(s) && p.id != 0
    requires !exists i :: 0 <= i < |s.problems| && s.problems[i].id == p.id
    ensures ValidState(s.(problems := InsertByKey(s.problems, p), nextId := if p.id >= s.nextId then p.id + 1 else s.nextId))
  {
    assert forall x :: x in s.problems ==> x.id != p.id by {
      forall x | x in s.problems ensures x.id != p.id {
        var i :| 0 <= i < |s.problems| && s.problems[i] == x;
      }
    }
    var rows := InsertByKey(s.problems, p);
    assert forall x :: x in rows ==> x == p || x in s.problems by {
      forall x | x in rows ensures x == p || x in s.problems {
        assert x in multiset(rows);
      }
    }
  }

  /** `Insert`: fills zero timestamps with `now`, then `Create`. */
  function InsertSpec(s: TableState, p: ProblemRow, now: Time, dbDown: bool): (o: (TableState, Option<DbError>))
    requires ValidState(s)
    ensures ValidState(o.0)
  {
    if dbDown then (s, Some(DbFailure)) else CreateProblem(s, WithInsertDefaults(p, now))
  }

  /** Every row whose key is `r.id` becomes `r`. */
  function ReplaceById(rows: seq<ProblemRow>, r: ProblemRow): (out: seq<ProblemRow>)
    ensures |out| == |rows|
    ensures forall i :: 0 <= i < |rows| ==> out[i] == (if rows[i].id == r.id then r else rows[i])
  {
    seq(|rows|, i requires 0 <= i < |rows| => if rows[i].id == r.id then r else rows[i])
  }

  /** `UpdateById`: the row with the problem's key is replaced, with `utime` set to now. */
  function UpdateSpec(s: TableState, p: ProblemRow, now: Time, dbDown: bool): (o: (TableState, Option<DbError>))
  {
    if dbDown then (s, Some(DbFailure)) else (s.(problems := ReplaceById(s.problems, p.(utime := now))), None)
  }

  predicate NotId(p: ProblemRow, id: int) { p.id != id }
  predicate HasSource(p: ProblemRow, source: string) { p.source == source }
  predicate HasSourceId(p: ProblemRow, sourceId: string) { p.sourceId == sourceId }
  predicate HasDifficulty(p: ProblemRow, difficulty: string) { p.difficulty == difficulty }

  /** `Where("source = ?", source).Find(...)`. */
  function RowsBySource(rows: seq<ProblemRow>, source: string): seq<ProblemRow>
  {
    Where(rows, p => HasSource(p, source))
  }

  /** `Where("source_id = ?", sourceId).Find(...)`. */
  function RowsBySourceId(rows: seq<ProblemRow>, sourceId: string): seq<ProblemRow>
  {
    Where(rows, p => HasSourceId(p, sourceId))
  }

  /** Some stored row has that `SourceId`. */
  predicate Stored(s: TableState, sourceId: string)
  {
    exists x :: x in s.problems && x.sourceId == sourceId
  }

  /** The lookup by `SourceId` finds rows exactly when one is stored. */
  lemma LookupFindsStored(s: TableState, sourceId: string)
    ensures |RowsBySourceId(s.problems, sourceId)| > 0 <==> Stored(s, sourceId)
  {
    var rows := RowsBySourceId(s.problems, sourceId);
    if |rows| > 0 {
      assert rows[0] in rows;
    }
    if Stored(s, sourceId) {
      var x :| x in s.problems && x.sourceId == sourceId;
      assert HasSourceId(x, sourceId);
      assert x in rows;
    }
  }

  /** `Where("difficulty = ?", difficulty).Find(...)`. */
  function RowsByDifficulty(rows: seq<ProblemRow>, difficulty: string): seq<ProblemRow>
  {
    Where(rows, p => HasDifficulty(p, difficulty))
  }

  /** `DeleteById`. */
  function DeleteSpec(s: TableState, id: int, dbDown: bool): (o: (TableState, Option<DbError>))
  {
    if dbDown then (s, Some(DbFailure)) else (s.(problems := Where(s.problems, p => NotId(p, id))), None)
  }

  /** The new value of a row under the study-status update of `UpdateStudyStatus`. */
  function WithStudyStatus(p: ProblemRow, status: string, lastStudied: Option<Time>, now: Time): ProblemRow
  {
    p.(studyStatus := status, utime := now,
       lastStudied := if lastStudied.Some? then lastStudied else p.lastStudied)
  }

  function StudyStatusRows(rows: seq<ProblemRow>, id: int, status: string, lastStudied: Option<Time>, now: Time)
    : (r: seq<ProblemRow>)
    ensures |r| == |rows|
    ensures forall i :: 0 <= i < |rows| ==>
              r[i] == if rows[i].id == id then WithStudyStatus(rows[i], status, lastStudied, now) else rows[i]
  {
    seq(|rows|, i requires 0 <= i < |rows| =>
      if rows[i].id == id then WithStudyStatus(rows[i], status, lastStudied, now) else rows[i])
  }

  function UpdateStudyStatusSpec(s: TableState, id: int, status: string, lastStudied: Option<Time>, now: Time, dbDown: bool)
    : (o: (TableState, Option<DbError>))
  {
    if dbDown then (s, Some(DbFailure))
    else (s.(problems := StudyStatusRows(s.problems, id, status, lastStudied, now)), None)
  }

  // -------------------------------------------------------- daily problem

  /** First statement of `MarkAsDailyProblem`: every flagged row loses its flag and date. */
  function Unflagged(p: ProblemRow): ProblemRow
  {
    if p.isDailyProblem then p.(isDailyProblem := false, dailyDate := None) else p
  }

  function ClearDailyFlags(rows: seq<ProblemRow>): (r: seq<ProblemRow>)
    ensures |r| == |rows| && forall i {:trigger r[i]} :: 0 <= i < |rows| ==> r[i] == Unflagged(rows[i])
  {
    seq(|rows|, i requires 0 <= i < |rows| => Unflagged(rows[i]))
  }

  /** Second statement: the row with key `id` gets the flag and the date. */
  function Flagged(p: ProblemRow, id: int, date: Time): ProblemRow
  {
    if p.id == id then p.(isDailyProblem := true, dailyDate := Some(date)) else p
  }

  function FlagRow(rows: seq<ProblemRow>, id: int, date: Time): (r: seq<ProblemRow>)
    ensures |r| == |rows| && forall i {:trigger r[i]} :: 0 <= i < |rows| ==> r[i] == Flagged(rows[i], id, date)
  {
    seq(|rows|, i requires 0 <= i < |rows| => Flagged(rows[i], id, date))
  }

  /** `date.Format("2006-01-02")` in the zone `offset` seconds east of UTC. */
  function DateKey(t: Time, offset: int): string
  {
    FormatDate(LocalDate(t, offset))
  }

  /** The history row `MarkAsDailyProblem` builds from the problem it read back. */
  function Snapshot(p: ProblemRow, key: string, date: Time): DailyRow
  {
    DailyRow(0, key, p.title, p.difficulty, p.tags, p.source, p.sourceId, p.sourceUrl, p.id, date, date)
  }

  /** History rows whose date is not `key`, in key order. */
  function WithoutDate(h: seq<DailyRow>, key: string): (r: seq<DailyRow>)
    ensures forall x :: x in r <==> x in h && x.date != key
  {
    if |h| == 0 then [] else (if h[0].date != key then [h[0]] else []) + WithoutDate(h[1..], key)
  }

  /** Deleting the rows of one date keeps the keys ordered and the dates unique. */
  lemma {:induction false} WithoutDateKeepsOrder(h: seq<DailyRow>, key: string)
    ensures SortedHistoryIds(h) ==> SortedHistoryIds(WithoutDate(h, key))
    ensures UniqueDates(h) ==> UniqueDates(WithoutDate(h, key))
  {
    if |h| > 0 {
      var rest := WithoutDate(h[1..], key);
      WithoutDateKeepsOrder(h[1..], key);
      assert SortedHistoryIds(h) ==> SortedHistoryIds(h[1..]);
      assert UniqueDates(h) ==> UniqueDates(h[1..]);
      if h[0].date != key {
        HistoryBelowHead(h);
        HistoryCons(h[0], rest);
        assert WithoutDate(h, key) == [h[0]] + rest;
      } else {
        assert WithoutDate(h, key) == rest;
      }
    }
  }

  /** `Where("date = ?", key).First(...)` on the history. */
  function FindDaily(h: seq<DailyRow>, key: string): (r: Option<DailyRow>)
    ensures r.None? <==> forall x :: x in h ==> x.date != key
    ensures r.Some? ==> r.value in h && r.value.date == key
  {
    if |h| == 0 then None
    else if h[0].date == key then Some(h[0])
    else FindDaily(h[1..], key)
  }

  /** `Create` of a history row: key 0 takes the next auto-increment value,
      and a second row for a date violates the unique index. */
  function CreateDaily(s: TableState, d: DailyRow): (o: (TableState, Option<DbError>))
    requires ValidState(s) && d.id == 0
    ensures ValidState(o.0)
    ensures o.0.problems == s.problems && o.0.nextId == s.nextId
    ensures o.1.None? <==> FindDaily(s.history, d.date).None?
    ensures o.1.None? ==> o.0.history == s.history + [d.(id := s.nextHistoryId)]
    ensures o.1.Some? ==> o.0 == s && o.1.value == DuplicateKey
  {
    if FindDaily(s.history, d.date).Some? then (s, Some(DuplicateKey))
    else
      var row := d.(id := s.nextHistoryId);
      (s.(history := s.history + [row], nextHistoryId := s.nextHistoryId + 1), None)
  }

  /** The first two statements of the marking change neither keys nor history. */
  lemma FlagsKeepValid(s: TableState, id: int, date: Time)
    requires ValidState(s)
    ensures ValidState(s.(problems := ClearDailyFlags(s.problems)))
    ensures ValidState(s.(problems := FlagRow(ClearDailyFlags(s.problems), id, date)))
  {
    var c := ClearDailyFlags(s.problems);
    var f := FlagRow(c, id, date);
    SameKeysKeepValid(s, c);
    SameKeysKeepValid(s, f);
  }

  /** Rewriting rows in place without touching their keys keeps the state valid. */
  lemma SameKeysKeepValid(s: TableState, rows: seq<ProblemRow>)
    requires ValidState(s)
    requires |rows| == |s.problems| && forall i :: 0 <= i < |rows| ==> rows[i].id == s.problems[i].id
    ensures ValidState(s.(problems := rows))
  {
    forall x | x in rows ensures x.id < s.nextId {
      var i :| 0 <= i < |rows| && rows[i] == x;
      assert s.problems[i] in s.problems;
    }
  }

  /** Deleting one date's history rows keeps the state valid. */
  lemma WithoutDateKeepsValid(s: TableState, key: string)
    requires ValidState(s)
    ensures ValidState(s.(history := WithoutDate(s.history, key)))
  {
    WithoutDateKeepsOrder(s.history, key);
  }

  /** `MarkAsDailyProblem(id, date)`: five statements without a transaction,
      stopping at the first error; the day is `date` formatted in the zone. */
  function MarkSpec(s: TableState, id: int, date: Time, offset: int, failAt: nat): (o: (TableState, Option<DbError>))
    requires ValidState(s)
    ensures ValidState(o.0)
  {
    MarkOnKey(s, id, date, DateKey(date, offset), failAt)
  }

  /** The five statements of the marking for the day `key`: the first two
      rewrite the flags, the rest are `MarkHistory`. */
  function MarkOnKey(s: TableState, id: int, date: Time, key: string, failAt: nat): (o: (TableState, Option<DbError>))
    requires ValidState(s)
    ensures ValidState(o.0)
  {
    if failAt == 1 then (s, Some(DbFailure))
    else
      FlagsKeepValid(s, id, date);
      if failAt == 2 then (s.(problems := ClearDailyFlags(s.problems)), Some(DbFailure))
      else MarkHistory(s.(problems := FlagRow(ClearDailyFlags(s.problems), id, date)), id, date, key, failAt)
  }

  /** Statements three to five of the marking over the already flagged
      table: read the target back, delete the day's history rows and insert
      its snapshot. */
  function MarkHistory(s: TableState, id: int, date: Time, key: string, failAt: nat): (o: (TableState, Option<DbError>))
    requires ValidState(s)
    ensures ValidState(o.0)
  {
    if failAt == 3 then (s, Some(DbFailure))
    else
      var found := FindRow(s.problems, id);
      if found.None? then (s, Some(RecordNotFound))
      else if failAt == 4 then (s, Some(DbFailure))
      else
        var s3 := s.(history := WithoutDate(s.history, key));
        WithoutDateKeepsValid(s, key);
        if failAt == 5 then (s3, Some(DbFailure))
        else CreateDaily(s3, Snapshot(found.value, key, date))
  }

  /** A row flagged daily whose date falls on the day `key` in the zone. */
  predicate FlaggedOn(p: ProblemRow, key: string, offset: int)
  {
    p.isDailyProblem && p.dailyDate.Some? && DateKey(p.dailyDate.value, offset) == key
  }

  function TodayFlagged(rows: seq<ProblemRow>, key: string, offset: int): Option<ProblemRow>
  {
    First(rows, p => FlaggedOn(p, key, offset))
  }

  /** The problem today's history row points at, looked up by its key;
      statements 2 and 3 of `GetDailyProblem` may fail. */
  function FromHistory(s: TableState, key: string, failAt: nat): Option<ProblemRow>
  {
    if failAt == 2 then None
    else match FindDaily(s.history, key)
      case None => None
      case Some(d) => if failAt == 3 then None else FindRow(s.problems, d.problemId)
  }

  /** `GetDailyProblem` at instant `now`: the row flagged for today, else
      the row named by today's history record, else the row at `pick`
      (the `ORDER BY RAND()` choice), which is then marked daily. The
      failing statement `failAt` counts 1 to 4 for the lookups and 5 to
      9 for the statements of the marking. */
  function GetDailySpec(s: TableState, now: Time, offset: int, pick: nat, failAt: nat)
    : (o: (TableState, Result<ProblemRow, DbError>))
    requires ValidState(s)
    ensures ValidState(o.0)
  {
    var key := DateKey(now, offset);
    var flagged := if failAt == 1 then None else TodayFlagged(s.problems, key, offset);
    if flagged.Some? then (s, Ok(flagged.value))
    else
      var named := FromHistory(s, key, failAt);
      if named.Some? then (s, Ok(named.value))
      else if failAt == 4 then (s, Err(DbFailure))
      else if |s.problems| == 0 then (s, Err(RecordNotFound))
      else
        var p := s.problems[pick % |s.problems|];
        var m := MarkSpec(s, p.id, now, offset, if failAt > 4 then failAt - 4 else 0);
        if m.1.Some? then (m.0, Err(m.1.value)) else (m.0, Ok(p))
  }

  /** The row `SaveDailyProblem` writes: `ProblemId` is left at 0. */
  function DailyRowOf(dp: Domain.DailyProblem, offset: int): DailyRow
  {
    DailyRow(0, DateKey(dp.date, offset), dp.title, dp.difficulty, dp.tags, dp.source,
             dp.sourceId, dp.sourceUrl, 0, dp.ctime, dp.utime)
  }

  function ReplaceDaily(h: seq<DailyRow>, d: DailyRow): (r: seq<DailyRow>)
    ensures |r| == |h| && forall i :: 0 <= i < |h| ==> r[i] == (if h[i].id == d.id then d else h[i])
  {
    seq(|h|, i requires 0 <= i < |h| => if h[i].id == d.id then d else h[i])
  }

  /** `SaveDailyProblem`: look the date up (statement 1), then `Save` over
      the row found, keeping its key, or `Create` a new one (statement 2). */
  function SaveDailySpec(s: TableState, dp: Domain.DailyProblem, offset: int, failAt: nat)
    : (o: (TableState, Option<DbError>))
    requires ValidState(s)
    ensures ValidState(o.0)
  {
    var row := DailyRowOf(dp, offset);
    if failAt == 1 then (s, Some(DbFailure))
    else
      var found := FindDaily(s.history, row.date);
      if failAt == 2 then (s, Some(DbFailure))
      else if found.None? then CreateDaily(s, row)
      else
        ReplaceDailyKeepsValid(s, found.value, row);
        (s.(history := ReplaceDaily(s.history, row.(id := found.value.id))), None)
  }

  /** Overwriting the history row of a date, under its key, with another row
      for that date keeps the keys and the dates unique. */
  lemma ReplaceDailyKeepsValid(s: TableState, found: DailyRow, row: DailyRow)
    requires ValidState(s) && found in s.history && row.date == found.date
    ensures ValidState(s.(history := ReplaceDaily(s.history, row.(id := found.id))))
  {
    var h := ReplaceDaily(s.history, row.(id := found.id));
    var k :| 0 <= k < |s.history| && s.history[k] == found;
    forall i | 0 <= i < |s.history| ensures h[i].id == s.history[i].id && h[i].date == s.history[i].date {
      if s.history[i].id == found.id {
        assert i == k;
      }
    }
    assert forall x :: x in h ==> x.id < s.nextHistoryId by {
      forall x | x in h ensures x.id < s.nextHistoryId {
        var i :| 0 <= i < |h| && h[i] == x;
        assert s.history[i] in s.history;
      }
    }
  }

  // ---------------------------------------------------------------- history

  /** `parseDate`: nil for the empty string and for text `time.Parse`
      rejects, else midnight UTC of the date. */
  function ParseDateTime(s: string): (r: Option<Time>)
    ensures s == "" ==> r.None?
    ensures r.Some? <==> ParseDate(s).Some?
    ensures r.Some? ==> r.value == MidnightUtc(ParseDate(s).value)
  {
    if s == "" then None
    else match ParseDate(s)
      case None => None
      case Some(d) => Some(MidnightUtc(d))
  }

  /** The problem `GetDailyProblemHistory` builds from one history row. */
  function HistoryProblem(d: DailyRow): ProblemRow
  {
    ProblemRow(d.problemId, d.title, d.difficulty, d.tags, d.source, d.sourceId, d.sourceUrl,
               "", None, true, ParseDateTime(d.date), false, d.ctime, d.utime)
  }

  /** Lexicographic order on strings, which is the collation order of the
      digit-and-hyphen date keys. */
  predicate LexLe(a: string, b: string)
  {
    if |a| == 0 then true
    else if |b| == 0 then false
    else if a[0] != b[0] then a[0] < b[0]
    else LexLe(a[1..], b[1..])
  }

  lemma {:induction false} LexLeTotal(a: string, b: string)
    ensures LexLe(a, b) || LexLe(b, a)
  {
    if |a| > 0 && |b| > 0 && a[0] == b[0] {
      LexLeTotal(a[1..], b[1..]);
    }
  }

  lemma {:induction false} LexLeTrans(a: string, b: string, c: string)
    requires LexLe(a, b) && LexLe(b, c)
    ensures LexLe(a, c)
  {
    if |a| > 0 && |b| > 0 && |c| > 0 && a[0] == b[0] && b[0] == c[0] {
      LexLeTrans(a[1..], b[1..], c[1..]);
    }
  }

  predicate DateDesc(h: seq<DailyRow>)
  {
    forall i, j :: 0 <= i < j < |h| ==> LexLe(h[j].date, h[i].date)
  }

  lemma DescCons(d: DailyRow, h: seq<DailyRow>)
    requires DateDesc(h) && forall x :: x in h ==> LexLe(x.date, d.date)
    ensures DateDesc([d] + h)
  {
    forall j | 0 < j < |[d] + h| ensures ([d] + h)[j] == h[j - 1] && h[j - 1] in h {
    }
  }

  function InsertDesc(d: DailyRow, h: seq<DailyRow>): (r: seq<DailyRow>)
    requires DateDesc(h)
    ensures DateDesc(r) && multiset(r) == multiset(h) + multiset{d}
  {
    if |h| == 0 || LexLe(h[0].date, d.date) then
      DescFront(d, h);
      [d] + h
    else
      LexLeTotal(h[0].date, d.date);
      DescDrop(h);
      var rest := InsertDesc(d, h[1..]);
      DescBehindHead(d, h, rest);
      [h[0]] + rest
  }

  /** A row dated no earlier than the head goes in front. */
  lemma DescFront(d: DailyRow, h: seq<DailyRow>)
    requires DateDesc(h) && (|h| == 0 || LexLe(h[0].date, d.date))
    ensures DateDesc([d] + h)
  {
    assert forall x :: x in h ==> LexLe(x.date, d.date) by {
      forall x | x in h ensures LexLe(x.date, d.date) {
        var k :| 0 <= k < |h| && h[k] == x;
        if k > 0 { LexLeTrans(h[k].date, h[0].date, d.date); }
      }
    }
    DescCons(d, h);
  }

  lemma DescDrop(h: seq<DailyRow>)
    requires |h| > 0 && DateDesc(h)
    ensures DateDesc(h[1..])
  {
    assert forall i :: 1 <= i < |h| ==> h[1..][i - 1] == h[i];
  }

  /** The step of `InsertDesc` that keeps the head in front. */
  lemma DescBehindHead(d: DailyRow, h: seq<DailyRow>, rest: seq<DailyRow>)
    requires |h| > 0 && DateDesc(h) && LexLe(d.date, h[0].date)
    requires DateDesc(rest) && multiset(rest) == multiset(h[1..]) + multiset{d}
    ensures DateDesc([h[0]] + rest) && multiset([h[0]] + rest) == multiset(h) + multiset{d}
  {
    assert forall x :: x in rest ==> LexLe(x.date, h[0].date) by {
      forall x | x in rest ensures LexLe(x.date, h[0].date) {
        assert x in multiset(rest);
        if x != d {
          assert x in multiset(h[1..]);
          var k :| 0 <= k < |h[1..]| && h[1..][k] == x;
          assert h[k + 1] == x;
        }
      }
    }
    DescCons(h[0], rest);
    assert h == [h[0]] + h[1..];
  }

  /** `Order("date desc")`: the history, newest date first. */
  function SortByDateDesc(h: seq<DailyRow>): (r: seq<DailyRow>)
    ensures DateDesc(r) && multiset(r) == multiset(h)
  {
    if |h| == 0 then []
    else
      assert h == [h[0]] + h[1..];
      InsertDesc(h[0], SortByDateDesc(h[1..]))
  }

  // ------------------------------------------------------------- the DAO

  class CodingProblemTable {
    var problems: seq<ProblemRow>
    var history: seq<DailyRow>
    var nextId: int
    var nextHistoryId: int

    function State(): TableState
      reads this
    {
      TableState(problems, history, nextId, nextHistoryId)
    }

    predicate Valid()
      reads this
    {
      ValidState(State())
    }

    /** Empty tables whose counters start at 1. */
    constructor ()
      ensures State() == TableState([], [], 1, 1) && Valid()
    {
      problems := [];
      history := [];
      nextId := 1;
      nextHistoryId := 1;
    }

    method SetState(s: TableState)
      modifies this
      ensures State() == s
    {
      problems := s.problems;
      history := s.history;
      nextId := s.nextId;
      nextHistoryId := s.nextHistoryId;
    }

    method Insert(p: ProblemRow, now: Time, dbDown: bool) returns (err: Option<DbError>)
      requires Valid()
      modifies this
      ensures (State(), err) == InsertSpec(old(State()), p, now, dbDown) && Valid()
    {
      var row := WithInsertDefaults(p, now);
      if dbDown {
        return Some(DbFailure);
      }
      var o := CreateProblem(State(), row);
      SetState(o.0);
      err := o.1;
    }

    function FindAll(dbDown: bool): (r: Result<seq<ProblemRow>, DbError>)
      reads this
      ensures r.Ok? <==> !dbDown
      ensures r.Ok? ==> r.value == problems
    {
      if dbDown then Err(DbFailure) else Ok(problems)
    }

    function FindById(id: int, dbDown: bool): (r: Result<ProblemRow, DbError>)
      reads this
      ensures !dbDown && r.Err? ==> r.error == RecordNotFound && forall i :: 0 <= i < |problems| ==> problems[i].id != id
      ensures r.Ok? ==> r.value in problems && r.value.id == id
    {
      if dbDown then Err(DbFailure)
      else match FindRow(problems, id)
        case None => Err(RecordNotFound)
        case Some(p) => Ok(p)
    }

    function FindBySource(source: string, dbDown: bool): (r: Result<seq<ProblemRow>, DbError>)
      reads this
      ensures r.Ok? <==> !dbDown
      ensures r.Ok? ==> (forall x :: x in r.value <==> x in problems && x.source == source)
      ensures r.Ok? && SortedIds(problems) ==> SortedIds(r.value)
    {
      if dbDown then Err(DbFailure) else Ok(RowsBySource(problems, source))
    }

    function FindBySourceId(sourceId: string, dbDown: bool): (r: Result<seq<ProblemRow>, DbError>)
      reads this
      ensures r.Ok? <==> !dbDown
      ensures r.Ok? ==> (forall x :: x in r.value <==> x in problems && x.sourceId == sourceId)
      ensures r.Ok? && SortedIds(problems) ==> SortedIds(r.value)
    {
      if dbDown then Err(DbFailure) else Ok(RowsBySourceId(problems, sourceId))
    }

    function FindByDifficulty(difficulty: string, dbDown: bool): (r: Result<seq<ProblemRow>, DbError>)
      reads this
      ensures r.Ok? <==> !dbDown
      ensures r.Ok? ==> (forall x :: x in r.value <==> x in problems && x.difficulty == difficulty)
      ensures r.Ok? && SortedIds(problems) ==> SortedIds(r.value)
    {
      if dbDown then Err(DbFailure) else Ok(RowsByDifficulty(problems, difficulty))
    }

    method UpdateById(p: ProblemRow, now: Time, dbDown: bool) returns (err: Option<DbError>)
      requires Valid()
      modifies this
      ensures (State(), err) == UpdateSpec(old(State()), p, now, dbDown) && Valid()
    {
      if dbDown {
        return Some(DbFailure);
      }
      problems := ReplaceById(problems, p.(utime := now));
      err := None;
    }

    method DeleteById(id: int, dbDown: bool) returns (err: Option<DbError>)
      requires Valid()
      modifies this
      ensures (State(), err) == DeleteSpec(old(State()), id, dbDown) && Valid()
    {
      if dbDown {
        return Some(DbFailure);
      }
      problems := Where(problems, p => NotId(p, id));
      err := None;
    }

    method MarkAsDailyProblem(id: int, date: Time, offset: int, failAt: nat) returns (err: Option<DbError>)
      requires Valid()
      modifies this
      ensures (State(), err) == MarkSpec(old(State()), id, date, offset, failAt) && Valid()
    {
      if failAt == 1 {
        return Some(DbFailure);
      }
      ghost var s0 := State();
      FlagsKeepValid(s0, id, date);
      problems := ClearDailyFlags(problems);
      if failAt == 2 {
        return Some(DbFailure);
      }
      problems := FlagRow(problems, id, date);
      err := MarkHistoryRows(id, date, DateKey(date, offset), failAt);
    }

    /** Statements three to five of `MarkAsDailyProblem`, on the flagged table. */
    method MarkHistoryRows(id: int, date: Time, key: string, failAt: nat) returns (err: Option<DbError>)
      requires Valid()
      modifies this
      ensures (State(), err) == MarkHistory(old(State()), id, date, key, failAt) && Valid()
    {
      if failAt == 3 {
        return Some(DbFailure);
      }
      var found := FindRow(problems, id);
      if found.None? {
        return Some(RecordNotFound);
      }
      if failAt == 4 {
        return Some(DbFailure);
      }
      WithoutDateKeepsValid(State(), key);
      history := WithoutDate(history, key);
      if failAt == 5 {
        return Some(DbFailure);
      }
      var o := CreateDaily(State(), Snapshot(found.value, key, date));
      SetState(o.0);
      err := o.1;
    }

    /** `SetDailyProblem`: marks the problem daily as of `now`. */
    method SetDailyProblem(id: int, now: Time, offset: int, failAt: nat) returns (err: Option<DbError>)
      requires Valid()
      modifies this
      ensures (State(), err) == MarkSpec(old(State()), id, now, offset, failAt) && Valid()
    {
      err := MarkAsDailyProblem(id, now, offset, failAt);
    }

    method GetDailyProblem(now: Time, offset: int, pick: nat, failAt: nat) returns (r: Result<ProblemRow, DbError>)
      requires Valid()
      modifies this
      ensures (State(), r) == GetDailySpec(old(State()), now, offset, pick, failAt) && Valid()
    {
      var key := DateKey(now, offset);
      var flagged := if failAt == 1 then None else TodayFlagged(problems, key, offset);
      if flagged.Some? {
        return Ok(flagged.value);
      }
      var named := FromHistory(State(), key, failAt);
      if named.Some? {
        return Ok(named.value);
      }
      if failAt == 4 {
        return Err(DbFailure);
      }
      if |problems| == 0 {
        return Err(RecordNotFound);
      }
      var p := problems[pick % |problems|];
      var err := MarkAsDailyProblem(p.id, now, offset, if failAt > 4 then failAt - 4 else 0);
      if err.Some? {
        return Err(err.value);
      }
      return Ok(p);
    }

    /** `GetDailyProblemHistory`: one problem per history row, newest date first. */
    method GetDailyProblemHistory(dbDown: bool) returns (r: Result<seq<ProblemRow>, DbError>)
      ensures r.Err? <==> dbDown
      ensures r.Ok? ==> var sorted := SortByDateDesc(history);
                        |r.value| == |sorted| &&
                        forall i :: 0 <= i < |sorted| ==> r.value[i] == HistoryProblem(sorted[i])
    {
      if dbDown {
        return Err(DbFailure);
      }
      var daily := SortByDateDesc(history);
      var out: seq<ProblemRow> := [];
      for i := 0 to |daily|
        invariant |out| == i
        invariant forall k :: 0 <= k < i ==> out[k] == HistoryProblem(daily[k])
      {
        out := out + [HistoryProblem(daily[i])];
      }
      return Ok(out);
    }

    method UpdateStudyStatus(id: int, status: string, lastStudied: Option<Time>, now: Time, dbDown: bool)
      returns (err: Option<DbError>)
      requires Valid()
      modifies this
      ensures (State(), err) == UpdateStudyStatusSpec(old(State()), id, status, lastStudied, now, dbDown) && Valid()
    {
      if dbDown {
        return Some(DbFailure);
      }
      problems := StudyStatusRows(problems, id, status, lastStudied, now);
      err := None;
    }

    method SaveDailyProblem(dp: Domain.DailyProblem, offset: int, failAt: nat) returns (err: Option<DbError>)
      requires Valid()
      modifies this
      ensures (State(), err) == SaveDailySpec(old(State()), dp, offset, failAt) && Valid()
    {
      var row := DailyRowOf(dp, offset);
      if failAt == 1 {
        return Some(DbFailure);
      }
      var existing := FindDaily(history, row.date);
      if failAt == 2 {
        return Some(DbFailure);
      }
      if existing.Some? {
        history := ReplaceDaily(history, row.(id := existing.value.id));
        return None;
      }
      var o := CreateDaily(State(), row);
      SetState(o.0);
      err := o.1;
    }
  }
}
