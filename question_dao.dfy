/** The GORM data-access object over the `questions` table, held in memory.

    As for the coding problems, rows are kept in primary-key order, `Find`
    lists matches in that order and a failing statement is selected by a
    parameter. Times are stored as whole Unix seconds. */
module QuestionDao {
  import opened Wrappers
  import opened Times
  import ProblemDao

  type DbError = ProblemDao.DbError

  /** One row of `questions`; mastery 0 is unlearned, 1 learning, 2 mastered. */
  datatype QuestionRow = QuestionRow(
    id: int,
    category: string,
    content: string,
    answer: string,
    masteryLevel: int,
    count: int,
    ctime: int,
    utime: int)

  /** The table and its auto-increment counter. */
  datatype QuestionState = QuestionState(rows: seq<QuestionRow>, nextId: int)

  predicate SortedIds(rows: seq<QuestionRow>)
  {
    forall i, j :: 0 <= i < j < |rows| ==> rows[i].id < rows[j].id
  }

  /** Primary keys are unique (rows in key order) and below the counter. */
  predicate ValidState(s: QuestionState)
  {
    SortedIds(s.rows) && forall x :: x in s.rows ==> x.id < s.nextId
  }

  lemma SortedBelowHead(rows: seq<QuestionRow>)
    requires |rows| > 0
    ensures SortedIds(rows) ==> forall x :: x in rows[1..] ==> rows[0].id < x.id
  {
    if SortedIds(rows) {
      forall x | x in rows[1..] ensures rows[0].id < x.id {
        var k :| 0 <= k < |rows[1..]| && rows[1..][k] == x;
        assert rows[k + 1] == x;
      }
    }
  }

  lemma SortedCons(a: QuestionRow, rest: seq<QuestionRow>)
    ensures SortedIds(rest) && (forall x :: x in rest ==> a.id < x.id) ==> SortedIds([a] + rest)
  {
    if SortedIds(rest) && (forall x :: x in rest ==> a.id < x.id) {
      forall i, j | 0 <= i < j < |[a] + rest| ensures ([a] + rest)[i].id < ([a] + rest)[j].id {
        assert ([a] + rest)[j] == rest[j - 1];
        if i > 0 {
          assert ([a] + rest)[i] == rest[i - 1];
        }
      }
    }
  }

  // ------------------------------------------------------ statement semantics

  /** Rows satisfying a WHERE condition, in key order. */
  function Where(rows: seq<QuestionRow>, f: QuestionRow -> bool): (r: seq<QuestionRow>)
    ensures forall x :: x in r <==> x in rows && f(x)
    ensures |r| <= |rows|
    ensures SortedIds(rows) ==> SortedIds(r)
  {
    if |rows| == 0 then []
    else
      var rest := Where(rows[1..], f);
      if f(rows[0]) then
        SortedBelowHead(rows);
        SortedCons(rows[0], rest);
        [rows[0]] + rest
      else rest
  }

  predicate HasCategory(q: QuestionRow, category: string) { q.category == category }

  lemma RestAbove(rows: seq<QuestionRow>, r: QuestionRow, rest: seq<QuestionRow>)
    requires |rows| > 0 && SortedIds(rows) && rows[0].id < r.id
    requires multiset(rest) == multiset(rows[1..]) + multiset{r}
    ensures forall x :: x in rest ==> rows[0].id < x.id
  {
    SortedBelowHead(rows);
    forall x | x in rest ensures rows[0].id < x.id {
      assert x in multiset(rest);
      assert x == r || x in multiset(rows[1..]);
    }
  }

  /** Places a row with a fresh key at its place in key order. */
  function InsertByKey(rows: seq<QuestionRow>, r: QuestionRow): (out: seq<QuestionRow>)
    requires SortedIds(rows) && forall x :: x in rows ==> x.id != r.id
    ensures SortedIds(out) && |out| == |rows| + 1
    ensures multiset(out) == multiset(rows) + multiset{r}
  {
    if |rows| == 0 || r.id < rows[0].id then
      SortedCons(r, rows);
      [r] + rows
    else
      var rest := InsertByKey(rows[1..], r);
      RestAbove(rows, r, rest);
      SortedCons(rows[0], rest);
      assert rows == [rows[0]] + rows[1..];
      [rows[0]] + rest
  }

  /** `Create` of one question: key 0 takes the next auto-increment value;
      an explicit key must be new and moves the counter past itself. */
  function CreateQuestion(s: QuestionState, q: QuestionRow): (o: (QuestionState, Option<DbError>))
    requires ValidState(s)
    ensures ValidState(o.0)
  {
    if q.id == 0 then
      var row := q.(id := s.nextId);
      (QuestionState(s.rows + [row], s.nextId + 1), None)
    else if exists i :: 0 <= i < |s.rows| && s.rows[i].id == q.id then
      (s, Some(ProblemDao.DuplicateKey))
    else
      var rows := InsertByKey(s.rows, q);
      assert forall x :: x in rows ==> x == q || x in s.rows by {
        forall x | x in rows ensures x == q || x in s.rows {
          assert x in multiset(rows);
        }
      }
      (QuestionState(rows, if q.id >= s.nextId then q.id + 1 else s.nextId), None)
  }

  /** The row `Insert` writes: both timestamps are the current Unix second,
      whatever the caller put there. */
  function Stamped(q: QuestionRow, now: Time): QuestionRow
  {
    q.(ctime := UnixSeconds(now), utime := UnixSeconds(now))
  }

  function InsertSpec(s: QuestionState, q: QuestionRow, now: Time, dbDown: bool): (o: (QuestionState, Option<DbError>))
    requires ValidState(s)
    ensures ValidState(o.0)
  {
    if dbDown then (s, Some(ProblemDao.DbFailure)) else CreateQuestion(s, Stamped(q, now))
  }

  /** `Updates(&quest)` writes only the fields of the struct that are not
      their type's zero value; `utime` is the current Unix second. */
  function UpdatedWith(prev: QuestionRow, q: QuestionRow, sec: int): QuestionRow
  {
    prev.(category := if q.category != "" then q.category else prev.category,
          content := if q.content != "" then q.content else prev.content,
          answer := if q.answer != "" then q.answer else prev.answer,
          masteryLevel := if q.masteryLevel != 0 then q.masteryLevel else prev.masteryLevel,
          count := if q.count != 0 then q.count else prev.count,
          ctime := if q.ctime != 0 then q.ctime else prev.ctime,
          utime := if sec != 0 then sec else prev.utime)
  }

  function UpdateRows(rows: seq<QuestionRow>, q: QuestionRow, sec: int): (r: seq<QuestionRow>)
    ensures |r| == |rows|
    ensures forall i {:trigger r[i]} :: 0 <= i < |rows| ==> r[i] == if rows[i].id == q.id then UpdatedWith(rows[i], q, sec) else rows[i]
  {
    seq(|rows|, i requires 0 <= i < |rows| => if rows[i].id == q.id then UpdatedWith(rows[i], q, sec) else rows[i])
  }

  function UpdateSpec(s: QuestionState, q: QuestionRow, now: Time, dbDown: bool): (o: (QuestionState, Option<DbError>))
  {
    if dbDown then (s, Some(ProblemDao.DbFailure)) else (s.(rows := UpdateRows(s.rows, q, UnixSeconds(now))), None)
  }

  /** `UpdateMasteryLevel` writes the two columns of its map, mastery_level and utime. */
  function MasteryRows(rows: seq<QuestionRow>, id: int, level: int, sec: int): (r: seq<QuestionRow>)
    ensures |r| == |rows|
    ensures forall i {:trigger r[i]} :: 0 <= i < |rows| ==> r[i] == if rows[i].id == id then rows[i].(masteryLevel := level, utime := sec) else rows[i]
  {
    seq(|rows|, i requires 0 <= i < |rows| => if rows[i].id == id then rows[i].(masteryLevel := level, utime := sec) else rows[i])
  }

  function MasterySpec(s: QuestionState, id: int, level: int, now: Time, dbDown: bool): (o: (QuestionState, Option<DbError>))
  {
    if dbDown then (s, Some(ProblemDao.DbFailure)) else (s.(rows := MasteryRows(s.rows, id, level, UnixSeconds(now))), None)
  }

  predicate NotId(q: QuestionRow, id: int) { q.id != id }
  predicate NotCategory(q: QuestionRow, category: string) { q.category != category }

  function DeleteByIdSpec(s: QuestionState, id: int, dbDown: bool): (o: (QuestionState, Option<DbError>))
  {
    if dbDown then (s, Some(ProblemDao.DbFailure)) else (s.(rows := Where(s.rows, q => NotId(q, id))), None)
  }

  function DeleteByCategorySpec(s: QuestionState, category: string, dbDown: bool): (o: (QuestionState, Option<DbError>))
  {
    if dbDown then (s, Some(ProblemDao.DbFailure)) else (s.(rows := Where(s.rows, q => NotCategory(q, category))), None)
  }

  /** `Distinct("category").Pluck(...)`: each category once, in the order of
      its first row. */
  function Categories(rows: seq<QuestionRow>): (cs: seq<string>)
    ensures forall c :: c in cs <==> exists i :: 0 <= i < |rows| && rows[i].category == c
    ensures forall i, j :: 0 <= i < j < |cs| ==> cs[i] != cs[j]
  {
    if |rows| == 0 then []
    else
      var init := rows[..|rows| - 1];
      var rest := Categories(init);
      var c := rows[|rows| - 1].category;
      assert forall i :: 0 <= i < |init| ==> init[i] == rows[i];
      if c in rest then rest else rest + [c]
  }

  /** `Where("mastery_level = ?", level).Count(...)`. */
  function CountLevel(rows: seq<QuestionRow>, level: int): (n: nat)
    ensures n <= |rows|
  {
    if |rows| == 0 then 0
    else (if rows[0].masteryLevel == level then 1 else 0) + CountLevel(rows[1..], level)
  }

  /** The three level counts add up to at most the number of rows, and to
      exactly that number when, and only when, every level is 0, 1 or 2. */
  lemma {:induction false} LevelCountsSum(rows: seq<QuestionRow>)
    ensures CountLevel(rows, 0) + CountLevel(rows, 1) + CountLevel(rows, 2) <= |rows|
    ensures CountLevel(rows, 0) + CountLevel(rows, 1) + CountLevel(rows, 2) == |rows|
            <==> forall i :: 0 <= i < |rows| ==> 0 <= rows[i].masteryLevel <= 2
  {
    if |rows| > 0 {
      LevelCountsSum(rows[1..]);
      assert forall i :: 1 <= i < |rows| ==> rows[i] == rows[1..][i - 1];
    }
  }

  // ------------------------------------------------------------- the DAO

  class QuestionTable {
    var rows: seq<QuestionRow>
    var nextId: int

    function State(): QuestionState
      reads this
    {
      QuestionState(rows, nextId)
    }

    predicate Valid()
      reads this
    {
      ValidState(State())
    }

    /** An empty table whose counter starts at 1. */
    constructor ()
      ensures State() == QuestionState([], 1) && Valid()
    {
      rows := [];
      nextId := 1;
    }

    method Insert(q: QuestionRow, now: Time, dbDown: bool) returns (err: Option<DbError>)
      requires Valid()
      modifies this
      ensures (State(), err) == InsertSpec(old(State()), q, now, dbDown) && Valid()
    {
      var row := Stamped(q, now);
      if dbDown {
        return Some(ProblemDao.DbFailure);
      }
      var o := CreateQuestion(State(), row);
      rows, nextId := o.0.rows, o.0.nextId;
      err := o.1;
    }

    function FindByCategory(category: string, dbDown: bool): (r: Result<seq<QuestionRow>, DbError>)
      reads this
      ensures r.Ok? <==> !dbDown
      ensures r.Ok? ==> forall x :: x in r.value <==> x in rows && x.category == category
      ensures r.Ok? && SortedIds(rows) ==> SortedIds(r.value)
    {
      if dbDown then Err(ProblemDao.DbFailure) else Ok(Where(rows, q => HasCategory(q, category)))
    }

    function FindAll(dbDown: bool): (r: Result<seq<QuestionRow>, DbError>)
      reads this
      ensures r.Ok? <==> !dbDown
      ensures r.Ok? ==> r.value == rows
    {
      if dbDown then Err(ProblemDao.DbFailure) else Ok(rows)
    }

    method UpdateById(q: QuestionRow, now: Time, dbDown: bool) returns (err: Option<DbError>)
      requires Valid()
      modifies this
      ensures (State(), err) == UpdateSpec(old(State()), q, now, dbDown) && Valid()
    {
      if dbDown {
        return Some(ProblemDao.DbFailure);
      }
      rows := UpdateRows(rows, q, UnixSeconds(now));
      err := None;
    }

    method UpdateMasteryLevel(id: int, level: int, now: Time, dbDown: bool) returns (err: Option<DbError>)
      requires Valid()
      modifies this
      ensures (State(), err) == MasterySpec(old(State()), id, level, now, dbDown) && Valid()
    {
      if dbDown {
        return Some(ProblemDao.DbFailure);
      }
      rows := MasteryRows(rows, id, level, UnixSeconds(now));
      err := None;
    }

    method DeleteById(id: int, dbDown: bool) returns (err: Option<DbError>)
      requires Valid()
      modifies this
      ensures (State(), err) == DeleteByIdSpec(old(State()), id, dbDown) && Valid()
    {
      if dbDown {
        return Some(ProblemDao.DbFailure);
      }
      rows := Where(rows, q => NotId(q, id));
      err := None;
    }

    method DeleteByCategory(category: string, dbDown: bool) returns (err: Option<DbError>)
      requires Valid()
      modifies this
      ensures (State(), err) == DeleteByCategorySpec(old(State()), category, dbDown) && Valid()
    {
      if dbDown {
        return Some(ProblemDao.DbFailure);
      }
      rows := Where(rows, q => NotCategory(q, category));
      err := None;
    }

    function FindAllCategories(dbDown: bool): (r: Result<seq<string>, DbError>)
      reads this
      ensures r.Ok? <==> !dbDown
      ensures r.Ok? ==> forall i, j :: 0 <= i < j < |r.value| ==> r.value[i] != r.value[j]
      ensures r.Ok? ==> forall c :: c in r.value <==> exists i :: 0 <= i < |rows| && rows[i].category == c
    {
      if dbDown then Err(ProblemDao.DbFailure) else Ok(Categories(rows))
    }

    /** `GetMasteryStats`; `down` holds the 1-based indices of the four
        COUNT statements that fail. Only a failure of the first is
        reported; a failed level count leaves that count at 0. */
    method GetMasteryStats(down: set<nat>) returns (r: Result<map<string, int>, DbError>)
      ensures r.Err? <==> 1 in down
      ensures r.Ok? ==> r.value.Keys == {"total", "unlearned", "learning", "mastered"}
      ensures r.Ok? ==> r.value["total"] == |rows|
      ensures r.Ok? ==> r.value["unlearned"] == (if 2 in down then 0 else CountLevel(rows, 0))
      ensures r.Ok? ==> r.value["learning"] == (if 3 in down then 0 else CountLevel(rows, 1))
      ensures r.Ok? ==> r.value["mastered"] == (if 4 in down then 0 else CountLevel(rows, 2))
    {
      var stats: map<string, int> := map[];
      if 1 in down {
        return Err(ProblemDao.DbFailure);
      }
      stats := stats["total" := |rows|];
      var unlearned, learning, mastered := 0, 0, 0;
      if 2 !in down {
        unlearned := CountLevel(rows, 0);
      }
      if 3 !in down {
        learning := CountLevel(rows, 1);
      }
      if 4 !in down {
        mastered := CountLevel(rows, 2);
      }
      stats := stats["unlearned" := unlearned];
      stats := stats["learning" := learning];
      stats := stats["mastered" := mastered];
      return Ok(stats);
    }
  }

  // ------------------------------------------------------------- properties

  /** `Insert` adds exactly one row, stamped with the current second in both
      timestamps whatever the caller supplied, and keeps every other row. */
  lemma InsertStamps(s: QuestionState, q: QuestionRow, now: Time)
    requires ValidState(s)
    requires InsertSpec(s, q, now, false).1.None?
    ensures var t := InsertSpec(s, q, now, false).0;
            |t.rows| == |s.rows| + 1
            && (forall x :: x in s.rows ==> x in t.rows)
            && (exists x :: x in t.rows && x !in s.rows
                  && x == Stamped(q, now).(id := x.id) && x.ctime == UnixSeconds(now) && x.utime == UnixSeconds(now))
  {
    var row := Stamped(q, now);
    var t := InsertSpec(s, q, now, false).0;
    if q.id == 0 {
      var x := row.(id := s.nextId);
      assert x == t.rows[|s.rows|];
      assert x !in s.rows;
    } else {
      assert multiset(t.rows) == multiset(s.rows) + multiset{row};
      assert row in multiset(t.rows);
      assert row !in s.rows;
      forall x | x in s.rows ensures x in t.rows {
        assert x in multiset(t.rows);
      }
    }
  }

  /** `UpdateById` rewrites only the row with the question's key, and there
      only the fields given with a non-zero value, plus `utime`; so it can
      never set a mastery level, count or text back to its zero value. */
  lemma UpdateWritesNonZeroFields(s: QuestionState, q: QuestionRow, now: Time)
    ensures var t := UpdateSpec(s, q, now, false).0;
            |t.rows| == |s.rows| && t.nextId == s.nextId
            && forall i :: 0 <= i < |s.rows| ==>
                 && (s.rows[i].id != q.id ==> t.rows[i] == s.rows[i])
                 && t.rows[i].id == s.rows[i].id
                 && (q.masteryLevel == 0 ==> t.rows[i].masteryLevel == s.rows[i].masteryLevel)
                 && (q.count == 0 ==> t.rows[i].count == s.rows[i].count)
                 && (q.content == "" ==> t.rows[i].content == s.rows[i].content)
                 && (s.rows[i].id == q.id && q.masteryLevel != 0 ==> t.rows[i].masteryLevel == q.masteryLevel)
                 && (s.rows[i].id == q.id && UnixSeconds(now) != 0 ==> t.rows[i].utime == UnixSeconds(now))
  {
  }

  /** `UpdateMasteryLevel` changes the mastery level and `utime` of the rows
      with that key and nothing else. */
  lemma MasteryTouchesOnlyItsColumns(s: QuestionState, id: int, level: int, now: Time)
    ensures var t := MasterySpec(s, id, level, now, false).0;
            |t.rows| == |s.rows| && t.nextId == s.nextId
            && forall i :: 0 <= i < |s.rows| ==>
                 && (s.rows[i].id != id ==> t.rows[i] == s.rows[i])
                 && (s.rows[i].id == id ==> t.rows[i].masteryLevel == level && t.rows[i].utime == UnixSeconds(now))
                 && t.rows[i].(masteryLevel := 0, utime := 0) == s.rows[i].(masteryLevel := 0, utime := 0)
  {
  }

  /** `DeleteById` removes exactly the rows with that key. */
  lemma DeleteByIdExact(s: QuestionState, id: int)
    ensures var t := DeleteByIdSpec(s, id, false).0;
            (forall x :: x in t.rows <==> x in s.rows && x.id != id) && t.nextId == s.nextId
  {
  }

  /** `DeleteByCategory` removes exactly the rows of that category. */
  lemma DeleteByCategoryExact(s: QuestionState, category: string)
    ensures var t := DeleteByCategorySpec(s, category, false).0;
            (forall x :: x in t.rows <==> x in s.rows && x.category != category) && t.nextId == s.nextId
  {
  }

  /** A failed statement leaves the table as it was. */
  lemma FailedStatementsChangeNothing(s: QuestionState, q: QuestionRow, id: int, level: int, category: string, now: Time)
    requires ValidState(s)
    ensures InsertSpec(s, q, now, true) == (s, Some(ProblemDao.DbFailure))
    ensures UpdateSpec(s, q, now, true) == (s, Some(ProblemDao.DbFailure))
    ensures MasterySpec(s, id, level, now, true) == (s, Some(ProblemDao.DbFailure))
    ensures DeleteByIdSpec(s, id, true) == (s, Some(ProblemDao.DbFailure))
    ensures DeleteByCategorySpec(s, category, true) == (s, Some(ProblemDao.DbFailure))
  {
  }
}
