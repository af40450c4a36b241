/** The question repository: it converts between the service's `Question`,
    whose times are instants, and the DAO's row, whose times are integers,
    and otherwise hands every call to the DAO.

    The conversion writes and reads milliseconds (`UnixMilli` and
    `time.UnixMilli`), while the DAO stamps rows with Unix seconds; the
    lemmas at the end state what a reader then sees. */
module QuestionRepository {
  import opened Wrappers
  import opened Times
  import opened Domain
  import opened QuestionDao

  /** `toEntity`: times become milliseconds; `Count` is left at 0. */
  function ToEntity(q: Question): QuestionRow
  {
    QuestionRow(q.id, q.category, q.content, q.answer, q.masteryLevel, 0, UnixMilli(q.ctime), UnixMilli(q.utime))
  }

  /** `toDomain`: the integers are read as milliseconds; `Count` is dropped. */
  function ToDomain(e: QuestionRow): Question
  {
    Question(e.id, e.category, e.content, e.answer, e.masteryLevel, FromUnixMilli(e.ctime), FromUnixMilli(e.utime))
  }

  /** Storing a question and reading it back gives it back exactly when
      neither of its times has a sub-millisecond part. */
  lemma DomainOfEntity(q: Question)
    ensures ToDomain(ToEntity(q)) == q <==> AtMilliPrecision(q.ctime) && AtMilliPrecision(q.utime)
  {
    FromUnixMilliOfUnixMilli(q.ctime);
    FromUnixMilliOfUnixMilli(q.utime);
  }

  /** Reading a row and storing it again gives the row with `Count` reset to 0. */
  lemma EntityOfDomain(e: QuestionRow)
    ensures ToEntity(ToDomain(e)) == e.(count := 0)
  {
    UnixMilliOfFromUnixMilli(e.ctime);
    UnixMilliOfFromUnixMilli(e.utime);
  }

  /** The key, the texts and the mastery level are copied unchanged both ways. */
  lemma PlainFieldsCopied(q: Question, e: QuestionRow)
    ensures var t := ToEntity(q);
            t.id == q.id && t.category == q.category && t.content == q.content
            && t.answer == q.answer && t.masteryLevel == q.masteryLevel && t.count == 0
    ensures var d := ToDomain(e);
            d.id == e.id && d.category == e.category && d.content == e.content
            && d.answer == e.answer && d.masteryLevel == e.masteryLevel
  {
  }

  /** The unit mismatch: a row the DAO stamped at instant `now` (whole Unix
      seconds) is read as that many milliseconds after the epoch, which is
      earlier than `now` once `now` is a second or more past the epoch. */
  lemma SecondsReadAsMillis(q: QuestionRow, now: Time)
    ensures ToDomain(Stamped(q, now)).ctime == FromUnixMilli(UnixSeconds(now))
    ensures ToDomain(Stamped(q, now)).utime == FromUnixMilli(UnixSeconds(now))
    ensures UnixSeconds(now) >= 1 ==> ToDomain(Stamped(q, now)).ctime.unixNano < now.unixNano
  {
  }

  /** The loop of `FindAll` and `FindByCategory` (`slice.Map`): one
      converted question per row, in row order. */
  function MapToDomain(rows: seq<QuestionRow>): (qs: seq<Question>)
    ensures |qs| == |rows|
    ensures forall i :: 0 <= i < |rows| ==> qs[i] == ToDomain(rows[i])
  {
    if |rows| == 0 then [] else [ToDomain(rows[0])] + MapToDomain(rows[1..])
  }

  /** A DAO list result as the repository returns it: converted one for
      one, or nil and the same error. */
  function LiftRows(r: Result<seq<QuestionRow>, DbError>): (d: Result<seq<Question>, DbError>)
    ensures d.Ok? <==> r.Ok?
    ensures r.Err? ==> d.error == r.error
    ensures r.Ok? ==> d.value == MapToDomain(r.value)
  {
    if r.Err? then Err(r.error) else Ok(MapToDomain(r.value))
  }

  class QuestionRepo {
    const dao: QuestionTable

    constructor (dao: QuestionTable)
      ensures this.dao == dao
    {
      this.dao := dao;
    }

    /** `Insert` hands the DAO the stored form of the question. */
    method Insert(q: Question, now: Time, dbDown: bool) returns (err: Option<DbError>)
      requires dao.Valid()
      modifies dao
      ensures (dao.State(), err) == InsertSpec(old(dao.State()), ToEntity(q), now, dbDown) && dao.Valid()
    {
      err := dao.Insert(ToEntity(q), now, dbDown);
    }

    /** The rows of that category as the DAO lists them, converted one for one in order. */
    function FindByCategory(category: string, dbDown: bool): (r: Result<seq<Question>, DbError>)
      reads dao
      ensures r.Ok? <==> !dbDown
      ensures r.Err? ==> r.error == ProblemDao.DbFailure
      ensures r.Ok? ==> var rows := dao.FindByCategory(category, false).value;
                        |r.value| == |rows| && forall i :: 0 <= i < |rows| ==> r.value[i] == ToDomain(rows[i])
      ensures r.Ok? ==> forall i :: 0 <= i < |r.value| ==> r.value[i].category == category
    {
      var d := LiftRows(dao.FindByCategory(category, dbDown));
      assert d.Ok? ==> forall i :: 0 <= i < |d.value| ==> d.value[i].category == category by {
        if d.Ok? {
          var rows := dao.FindByCategory(category, false).value;
          forall i | 0 <= i < |d.value| ensures d.value[i].category == category {
            assert rows[i] in rows;
          }
        }
      }
      d
    }

    function FindAll(dbDown: bool): (r: Result<seq<Question>, DbError>)
      reads dao
      ensures r.Ok? <==> !dbDown
      ensures r.Err? ==> r.error == ProblemDao.DbFailure
      ensures r.Ok? ==> |r.value| == |dao.rows| && forall i :: 0 <= i < |dao.rows| ==> r.value[i] == ToDomain(dao.rows[i])
    {
      LiftRows(dao.FindAll(dbDown))
    }

    /** `UpdateById` hands the DAO the stored form of the question; its
        `Count` of 0 is never written. */
    method UpdateById(q: Question, now: Time, dbDown: bool) returns (err: Option<DbError>)
      requires dao.Valid()
      modifies dao
      ensures (dao.State(), err) == UpdateSpec(old(dao.State()), ToEntity(q), now, dbDown) && dao.Valid()
      ensures |dao.rows| == |old(dao.rows)|
      ensures forall i :: 0 <= i < |dao.rows| ==> dao.rows[i].count == old(dao.rows[i].count)
    {
      err := dao.UpdateById(ToEntity(q), now, dbDown);
    }

    method UpdateMasteryLevel(id: int, level: int, now: Time, dbDown: bool) returns (err: Option<DbError>)
      requires dao.Valid()
      modifies dao
      ensures (dao.State(), err) == MasterySpec(old(dao.State()), id, level, now, dbDown) && dao.Valid()
    {
      err := dao.UpdateMasteryLevel(id, level, now, dbDown);
    }

    method DeleteById(id: int, dbDown: bool) returns (err: Option<DbError>)
      requires dao.Valid()
      modifies dao
      ensures (dao.State(), err) == DeleteByIdSpec(old(dao.State()), id, dbDown) && dao.Valid()
    {
      err := dao.DeleteById(id, dbDown);
    }

    method DeleteByCategory(category: string, dbDown: bool) returns (err: Option<DbError>)
      requires dao.Valid()
      modifies dao
      ensures (dao.State(), err) == DeleteByCategorySpec(old(dao.State()), category, dbDown) && dao.Valid()
    {
      err := dao.DeleteByCategory(category, dbDown);
    }
  }

  /** What an inserted question looks like when it is listed again: its
      times are the insertion second read as milliseconds, not the times
      the caller gave and not the insertion instant. */
  lemma InsertedQuestionReadsBack(s: QuestionState, q: Question, now: Time)
    requires ValidState(s)
    requires InsertSpec(s, ToEntity(q), now, false).1.None?
    ensures var t := InsertSpec(s, ToEntity(q), now, false).0;
            exists i :: 0 <= i < |t.rows| && t.rows[i] !in s.rows
              && ToDomain(t.rows[i]) == q.(id := t.rows[i].id,
                                           ctime := FromUnixMilli(UnixSeconds(now)),
                                           utime := FromUnixMilli(UnixSeconds(now)))
  {
    var t := InsertSpec(s, ToEntity(q), now, false).0;
    InsertStamps(s, ToEntity(q), now);
    var x :| x in t.rows && x !in s.rows && x == Stamped(ToEntity(q), now).(id := x.id);
    var i :| 0 <= i < |t.rows| && t.rows[i] == x;
  }
}
