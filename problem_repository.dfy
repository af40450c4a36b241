/** The coding-problem repository: it converts between the service's
    `CodingProblem` and the DAO's row, and otherwise hands every call to the
    DAO. */
module ProblemRepository {
  import opened Wrappers
  import opened Times
  import opened Domain
  import opened ProblemDao

  /** `toEntity`: the row that stores a problem, column for column. */
  function ToEntity(p: CodingProblem): ProblemRow
  {
    ProblemRow(p.id, p.title, p.difficulty, p.tags, p.source, p.sourceId, p.sourceUrl,
               p.studyStatus, p.lastStudied, p.isDailyProblem, p.dailyDate, p.isHot100,
               p.ctime, p.utime)
  }

  /** `toDomain`: the problem a row stores. */
  function ToDomain(e: ProblemRow): CodingProblem
  {
    CodingProblem(e.id, e.title, e.difficulty, e.tags, e.source, e.sourceId, e.sourceUrl,
                  e.studyStatus, e.lastStudied, e.isDailyProblem, e.dailyDate, e.isHot100,
                  e.ctime, e.utime)
  }

  /** Storing a problem and reading it back gives the same problem. */
  lemma DomainOfEntity(p: CodingProblem)
    ensures ToDomain(ToEntity(p)) == p
  {
  }

  /** Reading a row and storing it again gives the same row. */
  lemma EntityOfDomain(e: ProblemRow)
    ensures ToEntity(ToDomain(e)) == e
  {
  }

  /** The conversion loses nothing: two problems are stored alike only when equal. */
  lemma EntityInjective(p: CodingProblem, q: CodingProblem)
    requires ToEntity(p) == ToEntity(q)
    ensures p == q
  {
    DomainOfEntity(p);
    DomainOfEntity(q);
  }

  /** The loop of the `Find*` methods: a fresh slice with one converted
      problem per row, in row order. */
  function MapToDomain(rows: seq<ProblemRow>): (ps: seq<CodingProblem>)
    ensures |ps| == |rows|
    ensures forall i :: 0 <= i < |rows| ==> ps[i] == ToDomain(rows[i])
  {
    if |rows| == 0 then [] else [ToDomain(rows[0])] + MapToDomain(rows[1..])
  }

  /** A DAO list result as the repository returns it: converted one for
      one, or nil and the same error. */
  function LiftRows(r: Result<seq<ProblemRow>, DbError>): (d: Result<seq<CodingProblem>, DbError>)
    ensures d.Ok? <==> r.Ok?
    ensures r.Err? ==> d.error == r.error
    ensures r.Ok? ==> d.value == MapToDomain(r.value)
  {
    if r.Err? then Err(r.error) else Ok(MapToDomain(r.value))
  }

  /** Converting a list and converting it back restores the rows. */
  lemma {:induction false} MapToDomainRoundTrip(rows: seq<ProblemRow>)
    ensures |MapToDomain(rows)| == |rows|
    ensures forall i :: 0 <= i < |rows| ==> ToEntity(MapToDomain(rows)[i]) == rows[i]
  {
    forall i | 0 <= i < |rows| ensures ToEntity(MapToDomain(rows)[i]) == rows[i] {
      EntityOfDomain(rows[i]);
    }
  }

  /** `GetDailyProblem`: a nil problem without an error is `(nil, nil)`, an
      error is `(nil, err)`, and a problem is converted. */
  function LiftDaily(r: Result<Option<ProblemRow>, DbError>): (d: Result<Option<CodingProblem>, DbError>)
    ensures d.Err? <==> r.Err?
    ensures r.Err? ==> d.error == r.error
    ensures r.Ok? ==> (d.value.None? <==> r.value.None?)
    ensures r.Ok? && r.value.Some? ==> d.value.value == ToDomain(r.value.value)
  {
    match r
    case Err(e) => Err(e)
    case Ok(None) => Ok(None)
    case Ok(Some(p)) => Ok(Some(ToDomain(p)))
  }

  class CodingProblemRepository {
    const dao: CodingProblemTable

    constructor (dao: CodingProblemTable)
      ensures this.dao == dao
    {
      this.dao := dao;
    }

    /** `Create` hands the DAO exactly the stored form of the problem. */
    method Create(p: CodingProblem, now: Time, dbDown: bool) returns (err: Option<DbError>)
      requires dao.Valid()
      modifies dao
      ensures (dao.State(), err) == InsertSpec(old(dao.State()), ToEntity(p), now, dbDown) && dao.Valid()
    {
      err := dao.Insert(ToEntity(p), now, dbDown);
    }

    /** `Update` hands the DAO exactly the stored form of the problem. */
    method Update(p: CodingProblem, now: Time, dbDown: bool) returns (err: Option<DbError>)
      requires dao.Valid()
      modifies dao
      ensures (dao.State(), err) == UpdateSpec(old(dao.State()), ToEntity(p), now, dbDown) && dao.Valid()
    {
      err := dao.UpdateById(ToEntity(p), now, dbDown);
    }

    function FindAll(dbDown: bool): (r: Result<seq<CodingProblem>, DbError>)
      reads dao
      ensures r.Ok? <==> !dbDown
      ensures r.Err? ==> r.error == DbFailure
      ensures r.Ok? ==> |r.value| == |dao.problems| &&
                        forall i :: 0 <= i < |dao.problems| ==> r.value[i] == ToDomain(dao.problems[i])
    {
      LiftRows(dao.FindAll(dbDown))
    }

    function FindById(id: int, dbDown: bool): (r: Result<CodingProblem, DbError>)
      reads dao
      ensures dbDown ==> r == Err(DbFailure)
      ensures r.Ok? ==> exists i :: 0 <= i < |dao.problems| && dao.problems[i].id == id && r.value == ToDomain(dao.problems[i])
      ensures !dbDown && r.Err? ==> r.error == RecordNotFound && forall i :: 0 <= i < |dao.problems| ==> dao.problems[i].id != id
    {
      match dao.FindById(id, dbDown)
      case Err(e) => Err(e)
      case Ok(row) => Ok(ToDomain(row))
    }

    function FindBySource(source: string, dbDown: bool): (r: Result<seq<CodingProblem>, DbError>)
      reads dao
      ensures r.Ok? <==> !dbDown
      ensures r.Ok? ==> r.value == MapToDomain(RowsBySource(dao.problems, source))
    {
      LiftRows(dao.FindBySource(source, dbDown))
    }

    function FindBySourceId(sourceId: string, dbDown: bool): (r: Result<seq<CodingProblem>, DbError>)
      reads dao
      ensures r.Ok? <==> !dbDown
      ensures r.Ok? ==> r.value == MapToDomain(RowsBySourceId(dao.problems, sourceId))
    {
      LiftRows(dao.FindBySourceId(sourceId, dbDown))
    }

    function FindByDifficulty(difficulty: string, dbDown: bool): (r: Result<seq<CodingProblem>, DbError>)
      reads dao
      ensures r.Ok? <==> !dbDown
      ensures r.Ok? ==> r.value == MapToDomain(RowsByDifficulty(dao.problems, difficulty))
    {
      LiftRows(dao.FindByDifficulty(difficulty, dbDown))
    }

    /** `GetDailyProblem`: the DAO's choice, converted; the DAO never
        answers nil without an error, so the result is never `(nil, nil)`. */
    method GetDailyProblem(now: Time, offset: int, pick: nat, failAt: nat)
      returns (r: Result<Option<CodingProblem>, DbError>)
      requires dao.Valid()
      modifies dao
      ensures var o := GetDailySpec(old(dao.State()), now, offset, pick, failAt);
              && dao.State() == o.0 && dao.Valid()
              && r == LiftDaily(if o.1.Ok? then Ok(Some(o.1.value)) else Err(o.1.error))
      ensures r.Ok? ==> r.value.Some?
    {
      var found := dao.GetDailyProblem(now, offset, pick, failAt);
      r := LiftDaily(if found.Ok? then Ok(Some(found.value)) else Err(found.error));
    }

    method GetDailyProblemHistory(dbDown: bool) returns (r: Result<seq<CodingProblem>, DbError>)
      ensures r.Err? <==> dbDown
      ensures r.Ok? ==> var sorted := SortByDateDesc(dao.history);
                        |r.value| == |sorted| &&
                        forall i :: 0 <= i < |sorted| ==> r.value[i] == ToDomain(HistoryProblem(sorted[i]))
    {
      var rows := dao.GetDailyProblemHistory(dbDown);
      r := LiftRows(rows);
    }

    method MarkAsDailyProblem(id: int, date: Time, offset: int, failAt: nat) returns (err: Option<DbError>)
      requires dao.Valid()
      modifies dao
      ensures (dao.State(), err) == MarkSpec(old(dao.State()), id, date, offset, failAt) && dao.Valid()
    {
      err := dao.MarkAsDailyProblem(id, date, offset, failAt);
    }
  }
}
