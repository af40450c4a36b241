/** The records the service layer works with: a catalog problem, one day's
    daily-problem record and an interview question. */
module Domain {
  import opened Wrappers
  import opened Times

  /** A problem of the catalog; `studyStatus` is one of the three statuses below. */
  datatype CodingProblem = CodingProblem(
    id: int,
    title: string,
    difficulty: string,
    tags: seq<string>,
    source: string,
    sourceId: string,
    sourceUrl: string,
    studyStatus: string,
    lastStudied: Option<Time>,
    isDailyProblem: bool,
    dailyDate: Option<Time>,
    isHot100: bool,
    ctime: Time,
    utime: Time)

  /** The daily problem of one date. */
  datatype DailyProblem = DailyProblem(
    id: int,
    date: Time,
    title: string,
    difficulty: string,
    tags: seq<string>,
    source: string,
    sourceId: string,
    sourceUrl: string,
    ctime: Time,
    utime: Time)

  /** An interview question; mastery 0 is unlearned, 1 learning, 2 mastered. */
  datatype Question = Question(
    id: int,
    category: string,
    content: string,
    answer: string,
    masteryLevel: int,
    ctime: Time,
    utime: Time)

  const NotStarted: string := "not_started"
  const InProgress: string := "in_progress"
  const Completed: string := "completed"
  const LeetCode: string := "leetcode"

  /** The empty `time.Time{}` every Go struct literal starts from. */
  const NoTime: Time := ZeroTime
}
