/** What the daily-problem operations of the coding-problem DAO guarantee,
    stated over their specification functions (the DAO's methods are proved
    equal to those). */
module DailyFacts {
  import opened Wrappers
  import opened Times
  import opened ProblemDao
  import Domain

  /** Two rows that agree on every column except `is_daily_problem` and `daily_date`. */
  predicate SameExceptDaily(a: ProblemRow, b: ProblemRow)
  {
    a.(isDailyProblem := b.isDailyProblem, dailyDate := b.dailyDate) == b
  }

  // ------------------------------------------------------------ marking

  /** Once its first two statements have run, the marking leaves the coding
      table in its flagged state whatever happens to the history. */
  lemma MarkProblemsAfterFlags(s: TableState, id: int, date: Time, key: string, failAt: nat)
    requires ValidState(s) && failAt != 1 && failAt != 2
    ensures MarkOnKey(s, id, date, key, failAt).0.problems == FlagRow(ClearDailyFlags(s.problems), id, date)
    ensures MarkOnKey(s, id, date, key, failAt).0.nextId == s.nextId
  {
    MarkAfterFlags(s, id, date, key, failAt);
    HistoryKeepsProblems(s.(problems := FlagRow(ClearDailyFlags(s.problems), id, date)), id, date, key, failAt);
  }

  /** The history part of the marking never touches the coding table. */
  lemma HistoryKeepsProblems(s: TableState, id: int, date: Time, key: string, failAt: nat)
    requires ValidState(s)
    ensures MarkHistory(s, id, date, key, failAt).0.problems == s.problems
    ensures MarkHistory(s, id, date, key, failAt).0.nextId == s.nextId
  {
    if failAt != 3 && FindRow(s.problems, id).Some? && failAt != 4 {
      WithoutDateKeepsValid(s, key);
    }
  }

  /** On success every statement ran: the target exists, both tables took
      their new values and the snapshot went in under the next history key. */
  lemma MarkSuccess(s: TableState, id: int, date: Time, key: string, failAt: nat)
    requires ValidState(s)
    requires MarkOnKey(s, id, date, key, failAt).1.None?
    ensures failAt == 0 || failAt > 5
    ensures exists i :: 0 <= i < |s.problems| && s.problems[i].id == id
    ensures var o := MarkOnKey(s, id, date, key, failAt);
            var f := FlagRow(ClearDailyFlags(s.problems), id, date);
            && FindRow(f, id).Some?
            && o.0.problems == f
            && o.0.history == WithoutDate(s.history, key) + [Snapshot(FindRow(f, id).value, key, date).(id := s.nextHistoryId)]
  {
    assert failAt != 1 && failAt != 2;
    MarkAfterFlags(s, id, date, key, failAt);
    var f := FlagRow(ClearDailyFlags(s.problems), id, date);
    HistorySuccess(s.(problems := f), id, date, key, failAt);
    FlaggedTargetExists(s.problems, id, date);
  }

  /** Conversely, with no failure the marking of an existing key succeeds:
      the day's old rows are deleted first, so the insert cannot collide. */
  lemma MarkSucceedsOnExisting(s: TableState, id: int, date: Time, key: string)
    requires ValidState(s)
    requires exists i :: 0 <= i < |s.problems| && s.problems[i].id == id
    ensures MarkOnKey(s, id, date, key, 0).1.None?
  {
    MarkAfterFlags(s, id, date, key, 0);
    var f := FlagRow(ClearDailyFlags(s.problems), id, date);
    var i :| 0 <= i < |s.problems| && s.problems[i].id == id;
    assert f[i].id == id;
    HistorySucceeds(s.(problems := f), id, date, key);
  }

  lemma HistorySucceeds(s: TableState, id: int, date: Time, key: string)
    requires ValidState(s)
    requires FindRow(s.problems, id).Some?
    ensures MarkHistory(s, id, date, key, 0).1.None?
  {
    WithoutDateKeepsValid(s, key);
    assert FindDaily(WithoutDate(s.history, key), key).None?;
  }

  /** Past its first two statements the marking is `MarkHistory` on the flagged table. */
  lemma MarkAfterFlags(s: TableState, id: int, date: Time, key: string, failAt: nat)
    requires ValidState(s)
    requires failAt != 1 && failAt != 2
    ensures ValidState(s.(problems := FlagRow(ClearDailyFlags(s.problems), id, date)))
    ensures MarkOnKey(s, id, date, key, failAt) ==
            MarkHistory(s.(problems := FlagRow(ClearDailyFlags(s.problems), id, date)), id, date, key, failAt)
  {
    FlagsKeepValid(s, id, date);
  }

  /** Rewriting the flags keeps every key, so the target is found after it
      only if it was there before. */
  lemma FlaggedTargetExists(rows: seq<ProblemRow>, id: int, date: Time)
    requires FindRow(FlagRow(ClearDailyFlags(rows), id, date), id).Some?
    ensures exists i :: 0 <= i < |rows| && rows[i].id == id
  {
    var f := FlagRow(ClearDailyFlags(rows), id, date);
    var i :| 0 <= i < |f| && f[i].id == id;
    assert rows[i].id == id;
  }

  /** The history part of the marking succeeds only when it runs to the end. */
  lemma HistorySuccess(s: TableState, id: int, date: Time, key: string, failAt: nat)
    requires ValidState(s)
    requires MarkHistory(s, id, date, key, failAt).1.None?
    ensures failAt != 3 && failAt != 4 && failAt != 5
    ensures var o := MarkHistory(s, id, date, key, failAt);
            && FindRow(s.problems, id).Some?
            && o.0.problems == s.problems
            && o.0.history == WithoutDate(s.history, key) + [Snapshot(FindRow(s.problems, id).value, key, date).(id := s.nextHistoryId)]
  {
    var found := FindRow(s.problems, id);
    assert failAt != 3 && found.Some? && failAt != 4 && failAt != 5;
    WithoutDateKeepsValid(s, key);
    var s3 := s.(history := WithoutDate(s.history, key));
    assert MarkHistory(s, id, date, key, failAt) == CreateDaily(s3, Snapshot(found.value, key, date));
  }

  /** Keys are unique in a table sorted by key. */
  lemma SortedIdsInjective(rows: seq<ProblemRow>, i: int, j: int)
    requires SortedIds(rows) && 0 <= i < |rows| && 0 <= j < |rows| && rows[i].id == rows[j].id
    ensures i == j
  {
  }

  lemma HistoryIdsInjective(h: seq<DailyRow>, i: int, j: int)
    requires SortedHistoryIds(h) && 0 <= i < |h| && 0 <= j < |h| && h[i].id == h[j].id
    ensures i == j
  {
  }

  lemma HistoryDatesInjective(h: seq<DailyRow>, i: int, j: int)
    requires UniqueDates(h) && 0 <= i < |h| && 0 <= j < |h| && h[i].date == h[j].date
    ensures i == j
  {
  }

  /** After a successful marking the target is the only row flagged daily,
      its date is the given instant, and every other row that was flagged
      has lost both its flag and its date. */
  lemma MarkLeavesOneDailyRow(s: TableState, id: int, date: Time, key: string, failAt: nat)
    requires ValidState(s)
    requires MarkOnKey(s, id, date, key, failAt).1.None?
    ensures var rows := MarkOnKey(s, id, date, key, failAt).0.problems;
            && |rows| == |s.problems|
            && (exists i :: 0 <= i < |rows| && rows[i].id == id)
            && (forall x :: x in rows ==> (x.isDailyProblem <==> x.id == id))
            && (forall x :: x in rows && x.id == id ==> x.dailyDate == Some(date))
            && (forall i :: 0 <= i < |rows| && s.problems[i].isDailyProblem && s.problems[i].id != id ==>
                  !rows[i].isDailyProblem && rows[i].dailyDate.None?)
  {
    MarkSuccess(s, id, date, key, failAt);
    FlagRowsFacts(s.problems, id, date);
  }

  /** The coding table after the first two statements of the marking. */
  lemma FlagRowsFacts(rows: seq<ProblemRow>, id: int, date: Time)
    requires exists i :: 0 <= i < |rows| && rows[i].id == id
    ensures var f := FlagRow(ClearDailyFlags(rows), id, date);
            && |f| == |rows|
            && (exists i :: 0 <= i < |f| && f[i].id == id)
            && (forall x :: x in f ==> (x.isDailyProblem <==> x.id == id))
            && (forall x :: x in f && x.id == id ==> x.dailyDate == Some(date))
            && (forall i :: 0 <= i < |f| && rows[i].isDailyProblem && rows[i].id != id ==>
                  !f[i].isDailyProblem && f[i].dailyDate.None?)
  {
    var f := FlagRow(ClearDailyFlags(rows), id, date);
    forall x | x in f ensures (x.isDailyProblem <==> x.id == id) && (x.id == id ==> x.dailyDate == Some(date)) {
      var i :| 0 <= i < |f| && f[i] == x;
      assert x == Flagged(Unflagged(rows[i]), id, date);
    }
    var i :| 0 <= i < |rows| && rows[i].id == id;
    assert f[i].id == id;
  }

  /** Whatever statement fails, the marking changes only the two daily
      columns of the coding table, leaves rows that were neither flagged nor
      the target as they were, and keeps the key counter. */
  lemma MarkTouchesOnlyDailyColumns(s: TableState, id: int, date: Time, key: string, failAt: nat)
    requires ValidState(s)
    ensures var o := MarkOnKey(s, id, date, key, failAt);
            && |o.0.problems| == |s.problems|
            && o.0.nextId == s.nextId
            && (forall i :: 0 <= i < |s.problems| ==> SameExceptDaily(o.0.problems[i], s.problems[i]))
            && (forall i :: 0 <= i < |s.problems| && s.problems[i].id != id && !s.problems[i].isDailyProblem ==>
                  o.0.problems[i] == s.problems[i])
  {
    if failAt != 1 && failAt != 2 {
      MarkProblemsAfterFlags(s, id, date, key, failAt);
    }
  }

  lemma {:induction false} WithoutDateConcat(a: seq<DailyRow>, b: seq<DailyRow>, key: string)
    ensures WithoutDate(a + b, key) == WithoutDate(a, key) + WithoutDate(b, key)
  {
    if |a| > 0 {
      assert (a + b)[1..] == a[1..] + b;
      WithoutDateConcat(a[1..], b, key);
    } else {
      assert a + b == b;
    }
  }

  lemma {:induction false} WithoutDateTwice(h: seq<DailyRow>, key: string)
    ensures WithoutDate(WithoutDate(h, key), key) == WithoutDate(h, key)
  {
    if |h| > 0 {
      WithoutDateTwice(h[1..], key);
      var w := WithoutDate(h, key);
      if h[0].date != key {
        assert w == [h[0]] + WithoutDate(h[1..], key);
        assert w[1..] == WithoutDate(h[1..], key);
        assert WithoutDate(w, key) == [h[0]] + WithoutDate(w[1..], key);
      } else {
        assert w == WithoutDate(h[1..], key);
      }
    }
  }

  /** After a successful marking there is exactly one history row for the
      day of `date`: it copies the target's title, difficulty, tags,
      source, source id and link, names the target, and is stamped with
      `date`; the rows of every other day are as they were. */
  lemma MarkRecordsHistory(s: TableState, id: int, date: Time, key: string, failAt: nat)
    requires ValidState(s)
    requires MarkOnKey(s, id, date, key, failAt).1.None?
    ensures var h := MarkOnKey(s, id, date, key, failAt).0.history;
            && (exists j :: 0 <= j < |h| && h[j].date == key)
            && UniqueDates(h)
            && (forall x, i :: x in h && x.date == key && 0 <= i < |s.problems| && s.problems[i].id == id ==>
                  && x.title == s.problems[i].title && x.difficulty == s.problems[i].difficulty
                  && x.tags == s.problems[i].tags && x.source == s.problems[i].source
                  && x.sourceId == s.problems[i].sourceId && x.sourceUrl == s.problems[i].sourceUrl
                  && x.problemId == id && x.ctime == date && x.utime == date)
            && WithoutDate(h, key) == WithoutDate(s.history, key)
  {
    MarkSuccess(s, id, date, key, failAt);
    var f := FlagRow(ClearDailyFlags(s.problems), id, date);
    SnapshotCopiesTarget(s.problems, id, date);
    AppendedDayRow(s.history, key, Snapshot(FindRow(f, id).value, key, date).(id := s.nextHistoryId));
  }

  /** The row the marking reads back carries the target's columns. */
  lemma SnapshotCopiesTarget(rows: seq<ProblemRow>, id: int, date: Time)
    requires SortedIds(rows)
    requires FindRow(FlagRow(ClearDailyFlags(rows), id, date), id).Some?
    ensures var p := FindRow(FlagRow(ClearDailyFlags(rows), id, date), id).value;
            forall i :: 0 <= i < |rows| && rows[i].id == id ==>
              && p.id == id
              && p.title == rows[i].title && p.difficulty == rows[i].difficulty
              && p.tags == rows[i].tags && p.source == rows[i].source
              && p.sourceId == rows[i].sourceId && p.sourceUrl == rows[i].sourceUrl
  {
    var f := FlagRow(ClearDailyFlags(rows), id, date);
    var p := FindRow(f, id).value;
    var j :| 0 <= j < |f| && f[j] == p;
    assert f[j] == Flagged(Unflagged(rows[j]), id, date);
    forall i | 0 <= i < |rows| && rows[i].id == id ensures i == j {
      SortedIdsInjective(rows, i, j);
    }
  }

  /** Appending one row for a day to a history purged of that day leaves
      exactly that row for the day and the other days as they were. */
  lemma AppendedDayRow(h: seq<DailyRow>, key: string, row: DailyRow)
    requires row.date == key
    ensures var h' := WithoutDate(h, key) + [row];
            && h'[|h'| - 1] == row
            && (forall x :: x in h' && x.date == key ==> x == row)
            && WithoutDate(h', key) == WithoutDate(h, key)
  {
    var w := WithoutDate(h, key);
    var h' := w + [row];
    forall x | x in h' && x.date == key ensures x == row {
      assert x !in w;
    }
    WithoutDateConcat(w, [row], key);
    WithoutDateTwice(h, key);
    assert WithoutDate([row], key) == [];
    assert w + [] == w;
  }

  /** Marking a key no row has clears every flag, then stops with
      RecordNotFound: the flags stay cleared and the history is untouched. */
  lemma MarkMissingProblem(s: TableState, id: int, date: Time, key: string)
    requires ValidState(s)
    requires forall i :: 0 <= i < |s.problems| ==> s.problems[i].id != id
    ensures MarkOnKey(s, id, date, key, 0) == (s.(problems := ClearDailyFlags(s.problems)), Some(RecordNotFound))
  {
    var c := ClearDailyFlags(s.problems);
    assert FlagRow(c, id, date) == c;
  }

  // ----------------------------------------------------- saving a daily record

  lemma {:induction false} WithoutDateSameElsewhere(h: seq<DailyRow>, h': seq<DailyRow>, key: string)
    requires |h| == |h'|
    requires forall i :: 0 <= i < |h| ==> h'[i] == h[i] || (h[i].date == key && h'[i].date == key)
    ensures WithoutDate(h', key) == WithoutDate(h, key)
  {
    if |h| > 0 {
      WithoutDateSameElsewhere(h[1..], h'[1..], key);
    }
  }

  /** `SaveDailyProblem` over a day that already has a row: the row is
      overwritten with the record and keeps its key; other days are untouched. */
  lemma SaveDailyReplaces(s: TableState, dp: Domain.DailyProblem, offset: int)
    requires ValidState(s)
    requires FindDaily(s.history, DateKey(dp.date, offset)).Some?
    ensures var o := SaveDailySpec(s, dp, offset, 0);
            var key := DateKey(dp.date, offset);
            var row := DailyRowOf(dp, offset).(id := FindDaily(s.history, key).value.id);
            && o.1.None?
            && row in o.0.history
            && (forall x :: x in o.0.history && x.date == key ==> x == row)
            && WithoutDate(o.0.history, key) == WithoutDate(s.history, key)
            && |o.0.history| == |s.history|
  {
    var key := DateKey(dp.date, offset);
    var e := FindDaily(s.history, key).value;
    var row := DailyRowOf(dp, offset).(id := e.id);
    assert SaveDailySpec(s, dp, offset, 0).0.history == ReplaceDaily(s.history, row);
    ReplaceOneDay(s.history, key, e, row);
  }

  /** Overwriting the row of a day, found by its key, in a history with
      unique keys and dates. */
  lemma ReplaceOneDay(h: seq<DailyRow>, key: string, e: DailyRow, row: DailyRow)
    requires SortedHistoryIds(h) && UniqueDates(h)
    requires e in h && e.date == key && row.date == key && row.id == e.id
    ensures var h' := ReplaceDaily(h, row);
            && row in h'
            && (forall x :: x in h' && x.date == key ==> x == row)
            && WithoutDate(h', key) == WithoutDate(h, key)
            && |h'| == |h|
  {
    var h' := ReplaceDaily(h, row);
    var k :| 0 <= k < |h| && h[k] == e;
    assert h'[k] == row;
    forall i | 0 <= i < |h| ensures h'[i] == h[i] || (h[i].date == key && h'[i].date == key) {
      if h[i].id == e.id {
        HistoryIdsInjective(h, i, k);
      }
    }
    forall x | x in h' && x.date == key ensures x == row {
      var i :| 0 <= i < |h'| && h'[i] == x;
      if h[i].id != e.id {
        assert false;
      }
    }
    WithoutDateSameElsewhere(h, h', key);
  }

  /** `SaveDailyProblem` over a day without a row creates one under the
      next key; other days are untouched. */
  lemma SaveDailyCreates(s: TableState, dp: Domain.DailyProblem, offset: int)
    requires ValidState(s)
    requires FindDaily(s.history, DateKey(dp.date, offset)).None?
    ensures var o := SaveDailySpec(s, dp, offset, 0);
            var key := DateKey(dp.date, offset);
            var row := DailyRowOf(dp, offset).(id := s.nextHistoryId);
            && o.1.None?
            && row in o.0.history
            && (forall x :: x in o.0.history && x.date == key ==> x == row)
            && WithoutDate(o.0.history, key) == WithoutDate(s.history, key)
            && |o.0.history| == |s.history| + 1
  {
    var key := DateKey(dp.date, offset);
    var row := DailyRowOf(dp, offset).(id := s.nextHistoryId);
    var h := SaveDailySpec(s, dp, offset, 0).0.history;
    assert h == s.history + [row];
    forall x | x in h && x.date == key ensures x == row {
      assert x == row || x in s.history;
    }
    WithoutDateConcat(s.history, [row], key);
    assert WithoutDate([row], key) == [];
    assert WithoutDate(s.history, key) + [] == WithoutDate(s.history, key);
  }

  // ------------------------------------------------- choosing today's problem

  /** Priority 1: a row flagged for today is returned and nothing changes. */
  lemma GetDailyPrefersFlagged(s: TableState, now: Time, offset: int, pick: nat)
    requires ValidState(s)
    requires TodayFlagged(s.problems, DateKey(now, offset), offset).Some?
    ensures GetDailySpec(s, now, offset, pick, 0) == (s, Ok(TodayFlagged(s.problems, DateKey(now, offset), offset).value))
    ensures GetDailySpec(s, now, offset, pick, 0).1.value.isDailyProblem
  {
  }

  /** Priority 2: with no row flagged for today, the problem today's history
      record names is returned and nothing changes. */
  lemma GetDailyFallsBackToHistory(s: TableState, now: Time, offset: int, pick: nat)
    requires ValidState(s)
    requires TodayFlagged(s.problems, DateKey(now, offset), offset).None?
    requires FindDaily(s.history, DateKey(now, offset)).Some?
    requires FindRow(s.problems, FindDaily(s.history, DateKey(now, offset)).value.problemId).Some?
    ensures GetDailySpec(s, now, offset, pick, 0) ==
            (s, Ok(FindRow(s.problems, FindDaily(s.history, DateKey(now, offset)).value.problemId).value))
  {
  }

  /** Priority 3: otherwise the picked row is marked daily as of `now`, and
      the row is returned as it was read, before the marking. An empty
      table is RecordNotFound, with nothing changed. */
  lemma GetDailyPicksAndMarks(s: TableState, now: Time, offset: int, pick: nat)
    requires ValidState(s)
    requires TodayFlagged(s.problems, DateKey(now, offset), offset).None?
    requires FromHistory(s, DateKey(now, offset), 0).None?
    ensures |s.problems| == 0 ==> GetDailySpec(s, now, offset, pick, 0) == (s, Err(RecordNotFound))
    ensures |s.problems| > 0 ==>
              var p := s.problems[pick % |s.problems|];
              var m := MarkSpec(s, p.id, now, offset, 0);
              && m.1.None?
              && GetDailySpec(s, now, offset, pick, 0) == (m.0, Ok(p))
  {
    if |s.problems| > 0 {
      var i := pick % |s.problems|;
      var p := s.problems[i];
      MarkSucceedsOnExisting(s, p.id, now, DateKey(now, offset));
    }
  }

  // ---------------------------------------------------------------- history

  /** A history row written by the marking reads back, through
      `GetDailyProblemHistory`, as its problem's key with the daily flag and
      midnight UTC of the recorded day (for four-digit years). */
  lemma HistoryReadsBackMarkedDay(p: ProblemRow, date: Time, offset: int)
    requires 0 <= LocalDate(date, offset).year <= 9999
    ensures var q := HistoryProblem(Snapshot(p, DateKey(date, offset), date));
            && q.id == p.id && q.isDailyProblem
            && q.dailyDate == Some(MidnightUtc(LocalDate(date, offset)))
            && q.title == p.title && q.tags == p.tags && q.sourceId == p.sourceId
  {
    ParseFormatDate(LocalDate(date, offset));
  }

  /** `GetDailyProblemHistory` lists the records newest first and drops none. */
  lemma HistoryOrder(h: seq<DailyRow>)
    requires UniqueDates(h)
    ensures var sorted := SortByDateDesc(h);
            |sorted| == |h| && (forall x :: x in sorted <==> x in h) && DateDesc(sorted)
  {
    var sorted := SortByDateDesc(h);
    assert |multiset(sorted)| == |multiset(h)|;
    forall x ensures x in sorted <==> x in h {
      assert x in sorted <==> x in multiset(sorted);
      assert x in h <==> x in multiset(h);
    }
  }

  // ---------------------------------------------------------- single updates

  /** `UpdateStudyStatus` writes the status and `utime` of the matching
      row, and `last_studied` only when one is given; no other column and no
      other row changes. */
  lemma StudyStatusTouchesOnlyItsColumns(s: TableState, id: int, status: string, lastStudied: Option<Time>, now: Time)
    ensures var rows := UpdateStudyStatusSpec(s, id, status, lastStudied, now, false).0.problems;
            && |rows| == |s.problems|
            && (forall i :: 0 <= i < |rows| && s.problems[i].id != id ==> rows[i] == s.problems[i])
            && (forall i :: 0 <= i < |rows| && s.problems[i].id == id ==>
                  && rows[i].studyStatus == status && rows[i].utime == now
                  && rows[i].lastStudied == (if lastStudied.Some? then lastStudied else s.problems[i].lastStudied)
                  && rows[i].(studyStatus := s.problems[i].studyStatus, utime := s.problems[i].utime,
                              lastStudied := s.problems[i].lastStudied) == s.problems[i])
  {
  }

  /** `Insert` of a row without a key appends it under the next key, taking
      `now` for a zero creation or update time and keeping a non-zero one. */
  lemma InsertFillsTimes(s: TableState, p: ProblemRow, now: Time)
    requires ValidState(s) && p.id == 0
    ensures var o := InsertSpec(s, p, now, false);
            && o.1.None?
            && |o.0.problems| == |s.problems| + 1
            && o.0.problems[..|s.problems|] == s.problems
            && var r := o.0.problems[|s.problems|];
               && r.id == s.nextId
               && r.ctime == (if IsZero(p.ctime) then now else p.ctime)
               && r.utime == (if IsZero(p.utime) then now else p.utime)
               && r.title == p.title && r.sourceId == p.sourceId && r.tags == p.tags
  {
  }

  /** `Insert` fails exactly when the database is down or an explicit key is taken. */
  lemma InsertErrors(s: TableState, p: ProblemRow, now: Time, dbDown: bool)
    requires ValidState(s)
    ensures var o := InsertSpec(s, p, now, dbDown);
            o.1.Some? <==> dbDown || (p.id != 0 && exists i :: 0 <= i < |s.problems| && s.problems[i].id == p.id)
    ensures InsertSpec(s, p, now, dbDown).1.Some? ==> InsertSpec(s, p, now, dbDown).0 == s
  {
  }
}
