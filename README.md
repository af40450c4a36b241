# Coding-problem catalog of the Study backend, in Dafny

This project models the Go backend's catalog of coding problems and proves properties of that model. The catalog has these parts:

- The LeetCode crawler. It turns decoded GraphQL answers into problems, reconciles today's daily problem with the store, and seeds the Hot 100 list and batches of slugs.
- The GORM data-access objects that the catalog keeps in MySQL: the `coding_problems` table, the `daily_problems` history and the `questions` table.
- The two repositories. They convert between service records and stored rows.
- The seed loader `InsertHot100Problems`, with its built-in list of 103 problems.
- The HTTP handlers under `/api/coding/`.
- The scheduler's delay arithmetic and its two text helpers.

Each database table is a Dafny `class`. Its fields are the table's rows, kept in primary-key order, plus the auto-increment counters. Each DAO method changes those fields, and its contract says the new state equals a specification function of the old state. The properties the source promises are proved as lemmas about those functions. Some examples:

- After a successful marking there is exactly one daily row, and one history row per date.
- A second seed run inserts nothing.
- The counters of the statistics add up.
- Storing a record and reading it back is a round trip.

A failing database statement is chosen by a parameter. It is `dbDown` for a one-statement operation. For a longer operation it is `failAt`, the 1-based index of the failing statement, or the set of failing loop iterations.

| file | models |
|---|---|
| `text.dfy` | `strconv.Atoi`/`ParseInt`, `strings.ReplaceAll`, `TrimSpace`, `ToLower`, `unicode.IsSpace` |
| `times.dfy` | instants, the Gregorian calendar, `Format`/`Parse` with the layout `2006-01-02`, `UnixMilli` |
| `html.dfy` | the regular-expression rewrites `<[^>]*>`, `\s+` and `\n\s*\n`, written as left-to-right scans |
| `domain.dfy` | the service records `CodingProblem`, `DailyProblem` and `Question` |
| `problem_dao.dfy` | `GormCodingProblemDAO` over both coding tables |
| `daily_facts.dfy` | what the daily-problem operations of that DAO guarantee |
| `question_dao.dfy` | `questionDao` over `questions` |
| `problem_repository.dfy`, `question_repository.dfy` | the two repositories and their conversions |
| `crawler.dfy` | `LeetCodeCrawler` |
| `hot100_seed.dfy` | the seed list and `InsertHot100Problems` |
| `web.dfy` | `CodingProblemHandler` |
| `scheduler.dfy` | the scheduler's difficulty translation, HTML cleaning and next-midnight delay |

## Model

| member | source | states |
|---|---|---|
| Crawler.FallbackTitle | Study/internal/service/leetcode_crawler.go:262-267 | The translated title is used when it is non-empty, otherwise the original title. |
| Crawler.FallbackTitleExamples | Study/internal/service/leetcode_test.go:44-58 | "两数之和" wins over "Two Sum", and an empty translation gives "Two Sum". |
| Crawler.TagNames | Study/internal/service/leetcode_crawler.go:374-377 | There is one tag name per topic tag, with the same length and in the same order. |
| Crawler.CrawlProblemBySlug | Study/internal/service/leetcode_crawler.go:356-391 | A failed request is an error. A question with an empty title is an error. Otherwise the result is a new `not_started` leetcode problem with the question's title, difficulty and frontend id, its tag names in order, the link built from `titleSlug`, no daily or Hot 100 flag, and both times equal to now. |
| Crawler.GetDailyProblem | Study/internal/service/leetcode_crawler.go:218-258 | A failed request is an error, and an empty record list is the only other error. The draft is dated now. When the detail fetch fails, the draft has the fallback title, tags exactly `["算法"]`, source leetcode, the frontend id and the problem link. Otherwise it copies the crawled problem's title, difficulty, tags, source, source id and link. |
| Crawler.DraftUsesFirstRecord | Study/internal/service/leetcode_crawler.go:218-226 | Only record 0 of the "today" list affects the draft. |
| Crawler.FirstIndex | Study/internal/service/leetcode_crawler.go:412-418 | The result is the index of the first listed problem with that `SourceId`. It is -1 exactly when no listed problem has it. |
| Crawler.FirstWithSourceId | Study/internal/service/leetcode_crawler.go:412-418 | The search loop returns exactly `FirstIndex`. |
| Crawler.NoLeetCodeMatch | Study/internal/service/leetcode_crawler.go:406-418 | The listed problems show no match exactly when no leetcode row of the table has the `SourceId`. |
| Crawler.UpsertSpec | Study/internal/service/leetcode_crawler.go:406-466 | The upsert keeps the table's invariants: unique keys below the counter and one history row per date. |
| Crawler.UpsertUpdatesFirstMatch | Study/internal/service/leetcode_crawler.go:412-437 | When a leetcode row has the draft's `SourceId`, the first listed one is updated in place and no row is created. Its tags become the draft's, it is flagged daily for the draft date, `utime` becomes now, and every other column and every other row stays as it was. Its id is the one marked. |
| Crawler.UpsertStoreFailures | Study/internal/service/leetcode_crawler.go:407-456 | A failed `Update` or `Create` is returned as the pass's error and leaves the table unchanged. A failed `FindBySource` counts as an empty list. |
| Crawler.UpsertCreatesOne | Study/internal/service/leetcode_crawler.go:438-465 | With no match, exactly one row is appended under the next key. It is a `not_started` problem flagged daily for the draft date. When no row of any source had that `SourceId`, its key is the id marked. A failed re-query is an error after the row was created. |
| Crawler.UpsertMayMarkOlderRow | Study/internal/service/leetcode_crawler.go:459-464 | The re-query matches on `SourceId` alone. When an older row of any source has that `SourceId`, the id marked is the older row's, not the new one's. |
| Crawler.UpsertIdExists | Study/internal/service/leetcode_crawler.go:424-466 | The id handed to the marking belongs to a row of the new table. |
| Crawler.DailyPassOutcome | Study/internal/service/leetcode_crawler.go:398-478 | A draft that cannot be built fails the pass before any store call. Once the upsert succeeds, the pass succeeds whether or not the marking fails. With a marking that does not fail, the upserted row is the only daily row, and it is dated now. |
| Crawler.LeetCodeCrawler.CrawlAndSaveDailyProblem | Study/internal/service/leetcode_crawler.go:398-478 | The new table and the returned error are exactly `DailyPass` of the old table. |
| Crawler.LeetCodeCrawler.SaveDraft | Study/internal/service/leetcode_crawler.go:406-466 | The new table and the id or error are exactly `UpsertSpec` of the old table. |
| Crawler.Hot100CandidateShape | Study/internal/service/leetcode_crawler.go:297-318 | The candidate is always a new, unstudied leetcode problem flagged Hot 100. When the crawl fails, it is built from the entry with tags `["Hot 100","算法"]`. Otherwise it is the crawled problem with `Hot 100` appended to its tags. |
| Crawler.Hot100SkipsPresent | Study/internal/service/leetcode_crawler.go:286-295 | An entry whose `SourceId` is stored is skipped when the lookup works. |
| Crawler.Hot100InsertsCandidate | Study/internal/service/leetcode_crawler.go:286-324 | Otherwise the candidate is appended under the next key, unless the create fails, which changes nothing. |
| Crawler.Hot100RunSkipsAll | Study/internal/service/leetcode_crawler.go:283-330 | When every entry's `SourceId` is stored and no lookup fails, the pass changes nothing. |
| Crawler.LeetCodeCrawler.CrawlAndSaveHot100Problems | Study/internal/service/leetcode_crawler.go:280-334 | The loop leaves exactly `Hot100Run` of the old table over every entry. |
| Crawler.LeetCodeCrawler.SaveHot100Entry | Study/internal/service/leetcode_crawler.go:286-324 | One iteration leaves exactly `Hot100Step` of the old table. |
| Crawler.BatchStepCreatesOnlyAbsent | Study/internal/service/leetcode_crawler.go:487-515 | A slug either changes nothing or appends exactly its crawled problem. In the second case, when the lookup worked, no leetcode row had its `SourceId`. A slug whose `SourceId` a leetcode row already has changes nothing. |
| Crawler.LeetCodeCrawler.BatchCrawlProblems | Study/internal/service/leetcode_crawler.go:481-523 | The loop leaves exactly `BatchRun` of the old table over every slug. |
| Crawler.LeetCodeCrawler.CrawlAndSaveSlug | Study/internal/service/leetcode_crawler.go:487-515 | One iteration leaves exactly `BatchStep` of the old table. |
| Crawler.SlugsInRangeConcat | Study/internal/service/leetcode_crawler.go:658-669 | The selection keeps question order: the slugs of a concatenation are the slugs of its parts, one after the other. |
| Crawler.SlugsInRangeMembers | Study/internal/service/leetcode_crawler.go:658-669 | A slug is listed exactly when some question has it as a string `titleSlug` and a string `frontendQuestionId` that parses to a number in [start, end]. |
| Crawler.LeetCodeCrawler.GetProblemsInRange | Study/internal/service/leetcode_crawler.go:643-676 | A failed request is an error. A JSON `null` gives no slugs. Any other non-object is a decoding error. An object gives the selected slugs of `data.problemsetQuestionList.questions`, in order. |
| Crawler.CleanedHasNoEdgeSpace | Study/internal/service/leetcode_crawler.go:586-603 | The crawler's cleaned text never starts or ends with white space. |
| Crawler.CleanPlainText | Study/internal/service/leetcode_crawler.go:586-603 | Text without `<`, `&` or RE2 space comes out only trimmed. |
| Crawler.EscapedAmpersandDecodedOnce | Study/internal/service/leetcode_crawler.go:596-600 | Each entity is decoded once and in order. `&amp;` followed by text that has no `&` and does not start with `q` becomes `&` and that text, so `&amp;lt;` stays `&lt;`. |
| ProblemDao.Where | Study/internal/repository/dao/coding_problem.go:166-182 | A WHERE lists exactly the matching rows, no more of them than the table has, in key order. |
| ProblemDao.First | Study/internal/repository/dao/coding_problem.go:160-164 | `First` finds nothing exactly when no row matches. Otherwise it finds a matching row of least key. |
| ProblemDao.FindRow | Study/internal/repository/dao/coding_problem.go:304-309 | A row is found by key exactly when one has that key. |
| ProblemDao.InsertByKey | Study/internal/repository/dao/coding_problem.go:143-152 | An explicit new key is placed in key order. The result is the old rows plus that one row, as a multiset. |
| ProblemDao.CreateProblem | Study/internal/repository/dao/coding_problem.go:151 | `Create` keeps keys unique and below the counter. |
| ProblemDao.InsertSpec | Study/internal/repository/dao/coding_problem.go:143-152 | `Insert` keeps keys unique and below the counter. |
| DailyFacts.InsertFillsTimes | Study/internal/repository/dao/coding_problem.go:143-152 | A row without a key is appended under the next key, keeping its title, source id and tags. A zero `Ctime` or `Utime` becomes now, and a non-zero one is kept. |
| DailyFacts.InsertErrors | Study/internal/repository/dao/coding_problem.go:151 | `Insert` fails exactly when the database is down or an explicit key is taken, and a failed insert changes nothing. |
| ProblemDao.ReplaceById | Study/internal/repository/dao/coding_problem.go:184-187 | Exactly the rows with the problem's key are replaced, and the others are kept in place. |
| ProblemDao.LookupFindsStored | Study/internal/repository/dao/coding_problem.go:172-176 | The lookup by `SourceId` finds rows exactly when some row has it. |
| ProblemDao.StudyStatusRows | Study/internal/repository/dao/coding_problem.go:335-344 | Only the row with that key is rewritten. |
| DailyFacts.StudyStatusTouchesOnlyItsColumns | Study/internal/repository/dao/coding_problem.go:335-344 | `UpdateStudyStatus` writes the status and `utime` of the matching row, and `last_studied` only when one is given. No other column and no other row changes. |
| ProblemDao.ClearDailyFlags | Study/internal/repository/dao/coding_problem.go:287-293 | Every row loses its daily flag and date, and nothing else changes. |
| ProblemDao.FlagRow | Study/internal/repository/dao/coding_problem.go:296-302 | Only the row with that key gets the flag and the date. |
| ProblemDao.WithoutDate | Study/internal/repository/dao/coding_problem.go:325-329 | Exactly the history rows of other dates remain. |
| ProblemDao.WithoutDateKeepsOrder | Study/internal/repository/dao/coding_problem.go:325-329 | Deleting one date's rows keeps keys ordered and dates unique. |
| ProblemDao.FindDaily | Study/internal/repository/dao/coding_problem.go:360-362 | The history lookup by date finds nothing exactly when no row has that date. |
| ProblemDao.CreateDaily | Study/internal/repository/dao/coding_problem.go:331-332 | A history row is created under the next key exactly when its date is new. Otherwise the unique index refuses it and nothing changes. The coding table is never touched. |
| ProblemDao.MarkSpec | Study/internal/repository/dao/coding_problem.go:285-333 | The five statements, stopping at the first error, keep keys unique and one history row per date. |
| ProblemDao.CodingProblemTable.MarkAsDailyProblem | Study/internal/repository/dao/coding_problem.go:285-333 | The new tables and the error are exactly `MarkSpec` of the old tables. |
| ProblemDao.CodingProblemTable.MarkHistoryRows | Study/internal/repository/dao/coding_problem.go:304-332 | Statements three to five leave exactly `MarkHistory` of the flagged tables. |
| DailyFacts.MarkSuccess | Study/internal/repository/dao/coding_problem.go:285-333 | A successful marking ran every statement. The target exists, the flags are rewritten, and the snapshot went in under the next history key after the day's rows were deleted. |
| DailyFacts.MarkSucceedsOnExisting | Study/internal/repository/dao/coding_problem.go:325-332 | With no failing statement, marking an existing key succeeds, because the day's old rows are deleted before the insert. |
| DailyFacts.MarkLeavesOneDailyRow | Study/internal/repository/dao/coding_problem.go:287-301 | After a successful marking the target is the only daily row and its date is the given instant. Every other row that was flagged has lost both its flag and its date. |
| DailyFacts.MarkTouchesOnlyDailyColumns | Study/internal/repository/dao/coding_problem.go:287-299 | Whichever statement fails, only `is_daily_problem` and `daily_date` of coding rows change. Rows that were neither flagged nor the target are kept whole. |
| DailyFacts.MarkRecordsHistory | Study/internal/repository/dao/coding_problem.go:312-332 | After success there is exactly one history row for the day. It copies the target's title, difficulty, tags, source, source id and link, names the target, and is stamped with the date. Other days are unchanged. |
| DailyFacts.MarkMissingProblem | Study/internal/repository/dao/coding_problem.go:285-309 | Marking a missing key clears every flag and then fails with RecordNotFound. The flags stay cleared and the history is untouched. |
| DailyFacts.MarkProblemsAfterFlags | Study/internal/repository/dao/coding_problem.go:285-333 | Once the first two statements have run, the coding table stays in its flagged state whatever happens to the history. |
| DailyFacts.HistoryKeepsProblems | Study/internal/repository/dao/coding_problem.go:304-332 | The history statements never touch the coding table. |
| ProblemDao.SaveDailySpec | Study/internal/repository/dao/coding_problem.go:346-374 | The date upsert keeps keys unique and one row per date. |
| ProblemDao.CodingProblemTable.SaveDailyProblem | Study/internal/repository/dao/coding_problem.go:346-374 | The new tables and the error are exactly `SaveDailySpec` of the old tables. |
| DailyFacts.SaveDailyReplaces | Study/internal/repository/dao/coding_problem.go:360-367 | For a date that has a row, the row is overwritten with the record and keeps its key. Other days are untouched and the history keeps its length. |
| DailyFacts.SaveDailyCreates | Study/internal/repository/dao/coding_problem.go:368-371 | For a new date, one row is created under the next key. Other days are untouched. |
| ProblemDao.GetDailySpec | Study/internal/repository/dao/coding_problem.go:194-235 | The choice of the daily problem, including the marking it may do, keeps the table's invariants. |
| ProblemDao.CodingProblemTable.GetDailyProblem | Study/internal/repository/dao/coding_problem.go:194-235 | The new tables and the result are exactly `GetDailySpec` of the old tables. |
| DailyFacts.GetDailyPrefersFlagged | Study/internal/repository/dao/coding_problem.go:198-203 | Priority 1: a row flagged for today is returned, and nothing changes. |
| DailyFacts.GetDailyFallsBackToHistory | Study/internal/repository/dao/coding_problem.go:210-219 | Priority 2: with no row flagged for today, the problem named by today's history row is returned, and nothing changes. |
| DailyFacts.GetDailyPicksAndMarks | Study/internal/repository/dao/coding_problem.go:221-234 | Priority 3: the picked row is marked daily as of now and returned as it was read. An empty table is RecordNotFound, with nothing changed. |
| ProblemDao.CodingProblemTable.SetDailyProblem | Study/internal/repository/dao/coding_problem.go:237-239 | The result is the marking as of now. |
| ProblemDao.ParseDateTime | Study/internal/repository/dao/coding_problem.go:272-283 | `parseDate` gives nil for "" and for text the layout rejects, and otherwise midnight UTC of the date. |
| ProblemDao.SortByDateDesc | Study/internal/repository/dao/coding_problem.go:244 | The history is ordered newest date first, with the same rows as a multiset. |
| DailyFacts.HistoryOrder | Study/internal/repository/dao/coding_problem.go:244 | The history listing drops no row and is ordered newest date first. |
| ProblemDao.CodingProblemTable.GetDailyProblemHistory | Study/internal/repository/dao/coding_problem.go:241-269 | The result has one problem per history row, newest date first, and fails only when the database is down. |
| DailyFacts.HistoryReadsBackMarkedDay | Study/internal/repository/dao/coding_problem.go:252-264 | A history row written by the marking reads back with the problem's key as `Id`, the daily flag, and midnight UTC of the recorded day. |
| ProblemDao.CodingProblemTable.Insert | Study/internal/repository/dao/coding_problem.go:143-152 | The new table and the error are exactly `InsertSpec` of the old table. |
| ProblemDao.CodingProblemTable.FindAll | Study/internal/repository/dao/coding_problem.go:154-158 | All rows in key order, unless the database is down. |
| ProblemDao.CodingProblemTable.FindById | Study/internal/repository/dao/coding_problem.go:160-164 | The row with that key. When the database works, RecordNotFound exactly when there is none. |
| ProblemDao.CodingProblemTable.FindBySource | Study/internal/repository/dao/coding_problem.go:166-170 | Exactly the rows of that source, in key order. Values are compared as exact strings (see "## Left out"). |
| ProblemDao.CodingProblemTable.FindBySourceId | Study/internal/repository/dao/coding_problem.go:172-176 | Exactly the rows with that `SourceId`, in key order. |
| ProblemDao.CodingProblemTable.FindByDifficulty | Study/internal/repository/dao/coding_problem.go:178-182 | Exactly the rows of that difficulty, in key order. Values are compared as exact strings (see "## Left out"). |
| ProblemDao.CodingProblemTable.UpdateById | Study/internal/repository/dao/coding_problem.go:184-187 | The new table and the error are exactly `UpdateSpec` of the old table. |
| ProblemDao.CodingProblemTable.DeleteById | Study/internal/repository/dao/coding_problem.go:189-191 | The new table and the error are exactly `DeleteSpec` of the old table. |
| ProblemDao.CodingProblemTable.UpdateStudyStatus | Study/internal/repository/dao/coding_problem.go:335-344 | The new table and the error are exactly `UpdateStudyStatusSpec` of the old table. |
| ProblemRepository.DomainOfEntity | Study/internal/repository/coding_problem.go:146-183 | `toDomain(toEntity(p)) == p`. |
| ProblemRepository.EntityOfDomain | Study/internal/repository/coding_problem.go:146-183 | `toEntity(toDomain(e)) == e`. |
| ProblemRepository.EntityInjective | Study/internal/repository/coding_problem.go:146-163 | Two problems are stored alike only when they are equal. |
| ProblemRepository.MapToDomain | Study/internal/repository/coding_problem.go:45-48 | There is one converted problem per row, in row order. |
| ProblemRepository.MapToDomainRoundTrip | Study/internal/repository/coding_problem.go:40-94 | Converting a list back restores the rows. |
| ProblemRepository.LiftRows | Study/internal/repository/coding_problem.go:41-44 | A DAO error is returned with a nil list. A result is converted one for one. |
| ProblemRepository.LiftDaily | Study/internal/repository/coding_problem.go:104-114 | An error gives `(nil, err)`, a nil problem gives `(nil, nil)`, and a problem is converted. |
| ProblemRepository.CodingProblemRepository.Create | Study/internal/repository/coding_problem.go:36-38 | The DAO is handed exactly `toEntity(problem)`. |
| ProblemRepository.CodingProblemRepository.Update | Study/internal/repository/coding_problem.go:96-98 | The DAO is handed exactly `toEntity(problem)`. |
| ProblemRepository.CodingProblemRepository.FindAll | Study/internal/repository/coding_problem.go:40-50 | The rows converted one for one in order, or the DAO's error. |
| ProblemRepository.CodingProblemRepository.FindById | Study/internal/repository/coding_problem.go:52-58 | The converted row with that key, or the DAO's error. |
| ProblemRepository.CodingProblemRepository.FindBySource | Study/internal/repository/coding_problem.go:60-70 | The rows of that source, converted one for one in order. |
| ProblemRepository.CodingProblemRepository.FindBySourceId | Study/internal/repository/coding_problem.go:72-82 | The rows with that `SourceId`, converted one for one in order. |
| ProblemRepository.CodingProblemRepository.FindByDifficulty | Study/internal/repository/coding_problem.go:84-94 | The rows of that difficulty, converted one for one in order. |
| ProblemRepository.CodingProblemRepository.GetDailyProblem | Study/internal/repository/coding_problem.go:104-114 | The DAO's choice, converted. The result is never `(nil, nil)`, because the DAO never answers nil without an error. |
| ProblemRepository.CodingProblemRepository.GetDailyProblemHistory | Study/internal/repository/coding_problem.go:120-131 | The history, newest first, converted one for one. |
| ProblemRepository.CodingProblemRepository.MarkAsDailyProblem | Study/internal/repository/coding_problem.go:133-135 | The result is exactly the DAO's marking. |
| Hot100Seed.SeedListWellFormed | Study/config/hot100.go:21-125 | The 103 seed IDs are pairwise distinct, and every difficulty is `Easy`, `Medium` or `Hard`. |
| Hot100Seed.SeedListAscending | Study/config/hot100.go:21-125 | The seed IDs ascend numerically in list order. |
| Hot100Seed.AscendingDistinct | Study/config/hot100.go:21-125 | Ascending IDs are pairwise distinct. |
| Hot100Seed.SeedStepEffect | Study/config/hot100.go:134-162 | An entry is skipped exactly when the lookup succeeds and its `SourceId` is stored. It fails exactly when the create fails after a failed or empty lookup. A skipped or failed entry changes nothing, and an inserted one is appended under the next key. |
| Hot100Seed.SeedInsertedRow | Study/config/hot100.go:143-156 | An inserted row has tags `["Hot 100","算法"]`, source leetcode, the entry's ID as `SourceId`, its title, difficulty and link, status `not_started`, the Hot 100 flag, and both times equal to now. |
| Hot100Seed.SeedRunCounts | Study/config/hot100.go:131-162 | `successCount + skipCount + failures` equals the number of entries. The table grows by one row per success, and only a failing create makes a failure. |
| Hot100Seed.SeedRunKeepsStored | Study/config/hot100.go:134-162 | Rows are only ever added, so a stored `SourceId` stays stored. |
| Hot100Seed.SeedRunStoresAll | Study/config/hot100.go:134-162 | With a store that never fails, every entry's `SourceId` is stored after the run. |
| Hot100Seed.SeedRunSkipsStored | Study/config/hot100.go:136-140 | When every `SourceId` is stored and no lookup fails, everything is skipped and the table is unchanged. |
| Hot100Seed.SeedRunIdempotent | Study/config/hot100.go:136-162 | A second run against a store that never fails inserts nothing and skips every entry. |
| Hot100Seed.SeedRunInsertsAllNew | Study/config/hot100.go:134-162 | On a table holding none of the IDs, a fault-free run over distinct IDs inserts every entry. |
| Hot100Seed.SeedOnFreshTable | Study/config/hot100.go:128-171 | On a table holding none of the seed IDs, a fault-free run inserts all 103 problems. |
| Hot100Seed.InsertHot100Problems | Study/config/hot100.go:128-171 | The new table and both counters are exactly `SeedRun` of the old table over the seed list. |
| Hot100Seed.InsertAll | Study/config/hot100.go:131-168 | The same for the loop over any list of entries. |
| Hot100Seed.InsertHot100Problem | Study/config/hot100.go:136-162 | One iteration gives the new table and the outcome of `SeedStep`. |
| QuestionDao.Where | Study/internal/repository/dao/question.go:38-42 | A WHERE lists exactly the matching rows, in key order. |
| QuestionDao.InsertByKey | Study/internal/repository/dao/question.go:34 | An explicit new key is placed in key order, and the result is the old rows plus that row. |
| QuestionDao.InsertSpec | Study/internal/repository/dao/question.go:30-36 | `Insert` keeps keys unique and below the counter. |
| QuestionDao.InsertStamps | Study/internal/repository/dao/question.go:30-36 | `Insert` adds exactly one row, stamped with the current Unix second in both timestamps whatever the caller supplied, and keeps every other row. |
| QuestionDao.UpdateRows | Study/internal/repository/dao/question.go:50-55 | Only rows with the question's key are rewritten. |
| QuestionDao.UpdateWritesNonZeroFields | Study/internal/repository/dao/question.go:50-55 | Only the row with the key changes. Its mastery level, count and content are kept wherever the update gives zero, a non-zero level is written, and `utime` becomes the current second. A mastery level, count or text can never be set back to zero this way. |
| QuestionDao.MasteryRows | Study/internal/repository/dao/question.go:57-66 | Only the row with that key gets the new level and `utime`. |
| QuestionDao.MasteryTouchesOnlyItsColumns | Study/internal/repository/dao/question.go:57-66 | `UpdateMasteryLevel` changes `mastery_level` and `utime` of that row and nothing else. |
| QuestionDao.DeleteByIdExact | Study/internal/repository/dao/question.go:68-71 | Exactly the rows with that key are removed. |
| QuestionDao.DeleteByCategoryExact | Study/internal/repository/dao/question.go:73-76 | Exactly the rows of that category are removed. Values are compared as exact strings (see "## Left out"). |
| QuestionDao.FailedStatementsChangeNothing | Study/internal/repository/dao/question.go:30-76 | A failed statement leaves the table as it was. |
| QuestionDao.Categories | Study/internal/repository/dao/question.go:78-82 | Each category of the table is listed once, and nothing else is listed. Values are compared as exact strings (see "## Left out"). |
| QuestionDao.CountLevel | Study/internal/repository/dao/question.go:97-99 | A level count is at most the number of rows. |
| QuestionDao.LevelCountsSum | Study/internal/repository/dao/question.go:84-106 | The three level counts add up to at most `total`, and to exactly `total` when and only when every level is 0, 1 or 2. |
| QuestionDao.QuestionTable.Insert | Study/internal/repository/dao/question.go:30-36 | The new table and the error are exactly `InsertSpec` of the old table. |
| QuestionDao.QuestionTable.FindByCategory | Study/internal/repository/dao/question.go:38-42 | Exactly the rows of that category, in key order. Values are compared as exact strings (see "## Left out"). |
| QuestionDao.QuestionTable.FindAll | Study/internal/repository/dao/question.go:44-48 | All rows, unless the database is down. |
| QuestionDao.QuestionTable.UpdateById | Study/internal/repository/dao/question.go:50-55 | The new table and the error are exactly `UpdateSpec` of the old table. |
| QuestionDao.QuestionTable.UpdateMasteryLevel | Study/internal/repository/dao/question.go:57-66 | The new table and the error are exactly `MasterySpec` of the old table. |
| QuestionDao.QuestionTable.DeleteById | Study/internal/repository/dao/question.go:68-71 | The new table and the error are exactly `DeleteByIdSpec` of the old table. |
| QuestionDao.QuestionTable.DeleteByCategory | Study/internal/repository/dao/question.go:73-76 | The new table and the error are exactly `DeleteByCategorySpec` of the old table. Values are compared as exact strings (see "## Left out"). |
| QuestionDao.QuestionTable.FindAllCategories | Study/internal/repository/dao/question.go:78-82 | The distinct categories of the table, each once. Values are compared as exact strings (see "## Left out"). |
| QuestionDao.QuestionTable.GetMasteryStats | Study/internal/repository/dao/question.go:84-106 | The result fails only when the total count fails. It has exactly the four keys, `total` is the number of rows, and each level count is that level's count, or 0 when its ignored statement fails. |
| QuestionRepository.DomainOfEntity | Study/internal/repository/question.go:83-105 | `toDomain(toEntity(q)) == q` exactly when neither time has a sub-millisecond part. |
| QuestionRepository.EntityOfDomain | Study/internal/repository/question.go:83-105 | `toEntity(toDomain(e))` is `e` with `Count` reset to 0. |
| QuestionRepository.PlainFieldsCopied | Study/internal/repository/question.go:83-105 | `Id`, `Category`, `Content`, `Answer` and `MasteryLevel` are copied unchanged both ways. |
| QuestionRepository.SecondsReadAsMillis | Study/internal/repository/question.go:90-91 | A row the DAO stamped with Unix seconds `s` reads back as `s` milliseconds after the epoch. That is earlier than the stamping instant once a second has passed since the epoch. |
| QuestionRepository.InsertedQuestionReadsBack | Study/internal/repository/question.go:33-35 | An inserted question lists back with the insertion second read as milliseconds, not the times the caller gave. |
| QuestionRepository.MapToDomain | Study/internal/repository/question.go:42-44 | There is one converted question per row, in row order. |
| QuestionRepository.LiftRows | Study/internal/repository/question.go:38-45 | A DAO error gives nil and the same error. A result is converted one for one. |
| QuestionRepository.QuestionRepo.Insert | Study/internal/repository/question.go:33-35 | The DAO is handed exactly `toEntity(quest)`. |
| QuestionRepository.QuestionRepo.FindByCategory | Study/internal/repository/question.go:37-46 | The rows of that category, converted one for one in order, or the DAO's error. |
| QuestionRepository.QuestionRepo.FindAll | Study/internal/repository/question.go:48-57 | All rows converted one for one in order, or the DAO's error. |
| QuestionRepository.QuestionRepo.UpdateById | Study/internal/repository/question.go:59-61 | The DAO is handed `toEntity(quest)`, whose `Count` of 0 is never written. |
| QuestionRepository.QuestionRepo.UpdateMasteryLevel | Study/internal/repository/question.go:63-65 | The result is exactly the DAO's update. |
| QuestionRepository.QuestionRepo.DeleteById | Study/internal/repository/question.go:67-69 | The result is exactly the DAO's delete. |
| QuestionRepository.QuestionRepo.DeleteByCategory | Study/internal/repository/question.go:71-73 | The result is exactly the DAO's delete. |
| Web.PageParam | Study/internal/web/coding_problem.go:44-51 | `page` is 1 unless the parameter parses to a positive integer, which then replaces it. |
| Web.LimitParam | Study/internal/web/coding_problem.go:45-57 | `limit` is 50 unless the parameter parses to an integer in 1..100, which then replaces it. |
| Web.PageBounds | Study/internal/web/coding_problem.go:66-84 | A page never holds more than `limit` items, and it is empty when its start is past the end. |
| Web.PagesAdjoin | Study/internal/web/coding_problem.go:66-84 | Page n + 1 starts where a full page n ends. |
| Web.SliceIsPage | Study/internal/web/coding_problem.go:80-84 | The slice `problems[start:min(start+limit, total)]` is the page. |
| Web.CodingProblemHandler.GetAllProblems | Study/internal/web/coding_problem.go:42-92 | A store failure is 500. Otherwise the reply echoes the parsed `page` and `limit`, `total` is the number of problems, and the problems are that page of the catalog. |
| Web.PagedAsWrittenWithoutOverflow | Study/internal/web/coding_problem.go:66-91 | While `page*limit` fits in int64, the paging as written gives exactly that page. |
| Web.PagedAsWrittenPanics | Study/internal/web/coding_problem.go:67-84 | With page = MaxInt64 and limit = 100 the start wraps to -200, the slice panics and the reply is 500. |
| Web.LargestPageAccepted | Study/internal/web/coding_problem.go:47-57 | `page=9223372036854775807&limit=100` passes the parameter checks unchanged. |
| Web.PagedAsWrittenRepeatsFirstPage | Study/internal/web/coding_problem.go:67-84 | Page 2^62+1 with limit 4 wraps the start to 0 and answers the first page, where the intended page is empty. |
| Web.CodingProblemHandler.GetProblemById | Study/internal/web/coding_problem.go:94-109 | A malformed id is 400 before any store call. Any store error, a missing row included, is 500. A 200 reply carries the converted row with that id. |
| Web.CodingProblemHandler.UpdateStudyStatus | Study/internal/web/coding_problem.go:150-200 | 400 exactly for a malformed id, a body that does not bind, or a status other than `not_started`, `in_progress`, `completed`, and then nothing changes. A failed lookup is 500 with nothing changed. Otherwise the re-read problem is saved with its new status. |
| Web.StudyStatusSaveEffect | Study/internal/web/coding_problem.go:186-193 | The save changes only that row's study status, `utime`, and `LastStudied`, which becomes now exactly when the status is not `not_started` and is otherwise left unchanged. |
| Web.CodingProblemHandler.GetRandomProblem | Study/internal/web/coding_problem.go:217-234 | A store failure is 500 and an empty catalog is 404. For a non-negative clock the reply is the problem at `UnixNano mod n`. Any 200 reply is a problem of the catalog. |
| Web.CountDifficulty | Study/internal/web/coding_problem.go:257-264 | A difficulty count is at most the number of problems. |
| Web.DifficultyCountsBounded | Study/internal/web/coding_problem.go:255-264 | `easy + medium + hard <= total`. |
| Web.DifficultyNamesDistinct | Study/internal/web/coding_problem.go:257-264 | The switch counts each problem at most once. |
| Web.Bump | Study/internal/web/coding_problem.go:267-270 | `m[k]++` adds key k counting from 0 and leaves every other key. |
| Web.StatsTotals | Study/internal/web/coding_problem.go:248-271 | The `by_source` counts sum to `total`, the `by_status` counts sum to `total`, and `by_status` always holds the three statuses. |
| Web.TallyTotal | Study/internal/web/coding_problem.go:255-271 | Each counted key adds one to the sum of a map's counts. |
| Web.CodingProblemHandler.GetStats | Study/internal/web/coding_problem.go:237-288 | A store failure is 500. Otherwise `total`, `easy`, `medium` and `hard` are the counts of the catalog, `by_difficulty` mirrors the three counts, and `by_source` and `by_status` are the tallies of sources and statuses, the latter starting from the three statuses at 0. |
| Web.CodingProblemHandler.GetDailyProblem | Study/internal/web/coding_problem.go:137-148 | A DAO error is 500, and a problem is 200 with the converted problem. 404 never happens. |
| Scheduler.DifficultyTranslations | Study/internal/service/scheduler.go:60-71 | The result is 简单, 中等 or 困难 exactly when the lower-case input is easy, medium or hard (or the input already was that name). Any other input is returned unchanged. |
| Scheduler.DifficultyIgnoresCase | Study/internal/service/scheduler.go:61 | Two spellings with the same lower-case form translate alike or are both kept. |
| Scheduler.ChineseNamesKept | Study/internal/service/scheduler.go:60-71 | The Chinese names are kept. |
| Scheduler.DifficultyIdempotent | Study/internal/service/scheduler.go:60-71 | Translating twice is translating once. |
| Scheduler.CleanHtmlShape | Study/internal/service/scheduler.go:86-91 | After the tag stripping no `<` is followed by a `>`, and the result has no white space at either end. |
| Scheduler.CleanHtmlPlainText | Study/internal/service/scheduler.go:74-94 | Text without tags or line breaks is only trimmed. |
| Scheduler.StrongBecomesEmphasis | Study/internal/service/scheduler.go:76-87 | `<strong>w</strong>` becomes `**w**` before the generic stripping could remove it. |
| Scheduler.NextMidnightDelay | Study/internal/service/scheduler.go:34-36 | The sleep is positive and at most 24 hours, and it ends at a local midnight. |
| Scheduler.ScheduleRounds | Study/internal/service/scheduler.go:33-46 | Every round sleeps until the next local midnight before it fetches, the first round included. |
| Html.IndexOf | Study/internal/service/scheduler.go:86-87 | The result is the first occurrence of the rune, or -1 exactly when there is none. |
| Html.StripTagsLeavesNoTag | Study/internal/service/scheduler.go:86-87 | After `<[^>]*>` is removed, no `<` is followed anywhere later by `>`. |
| Html.StripTagsWithoutOpen | Study/internal/service/scheduler.go:86-87 | Text without `<` passes the stripping unchanged. |
| Html.StripTagsRemovesOnly | Study/internal/service/leetcode_crawler.go:588-589 | The stripping only removes characters. |
| Html.CollapseSpacesSingle | Study/internal/service/leetcode_crawler.go:592-593 | After `\s+` becomes one blank, no RE2 space other than the blank remains and no two blanks are adjacent. |
| Html.CollapseWithoutNewline | Study/internal/service/scheduler.go:90 | Text without a newline passes `\n\s*\n` unchanged. |
| Text.ParseInt | Study/internal/web/coding_problem.go:48 | An accepted number fits in int64 and comes from non-empty text. |
| Text.ParseIntOfDecimal | Study/internal/web/coding_problem.go:96 | Any int64 written in decimal parses back to itself. |
| Text.ParseIntRejectsBareSign | Study/internal/web/coding_problem.go:48 | "", "-" and "+" are rejected. |
| Text.ReplaceAllAbsent | Study/internal/service/scheduler.go:76-83 | A text without the pattern's first rune is left as it is. |
| Text.TrimSpaceSlice | Study/internal/service/scheduler.go:91 | `TrimSpace` removes only white space from the two ends. |
| Text.TrimSpaceEdges | Study/internal/service/leetcode_crawler.go:602 | `TrimSpace` leaves no white space at either end. |
| Text.ToLower | Study/internal/service/scheduler.go:61 | The result has the same length and lowers each rune by `LowerRune`: `A`-`Z` become `a`-`z`, U+0130 becomes `i`, U+212A becomes `k`, and every other rune is kept. These are exactly the runes that `unicode.ToLower` maps to an ASCII letter. So the two agree wherever the result is compared with an ASCII word, which is the only use here, in `convertDifficultyToChinese`. |
| Times.UnixSeconds | Study/internal/repository/dao/question.go:32-33 | `Unix()` is the whole second at or before the instant. |
| Times.UnixMilli | Study/internal/repository/question.go:102-103 | `UnixMilli()` is the whole millisecond at or before the instant. |
| Times.FromUnixMilliOfUnixMilli | Study/internal/repository/question.go:90-103 | Reading back the millisecond count gives the instant exactly when the instant has no sub-millisecond part. |
| Times.DaysFromCivilFromDays | Study/internal/repository/dao/coding_problem.go:313 | Every day number has a valid calendar date, which maps back to that number. |
| Times.CivilFromDaysFromCivil | Study/internal/repository/dao/coding_problem.go:313 | Every valid date maps to a day number, which maps back to that date. |
| Times.FormatDate | Study/internal/repository/dao/coding_problem.go:313 | A date of a four-digit year formats to ten characters. |
| Times.ParseDate | Study/internal/repository/dao/coding_problem.go:277 | An accepted text is a valid date of a four-digit year. |
| Times.ParseFormatDate | Study/internal/repository/dao/coding_problem.go:272-283 | Parsing a formatted date of a four-digit year recovers that date. |
| Times.FormatParseDate | Study/internal/repository/dao/coding_problem.go:277 | Whatever the parser accepts is exactly the formatted form of what it returns. |

## Left out

- Network and decoding. The HTTP transport, the GraphQL requests (`makeGraphQLRequest`) and `encoding/json` are not modelled. Decoded answers enter as parameters: the "today" list, a map from slug to decoded question, and a decoded `interface{}` value.
- `StringSlice` JSON encoding is not modelled. Tags are stored as a sequence of strings.
- The crawler's own Hot 100 list (`GetHot100Problems`) and its copy of the list are not modelled. That copy differs from the seed list in `Study/config/hot100.go`. `CrawlAndSaveHot100Problems` is modelled over any list given to it.
- Time loops and concurrency are not modelled: the `StartDailyCrawler` ticker loop, the goroutines and the `time.Sleep` calls between crawls. `ScheduleRounds` covers the delay arithmetic of `scheduleTask` for any sequence of clock readings, not the endless loop itself.
- The real clock and time zones are not modelled. Every `time.Now()` of one pass is the instant `now`, and the local zone is a fixed offset in seconds. Daylight saving time and zone rules are not modelled.
- Scheduler.NextMidnightDelay: it does not model days that daylight-saving transitions make shorter or longer than 24 hours, because the zone is a fixed offset.
- Times.Sub: it does not saturate at the int64 range of Go's `Duration`, because every difference that arises here fits.
- `ORDER BY RAND()` is a chosen index `pick` into the table.
- GORM `Updates(&struct)` on coding problems replaces the row with the matching key. A zero-valued field would be skipped by GORM but is written here. On questions, the zero-field rule of `Updates` is modelled.
- String comparison in SQL is modelled as exact string equality: `source = ?`, `difficulty = ?`, `source_id = ?`, `category = ?` and `DISTINCT category`. The connection string at `Study/ioc/db.go:36` names no collation. It sets only `charset=utf8mb4`, `parseTime` and `loc`, so MySQL's default collation for utf8mb4 applies. That collation ignores case and accents, so `difficulty = 'easy'` also matches the rows of `Easy`. A faithful model would need the collation's own comparison tables, which are not part of this model. The members below keep exact equality for this reason.
- ProblemDao.CodingProblemTable.FindBySource: lists only the rows whose source equals the argument exactly. The database also returns rows whose source differs from it only in case or accents.
- ProblemDao.CodingProblemTable.FindByDifficulty: lists only the rows whose difficulty equals the argument exactly. The database also returns rows that differ only in case or accents, so `easy` matches `Easy`.
- QuestionDao.QuestionTable.FindByCategory: lists only exact matches of the category. The database also returns rows that differ only in case or accents.
- QuestionDao.QuestionTable.DeleteByCategory: deletes only exact matches of the category. The database also deletes rows that differ only in case or accents, so deleting `go` also removes the `Go` questions.
- QuestionDao.DeleteByCategoryExact: states the exact-match deletion described in the line above, and does not promise the case-insensitive one.
- QuestionDao.QuestionTable.FindAllCategories: lists `Go` and `go` as two categories. `DISTINCT` under the default collation lists one of them.
- QuestionDao.Categories: the same exact-match distinctness as `FindAllCategories`.
- Text.ToLower: runes other than `A`-`Z`, U+0130 and U+212A are kept, whereas `unicode.ToLower` also lowers other non-ASCII letters (`É` becomes `é`). No caller compares the result with anything other than an ASCII word.
- SQL `DATE(daily_date) = ?` is the local calendar date of the stored instant in the same fixed zone.
- Errors other than "record not found", "duplicate key" and a generic failure are not distinguished.
- Store failures are parameters, not faults that happen on their own: a flag, the index of the failing statement, or the set of failing loop iterations.
- Hot100Seed.InsertAll: it keeps a tally of failed entries beside the source's two counters. The source only logs the failures. The tally exists so that the three counts can be proved to add up.
- The progress logging of every loop is not modelled.
- The duplicate type declarations of `Study/internal/repository/dao/init.go` are modelled once, from `Study/internal/repository/dao/coding_problem.go`.
- Pure delegation is not modelled separately: the services, the wiring and the connection setup. The handlers call the repository directly. The repository's `Delete`, `SetDailyProblem`, `UpdateStudyStatus` and `SaveDailyProblem`, and the question repository's `FindAllCategories` and `GetMasteryStats`, only forward to the DAO members that are modelled.
- The by-source, by-difficulty and daily-history handlers, the Hot 100 crawl handler and the question handlers are not modelled. They only forward to the service and serialise the result.
- gin's JSON request binding is not modelled. A request body enters as its bound value, or nothing when binding fails.
- The frontend is not part of this model.
- The scheduler's `cleanHTMLContent`, `convertDifficultyToChinese` and the crawler's `cleanHTMLContent` have no callers in the source. They are modelled as the functions they define.
- The program's startup fetch is not modelled. `Study/main.go:58` fetches the daily problem once at startup. `StartDailyCrawler` fetches once more before its ticker starts (`Study/internal/service/leetcode_crawler.go:686-689`), and that ticker is left out above.
- Nothing constructs the `Scheduler` of `Study/internal/service/scheduler.go`, because `NewScheduler` has no caller. Its `scheduleTask` waits until the next midnight before its first fetch, and `ScheduleRounds` models it as written.

## Findings

| source | as written | input that shows it | evidently intended | confidence | as-written member | corrected member |
|---|---|---|---|---|---|---|
| Study/internal/web/coding_problem.go:66-84 | `start := (page-1)*limit` and `end := start+limit` are computed in 64-bit `int`, and `page` is any positive `int` that `strconv.Atoi` accepts | `GET /api/coding/problems?page=9223372036854775807&limit=100` on a non-empty catalog: `start` wraps to -200 and `problems[start:end]` panics, so the recovery middleware answers 500; `page=4611686018427387905&limit=4` wraps `start` to 0 and returns the first page again | a page past the end is an empty page with status 200, as the `start >= total` branch intends | not executed | Web.PagedAsWrittenPanics | Web.CodingProblemHandler.GetAllProblems |
