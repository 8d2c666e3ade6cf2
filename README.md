# OMI ECG learning platform — a verified model of its core

The OMI ECG learning platform teaches emergency staff to recognise occlusion myocardial infarction (OMI)
on ECGs. Learners read published teaching cases and papers, take five-question quizzes and earn points.
Admins curate the content, watch aggregate activity, and link every learner's activity to the clinical
events they later attended for a research export.

This project models the deterministic core of that system in Dafny and proves properties about it:

- **The document store.** Firestore collections of documents and write batches that stage `set`/`merge`
  with `increment` and `arrayUnion` field transforms, and `delete`; a batch is applied in order and all at
  once by `commit`.
- **The record types of the schema.** Their stored names and encodings, with round trips.
- **The server actions.**
  - submitting a quiz (points formula, counters, the `finish_quiz` event);
  - logging a view (first-read award);
  - importing clinical data (per-row validation with a 400-row cap);
  - the exposure-linkage research export (chunked fan-out, nested 7/14/30-day windows, last-login
    recency, CSV);
  - the admin user statistics and daily charts;
  - the JSON export sanitiser;
  - the deletions of content and of users.
- **The identity helpers and the auth provider.** The id-to-email mapping, the admin list, and the
  provider's once-per-session login event.
- **The client-side rules.**
  - the quiz runner (Fisher–Yates shuffle in place, confirm/next, the saved payload);
  - the comment reaction toggle;
  - case-form validation and choice edits;
  - the case and paper status transitions;
  - the admin dashboard counters and trouble spots;
  - the sidebar's rank and unread counts;
  - the leaderboard's filter and sort;
  - the public case and literature libraries;
  - parsing the tags of a new paper.

Timestamps are integer milliseconds. Clocks, random choices, generated ids, date parsing, ISO
formatting, JSON escaping and remote failures are parameters of the operations that use them. Code that
updates state step by step is modelled as methods with loop invariants, or as classes such as the auth
provider and the quiz runner. Code that only computes is modelled as functions and lemmas.

Each source file has its own module:

| module | source |
|---|---|
| Store, Schema | the Firestore model; src/types/firestore-schema.ts |
| ResearchExport | src/app/actions/researchExport.ts |
| SubmitQuiz | src/app/actions/submitQuiz.ts |
| LogView | src/app/actions/logView.ts |
| ImportClinical | src/app/actions/importClinicalData.ts |
| AdminUserStats | src/app/actions/getAdminUserStats.ts |
| AdminCharts | src/app/actions/getAdminCharts.ts |
| ExportData | src/app/actions/exportData.ts |
| DeleteContent, DeleteUser | src/app/actions/deleteContent.ts, deleteUser.ts |
| AuthUtils, AuthContext | src/lib/auth/utils.ts, AuthContext.tsx |
| QuizRunner | src/app/quiz/run/page.tsx |
| Comments | src/components/CommentsSection.tsx |
| CaseForm | src/components/admin/CaseForm.tsx |
| AdminCases, AdminLiterature, AdminDashboard | src/app/admin/cases/page.tsx, literature/page.tsx, page.tsx |
| Sidebar, Leaderboard | src/components/Sidebar.tsx, admin/UserLeaderboard.tsx |
| CaseLibrary, LiteratureLibrary, NewLiterature | src/app/cases/page.tsx, literature/page.tsx, admin/literature/new/page.tsx |
| Wrappers, Seqs, Text | shared helpers: Option/Result, `filter`/`sort`, string methods |

## Model

| member | source | states |
|---|---|---|
| ResearchExport.FormatDate | src/app/actions/researchExport.ts:7-11 | a missing date gives "", a string is returned unchanged, a timestamp gives its ISO text |
| ResearchExport.FormatDateIdempotent | src/app/actions/researchExport.ts:7-11 | formatting the output of `formatDate` again returns it unchanged |
| ResearchExport.DistinctIds | src/app/actions/researchExport.ts:31-34 | the ids collected are exactly the non-empty attending ids of the clinical events, with no duplicates |
| ResearchExport.CollectEmployeeIds | src/app/actions/researchExport.ts:31-34 | the `forEach` filling the set yields `DistinctIds` |
| ResearchExport.Chunks | src/app/actions/researchExport.ts:47-51 | ⌈n/10⌉ chunks, each holding 1 to 10 ids, which concatenate back to the id list |
| ResearchExport.FetchEvents | src/app/actions/researchExport.ts:46-55 | the chunk loop collects the results of the chunk queries in order and makes one query per chunk |
| ResearchExport.FetchCoversQuery | src/app/actions/researchExport.ts:49-55 | for distinct ids the chunked queries return the same multiset of events as one query over all ids would: none lost, none duplicated |
| ResearchExport.FetchedBelongToIds | src/app/actions/researchExport.ts:52-54 | every fetched event is an event of one of the requested employees |
| ResearchExport.PriorEvents | src/app/actions/researchExport.ts:63-67 | the history holds exactly that employee's events that have a `createdAt` strictly before the ECG, in fetched order |
| ResearchExport.HasDatedEventIff | src/app/actions/researchExport.ts:63-66 | the filter reaches `ecgTime.toMillis()` exactly when some fetched event of the employee has a `createdAt` |
| ResearchExport.LatestLogin | src/app/actions/researchExport.ts:79-112 | the result is the latest login time of the history before the ECG, or none without a login |
| ResearchExport.LatestLoginSnoc | src/app/actions/researchExport.ts:108-111 | one more event moves the latest login only when it is a strictly later prior login |
| ResearchExport.Tally | src/app/actions/researchExport.ts:81-112 | one `forEach` step: a future event is skipped; each window counter grows by one exactly when the event is in its window; the latest login advances |
| ResearchExport.ExposureOfCounts | src/app/actions/researchExport.ts:70-113 | the counters the loop leaves are the per-window counts of each action over the whole history and its latest prior login |
| ResearchExport.ComputeExposure | src/app/actions/researchExport.ts:70-113 | the loop over the history computes exactly those counters |
| ResearchExport.WindowsNested | src/app/actions/researchExport.ts:85-104 | 7-day ≤ 14-day ≤ 30-day login counts and 7-day ≤ 30-day case-view counts |
| ResearchExport.OmiCountedTwice | src/app/actions/researchExport.ts:91-103 | as coded, when all OMI answers lie within 7 days `d7_omi_answered` is twice their number |
| ResearchExport.OmiDoubleCountExample | src/app/actions/researchExport.ts:93-103 | one OMI answer a day before the ECG is counted as 2 |
| ResearchExport.HistoryIsCausal | src/app/actions/researchExport.ts:63-117 | every counted event and the latest login are strictly before the ECG; there is no latest login exactly when the employee has no login before the ECG |
| ResearchExport.RecencyCell | src/app/actions/researchExport.ts:76-139 | when the day conversion gives a non-negative number for every positive distance, the recency cell is -1 exactly when the employee has no login before the ECG, and otherwise a non-negative number |
| ResearchExport.RowCells | src/app/actions/researchExport.ts:119-140 | one cell per key; minutes are "" when missing or zero; `falsePositive` holds exactly when activated without a true OMI; recency is -1 without a login |
| ResearchExport.Lines | src/app/actions/researchExport.ts:149 | one CSV line per row, each the stringified cells joined by commas |
| ResearchExport.LineAvoidsNewline | src/app/actions/researchExport.ts:149 | a data line contains no newline when the cell text contains none |
| ResearchExport.CsvLines | src/app/actions/researchExport.ts:146-152 | the CSV splits on newlines into the header followed by exactly one line per row, in order |
| ResearchExport.Rows | src/app/actions/researchExport.ts:58-141 | one row per clinical event, in order, each the row of that event |
| ResearchExport.MapRowsSpec | src/app/actions/researchExport.ts:58-67 | the `map` throws exactly when the history filter throws for some clinical event; otherwise it yields one row per event |
| ResearchExport.LinkRow | src/app/actions/researchExport.ts:58-140 | the row of one clinical event is built from its history, its counters and its cells |
| ResearchExport.BuildRows | src/app/actions/researchExport.ts:58-141 | the `map` loop yields the rows, or the error of the first event whose filter throws |
| ResearchExport.GenerateLinkedExport | src/app/actions/researchExport.ts:19-152 | an empty uid is rejected; a rejected `clinicalEvents` read, or a rejected chunk query when there is an employee to query, rejects the action with its error; otherwise no clinical events gives the fixed message, and any other input the header-plus-rows CSV |
| SubmitQuiz.PointsEarned | src/app/actions/submitQuiz.ts:30-38 | finishing earns 3 plus one per correct answer, and 2 more exactly when the quiz is non-empty and all answers are correct |
| SubmitQuiz.PointsExamples | src/app/actions/submitQuiz.ts:30-38 | a perfect 5/5 earns 10, 3/5 earns 6, an empty quiz earns 3 |
| SubmitQuiz.ItemValues | src/app/actions/submitQuiz.ts:18-26 | the stored item list has one entry per answered item, in order |
| SubmitQuiz.CaseStatsWrites | src/app/actions/submitQuiz.ts:76-84 | one write per answered item, in order, each to `caseStats/<caseId>` of that item |
| SubmitQuiz.StageCaseStats | src/app/actions/submitQuiz.ts:76-84 | the loop appends exactly the per-item `caseStats` writes to the batch |
| SubmitQuiz.CalculatePoints | src/app/actions/submitQuiz.ts:30-38 | the accumulated points equal `PointsEarned` |
| SubmitQuiz.StageBatch | src/app/actions/submitQuiz.ts:18-123 | the staged batch is the attempt, the user totals, the per-case writes, the points, the event and the status list, in that order |
| SubmitQuiz.SubmitQuizAttempt | src/app/actions/submitQuiz.ts:7-131 | without a user id the error is returned and the store is unchanged; a rejected user read, a case id that `doc()` refuses (the first such item's) or a rejected commit rejects the action and writes nothing; otherwise the batch is committed and the new attempt id and the points are returned |
| SubmitQuiz.FirstInvalidCase | src/app/actions/submitQuiz.ts:76-84 | the first item whose case id is empty or holds a `/`, or none exactly when every case id names one document |
| SubmitQuiz.EmptyCaseIdRejects | src/app/actions/submitQuiz.ts:76-84 | an item with an empty case id is refused, at the latest at that item |
| SubmitQuiz.LayoutAttempt | src/app/actions/submitQuiz.ts:18-26 | after the commit the attempt document is the one the first write creates |
| SubmitQuiz.LayoutUserStats | src/app/actions/submitQuiz.ts:41-53 | after the commit the user totals are those of the second write applied to the old document |
| SubmitQuiz.LayoutPoints | src/app/actions/submitQuiz.ts:87-95 | after the commit the points document is the points write applied to the old document |
| SubmitQuiz.LayoutEvent | src/app/actions/submitQuiz.ts:101-115 | after the commit the event document is the one the event write creates |
| SubmitQuiz.LayoutStatus | src/app/actions/submitQuiz.ts:118-123 | after the commit the status document is the status write applied to the old document |
| SubmitQuiz.LayoutCaseStats | src/app/actions/submitQuiz.ts:76-84 | each case's counters grow by the number of its items and of its correct items in the batch |
| SubmitQuiz.LayoutCaseDoc | src/app/actions/submitQuiz.ts:76-123 | the writes after the per-case ones leave every `caseStats` document as the per-case writes left it |
| SubmitQuiz.LayoutFrame | src/app/actions/submitQuiz.ts:18-125 | documents of collections the batch does not name are unchanged |
| SubmitQuiz.CaseStatsStep | src/app/actions/submitQuiz.ts:77-83 | one per-case merge adds 1 attempt (and 1 correct when the answer was right) to its own case and leaves every other case as it was |
| SubmitQuiz.CaseStatsEffect | src/app/actions/submitQuiz.ts:76-84 | the per-case writes add to each case the count of its items and of its correct items, so a case answered twice in one attempt counts twice |
| SubmitQuiz.UserStatsApplied | src/app/actions/submitQuiz.ts:41-53 | merging the user totals adds 1 attempt, `total` answers and `correct` correct answers, and stores the uid and the time |
| SubmitQuiz.StatusApplied | src/app/actions/submitQuiz.ts:118-123 | merging the status write adds the attempt id to the completed-quiz list as a set union |
| SubmitQuiz.SubmitUserStats | src/app/actions/submitQuiz.ts:41-72 | after a submission the user has one more attempt, `total` more answers and `correct` more correct answers |
| SubmitQuiz.SubmitCaseStats | src/app/actions/submitQuiz.ts:76-84 | after a submission each case's counters grow by its items in the attempt |
| SubmitQuiz.SubmitPoints | src/app/actions/submitQuiz.ts:87-95 | `totalPoints` and `pointsBreakdown.quizPoints` each grow by the points earned |
| SubmitQuiz.SubmitEvent | src/app/actions/submitQuiz.ts:101-115 | the stored `finish_quiz` event reads back as the event built from the attempt, its score, its points and its category |
| SubmitQuiz.SubmitStatus | src/app/actions/submitQuiz.ts:118-123 | the completed-quiz list keeps everything it had and gains the attempt id |
| SubmitQuiz.SubmitAttemptDoc | src/app/actions/submitQuiz.ts:14-26 | the attempt document holds the submitted data with the owner, the employee id (or "UNKNOWN"), the time and its own id |
| SubmitQuiz.SubmitFrame | src/app/actions/submitQuiz.ts:18-125 | documents outside the six collections the batch writes are unchanged |
| SubmitQuiz.ResubmissionCountsTwice | src/app/actions/submitQuiz.ts:18-53 | submitting the same data twice adds two to the attempt count: nothing deduplicates a repeated submission |
| LogView.LogView | src/app/actions/logView.ts:6-70 | an empty uid returns nothing and leaves the store unchanged; a rejected read or commit rejects the action and writes nothing; otherwise the view's batch is committed and success returned |
| LogView.LayoutEvent | src/app/actions/logView.ts:17-26 | after the commit the event document is the one the event write creates |
| LogView.LayoutStatus | src/app/actions/logView.ts:29-36 | after the commit the status document is the status merge applied to the old one |
| LogView.LayoutPoints | src/app/actions/logView.ts:53-66 | with the award the points document is the points merge applied to the old one, without it it is unchanged |
| LogView.LayoutFrame | src/app/actions/logView.ts:17-66 | documents of collections the batch does not name are unchanged |
| LogView.ViewLogsEvent | src/app/actions/logView.ts:17-26 | every view stores one event, `view_case` or `view_literature` by type, targeting the id with the employee id (or "UNKNOWN") |
| LogView.StatusApplied | src/app/actions/logView.ts:29-36 | the status merge adds the id to the view's read list as a set union and leaves the other list alone |
| LogView.ViewMarksRead | src/app/actions/logView.ts:29-36 | afterwards the id is in the view's read list, which keeps what it had; the other read list is untouched |
| LogView.ViewAwards | src/app/actions/logView.ts:49-66 | one point to `totalPoints` and to `contentPoints` exactly when the id was not already read; otherwise the points document is unchanged |
| LogView.ViewFrame | src/app/actions/logView.ts:7-68 | documents outside the events, status and points collections are unchanged |
| LogView.RepeatViewsAwardNothing | src/app/actions/logView.ts:49-66 | any number of views of an id already read award no points |
| LogView.ViewsAwardOnce | src/app/actions/logView.ts:49-66 | one or more views of the same id award exactly one point in total, or none when it was already read |
| LogView.ContentBucketUndeclared | src/app/actions/logView.ts:59-63 | the bucket the first-read point goes to is not one of the five buckets the points schema declares |
| LogView.ViewLeavesDeclaredBuckets | src/app/actions/logView.ts:59-63 | a view changes only the `contentPoints` bucket of the breakdown; every declared bucket keeps its value |
| ImportClinical.ParseDate | src/app/actions/importClinicalData.ts:8-13 | absent or empty text gives no time; otherwise the result of the date parser, which may reject it |
| ImportClinical.RoundMinutes | src/app/actions/importClinicalData.ts:19 | the result is the nearest whole minute to the millisecond difference, halves rounded up |
| ImportClinical.DiffMinutes | src/app/actions/importClinicalData.ts:16-20 | a value exactly when both times are present, and then the rounded minutes from start to end |
| ImportClinical.DiffMinutesExamples | src/app/actions/importClinicalData.ts:16-20 | 47 minutes give 47, 29.999 s round to 0, 30 s round up to 1, a missing end gives none |
| ImportClinical.RowError | src/app/actions/importClinicalData.ts:49-60 | a row passes exactly when the three required fields are filled and its shift date parses; the missing-fields message comes first |
| ImportClinical.BuildEvent | src/app/actions/importClinicalData.ts:63-100 | the event keeps the row's ids and shift time, is activated exactly when an activation time parses, is appropriate only for a true OMI, and has each derived timing exactly when both its times exist |
| ImportClinical.EventWrites | src/app/actions/importClinicalData.ts:102 | one creating write per staged event, in order |
| ImportClinical.ImportStep | src/app/actions/importClinicalData.ts:46-108 | the loop state after one more row is one more step of the loop body |
| ImportClinical.EventWritesSnoc | src/app/actions/importClinicalData.ts:102 | staging one more event appends its write to the batch |
| ImportClinical.Processed | src/app/actions/importClinicalData.ts:44 | the first 400 rows, or all of them when there are fewer |
| ImportClinical.StageRow | src/app/actions/importClinicalData.ts:47-107 | a failing row adds its message to the errors and nothing else; a valid row stages its event and counts one more success |
| ImportClinical.ProcessRows | src/app/actions/importClinicalData.ts:46-108 | the loop's count, errors and batch are those of the reference fold over the rows |
| ImportClinical.ImportClinicalData | src/app/actions/importClinicalData.ts:22-115 | an empty uid throws and changes nothing; otherwise the count and errors of the first 400 rows, the batch committed only when the count is positive, and a rejected commit rejecting the action with nothing written |
| ImportClinical.ImportAccounts | src/app/actions/importClinicalData.ts:46-108 | every row looked at gives one success or one error, and every success one staged event |
| ImportClinical.FailuresSnoc | src/app/actions/importClinicalData.ts:46-108 | the failures of a list extended by one row are those of the list plus that row's message, if any |
| ImportClinical.ImportErrors | src/app/actions/importClinicalData.ts:105-107 | the errors are exactly the validation messages of the failing rows, in row order |
| ImportClinical.EventWriteStores | src/app/actions/importClinicalData.ts:88-102 | the write of a built event creates a `clinicalEvents` document that reads back as an event with its activation derived |
| ImportClinical.ImportEvents | src/app/actions/importClinicalData.ts:67-103 | the k-th staged event has the k-th generated id and its activation derived as the schema states |
| ImportClinical.ImportWrites | src/app/actions/importClinicalData.ts:102 | every staged write creates a `clinicalEvents` document that reads back as a well-formed event |
| ImportClinical.ImportCap | src/app/actions/importClinicalData.ts:42-44 | count plus errors is min(400, n), and rows past the 400th make no difference |
| ImportClinical.ImportFrame | src/app/actions/importClinicalData.ts:102-112 | nothing outside `clinicalEvents` changes, and an import with no valid row leaves the store as it was |
| ImportClinical.UndefinedField | src/app/actions/importClinicalData.ts:75-78 | names an `undefined` optional time exactly when some optional time is missing or does not parse, and then names one of the four time fields |
| ImportClinical.RowErrorAsCoded | src/app/actions/importClinicalData.ts:47-107 | as coded, a row succeeds exactly when it passes validation and all four optional times parse; a validation message wins; otherwise the SDK's message for the undefined field is recorded |
| ImportClinical.ImportAsCodedCounts | src/app/actions/importClinicalData.ts:46-108 | as coded, an id is made for every valid row, successes are no more than the intended ones, and each row still gives one success or one error |
| ImportClinical.ImportAsCodedAgrees | src/app/actions/importClinicalData.ts:46-108 | when every valid row has all its optional times, the import as coded has the intended count, errors and events |
| ImportClinical.UntimedRowImported | src/app/actions/importClinicalData.ts:47-103 | as intended, a row with its required fields and ECG and door times but no activation time is counted, records no error and stages one non-activated event without activation or cath-lab time |
| ImportClinical.UntimedRowRejected | src/app/actions/importClinicalData.ts:75-78 | as coded, that row is the SDK's error for `activationTime`, and nothing is counted or staged |
| AdminUserStats.LoginUid | src/app/actions/getAdminUserStats.ts:58-59 | a login event is counted only for a non-empty uid |
| AdminUserStats.CountLogins | src/app/actions/getAdminUserStats.ts:56-62 | the counting map gives every uid its number of login events, and holds only non-empty uids with a positive count |
| AdminUserStats.LoginStep | src/app/actions/getAdminUserStats.ts:57-61 | one pass of the `forEach` keeps the map equal to the counts of the events seen so far |
| AdminUserStats.LoginWithoutUid | src/app/actions/getAdminUserStats.ts:59 | an event without a uid changes no count, and the empty uid never has logins |
| AdminUserStats.RowFor | src/app/actions/getAdminUserStats.ts:69-95 | the row carries the user's uid and login count; without a stats document attempts, correct answers, accuracy and last activity are 0 or null; without a points document the points are 0 |
| AdminUserStats.JoinRows | src/app/actions/getAdminUserStats.ts:65-96 | the loop pushes exactly one row per profile, in profile order, each the user's `RowFor` |
| AdminUserStats.Joined | src/app/actions/getAdminUserStats.ts:65-96 | one row per listed profile |
| AdminUserStats.ByPointsDescPreorder | src/app/actions/getAdminUserStats.ts:99 | the points comparator is a total preorder, so the sort is well defined |
| AdminUserStats.GetAdminUserStats | src/app/actions/getAdminUserStats.ts:18-107 | for profiles and login documents that the store's queries return, an empty caller uid throws; a read failure returns its message; otherwise success with the joined rows sorted by points |
| AdminUserStats.UidOnly | src/app/actions/getAdminUserStats.ts:54 | the projection keeps the `uid` field as it is and no other field |
| AdminUserStats.LoginsAreStoreLogins | src/app/actions/getAdminUserStats.ts:51-62 | the number of query documents counted for a uid is the number of the store's login events carrying that uid |
| AdminUserStats.QueriedLoginsAreStoreLogins | src/app/actions/getAdminUserStats.ts:51-55 | the queried events counted for a uid are exactly the store's login events of that uid |
| AdminUserStats.LoginCountIsStoreLogins | src/app/actions/getAdminUserStats.ts:67-88 | the login count shown for a user is the number of the store's login events carrying that uid |
| AdminUserStats.RowDependsOnCount | src/app/actions/getAdminUserStats.ts:71 | a row depends on the login events only through its own user's count |
| AdminUserStats.OneRowPerProfile | src/app/actions/getAdminUserStats.ts:68-96 | each uid has one row when it has a profile and none otherwise: stats or points alone make no row |
| AdminUserStats.JoinedUids | src/app/actions/getAdminUserStats.ts:85-86 | the k-th row belongs to the k-th profile |
| AdminUserStats.CountRowsByUid | src/app/actions/getAdminUserStats.ts:68-96 | the rows of a uid are as many as its occurrences in the profile list |
| AdminUserStats.RowsByPoints | src/app/actions/getAdminUserStats.ts:98-99 | the returned rows are a permutation of the joined rows ordered by points, highest first |
| AdminUserStats.RowShowsUser | src/app/actions/getAdminUserStats.ts:25-95 | each row shows the profile's employee id ("UNKNOWN" by default) and email ("" by default), the stats, the rounded accuracy, the points and the login count |
| AdminCharts.AggregateStep | src/app/actions/getAdminCharts.ts:28-53 | one pass of the `forEach` keeps each day's entry equal to the counts of that day's events so far, and the map holds exactly the days seen |
| AdminCharts.Aggregate | src/app/actions/getAdminCharts.ts:26-53 | each day's entry counts its views (case or literature), quizzes, logins, answers and correct answers; days without dated events have no entry |
| AdminCharts.Point | src/app/actions/getAdminCharts.ts:59-70 | the point carries its date and the rounded accuracy percentage of the day (0 without answers) |
| AdminCharts.FillDays | src/app/actions/getAdminCharts.ts:57-71 | the loop emits one point per day from the start to `now` inclusive, each built from that day's entry or the zero entry |
| AdminCharts.Chart | src/app/actions/getAdminCharts.ts:9-12 | one point per day from `past30` to `now` inclusive, dated by its day, and none when `past30` lies after `now` |
| AdminCharts.SameInstantFullRange | src/app/actions/getAdminCharts.ts:10-12 | when the two clock reads give the same instant, the chart has 31 points |
| AdminCharts.LaterSecondReadDropsLastDay | src/app/actions/getAdminCharts.ts:10-12 | when the second clock read is later than the first by less than a day, the chart has 30 points |
| AdminCharts.StartAfterEndEmpty | src/app/actions/getAdminCharts.ts:10-12 | when `past30` lies after `now`, as when the reads straddle a month end, the chart is empty |
| AdminCharts.GetAdminChartsData | src/app/actions/getAdminCharts.ts:6-74 | with `now` and `past30` the two clock reads, and for the events the store's `createdAt >= past30` query returns, an empty uid throws; a rejected events query rejects the action with its error; otherwise success with the points from `past30` to `now` counted from those events |
| AdminCharts.ChartData | src/app/actions/getAdminCharts.ts:24-71 | the aggregation loop and the loop over the range compute exactly the chart of the events |
| AdminCharts.ListedEventIsRecent | src/app/actions/getAdminCharts.ts:18-22 | every event the query returns has a creation time no earlier than `past30` |
| AdminCharts.EarlyEventNotCounted | src/app/actions/getAdminCharts.ts:10-22 | an event created before `past30` is not counted, even one of the first day's date before `past30`'s time of day, so the first point covers only part of its day |
| AdminCharts.RecentEventListed | src/app/actions/getAdminCharts.ts:18-22 | every stored event created at or after `past30` that reads back as an event is counted |
| AdminCharts.DayCountersBounded | src/app/actions/getAdminCharts.ts:41-65 | per day the correct answers never exceed the answers, the accuracy is between 0 and 100, and the counters add up to at most that day's events |
| AdminCharts.EmptyDayZero | src/app/actions/getAdminCharts.ts:60-65 | a day without dated events shows all zeros |
| AdminCharts.UndatedIgnored | src/app/actions/getAdminCharts.ts:30 | an event without `createdAt` changes no point of the chart |
| ExportData.Sanitize | src/app/actions/exportData.ts:7-23 | the result holds no `Timestamp`; a timestamp becomes its ISO string, other scalars and null are kept, arrays keep their length and objects their keys |
| ExportData.SanitizeData | src/app/actions/exportData.ts:7-23 | the recursive walk with its key-by-key loop computes `Sanitize` |
| ExportData.SanitizeArray | src/app/actions/exportData.ts:12-14 | mapping the walk over an array gives the array of sanitized elements |
| ExportData.SanitizeObject | src/app/actions/exportData.ts:15-21 | the `for...in` loop gives an object with the same keys, each holding its sanitized value |
| ExportData.SanitizeFixes | src/app/actions/exportData.ts:7-23 | a value is returned unchanged exactly when it holds no `Timestamp` |
| ExportData.SanitizeIdempotent | src/app/actions/exportData.ts:7-23 | sanitizing twice gives the same as sanitizing once |
| ExportData.SanitizeKeepsShape | src/app/actions/exportData.ts:12-21 | the nesting of arrays and objects is kept at every depth |
| ExportData.RecordFields | src/app/actions/exportData.ts:48-51 | a record has the document's keys plus `_id`, each field sanitized, `_id` the document id unless the data has its own `_id`, and no timestamp |
| ExportData.Records | src/app/actions/exportData.ts:48-51 | one record per document of the snapshot |
| ExportData.ExportCollection | src/app/actions/exportData.ts:25-58 | an empty uid and a collection outside the nine allowed ones throw; a failed read is returned as a failure; otherwise the records are returned |
| ExportData.ExportCoversCollection | src/app/actions/exportData.ts:47-51 | every document of the collection is exported exactly once, as its own record |
| ExportData.ExportHasNoTime | src/app/actions/exportData.ts:48-51 | no exported record holds a `Timestamp` |
| ExportData.NotExportable | src/app/actions/exportData.ts:30-44 | comments and the per-user content status cannot be exported |
| DeleteContent.CaseDeletes | src/app/actions/deleteContent.ts:9-16 | the batch of `deleteCase` only deletes |
| DeleteContent.PaperDeletes | src/app/actions/deleteContent.ts:36-40 | the batch of `deletePaper` only deletes |
| DeleteContent.DeleteCase | src/app/actions/deleteContent.ts:5-30 | an empty id throws; a failed commit is reported and changes nothing; otherwise the case deletes are committed and success returned |
| DeleteContent.DeletePaper | src/app/actions/deleteContent.ts:32-51 | an empty id throws; a failed commit is reported and changes nothing; otherwise the paper delete is committed and success returned |
| DeleteContent.CaseDeleteEffect | src/app/actions/deleteContent.ts:10-16 | deleting a case removes `cases/<id>` and `caseStats/<id>` and leaves every other document as it was |
| DeleteContent.CaseDeleteKeepsDiscussion | src/app/actions/deleteContent.ts:18-22 | the comments and attempts survive the deletion of their case |
| DeleteContent.PaperDeleteEffect | src/app/actions/deleteContent.ts:37-40 | deleting a paper removes `papers/<id>` and nothing else |
| DeleteContent.PaperDeleteKeepsHighlights | src/app/actions/deleteContent.ts:42-43 | the highlights survive the deletion of their paper |
| DeleteContent.DeleteContentIdempotent | src/app/actions/deleteContent.ts:9-40 | deleting the same case or paper again leaves the store as the first deletion left it |
| DeleteUser.UserDeletes | src/app/actions/deleteUser.ts:21-29 | the batch of `deleteUser` only deletes |
| DeleteUser.DeleteUser | src/app/actions/deleteUser.ts:5-42 | an empty uid throws and changes nothing; the sign-in account is removed unless the auth call fails, and the store cleanup still runs; a failed commit is reported |
| DeleteUser.UserDeleteEffect | src/app/actions/deleteUser.ts:23-29 | the user's profile, stats, points and content-status documents are gone, and every other document, those of other users included, is as it was |
| DeleteUser.UserDeleteKeepsResearch | src/app/actions/deleteUser.ts:31-33 | the user's events, attempts and comments stay |
| DeleteUser.UserDeleteIdempotent | src/app/actions/deleteUser.ts:21-35 | deleting the same user again leaves the store as the first deletion left it |
| AuthUtils.EmployeeIdToEmail | src/lib/auth/utils.ts:1-10 | the address is the id, an `@`, then `omi.local` |
| AuthUtils.EmailToEmployeeId | src/lib/auth/utils.ts:17-22 | no address or an empty one gives null, and an id returned never holds an `@` |
| AuthUtils.SplitHead | src/lib/auth/utils.ts:19 | the first piece of `split` is the whole text without a separator, else what precedes the first separator |
| AuthUtils.NoAtNoId | src/lib/auth/utils.ts:19-20 | an address without `@` has no employee id |
| AuthUtils.EmailToIdSound | src/lib/auth/utils.ts:17-22 | an address that yields an id is that id, `@omi.local`, then nothing or another `@` |
| AuthUtils.EmailToIdComplete | src/lib/auth/utils.ts:17-22 | every address of that form yields the id |
| AuthUtils.EmailRoundTrip | src/lib/auth/utils.ts:8-22 | an employee id without `@` comes back from its address |
| AuthUtils.AdminIds | src/lib/auth/utils.ts:30-32 | the admin list holds the comma-separated entries of the setting, each trimmed, one per piece |
| AuthUtils.UnsetAdminList | src/lib/auth/utils.ts:30-33 | with the setting unset only the empty id counts as admin |
| AuthUtils.AdminListIff | src/lib/auth/utils.ts:29-34 | a setting written as the comma-joined list of trimmed, comma-free ids makes exactly those ids admins |
| AuthUtils.AdminIdShape | src/lib/auth/utils.ts:29-34 | an admin id has no white space at either end and no comma |
| AuthContext.NewProfile | src/lib/auth/AuthContext.tsx:58-63 | the fallback profile holds the uid, the employee id, and both times set to the sign-in time |
| AuthContext.SignInId | src/lib/auth/AuthContext.tsx:37-38 | the handler acts on a non-empty employee id exactly when the address yields one |
| AuthContext.AuthProvider.constructor | src/lib/auth/AuthContext.tsx:28-30 | the provider mounts with no user, no profile, loading, and the session flag as the tab left it |
| AuthContext.AuthProvider.IsAdminUser | src/lib/auth/AuthContext.tsx:92 | an admin exactly when there is a profile whose employee id is on the admin list |
| AuthContext.AuthProvider.LogLoginOnce | src/lib/auth/AuthContext.tsx:49-72 | a login event is logged only when the session flag is unset, and the flag is set afterwards |
| AuthContext.AuthProvider.OnAuthStateChanged | src/lib/auth/AuthContext.tsx:33-87 | sign-out clears the profile and the flag; without a usable id or on a failed fetch nothing else changes; otherwise the profile is stamped or created and the login logged once per session; loading ends either way |
| AuthContext.SessionLogsOnce | src/lib/auth/AuthContext.tsx:49-54 | two sign-ins in one session log one event |
| AuthContext.SignOutRearms | src/lib/auth/AuthContext.tsx:78-84 | after a sign-out the next sign-in is logged again |
| QuizRunner.Swap | src/app/quiz/run/page.tsx:35 | the two entries trade places and every other entry stays |
| QuizRunner.SwapPermutes | src/app/quiz/run/page.tsx:35 | a swap keeps the same elements |
| QuizRunner.ShuffleFrom | src/app/quiz/run/page.tsx:33-36 | the swaps from an index down to 1 keep the length |
| QuizRunner.ShufflePermutes | src/app/quiz/run/page.tsx:32-38 | whatever the random choices, the shuffle is a permutation |
| QuizRunner.ShuffleArray | src/app/quiz/run/page.tsx:32-38 | the loop leaves in the array the shuffle of its old contents, a permutation of them |
| QuizRunner.PickQuestions | src/app/quiz/run/page.tsx:61 | the questions are the first five of the shuffled cases |
| QuizRunner.CategoryParam | src/app/quiz/run/page.tsx:18 | the category is never empty: a missing or empty parameter is "All" |
| QuizRunner.Fetched | src/app/quiz/run/page.tsx:43-53 | a case is fetched exactly when it is published and, unless the category is "All", of that category |
| QuizRunner.FetchError | src/app/quiz/run/page.tsx:55-74 | the fetch loads questions exactly when the read succeeds and at least five cases match |
| QuizRunner.PayloadScores | src/app/quiz/run/page.tsx:124-136 | a finished run's payload has one item per question, `correct` between 0 and the total, all of it exactly when every answer was right and none exactly when every answer was wrong |
| QuizRunner.Runner.constructor | src/app/quiz/run/page.tsx:17-30 | the page starts loading, with no questions, no selection, no items, no events and the category from the URL |
| QuizRunner.Runner.FetchQuestions | src/app/quiz/run/page.tsx:40-79 | signed out nothing is fetched; a read failure or too few cases set the message; otherwise five shuffled questions are loaded and `start_quiz` is logged once per page |
| QuizRunner.Runner.LogStart | src/app/quiz/run/page.tsx:66-69 | one `start_quiz` event is logged and the ref set |
| QuizRunner.Runner.SelectChoice | src/app/quiz/run/page.tsx:232-233 | a click selects the choice only while the question is unanswered |
| QuizRunner.Runner.HandleConfirm | src/app/quiz/run/page.tsx:81-106 | without a selection nothing happens; otherwise the question is answered, an item scored against it is appended and, signed in, the answer event is logged |
| QuizRunner.Runner.SaveResult | src/app/quiz/run/page.tsx:120-154 | signed out nothing happens; otherwise the payload is submitted, then the page goes to the result or stops loading on failure |
| QuizRunner.Runner.HandleNext | src/app/quiz/run/page.tsx:108-116 | before the last question it moves on with the selection cleared; at the last it submits a payload with one item per question |
| QuizRunner.FinishedRunScores | src/app/quiz/run/page.tsx:97-136 | when the last question is answered the run holds one scored item per question, in order |
| Comments.ToggledList | src/components/CommentsSection.tsx:87-95 | the user is in the new list exactly when it was not in the old one, every other user keeps its membership, and a new reaction is appended at the end |
| Comments.Toggle | src/components/CommentsSection.tsx:97-103 | the emoji maps to the toggled list when that is non-empty and is deleted when it is empty; every other emoji keeps its entry |
| Comments.ToggleFlips | src/components/CommentsSection.tsx:86-103 | the toggle flips exactly the reacting user's membership for that emoji and keeps a map without empty lists free of them |
| Comments.ToggledListTwice | src/components/CommentsSection.tsx:91-95 | appending a user that was not there and removing it again gives the list back |
| Comments.ToggleTwice | src/components/CommentsSection.tsx:86-103 | reacting and then un-reacting restores the map for a user that had not reacted with that emoji |
| Comments.FindComment | src/components/CommentsSection.tsx:82 | a comment found is a listed one with that id; none is found exactly when no listed comment has it |
| Comments.HandleReaction | src/components/CommentsSection.tsx:78-112 | no user, no id or an unknown comment writes nothing; otherwise the toggled reactions are written unless the update fails |
| Comments.ReactionWriteFrame | src/components/CommentsSection.tsx:106-108 | the reaction write changes only the `reactions` field of that comment and nothing else in the store |
| Comments.HandleSubmit | src/components/CommentsSection.tsx:55-76 | blank text, no user or no profile writes nothing and keeps the text; a failed write keeps the text; otherwise the comment is added and the box cleared |
| Comments.PostedComment | src/components/CommentsSection.tsx:57-68 | a posted comment stores its case, its author, the trimmed text (non-empty, no white space at either end) and no reactions |
| CaseForm.InitialForm | src/components/admin/CaseForm.tsx:26-34 | a new case opens with four empty choices, the first as the answer, one empty reference, no images and the OMI category; an edited case opens with its stored choices, references, images, answer, title and question, an empty stored list staying empty |
| CaseForm.ReopenedWithoutReferences | src/components/admin/CaseForm.tsx:34-55 | a case stored with no references reopens with no reference row, and its validity does not depend on references |
| CaseForm.ReportEmptyIffValid | src/components/admin/CaseForm.tsx:42-55 | an error report is empty exactly when the form meets every rule |
| CaseForm.Validate | src/components/admin/CaseForm.tsx:42-55 | the report names exactly the fields whose rule fails, and the form passes exactly when it is valid |
| CaseForm.RemoveAt | src/components/admin/CaseForm.tsx:99-155 | a valid index removes that entry and shifts the later ones down; any other index leaves the list as it was |
| CaseForm.UpdateAt | src/components/admin/CaseForm.tsx:149-158 | the entry at the index becomes the new value and every other entry stays |
| CaseForm.AddChoice | src/components/admin/CaseForm.tsx:140 | one empty choice is appended and the answer index kept |
| CaseForm.RemoveChoiceKeepsAnswer | src/components/admin/CaseForm.tsx:141-147 | at two choices nothing happens; otherwise one choice goes, at least two remain, the answer stays a valid index and on the same choice unless that choice was removed |
| CaseForm.UpdateChoice | src/components/admin/CaseForm.tsx:148-150 | only the edited choice changes, and nothing else in the form |
| CaseForm.AddReference | src/components/admin/CaseForm.tsx:152 | one empty reference is appended |
| CaseForm.RemoveReference | src/components/admin/CaseForm.tsx:153-156 | the last reference is never removed; otherwise one goes, and nothing else in the form changes |
| CaseForm.UpdateReference | src/components/admin/CaseForm.tsx:157-159 | only the edited reference changes, and nothing else in the form |
| CaseForm.RemoveImage | src/components/admin/CaseForm.tsx:98-100 | the image at the index is removed and nothing else in the form changes |
| CaseForm.Extension | src/components/admin/CaseForm.tsx:79 | the extension holds no dot |
| CaseForm.HandleImageUpload | src/components/admin/CaseForm.tsx:57-96 | the images gain the download URLs of the accepted files, in order, up to the first failing upload, stored under the case id or a temporary id |
| CaseForm.UploadedFiles | src/components/admin/CaseForm.tsx:66-87 | only accepted files (PNG, JPEG or WEBP up to 5 MB) are uploaded, each under the case's folder, at most one URL per accepted file |
| CaseForm.UploadedAll | src/components/admin/CaseForm.tsx:66-87 | without a failing upload every accepted file is uploaded |
| CaseForm.Trimmed | src/components/admin/CaseForm.tsx:115 | each choice is stored trimmed, one per choice |
| CaseForm.CleanReferencesShape | src/components/admin/CaseForm.tsx:118 | the stored references are the non-blank ones, trimmed: none is blank or padded and each comes from an entered reference |
| CaseForm.SavedCase | src/components/admin/CaseForm.tsx:108-120 | the saved case is published exactly when publishing was chosen, a draft otherwise, and its answer still indexes its choices |
| CaseForm.HandleSave | src/components/admin/CaseForm.tsx:102-138 | an invalid form writes nothing and reports errors; a failed write changes nothing; otherwise a new case is added or the edited one updated |
| AdminCases.Offered | src/app/admin/cases/page.tsx:200-238 | no button keeps the status; Publish is offered exactly for a draft, Draft exactly for a non-draft, Archive exactly for a non-archived case |
| AdminCases.ArchivedRepublishesViaDraft | src/app/admin/cases/page.tsx:220-238 | an archived case cannot be published directly but can go back to draft and then be published |
| AdminCases.AllStatusesReachable | src/app/admin/cases/page.tsx:200-238 | every status is reachable from every other in at most two clicks |
| AdminCases.HandleStatusChange | src/app/admin/cases/page.tsx:42-56 | a failed update or a missing case changes nothing; otherwise the status write is committed |
| AdminCases.StatusWriteEffect | src/app/admin/cases/page.tsx:44-48 | a status change sets the case's status and update time, keeps its other fields and changes nothing else in the store |
| AdminCases.FilteredCases | src/app/admin/cases/page.tsx:74-78 | a case is listed exactly when it passes both the status and the category filter |
| AdminCases.FilteredKeepsOrder | src/app/admin/cases/page.tsx:74-78 | the list keeps the fetched order, so the count shown never exceeds the total |
| AdminCases.NoFilterShowsAll | src/app/admin/cases/page.tsx:16-17 | with both filters at "all" every case is listed |
| AdminCases.HandleDelete | src/app/admin/cases/page.tsx:58-72 | a declined confirmation or a failed delete changes nothing; otherwise the case is deleted in the store and dropped from the list |
| AdminCases.DeleteDropsOnlyThatCase | src/app/admin/cases/page.tsx:64 | the list loses exactly the cases with that id and keeps the others in order |
| AdminLiterature.OfferedPaper | src/app/admin/literature/page.tsx:130-147 | each paper has one status button, never to its own status: Publish unless published, Draft when published |
| AdminLiterature.PaperTransitions | src/app/admin/literature/page.tsx:130-147 | no paper is ever archived from this page, and an archived paper is published again directly |
| AdminLiterature.HandleStatusChange | src/app/admin/literature/page.tsx:37-48 | without confirmation, on a failed update or for a missing paper nothing changes; otherwise the status write is committed |
| AdminLiterature.PaperStatusWriteEffect | src/app/admin/literature/page.tsx:40-43 | the write sets the paper's status and update time, keeps its other fields and changes nothing else in the store |
| AdminLiterature.HandleDelete | src/app/admin/literature/page.tsx:50-58 | without confirmation or on a failed delete nothing changes; otherwise the paper is deleted |
| AdminLiterature.StatusLabel | src/app/admin/literature/page.tsx:121 | the label is the status name with its first letter upper-cased |
| AdminLiterature.StatusLabelsDistinct | src/app/admin/literature/page.tsx:121 | different statuses get different labels |
| AdminDashboard.Titles | src/app/admin/page.tsx:33-38 | the title lookup has an entry for every case of the snapshot and for nothing else |
| AdminDashboard.TitleOfCase | src/app/admin/page.tsx:38 | each case's title is looked up under its own id |
| AdminDashboard.CountCases | src/app/admin/page.tsx:31-49 | the total is the number of cases and each counter the number of cases with that status; the lookup is `Titles` |
| AdminDashboard.CountStep | src/app/admin/page.tsx:39-41 | one pass of the loop adds one to the counter of the case's status |
| AdminDashboard.TitlesStep | src/app/admin/page.tsx:38 | one pass of the loop records the case's title under its id |
| AdminDashboard.CountersBounded | src/app/admin/page.tsx:39-41 | no case counts under two statuses, so the three counters add up to at most the total |
| AdminDashboard.ToSpot | src/app/admin/page.tsx:66-75 | the spot shows the case's title when it has a truthy one, else the case id |
| AdminDashboard.ToSpots | src/app/admin/page.tsx:66-75 | one spot per stats document, in order |
| AdminDashboard.Accuracy | src/app/admin/page.tsx:69 | the accuracy is an exact fraction with a positive denominator |
| AdminDashboard.AccuracyOrder | src/app/admin/page.tsx:77 | the accuracy comparator is a total preorder, so the sort is well defined |
| AdminDashboard.RankedSpotsSpec | src/app/admin/page.tsx:76-77 | the ranking is a permutation of the attempted cases, worst accuracy first |
| AdminDashboard.TroubleSpotsAttempted | src/app/admin/page.tsx:76-78 | at most five cases are listed, each attempted and from the stats documents |
| AdminDashboard.TroubleSpotsWorstFirst | src/app/admin/page.tsx:77-78 | the list is worst first, and no attempted case left out has a lower accuracy than a listed one |
| AdminDashboard.SpotTitle | src/app/admin/page.tsx:38-72 | a spot of a case with a truthy title carries that title, otherwise the case id |
| Sidebar.LengthOr0 | src/components/Sidebar.tsx:48-49 | a missing document or field counts 0 read items; a stored list counts its length |
| Sidebar.Unread | src/components/Sidebar.tsx:64-65 | the unread figure is never negative: the difference when positive, else 0 |
| Sidebar.UnreadCases | src/components/Sidebar.tsx:64-65 | reading everything published (or more) shows nothing unread; otherwise the difference |
| Sidebar.UnreadFigures | src/components/Sidebar.tsx:46-70 | a failing count keeps both previous figures; otherwise each is the published count minus the read count, floored at 0 |
| Sidebar.NothingReadYet | src/components/Sidebar.tsx:47-65 | without a status document every published case and paper is unread |
| Sidebar.Rank | src/components/Sidebar.tsx:72-81 | the rank is one more than the number of users with strictly more points, so between 1 and the number of users plus 1 |
| Sidebar.RankMonotone | src/components/Sidebar.tsx:75-77 | more points never give a worse rank, and nobody ahead means first place |
| Sidebar.RankTies | src/components/Sidebar.tsx:75-77 | users with equal points share a rank, and fewer points rank strictly below |
| Sidebar.PointsView | src/components/Sidebar.tsx:26-36 | with a points document its points and their rank (the previous rank if the count fails); without one 0 points and no rank |
| Leaderboard.FilteredRows | src/components/admin/UserLeaderboard.tsx:33-36 | a row is kept exactly when the search occurs, ignoring case, in its employee id or its email |
| Leaderboard.FilterKeepsOrder | src/components/admin/UserLeaderboard.tsx:33-36 | the filter keeps the order of the rows, and an empty search keeps every row |
| Leaderboard.SearchIgnoresCase | src/components/admin/UserLeaderboard.tsx:34-35 | typing the search in other letter cases filters the same rows |
| Leaderboard.HandleSort | src/components/admin/UserLeaderboard.tsx:50-55 | the clicked column becomes the key, ascending exactly when it was already the key sorted descending |
| Leaderboard.SortToggleCycle | src/components/admin/UserLeaderboard.tsx:13-55 | a new column sorts descending, a second click ascending, a third descending again; the first click on points after loading turns it ascending |
| Leaderboard.Compare | src/components/admin/UserLeaderboard.tsx:38-48 | the comparator answers -1, 0 or 1 |
| Leaderboard.NullSortsAfter | src/components/admin/UserLeaderboard.tsx:42-43 | a null value compares after anything, even after another null, and a non-null before a null |
| Leaderboard.ValueLtAsymmetric | src/components/admin/UserLeaderboard.tsx:45-46 | no two values are each below the other |
| Leaderboard.ValueLtTotal | src/components/admin/UserLeaderboard.tsx:45-47 | two non-null values are equal or ordered one way |
| Leaderboard.ValueLtTransitive | src/components/admin/UserLeaderboard.tsx:45-46 | the value order is transitive |
| Leaderboard.RowLeIsComparator | src/components/admin/UserLeaderboard.tsx:38-48 | except on two nulls, a row may precede another exactly when the comparator answers 0 or less |
| Leaderboard.RowLeStep | src/components/admin/UserLeaderboard.tsx:38-48 | the row order relates any two rows and is transitive |
| Leaderboard.RowOrderPreorder | src/components/admin/UserLeaderboard.tsx:38-48 | the row order is a total preorder, so the sort is well defined |
| Leaderboard.SortedRows | src/components/admin/UserLeaderboard.tsx:38 | the sorted table is a permutation of the filtered rows |
| Leaderboard.SortedRowsOrder | src/components/admin/UserLeaderboard.tsx:38-48 | nulls come last; descending never puts a smaller value before a larger one, ascending never a larger before a smaller, numbers compared by value and strings by UTF-16 code units as JavaScript's `<` compares them |
| Leaderboard.SortedRowsMembers | src/components/admin/UserLeaderboard.tsx:33-48 | the table lists exactly the matching rows, as many as the filter keeps |
| Leaderboard.DefaultTable | src/components/admin/UserLeaderboard.tsx:12-48 | on first display every row is listed, points non-increasing |
| CaseLibrary.PublishedCases | src/app/cases/page.tsx:20-29 | a case is fetched exactly when it is published |
| CaseLibrary.FilteredCases | src/app/cases/page.tsx:42-44 | "All" keeps the list as it is; a category keeps exactly its cases; the order is kept either way |
| CaseLibrary.Seconds | src/app/cases/page.tsx:58-59 | the whole seconds of the creation time, 0 without one |
| CaseLibrary.NewerFirstPreorder | src/app/cases/page.tsx:56-61 | the newest-first comparator is a total preorder, so the sort is well defined |
| CaseLibrary.SortedCases | src/app/cases/page.tsx:56-61 | the sorted cases are a permutation of the filtered ones |
| CaseLibrary.SortedNewestFirst | src/app/cases/page.tsx:56-61 | an older case never precedes a newer one |
| CaseLibrary.Featured | src/app/cases/page.tsx:63-64 | there is a featured case exactly when the filtered list is non-empty, and featured plus grid is the sorted list |
| CaseLibrary.FeaturedIsNewest | src/app/cases/page.tsx:56-64 | the featured case is a filtered case no other is newer than, and the grid holds all the others |
| LiteratureLibrary.FetchedPapers | src/app/literature/page.tsx:25-35 | the fetched papers are a permutation of the published ones |
| LiteratureLibrary.FetchedPapersSpec | src/app/literature/page.tsx:25-35 | a paper is fetched exactly when it is published, and the list is newest first |
| LiteratureLibrary.Hero | src/app/literature/page.tsx:60 | there is a hero exactly when some paper is fetched, and it is the first one |
| LiteratureLibrary.HeroIsNewest | src/app/literature/page.tsx:25-60 | the hero is a published paper no other published paper is newer than |
| LiteratureLibrary.TagsOf | src/app/literature/page.tsx:49 | a tag is collected exactly when some paper carries it |
| LiteratureLibrary.InsertTagSpec | src/app/literature/page.tsx:49 | inserting a tag into a strictly sorted list adds exactly that tag and keeps the list strictly sorted |
| LiteratureLibrary.SortedUniqueSpec | src/app/literature/page.tsx:49 | de-duplicating and sorting keeps exactly the tags given, strictly sorted |
| LiteratureLibrary.AllTagsSpec | src/app/literature/page.tsx:49 | the tag buttons show every tag of some paper once, in UTF-16 code-unit order, and nothing else |
| LiteratureLibrary.FilteredPapers | src/app/literature/page.tsx:52-57 | a paper is listed exactly when the search occurs, ignoring case, in its title or authors and it carries the selected tag (an empty or no selection filters nothing); the order is kept |
| LiteratureLibrary.NoFilterShowsAll | src/app/literature/page.tsx:18-57 | with an empty search and no tag every paper is listed |
| LiteratureLibrary.SelectedTagFilters | src/app/literature/page.tsx:55 | a selected non-empty tag keeps only papers carrying it |
| LiteratureLibrary.ToggleTag | src/app/literature/page.tsx:118 | clicking the selected tag clears the selection, any other click selects that tag |
| LiteratureLibrary.ToggleTwice | src/app/literature/page.tsx:107-118 | two clicks on one tag return to no selection or to that tag, whichever it was |
| NewLiterature.CleanTagsTrimmed | src/app/admin/literature/new/page.tsx:48 | every tag kept after trimming and dropping empties is non-empty and trimmed |
| NewLiterature.CleanTagsNoComma | src/app/admin/literature/new/page.tsx:48 | pieces without a comma give tags without one |
| NewLiterature.ParseTags | src/app/admin/literature/new/page.tsx:48 | every parsed tag is non-empty, has no comma and no white space at either end |
| NewLiterature.CleanTagsKeepsClean | src/app/admin/literature/new/page.tsx:48 | tags that are already clean survive the clean-up unchanged |
| NewLiterature.ParseJoinedTags | src/app/admin/literature/new/page.tsx:48 | clean tags written out joined by commas parse back to the same tags, in order |
| NewLiterature.YearValue | src/app/admin/literature/new/page.tsx:47 | the stored year is the parsed number, or null exactly when nothing parses or it parses to 0 |
| NewLiterature.DefaultYearStored | src/app/admin/literature/new/page.tsx:24-47 | the current year the form starts with is stored as that number |
| NewLiterature.JoinLast | src/app/admin/literature/new/page.tsx:61 | joining several parts ends with the separator and the last part |
| NewLiterature.ExtensionSpec | src/app/admin/literature/new/page.tsx:61 | the extension has no dot, is the whole name without a dot, and otherwise follows the name's last dot |
| NewLiterature.SplitLast | src/app/admin/literature/new/page.tsx:61 | splitting text that ends with a separator and a separator-free part gives that part last |
| NewLiterature.StoragePathSpec | src/app/admin/literature/new/page.tsx:61-62 | the stored file keeps the extension of the uploaded one, under its paper's folder |
| NewLiterature.EmptyForm | src/app/admin/literature/new/page.tsx:20-27 | the form opens as a draft with empty fields and the current year |
| NewLiterature.TagValues | src/app/admin/literature/new/page.tsx:48 | one stored string per tag, in order |
| NewLiterature.HandleSubmit | src/app/admin/literature/new/page.tsx:36-87 | without a file, for a non-admin or on a failed add nothing changes; a failed upload leaves the new paper without its file; a failed update leaves it after the upload; otherwise the file details are merged in |
| NewLiterature.MergeOneField | src/app/admin/literature/new/page.tsx:72-78 | a merge of one field replaces that field and keeps the rest of the document |
| NewLiterature.SubmittedPaper | src/app/admin/literature/new/page.tsx:43-78 | after a complete submit the paper holds the form's fields, its parsed tags and the uploaded file, and no other document changed |
| NewLiterature.NewPaperIsDraft | src/app/admin/literature/new/page.tsx:26-49 | a paper added from a fresh form is a draft |
| Text.ParseInt | src/app/admin/literature/new/page.tsx:47 | nothing parses exactly when no digit follows the leading white space and the optional sign |
| Text.ParseIntOfNat | src/app/admin/literature/new/page.tsx:24-47 | a natural number written in decimal parses back to itself |
| Text.Trim | src/components/CommentsSection.tsx:57-65 | the result is no longer than the input, has no white space at either end and takes its characters from the input |
| Text.ToLower | src/components/admin/UserLeaderboard.tsx:34-35 | lower-casing keeps the length, maps each character on its own and leaves no upper-case letter |
| Text.ContainsIff | src/components/admin/UserLeaderboard.tsx:34-35 | `includes` holds exactly when the text occurs at some position |
| Text.JoinSplit | src/lib/auth/utils.ts:30-32 | joining the pieces of a split with the separator gives the text back |
| Text.SplitJoin | src/app/admin/literature/new/page.tsx:48 | splitting a join of separator-free parts gives the parts back |
| Text.StrLeTotalOrder | src/app/literature/page.tsx:49 | the UTF-16 code-unit order of `sort()` is a total order on strings |
| Text.CharUnits | src/app/literature/page.tsx:49 | a character is one code unit below U+10000 and a surrogate pair, led by a high surrogate, above it; every unit is below 0x10000 |
| Text.Utf16Injective | src/app/literature/page.tsx:49 | two strings with the same UTF-16 encoding are the same string, so the code-unit order ties only equal strings |
| Text.StrLtOnChars | src/components/admin/UserLeaderboard.tsx:45-46 | on characters below U+10000, `<` is the order of the characters |
| Text.SupplementaryBeforeHighBmp | src/app/literature/page.tsx:49 | a character above U+FFFF sorts before one from U+E000 to U+FFFF although its scalar value is larger ("😀" before "Ａ") |
| Schema.ParseCategory | src/types/firestore-schema.ts:3 | exactly the three category names parse, each to the category it names |
| Schema.ParseStatus | src/types/firestore-schema.ts:4 | exactly the three status names parse, each to the status it names |
| Schema.ParseAction | src/types/firestore-schema.ts:108-116 | exactly the eight action names parse, each to the action it names |
| Schema.ParseTarget | src/types/firestore-schema.ts:118 | exactly `null` and the three target names parse, each to the target type it stands for |
| Schema.Percent | src/app/actions/getAdminUserStats.ts:74-77 | the rounded percentage: 0 with nothing answered, otherwise within half a point of 100·correct/answered, and between 0 and 100 |
| Schema.EventDoc | src/types/firestore-schema.ts:120-136 | a stored research event has exactly the event's fields |
| Schema.EventRoundTrip | src/types/firestore-schema.ts:120-136 | a stored research event reads back as the event that was logged |
| Schema.TextOr | src/app/actions/getAdminUserStats.ts:28 | the field when it is a non-empty string, the default otherwise |
| Schema.EmployeeIdOf | src/app/actions/submitQuiz.ts:14-15 | the employee id recorded for a user is never empty (`"UNKNOWN"` without a profile id) |
| Schema.AdjudicationDoc | src/types/firestore-schema.ts:181-186 | the stored outcome adjudication reads back as itself |
| Schema.ActivationDoc | src/types/firestore-schema.ts:189-192 | the stored activation reads back as itself |
| Schema.TimingDoc | src/types/firestore-schema.ts:195-198 | the stored derived timings read back as themselves |
| Schema.ClinicalDoc | src/types/firestore-schema.ts:168-202 | the stored clinical event holds each present field of the event and no field for a missing time |
| Schema.ClinicalRoundTrip | src/types/firestore-schema.ts:168-202 | a stored clinical event reads back as the event that was imported |

## Left out

- Floating point. Rounding uses exact rationals with halves rounded up, so `Math.round` of a ratio, the `diffDays` fractions and `round(Δms/60000)` can differ from IEEE doubles near a .5 boundary.
- QuizRunner.Runner.FetchQuestions: models only the first fetch of a run (it requires that no questions are loaded yet). The effect reruns whenever `user` or `category` changes (src/app/quiz/run/page.tsx:79). A rerun in the middle of a run reshuffles the questions under the current index and the scored items, and the model does not capture it; a change of category is a new `Runner`.
- The last-login recency `parseFloat(diffDays(...).toFixed(2))` is the parameter `days2`, a function from a positive distance in milliseconds to the stored value. The day conversion in floating point and the rounding to two decimals are therefore not modelled. ResearchExport.RecencyCell assumes only that `days2` gives a non-negative number for every positive distance, as the division of a positive distance by a day and its rounding do.
- `new Date(str)`, `toISOString`, `toISOString().split('T')[0]` and `JSON.stringify` escaping are parameters. The model does not define them.
- The local-time `setDate` stepping of the chart range is modelled as steps of 86 400 000 ms. Daylight-saving days are not modelled.
- `toLowerCase`, `trim` and white space are the ASCII ones. There is no Unicode case mapping.
- `parseInt` reads decimal digits only. Its hexadecimal and `0x` forms are not modelled.
- Concurrency is not modelled: each server action is one atomic step. This leaves out the read-then-commit race in `logView` and concurrent increments.
- The `onSnapshot` listeners are not modelled as callbacks. Each listener result is a function of the store at one moment.
- The comments listener's query (a `where` on the case id followed by `orderBy` descending) is not modelled. The comment list is an input.
- `getCountFromServer` is modelled as the size of the set of matching documents.
- The dashboard's user and attempt counts (src/app/admin/page.tsx:51-60) are plain collection counts and are not modelled.
- A `where`/`orderBy` query on the client pages is modelled as a filter and a stable sort of a sequence in the store's order. Several server-action queries are inputs tied to the store by a predicate: AdminUserStats.ListsProfiles, AdminUserStats.ListsLogins, ExportData.ListsDocs and AdminCharts.ListsRecentEvents. The research export reads the `clinicalEvents` and `events` collections as the sequences `clinical` and `events`, in the store's order. The model does not capture that Firestore drops documents lacking the ordered field. Ties come in the served order.
- Firebase Auth and Storage are not modelled. `adminAuth.deleteUser` is an error parameter. An upload is modelled only by the path and URL it yields.
- Remote failures are boolean or error parameters: `writeFails`, `countFails`, `readFailure`, `queryFailure`, `commitFailure`, `pathError`, `failure`, `addFails`, `uploadFails`, `updateFails`, `fetchFails`. A server action without a `try` rejects with the error and writes nothing, because its batch is atomic.
- `Timestamp.now()` and `serverTimestamp()` are the parameter `now`.
- ImportClinical.StageRow: models the evidently intended behaviour, in which a missing optional time is left out of the stored event. As coded, a valid row with a missing or unparseable optional time is rejected by `batch.set` and not counted; ImportClinical.RowErrorAsCoded and ImportClinical.ImportAsCoded state this (see "## Findings").
- ImportClinical.ImportErrors: the intended errors are the validation messages only. As coded, they also hold the SDK's `undefined` message of each valid row with a missing optional time, as ImportClinical.RowErrorAsCoded states; the SDK's message text is the parameter `undefinedError`.
- ImportClinical.ImportClinicalData: commits the intended import. As coded, its count and errors are those of ImportClinical.ImportAsCoded, which agree with the intended ones whenever every valid row has all four optional times (ImportClinical.ImportAsCodedAgrees).
- A non-string `caseId` in an attempt item is read as the empty string, which `doc()` refuses, so the submission rejects.
- SubmitQuiz.ValidDocId: every case id holding a `/` is taken as refused. The SDK accepts an id such as `a/b/c` that names a document in a nested collection, and writes there; nested collections are not part of the store model. A user id is taken to be a valid document id, as Firebase Auth issues it.
- AdminCharts: the two `new Date()` reads are the parameters `now` and `past30`. The calendar arithmetic of `setDate(now.getDate() - 30)` on the second read is not modelled, so `past30` is any instant; AdminCharts.SameInstantFullRange, AdminCharts.LaterSecondReadDropsLastDay and AdminCharts.StartAfterEndEmpty state the chart's length in the three cases.
- A missing `totalPoints` is read as 0.
- React rendering, the router, `alert`/`confirm` dialogs and console logging are not modelled. A confirmation is a boolean parameter.
- UI gating that hides a control (a disabled button, a non-admin view) is a precondition of the handler.
- The refetch after a quiz submission and after an admin status change is not modelled.
- The page refresh after a submission is not modelled.
- Pages that only render or do I/O are not modelled: the PDF reader, the ECG viewer, the editor, the charts component, login, signup and the seed page.
- The Firestore-backed `events.ts` wrapper is not modelled as a store write. Its callers keep the events they log in object fields instead: `AuthContext.AuthProvider` holds them in `loginEvents`, and `QuizRunner.Runner` holds them in `events`.
- ResearchExport: `d7_omi_answered` is modelled as coded. The counter is incremented once in the 30-day branch and again in the 7-day branch, so OMI answers within 7 days count twice, as ResearchExport.OmiCountedTwice states.
- Leaderboard.Compare: states only that the comparator answers -1, 0 or 1. Its ordering meaning is stated by Leaderboard.RowLeIsComparator and the sort lemmas.
- Leaderboard.Compare: values of mixed kinds (a number against a string) cannot arise for one column. The model orders numbers before strings there.
- Leaderboard.Compare: the comparator answers 1 for two nulls, which is not a consistent order. The sort treats two nulls as equal.
- AdminCharts.ListsRecentEvents: assumes every document the chart query returns reads back as an event. The action casts `doc.data()` without checking its shape, and a malformed document is not modelled.
- AdminCharts.Chart: states only the number of points and their dates. The counters of each point are stated by AdminCharts.FillDays, AdminCharts.ChartData and AdminCharts.EmptyDayZero.

## Findings

| source | as written | input that shows it | evidently intended | confidence | as-written member | corrected member |
|---|---|---|---|---|---|---|
| src/app/actions/importClinicalData.ts:75-78 | a missing optional time is put into the event as `undefined`, and the Admin SDK (src/lib/firebase/admin.ts:26, without `ignoreUndefinedProperties`) rejects `undefined` in `batch.set`, so the `catch` records the row as an error and it is not counted | one row with patient, employee and shift, ECG and door times, and no activation time (a patient who was not activated) | the missing time is left out of the event and the row is imported and counted | not executed; follows from the Admin SDK's documented rejection of `undefined` values | ImportClinical.UntimedRowRejected | ImportClinical.UntimedRowImported |
