/**
 * `submitQuizAttempt`: records a finished quiz in one write batch: the attempt document, the user's
 * running totals, one counter update per answered case, the points award, the `finish_quiz` research
 * event and the completed-quiz list. The store is the one the batch commits to; the server timestamp
 * and the two fresh document ids are parameters.
 */
module SubmitQuiz {
  import opened Wrappers
  import opened Store
  import opened Schema
  import opened Seqs

  const PointsFinish: int := 3
  const PointsPerCorrect: int := 1
  const PointsPerfectBonus: int := 2

  /** What the client submits: a quiz attempt without `id`, `createdAt` and `uid`. */
  datatype AttemptData = AttemptData(categoryFilter: string, total: int, correct: int, items: seq<AttemptItem>)

  datatype SubmitResult = SubmitResult(attemptId: string, pointsEarned: int)

  /** Finishing earns 3, each correct answer 1, and a perfect non-empty quiz a bonus of 2. */
  function PointsEarned(correct: int, total: int): (p: int)
    ensures p == correct + 3 || p == correct + 5
    ensures p == correct + 5 <==> correct == total && total > 0
  {
    PointsFinish + correct * PointsPerCorrect + (if correct == total && total > 0 then PointsPerfectBonus else 0)
  }

  lemma PointsExamples()
    ensures PointsEarned(5, 5) == 10 && PointsEarned(3, 5) == 6 && PointsEarned(0, 0) == 3
  {
  }

  function ItemValue(it: AttemptItem): Value {
    Obj(map["caseId" := Str(it.caseId), "selected" := Num(it.selected), "isCorrect" := Bool(it.isCorrect),
            "answeredAt" := Time(it.answeredAt)])
  }

  function ItemValues(items: seq<AttemptItem>): (vs: seq<Value>)
    ensures |vs| == |items|
    ensures forall k :: 0 <= k < |items| ==> vs[k] == ItemValue(items[k])
  {
    if items == [] then [] else [ItemValue(items[0])] + ItemValues(items[1..])
  }

  /** The attempt document: the submitted data with the owner, the employee id, the time and its own id. */
  function AttemptDoc(data: AttemptData, uid: string, emp: string, attemptId: string, now: int): Doc {
    map["categoryFilter" := Str(data.categoryFilter), "total" := Num(data.total), "correct" := Num(data.correct),
        "items" := Arr(ItemValues(data.items)), "uid" := Str(uid), "employeeId" := Str(emp),
        "createdAt" := Time(now), "id" := Str(attemptId)]
  }

  function UserStatsFields(uid: string, data: AttemptData, now: int): map<string, FieldWrite> {
    map["uid" := Op(Put(Str(uid))), "totalAttempts" := Op(Increment(1)), "totalAnswered" := Op(Increment(data.total)),
        "totalCorrect" := Op(Increment(data.correct)), "updatedAt" := Op(Put(Time(now)))]
  }

  function CaseStatsWrite(it: AttemptItem, now: int): Write {
    SetDoc("caseStats", it.caseId,
      map["caseId" := Op(Put(Str(it.caseId))), "totalAnswered" := Op(Increment(1)),
          "totalCorrect" := Op(Increment(if it.isCorrect then 1 else 0)), "updatedAt" := Op(Put(Time(now)))],
      true)
  }

  /** One merge into `caseStats/<caseId>` per item, in order. */
  function CaseStatsWrites(items: seq<AttemptItem>, now: int): (ws: seq<Write>)
    ensures |ws| == |items|
    ensures forall k :: 0 <= k < |ws| ==> ws[k].coll == "caseStats" && ws[k].id == items[k].caseId
    decreases |items|
  {
    if items == [] then []
    else
      var init := items[..|items| - 1];
      assert forall k :: 0 <= k < |init| ==> init[k] == items[k];
      CaseStatsWrites(init, now) + [CaseStatsWrite(items[|items| - 1], now)]
  }

  function PointsFields(uid: string, points: int, now: int): map<string, FieldWrite> {
    AwardFields(map["uid" := Op(Put(Str(uid))), "updatedAt" := Op(Put(Time(now)))], "quizPoints", points)
  }

  /** The `finish_quiz` event: targets the attempt and carries the score, the points and the category. */
  function FinishEvent(uid: string, emp: string, data: AttemptData, attemptId: string, points: int, now: int)
    : ResearchEvent
  {
    ResearchEvent(uid, Some(emp), Some(now), FinishQuiz, Some(QuizTarget), Some(attemptId),
      map["correct" := Num(data.correct), "total" := Num(data.total), "pointsEarned" := Num(points),
          "category" := Str(data.categoryFilter)])
  }

  function StatusFields(uid: string, attemptId: string, now: int): map<string, FieldWrite> {
    map["uid" := Op(Put(Str(uid))), "quizzesCompleted" := Op(ArrayUnion(Str(attemptId))),
        "updatedAt" := Op(Put(Time(now)))]
  }

  /** The field writes of the five fixed documents of the batch. */
  datatype Staged = Staged(attempt: map<string, FieldWrite>, userStats: map<string, FieldWrite>,
                           points: map<string, FieldWrite>, event: map<string, FieldWrite>,
                           status: map<string, FieldWrite>)

  function SubmitFields(db: Db, uid: string, data: AttemptData, attemptId: string, now: int): Staged {
    var emp := EmployeeIdOf(db, uid);
    var points := PointsEarned(data.correct, data.total);
    Staged(PutAll(AttemptDoc(data, uid, emp, attemptId, now)),
           UserStatsFields(uid, data, now),
           PointsFields(uid, points, now),
           PutAll(EventDoc(FinishEvent(uid, emp, data, attemptId, points, now))),
           StatusFields(uid, attemptId, now))
  }

  /** Which document each write of the batch names, in staging order: the attempt (created), the user's
    * totals, one write per answered case, the points, the event (created) and the completed-quiz list. */
  function Layout(uid: string, attemptId: string, eventId: string, items: seq<AttemptItem>, now: int, f: Staged)
    : seq<Write>
  {
    LayoutHead(uid, attemptId, f) + CaseStatsWrites(items, now) + LayoutRest(uid, eventId, f)
  }

  function LayoutHead(uid: string, attemptId: string, f: Staged): seq<Write> {
    [SetDoc("attempts", attemptId, f.attempt, false), SetDoc("userStats", uid, f.userStats, true)]
  }

  function LayoutRest(uid: string, eventId: string, f: Staged): seq<Write> {
    [SetDoc("pointsStats", uid, f.points, true), SetDoc("events", eventId, f.event, false),
     SetDoc("userContentStatus", uid, f.status, true)]
  }

  /** The batch `submitQuizAttempt` commits. */
  function SubmitBatch(db: Db, uid: string, data: AttemptData, attemptId: string, eventId: string, now: int)
    : seq<Write>
  {
    Layout(uid, attemptId, eventId, data.items, now, SubmitFields(db, uid, data, attemptId, now))
  }

  /** The loop over the answered items: one `caseStats` merge staged per item, in order. */
  method StageCaseStats(batch: seq<Write>, items: seq<AttemptItem>, now: int) returns (staged: seq<Write>)
    ensures staged == batch + CaseStatsWrites(items, now)
  {
    staged := batch;
    var i := 0;
    while i < |items|
      invariant 0 <= i <= |items|
      invariant staged == batch + CaseStatsWrites(items[..i], now)
    {
      assert items[..i + 1][..i] == items[..i];
      staged := staged + [CaseStatsWrite(items[i], now)];
      i := i + 1;
    }
    assert items[..i] == items;
  }

  /** Step 2 of the action: the points, accumulated as the source does. */
  method CalculatePoints(correct: int, total: int) returns (pointsEarned: int)
    ensures pointsEarned == PointsEarned(correct, total)
  {
    pointsEarned := PointsFinish;
    pointsEarned := pointsEarned + correct * PointsPerCorrect;
    if correct == total && total > 0 {
      pointsEarned := pointsEarned + PointsPerfectBonus;
    }
  }

  /** Steps 3 to 6 of the action: the writes staged on the batch, in order, with the field writes `f`. */
  method StageBatch(uid: string, attemptId: string, eventId: string, items: seq<AttemptItem>, now: int, f: Staged)
    returns (batch: seq<Write>)
    ensures batch == Layout(uid, attemptId, eventId, items, now, f)
  {
    batch := [SetDoc("attempts", attemptId, f.attempt, false)];
    batch := batch + [SetDoc("userStats", uid, f.userStats, true)];
    assert batch == LayoutHead(uid, attemptId, f);
    batch := StageCaseStats(batch, items, now);
    ghost var staged := batch;
    batch := batch + [SetDoc("pointsStats", uid, f.points, true)];
    batch := batch + [SetDoc("events", eventId, f.event, false)];
    batch := batch + [SetDoc("userContentStatus", uid, f.status, true)];
    assert batch == staged + LayoutRest(uid, eventId, f);
  }

  /** What `collection("caseStats").doc(id)` accepts without throwing: a non-empty id of one path segment. */
  predicate ValidDocId(id: string) {
    id != "" && '/' !in id
  }

  /** The index of the first item whose case id `doc()` refuses, if any. */
  function FirstInvalidCase(items: seq<AttemptItem>): (r: Option<nat>)
    ensures r.None? <==> forall k :: 0 <= k < |items| ==> ValidDocId(items[k].caseId)
    ensures r.Some? ==> r.value < |items| && !ValidDocId(items[r.value].caseId)
    ensures r.Some? ==> forall k :: 0 <= k < r.value ==> ValidDocId(items[k].caseId)
    decreases |items|
  {
    if items == [] then None
    else if !ValidDocId(items[0].caseId) then Some(0)
    else
      var rest := FirstInvalidCase(items[1..]);
      assert forall k :: 1 <= k < |items| ==> items[k] == items[1..][k - 1];
      if rest.None? then None else Some(rest.value + 1)
  }

  /** `submitQuizAttempt`. `attemptId` and `eventId` are the ids `doc()` generates and `now` the server time.
    * Nothing in the action catches an error, so each of these rejects it, and as the batch is never committed
    * (or is atomic), nothing is written: `readFailure`, the error of the user read; `pathError(id)`, what
    * `doc()` throws for the case id of the first item it refuses while the case writes are staged; and
    * `commitFailure`, the error of `batch.commit()`. */
  method SubmitQuizAttempt(db: Db, uid: string, data: AttemptData, attemptId: string, eventId: string, now: int,
                           readFailure: Option<string>, pathError: string -> string, commitFailure: Option<string>)
    returns (db': Db, r: Result<SubmitResult>)
    ensures uid == "" ==> r == Err("User ID is required") && db' == db
    ensures uid != "" && readFailure.Some? ==> r == Err(readFailure.value) && db' == db
    ensures uid != "" && readFailure.None? && FirstInvalidCase(data.items).Some? ==>
              r == Err(pathError(data.items[FirstInvalidCase(data.items).value].caseId)) && db' == db
    ensures uid != "" && readFailure.None? && FirstInvalidCase(data.items).None? && commitFailure.Some? ==>
              r == Err(commitFailure.value) && db' == db
    ensures uid != "" && readFailure.None? && FirstInvalidCase(data.items).None? && commitFailure.None? ==>
              r == Ok(SubmitResult(attemptId, PointsEarned(data.correct, data.total)))
              && db' == Commit(db, SubmitBatch(db, uid, data, attemptId, eventId, now))
  {
    if uid == "" {
      return db, Err("User ID is required");
    }
    if readFailure.Some? {
      return db, Err(readFailure.value);
    }
    var pointsEarned := CalculatePoints(data.correct, data.total);
    var bad := FirstInvalidCase(data.items);
    if bad.Some? {
      return db, Err(pathError(data.items[bad.value].caseId));
    }
    var batch := StageBatch(uid, attemptId, eventId, data.items, now, SubmitFields(db, uid, data, attemptId, now));
    if commitFailure.Some? {
      return db, Err(commitFailure.value);
    }
    db' := CommitBatch(db, batch);
    r := Ok(SubmitResult(attemptId, pointsEarned));
  }

  /** An item with an empty case id (also how a non-string id reads) makes the action reject at that item or
    * at an earlier refused one. */
  lemma EmptyCaseIdRejects(items: seq<AttemptItem>, k: nat)
    requires k < |items| && items[k].caseId == ""
    ensures FirstInvalidCase(items).Some? && FirstInvalidCase(items).value <= k
  {
  }

  // ---------------------------------------------------------------------------------------
  // Where each write of the layout lands
  // ---------------------------------------------------------------------------------------

  /** The attempt document is named by the first write alone. */
  lemma LayoutAttempt(db: Db, uid: string, attemptId: string, eventId: string, items: seq<AttemptItem>, now: int,
                      f: Staged)
    ensures Get(Commit(db, Layout(uid, attemptId, eventId, items, now, f)), "attempts", attemptId)
         == Some(ApplyFields(map[], f.attempt))
  {
    var aw := SetDoc("attempts", attemptId, f.attempt, false);
    var post := Layout(uid, attemptId, eventId, items, now, f)[1..];
    assert Layout(uid, attemptId, eventId, items, now, f) == [] + [aw] + post;
    CommitSingle(db, [], aw, post);
  }

  /** The user's totals are named by the second write alone. */
  lemma LayoutUserStats(db: Db, uid: string, attemptId: string, eventId: string, items: seq<AttemptItem>, now: int,
                        f: Staged)
    ensures Get(Commit(db, Layout(uid, attemptId, eventId, items, now, f)), "userStats", uid)
         == Some(ApplyFields(GetOrEmpty(db, "userStats", uid), f.userStats))
  {
    var l := Layout(uid, attemptId, eventId, items, now, f);
    var uw := SetDoc("userStats", uid, f.userStats, true);
    assert l == l[..1] + [uw] + l[2..];
    CommitSingle(db, l[..1], uw, l[2..]);
  }

  /** The points document is named by the third write from the end alone. */
  lemma LayoutPoints(db: Db, uid: string, attemptId: string, eventId: string, items: seq<AttemptItem>, now: int,
                     f: Staged)
    ensures Get(Commit(db, Layout(uid, attemptId, eventId, items, now, f)), "pointsStats", uid)
         == Some(ApplyFields(GetOrEmpty(db, "pointsStats", uid), f.points))
  {
    var l := Layout(uid, attemptId, eventId, items, now, f);
    var n := |l| - 3;
    var pw := SetDoc("pointsStats", uid, f.points, true);
    assert l == l[..n] + [pw] + l[n + 1..];
    CommitSingle(db, l[..n], pw, l[n + 1..]);
  }

  /** The event document is named by the second write from the end alone. */
  lemma LayoutEvent(db: Db, uid: string, attemptId: string, eventId: string, items: seq<AttemptItem>, now: int,
                    f: Staged)
    ensures Get(Commit(db, Layout(uid, attemptId, eventId, items, now, f)), "events", eventId)
         == Some(ApplyFields(map[], f.event))
  {
    var l := Layout(uid, attemptId, eventId, items, now, f);
    var n := |l| - 2;
    var ew := SetDoc("events", eventId, f.event, false);
    assert l == l[..n] + [ew] + l[n + 1..];
    CommitSingle(db, l[..n], ew, l[n + 1..]);
  }

  /** The completed-quiz list is named by the last write alone. */
  lemma LayoutStatus(db: Db, uid: string, attemptId: string, eventId: string, items: seq<AttemptItem>, now: int,
                     f: Staged)
    ensures Get(Commit(db, Layout(uid, attemptId, eventId, items, now, f)), "userContentStatus", uid)
         == Some(ApplyFields(GetOrEmpty(db, "userContentStatus", uid), f.status))
  {
    var l := Layout(uid, attemptId, eventId, items, now, f);
    var n := |l| - 1;
    var sw := SetDoc("userContentStatus", uid, f.status, true);
    assert l == l[..n] + [sw] + [];
    CommitSingle(db, l[..n], sw, []);
  }

  /** Each case's counters grow by its items in the batch and by its correct ones. */
  lemma LayoutCaseStats(db: Db, uid: string, attemptId: string, eventId: string, items: seq<AttemptItem>, now: int,
                        f: Staged, c: string)
    ensures var d0 := GetOrEmpty(db, "caseStats", c);
      var d1 := GetOrEmpty(Commit(db, Layout(uid, attemptId, eventId, items, now, f)), "caseStats", c);
      && NumOf(Field(d1, "totalAnswered")) == NumOf(Field(d0, "totalAnswered")) + Count(items, ItemOn(c))
      && NumOf(Field(d1, "totalCorrect")) == NumOf(Field(d0, "totalCorrect")) + Count(items, CorrectOn(c))
  {
    var pre := LayoutHead(uid, attemptId, f);
    var cw := CaseStatsWrites(items, now);
    LayoutCaseDoc(db, uid, attemptId, eventId, items, now, f, c);
    CommitAppend(db, pre, cw);
    CommitFrameCollection(db, pre, "caseStats", c);
    CaseStatsEffect(Commit(db, pre), items, c, now);
  }

  /** The writes after the per-case ones do not touch a case's document. */
  lemma LayoutCaseDoc(db: Db, uid: string, attemptId: string, eventId: string, items: seq<AttemptItem>, now: int,
                      f: Staged, c: string)
    ensures Get(Commit(db, Layout(uid, attemptId, eventId, items, now, f)), "caseStats", c)
         == Get(Commit(db, LayoutHead(uid, attemptId, f) + CaseStatsWrites(items, now)), "caseStats", c)
  {
    CommitSuffixFrame(db, LayoutHead(uid, attemptId, f) + CaseStatsWrites(items, now), LayoutRest(uid, eventId, f),
                      "caseStats", c);
  }

  /** Documents of collections the batch does not write are unchanged. */
  lemma LayoutFrame(db: Db, uid: string, attemptId: string, eventId: string, items: seq<AttemptItem>, now: int,
                    f: Staged, c: string, i: string)
    requires c != "attempts" && c != "userStats" && c != "caseStats" && c != "pointsStats" && c != "events"
             && c != "userContentStatus"
    ensures Get(Commit(db, Layout(uid, attemptId, eventId, items, now, f)), c, i) == Get(db, c, i)
  {
    CommitFrameCollection(db, Layout(uid, attemptId, eventId, items, now, f), c, i);
  }

  function ItemOn(c: string): AttemptItem -> bool {
    (it: AttemptItem) => it.caseId == c
  }

  function CorrectOn(c: string): AttemptItem -> bool {
    (it: AttemptItem) => it.caseId == c && it.isCorrect
  }

  /** One per-case write adds 1 (and 1 more when correct) to its own case and leaves every other case alone. */
  lemma CaseStatsStep(db: Db, it: AttemptItem, now: int, c: string)
    ensures var d0 := GetOrEmpty(db, "caseStats", c);
      var d1 := GetOrEmpty(Apply(db, CaseStatsWrite(it, now)), "caseStats", c);
      && NumOf(Field(d1, "totalAnswered")) == NumOf(Field(d0, "totalAnswered")) + (if ItemOn(c)(it) then 1 else 0)
      && NumOf(Field(d1, "totalCorrect")) == NumOf(Field(d0, "totalCorrect")) + (if CorrectOn(c)(it) then 1 else 0)
  {
  }

  /** The per-case writes add, to each case's counters, the number of its items and of its correct items:
    * a case answered twice in one attempt is counted twice. */
  lemma {:induction false} CaseStatsEffect(db: Db, items: seq<AttemptItem>, c: string, now: int)
    ensures var d0 := GetOrEmpty(db, "caseStats", c);
      var d1 := GetOrEmpty(Commit(db, CaseStatsWrites(items, now)), "caseStats", c);
      && NumOf(Field(d1, "totalAnswered")) == NumOf(Field(d0, "totalAnswered")) + Count(items, ItemOn(c))
      && NumOf(Field(d1, "totalCorrect")) == NumOf(Field(d0, "totalCorrect")) + Count(items, CorrectOn(c))
    decreases |items|
  {
    if items != [] {
      var n := |items| - 1;
      var init := items[..n];
      var it := items[n];
      var ws := CaseStatsWrites(init, now);
      var w := CaseStatsWrite(it, now);
      CaseStatsEffect(db, init, c, now);
      assert CaseStatsWrites(items, now) == ws + [w];
      CommitAppend(db, ws, [w]);
      CommitOne(Commit(db, ws), w);
      CaseStatsStep(Commit(db, ws), it, now, c);
      assert items == init + [it];
      CountSnoc(init, it, ItemOn(c));
      CountSnoc(init, it, CorrectOn(c));
    }
  }

  // ---------------------------------------------------------------------------------------
  // What the committed batch does
  // ---------------------------------------------------------------------------------------

  lemma UserStatsApplied(d0: Doc, uid: string, data: AttemptData, now: int)
    ensures var d1 := ApplyFields(d0, UserStatsFields(uid, data, now));
      && NumOf(Field(d1, "totalAttempts")) == NumOf(Field(d0, "totalAttempts")) + 1
      && NumOf(Field(d1, "totalAnswered")) == NumOf(Field(d0, "totalAnswered")) + data.total
      && NumOf(Field(d1, "totalCorrect")) == NumOf(Field(d0, "totalCorrect")) + data.correct
  {
  }

  lemma StatusApplied(d0: Doc, uid: string, attemptId: string, now: int)
    ensures var d1 := ApplyFields(d0, StatusFields(uid, attemptId, now));
      forall x :: x in ArrOf(Field(d1, "quizzesCompleted")) <==>
        x in ArrOf(Field(d0, "quizzesCompleted")) || x == Str(attemptId)
  {
    var d1 := ApplyFields(d0, StatusFields(uid, attemptId, now));
    assert d1["quizzesCompleted"] == ApplyOp(Field(d0, "quizzesCompleted"), ArrayUnion(Str(attemptId)));
  }

  /** The user's totals: one more attempt, `total` more answers and `correct` more correct answers. */
  lemma SubmitUserStats(db: Db, uid: string, data: AttemptData, attemptId: string, eventId: string, now: int)
    ensures var d0 := GetOrEmpty(db, "userStats", uid);
      var d1 := GetOrEmpty(Commit(db, SubmitBatch(db, uid, data, attemptId, eventId, now)), "userStats", uid);
      && NumOf(Field(d1, "totalAttempts")) == NumOf(Field(d0, "totalAttempts")) + 1
      && NumOf(Field(d1, "totalAnswered")) == NumOf(Field(d0, "totalAnswered")) + data.total
      && NumOf(Field(d1, "totalCorrect")) == NumOf(Field(d0, "totalCorrect")) + data.correct
  {
    LayoutUserStats(db, uid, attemptId, eventId, data.items, now, SubmitFields(db, uid, data, attemptId, now));
    UserStatsApplied(GetOrEmpty(db, "userStats", uid), uid, data, now);
  }

  /** Each case's counters grow by its items in this attempt; those of other cases are unchanged. */
  lemma SubmitCaseStats(db: Db, uid: string, data: AttemptData, attemptId: string, eventId: string, now: int,
                        c: string)
    ensures var d0 := GetOrEmpty(db, "caseStats", c);
      var d1 := GetOrEmpty(Commit(db, SubmitBatch(db, uid, data, attemptId, eventId, now)), "caseStats", c);
      && NumOf(Field(d1, "totalAnswered")) == NumOf(Field(d0, "totalAnswered")) + Count(data.items, ItemOn(c))
      && NumOf(Field(d1, "totalCorrect")) == NumOf(Field(d0, "totalCorrect")) + Count(data.items, CorrectOn(c))
  {
    LayoutCaseStats(db, uid, attemptId, eventId, data.items, now, SubmitFields(db, uid, data, attemptId, now), c);
  }

  /** The award: `totalPoints` and `pointsBreakdown.quizPoints` both grow by the points earned, so
    * `totalPoints - Σ pointsBreakdown` is unchanged. */
  lemma SubmitPoints(db: Db, uid: string, data: AttemptData, attemptId: string, eventId: string, now: int)
    ensures var d0 := GetOrEmpty(db, "pointsStats", uid);
      var d1 := GetOrEmpty(Commit(db, SubmitBatch(db, uid, data, attemptId, eventId, now)), "pointsStats", uid);
      && NumOf(Field(d1, "totalPoints")) == NumOf(Field(d0, "totalPoints")) + PointsEarned(data.correct, data.total)
      && NumOf(Field(ObjOf(Field(d1, "pointsBreakdown")), "quizPoints"))
         == NumOf(Field(ObjOf(Field(d0, "pointsBreakdown")), "quizPoints")) + PointsEarned(data.correct, data.total)
      && (forall b :: b != "quizPoints" ==>
            Field(ObjOf(Field(d1, "pointsBreakdown")), b) == Field(ObjOf(Field(d0, "pointsBreakdown")), b))
      && Balance(d1) == Balance(d0)
  {
    var d0 := GetOrEmpty(db, "pointsStats", uid);
    var others := map["uid" := Op(Put(Str(uid))), "updatedAt" := Op(Put(Time(now)))];
    var delta := PointsEarned(data.correct, data.total);
    LayoutPoints(db, uid, attemptId, eventId, data.items, now, SubmitFields(db, uid, data, attemptId, now));
    AwardKeepsBalance(d0, others, "quizPoints", delta);
    AwardBucket(d0, others, "quizPoints", delta);
    forall b | b != "quizPoints"
      ensures Field(ObjOf(Field(ApplyFields(d0, AwardFields(others, "quizPoints", delta)), "pointsBreakdown")), b)
           == Field(ObjOf(Field(d0, "pointsBreakdown")), b)
    {
      AwardOtherBucket(d0, others, "quizPoints", delta, b);
    }
  }

  /** The `finish_quiz` event is stored under the new event id and reads back as that event. */
  lemma SubmitEvent(db: Db, uid: string, data: AttemptData, attemptId: string, eventId: string, now: int)
    ensures var e := FinishEvent(uid, EmployeeIdOf(db, uid), data, attemptId, PointsEarned(data.correct, data.total), now);
      var d := Get(Commit(db, SubmitBatch(db, uid, data, attemptId, eventId, now)), "events", eventId);
      && d == Some(EventDoc(e))
      && DecodeEvent(d.value) == Some(e)
  {
    var e := FinishEvent(uid, EmployeeIdOf(db, uid), data, attemptId, PointsEarned(data.correct, data.total), now);
    LayoutEvent(db, uid, attemptId, eventId, data.items, now, SubmitFields(db, uid, data, attemptId, now));
    PutAllStores(EventDoc(e));
    EventRoundTrip(e);
  }

  /** The completed-quiz list gains the attempt id and keeps everything it had (set union). */
  lemma SubmitStatus(db: Db, uid: string, data: AttemptData, attemptId: string, eventId: string, now: int)
    ensures var d0 := GetOrEmpty(db, "userContentStatus", uid);
      var d1 := GetOrEmpty(Commit(db, SubmitBatch(db, uid, data, attemptId, eventId, now)), "userContentStatus", uid);
      forall x :: x in ArrOf(Field(d1, "quizzesCompleted")) <==>
        x in ArrOf(Field(d0, "quizzesCompleted")) || x == Str(attemptId)
  {
    LayoutStatus(db, uid, attemptId, eventId, data.items, now, SubmitFields(db, uid, data, attemptId, now));
    StatusApplied(GetOrEmpty(db, "userContentStatus", uid), uid, attemptId, now);
  }

  /** The attempt document holds the submitted data with owner, employee id, time and its own id. */
  lemma SubmitAttemptDoc(db: Db, uid: string, data: AttemptData, attemptId: string, eventId: string, now: int)
    ensures Get(Commit(db, SubmitBatch(db, uid, data, attemptId, eventId, now)), "attempts", attemptId)
         == Some(AttemptDoc(data, uid, EmployeeIdOf(db, uid), attemptId, now))
  {
    LayoutAttempt(db, uid, attemptId, eventId, data.items, now, SubmitFields(db, uid, data, attemptId, now));
    PutAllStores(AttemptDoc(data, uid, EmployeeIdOf(db, uid), attemptId, now));
  }

  /** Documents outside the six collections the batch writes are unchanged. */
  lemma SubmitFrame(db: Db, uid: string, data: AttemptData, attemptId: string, eventId: string, now: int,
                    c: string, i: string)
    requires c != "attempts" && c != "userStats" && c != "caseStats" && c != "pointsStats" && c != "events"
             && c != "userContentStatus"
    ensures Get(Commit(db, SubmitBatch(db, uid, data, attemptId, eventId, now)), c, i) == Get(db, c, i)
  {
    LayoutFrame(db, uid, attemptId, eventId, data.items, now, SubmitFields(db, uid, data, attemptId, now), c, i);
  }

  /** Each call makes a new attempt, so submitting the same data twice counts two attempts. */
  lemma ResubmissionCountsTwice(db: Db, uid: string, data: AttemptData, a1: string, e1: string, a2: string,
                                e2: string, now: int)
    ensures var db1 := Commit(db, SubmitBatch(db, uid, data, a1, e1, now));
      var db2 := Commit(db1, SubmitBatch(db1, uid, data, a2, e2, now));
      NumOf(Field(GetOrEmpty(db2, "userStats", uid), "totalAttempts"))
        == NumOf(Field(GetOrEmpty(db, "userStats", uid), "totalAttempts")) + 2
  {
    SubmitUserStats(db, uid, data, a1, e1, now);
    SubmitUserStats(Commit(db, SubmitBatch(db, uid, data, a1, e1, now)), uid, data, a2, e2, now);
  }
}
