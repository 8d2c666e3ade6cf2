/**
 * `logView`: records that a user opened a case or a paper. One batch stages the view event and the
 * union of the id into the user's read list, and, when the id was not in that list as read before the
 * commit, a point for first reading.
 */
module LogView {
  import opened Wrappers
  import opened Store
  import opened Schema

  datatype ViewType = CaseView | PaperView

  /** The read list a view goes to. */
  function ReadList(t: ViewType): string {
    if t == CaseView then "casesRead" else "papersRead"
  }

  /** The read list a view does not touch. */
  function OtherList(t: ViewType): string {
    if t == CaseView then "papersRead" else "casesRead"
  }

  function ViewAction(t: ViewType): EventAction {
    if t == CaseView then ViewCase else ViewLiterature
  }

  function ViewTarget(t: ViewType): TargetType {
    if t == CaseView then CaseTarget else PaperTarget
  }

  function ViewEvent(uid: string, emp: string, t: ViewType, id: string, meta: map<string, Value>, now: int)
    : ResearchEvent
  {
    ResearchEvent(uid, Some(emp), Some(now), ViewAction(t), Some(ViewTarget(t)), Some(id), meta)
  }

  /** `list.includes(id)` on the read list as stored before the commit (a missing list is empty). */
  predicate AlreadyRead(db: Db, uid: string, t: ViewType, id: string) {
    Str(id) in ArrOf(Field(GetOrEmpty(db, "userContentStatus", uid), ReadList(t)))
  }

  function StatusFields(uid: string, t: ViewType, id: string, now: int): map<string, FieldWrite> {
    map["uid" := Op(Put(Str(uid))), ReadList(t) := Op(ArrayUnion(Str(id))), "updatedAt" := Op(Put(Time(now)))]
  }

  /** One point for a first read, in the `contentPoints` bucket. */
  function PointsFields(uid: string, now: int): map<string, FieldWrite> {
    AwardFields(map["uid" := Op(Put(Str(uid))), "updatedAt" := Op(Put(Time(now)))], "contentPoints", 1)
  }

  /** The staged writes: the event (created), the read list (merged) and, on a first read, the points. */
  function ViewLayout(uid: string, eventId: string, award: bool, event: map<string, FieldWrite>,
                      status: map<string, FieldWrite>, points: map<string, FieldWrite>): seq<Write>
  {
    [SetDoc("events", eventId, event, false), SetDoc("userContentStatus", uid, status, true)]
    + (if award then [SetDoc("pointsStats", uid, points, true)] else [])
  }

  function ViewBatch(db: Db, uid: string, t: ViewType, id: string, meta: map<string, Value>, eventId: string,
                     now: int): seq<Write>
  {
    ViewLayout(uid, eventId, !AlreadyRead(db, uid, t, id),
               PutAll(EventDoc(ViewEvent(uid, EmployeeIdOf(db, uid), t, id, meta, now))),
               StatusFields(uid, t, id, now), PointsFields(uid, now))
  }

  /** The store after `logView`: unchanged for an empty uid, else the batch committed. */
  function ViewResult(db: Db, uid: string, t: ViewType, id: string, meta: map<string, Value>, eventId: string,
                      now: int): Db
  {
    if uid == "" then db else Commit(db, ViewBatch(db, uid, t, id, meta, eventId, now))
  }

  /** `logView`. `eventId` is the id `doc()` generates and `now` the server time. `failure` is the error of the
    * first of its remote calls (the user read, the status read, `batch.commit()`) that rejects: nothing catches
    * it, so the action rejects with it and, the batch being atomic, writes nothing. The result is `Ok(true)` for
    * `{ success: true }` and `Ok(false)` for the bare `return` on an empty uid. */
  method LogView(db: Db, uid: string, t: ViewType, id: string, meta: map<string, Value>, eventId: string, now: int,
                 failure: Option<string>)
    returns (db': Db, r: Result<bool>)
    ensures uid == "" ==> db' == db && r == Ok(false)
    ensures uid != "" && failure.Some? ==> db' == db && r == Err(failure.value)
    ensures uid != "" && failure.None? ==> r == Ok(true) && db' == Commit(db, ViewBatch(db, uid, t, id, meta, eventId, now))
  {
    if uid == "" {
      return db, Ok(false);
    }
    var employeeId := EmployeeIdOf(db, uid);
    var event := PutAll(EventDoc(ViewEvent(uid, employeeId, t, id, meta, now)));
    var batch := [SetDoc("events", eventId, event, false)];
    var status := StatusFields(uid, t, id, now);
    batch := batch + [SetDoc("userContentStatus", uid, status, true)];
    var list := ArrOf(Field(GetOrEmpty(db, "userContentStatus", uid), ReadList(t)));
    var points := PointsFields(uid, now);
    if Str(id) !in list {
      batch := batch + [SetDoc("pointsStats", uid, points, true)];
    }
    assert batch == ViewLayout(uid, eventId, Str(id) !in list, event, status, points);
    if failure.Some? {
      return db, Err(failure.value);
    }
    db' := CommitBatch(db, batch);
    r := Ok(true);
  }

  // ---------------------------------------------------------------------------------------
  // Where each write of the layout lands
  // ---------------------------------------------------------------------------------------

  lemma LayoutEvent(db: Db, uid: string, eventId: string, award: bool, event: map<string, FieldWrite>,
                    status: map<string, FieldWrite>, points: map<string, FieldWrite>)
    ensures Get(Commit(db, ViewLayout(uid, eventId, award, event, status, points)), "events", eventId)
         == Some(ApplyFields(map[], event))
  {
    var l := ViewLayout(uid, eventId, award, event, status, points);
    assert l == [] + [l[0]] + l[1..];
    CommitSingle(db, [], l[0], l[1..]);
  }

  lemma LayoutStatus(db: Db, uid: string, eventId: string, award: bool, event: map<string, FieldWrite>,
                     status: map<string, FieldWrite>, points: map<string, FieldWrite>)
    ensures Get(Commit(db, ViewLayout(uid, eventId, award, event, status, points)), "userContentStatus", uid)
         == Some(ApplyFields(GetOrEmpty(db, "userContentStatus", uid), status))
  {
    var l := ViewLayout(uid, eventId, award, event, status, points);
    assert l == l[..1] + [l[1]] + l[2..];
    CommitSingle(db, l[..1], l[1], l[2..]);
  }

  lemma LayoutPoints(db: Db, uid: string, eventId: string, award: bool, event: map<string, FieldWrite>,
                     status: map<string, FieldWrite>, points: map<string, FieldWrite>)
    ensures var d := Get(Commit(db, ViewLayout(uid, eventId, award, event, status, points)), "pointsStats", uid);
      && (award ==> d == Some(ApplyFields(GetOrEmpty(db, "pointsStats", uid), points)))
      && (!award ==> d == Get(db, "pointsStats", uid))
  {
    var l := ViewLayout(uid, eventId, award, event, status, points);
    if award {
      assert l == l[..2] + [l[2]] + [];
      CommitSingle(db, l[..2], l[2], []);
    } else {
      CommitFrameCollection(db, l, "pointsStats", uid);
    }
  }

  lemma LayoutFrame(db: Db, uid: string, eventId: string, award: bool, event: map<string, FieldWrite>,
                    status: map<string, FieldWrite>, points: map<string, FieldWrite>, c: string, i: string)
    requires c != "events" && c != "userContentStatus" && c != "pointsStats"
    ensures Get(Commit(db, ViewLayout(uid, eventId, award, event, status, points)), c, i) == Get(db, c, i)
  {
    CommitFrameCollection(db, ViewLayout(uid, eventId, award, event, status, points), c, i);
  }

  // ---------------------------------------------------------------------------------------
  // What one view does
  // ---------------------------------------------------------------------------------------

  /** Every view stores one event, `view_case` or `view_literature`, targeting the id. */
  lemma ViewLogsEvent(db: Db, uid: string, t: ViewType, id: string, meta: map<string, Value>, eventId: string,
                      now: int)
    requires uid != ""
    ensures var e := ViewEvent(uid, EmployeeIdOf(db, uid), t, id, meta, now);
      var d := Get(ViewResult(db, uid, t, id, meta, eventId, now), "events", eventId);
      && d == Some(EventDoc(e))
      && DecodeEvent(d.value) == Some(e)
      && e.action == (if t == CaseView then ViewCase else ViewLiterature)
      && e.targetId == Some(id)
  {
    var e := ViewEvent(uid, EmployeeIdOf(db, uid), t, id, meta, now);
    LayoutEvent(db, uid, eventId, !AlreadyRead(db, uid, t, id), PutAll(EventDoc(e)), StatusFields(uid, t, id, now),
                PointsFields(uid, now));
    PutAllStores(EventDoc(e));
    EventRoundTrip(e);
  }

  lemma StatusApplied(d0: Doc, uid: string, t: ViewType, id: string, now: int)
    ensures var d1 := ApplyFields(d0, StatusFields(uid, t, id, now));
      && (forall x :: x in ArrOf(Field(d1, ReadList(t))) <==> x in ArrOf(Field(d0, ReadList(t))) || x == Str(id))
      && Field(d1, OtherList(t)) == Field(d0, OtherList(t))
  {
    var d1 := ApplyFields(d0, StatusFields(uid, t, id, now));
    assert d1[ReadList(t)] == ApplyOp(Field(d0, ReadList(t)), ArrayUnion(Str(id)));
  }

  /** Afterwards the id is in the view's read list, which keeps what it had; the other list is untouched. */
  lemma ViewMarksRead(db: Db, uid: string, t: ViewType, id: string, meta: map<string, Value>, eventId: string,
                      now: int)
    requires uid != ""
    ensures var d0 := GetOrEmpty(db, "userContentStatus", uid);
      var d1 := GetOrEmpty(ViewResult(db, uid, t, id, meta, eventId, now), "userContentStatus", uid);
      && (forall x :: x in ArrOf(Field(d1, ReadList(t))) <==> x in ArrOf(Field(d0, ReadList(t))) || x == Str(id))
      && Field(d1, OtherList(t)) == Field(d0, OtherList(t))
      && AlreadyRead(ViewResult(db, uid, t, id, meta, eventId, now), uid, t, id)
  {
    var e := ViewEvent(uid, EmployeeIdOf(db, uid), t, id, meta, now);
    LayoutStatus(db, uid, eventId, !AlreadyRead(db, uid, t, id), PutAll(EventDoc(e)), StatusFields(uid, t, id, now),
                 PointsFields(uid, now));
    StatusApplied(GetOrEmpty(db, "userContentStatus", uid), uid, t, id, now);
  }

  /** The award: one point to `totalPoints` and to `contentPoints` iff the id was not read before; the
    * points document is untouched otherwise, and `totalPoints - Σ pointsBreakdown` is kept either way. */
  lemma ViewAwards(db: Db, uid: string, t: ViewType, id: string, meta: map<string, Value>, eventId: string,
                   now: int)
    requires uid != ""
    ensures var d0 := GetOrEmpty(db, "pointsStats", uid);
      var d1 := GetOrEmpty(ViewResult(db, uid, t, id, meta, eventId, now), "pointsStats", uid);
      var delta := if AlreadyRead(db, uid, t, id) then 0 else 1;
      && NumOf(Field(d1, "totalPoints")) == NumOf(Field(d0, "totalPoints")) + delta
      && NumOf(Field(ObjOf(Field(d1, "pointsBreakdown")), "contentPoints"))
         == NumOf(Field(ObjOf(Field(d0, "pointsBreakdown")), "contentPoints")) + delta
      && Balance(d1) == Balance(d0)
  {
    var e := ViewEvent(uid, EmployeeIdOf(db, uid), t, id, meta, now);
    var d0 := GetOrEmpty(db, "pointsStats", uid);
    LayoutPoints(db, uid, eventId, !AlreadyRead(db, uid, t, id), PutAll(EventDoc(e)), StatusFields(uid, t, id, now),
                 PointsFields(uid, now));
    if !AlreadyRead(db, uid, t, id) {
      var others := map["uid" := Op(Put(Str(uid))), "updatedAt" := Op(Put(Time(now)))];
      AwardKeepsBalance(d0, others, "contentPoints", 1);
      AwardBucket(d0, others, "contentPoints", 1);
    }
  }

  /** Documents outside the three collections the batch writes are unchanged. */
  lemma ViewFrame(db: Db, uid: string, t: ViewType, id: string, meta: map<string, Value>, eventId: string, now: int,
                  c: string, i: string)
    requires c != "events" && c != "userContentStatus" && c != "pointsStats"
    ensures Get(ViewResult(db, uid, t, id, meta, eventId, now), c, i) == Get(db, c, i)
  {
    if uid != "" {
      var e := ViewEvent(uid, EmployeeIdOf(db, uid), t, id, meta, now);
      LayoutFrame(db, uid, eventId, !AlreadyRead(db, uid, t, id), PutAll(EventDoc(e)), StatusFields(uid, t, id, now),
                  PointsFields(uid, now), c, i);
    }
  }

  // ---------------------------------------------------------------------------------------
  // Repeated views
  // ---------------------------------------------------------------------------------------

  /** The store after one view of the same id per event id, in order. */
  function ViewMany(db: Db, uid: string, t: ViewType, id: string, meta: map<string, Value>, eventIds: seq<string>,
                    now: int): Db
    decreases |eventIds|
  {
    if eventIds == [] then db
    else ViewMany(ViewResult(db, uid, t, id, meta, eventIds[0], now), uid, t, id, meta, eventIds[1..], now)
  }

  /** Viewing an id that is already read awards nothing. */
  lemma {:induction false} RepeatViewsAwardNothing(db: Db, uid: string, t: ViewType, id: string,
                                                   meta: map<string, Value>, eventIds: seq<string>, now: int)
    requires uid != "" && AlreadyRead(db, uid, t, id)
    ensures var d1 := GetOrEmpty(ViewMany(db, uid, t, id, meta, eventIds, now), "pointsStats", uid);
      NumOf(Field(d1, "totalPoints")) == NumOf(Field(GetOrEmpty(db, "pointsStats", uid), "totalPoints"))
    decreases |eventIds|
  {
    if eventIds != [] {
      var db1 := ViewResult(db, uid, t, id, meta, eventIds[0], now);
      ViewAwards(db, uid, t, id, meta, eventIds[0], now);
      ViewMarksRead(db, uid, t, id, meta, eventIds[0], now);
      RepeatViewsAwardNothing(db1, uid, t, id, meta, eventIds[1..], now);
    }
  }

  /** N >= 1 views of the same id award exactly one point in total, or none if it was already read. */
  lemma ViewsAwardOnce(db: Db, uid: string, t: ViewType, id: string, meta: map<string, Value>, eventIds: seq<string>,
                       now: int)
    requires uid != "" && |eventIds| >= 1
    ensures var d1 := GetOrEmpty(ViewMany(db, uid, t, id, meta, eventIds, now), "pointsStats", uid);
      NumOf(Field(d1, "totalPoints"))
        == NumOf(Field(GetOrEmpty(db, "pointsStats", uid), "totalPoints")) + (if AlreadyRead(db, uid, t, id) then 0 else 1)
  {
    var db1 := ViewResult(db, uid, t, id, meta, eventIds[0], now);
    ViewAwards(db, uid, t, id, meta, eventIds[0], now);
    ViewMarksRead(db, uid, t, id, meta, eventIds[0], now);
    RepeatViewsAwardNothing(db1, uid, t, id, meta, eventIds[1..], now);
  }

  /** The bucket a first read is awarded to is not one the schema declares. */
  lemma ContentBucketUndeclared()
    ensures "contentPoints" !in DeclaredBuckets
  {
    assert forall b :: b in DeclaredBuckets ==> |b| <= 11;
  }

  /** The first-read point goes to `contentPoints` only: every other bucket of the breakdown, the declared
    * ones included, is left as it was. */
  lemma ViewLeavesDeclaredBuckets(db: Db, uid: string, t: ViewType, id: string, meta: map<string, Value>,
                                  eventId: string, now: int)
    requires uid != ""
    ensures var b0 := ObjOf(Field(GetOrEmpty(db, "pointsStats", uid), "pointsBreakdown"));
      var b1 := ObjOf(Field(GetOrEmpty(ViewResult(db, uid, t, id, meta, eventId, now), "pointsStats", uid),
                            "pointsBreakdown"));
      forall b :: b != "contentPoints" ==> Field(b1, b) == Field(b0, b)
  {
    var e := ViewEvent(uid, EmployeeIdOf(db, uid), t, id, meta, now);
    var d0 := GetOrEmpty(db, "pointsStats", uid);
    LayoutPoints(db, uid, eventId, !AlreadyRead(db, uid, t, id), PutAll(EventDoc(e)), StatusFields(uid, t, id, now),
                 PointsFields(uid, now));
    if !AlreadyRead(db, uid, t, id) {
      var others := map["uid" := Op(Put(Str(uid))), "updatedAt" := Op(Put(Time(now)))];
      forall b | b != "contentPoints"
        ensures Field(ObjOf(Field(ApplyFields(d0, PointsFields(uid, now)), "pointsBreakdown")), b)
             == Field(ObjOf(Field(d0, "pointsBreakdown")), b)
      {
        AwardOtherBucket(d0, others, "contentPoints", 1, b);
      }
    }
  }
}
