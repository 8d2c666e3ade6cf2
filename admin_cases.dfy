/**
 * The admin case list: the status and category filters, the status buttons each row offers, the status
 * write a button makes, and the local removal of a deleted case. `cases` is the list the page fetched.
 */
module AdminCases {
  import opened Wrappers
  import opened Store
  import opened Schema
  import opened Seqs
  import DeleteContent

  // ---------------------------------------------------------------------------------------
  // Status transitions
  // ---------------------------------------------------------------------------------------

  /** The statuses a row's buttons move a case to: Publish for a draft, Unpublish for a published case,
    * Archive for both, and Restore to Draft for an archived one. */
  function Offered(s: Status): (r: set<Status>)
    ensures s !in r
    ensures Published in r <==> s == Draft
    ensures Draft in r <==> s != Draft
    ensures Archived in r <==> s != Archived
  {
    match s
    case Draft => {Published, Archived}
    case Published => {Draft, Archived}
    case Archived => {Draft}
  }

  /** An archived case goes back through draft before it can be published again. */
  lemma ArchivedRepublishesViaDraft()
    ensures Published !in Offered(Archived)
    ensures Draft in Offered(Archived) && Published in Offered(Draft)
  {
  }

  /** Every status can be reached from every other in at most two clicks. */
  lemma {:induction false} AllStatusesReachable(s: Status, t: Status)
    ensures s == t || t in Offered(s) || exists m :: m in Offered(s) && t in Offered(m)
  {
    if s != t && t !in Offered(s) {
      assert s == Archived && t == Published;
      assert Draft in Offered(s) && t in Offered(Draft);
    }
  }

  /** `updateDoc(caseRef, { status, updatedAt: Timestamp.now() })`. */
  function StatusWrite(caseId: string, newStatus: Status, now: int): Write {
    SetDoc("cases", caseId, map["status" := Op(Put(Str(StatusName(newStatus)))), "updatedAt" := Op(Put(Time(now)))], true)
  }

  /** `handleStatusChange`. `updateDoc` throws on a missing document or when `writeFails`; the error is
    * only reported. */
  method HandleStatusChange(db: Db, caseId: string, newStatus: Status, now: int, writeFails: bool) returns (db': Db)
    ensures writeFails || Get(db, "cases", caseId).None? ==> db' == db
    ensures !writeFails && Get(db, "cases", caseId).Some? ==> db' == Commit(db, [StatusWrite(caseId, newStatus, now)])
  {
    if writeFails || Get(db, "cases", caseId).None? {
      return db;
    }
    db' := CommitBatch(db, [StatusWrite(caseId, newStatus, now)]);
  }

  /** A status change sets `status` and `updatedAt` of that case and changes nothing else in the store. */
  lemma StatusWriteEffect(db: Db, caseId: string, newStatus: Status, now: int, c: string, i: string)
    requires Get(db, "cases", caseId).Some?
    ensures Get(Commit(db, [StatusWrite(caseId, newStatus, now)]), "cases", caseId).Some?
    ensures var before := Get(db, "cases", caseId).value;
      var after := GetOrEmpty(Commit(db, [StatusWrite(caseId, newStatus, now)]), "cases", caseId);
      && after.Keys == before.Keys + {"status", "updatedAt"}
      && after["status"] == Str(StatusName(newStatus)) && after["updatedAt"] == Time(now)
      && forall k :: k in before && k != "status" && k != "updatedAt" ==> after[k] == before[k]
    ensures (c, i) != ("cases", caseId) ==>
      Get(Commit(db, [StatusWrite(caseId, newStatus, now)]), c, i) == Get(db, c, i)
  {
    CommitOne(db, StatusWrite(caseId, newStatus, now));
  }

  // ---------------------------------------------------------------------------------------
  // Filters
  // ---------------------------------------------------------------------------------------

  datatype StatusFilter = AnyStatus | OnlyStatus(status: Status)
  datatype CategoryFilter = AnyCategory | OnlyCategory(category: CaseCategory)

  /** The filter callback: each filter other than "all" must match. */
  predicate Shown(c: Case, sf: StatusFilter, cf: CategoryFilter) {
    && (sf.OnlyStatus? ==> c.status == sf.status)
    && (cf.OnlyCategory? ==> c.category == cf.category)
  }

  function ShownBy(sf: StatusFilter, cf: CategoryFilter): Case -> bool {
    (c: Case) => Shown(c, sf, cf)
  }

  /** `filteredCases`. */
  function FilteredCases(cases: seq<Case>, sf: StatusFilter, cf: CategoryFilter): (r: seq<Case>)
    ensures forall c :: c in r <==> c in cases && Shown(c, sf, cf)
    ensures |r| <= |cases|
  {
    Filter(cases, ShownBy(sf, cf))
  }

  /** The list shown keeps the fetched order (newest update first), so the "N / M" count has N <= M. */
  lemma FilteredKeepsOrder(cases: seq<Case>, sf: StatusFilter, cf: CategoryFilter)
    ensures IsSubsequence(FilteredCases(cases, sf, cf), cases)
  {
    FilterIsSubsequence(cases, ShownBy(sf, cf));
  }

  /** With both filters at "all" every case is listed. */
  lemma NoFilterShowsAll(cases: seq<Case>)
    ensures FilteredCases(cases, AnyStatus, AnyCategory) == cases
  {
    FilterAll(cases, ShownBy(AnyStatus, AnyCategory));
  }

  // ---------------------------------------------------------------------------------------
  // Delete
  // ---------------------------------------------------------------------------------------

  function OtherCase(caseId: string): Case -> bool {
    (c: Case) => c.id != caseId
  }

  /** `handleDelete`. `confirmed` is the answer of the confirmation dialog; the server action's outcome
    * decides whether the local list drops the case. */
  method HandleDelete(cases: seq<Case>, db: Db, caseId: string, confirmed: bool, commitFailure: Option<string>)
    returns (cases': seq<Case>, db': Db)
    ensures !confirmed ==> cases' == cases && db' == db
    ensures confirmed && (caseId == "" || commitFailure.Some?) ==> cases' == cases && db' == db
    ensures confirmed && caseId != "" && commitFailure.None? ==>
      && cases' == Filter(cases, OtherCase(caseId))
      && db' == Commit(db, DeleteContent.CaseDeletes(caseId))
  {
    if !confirmed {
      return cases, db;
    }
    var res;
    db', res := DeleteContent.DeleteCase(db, caseId, commitFailure);
    if res.Ok? && res.value.Success? {
      cases' := Filter(cases, OtherCase(caseId));
    } else {
      cases' := cases;
    }
  }

  /** A successful delete drops exactly the cases with that id, keeping the others in order. */
  lemma DeleteDropsOnlyThatCase(cases: seq<Case>, caseId: string)
    ensures forall c :: c in Filter(cases, OtherCase(caseId)) <==> c in cases && c.id != caseId
    ensures IsSubsequence(Filter(cases, OtherCase(caseId)), cases)
    ensures (forall k :: 0 <= k < |cases| ==> cases[k].id != caseId) ==> Filter(cases, OtherCase(caseId)) == cases
  {
    FilterIsSubsequence(cases, OtherCase(caseId));
    if forall k :: 0 <= k < |cases| ==> cases[k].id != caseId {
      FilterAll(cases, OtherCase(caseId));
    }
  }
}
