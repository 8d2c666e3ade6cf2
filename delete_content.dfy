/**
 * `deleteCase` and `deletePaper`: admin removal of a case (with its aggregate stats) or of a paper, each in
 * one write batch. Comments, attempts and highlights are deliberately kept. `commitFailure` is the error
 * `batch.commit()` raises, if any; a failed commit writes nothing.
 */
module DeleteContent {
  import opened Wrappers
  import opened Store

  /** The deletes `deleteCase` stages. */
  function CaseDeletes(caseId: string): (ds: seq<Write>)
    ensures OnlyDeletes(ds)
  {
    [DeleteDoc("cases", caseId), DeleteDoc("caseStats", caseId)]
  }

  /** The delete `deletePaper` stages. */
  function PaperDeletes(paperId: string): (ds: seq<Write>)
    ensures OnlyDeletes(ds)
  {
    [DeleteDoc("papers", paperId)]
  }

  /** `deleteCase`. */
  method DeleteCase(db: Db, caseId: string, commitFailure: Option<string>) returns (db': Db, r: Result<Response<()>>)
    ensures caseId == "" ==> r == Err("Case ID required") && db' == db
    ensures caseId != "" && commitFailure.Some? ==> r == Ok(Failure(commitFailure.value)) && db' == db
    ensures caseId != "" && commitFailure.None? ==> r == Ok(Success(())) && db' == Commit(db, CaseDeletes(caseId))
  {
    if caseId == "" {
      return db, Err("Case ID required");
    }
    var batch: seq<Write> := [];
    batch := batch + [DeleteDoc("cases", caseId)];
    batch := batch + [DeleteDoc("caseStats", caseId)];
    if commitFailure.Some? {
      return db, Ok(Failure(commitFailure.value));
    }
    db' := CommitBatch(db, batch);
    r := Ok(Success(()));
  }

  /** `deletePaper`. */
  method DeletePaper(db: Db, paperId: string, commitFailure: Option<string>) returns (db': Db, r: Result<Response<()>>)
    ensures paperId == "" ==> r == Err("Paper ID required") && db' == db
    ensures paperId != "" && commitFailure.Some? ==> r == Ok(Failure(commitFailure.value)) && db' == db
    ensures paperId != "" && commitFailure.None? ==> r == Ok(Success(())) && db' == Commit(db, PaperDeletes(paperId))
  {
    if paperId == "" {
      return db, Err("Paper ID required");
    }
    var batch: seq<Write> := [];
    batch := batch + [DeleteDoc("papers", paperId)];
    if commitFailure.Some? {
      return db, Ok(Failure(commitFailure.value));
    }
    db' := CommitBatch(db, batch);
    r := Ok(Success(()));
  }

  /** Deleting a case removes `cases/caseId` and `caseStats/caseId` and leaves every other document as it was. */
  lemma CaseDeleteEffect(db: Db, caseId: string, c: string, i: string)
    ensures Get(Commit(db, CaseDeletes(caseId)), c, i)
         == if (c == "cases" || c == "caseStats") && i == caseId then None else Get(db, c, i)
  {
    CommitDeletes(db, CaseDeletes(caseId));
  }

  /** The comments and attempts of the deleted case stay. */
  lemma CaseDeleteKeepsDiscussion(db: Db, caseId: string, i: string)
    ensures Get(Commit(db, CaseDeletes(caseId)), "comments", i) == Get(db, "comments", i)
    ensures Get(Commit(db, CaseDeletes(caseId)), "attempts", i) == Get(db, "attempts", i)
  {
    CaseDeleteEffect(db, caseId, "comments", i);
    CaseDeleteEffect(db, caseId, "attempts", i);
  }

  /** Deleting a paper removes `papers/paperId` only. */
  lemma PaperDeleteEffect(db: Db, paperId: string, c: string, i: string)
    ensures Get(Commit(db, PaperDeletes(paperId)), c, i) == if c == "papers" && i == paperId then None else Get(db, c, i)
  {
    CommitDeletes(db, PaperDeletes(paperId));
  }

  /** The highlights of the deleted paper stay. */
  lemma PaperDeleteKeepsHighlights(db: Db, paperId: string, i: string)
    ensures Get(Commit(db, PaperDeletes(paperId)), "highlights", i) == Get(db, "highlights", i)
  {
    PaperDeleteEffect(db, paperId, "highlights", i);
  }

  /** Deleting the same case or paper again leaves the store as the first delete left it. */
  lemma DeleteContentIdempotent(db: Db, id: string)
    ensures Commit(Commit(db, CaseDeletes(id)), CaseDeletes(id)) == Commit(db, CaseDeletes(id))
    ensures Commit(Commit(db, PaperDeletes(id)), PaperDeletes(id)) == Commit(db, PaperDeletes(id))
  {
    DeletesIdempotent(db, CaseDeletes(id));
    DeletesIdempotent(db, PaperDeletes(id));
  }
}
