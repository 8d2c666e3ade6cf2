/**
 * The admin literature list: the status button each paper offers, the status write and the delete, both
 * behind a confirmation dialog (`confirmed`), and the status label. The list itself is the live snapshot
 * of `papers`.
 */
module AdminLiterature {
  import opened Wrappers
  import opened Store
  import opened Schema
  import opened Text
  import DeleteContent

  /** The status button of a paper: Publish unless it is published, Unpublish (to draft) when it is. */
  function OfferedPaper(s: Status): (r: set<Status>)
    ensures s !in r && |r| == 1
    ensures s != Published ==> Published in r
    ensures s == Published ==> Draft in r
  {
    if s != Published then {Published} else {Draft}
  }

  /** Unlike a case, an archived paper is published again directly, and no paper is ever archived here. */
  lemma PaperTransitions(s: Status)
    ensures Archived !in OfferedPaper(s)
    ensures Published in OfferedPaper(Archived)
  {
  }

  /** `updateDoc(doc(db, "papers", paperId), { status, updatedAt: new Date() })`. */
  function PaperStatusWrite(paperId: string, newStatus: Status, now: int): Write {
    SetDoc("papers", paperId, map["status" := Op(Put(Str(StatusName(newStatus)))), "updatedAt" := Op(Put(Time(now)))], true)
  }

  /** `handleStatusChange`: nothing without confirmation; `updateDoc` throws on a missing paper or when
    * `writeFails`. */
  method HandleStatusChange(db: Db, paperId: string, newStatus: Status, confirmed: bool, now: int, writeFails: bool)
    returns (db': Db)
    ensures !confirmed || writeFails || Get(db, "papers", paperId).None? ==> db' == db
    ensures confirmed && !writeFails && Get(db, "papers", paperId).Some? ==>
      db' == Commit(db, [PaperStatusWrite(paperId, newStatus, now)])
  {
    if !confirmed {
      return db;
    }
    if writeFails || Get(db, "papers", paperId).None? {
      return db;
    }
    db' := CommitBatch(db, [PaperStatusWrite(paperId, newStatus, now)]);
  }

  /** The status write sets `status` and `updatedAt` of that paper and leaves the rest of the store alone. */
  lemma PaperStatusWriteEffect(db: Db, paperId: string, newStatus: Status, now: int, c: string, i: string)
    requires Get(db, "papers", paperId).Some?
    ensures Get(Commit(db, [PaperStatusWrite(paperId, newStatus, now)]), "papers", paperId).Some?
    ensures var before := Get(db, "papers", paperId).value;
      var after := GetOrEmpty(Commit(db, [PaperStatusWrite(paperId, newStatus, now)]), "papers", paperId);
      && after.Keys == before.Keys + {"status", "updatedAt"}
      && after["status"] == Str(StatusName(newStatus)) && after["updatedAt"] == Time(now)
      && forall k :: k in before && k != "status" && k != "updatedAt" ==> after[k] == before[k]
    ensures (c, i) != ("papers", paperId) ==>
      Get(Commit(db, [PaperStatusWrite(paperId, newStatus, now)]), c, i) == Get(db, c, i)
  {
    CommitOne(db, PaperStatusWrite(paperId, newStatus, now));
  }

  /** `handleDelete`: `deleteDoc` of the paper after confirmation; `writeFails` says that it throws. The effect
    * on the store is `DeleteContent.PaperDeleteEffect`. */
  method HandleDelete(db: Db, paperId: string, confirmed: bool, writeFails: bool) returns (db': Db)
    ensures !confirmed || writeFails ==> db' == db
    ensures confirmed && !writeFails ==> db' == Commit(db, DeleteContent.PaperDeletes(paperId))
  {
    if !confirmed || writeFails {
      return db;
    }
    db' := CommitBatch(db, [DeleteDoc("papers", paperId)]);
  }

  /** `status.charAt(0).toUpperCase() + status.slice(1)`. */
  function StatusLabel(s: Status): (caption: string)
    ensures |caption| == |StatusName(s)| && caption[0] == UpperChar(StatusName(s)[0])
    ensures caption[1..] == StatusName(s)[1..]
  {
    Capitalize(StatusName(s))
  }

  /** The three labels are told apart by the status names they come from. */
  lemma StatusLabelsDistinct(s: Status, t: Status)
    requires s != t
    ensures StatusLabel(s) != StatusLabel(t)
  {
    assert StatusName(s)[1..] != StatusName(t)[1..] || |StatusName(s)| != |StatusName(t)|;
  }
}
