/**
 * `deleteUser`: removes an account from Firebase Auth, then the user's profile, stats, points and
 * content-status documents in one batch. Events, attempts and comments are kept for the research record.
 * `accounts` is the set of Auth uids; `authError` is the error `adminAuth.deleteUser` raises, if any, and
 * it never stops the store cleanup; `commitFailure` is the error `batch.commit()` raises, if any.
 */
module DeleteUser {
  import opened Wrappers
  import opened Store

  /** The deletes `deleteUser` stages. */
  function UserDeletes(uid: string): (ds: seq<Write>)
    ensures OnlyDeletes(ds)
  {
    [DeleteDoc("users", uid), DeleteDoc("userStats", uid), DeleteDoc("pointsStats", uid),
     DeleteDoc("userContentStatus", uid)]
  }

  /** The collections whose document keyed by the uid is removed. */
  predicate PerUserCollection(c: string) {
    c == "users" || c == "userStats" || c == "pointsStats" || c == "userContentStatus"
  }

  /** `deleteUser`. */
  method DeleteUser(accounts: set<string>, db: Db, uid: string, authError: Option<string>,
                    commitFailure: Option<string>)
    returns (accounts': set<string>, db': Db, r: Result<Response<()>>)
    ensures uid == "" ==> r == Err("UID Required") && accounts' == accounts && db' == db
    ensures uid != "" ==> accounts' == if authError.None? then accounts - {uid} else accounts
    ensures uid != "" && commitFailure.Some? ==> r == Ok(Failure(commitFailure.value)) && db' == db
    ensures uid != "" && commitFailure.None? ==> r == Ok(Success(())) && db' == Commit(db, UserDeletes(uid))
  {
    if uid == "" {
      return accounts, db, Err("UID Required");
    }
    accounts' := accounts;
    if authError.None? {
      accounts' := accounts - {uid};
    }
    var batch: seq<Write> := [];
    batch := batch + [DeleteDoc("users", uid)];
    batch := batch + [DeleteDoc("userStats", uid)];
    batch := batch + [DeleteDoc("pointsStats", uid)];
    batch := batch + [DeleteDoc("userContentStatus", uid)];
    if commitFailure.Some? {
      return accounts', db, Ok(Failure(commitFailure.value));
    }
    assert batch == UserDeletes(uid);
    db' := CommitBatch(db, batch);
    r := Ok(Success(()));
  }

  /** The four per-user documents of `uid` are gone; every other document, including every document of
    * another uid, is as it was. */
  lemma UserDeleteEffect(db: Db, uid: string, c: string, i: string)
    ensures Get(Commit(db, UserDeletes(uid)), c, i) == if PerUserCollection(c) && i == uid then None else Get(db, c, i)
  {
    CommitDeletes(db, UserDeletes(uid));
  }

  /** The user's events, attempts and comments stay. */
  lemma UserDeleteKeepsResearch(db: Db, uid: string, i: string)
    ensures Get(Commit(db, UserDeletes(uid)), "events", i) == Get(db, "events", i)
    ensures Get(Commit(db, UserDeletes(uid)), "attempts", i) == Get(db, "attempts", i)
    ensures Get(Commit(db, UserDeletes(uid)), "comments", i) == Get(db, "comments", i)
  {
    UserDeleteEffect(db, uid, "events", i);
    UserDeleteEffect(db, uid, "attempts", i);
    UserDeleteEffect(db, uid, "comments", i);
  }

  /** Deleting the same user again leaves the store as the first delete left it. */
  lemma UserDeleteIdempotent(db: Db, uid: string)
    ensures Commit(Commit(db, UserDeletes(uid)), UserDeletes(uid)) == Commit(db, UserDeletes(uid))
  {
    DeletesIdempotent(db, UserDeletes(uid));
  }
}
