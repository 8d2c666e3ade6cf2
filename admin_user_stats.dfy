/**
 * `getAdminUserStats`: one row per user profile, joining the user's quiz stats, points and login count,
 * ordered by points, highest first. The profiles, stats and points come from the store; `userIds` is the
 * order the users query lists the profiles in, `loginDocs` the documents of the login-event query
 * (listed by the ghost `loginIds`),
 * `iso` is `toISOString`, and `readFailure` the message of a query that rejects.
 */
module AdminUserStats {
  import opened Wrappers
  import opened Store
  import opened Schema
  import opened Seqs

  datatype Profile = Profile(employeeId: string, email: string)

  datatype UserRow = UserRow(
    uid: string, employeeId: string, email: string, loginCount: nat, totalAttempts: int, totalCorrect: int,
    accuracy: int, totalPoints: int, lastActivityAt: Option<string>)

  function ProfileOf(d: Doc): Profile {
    Profile(TextOr(d, "employeeId", "UNKNOWN"), TextOr(d, "email", ""))
  }

  // ---------------------------------------------------------------------------------------
  // Login counts
  // ---------------------------------------------------------------------------------------

  /** The uid a login event is counted for: its `uid` when that is a non-empty string. */
  function LoginUid(d: Doc): (u: Option<string>)
    ensures u.Some? ==> u.value != ""
  {
    var f := StrField(d, "uid");
    if f.Some? && f.value != "" then f else None
  }

  function LoginBy(u: string): Doc -> bool {
    (d: Doc) => LoginUid(d) == Some(u)
  }

  /** The number of login events of `u`. */
  function Logins(docs: seq<Doc>, u: string): nat {
    Count(docs, LoginBy(u))
  }

  /** `loginCounts.get(u) || 0`. */
  function CountOf(counts: map<string, nat>, u: string): nat {
    if u in counts then counts[u] else 0
  }

  /** The `forEach` over the login events. */
  method CountLogins(loginDocs: seq<Doc>) returns (loginCounts: map<string, nat>)
    ensures forall u :: CountOf(loginCounts, u) == Logins(loginDocs, u)
    ensures forall u :: u in loginCounts ==> u != "" && loginCounts[u] > 0
  {
    loginCounts := map[];
    var i := 0;
    while i < |loginDocs|
      invariant 0 <= i <= |loginDocs|
      invariant forall u :: CountOf(loginCounts, u) == Logins(loginDocs[..i], u)
      invariant forall u :: u in loginCounts ==> u != "" && loginCounts[u] > 0
    {
      var d := loginDocs[i];
      assert loginDocs[..i + 1] == loginDocs[..i] + [d];
      ghost var before := loginCounts;
      var uid := LoginUid(d);
      if uid.Some? {
        loginCounts := loginCounts[uid.value := CountOf(loginCounts, uid.value) + 1];
      }
      LoginStep(before, loginCounts, loginDocs[..i], d);
      i := i + 1;
    }
    assert loginDocs[..i] == loginDocs;
  }

  /** One pass of the `forEach`: the counting map keeps matching the counts. */
  lemma LoginStep(before: map<string, nat>, after: map<string, nat>, docs: seq<Doc>, d: Doc)
    requires forall u :: CountOf(before, u) == Logins(docs, u)
    requires LoginUid(d).None? ==> after == before
    requires LoginUid(d).Some? ==> after == before[LoginUid(d).value := CountOf(before, LoginUid(d).value) + 1]
    ensures forall u :: CountOf(after, u) == Logins(docs + [d], u)
  {
    forall u
      ensures CountOf(after, u) == Logins(docs + [d], u)
    {
      CountSnoc(docs, d, LoginBy(u));
      assert Logins(docs + [d], u) == Logins(docs, u) + (if LoginUid(d) == Some(u) then 1 else 0);
      assert CountOf(before, u) == Logins(docs, u);
    }
  }

  /** Events without a uid change no count. */
  lemma LoginWithoutUid(docs: seq<Doc>, d: Doc, u: string)
    requires LoginUid(d).None?
    ensures Logins(docs + [d], u) == Logins(docs, u)
    ensures Logins(docs, "") == 0
  {
    CountSnoc(docs, d, LoginBy(u));
    CountNone(docs, LoginBy(""));
  }

  /** An event document whose `action` is `"login"` (the `where` clause of the query). */
  predicate IsLoginEvent(d: Doc) {
    Field(d, "action") == Some(Str("login"))
  }

  /** `.select("uid")`: the document with only its `uid` field. */
  function UidOnly(d: Doc): (p: Doc)
    ensures Field(p, "uid") == Field(d, "uid") && p.Keys <= {"uid"}
  {
    if "uid" in d then map["uid" := d["uid"]] else map[]
  }

  /** `loginDocs` is what the login-event query returns: for each login event of the store, once, its
    * projection on `uid`; `loginIds` names the event of each document. */
  ghost predicate ListsLogins(db: Db, loginIds: seq<string>, loginDocs: seq<Doc>) {
    && |loginIds| == |loginDocs|
    && (forall id :: id in loginIds <==> Get(db, "events", id).Some? && IsLoginEvent(Get(db, "events", id).value))
    && (forall k :: 0 <= k < |loginIds| ==>
          Get(db, "events", loginIds[k]).Some? && loginDocs[k] == UidOnly(Get(db, "events", loginIds[k]).value))
    && (forall i, j :: 0 <= i < j < |loginIds| ==> loginIds[i] != loginIds[j])
  }

  /** The ids of the store's login events counted for `u`. */
  ghost function LoginEventsOf(db: Db, u: string): set<string> {
    var events := CollectionOf(db, "events");
    set id | id in events && IsLoginEvent(events[id]) && LoginUid(events[id]) == Some(u)
  }

  /** An event of the store counted for `u`. */
  ghost function StoreLoginBy(db: Db, u: string): string -> bool {
    (id: string) => Get(db, "events", id).Some? && LoginUid(Get(db, "events", id).value) == Some(u)
  }

  /** Counting the query's documents counts the store's login events of the user. */
  lemma LoginsAreStoreLogins(db: Db, loginIds: seq<string>, loginDocs: seq<Doc>, u: string)
    requires ListsLogins(db, loginIds, loginDocs)
    ensures Logins(loginDocs, u) == |LoginEventsOf(db, u)|
  {
    var q := StoreLoginBy(db, u);
    forall k | 0 <= k < |loginDocs|
      ensures LoginBy(u)(loginDocs[k]) == q(loginIds[k])
    {
      var d := Get(db, "events", loginIds[k]).value;
      assert StrField(loginDocs[k], "uid") == StrField(d, "uid");
    }
    CountAlong(loginDocs, loginIds, LoginBy(u), q);
    assert Logins(loginDocs, u) == Count(loginIds, q);
    CountDistinctSet(loginIds, q);
    QueriedLoginsAreStoreLogins(db, loginIds, loginDocs, u);
  }

  lemma QueriedLoginsAreStoreLogins(db: Db, loginIds: seq<string>, loginDocs: seq<Doc>, u: string)
    requires ListsLogins(db, loginIds, loginDocs)
    ensures Satisfying(loginIds, StoreLoginBy(db, u)) == LoginEventsOf(db, u)
  {
    var events := CollectionOf(db, "events");
    var a := Satisfying(loginIds, StoreLoginBy(db, u));
    forall id
      ensures id in a <==> id in LoginEventsOf(db, u)
    {
      assert id in events ==> Get(db, "events", id) == Some(events[id]);
    }
  }

  // ---------------------------------------------------------------------------------------
  // The join
  // ---------------------------------------------------------------------------------------

  /** The row of user `u`, whose profile document is `profile`. */
  function RowFor(db: Db, u: string, profile: Doc, counts: map<string, nat>, iso: int -> string): (row: UserRow)
    ensures row.uid == u && row.loginCount == CountOf(counts, u)
    ensures Get(db, "userStats", u).None? ==>
              row.totalAttempts == 0 && row.totalCorrect == 0 && row.accuracy == 0 && row.lastActivityAt == None
    ensures Get(db, "pointsStats", u).None? ==> row.totalPoints == 0
  {
    var p := ProfileOf(profile);
    var stat := GetOrEmpty(db, "userStats", u);
    var points := GetOrEmpty(db, "pointsStats", u);
    var answered := NumOf(Field(stat, "totalAnswered"));
    var correct := NumOf(Field(stat, "totalCorrect"));
    var last := TimeField(stat, "lastActivityAt");
    UserRow(u, p.employeeId, p.email, CountOf(counts, u), NumOf(Field(stat, "totalAttempts")), correct,
            Percent(correct, answered), NumOf(Field(points, "totalPoints")),
            if last.Some? then Some(iso(last.value)) else None)
  }

  /** `userIds` lists each profile of the users collection once. */
  ghost predicate ListsProfiles(db: Db, userIds: seq<string>) {
    && (forall u :: u in userIds <==> Get(db, "users", u).Some?)
    && (forall i, j :: 0 <= i < j < |userIds| ==> userIds[i] != userIds[j])
  }

  /** The loop over the profiles, pushing one row each. */
  method JoinRows(db: Db, userIds: seq<string>, counts: map<string, nat>, iso: int -> string)
    returns (rows: seq<UserRow>)
    ensures |rows| == |userIds|
    ensures forall k :: 0 <= k < |rows| ==> rows[k] == RowFor(db, userIds[k], GetOrEmpty(db, "users", userIds[k]), counts, iso)
  {
    rows := [];
    var i := 0;
    while i < |userIds|
      invariant 0 <= i <= |userIds|
      invariant |rows| == i
      invariant forall k :: 0 <= k < i ==> rows[k] == RowFor(db, userIds[k], GetOrEmpty(db, "users", userIds[k]), counts, iso)
    {
      var userId := userIds[i];
      rows := rows + [RowFor(db, userId, GetOrEmpty(db, "users", userId), counts, iso)];
      i := i + 1;
    }
  }

  /** The rows before sorting. */
  function Joined(db: Db, userIds: seq<string>, loginDocs: seq<Doc>, iso: int -> string): (rows: seq<UserRow>)
    ensures |rows| == |userIds|
  {
    seq(|userIds|, k requires 0 <= k < |userIds| =>
      var u := userIds[k];
      var c := if Logins(loginDocs, u) > 0 then map[u := Logins(loginDocs, u)] else map[];
      RowFor(db, u, GetOrEmpty(db, "users", u), c, iso))
  }

  /** `(a, b) => b.totalPoints - a.totalPoints`: `a` may come first when it has at least as many points. */
  function ByPointsDesc(): (UserRow, UserRow) -> bool {
    (a: UserRow, b: UserRow) => a.totalPoints >= b.totalPoints
  }

  lemma ByPointsDescPreorder()
    ensures TotalPreorder(ByPointsDesc())
  {
  }

  /** `getAdminUserStats`. */
  method GetAdminUserStats(callerUid: string, db: Db, userIds: seq<string>, ghost loginIds: seq<string>,
                           loginDocs: seq<Doc>, iso: int -> string, readFailure: Option<string>)
    returns (r: Result<Response<seq<UserRow>>>)
    requires ListsProfiles(db, userIds) && ListsLogins(db, loginIds, loginDocs)
    ensures callerUid == "" ==> r == Err("Unauthorized")
    ensures callerUid != "" && readFailure.Some? ==> r == Ok(Failure(readFailure.value))
    ensures callerUid != "" && readFailure.None? ==>
              r == Ok(Success(SortBy(Joined(db, userIds, loginDocs, iso), ByPointsDesc())))
  {
    if callerUid == "" {
      return Err("Unauthorized");
    }
    if readFailure.Some? {
      return Ok(Failure(readFailure.value));
    }
    var loginCounts := CountLogins(loginDocs);
    var rows := JoinRows(db, userIds, loginCounts, iso);
    assert rows == Joined(db, userIds, loginDocs, iso) by {
      forall k | 0 <= k < |rows|
        ensures rows[k] == Joined(db, userIds, loginDocs, iso)[k]
      {
        var u := userIds[k];
        var c := if Logins(loginDocs, u) > 0 then map[u := Logins(loginDocs, u)] else map[];
        assert CountOf(c, u) == CountOf(loginCounts, u);
        RowDependsOnCount(db, u, GetOrEmpty(db, "users", u), c, loginCounts, iso);
      }
    }
    rows := SortBy(rows, ByPointsDesc());
    r := Ok(Success(rows));
  }

  lemma RowDependsOnCount(db: Db, u: string, profile: Doc, c1: map<string, nat>, c2: map<string, nat>,
                          iso: int -> string)
    requires CountOf(c1, u) == CountOf(c2, u)
    ensures RowFor(db, u, profile, c1, iso) == RowFor(db, u, profile, c2, iso)
  {
  }

  // ---------------------------------------------------------------------------------------
  // What the table shows
  // ---------------------------------------------------------------------------------------

  function HasUid(u: string): UserRow -> bool {
    (r: UserRow) => r.uid == u
  }

  /** Every profile has exactly one row, and no row belongs to a uid without a profile (stats alone do not
    * make a row). */
  lemma OneRowPerProfile(db: Db, userIds: seq<string>, loginDocs: seq<Doc>, iso: int -> string, u: string)
    requires ListsProfiles(db, userIds)
    ensures Count(SortBy(Joined(db, userIds, loginDocs, iso), ByPointsDesc()), HasUid(u))
         == if Get(db, "users", u).Some? then 1 else 0
  {
    var j := Joined(db, userIds, loginDocs, iso);
    JoinedUids(db, userIds, loginDocs, iso);
    CountSort(j, ByPointsDesc(), HasUid(u));
    CountRowsByUid(j, userIds, u);
    CountDistinct(userIds, u);
    assert u in userIds <==> Get(db, "users", u).Some?;
  }

  lemma JoinedUids(db: Db, userIds: seq<string>, loginDocs: seq<Doc>, iso: int -> string)
    ensures forall k :: 0 <= k < |userIds| ==> Joined(db, userIds, loginDocs, iso)[k].uid == userIds[k]
  {
  }

  lemma {:induction false} CountRowsByUid(rows: seq<UserRow>, ids: seq<string>, u: string)
    requires |rows| == |ids| && forall k :: 0 <= k < |rows| ==> rows[k].uid == ids[k]
    ensures Count(rows, HasUid(u)) == Count(ids, Equals(u))
    decreases |rows|
  {
    if rows != [] {
      CountRowsByUid(rows[1..], ids[1..], u);
    }
  }

  /** The rows are ordered by points, highest first, and hold exactly the joined rows. */
  lemma RowsByPoints(db: Db, userIds: seq<string>, loginDocs: seq<Doc>, iso: int -> string)
    ensures var rows := SortBy(Joined(db, userIds, loginDocs, iso), ByPointsDesc());
      && multiset(rows) == multiset(Joined(db, userIds, loginDocs, iso))
      && forall i, j :: 0 <= i < j < |rows| ==> rows[i].totalPoints >= rows[j].totalPoints
  {
    ByPointsDescPreorder();
    SortIsSorted(Joined(db, userIds, loginDocs, iso), ByPointsDesc());
  }

  /** Each row shows the user's profile (with its defaults), stats, points and number of logins. */
  lemma RowShowsUser(db: Db, userIds: seq<string>, loginDocs: seq<Doc>, iso: int -> string, k: nat)
    requires k < |userIds|
    ensures var row := Joined(db, userIds, loginDocs, iso)[k];
      var u := userIds[k];
      var stat := GetOrEmpty(db, "userStats", u);
      && row.uid == u
      && row.employeeId == TextOr(GetOrEmpty(db, "users", u), "employeeId", "UNKNOWN")
      && row.email == TextOr(GetOrEmpty(db, "users", u), "email", "")
      && row.loginCount == Logins(loginDocs, u)
      && row.totalAttempts == NumOf(Field(stat, "totalAttempts"))
      && row.accuracy == Percent(NumOf(Field(stat, "totalCorrect")), NumOf(Field(stat, "totalAnswered")))
      && row.totalPoints == NumOf(Field(GetOrEmpty(db, "pointsStats", u), "totalPoints"))
  {
  }

  /** The login count shown for a user is the number of the store's login events carrying that uid. */
  lemma LoginCountIsStoreLogins(db: Db, userIds: seq<string>, loginIds: seq<string>, loginDocs: seq<Doc>,
                                iso: int -> string, k: nat)
    requires ListsLogins(db, loginIds, loginDocs) && k < |userIds|
    ensures Joined(db, userIds, loginDocs, iso)[k].loginCount == |LoginEventsOf(db, userIds[k])|
  {
    RowShowsUser(db, userIds, loginDocs, iso, k);
    LoginsAreStoreLogins(db, loginIds, loginDocs, userIds[k]);
  }
}
