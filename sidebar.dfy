/**
 * The sidebar's live figures for the signed-in user: points and rank from `pointsStats`, and the number of
 * published cases and papers not yet read, from `userContentStatus` and server-side counts. Each listener
 * callback is a function of the store; a failing count query (`countFails`) keeps the figure it would
 * have replaced.
 */
module Sidebar {
  import opened Wrappers
  import opened Store

  // ---------------------------------------------------------------------------------------
  // Unread counts
  // ---------------------------------------------------------------------------------------

  /** `x?.length || 0` for a field of the status document: the length of an array (or string), else 0. */
  function LengthOr0(data: Option<Doc>, field: string): (n: nat)
    ensures data.None? || field !in data.value ==> n == 0
    ensures data.Some? && field in data.value && data.value[field].Arr? ==> n == |data.value[field].items|
  {
    if data.None? || field !in data.value then 0
    else match data.value[field]
      case Arr(items) => |items|
      case Str(s) => |s|
      case _ => 0
  }

  /** `Math.max(0, total - read)`. */
  function Unread(total: int, read: int): (n: int)
    ensures n >= 0 && n >= total - read
    ensures n == 0 || n == total - read
  {
    if total - read > 0 then total - read else 0
  }

  /** Reading everything published (or more) shows no unread items; otherwise the difference. */
  lemma UnreadCases(total: int, read: int)
    ensures read >= total ==> Unread(total, read) == 0
    ensures read <= total ==> Unread(total, read) == total - read
  {
  }

  /** The documents of a collection whose `status` is `"published"`: what the count query counts. */
  function PublishedIds(db: Db, coll: string): set<string> {
    set id | id in CollectionOf(db, coll) && Field(CollectionOf(db, coll)[id], "status") == Some(Str("published"))
  }

  /** The content-status listener: the unread cases and papers, or the previous figures when a count fails. */
  function UnreadFigures(db: Db, uid: string, countFails: bool, prev: (int, int)): (r: (int, int))
    ensures countFails ==> r == prev
    ensures !countFails ==>
      var data := Get(db, "userContentStatus", uid);
      && r.0 == Unread(|PublishedIds(db, "cases")|, LengthOr0(data, "casesRead"))
      && r.1 == Unread(|PublishedIds(db, "papers")|, LengthOr0(data, "papersRead"))
  {
    if countFails then prev
    else
      var data := Get(db, "userContentStatus", uid);
      (Unread(|PublishedIds(db, "cases")|, LengthOr0(data, "casesRead")),
       Unread(|PublishedIds(db, "papers")|, LengthOr0(data, "papersRead")))
  }

  /** Without a status document, nothing counts as read. */
  lemma NothingReadYet(db: Db, uid: string)
    requires Get(db, "userContentStatus", uid).None?
    ensures UnreadFigures(db, uid, false, (0, 0)) == (|PublishedIds(db, "cases")|, |PublishedIds(db, "papers")|)
  {
  }

  // ---------------------------------------------------------------------------------------
  // Points and rank
  // ---------------------------------------------------------------------------------------

  /** The users whose `totalPoints` is a number strictly greater than `myPoints` (the `where(">")` query). */
  function Ahead(db: Db, myPoints: int): set<string> {
    set id | id in CollectionOf(db, "pointsStats") && NumAbove(CollectionOf(db, "pointsStats")[id], myPoints)
  }

  predicate NumAbove(d: Doc, myPoints: int) {
    "totalPoints" in d && d["totalPoints"].Num? && d["totalPoints"].n > myPoints
  }

  /** `snap.data().count + 1`. */
  function Rank(db: Db, myPoints: int): (r: nat)
    ensures r >= 1 && r == |Ahead(db, myPoints)| + 1
    ensures r <= |CollectionOf(db, "pointsStats")| + 1
  {
    assert Ahead(db, myPoints) <= CollectionOf(db, "pointsStats").Keys;
    SubsetCard(Ahead(db, myPoints), CollectionOf(db, "pointsStats").Keys);
    |Ahead(db, myPoints)| + 1
  }

  lemma SubsetCard<T>(a: set<T>, b: set<T>)
    requires a <= b
    ensures |a| <= |b|
  {
    assert b == a + (b - a);
  }

  /** More points never give a worse rank, and nobody ahead means first place. */
  lemma RankMonotone(db: Db, p: int, q: int)
    requires p <= q
    ensures Rank(db, q) <= Rank(db, p)
    ensures (forall id :: id in CollectionOf(db, "pointsStats") ==> !NumAbove(CollectionOf(db, "pointsStats")[id], q)) ==> Rank(db, q) == 1
  {
    assert Ahead(db, q) <= Ahead(db, p);
    SubsetCard(Ahead(db, q), Ahead(db, p));
    if forall id :: id in CollectionOf(db, "pointsStats") ==> !NumAbove(CollectionOf(db, "pointsStats")[id], q) {
      assert Ahead(db, q) == {};
    }
  }

  /** Two users with equal points get the same rank, and one with strictly fewer points than a user ranks
    * below that user. */
  lemma RankTies(db: Db, me: string, other: string)
    requires Get(db, "pointsStats", me).Some? && Get(db, "pointsStats", other).Some?
    requires Get(db, "pointsStats", me).value.Keys >= {"totalPoints"} && Get(db, "pointsStats", other).value.Keys >= {"totalPoints"}
    requires Get(db, "pointsStats", me).value["totalPoints"].Num? && Get(db, "pointsStats", other).value["totalPoints"].Num?
    ensures var p := Get(db, "pointsStats", me).value["totalPoints"].n;
      var q := Get(db, "pointsStats", other).value["totalPoints"].n;
      && (p == q ==> Rank(db, p) == Rank(db, q))
      && (p < q ==> Rank(db, p) > Rank(db, q))
  {
    var p := Get(db, "pointsStats", me).value["totalPoints"].n;
    var q := Get(db, "pointsStats", other).value["totalPoints"].n;
    if p < q {
      assert Ahead(db, q) <= Ahead(db, p);
      assert other in Ahead(db, p) && other !in Ahead(db, q);
      assert Ahead(db, q) < Ahead(db, p);
      StrictSubsetCard(Ahead(db, q), Ahead(db, p));
    }
  }

  lemma StrictSubsetCard<T>(a: set<T>, b: set<T>)
    requires a < b
    ensures |a| < |b|
  {
    assert b == a + (b - a);
    assert b - a != {};
  }

  /** The points listener: with a `pointsStats` document, its points and their rank (or the previous rank
    * when the count fails); without one, 0 points and no rank. */
  function PointsView(db: Db, uid: string, countFails: bool, prevRank: Option<nat>): (r: (int, Option<nat>))
    ensures Get(db, "pointsStats", uid).None? ==> r == (0, None)
    ensures Get(db, "pointsStats", uid).Some? ==>
      && r.0 == NumOf(Field(Get(db, "pointsStats", uid).value, "totalPoints"))
      && r.1 == if countFails then prevRank else Some(Rank(db, r.0))
  {
    match Get(db, "pointsStats", uid)
    case None => (0, None)
    case Some(data) =>
      var points := NumOf(Field(data, "totalPoints"));
      (points, if countFails then prevRank else Some(Rank(db, points)))
  }
}
