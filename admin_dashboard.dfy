/**
 * The admin dashboard: the case counters (all cases, and those published, in draft and archived) and the
 * "trouble spots", the at most five attempted cases with the worst accuracy. A snapshot is the list of
 * (document id, data) pairs in the order the query returned them.
 */
module AdminDashboard {
  import opened Wrappers
  import opened Store
  import opened Seqs
  import opened Schema

  type Snapshot = seq<(string, Doc)>

  // ---------------------------------------------------------------------------------------
  // The case counters
  // ---------------------------------------------------------------------------------------

  datatype CaseCounts = CaseCounts(totalCases: nat, publishedCases: nat, draftCases: nat, archivedCases: nat)

  /** `data.status === name`. */
  predicate HasStatus(entry: (string, Doc), name: string) {
    Field(entry.1, "status") == Some(Str(name))
  }

  function StatusIs(name: string): ((string, Doc)) -> bool {
    (entry: (string, Doc)) => HasStatus(entry, name)
  }

  /** `caseTitles`: each case id to its `title` field (`undefined` when the field is missing). */
  function Titles(docs: Snapshot): (titles: map<string, Option<Value>>)
    ensures forall k :: 0 <= k < |docs| ==> docs[k].0 in titles
    ensures forall id :: id in titles ==> exists k :: 0 <= k < |docs| && docs[k].0 == id
  {
    if docs == [] then map[]
    else
      var last := docs[|docs| - 1];
      var earlier := Titles(docs[..|docs| - 1]);
      assert forall k :: 0 <= k < |docs| - 1 ==> docs[..|docs| - 1][k] == docs[k];
      earlier[last.0 := Field(last.1, "title")]
  }

  /** The ids of a snapshot are distinct (document ids are unique in a collection). */
  ghost predicate DistinctIds(docs: Snapshot) {
    forall i, j :: 0 <= i < j < |docs| ==> docs[i].0 != docs[j].0
  }

  /** Each case's title is looked up under its own id. */
  lemma {:induction false} TitleOfCase(docs: Snapshot, k: nat)
    requires DistinctIds(docs) && k < |docs|
    ensures Titles(docs)[docs[k].0] == Field(docs[k].1, "title")
  {
    if k < |docs| - 1 {
      var init := docs[..|docs| - 1];
      assert DistinctIds(init) by {
        assert forall i :: 0 <= i < |init| ==> init[i] == docs[i];
      }
      TitleOfCase(init, k);
      assert init[k] == docs[k];
    }
  }

  /** The `forEach` over the case snapshot: the counters and the title lookup. */
  method CountCases(docs: Snapshot) returns (counts: CaseCounts, caseTitles: map<string, Option<Value>>)
    ensures counts.totalCases == |docs|
    ensures counts.publishedCases == Count(docs, StatusIs("published"))
    ensures counts.draftCases == Count(docs, StatusIs("draft"))
    ensures counts.archivedCases == Count(docs, StatusIs("archived"))
    ensures caseTitles == Titles(docs)
  {
    var published, draft, archived := 0, 0, 0;
    caseTitles := map[];
    var i := 0;
    while i < |docs|
      invariant 0 <= i <= |docs|
      invariant published == Count(docs[..i], StatusIs("published"))
      invariant draft == Count(docs[..i], StatusIs("draft"))
      invariant archived == Count(docs[..i], StatusIs("archived"))
      invariant caseTitles == Titles(docs[..i])
    {
      CountStep(docs, i, "published");
      CountStep(docs, i, "draft");
      CountStep(docs, i, "archived");
      TitlesStep(docs, i);
      caseTitles := caseTitles[docs[i].0 := Field(docs[i].1, "title")];
      if HasStatus(docs[i], "published") {
        published := published + 1;
      } else if HasStatus(docs[i], "draft") {
        draft := draft + 1;
      } else if HasStatus(docs[i], "archived") {
        archived := archived + 1;
      }
      i := i + 1;
    }
    assert docs[..|docs|] == docs;
    counts := CaseCounts(|docs|, published, draft, archived);
  }

  /** One step of the counting loop. */
  lemma CountStep(docs: Snapshot, i: nat, name: string)
    requires i < |docs|
    ensures Count(docs[..i + 1], StatusIs(name)) == Count(docs[..i], StatusIs(name)) + if HasStatus(docs[i], name) then 1 else 0
  {
    assert docs[..i + 1] == docs[..i] + [docs[i]];
    CountSnoc(docs[..i], docs[i], StatusIs(name));
  }

  lemma TitlesStep(docs: Snapshot, i: nat)
    requires i < |docs|
    ensures Titles(docs[..i + 1]) == Titles(docs[..i])[docs[i].0 := Field(docs[i].1, "title")]
  {
    assert docs[..i + 1][..i] == docs[..i];
  }

  /** No case counts under two statuses, so the three counters together never exceed the total. */
  lemma {:induction false} CountersBounded(docs: Snapshot)
    ensures Count(docs, StatusIs("published")) + Count(docs, StatusIs("draft")) + Count(docs, StatusIs("archived")) <= |docs|
  {
    if docs != [] {
      CountersBounded(docs[1..]);
    }
  }

  // ---------------------------------------------------------------------------------------
  // Trouble spots
  // ---------------------------------------------------------------------------------------

  /** One entry of `computedStats`; `title` is what the list shows. */
  datatype Spot = Spot(id: string, title: Value, totalCorrect: int, totalAnswered: int)

  /** The map callback: the title falls back to the case id when the case has no (truthy) title. */
  function ToSpot(stats: Doc, caseTitles: map<string, Option<Value>>): (s: Spot)
    ensures s.id in caseTitles && Truthy(caseTitles[s.id]) ==> s.title == caseTitles[s.id].value
    ensures !(s.id in caseTitles && Truthy(caseTitles[s.id])) ==> s.title == Str(s.id)
  {
    var id := StrField(stats, "caseId").GetOr("");
    var title := if id in caseTitles && Truthy(caseTitles[id]) then caseTitles[id].value else Str(id);
    Spot(id, title, NumOf(Field(stats, "totalCorrect")), NumOf(Field(stats, "totalAnswered")))
  }

  function ToSpots(statsDocs: seq<Doc>, caseTitles: map<string, Option<Value>>): (r: seq<Spot>)
    ensures |r| == |statsDocs|
    ensures forall k :: 0 <= k < |r| ==> r[k] == ToSpot(statsDocs[k], caseTitles)
  {
    seq(|statsDocs|, k requires 0 <= k < |statsDocs| => ToSpot(statsDocs[k], caseTitles))
  }

  /** `accuracy` as an exact fraction (numerator, positive denominator): correct / answered, or 1 when
    * nothing was answered. */
  function Accuracy(s: Spot): (q: (int, int))
    ensures q.1 > 0
  {
    if s.totalAnswered > 0 then (s.totalCorrect, s.totalAnswered) else (1, 1)
  }

  /** `a.accuracy - b.accuracy <= 0`. */
  predicate AccuracyLe(a: Spot, b: Spot) {
    Accuracy(a).0 * Accuracy(b).1 <= Accuracy(b).0 * Accuracy(a).1
  }

  function ByAccuracy(): (Spot, Spot) -> bool {
    (a: Spot, b: Spot) => AccuracyLe(a, b)
  }

  predicate Attempted(s: Spot) {
    s.totalAnswered > 0
  }

  function IsAttempted(): Spot -> bool {
    (s: Spot) => Attempted(s)
  }

  /** The attempted cases, worst accuracy first (a stable sort). */
  function RankedSpots(statsDocs: seq<Doc>, caseTitles: map<string, Option<Value>>): seq<Spot> {
    SortBy(Filter(ToSpots(statsDocs, caseTitles), IsAttempted()), ByAccuracy())
  }

  /** `computedStats`: the first five of the ranking. */
  function TroubleSpots(statsDocs: seq<Doc>, caseTitles: map<string, Option<Value>>): seq<Spot> {
    var ranked := RankedSpots(statsDocs, caseTitles);
    ranked[..if |ranked| < 5 then |ranked| else 5]
  }

  /** Comparing fractions with positive denominators by cross-multiplication is transitive. */
  lemma CrossTransitive(a: int, an: int, b: int, bn: int, c: int, cn: int)
    requires an > 0 && bn > 0 && cn > 0
    requires a * bn <= b * an && b * cn <= c * bn
    ensures a * cn <= c * an
  {
    assert a * bn * cn <= b * an * cn by {
      MulLe(a * bn, b * an, cn);
    }
    assert b * cn * an <= c * bn * an by {
      MulLe(b * cn, c * bn, an);
    }
    assert (a * cn) * bn <= (c * an) * bn;
    if a * cn > c * an {
      MulLt(c * an, a * cn, bn);
    }
  }

  lemma MulLe(x: int, y: int, z: int)
    requires x <= y && z > 0
    ensures x * z <= y * z
  {
  }

  lemma MulLt(x: int, y: int, z: int)
    requires x < y && z > 0
    ensures x * z < y * z
  {
  }

  /** The accuracy comparator is a consistent ordering, so the sort is well defined. */
  lemma AccuracyOrder()
    ensures TotalPreorder(ByAccuracy())
  {
    forall a: Spot, b: Spot, c: Spot | AccuracyLe(a, b) && AccuracyLe(b, c) ensures AccuracyLe(a, c) {
      CrossTransitive(Accuracy(a).0, Accuracy(a).1, Accuracy(b).0, Accuracy(b).1, Accuracy(c).0, Accuracy(c).1);
    }
  }

  /** The ranking holds exactly the attempted cases, worst accuracy first. */
  lemma RankedSpotsSpec(statsDocs: seq<Doc>, caseTitles: map<string, Option<Value>>)
    ensures var ranked := RankedSpots(statsDocs, caseTitles);
      && multiset(ranked) == multiset(Filter(ToSpots(statsDocs, caseTitles), IsAttempted()))
      && SortedBy(ranked, ByAccuracy())
  {
    AccuracyOrder();
    SortIsSorted(Filter(ToSpots(statsDocs, caseTitles), IsAttempted()), ByAccuracy());
  }

  /** At most five cases are listed, each of them attempted and one of the stats documents. */
  lemma TroubleSpotsAttempted(statsDocs: seq<Doc>, caseTitles: map<string, Option<Value>>)
    ensures var shown := TroubleSpots(statsDocs, caseTitles);
      && |shown| <= 5
      && forall k :: 0 <= k < |shown| ==> Attempted(shown[k]) && shown[k] in ToSpots(statsDocs, caseTitles)
  {
    var attempted := Filter(ToSpots(statsDocs, caseTitles), IsAttempted());
    var ranked := RankedSpots(statsDocs, caseTitles);
    var n := if |ranked| < 5 then |ranked| else 5;
    forall k | 0 <= k < n ensures Attempted(ranked[k]) && ranked[k] in ToSpots(statsDocs, caseTitles) {
      assert ranked[k] in multiset(ranked);
      assert ranked[k] in attempted;
    }
  }

  /** The list is worst first, and no attempted case left out has a lower accuracy than one listed. */
  lemma TroubleSpotsWorstFirst(statsDocs: seq<Doc>, caseTitles: map<string, Option<Value>>)
    ensures var shown := TroubleSpots(statsDocs, caseTitles);
      var ranked := RankedSpots(statsDocs, caseTitles);
      && SortedBy(shown, ByAccuracy())
      && forall i, j :: 0 <= i < |shown| <= j < |ranked| ==> AccuracyLe(shown[i], ranked[j])
  {
    var ranked := RankedSpots(statsDocs, caseTitles);
    var n := if |ranked| < 5 then |ranked| else 5;
    RankedSpotsSpec(statsDocs, caseTitles);
    forall i, j | 0 <= i < n <= j < |ranked| ensures AccuracyLe(ranked[..n][i], ranked[j]) {
      SortedPrefix(ranked, ByAccuracy(), n, i, j);
    }
  }

  /** A spot shown for a case with a title carries that title; otherwise its id. */
  lemma SpotTitle(docs: Snapshot, stats: Doc, k: nat)
    requires DistinctIds(docs) && k < |docs|
    requires StrField(stats, "caseId") == Some(docs[k].0)
    ensures Truthy(Field(docs[k].1, "title")) ==> ToSpot(stats, Titles(docs)).title == Field(docs[k].1, "title").value
    ensures !Truthy(Field(docs[k].1, "title")) ==> ToSpot(stats, Titles(docs)).title == Str(docs[k].0)
  {
    TitleOfCase(docs, k);
  }
}
