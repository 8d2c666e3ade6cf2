/**
 * The public case library: the published cases, the category filter, and the newest-first order that
 * puts one case in the "Latest Case" panel and the rest in the grid.
 */
module CaseLibrary {
  import opened Wrappers
  import opened Schema
  import opened Seqs

  /** The `where("status", "==", "published")` query over the cases collection, in the order served. */
  function PublishedCases(all: seq<Case>): (r: seq<Case>)
    ensures forall c :: c in r <==> c in all && c.status == Published
  {
    Filter(all, IsPublished())
  }

  function IsPublished(): Case -> bool {
    (c: Case) => c.status == Published
  }

  datatype CategoryChoice = AllCategories | OnlyCategory(category: CaseCategory)

  function InCategory(category: CaseCategory): Case -> bool {
    (c: Case) => c.category == category
  }

  /** `filteredCases`: every case for "All", else the cases of the chosen category. */
  function FilteredCases(cases: seq<Case>, choice: CategoryChoice): (r: seq<Case>)
    ensures choice.AllCategories? ==> r == cases
    ensures choice.OnlyCategory? ==> forall c :: c in r <==> c in cases && c.category == choice.category
    ensures IsSubsequence(r, cases)
  {
    if choice.AllCategories? then
      SubsequenceReflexive(cases);
      cases
    else
      FilterIsSubsequence(cases, InCategory(choice.category));
      Filter(cases, InCategory(choice.category))
  }

  /** `a.createdAt?.seconds || 0`: the whole seconds of the creation time, 0 without one. */
  function Seconds(c: Case): (s: int)
    ensures c.createdAt.None? ==> s == 0
    ensures c.createdAt.Some? ==> s * 1000 <= c.createdAt.value < s * 1000 + 1000
  {
    if c.createdAt.Some? then c.createdAt.value / 1000 else 0
  }

  /** The comparator `timeB - timeA`: `a` may come first when it is at least as new. */
  function NewerFirst(): (Case, Case) -> bool {
    (a: Case, b: Case) => Seconds(a) >= Seconds(b)
  }

  lemma NewerFirstPreorder()
    ensures TotalPreorder(NewerFirst())
  {
  }

  /** `sortedCases`: the filtered cases reordered newest first. */
  function SortedCases(cases: seq<Case>, choice: CategoryChoice): (r: seq<Case>)
    ensures multiset(r) == multiset(FilteredCases(cases, choice))
  {
    SortBy(FilteredCases(cases, choice), NewerFirst())
  }

  /** The sorted list never puts an older case before a newer one. */
  lemma {:induction false} SortedNewestFirst(cases: seq<Case>, choice: CategoryChoice, i: nat, j: nat)
    requires i < j < |SortedCases(cases, choice)|
    ensures Seconds(SortedCases(cases, choice)[i]) >= Seconds(SortedCases(cases, choice)[j])
  {
    SortedCasesSorted(cases, choice);
    assert NewerFirst()(SortedCases(cases, choice)[i], SortedCases(cases, choice)[j]);
  }

  lemma SortedCasesSorted(cases: seq<Case>, choice: CategoryChoice)
    ensures SortedBy(SortedCases(cases, choice), NewerFirst())
  {
    NewerFirstPreorder();
    SortIsSorted(FilteredCases(cases, choice), NewerFirst());
  }

  /** `featuredCase = sortedCases[0]` (undefined for an empty list) and `restCases = sortedCases.slice(1)`. */
  function Featured(cases: seq<Case>, choice: CategoryChoice): (r: (Option<Case>, seq<Case>))
    ensures r.0.None? <==> FilteredCases(cases, choice) == []
    ensures r.0.None? ==> r.1 == []
    ensures r.0.Some? ==> [r.0.value] + r.1 == SortedCases(cases, choice)
  {
    var sorted := SortedCases(cases, choice);
    if sorted == [] then (None, []) else (Some(sorted[0]), sorted[1..])
  }

  /** The featured case is one of the filtered cases and none of them is newer; the grid holds the others. */
  lemma {:induction false} FeaturedIsNewest(cases: seq<Case>, choice: CategoryChoice)
    requires Featured(cases, choice).0.Some?
    ensures var f := Featured(cases, choice).0.value;
      && f in FilteredCases(cases, choice)
      && forall c :: c in FilteredCases(cases, choice) ==> Seconds(c) <= Seconds(f)
    ensures multiset(Featured(cases, choice).1) + multiset{Featured(cases, choice).0.value} ==
      multiset(FilteredCases(cases, choice))
  {
    var sorted := SortedCases(cases, choice);
    var f := sorted[0];
    assert f in multiset(sorted);
    SortedCasesSorted(cases, choice);
    forall c | c in FilteredCases(cases, choice) ensures Seconds(c) <= Seconds(f) {
      assert c in multiset(sorted);
      SortedHead(sorted, NewerFirst(), c);
    }
    assert sorted == [f] + sorted[1..];
  }
}
