/**
 * The public literature library: the published papers newest first, the tag list, the search and tag
 * filter, the hero paper and the tag buttons.
 */
module LiteratureLibrary {
  import opened Wrappers
  import opened Schema
  import opened Seqs
  import opened Text

  // ---------------------------------------------------------------------------------------
  // Fetch
  // ---------------------------------------------------------------------------------------

  function IsPublished(): Paper -> bool {
    (p: Paper) => p.status == Published
  }

  function NewerFirst(): (Paper, Paper) -> bool {
    (a: Paper, b: Paper) => a.createdAt >= b.createdAt
  }

  /** The query `where("status", "==", "published"), orderBy("createdAt", "desc")`; papers created at the
    * same instant keep the order they are served in. */
  function FetchedPapers(all: seq<Paper>): (r: seq<Paper>)
    ensures multiset(r) == multiset(Filter(all, IsPublished()))
  {
    SortBy(Filter(all, IsPublished()), NewerFirst())
  }

  lemma {:induction false} FetchedPapersSpec(all: seq<Paper>, i: nat, j: nat)
    ensures forall p :: p in FetchedPapers(all) <==> p in all && p.status == Published
    ensures i < j < |FetchedPapers(all)| ==> FetchedPapers(all)[i].createdAt >= FetchedPapers(all)[j].createdAt
  {
    var r, f := FetchedPapers(all), Filter(all, IsPublished());
    forall p ensures p in r <==> p in f {
      assert p in r <==> p in multiset(r);
      assert p in f <==> p in multiset(f);
    }
    SortIsSorted(f, NewerFirst());
    if i < j < |r| {
      assert NewerFirst()(r[i], r[j]);
    }
  }

  /** `heroPaper`: the first paper fetched, whatever the search and the selected tag are. */
  function Hero(papers: seq<Paper>): (r: Option<Paper>)
    ensures r.None? <==> papers == []
    ensures r.Some? ==> r.value == papers[0]
  {
    if |papers| > 0 then Some(papers[0]) else None
  }

  /** Over the fetched list, the hero is a published paper no other published paper is newer than. */
  lemma {:induction false} HeroIsNewest(all: seq<Paper>)
    requires Hero(FetchedPapers(all)).Some?
    ensures var h := Hero(FetchedPapers(all)).value;
      && h in all && h.status == Published
      && forall p :: p in all && p.status == Published ==> p.createdAt <= h.createdAt
  {
    var r := FetchedPapers(all);
    FetchedPapersSpec(all, 0, 0);
    SortIsSorted(Filter(all, IsPublished()), NewerFirst());
    forall p | p in all && p.status == Published ensures p.createdAt <= r[0].createdAt {
      SortedHead(r, NewerFirst(), p);
    }
  }

  // ---------------------------------------------------------------------------------------
  // Tags
  // ---------------------------------------------------------------------------------------

  /** `papers.flatMap(p => p.tags || [])`. */
  function TagsOf(papers: seq<Paper>): (r: seq<string>)
    ensures forall t :: t in r <==> exists k :: 0 <= k < |papers| && t in papers[k].tags
  {
    if papers == [] then []
    else
      var rest := TagsOf(papers[1..]);
      assert forall k :: 1 <= k < |papers| ==> papers[k] == papers[1..][k - 1];
      papers[0].tags + rest
  }

  /** Strictly increasing in UTF-16 code-unit order: sorted and without duplicates. */
  predicate StrictlySorted(s: seq<string>) {
    forall i, j :: 0 <= i < j < |s| ==> StrLt(s[i], s[j])
  }

  /** Adds `x` to a strictly sorted list at its place, unless it is there already. */
  function InsertTag(x: string, s: seq<string>): seq<string>
    decreases |s|
  {
    if s == [] then [x]
    else if x == s[0] then s
    else if StrLt(x, s[0]) then [x] + s
    else [s[0]] + InsertTag(x, s[1..])
  }

  lemma {:induction false} InsertTagSpec(x: string, s: seq<string>)
    requires StrictlySorted(s)
    ensures forall y :: y in InsertTag(x, s) <==> y == x || y in s
    ensures StrictlySorted(InsertTag(x, s))
    decreases |s|
  {
    if s != [] && x != s[0] {
      if StrLt(x, s[0]) {
        var r := [x] + s;
        forall i, j | 0 <= i < j < |r| ensures StrLt(r[i], r[j]) {
          if i == 0 && j > 1 { StrLtTransitive(x, s[0], s[j - 1]); }
        }
      } else {
        InsertTagSpec(x, s[1..]);
        StrLtTotal(x, s[0]);
        var t := InsertTag(x, s[1..]);
        var r := [s[0]] + t;
        assert s == [s[0]] + s[1..];
        forall i, j | 0 <= i < j < |r| ensures StrLt(r[i], r[j]) {
          if i == 0 {
            assert r[j] in t;
            if r[j] != x {
              var m :| 0 <= m < |s[1..]| && s[1..][m] == r[j];
              assert StrLt(s[0], s[m + 1]);
            }
          }
        }
      }
    }
  }

  /** `Array.from(new Set(tags)).sort()`. */
  function SortedUnique(tags: seq<string>): seq<string> {
    if tags == [] then [] else InsertTag(tags[0], SortedUnique(tags[1..]))
  }

  lemma {:induction false} SortedUniqueSpec(tags: seq<string>)
    ensures forall t :: t in SortedUnique(tags) <==> t in tags
    ensures StrictlySorted(SortedUnique(tags))
  {
    if tags != [] {
      SortedUniqueSpec(tags[1..]);
      InsertTagSpec(tags[0], SortedUnique(tags[1..]));
      assert tags == [tags[0]] + tags[1..];
    }
  }

  /** `allTags`. */
  function AllTags(papers: seq<Paper>): seq<string> {
    SortedUnique(TagsOf(papers))
  }

  /** The tag buttons: every tag of some paper once, in sorted order, and nothing else. */
  lemma AllTagsSpec(papers: seq<Paper>)
    ensures forall t :: t in AllTags(papers) <==> exists k :: 0 <= k < |papers| && t in papers[k].tags
    ensures forall i, j :: 0 <= i < j < |AllTags(papers)| ==> StrLt(AllTags(papers)[i], AllTags(papers)[j])
    ensures forall i, j :: 0 <= i < j < |AllTags(papers)| ==> AllTags(papers)[i] != AllTags(papers)[j]
  {
    SortedUniqueSpec(TagsOf(papers));
    forall i, j | 0 <= i < j < |AllTags(papers)| ensures AllTags(papers)[i] != AllTags(papers)[j] {
      StrLtIrreflexive(AllTags(papers)[i]);
    }
  }

  // ---------------------------------------------------------------------------------------
  // Filter
  // ---------------------------------------------------------------------------------------

  /** `matchesSearch && matchesTag`. A selected tag is falsy when it is the empty string, and then filters
    * nothing. */
  predicate Matches(p: Paper, search: string, selected: Option<string>) {
    && (Contains(ToLower(p.title), ToLower(search)) || Contains(ToLower(p.authors), ToLower(search)))
    && (selected.None? || selected.value == [] || selected.value in p.tags)
  }

  function MatchesBy(search: string, selected: Option<string>): Paper -> bool {
    (p: Paper) => Matches(p, search, selected)
  }

  /** `filteredPapers`. */
  function FilteredPapers(papers: seq<Paper>, search: string, selected: Option<string>): (r: seq<Paper>)
    ensures forall p :: p in r <==> p in papers && Matches(p, search, selected)
    ensures IsSubsequence(r, papers)
  {
    FilterIsSubsequence(papers, MatchesBy(search, selected));
    Filter(papers, MatchesBy(search, selected))
  }

  /** With an empty search box and no tag selected every paper is listed. */
  lemma NoFilterShowsAll(papers: seq<Paper>)
    ensures FilteredPapers(papers, [], None) == papers
  {
    forall p | p in papers ensures Matches(p, [], None) {
      ContainsEmpty(ToLower(p.title));
    }
    FilterAll(papers, MatchesBy([], None));
  }

  /** A selected non-empty tag keeps only papers carrying it. */
  lemma SelectedTagFilters(papers: seq<Paper>, search: string, tag: string)
    requires tag != []
    ensures forall p :: p in FilteredPapers(papers, search, Some(tag)) ==> tag in p.tags
  {
  }

  /** A tag button: clicking the selected tag clears the selection, clicking another selects it. */
  function ToggleTag(selected: Option<string>, tag: string): (r: Option<string>)
    ensures r.None? <==> selected == Some(tag)
    ensures r.Some? ==> r.value == tag
  {
    if selected == Some(tag) then None else Some(tag)
  }

  /** Two clicks on one tag return to the previous selection when it was none or that tag. */
  lemma ToggleTwice(selected: Option<string>, tag: string)
    requires selected.None? || selected == Some(tag)
    ensures ToggleTag(ToggleTag(selected, tag), tag) == selected
  {
  }
}
