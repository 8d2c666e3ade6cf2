/**
 * The admin leaderboard of user statistics: the search box filter, the column sort with its comparator and
 * the header click that toggles the sort. The rows are the `UserRow`s `getAdminUserStats` returns.
 */
module Leaderboard {
  import opened Wrappers
  import opened Text
  import opened Seqs
  import opened AdminUserStats

  // ---------------------------------------------------------------------------------------
  // Search
  // ---------------------------------------------------------------------------------------

  /** Whether `search` occurs, ignoring case, in the row's employee id or in its email. */
  predicate Matches(row: UserRow, search: string) {
    MatchesLowered(row, ToLower(search))
  }

  /** The filter callback, given `search.toLowerCase()`. */
  predicate MatchesLowered(row: UserRow, query: string) {
    Contains(ToLower(row.employeeId), query) || Contains(ToLower(row.email), query)
  }

  function MatchesQuery(query: string): UserRow -> bool {
    (row: UserRow) => MatchesLowered(row, query)
  }

  /** `filteredData`. */
  function FilteredRows(data: seq<UserRow>, search: string): (r: seq<UserRow>)
    ensures forall row :: row in r <==> row in data && Matches(row, search)
    ensures |r| <= |data|
  {
    Filter(data, MatchesQuery(ToLower(search)))
  }

  /** The filter keeps the order of the rows, and an empty search box keeps every row. */
  lemma FilterKeepsOrder(data: seq<UserRow>, search: string)
    ensures IsSubsequence(FilteredRows(data, search), data)
    ensures search == [] ==> FilteredRows(data, search) == data
  {
    FilterIsSubsequence(data, MatchesQuery(ToLower(search)));
    if search == [] {
      forall row | row in data ensures Matches(row, search) {
        ContainsEmpty(ToLower(row.employeeId));
      }
      FilterAll(data, MatchesQuery(ToLower(search)));
    }
  }

  /** Typing the search in other letter cases filters the same rows. */
  lemma SearchIgnoresCase(data: seq<UserRow>, search: string)
    ensures FilteredRows(data, ToLower(search)) == FilteredRows(data, search)
  {
    ToLowerIdempotent(search);
  }

  // ---------------------------------------------------------------------------------------
  // Sort configuration
  // ---------------------------------------------------------------------------------------

  /** The keys of a row (`keyof AdminUserStatRow`). */
  datatype SortKey = Uid | EmployeeId | Email | LoginCount | TotalAttempts | TotalCorrect | Accuracy
                   | TotalPoints | LastActivityAt

  datatype Direction = Asc | Desc

  datatype SortConfig = SortConfig(key: SortKey, direction: Direction)

  /** The initial sort: most points first. */
  const DefaultSort := SortConfig(TotalPoints, Desc)

  /** `handleSort`: a second click on the column sorted descending turns it ascending; every other click
    * sorts that column descending. */
  function HandleSort(current: SortConfig, key: SortKey): (next: SortConfig)
    ensures next.key == key
    ensures next.direction == Asc <==> current.key == key && current.direction == Desc
  {
    SortConfig(key, if current.key == key && current.direction == Desc then Asc else Desc)
  }

  /** Clicking one column repeatedly alternates between descending and ascending, starting descending. */
  lemma SortToggleCycle(current: SortConfig, key: SortKey)
    ensures current.key != key ==> HandleSort(current, key) == SortConfig(key, Desc)
    ensures HandleSort(SortConfig(key, Desc), key) == SortConfig(key, Asc)
    ensures HandleSort(HandleSort(SortConfig(key, Asc), key), key) == SortConfig(key, Asc)
    ensures HandleSort(DefaultSort, TotalPoints).direction == Asc
  {
  }

  // ---------------------------------------------------------------------------------------
  // Comparator
  // ---------------------------------------------------------------------------------------

  /** The value of a row's column: a number, a string, or `null` (only `lastActivityAt` can be null). */
  datatype KeyValue = NullValue | NumValue(n: int) | StrValue(s: string)

  function Key(row: UserRow, k: SortKey): KeyValue {
    match k
    case Uid => StrValue(row.uid)
    case EmployeeId => StrValue(row.employeeId)
    case Email => StrValue(row.email)
    case LoginCount => NumValue(row.loginCount)
    case TotalAttempts => NumValue(row.totalAttempts)
    case TotalCorrect => NumValue(row.totalCorrect)
    case Accuracy => NumValue(row.accuracy)
    case TotalPoints => NumValue(row.totalPoints)
    case LastActivityAt => if row.lastActivityAt.Some? then StrValue(row.lastActivityAt.value) else NullValue
  }

  /** `aVal < bVal` on two values of one column: numeric order on numbers, UTF-16 code-unit order on strings. The
    * values of one column are all numbers or all strings; placing numbers before strings only makes the
    * order total. */
  predicate ValueLt(x: KeyValue, y: KeyValue) {
    match (x, y)
    case (NumValue(m), NumValue(n)) => m < n
    case (StrValue(s), StrValue(t)) => StrLt(s, t)
    case (NumValue(_), StrValue(_)) => true
    case _ => false
  }

  /** The comparator passed to `sort`: 1 when `a`'s value is null, -1 when only `b`'s is, otherwise by the
    * values in the configured direction, 0 for equal values. */
  function Compare(a: UserRow, b: UserRow, cfg: SortConfig): (c: int)
    ensures -1 <= c <= 1
  {
    var x, y := Key(a, cfg.key), Key(b, cfg.key);
    if x.NullValue? then 1
    else if y.NullValue? then -1
    else if ValueLt(x, y) then (if cfg.direction == Asc then -1 else 1)
    else if ValueLt(y, x) then (if cfg.direction == Asc then 1 else -1)
    else 0
  }

  /** A null value sorts after anything, and the comparator answers 1 even when both values are null. */
  lemma NullSortsAfter(a: UserRow, b: UserRow, cfg: SortConfig)
    ensures Key(a, cfg.key).NullValue? ==> Compare(a, b, cfg) == 1
    ensures !Key(a, cfg.key).NullValue? && Key(b, cfg.key).NullValue? ==> Compare(a, b, cfg) == -1
  {
  }

  /** The order `sort` realises with that comparator: rows with a null value last, the rest by value. Two
    * nulls, on which the comparator answers 1 both ways, stay in their order. */
  predicate RowLe(cfg: SortConfig, a: UserRow, b: UserRow) {
    var x, y := Key(a, cfg.key), Key(b, cfg.key);
    if y.NullValue? then true
    else if x.NullValue? then false
    else if cfg.direction == Asc then !ValueLt(y, x)
    else !ValueLt(x, y)
  }

  function RowOrder(cfg: SortConfig): (UserRow, UserRow) -> bool {
    (a: UserRow, b: UserRow) => RowLe(cfg, a, b)
  }

  lemma ValueLtAsymmetric(x: KeyValue, y: KeyValue)
    ensures !(ValueLt(x, y) && ValueLt(y, x))
  {
    if x.StrValue? && y.StrValue? && ValueLt(x, y) && ValueLt(y, x) {
      StrLtTransitive(x.s, y.s, x.s);
      StrLtIrreflexive(x.s);
    }
  }

  /** Two values that are not strictly ordered either way are equal. */
  lemma ValueLtTotal(x: KeyValue, y: KeyValue)
    requires !x.NullValue? && !y.NullValue?
    ensures x == y || ValueLt(x, y) || ValueLt(y, x)
  {
    if x.StrValue? && y.StrValue? { StrLtTotal(x.s, y.s); }
  }

  lemma ValueLtTransitive(x: KeyValue, y: KeyValue, z: KeyValue)
    requires ValueLt(x, y) && ValueLt(y, z)
    ensures ValueLt(x, z)
  {
    if x.StrValue? && z.StrValue? { StrLtTransitive(x.s, y.s, z.s); }
  }

  /** Wherever the comparator is consistent (not two nulls), `a` may precede `b` exactly when it answers
    * a negative number or 0. */
  lemma {:induction false} RowLeIsComparator(cfg: SortConfig, a: UserRow, b: UserRow)
    requires !(Key(a, cfg.key).NullValue? && Key(b, cfg.key).NullValue?)
    ensures RowLe(cfg, a, b) <==> Compare(a, b, cfg) <= 0
  {
    ValueLtAsymmetric(Key(a, cfg.key), Key(b, cfg.key));
  }

  lemma {:induction false} RowLeStep(cfg: SortConfig, a: UserRow, b: UserRow, c: UserRow)
    ensures RowLe(cfg, a, b) || RowLe(cfg, b, a)
    ensures RowLe(cfg, a, b) && RowLe(cfg, b, c) ==> RowLe(cfg, a, c)
  {
    var x, y, z := Key(a, cfg.key), Key(b, cfg.key), Key(c, cfg.key);
    ValueLtAsymmetric(x, y);
    if !x.NullValue? && !y.NullValue? && !z.NullValue? && RowLe(cfg, a, b) && RowLe(cfg, b, c) {
      ValueLtTotal(x, y);
      ValueLtTotal(y, z);
      if cfg.direction == Asc {
        if ValueLt(z, x) {
          if ValueLt(x, y) { ValueLtTransitive(z, x, y); }
          if ValueLt(y, x) { ValueLtAsymmetric(x, y); }
        }
      } else {
        if ValueLt(x, z) {
          if ValueLt(y, x) { ValueLtTransitive(y, x, z); }
          if ValueLt(x, y) { ValueLtAsymmetric(x, y); }
        }
      }
    }
  }

  lemma {:induction false} RowOrderPreorder(cfg: SortConfig)
    ensures TotalPreorder(RowOrder(cfg))
  {
    forall a, b ensures RowOrder(cfg)(a, b) || RowOrder(cfg)(b, a) { RowLeStep(cfg, a, b, b); }
    forall a, b, c | RowOrder(cfg)(a, b) && RowOrder(cfg)(b, c) ensures RowOrder(cfg)(a, c) {
      RowLeStep(cfg, a, b, c);
    }
  }

  // ---------------------------------------------------------------------------------------
  // Sorted table
  // ---------------------------------------------------------------------------------------

  /** `sortedData`: the filtered rows sorted with the comparator. */
  function SortedRows(data: seq<UserRow>, search: string, cfg: SortConfig): (r: seq<UserRow>)
    ensures multiset(r) == multiset(FilteredRows(data, search))
  {
    SortBy(FilteredRows(data, search), RowOrder(cfg))
  }

  /** The table lists exactly the matching rows, nulls last and the others in the configured direction:
    * descending never puts a smaller value before a larger one, ascending never a larger before a smaller. */
  lemma {:induction false} SortedRowsOrder(data: seq<UserRow>, search: string, cfg: SortConfig, i: nat, j: nat)
    requires i < j < |SortedRows(data, search, cfg)|
    ensures var r := SortedRows(data, search, cfg);
      var x, y := Key(r[i], cfg.key), Key(r[j], cfg.key);
      && (x.NullValue? ==> y.NullValue?)
      && (!y.NullValue? && cfg.direction == Desc ==> !ValueLt(x, y))
      && (!y.NullValue? && cfg.direction == Asc ==> !ValueLt(y, x))
  {
    RowOrderPreorder(cfg);
    SortIsSorted(FilteredRows(data, search), RowOrder(cfg));
    var r := SortedRows(data, search, cfg);
    assert RowOrder(cfg)(r[i], r[j]);
  }

  /** Every matching row appears in the table, once for each time it is in the data, and nothing else. */
  lemma SortedRowsMembers(data: seq<UserRow>, search: string, cfg: SortConfig)
    ensures forall row :: row in SortedRows(data, search, cfg) <==> row in data && Matches(row, search)
    ensures |SortedRows(data, search, cfg)| == |FilteredRows(data, search)|
  {
    var r, f := SortedRows(data, search, cfg), FilteredRows(data, search);
    forall row ensures row in r <==> row in f {
      assert row in r <==> row in multiset(r);
      assert row in f <==> row in multiset(f);
    }
    assert |r| == |multiset(r)| == |multiset(f)| == |f|;
  }

  /** On first display (no search, default sort) all rows are listed with points non-increasing. */
  lemma {:induction false} DefaultTable(data: seq<UserRow>, i: nat, j: nat)
    requires i < j < |SortedRows(data, [], DefaultSort)|
    ensures multiset(SortedRows(data, [], DefaultSort)) == multiset(data)
    ensures SortedRows(data, [], DefaultSort)[i].totalPoints >= SortedRows(data, [], DefaultSort)[j].totalPoints
  {
    FilterKeepsOrder(data, []);
    SortedRowsOrder(data, [], DefaultSort, i, j);
  }
}
