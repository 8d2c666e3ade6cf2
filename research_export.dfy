/**
 * The exposure-linkage export: for every clinical event, the attending employee's learning
 * activity before the ECG, counted in trailing 7/14/30-day windows, with the most recent prior
 * login, written out as one CSV line per clinical event.
 *
 * The events collection is a sequence in the store's order; a query `employeeId in chunk` yields
 * the events of that sequence whose employee id is in the chunk, in that order. A day is
 * 86 400 000 ms and "within k days" is `ecg - t <= k * 86400000` on integer milliseconds.
 */
module ResearchExport {
  import opened Wrappers
  import opened Store
  import opened Schema
  import opened Seqs
  import opened Text

  /** The most ids a Firestore `in` query accepts. */
  const ChunkSize: nat := 10

  /** What `formatDate` accepts: a Timestamp, a string, or null/undefined. */
  datatype DateInput = NoDate | DateString(s: string) | DateStamp(ms: int)

  /** `formatDate`: empty for a missing (or empty) date, a string as it is, a Timestamp in ISO form. */
  function FormatDate(d: DateInput, iso: int -> string): (r: string)
    ensures d.NoDate? ==> r == ""
    ensures d.DateString? ==> r == d.s
    ensures d.DateStamp? ==> r == iso(d.ms)
  {
    match d
    case NoDate => ""
    case DateString(s) => if s == "" then "" else s
    case DateStamp(ms) => iso(ms)
  }

  /** Formatting is idempotent on its own output: a formatted date passes through unchanged. */
  lemma FormatDateIdempotent(d: DateInput, iso: int -> string)
    ensures FormatDate(DateString(FormatDate(d, iso)), iso) == FormatDate(d, iso)
  {
  }

  // ---------------------------------------------------------------------------------------
  // Step 2: the distinct attending employees
  // ---------------------------------------------------------------------------------------

  /** The distinct non-empty attending ids in first-occurrence order (`Array.from(new Set(...))`). */
  function DistinctIds(ces: seq<ClinicalEvent>): (ids: seq<string>)
    ensures forall x :: x in ids <==> x != "" && exists k :: 0 <= k < |ces| && ces[k].attendingEmployeeId == x
    ensures forall i, j :: 0 <= i < j < |ids| ==> ids[i] != ids[j]
    decreases |ces|
  {
    if ces == [] then []
    else
      var init := ces[..|ces| - 1];
      assert forall k :: 0 <= k < |init| ==> init[k] == ces[k];
      var prev := DistinctIds(init);
      var e := ces[|ces| - 1].attendingEmployeeId;
      if e != "" && e !in prev then prev + [e] else prev
  }

  method CollectEmployeeIds(ces: seq<ClinicalEvent>) returns (ids: seq<string>)
    ensures ids == DistinctIds(ces)
  {
    ids := [];
    var i := 0;
    while i < |ces|
      invariant 0 <= i <= |ces|
      invariant ids == DistinctIds(ces[..i])
    {
      var e := ces[i].attendingEmployeeId;
      assert ces[..i + 1][..i] == ces[..i];
      if e != "" && e !in ids {
        ids := ids + [e];
      }
      i := i + 1;
    }
    assert ces[..|ces|] == ces;
  }

  // ---------------------------------------------------------------------------------------
  // Step 3: chunked fetch of the employees' events
  // ---------------------------------------------------------------------------------------

  /** `ids.slice(i, i + 10)` for i = 0, 10, 20, ...: ⌈n/10⌉ non-empty chunks of at most 10 that concatenate to `ids`. */
  function Chunks(ids: seq<string>): (cs: seq<seq<string>>)
    ensures |cs| == (|ids| + ChunkSize - 1) / ChunkSize
    ensures forall k :: 0 <= k < |cs| ==> 0 < |cs[k]| <= ChunkSize
    ensures Flatten(cs) == ids
    decreases |ids|
  {
    if ids == [] then []
    else if |ids| <= ChunkSize then
      assert Flatten([ids]) == ids + Flatten([]);
      [ids]
    else
      var rest := Chunks(ids[ChunkSize..]);
      assert ([ids[..ChunkSize]] + rest)[1..] == rest;
      assert ids == ids[..ChunkSize] + ids[ChunkSize..];
      [ids[..ChunkSize]] + rest
  }

  predicate InChunk(e: ResearchEvent, chunk: seq<string>) {
    e.employeeId.Some? && e.employeeId.value in chunk
  }

  /** `collection("events").where("employeeId", "in", chunk).get()`. */
  function Query(events: seq<ResearchEvent>, chunk: seq<string>): seq<ResearchEvent> {
    Filter(events, (e: ResearchEvent) => InChunk(e, chunk))
  }

  /** The results of the chunk queries, one after another. */
  function FetchAll(events: seq<ResearchEvent>, cs: seq<seq<string>>): seq<ResearchEvent> {
    if cs == [] then [] else Query(events, cs[0]) + FetchAll(events, cs[1..])
  }

  method FetchEvents(events: seq<ResearchEvent>, ids: seq<string>) returns (fetched: seq<ResearchEvent>, queries: nat)
    ensures fetched == FetchAll(events, Chunks(ids))
    ensures queries == |Chunks(ids)|
  {
    fetched := [];
    queries := 0;
    var i := 0;
    while i < |ids|
      invariant 0 <= i <= |ids|
      invariant fetched + FetchAll(events, Chunks(ids[i..])) == FetchAll(events, Chunks(ids))
      invariant queries + |Chunks(ids[i..])| == |Chunks(ids)|
      decreases |ids| - i
    {
      var end := if i + ChunkSize <= |ids| then i + ChunkSize else |ids|;
      var chunk := ids[i..end];
      ChunksStep(events, ids, i, end);
      var snap := Query(events, chunk);
      fetched := fetched + snap;
      queries := queries + 1;
      i := end;
    }
  }

  /** One round of the chunk loop: the chunk at `i` is the first chunk of what remains. */
  lemma ChunksStep(events: seq<ResearchEvent>, ids: seq<string>, i: nat, end: nat)
    requires i < |ids| && end == if i + ChunkSize <= |ids| then i + ChunkSize else |ids|
    ensures FetchAll(events, Chunks(ids[i..])) == Query(events, ids[i..end]) + FetchAll(events, Chunks(ids[end..]))
    ensures |Chunks(ids[i..])| == |Chunks(ids[end..])| + 1
  {
    var chunk := ids[i..end];
    var rest := ids[i..];
    assert rest[..end - i] == chunk && rest[end - i..] == ids[end..];
    assert Chunks(rest) == [chunk] + Chunks(ids[end..]);
    assert ([chunk] + Chunks(ids[end..]))[1..] == Chunks(ids[end..]);
  }

  /** Coverage of the fan-out: for distinct ids the chunked queries return, as a multiset, exactly what one
    * query over all the ids would return; no event is lost and none is fetched twice. */
  lemma {:induction false} FetchCoversQuery(events: seq<ResearchEvent>, ids: seq<string>)
    requires forall i, j :: 0 <= i < j < |ids| ==> ids[i] != ids[j]
    ensures multiset(FetchAll(events, Chunks(ids))) == multiset(Query(events, ids))
    decreases |ids|
  {
    if ids == [] {
    } else if |ids| <= ChunkSize {
      assert Chunks(ids) == [ids];
      assert FetchAll(events, [ids]) == Query(events, ids) + FetchAll(events, []);
    } else {
      var a := ids[..ChunkSize];
      var b := ids[ChunkSize..];
      assert ids == a + b;
      FetchCoversQuery(events, b);
      assert forall x :: x in a ==> x !in b;
      FilterDisjointMultiset(events, (e: ResearchEvent) => InChunk(e, a), (e: ResearchEvent) => InChunk(e, b),
        (e: ResearchEvent) => InChunk(e, ids));
      var cs := Chunks(ids);
      assert cs == [a] + Chunks(b);
      assert cs[1..] == Chunks(b);
    }
  }

  /** Every fetched event belongs to one of the requested employees. */
  lemma {:induction false} FetchedBelongToIds(events: seq<ResearchEvent>, cs: seq<seq<string>>, e: ResearchEvent)
    requires e in FetchAll(events, cs)
    ensures e in events && e.employeeId.Some? && e.employeeId.value in Flatten(cs)
  {
    if e in Query(events, cs[0]) {
    } else {
      FetchedBelongToIds(events, cs[1..], e);
    }
  }

  // ---------------------------------------------------------------------------------------
  // Step 4: each clinical event's prior history and its exposure counts
  // ---------------------------------------------------------------------------------------

  predicate IsPrior(e: ResearchEvent, emp: string, ecg: int) {
    e.employeeId == Some(emp) && e.createdAt.Some? && e.createdAt.value < ecg
  }

  /** The history filter: that employee's events with a `createdAt` strictly before the ECG. */
  function PriorEvents(fetched: seq<ResearchEvent>, emp: string, ecg: int): (h: seq<ResearchEvent>)
    ensures forall e :: e in h <==>
      e in fetched && e.employeeId == Some(emp) && e.createdAt.Some? && e.createdAt.value < ecg
    ensures IsSubsequence(h, fetched)
  {
    FilterIsSubsequence(fetched, (e: ResearchEvent) => IsPrior(e, emp, ecg));
    Filter(fetched, (e: ResearchEvent) => IsPrior(e, emp, ecg))
  }

  /** Some fetched event of `emp` has a `createdAt`: one that reaches the `ecgTime` comparison. */
  predicate HasDatedEvent(fetched: seq<ResearchEvent>, emp: string) {
    fetched != [] &&
    ((fetched[0].employeeId == Some(emp) && fetched[0].createdAt.Some?) || HasDatedEvent(fetched[1..], emp))
  }

  lemma {:induction false} HasDatedEventIff(fetched: seq<ResearchEvent>, emp: string)
    ensures HasDatedEvent(fetched, emp) <==> exists e :: e in fetched && e.employeeId == Some(emp) && e.createdAt.Some?
  {
    if fetched != [] {
      HasDatedEventIff(fetched[1..], emp);
      assert forall e :: e in fetched <==> e == fetched[0] || e in fetched[1..];
    }
  }

  /** The history filter throws a TypeError (`ecgTime.toMillis()` on undefined) when the clinical event has no
    * ECG time and some fetched event of the same employee has a `createdAt`. */
  predicate HistoryThrows(fetched: seq<ResearchEvent>, ce: ClinicalEvent) {
    ce.ecgTime.None? && HasDatedEvent(fetched, ce.attendingEmployeeId)
  }

  /** The history of a clinical event (empty when it has no ECG time and the filter does not throw). */
  function History(fetched: seq<ResearchEvent>, ce: ClinicalEvent): seq<ResearchEvent> {
    if ce.ecgTime.Some? then PriorEvents(fetched, ce.attendingEmployeeId, ce.ecgTime.value) else []
  }

  /** An event at most `days` days (and not after) the ECG. */
  predicate Within(e: ResearchEvent, ecg: int, days: int) {
    e.createdAt.Some? && 0 <= ecg - e.createdAt.value <= days * MsPerDay
  }

  predicate IsOmiAnswer(e: ResearchEvent) {
    e.action == SubmitCaseAnswer && "category" in e.meta && e.meta["category"] == Str("OMI")
  }

  function ActionWithin(a: EventAction, ecg: int, days: int): ResearchEvent -> bool {
    (e: ResearchEvent) => e.action == a && Within(e, ecg, days)
  }

  function OmiWithin(ecg: int, days: int): ResearchEvent -> bool {
    (e: ResearchEvent) => IsOmiAnswer(e) && Within(e, ecg, days)
  }

  predicate IsPriorLogin(e: ResearchEvent, ecg: int) {
    e.action == Login && e.createdAt.Some? && 0 <= ecg - e.createdAt.value
  }

  /** `v` is the latest prior login time of `h` (None when there is none). */
  predicate IsLatestLogin(h: seq<ResearchEvent>, ecg: int, v: Option<int>) {
    && (v.None? <==> forall k :: 0 <= k < |h| ==> !IsPriorLogin(h[k], ecg))
    && (v.Some? ==> (exists k :: 0 <= k < |h| && IsPriorLogin(h[k], ecg) && h[k].createdAt.value == v.value))
    && (v.Some? ==> forall k :: 0 <= k < |h| && IsPriorLogin(h[k], ecg) ==> h[k].createdAt.value <= v.value)
  }

  /** The latest prior login time, with no window limit. */
  function LatestLogin(h: seq<ResearchEvent>, ecg: int): (v: Option<int>)
    ensures IsLatestLogin(h, ecg, v)
  {
    if h == [] then None
    else
      var rest := LatestLogin(h[1..], ecg);
      assert forall k :: 1 <= k < |h| ==> h[k] == h[1..][k - 1];
      if IsPriorLogin(h[0], ecg) && (rest.None? || h[0].createdAt.value >= rest.value)
      then Some(h[0].createdAt.value)
      else rest
  }

  lemma LatestLoginUnique(h: seq<ResearchEvent>, ecg: int, v: Option<int>)
    requires IsLatestLogin(h, ecg, v)
    ensures v == LatestLogin(h, ecg)
  {
    var w := LatestLogin(h, ecg);
    if v.Some? && w.Some? {
      var i :| 0 <= i < |h| && IsPriorLogin(h[i], ecg) && h[i].createdAt.value == v.value;
      var j :| 0 <= j < |h| && IsPriorLogin(h[j], ecg) && h[j].createdAt.value == w.value;
    }
  }

  /** The exposure counters of one clinical event. */
  datatype Exposure = Exposure(
    d7Login: nat, d14Login: nat, d30Login: nat, d7ViewCase: nat, d30ViewCase: nat,
    d30ViewPaper: nat, d30Quiz: nat, d7OmiAnswered: nat, lastLogin: Option<int>)

  /** What the counters hold after the `forEach`: window counts per action, `d7_omi_answered` counting OMI
    * answers in the 30-day branch and again in the 7-day branch, and the latest prior login. */
  function ExposureSpec(h: seq<ResearchEvent>, ecg: int): Exposure {
    Exposure(
      Count(h, ActionWithin(Login, ecg, 7)), Count(h, ActionWithin(Login, ecg, 14)),
      Count(h, ActionWithin(Login, ecg, 30)),
      Count(h, ActionWithin(ViewCase, ecg, 7)), Count(h, ActionWithin(ViewCase, ecg, 30)),
      Count(h, ActionWithin(ViewLiterature, ecg, 30)), Count(h, ActionWithin(FinishQuiz, ecg, 30)),
      Count(h, OmiWithin(ecg, 30)) + Count(h, OmiWithin(ecg, 7)),
      LatestLogin(h, ecg))
  }

  /** Appending one event to a history moves the latest prior login only for a strictly later prior login. */
  lemma LatestLoginSnoc(s: seq<ResearchEvent>, e: ResearchEvent, ecg: int)
    ensures LatestLogin(s + [e], ecg) ==
      if IsPriorLogin(e, ecg) && (LatestLogin(s, ecg).None? || e.createdAt.value > LatestLogin(s, ecg).value)
      then Some(e.createdAt.value) else LatestLogin(s, ecg)
  {
    var a := LatestLogin(s, ecg);
    var t := s + [e];
    var v := if IsPriorLogin(e, ecg) && (a.None? || e.createdAt.value > a.value) then Some(e.createdAt.value) else a;
    assert forall k :: 0 <= k < |s| ==> t[k] == s[k];
    assert t[|s|] == e;
    if v.Some? && v != a {
      assert IsPriorLogin(t[|s|], ecg) && t[|s|].createdAt.value == v.value;
    } else if v.Some? {
      var k :| 0 <= k < |s| && IsPriorLogin(s[k], ecg) && s[k].createdAt.value == v.value;
      assert IsPriorLogin(t[k], ecg) && t[k].createdAt.value == v.value;
    }
    assert IsLatestLogin(t, ecg, v);
    LatestLoginUnique(t, ecg, v);
  }

  function Bump(p: ResearchEvent -> bool, e: ResearchEvent): nat {
    if p(e) then 1 else 0
  }

  /** The counters after one more event: each window counter grows by one when the event falls in it, and the
    * latest login moves to a strictly later prior login. */
  function ExposureStep(a: Exposure, e: ResearchEvent, ecg: int): Exposure {
    Exposure(
      a.d7Login + Bump(ActionWithin(Login, ecg, 7), e), a.d14Login + Bump(ActionWithin(Login, ecg, 14), e),
      a.d30Login + Bump(ActionWithin(Login, ecg, 30), e),
      a.d7ViewCase + Bump(ActionWithin(ViewCase, ecg, 7), e),
      a.d30ViewCase + Bump(ActionWithin(ViewCase, ecg, 30), e),
      a.d30ViewPaper + Bump(ActionWithin(ViewLiterature, ecg, 30), e),
      a.d30Quiz + Bump(ActionWithin(FinishQuiz, ecg, 30), e),
      a.d7OmiAnswered + Bump(OmiWithin(ecg, 30), e) + Bump(OmiWithin(ecg, 7), e),
      if IsPriorLogin(e, ecg) && (a.lastLogin.None? || e.createdAt.value > a.lastLogin.value)
      then Some(e.createdAt.value) else a.lastLogin)
  }

  /** The counters as the loop leaves them: the steps applied to the events in order. */
  function ExposureOf(h: seq<ResearchEvent>, ecg: int): Exposure
    decreases |h|
  {
    if h == [] then Exposure(0, 0, 0, 0, 0, 0, 0, 0, None)
    else ExposureStep(ExposureOf(h[..|h| - 1], ecg), h[|h| - 1], ecg)
  }

  /** The loop's counters are the window counts and the latest prior login of the whole history. */
  lemma {:induction false} ExposureOfCounts(h: seq<ResearchEvent>, ecg: int)
    ensures ExposureOf(h, ecg) == ExposureSpec(h, ecg)
    decreases |h|
  {
    if h != [] {
      var init := h[..|h| - 1];
      ExposureOfCounts(init, ecg);
      assert h == init + [h[|h| - 1]];
      ExposureSnoc(init, h[|h| - 1], ecg);
    }
  }

  lemma ExposureSnoc(s: seq<ResearchEvent>, e: ResearchEvent, ecg: int)
    ensures ExposureSpec(s + [e], ecg) == ExposureStep(ExposureSpec(s, ecg), e, ecg)
  {
    CountSnoc(s, e, ActionWithin(Login, ecg, 7));
    CountSnoc(s, e, ActionWithin(Login, ecg, 14));
    CountSnoc(s, e, ActionWithin(Login, ecg, 30));
    CountSnoc(s, e, ActionWithin(ViewCase, ecg, 7));
    CountSnoc(s, e, ActionWithin(ViewCase, ecg, 30));
    CountSnoc(s, e, ActionWithin(ViewLiterature, ecg, 30));
    CountSnoc(s, e, ActionWithin(FinishQuiz, ecg, 30));
    CountSnoc(s, e, OmiWithin(ecg, 30));
    CountSnoc(s, e, OmiWithin(ecg, 7));
    LatestLoginSnoc(s, e, ecg);
  }

  /** The body of the `forEach`: events after the ECG are skipped, the 30-day branch holds the 14- and
    * 7-day branches, and an OMI answer is counted in the 30-day branch and again in the 7-day one. */
  method Tally(x: Exposure, e: ResearchEvent, ecg: int) returns (y: Exposure)
    requires e.createdAt.Some?
    ensures y == ExposureStep(x, e, ecg)
  {
    y := x;
    var t := e.createdAt.value;
    var diff := ecg - t;
    if diff < 0 {
      return;
    }
    if diff <= 30 * MsPerDay {
      if e.action == Login { y := y.(d30Login := y.d30Login + 1); }
      if e.action == ViewCase { y := y.(d30ViewCase := y.d30ViewCase + 1); }
      if e.action == ViewLiterature { y := y.(d30ViewPaper := y.d30ViewPaper + 1); }
      if e.action == FinishQuiz { y := y.(d30Quiz := y.d30Quiz + 1); }
      if e.action == SubmitCaseAnswer {
        if "category" in e.meta && e.meta["category"] == Str("OMI") {
          y := y.(d7OmiAnswered := y.d7OmiAnswered + 1);
        }
      }
      if diff <= 14 * MsPerDay {
        if e.action == Login { y := y.(d14Login := y.d14Login + 1); }
      }
      if diff <= 7 * MsPerDay {
        if e.action == Login { y := y.(d7Login := y.d7Login + 1); }
        if e.action == ViewCase { y := y.(d7ViewCase := y.d7ViewCase + 1); }
        if e.action == SubmitCaseAnswer && "category" in e.meta && e.meta["category"] == Str("OMI") {
          y := y.(d7OmiAnswered := y.d7OmiAnswered + 1);
        }
      }
    }
    if e.action == Login {
      if y.lastLogin.None? || t > y.lastLogin.value {
        y := y.(lastLogin := Some(t));
      }
    }
  }

  /** The `userHistory.forEach` loop, the counters held in one record as in the `stats` object. */
  method ComputeExposure(h: seq<ResearchEvent>, ecg: int) returns (x: Exposure)
    requires forall k :: 0 <= k < |h| ==> h[k].createdAt.Some?
    ensures x == ExposureOf(h, ecg)
    ensures x == ExposureSpec(h, ecg)
  {
    x := Exposure(0, 0, 0, 0, 0, 0, 0, 0, None);
    var i := 0;
    while i < |h|
      invariant 0 <= i <= |h|
      invariant x == ExposureOf(h[..i], ecg)
    {
      assert h[..i + 1][..i] == h[..i];
      x := Tally(x, h[i], ecg);
      i := i + 1;
    }
    assert h[..|h|] == h;
    ExposureOfCounts(h, ecg);
  }

  /** The windows are nested: d7 ≤ d14 ≤ d30 for logins and d7 ≤ d30 for case views. */
  lemma WindowsNested(h: seq<ResearchEvent>, ecg: int)
    ensures var x := ExposureSpec(h, ecg);
      x.d7Login <= x.d14Login <= x.d30Login && x.d7ViewCase <= x.d30ViewCase
  {
    CountMonotonic(h, ActionWithin(Login, ecg, 7), ActionWithin(Login, ecg, 14));
    CountMonotonic(h, ActionWithin(Login, ecg, 14), ActionWithin(Login, ecg, 30));
    CountMonotonic(h, ActionWithin(ViewCase, ecg, 7), ActionWithin(ViewCase, ecg, 30));
  }

  /** As coded, an OMI answer within 7 days is counted twice: when every OMI answer of the history lies within
    * 7 days, `d7_omi_answered` is twice their number. */
  lemma OmiCountedTwice(h: seq<ResearchEvent>, ecg: int)
    requires forall k :: 0 <= k < |h| && OmiWithin(ecg, 30)(h[k]) ==> Within(h[k], ecg, 7)
    ensures ExposureSpec(h, ecg).d7OmiAnswered == 2 * Count(h, OmiWithin(ecg, 7))
  {
    CountSubPred(h, OmiWithin(ecg, 30), OmiWithin(ecg, 7));
    CountMonotonic(h, OmiWithin(ecg, 7), OmiWithin(ecg, 30));
  }

  lemma {:induction false} CountSubPred(h: seq<ResearchEvent>, p: ResearchEvent -> bool, q: ResearchEvent -> bool)
    requires forall k :: 0 <= k < |h| && p(h[k]) ==> q(h[k])
    ensures Count(h, p) <= Count(h, q)
  {
    if h != [] {
      assert forall k :: 0 <= k < |h[1..]| ==> h[1..][k] == h[k + 1];
      CountSubPred(h[1..], p, q);
    }
  }

  /** One OMI answer a day before the ECG gives `exposure_7d_omiAnswered` = 2. */
  lemma OmiDoubleCountExample(e: ResearchEvent, ecg: int)
    requires IsOmiAnswer(e) && e.createdAt == Some(ecg - MsPerDay)
    ensures ExposureSpec([e], ecg).d7OmiAnswered == 2
  {
    assert Count([e], OmiWithin(ecg, 30)) == 1 by { assert [e][1..] == []; }
    assert Count([e], OmiWithin(ecg, 7)) == 1 by { assert [e][1..] == []; }
  }

  /** Only strictly earlier events reach the counters, and the latest prior login is strictly before the ECG:
    * the recency is -1 exactly when the employee has no earlier login. */
  lemma HistoryIsCausal(fetched: seq<ResearchEvent>, ce: ClinicalEvent)
    requires ce.ecgTime.Some?
    ensures var h := History(fetched, ce); var ecg := ce.ecgTime.value;
      && (forall k :: 0 <= k < |h| ==> h[k].createdAt.Some? && h[k].createdAt.value < ecg)
      && (ExposureSpec(h, ecg).lastLogin.None? <==>
           forall e :: (e in fetched && e.employeeId == Some(ce.attendingEmployeeId) && e.action == Login
             && e.createdAt.Some?) ==> e.createdAt.value >= ecg)
      && (ExposureSpec(h, ecg).lastLogin.Some? ==> ecg - ExposureSpec(h, ecg).lastLogin.value > 0)
  {
    var h := History(fetched, ce);
    var ecg := ce.ecgTime.value;
    var v := LatestLogin(h, ecg);
    assert forall k :: 0 <= k < |h| ==> h[k] in h;
    if v.Some? {
      var k :| 0 <= k < |h| && IsPriorLogin(h[k], ecg) && h[k].createdAt.value == v.value;
      assert h[k] in h;
    }
  }

  // ---------------------------------------------------------------------------------------
  // Step 5: rows and CSV
  // ---------------------------------------------------------------------------------------

  /** The keys of a row, in the order the row object lists them (and hence the header). */
  const RowKeys: seq<string> := [
    "attendingEmployeeId", "ecgTime", "ecgToActivationMinutes", "isTrueOMI", "isActivated", "falsePositive",
    "exposure_7d_login", "exposure_14d_login", "exposure_30d_login", "exposure_7d_view_case",
    "exposure_30d_view_case", "exposure_30d_view_paper", "exposure_30d_quizCount", "exposure_7d_omiAnswered",
    "lastLoginRecencyAtECG"]

  /** The row object of one clinical event. */
  datatype ExportRow = ExportRow(
    employee: string, ecgTime: string, ecgToActivation: Value, isTrueOmi: bool, isActivated: bool,
    falsePositive: bool, exposure: Exposure, recency: Value)

  /** The row of one clinical event with counters `x`. `days2` renders a positive distance in ms as days
    * (`parseFloat(diffDays(...).toFixed(2))`). */
  function MakeRow(ce: ClinicalEvent, x: Exposure, iso: int -> string, days2: int -> Value, ecg: int): ExportRow {
    var minutes := ce.timing.ecgToActivationMinutes;
    ExportRow(
      ce.attendingEmployeeId,
      FormatDate(if ce.ecgTime.Some? then DateStamp(ce.ecgTime.value) else NoDate, iso),
      if minutes.Some? && minutes.value != 0 then Num(minutes.value) else Str(""),
      ce.outcome.isTrueOMI, ce.activation.activated, ce.activation.activated && !ce.outcome.isTrueOMI,
      x,
      if x.lastLogin.None? then Num(-1) else days2(ecg - x.lastLogin.value))
  }

  /** The values of a row in key order (`headers.map(h => row[h])`). */
  function Cells(r: ExportRow): seq<Value> {
    var x := r.exposure;
    [ Str(r.employee), Str(r.ecgTime), r.ecgToActivation, Bool(r.isTrueOmi), Bool(r.isActivated),
      Bool(r.falsePositive), Num(x.d7Login), Num(x.d14Login), Num(x.d30Login), Num(x.d7ViewCase),
      Num(x.d30ViewCase), Num(x.d30ViewPaper), Num(x.d30Quiz), Num(x.d7OmiAnswered), r.recency ]
  }

  /** The cells of a row: one per key; the minutes empty when missing or zero (`|| ""`); a false positive
    * exactly when activated without a true OMI; the recency -1 without a prior login. */
  lemma RowCells(ce: ClinicalEvent, x: Exposure, iso: int -> string, days2: int -> Value, ecg: int)
    ensures var row := Cells(MakeRow(ce, x, iso, days2, ecg));
      && |row| == |RowKeys|
      && row[2] == (if ce.timing.ecgToActivationMinutes.Some? && ce.timing.ecgToActivationMinutes.value != 0
                    then Num(ce.timing.ecgToActivationMinutes.value) else Str(""))
      && row[5] == Bool(ce.activation.activated && !ce.outcome.isTrueOMI)
      && row[6] == Num(x.d7Login) && row[13] == Num(x.d7OmiAnswered)
      && (x.lastLogin.None? ==> row[14] == Num(-1))
      && (x.lastLogin.Some? ==> row[14] == days2(ecg - x.lastLogin.value))
  {
  }

  function RowOf(fetched: seq<ResearchEvent>, ce: ClinicalEvent, iso: int -> string, days2: int -> Value): ExportRow {
    var ecg := ce.ecgTime.GetOr(0);
    MakeRow(ce, ExposureOf(History(fetched, ce), ecg), iso, days2, ecg)
  }

  /** What `parseFloat(diffDays(...).toFixed(2))` of a positive distance gives: a number that is never negative. */
  ghost predicate DaysNonNegative(days2: int -> Value) {
    forall d :: d > 0 ==> days2(d).Num? && days2(d).n >= 0
  }

  /** The stored `lastLoginRecencyAtECG` of a clinical event with an ECG time: -1 exactly when the employee has
    * no login strictly before the ECG, and otherwise a number that is not negative. */
  lemma RecencyCell(fetched: seq<ResearchEvent>, ce: ClinicalEvent, iso: int -> string, days2: int -> Value)
    requires ce.ecgTime.Some? && DaysNonNegative(days2)
    ensures var cell := Cells(RowOf(fetched, ce, iso, days2))[14];
      && (cell == Num(-1) <==>
           forall e :: (e in fetched && e.employeeId == Some(ce.attendingEmployeeId) && e.action == Login
             && e.createdAt.Some?) ==> e.createdAt.value >= ce.ecgTime.value)
      && (cell != Num(-1) ==> cell.Num? && cell.n >= 0)
  {
    var h, ecg := History(fetched, ce), ce.ecgTime.value;
    ExposureOfCounts(h, ecg);
    HistoryIsCausal(fetched, ce);
  }

  /** `v ?? ""`. */
  function Coalesce(v: Value): Value {
    if v == Null then Str("") else v
  }

  /** One CSV line: every cell `JSON.stringify(v ?? "")`, joined by commas. */
  function CsvLine(cells: seq<Value>, stringify: Value -> string): string {
    Join(seq(|cells|, k requires 0 <= k < |cells| => stringify(Coalesce(cells[k]))), ',')
  }

  /** The data lines, one per row. */
  function Lines(rows: seq<ExportRow>, stringify: Value -> string): (ls: seq<string>)
    ensures |ls| == |rows|
    ensures forall k :: 0 <= k < |rows| ==> ls[k] == CsvLine(Cells(rows[k]), stringify)
  {
    if rows == [] then [] else [CsvLine(Cells(rows[0]), stringify)] + Lines(rows[1..], stringify)
  }

  const Header: string := Join(RowKeys, ',')

  /** The CSV: the header line, then one line per row, joined by newlines (empty without rows). */
  function Csv(rows: seq<ExportRow>, stringify: Value -> string): string {
    if rows == [] then [] else Join([Header] + Lines(rows, stringify), '\n')
  }

  lemma {:induction false} JoinAvoids(parts: seq<string>, sep: char, c: char)
    requires c != sep && forall k :: 0 <= k < |parts| ==> c !in parts[k]
    ensures c !in Join(parts, sep)
  {
    if |parts| > 1 { JoinAvoids(parts[1..], sep, c); }
  }

  lemma LineAvoidsNewline(cells: seq<Value>, stringify: Value -> string)
    requires forall v :: '\n' !in stringify(v)
    ensures '\n' !in CsvLine(cells, stringify)
  {
    var parts := seq(|cells|, j requires 0 <= j < |cells| => stringify(Coalesce(cells[j])));
    assert forall j :: 0 <= j < |parts| ==> parts[j] == stringify(Coalesce(cells[j]));
    JoinAvoids(parts, ',', '\n');
  }

  lemma HeaderAvoidsNewline()
    ensures '\n' !in Header
  {
    JoinAvoids(RowKeys, ',', '\n');
  }

  /** When `JSON.stringify` never yields a raw newline (it escapes them), the CSV splits back into the header
    * and exactly one line per row, in order. */
  lemma CsvLines(rows: seq<ExportRow>, stringify: Value -> string)
    requires rows != []
    requires forall v :: '\n' !in stringify(v)
    ensures Split(Csv(rows, stringify), '\n') == [Header] + Lines(rows, stringify)
  {
    var ls := Lines(rows, stringify);
    var all := [Header] + ls;
    HeaderAvoidsNewline();
    forall k | 0 <= k < |all| ensures '\n' !in all[k] {
      if k > 0 {
        assert all[k] == ls[k - 1];
        LineAvoidsNewline(Cells(rows[k - 1]), stringify);
      }
    }
    SplitJoin(all, '\n');
  }

  // ---------------------------------------------------------------------------------------
  // The action
  // ---------------------------------------------------------------------------------------

  datatype ExportOutput = ExportOutput(csv: string, queries: nat)

  /** Some clinical event's history filter throws. */
  predicate AnyThrows(fetched: seq<ResearchEvent>, clinical: seq<ClinicalEvent>) {
    exists k :: 0 <= k < |clinical| && HistoryThrows(fetched, clinical[k])
  }

  function RowFn(fetched: seq<ResearchEvent>, iso: int -> string, days2: int -> Value): ClinicalEvent -> ExportRow {
    ce => RowOf(fetched, ce, iso, days2)
  }

  /** The rows of the clinical events, in their order. */
  function Rows(fetched: seq<ResearchEvent>, clinical: seq<ClinicalEvent>, iso: int -> string,
                days2: int -> Value): (rows: seq<ExportRow>)
    ensures |rows| == |clinical|
    ensures forall k :: 0 <= k < |clinical| ==> rows[k] == RowOf(fetched, clinical[k], iso, days2)
  {
    MapSeq(clinical, RowFn(fetched, iso, days2))
  }

  /** What the `map` yields, event by event in order: the rows so far, or nothing once one has thrown. */
  function MapRows(fetched: seq<ResearchEvent>, clinical: seq<ClinicalEvent>, iso: int -> string,
                   days2: int -> Value): Option<seq<ExportRow>>
    decreases |clinical|
  {
    if clinical == [] then Some([])
    else
      var prev := MapRows(fetched, clinical[..|clinical| - 1], iso, days2);
      var ce := clinical[|clinical| - 1];
      if prev.None? || HistoryThrows(fetched, ce) then None
      else Some(prev.value + [RowOf(fetched, ce, iso, days2)])
  }

  /** The `map` throws exactly when some clinical event's filter throws, and otherwise yields one row per event. */
  lemma {:induction false} MapRowsSpec(fetched: seq<ResearchEvent>, clinical: seq<ClinicalEvent>, iso: int -> string,
                                       days2: int -> Value)
    ensures MapRows(fetched, clinical, iso, days2).None? <==> AnyThrows(fetched, clinical)
    ensures MapRows(fetched, clinical, iso, days2).Some? ==>
      MapRows(fetched, clinical, iso, days2).value == Rows(fetched, clinical, iso, days2)
    decreases |clinical|
  {
    if clinical != [] {
      var n := |clinical| - 1;
      var init := clinical[..n];
      var last := clinical[n];
      MapRowsSpec(fetched, init, iso, days2);
      AnyThrowsSnoc(fetched, clinical);
      var prev := MapRows(fetched, init, iso, days2);
      if MapRows(fetched, clinical, iso, days2).Some? {
        RowsSnoc(fetched, clinical, iso, days2);
      }
    }
  }

  /** Some event of a non-empty list throws exactly when some event before the last does, or the last does. */
  lemma AnyThrowsSnoc(fetched: seq<ResearchEvent>, clinical: seq<ClinicalEvent>)
    requires clinical != []
    ensures AnyThrows(fetched, clinical) <==>
      AnyThrows(fetched, clinical[..|clinical| - 1]) || HistoryThrows(fetched, clinical[|clinical| - 1])
  {
    var n := |clinical| - 1;
    var init := clinical[..n];
    if AnyThrows(fetched, init) {
      var k :| 0 <= k < |init| && HistoryThrows(fetched, init[k]);
      assert clinical[k] == init[k];
    }
    if AnyThrows(fetched, clinical) && !HistoryThrows(fetched, clinical[n]) {
      var k :| 0 <= k < |clinical| && HistoryThrows(fetched, clinical[k]);
      assert init[k] == clinical[k];
    }
  }

  /** Once a prefix has thrown, so has the whole `map`. */
  lemma {:induction false} MapRowsThrown(fetched: seq<ResearchEvent>, clinical: seq<ClinicalEvent>, k: nat,
                                         iso: int -> string, days2: int -> Value)
    requires k <= |clinical| && MapRows(fetched, clinical[..k], iso, days2).None?
    ensures MapRows(fetched, clinical, iso, days2).None?
    decreases |clinical|
  {
    if k < |clinical| {
      var init := clinical[..|clinical| - 1];
      assert init[..k] == clinical[..k];
      MapRowsThrown(fetched, init, k, iso, days2);
    } else {
      assert clinical[..k] == clinical;
    }
  }

  lemma RowsSnoc(fetched: seq<ResearchEvent>, clinical: seq<ClinicalEvent>, iso: int -> string, days2: int -> Value)
    requires clinical != []
    ensures Rows(fetched, clinical, iso, days2) ==
      Rows(fetched, clinical[..|clinical| - 1], iso, days2) + [RowOf(fetched, clinical[|clinical| - 1], iso, days2)]
  {
    MapSeqSnoc(clinical, RowFn(fetched, iso, days2));
  }

  /** The export of a non-empty list of clinical events. */
  function ExportSpec(clinical: seq<ClinicalEvent>, events: seq<ResearchEvent>, iso: int -> string,
                      days2: int -> Value, stringify: Value -> string): Result<ExportOutput>
  {
    var cs := Chunks(DistinctIds(clinical));
    var fetched := FetchAll(events, cs);
    var rows := MapRows(fetched, clinical, iso, days2);
    if rows.None? then Err("TypeError") else Ok(ExportOutput(Csv(rows.value, stringify), |cs|))
  }

  /** The row of one clinical event: its history, its counters and its cells. */
  method LinkRow(fetched: seq<ResearchEvent>, ce: ClinicalEvent, iso: int -> string, days2: int -> Value)
    returns (row: ExportRow)
    ensures row == RowOf(fetched, ce, iso, days2)
  {
    var history := History(fetched, ce);
    var ecg := ce.ecgTime.GetOr(0);
    assert forall j :: 0 <= j < |history| ==> history[j] in history;
    var x := ComputeExposure(history, ecg);
    row := MakeRow(ce, x, iso, days2, ecg);
  }

  /** `clinicalEvents.map(...)`: one row per clinical event, or the TypeError of the first that throws. */
  method BuildRows(fetched: seq<ResearchEvent>, clinical: seq<ClinicalEvent>, iso: int -> string, days2: int -> Value)
    returns (r: Option<seq<ExportRow>>)
    ensures r == MapRows(fetched, clinical, iso, days2)
  {
    var rows: seq<ExportRow> := [];
    var k := 0;
    while k < |clinical|
      invariant 0 <= k <= |clinical|
      invariant MapRows(fetched, clinical[..k], iso, days2) == Some(rows)
    {
      assert clinical[..k + 1][..k] == clinical[..k];
      if HistoryThrows(fetched, clinical[k]) {
        MapRowsThrown(fetched, clinical, k + 1, iso, days2);
        return None;
      }
      var row := LinkRow(fetched, clinical[k], iso, days2);
      rows := rows + [row];
      k := k + 1;
    }
    assert clinical[..k] == clinical;
    r := Some(rows);
  }

  /** `generateLinkedExport`: `clinical` is the clinicalEvents collection, `events` the events collection.
    * Nothing catches a rejected read: `readFailure` is the message of a rejected `clinicalEvents` read, and
    * `queryFailure` that of the first rejected chunk query; either rejects the whole action. */
  method GenerateLinkedExport(uid: string, clinical: seq<ClinicalEvent>, events: seq<ResearchEvent>,
                              iso: int -> string, days2: int -> Value, stringify: Value -> string,
                              readFailure: Option<string>, queryFailure: Option<string>)
    returns (r: Result<ExportOutput>)
    ensures uid == "" ==> r == Err("Unauthorized")
    ensures uid != "" && readFailure.Some? ==> r == Err(readFailure.value)
    ensures uid != "" && readFailure.None? && clinical == [] ==> r == Ok(ExportOutput("No clinical events found", 0))
    ensures uid != "" && readFailure.None? && clinical != [] && DistinctIds(clinical) != [] && queryFailure.Some? ==>
              r == Err(queryFailure.value)
    ensures uid != "" && readFailure.None? && clinical != [] && (DistinctIds(clinical) == [] || queryFailure.None?) ==>
              r == ExportSpec(clinical, events, iso, days2, stringify)
  {
    if uid == "" {
      return Err("Unauthorized");
    }
    if readFailure.Some? {
      return Err(readFailure.value);
    }
    if |clinical| == 0 {
      return Ok(ExportOutput("No clinical events found", 0));
    }
    var ids := CollectEmployeeIds(clinical);
    if |ids| > 0 && queryFailure.Some? {
      return Err(queryFailure.value);
    }
    var fetched, queries := FetchEvents(events, ids);
    var rows := BuildRows(fetched, clinical, iso, days2);
    if rows.None? {
      return Err("TypeError");
    }
    r := Ok(ExportOutput(Csv(rows.value, stringify), queries));
  }
}
