/**
 * `getAdminChartsData`: per-day activity counters over the last 30 days, one chart point per day of the
 * range, days without events all zeros. `events` is the result of the `createdAt >= past30` query in
 * ascending order (`ListsRecentEvents`, with the ghost `eventIds` naming the documents); `day` is
 * `toISOString().split('T')[0]`, the date key of a time. The action reads the clock twice: `now` is the first
 * read, where the range ends, and `past30` is the second read set back by `setDate(now.getDate() - 30)`, where
 * the range starts and the query begins. The range steps one day at a time.
 */
module AdminCharts {
  import opened Wrappers
  import opened Store
  import opened Schema
  import opened Seqs

  datatype DayStats = DayStats(views: nat, quizzes: nat, logins: nat, correct: nat, totalAnswered: nat)

  datatype ChartPoint = ChartPoint(
    date: string, views: nat, quizzes: nat, logins: nat, correct: nat, totalAnswered: nat, accuracy: int)

  const Zero := DayStats(0, 0, 0, 0, 0)

  /** The days the chart covers after its first. */
  const RangeDays: nat := 30

  // ---------------------------------------------------------------------------------------
  // The counters of one day, as counts over the events
  // ---------------------------------------------------------------------------------------

  predicate OnDay(e: ResearchEvent, day: int -> string, key: string) {
    e.createdAt.Some? && day(e.createdAt.value) == key
  }

  predicate IsView(e: ResearchEvent) {
    e.action == ViewCase || e.action == ViewLiterature
  }

  /** `data.meta?.isCorrect` is truthy. */
  predicate MarkedCorrect(e: ResearchEvent) {
    Truthy(Field(e.meta, "isCorrect"))
  }

  function ViewsOn(day: int -> string, key: string): ResearchEvent -> bool {
    (e: ResearchEvent) => OnDay(e, day, key) && IsView(e)
  }

  function QuizzesOn(day: int -> string, key: string): ResearchEvent -> bool {
    (e: ResearchEvent) => OnDay(e, day, key) && e.action == FinishQuiz
  }

  function LoginsOn(day: int -> string, key: string): ResearchEvent -> bool {
    (e: ResearchEvent) => OnDay(e, day, key) && e.action == Login
  }

  function AnswersOn(day: int -> string, key: string): ResearchEvent -> bool {
    (e: ResearchEvent) => OnDay(e, day, key) && e.action == SubmitCaseAnswer
  }

  function CorrectOn(day: int -> string, key: string): ResearchEvent -> bool {
    (e: ResearchEvent) => OnDay(e, day, key) && e.action == SubmitCaseAnswer && MarkedCorrect(e)
  }

  function DatedOn(day: int -> string, key: string): ResearchEvent -> bool {
    (e: ResearchEvent) => OnDay(e, day, key)
  }

  /** The counters of the day `key`, stated as counts of its events. */
  function Tally(events: seq<ResearchEvent>, day: int -> string, key: string): DayStats {
    DayStats(Count(events, ViewsOn(day, key)), Count(events, QuizzesOn(day, key)), Count(events, LoginsOn(day, key)),
             Count(events, CorrectOn(day, key)), Count(events, AnswersOn(day, key)))
  }

  /** `dailyStats[key]`, or the zero entry of a day without events. */
  function Lookup(m: map<string, DayStats>, key: string): DayStats {
    if key in m then m[key] else Zero
  }

  // ---------------------------------------------------------------------------------------
  // The aggregation loop
  // ---------------------------------------------------------------------------------------

  /** What one event adds to its day's entry. */
  function Bump(s: DayStats, e: ResearchEvent): DayStats {
    if IsView(e) then s.(views := s.views + 1)
    else if e.action == FinishQuiz then s.(quizzes := s.quizzes + 1)
    else if e.action == Login then s.(logins := s.logins + 1)
    else if e.action == SubmitCaseAnswer then
      s.(totalAnswered := s.totalAnswered + 1, correct := if MarkedCorrect(e) then s.correct + 1 else s.correct)
    else s
  }

  /** One pass of the `forEach`: the day map keeps matching the counts, and holds exactly the days seen. */
  lemma AggregateStep(before: map<string, DayStats>, after: map<string, DayStats>, events: seq<ResearchEvent>,
                      e: ResearchEvent, day: int -> string)
    requires forall k :: Lookup(before, k) == Tally(events, day, k)
    requires forall k :: k in before <==> Count(events, DatedOn(day, k)) > 0
    requires e.createdAt.None? ==> after == before
    requires e.createdAt.Some? ==>
               after == before[day(e.createdAt.value) := Bump(Lookup(before, day(e.createdAt.value)), e)]
    ensures forall k :: Lookup(after, k) == Tally(events + [e], day, k)
    ensures forall k :: k in after <==> Count(events + [e], DatedOn(day, k)) > 0
  {
    forall k
      ensures Lookup(after, k) == Tally(events + [e], day, k)
      ensures k in after <==> Count(events + [e], DatedOn(day, k)) > 0
    {
      AggregateStepAt(before, after, events, e, day, k);
    }
  }

  /** `AggregateStep` for one day key. */
  lemma AggregateStepAt(before: map<string, DayStats>, after: map<string, DayStats>, events: seq<ResearchEvent>,
                        e: ResearchEvent, day: int -> string, k: string)
    requires Lookup(before, k) == Tally(events, day, k)
    requires k in before <==> Count(events, DatedOn(day, k)) > 0
    requires e.createdAt.None? ==> after == before
    requires e.createdAt.Some? ==>
               after == before[day(e.createdAt.value) := Bump(Lookup(before, day(e.createdAt.value)), e)]
    ensures Lookup(after, k) == Tally(events + [e], day, k)
    ensures k in after <==> Count(events + [e], DatedOn(day, k)) > 0
  {
    CountSnoc(events, e, ViewsOn(day, k));
    CountSnoc(events, e, QuizzesOn(day, k));
    CountSnoc(events, e, LoginsOn(day, k));
    CountSnoc(events, e, CorrectOn(day, k));
    CountSnoc(events, e, AnswersOn(day, k));
    CountSnoc(events, e, DatedOn(day, k));
  }

  /** Step 2: the `forEach` over the events filling `dailyStats`. */
  method Aggregate(events: seq<ResearchEvent>, day: int -> string) returns (dailyStats: map<string, DayStats>)
    ensures forall k :: Lookup(dailyStats, k) == Tally(events, day, k)
    ensures forall k :: k in dailyStats <==> Count(events, DatedOn(day, k)) > 0
  {
    dailyStats := map[];
    var i := 0;
    while i < |events|
      invariant 0 <= i <= |events|
      invariant forall k :: Lookup(dailyStats, k) == Tally(events[..i], day, k)
      invariant forall k :: k in dailyStats <==> Count(events[..i], DatedOn(day, k)) > 0
    {
      var data := events[i];
      assert events[..i + 1] == events[..i] + [data];
      ghost var before := dailyStats;
      if data.createdAt.Some? {
        var date := day(data.createdAt.value);
        var stats := Lookup(dailyStats, date);
        dailyStats := dailyStats[date := Bump(stats, data)];
      }
      AggregateStep(before, dailyStats, events[..i], data, day);
      i := i + 1;
    }
    assert events[..i] == events;
  }

  // ---------------------------------------------------------------------------------------
  // The chart
  // ---------------------------------------------------------------------------------------

  function Point(key: string, s: DayStats): (p: ChartPoint)
    ensures p.date == key && p.accuracy == Percent(s.correct, s.totalAnswered)
  {
    ChartPoint(key, s.views, s.quizzes, s.logins, s.correct, s.totalAnswered, Percent(s.correct, s.totalAnswered))
  }

  /** Step 3: the day-by-day loop from `past30` to `now`, filling in missing days. */
  method FillDays(dailyStats: map<string, DayStats>, past30: int, now: int, day: int -> string)
    returns (chartData: seq<ChartPoint>)
    ensures |chartData| == RangeLength(past30, now)
    ensures forall k :: 0 <= k < |chartData| ==>
              chartData[k] == Point(day(past30 + k * MsPerDay), Lookup(dailyStats, day(past30 + k * MsPerDay)))
  {
    chartData := [];
    var d := past30;
    while d <= now
      invariant past30 <= d && (d <= now + MsPerDay || d == past30)
      invariant (d - past30) % MsPerDay == 0
      invariant |chartData| == (d - past30) / MsPerDay
      invariant forall k :: 0 <= k < |chartData| ==>
                  chartData[k] == Point(day(past30 + k * MsPerDay), Lookup(dailyStats, day(past30 + k * MsPerDay)))
      decreases now - d
    {
      var dateStr := day(d);
      var dayData := Lookup(dailyStats, dateStr);
      chartData := chartData + [Point(dateStr, dayData)];
      d := d + MsPerDay;
    }
  }

  /** The number of days the loop `d <= now` visits from `past30`: none when the start lies after the end. */
  function RangeLength(past30: int, now: int): nat {
    if past30 <= now then (now - past30) / MsPerDay + 1 else 0
  }

  /** The chart the action returns: one point per day of the range, counted from the events. */
  function Chart(events: seq<ResearchEvent>, past30: int, now: int, day: int -> string): (c: seq<ChartPoint>)
    ensures |c| == RangeLength(past30, now)
    ensures forall k :: 0 <= k < |c| ==> c[k].date == day(past30 + k * MsPerDay)
  {
    seq(RangeLength(past30, now), k requires 0 <= k < RangeLength(past30, now) =>
      var key := day(past30 + k * MsPerDay);
      Point(key, Tally(events, day, key)))
  }

  /** When both clock reads give the same instant, the chart has 31 points, one per day of the range. */
  lemma SameInstantFullRange(events: seq<ResearchEvent>, now: int, day: int -> string)
    ensures |Chart(events, Past30(now), now, day)| == RangeDays + 1
  {
    assert now - Past30(now) == RangeDays * MsPerDay;
  }

  /** When the second read is later than the first by less than a day, the last day of the range is not
    * reached: the chart has 30 points. */
  lemma LaterSecondReadDropsLastDay(events: seq<ResearchEvent>, now: int, later: int, day: int -> string)
    requires now < later < now + MsPerDay
    ensures |Chart(events, Past30(later), now, day)| == RangeDays
  {
    var diff := now - Past30(later);
    assert (RangeDays - 1) * MsPerDay <= diff < RangeDays * MsPerDay;
    assert diff / MsPerDay == RangeDays - 1;
  }

  /** When the start lies after the end (the two reads straddle a month end, so `setDate` lands in the next
    * month), the chart is empty. */
  lemma StartAfterEndEmpty(events: seq<ResearchEvent>, past30: int, now: int, day: int -> string)
    requires now < past30
    ensures Chart(events, past30, now, day) == []
  {
  }

  // ---------------------------------------------------------------------------------------
  // The query
  // ---------------------------------------------------------------------------------------

  /** `past30` as one clock read `t` gives it: the same time of day, 30 days before `t`. */
  function Past30(t: int): int {
    t - RangeDays * MsPerDay
  }

  /** `where("createdAt", ">=", t)`: the document's `createdAt` is a timestamp no earlier than `t`. */
  predicate CreatedSince(d: Doc, t: int) {
    Field(d, "createdAt").Some? && Field(d, "createdAt").value.Time? && Field(d, "createdAt").value.ms >= t
  }

  /** `events` is what the query returns: each stored event created at or after `past30`, once, read back
    * from its document under `eventIds`, in ascending order of creation. */
  ghost predicate ListsRecentEvents(db: Db, past30: int, eventIds: seq<string>, events: seq<ResearchEvent>) {
    && |eventIds| == |events|
    && (forall id :: id in eventIds <==> Get(db, "events", id).Some? && CreatedSince(Get(db, "events", id).value, past30))
    && (forall k :: 0 <= k < |eventIds| ==>
          Get(db, "events", eventIds[k]).Some? && DecodeEvent(Get(db, "events", eventIds[k]).value) == Some(events[k]))
    && (forall i, j :: 0 <= i < j < |eventIds| ==> eventIds[i] != eventIds[j])
    && (forall i, j :: 0 <= i < j < |events| && events[i].createdAt.Some? && events[j].createdAt.Some? ==>
          events[i].createdAt.value <= events[j].createdAt.value)
  }

  /** A listed event was created at or after `past30`. */
  lemma ListedEventIsRecent(db: Db, past30: int, eventIds: seq<string>, events: seq<ResearchEvent>, k: nat)
    requires ListsRecentEvents(db, past30, eventIds, events) && k < |events|
    ensures events[k].createdAt.Some? && events[k].createdAt.value >= past30
  {
    assert eventIds[k] in eventIds;
    var d := Get(db, "events", eventIds[k]).value;
    assert CreatedSince(d, past30);
    assert DecodeOptTime(Field(d, "createdAt")) == Some(Some(Field(d, "createdAt").value.ms));
  }

  /** The chart counts only events from `past30` on: an event of the first day earlier than `past30`'s time of
    * day is in none of the points, although its date key is the first point's. */
  lemma EarlyEventNotCounted(db: Db, past30: int, eventIds: seq<string>, events: seq<ResearchEvent>,
                             e: ResearchEvent)
    requires ListsRecentEvents(db, past30, eventIds, events)
    requires e.createdAt.Some? && e.createdAt.value < past30
    ensures e !in events
  {
    if e in events {
      var k :| 0 <= k < |events| && events[k] == e;
      ListedEventIsRecent(db, past30, eventIds, events, k);
      assert false;
    }
  }

  /** Every stored event created at or after `past30` that reads back is counted. */
  lemma RecentEventListed(db: Db, past30: int, eventIds: seq<string>, events: seq<ResearchEvent>, id: string)
    requires ListsRecentEvents(db, past30, eventIds, events)
    requires Get(db, "events", id).Some? && CreatedSince(Get(db, "events", id).value, past30)
    ensures DecodeEvent(Get(db, "events", id).value).Some? && DecodeEvent(Get(db, "events", id).value).value in events
  {
    var k :| 0 <= k < |eventIds| && eventIds[k] == id;
    assert DecodeEvent(Get(db, "events", id).value) == Some(events[k]);
  }

  /** `getAdminChartsData`. `now` and `past30` are the two clock reads. Nothing catches a rejected query:
    * `readFailure` is its message, and the action rejects with it. */
  method GetAdminChartsData(uid: string, ghost db: Db, ghost eventIds: seq<string>, events: seq<ResearchEvent>,
                            now: int, past30: int, day: int -> string, readFailure: Option<string>)
    returns (r: Result<seq<ChartPoint>>)
    requires ListsRecentEvents(db, past30, eventIds, events)
    ensures uid == "" ==> r == Err("Unauthorized")
    ensures uid != "" && readFailure.Some? ==> r == Err(readFailure.value)
    ensures uid != "" && readFailure.None? ==> r == Ok(Chart(events, past30, now, day))
  {
    if uid == "" {
      return Err("Unauthorized");
    }
    if readFailure.Some? {
      return Err(readFailure.value);
    }
    var chartData := ChartData(events, past30, now, day);
    r := Ok(chartData);
  }

  /** The aggregation and the filling of the range, once past the uid check. */
  method ChartData(events: seq<ResearchEvent>, past30: int, now: int, day: int -> string)
    returns (chartData: seq<ChartPoint>)
    ensures chartData == Chart(events, past30, now, day)
  {
    var dailyStats := Aggregate(events, day);
    chartData := FillDays(dailyStats, past30, now, day);
    assert chartData == Chart(events, past30, now, day) by {
      forall k | 0 <= k < |chartData|
        ensures chartData[k] == Chart(events, past30, now, day)[k]
      {
        var key := day(past30 + k * MsPerDay);
        assert Lookup(dailyStats, key) == Tally(events, day, key);
      }
    }
  }

  // ---------------------------------------------------------------------------------------
  // What the chart shows
  // ---------------------------------------------------------------------------------------

  /** Per day: at most as many correct answers as answers, an accuracy percentage, and no more counted events
    * than events of that day (each event moves at most one counter). */
  lemma DayCountersBounded(events: seq<ResearchEvent>, day: int -> string, key: string)
    ensures var s := Tally(events, day, key);
      && s.correct <= s.totalAnswered
      && 0 <= Percent(s.correct, s.totalAnswered) <= 100
      && s.views + s.quizzes + s.logins + s.totalAnswered <= Count(events, DatedOn(day, key))
  {
    CountMonotonic(events, CorrectOn(day, key), AnswersOn(day, key));
    var vq := (e: ResearchEvent) => ViewsOn(day, key)(e) || QuizzesOn(day, key)(e);
    var vql := (e: ResearchEvent) => vq(e) || LoginsOn(day, key)(e);
    var all := (e: ResearchEvent) => vql(e) || AnswersOn(day, key)(e);
    CountDisjoint(events, ViewsOn(day, key), QuizzesOn(day, key), vq);
    CountDisjoint(events, vq, LoginsOn(day, key), vql);
    CountDisjoint(events, vql, AnswersOn(day, key), all);
    CountMonotonic(events, all, DatedOn(day, key));
  }

  /** A day of the range without dated events shows all zeros. */
  lemma EmptyDayZero(events: seq<ResearchEvent>, past30: int, now: int, day: int -> string, k: nat)
    requires k < RangeLength(past30, now)
    requires forall i :: 0 <= i < |events| ==> !OnDay(events[i], day, Chart(events, past30, now, day)[k].date)
    ensures var p := Chart(events, past30, now, day)[k];
      p.views == 0 && p.quizzes == 0 && p.logins == 0 && p.correct == 0 && p.totalAnswered == 0 && p.accuracy == 0
  {
    var key := Chart(events, past30, now, day)[k].date;
    CountNone(events, ViewsOn(day, key));
    CountNone(events, QuizzesOn(day, key));
    CountNone(events, LoginsOn(day, key));
    CountNone(events, CorrectOn(day, key));
    CountNone(events, AnswersOn(day, key));
  }

  /** Events without `createdAt` count nowhere. */
  lemma UndatedIgnored(events: seq<ResearchEvent>, e: ResearchEvent, past30: int, now: int, day: int -> string)
    requires e.createdAt.None?
    ensures Chart(events + [e], past30, now, day) == Chart(events, past30, now, day)
  {
    forall key
      ensures Tally(events + [e], day, key) == Tally(events, day, key)
    {
      CountSnoc(events, e, ViewsOn(day, key));
      CountSnoc(events, e, QuizzesOn(day, key));
      CountSnoc(events, e, LoginsOn(day, key));
      CountSnoc(events, e, CorrectOn(day, key));
      CountSnoc(events, e, AnswersOn(day, key));
    }
  }
}
