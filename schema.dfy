/**
 * The record types of the Firestore schema: the string enumerations with their stored names,
 * the typed records, and the encodings to and from stored documents of the two records the
 * model moves through the store (research events and clinical events).
 */
module Schema {
  import opened Wrappers
  import opened Store

  // ---------------------------------------------------------------------------------------
  // Enumerations and their stored names
  // ---------------------------------------------------------------------------------------

  datatype CaseCategory = OMI | StemiMimics | Electrolyte

  function CategoryName(c: CaseCategory): string {
    match c
    case OMI => "OMI"
    case StemiMimics => "STEMI_mimics"
    case Electrolyte => "Electrolyte"
  }

  /** The category a stored name denotes; exactly the three names parse, each to the category it names. */
  function ParseCategory(s: string): (r: Option<CaseCategory>)
    ensures r.Some? ==> CategoryName(r.value) == s
    ensures forall c :: CategoryName(c) == s ==> r == Some(c)
  {
    if s == "OMI" then Some(OMI)
    else if s == "STEMI_mimics" then Some(StemiMimics)
    else if s == "Electrolyte" then Some(Electrolyte)
    else None
  }

  /** The status shared by cases and papers. */
  datatype Status = Published | Draft | Archived

  function StatusName(s: Status): string {
    match s
    case Published => "published"
    case Draft => "draft"
    case Archived => "archived"
  }

  function ParseStatus(s: string): (r: Option<Status>)
    ensures r.Some? ==> StatusName(r.value) == s
    ensures forall t :: StatusName(t) == s ==> r == Some(t)
  {
    if s == "published" then Some(Published)
    else if s == "draft" then Some(Draft)
    else if s == "archived" then Some(Archived)
    else None
  }

  /** The eight actions a research event records. */
  datatype EventAction =
    | Login | ViewCase | SubmitCaseAnswer | StartQuiz | FinishQuiz | ViewLiterature | PublishCase | PublishPaper

  function ActionName(a: EventAction): string {
    match a
    case Login => "login"
    case ViewCase => "view_case"
    case SubmitCaseAnswer => "submit_case_answer"
    case StartQuiz => "start_quiz"
    case FinishQuiz => "finish_quiz"
    case ViewLiterature => "view_literature"
    case PublishCase => "publish_case"
    case PublishPaper => "publish_paper"
  }

  function ParseAction(s: string): (r: Option<EventAction>)
    ensures r.Some? ==> ActionName(r.value) == s
    ensures forall a :: ActionName(a) == s ==> r == Some(a)
  {
    if s == "login" then Some(Login)
    else if s == "view_case" then Some(ViewCase)
    else if s == "submit_case_answer" then Some(SubmitCaseAnswer)
    else if s == "start_quiz" then Some(StartQuiz)
    else if s == "finish_quiz" then Some(FinishQuiz)
    else if s == "view_literature" then Some(ViewLiterature)
    else if s == "publish_case" then Some(PublishCase)
    else if s == "publish_paper" then Some(PublishPaper)
    else None
  }

  /** The target of an event: a case, a quiz or a paper (the absent target, `null`, is `None`). */
  datatype TargetType = CaseTarget | QuizTarget | PaperTarget

  function TargetName(t: TargetType): string {
    match t
    case CaseTarget => "case"
    case QuizTarget => "quiz"
    case PaperTarget => "paper"
  }

  /** The stored target type: a name or `null`. */
  function TargetValue(t: Option<TargetType>): Value {
    match t
    case None => Null
    case Some(x) => Str(TargetName(x))
  }

  function ParseTarget(v: Value): (r: Option<Option<TargetType>>)
    ensures r.Some? ==> TargetValue(r.value) == v
    ensures forall t :: TargetValue(t) == v ==> r == Some(t)
  {
    if v == Null then Some(None)
    else if v == Str("case") then Some(Some(CaseTarget))
    else if v == Str("quiz") then Some(Some(QuizTarget))
    else if v == Str("paper") then Some(Some(PaperTarget))
    else None
  }

  // ---------------------------------------------------------------------------------------
  // Records
  // ---------------------------------------------------------------------------------------

  /** A teaching case. `createdAt` is in milliseconds; `correct_answer` indexes `choices`. */
  datatype Case = Case(
    id: string, title: string, category: CaseCategory, status: Status, clinicalContext: string,
    ecgImages: seq<string>, question: string, choices: seq<string>, correctAnswer: int,
    explanation: string, references: seq<string>, createdAt: Option<int>, updatedAt: Option<int>)

  /** The invariant the schema states for a case: its correct answer is an index into its choices. */
  predicate WellFormedCase(c: Case) {
    0 <= c.correctAnswer < |c.choices|
  }

  datatype AttemptItem = AttemptItem(caseId: string, selected: int, isCorrect: bool, answeredAt: int)

  datatype QuizAttempt = QuizAttempt(
    id: string, uid: string, createdAt: int, categoryFilter: string,
    total: int, correct: int, items: seq<AttemptItem>)

  /** A comment; `reactions` maps each emoji to the ids of the users who reacted with it. */
  datatype Comment = Comment(
    id: string, caseId: string, userId: string, userEmail: Option<string>, content: string,
    createdAt: int, reactions: map<string, seq<string>>)

  datatype PdfRef = PdfRef(storagePath: string, downloadURL: string, fileName: string)

  datatype Paper = Paper(
    id: string, title: string, authors: string, journal: Option<string>, year: Option<int>,
    tags: seq<string>, status: Status, pdf: PdfRef, createdAt: int, updatedAt: int)

  /** A research event. `employeeId` and `createdAt` may be missing (`createdAt` is filled by the server). */
  datatype ResearchEvent = ResearchEvent(
    uid: string, employeeId: Option<string>, createdAt: Option<int>, action: EventAction,
    targetType: Option<TargetType>, targetId: Option<string>, meta: map<string, Value>)

  datatype CategoryCounts = CategoryCounts(answered: int, correct: int)

  datatype UserStats = UserStats(
    uid: string, employeeId: Option<string>, totalAttempts: int, totalAnswered: int, totalCorrect: int,
    attemptsByCategory: map<string, CategoryCounts>, lastActivityAt: Option<int>, updatedAt: int)

  datatype CaseStats = CaseStats(caseId: string, totalAnswered: int, totalCorrect: int, updatedAt: int)

  datatype Adjudication = Adjudication(
    isTrueOMI: bool, isCulpritOcclusion: bool, adjudicator: Option<string>, adjudicatedAt: int)

  datatype Activation = Activation(activated: bool, activationAppropriate: bool)

  datatype Timing = Timing(doorToActivationMinutes: Option<int>, ecgToActivationMinutes: Option<int>)

  /** An imported clinical event; times are milliseconds, derived timings are whole minutes. */
  datatype ClinicalEvent = ClinicalEvent(
    id: string, patientEncounterId: string, attendingEmployeeId: string, shiftDateTime: int,
    ecgTime: Option<int>, doorTime: Option<int>, activationTime: Option<int>, cathStartTime: Option<int>,
    outcome: Adjudication, activation: Activation, timing: Timing, createdAt: int, updatedAt: int)

  /** The derivation the schema states: an activation is appropriate exactly for an activated true OMI. */
  predicate ActivationDerived(ce: ClinicalEvent) {
    ce.activation.activationAppropriate == (ce.outcome.isTrueOMI && ce.activation.activated)
  }

  datatype UserContentStatus = UserContentStatus(
    uid: string, casesRead: seq<string>, papersRead: seq<string>, quizzesCompleted: seq<string>, updatedAt: int)

  datatype PointsStats = PointsStats(
    uid: string, employeeId: Option<string>, totalPoints: int, pointsBreakdown: map<string, int>, updatedAt: int)

  /** A day in milliseconds. */
  const MsPerDay: int := 86400000

  /** `Math.round(correct / answered * 100)` on exact rationals (halves round up), 0 with nothing answered:
    * the accuracy percentage the admin pages show. */
  function Percent(correct: int, answered: int): (a: int)
    ensures answered <= 0 ==> a == 0
    ensures answered > 0 ==> 2 * answered * a - answered <= 200 * correct < 2 * answered * a + answered
    ensures answered > 0 && 0 <= correct <= answered ==> 0 <= a <= 100
  {
    if answered > 0 then (200 * correct + answered) / (2 * answered) else 0
  }

  /** The breakdown buckets the schema declares. */
  const DeclaredBuckets: set<string> := {"loginPoints", "casePoints", "paperPoints", "quizPoints", "bonusPoints"}

  // ---------------------------------------------------------------------------------------
  // Stored forms
  // ---------------------------------------------------------------------------------------

  function OptStr(o: Option<string>): Value {
    match o
    case None => Null
    case Some(s) => Str(s)
  }

  function OptTime(o: Option<int>): Value {
    match o
    case None => Null
    case Some(t) => Time(t)
  }

  function OptNum(o: Option<int>): Value {
    match o
    case None => Null
    case Some(n) => Num(n)
  }

  /** The document an event is stored as; a missing `employeeId` is stored as `null`. */
  const EventKeys: set<string> := {"uid", "employeeId", "createdAt", "action", "targetType", "targetId", "meta"}

  /** The value an event document holds under key `k`. */
  function EventField(e: ResearchEvent, k: string): Value {
    if k == "uid" then Str(e.uid)
    else if k == "employeeId" then OptStr(e.employeeId)
    else if k == "createdAt" then OptTime(e.createdAt)
    else if k == "action" then Str(ActionName(e.action))
    else if k == "targetType" then TargetValue(e.targetType)
    else if k == "targetId" then OptStr(e.targetId)
    else Obj(e.meta)
  }

  /** The document `logEvent` adds: every key present, absent values stored as null. */
  function EventDoc(e: ResearchEvent): (d: Doc)
    ensures d.Keys == EventKeys
  {
    map k | k in EventKeys :: EventField(e, k)
  }

  /** A stored event reads back as the event that was logged. */
  lemma EventRoundTrip(e: ResearchEvent)
    ensures DecodeEvent(EventDoc(e)) == Some(e)
  {
    var d := EventDoc(e);
    assert Field(d, "uid") == Some(Str(e.uid));
    assert Field(d, "action") == Some(Str(ActionName(e.action)));
    assert ParseAction(ActionName(e.action)) == Some(e.action);
    assert DecodeOptStr(Field(d, "employeeId")) == Some(e.employeeId);
    assert DecodeOptTime(Field(d, "createdAt")) == Some(e.createdAt);
    assert ParseTarget(d["targetType"]) == Some(e.targetType);
    assert DecodeOptStr(Field(d, "targetId")) == Some(e.targetId);
    assert ObjOf(Field(d, "meta")) == e.meta;
  }

  function DecodeOptStr(v: Option<Value>): Option<Option<string>> {
    match v
    case None => Some(None)
    case Some(Null) => Some(None)
    case Some(Str(s)) => Some(Some(s))
    case Some(_) => None
  }

  function DecodeOptTime(v: Option<Value>): Option<Option<int>> {
    match v
    case None => Some(None)
    case Some(Null) => Some(None)
    case Some(Time(t)) => Some(Some(t))
    case Some(_) => None
  }

  function DecodeOptNum(v: Option<Value>): Option<Option<int>> {
    match v
    case None => Some(None)
    case Some(Null) => Some(None)
    case Some(Num(n)) => Some(Some(n))
    case Some(_) => None
  }

  /** Reads an event back from its document; `None` when a field has the wrong shape. */
  function DecodeEvent(d: Doc): Option<ResearchEvent> {
    var uid := Field(d, "uid");
    var action := Field(d, "action");
    var emp := DecodeOptStr(Field(d, "employeeId"));
    var created := DecodeOptTime(Field(d, "createdAt"));
    var target := if "targetType" in d then ParseTarget(d["targetType"]) else Some(None);
    var tid := DecodeOptStr(Field(d, "targetId"));
    if uid.Some? && uid.value.Str? && action.Some? && action.value.Str?
       && ParseAction(action.value.s).Some? && emp.Some? && created.Some? && target.Some? && tid.Some?
    then Some(ResearchEvent(uid.value.s, emp.value, created.value, ParseAction(action.value.s).value,
                            target.value, tid.value, ObjOf(Field(d, "meta"))))
    else None
  }

  function StrField(d: map<string, Value>, k: string): Option<string> {
    if k in d && d[k].Str? then Some(d[k].s) else None
  }

  /** A string field read as `d.k || dflt`: the field when it is a non-empty string, else the default. */
  function TextOr(d: map<string, Value>, k: string, dflt: string): (s: string)
    ensures StrField(d, k).Some? && StrField(d, k).value != "" ==> s == StrField(d, k).value
    ensures StrField(d, k).None? || StrField(d, k).value == "" ==> s == dflt
  {
    var f := StrField(d, k);
    if f.Some? && f.value != "" then f.value else dflt
  }

  /** The employee id a server action records for a user: the profile's non-empty `employeeId`, else
    * `"UNKNOWN"`. */
  function EmployeeIdOf(db: Db, uid: string): (e: string)
    ensures e != ""
  {
    TextOr(GetOrEmpty(db, "users", uid), "employeeId", "UNKNOWN")
  }

  function TimeField(d: map<string, Value>, k: string): Option<int> {
    if k in d && d[k].Time? then Some(d[k].ms) else None
  }

  function BoolField(d: map<string, Value>, k: string): Option<bool> {
    if k in d && d[k].Bool? then Some(d[k].b) else None
  }

  function AdjudicationDoc(a: Adjudication): (d: map<string, Value>)
    ensures DecodeAdjudication(d) == Some(a)
  {
    map["isTrueOMI" := Bool(a.isTrueOMI), "isCulpritOcclusion" := Bool(a.isCulpritOcclusion),
        "adjudicator" := OptStr(a.adjudicator), "adjudicatedAt" := Time(a.adjudicatedAt)]
  }

  function DecodeAdjudication(d: map<string, Value>): Option<Adjudication> {
    var omi := BoolField(d, "isTrueOMI");
    var culprit := BoolField(d, "isCulpritOcclusion");
    var adjudicator := DecodeOptStr(Field(d, "adjudicator"));
    var at := TimeField(d, "adjudicatedAt");
    if omi.Some? && culprit.Some? && adjudicator.Some? && at.Some?
    then Some(Adjudication(omi.value, culprit.value, adjudicator.value, at.value))
    else None
  }

  function ActivationDoc(a: Activation): (d: map<string, Value>)
    ensures DecodeActivation(d) == Some(a)
  {
    map["activated" := Bool(a.activated), "activationAppropriate" := Bool(a.activationAppropriate)]
  }

  function DecodeActivation(d: map<string, Value>): Option<Activation> {
    var act := BoolField(d, "activated");
    var ok := BoolField(d, "activationAppropriate");
    if act.Some? && ok.Some? then Some(Activation(act.value, ok.value)) else None
  }

  function TimingDoc(t: Timing): (d: map<string, Value>)
    ensures DecodeTiming(d) == Some(t)
  {
    map["doorToActivationMinutes" := OptNum(t.doorToActivationMinutes),
        "ecgToActivationMinutes" := OptNum(t.ecgToActivationMinutes)]
  }

  function DecodeTiming(d: map<string, Value>): Option<Timing> {
    var d2a := DecodeOptNum(Field(d, "doorToActivationMinutes"));
    var e2a := DecodeOptNum(Field(d, "ecgToActivationMinutes"));
    if d2a.Some? && e2a.Some? then Some(Timing(d2a.value, e2a.value)) else None
  }

  const ClinicalKeys: set<string> := {"id", "patientEncounterId", "attendingEmployeeId", "shiftDateTime", "ecgTime",
    "doorTime", "activationTime", "cathStartTime", "outcomeAdjudication", "activation", "timingDerived", "createdAt",
    "updatedAt"}

  function OptTimeValue(t: Option<int>): Option<Value> {
    if t.Some? then Some(Time(t.value)) else None
  }

  /** The value stored under key `k` for a clinical event, `None` for a key left out. */
  function ClinicalField(ce: ClinicalEvent, k: string): Option<Value> {
    if k == "id" then Some(Str(ce.id))
    else if k == "patientEncounterId" then Some(Str(ce.patientEncounterId))
    else if k == "attendingEmployeeId" then Some(Str(ce.attendingEmployeeId))
    else if k == "shiftDateTime" then Some(Time(ce.shiftDateTime))
    else if k == "ecgTime" then OptTimeValue(ce.ecgTime)
    else if k == "doorTime" then OptTimeValue(ce.doorTime)
    else if k == "activationTime" then OptTimeValue(ce.activationTime)
    else if k == "cathStartTime" then OptTimeValue(ce.cathStartTime)
    else if k == "outcomeAdjudication" then Some(Obj(AdjudicationDoc(ce.outcome)))
    else if k == "activation" then Some(Obj(ActivationDoc(ce.activation)))
    else if k == "timingDerived" then Some(Obj(TimingDoc(ce.timing)))
    else if k == "createdAt" then Some(Time(ce.createdAt))
    else if k == "updatedAt" then Some(Time(ce.updatedAt))
    else None
  }

  /** The document an imported clinical event is stored as; missing times are left out of it. */
  function ClinicalDoc(ce: ClinicalEvent): (d: Doc)
    ensures forall k :: Field(d, k) == ClinicalField(ce, k)
  {
    map k | k in ClinicalKeys && ClinicalField(ce, k).Some? :: ClinicalField(ce, k).value
  }

  /** Reads a clinical event back from its document; `None` when a required field is missing or mistyped. */
  function DecodeClinical(d: Doc): Option<ClinicalEvent> {
    var id := StrField(d, "id");
    var pid := StrField(d, "patientEncounterId");
    var emp := StrField(d, "attendingEmployeeId");
    var shift := TimeField(d, "shiftDateTime");
    var adj := DecodeAdjudication(ObjOf(Field(d, "outcomeAdjudication")));
    var act := DecodeActivation(ObjOf(Field(d, "activation")));
    var tim := DecodeTiming(ObjOf(Field(d, "timingDerived")));
    var created := TimeField(d, "createdAt");
    var updated := TimeField(d, "updatedAt");
    if id.Some? && pid.Some? && emp.Some? && shift.Some? && adj.Some? && act.Some? && tim.Some?
       && created.Some? && updated.Some?
    then Some(ClinicalEvent(
      id.value, pid.value, emp.value, shift.value,
      TimeField(d, "ecgTime"), TimeField(d, "doorTime"), TimeField(d, "activationTime"), TimeField(d, "cathStartTime"),
      adj.value, act.value, tim.value, created.value, updated.value))
    else None
  }

  /** A stored clinical event reads back as the event that was stored. */
  lemma ClinicalRoundTrip(ce: ClinicalEvent)
    ensures DecodeClinical(ClinicalDoc(ce)) == Some(ce)
  {
    ClinicalDocIds(ce);
    ClinicalDocTimes(ce);
    ClinicalDocOptTimes(ce);
    ClinicalDocParts(ce);
  }

  lemma ClinicalDocIds(ce: ClinicalEvent)
    ensures var d := ClinicalDoc(ce);
      && StrField(d, "id") == Some(ce.id)
      && StrField(d, "patientEncounterId") == Some(ce.patientEncounterId)
      && StrField(d, "attendingEmployeeId") == Some(ce.attendingEmployeeId)
  {
  }

  lemma ClinicalDocTimes(ce: ClinicalEvent)
    ensures var d := ClinicalDoc(ce);
      && TimeField(d, "shiftDateTime") == Some(ce.shiftDateTime)
      && TimeField(d, "createdAt") == Some(ce.createdAt)
      && TimeField(d, "updatedAt") == Some(ce.updatedAt)
  {
  }

  lemma ClinicalDocOptTimes(ce: ClinicalEvent)
    ensures var d := ClinicalDoc(ce);
      && TimeField(d, "ecgTime") == ce.ecgTime
      && TimeField(d, "doorTime") == ce.doorTime
      && TimeField(d, "activationTime") == ce.activationTime
      && TimeField(d, "cathStartTime") == ce.cathStartTime
  {
  }

  lemma ClinicalDocParts(ce: ClinicalEvent)
    ensures var d := ClinicalDoc(ce);
      && DecodeAdjudication(ObjOf(Field(d, "outcomeAdjudication"))) == Some(ce.outcome)
      && DecodeActivation(ObjOf(Field(d, "activation"))) == Some(ce.activation)
      && DecodeTiming(ObjOf(Field(d, "timingDerived"))) == Some(ce.timing)
  {
    var d := ClinicalDoc(ce);
    assert ObjOf(Field(d, "outcomeAdjudication")) == AdjudicationDoc(ce.outcome);
    assert ObjOf(Field(d, "activation")) == ActivationDoc(ce.activation);
    assert ObjOf(Field(d, "timingDerived")) == TimingDoc(ce.timing);
  }

}
