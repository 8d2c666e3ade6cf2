/**
 * `importClinicalData`: validates uploaded rows one at a time (at most 400 of them), builds a clinical event
 * for each valid row and stages it in one batch; a row that fails validation adds an error message instead of
 * aborting the import. Date parsing (`new Date(str)`) is the parameter `parse`, the ids `doc()` generates are
 * `newId(k)` for the k-th created document, and `Timestamp.now()` is `now`.
 */
module ImportClinical {
  import opened Wrappers
  import opened Store
  import opened Schema
  import opened Text

  /** A flag cell of an uploaded row: absent, a string (as a CSV gives it) or a JSON boolean. */
  datatype Cell = Blank | Chars(s: string) | Boolean(b: bool)

  /** One uploaded row; text columns are absent or strings. */
  datatype RawRow = RawRow(
    patientEncounterId: Option<string>, attendingEmployeeId: Option<string>, shiftDateTime: Option<string>,
    ecgTime: Option<string>, doorTime: Option<string>, activationTime: Option<string>,
    cathStartTime: Option<string>, isTrueOMI: Cell, isCulpritOcclusion: Cell, adjudicator: Option<string>)

  datatype ImportResult = ImportResult(count: nat, errors: seq<string>)

  /** The batch cap. */
  const MaxRows := 400

  const MsPerMinute := 60000

  /** A present, non-empty string: JavaScript truthiness of a text column. */
  predicate Filled(s: Option<string>) {
    s.Some? && s.value != ""
  }

  /** `parseDate`: absent or empty text gives no time; otherwise whatever `new Date` makes of it. */
  function ParseDate(parse: string -> Option<int>, s: Option<string>): (t: Option<int>)
    ensures !Filled(s) ==> t == None
    ensures Filled(s) ==> t == parse(s.value)
  {
    if !Filled(s) then None else parse(s.value)
  }

  /** `Math.round(d / 60000)`: the nearest whole minute, halves rounded up. */
  function RoundMinutes(d: int): (m: int)
    ensures MsPerMinute * m - MsPerMinute / 2 <= d < MsPerMinute * m + MsPerMinute / 2
  {
    (d + MsPerMinute / 2) / MsPerMinute
  }

  /** `diffMinutes`: no value when either time is missing, else the rounded minutes from `start` to `end`. */
  function DiffMinutes(end: Option<int>, start: Option<int>): (m: Option<int>)
    ensures m.Some? <==> end.Some? && start.Some?
    ensures m.Some? ==> m.value == RoundMinutes(end.value - start.value)
  {
    if end.None? || start.None? then None else Some(RoundMinutes(end.value - start.value))
  }

  /** A door time and an activation 47 minutes later give 47; a 29.999 s gap rounds to 0, 30 s up to 1. */
  lemma DiffMinutesExamples(t: int)
    ensures DiffMinutes(Some(t + 47 * MsPerMinute), Some(t)) == Some(47)
    ensures DiffMinutes(Some(t + 29999), Some(t)) == Some(0)
    ensures DiffMinutes(Some(t + 30000), Some(t)) == Some(1)
    ensures DiffMinutes(None, Some(t)) == None
  {
  }

  /** `v === 'true' || v === true`. */
  predicate TrueFlag(c: Cell) {
    c == Chars("true") || c == Boolean(true)
  }

  function MissingFieldsError(k: nat): string {
    "Row " + NatToString(k) + ": Missing required fields (PatientID, EmployeeID or Date)"
  }

  function InvalidShiftError(k: nat): string {
    "Row " + NatToString(k) + ": Invalid Shift Date"
  }

  /** The validation of the row numbered `k` (from 1): the message it throws, or `None` when it passes. */
  function RowError(row: RawRow, k: nat, parse: string -> Option<int>): (e: Option<string>)
    ensures e.None? <==> Filled(row.patientEncounterId) && Filled(row.attendingEmployeeId)
                         && ParseDate(parse, row.shiftDateTime).Some?
    ensures e.Some? ==> e.value == MissingFieldsError(k) || e.value == InvalidShiftError(k)
    ensures e == Some(MissingFieldsError(k)) <==>
              !Filled(row.patientEncounterId) || !Filled(row.attendingEmployeeId) || !Filled(row.shiftDateTime)
  {
    if !Filled(row.patientEncounterId) || !Filled(row.attendingEmployeeId) || !Filled(row.shiftDateTime)
    then Some(MissingFieldsError(k))
    else if ParseDate(parse, row.shiftDateTime).None? then Some(InvalidShiftError(k))
    else None
  }

  /** The event a valid row becomes, with `shift` its parsed shift time. */
  function BuildEvent(row: RawRow, shift: int, parse: string -> Option<int>, id: string, now: int)
    : (ce: ClinicalEvent)
    requires Filled(row.patientEncounterId) && Filled(row.attendingEmployeeId)
    ensures ce.id == id && ce.shiftDateTime == shift
    ensures ce.patientEncounterId == row.patientEncounterId.value
    ensures ce.attendingEmployeeId == row.attendingEmployeeId.value
    ensures ActivationDerived(ce)
    ensures ce.outcome.isTrueOMI <==> TrueFlag(row.isTrueOMI)
    ensures ce.activation.activated <==> ce.activationTime.Some?
    ensures ce.activationTime == ParseDate(parse, row.activationTime)
    ensures ce.timing.doorToActivationMinutes.Some? <==> ce.activationTime.Some? && ce.doorTime.Some?
    ensures ce.timing.ecgToActivationMinutes.Some? <==> ce.activationTime.Some? && ce.ecgTime.Some?
  {
    var ecg := ParseDate(parse, row.ecgTime);
    var door := ParseDate(parse, row.doorTime);
    var activation := ParseDate(parse, row.activationTime);
    var cath := ParseDate(parse, row.cathStartTime);
    var adjudicator := if Filled(row.adjudicator) then row.adjudicator else None;
    ClinicalEvent(
      id, row.patientEncounterId.value, row.attendingEmployeeId.value, shift, ecg, door, activation, cath,
      Adjudication(TrueFlag(row.isTrueOMI), TrueFlag(row.isCulpritOcclusion), adjudicator, now),
      Activation(activation.Some?, TrueFlag(row.isTrueOMI) && activation.Some?),
      Timing(DiffMinutes(activation, door), DiffMinutes(activation, ecg)),
      now, now)
  }

  /** The counters and the events staged so far, after some rows. */
  datatype ImportState = ImportState(count: nat, errors: seq<string>, events: seq<ClinicalEvent>)

  /** The write storing an event under its own id (a `set` without merge on a new document). */
  function EventWrite(ce: ClinicalEvent): Write {
    SetDoc("clinicalEvents", ce.id, PutAll(ClinicalDoc(ce)), false)
  }

  /** The batch staging `es` in order. */
  function EventWrites(es: seq<ClinicalEvent>): (ws: seq<Write>)
    ensures |ws| == |es|
    ensures forall k :: 0 <= k < |es| ==> ws[k] == EventWrite(es[k])
    decreases |es|
  {
    if es == [] then [] else EventWrites(es[..|es| - 1]) + [EventWrite(es[|es| - 1])]
  }

  /** One pass of the loop body on the row numbered `k`. */
  function Step(s: ImportState, row: RawRow, k: nat, parse: string -> Option<int>, newId: nat -> string, now: int)
    : ImportState
  {
    match RowError(row, k, parse)
    case Some(msg) => ImportState(s.count, s.errors + [msg], s.events)
    case None =>
      var ce := BuildEvent(row, ParseDate(parse, row.shiftDateTime).value, parse, newId(s.count), now);
      ImportState(s.count + 1, s.errors, s.events + [ce])
  }

  /** The loop over `rows`, numbered from 1. */
  function Import(rows: seq<RawRow>, parse: string -> Option<int>, newId: nat -> string, now: int): ImportState
    decreases |rows|
  {
    if rows == [] then ImportState(0, [], [])
    else Step(Import(rows[..|rows| - 1], parse, newId, now), rows[|rows| - 1], |rows|, parse, newId, now)
  }

  lemma ImportStep(rows: seq<RawRow>, i: nat, parse: string -> Option<int>, newId: nat -> string, now: int)
    requires i < |rows|
    ensures Import(rows[..i + 1], parse, newId, now)
         == Step(Import(rows[..i], parse, newId, now), rows[i], i + 1, parse, newId, now)
  {
    assert rows[..i + 1][..i] == rows[..i];
  }

  lemma EventWritesSnoc(es: seq<ClinicalEvent>, ce: ClinicalEvent)
    ensures EventWrites(es + [ce]) == EventWrites(es) + [EventWrite(ce)]
  {
    assert (es + [ce])[..|es|] == es;
  }

  /** The rows the import looks at: `rawEvents.slice(0, 400)`. */
  function Processed(rows: seq<RawRow>): (p: seq<RawRow>)
    ensures |p| == if |rows| < MaxRows then |rows| else MaxRows
    ensures p == rows[..|p|]
  {
    if |rows| <= MaxRows then rows else rows[..MaxRows]
  }

  /** The `try` block for the row numbered `k`: an error message, or a staged event and one more success. */
  method StageRow(successCount: nat, errors: seq<string>, batch: seq<Write>, row: RawRow, k: nat,
                  parse: string -> Option<int>, newId: nat -> string, now: int)
    returns (successCount': nat, errors': seq<string>, batch': seq<Write>)
    ensures RowError(row, k, parse).Some? ==>
      successCount' == successCount && errors' == errors + [RowError(row, k, parse).value] && batch' == batch
    ensures RowError(row, k, parse).None? ==>
      && successCount' == successCount + 1 && errors' == errors
      && batch' == batch + [EventWrite(BuildEvent(row, ParseDate(parse, row.shiftDateTime).value, parse,
                                                  newId(successCount), now))]
  {
    successCount', errors', batch' := successCount, errors, batch;
    var e := RowError(row, k, parse);
    if e.Some? {
      errors' := errors + [e.value];
    } else {
      var shiftTime := ParseDate(parse, row.shiftDateTime);
      var eventData := BuildEvent(row, shiftTime.value, parse, newId(successCount), now);
      batch' := batch + [EventWrite(eventData)];
      successCount' := successCount + 1;
    }
  }

  /** The `for` loop of `importClinicalData` over the rows it processes. */
  method ProcessRows(eventsToProcess: seq<RawRow>, parse: string -> Option<int>, newId: nat -> string, now: int)
    returns (successCount: nat, errors: seq<string>, batch: seq<Write>)
    ensures var s := Import(eventsToProcess, parse, newId, now);
      successCount == s.count && errors == s.errors && batch == EventWrites(s.events)
  {
    batch, successCount, errors := [], 0, [];
    var index := 0;
    while index < |eventsToProcess|
      invariant 0 <= index <= |eventsToProcess|
      invariant var s := Import(eventsToProcess[..index], parse, newId, now);
        successCount == s.count && errors == s.errors && batch == EventWrites(s.events)
    {
      ImportStep(eventsToProcess, index, parse, newId, now);
      ghost var s := Import(eventsToProcess[..index], parse, newId, now);
      successCount, errors, batch :=
        StageRow(successCount, errors, batch, eventsToProcess[index], index + 1, parse, newId, now);
      if RowError(eventsToProcess[index], index + 1, parse).None? {
        EventWritesSnoc(s.events, BuildEvent(eventsToProcess[index],
          ParseDate(parse, eventsToProcess[index].shiftDateTime).value, parse, newId(s.count), now));
      }
      index := index + 1;
    }
    assert eventsToProcess[..index] == eventsToProcess;
  }

  /** `importClinicalData`: the batch commits only when some row was valid. `commitFailure` is the error of
    * `batch.commit()` when it rejects: nothing catches it, so the action rejects with it and, the batch being
    * atomic, nothing is written. Otherwise the result is a success with the count and the errors. */
  method ImportClinicalData(db: Db, uid: string, rawEvents: seq<RawRow>, parse: string -> Option<int>,
                            newId: nat -> string, now: int, commitFailure: Option<string>)
    returns (db': Db, r: Result<ImportResult>)
    ensures uid == "" ==> db' == db && r == Err("Unauthorized")
    ensures uid != "" ==>
      var s := Import(Processed(rawEvents), parse, newId, now);
      if s.count > 0 && commitFailure.Some? then db' == db && r == Err(commitFailure.value)
      else
        && r == Ok(ImportResult(s.count, s.errors))
        && db' == (if s.count > 0 then Commit(db, EventWrites(s.events)) else db)
  {
    if uid == "" {
      return db, Err("Unauthorized");
    }
    var successCount, errors, batch := ProcessRows(Processed(rawEvents), parse, newId, now);
    if successCount > 0 && commitFailure.Some? {
      return db, Err(commitFailure.value);
    }
    if successCount > 0 {
      db' := CommitBatch(db, batch);
    } else {
      db' := db;
    }
    r := Ok(ImportResult(successCount, errors));
  }

  // ---------------------------------------------------------------------------------------
  // What the loop computes
  // ---------------------------------------------------------------------------------------

  /** Every row looked at yields exactly one success or one error, and every success one staged write. */
  lemma {:induction false} ImportAccounts(rows: seq<RawRow>, parse: string -> Option<int>, newId: nat -> string,
                                          now: int)
    ensures var s := Import(rows, parse, newId, now);
      s.count + |s.errors| == |rows| && |s.events| == s.count
    decreases |rows|
  {
    if rows != [] {
      ImportAccounts(rows[..|rows| - 1], parse, newId, now);
    }
  }

  /** The error messages of `rows`, numbered from `first`, in row order: an independent forward definition. */
  function Failures(rows: seq<RawRow>, first: nat, parse: string -> Option<int>): seq<string>
    decreases |rows|
  {
    if rows == [] then []
    else (match RowError(rows[0], first, parse) case Some(m) => [m] case None => []) + Failures(rows[1..], first + 1, parse)
  }

  lemma {:induction false} FailuresSnoc(rows: seq<RawRow>, row: RawRow, first: nat, parse: string -> Option<int>)
    ensures Failures(rows + [row], first, parse)
         == Failures(rows, first, parse)
            + (match RowError(row, first + |rows|, parse) case Some(m) => [m] case None => [])
    decreases |rows|
  {
    if rows != [] {
      assert (rows + [row])[1..] == rows[1..] + [row];
      FailuresSnoc(rows[1..], row, first + 1, parse);
    }
  }

  /** The errors are exactly the validation messages of the failing rows, in row order. */
  lemma {:induction false} ImportErrors(rows: seq<RawRow>, parse: string -> Option<int>, newId: nat -> string,
                                        now: int)
    ensures Import(rows, parse, newId, now).errors == Failures(rows, 1, parse)
    decreases |rows|
  {
    if rows != [] {
      var init := rows[..|rows| - 1];
      ImportErrors(init, parse, newId, now);
      assert rows == init + [rows[|rows| - 1]];
      FailuresSnoc(init, rows[|rows| - 1], 1, parse);
    }
  }

  /** A write that creates a `clinicalEvents` document reading back as an event whose activation is derived
    * as the schema states. */
  predicate StoresEvent(w: Write) {
    && w.SetDoc? && w.coll == "clinicalEvents" && !w.merge
    && DecodeClinical(ApplyFields(map[], w.fields)).Some?
    && ActivationDerived(DecodeClinical(ApplyFields(map[], w.fields)).value)
  }

  lemma EventWriteStores(ce: ClinicalEvent)
    requires ActivationDerived(ce)
    ensures StoresEvent(EventWrite(ce))
  {
    PutAllStores(ClinicalDoc(ce));
    ClinicalRoundTrip(ce);
  }

  /** The k-th staged event has the k-th generated id and its activation derived as the schema states. */
  lemma {:induction false} ImportEvents(rows: seq<RawRow>, parse: string -> Option<int>, newId: nat -> string,
                                        now: int)
    ensures var es := Import(rows, parse, newId, now).events;
      forall k :: 0 <= k < |es| ==> es[k].id == newId(k) && ActivationDerived(es[k])
    decreases |rows|
  {
    if rows != [] {
      ImportEvents(rows[..|rows| - 1], parse, newId, now);
      ImportAccounts(rows[..|rows| - 1], parse, newId, now);
    }
  }

  /** Every staged write creates a `clinicalEvents` document that reads back as a well-formed event. */
  lemma ImportWrites(rows: seq<RawRow>, parse: string -> Option<int>, newId: nat -> string, now: int)
    ensures var ws := EventWrites(Import(rows, parse, newId, now).events);
      forall k :: 0 <= k < |ws| ==> StoresEvent(ws[k])
  {
    var es := Import(rows, parse, newId, now).events;
    forall k | 0 <= k < |es|
      ensures StoresEvent(EventWrites(es)[k])
    {
      ImportedEventDerived(rows, parse, newId, now, k);
      EventWriteStores(es[k]);
    }
  }

  lemma ImportedEventDerived(rows: seq<RawRow>, parse: string -> Option<int>, newId: nat -> string, now: int, k: nat)
    requires k < |Import(rows, parse, newId, now).events|
    ensures ActivationDerived(Import(rows, parse, newId, now).events[k])
  {
    ImportEvents(rows, parse, newId, now);
  }

  /** The import's counters: `count + errors.length = min(400, n)`, the errors are those of the first 400 rows,
    * and rows past the cap make no difference. */
  lemma ImportCap(rows: seq<RawRow>, parse: string -> Option<int>, newId: nat -> string, now: int)
    ensures var s := Import(Processed(rows), parse, newId, now);
      && s.count + |s.errors| == (if |rows| < MaxRows then |rows| else MaxRows)
      && s.errors == Failures(Processed(rows), 1, parse)
    ensures |rows| > MaxRows ==> Import(Processed(rows), parse, newId, now)
                                 == Import(Processed(rows[..MaxRows]), parse, newId, now)
  {
    ImportAccounts(Processed(rows), parse, newId, now);
    ImportErrors(Processed(rows), parse, newId, now);
  }

  /** The store after an import: nothing outside `clinicalEvents` changes, and an import with no valid row
    * leaves the store as it was. */
  lemma ImportFrame(rows: seq<RawRow>, parse: string -> Option<int>, newId: nat -> string, now: int,
                    db: Db, c: string, i: string)
    requires c != "clinicalEvents"
    ensures Get(Commit(db, EventWrites(Import(rows, parse, newId, now).events)), c, i) == Get(db, c, i)
    ensures Import(rows, parse, newId, now).count == 0 ==>
              Commit(db, EventWrites(Import(rows, parse, newId, now).events)) == db
  {
    ImportAccounts(rows, parse, newId, now);
    CommitFrameCollection(db, EventWrites(Import(rows, parse, newId, now).events), c, i);
  }

  // ---------------------------------------------------------------------------------------
  // The import as coded: `undefined` optional times
  // ---------------------------------------------------------------------------------------

  /** Every optional time of the row is present and parses. */
  predicate AllTimesParse(row: RawRow, parse: string -> Option<int>) {
    && ParseDate(parse, row.ecgTime).Some? && ParseDate(parse, row.doorTime).Some?
    && ParseDate(parse, row.activationTime).Some? && ParseDate(parse, row.cathStartTime).Some?
  }

  /** The first optional time of the event, in the order `eventData` lists them, that is `undefined`. */
  function UndefinedField(row: RawRow, parse: string -> Option<int>): (f: Option<string>)
    ensures f.None? <==> AllTimesParse(row, parse)
    ensures f.Some? ==> f.value in ["ecgTime", "doorTime", "activationTime", "cathStartTime"]
  {
    if ParseDate(parse, row.ecgTime).None? then Some("ecgTime")
    else if ParseDate(parse, row.doorTime).None? then Some("doorTime")
    else if ParseDate(parse, row.activationTime).None? then Some("activationTime")
    else if ParseDate(parse, row.cathStartTime).None? then Some("cathStartTime")
    else None
  }

  /** The row's message as coded. The Admin SDK is set up without `ignoreUndefinedProperties`, so `batch.set`
    * rejects an event holding `(time || undefined)` for a missing time, with the SDK's message
    * `undefinedError(field)` naming the first such field; the `catch` records it like a validation message. */
  function RowErrorAsCoded(row: RawRow, k: nat, parse: string -> Option<int>, undefinedError: string -> string)
    : (e: Option<string>)
    ensures e.None? <==> RowError(row, k, parse).None? && AllTimesParse(row, parse)
    ensures RowError(row, k, parse).Some? ==> e == RowError(row, k, parse)
    ensures RowError(row, k, parse).None? && e.Some? ==> e.value == undefinedError(UndefinedField(row, parse).value)
  {
    match RowError(row, k, parse)
    case Some(m) => Some(m)
    case None =>
      match UndefinedField(row, parse)
      case Some(f) => Some(undefinedError(f))
      case None => None
  }

  /** The loop's state as coded: `created` counts the ids `doc()` made, which also happens for a row that
    * `batch.set` then rejects. */
  datatype AsCodedState = AsCodedState(created: nat, count: nat, errors: seq<string>, events: seq<ClinicalEvent>)

  function StepAsCoded(s: AsCodedState, row: RawRow, k: nat, parse: string -> Option<int>, newId: nat -> string,
                       now: int, undefinedError: string -> string): AsCodedState
  {
    match RowErrorAsCoded(row, k, parse, undefinedError)
    case Some(msg) => AsCodedState(if RowError(row, k, parse).None? then s.created + 1 else s.created,
                                   s.count, s.errors + [msg], s.events)
    case None =>
      var ce := BuildEvent(row, ParseDate(parse, row.shiftDateTime).value, parse, newId(s.created), now);
      AsCodedState(s.created + 1, s.count + 1, s.errors, s.events + [ce])
  }

  /** The loop over `rows` as coded, numbered from 1. */
  function ImportAsCoded(rows: seq<RawRow>, parse: string -> Option<int>, newId: nat -> string, now: int,
                         undefinedError: string -> string): AsCodedState
    decreases |rows|
  {
    if rows == [] then AsCodedState(0, 0, [], [])
    else StepAsCoded(ImportAsCoded(rows[..|rows| - 1], parse, newId, now, undefinedError), rows[|rows| - 1], |rows|,
                     parse, newId, now, undefinedError)
  }

  /** As coded, the import makes an id for every row that passes validation, but counts no more successes than
    * the intended import; there is still one success or one error per row. */
  lemma {:induction false} ImportAsCodedCounts(rows: seq<RawRow>, parse: string -> Option<int>, newId: nat -> string,
                                               now: int, undefinedError: string -> string)
    ensures var a, s := ImportAsCoded(rows, parse, newId, now, undefinedError), Import(rows, parse, newId, now);
      a.created == s.count && a.count <= s.count && a.count + |a.errors| == |rows|
    decreases |rows|
  {
    if rows != [] {
      ImportAsCodedCounts(rows[..|rows| - 1], parse, newId, now, undefinedError);
    }
  }

  /** When every valid row has all its optional times, the import as coded is the intended import. */
  lemma {:induction false} ImportAsCodedAgrees(rows: seq<RawRow>, parse: string -> Option<int>, newId: nat -> string,
                                               now: int, undefinedError: string -> string)
    requires forall k :: 0 <= k < |rows| && RowError(rows[k], k + 1, parse).None? ==> AllTimesParse(rows[k], parse)
    ensures var a, s := ImportAsCoded(rows, parse, newId, now, undefinedError), Import(rows, parse, newId, now);
      a.created == s.count && a.count == s.count && a.errors == s.errors && a.events == s.events
    decreases |rows|
  {
    if rows != [] {
      var init := rows[..|rows| - 1];
      assert forall k :: 0 <= k < |init| ==> init[k] == rows[k];
      ImportAsCodedAgrees(init, parse, newId, now, undefinedError);
    }
  }

  /** A row with its patient, employee, shift, ECG and door times but no activation time: a patient who was not
    * activated. */
  function UntimedRow(patient: string, employee: string, shift: string, ecg: string, door: string): RawRow {
    RawRow(Some(patient), Some(employee), Some(shift), Some(ecg), Some(door), None, None, Blank, Blank, None)
  }

  /** As intended, such a row is imported: it is counted, records no error, and stages a non-activated event
    * without activation or cath-lab time. */
  lemma UntimedRowImported(patient: string, employee: string, shift: string, ecg: string, door: string,
                           parse: string -> Option<int>, newId: nat -> string, now: int)
    requires patient != "" && employee != "" && shift != "" && ecg != "" && door != ""
    requires parse(shift).Some? && parse(ecg).Some? && parse(door).Some?
    ensures var s := Import([UntimedRow(patient, employee, shift, ecg, door)], parse, newId, now);
      && s.count == 1 && s.errors == [] && |s.events| == 1
      && s.events[0].activationTime == None && s.events[0].cathStartTime == None
      && !s.events[0].activation.activated && s.events[0].ecgTime == parse(ecg)
  {
    var row := UntimedRow(patient, employee, shift, ecg, door);
    assert [row][..0] == [];
    assert RowError(row, 1, parse).None?;
  }

  /** As coded, the same row becomes the SDK's error for `activationTime`, and the import counts nothing. */
  lemma UntimedRowRejected(patient: string, employee: string, shift: string, ecg: string, door: string,
                           parse: string -> Option<int>, newId: nat -> string, now: int, undefinedError: string -> string)
    requires patient != "" && employee != "" && shift != "" && ecg != "" && door != ""
    requires parse(shift).Some? && parse(ecg).Some? && parse(door).Some?
    ensures var a := ImportAsCoded([UntimedRow(patient, employee, shift, ecg, door)], parse, newId, now, undefinedError);
      && a.count == 0 && a.errors == [undefinedError("activationTime")] && a.events == []
  {
    var row := UntimedRow(patient, employee, shift, ecg, door);
    assert [row][..0] == [];
    assert RowError(row, 1, parse).None?;
    assert UndefinedField(row, parse) == Some("activationTime");
  }
}
