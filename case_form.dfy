/**
 * The admin case editor: the form's fields, its validation (one message per failed rule), the edits of the
 * choice and reference lists (which keep the marked correct answer on the same choice), the image upload
 * checks, and the document a save writes.
 */
module CaseForm {
  import opened Wrappers
  import opened Store
  import opened Schema
  import opened Seqs
  import opened Text

  datatype Form = Form(
    title: string, category: CaseCategory, clinicalContext: string, ecgImages: seq<string>, question: string,
    choices: seq<string>, correctAnswer: int, explanation: string, references: seq<string>)

  /** The form as it opens: the case being edited, or a blank case with four empty choices. A stored empty
    * list is truthy, so `choices || [...]` and `references || [""]` keep it: a case saved without references
    * reopens with no reference row. */
  function InitialForm(initialData: Option<Case>): (f: Form)
    ensures initialData.None? ==>
      && f.choices == ["", "", "", ""] && f.correctAnswer == 0 && f.references == [""] && f.ecgImages == []
      && IsBlank(f.title) && IsBlank(f.question) && f.category == OMI
    ensures initialData.Some? ==>
      var c := initialData.value;
      && f.choices == c.choices && f.references == c.references && f.ecgImages == c.ecgImages
      && f.correctAnswer == c.correctAnswer && f.title == c.title && f.question == c.question
  {
    match initialData
    case None => Form("", OMI, "", [], "", ["", "", "", ""], 0, "", [""])
    case Some(c) =>
      Form(c.title, c.category, c.clinicalContext, c.ecgImages, c.question, c.choices, c.correctAnswer,
           c.explanation, c.references)
  }

  /** The edits of a case saved without references start from an empty reference list, and still pass
    * validation when the rest of the case does. */
  lemma ReopenedWithoutReferences(c: Case)
    requires c.references == []
    ensures InitialForm(Some(c)).references == []
    ensures FormValid(InitialForm(Some(c))) <==>
      && !IsBlank(c.title) && !IsBlank(c.clinicalContext) && |c.ecgImages| > 0 && !IsBlank(c.question)
      && !SomeChoiceBlank(c.choices) && 0 <= c.correctAnswer < |c.choices| && !IsBlank(c.explanation)
  {
  }

  // ---------------------------------------------------------------------------------------
  // validate
  // ---------------------------------------------------------------------------------------

  /** The rules a case must meet before it is saved. */
  predicate FormValid(f: Form) {
    && !IsBlank(f.title)
    && !IsBlank(f.clinicalContext)
    && |f.ecgImages| > 0
    && !IsBlank(f.question)
    && !SomeChoiceBlank(f.choices)
    && 0 <= f.correctAnswer < |f.choices|
    && !IsBlank(f.explanation)
  }

  predicate SomeChoiceBlank(choices: seq<string>) {
    exists k :: 0 <= k < |choices| && IsBlank(choices[k])
  }

  /** The keys of `newErrors`, one per rule. */
  datatype FormField = TitleField | ContextField | ImagesField | QuestionField | ChoicesField | AnswerField | ExplanationField

  /** The name of the key in `newErrors`. */
  function FieldName(k: FormField): string {
    match k
    case TitleField => "title"
    case ContextField => "clinicalContext"
    case ImagesField => "ecgImages"
    case QuestionField => "question"
    case ChoicesField => "choices"
    case AnswerField => "correctAnswer"
    case ExplanationField => "explanation"
  }

  /** The message shown under a field that failed its rule. */
  function Message(k: FormField): string {
    match k
    case TitleField => "標題為必填"
    case ContextField => "臨床情境為必填"
    case ImagesField => "請至少上傳一張 ECG 圖片"
    case QuestionField => "問題為必填"
    case ChoicesField => "所有選項都必須填寫"
    case AnswerField => "請選擇一個正確答案"
    case ExplanationField => "解析為必填"
  }

  /** `newErrors` names a field exactly when the form breaks that field's rule. */
  predicate Reports(f: Form, errors: set<FormField>) {
    && (TitleField in errors <==> IsBlank(f.title))
    && (ContextField in errors <==> IsBlank(f.clinicalContext))
    && (ImagesField in errors <==> f.ecgImages == [])
    && (QuestionField in errors <==> IsBlank(f.question))
    && (ChoicesField in errors <==> SomeChoiceBlank(f.choices))
    && (AnswerField in errors <==> !(0 <= f.correctAnswer < |f.choices|))
    && (ExplanationField in errors <==> IsBlank(f.explanation))
  }

  /** A report is empty exactly when the form is valid. */
  lemma ReportEmptyIffValid(f: Form, errors: set<FormField>)
    requires Reports(f, errors)
    ensures errors == {} <==> FormValid(f)
  {
    if FormValid(f) {
      forall k: FormField ensures k !in errors {
        match k
        case TitleField =>
        case ContextField =>
        case ImagesField =>
        case QuestionField =>
        case ChoicesField =>
        case AnswerField =>
        case ExplanationField =>
      }
    }
  }

  /** `validate`: fills `newErrors` rule by rule (the fields, whose messages are `Message`); the form passes
    * when no rule failed. */
  method Validate(f: Form) returns (errors: set<FormField>, ok: bool)
    ensures Reports(f, errors)
    ensures ok <==> errors == {}
    ensures ok <==> FormValid(f)
  {
    var newErrors: set<FormField> := {};
    if IsBlank(f.title) { newErrors := newErrors + {TitleField}; }
    if IsBlank(f.clinicalContext) { newErrors := newErrors + {ContextField}; }
    if |f.ecgImages| == 0 { newErrors := newErrors + {ImagesField}; }
    if IsBlank(f.question) { newErrors := newErrors + {QuestionField}; }
    if SomeChoiceBlank(f.choices) { newErrors := newErrors + {ChoicesField}; }
    if f.correctAnswer < 0 || f.correctAnswer >= |f.choices| { newErrors := newErrors + {AnswerField}; }
    if IsBlank(f.explanation) { newErrors := newErrors + {ExplanationField}; }
    errors := newErrors;
    ok := errors == {};
    ReportEmptyIffValid(f, errors);
  }

  // ---------------------------------------------------------------------------------------
  // The list edits
  // ---------------------------------------------------------------------------------------

  /** `prev.filter((_, i) => i !== index)`. */
  function RemoveAt<T>(s: seq<T>, index: int): (r: seq<T>)
    ensures 0 <= index < |s| ==> |r| == |s| - 1
    ensures 0 <= index < |s| ==> forall k :: 0 <= k < |r| ==> r[k] == if k < index then s[k] else s[k + 1]
    ensures !(0 <= index < |s|) ==> r == s
  {
    if 0 <= index < |s| then s[..index] + s[index + 1..] else s
  }

  /** `prev.map((x, i) => i === index ? value : x)`. */
  function UpdateAt<T>(s: seq<T>, index: int, value: T): (r: seq<T>)
    ensures |r| == |s|
    ensures forall k :: 0 <= k < |s| ==> r[k] == if k == index then value else s[k]
  {
    seq(|s|, k requires 0 <= k < |s| => if k == index then value else s[k])
  }

  function AddChoice(f: Form): (g: Form)
    ensures g.choices == f.choices + [""] && g.correctAnswer == f.correctAnswer
  {
    f.(choices := f.choices + [""])
  }

  /** `removeChoice`: at two choices or fewer nothing happens; otherwise the choice goes and the correct answer
    * moves down one when it was at or after the removed index (and not already the first). */
  function RemoveChoice(f: Form, index: int): Form {
    if |f.choices| <= 2 then f
    else
      f.(choices := RemoveAt(f.choices, index),
         correctAnswer := if f.correctAnswer >= index && f.correctAnswer > 0 then f.correctAnswer - 1 else f.correctAnswer)
  }

  /** Removing a choice keeps at least two, keeps the correct answer a valid index, and keeps it on the same
    * choice unless that very choice was removed. */
  lemma RemoveChoiceKeepsAnswer(f: Form, index: int)
    requires 0 <= f.correctAnswer < |f.choices|
    requires 0 <= index < |f.choices|
    ensures var g := RemoveChoice(f, index);
      && 0 <= g.correctAnswer < |g.choices|
      && (|f.choices| <= 2 ==> g == f)
      && (|f.choices| > 2 ==> |g.choices| == |f.choices| - 1 && |g.choices| >= 2)
      && (index != f.correctAnswer ==> g.choices[g.correctAnswer] == f.choices[f.correctAnswer])
      && (index > f.correctAnswer ==> g.correctAnswer == f.correctAnswer)
  {
  }

  function UpdateChoice(f: Form, index: int, value: string): (g: Form)
    ensures g.choices == UpdateAt(f.choices, index, value)
    ensures g.(choices := f.choices) == f
  {
    f.(choices := UpdateAt(f.choices, index, value))
  }

  function AddReference(f: Form): (g: Form)
    ensures g.references == f.references + [""]
  {
    f.(references := f.references + [""])
  }

  /** `removeReference`: the last reference is never removed. */
  function RemoveReference(f: Form, index: int): (g: Form)
    ensures |f.references| >= 1 ==> |g.references| >= 1
    ensures |f.references| > 1 && 0 <= index < |f.references| ==> |g.references| == |f.references| - 1
    ensures g.(references := f.references) == f
  {
    if |f.references| <= 1 then f else f.(references := RemoveAt(f.references, index))
  }

  function UpdateReference(f: Form, index: int, value: string): (g: Form)
    ensures g.references == UpdateAt(f.references, index, value)
    ensures g.(references := f.references) == f
  {
    f.(references := UpdateAt(f.references, index, value))
  }

  /** `removeImage`. */
  function RemoveImage(f: Form, index: int): (g: Form)
    ensures g.ecgImages == RemoveAt(f.ecgImages, index)
    ensures g.(ecgImages := f.ecgImages) == f
  {
    f.(ecgImages := RemoveAt(f.ecgImages, index))
  }

  // ---------------------------------------------------------------------------------------
  // Image upload
  // ---------------------------------------------------------------------------------------

  /** The part of a selected `File` the upload reads. */
  datatype FileInfo = FileInfo(name: string, mimeType: string, size: nat)

  const MaxImageBytes: nat := 5 * 1024 * 1024

  /** An image file of an accepted type and size. */
  predicate Accepted(f: FileInfo) {
    (f.mimeType == "image/png" || f.mimeType == "image/jpeg" || f.mimeType == "image/webp") && f.size <= MaxImageBytes
  }

  /** `file.name.split(".").pop()`: what follows the last dot (the whole name when there is none). */
  function Extension(name: string): (ext: string)
    ensures '.' !in ext
  {
    var parts := Split(name, '.');
    parts[|parts| - 1]
  }

  /** Where image `k` of the selection is stored: `cases/<caseId>/<uuid>.<ext>`. */
  function ImagePath(caseId: string, uuid: nat -> string, k: nat, f: FileInfo): string {
    "cases/" + caseId + "/" + uuid(k) + "." + Extension(f.name)
  }

  /** The download URLs the loop appends from file `k` on: accepted files in order, up to the first upload
    * that throws (the loop sits inside the `try`). */
  function Uploaded(files: seq<FileInfo>, k: nat, caseId: string, uuid: nat -> string, url: string -> string,
                    fails: string -> bool): seq<string>
    requires k <= |files|
    decreases |files| - k
  {
    if k == |files| then []
    else if !Accepted(files[k]) then Uploaded(files, k + 1, caseId, uuid, url, fails)
    else if fails(ImagePath(caseId, uuid, k, files[k])) then []
    else [url(ImagePath(caseId, uuid, k, files[k]))] + Uploaded(files, k + 1, caseId, uuid, url, fails)
  }

  /** `handleImageUpload`. `tempId` is the uuid of a case without id yet, `uuid(k)` the file name picked for
    * file `k`, `url` the download URL of a storage path, `fails` whether uploading to a path throws. */
  method HandleImageUpload(ecgImages: seq<string>, files: seq<FileInfo>, initialId: string, tempId: string,
                           uuid: nat -> string, url: string -> string, fails: string -> bool)
    returns (images: seq<string>)
    ensures images == ecgImages + Uploaded(files, 0, if initialId != "" then initialId else "temp-" + tempId, uuid, url, fails)
  {
    images := ecgImages;
    var caseId := if initialId != "" then initialId else "temp-" + tempId;
    var i := 0;
    while i < |files|
      invariant 0 <= i <= |files|
      invariant ecgImages + Uploaded(files, 0, caseId, uuid, url, fails) == images + Uploaded(files, i, caseId, uuid, url, fails)
    {
      var file := files[i];
      if !Accepted(file) {
        i := i + 1;
        continue;
      }
      var path := ImagePath(caseId, uuid, i, file);
      if fails(path) {
        break;
      }
      images := images + [url(path)];
      i := i + 1;
    }
  }

  /** Only accepted files are uploaded, each stored under the case, and one URL is added per uploaded file. */
  lemma {:induction false} UploadedFiles(files: seq<FileInfo>, k: nat, caseId: string, uuid: nat -> string,
                                         url: string -> string, fails: string -> bool)
    requires k <= |files|
    ensures |Uploaded(files, k, caseId, uuid, url, fails)| <= Count(files[k..], AcceptedFile())
    ensures forall u :: u in Uploaded(files, k, caseId, uuid, url, fails) ==>
              exists j :: k <= j < |files| && Accepted(files[j]) && u == url(ImagePath(caseId, uuid, j, files[j]))
    decreases |files| - k
  {
    if k < |files| {
      UploadedFiles(files, k + 1, caseId, uuid, url, fails);
      assert files[k..] == [files[k]] + files[k + 1..];
    }
  }

  function AcceptedFile(): FileInfo -> bool {
    (f: FileInfo) => Accepted(f)
  }

  /** With no failing upload every accepted file is uploaded, each once and in order. */
  lemma {:induction false} UploadedAll(files: seq<FileInfo>, k: nat, caseId: string, uuid: nat -> string,
                                       url: string -> string, fails: string -> bool)
    requires k <= |files|
    requires forall j :: k <= j < |files| ==> !fails(ImagePath(caseId, uuid, j, files[j]))
    ensures |Uploaded(files, k, caseId, uuid, url, fails)| == Count(files[k..], AcceptedFile())
    decreases |files| - k
  {
    if k < |files| {
      UploadedAll(files, k + 1, caseId, uuid, url, fails);
      assert files[k..] == [files[k]] + files[k + 1..];
    }
  }

  // ---------------------------------------------------------------------------------------
  // handleSave
  // ---------------------------------------------------------------------------------------

  function NotBlank(): string -> bool {
    (r: string) => !IsBlank(r)
  }

  function Trimmed(s: seq<string>): (r: seq<string>)
    ensures |r| == |s| && forall k :: 0 <= k < |s| ==> r[k] == Trim(s[k])
  {
    seq(|s|, k requires 0 <= k < |s| => Trim(s[k]))
  }

  /** `references.filter(r => r.trim()).map(r => r.trim())`. */
  function CleanReferences(refs: seq<string>): seq<string> {
    Trimmed(Filter(refs, NotBlank()))
  }

  /** A stored reference: non-empty, trimmed, and the trim of some reference typed into the form. */
  predicate CleanReferenceOf(r: string, refs: seq<string>) {
    r != [] && Trim(r) == r && exists j :: 0 <= j < |refs| && Trim(refs[j]) == r
  }

  /** The stored references are the non-blank ones, trimmed: none is blank or padded, none is invented. */
  lemma CleanReferencesShape(refs: seq<string>)
    ensures |CleanReferences(refs)| <= |refs|
    ensures forall k :: 0 <= k < |CleanReferences(refs)| ==> CleanReferenceOf(CleanReferences(refs)[k], refs)
  {
    var kept := Filter(refs, NotBlank());
    forall k | 0 <= k < |kept| ensures CleanReferenceOf(Trim(kept[k]), refs) {
      KeptReferenceClean(refs, kept[k]);
    }
  }

  lemma KeptReferenceClean(refs: seq<string>, x: string)
    requires x in Filter(refs, NotBlank())
    ensures CleanReferenceOf(Trim(x), refs)
  {
    TrimIdempotent(x);
    BlankIffTrimEmpty(x);
    var j :| 0 <= j < |refs| && refs[j] == x;
  }

  function StrArr(s: seq<string>): Value {
    Arr(seq(|s|, k requires 0 <= k < |s| => Str(s[k])))
  }

  /** `caseData`. */
  function CaseData(f: Form, publish: bool, now: int): Doc {
    map["title" := Str(Trim(f.title)), "category" := Str(CategoryName(f.category)),
        "clinical_context" := Str(Trim(f.clinicalContext)), "ecg_images" := StrArr(f.ecgImages),
        "question" := Str(Trim(f.question)), "explanation" := Str(Trim(f.explanation)),
        "references" := StrArr(CleanReferences(f.references)), "updatedAt" := Time(now),
        "choices" := StrArr(Trimmed(f.choices)), "correct_answer" := Num(f.correctAnswer),
        "status" := Str(if publish then "published" else "draft")]
  }

  /** The saved case is published exactly when publishing was chosen, and its correct answer still indexes
    * its (trimmed) choices. */
  lemma SavedCase(f: Form, publish: bool, now: int)
    requires 0 <= f.correctAnswer < |f.choices|
    ensures var d := CaseData(f, publish, now);
      && (StrField(d, "status") == Some("published") <==> publish)
      && (!publish ==> StrField(d, "status") == Some("draft"))
      && d["choices"].Arr? && 0 <= NumOf(Field(d, "correct_answer")) < |d["choices"].items|
  {
  }

  datatype Mode = Create | Edit(initialId: string)

  /** The write a valid save makes: a new case with `createdAt`, or a merge into the edited case. */
  function SaveWrites(f: Form, mode: Mode, publish: bool, newId: string, now: int): seq<Write> {
    match mode
    case Create => [SetDoc("cases", newId, PutAll(CaseData(f, publish, now)["createdAt" := Time(now)]), false)]
    case Edit(id) => if id == "" then [] else [SetDoc("cases", id, PutAll(CaseData(f, publish, now)), true)]
  }

  /** `handleSave`: nothing is written unless the form is valid; `writeFails` says `addDoc`/`updateDoc` throws
    * (an `updateDoc` of a missing case throws too). */
  method HandleSave(db: Db, f: Form, mode: Mode, publish: bool, newId: string, now: int, writeFails: bool)
    returns (db': Db, errors: set<FormField>)
    ensures !FormValid(f) ==> db' == db && errors != {}
    ensures FormValid(f) ==> errors == {}
    ensures FormValid(f) && (writeFails || (mode.Edit? && mode.initialId != "" && Get(db, "cases", mode.initialId).None?)) ==>
              db' == db
    ensures FormValid(f) && !writeFails && !(mode.Edit? && mode.initialId != "" && Get(db, "cases", mode.initialId).None?) ==>
              db' == Commit(db, SaveWrites(f, mode, publish, newId, now))
  {
    var ok;
    errors, ok := Validate(f);
    if !ok {
      return db, errors;
    }
    if writeFails || (mode.Edit? && mode.initialId != "" && Get(db, "cases", mode.initialId).None?) {
      return db, errors;
    }
    db' := CommitBatch(db, SaveWrites(f, mode, publish, newId, now));
  }
}
