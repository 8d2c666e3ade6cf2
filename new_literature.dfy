/**
 * The "Add New Literature" form: the tag string parsed into tags, the year field, the storage path of
 * the uploaded PDF, and the submit sequence (create the paper document, upload the file, then record
 * the file on the paper). Each remote step can fail (`addFails`, `uploadFails`, `updateFails`); the
 * document id `addDoc` picks, the `uuidv4()` string, the download URL and the server time are parameters.
 */
module NewLiterature {
  import opened Wrappers
  import opened Store
  import opened Schema
  import opened Text

  // ---------------------------------------------------------------------------------------
  // Tags
  // ---------------------------------------------------------------------------------------

  /** `.map(t => t.trim()).filter(Boolean)` over the comma-separated pieces. */
  function CleanTags(pieces: seq<string>): seq<string> {
    if pieces == [] then []
    else
      var t := Trim(pieces[0]);
      (if t == [] then [] else [t]) + CleanTags(pieces[1..])
  }

  /** A non-empty string without white space at either end. */
  predicate Trimmed(t: string) {
    t != [] && Trim(t) == t
  }

  lemma TrimmedPiece(p: string)
    requires Trim(p) != []
    ensures Trimmed(Trim(p))
  {
    TrimIdempotent(p);
  }

  /** Each tag kept is non-empty and trimmed. */
  lemma {:induction false} CleanTagsTrimmed(pieces: seq<string>)
    ensures forall k :: 0 <= k < |CleanTags(pieces)| ==> Trimmed(CleanTags(pieces)[k])
  {
    if pieces != [] {
      CleanTagsTrimmed(pieces[1..]);
      var t := Trim(pieces[0]);
      var rest := CleanTags(pieces[1..]);
      var head: seq<string> := if t == [] then [] else [t];
      var r := head + rest;
      assert CleanTags(pieces) == r;
      forall k | 0 <= k < |r| ensures Trimmed(r[k]) {
        if k < |head| { TrimmedPiece(pieces[0]); } else { assert r[k] == rest[k - |head|]; }
      }
    }
  }

  /** A string without a comma. */
  predicate NoComma(t: string) {
    ',' !in t
  }

  /** Trimming adds no character, so pieces without a comma give tags without one. */
  lemma {:induction false} CleanTagsNoComma(pieces: seq<string>)
    requires forall p :: p in pieces ==> NoComma(p)
    ensures forall t :: t in CleanTags(pieces) ==> NoComma(t)
  {
    if pieces != [] {
      assert forall p :: p in pieces[1..] ==> p in pieces;
      CleanTagsNoComma(pieces[1..]);
      assert NoComma(pieces[0]);
      assert NoComma(Trim(pieces[0]));
    }
  }

  /** `formData.tags.split(",").map(t => t.trim()).filter(Boolean)`: every tag non-empty, without a comma
    * and without white space at either end. */
  function ParseTags(s: string): (tags: seq<string>)
    ensures forall k :: 0 <= k < |tags| ==> tags[k] != [] && ',' !in tags[k] && Trim(tags[k]) == tags[k]
  {
    var pieces := Split(s, ',');
    CleanTagsTrimmed(pieces);
    CleanTagsNoComma(pieces);
    var tags := CleanTags(pieces);
    assert forall k :: 0 <= k < |tags| ==> tags[k] in tags;
    tags
  }

  /** A tag that is already clean survives the clean-up unchanged. */
  predicate CleanTag(t: string) {
    t != [] && ',' !in t && Trim(t) == t
  }

  lemma {:induction false} CleanTagsKeepsClean(pieces: seq<string>)
    requires forall k :: 0 <= k < |pieces| ==> CleanTag(pieces[k])
    ensures CleanTags(pieces) == pieces
  {
    if pieces != [] {
      CleanTagsKeepsClean(pieces[1..]);
      assert pieces == [pieces[0]] + pieces[1..];
    }
  }

  /** Tags written out joined by commas parse back to the same tags, in the same order. */
  lemma ParseJoinedTags(tags: seq<string>)
    requires forall k :: 0 <= k < |tags| ==> CleanTag(tags[k])
    ensures ParseTags(Join(tags, ',')) == tags
  {
    if tags == [] {
      assert Split([], ',') == [[]];
      assert Trim([]) == [];
    } else {
      SplitJoin(tags, ',');
      CleanTagsKeepsClean(tags);
    }
  }

  // ---------------------------------------------------------------------------------------
  // Year
  // ---------------------------------------------------------------------------------------

  /** `parseInt(formData.year) || null`: the parsed year, or null when it is not a number or is 0. */
  function YearValue(year: string): (v: Value)
    ensures v.Null? || v.Num?
    ensures v.Num? ==> v.n != 0 && ParseInt(year) == Some(v.n)
    ensures v.Null? <==> ParseInt(year).None? || ParseInt(year) == Some(0)
  {
    match ParseInt(year)
    case Some(y) => if y != 0 then Num(y) else Null
    case None => Null
  }

  /** The form starts with the current year, which is stored as that number. */
  lemma DefaultYearStored(currentYear: nat)
    requires currentYear > 0
    ensures YearValue(NatToString(currentYear)) == Num(currentYear)
  {
    ParseIntOfNat(currentYear);
  }

  // ---------------------------------------------------------------------------------------
  // Storage path
  // ---------------------------------------------------------------------------------------

  /** `file.name.split('.').pop()`: the text after the last '.', or the whole name without one. */
  function Extension(name: string): string {
    LastPiece(Split(name, '.'))
  }

  /** The last element of a non-empty list of pieces. */
  function LastPiece(parts: seq<string>): string
    requires parts != []
  {
    parts[|parts| - 1]
  }

  /** `parts.join(sep)` with more than one part ends with the separator and the last part. */
  lemma {:induction false} JoinLast(parts: seq<string>, sep: char)
    requires |parts| >= 2
    ensures Join(parts, sep) == Join(parts[..|parts| - 1], sep) + [sep] + parts[|parts| - 1]
  {
    if |parts| > 2 {
      JoinLast(parts[1..], sep);
      assert parts[1..][..|parts| - 2] == parts[..|parts| - 1][1..];
    }
  }

  /** The extension has no '.', is the whole name when there is no '.', and otherwise follows the name's
    * last '.'. */
  lemma ExtensionSpec(name: string)
    ensures '.' !in Extension(name)
    ensures '.' !in name ==> Extension(name) == name
    ensures '.' in name ==> exists stem :: name == stem + ['.'] + Extension(name)
  {
    var parts := Split(name, '.');
    if '.' in name {
      assert Extension(name) == parts[|parts| - 1];
      var stem := Join(parts[..|parts| - 1], '.');
      JoinSplit(name, '.');
      JoinLast(parts, '.');
      assert name == stem + ['.'] + Extension(name);
    }
  }

  /** Splitting `a + sep + e` where `e` has no separator ends with `e`. */
  lemma SplitLast(a: string, e: string, sep: char)
    requires sep !in e
    ensures LastPiece(Split(a + [sep] + e, sep)) == e
  {
    var pieces := Split(a, sep);
    var parts := pieces + [e];
    JoinSplit(a, sep);
    JoinLast(parts, sep);
    assert parts[..|parts| - 1] == pieces;
    SplitJoin(parts, sep);
  }

  /** `` `papers/${paperRef.id}/${uuidv4()}.${fileExtension}` ``. */
  function StoragePath(paperId: string, uuid: string, fileName: string): string {
    "papers/" + paperId + "/" + uuid + "." + Extension(fileName)
  }

  /** The stored file keeps the extension of the uploaded one, under the folder of its paper. */
  lemma StoragePathSpec(paperId: string, uuid: string, fileName: string)
    ensures Extension(StoragePath(paperId, uuid, fileName)) == Extension(fileName)
    ensures StoragePath(paperId, uuid, fileName)[..7 + |paperId| + 1] == "papers/" + paperId + "/"
  {
    ExtensionSpec(fileName);
    SplitLast("papers/" + paperId + "/" + uuid, Extension(fileName), '.');
    assert StoragePath(paperId, uuid, fileName) == ("papers/" + paperId + "/" + uuid) + ['.'] + Extension(fileName);
  }

  // ---------------------------------------------------------------------------------------
  // Submit
  // ---------------------------------------------------------------------------------------

  /** The form state: every input is text except the status selector. */
  datatype PaperForm = PaperForm(title: string, authors: string, journal: string, year: string, tags: string,
                                 status: Status)

  /** The form as the page opens it: empty fields, the current year, draft status. */
  function EmptyForm(currentYear: nat): (f: PaperForm)
    ensures f.status == Draft && f.tags == [] && f.title == []
    ensures f.year == NatToString(currentYear)
  {
    PaperForm("", "", "", NatToString(currentYear), "", Draft)
  }

  function TagValues(tags: seq<string>): (vs: seq<Value>)
    ensures |vs| == |tags| && forall k :: 0 <= k < |tags| ==> vs[k] == Str(tags[k])
  {
    if tags == [] then [] else [Str(tags[0])] + TagValues(tags[1..])
  }

  /** The `pdf` map: path, URL and file name. */
  function PdfValue(path: string, url: string, fileName: string): Value {
    Obj(map["storagePath" := Str(path), "downloadURL" := Str(url), "fileName" := Str(fileName)])
  }

  /** The document `addDoc` creates: the form, the parsed tags, server times and an empty `pdf`. */
  function NewPaperDoc(f: PaperForm, now: int): Doc {
    map[
      "title" := Str(f.title), "authors" := Str(f.authors), "journal" := Str(f.journal),
      "year" := YearValue(f.year), "tags" := Arr(TagValues(ParseTags(f.tags))),
      "status" := Str(StatusName(f.status)), "createdAt" := Time(now), "updatedAt" := Time(now),
      "pdf" := PdfValue("", "", "")]
  }

  function CreateWrite(f: PaperForm, paperId: string, now: int): Write {
    SetDoc("papers", paperId, PutAll(NewPaperDoc(f, now)), false)
  }

  /** `updateDoc(doc(db, "papers", paperRef.id), { pdf })`. */
  function PdfWrite(paperId: string, path: string, url: string, fileName: string): Write {
    SetDoc("papers", paperId, map["pdf" := Op(Put(PdfValue(path, url, fileName)))], true)
  }

  /** `handleSubmit`. Returns the store and the path uploaded to, if the upload happened. Nothing happens
    * without a file or for a non-admin; a failing step stops the sequence where it is. */
  method HandleSubmit(db: Db, f: PaperForm, fileName: Option<string>, isAdmin: bool, paperId: string,
                      uuid: string, url: string, now: int, addFails: bool, uploadFails: bool, updateFails: bool)
    returns (db': Db, uploaded: Option<string>)
    ensures fileName.None? || !isAdmin || addFails ==> db' == db && uploaded.None?
    ensures fileName.Some? && isAdmin && !addFails ==>
      var created := Commit(db, [CreateWrite(f, paperId, now)]);
      && (uploadFails ==> db' == created && uploaded.None?)
      && (!uploadFails ==> uploaded == Some(StoragePath(paperId, uuid, fileName.value)))
      && (!uploadFails && updateFails ==> db' == created)
      && (!uploadFails && !updateFails ==>
          db' == Commit(created, [PdfWrite(paperId, StoragePath(paperId, uuid, fileName.value), url, fileName.value)]))
  {
    if fileName.None? || !isAdmin {
      return db, None;
    }
    if addFails {
      return db, None;
    }
    var created := CommitBatch(db, [CreateWrite(f, paperId, now)]);
    var path := StoragePath(paperId, uuid, fileName.value);
    if uploadFails {
      return created, None;
    }
    uploaded := Some(path);
    if updateFails {
      db' := created;
      return;
    }
    db' := CommitBatch(created, [PdfWrite(paperId, path, url, fileName.value)]);
  }

  /** A merged write of one field replaces that field and keeps the rest of the document. */
  lemma MergeOneField(d: Doc, k: string, v: Value)
    ensures ApplyFields(d, map[k := Op(Put(v))]) == d[k := v]
  {
  }

  /** After a complete submit the paper holds the form's fields, its parsed tags and the uploaded file,
    * and no other document changed. */
  lemma {:induction false} SubmittedPaper(db: Db, f: PaperForm, paperId: string, path: string, url: string,
                                            fileName: string, now: int, c: string, i: string)
    ensures var db' := Commit(Commit(db, [CreateWrite(f, paperId, now)]), [PdfWrite(paperId, path, url, fileName)]);
      && Get(db', "papers", paperId) == Some(NewPaperDoc(f, now)["pdf" := PdfValue(path, url, fileName)])
      && ((c, i) != ("papers", paperId) ==> Get(db', c, i) == Get(db, c, i))
  {
    var d := NewPaperDoc(f, now);
    var w1, w2 := CreateWrite(f, paperId, now), PdfWrite(paperId, path, url, fileName);
    var created := Commit(db, [w1]);
    CommitOne(db, w1);
    CommitOne(created, w2);
    PutAllStores(d);
    assert Get(created, "papers", paperId) == Some(d);
    MergeOneField(d, "pdf", PdfValue(path, url, fileName));
  }

  /** A paper added from a fresh form is a draft, whatever else was typed in. */
  lemma NewPaperIsDraft(currentYear: nat, f: PaperForm, now: int)
    requires f.status == EmptyForm(currentYear).status
    ensures NewPaperDoc(f, now)["status"] == Str("draft")
  {
  }
}
