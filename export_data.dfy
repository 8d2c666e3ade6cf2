/**
 * `exportCollection`: an admin download of a whole collection as JSON. Every document becomes one record
 * whose `_id` is the document id, followed by its fields with every `Timestamp`, however deeply nested,
 * replaced by its ISO string (`sanitizeData`). `iso` is `toDate().toISOString()` of a time; the documents
 * of the collection come in snapshot order as `docIds`.
 */
module ExportData {
  import opened Wrappers
  import opened Store

  // ---------------------------------------------------------------------------------------
  // sanitizeData
  // ---------------------------------------------------------------------------------------

  /** A value with no `Timestamp` anywhere inside it. */
  predicate NoTime(v: Value) {
    match v
    case Time(_) => false
    case Arr(items) => forall i :: 0 <= i < |items| ==> NoTime(items[i])
    case Obj(fields) => forall k :: k in fields ==> NoTime(fields[k])
    case _ => true
  }

  /** The nesting of arrays and objects of a value, every scalar erased to `Null`. */
  function Skeleton(v: Value): Value {
    match v
    case Arr(items) => Arr(seq(|items|, i requires 0 <= i < |items| => Skeleton(items[i])))
    case Obj(fields) => Obj(map k | k in fields :: Skeleton(fields[k]))
    case _ => Null
  }

  /** `sanitizeData`, the value a JSON export carries: a `Timestamp` becomes its ISO string, arrays are mapped
    * element by element, objects key by key, and `null` and every other scalar stay as they are. */
  function Sanitize(v: Value, iso: int -> string): (r: Value)
    ensures NoTime(r)
    ensures v.Time? ==> r == Str(iso(v.ms))
    ensures !v.Time? && !v.Arr? && !v.Obj? ==> r == v
    ensures v.Arr? ==> r.Arr? && |r.items| == |v.items|
    ensures v.Obj? ==> r.Obj? && r.fields.Keys == v.fields.Keys
  {
    match v
    case Time(ms) => Str(iso(ms))
    case Arr(items) => Arr(seq(|items|, i requires 0 <= i < |items| => Sanitize(items[i], iso)))
    case Obj(fields) => Obj(map k | k in fields :: Sanitize(fields[k], iso))
    case _ => v
  }

  /** `sanitizeData` as the code runs it: the array branch maps, the object branch fills `newData` key by key. */
  method SanitizeData(data: Value, iso: int -> string) returns (r: Value)
    ensures r == Sanitize(data, iso)
    decreases data, 1
  {
    match data {
      case Time(ms) =>
        r := Str(iso(ms));
      case Arr(_) =>
        r := SanitizeArray(data, iso);
      case Obj(_) =>
        r := SanitizeObject(data, iso);
      case _ =>
        r := data;
    }
  }

  /** The array branch: `data.map(sanitizeData)`. */
  method SanitizeArray(data: Value, iso: int -> string) returns (r: Value)
    requires data.Arr?
    ensures r == Sanitize(data, iso)
    decreases data, 0
  {
    var items := data.items;
    var out: seq<Value> := [];
    var i := 0;
    while i < |items|
      invariant 0 <= i <= |items|
      invariant |out| == i
      invariant forall k :: 0 <= k < i ==> out[k] == Sanitize(items[k], iso)
    {
      var x := SanitizeData(items[i], iso);
      out := out + [x];
      i := i + 1;
    }
    r := Arr(out);
  }

  /** The object branch: the `for...in` loop that copies every key's sanitized value into `newData`. */
  method SanitizeObject(data: Value, iso: int -> string) returns (r: Value)
    requires data.Obj?
    ensures r == Sanitize(data, iso)
    decreases data, 0
  {
    var fields := data.fields;
    var newData: map<string, Value> := map[];
    var keys := fields.Keys;
    while keys != {}
      invariant keys <= fields.Keys
      invariant newData.Keys == fields.Keys - keys
      invariant forall k :: k in newData ==> newData[k] == Sanitize(fields[k], iso)
      decreases |keys|
    {
      var key :| key in keys;
      var x := SanitizeData(fields[key], iso);
      newData := newData[key := x];
      keys := keys - {key};
    }
    r := Obj(newData);
  }

  /** A value is left as it is exactly when it holds no `Timestamp`. */
  lemma {:induction false} SanitizeFixes(v: Value, iso: int -> string)
    ensures Sanitize(v, iso) == v <==> NoTime(v)
  {
    match v
    case Time(_) =>
    case Arr(items) =>
      if NoTime(v) {
        forall i | 0 <= i < |items| ensures Sanitize(items[i], iso) == items[i] {
          SanitizeFixes(items[i], iso);
        }
        assert Sanitize(v, iso).items == items;
      }
    case Obj(fields) =>
      if NoTime(v) {
        forall k | k in fields ensures Sanitize(fields[k], iso) == fields[k] {
          SanitizeFixes(fields[k], iso);
        }
        assert Sanitize(v, iso).fields == fields;
      }
    case _ =>
  }

  /** Sanitizing twice is sanitizing once. */
  lemma SanitizeIdempotent(v: Value, iso: int -> string)
    ensures Sanitize(Sanitize(v, iso), iso) == Sanitize(v, iso)
  {
    SanitizeFixes(Sanitize(v, iso), iso);
  }

  /** Sanitizing keeps the shape at every depth: the same array lengths and object keys all the way down. */
  lemma {:induction false} SanitizeKeepsShape(v: Value, iso: int -> string)
    ensures Skeleton(Sanitize(v, iso)) == Skeleton(v)
  {
    match v
    case Arr(items) =>
      var r := Sanitize(v, iso).items;
      forall i | 0 <= i < |items| ensures Skeleton(r[i]) == Skeleton(items[i]) {
        SanitizeKeepsShape(items[i], iso);
      }
      assert Skeleton(Sanitize(v, iso)).items == Skeleton(v).items;
    case Obj(fields) =>
      var r := Sanitize(v, iso).fields;
      forall k | k in fields ensures Skeleton(r[k]) == Skeleton(fields[k]) {
        SanitizeKeepsShape(fields[k], iso);
      }
      assert Skeleton(Sanitize(v, iso)).fields == Skeleton(v).fields;
    case _ =>
  }

  // ---------------------------------------------------------------------------------------
  // exportCollection
  // ---------------------------------------------------------------------------------------

  /** The collections an export may name. */
  const AllowedCollections: seq<string> :=
    ["users", "events", "attempts", "clinicalEvents", "userStats", "caseStats", "pointsStats", "cases", "papers"]

  /** `{ _id: doc.id, ...sanitizeData(doc.data()) }`: the spread comes last, so a field `_id` of the data wins. */
  function ExportRecord(id: string, d: Doc, iso: int -> string): map<string, Value> {
    map["_id" := Str(id)] + Sanitize(Obj(d), iso).fields
  }

  /** What an exported record holds. */
  lemma RecordFields(id: string, d: Doc, iso: int -> string)
    ensures var rec := ExportRecord(id, d, iso);
      && rec.Keys == d.Keys + {"_id"}
      && rec["_id"] == (if "_id" in d then Sanitize(d["_id"], iso) else Str(id))
      && (forall k :: k in d ==> rec[k] == Sanitize(d[k], iso))
      && NoTime(Obj(rec))
  {
  }

  /** `docIds` lists each document of collection `coll` once. */
  ghost predicate ListsDocs(db: Db, coll: string, docIds: seq<string>) {
    && (forall id :: id in docIds <==> Get(db, coll, id).Some?)
    && (forall i, j :: 0 <= i < j < |docIds| ==> docIds[i] != docIds[j])
  }

  /** The exported data: one record per document, in snapshot order. */
  function Records(db: Db, coll: string, docIds: seq<string>, iso: int -> string): (data: seq<map<string, Value>>)
    ensures |data| == |docIds|
  {
    seq(|docIds|, k requires 0 <= k < |docIds| => ExportRecord(docIds[k], GetOrEmpty(db, coll, docIds[k]), iso))
  }

  /** `exportCollection`: a missing caller or a collection outside the allow-list throws; a failed read is
    * reported in the response. */
  method ExportCollection(uid: string, collectionName: string, db: Db, docIds: seq<string>, iso: int -> string,
                          readFailure: Option<string>)
    returns (r: Result<Response<seq<map<string, Value>>>>)
    requires ListsDocs(db, collectionName, docIds)
    ensures uid == "" ==> r == Err("Unauthorized")
    ensures uid != "" && collectionName !in AllowedCollections ==> r == Err("Invalid collection")
    ensures uid != "" && collectionName in AllowedCollections && readFailure.Some? ==>
              r == Ok(Failure(readFailure.value))
    ensures uid != "" && collectionName in AllowedCollections && readFailure.None? ==>
              r == Ok(Success(Records(db, collectionName, docIds, iso)))
  {
    if uid == "" {
      return Err("Unauthorized");
    }
    if collectionName !in AllowedCollections {
      return Err("Invalid collection");
    }
    if readFailure.Some? {
      return Ok(Failure(readFailure.value));
    }
    var data := seq(|docIds|, k requires 0 <= k < |docIds| =>
      ExportRecord(docIds[k], GetOrEmpty(db, collectionName, docIds[k]), iso));
    r := Ok(Success(data));
  }

  /** Every document of the collection is exported exactly once, as its own record, and no record holds a
    * `Timestamp`. */
  lemma ExportCoversCollection(db: Db, coll: string, docIds: seq<string>, iso: int -> string, id: string)
    requires ListsDocs(db, coll, docIds)
    requires Get(db, coll, id).Some?
    ensures exists k :: 0 <= k < |docIds| && docIds[k] == id
              && Records(db, coll, docIds, iso)[k] == ExportRecord(id, Get(db, coll, id).value, iso)
    ensures forall j, k :: 0 <= j < k < |docIds| ==> !(docIds[j] == id && docIds[k] == id)
  {
    var k :| 0 <= k < |docIds| && docIds[k] == id;
    assert Records(db, coll, docIds, iso)[k] == ExportRecord(id, Get(db, coll, id).value, iso);
  }

  /** No exported record holds a `Timestamp`. */
  lemma ExportHasNoTime(db: Db, coll: string, docIds: seq<string>, iso: int -> string)
    ensures forall k :: 0 <= k < |docIds| ==> NoTime(Obj(Records(db, coll, docIds, iso)[k]))
  {
    forall k | 0 <= k < |docIds| ensures NoTime(Obj(Records(db, coll, docIds, iso)[k])) {
      RecordFields(docIds[k], GetOrEmpty(db, coll, docIds[k]), iso);
    }
  }

  /** Comments and the per-user content status are not among the exportable collections. */
  lemma NotExportable()
    ensures "comments" !in AllowedCollections
    ensures "userContentStatus" !in AllowedCollections
  {
    assert forall c :: c in AllowedCollections ==> |c| <= 14;
    assert "comments"[0] == 'c' && "comments"[1] == 'o';
  }
}
