/**
 * The Firestore document store as the server actions see it: collections of documents keyed by id,
 * each document a map from field names to values, and write batches that stage `set` (optionally
 * with `merge`), field transforms (`increment`, `arrayUnion`, one level of nested merge) and
 * `delete`, applied in order and all at once by `commit`.
 */
module Store {
  import opened Wrappers

  /** A Firestore value. A `Timestamp` is kept as milliseconds since the epoch. */
  datatype Value =
    | Null
    | Bool(b: bool)
    | Num(n: int)
    | Str(s: string)
    | Time(ms: int)
    | Arr(items: seq<Value>)
    | Obj(fields: map<string, Value>)

  type Doc = map<string, Value>
  type Collection = map<string, Doc>
  type Db = map<string, Collection>

  /** JavaScript truthiness of a stored value (a missing field is `undefined`, hence falsy). */
  predicate Truthy(v: Option<Value>) {
    match v
    case None => false
    case Some(Null) => false
    case Some(Bool(b)) => b
    case Some(Num(n)) => n != 0
    case Some(Str(s)) => s != []
    case Some(_) => true
  }

  function Field(d: Doc, k: string): Option<Value> {
    if k in d then Some(d[k]) else None
  }

  /** The number a field holds, 0 when it is missing or not a number (the base `increment` starts from). */
  function NumOf(v: Option<Value>): int {
    if v.Some? && v.value.Num? then v.value.n else 0
  }

  /** The nested map a field holds, empty when it is missing or not a map. */
  function ObjOf(v: Option<Value>): map<string, Value> {
    if v.Some? && v.value.Obj? then v.value.fields else map[]
  }

  /** The array a field holds, empty when it is missing or not an array. */
  function ArrOf(v: Option<Value>): seq<Value> {
    if v.Some? && v.value.Arr? then v.value.items else []
  }

  /** What a write does to one field: store a value, `FieldValue.increment(delta)` or `arrayUnion(elem)`. */
  datatype FieldOp = Put(v: Value) | Increment(delta: int) | ArrayUnion(elem: Value)

  /** A field write: an operation on the field itself, or a merge of operations into a nested map. */
  datatype FieldWrite = Op(op: FieldOp) | Nested(ops: map<string, FieldOp>)

  function ApplyOp(prev: Option<Value>, op: FieldOp): (v: Value)
    ensures op.Put? ==> v == op.v
    ensures op.Increment? ==> v == Num(NumOf(prev) + op.delta)
    ensures op.ArrayUnion? ==> v.Arr? && op.elem in v.items
    ensures op.ArrayUnion? ==> forall x :: x in v.items <==> x in ArrOf(prev) || x == op.elem
  {
    match op
    case Put(x) => x
    case Increment(d) => Num(NumOf(prev) + d)
    case ArrayUnion(e) =>
      var xs := ArrOf(prev);
      if e in xs then Arr(xs) else Arr(xs + [e])
  }

  /** Applies field operations over a map: the named keys get their new values, every other key keeps its own. */
  function ApplyOps(base: map<string, Value>, ops: map<string, FieldOp>): (r: map<string, Value>)
    ensures r.Keys == base.Keys + ops.Keys
    ensures forall k :: k in ops ==> r[k] == ApplyOp(Field(base, k), ops[k])
    ensures forall k :: k in base && k !in ops ==> r[k] == base[k]
  {
    map k | k in base.Keys + ops.Keys :: if k in ops then ApplyOp(Field(base, k), ops[k]) else base[k]
  }

  function ApplyWrite(prev: Option<Value>, w: FieldWrite): Value {
    match w
    case Op(op) => ApplyOp(prev, op)
    case Nested(ops) => Obj(ApplyOps(ObjOf(prev), ops))
  }

  /** The document a `set` produces from `base` (the old document under `merge`, else nothing). */
  function ApplyFields(base: Doc, ws: map<string, FieldWrite>): (r: Doc)
    ensures r.Keys == base.Keys + ws.Keys
    ensures forall k :: k in ws ==> r[k] == ApplyWrite(Field(base, k), ws[k])
    ensures forall k :: k in base && k !in ws ==> r[k] == base[k]
  {
    map k | k in base.Keys + ws.Keys :: if k in ws then ApplyWrite(Field(base, k), ws[k]) else base[k]
  }

  /** One staged write of a batch. */
  datatype Write =
    | SetDoc(coll: string, id: string, fields: map<string, FieldWrite>, merge: bool)
    | DeleteDoc(coll: string, id: string)

  function Get(db: Db, coll: string, id: string): Option<Doc> {
    if coll in db && id in db[coll] then Some(db[coll][id]) else None
  }

  function GetOrEmpty(db: Db, coll: string, id: string): (d: Doc)
    ensures d == Get(db, coll, id).GetOr(map[])
  {
    if coll in db && id in db[coll] then db[coll][id] else map[]
  }

  function CollectionOf(db: Db, coll: string): Collection {
    if coll in db then db[coll] else map[]
  }

  /** Field writes that store the values of `d` as they are. */
  function PutAll(d: Doc): (ws: map<string, FieldWrite>)
    ensures ws.Keys == d.Keys
    ensures forall k :: k in ws ==> ws[k] == Op(Put(d[k]))
  {
    map k | k in d :: Op(Put(d[k]))
  }

  /** A `set` without merge of `PutAll(d)` stores exactly `d`. */
  lemma PutAllStores(d: Doc)
    ensures ApplyFields(map[], PutAll(d)) == d
  {
  }

  /** Applies one staged write: only the named document changes. */
  function Apply(db: Db, w: Write): (r: Db)
    ensures forall c, i :: (c, i) != (w.coll, w.id) ==> Get(r, c, i) == Get(db, c, i)
    ensures w.SetDoc? ==>
      Get(r, w.coll, w.id) == Some(ApplyFields(if w.merge then GetOrEmpty(db, w.coll, w.id) else map[], w.fields))
    ensures w.DeleteDoc? ==> Get(r, w.coll, w.id) == None
  {
    match w
    case SetDoc(c, i, fs, merge) =>
      var base := if merge then GetOrEmpty(db, c, i) else map[];
      db[c := CollectionOf(db, c)[i := ApplyFields(base, fs)]]
    case DeleteDoc(c, i) =>
      if c in db then db[c := db[c] - {i}] else db
  }

  /** `batch.commit()`: the staged writes applied in order. */
  function Commit(db: Db, batch: seq<Write>): Db
    decreases |batch|
  {
    if batch == [] then db else Commit(Apply(db, batch[0]), batch[1..])
  }

  /** `batch.commit()` as the call the server action makes. */
  method CommitBatch(db: Db, batch: seq<Write>) returns (db': Db)
    ensures db' == Commit(db, batch)
  {
    db' := Commit(db, batch);
  }

  predicate Targets(batch: seq<Write>, c: string, i: string) {
    exists k :: 0 <= k < |batch| && batch[k].coll == c && batch[k].id == i
  }

  /** A document no staged write names is the same after the commit. */
  lemma {:induction false} CommitFrame(db: Db, batch: seq<Write>, c: string, i: string)
    requires forall k :: 0 <= k < |batch| ==> (batch[k].coll, batch[k].id) != (c, i)
    ensures Get(Commit(db, batch), c, i) == Get(db, c, i)
    decreases |batch|
  {
    if batch != [] {
      CommitFrame(Apply(db, batch[0]), batch[1..], c, i);
    }
  }

  /** A collection no staged write names is the same after the commit. */
  lemma {:induction false} CommitFrameCollection(db: Db, batch: seq<Write>, c: string, i: string)
    requires forall k :: 0 <= k < |batch| ==> batch[k].coll != c
    ensures Get(Commit(db, batch), c, i) == Get(db, c, i)
    decreases |batch|
  {
    if batch != [] {
      CommitFrameCollection(Apply(db, batch[0]), batch[1..], c, i);
    }
  }

  /** Writes appended to a batch that name other collections leave that collection as the batch left it. */
  lemma CommitSuffixFrame(db: Db, a: seq<Write>, b: seq<Write>, c: string, i: string)
    requires forall k :: 0 <= k < |b| ==> b[k].coll != c
    ensures Get(Commit(db, a + b), c, i) == Get(Commit(db, a), c, i)
  {
    CommitAppend(db, a, b);
    CommitFrameCollection(Commit(db, a), b, c, i);
  }

  /** A document no staged write names is the same after the commit (stated with `Targets`). */
  lemma CommitFrameTargets(db: Db, batch: seq<Write>, c: string, i: string)
    requires !Targets(batch, c, i)
    ensures Get(Commit(db, batch), c, i) == Get(db, c, i)
  {
    CommitFrame(db, batch, c, i);
  }

  /** Committing two batches one after another is committing their concatenation. */
  lemma {:induction false} CommitAppend(db: Db, a: seq<Write>, b: seq<Write>)
    ensures Commit(db, a + b) == Commit(Commit(db, a), b)
    decreases |a|
  {
    if a != [] {
      assert (a + b)[0] == a[0] && (a + b)[1..] == a[1..] + b;
      CommitAppend(Apply(db, a[0]), a[1..], b);
    } else {
      assert a + b == b;
    }
  }

  /** What a write does to its own document depends only on that document. */
  lemma ApplyLocal(db1: Db, db2: Db, w: Write)
    requires Get(db1, w.coll, w.id) == Get(db2, w.coll, w.id)
    ensures Get(Apply(db1, w), w.coll, w.id) == Get(Apply(db2, w), w.coll, w.id)
  {
  }

  /** A document named by exactly one write of a batch ends up as that write alone leaves it. */
  lemma CommitSingle(db: Db, pre: seq<Write>, w: Write, post: seq<Write>)
    requires forall k :: 0 <= k < |pre| ==> (pre[k].coll, pre[k].id) != (w.coll, w.id)
    requires forall k :: 0 <= k < |post| ==> (post[k].coll, post[k].id) != (w.coll, w.id)
    ensures Get(Commit(db, pre + [w] + post), w.coll, w.id) == Get(Apply(db, w), w.coll, w.id)
  {
    CommitAppend(db, pre + [w], post);
    CommitAppend(db, pre, [w]);
    CommitOne(Commit(db, pre), w);
    CommitFrame(db, pre, w.coll, w.id);
    ApplyLocal(Commit(db, pre), db, w);
    CommitFrame(Commit(db, pre + [w]), post, w.coll, w.id);
  }

  lemma CommitOne(db: Db, w: Write)
    ensures Commit(db, [w]) == Apply(db, w)
  {
    assert [w][1..] == [];
  }

  /** Deleting a document twice leaves the same store as deleting it once. */
  lemma DeleteIdempotent(db: Db, c: string, i: string)
    ensures Apply(Apply(db, DeleteDoc(c, i)), DeleteDoc(c, i)) == Apply(db, DeleteDoc(c, i))
  {
    if c in db {
      assert db[c] - {i} - {i} == db[c] - {i};
    }
  }

  /** A batch made of `delete` writes only. */
  predicate OnlyDeletes(ds: seq<Write>) {
    forall k :: 0 <= k < |ds| ==> ds[k].DeleteDoc?
  }

  /** The store without the documents a batch of deletes names (documents that do not exist are ignored). */
  function Erase(db: Db, ds: seq<Write>): (r: Db)
    ensures forall c, i :: Get(r, c, i) == if DeleteDoc(c, i) in ds then None else Get(db, c, i)
  {
    map c | c in db :: map i | i in db[c] && DeleteDoc(c, i) !in ds :: db[c][i]
  }

  /** Committing a batch of deletes erases exactly the documents it names. */
  lemma {:induction false} CommitDeletes(db: Db, ds: seq<Write>)
    requires OnlyDeletes(ds)
    ensures Commit(db, ds) == Erase(db, ds)
    decreases |ds|
  {
    if ds == [] {
      EraseNothing(db, ds);
    } else {
      CommitDeletes(Apply(db, ds[0]), ds[1..]);
      assert ds == [ds[0]] + ds[1..];
      EraseStep(db, ds[0], ds[1..]);
    }
  }

  lemma EraseNothing(db: Db, ds: seq<Write>)
    requires ds == []
    ensures Erase(db, ds) == db
  {
    forall c | c in db ensures Erase(db, ds)[c] == db[c] {
    }
  }

  /** Applying a first delete, then erasing the rest, is erasing them all. */
  lemma EraseStep(db: Db, d: Write, rest: seq<Write>)
    requires d.DeleteDoc?
    ensures Erase(Apply(db, d), rest) == Erase(db, [d] + rest)
  {
    var db1 := Apply(db, d);
    assert forall w :: w in [d] + rest <==> w == d || w in rest;
    assert db1.Keys == db.Keys;
    forall c | c in db ensures Erase(db1, rest)[c] == Erase(db, [d] + rest)[c] {
    }
  }

  /** Repeating a batch of deletes changes nothing more. */
  lemma DeletesIdempotent(db: Db, ds: seq<Write>)
    requires OnlyDeletes(ds)
    ensures Commit(Commit(db, ds), ds) == Commit(db, ds)
  {
    CommitDeletes(db, ds);
    CommitDeletes(Erase(db, ds), ds);
    var e := Erase(db, ds);
    forall c | c in e ensures Erase(e, ds)[c] == e[c] {
    }
  }

  /** Two increments of a field add up. */
  lemma IncrementAdds(prev: Option<Value>, a: int, b: int)
    ensures ApplyOp(Some(ApplyOp(prev, Increment(a))), Increment(b)) == ApplyOp(prev, Increment(a + b))
  {
  }

  /** `arrayUnion` with an element already present changes nothing: it has set semantics. */
  lemma ArrayUnionIdempotent(prev: Option<Value>, e: Value)
    ensures ApplyOp(Some(ApplyOp(prev, ArrayUnion(e))), ArrayUnion(e)) == ApplyOp(prev, ArrayUnion(e))
  {
  }

  /** `arrayUnion` never duplicates: an array without duplicates stays without duplicates. */
  lemma ArrayUnionNoDuplicates(xs: seq<Value>, e: Value)
    requires forall i, j :: 0 <= i < j < |xs| ==> xs[i] != xs[j]
    ensures var r := ApplyOp(Some(Arr(xs)), ArrayUnion(e)).items;
      forall i, j :: 0 <= i < j < |r| ==> r[i] != r[j]
  {
  }

  // ---------------------------------------------------------------------------------------
  // Sums over a nested map of counters (the points breakdown)
  // ---------------------------------------------------------------------------------------

  /** The sum of the numeric entries of a map; entries that are not numbers count 0. */
  ghost function SumNums(m: map<string, Value>): int
    decreases |m|
  {
    if m == map[] then 0
    else
      var k :| k in m;
      NumOf(Some(m[k])) + SumNums(m - {k})
  }

  lemma {:induction false} SumRemove(m: map<string, Value>, k: string)
    requires k in m
    ensures SumNums(m) == NumOf(Some(m[k])) + SumNums(m - {k})
    decreases |m|
  {
    var j :| j in m && SumNums(m) == NumOf(Some(m[j])) + SumNums(m - {j});
    if j != k {
      var mj := m - {j};
      var mk := m - {k};
      SumRemove(mj, k);
      SumRemove(mk, j);
      assert mj - {k} == mk - {j};
    }
  }

  /** Replacing one entry changes the sum by exactly the change of that entry. */
  lemma SumUpdate(m: map<string, Value>, k: string, v: Value)
    ensures SumNums(m[k := v]) == SumNums(m) - NumOf(Field(m, k)) + NumOf(Some(v))
  {
    var m2 := m[k := v];
    SumRemove(m2, k);
    assert m2 - {k} == m - {k};
    if k in m { SumRemove(m, k); }
    else { assert m - {k} == m; }
  }

  /** `totalPoints` minus the sum of `pointsBreakdown`: what every points award keeps unchanged. */
  ghost function Balance(d: Doc): int {
    NumOf(Field(d, "totalPoints")) - SumNums(ObjOf(Field(d, "pointsBreakdown")))
  }

  /** The merge a points award stages: the same delta to the total and to one breakdown bucket. */
  function AwardFields(base: map<string, FieldWrite>, bucket: string, delta: int): map<string, FieldWrite> {
    base["totalPoints" := Op(Increment(delta))]["pointsBreakdown" := Nested(map[bucket := Increment(delta)])]
  }

  /** An award merged into a points document keeps `totalPoints - Σ pointsBreakdown` unchanged,
    * whatever other (non-points) fields the same write sets. */
  lemma AwardKeepsBalance(d: Doc, others: map<string, FieldWrite>, bucket: string, delta: int)
    ensures Balance(ApplyFields(d, AwardFields(others, bucket, delta))) == Balance(d)
    ensures NumOf(Field(ApplyFields(d, AwardFields(others, bucket, delta)), "totalPoints"))
         == NumOf(Field(d, "totalPoints")) + delta
  {
    var prev := ObjOf(Field(d, "pointsBreakdown"));
    AwardBreakdown(d, others, bucket, delta);
    SumUpdate(prev, bucket, Num(NumOf(Field(prev, bucket)) + delta));
  }

  /** The breakdown after an award: the old one with the bucket's number grown by the delta. */
  lemma AwardBreakdown(d: Doc, others: map<string, FieldWrite>, bucket: string, delta: int)
    ensures var prev := ObjOf(Field(d, "pointsBreakdown"));
      ObjOf(Field(ApplyFields(d, AwardFields(others, bucket, delta)), "pointsBreakdown"))
      == prev[bucket := Num(NumOf(Field(prev, bucket)) + delta)]
  {
    var d2 := ApplyFields(d, AwardFields(others, bucket, delta));
    var prev := ObjOf(Field(d, "pointsBreakdown"));
    var nb := ApplyOps(prev, map[bucket := Increment(delta)]);
    assert ObjOf(Field(d2, "pointsBreakdown")) == nb;
    assert nb == prev[bucket := Num(NumOf(Field(prev, bucket)) + delta)];
  }

  /** An award also grows its own bucket by the same amount. */
  lemma AwardBucket(d: Doc, others: map<string, FieldWrite>, bucket: string, delta: int)
    ensures NumOf(Field(ObjOf(Field(ApplyFields(d, AwardFields(others, bucket, delta)), "pointsBreakdown")), bucket))
         == NumOf(Field(ObjOf(Field(d, "pointsBreakdown")), bucket)) + delta
  {
    var d2 := ApplyFields(d, AwardFields(others, bucket, delta));
    var prev := ObjOf(Field(d, "pointsBreakdown"));
    assert ObjOf(Field(d2, "pointsBreakdown")) == ApplyOps(prev, map[bucket := Increment(delta)]);
  }

  /** An award leaves every other bucket of the breakdown as it was. */
  lemma AwardOtherBucket(d: Doc, others: map<string, FieldWrite>, bucket: string, delta: int, b: string)
    requires b != bucket
    ensures Field(ObjOf(Field(ApplyFields(d, AwardFields(others, bucket, delta)), "pointsBreakdown")), b)
         == Field(ObjOf(Field(d, "pointsBreakdown")), b)
  {
    var d2 := ApplyFields(d, AwardFields(others, bucket, delta));
    var prev := ObjOf(Field(d, "pointsBreakdown"));
    assert ObjOf(Field(d2, "pointsBreakdown")) == ApplyOps(prev, map[bucket := Increment(delta)]);
  }
}
