/**
 * The hosted document store, seen through the calls the pages make on it.
 * A document is a map from field names to values; the store maps document
 * paths (sequences of path segments, `users/{uid}/carts/{id}` is
 * `["users", uid, "carts", id]`) to documents.
 */
module DocStore {
  import opened Wrappers

  /** A stored field value. Numbers are integers: prices are in paise, times in epoch milliseconds. */
  datatype Value =
    | Null
    | Bool(b: bool)
    | Num(n: int)
    | Str(s: string)
    | List(elems: seq<Value>)
    | Obj(fields: map<string, Value>)

  type Doc = map<string, Value>

  type Path = seq<string>

  /** A nullable string field written as `null` or as the string. */
  function NullableStr(o: Option<string>): (v: Value)
    ensures v == Null <==> o.None?
    ensures o.Some? ==> v == Str(o.value)
  {
    if o.Some? then Str(o.value) else Null
  }

  /** The document at `p`, or the empty document when there is none. */
  function Existing(docs: map<Path, Doc>, p: Path): Doc
  {
    if p in docs then docs[p] else map[]
  }

  /** What a document subscription delivers once loaded: the document's data, or `None` when it does not exist. */
  function LoadedDoc(docs: map<Path, Doc>, p: Path): (d: Option<Doc>)
    ensures d.Some? <==> p in docs
    ensures d.Some? ==> d.value == docs[p]
  {
    if p in docs then Some(docs[p]) else None
  }

  /** A merge write: the listed fields are overwritten, every other field keeps its value. */
  function Merge(base: Doc, fields: Doc): (r: Doc)
    ensures r.Keys == base.Keys + fields.Keys
    ensures forall k :: k in fields ==> r[k] == fields[k]
    ensures forall k :: k in base && k !in fields ==> r[k] == base[k]
  {
    base + fields
  }

  /** A merge of the same fields twice is the merge once. */
  lemma MergeIdempotent(base: Doc, fields: Doc)
    ensures Merge(Merge(base, fields), fields) == Merge(base, fields)
  {
  }

  // The collections the application uses.
  function UserPath(uid: string): Path { ["users", uid] }
  function AdminRolePath(uid: string): Path { ["roles_admin", uid] }
  function CartItemPath(uid: string, itemId: string): Path { ["users", uid, "carts", itemId] }
  function OrdersCollection(uid: string): Path { ["users", uid, "orders"] }
  function GamesCollection(): Path { ["games"] }
  function GamePath(id: string): Path { GamesCollection() + [id] }
  function PaymentConfigPath(): Path { ["payment_qr", "current"] }

  /** One write of a batch. */
  datatype Write = SetDoc(path: Path, doc: Doc) | DeleteDoc(path: Path)

  function ApplyWrite(docs: map<Path, Doc>, w: Write): map<Path, Doc>
  {
    match w
    case SetDoc(p, d) => docs[p := d]
    case DeleteDoc(p) => docs - {p}
  }

  /** The writes of a batch, applied in the order they were added. */
  function ApplyBatch(docs: map<Path, Doc>, batch: seq<Write>): map<Path, Doc>
    decreases |batch|
  {
    if |batch| == 0 then docs else ApplyBatch(ApplyWrite(docs, batch[0]), batch[1..])
  }

  /** The paths a batch deletes. */
  function DeletedPaths(batch: seq<Write>): set<Path>
  {
    set i | 0 <= i < |batch| && batch[i].DeleteDoc? :: batch[i].path
  }

  /** A batch of deletes removes exactly its paths and leaves every other document as it was. */
  lemma {:induction false} ApplyDeletes(docs: map<Path, Doc>, batch: seq<Write>)
    requires forall i :: 0 <= i < |batch| ==> batch[i].DeleteDoc?
    ensures ApplyBatch(docs, batch) == docs - DeletedPaths(batch)
    decreases |batch|
  {
    if |batch| > 0 {
      var rest := batch[1..];
      ApplyDeletes(docs - {batch[0].path}, rest);
      assert DeletedPaths(batch) == {batch[0].path} + DeletedPaths(rest) by {
        forall p | p in DeletedPaths(batch) ensures p in {batch[0].path} + DeletedPaths(rest) {
          var i :| 0 <= i < |batch| && batch[i].DeleteDoc? && batch[i].path == p;
          if i > 0 { assert rest[i - 1] == batch[i]; }
        }
        forall p | p in DeletedPaths(rest) ensures p in DeletedPaths(batch) {
          var i :| 0 <= i < |rest| && rest[i].DeleteDoc? && rest[i].path == p;
          assert batch[i + 1] == rest[i];
        }
      }
    }
  }

  /** Every finite set of strings leaves out all strings from some length on. */
  lemma {:induction false} LengthBound(ids: set<string>) returns (n: nat)
    ensures forall s :: s in ids ==> |s| < n
    decreases |ids|
  {
    if ids == {} {
      n := 0;
    } else {
      var x :| x in ids;
      var m := LengthBound(ids - {x});
      n := if m <= |x| then |x| + 1 else m;
    }
  }

  /** A collection always has an unused document id. */
  lemma FreshIdExists(keys: set<Path>, coll: Path)
    ensures exists id :: coll + [id] !in keys
  {
    var taken := set p | p in keys && |p| > 0 :: p[|p| - 1];
    var n := LengthBound(taken);
    var id := seq(n, _ => 'x');
    var p := coll + [id];
    assert p[|p| - 1] == id;
    assert p !in keys;
  }

  /**
   * The store client. Every write the pages make goes through one of these
   * methods; the non-blocking helpers are these same writes with no outcome
   * reported back to the caller.
   */
  class Store {
    var docs: map<Path, Doc>

    constructor (initial: map<Path, Doc>)
      ensures docs == initial
    {
      docs := initial;
    }

    /** Whole-document replace (`setDoc` without merge, `batch.set`). */
    method Set(p: Path, d: Doc)
      modifies this
      ensures docs == old(docs)[p := d]
    {
      docs := docs[p := d];
    }

    /** `setDoc(ref, fields, { merge: true })`: creates the document if needed. */
    method SetMerge(p: Path, fields: Doc)
      modifies this
      ensures docs == old(docs)[p := Merge(Existing(old(docs), p), fields)]
    {
      docs := docs[p := Merge(Existing(docs, p), fields)];
    }

    /** `updateDoc`: the listed fields are overwritten, the rest kept. */
    method Update(p: Path, fields: Doc)
      modifies this
      ensures docs == old(docs)[p := Merge(Existing(old(docs), p), fields)]
    {
      docs := docs[p := Merge(Existing(docs, p), fields)];
    }

    /** `deleteDoc`. */
    method Delete(p: Path)
      modifies this
      ensures docs == old(docs) - {p}
    {
      docs := docs - {p};
    }

    /** `doc(collectionRef)`: an id under `coll` that no document uses yet. */
    method NewId(coll: Path) returns (id: string)
      ensures coll + [id] !in docs
    {
      FreshIdExists(docs.Keys, coll);
      id :| coll + [id] !in docs;
    }

    /** `addDoc`: a new document at a fresh id under `coll`. */
    method Add(coll: Path, d: Doc) returns (id: string)
      modifies this
      ensures coll + [id] !in old(docs)
      ensures docs == old(docs)[coll + [id] := d]
    {
      id := NewId(coll);
      docs := docs[coll + [id] := d];
    }

    /** `batch.commit()`: either every write applies, in order, or none does. */
    method Commit(batch: seq<Write>) returns (ok: bool)
      modifies this
      ensures docs == if ok then ApplyBatch(old(docs), batch) else old(docs)
    {
      ok :| true;
      if ok {
        docs := ApplyBatch(docs, batch);
      }
    }
  }
}
