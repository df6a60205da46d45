/**
 * The generic document CRUD helper: reading a document by id, merging update data into a
 * document field by field, and turning paging arguments into skip/limit query options.
 * The database engine is not modelled: a collection is a map from id to document, and the
 * clock value written to `updated_at` is the parameter `now`.
 */
module CrudBase {
  import opened Wrappers

  /** The field refreshed with the current time on every update. */
  const UpdatedAt: string := "updated_at"

  /** The default page size of `find_many`. */
  const DefaultMultiMax: int := 7

  // ---------------------------------------------------------------------------------------
  // Reading

  /** A read either finds the document or raises `DocumentNotFound(id)`. */
  datatype ReadResult<D> = Found(document: D) | DocumentNotFound(id: int)

  /** `read(id)`: the document stored under `id`, or `DocumentNotFound(id)`. */
  function Read<D>(collection: map<int, D>, id: int): (r: ReadResult<D>)
    ensures r.Found? <==> id in collection
    ensures r.Found? ==> r.document == collection[id]
    ensures r.DocumentNotFound? ==> r.id == id
  {
    if id in collection then Found(collection[id]) else DocumentNotFound(id)
  }

  // ---------------------------------------------------------------------------------------
  // Updating

  /**
   * The value a field of the document holds after an update. With `patch`, a field whose update
   * value is missing or `None` is skipped altogether; otherwise a supplied value overwrites the
   * field, and `updated_at` is then set to `now` whatever was supplied.
   */
  function MergedField<V>(field: string, current: Option<V>, updateData: map<string, Option<V>>,
                          patch: bool, now: V): Option<V>
  {
    if patch && (field !in updateData || updateData[field].None?) then current
    else if field == UpdatedAt then Some(now)
    else if field in updateData then updateData[field]
    else current
  }

  /** The document after the update: every field merged; keys of the update data that are not fields are ignored. */
  function Merged<V>(fields: map<string, Option<V>>, updateData: map<string, Option<V>>, patch: bool, now: V)
    : (r: map<string, Option<V>>)
    ensures r.Keys == fields.Keys
  {
    map f | f in fields :: MergedField(f, fields[f], updateData, patch, now)
  }

  /** A document whose fields `setattr` changes in place. */
  class Document<V> {
    var fields: map<string, Option<V>>

    constructor (fields: map<string, Option<V>>)
      ensures this.fields == fields
    {
      this.fields := fields;
    }
  }

  /** `names` lists each key of `fields` exactly once (the keys of the encoded document, in order). */
  predicate ListsFields<V>(names: seq<string>, fields: map<string, Option<V>>) {
    && (forall i :: 0 <= i < |names| ==> names[i] in fields)
    && (forall f :: f in fields ==> f in names)
    && (forall i, j :: 0 <= i < j < |names| ==> names[i] != names[j])
  }

  /** One turn of `update`'s loop: the `setattr` calls for a single field of the document. */
  method UpdateField<V>(document: Document<V>, field: string, updateData: map<string, Option<V>>, patch: bool, now: V)
    requires field in document.fields
    modifies document
    ensures document.fields == old(document.fields)[field := MergedField(field, old(document.fields)[field], updateData, patch, now)]
  {
    if patch && (field !in updateData || updateData[field].None?) {
      return;
    }
    if field in updateData {
      document.fields := document.fields[field := updateData[field]];
    }
    if field == UpdatedAt {
      document.fields := document.fields[field := Some(now)];
    }
  }

  /**
   * `update(db_obj, obj_in, patch=...)`: walks the document's fields in order and sets each one
   * as `MergedField` says. Saving the document is not modelled.
   */
  method Update<V>(document: Document<V>, names: seq<string>, updateData: map<string, Option<V>>, patch: bool, now: V)
    requires ListsFields(names, document.fields)
    modifies document
    ensures document.fields == Merged(old(document.fields), updateData, patch, now)
  {
    ghost var original := document.fields;
    for i := 0 to |names|
      invariant document.fields.Keys == original.Keys
      invariant forall j :: 0 <= j < i ==>
                  document.fields[names[j]] == MergedField(names[j], original[names[j]], updateData, patch, now)
      invariant forall j :: i <= j < |names| ==> document.fields[names[j]] == original[names[j]]
    {
      UpdateField(document, names[i], updateData, patch, now);
    }
    forall f | f in original
      ensures document.fields[f] == Merged(original, updateData, patch, now)[f]
    {
      assert f in names;
    }
  }

  /** Without `patch`, every field named in the update data takes the supplied value, even `None`. */
  lemma PutOverwrites<V>(fields: map<string, Option<V>>, updateData: map<string, Option<V>>, now: V, f: string)
    requires f in fields && f in updateData && f != UpdatedAt
    ensures Merged(fields, updateData, false, now)[f] == updateData[f]
  {
  }

  /** With `patch`, a field whose update value is missing or `None` keeps its value. */
  lemma PatchSkipsMissing<V>(fields: map<string, Option<V>>, updateData: map<string, Option<V>>, now: V, f: string)
    requires f in fields && (f !in updateData || updateData[f].None?)
    ensures Merged(fields, updateData, true, now)[f] == fields[f]
  {
  }

  /** With `patch`, a field with a non-`None` update value takes it (`updated_at` takes `now`). */
  lemma PatchSetsSupplied<V>(fields: map<string, Option<V>>, updateData: map<string, Option<V>>, now: V, f: string)
    requires f in fields && f in updateData && updateData[f].Some?
    ensures Merged(fields, updateData, true, now)[f] == if f == UpdatedAt then Some(now) else updateData[f]
  {
  }

  /**
   * `updated_at` becomes `now` on every update without `patch`, whatever was supplied; with
   * `patch`, only when the update data supplies a non-`None` value for it.
   */
  lemma UpdatedAtRefresh<V>(fields: map<string, Option<V>>, updateData: map<string, Option<V>>, patch: bool, now: V)
    requires UpdatedAt in fields
    ensures var r := Merged(fields, updateData, patch, now)[UpdatedAt];
            && (!patch ==> r == Some(now))
            && (patch ==> r == if UpdatedAt in updateData && updateData[UpdatedAt].Some? then Some(now)
                               else fields[UpdatedAt])
  {
  }

  /** Fields the update data does not name keep their value, except `updated_at`. */
  lemma UnnamedFieldsKept<V>(fields: map<string, Option<V>>, updateData: map<string, Option<V>>, patch: bool, now: V, f: string)
    requires f in fields && f !in updateData && f != UpdatedAt
    ensures Merged(fields, updateData, patch, now)[f] == fields[f]
  {
  }

  /** Applying the same update twice is applying it once. */
  lemma MergeIdempotent<V>(fields: map<string, Option<V>>, updateData: map<string, Option<V>>, patch: bool, now: V)
    ensures Merged(Merged(fields, updateData, patch, now), updateData, patch, now) == Merged(fields, updateData, patch, now)
  {
    var once := Merged(fields, updateData, patch, now);
    var twice := Merged(once, updateData, patch, now);
    assert forall f :: f in twice ==> twice[f] == once[f];
  }

  /**
   * When the update data holds no `None` and supplies `updated_at` (or the document has no such
   * field), a patch and a full update leave the same document.
   */
  lemma PatchAgreesWithPut<V>(fields: map<string, Option<V>>, updateData: map<string, Option<V>>, now: V)
    requires forall f :: f in updateData ==> updateData[f].Some?
    requires UpdatedAt in fields ==> UpdatedAt in updateData
    ensures Merged(fields, updateData, true, now) == Merged(fields, updateData, false, now)
  {
    var p, q := Merged(fields, updateData, true, now), Merged(fields, updateData, false, now);
    assert forall f :: f in p ==> p[f] == q[f];
  }

  // ---------------------------------------------------------------------------------------
  // Paging

  /** The keyword arguments `find_many` passes to the engine's `find`, or the `TypeError` raised computing them. */
  datatype FindArgs<S> = FindArgs(skip: Option<int>, limit: Option<int>, sort: Option<S>) | TypeError

  /** Python truthiness of an optional integer: neither `None` nor 0. */
  predicate Truthy(x: Option<int>) {
    x.Some? && x.value != 0
  }

  /**
   * `find_many(page=..., limit=..., sort=...)`: a falsy limit is replaced by `multi_max`; a truthy
   * page asks for the page-th window of that size; without a page neither skip nor limit is
   * passed. A page with no limit at all (`multi_max` set to `None`) raises.
   */
  function FindMany<S>(multiMax: Option<int>, page: Option<int>, limit: Option<int>, sort: Option<S>): (args: FindArgs<S>)
    ensures var size := if Truthy(limit) then limit else multiMax;
            && (Truthy(page) && size.None? <==> args.TypeError?)
            && (Truthy(page) && size.Some? ==>
                  args == FindArgs(Some((page.value - 1) * size.value), Some(size.value), sort))
            && (!Truthy(page) ==> args == FindArgs(None, None, sort))
  {
    var size := if Truthy(limit) then limit else multiMax;
    if !Truthy(page) then FindArgs(None, None, sort)
    else if size.None? then TypeError
    else FindArgs(Some((page.value - 1) * size.value), Some(size.value), sort)
  }

  /** Position `k` lies in the window of `limit` documents from `skip` on. */
  predicate InWindow(k: int, skip: int, limit: int) {
    skip <= k < skip + limit
  }

  /**
   * With a positive page size, `find_many` asks for consecutive windows on pages 1, 2, 3, ...:
   * page 1 starts at 0, page `p + 1` starts where page `p` ends, with the same size, and the
   * two windows share no position.
   */
  lemma PagesTile<S>(multiMax: Option<int>, limit: Option<int>, sort: Option<S>, p: int, k: int)
    requires p >= 1
    requires var size := if Truthy(limit) then limit else multiMax;
             size.Some? && size.value > 0
    ensures FindMany(multiMax, Some(1), limit, sort).skip == Some(0)
    ensures var page, next := FindMany(multiMax, Some(p), limit, sort), FindMany(multiMax, Some(p + 1), limit, sort);
            && page.FindArgs? && next.FindArgs?
            && page.skip.Some? && page.limit.Some? && next.skip.Some?
            && next.limit == page.limit
            && next.skip.value == page.skip.value + page.limit.value
            && !(InWindow(k, page.skip.value, page.limit.value) && InWindow(k, next.skip.value, next.limit.value))
  {
    var size := if Truthy(limit) then limit.value else multiMax.value;
    assert p * size == (p - 1) * size + size;
  }
}
