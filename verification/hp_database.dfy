/**
 * The persistence layer of the collaboration server: a documents table keyed
 * by slug, an append-only log of incremental updates, and at most one full
 * snapshot per document, with the operations the server calls on them.
 * Payloads are stored as JSON arrays of numbers, as the source does.
 */
module HpDatabase {
  import opened Wrappers
  import opened Crdt
  import opened Ascii

  /** The title a lazily created document row starts with. */
  const DefaultTitle: string := "Untitled"

  // ---------------------------------------------------------------------
  // Payload codec: `toJSON` is `Array.from(u8)`, `fromJSON` is
  // `new Uint8Array(arr)`, whose element conversion reduces modulo 2^8.
  // ---------------------------------------------------------------------

  function ToJson(b: Bytes): (a: seq<int>)
    ensures |a| == |b|
    ensures forall i :: 0 <= i < |a| ==> 0 <= a[i] < 256 && a[i] == b[i] as int
  {
    seq(|b|, i requires 0 <= i < |b| => b[i] as int)
  }

  function FromJson(a: seq<int>): (b: Bytes)
    ensures |b| == |a|
    ensures forall i :: 0 <= i < |a| ==> b[i] as int == a[i] % 256
  {
    seq(|a|, i requires 0 <= i < |a| => (a[i] % 256) as uint8)
  }

  /** Every byte string survives a trip through the JSON column. */
  lemma JsonRoundTrip(b: Bytes)
    ensures FromJson(ToJson(b)) == b
  {
    var a := ToJson(b);
    forall i | 0 <= i < |b| ensures FromJson(a)[i] == b[i] {
      assert a[i] % 256 == a[i];
    }
  }

  /** And every array of numbers in 0..255 survives the opposite trip. */
  lemma JsonRoundTripBack(a: seq<int>)
    requires forall i :: 0 <= i < |a| ==> 0 <= a[i] < 256
    ensures ToJson(FromJson(a)) == a
  {
  }

  // ---------------------------------------------------------------------
  // Tables
  // ---------------------------------------------------------------------

  /** A row of `documents`; its slug is the key of the map that holds it. */
  datatype DocRow = DocRow(id: string, title: string)

  /** A row of `doc_updates`; rows are kept in `created_at` order. */
  datatype UpdateRow = UpdateRow(documentId: string, update: seq<int>)

  /** The contents of the three tables. */
  datatype Tables = Tables(documents: map<string, DocRow>, snapshots: map<string, seq<int>>, updates: seq<UpdateRow>)

  /** One write the store performed, in the order it performed them. */
  datatype Write =
    | InsertDocument(slug: string, id: string)
    | InsertUpdate(documentId: string)
    | UpsertSnapshot(documentId: string)
    | DeleteUpdates(documentId: string)
    | SetTitle(slug: string, title: string)

  /**
   * `appendUpdate`'s test for "this is already a document id": 36
   * characters, one of them '-'.
   */
  predicate IsIdShaped(s: string): (r: bool)
    ensures r <==> |s| == 36 && exists i :: 0 <= i < |s| && s[i] == '-'
  {
    |s| == 36 && '-' in s
  }

  /** Lower-casing does not change whether a string is id-shaped. */
  lemma IdShapeIgnoresCase(s: string)
    ensures IsIdShaped(s) <==> IsIdShaped(Lower(s))
  {
    LowerKeepsDash(s);
  }

  /**
   * A usable `randomUUID()` result for the table `docs`: id-shaped, in the
   * lower case the generator produces, and not yet any document's id.
   */
  predicate FreshId(docs: map<string, DocRow>, freshId: string) {
    IsIdShaped(freshId) && NoUpper(freshId) && freshId !in IdsOf(docs)
  }

  /** The documents table after `ensureDocumentBySlug(slug)` with `freshId` as the new UUID. */
  function EnsuredDocs(docs: map<string, DocRow>, slug: string, freshId: string): (r: map<string, DocRow>)
    ensures slug in r
    ensures slug in docs ==> r == docs
    ensures slug !in docs ==> r[slug] == DocRow(freshId, DefaultTitle)
  {
    if slug in docs then docs else docs[slug := DocRow(freshId, DefaultTitle)]
  }

  /** `ensureDocumentBySlug` adds at most the row of `slug` and leaves every existing row as it was. */
  lemma EnsureKeepsOtherRows(docs: map<string, DocRow>, slug: string, freshId: string)
    ensures EnsuredDocs(docs, slug, freshId).Keys == docs.Keys + {slug}
    ensures forall s :: s in docs ==> EnsuredDocs(docs, slug, freshId)[s] == docs[s]
  {
  }

  /** The ids of the rows of a documents table. */
  function IdsOf(docs: map<string, DocRow>): (ids: set<string>)
    ensures forall s :: s in docs ==> docs[s].id in ids
  {
    set s | s in docs :: docs[s].id
  }

  /**
   * The document id `appendUpdate(slugOrId)` inserts under; an id-shaped
   * argument is stored as the `uuid` column reads it, in lower case.
   */
  function AppendTarget(docs: map<string, DocRow>, slugOrId: string, freshId: string): string {
    if IsIdShaped(slugOrId) then Lower(slugOrId) else EnsuredDocs(docs, slugOrId, freshId)[slugOrId].id
  }

  /** The documents table after `appendUpdate(slugOrId)` resolved its target. */
  function AppendDocs(docs: map<string, DocRow>, slugOrId: string, freshId: string): map<string, DocRow> {
    if IsIdShaped(slugOrId) then docs else EnsuredDocs(docs, slugOrId, freshId)
  }

  /**
   * Whether the insert of `appendUpdate(slugOrId)` passes the foreign key on
   * `document_id`, which compares uuids regardless of case.
   */
  predicate AppendAccepted(docs: map<string, DocRow>, slugOrId: string) {
    !IsIdShaped(slugOrId) || Lower(slugOrId) in IdsOf(docs)
  }

  /** The rows `appendUpdate(slugOrId, update)` adds to the log: one, or none when rejected. */
  function AppendRows(docs: map<string, DocRow>, slugOrId: string, freshId: string, update: Bytes): seq<UpdateRow> {
    if AppendAccepted(docs, slugOrId) then [UpdateRow(AppendTarget(docs, slugOrId, freshId), ToJson(update))] else []
  }

  /** The writes `appendUpdate(slugOrId)` performs. */
  function AppendWrites(docs: map<string, DocRow>, slugOrId: string, freshId: string): seq<Write> {
    (if IsIdShaped(slugOrId) || slugOrId in docs then [] else [InsertDocument(slugOrId, freshId)])
    + (if AppendAccepted(docs, slugOrId) then [InsertUpdate(AppendTarget(docs, slugOrId, freshId))] else [])
  }

  /**
   * `appendUpdate` adds exactly one payload, `update`, at the end of the log
   * of the document it resolves to, and leaves the log of every other
   * document as it was; a rejected append changes no log.
   */
  lemma AppendExtendsOneLog(docs: map<string, DocRow>, rows: seq<UpdateRow>, slugOrId: string, freshId: string, update: Bytes, docId: string)
    ensures LogOf(rows + AppendRows(docs, slugOrId, freshId, update), docId)
         == LogOf(rows, docId)
            + if AppendAccepted(docs, slugOrId) && docId == AppendTarget(docs, slugOrId, freshId) then [ToJson(update)] else []
  {
    if AppendAccepted(docs, slugOrId) {
      LogOfAppend(rows, UpdateRow(AppendTarget(docs, slugOrId, freshId), ToJson(update)), docId);
    } else {
      assert rows + AppendRows(docs, slugOrId, freshId, update) == rows;
    }
  }

  /** A slug that looks like an id is never resolved: unless it is some document's id, its update is rejected. */
  lemma IdShapedSlugIsNotResolved(docs: map<string, DocRow>, slug: string, freshId: string, update: Bytes)
    requires IsIdShaped(slug) && Lower(slug) !in IdsOf(docs)
    ensures AppendRows(docs, slug, freshId, update) == [] && AppendDocs(docs, slug, freshId) == docs
  {
  }

  /** An id given in upper case is appended exactly as its lower-case spelling would be. */
  lemma AppendIgnoresIdCase(docs: map<string, DocRow>, slugOrId: string, freshId: string, update: Bytes)
    requires IsIdShaped(slugOrId)
    ensures IsIdShaped(Lower(slugOrId))
    ensures AppendAccepted(docs, slugOrId) == AppendAccepted(docs, Lower(slugOrId))
    ensures AppendRows(docs, slugOrId, freshId, update) == AppendRows(docs, Lower(slugOrId), freshId, update)
  {
    IdShapeIgnoresCase(slugOrId);
    LowerIdempotent(slugOrId);
  }

  /** A second `ensureDocumentBySlug` for the same slug inserts nothing and finds the same id. */
  lemma EnsureTwice(docs: map<string, DocRow>, slug: string, id1: string, id2: string)
    ensures EnsuredDocs(EnsuredDocs(docs, slug, id1), slug, id2) == EnsuredDocs(docs, slug, id1)
    ensures EnsuredDocs(EnsuredDocs(docs, slug, id1), slug, id2)[slug].id
         == (if slug in docs then docs[slug].id else id1)
  {
  }

  /** The payloads logged for `docId`, oldest first (`ORDER BY created_at`). */
  function LogOf(rows: seq<UpdateRow>, docId: string): (log: seq<seq<int>>)
    ensures |log| <= |rows|
  {
    if rows == [] then []
    else (if rows[0].documentId == docId then [rows[0].update] else []) + LogOf(rows[1..], docId)
  }

  /** The update table after `DELETE FROM doc_updates WHERE document_id = docId`. */
  function Without(rows: seq<UpdateRow>, docId: string): (r: seq<UpdateRow>)
    ensures forall i :: 0 <= i < |r| ==> r[i].documentId != docId && r[i] in rows
  {
    if rows == [] then []
    else (if rows[0].documentId == docId then [] else [rows[0]]) + Without(rows[1..], docId)
  }

  /** Appending a row extends the log of its document by one entry and no other log. */
  lemma {:induction false} LogOfAppend(rows: seq<UpdateRow>, row: UpdateRow, docId: string)
    ensures LogOf(rows + [row], docId)
         == LogOf(rows, docId) + (if row.documentId == docId then [row.update] else [])
  {
    if rows == [] {
      assert LogOf([row], docId) == (if row.documentId == docId then [row.update] else []) + LogOf([], docId);
    } else {
      assert (rows + [row])[1..] == rows[1..] + [row];
      LogOfAppend(rows[1..], row, docId);
    }
  }

  /** Pruning one document empties its log and leaves every other log as it was. */
  lemma {:induction false} LogOfWithout(rows: seq<UpdateRow>, pruned: string, docId: string)
    ensures LogOf(Without(rows, pruned), docId) == if docId == pruned then [] else LogOf(rows, docId)
  {
    if rows != [] {
      LogOfWithout(rows[1..], pruned, docId);
      var head := if rows[0].documentId == pruned then [] else [rows[0]];
      assert Without(rows, pruned) == head + Without(rows[1..], pruned);
      if head == [] {
        assert Without(rows, pruned) == Without(rows[1..], pruned);
      } else {
        assert (head + Without(rows[1..], pruned))[1..] == Without(rows[1..], pruned);
      }
    }
  }

  /** The logged payloads of one document, decoded. */
  function DecodeAll(log: seq<seq<int>>): (us: seq<Bytes>)
    ensures |us| == |log|
    ensures forall i :: 0 <= i < |log| ==> us[i] == FromJson(log[i])
  {
    seq(|log|, i requires 0 <= i < |log| => FromJson(log[i]))
  }

  /**
   * What `fetchSnapshotBySlug` answers for the document `docId`: the stored
   * snapshot when there is one, else the replay of the whole log when it is
   * not empty, else null.
   */
  function Load<S>(e: Engine<S>, snapshots: map<string, seq<int>>, rows: seq<UpdateRow>, docId: string): (r: Option<Bytes>)
    ensures r.None? <==> docId !in snapshots && forall i :: 0 <= i < |rows| ==> rows[i].documentId != docId
    ensures docId in snapshots ==> r == Some(FromJson(snapshots[docId]))
    ensures docId !in snapshots && r.Some? ==> r == Some(Rebuild(e, DecodeAll(LogOf(rows, docId))))
  {
    LogOfEmptyIff(rows, docId);
    if docId in snapshots then Some(FromJson(snapshots[docId]))
    else if LogOf(rows, docId) == [] then None
    else Some(Rebuild(e, DecodeAll(LogOf(rows, docId))))
  }

  lemma {:induction false} LogOfEmptyIff(rows: seq<UpdateRow>, docId: string)
    ensures LogOf(rows, docId) == [] <==> forall i :: 0 <= i < |rows| ==> rows[i].documentId != docId
  {
    if rows != [] {
      LogOfEmptyIff(rows[1..], docId);
      assert forall i :: 1 <= i < |rows| ==> rows[i] == rows[1..][i - 1];
    }
  }

  /** Once a snapshot exists, the log (any log) does not influence what is loaded. */
  lemma LoadPrefersSnapshot<S>(e: Engine<S>, snapshots: map<string, seq<int>>, rows: seq<UpdateRow>, rows': seq<UpdateRow>, docId: string)
    requires docId in snapshots
    ensures Load(e, snapshots, rows, docId) == Load(e, snapshots, rows', docId)
    ensures Load(e, snapshots, rows, docId) == Some(FromJson(snapshots[docId]))
  {
  }

  /** Without a snapshot, appending update `u` to the log makes the load replay `u` last. */
  lemma LoadAfterAppend<S>(e: Engine<S>, snapshots: map<string, seq<int>>, rows: seq<UpdateRow>, docId: string, u: Bytes)
    requires docId !in snapshots
    ensures Load(e, snapshots, rows + [UpdateRow(docId, ToJson(u))], docId)
         == Some(e.encode(e.apply(Fold(e, e.init, DecodeAll(LogOf(rows, docId))), u)))
  {
    var log := LogOf(rows, docId);
    LogOfAppend(rows, UpdateRow(docId, ToJson(u)), docId);
    JsonRoundTrip(u);
    assert DecodeAll(log + [ToJson(u)]) == DecodeAll(log) + [u];
    FoldSnoc(e, e.init, DecodeAll(log), u);
  }

  /** Writes to the log or snapshot of another document do not change what `docId` loads. */
  lemma LoadIgnoresOtherDocuments<S>(e: Engine<S>, snapshots: map<string, seq<int>>, rows: seq<UpdateRow>, docId: string, other: string, u: seq<int>, snap: seq<int>)
    requires other != docId
    ensures Load(e, snapshots, rows + [UpdateRow(other, u)], docId) == Load(e, snapshots, rows, docId)
    ensures Load(e, snapshots, Without(rows, other), docId) == Load(e, snapshots, rows, docId)
    ensures Load(e, snapshots[other := snap], rows, docId) == Load(e, snapshots, rows, docId)
  {
    LogOfAppend(rows, UpdateRow(other, u), docId);
    assert LogOf(rows + [UpdateRow(other, u)], docId) == LogOf(rows, docId) + [];
    assert LogOf(rows + [UpdateRow(other, u)], docId) == LogOf(rows, docId);
    LogOfWithout(rows, other, docId);
  }

  /**
   * Compaction: storing the live document `d` as the snapshot and then
   * deleting the log makes every later load return exactly `encode(d)`,
   * whatever is appended afterwards; the prune is not needed for that
   * (a crash between store and prune loses nothing).
   */
  lemma LoadAfterStore<S>(e: Engine<S>, snapshots: map<string, seq<int>>, rows: seq<UpdateRow>, docId: string, d: S, later: seq<UpdateRow>)
    ensures Load(e, snapshots[docId := ToJson(e.encode(d))], Without(rows, docId) + later, docId) == Some(e.encode(d))
    ensures Load(e, snapshots[docId := ToJson(e.encode(d))], rows + later, docId) == Some(e.encode(d))
  {
    JsonRoundTrip(e.encode(d));
  }

  /**
   * When the live document is the replay of the log (the replica has seen
   * exactly the logged updates), compacting it does not change what a load
   * of that document returns.
   */
  lemma CompactionPreservesLoad<S>(e: Engine<S>, snapshots: map<string, seq<int>>, rows: seq<UpdateRow>, docId: string, d: S)
    requires docId !in snapshots && LogOf(rows, docId) != []
    requires d == Fold(e, e.init, DecodeAll(LogOf(rows, docId)))
    ensures Load(e, snapshots[docId := ToJson(e.encode(d))], Without(rows, docId), docId)
         == Load(e, snapshots, rows, docId)
  {
    JsonRoundTrip(e.encode(d));
  }

  /** The rebuild loop: a fresh engine document with every logged payload applied in order. */
  method Replay<S>(e: Engine<S>, upd: seq<seq<int>>) returns (ydoc: S)
    ensures ydoc == Fold(e, e.init, DecodeAll(upd))
  {
    ydoc := e.init;
    var i := 0;
    while i < |upd|
      invariant 0 <= i <= |upd|
      invariant ydoc == Fold(e, e.init, DecodeAll(upd[..i]))
    {
      assert DecodeAll(upd[..i + 1]) == DecodeAll(upd[..i]) + [FromJson(upd[i])];
      FoldSnoc(e, e.init, DecodeAll(upd[..i]), FromJson(upd[i]));
      ydoc := e.apply(ydoc, FromJson(upd[i]));
      i := i + 1;
    }
    assert upd[..i] == upd;
  }

  /** Document ids are id-shaped, lower case and unique (the slug is the map's key). */
  ghost predicate IdsWellFormed(docs: map<string, DocRow>) {
    && (forall s :: s in docs ==> IsIdShaped(docs[s].id) && NoUpper(docs[s].id))
    && (forall s1, s2 :: s1 in docs && s2 in docs && docs[s1].id == docs[s2].id ==> s1 == s2)
  }

  /** The foreign keys of `doc_updates` and `doc_snapshots`: every row names a document in `ids`. */
  ghost predicate KeysExist(ids: set<string>, rows: seq<UpdateRow>, snapshots: map<string, seq<int>>) {
    && (forall i :: 0 <= i < |rows| ==> rows[i].documentId in ids)
    && (forall d :: d in snapshots ==> d in ids)
  }

  /** Inserting a document under a fresh id keeps the ids well formed and every existing id. */
  lemma EnsuredDocsWellFormed(docs: map<string, DocRow>, slug: string, freshId: string)
    requires IdsWellFormed(docs)
    requires slug !in docs ==> FreshId(docs, freshId)
    ensures IdsWellFormed(EnsuredDocs(docs, slug, freshId))
    ensures IdsOf(EnsuredDocs(docs, slug, freshId)) == IdsOf(docs) + {EnsuredDocs(docs, slug, freshId)[slug].id}
  {
    if slug !in docs {
      var r := docs[slug := DocRow(freshId, DefaultTitle)];
      assert r == EnsuredDocs(docs, slug, freshId);
      forall x | x in IdsOf(r) ensures x in IdsOf(docs) + {freshId} {
        var s :| s in r && r[s].id == x;
        if s != slug { assert docs[s].id == x; }
      }
      forall x | x in IdsOf(docs) ensures x in IdsOf(r) {
        var s :| s in docs && docs[s].id == x;
        assert r[s].id == x;
      }
    }
  }

  /** The documents table after `UPDATE documents SET title = title WHERE slug = slug`. */
  function Retitled(docs: map<string, DocRow>, slug: string, title: string): map<string, DocRow> {
    if slug in docs then docs[slug := docs[slug].(title := title)] else docs
  }

  /** Changing a title changes no id. */
  lemma RetitledWellFormed(docs: map<string, DocRow>, slug: string, title: string)
    requires IdsWellFormed(docs) && slug in docs
    ensures IdsWellFormed(docs[slug := docs[slug].(title := title)])
    ensures IdsOf(docs[slug := docs[slug].(title := title)]) == IdsOf(docs)
  {
    var r := docs[slug := docs[slug].(title := title)];
    forall x | x in IdsOf(docs) ensures x in IdsOf(r) {
      var s :| s in docs && docs[s].id == x;
      assert r[s].id == x;
    }
  }

  /**
   * An append keeps the ids well formed and the foreign keys intact, and it
   * is accepted exactly when its target is a document's id afterwards.
   */
  lemma AppendKeepsValid(docs: map<string, DocRow>, rows: seq<UpdateRow>, snapshots: map<string, seq<int>>,
                         slugOrId: string, freshId: string, update: Bytes)
    requires IdsWellFormed(docs) && KeysExist(IdsOf(docs), rows, snapshots)
    requires !IsIdShaped(slugOrId) && slugOrId !in docs ==> FreshId(docs, freshId)
    ensures IdsWellFormed(AppendDocs(docs, slugOrId, freshId))
    ensures KeysExist(IdsOf(AppendDocs(docs, slugOrId, freshId)), rows + AppendRows(docs, slugOrId, freshId, update), snapshots)
    ensures AppendAccepted(docs, slugOrId) <==> AppendTarget(docs, slugOrId, freshId) in IdsOf(AppendDocs(docs, slugOrId, freshId))
  {
    if !IsIdShaped(slugOrId) {
      EnsuredDocsWellFormed(docs, slugOrId, freshId);
    }
    var ids, rows' := IdsOf(AppendDocs(docs, slugOrId, freshId)), rows + AppendRows(docs, slugOrId, freshId, update);
    assert IdsOf(docs) <= ids;
    forall i | 0 <= i < |rows'| ensures rows'[i].documentId in ids {
      if i < |rows| {
        assert rows'[i] == rows[i];
      }
    }
  }

  /**
   * The store. Slugs are unique (the key of `documents`); ids are unique,
   * UUID-shaped and lower case; every logged update and every snapshot
   * belongs to an existing document (the foreign keys of `doc_updates` and
   * `doc_snapshots`).
   */
  class Database {
    var documents: map<string, DocRow>
    var docUpdates: seq<UpdateRow>
    var docSnapshots: map<string, seq<int>>
    ghost var journal: seq<Write>

    ghost predicate Valid()
      reads this
    {
      IdsWellFormed(documents) && KeysExist(IdsOf(documents), docUpdates, docSnapshots)
    }

    /** What the tables hold. */
    function Contents(): Tables
      reads this
    {
      Tables(documents, docSnapshots, docUpdates)
    }

    /** The ids of all documents. */
    function DocIds(): (ids: set<string>)
      reads this
    {
      IdsOf(documents)
    }

    constructor ()
      ensures Valid()
      ensures documents == map[] && docUpdates == [] && docSnapshots == map[] && journal == []
    {
      documents, docUpdates, docSnapshots, journal := map[], [], map[], [];
    }

    /**
     * `ensureDocumentBySlug`: insert-if-absent. `freshId` is the UUID
     * `randomUUID()` would produce; it is used only when a row is inserted.
     */
    method EnsureDocumentBySlug(slug: string, freshId: string) returns (id: string)
      requires Valid()
      requires slug !in documents ==> FreshId(documents, freshId)
      modifies this
      ensures Valid()
      ensures documents == EnsuredDocs(old(documents), slug, freshId)
      ensures id == documents[slug].id && id in DocIds()
      ensures id == if slug in old(documents) then old(documents[slug].id) else freshId
      ensures docUpdates == old(docUpdates) && docSnapshots == old(docSnapshots)
      ensures journal == old(journal) + if slug in old(documents) then [] else [InsertDocument(slug, freshId)]
    {
      if slug in documents {
        id := documents[slug].id;
        return;
      }
      EnsuredDocsWellFormed(documents, slug, freshId);
      documents := documents[slug := DocRow(freshId, DefaultTitle)];
      journal := journal + [InsertDocument(slug, freshId)];
      id := freshId;
    }

    /**
     * `fetchSnapshotBySlug`: ensures the document exists, then answers its
     * snapshot, else replays its log through a fresh engine document, else null.
     */
    method FetchSnapshotBySlug<S>(e: Engine<S>, slug: string, freshId: string) returns (r: Option<Bytes>)
      requires Valid()
      requires slug !in documents ==> FreshId(documents, freshId)
      modifies this
      ensures Valid()
      ensures documents == EnsuredDocs(old(documents), slug, freshId)
      ensures docUpdates == old(docUpdates) && docSnapshots == old(docSnapshots)
      ensures journal == old(journal) + if slug in old(documents) then [] else [InsertDocument(slug, freshId)]
      ensures r == Load(e, docSnapshots, docUpdates, documents[slug].id)
    {
      var docId := EnsureDocumentBySlug(slug, freshId);
      if docId in docSnapshots {
        return Some(FromJson(docSnapshots[docId]));
      }
      var upd := LogOf(docUpdates, docId);
      if |upd| == 0 {
        return None;
      }
      var ydoc := Replay(e, upd);
      r := Some(e.encode(ydoc));
    }

    /**
     * `appendUpdate`: a 36-character string containing '-' is taken as a
     * document id (compared and stored in lower case, as the `uuid` column
     * reads it), anything else as a slug to resolve. The insert fails
     * (`ok == false`, nothing written) when the id is not a document's.
     */
    method AppendUpdate(slugOrId: string, update: Bytes, freshId: string) returns (ok: bool)
      requires Valid()
      requires !IsIdShaped(slugOrId) && slugOrId !in documents ==> FreshId(documents, freshId)
      modifies this
      ensures Valid()
      ensures ok == AppendAccepted(old(documents), slugOrId)
      ensures documents == AppendDocs(old(documents), slugOrId, freshId)
      ensures docSnapshots == old(docSnapshots)
      ensures docUpdates == old(docUpdates) + AppendRows(old(documents), slugOrId, freshId, update)
      ensures journal == old(journal) + AppendWrites(old(documents), slugOrId, freshId)
    {
      ghost var docs0, rows0 := documents, docUpdates;
      AppendKeepsValid(documents, docUpdates, docSnapshots, slugOrId, freshId, update);
      var docId;
      if IsIdShaped(slugOrId) {
        docId := Lower(slugOrId);
      } else {
        docId := EnsureDocumentBySlug(slugOrId, freshId);
      }
      assert docId == AppendTarget(docs0, slugOrId, freshId) && documents == AppendDocs(docs0, slugOrId, freshId);
      // the foreign key of doc_updates rejects the insert when docId names no document
      ok := docId in DocIds();
      if ok {
        docUpdates := docUpdates + [UpdateRow(docId, ToJson(update))];
        journal := journal + [InsertUpdate(docId)];
      }
      assert docUpdates == rows0 + AppendRows(docs0, slugOrId, freshId, update);
    }

    /**
     * `storeSnapshot`: update the document's snapshot row, or insert one when
     * the update matched none. The insert fails (`ok == false`, nothing
     * written) when `docId` is not a document's id.
     */
    method StoreSnapshot<S>(e: Engine<S>, docId: string, ydoc: S) returns (ok: bool)
      requires Valid()
      modifies this
      ensures Valid()
      ensures ok == (docId in old(DocIds()))
      ensures documents == old(documents) && docUpdates == old(docUpdates)
      ensures docSnapshots == if ok then old(docSnapshots)[docId := ToJson(e.encode(ydoc))] else old(docSnapshots)
      ensures journal == old(journal) + if ok then [UpsertSnapshot(docId)] else []
    {
      var snapshot := e.encode(ydoc);
      if docId in docSnapshots {
        docSnapshots := docSnapshots[docId := ToJson(snapshot)];
        journal := journal + [UpsertSnapshot(docId)];
        return true;
      }
      if docId !in DocIds() {
        // the foreign key of doc_snapshots rejects the insert
        return false;
      }
      docSnapshots := docSnapshots[docId := ToJson(snapshot)];
      journal := journal + [UpsertSnapshot(docId)];
      ok := true;
    }

    /** `pruneUpdatesBeforeNow`: deletes every logged update of `docId`, however recent. */
    method PruneUpdatesBeforeNow(docId: string)
      requires Valid()
      modifies this
      ensures Valid()
      ensures documents == old(documents) && docSnapshots == old(docSnapshots)
      ensures docUpdates == Without(old(docUpdates), docId)
      ensures journal == old(journal) + [DeleteUpdates(docId)]
    {
      docUpdates := Without(docUpdates, docId);
      journal := journal + [DeleteUpdates(docId)];
    }

    /** `updateTitleBySlug`: sets the title of the row with that slug, if there is one. */
    method UpdateTitleBySlug(slug: string, title: string)
      requires Valid()
      modifies this
      ensures Valid()
      ensures docUpdates == old(docUpdates) && docSnapshots == old(docSnapshots)
      ensures slug in old(documents) ==> documents == old(documents)[slug := old(documents[slug]).(title := title)]
      ensures slug !in old(documents) ==> documents == old(documents)
      ensures documents == Retitled(old(documents), slug, title)
      ensures journal == old(journal) + [SetTitle(slug, title)]
    {
      if slug in documents {
        RetitledWellFormed(documents, slug, title);
        documents := documents[slug := documents[slug].(title := title)];
      }
      journal := journal + [SetTitle(slug, title)];
    }
  }
}
