/**
 The three tables of the document store and the rows they hold, with the
 uniqueness and foreign-key constraints that the migrations declare.
 */
module Tables {
  import opened Wrappers
  import Utf8

  type DocId = nat
  type ChunkId = nat
  type TombId = nat
  type Time = int
  type Vector = seq<real>
  type Bytes = Utf8.Bytes

  /** uuid.Nil: never generated, used by the listing as "no cursor". */
  const NIL_ID: DocId := 0

  /** What a caller of UpsertDoc supplies for the docs row. */
  datatype NewDoc = NewDoc(source: Bytes, title: Bytes, body: Bytes, hash: Bytes)

  /** What a caller of UpsertDoc supplies for each doc_chunks row. */
  datatype ChunkData = ChunkData(index: int, text: Bytes, embedding: Vector)

  datatype DocRow = DocRow(doc: NewDoc, createdAt: Time, deletedAt: Option<Time>)

  datatype ChunkRow = ChunkRow(docId: DocId, index: int, text: Bytes, embedding: Option<Vector>)

  datatype TombRow = TombRow(docId: DocId, deletedAt: Time, compactedAt: Option<Time>)

  datatype Tables = Tables(
    docs: map<DocId, DocRow>,
    chunks: map<ChunkId, ChunkRow>,
    tombs: map<TombId, TombRow>)

  predicate Live(db: Tables, d: DocId) {
    d in db.docs && db.docs[d].deletedAt.None?
  }

  predicate IsDeleted(db: Tables, d: DocId) {
    d in db.docs && db.docs[d].deletedAt.Some?
  }

  /** The ids of the chunk rows of one doc. */
  function RowsOf(chunks: map<ChunkId, ChunkRow>, d: DocId): set<ChunkId> {
    set c | c in chunks && chunks[c].docId == d
  }

  predicate HasTombstone(db: Tables, d: DocId) {
    exists t :: t in db.tombs && db.tombs[t].docId == d
  }

  predicate HasCompactedTombstone(db: Tables, d: DocId) {
    exists t :: t in db.tombs && db.tombs[t].docId == d && db.tombs[t].compactedAt.Some?
  }

  /** doc_tombstones rows with compacted_at IS NULL. */
  function Pending(db: Tables): set<TombId> {
    set t | t in db.tombs && db.tombs[t].compactedAt.None?
  }

  /** UNIQUE (doc_id, chunk_index). */
  ghost predicate UniqueIndexes(chunks: map<ChunkId, ChunkRow>) {
    forall b, c ::
      (b in chunks && c in chunks && chunks[b].docId == chunks[c].docId && chunks[b].index == chunks[c].index)
      ==> b == c
  }

  /** The UNIQUE and REFERENCES constraints of the migrations. */
  ghost predicate SchemaOk(db: Tables) {
    && NIL_ID !in db.docs
    && (forall d, e :: d in db.docs && e in db.docs && db.docs[d].doc.hash == db.docs[e].doc.hash ==> d == e)
    && (forall c :: c in db.chunks ==> db.chunks[c].docId in db.docs)
    && UniqueIndexes(db.chunks)
    && (forall t :: t in db.tombs ==> db.tombs[t].docId in db.docs)
    && (forall t, u :: t in db.tombs && u in db.tombs && db.tombs[t].docId == db.tombs[u].docId ==> t == u)
  }
}
