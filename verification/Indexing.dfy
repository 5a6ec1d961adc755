/** handleIndex: chunk the body, embed the chunks in batches, store doc and chunks together. */
module Indexing {
  import opened Wrappers
  import opened Tables
  import opened Protocol
  import opened Store
  import Utf8
  import Chunker
  import ChunkerTheorems

  /** The request after JSON decoding, which yields valid UTF-8: fields are character sequences. */
  datatype IndexReq = IndexReq(source: Chunker.Text, title: Chunker.Text, body: Chunker.Text)

  datatype IndexResp = IndexResp(docId: DocId, chunkCount: nat, alreadyExists: bool)

  datatype IndexError = InvalidBody | MissingField | EmbedFailed | PersistFailed(error: StoreError)

  type Embedder = seq<Bytes> -> Option<seq<Vector>>

  /** What the embedding client checks before it returns vectors. */
  ghost predicate OneVectorPerText(embed: Embedder) {
    forall texts :: embed(texts).Some? ==> |embed(texts).value| == |texts|
  }

  /** The options handleIndex passes: all zero. */
  const NO_OPTIONS := Chunker.Options(0, 0, 0)

  function BatchSize(n: int): (bs: nat)
    ensures bs > 0
  {
    if n <= 0 then 32 else n
  }

  function Batch(texts: seq<Bytes>, bs: nat): seq<Bytes> {
    if bs < |texts| then texts[..bs] else texts
  }

  /** The answers to consecutive batches, joined; one failed batch fails the whole. */
  function EmbedAll(embed: Embedder, texts: seq<Bytes>, bs: nat): Option<seq<Vector>>
    requires bs > 0
  {
    if texts == [] then Some([]) else
    var batch := Batch(texts, bs);
    match embed(batch)
    case None => None
    case Some(vs) =>
      match EmbedAll(embed, texts[|batch|..], bs)
      case None => None
      case Some(more) => Some(vs + more)
  }

  function Prepend(out: seq<Vector>, more: Option<seq<Vector>>): (r: Option<seq<Vector>>)
    ensures out == [] ==> r == more
  {
    if more.None? then None else
    assert out == [] ==> out + more.value == more.value;
    Some(out + more.value)
  }

  lemma NextBatch(embed: Embedder, texts: seq<Bytes>, bs: nat, out: seq<Vector>, v: seq<Vector>)
    requires bs > 0 && texts != [] && embed(Batch(texts, bs)) == Some(v)
    ensures Prepend(out, EmbedAll(embed, texts, bs)) ==
            Prepend(out + v, EmbedAll(embed, texts[|Batch(texts, bs)|..], bs))
  {
    var more := EmbedAll(embed, texts[|Batch(texts, bs)|..], bs);
    assert more.Some? ==> out + (v + more.value) == out + v + more.value;
  }

  method EmbedBatched(embed: Embedder, batchSize: int, texts: seq<Bytes>) returns (r: Option<seq<Vector>>)
    ensures r == EmbedAll(embed, texts, if batchSize <= 0 then 32 else batchSize)
  {
    if |texts| == 0 {
      return Some([]);
    }
    var bs := if batchSize <= 0 then 32 else batchSize;
    var out: seq<Vector> := [];
    var i := 0;
    assert texts[0..] == texts;
    while i < |texts|
      invariant i <= |texts|
      invariant EmbedAll(embed, texts, bs) == Prepend(out, EmbedAll(embed, texts[i..], bs))
      decreases |texts| - i
    {
      var end := i + bs;
      if end > |texts| {
        end := |texts|;
      }
      assert texts[i..end] == Batch(texts[i..], bs) && texts[i..][end - i..] == texts[end..];
      var v := embed(texts[i..end]);
      if v.None? {
        return None;
      }
      NextBatch(embed, texts[i..], bs, out, v.value);
      out := out + v.value;
      i := end;
    }
    assert out + [] == out;
    return Some(out);
  }

  /** The batch that starts at text `lo`: the next `bs` texts, or as many as are left. */
  function BatchAt(texts: seq<Bytes>, bs: nat, lo: nat): seq<Bytes>
    requires lo <= |texts|
  {
    texts[lo..if lo + bs < |texts| then lo + bs else |texts|]
  }

  /** Some batch cannot be embedded; batches start at the multiples of `bs`. */
  ghost predicate SomeBatchFails(embed: Embedder, texts: seq<Bytes>, bs: nat)
    requires bs > 0
  {
    exists lo: nat :: lo < |texts| && lo % bs == 0 && embed(BatchAt(texts, bs, lo)) == None
  }

  /** The batches of the rest are the later batches of the whole. */
  lemma BatchShifts(texts: seq<Bytes>, bs: nat, lo: nat)
    requires 0 < bs <= lo <= |texts|
    ensures BatchAt(texts[bs..], bs, lo - bs) == BatchAt(texts, bs, lo)
    ensures (lo - bs) % bs == lo % bs
  {
    ModShifts(lo, bs);
  }

  lemma ModShifts(x: int, d: nat)
    requires d > 0
    ensures (x - d) % d == x % d
  {
    var q, p := x / d - 1, (x - d) / d;
    assert d * (q - p) == d * q - d * p && d * (p - q) == d * p - d * q;
    assert x - d == d * q + x % d && x - d == d * p + (x - d) % d;
    AtLeastOne(d, q - p);
    AtLeastOne(d, p - q);
  }

  lemma AtLeastOne(d: nat, m: int)
    requires d > 0
    ensures m > 0 ==> d * m >= d
  {
    if m > 0 {
      assert d * m == d * (m - 1) + d;
    }
  }

  lemma FirstMultiple(x: nat, d: nat)
    requires 0 <= x < d
    ensures x % d == 0 <==> x == 0
    ensures x % d == x
  {
  }

  /** Embedding fails exactly when one of the batches cannot be embedded. */
  lemma {:induction false} EmbedFailsIff(embed: Embedder, texts: seq<Bytes>, bs: nat)
    requires bs > 0
    ensures EmbedAll(embed, texts, bs) == None <==> SomeBatchFails(embed, texts, bs)
    decreases |texts|
  {
    if bs < |texts| {
      EmbedFailsIff(embed, texts[bs..], bs);
      LaterFailures(embed, texts, bs);
      assert Batch(texts, bs) == BatchAt(texts, bs, 0);
    } else if texts != [] {
      assert Batch(texts, bs) == BatchAt(texts, bs, 0);
      LaterFailures(embed, texts, bs);
    }
  }

  lemma LaterFailures(embed: Embedder, texts: seq<Bytes>, bs: nat)
    requires bs > 0 && texts != []
    ensures SomeBatchFails(embed, texts, bs) <==>
      embed(BatchAt(texts, bs, 0)) == None || (bs < |texts| && SomeBatchFails(embed, texts[bs..], bs))
  {
    if embed(BatchAt(texts, bs, 0)) == None {
      FirstMultiple(0, bs);
    }
    forall lo: nat | 0 < lo < |texts| && lo % bs == 0 && embed(BatchAt(texts, bs, lo)) == None
      ensures bs < |texts| && SomeBatchFails(embed, texts[bs..], bs)
    {
      NextMultiple(lo, bs);
      BatchShifts(texts, bs, lo);
      assert embed(BatchAt(texts[bs..], bs, lo - bs)) == None;
    }
    if bs < |texts| && SomeBatchFails(embed, texts[bs..], bs) {
      LaterFailure(embed, texts, bs);
    }
  }

  lemma LaterFailure(embed: Embedder, texts: seq<Bytes>, bs: nat)
    requires 0 < bs < |texts| && SomeBatchFails(embed, texts[bs..], bs)
    ensures SomeBatchFails(embed, texts, bs)
  {
    var lo: nat :| lo < |texts[bs..]| && lo % bs == 0 && embed(BatchAt(texts[bs..], bs, lo)) == None;
    BatchShifts(texts, bs, lo + bs);
    assert embed(BatchAt(texts, bs, lo + bs)) == None;
  }

  lemma NextMultiple(x: nat, d: nat)
    requires d > 0 && x > 0 && x % d == 0
    ensures x >= d
  {
    if x < d {
      FirstMultiple(x, d);
    }
  }

  lemma {:induction false} EmbedCount(embed: Embedder, texts: seq<Bytes>, bs: nat)
    requires bs > 0 && OneVectorPerText(embed) && EmbedAll(embed, texts, bs).Some?
    ensures |EmbedAll(embed, texts, bs).value| == |texts|
    decreases |texts|
  {
    if texts != [] {
      EmbedCount(embed, texts[|Batch(texts, bs)|..], bs);
    }
  }

  /** The vector that the embedder returned at the place of text `i` in its batch. */
  ghost predicate VectorOfText(embed: Embedder, texts: seq<Bytes>, bs: nat, i: nat, v: Vector)
    requires bs > 0 && i < |texts|
  {
    var answer := embed(BatchAt(texts, bs, i - i % bs));
    answer.Some? && i % bs < |answer.value| && answer.value[i % bs] == v
  }

  /** One vector for each text, in order: the one returned at that text's place in its batch. */
  lemma {:induction false} BatchesAlign(embed: Embedder, texts: seq<Bytes>, bs: nat, i: nat)
    requires bs > 0 && OneVectorPerText(embed) && EmbedAll(embed, texts, bs).Some? && i < |texts|
    ensures |EmbedAll(embed, texts, bs).value| == |texts|
    ensures VectorOfText(embed, texts, bs, i, EmbedAll(embed, texts, bs).value[i])
    decreases |texts|
  {
    EmbedCount(embed, texts, bs);
    if i < bs {
      FirstBatch(embed, texts, bs, i);
    } else {
      LaterValue(embed, texts, bs, i);
      BatchesAlign(embed, texts[bs..], bs, i - bs);
      LaterBatch(embed, texts, bs, i, EmbedAll(embed, texts, bs).value[i]);
    }
  }

  lemma LaterValue(embed: Embedder, texts: seq<Bytes>, bs: nat, i: nat)
    requires OneVectorPerText(embed) && 0 < bs <= i < |texts| && EmbedAll(embed, texts, bs).Some?
    requires |EmbedAll(embed, texts, bs).value| == |texts|
    ensures EmbedAll(embed, texts[bs..], bs).Some? && |EmbedAll(embed, texts[bs..], bs).value| == |texts| - bs
    ensures EmbedAll(embed, texts, bs).value[i] == EmbedAll(embed, texts[bs..], bs).value[i - bs]
  {
    SkipBatch(embed, texts, bs);
  }

  lemma FirstBatch(embed: Embedder, texts: seq<Bytes>, bs: nat, i: nat)
    requires i < bs && i < |texts| && OneVectorPerText(embed) && EmbedAll(embed, texts, bs).Some?
    requires |EmbedAll(embed, texts, bs).value| == |texts|
    ensures VectorOfText(embed, texts, bs, i, EmbedAll(embed, texts, bs).value[i])
  {
    FirstMultiple(i, bs);
    assert BatchAt(texts, bs, 0) == Batch(texts, bs);
  }

  lemma LaterBatch(embed: Embedder, texts: seq<Bytes>, bs: nat, i: nat, v: Vector)
    requires 0 < bs <= i < |texts| && VectorOfText(embed, texts[bs..], bs, i - bs, v)
    ensures VectorOfText(embed, texts, bs, i, v)
  {
    ModShifts(i, bs);
    BatchShifts(texts, bs, i - i % bs);
  }

  lemma SkipBatch(embed: Embedder, texts: seq<Bytes>, bs: nat)
    requires OneVectorPerText(embed) && 0 < bs < |texts| && EmbedAll(embed, texts, bs).Some?
    ensures EmbedAll(embed, texts[bs..], bs).Some? && embed(texts[..bs]).Some? && |embed(texts[..bs]).value| == bs
    ensures EmbedAll(embed, texts, bs).value == embed(texts[..bs]).value + EmbedAll(embed, texts[bs..], bs).value
  {
  }

  // ---------- what is handed to the store ----------

  function ChunksOf(body: Chunker.Text): seq<Chunker.Chunk> {
    Chunker.SplitOf(body, NO_OPTIONS)
  }

  function TextsOf(chunks: seq<Chunker.Chunk>): (ts: seq<Bytes>)
    ensures |ts| == |chunks|
  {
    seq(|chunks|, i requires 0 <= i < |chunks| => Utf8.EncodeAll(chunks[i].text))
  }

  function DataOf(chunks: seq<Chunker.Chunk>, vectors: seq<Vector>): (data: seq<ChunkData>)
    requires |vectors| == |chunks|
    ensures |data| == |chunks|
  {
    seq(|chunks|, i requires 0 <= i < |chunks| =>
      ChunkData(chunks[i].index, Utf8.EncodeAll(chunks[i].text), vectors[i]))
  }

  function DocOf(req: IndexReq, hash: Bytes -> Bytes): NewDoc {
    NewDoc(Utf8.EncodeAll(Chunker.TrimSpace(req.source)), Utf8.EncodeAll(Chunker.TrimSpace(req.title)),
           Utf8.EncodeAll(req.body), hash(Utf8.EncodeAll(req.body)))
  }

  predicate Complete(req: IndexReq) {
    Chunker.TrimSpace(req.source) != [] && Chunker.TrimSpace(req.title) != [] && Chunker.TrimSpace(req.body) != []
  }

  /** Bodies are cut with the default options: chunks of about 500 and at most 700 characters, without overlap. */
  lemma DefaultOptions(body: Chunker.Text)
    ensures ChunksOf(body) == Chunker.SplitOf(body, Chunker.Options(500, 700, 0))
  {
  }

  /** The chunk numbers are distinct, so UNIQUE (doc_id, chunk_index) never refuses the insert. */
  lemma IndexesDistinct(body: Chunker.Text, vectors: seq<Vector>)
    requires |vectors| == |ChunksOf(body)|
    ensures DistinctIndexes(DataOf(ChunksOf(body), vectors))
  {
    var data := DataOf(ChunksOf(body), vectors);
    forall i | 0 <= i < |data| ensures data[i].index == i {
      ChunkerTheorems.ChunkSizes(body, NO_OPTIONS, i);
    }
  }

  /**
   Nothing of an accepted body is lost on the way to the store: read back, the stored
   texts are the body's characters other than white space, each once and in order,
   no text is empty, and none is longer than 700 characters.
   */
  lemma StoredTextsKeepBody(req: IndexReq)
    requires Complete(req)
    ensures ChunkerTheorems.Solid(ReadBack(TextsOf(ChunksOf(req.body)))) == ChunkerTheorems.Solid(req.body)
    ensures forall t :: t in TextsOf(ChunksOf(req.body)) ==> 0 < |Utf8.Runes(t)| <= 700
  {
    var chunks := ChunksOf(req.body);
    ChunkerTheorems.NoOverlapKeepsText(req.body, NO_OPTIONS);
    ReadBackTexts(chunks);
    ChunkerTheorems.EmptyOnlyForEmpty(req.body, NO_OPTIONS);
    forall i | 0 <= i < |chunks| ensures 0 < |Utf8.Runes(TextsOf(chunks)[i])| <= 700 {
      Utf8.SymsOfEncoded(chunks[i].text);
      ChunkerTheorems.ChunkSizes(req.body, NO_OPTIONS, i);
      assert chunks[i] in chunks;
    }
  }

  /** The characters of the stored texts, one text after the other. */
  function ReadBack(texts: seq<Bytes>): Chunker.Text {
    if texts == [] then [] else ReadBack(texts[..|texts| - 1]) + Utf8.Runes(texts[|texts| - 1])
  }

  lemma {:induction false} ReadBackTexts(chunks: seq<Chunker.Chunk>)
    ensures ReadBack(TextsOf(chunks)) == ChunkerTheorems.Texts(chunks)
  {
    if chunks != [] {
      var n := |chunks| - 1;
      assert TextsOf(chunks)[..n] == TextsOf(chunks[..n]);
      ReadBackTexts(chunks[..n]);
      Utf8.SymsOfEncoded(chunks[n].text);
    }
  }

  // ---------- the handler ----------

  /** The handler; `decoded` is the request body read as a JSON object, or None if it is not one. */
  method HandleIndex(db: Database, embed: Embedder, batchSize: int, hash: Bytes -> Bytes, decoded: Option<IndexReq>,
                     newId: DocId, ids: seq<ChunkId>, at: Time)
      returns (r: Result<IndexResp, IndexError>, ghost pid: Pid)
    requires db.Valid() && OneVectorPerText(embed)
    requires decoded.Some? ==> |ids| == |ChunksOf(decoded.value.body)|
    modifies db
    ensures db.Valid() && old(db.trace) <= db.trace
    ensures r == Err(InvalidBody) <==> decoded.None?
    ensures decoded.None? ==> db.s == old(db.s)
    ensures decoded.Some? ==> Handled(old(db.s), db.s, old(db.bursts), embed, batchSize, hash, decoded.value,
                                      newId, ids, at, r, pid)
  {
    if decoded.None? {
      return Err(InvalidBody), 0;
    }
    r, pid := IndexFields(db, embed, batchSize, hash, decoded.value, newId, ids, at);
  }

  /** What a decoded request leads to. */
  ghost predicate Handled(s: State, t: State, bursts: seq<seq<Label>>, embed: Embedder, batchSize: int,
                          hash: Bytes -> Bytes, req: IndexReq, newId: DocId, ids: seq<ChunkId>, at: Time,
                          r: Result<IndexResp, IndexError>, pid: Pid)
  {
    && (r == Err(MissingField) <==>
          Chunker.TrimSpace(req.source) == [] || Chunker.TrimSpace(req.title) == [] || Chunker.TrimSpace(req.body) == [])
    && (r == Err(EmbedFailed) <==>
          Complete(req) && SomeBatchFails(embed, TextsOf(ChunksOf(req.body)), if batchSize <= 0 then 32 else batchSize))
    && (r == Err(MissingField) || r == Err(EmbedFailed) ==> t == s)
    && (r.Ok? ==> pid < |t.procs| && AnsweredBy(t.procs[pid], DocOf(req, hash), r.value))
    && (r.Ok? && !r.value.alreadyExists ==> IsIndexed(t.db, embed, batchSize, hash, req, r.value, ids, at))
    && (Unopposed(s, bursts, hash, req, newId, ids) && Complete(req) && r != Err(EmbedFailed) ==>
          r.Ok? && !r.value.alreadyExists)
  }

  /** No other session interferes, the contents are new, and so are the generated keys. */
  ghost predicate Unopposed(s: State, bursts: seq<seq<Label>>, hash: Bytes -> Bytes, req: IndexReq, newId: DocId,
                            ids: seq<ChunkId>)
  {
    && bursts == [] && Alone(s)
    && !HashTaken(s.db, hash(Utf8.EncodeAll(req.body))) && KeysFresh(s, newId, ids)
  }

  /** `hash` stands for SHA-256 in hexadecimal; `newId`, `ids` and `at` are what the database generates. */
  method IndexFields(db: Database, embed: Embedder, batchSize: int, hash: Bytes -> Bytes, req: IndexReq,
                     newId: DocId, ids: seq<ChunkId>, at: Time)
      returns (r: Result<IndexResp, IndexError>, ghost pid: Pid)
    requires db.Valid() && OneVectorPerText(embed) && |ids| == |ChunksOf(req.body)|
    modifies db
    ensures db.Valid() && old(db.trace) <= db.trace && r != Err(InvalidBody)
    ensures Handled(old(db.s), db.s, old(db.bursts), embed, batchSize, hash, req, newId, ids, at, r, pid)
  {
    pid := 0;
    var source := Chunker.TrimSpace(req.source);
    var title := Chunker.TrimSpace(req.title);
    if source == [] || title == [] || Chunker.TrimSpace(req.body) == [] {
      return Err(MissingField), pid;
    }
    var chunks := Chunker.Split(req.body, Chunker.Options(0, 0, 0));
    var texts := CollectTexts(chunks);
    var embeds := EmbedBatched(embed, batchSize, texts);
    EmbedFailsIff(embed, texts, BatchSize(batchSize));
    if embeds.None? {
      return Err(EmbedFailed), pid;
    }
    var body := Utf8.EncodeAll(req.body);
    var d := NewDoc(Utf8.EncodeAll(source), Utf8.EncodeAll(title), body, hash(body));
    EmbedCount(embed, texts, BatchSize(batchSize));
    var storeChunks := CollectChunks(chunks, embeds.value);
    IndexesDistinct(req.body, embeds.value);
    var p, u := db.UpsertDoc(d, storeChunks, newId, ids, at);
    pid := p;
    if u.Err? {
      return Err(PersistFailed(u.error)), pid;
    }
    r := Ok(IndexResp(u.value.id, u.value.chunks, u.value.alreadyExisted));
  }

  /** The response reports what the upsert of this doc returned. */
  predicate AnsweredBy(p: Proc, d: NewDoc, resp: IndexResp) {
    p == UpsertReturned(d, resp.docId, resp.chunkCount, resp.alreadyExists)
  }

  ghost predicate KeysFresh(s: State, newId: DocId, ids: seq<ChunkId>) {
    newId != NIL_ID && newId !in s.db.docs && Distinct(ids) && forall c :: c in ids ==> c !in s.written
  }

  /** The doc is stored with one row for each chunk: its number, its text and the vector of that text. */
  ghost predicate IsIndexed(db: Tables, embed: Embedder, batchSize: int, hash: Bytes -> Bytes, req: IndexReq,
                            resp: IndexResp, ids: seq<ChunkId>, at: Time) {
    var chunks := ChunksOf(req.body);
    var vectors := EmbedAll(embed, TextsOf(chunks), BatchSize(batchSize));
    && vectors.Some? && |vectors.value| == |chunks| == resp.chunkCount
    && Stored(db, DocOf(req, hash), resp.docId, at, DataOf(chunks, vectors.value), ids)
    && FieldsOf(db.docs[resp.docId], hash, req, at)
  }

  /**
   Text and vector stay together from chunker to table: row `i` of an indexed doc has
   number `i`, the text of chunk `i`, and the vector the embedder returned for that text.
   */
  lemma IndexedRow(db: Tables, embed: Embedder, batchSize: int, hash: Bytes -> Bytes, req: IndexReq,
                   resp: IndexResp, ids: seq<ChunkId>, at: Time, i: nat)
    requires OneVectorPerText(embed) && IsIndexed(db, embed, batchSize, hash, req, resp, ids, at)
    requires i < |ChunksOf(req.body)|
    ensures |ids| == |ChunksOf(req.body)| && ids[i] in db.chunks
    ensures var row := db.chunks[ids[i]];
      && row.docId == resp.docId && row.index == i
      && row.text == TextsOf(ChunksOf(req.body))[i] && Utf8.Runes(row.text) == ChunksOf(req.body)[i].text
      && row.embedding.Some?
      && VectorOfText(embed, TextsOf(ChunksOf(req.body)), if batchSize <= 0 then 32 else batchSize, i, row.embedding.value)
  {
    var chunks := ChunksOf(req.body);
    BatchesAlign(embed, TextsOf(chunks), BatchSize(batchSize), i);
    ChunkerTheorems.ChunkSizes(req.body, NO_OPTIONS, i);
    Utf8.SymsOfEncoded(chunks[i].text);
  }

  /** The docs row: trimmed source and title, the body as sent, its hash, live, created at the given time. */
  predicate FieldsOf(row: DocRow, hash: Bytes -> Bytes, req: IndexReq, at: Time) {
    && row.doc.source == Utf8.EncodeAll(Chunker.TrimSpace(req.source))
    && row.doc.title == Utf8.EncodeAll(Chunker.TrimSpace(req.title))
    && row.doc.body == Utf8.EncodeAll(req.body) && row.doc.hash == hash(row.doc.body)
    && row.createdAt == at && row.deletedAt == None
  }

  method CollectTexts(chunks: seq<Chunker.Chunk>) returns (texts: seq<Bytes>)
    ensures texts == TextsOf(chunks)
  {
    texts := [];
    for i := 0 to |chunks|
      invariant |texts| == i && forall j :: 0 <= j < i ==> texts[j] == TextsOf(chunks)[j]
    {
      texts := texts + [Utf8.EncodeAll(chunks[i].text)];
    }
  }

  method CollectChunks(chunks: seq<Chunker.Chunk>, vectors: seq<Vector>) returns (data: seq<ChunkData>)
    requires |vectors| == |chunks|
    ensures data == DataOf(chunks, vectors)
  {
    data := [];
    for i := 0 to |chunks|
      invariant |data| == i && forall j :: 0 <= j < i ==> data[j] == DataOf(chunks, vectors)[j]
    {
      data := data + [ChunkData(chunks[i].index, Utf8.EncodeAll(chunks[i].text), vectors[i])];
    }
  }
}
