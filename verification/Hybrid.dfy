/** Engine.Query: retrieve, fuse, optionally rerank. */
module Hybrid {
  import opened Wrappers
  import opened Utf8
  import opened Fusion

  import Rerank
  import Sanitize

  datatype Mode = Hybrid | Keyword | Vector | HybridRerank

  datatype StoreHit = StoreHit(chunkId: Id, docId: Id, snippet: Bytes, score: real)

  type Embedding = seq<real>

  /** The retrievers and the embedder, as what they answer; None is an error. */
  datatype Backend = Backend(
    searchBM25: (Bytes, nat) -> Option<seq<StoreHit>>,
    embed: seq<Bytes> -> Option<seq<Embedding>>,
    searchVector: (Embedding, nat) -> Option<seq<StoreHit>>)

  datatype QueryError = BM25Failed | EmbedFailed | EmptyEmbedding | VectorFailed | RerankFailed(error: Rerank.RerankError)

  datatype QueryResult = QueryResult(docId: Id, chunkId: Id, score: real, snippet: Bytes, signals: map<Signal, real>)

  /** The engine's settings once defaults have been applied. */
  datatype Settings = Settings(perListLimit: nat, rerankInputN: nat, reranker: Option<Rerank.Reranker>)

  const SNIPPET_BYTES: nat := 240

  /** The UTF-8 bytes of the ellipsis. */
  const ELLIPSIS: Bytes := [0xE2, 0x80, 0xA6]

  predicate UsesBM25(mode: Mode) {
    mode == Hybrid || mode == Keyword || mode == HybridRerank
  }

  predicate UsesVector(mode: Mode) {
    mode == Hybrid || mode == Vector || mode == HybridRerank
  }

  /** Cuts bytes, not characters. */
  function Truncate(s: Bytes, n: nat): Bytes {
    if |s| <= n then s else s[..n] + ELLIPSIS
  }

  function OrDefault(n: int, d: nat): (r: nat) {
    if n <= 0 then d else n
  }

  // ---------- retrieval ----------

  /** The hits of the retrievers that the mode consults. */
  datatype Retrieved = Retrieved(bm25: Option<seq<StoreHit>>, vector: Option<seq<StoreHit>>)

  function BM25Of(b: Backend, limit: nat, q: Bytes): Option<seq<StoreHit>> {
    b.searchBM25(EncodeAll(Sanitize.Cut(Sanitize.Normal(q))), limit)
  }

  function VectorOf(b: Backend, limit: nat, q: Bytes): Result<seq<StoreHit>, QueryError> {
    match b.embed([q])
    case None => Err(EmbedFailed)
    case Some(vecs) =>
      if |vecs| != 1 then Err(EmptyEmbedding) else
      match b.searchVector(vecs[0], limit)
      case None => Err(VectorFailed)
      case Some(hits) => Ok(hits)
  }

  function Retrieve(b: Backend, limit: nat, q: Bytes, mode: Mode): Result<Retrieved, QueryError> {
    if UsesBM25(mode) && BM25Of(b, limit, q).None? then Err(BM25Failed) else
    var bm := if UsesBM25(mode) then BM25Of(b, limit, q) else None;
    if !UsesVector(mode) then Ok(Retrieved(bm, None)) else
    match VectorOf(b, limit, q)
    case Err(e) => Err(e)
    case Ok(hits) => Ok(Retrieved(bm, Some(hits)))
  }

  function HitsOf(hits: seq<StoreHit>): (hs: seq<Hit>)
    ensures |hs| == |hits|
  {
    seq(|hits|, i requires 0 <= i < |hits| => Hit(hits[i].chunkId, hits[i].score))
  }

  function ListsOf(r: Retrieved): Lists {
    (if r.bm25.Some? then map["bm25" := HitsOf(r.bm25.value)] else map[]) +
    (if r.vector.Some? then map["vector" := HitsOf(r.vector.value)] else map[])
  }

  // ---------- the side maps ----------

  function LastHit(hits: seq<StoreHit>, id: Id): Option<StoreHit> {
    if hits == [] then None
    else if hits[|hits| - 1].chunkId == id then Some(hits[|hits| - 1])
    else LastHit(hits[..|hits| - 1], id)
  }

  function FirstHit(hits: seq<StoreHit>, id: Id): Option<StoreHit> {
    if hits == [] then None else
    var n := |hits| - 1;
    var earlier := FirstHit(hits[..n], id);
    if earlier.None? && hits[n].chunkId == id then Some(hits[n]) else earlier
  }

  /** The hit that a chunk's doc and snippet come from: the last keyword hit, else the first vector hit. */
  function Source(bm: seq<StoreHit>, vec: seq<StoreHit>, id: Id): Option<StoreHit> {
    if LastHit(bm, id).Some? then LastHit(bm, id) else FirstHit(vec, id)
  }

  function SourceOf(r: Retrieved, id: Id): Option<StoreHit> {
    Source(if r.bm25.Some? then r.bm25.value else [], if r.vector.Some? then r.vector.value else [], id)
  }

  /** The two side maps hold, for every chunk, the snippet and the doc of its source. */
  ghost predicate Sides(bm: seq<StoreHit>, vec: seq<StoreHit>, snippets: map<Id, Bytes>, docs: map<Id, Id>) {
    && snippets.Keys == docs.Keys
    && forall id :: SideAt(bm, vec, snippets, docs, id)
  }

  ghost predicate SideAt(bm: seq<StoreHit>, vec: seq<StoreHit>, snippets: map<Id, Bytes>, docs: map<Id, Id>, id: Id)
    requires snippets.Keys == docs.Keys
  {
    if id in docs
    then Source(bm, vec, id).Some? && Source(bm, vec, id).value.snippet == snippets[id]
         && Source(bm, vec, id).value.docId == docs[id]
    else Source(bm, vec, id).None?
  }

  /** A keyword hit replaces what is known about its chunk. */
  lemma KeywordSide(bm: seq<StoreHit>, h: StoreHit, snippets: map<Id, Bytes>, docs: map<Id, Id>)
    requires Sides(bm, [], snippets, docs)
    ensures Sides(bm + [h], [], snippets[h.chunkId := h.snippet], docs[h.chunkId := h.docId])
  {
    var more := bm + [h];
    assert more[..|bm|] == bm;
    var snippets', docs' := snippets[h.chunkId := h.snippet], docs[h.chunkId := h.docId];
    forall id ensures SideAt(more, [], snippets', docs', id) {
      assert SideAt(bm, [], snippets, docs, id);
    }
  }

  /** A vector hit only adds a chunk that is not known yet. */
  lemma VectorSide(bm: seq<StoreHit>, vec: seq<StoreHit>, h: StoreHit, snippets: map<Id, Bytes>, docs: map<Id, Id>)
    requires Sides(bm, vec, snippets, docs)
    ensures if h.chunkId in snippets then Sides(bm, vec + [h], snippets, docs)
            else Sides(bm, vec + [h], snippets[h.chunkId := h.snippet], docs[h.chunkId := h.docId])
  {
    var more := vec + [h];
    assert more[..|vec|] == vec;
    var known := h.chunkId in snippets;
    var snippets' := if known then snippets else snippets[h.chunkId := h.snippet];
    var docs' := if known then docs else docs[h.chunkId := h.docId];
    forall id ensures SideAt(bm, more, snippets', docs', id) {
      assert SideAt(bm, vec, snippets, docs, id);
    }
  }

  method CollectBM25(bm: seq<StoreHit>) returns (hits: seq<Hit>, snippets: map<Id, Bytes>, docs: map<Id, Id>)
    ensures hits == HitsOf(bm) && Sides(bm, [], snippets, docs)
  {
    hits, snippets, docs := [], map[], map[];
    for i := 0 to |bm|
      invariant hits == HitsOf(bm[..i]) && Sides(bm[..i], [], snippets, docs)
    {
      var h := bm[i];
      KeywordSide(bm[..i], h, snippets, docs);
      snippets := snippets[h.chunkId := h.snippet];
      docs := docs[h.chunkId := h.docId];
      hits := hits + [Hit(h.chunkId, h.score)];
      assert bm[..i + 1] == bm[..i] + [h];
    }
    assert bm[..|bm|] == bm;
  }

  method CollectVector(ghost bm: seq<StoreHit>, vec: seq<StoreHit>, snippets0: map<Id, Bytes>, docs0: map<Id, Id>)
      returns (hits: seq<Hit>, snippets: map<Id, Bytes>, docs: map<Id, Id>)
    requires Sides(bm, [], snippets0, docs0)
    ensures hits == HitsOf(vec) && Sides(bm, vec, snippets, docs)
  {
    hits, snippets, docs := [], snippets0, docs0;
    for i := 0 to |vec|
      invariant hits == HitsOf(vec[..i]) && Sides(bm, vec[..i], snippets, docs)
    {
      var h := vec[i];
      VectorSide(bm, vec[..i], h, snippets, docs);
      if h.chunkId !in snippets {
        snippets := snippets[h.chunkId := h.snippet];
        docs := docs[h.chunkId := h.docId];
      }
      hits := hits + [Hit(h.chunkId, h.score)];
      assert vec[..i + 1] == vec[..i] + [h];
    }
    assert vec[..|vec|] == vec;
  }

  // ---------- results ----------

  /** A lookup in a Go map of strings: a missing key reads as the empty string. */
  function SnippetOf(r: Retrieved, id: Id): Bytes {
    if SourceOf(r, id).Some? then SourceOf(r, id).value.snippet else []
  }

  function DocOf(r: Retrieved, id: Id): Id {
    if SourceOf(r, id).Some? then SourceOf(r, id).value.docId else ""
  }

  function FromFused(r: Retrieved, fused: seq<Fused>): (rs: seq<QueryResult>)
    ensures |rs| == |fused|
  {
    seq(|fused|, i requires 0 <= i < |fused| =>
      QueryResult(DocOf(r, fused[i].id), fused[i].id, fused[i].rrfScore,
                  Truncate(SnippetOf(r, fused[i].id), SNIPPET_BYTES), fused[i].perSignal))
  }

  function Candidates(r: Retrieved, fused: seq<Fused>): (cs: seq<Rerank.Candidate>)
    ensures |cs| == |fused|
  {
    seq(|fused|, i requires 0 <= i < |fused| =>
      Rerank.Candidate(fused[i].id, DocOf(r, fused[i].id), SnippetOf(r, fused[i].id), fused[i].rrfScore, i))
  }

  function FromScored(scored: seq<Rerank.Scored>): (rs: seq<QueryResult>)
    ensures |rs| == |scored|
  {
    seq(|scored|, i requires 0 <= i < |scored| =>
      QueryResult(scored[i].candidate.docId, scored[i].candidate.chunkId, scored[i].rerankScore,
                  Truncate(scored[i].candidate.snippet, SNIPPET_BYTES),
                  map["rrf" := scored[i].candidate.priorScore, "rerank" := scored[i].rerankScore]))
  }

  predicate Reranks(c: Settings, mode: Mode) {
    mode == HybridRerank && c.reranker.Some?
  }

  /** The fused list: the answer itself, or what the reranker chooses from. */
  ghost function FusedFor(c: Settings, k: nat, mode: Mode, r: Retrieved): seq<Fused> {
    FuseOf(DEFAULT_RRF_K, if Reranks(c, mode) then c.rerankInputN else k, ListsOf(r))
  }

  ghost function Finish(u: Rerank.Library, c: Settings, q: Bytes, k: nat, mode: Mode, r: Retrieved)
      : Result<seq<QueryResult>, QueryError>
    requires Rerank.IsPositive(u.sqrt)
  {
    var fused := FusedFor(c, k, mode, r);
    if Reranks(c, mode) && fused != [] then
      match Rerank.RerankOf(u, c.reranker.value, q, Candidates(r, fused), k)
      case Err(e) => Err(RerankFailed(e))
      case Ok(scored) => Ok(FromScored(scored))
    else Ok(FromFused(r, fused))
  }

  /** What Query answers, given the engine's settings and its backend. */
  ghost function QueryOf(u: Rerank.Library, b: Backend, c: Settings, q: Bytes, k: int, mode: Mode)
      : Result<seq<QueryResult>, QueryError>
    requires Rerank.IsPositive(u.sqrt)
  {
    match Retrieve(b, c.perListLimit, q, mode)
    case Err(e) => Err(e)
    case Ok(r) => Finish(u, c, q, OrDefault(k, 10), mode, r)
  }

  class Engine {
    const backend: Backend
    const library: Rerank.Library
    var perListLimit: int
    var reranker: Option<Rerank.Reranker>
    var rerankInputN: int

    constructor (backend: Backend, library: Rerank.Library)
      ensures this.backend == backend && this.library == library
      ensures perListLimit == 50 && rerankInputN == 20 && reranker == None
    {
      this.backend, this.library := backend, library;
      perListLimit, rerankInputN, reranker := 50, 20, None;
    }

    /** Returns the receiver so that calls can be chained. */
    method WithReranker(r: Rerank.Reranker) returns (e: Engine)
      modifies this`reranker
      ensures e == this && reranker == Some(r)
    {
      reranker := Some(r);
      e := this;
    }

    function Effective(): Settings
      reads this
    {
      Settings(OrDefault(perListLimit, 50), OrDefault(rerankInputN, 20), reranker)
    }

    method Query(q: Bytes, k0: int, mode: Mode) returns (out: Result<seq<QueryResult>, QueryError>)
      requires Rerank.IsPositive(library.sqrt)
      modifies this`perListLimit, this`rerankInputN
      ensures perListLimit == if old(perListLimit) <= 0 then 50 else old(perListLimit)
      ensures rerankInputN == if old(rerankInputN) <= 0 then 20 else old(rerankInputN)
      ensures out == QueryOf(library, backend, old(Effective()), q, k0, mode)
    {
      var k := k0;
      if k <= 0 {
        k := 10;
      }
      if perListLimit <= 0 {
        perListLimit := 50;
      }
      if rerankInputN <= 0 {
        rerankInputN := 20;
      }
      var failed, lists, snippets, docs, r := Gather(q, mode);
      if failed.Some? {
        return Err(failed.value);
      }
      out := Rank(q, k, mode, lists, snippets, docs, r);
    }

    /** Fusion and, where the mode asks for it and there is a reranker, the second ranking. */
    method Rank(q: Bytes, k: nat, mode: Mode, lists: Lists, snippets: map<Id, Bytes>, docs: map<Id, Id>,
                ghost r: Retrieved)
        returns (out: Result<seq<QueryResult>, QueryError>)
      requires Rerank.IsPositive(library.sqrt) && perListLimit > 0 && rerankInputN > 0
      requires lists == ListsOf(r) && SidesOf(r, snippets, docs)
      ensures out == Finish(library, Settings(perListLimit, rerankInputN, reranker), q, k, mode, r)
    {
      var fuseLimit := k;
      if mode == HybridRerank && reranker.Some? {
        fuseLimit := rerankInputN;
      }
      var fused := FuseRRF(DEFAULT_RRF_K, fuseLimit, lists);
      if mode == HybridRerank && reranker.Some? && |fused| > 0 {
        out := SecondRanking(q, k, reranker.value, fused, snippets, docs, r);
      } else {
        var rs := BuildFused(fused, snippets, docs, r);
        out := Ok(rs);
      }
    }

    /** Consults the retrievers that the mode names, keyword search first. */
    method Gather(q: Bytes, mode: Mode)
        returns (failed: Option<QueryError>, lists: Lists, snippets: map<Id, Bytes>, docs: map<Id, Id>, ghost r: Retrieved)
      requires perListLimit > 0
      ensures match Retrieve(backend, perListLimit, q, mode)
        case Err(e) => failed == Some(e)
        case Ok(hits) => failed == None && r == hits && lists == ListsOf(r) && SidesOf(r, snippets, docs)
    {
      failed, lists, snippets, docs := None, map[], map[], map[];
      r := Retrieved(None, None);
      if UsesBM25(mode) {
        var text := Sanitize.SanitizeBM25Query(q);
        var answer := backend.searchBM25(text, perListLimit);
        if answer.None? {
          failed := Some(BM25Failed);
          return;
        }
        var hits;
        hits, snippets, docs := CollectBM25(answer.value);
        lists := lists["bm25" := hits];
        r := Retrieved(answer, None);
      }
      if UsesVector(mode) {
        failed, lists, snippets, docs, r := GatherVector(q, lists, snippets, docs, r);
      }
    }

    method GatherVector(q: Bytes, lists0: Lists, snippets0: map<Id, Bytes>, docs0: map<Id, Id>, ghost r0: Retrieved)
        returns (failed: Option<QueryError>, lists: Lists, snippets: map<Id, Bytes>, docs: map<Id, Id>, ghost r: Retrieved)
      requires perListLimit > 0 && r0.vector.None? && lists0 == ListsOf(r0) && SidesOf(r0, snippets0, docs0)
      ensures match VectorOf(backend, perListLimit, q)
        case Err(e) => failed == Some(e)
        case Ok(hits) =>
          failed == None && r == Retrieved(r0.bm25, Some(hits)) && lists == ListsOf(r) && SidesOf(r, snippets, docs)
    {
      failed, lists, snippets, docs, r := None, lists0, snippets0, docs0, r0;
      var vecs := backend.embed([q]);
      if vecs.None? {
        failed := Some(EmbedFailed);
        return;
      }
      if |vecs.value| != 1 {
        failed := Some(EmptyEmbedding);
        return;
      }
      var answer := backend.searchVector(vecs.value[0], perListLimit);
      if answer.None? {
        failed := Some(VectorFailed);
        return;
      }
      var hits;
      hits, snippets, docs := CollectVector(if r0.bm25.Some? then r0.bm25.value else [], answer.value, snippets, docs);
      lists := lists["vector" := hits];
      r := Retrieved(r0.bm25, answer);
    }

    method SecondRanking(q: Bytes, k: nat, ranker: Rerank.Reranker, fused: seq<Fused>, snippets: map<Id, Bytes>,
                         docs: map<Id, Id>, ghost r: Retrieved)
        returns (out: Result<seq<QueryResult>, QueryError>)
      requires Rerank.IsPositive(library.sqrt) && SidesOf(r, snippets, docs)
      ensures out == match Rerank.RerankOf(library, ranker, q, Candidates(r, fused), k)
        case Err(e) => Err(RerankFailed(e))
        case Ok(scored) => Ok(FromScored(scored))
    {
      var cands := BuildCandidates(fused, snippets, docs, r);
      var scored := Rerank.Rerank(library, ranker, q, cands, k);
      if scored.Err? {
        return Err(RerankFailed(scored.error));
      }
      var rs := BuildReranked(scored.value);
      out := Ok(rs);
    }
  }

  ghost predicate SidesOf(r: Retrieved, snippets: map<Id, Bytes>, docs: map<Id, Id>) {
    Sides(if r.bm25.Some? then r.bm25.value else [], if r.vector.Some? then r.vector.value else [], snippets, docs)
  }

  method BuildCandidates(fused: seq<Fused>, snippets: map<Id, Bytes>, docs: map<Id, Id>, ghost r: Retrieved)
      returns (cands: seq<Rerank.Candidate>)
    requires SidesOf(r, snippets, docs)
    ensures cands == Candidates(r, fused)
  {
    cands := [];
    for i := 0 to |fused|
      invariant |cands| == i && forall j :: 0 <= j < i ==> cands[j] == Candidates(r, fused)[j]
    {
      var id := fused[i].id;
      var snippet, doc := ReadSides(id, snippets, docs, r);
      cands := cands + [Rerank.Candidate(id, doc, snippet, fused[i].rrfScore, i)];
    }
  }

  method ReadSides(id: Id, snippets: map<Id, Bytes>, docs: map<Id, Id>, ghost r: Retrieved)
      returns (snippet: Bytes, doc: Id)
    requires SidesOf(r, snippets, docs)
    ensures snippet == SnippetOf(r, id) && doc == DocOf(r, id)
  {
    assert SideAt(if r.bm25.Some? then r.bm25.value else [], if r.vector.Some? then r.vector.value else [],
                  snippets, docs, id);
    snippet := if id in snippets then snippets[id] else [];
    doc := if id in docs then docs[id] else "";
  }

  method BuildFused(fused: seq<Fused>, snippets: map<Id, Bytes>, docs: map<Id, Id>, ghost r: Retrieved)
      returns (rs: seq<QueryResult>)
    requires SidesOf(r, snippets, docs)
    ensures rs == FromFused(r, fused)
  {
    rs := [];
    for i := 0 to |fused|
      invariant |rs| == i && forall j :: 0 <= j < i ==> rs[j] == FromFused(r, fused)[j]
    {
      var f := fused[i];
      var snippet, doc := ReadSides(f.id, snippets, docs, r);
      rs := rs + [QueryResult(doc, f.id, f.rrfScore, Truncate(snippet, SNIPPET_BYTES), f.perSignal)];
    }
  }

  method BuildReranked(scored: seq<Rerank.Scored>) returns (rs: seq<QueryResult>)
    ensures rs == FromScored(scored)
  {
    rs := [];
    for i := 0 to |scored|
      invariant |rs| == i && forall j :: 0 <= j < i ==> rs[j] == FromScored(scored)[j]
    {
      var s := scored[i];
      var signals: map<Signal, real> := map["rrf" := s.candidate.priorScore, "rerank" := s.rerankScore];
      rs := rs + [QueryResult(s.candidate.docId, s.candidate.chunkId, s.rerankScore,
                              Truncate(s.candidate.snippet, SNIPPET_BYTES), signals)];
    }
  }
}
