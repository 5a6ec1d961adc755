/** What Engine.Query promises, for fixed answers of its backend. */
module HybridTheorems {
  import opened Wrappers
  import opened Utf8
  import opened Order
  import opened Fusion
  import opened Hybrid
  import FusionTheorems
  import Rerank
  import RerankTheorems

  // ---------- the side maps are total ----------

  lemma {:induction false} LastHitFound(hits: seq<StoreHit>, id: Id)
    ensures LastHit(hits, id).Some? ==> LastHit(hits, id).value in hits && LastHit(hits, id).value.chunkId == id
    ensures LastHit(hits, id).None? ==> forall h :: h in hits ==> h.chunkId != id
  {
    if hits != [] {
      LastHitFound(hits[..|hits| - 1], id);
      assert hits == hits[..|hits| - 1] + [hits[|hits| - 1]];
    }
  }

  lemma {:induction false} FirstHitFound(hits: seq<StoreHit>, id: Id)
    ensures FirstHit(hits, id).Some? ==> FirstHit(hits, id).value in hits && FirstHit(hits, id).value.chunkId == id
    ensures FirstHit(hits, id).None? ==> forall h :: h in hits ==> h.chunkId != id
  {
    if hits != [] {
      FirstHitFound(hits[..|hits| - 1], id);
      assert hits == hits[..|hits| - 1] + [hits[|hits| - 1]];
    }
  }

  /** The hit `h` was returned by one of the retrievers. */
  predicate Found(r: Retrieved, h: StoreHit) {
    (r.bm25.Some? && h in r.bm25.value) || (r.vector.Some? && h in r.vector.value)
  }

  lemma ListedWasFound(r: Retrieved, id: Id) returns (h: StoreHit)
    requires id in Ids(ListsOf(r))
    ensures Found(r, h) && h.chunkId == id
  {
    var s: Signal, x: Hit :| s in ListsOf(r) && x in ListsOf(r)[s] && x.id == id;
    var hits := if s == "vector" then r.vector.value else r.bm25.value;
    var i :| 0 <= i < |ListsOf(r)[s]| && ListsOf(r)[s][i] == x;
    h := hits[i];
  }

  /** Every listed chunk has a source: a hit that a retriever returned for that very chunk. */
  lemma SourceIsHit(r: Retrieved, id: Id)
    requires id in Ids(ListsOf(r))
    ensures SourceOf(r, id).Some? && Found(r, SourceOf(r, id).value) && SourceOf(r, id).value.chunkId == id
  {
    var h := ListedWasFound(r, id);
    LastHitFound(if r.bm25.Some? then r.bm25.value else [], id);
    FirstHitFound(if r.vector.Some? then r.vector.value else [], id);
  }

  lemma FusedIsListed(k: int, topN: int, lists: Lists, f: Fused)
    requires f in FuseOf(k, topN, lists)
    ensures f.id in Ids(lists)
  {
    var ids := Ranking(EffectiveK(k), lists);
    var i :| 0 <= i < |FuseOf(k, topN, lists)| && FuseOf(k, topN, lists)[i] == f;
    assert ids[i] in Elems(ids);
  }

  /** The result shows the doc and the (cut) snippet of the hit. */
  predicate Shows(x: QueryResult, h: StoreHit) {
    x.chunkId == h.chunkId && x.docId == h.docId && x.snippet == Truncate(h.snippet, SNIPPET_BYTES)
  }

  // ---------- both ways to finish ----------

  lemma PlainShows(r: Retrieved, k: int, topN: int, i: nat)
    requires i < |FuseOf(k, topN, ListsOf(r))|
    ensures exists h :: Found(r, h) && Shows(FromFused(r, FuseOf(k, topN, ListsOf(r)))[i], h)
  {
    var f := FuseOf(k, topN, ListsOf(r))[i];
    FusedIsListed(k, topN, ListsOf(r), f);
    SourceIsHit(r, f.id);
    assert Shows(FromFused(r, FuseOf(k, topN, ListsOf(r)))[i], SourceOf(r, f.id).value);
  }

  lemma ScoredCandidate(u: Rerank.Library, ranker: Rerank.Reranker, q: Bytes, cands: seq<Rerank.Candidate>, k: int,
                        i: nat) returns (j: nat)
    requires Rerank.IsPositive(u.sqrt) && Rerank.RerankOf(u, ranker, q, cands, k).Ok?
    requires i < |Rerank.RerankOf(u, ranker, q, cands, k).value|
    ensures j < |cands| && Rerank.RerankOf(u, ranker, q, cands, k).value[i].candidate == cands[j]
  {
    var scored := Rerank.RerankOf(u, ranker, q, cands, k).value;
    RerankTheorems.RerankSelects(u, ranker, q, cands, k, scored[i]);
    assert scored[i] in scored;
    j := AttachedCandidate(cands, Rerank.ScoresOf(u, ranker, q, cands).value, scored[i]);
  }

  lemma AttachedCandidate(cands: seq<Rerank.Candidate>, scores: seq<real>, s: Rerank.Scored) returns (j: nat)
    requires |cands| == |scores| && s in Rerank.Attach(cands, scores)
    ensures j < |cands| && s.candidate == cands[j]
  {
    j :| 0 <= j < |cands| && Rerank.Attach(cands, scores)[j] == s;
  }

  /** A reranked entry is a fused one, with the doc and snippet of its source. */
  lemma RerankedIsFused(u: Rerank.Library, c: Settings, q: Bytes, k: nat, mode: Mode, r: Retrieved, i: nat)
      returns (j: nat)
    requires Rerank.IsPositive(u.sqrt) && Reranks(c, mode) && FusedFor(c, k, mode, r) != []
    requires Finish(u, c, q, k, mode, r).Ok? && i < |Finish(u, c, q, k, mode, r).value|
    ensures j < |FusedFor(c, k, mode, r)|
    ensures var x, f := Finish(u, c, q, k, mode, r).value[i], FusedFor(c, k, mode, r)[j];
      && x.chunkId == f.id && x.docId == DocOf(r, f.id)
      && x.snippet == Truncate(SnippetOf(r, f.id), SNIPPET_BYTES)
      && x.signals == map["rrf" := f.rrfScore, "rerank" := x.score]
  {
    j := ScoredCandidate(u, c.reranker.value, q, Candidates(r, FusedFor(c, k, mode, r)), k, i);
  }

  lemma RerankedShows(u: Rerank.Library, c: Settings, q: Bytes, k: nat, mode: Mode, r: Retrieved, i: nat)
    requires Rerank.IsPositive(u.sqrt) && Reranks(c, mode) && FusedFor(c, k, mode, r) != []
    requires Finish(u, c, q, k, mode, r).Ok? && i < |Finish(u, c, q, k, mode, r).value|
    ensures exists h :: Found(r, h) && Shows(Finish(u, c, q, k, mode, r).value[i], h)
  {
    var j := RerankedIsFused(u, c, q, k, mode, r, i);
    var f := FusedFor(c, k, mode, r)[j];
    FusedIsListed(DEFAULT_RRF_K, c.rerankInputN, ListsOf(r), f);
    SourceIsHit(r, f.id);
    assert Shows(Finish(u, c, q, k, mode, r).value[i], SourceOf(r, f.id).value);
  }

  lemma FinishShowsHits(u: Rerank.Library, c: Settings, q: Bytes, k: nat, mode: Mode, r: Retrieved, i: nat)
    requires Rerank.IsPositive(u.sqrt)
    requires Finish(u, c, q, k, mode, r).Ok? && i < |Finish(u, c, q, k, mode, r).value|
    ensures exists h :: Found(r, h) && Shows(Finish(u, c, q, k, mode, r).value[i], h)
  {
    if Reranks(c, mode) && FusedFor(c, k, mode, r) != [] {
      RerankedShows(u, c, q, k, mode, r, i);
    } else {
      PlainShows(r, DEFAULT_RRF_K, if Reranks(c, mode) then c.rerankInputN else k, i);
    }
  }

  /** In every mode each result shows the doc and snippet of a hit that a retriever returned for that chunk. */
  lemma ResultsShowHits(u: Rerank.Library, b: Backend, c: Settings, q: Bytes, k: int, mode: Mode, i: nat)
    requires Rerank.IsPositive(u.sqrt)
    requires QueryOf(u, b, c, q, k, mode).Ok? && i < |QueryOf(u, b, c, q, k, mode).value|
    ensures Retrieve(b, c.perListLimit, q, mode).Ok?
    ensures exists h :: Found(Retrieve(b, c.perListLimit, q, mode).value, h) && Shows(QueryOf(u, b, c, q, k, mode).value[i], h)
  {
    FinishShowsHits(u, c, q, OrDefault(k, 10), mode, Retrieve(b, c.perListLimit, q, mode).value, i);
  }

  // ---------- fewer results are a prefix ----------

  lemma FromFusedTake(r: Retrieved, fused: seq<Fused>, n: nat)
    ensures FromFused(r, Take(fused, n)) == Take(FromFused(r, fused), n)
  {
  }

  lemma FromScoredTake(scored: seq<Rerank.Scored>, n: nat)
    ensures FromScored(Take(scored, n)) == Take(FromScored(scored), n)
  {
  }

  lemma FusedTake(m: nat, n: nat, lists: Lists)
    requires 1 <= m <= n
    ensures FuseOf(DEFAULT_RRF_K, m, lists) == Take(FuseOf(DEFAULT_RRF_K, n, lists), m)
  {
    TakeEntries(DEFAULT_RRF_K, lists, Ranking(DEFAULT_RRF_K, lists), m);
    TakeEntries(DEFAULT_RRF_K, lists, Ranking(DEFAULT_RRF_K, lists), n);
    RerankTheorems.TakePrefix(EntriesOf(DEFAULT_RRF_K, lists, Ranking(DEFAULT_RRF_K, lists)), m, n);
  }

  lemma FinishPrefix(u: Rerank.Library, c: Settings, q: Bytes, m: nat, n: nat, mode: Mode, r: Retrieved)
    requires Rerank.IsPositive(u.sqrt) && 1 <= m <= n
    ensures match Finish(u, c, q, n, mode, r)
      case Err(e) => Finish(u, c, q, m, mode, r) == Err(e)
      case Ok(rs) => Finish(u, c, q, m, mode, r) == Ok(Take(rs, m))
  {
    if Reranks(c, mode) {
      var fused := FusedFor(c, n, mode, r);
      if fused != [] {
        RerankTheorems.RerankPrefix(u, c.reranker.value, q, Candidates(r, fused), m, n);
        if Rerank.RerankOf(u, c.reranker.value, q, Candidates(r, fused), n).Ok? {
          FromScoredTake(Rerank.RerankOf(u, c.reranker.value, q, Candidates(r, fused), n).value, m);
        }
      }
    } else {
      FusedTake(m, n, ListsOf(r));
      FromFusedTake(r, FusedFor(c, n, mode, r), m);
    }
  }

  /** In every mode asking for m results gives the first m of what asking for n gives, or the same error. */
  lemma SmallerKIsPrefix(u: Rerank.Library, b: Backend, c: Settings, q: Bytes, m: int, n: int, mode: Mode)
    requires Rerank.IsPositive(u.sqrt) && 1 <= m <= n
    ensures match QueryOf(u, b, c, q, n, mode)
      case Err(e) => QueryOf(u, b, c, q, m, mode) == Err(e)
      case Ok(rs) => QueryOf(u, b, c, q, m, mode) == Ok(Take(rs, m))
  {
    var got := Retrieve(b, c.perListLimit, q, mode);
    if got.Ok? {
      FinishPrefix(u, c, q, m, n, mode, got.value);
    }
  }

  // ---------- reranking ----------

  lemma CandidatesDistinct(u: Rerank.Library, c: Settings, q: Bytes, k: nat, mode: Mode, r: Retrieved)
    requires Rerank.IsPositive(u.sqrt) && Reranks(c, mode)
    requires Rerank.ScoresOf(u, c.reranker.value, q, Candidates(r, FusedFor(c, k, mode, r))).Ok?
    ensures RerankTheorems.DistinctChunks(
      RerankTheorems.ScoredOf(u, c.reranker.value, q, Candidates(r, FusedFor(c, k, mode, r))))
  {
    var fused := FusedFor(c, k, mode, r);
    forall i, j | 0 <= i < j < |fused| ensures fused[i].id != fused[j].id {
      FusionTheorems.FusedInOrder(DEFAULT_RRF_K, c.rerankInputN, ListsOf(r), i, j);
    }
  }

  lemma RerankedDistinct(u: Rerank.Library, c: Settings, q: Bytes, k: nat, mode: Mode, r: Retrieved)
    requires Rerank.IsPositive(u.sqrt) && k > 0 && Reranks(c, mode) && FusedFor(c, k, mode, r) != []
    requires Finish(u, c, q, k, mode, r).Ok?
    ensures var out, fused := Finish(u, c, q, k, mode, r).value, FusedFor(c, k, mode, r);
      && |out| == (if k < |fused| then k else |fused|)
      && forall i, j :: 0 <= i < j < |out| ==> out[i].chunkId != out[j].chunkId
  {
    var cands := Candidates(r, FusedFor(c, k, mode, r));
    var scored := Rerank.RerankOf(u, c.reranker.value, q, cands, k).value;
    CandidatesDistinct(u, c, q, k, mode, r);
    RerankTheorems.RerankSelects(u, c.reranker.value, q, cands, k, Rerank.Scored(cands[0], 0.0));
    assert RerankTheorems.DistinctChunks(scored);
  }

  /** Reranked results are as many as were asked for and fused, without repetition, all from the fused top. */
  lemma RerankPicksFromTop(u: Rerank.Library, b: Backend, c: Settings, q: Bytes, k: int, x: nat)
    requires Rerank.IsPositive(u.sqrt) && k >= 1 && c.reranker.Some? && QueryOf(u, b, c, q, k, HybridRerank).Ok?
    ensures var r := Retrieve(b, c.perListLimit, q, HybridRerank).value;
      var fused := FuseOf(DEFAULT_RRF_K, c.rerankInputN, ListsOf(r));
      var out := QueryOf(u, b, c, q, k, HybridRerank).value;
      && |out| == (if k < |fused| then k else |fused|)
      && (forall i, j :: 0 <= i < j < |out| ==> out[i].chunkId != out[j].chunkId)
      && (x < |out| ==> exists f :: f in fused && f.id == out[x].chunkId)
  {
    var r := Retrieve(b, c.perListLimit, q, HybridRerank).value;
    var fused := FusedFor(c, k, HybridRerank, r);
    var out := QueryOf(u, b, c, q, k, HybridRerank).value;
    assert Ok(out) == Finish(u, c, q, k, HybridRerank, r);
    if fused != [] {
      RerankedDistinct(u, c, q, k, HybridRerank, r);
      if x < |out| {
        var j := RerankedIsFused(u, c, q, k, HybridRerank, r, x);
        assert fused[j] in fused;
      }
    }
  }

  /** Without a reranker a rerank request is answered as a plain hybrid one. */
  lemma NoRerankerIsHybrid(u: Rerank.Library, b: Backend, c: Settings, q: Bytes, k: int)
    requires Rerank.IsPositive(u.sqrt) && c.reranker.None?
    ensures QueryOf(u, b, c, q, k, HybridRerank) == QueryOf(u, b, c, q, k, Hybrid)
  {
    var r := Retrieve(b, c.perListLimit, q, Hybrid);
    assert Retrieve(b, c.perListLimit, q, HybridRerank) == r;
    if r.Ok? {
      var k' := OrDefault(k, 10);
      assert FusedFor(c, k', HybridRerank, r.value) == FusedFor(c, k', Hybrid, r.value);
    }
  }

  /** Keyword queries never depend on the embedder or the vector index, vector queries never on keyword search. */
  lemma OneSignalModes(u: Rerank.Library, b: Backend, b': Backend, c: Settings, q: Bytes, k: int)
    requires Rerank.IsPositive(u.sqrt)
    ensures b.searchBM25 == b'.searchBM25 ==> QueryOf(u, b, c, q, k, Keyword) == QueryOf(u, b', c, q, k, Keyword)
    ensures b.embed == b'.embed && b.searchVector == b'.searchVector ==>
      QueryOf(u, b, c, q, k, Vector) == QueryOf(u, b', c, q, k, Vector)
  {
    if b.searchBM25 == b'.searchBM25 {
      assert Retrieve(b, c.perListLimit, q, Keyword) == Retrieve(b', c.perListLimit, q, Keyword);
    }
    if b.embed == b'.embed && b.searchVector == b'.searchVector {
      assert VectorOf(b, c.perListLimit, q) == VectorOf(b', c.perListLimit, q);
      assert Retrieve(b, c.perListLimit, q, Vector) == Retrieve(b', c.perListLimit, q, Vector);
    }
  }
}
