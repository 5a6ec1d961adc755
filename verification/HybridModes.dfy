/**
 Which retrievers each mode consults and what becomes of their answers, stated from the
 answers themselves: the keyword hits `bm`, the query's embedding `v`, the vector hits `vec`.
 */
module HybridModes {
  import opened Wrappers
  import opened Utf8
  import opened Fusion
  import opened Hybrid
  import FusionTheorems
  import HybridTheorems
  import Rerank
  import RerankTheorems
  import Sanitize
  import SanitizeTheorems

  ghost function FoundIds(hits: seq<StoreHit>): set<Id> {
    set h | h in hits :: h.chunkId
  }

  ghost function ShownIds(rs: seq<QueryResult>): set<Id> {
    set x | x in rs :: x.chunkId
  }

  /** The keyword search is asked for the sanitised query and answers `bm`. */
  predicate KeywordAnswer(b: Backend, c: Settings, q: Bytes, bm: seq<StoreHit>) {
    b.searchBM25(SanitizeTheorems.Sanitized(q), c.perListLimit) == Some(bm)
  }

  /** The query itself is embedded, into one vector, and the vector search for it answers `vec`. */
  predicate VectorAnswer(b: Backend, c: Settings, q: Bytes, v: Embedding, vec: seq<StoreHit>) {
    b.embed([q]) == Some([v]) && b.searchVector(v, c.perListLimit) == Some(vec)
  }

  // ---------- failures ----------

  /** In every mode but vector a failing keyword search fails the query, before anything else can. */
  lemma KeywordFailure(u: Rerank.Library, b: Backend, c: Settings, q: Bytes, k: int, mode: Mode)
    requires Rerank.IsPositive(u.sqrt) && mode != Vector
    requires b.searchBM25(SanitizeTheorems.Sanitized(q), c.perListLimit) == None
    ensures QueryOf(u, b, c, q, k, mode) == Err(BM25Failed)
  {
  }

  /** In every mode but keyword a failing embedder, a wrong number of vectors and a failing vector search fail the query. */
  lemma VectorFailures(u: Rerank.Library, b: Backend, c: Settings, q: Bytes, k: int, mode: Mode)
    requires Rerank.IsPositive(u.sqrt) && mode != Keyword
    requires mode != Vector ==> b.searchBM25(SanitizeTheorems.Sanitized(q), c.perListLimit).Some?
    ensures b.embed([q]) == None ==> QueryOf(u, b, c, q, k, mode) == Err(EmbedFailed)
    ensures b.embed([q]).Some? && |b.embed([q]).value| != 1 ==> QueryOf(u, b, c, q, k, mode) == Err(EmptyEmbedding)
    ensures b.embed([q]).Some? && |b.embed([q]).value| == 1
      && b.searchVector(b.embed([q]).value[0], c.perListLimit) == None
      ==> QueryOf(u, b, c, q, k, mode) == Err(VectorFailed)
  {
  }

  // ---------- the lists that are fused ----------

  lemma KeywordRetrieves(b: Backend, c: Settings, q: Bytes, bm: seq<StoreHit>)
    requires KeywordAnswer(b, c, q, bm)
    ensures Retrieve(b, c.perListLimit, q, Keyword) == Ok(Retrieved(Some(bm), None))
  {
  }

  lemma VectorRetrieves(b: Backend, c: Settings, q: Bytes, v: Embedding, vec: seq<StoreHit>)
    requires VectorAnswer(b, c, q, v, vec)
    ensures Retrieve(b, c.perListLimit, q, Vector) == Ok(Retrieved(None, Some(vec)))
  {
  }

  lemma HybridRetrieves(b: Backend, c: Settings, q: Bytes, mode: Mode, bm: seq<StoreHit>, v: Embedding, vec: seq<StoreHit>)
    requires mode == Hybrid || mode == HybridRerank
    requires KeywordAnswer(b, c, q, bm) && VectorAnswer(b, c, q, v, vec)
    ensures Retrieve(b, c.perListLimit, q, mode) == Ok(Retrieved(Some(bm), Some(vec)))
  {
  }

  lemma ListedIds(r: Retrieved)
    ensures Ids(ListsOf(r)) ==
      (if r.bm25.Some? then FoundIds(r.bm25.value) else {}) + (if r.vector.Some? then FoundIds(r.vector.value) else {})
  {
    forall id | id in Ids(ListsOf(r))
      ensures (r.bm25.Some? && id in FoundIds(r.bm25.value)) || (r.vector.Some? && id in FoundIds(r.vector.value))
    {
      var h := HybridTheorems.ListedWasFound(r, id);
    }
    if r.bm25.Some? {
      assert "bm25" != "vector";
      ListHolds(r, "bm25", r.bm25.value);
    }
    if r.vector.Some? {
      ListHolds(r, "vector", r.vector.value);
    }
  }

  lemma ListHolds(r: Retrieved, s: Signal, hits: seq<StoreHit>)
    requires s in ListsOf(r) && ListsOf(r)[s] == HitsOf(hits)
    ensures FoundIds(hits) <= Ids(ListsOf(r))
  {
    forall id | id in FoundIds(hits) ensures id in Ids(ListsOf(r)) {
      var h :| h in hits && h.chunkId == id;
      var i :| 0 <= i < |hits| && hits[i] == h;
      assert HitsOf(hits)[i] in ListsOf(r)[s];
    }
  }

  /** A query that does not rerank shows listed chunks only, and all of them when k is large enough. */
  lemma PlainShowsListed(c: Settings, k: nat, mode: Mode, r: Retrieved)
    requires k >= 1 && !Reranks(c, mode)
    ensures ShownIds(FromFused(r, FusedFor(c, k, mode, r))) <= Ids(ListsOf(r))
    ensures |Ids(ListsOf(r))| <= k ==> ShownIds(FromFused(r, FusedFor(c, k, mode, r))) == Ids(ListsOf(r))
  {
    var fused := FusedFor(c, k, mode, r);
    SameIds(r, fused);
    FusionTheorems.FusedIds(DEFAULT_RRF_K, k, ListsOf(r));
  }

  lemma SameIds(r: Retrieved, fused: seq<Fused>)
    ensures ShownIds(FromFused(r, fused)) == set f | f in fused :: f.id
  {
    var rs := FromFused(r, fused);
    forall f | f in fused ensures f.id in ShownIds(rs) {
      var i :| 0 <= i < |fused| && fused[i] == f;
      assert rs[i] in rs && rs[i].chunkId == f.id;
    }
    forall x | x in rs ensures x.chunkId in set f | f in fused :: f.id {
      var i :| 0 <= i < |rs| && rs[i] == x;
      assert fused[i] in fused;
    }
  }

  // ---------- what is shown ----------

  /** Keyword mode shows keyword hits only, and all of them when there is room. */
  lemma KeywordShows(u: Rerank.Library, b: Backend, c: Settings, q: Bytes, k: int, bm: seq<StoreHit>)
    requires Rerank.IsPositive(u.sqrt) && k >= 1 && KeywordAnswer(b, c, q, bm)
    ensures QueryOf(u, b, c, q, k, Keyword).Ok?
    ensures ShownIds(QueryOf(u, b, c, q, k, Keyword).value) <= FoundIds(bm)
    ensures |FoundIds(bm)| <= k ==> ShownIds(QueryOf(u, b, c, q, k, Keyword).value) == FoundIds(bm)
  {
    KeywordRetrieves(b, c, q, bm);
    ListedIds(Retrieved(Some(bm), None));
    PlainShowsListed(c, k, Keyword, Retrieved(Some(bm), None));
  }

  /** Vector mode shows vector hits only, and all of them when there is room. */
  lemma VectorShows(u: Rerank.Library, b: Backend, c: Settings, q: Bytes, k: int, v: Embedding, vec: seq<StoreHit>)
    requires Rerank.IsPositive(u.sqrt) && k >= 1 && VectorAnswer(b, c, q, v, vec)
    ensures QueryOf(u, b, c, q, k, Vector).Ok?
    ensures ShownIds(QueryOf(u, b, c, q, k, Vector).value) <= FoundIds(vec)
    ensures |FoundIds(vec)| <= k ==> ShownIds(QueryOf(u, b, c, q, k, Vector).value) == FoundIds(vec)
  {
    VectorRetrieves(b, c, q, v, vec);
    ListedIds(Retrieved(None, Some(vec)));
    PlainShowsListed(c, k, Vector, Retrieved(None, Some(vec)));
  }

  /** Hybrid modes show the hits of both searches, all of them when there is room. */
  lemma HybridShows(u: Rerank.Library, b: Backend, c: Settings, q: Bytes, k: int, mode: Mode,
                    bm: seq<StoreHit>, v: Embedding, vec: seq<StoreHit>)
    requires Rerank.IsPositive(u.sqrt) && k >= 1 && (mode == Hybrid || (mode == HybridRerank && c.reranker == None))
    requires KeywordAnswer(b, c, q, bm) && VectorAnswer(b, c, q, v, vec)
    ensures QueryOf(u, b, c, q, k, mode).Ok?
    ensures ShownIds(QueryOf(u, b, c, q, k, mode).value) <= FoundIds(bm) + FoundIds(vec)
    ensures |FoundIds(bm) + FoundIds(vec)| <= k ==>
      ShownIds(QueryOf(u, b, c, q, k, mode).value) == FoundIds(bm) + FoundIds(vec)
  {
    HybridRetrieves(b, c, q, mode, bm, v, vec);
    ListedIds(Retrieved(Some(bm), Some(vec)));
    PlainShowsListed(c, k, mode, Retrieved(Some(bm), Some(vec)));
  }

  // ---------- scores and signals of plain queries ----------

  /** `rank` is where the chunk stands among the hits, counted from 0, or None if it is not there. */
  ghost predicate RankedAt(hits: seq<StoreHit>, id: Id, rank: Option<nat>) {
    match rank
    case None => id !in FoundIds(hits)
    case Some(r) => r < |hits| && hits[r].chunkId == id
  }

  predicate NoChunkTwice(hits: seq<StoreHit>) {
    forall i, j :: 0 <= i < j < |hits| ==> hits[i].chunkId != hits[j].chunkId
  }

  function Reciprocal(rank: Option<nat>): real {
    if rank.Some? then 1.0 / (60 + rank.value + 1) as real else 0.0
  }

  lemma RankInList(hits: seq<StoreHit>, id: Id, rank: Option<nat>)
    requires NoChunkTwice(hits) && RankedAt(hits, id, rank)
    ensures FusionTheorems.DuplicateFree(HitsOf(hits)) && FusionTheorems.RankedAt(HitsOf(hits), id, rank)
    ensures ListBest(HitsOf(hits), id) == if rank.Some? then Some(hits[rank.value].score) else None
  {
    if rank.Some? {
      FusionTheorems.OnceScore(60, HitsOf(hits), rank.value);
    } else {
      forall h | h in HitsOf(hits) ensures h.id != id {
        var i :| 0 <= i < |hits| && HitsOf(hits)[i] == h;
        assert hits[i] in hits;
      }
      AbsentFromList(60, HitsOf(hits), id);
    }
  }

  lemma TwoLists(bm: seq<StoreHit>, vec: seq<StoreHit>)
    ensures var lists := ListsOf(Retrieved(Some(bm), Some(vec)));
      lists.Keys == {"bm25", "vector"} && lists["bm25"] == HitsOf(bm) && lists["vector"] == HitsOf(vec)
    ensures "bm25" != "vector"
  {
    assert "bm25"[0] != "vector"[0];
  }

  lemma SignalsOfTwo(lists: Lists, s: Signal, t: Signal, id: Id)
    requires s != t && lists.Keys == {s, t}
    ensures PerSignal(lists, id) ==
      (if ListBest(lists[s], id).Some? then map[s := ListBest(lists[s], id).value] else map[]) +
      (if ListBest(lists[t], id).Some? then map[t := ListBest(lists[t], id).value] else map[])
  {
  }

  lemma ScoreOfTwo(bm: seq<StoreHit>, vec: seq<StoreHit>, id: Id, x: Option<nat>, y: Option<nat>)
    requires FusionTheorems.DuplicateFree(HitsOf(bm)) && FusionTheorems.RankedAt(HitsOf(bm), id, x)
    requires FusionTheorems.DuplicateFree(HitsOf(vec)) && FusionTheorems.RankedAt(HitsOf(vec), id, y)
    ensures Score(60, ListsOf(Retrieved(Some(bm), Some(vec))), id) == Reciprocal(x) + Reciprocal(y)
  {
    TwoLists(bm, vec);
    FusionTheorems.TwoListScore(60, ListsOf(Retrieved(Some(bm), Some(vec))), "bm25", "vector", id, x, y);
  }

  /** What fusion makes of one chunk of two searches. */
  lemma EntryOfTwo(bm: seq<StoreHit>, vec: seq<StoreHit>, id: Id, x: Option<nat>, y: Option<nat>)
    requires NoChunkTwice(bm) && NoChunkTwice(vec) && RankedAt(bm, id, x) && RankedAt(vec, id, y)
    ensures var f := Entry(60, ListsOf(Retrieved(Some(bm), Some(vec))), id);
      && f.rrfScore == Reciprocal(x) + Reciprocal(y)
      && f.perSignal == (if x.Some? then map["bm25" := bm[x.value].score] else map[])
                        + (if y.Some? then map["vector" := vec[y.value].score] else map[])
  {
    RankInList(bm, id, x);
    RankInList(vec, id, y);
    ScoreOfTwo(bm, vec, id, x, y);
    TwoLists(bm, vec);
    SignalsOfTwo(ListsOf(Retrieved(Some(bm), Some(vec))), "bm25", "vector", id);
  }

  lemma PlainEntry(u: Rerank.Library, c: Settings, q: Bytes, k: nat, mode: Mode, r: Retrieved, i: nat)
    requires Rerank.IsPositive(u.sqrt) && !Reranks(c, mode)
    requires i < |FusedFor(c, k, mode, r)|
    ensures Finish(u, c, q, k, mode, r).Ok? && i < |Finish(u, c, q, k, mode, r).value|
    ensures var x := Finish(u, c, q, k, mode, r).value[i];
      x.score == Entry(60, ListsOf(r), x.chunkId).rrfScore && x.signals == Entry(60, ListsOf(r), x.chunkId).perSignal
  {
  }

  /**
   The score of a hybrid result is the sum of 1 / (60 + rank) over the searches that found
   the chunk, ranks counted from 1; its signals are exactly their raw scores. No reranker
   has a say in it.
   */
  lemma HybridScores(u: Rerank.Library, b: Backend, c: Settings, q: Bytes, k: int, bm: seq<StoreHit>, v: Embedding,
                     vec: seq<StoreHit>, i: nat, x: Option<nat>, y: Option<nat>)
    requires Rerank.IsPositive(u.sqrt) && k >= 1 && KeywordAnswer(b, c, q, bm) && VectorAnswer(b, c, q, v, vec)
    requires NoChunkTwice(bm) && NoChunkTwice(vec)
    requires QueryOf(u, b, c, q, k, Hybrid).Ok? && i < |QueryOf(u, b, c, q, k, Hybrid).value|
    requires RankedAt(bm, QueryOf(u, b, c, q, k, Hybrid).value[i].chunkId, x)
    requires RankedAt(vec, QueryOf(u, b, c, q, k, Hybrid).value[i].chunkId, y)
    ensures var res := QueryOf(u, b, c, q, k, Hybrid).value[i];
      && res.score == Reciprocal(x) + Reciprocal(y)
      && res.signals == (if x.Some? then map["bm25" := bm[x.value].score] else map[])
                        + (if y.Some? then map["vector" := vec[y.value].score] else map[])
  {
    HybridRetrieves(b, c, q, Hybrid, bm, v, vec);
    PlainEntry(u, c, q, k, Hybrid, Retrieved(Some(bm), Some(vec)), i);
    EntryOfTwo(bm, vec, QueryOf(u, b, c, q, k, Hybrid).value[i].chunkId, x, y);
  }

  // ---------- one search ----------

  lemma {:induction false} OnlyHit(hits: seq<StoreHit>, i: nat)
    requires NoChunkTwice(hits) && i < |hits|
    ensures LastHit(hits, hits[i].chunkId) == Some(hits[i]) && FirstHit(hits, hits[i].chunkId) == Some(hits[i])
  {
    var n := |hits| - 1;
    if i < n {
      OnlyHit(hits[..n], i);
    } else {
      HybridTheorems.FirstHitFound(hits[..n], hits[n].chunkId);
    }
  }

  /** A result that shows the hit `h`, found in one search at place `i`: its doc, its snippet cut at 240 bytes, its score. */
  predicate OneSearchResult(x: QueryResult, signal: Signal, h: StoreHit, i: nat) {
    && x.chunkId == h.chunkId && x.docId == h.docId
    && x.snippet == (if |h.snippet| <= 240 then h.snippet else h.snippet[..240] + [0xE2, 0x80, 0xA6])
    && x.score == 1.0 / (60 + i + 1) as real && x.signals == map[signal := h.score]
  }

  lemma OneListResult(k: nat, r: Retrieved, signal: Signal, hits: seq<StoreHit>, i: nat)
    requires k >= 1 && NoChunkTwice(hits) && ListsOf(r) == map[signal := HitsOf(hits)]
    requires forall j :: 0 <= j < |hits| ==> SourceOf(r, hits[j].chunkId) == Some(hits[j])
    ensures |FromFused(r, FuseOf(60, k, ListsOf(r)))| == if k <= |hits| then k else |hits|
    ensures i < |FromFused(r, FuseOf(60, k, ListsOf(r)))| ==>
      OneSearchResult(FromFused(r, FuseOf(60, k, ListsOf(r)))[i], signal, hits[i], i)
  {
    FusionTheorems.OneListIsKept(60, k, signal, HitsOf(hits), i);
  }

  /** Keyword mode returns the first keyword hits in their order. */
  lemma KeywordInOrder(u: Rerank.Library, b: Backend, c: Settings, q: Bytes, k: int, bm: seq<StoreHit>, i: nat)
    requires Rerank.IsPositive(u.sqrt) && k >= 1 && KeywordAnswer(b, c, q, bm) && NoChunkTwice(bm)
    ensures QueryOf(u, b, c, q, k, Keyword).Ok?
    ensures var out := QueryOf(u, b, c, q, k, Keyword).value;
      |out| == (if k <= |bm| then k else |bm|) && (i < |out| ==> OneSearchResult(out[i], "bm25", bm[i], i))
  {
    var r := Retrieved(Some(bm), None);
    KeywordRetrieves(b, c, q, bm);
    forall j | 0 <= j < |bm| ensures SourceOf(r, bm[j].chunkId) == Some(bm[j]) {
      OnlyHit(bm, j);
    }
    OneListResult(k, r, "bm25", bm, i);
  }

  /** Vector mode returns the first vector hits in their order. */
  lemma VectorInOrder(u: Rerank.Library, b: Backend, c: Settings, q: Bytes, k: int, v: Embedding, vec: seq<StoreHit>, i: nat)
    requires Rerank.IsPositive(u.sqrt) && k >= 1 && VectorAnswer(b, c, q, v, vec) && NoChunkTwice(vec)
    ensures QueryOf(u, b, c, q, k, Vector).Ok?
    ensures var out := QueryOf(u, b, c, q, k, Vector).value;
      |out| == (if k <= |vec| then k else |vec|) && (i < |out| ==> OneSearchResult(out[i], "vector", vec[i], i))
  {
    var r := Retrieved(None, Some(vec));
    VectorRetrieves(b, c, q, v, vec);
    forall j | 0 <= j < |vec| ensures SourceOf(r, vec[j].chunkId) == Some(vec[j]) {
      OnlyHit(vec, j);
    }
    OneListResult(k, r, "vector", vec, i);
  }

  // ---------- reranked queries ----------

  /** What the reranker is given: the best fused chunks, as many as the settings say, whatever k is. */
  ghost function Chosen(c: Settings, r: Retrieved): seq<Fused> {
    FuseOf(60, c.rerankInputN, ListsOf(r))
  }

  /** Each reranked result carries the score that the reranker gave to some fused chunk, and that chunk's fused score. */
  lemma RerankedEntry(u: Rerank.Library, c: Settings, q: Bytes, k: nat, r: Retrieved, i: nat) returns (p: nat)
    requires Rerank.IsPositive(u.sqrt) && c.reranker.Some? && Chosen(c, r) != []
    requires Finish(u, c, q, k, HybridRerank, r).Ok? && i < |Finish(u, c, q, k, HybridRerank, r).value|
    ensures p < |Chosen(c, r)|
    ensures var cands := Candidates(r, Chosen(c, r));
      var scored := Rerank.RerankOf(u, c.reranker.value, q, cands, k);
      && scored.Ok? && i < |scored.value| && scored.value[i].candidate == cands[p] && cands[p].priorRank == p
      && scored.value[i].rerankScore == Finish(u, c, q, k, HybridRerank, r).value[i].score
    ensures var x, f := Finish(u, c, q, k, HybridRerank, r).value[i], Chosen(c, r)[p];
      x.chunkId == f.id && x.signals == map["rrf" := f.rrfScore, "rerank" := x.score]
  {
    p := HybridTheorems.ScoredCandidate(u, c.reranker.value, q, Candidates(r, Chosen(c, r)), k, i);
  }

  /** Reranked results go from the best rerank score down; of equal ones the better fused score comes first. */
  lemma RerankedBestFirst(u: Rerank.Library, c: Settings, q: Bytes, k: nat, r: Retrieved, i: nat, j: nat)
    requires Rerank.IsPositive(u.sqrt) && c.reranker.Some? && Chosen(c, r) != []
    requires Finish(u, c, q, k, HybridRerank, r).Ok? && i < j < |Finish(u, c, q, k, HybridRerank, r).value|
    ensures var x, y := Finish(u, c, q, k, HybridRerank, r).value[i], Finish(u, c, q, k, HybridRerank, r).value[j];
      && "rrf" in x.signals && "rrf" in y.signals
      && (x.score > y.score || (x.score == y.score && x.signals["rrf"] >= y.signals["rrf"]))
  {
    var m := RerankedEntry(u, c, q, k, r, i);
    var n := RerankedEntry(u, c, q, k, r, j);
    RerankTheorems.BestFirst(u, c.reranker.value, q, Candidates(r, Chosen(c, r)), k, i, j);
    if m <= n {
      FusedDescends(c, r, m, n);
    }
  }

  lemma FusedDescends(c: Settings, r: Retrieved, m: nat, n: nat)
    requires c.reranker.Some? && m <= n < |Chosen(c, r)|
    ensures Chosen(c, r)[m].rrfScore >= Chosen(c, r)[n].rrfScore
  {
    if m < n {
      FusionTheorems.FusedInOrder(60, c.rerankInputN, ListsOf(r), m, n);
    }
  }

  /** A fused chunk that reranking leaves out was scored no higher than any that it returns. */
  lemma RerankedLeavesOutWorse(u: Rerank.Library, c: Settings, q: Bytes, k: nat, r: Retrieved, p: nat, i: nat)
    requires Rerank.IsPositive(u.sqrt) && c.reranker.Some? && p < |Chosen(c, r)|
    requires Finish(u, c, q, k, HybridRerank, r).Ok? && i < |Finish(u, c, q, k, HybridRerank, r).value|
    requires Chosen(c, r)[p].id !in ShownIds(Finish(u, c, q, k, HybridRerank, r).value)
    ensures var scores := Rerank.ScoresOf(u, c.reranker.value, q, Candidates(r, Chosen(c, r)));
      scores.Ok? && scores.value[p] <= Finish(u, c, q, k, HybridRerank, r).value[i].score
  {
    var cands := Candidates(r, Chosen(c, r));
    var scored := Rerank.RerankOf(u, c.reranker.value, q, cands, k).value;
    forall s | s in scored ensures s.candidate.chunkId in ShownIds(FromScored(scored)) {
      var m :| 0 <= m < |scored| && scored[m] == s;
      assert FromScored(scored)[m] in FromScored(scored);
    }
    RerankTheorems.LeftOutScoreNoHigher(u, c.reranker.value, q, cands, k, p, i);
  }

  /** Hybrid with reranking shows chunks of both searches, all of them when k and the reranker's input have room. */
  lemma RerankedShows(u: Rerank.Library, b: Backend, c: Settings, q: Bytes, k: int,
                      bm: seq<StoreHit>, v: Embedding, vec: seq<StoreHit>)
    requires Rerank.IsPositive(u.sqrt) && k >= 1 && c.reranker.Some? && c.rerankInputN >= 1
    requires KeywordAnswer(b, c, q, bm) && VectorAnswer(b, c, q, v, vec)
    requires QueryOf(u, b, c, q, k, HybridRerank).Ok?
    ensures ShownIds(QueryOf(u, b, c, q, k, HybridRerank).value) <= FoundIds(bm) + FoundIds(vec)
    ensures |FoundIds(bm) + FoundIds(vec)| <= k && |FoundIds(bm) + FoundIds(vec)| <= c.rerankInputN ==>
      ShownIds(QueryOf(u, b, c, q, k, HybridRerank).value) == FoundIds(bm) + FoundIds(vec)
  {
    var r := Retrieved(Some(bm), Some(vec));
    HybridRetrieves(b, c, q, HybridRerank, bm, v, vec);
    ListedIds(r);
    FinishShowsListed(u, c, q, k, r);
  }

  lemma FinishShowsListed(u: Rerank.Library, c: Settings, q: Bytes, k: nat, r: Retrieved)
    requires Rerank.IsPositive(u.sqrt) && k >= 1 && c.reranker.Some? && c.rerankInputN >= 1
    requires Finish(u, c, q, k, HybridRerank, r).Ok?
    ensures ShownIds(Finish(u, c, q, k, HybridRerank, r).value) <= Ids(ListsOf(r))
    ensures |Ids(ListsOf(r))| <= k && |Ids(ListsOf(r))| <= c.rerankInputN ==>
      ShownIds(Finish(u, c, q, k, HybridRerank, r).value) == Ids(ListsOf(r))
  {
    var out, fused := Finish(u, c, q, k, HybridRerank, r).value, FusedFor(c, k, HybridRerank, r);
    FusionTheorems.FusedIds(DEFAULT_RRF_K, c.rerankInputN, ListsOf(r));
    forall x | x in out ensures x.chunkId in Ids(ListsOf(r)) {
      var i :| 0 <= i < |out| && out[i] == x;
      var p := RerankedEntry(u, c, q, k, r, i);
      assert fused[p] in fused;
    }
    if |Ids(ListsOf(r))| <= k && |Ids(ListsOf(r))| <= c.rerankInputN {
      FusionTheorems.OmittedComeAfter(DEFAULT_RRF_K, c.rerankInputN, ListsOf(r), "", 0);
      if fused != [] {
        HybridTheorems.RerankedDistinct(u, c, q, k, HybridRerank, r);
      }
      DistinctFill(out, Ids(ListsOf(r)));
    }
  }

  /** As many distinct chunks as a set has elements, all from the set, are the whole set. */
  lemma DistinctFill(rs: seq<QueryResult>, ids: set<Id>)
    requires ShownIds(rs) <= ids && |rs| == |ids|
    requires forall i, j :: 0 <= i < j < |rs| ==> rs[i].chunkId != rs[j].chunkId
    ensures ShownIds(rs) == ids
  {
    ShownSize(rs, |rs|);
    assert rs[..|rs|] == rs;
    SubsetFull(ShownIds(rs), ids);
  }

  lemma {:induction false} ShownSize(rs: seq<QueryResult>, n: nat)
    requires n <= |rs| && forall i, j :: 0 <= i < j < |rs| ==> rs[i].chunkId != rs[j].chunkId
    ensures |ShownIds(rs[..n])| == n
  {
    if n > 0 {
      ShownSize(rs, n - 1);
      assert rs[..n] == rs[..n - 1] + [rs[n - 1]];
      assert forall x :: x in rs[..n] <==> x in rs[..n - 1] || x == rs[n - 1];
      assert ShownIds(rs[..n]) == ShownIds(rs[..n - 1]) + {rs[n - 1].chunkId};
    }
  }

  lemma {:induction false} SubsetFull(a: set<Id>, b: set<Id>)
    requires a <= b && |a| == |b|
    ensures a == b
  {
    if a != {} {
      var x :| x in a;
      SubsetFull(a - {x}, b - {x});
      assert a == (a - {x}) + {x} && b == (b - {x}) + {x};
    }
  }

  /** A hybrid result shows the keyword hit of its chunk if there is one, else the vector hit. */
  lemma HybridShowsKeywordHit(u: Rerank.Library, b: Backend, c: Settings, q: Bytes, k: int, bm: seq<StoreHit>,
                              v: Embedding, vec: seq<StoreHit>, i: nat, x: Option<nat>, y: Option<nat>)
    requires Rerank.IsPositive(u.sqrt) && k >= 1 && KeywordAnswer(b, c, q, bm) && VectorAnswer(b, c, q, v, vec)
    requires NoChunkTwice(bm) && NoChunkTwice(vec)
    requires QueryOf(u, b, c, q, k, Hybrid).Ok? && i < |QueryOf(u, b, c, q, k, Hybrid).value|
    requires RankedAt(bm, QueryOf(u, b, c, q, k, Hybrid).value[i].chunkId, x)
    requires RankedAt(vec, QueryOf(u, b, c, q, k, Hybrid).value[i].chunkId, y)
    ensures x.Some? ==> HybridTheorems.Shows(QueryOf(u, b, c, q, k, Hybrid).value[i], bm[x.value])
    ensures x.None? && y.Some? ==> HybridTheorems.Shows(QueryOf(u, b, c, q, k, Hybrid).value[i], vec[y.value])
  {
    var id := QueryOf(u, b, c, q, k, Hybrid).value[i].chunkId;
    HybridRetrieves(b, c, q, Hybrid, bm, v, vec);
    SourceOfTwo(bm, vec, id, x, y);
  }

  lemma SourceOfTwo(bm: seq<StoreHit>, vec: seq<StoreHit>, id: Id, x: Option<nat>, y: Option<nat>)
    requires NoChunkTwice(bm) && NoChunkTwice(vec) && RankedAt(bm, id, x) && RankedAt(vec, id, y)
    ensures x.Some? ==> Source(bm, vec, id) == Some(bm[x.value])
    ensures x.None? && y.Some? ==> Source(bm, vec, id) == Some(vec[y.value])
  {
    if x.Some? {
      OnlyHit(bm, x.value);
    } else {
      HybridTheorems.LastHitFound(bm, id);
      if y.Some? {
        OnlyHit(vec, y.value);
      }
    }
  }

  /** k of zero or less means 10. */
  lemma DefaultK(u: Rerank.Library, b: Backend, c: Settings, q: Bytes, k: int, mode: Mode)
    requires Rerank.IsPositive(u.sqrt) && k <= 0
    ensures QueryOf(u, b, c, q, k, mode) == QueryOf(u, b, c, q, 10, mode)
  {
  }
}
