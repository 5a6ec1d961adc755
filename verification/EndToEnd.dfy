/**
 Store and query pipeline together: what a query may show while documents are
 upserted, deleted and compacted around it.
 */
module EndToEnd {
  import opened Wrappers
  import opened Tables
  import opened Protocol
  import opened ProtocolSafety
  import opened ProtocolRuns
  import opened ProtocolTheorems
  import opened Hybrid
  import Fusion
  import FusionTheorems
  import HybridTheorems
  import Rerank

  /** The text form of a UUID; distinct ids have distinct texts. */
  ghost predicate Injective(uuid: nat -> Fusion.Id) {
    forall x, y :: uuid(x) == uuid(y) ==> x == y
  }

  /** One row of a search's result set. */
  datatype Scan = Scan(id: ChunkId, row: ChunkRow, score: real)

  /**
   What a search statement may return from the committed tables: chunks of docs that
   are not deleted and that pass its own filter, each once, at most `limit`. The
   ranking is arbitrary: text ranking and the vector index are not modelled.
   */
  ghost predicate Answer(db: Tables, limit: int, keep: ChunkRow -> bool, rows: seq<Scan>) {
    && |rows| <= OrDefault(limit, 50)
    && (forall i :: 0 <= i < |rows| ==> ScanOk(db, keep, rows[i]))
    && (forall i, j :: 0 <= i < j < |rows| ==> rows[i].id != rows[j].id)
  }

  predicate ScanOk(db: Tables, keep: ChunkRow -> bool, x: Scan) {
    x.id in Eligible(db) && Eligible(db)[x.id] == x.row && keep(x.row)
  }

  /** SearchVector's filter. */
  predicate Embedded(row: ChunkRow) {
    row.embedding.Some?
  }

  function HitsFrom(uuid: nat -> Fusion.Id, rows: seq<Scan>): (hits: seq<StoreHit>)
    ensures |hits| == |rows|
  {
    seq(|rows|, i requires 0 <= i < |rows| =>
      StoreHit(uuid(rows[i].id), uuid(rows[i].row.docId), rows[i].row.text, rows[i].score))
  }

  /** collectHits. */
  method CollectHits(uuid: nat -> Fusion.Id, rows: seq<Scan>) returns (out: seq<StoreHit>)
    ensures out == HitsFrom(uuid, rows)
  {
    out := [];
    for i := 0 to |rows|
      invariant |out| == i && forall j :: 0 <= j < i ==> out[j] == HitsFrom(uuid, rows)[j]
    {
      out := out + [StoreHit(uuid(rows[i].id), uuid(rows[i].row.docId), rows[i].row.text, rows[i].score)];
    }
  }

  ghost predicate Searched(s: State, uuid: nat -> Fusion.Id, limit: int, keep: ChunkRow -> bool, hits: seq<StoreHit>) {
    exists rows :: Answer(s.db, limit, keep, rows) && hits == HitsFrom(uuid, rows)
  }

  /**
   A query whose keyword search runs at state `i` of a run and whose vector search at
   state `j`; anything may happen before, between and after.
   */
  ghost predicate QueryDuring(trace: seq<State>, i: nat, j: nat, uuid: nat -> Fusion.Id, matches: ChunkRow -> bool,
                              limit: nat, got: Retrieved)
    requires i <= j < |trace|
  {
    && (got.bm25.Some? ==> Searched(trace[i], uuid, limit, matches, got.bm25.value))
    && (got.vector.Some? ==> Searched(trace[j], uuid, limit, Embedded, got.vector.value))
  }

  /** The hit shows row `c`. */
  predicate HitOfRow(uuid: nat -> Fusion.Id, h: StoreHit, c: ChunkId, row: ChunkRow) {
    h.chunkId == uuid(c) && h.docId == uuid(row.docId) && h.snippet == row.text
  }

  lemma SearchedRow(s: State, uuid: nat -> Fusion.Id, limit: int, keep: ChunkRow -> bool, hits: seq<StoreHit>, h: StoreHit)
      returns (c: ChunkId)
    requires Searched(s, uuid, limit, keep, hits) && h in hits
    ensures c in Eligible(s.db) && HitOfRow(uuid, h, c, Eligible(s.db)[c])
  {
    var rows: seq<Scan> :| Answer(s.db, limit, keep, rows) && hits == HitsFrom(uuid, rows);
    var k :| 0 <= k < |hits| && hits[k] == h;
    assert ScanOk(s.db, keep, rows[k]);
    c := rows[k].id;
  }

  /** A search shows committed rows of docs that are not deleted; the vector search only rows with an embedding. */
  lemma SearchedRowIsLive(s: State, uuid: nat -> Fusion.Id, limit: int, keep: ChunkRow -> bool, hits: seq<StoreHit>, h: StoreHit)
      returns (c: ChunkId)
    requires Searched(s, uuid, limit, keep, hits) && h in hits
    ensures c in s.db.chunks && h.chunkId == uuid(c) && keep(s.db.chunks[c])
    ensures h.docId == uuid(s.db.chunks[c].docId) && h.snippet == s.db.chunks[c].text
    ensures s.db.chunks[c].docId in s.db.docs && s.db.docs[s.db.chunks[c].docId].deletedAt == None
    ensures keep == Embedded ==> s.db.chunks[c].embedding != None
    ensures |hits| <= if limit <= 0 then 50 else limit
  {
    var rows: seq<Scan> :| Answer(s.db, limit, keep, rows) && hits == HitsFrom(uuid, rows);
    var k :| 0 <= k < |hits| && hits[k] == h;
    assert ScanOk(s.db, keep, rows[k]);
    c := rows[k].id;
  }

  /** Every hit of either search shows a chunk row that was eligible when that search ran. */
  lemma FoundRow(trace: seq<State>, i: nat, j: nat, uuid: nat -> Fusion.Id, matches: ChunkRow -> bool, limit: nat,
                 got: Retrieved, h: StoreHit) returns (at: nat, c: ChunkId)
    requires i <= j < |trace| && QueryDuring(trace, i, j, uuid, matches, limit, got) && HybridTheorems.Found(got, h)
    ensures at == i || at == j
    ensures c in Eligible(trace[at].db) && HitOfRow(uuid, h, c, Eligible(trace[at].db)[c])
  {
    if got.bm25.Some? && h in got.bm25.value {
      at := i;
      c := SearchedRow(trace[i], uuid, limit, matches, got.bm25.value, h);
    } else {
      at := j;
      c := SearchedRow(trace[j], uuid, limit, Embedded, got.vector.value, h);
    }
  }

  /** A row once eligible is a row of history, and history is never rewritten. */
  lemma EligibleIsWritten(trace: seq<State>, at: nat, last: nat, c: ChunkId)
    requires Run(trace) && at <= last < |trace| && c in Eligible(trace[at].db)
    ensures c in trace[last].written && trace[last].written[c] == Eligible(trace[at].db)[c]
  {
    RunTables(trace, at);
    RunEvolves(trace, at, last);
  }

  lemma EligibleIsOther(trace: seq<State>, start: nat, p: Pid, d: DocId, at: nat, c: ChunkId)
    requires Run(trace) && start <= at < |trace| && c in Eligible(trace[at].db)
    requires p < |trace[start].procs| && DeletedBy(trace[start].procs[p], d)
    ensures Eligible(trace[at].db)[c].docId != d && c !in RowsOf(trace[|trace| - 1].written, d)
  {
    DeletedIffReported(trace, start, d);
    DeletedNeverEligible(trace, start, at, d, c);
    EligibleIsWritten(trace, at, |trace| - 1, c);
  }

  /** No search that runs after the delete returns a hit of the deleted doc. */
  lemma DeletedDocNotFound(trace: seq<State>, start: nat, p: Pid, d: DocId, i: nat, j: nat, uuid: nat -> Fusion.Id,
                           matches: ChunkRow -> bool, limit: nat, got: Retrieved, h: StoreHit)
    requires Run(trace) && start <= i <= j < |trace| && Injective(uuid)
    requires p < |trace[start].procs| && DeletedBy(trace[start].procs[p], d)
    requires QueryDuring(trace, i, j, uuid, matches, limit, got) && HybridTheorems.Found(got, h)
    ensures h.docId != uuid(d)
    ensures forall ch :: ch in RowsOf(trace[|trace| - 1].written, d) ==> h.chunkId != uuid(ch)
  {
    var at, c := FoundRow(trace, i, j, uuid, matches, limit, got, h);
    EligibleIsOther(trace, start, p, d, at, c);
  }

  /** Whatever fusion and reranking make of the hits, no result is of the deleted doc. */
  lemma FinishHidesDeleted(trace: seq<State>, start: nat, p: Pid, d: DocId, i: nat, j: nat, u: Rerank.Library,
                           c: Settings, q: Bytes, k: nat, mode: Mode, uuid: nat -> Fusion.Id,
                           matches: ChunkRow -> bool, got: Retrieved, x: nat)
    requires Run(trace) && start <= i <= j < |trace| && Injective(uuid) && Rerank.IsPositive(u.sqrt)
    requires p < |trace[start].procs| && DeletedBy(trace[start].procs[p], d)
    requires QueryDuring(trace, i, j, uuid, matches, c.perListLimit, got)
    requires Finish(u, c, q, k, mode, got).Ok? && x < |Finish(u, c, q, k, mode, got).value|
    ensures Finish(u, c, q, k, mode, got).value[x].docId != uuid(d)
    ensures forall ch :: ch in RowsOf(trace[|trace| - 1].written, d) ==>
      Finish(u, c, q, k, mode, got).value[x].chunkId != uuid(ch)
  {
    var res := Finish(u, c, q, k, mode, got).value[x];
    HybridTheorems.FinishShowsHits(u, c, q, k, mode, got, x);
    var h :| HybridTheorems.Found(got, h) && HybridTheorems.Shows(res, h);
    DeletedDocNotFound(trace, start, p, d, i, j, uuid, matches, c.perListLimit, got, h);
  }

  /**
   A query that begins after DeleteDoc(d) returned nil never shows a chunk of d, in any
   mode, with or without reranking, whatever else runs: neither the doc's id nor the
   id of any chunk row ever written for it appears in the results.
   */
  lemma DeletedDocNeverShown(trace: seq<State>, start: nat, p: Pid, d: DocId, i: nat, j: nat,
                             u: Rerank.Library, b: Backend, c: Settings, q: Bytes, k: int, mode: Mode,
                             uuid: nat -> Fusion.Id, matches: ChunkRow -> bool, x: nat)
    requires Run(trace) && start <= i <= j < |trace| && Injective(uuid) && Rerank.IsPositive(u.sqrt)
    requires p < |trace[start].procs| && DeletedBy(trace[start].procs[p], d)
    requires Retrieve(b, c.perListLimit, q, mode).Ok? ==>
      QueryDuring(trace, i, j, uuid, matches, c.perListLimit, Retrieve(b, c.perListLimit, q, mode).value)
    requires QueryOf(u, b, c, q, k, mode).Ok? && x < |QueryOf(u, b, c, q, k, mode).value|
    ensures QueryOf(u, b, c, q, k, mode).value[x].docId != uuid(d)
    ensures forall ch :: ch in RowsOf(trace[|trace| - 1].written, d) ==>
      QueryOf(u, b, c, q, k, mode).value[x].chunkId != uuid(ch)
  {
    FinishHidesDeleted(trace, start, p, d, i, j, u, c, q, OrDefault(k, 10), mode, uuid, matches,
                       Retrieve(b, c.perListLimit, q, mode).value, x);
  }

  /** Each result names the doc and shows the text of one chunk row that was really written. */
  lemma ResultsAreRows(trace: seq<State>, i: nat, j: nat, u: Rerank.Library, c: Settings, q: Bytes, k: nat, mode: Mode,
                       uuid: nat -> Fusion.Id, matches: ChunkRow -> bool, got: Retrieved, x: nat) returns (ch: ChunkId)
    requires Run(trace) && i <= j < |trace| && Rerank.IsPositive(u.sqrt)
    requires QueryDuring(trace, i, j, uuid, matches, c.perListLimit, got)
    requires Finish(u, c, q, k, mode, got).Ok? && x < |Finish(u, c, q, k, mode, got).value|
    ensures ch in trace[j].written
    ensures var res, row := Finish(u, c, q, k, mode, got).value[x], trace[j].written[ch];
      res.chunkId == uuid(ch) && res.docId == uuid(row.docId) && res.snippet == Truncate(row.text, SNIPPET_BYTES)
  {
    HybridTheorems.FinishShowsHits(u, c, q, k, mode, got, x);
    var h :| HybridTheorems.Found(got, h) && HybridTheorems.Shows(Finish(u, c, q, k, mode, got).value[x], h);
    var at;
    at, ch := FoundRow(trace, i, j, uuid, matches, c.perListLimit, got, h);
    EligibleIsWritten(trace, at, j, ch);
  }

  /** Two hits for one chunk agree on doc and text even when the searches saw different states. */
  lemma HitsAgree(trace: seq<State>, i: nat, j: nat, uuid: nat -> Fusion.Id, matches: ChunkRow -> bool, limit: nat,
                  got: Retrieved, g: StoreHit, h: StoreHit)
    requires Run(trace) && i <= j < |trace| && Injective(uuid)
    requires QueryDuring(trace, i, j, uuid, matches, limit, got)
    requires HybridTheorems.Found(got, g) && HybridTheorems.Found(got, h) && g.chunkId == h.chunkId
    ensures g.docId == h.docId && g.snippet == h.snippet
  {
    var m, ch := FoundRow(trace, i, j, uuid, matches, limit, got, g);
    var n, ch' := FoundRow(trace, i, j, uuid, matches, limit, got, h);
    EligibleIsWritten(trace, m, j, ch);
    EligibleIsWritten(trace, n, j, ch');
  }

  lemma SearchDuplicateFree(s: State, uuid: nat -> Fusion.Id, limit: int, keep: ChunkRow -> bool, hits: seq<StoreHit>)
    requires Injective(uuid) && Searched(s, uuid, limit, keep, hits)
    ensures FusionTheorems.DuplicateFree(HitsOf(hits))
  {
    var rows: seq<Scan> :| Answer(s.db, limit, keep, rows) && hits == HitsFrom(uuid, rows);
    forall m, n | 0 <= m < n < |hits| ensures HitsOf(hits)[m].id != HitsOf(hits)[n].id {
      assert rows[m].id != rows[n].id;
    }
  }

  /** The lists that a query fuses never contain a chunk twice, so the ranking laws of fusion apply to it. */
  lemma ListsDuplicateFree(trace: seq<State>, i: nat, j: nat, uuid: nat -> Fusion.Id, matches: ChunkRow -> bool,
                           limit: nat, got: Retrieved)
    requires i <= j < |trace| && Injective(uuid) && QueryDuring(trace, i, j, uuid, matches, limit, got)
    ensures FusionTheorems.AllDuplicateFree(ListsOf(got))
  {
    if got.bm25.Some? {
      SearchDuplicateFree(trace[i], uuid, limit, matches, got.bm25.value);
    }
    if got.vector.Some? {
      SearchDuplicateFree(trace[j], uuid, limit, Embedded, got.vector.value);
    }
  }

  /** In a plain query, a chunk that every search that found `worse` ranks above it is shown above it. */
  lemma BetterShownFirst(trace: seq<State>, i: nat, j: nat, u: Rerank.Library, c: Settings, q: Bytes, k: nat,
                         mode: Mode, uuid: nat -> Fusion.Id, matches: ChunkRow -> bool, got: Retrieved,
                         better: Fusion.Id, worse: Fusion.Id, y: nat)
    requires i <= j < |trace| && Injective(uuid) && Rerank.IsPositive(u.sqrt) && !Reranks(c, mode)
    requires QueryDuring(trace, i, j, uuid, matches, c.perListLimit, got)
    requires forall s :: s in ListsOf(got) ==> FusionTheorems.Ahead(ListsOf(got)[s], better, worse)
    requires Finish(u, c, q, k, mode, got).Ok? && y < |Finish(u, c, q, k, mode, got).value|
    requires Finish(u, c, q, k, mode, got).value[y].chunkId == worse
    ensures exists x :: 0 <= x < y && Finish(u, c, q, k, mode, got).value[x].chunkId == better
  {
    ListsDuplicateFree(trace, i, j, uuid, matches, c.perListLimit, got);
    var fused := Fusion.FuseOf(Fusion.DEFAULT_RRF_K, k, ListsOf(got));
    assert Finish(u, c, q, k, mode, got).value == FromFused(got, fused);
    FusionTheorems.Dominance(Fusion.DEFAULT_RRF_K, k, ListsOf(got), better, worse, y);
    var x :| 0 <= x < y && fused[x].id == better;
    assert Finish(u, c, q, k, mode, got).value[x].chunkId == better;
  }
}
