/** The promises of the store, stated over every run with any number of concurrent calls. */
module ProtocolTheorems {
  import opened Wrappers
  import opened Tables
  import opened Protocol
  import opened ProtocolSafety
  import opened ProtocolCommits
  import opened ProtocolRuns

  lemma RunProcOk(trace: seq<State>, i: nat, p: Pid)
    requires Run(trace) && i < |trace| && p < |trace[i].procs|
    ensures ProcOk(trace[i].db, trace[i].written, trace[i].procs[p])
  {
    RunInv(trace, i);
  }

  lemma RunTables(trace: seq<State>, i: nat)
    requires Run(trace) && i < |trace|
    ensures DeletionOk(trace[i].db, trace[i].written)
  {
    RunInv(trace, i);
  }

  lemma RunApart(trace: seq<State>, i: nat, p: Pid, q: Pid)
    requires Run(trace) && i < |trace| && p < |trace[i].procs| && q < |trace[i].procs| && p != q
    ensures Holds(trace[i].procs[p]) !! Holds(trace[i].procs[q])
  {
    RunInv(trace, i);
    HoldsApart(trace[i], p, q);
  }

  // ---------- soft delete ----------

  /**
   A committed tombstone exists for a doc exactly when its deleted_at is set, so
   the join in Compact's scan never hides a pending tombstone.
   */
  lemma TombstoneIffDeleted(trace: seq<State>, i: nat)
    requires Run(trace) && i < |trace|
    ensures forall d :: d in trace[i].db.docs ==> (IsDeleted(trace[i].db, d) <==> HasTombstone(trace[i].db, d))
    ensures forall t :: t in Pending(trace[i].db) <==> Scannable(trace[i].db, t)
  {
    RunInv(trace, i);
    var db := trace[i].db;
    forall t | t in Pending(db) ensures Scannable(db, t) {
      assert HasTombstone(db, db.tombs[t].docId);
    }
  }

  /** A doc is deleted exactly when some DeleteDoc call reported success. */
  lemma DeletedIffReported(trace: seq<State>, i: nat, d: DocId)
    requires Run(trace) && i < |trace|
    ensures IsDeleted(trace[i].db, d)
       <==> exists p :: 0 <= p < |trace[i].procs| && DeletedBy(trace[i].procs[p], d)
  {
    RunInv(trace, i);
    var s := trace[i];
    if p :| 0 <= p < |s.procs| && DeletedBy(s.procs[p], d) {
      assert ProcOk(s.db, s.written, s.procs[p]);
    }
  }

  /** Of any number of concurrent or repeated DeleteDoc calls on one id, at most one succeeds. */
  lemma OneDeleteSucceeds(trace: seq<State>, i: nat, p: Pid, q: Pid, d: DocId)
    requires Run(trace) && i < |trace|
    requires p < |trace[i].procs| && q < |trace[i].procs|
    requires DeletedBy(trace[i].procs[p], d) && DeletedBy(trace[i].procs[q], d)
    ensures p == q
  {
    assert Deleter(d) in Holds(trace[i].procs[p]) && Deleter(d) in Holds(trace[i].procs[q]);
    if p != q {
      RunApart(trace, i, p, q);
    }
  }

  /** A DeleteDoc that starts after another one succeeded can only report ErrNotFound. */
  lemma LaterDeleteNotFound(trace: seq<State>, i: nat, j: nat, p: Pid, d: DocId)
    requires Run(trace) && i <= j < |trace|
    requires IsDeleted(trace[i].db, d)
    requires |trace[i].procs| <= p < |trace[j].procs|
    requires trace[j].procs[p].DeleteReturned? && trace[j].procs[p].id == d
    ensures !trace[j].procs[p].ok
  {
    if trace[j].procs[p].ok {
      DeletedIffReported(trace, i, d);
      var q :| 0 <= q < |trace[i].procs| && DeletedBy(trace[i].procs[q], d);
      RunEvolves(trace, i, j);
      OneDeleteSucceeds(trace, j, p, q, d);
    }
  }

  /** The statement by which a DeleteDoc call reports ErrNotFound finds the row missing or deleted. */
  lemma NotFoundStep(s: State, l: Label, p: Pid, d: DocId)
    requires Enabled(s, l) && p < |Next(s, l).procs| && Next(s, l).procs[p] == DeleteReturned(d, false)
    requires p < |s.procs| ==> s.procs[p] != DeleteReturned(d, false)
    ensures p < |s.procs| && !Live(s.db, d)
  {
  }

  /** Before a call that reported ErrNotFound did so, there was a state in which the doc was not live. */
  lemma {:induction false} NotFoundSeen(trace: seq<State>, i: nat, j: nat, p: Pid, d: DocId) returns (k: nat)
    requires Run(trace) && i <= j < |trace|
    requires |trace[i].procs| <= p < |trace[j].procs| && trace[j].procs[p] == DeleteReturned(d, false)
    ensures i <= k < j && !Live(trace[k].db, d)
    decreases j
  {
    k := j - 1;
    assert Step(trace[k], trace[j]);
    var l :| Enabled(trace[k], l) && trace[j] == Next(trace[k], l);
    if p < |trace[k].procs| && trace[k].procs[p] == DeleteReturned(d, false) {
      k := NotFoundSeen(trace, i, k, p, d);
    } else {
      NotFoundStep(trace[k], l, p, d);
    }
  }

  /** ErrNotFound for a doc that existed when the call started means that some call has deleted it. */
  lemma NotFoundMeansDeleted(trace: seq<State>, i: nat, j: nat, p: Pid, d: DocId)
    requires Run(trace) && i <= j < |trace| && d in trace[i].db.docs
    requires |trace[i].procs| <= p < |trace[j].procs| && trace[j].procs[p] == DeleteReturned(d, false)
    ensures IsDeleted(trace[j].db, d)
  {
    var k := NotFoundSeen(trace, i, j, p, d);
    RunEvolves(trace, i, k);
    DeletedForever(trace, k, j, d);
  }

  /**
   As soon as any DeleteDoc call on an existing doc has returned, with nil or with
   ErrNotFound, exactly one of all DeleteDoc calls on that id has succeeded.
   */
  lemma ExactlyOneDeleteSucceeds(trace: seq<State>, i: nat, j: nat, p: Pid, d: DocId) returns (winner: Pid)
    requires Run(trace) && i <= j < |trace| && d in trace[i].db.docs
    requires |trace[i].procs| <= p < |trace[j].procs|
    requires trace[j].procs[p].DeleteReturned? && trace[j].procs[p].id == d
    ensures winner < |trace[j].procs| && DeletedBy(trace[j].procs[winner], d)
    ensures forall q :: 0 <= q < |trace[j].procs| && DeletedBy(trace[j].procs[q], d) ==> q == winner
  {
    if trace[j].procs[p].ok {
      winner := p;
    } else {
      NotFoundMeansDeleted(trace, i, j, p, d);
      DeletedIffReported(trace, j, d);
      winner :| 0 <= winner < |trace[j].procs| && DeletedBy(trace[j].procs[winner], d);
    }
    forall q | 0 <= q < |trace[j].procs| && DeletedBy(trace[j].procs[q], d) ensures q == winner {
      OneDeleteSucceeds(trace, j, q, winner, d);
    }
  }

  /** The tombstone insert never conflicts and never waits: the row lock already decided the race. */
  lemma TombstoneNeverConflicts(trace: seq<State>, i: nat, l: Label)
    requires Run(trace) && i < |trace|
    requires Enabled(trace[i], l)
    ensures !l.TombstoneConflict?
  {
    if !l.Start? {
      RunProcOk(trace, i, l.pid);
      RunTables(trace, i);
    }
  }

  lemma ClaimNeedsLock(p: Proc, d: DocId)
    ensures TombClaim(d) in Holds(p) ==> DocLock(d) in Holds(p)
  {
  }

  lemma TombstoneNeverWaits(trace: seq<State>, i: nat, p: Pid)
    requires Run(trace) && i < |trace|
    requires p < |trace[i].procs| && trace[i].procs[p].DeleteMarked?
    ensures Free(trace[i], p, TombClaim(trace[i].procs[p].id))
  {
    var procs := trace[i].procs;
    var d := procs[p].id;
    assert DocLock(d) in Holds(procs[p]);
    forall q | 0 <= q < |procs| && q != p ensures TombClaim(d) !in Holds(procs[q]) {
      RunApart(trace, i, p, q);
      ClaimNeedsLock(procs[q], d);
    }
  }

  /** Deletion is for good: no later call of any kind brings the doc back. */
  lemma DeletedForever(trace: seq<State>, i: nat, j: nat, d: DocId)
    requires Run(trace) && i <= j < |trace|
    requires IsDeleted(trace[i].db, d)
    ensures IsDeleted(trace[j].db, d)
  {
    RunEvolves(trace, i, j);
  }

  /** A hash whose doc was deleted never becomes live again, however often it is re-indexed. */
  lemma DeletedHashNeverLive(trace: seq<State>, i: nat, j: nat, d: DocId, e: DocId)
    requires Run(trace) && i <= j < |trace|
    requires IsDeleted(trace[i].db, d)
    requires e in trace[j].db.docs && trace[j].db.docs[e].doc.hash == trace[i].db.docs[d].doc.hash
    ensures e == d && !Live(trace[j].db, e)
  {
    RunEvolves(trace, i, j);
    RunInv(trace, j);
  }

  // ---------- idempotent upsert ----------

  /** After a hash conflict the lookup always finds the existing doc. */
  lemma LookupNeverMisses(trace: seq<State>, i: nat, l: Label)
    requires Run(trace) && i < |trace|
    requires Enabled(trace[i], l)
    ensures !l.LookupMiss?
  {
    if !l.Start? {
      RunProcOk(trace, i, l.pid);
    }
  }

  /** All upserts of one hash, at whatever points of the run they return, return one id. */
  lemma SameHashSameId(trace: seq<State>, i: nat, j: nat, p: Pid, q: Pid)
    requires Run(trace) && i <= j < |trace|
    requires p < |trace[i].procs| && trace[i].procs[p].UpsertReturned?
    requires q < |trace[j].procs| && trace[j].procs[q].UpsertReturned?
    ensures trace[i].procs[p].id == trace[j].procs[q].id
       <==> trace[i].procs[p].doc.hash == trace[j].procs[q].doc.hash
  {
    RunEvolves(trace, i, j);
    RunInv(trace, j);
    var t := trace[j];
    assert t.procs[p] == trace[i].procs[p];
    assert ProcOk(t.db, t.written, t.procs[p]);
    assert ProcOk(t.db, t.written, t.procs[q]);
  }

  /** At most one upsert of a hash reports that it created the doc. */
  lemma OneCreator(trace: seq<State>, i: nat, p: Pid, q: Pid)
    requires Run(trace) && i < |trace|
    requires p < |trace[i].procs| && trace[i].procs[p].UpsertReturned? && !trace[i].procs[p].existed
    requires q < |trace[i].procs| && trace[i].procs[q].UpsertReturned? && !trace[i].procs[q].existed
    requires trace[i].procs[p].doc.hash == trace[i].procs[q].doc.hash
    ensures p == q
  {
    SameHashSameId(trace, i, i, p, q);
    assert DocKey(trace[i].procs[p].id) in Holds(trace[i].procs[p]) * Holds(trace[i].procs[q]);
    if p != q {
      RunApart(trace, i, p, q);
    }
  }

  /** `p` reports the count of the call `q` that created its doc, or 0 on a conflict. */
  predicate CountAgrees(p: Proc, q: Proc)
    requires p.UpsertReturned?
  {
    Created(q, p.id) && (p.n == q.n || (p.existed && p.n == 0))
  }

  /**
   The chunk count reported on a conflict is the count the creating call reported,
   or 0 once the doc's chunks have been compacted away: never a partial count.
   */
  lemma ConflictCountWholeOrZero(trace: seq<State>, i: nat, p: Pid)
    requires Run(trace) && i < |trace|
    requires p < |trace[i].procs| && trace[i].procs[p].UpsertReturned?
    ensures exists q :: 0 <= q < |trace[i].procs| && CountAgrees(trace[i].procs[p], trace[i].procs[q])
  {
    RunInv(trace, i);
    var s := trace[i];
    assert ProcOk(s.db, s.written, s.procs[p]);
    var q :| 0 <= q < |s.procs| && Created(s.procs[q], s.procs[p].id);
    assert ProcOk(s.db, s.written, s.procs[q]);
    assert CountAgrees(s.procs[p], s.procs[q]);
  }

  // ---------- times ----------

  /** The step in which call `p` inserted the docs row `d` at time `at`. */
  ghost predicate InsertsDoc(s: State, t: State, p: Pid, d: DocId, at: Time) {
    Enabled(s, InsertDoc(p, d, at)) && t == Next(s, InsertDoc(p, d, at))
  }

  lemma ClaimStep(s: State, l: Label, p: Pid)
    requires Enabled(s, l) && p < |Next(s, l).procs|
    requires Next(s, l).procs[p].UpsertClaimed? || Next(s, l).procs[p].UpsertWritten?
    ensures var x := Next(s, l).procs[p];
      || l == InsertDoc(p, x.id, x.createdAt)
      || (p < |s.procs| && (s.procs[p].UpsertClaimed? || s.procs[p].UpsertWritten?)
          && s.procs[p].id == x.id && s.procs[p].createdAt == x.createdAt)
  {
  }

  lemma {:induction false} ClaimedWhen(trace: seq<State>, j: nat, p: Pid) returns (k: nat)
    requires Run(trace) && j < |trace| && p < |trace[j].procs|
    requires trace[j].procs[p].UpsertClaimed? || trace[j].procs[p].UpsertWritten?
    ensures k < j && InsertsDoc(trace[k], trace[k + 1], p, trace[j].procs[p].id, trace[j].procs[p].createdAt)
    decreases j
  {
    k := j - 1;
    assert Step(trace[k], trace[j]);
    var l :| Enabled(trace[k], l) && trace[j] == Next(trace[k], l);
    ClaimStep(trace[k], l, p);
    if l != InsertDoc(p, trace[j].procs[p].id, trace[j].procs[p].createdAt) {
      k := ClaimedWhen(trace, k, p);
    }
  }

  lemma NewDocStep(s: State, l: Label, d: DocId)
    requires Enabled(s, l) && d in Next(s, l).db.docs && d !in s.db.docs
    ensures !l.Start? && s.procs[l.pid].UpsertWritten? && s.procs[l.pid].id == d
    ensures Next(s, l).db.docs[d] == DocRow(s.procs[l.pid].doc, s.procs[l.pid].createdAt, None)
  {
  }

  lemma Inserter(trace: seq<State>, j: nat, d: DocId) returns (p: Pid)
    requires Run(trace) && 0 < j < |trace| && d in trace[j].db.docs && d !in trace[j - 1].db.docs
    ensures p < |trace[j - 1].procs| && trace[j - 1].procs[p].UpsertWritten? && trace[j - 1].procs[p].id == d
    ensures trace[j].db.docs[d].createdAt == trace[j - 1].procs[p].createdAt
  {
    assert Step(trace[j - 1], trace[j]);
    var l :| Enabled(trace[j - 1], l) && trace[j] == Next(trace[j - 1], l);
    NewDocStep(trace[j - 1], l, d);
    p := l.pid;
  }

  /** Every committed doc's created_at is the time that its inserting statement took. */
  lemma {:induction false} CreatedWhenInserted(trace: seq<State>, j: nat, d: DocId) returns (k: nat, p: Pid)
    requires Run(trace) && j < |trace| && d in trace[j].db.docs
    ensures k < j && InsertsDoc(trace[k], trace[k + 1], p, d, trace[j].db.docs[d].createdAt)
    decreases j
  {
    assert j > 0;
    if d in trace[j - 1].db.docs {
      RunEvolves(trace, j - 1, j);
      k, p := CreatedWhenInserted(trace, j - 1, d);
    } else {
      p := Inserter(trace, j, d);
      k := ClaimedWhen(trace, j - 1, p);
    }
  }

  predicate TimesAgree(db: Tables, t: TombId) {
    t in db.tombs ==> db.tombs[t].docId in db.docs && db.docs[db.tombs[t].docId].deletedAt == Some(db.tombs[t].deletedAt)
  }

  lemma NewTombstoneStep(s: State, l: Label, t: TombId)
    requires Enabled(s, l) && t in Next(s, l).db.tombs && t !in s.db.tombs
    requires !l.Start? ==> ProcOk(s.db, s.written, s.procs[l.pid])
    ensures TimesAgree(Next(s, l).db, t)
  {
  }

  lemma OldTombstoneStep(s: State, u: State, t: TombId)
    requires DocsEvolve(s.db, u.db) && TombsEvolve(s.db, u.db) && t in s.db.tombs && TimesAgree(s.db, t)
    ensures TimesAgree(u.db, t)
  {
  }

  /** A tombstone's deleted_at is the deleted_at of its doc, in every state of a run. */
  lemma {:induction false} TombstoneTime(trace: seq<State>, j: nat, t: TombId)
    requires Run(trace) && j < |trace|
    ensures TimesAgree(trace[j].db, t)
    decreases j
  {
    if j > 0 && t in trace[j].db.tombs {
      TombstoneTime(trace, j - 1, t);
      assert Step(trace[j - 1], trace[j]);
      if t in trace[j - 1].db.tombs {
        RunEvolves(trace, j - 1, j);
        OldTombstoneStep(trace[j - 1], trace[j], t);
      } else {
        var l :| Enabled(trace[j - 1], l) && trace[j] == Next(trace[j - 1], l);
        if !l.Start? {
          RunProcOk(trace, j - 1, l.pid);
        }
        NewTombstoneStep(trace[j - 1], l, t);
      }
    }
  }

  // ---------- compaction ----------

  lemma ChunksLost(s: State, l: Label, c: ChunkId)
    requires Enabled(s, l) && !l.Start? && c in s.db.chunks && c !in Next(s, l).db.chunks
    ensures l.CommitCompact? && c in s.procs[l.pid].mine
  {
  }

  /** Whatever runs, the only chunk rows a statement can remove belong to deleted docs. */
  lemma OnlyDeletedDocsLoseChunks(trace: seq<State>, i: nat, l: Label, c: ChunkId)
    requires Run(trace) && i < |trace|
    requires Enabled(trace[i], l)
    requires c in trace[i].db.chunks && c !in Next(trace[i], l).db.chunks
    ensures l.CommitCompact? && IsDeleted(trace[i].db, trace[i].db.chunks[c].docId)
  {
    var s := trace[i];
    if !l.Start? {
      RunProcOk(trace, i, l.pid);
      ChunksLost(s, l, c);
    }
  }

  /** The chunk rows of a doc, ids and contents. */
  ghost function Contents(db: Tables, d: DocId): map<ChunkId, ChunkRow> {
    map c | c in RowsOf(db.chunks, d) :: db.chunks[c]
  }

  /** While a doc is live its chunk rows are exactly those its insert committed. */
  lemma LiveChunksStable(trace: seq<State>, i: nat, j: nat, d: DocId)
    requires Run(trace) && i <= j < |trace|
    requires d in trace[i].db.docs && Live(trace[j].db, d)
    ensures Live(trace[i].db, d) && Contents(trace[i].db, d) == Contents(trace[j].db, d)
  {
    RunEvolves(trace, i, j);
    RunInv(trace, i);
    RunInv(trace, j);
    LiveIsWhole(trace[i], d);
    LiveIsWhole(trace[j], d);
    WrittenOnce(trace[i], trace[j], d);
    SameContents(trace[i], trace[j], d);
  }

  lemma SameContents(s: State, t: State, d: DocId)
    requires DeletionOk(s.db, s.written) && DeletionOk(t.db, t.written) && ChunksEvolve(s, t)
    requires RowsOf(s.db.chunks, d) == RowsOf(t.db.chunks, d)
    ensures Contents(s.db, d) == Contents(t.db, d)
  {
    forall c | c in RowsOf(s.db.chunks, d) ensures s.db.chunks[c] == t.db.chunks[c] {
      assert c in RowsOf(t.db.chunks, d);
    }
  }

  lemma LiveIsWhole(s: State, d: DocId)
    requires DeletionOk(s.db, s.written)
    requires Live(s.db, d)
    ensures RowsOf(s.db.chunks, d) == RowsOf(s.written, d)
  {
    CountIsWholeOrNothing(s.db, s.written, d);
  }

  lemma WrittenOnce(s: State, t: State, d: DocId)
    requires d in s.db.docs && ChunksEvolve(s, t)
    ensures RowsOf(s.written, d) == RowsOf(t.written, d)
  {
  }

  /** Once a tombstone is compacted its doc has no chunks in that state or any later one. */
  lemma CompactedStaysEmpty(trace: seq<State>, i: nat, j: nat, d: DocId)
    requires Run(trace) && i <= j < |trace|
    requires HasCompactedTombstone(trace[i].db, d)
    ensures RowsOf(trace[j].db.chunks, d) == {}
  {
    RunEvolves(trace, i, j);
    RunInv(trace, j);
    var u :| u in trace[i].db.tombs && trace[i].db.tombs[u].docId == d && trace[i].db.tombs[u].compactedAt.Some?;
    assert HasCompactedTombstone(trace[j].db, d) by {
      assert u in trace[j].db.tombs && trace[j].db.tombs[u].docId == d;
    }
    CountIsWholeOrNothing(trace[j].db, trace[j].written, d);
  }

  /**
   Conservation: rows ever committed to doc_chunks are the rows present plus those
   that Compact calls have reported as deleted, so no row is reported twice.
   */
  lemma ChunksConserved(trace: seq<State>, i: nat)
    requires Run(trace) && i < |trace|
    ensures |trace[i].written| == |trace[i].db.chunks| + Reported(trace[i].procs)
    ensures forall c :: c in trace[i].db.chunks ==> c in trace[i].written
  {
    RunInv(trace, i);
  }

  /** One Compact run picks a pending tombstone with the earliest deleted_at, never one it has already compacted. */
  lemma PickIsNew(trace: seq<State>, i: nat, l: Label)
    requires Run(trace) && i < |trace|
    requires l.ScanTombstone? && Enabled(trace[i], l)
    ensures l.tomb !in trace[i].procs[l.pid].done && l.tomb in Pending(trace[i].db)
    ensures forall u :: u in Pending(trace[i].db) ==>
      trace[i].db.tombs[l.tomb].deletedAt <= trace[i].db.tombs[u].deletedAt
  {
    RunProcOk(trace, i, l.pid);
    TombstoneIffDeleted(trace, i);
  }

  /** Its Tombstones counter is exact and bounded by the compacted tombstones there are. */
  lemma CompactRunBounded(trace: seq<State>, i: nat, p: Pid)
    requires Run(trace) && i < |trace|
    requires p < |trace[i].procs| && Compacting(trace[i].procs[p])
    ensures trace[i].procs[p].res.tombstones == |trace[i].procs[p].done|
    ensures trace[i].procs[p].done <= trace[i].db.tombs.Keys - Pending(trace[i].db)
    ensures trace[i].procs[p].res.tombstones <= |trace[i].db.tombs.Keys - Pending(trace[i].db)|
  {
    var s := trace[i];
    RunProcOk(trace, i, p);
    SubsetSize(s.procs[p].done, s.db.tombs.Keys - Pending(s.db));
  }

  lemma {:induction false} SubsetSize<T>(a: set<T>, b: set<T>)
    requires a <= b
    ensures |a| <= |b|
    ensures |a| == |b| ==> a == b
  {
    if a != {} {
      var x :| x in a;
      SubsetSize(a - {x}, b - {x});
      assert a == (a - {x}) + {x} && b == (b - {x}) + {x};
    }
  }

  /** The tombstones a Compact call has finished or is working on. */
  function Taken(p: Proc): set<TombId>
    requires Compacting(p)
  {
    p.done + (if p.CompactPicked? || p.CompactDeleting? || p.CompactMarked? then {p.tomb} else {})
  }

  lemma TakenStep(s: State, l: Label, p: Pid)
    requires Enabled(s, l) && p < |s.procs| && Compacting(s.procs[p])
    ensures Compacting(Next(s, l).procs[p])
    ensures Taken(Next(s, l).procs[p]) <= Taken(s.procs[p]) + Pending(s.db)
  {
  }

  lemma RunTaken(trace: seq<State>, j: nat, p: Pid)
    requires Run(trace) && 0 < j < |trace|
    requires p < |trace[j - 1].procs| && Compacting(trace[j - 1].procs[p])
    ensures p < |trace[j].procs| && Compacting(trace[j].procs[p])
    ensures Taken(trace[j].procs[p]) <= Taken(trace[j - 1].procs[p]) + Pending(trace[j - 1].db)
  {
    assert Step(trace[j - 1], trace[j]);
    var l :| Enabled(trace[j - 1], l) && trace[j] == Next(trace[j - 1], l);
    TakenStep(trace[j - 1], l, p);
  }

  lemma PendingCameFrom(trace: seq<State>, i: nat, j: nat)
    requires Run(trace) && i <= j < |trace|
    ensures forall u :: u in Pending(trace[j].db) && u in trace[i].db.tombs ==> u in Pending(trace[i].db)
  {
    RunEvolves(trace, i, j);
  }

  /** Whatever a Compact call takes on after state `i` was pending at `i` or came later. */
  lemma {:induction false} TakenWerePending(trace: seq<State>, i: nat, j: nat, p: Pid)
    requires Run(trace) && i <= j < |trace|
    requires p < |trace[i].procs| && trace[i].procs[p].CompactScan?
    ensures p < |trace[j].procs| && Compacting(trace[j].procs[p])
    ensures forall t :: t in Taken(trace[j].procs[p]) && t in trace[i].db.tombs ==>
      t in trace[i].procs[p].done || t in Pending(trace[i].db)
    decreases j
  {
    if i < j {
      TakenWerePending(trace, i, j - 1, p);
      RunTaken(trace, j, p);
      PendingCameFrom(trace, i, j - 1);
    }
  }

  /**
   Termination measure of a Compact run: as long as no DeleteDoc commits, between
   two of its scans with a cleanup in between there are strictly fewer pending
   tombstones, whatever other compactors do.
   */
  lemma CleanupShrinksPending(trace: seq<State>, i: nat, j: nat, p: Pid)
    requires Run(trace) && i <= j < |trace|
    requires p < |trace[i].procs| && trace[i].procs[p].CompactScan?
    requires p < |trace[j].procs| && trace[j].procs[p].CompactScan?
    requires trace[j].procs[p].res.tombstones > trace[i].procs[p].res.tombstones
    requires trace[j].db.tombs.Keys == trace[i].db.tombs.Keys
    ensures |Pending(trace[j].db)| < |Pending(trace[i].db)|
  {
    RunEvolves(trace, i, j);
    CompactRunBounded(trace, i, p);
    CompactRunBounded(trace, j, p);
    TakenWerePending(trace, i, j, p);
    var before, after := trace[i].procs[p].done, trace[j].procs[p].done;
    assert after - before != {} by {
      if after <= before {
        SubsetSize(after, before);
      }
    }
    var t :| t in after - before;
    assert t in Pending(trace[i].db) && t !in Pending(trace[j].db);
    assert Pending(trace[j].db) <= Pending(trace[i].db) - {t};
    SubsetSize(Pending(trace[j].db), Pending(trace[i].db) - {t});
  }

  // ---------- readers ----------

  datatype ReadError = NotFound

  datatype Doc = Doc(id: DocId, contents: NewDoc, createdAt: Time, deletedAt: Option<Time>)

  function GetDoc(db: Tables, id: DocId): Result<Doc, ReadError> {
    if id !in db.docs then Err(NotFound)
    else if db.docs[id].deletedAt.Some? then Err(NotFound)
    else Ok(Doc(id, db.docs[id].doc, db.docs[id].createdAt, db.docs[id].deletedAt))
  }

  /** The rows either search may return: chunks joined to a docs row that is not deleted. */
  function Eligible(db: Tables): map<ChunkId, ChunkRow> {
    map c | c in db.chunks && Live(db, db.chunks[c].docId) :: db.chunks[c]
  }

  /** A doc answers GetDoc with the same fields until it is deleted, and never afterwards. */
  lemma GetDocUntilDeleted(trace: seq<State>, i: nat, j: nat, d: DocId)
    requires Run(trace) && i <= j < |trace|
    requires d in trace[i].db.docs
    ensures GetDoc(trace[j].db, d) ==
      if IsDeleted(trace[j].db, d) then Err(NotFound)
      else Ok(Doc(d, trace[i].db.docs[d].doc, trace[i].db.docs[d].createdAt, None))
    ensures IsDeleted(trace[i].db, d) ==> GetDoc(trace[j].db, d) == Err(NotFound)
  {
    RunEvolves(trace, i, j);
  }

  /** Once deleted, no chunk of the doc is eligible in any later state. */
  lemma DeletedNeverEligible(trace: seq<State>, i: nat, j: nat, d: DocId, c: ChunkId)
    requires Run(trace) && i <= j < |trace|
    requires IsDeleted(trace[i].db, d)
    requires c in Eligible(trace[j].db)
    ensures Eligible(trace[j].db)[c].docId != d
  {
    DeletedForever(trace, i, j, d);
  }

  /** The eligible rows are exactly all rows ever written for docs that are live now. */
  lemma EligibleIsLiveHistory(trace: seq<State>, i: nat)
    requires Run(trace) && i < |trace|
    ensures Eligible(trace[i].db) ==
      map c | c in trace[i].written && Live(trace[i].db, trace[i].written[c].docId) :: trace[i].written[c]
  {
    RunTables(trace, i);
    var s := trace[i];
    forall c | c in s.written && Live(s.db, s.written[c].docId) ensures c in s.db.chunks {
      LiveIsWhole(s, s.written[c].docId);
      assert c in RowsOf(s.written, s.written[c].docId);
    }
  }

  lemma ReclaimKeepsEligible(db: Tables, p: Proc)
    requires p.CompactMarked? && p.mine == RowsOf(db.chunks, p.id) && IsDeleted(db, p.id)
    ensures Eligible(Reclaimed(db, p)) == Eligible(db)
  {
    forall c | c in Eligible(db) ensures c in Eligible(Reclaimed(db, p)) {
      assert c !in RowsOf(db.chunks, p.id);
    }
  }

  /** No statement of Compact, and no rollback, changes what either search may return. */
  lemma CompactInvisible(trace: seq<State>, i: nat, l: Label)
    requires Run(trace) && i < |trace|
    requires Enabled(trace[i], l) && (IsCompact(l) || l.Abort?)
    ensures Eligible(Next(trace[i], l).db) == Eligible(trace[i].db)
  {
    if l.CommitCompact? {
      RunProcOk(trace, i, l.pid);
      ReclaimKeepsEligible(trace[i].db, trace[i].procs[l.pid]);
    }
  }
}
