/** The inductive invariant of the protocol, and that every statement keeps it. */
module ProtocolSafety {
  import opened Wrappers
  import opened Tables
  import opened Protocol

  /** No resource is held twice. */
  ghost predicate Exclusive(procs: seq<Proc>) {
    forall p, q :: 0 <= p < q < |procs| ==> Holds(procs[p]) !! Holds(procs[q])
  }

  /** A deleted doc is one with a tombstone. */
  ghost predicate FlagsOk(db: Tables) {
    forall d :: d in db.docs ==> (db.docs[d].deletedAt.Some? <==> HasTombstone(db, d))
  }

  /** A compacted doc has no chunks left, and any other doc has all it was ever given. */
  ghost predicate KeptOk(db: Tables, written: map<ChunkId, ChunkRow>) {
    && (forall c :: c in db.chunks ==> c in written && written[c] == db.chunks[c])
    && (forall c :: c in db.chunks ==> !HasCompactedTombstone(db, db.chunks[c].docId))
    && (forall c :: c in written ==> c in db.chunks || HasCompactedTombstone(db, written[c].docId))
    && (forall c :: c in written ==> written[c].docId in db.docs)
  }

  ghost predicate DeletionOk(db: Tables, written: map<ChunkId, ChunkRow>) {
    FlagsOk(db) && KeptOk(db, written)
  }

  /** What the locals of one process say about the committed tables. */
  ghost predicate ProcOk(db: Tables, written: map<ChunkId, ChunkRow>, p: Proc) {
    match p
    case UpsertClaimed(doc, _, id, _) =>
      id != NIL_ID && id !in db.docs && !HashTaken(db, doc.hash)
    case UpsertWritten(doc, id, _, rows) =>
      && id != NIL_ID && id !in db.docs && !HashTaken(db, doc.hash)
      && UniqueIndexes(rows)
      && (forall c :: c in rows ==> c !in written && rows[c].docId == id)
    case UpsertConflict(doc) => HashTaken(db, doc.hash)
    case UpsertFound(doc, id) => id in db.docs && db.docs[id].doc.hash == doc.hash
    case UpsertCounted(doc, id, n) =>
      id in db.docs && db.docs[id].doc.hash == doc.hash && (n == 0 || n == |RowsOf(written, id)|)
    case UpsertReturned(doc, id, n, existed) =>
      && id in db.docs && db.docs[id].doc.hash == doc.hash
      && (n == |RowsOf(written, id)| || (existed && n == 0))
    case DeleteHeld(id, _) => Live(db, id)
    case DeleteMarked(id, _) => Live(db, id)
    case DeleteTombed(id, _, newTomb) => Live(db, id) && newTomb.Some? && newTomb.value !in db.tombs
    case DeleteReturned(id, ok) => ok ==> IsDeleted(db, id)
    case CompactScan(res, done) => RunOk(db, res, done)
    case CompactPicked(tomb, id, res, done) => PickOk(db, tomb, id, done) && RunOk(db, res, done)
    case CompactDeleting(tomb, id, todo, mine, res, done) =>
      && PickOk(db, tomb, id, done) && RunOk(db, res, done)
      && mine <= RowsOf(db.chunks, id) <= mine + todo
      && todo <= RowsOf(written, id)
    case CompactMarked(tomb, id, mine, _, res, done) =>
      PickOk(db, tomb, id, done) && RunOk(db, res, done) && mine == RowsOf(db.chunks, id)
    case CompactReturned(res, done, _) => RunOk(db, res, done)
    case _ => true
  }

  ghost predicate PickOk(db: Tables, tomb: TombId, id: DocId, done: set<TombId>) {
    tomb in db.tombs && db.tombs[tomb].docId == id && IsDeleted(db, id) && tomb !in done
  }

  /** The counter of one Compact run is the number of distinct tombstones it compacted. */
  ghost predicate RunOk(db: Tables, res: CompactResult, done: set<TombId>) {
    && res.tombstones == |done|
    && (forall t :: t in done ==> t in db.tombs && db.tombs[t].compactedAt.Some?)
  }

  predicate Created(p: Proc, d: DocId) {
    p.UpsertReturned? && p.id == d && !p.existed
  }

  predicate DeletedBy(p: Proc, d: DocId) {
    p == DeleteReturned(d, true)
  }

  /** Every doc has the call that created it, and every deleted doc the call that deleted it. */
  ghost predicate Accounted(s: State) {
    && (forall d :: d in s.db.docs ==> exists p :: 0 <= p < |s.procs| && Created(s.procs[p], d))
    && (forall d :: IsDeleted(s.db, d) ==> exists p :: 0 <= p < |s.procs| && DeletedBy(s.procs[p], d))
  }

  /** Chunk rows that the call `p` has reported as deleted so far. */
  function ReportedBy(p: Proc): nat {
    if p.CompactScan? || p.CompactPicked? || p.CompactDeleting? || p.CompactMarked? || p.CompactReturned?
    then p.res.chunksDeleted
    else 0
  }

  function Reported(procs: seq<Proc>): nat {
    if procs == [] then 0 else Reported(procs[..|procs| - 1]) + ReportedBy(procs[|procs| - 1])
  }

  ghost predicate Conserved(s: State) {
    |s.written| == |s.db.chunks| + Reported(s.procs)
  }

  ghost predicate Inv(s: State) {
    && SchemaOk(s.db)
    && DeletionOk(s.db, s.written)
    && Exclusive(s.procs)
    && (forall p :: 0 <= p < |s.procs| ==> ProcOk(s.db, s.written, s.procs[p]))
    && Accounted(s)
    && Conserved(s)
  }

  // ---------- bookkeeping of processes ----------

  lemma {:induction false} ReportedUpdate(procs: seq<Proc>, p: Pid, x: Proc)
    requires p < |procs|
    ensures Reported(procs[p := x]) == Reported(procs) - ReportedBy(procs[p]) + ReportedBy(x)
  {
    var n := |procs| - 1;
    if p == n {
      assert procs[p := x][..n] == procs[..n];
    } else {
      assert procs[p := x][..n] == procs[..n][p := x];
      ReportedUpdate(procs[..n], p, x);
    }
  }

  /** Taking only free resources keeps them exclusive. */
  lemma ExclusiveUpdate(s: State, p: Pid, x: Proc)
    requires p < |s.procs| && Exclusive(s.procs)
    requires forall r :: r in Holds(x) ==> r in Holds(s.procs[p]) || Free(s, p, r)
    ensures Exclusive(s.procs[p := x])
  {
    var procs := s.procs[p := x];
    forall i, j | 0 <= i < j < |procs|
      ensures Holds(procs[i]) !! Holds(procs[j])
    {
      if i == p {
        forall r | r in Holds(x) ensures r !in Holds(s.procs[j]) { }
      } else if j == p {
        forall r | r in Holds(x) ensures r !in Holds(s.procs[i]) { }
      }
    }
  }

  /** A process that neither created a doc nor won a delete may move on freely. */
  lemma AccountedUpdate(s: State, p: Pid, x: Proc)
    requires p < |s.procs| && Accounted(s)
    requires forall d :: Created(s.procs[p], d) ==> Created(x, d)
    requires forall d :: DeletedBy(s.procs[p], d) ==> DeletedBy(x, d)
    ensures Accounted(s.(procs := s.procs[p := x]))
  {
    var procs := s.procs[p := x];
    forall d | d in s.db.docs ensures exists q :: 0 <= q < |procs| && Created(procs[q], d) {
      var q :| 0 <= q < |s.procs| && Created(s.procs[q], d);
      assert Created(procs[q], d);
    }
    forall d | IsDeleted(s.db, d) ensures exists q :: 0 <= q < |procs| && DeletedBy(procs[q], d) {
      var q :| 0 <= q < |s.procs| && DeletedBy(s.procs[q], d);
      assert DeletedBy(procs[q], d);
    }
  }

  // ---------- statements inside a transaction ----------

  lemma {:induction false} RowsFromKeys(d: DocId, data: seq<ChunkData>, ids: seq<ChunkId>)
    requires |ids| == |data|
    ensures RowsFrom(d, data, ids).Keys == set c | c in ids
  {
    if data != [] {
      var n := |data| - 1;
      RowsFromKeys(d, data[..n], ids[..n]);
      assert forall c :: c in ids <==> c in ids[..n] || c == ids[n];
    }
  }

  lemma {:induction false} RowsFromValue(d: DocId, data: seq<ChunkData>, ids: seq<ChunkId>, i: nat)
    requires |ids| == |data| && Distinct(ids) && i < |ids|
    ensures ids[i] in RowsFrom(d, data, ids) && RowsFrom(d, data, ids)[ids[i]] == RowOf(d, data[i])
  {
    var n := |data| - 1;
    if i < n {
      RowsFromValue(d, data[..n], ids[..n], i);
    }
  }

  lemma {:induction false} RowsFromSize(d: DocId, data: seq<ChunkData>, ids: seq<ChunkId>)
    requires |ids| == |data| && Distinct(ids)
    ensures |RowsFrom(d, data, ids)| == |data|
  {
    if data != [] {
      var n := |data| - 1;
      RowsFromKeys(d, data[..n], ids[..n]);
      RowsFromSize(d, data[..n], ids[..n]);
      assert ids[n] !in RowsFrom(d, data[..n], ids[..n]);
    }
  }

  /** A multi-row INSERT stores row `i` under key `ids[i]` and nothing else. */
  lemma RowsFromAt(d: DocId, data: seq<ChunkData>, ids: seq<ChunkId>)
    requires |ids| == |data| && Distinct(ids)
    ensures forall c :: c in RowsFrom(d, data, ids) <==> c in ids
    ensures forall i :: 0 <= i < |ids| ==> RowsFrom(d, data, ids)[ids[i]] == RowOf(d, data[i])
    ensures |RowsFrom(d, data, ids)| == |data|
  {
    RowsFromKeys(d, data, ids);
    RowsFromSize(d, data, ids);
    forall i | 0 <= i < |ids| ensures RowsFrom(d, data, ids)[ids[i]] == RowOf(d, data[i]) {
      RowsFromValue(d, data, ids, i);
    }
  }

  lemma RowsFromUnique(d: DocId, data: seq<ChunkData>, ids: seq<ChunkId>)
    requires |ids| == |data| && Distinct(ids) && DistinctIndexes(data)
    ensures UniqueIndexes(RowsFrom(d, data, ids))
    ensures forall c :: c in RowsFrom(d, data, ids) ==> RowsFrom(d, data, ids)[c].docId == d
  {
    RowsFromAt(d, data, ids);
    var rows := RowsFrom(d, data, ids);
    forall b, c | b in rows && c in rows && rows[b].index == rows[c].index ensures b == c {
      var i :| 0 <= i < |ids| && ids[i] == b;
      var j :| 0 <= j < |ids| && ids[j] == c;
      assert data[i].index == data[j].index;
    }
  }

  lemma LocalBookkeeping(s: State, p: Pid, x: Proc)
    requires p < |s.procs| && Exclusive(s.procs) && Accounted(s) && Conserved(s)
    requires forall r :: r in Holds(x) ==> r in Holds(s.procs[p]) || Free(s, p, r)
    requires forall d :: !Created(s.procs[p], d) && !DeletedBy(s.procs[p], d)
    requires ReportedBy(x) == ReportedBy(s.procs[p])
    ensures var t := s.(procs := s.procs[p := x]);
      Exclusive(t.procs) && Accounted(t) && Conserved(t)
  {
    ExclusiveUpdate(s, p, x);
    AccountedUpdate(s, p, x);
    ReportedUpdate(s.procs, p, x);
  }

  /** The process may go on with locals `x`: they are in order and take only free resources. */
  ghost predicate MoveOk(s: State, p: Pid, x: Proc)
    requires p < |s.procs|
  {
    && ProcOk(s.db, s.written, x)
    && (forall r :: r in Holds(x) ==> r in Holds(s.procs[p]) || Free(s, p, r))
    && ReportedBy(x) == ReportedBy(s.procs[p])
  }

  lemma MoveKeeps(s: State, p: Pid, x: Proc)
    requires Inv(s) && p < |s.procs| && MoveOk(s, p, x)
    requires forall d :: !Created(s.procs[p], d) && !DeletedBy(s.procs[p], d)
    ensures Inv(s.(procs := s.procs[p := x]))
  {
    LocalBookkeeping(s, p, x);
  }

  predicate IsCommit(l: Label) {
    l.CommitInsert? || l.CommitDelete? || l.CommitCompact?
  }

  lemma LocalNext(s: State, l: Label)
    requires Enabled(s, l) && !l.Start? && !IsCommit(l)
    ensures Next(s, l) == s.(procs := s.procs[l.pid := NextProc(s, l)])
    ensures InTransaction(s.procs[l.pid])
  {
  }

  /** A statement that is not a commit keeps the invariant when it keeps its own process in order. */
  lemma LocalStep(s: State, l: Label)
    requires Inv(s) && Enabled(s, l) && !l.Start? && !IsCommit(l) && MoveOk(s, l.pid, NextProc(s, l))
    ensures Inv(Next(s, l))
  {
    LocalNext(s, l);
    MoveKeeps(s, l.pid, NextProc(s, l));
  }

  /** The rows of a committed doc are all there or all gone, never some of them. */
  lemma CountIsWholeOrNothing(db: Tables, written: map<ChunkId, ChunkRow>, d: DocId)
    requires KeptOk(db, written)
    ensures RowsOf(db.chunks, d) == if HasCompactedTombstone(db, d) then {} else RowsOf(written, d)
  {
  }

  // UpsertDoc

  lemma InsertDocMove(s: State, l: Label)
    requires Enabled(s, l) && (l.InsertDoc? || l.InsertConflict?)
    ensures MoveOk(s, l.pid, NextProc(s, l))
  {
  }

  lemma InsertChunksMove(s: State, l: Label)
    requires Enabled(s, l) && l.InsertChunks? && ProcOk(s.db, s.written, s.procs[l.pid])
    ensures MoveOk(s, l.pid, NextProc(s, l))
  {
    var p := s.procs[l.pid];
    var x := NextProc(s, l);
    RowsFromAt(p.id, p.data, l.ids);
    RowsFromUnique(p.id, p.data, l.ids);
    forall r | r in Holds(x) ensures r in Holds(p) || Free(s, l.pid, r) {
      if r.ChunkKey? {
        assert r.c in l.ids;
      }
    }
  }

  lemma LookupMove(s: State, l: Label)
    requires Enabled(s, l) && (l.LookupId? || l.LookupMiss? || l.CommitConflict?)
    requires ProcOk(s.db, s.written, s.procs[l.pid])
    ensures MoveOk(s, l.pid, NextProc(s, l))
  {
  }

  lemma CountChunksMove(s: State, l: Label)
    requires Enabled(s, l) && l.CountChunks? && ProcOk(s.db, s.written, s.procs[l.pid])
    requires KeptOk(s.db, s.written)
    ensures MoveOk(s, l.pid, NextProc(s, l))
  {
    CountIsWholeOrNothing(s.db, s.written, s.procs[l.pid].id);
  }

  // DeleteDoc

  lemma SelectMove(s: State, l: Label)
    requires Enabled(s, l) && (l.SelectMissing? || l.SelectForUpdate? || l.MarkDeleted?)
    requires ProcOk(s.db, s.written, s.procs[l.pid])
    ensures MoveOk(s, l.pid, NextProc(s, l))
  {
  }

  lemma TombstoneMove(s: State, l: Label)
    requires Enabled(s, l) && (l.InsertTombstone? || l.TombstoneConflict?)
    requires ProcOk(s.db, s.written, s.procs[l.pid]) && FlagsOk(s.db)
    ensures MoveOk(s, l.pid, NextProc(s, l))
  {
  }

  // Compact

  lemma ScanMove(s: State, l: Label)
    requires Enabled(s, l) && (l.ScanTombstone? || l.ScanDrained?) && ProcOk(s.db, s.written, s.procs[l.pid])
    ensures MoveOk(s, l.pid, NextProc(s, l))
  {
  }

  lemma DeleteSnapshotMove(s: State, l: Label)
    requires Enabled(s, l) && l.DeleteSnapshot? && ProcOk(s.db, s.written, s.procs[l.pid])
    requires KeptOk(s.db, s.written)
    ensures MoveOk(s, l.pid, NextProc(s, l))
  {
    var p := s.procs[l.pid];
    assert RowsOf(s.db.chunks, p.id) <= RowsOf(s.written, p.id);
  }

  lemma DeleteRowOk(db: Tables, written: map<ChunkId, ChunkRow>, p: Proc, c: ChunkId)
    requires p.CompactDeleting? && ProcOk(db, written, p) && c in p.todo
    requires forall b :: b in db.chunks ==> b in written && written[b] == db.chunks[b]
    ensures ProcOk(db, written, p.(todo := p.todo - {c}, mine := if c in db.chunks then p.mine + {c} else p.mine))
  {
  }

  lemma DeleteRowMove(s: State, l: Label)
    requires Enabled(s, l) && l.DeleteRow? && ProcOk(s.db, s.written, s.procs[l.pid])
    requires KeptOk(s.db, s.written)
    ensures MoveOk(s, l.pid, NextProc(s, l))
  {
    DeleteRowOk(s.db, s.written, s.procs[l.pid], l.c);
  }

  lemma MarkCompactedMove(s: State, l: Label)
    requires Enabled(s, l) && l.MarkCompacted? && ProcOk(s.db, s.written, s.procs[l.pid])
    ensures MoveOk(s, l.pid, NextProc(s, l))
  {
  }

  lemma AbortMove(s: State, l: Label)
    requires Enabled(s, l) && l.Abort? && ProcOk(s.db, s.written, s.procs[l.pid])
    ensures MoveOk(s, l.pid, NextProc(s, l))
  {
  }

  lemma StartAccounted(s: State, x: Proc)
    requires Accounted(s)
    ensures Accounted(s.(procs := s.procs + [x]))
  {
    var procs := s.procs + [x];
    forall d | d in s.db.docs ensures exists q :: 0 <= q < |procs| && Created(procs[q], d) {
      var q :| 0 <= q < |s.procs| && Created(s.procs[q], d);
      assert Created(procs[q], d);
    }
    forall d | IsDeleted(s.db, d) ensures exists q :: 0 <= q < |procs| && DeletedBy(procs[q], d) {
      var q :| 0 <= q < |s.procs| && DeletedBy(s.procs[q], d);
      assert DeletedBy(procs[q], d);
    }
  }

  lemma StartProcOk(s: State, call: Call)
    ensures ReportedBy(StartProc(call)) == 0 && Holds(StartProc(call)) == {}
    ensures ProcOk(s.db, s.written, StartProc(call))
  {
  }

  lemma StartBookkeeping(s: State, x: Proc)
    requires Exclusive(s.procs) && Accounted(s) && Conserved(s) && ReportedBy(x) == 0 && Holds(x) == {}
    ensures var t := s.(procs := s.procs + [x]);
      Exclusive(t.procs) && Accounted(t) && Conserved(t)
  {
    var procs := s.procs + [x];
    assert procs[..|procs| - 1] == s.procs;
    StartAccounted(s, x);
  }

  lemma StartInv(s: State, x: Proc)
    requires Inv(s) && ReportedBy(x) == 0 && Holds(x) == {} && ProcOk(s.db, s.written, x)
    ensures Inv(s.(procs := s.procs + [x]))
  {
    StartBookkeeping(s, x);
  }

  lemma StartStep(s: State, l: Label)
    requires Inv(s) && l.Start?
    ensures Inv(Next(s, l))
  {
    StartProcOk(s, l.call);
    StartInv(s, StartProc(l.call));
  }
}
