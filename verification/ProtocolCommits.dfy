/** The three statements that change the committed tables keep the invariant. */
module ProtocolCommits {
  import opened Wrappers
  import opened Tables
  import opened Protocol
  import opened ProtocolSafety

  lemma HoldsApart(s: State, p: Pid, q: Pid)
    requires Exclusive(s.procs) && p < |s.procs| && q < |s.procs| && p != q
    ensures Holds(s.procs[p]) !! Holds(s.procs[q])
  {
    if q < p {
      assert Holds(s.procs[q]) !! Holds(s.procs[p]);
    }
  }

  lemma MergeSize<K, V>(m: map<K, V>, n: map<K, V>)
    requires m.Keys !! n.Keys
    ensures |m + n| == |m| + |n|
  {
    assert (m + n).Keys == m.Keys + n.Keys;
    assert |m.Keys + n.Keys| == |m.Keys| + |n.Keys|;
  }

  lemma RemoveSize<K, V>(m: map<K, V>, ks: set<K>)
    requires ks <= m.Keys
    ensures |m - ks| == |m| - |ks|
  {
    assert (m - ks).Keys == m.Keys - ks;
    assert |m.Keys - ks| == |m.Keys| - |ks|;
  }

  /** After a commit by `p`, new docs are its creation and new deletions its own. */
  lemma CommitAccounted(s: State, p: Pid, t: State)
    requires Accounted(s) && p < |s.procs| && |t.procs| == |s.procs|
    requires t.procs == s.procs[p := t.procs[p]]
    requires forall d :: !Created(s.procs[p], d) && !DeletedBy(s.procs[p], d)
    requires forall d :: d in t.db.docs ==> d in s.db.docs || Created(t.procs[p], d)
    requires forall d :: IsDeleted(t.db, d) ==> IsDeleted(s.db, d) || DeletedBy(t.procs[p], d)
    ensures Accounted(t)
  {
    forall d | d in t.db.docs ensures exists q :: 0 <= q < |t.procs| && Created(t.procs[q], d) {
      if d in s.db.docs {
        var q :| 0 <= q < |s.procs| && Created(s.procs[q], d);
        assert Created(t.procs[q], d);
      }
    }
    forall d | IsDeleted(t.db, d) ensures exists q :: 0 <= q < |t.procs| && DeletedBy(t.procs[q], d) {
      if IsDeleted(s.db, d) {
        var q :| 0 <= q < |s.procs| && DeletedBy(s.procs[q], d);
        assert DeletedBy(t.procs[q], d);
      }
    }
  }

  // ---------- UpsertDoc commits a new doc with its chunks ----------

  lemma InsertSchema(db: Tables, written: map<ChunkId, ChunkRow>, p: Proc)
    requires SchemaOk(db) && DeletionOk(db, written) && p.UpsertWritten? && ProcOk(db, written, p)
    ensures SchemaOk(Published(db, p))
  {
    var db' := Published(db, p);
    forall d, e | d in db'.docs && e in db'.docs && db'.docs[d].doc.hash == db'.docs[e].doc.hash
      ensures d == e
    {
      assert d != p.id ==> db.docs[d].doc.hash != p.doc.hash;
      assert e != p.id ==> db.docs[e].doc.hash != p.doc.hash;
    }
    forall b, c | b in db'.chunks && c in db'.chunks && db'.chunks[b].docId == db'.chunks[c].docId
                  && db'.chunks[b].index == db'.chunks[c].index
      ensures b == c
    {
      assert (b in p.rows) == (db'.chunks[b].docId == p.id);
      assert (c in p.rows) == (db'.chunks[c].docId == p.id);
    }
  }

  lemma InsertTombstones(db: Tables, p: Proc, d: DocId)
    requires p.UpsertWritten?
    ensures HasTombstone(Published(db, p), d) == HasTombstone(db, d)
    ensures HasCompactedTombstone(Published(db, p), d) == HasCompactedTombstone(db, d)
  {
  }

  lemma InsertFlags(db: Tables, p: Proc)
    requires FlagsOk(db) && p.UpsertWritten? && !HasTombstone(db, p.id)
    ensures FlagsOk(Published(db, p))
  {
    forall d ensures HasTombstone(Published(db, p), d) == HasTombstone(db, d) {
      InsertTombstones(db, p, d);
    }
  }

  lemma InsertKept(db: Tables, written: map<ChunkId, ChunkRow>, p: Proc)
    requires KeptOk(db, written) && p.UpsertWritten? && !HasCompactedTombstone(db, p.id)
    requires forall c :: c in p.rows ==> c !in written && p.rows[c].docId == p.id
    ensures KeptOk(Published(db, p), written + p.rows)
  {
    forall d ensures HasCompactedTombstone(Published(db, p), d) == HasCompactedTombstone(db, d) {
      InsertTombstones(db, p, d);
    }
  }

  lemma InsertDeletion(db: Tables, written: map<ChunkId, ChunkRow>, p: Proc)
    requires SchemaOk(db) && DeletionOk(db, written) && p.UpsertWritten? && ProcOk(db, written, p)
    ensures DeletionOk(Published(db, p), written + p.rows)
  {
    assert !HasTombstone(db, p.id);
    InsertFlags(db, p);
    InsertKept(db, written, p);
  }

  lemma MergeRows(chunks: map<ChunkId, ChunkRow>, rows: map<ChunkId, ChunkRow>, id: DocId, d: DocId)
    requires RowsOf(chunks, id) == {} && rows.Keys !! chunks.Keys && forall c :: c in rows ==> rows[c].docId == id
    ensures RowsOf(chunks + rows, d) == if d == id then rows.Keys else RowsOf(chunks, d)
  {
    assert forall c :: c in chunks ==> c !in RowsOf(chunks, id);
  }

  /** The keys of a new doc's rows are new, and so is the doc. */
  lemma InsertFresh(db: Tables, written: map<ChunkId, ChunkRow>, p: Proc)
    requires KeptOk(db, written) && p.UpsertWritten? && ProcOk(db, written, p)
    ensures p.rows.Keys !! written.Keys && p.rows.Keys !! db.chunks.Keys
    ensures RowsOf(written, p.id) == {} && RowsOf(db.chunks, p.id) == {}
  {
  }

  /** The rows of other docs are untouched, and the new doc has exactly its own. */
  lemma InsertRows(db: Tables, written: map<ChunkId, ChunkRow>, p: Proc, d: DocId)
    requires KeptOk(db, written) && p.UpsertWritten? && ProcOk(db, written, p)
    ensures RowsOf(written + p.rows, d) == if d == p.id then p.rows.Keys else RowsOf(written, d)
    ensures RowsOf(Published(db, p).chunks, d) == if d == p.id then p.rows.Keys else RowsOf(db.chunks, d)
  {
    InsertFresh(db, written, p);
    MergeRows(written, p.rows, p.id, d);
    MergeRows(db.chunks, p.rows, p.id, d);
  }

  /** Another upsert that has claimed a hash and a key keeps them to itself. */
  lemma InsertBesideUpsert(db: Tables, written: map<ChunkId, ChunkRow>, p: Proc, q: Proc)
    requires p.UpsertWritten? && (q.UpsertClaimed? || q.UpsertWritten?)
    requires ProcOk(db, written, q) && Holds(p) !! Holds(q)
    ensures ProcOk(Published(db, p), written + p.rows, q)
  {
    assert DocKey(p.id) in Holds(p) && HashClaim(p.doc.hash) in Holds(p);
    assert DocKey(q.id) in Holds(q) && HashClaim(q.doc.hash) in Holds(q);
    if q.UpsertWritten? {
      forall c | c in q.rows ensures c !in p.rows {
        assert ChunkKey(c) in Holds(q);
      }
    }
  }

  lemma InsertKeepsHashes(db: Tables, p: Proc, hash: Bytes)
    requires p.UpsertWritten? && p.id !in db.docs && HashTaken(db, hash)
    ensures HashTaken(Published(db, p), hash)
  {
    var d :| d in db.docs && db.docs[d].doc.hash == hash;
    assert d in Published(db, p).docs && Published(db, p).docs[d].doc.hash == hash;
  }

  lemma InsertOthers(db: Tables, written: map<ChunkId, ChunkRow>, p: Proc, q: Proc)
    requires KeptOk(db, written) && p.UpsertWritten? && ProcOk(db, written, p)
    requires ProcOk(db, written, q) && Holds(p) !! Holds(q)
    ensures ProcOk(Published(db, p), written + p.rows, q)
  {
    match q
    case UpsertClaimed(_, _, _, _) => InsertBesideUpsert(db, written, p, q);
    case UpsertWritten(_, _, _, _) => InsertBesideUpsert(db, written, p, q);
    case UpsertConflict(doc) => InsertKeepsHashes(db, p, doc.hash);
    case UpsertCounted(_, id, _) => InsertRows(db, written, p, id);
    case UpsertReturned(_, id, _, _) => InsertRows(db, written, p, id);
    case CompactDeleting(_, id, _, _, _, _) => InsertRows(db, written, p, id);
    case CompactMarked(_, id, _, _, _, _) => InsertRows(db, written, p, id);
    case _ =>
  }

  function AfterInsert(s: State, i: Pid): State
    requires i < |s.procs| && s.procs[i].UpsertWritten?
  {
    var p := s.procs[i];
    State(Published(s.db, p), s.procs[i := UpsertReturned(p.doc, p.id, |p.rows|, false)], s.written + p.rows)
  }

  lemma InsertProcs(s: State, i: Pid)
    requires SchemaOk(s.db) && DeletionOk(s.db, s.written) && Exclusive(s.procs)
    requires forall q :: 0 <= q < |s.procs| ==> ProcOk(s.db, s.written, s.procs[q])
    requires i < |s.procs| && s.procs[i].UpsertWritten?
    ensures forall q :: 0 <= q < |s.procs| ==>
      ProcOk(AfterInsert(s, i).db, AfterInsert(s, i).written, AfterInsert(s, i).procs[q])
  {
    var p, t := s.procs[i], AfterInsert(s, i);
    assert ProcOk(s.db, s.written, p);
    forall q | 0 <= q < |t.procs| ensures ProcOk(t.db, t.written, t.procs[q]) {
      if q == i {
        InsertRows(s.db, s.written, p, p.id);
      } else {
        HoldsApart(s, i, q);
        InsertOthers(s.db, s.written, p, s.procs[q]);
      }
    }
  }

  lemma InsertConserved(s: State, i: Pid)
    requires Conserved(s) && i < |s.procs| && s.procs[i].UpsertWritten?
    requires s.procs[i].rows.Keys !! s.written.Keys && s.procs[i].rows.Keys !! s.db.chunks.Keys
    ensures Conserved(AfterInsert(s, i))
  {
    MergeSize(s.written, s.procs[i].rows);
    MergeSize(s.db.chunks, s.procs[i].rows);
    ReportedUpdate(s.procs, i, AfterInsert(s, i).procs[i]);
  }

  lemma InsertAccounted(s: State, i: Pid)
    requires Accounted(s) && i < |s.procs| && s.procs[i].UpsertWritten? && s.procs[i].id !in s.db.docs
    ensures Accounted(AfterInsert(s, i))
  {
    CommitAccounted(s, i, AfterInsert(s, i));
  }

  lemma InsertExclusive(s: State, i: Pid)
    requires Exclusive(s.procs) && i < |s.procs| && s.procs[i].UpsertWritten?
    ensures Exclusive(AfterInsert(s, i).procs)
  {
    var p := s.procs[i];
    var x := UpsertReturned(p.doc, p.id, |p.rows|, false);
    assert Holds(x) == {DocKey(p.id)} && DocKey(p.id) in Holds(p);
    ExclusiveUpdate(s, i, x);
  }

  lemma InsertBookkeeping(s: State, i: Pid)
    requires Exclusive(s.procs) && Accounted(s) && Conserved(s) && KeptOk(s.db, s.written)
    requires i < |s.procs| && s.procs[i].UpsertWritten? && ProcOk(s.db, s.written, s.procs[i])
    ensures Exclusive(AfterInsert(s, i).procs) && Accounted(AfterInsert(s, i)) && Conserved(AfterInsert(s, i))
  {
    InsertFresh(s.db, s.written, s.procs[i]);
    InsertConserved(s, i);
    InsertAccounted(s, i);
    InsertExclusive(s, i);
  }

  lemma CommitInsertStep(s: State, i: Pid)
    requires Inv(s) && i < |s.procs| && s.procs[i].UpsertWritten?
    ensures Inv(AfterInsert(s, i))
  {
    assert ProcOk(s.db, s.written, s.procs[i]);
    InsertSchema(s.db, s.written, s.procs[i]);
    InsertDeletion(s.db, s.written, s.procs[i]);
    InsertProcs(s, i);
    InsertBookkeeping(s, i);
  }

  // ---------- DeleteDoc commits deleted_at and a tombstone ----------

  lemma DeleteTombstones(db: Tables, written: map<ChunkId, ChunkRow>, p: Proc, d: DocId)
    requires SchemaOk(db) && DeletionOk(db, written) && p.DeleteTombed? && ProcOk(db, written, p)
    ensures HasTombstone(Buried(db, p), d) == (d == p.id || HasTombstone(db, d))
    ensures HasCompactedTombstone(Buried(db, p), d) == HasCompactedTombstone(db, d)
  {
    var db' := Buried(db, p);
    if HasTombstone(db, d) {
      var t :| t in db.tombs && db.tombs[t].docId == d;
      assert t in db'.tombs && db'.tombs[t].docId == d;
    }
    if d == p.id {
      assert p.newTomb.value in db'.tombs && db'.tombs[p.newTomb.value].docId == d;
    }
    if HasCompactedTombstone(db, d) {
      var t :| t in db.tombs && db.tombs[t].docId == d && db.tombs[t].compactedAt.Some?;
      assert t in db'.tombs && db'.tombs[t].docId == d && db'.tombs[t].compactedAt.Some?;
    }
  }

  lemma DeleteSchema(db: Tables, written: map<ChunkId, ChunkRow>, p: Proc)
    requires SchemaOk(db) && DeletionOk(db, written) && p.DeleteTombed? && ProcOk(db, written, p)
    ensures SchemaOk(Buried(db, p))
  {
    assert !HasTombstone(db, p.id);
  }

  lemma DeleteDeletion(db: Tables, written: map<ChunkId, ChunkRow>, p: Proc)
    requires SchemaOk(db) && DeletionOk(db, written) && p.DeleteTombed? && ProcOk(db, written, p)
    ensures DeletionOk(Buried(db, p), written)
  {
    var db' := Buried(db, p);
    forall d ensures HasTombstone(db', d) == (d == p.id || HasTombstone(db, d))
               && HasCompactedTombstone(db', d) == HasCompactedTombstone(db, d) {
      DeleteTombstones(db, written, p, d);
    }
  }

  lemma DeleteOthers(db: Tables, written: map<ChunkId, ChunkRow>, p: Proc, q: Proc)
    requires SchemaOk(db) && DeletionOk(db, written) && p.DeleteTombed? && ProcOk(db, written, p)
    requires ProcOk(db, written, q) && Holds(p) !! Holds(q)
    ensures ProcOk(Buried(db, p), written, q)
  {
    var db' := Buried(db, p);
    HashesKept(db, db');
    DeleteTombsKept(db, written, p);
    if q.DeleteHeld? || q.DeleteMarked? || q.DeleteTombed? {
      assert DocLock(p.id) in Holds(p) && DocLock(q.id) in Holds(q);
    }
    if q.DeleteTombed? {
      assert TombKey(p.newTomb.value) in Holds(p) && TombKey(q.newTomb.value) in Holds(q);
    }
  }

  /** A change of deleted_at alone keeps every hash taken or free as it was. */
  lemma HashesKept(db: Tables, db': Tables)
    requires db'.docs.Keys == db.docs.Keys
    requires forall d :: d in db.docs ==> db'.docs[d].doc == db.docs[d].doc
    ensures forall h :: HashTaken(db', h) == HashTaken(db, h)
  {
    forall h ensures HashTaken(db', h) == HashTaken(db, h) {
      if HashTaken(db, h) {
        var d :| d in db.docs && db.docs[d].doc.hash == h;
        assert d in db'.docs && db'.docs[d].doc.hash == h;
      }
    }
  }

  lemma DeleteTombsKept(db: Tables, written: map<ChunkId, ChunkRow>, p: Proc)
    requires p.DeleteTombed? && ProcOk(db, written, p)
    ensures forall t :: t in db.tombs ==> t in Buried(db, p).tombs && Buried(db, p).tombs[t] == db.tombs[t]
    ensures forall d :: IsDeleted(db, d) ==> IsDeleted(Buried(db, p), d)
  {
  }

  /** The winning delete is the only one: no earlier call can have deleted a live doc. */
  lemma DeleterFree(db: Tables, written: map<ChunkId, ChunkRow>, d: DocId, q: Proc)
    requires Live(db, d) && ProcOk(db, written, q)
    ensures Deleter(d) !in Holds(q)
  {
  }

  function AfterDelete(s: State, i: Pid): State
    requires i < |s.procs| && s.procs[i].DeleteTombed?
  {
    State(Buried(s.db, s.procs[i]), s.procs[i := DeleteReturned(s.procs[i].id, true)], s.written)
  }

  lemma DeleteProcs(s: State, i: Pid)
    requires SchemaOk(s.db) && DeletionOk(s.db, s.written) && Exclusive(s.procs)
    requires forall q :: 0 <= q < |s.procs| ==> ProcOk(s.db, s.written, s.procs[q])
    requires i < |s.procs| && s.procs[i].DeleteTombed?
    ensures forall q :: 0 <= q < |s.procs| ==>
      ProcOk(AfterDelete(s, i).db, s.written, AfterDelete(s, i).procs[q])
  {
    var p, t := s.procs[i], AfterDelete(s, i);
    assert ProcOk(s.db, s.written, p);
    forall q | 0 <= q < |s.procs| && q != i ensures ProcOk(t.db, s.written, s.procs[q]) {
      HoldsApart(s, i, q);
      DeleteOthers(s.db, s.written, p, s.procs[q]);
    }
  }

  lemma DeletersFree(s: State, i: Pid)
    requires forall q :: 0 <= q < |s.procs| ==> ProcOk(s.db, s.written, s.procs[q])
    requires i < |s.procs| && s.procs[i].DeleteTombed?
    ensures Free(s, i, Deleter(s.procs[i].id))
  {
    var d := s.procs[i].id;
    assert ProcOk(s.db, s.written, s.procs[i]);
    forall q | 0 <= q < |s.procs| && q != i ensures Deleter(d) !in Holds(s.procs[q]) {
      DeleterFree(s.db, s.written, d, s.procs[q]);
    }
  }

  lemma DeleteAccounted(s: State, i: Pid)
    requires Accounted(s) && i < |s.procs| && s.procs[i].DeleteTombed?
    ensures Accounted(AfterDelete(s, i))
  {
    CommitAccounted(s, i, AfterDelete(s, i));
  }

  lemma DeleteRest(s: State, i: Pid)
    requires Exclusive(s.procs) && Conserved(s)
    requires i < |s.procs| && s.procs[i].DeleteTombed? && Free(s, i, Deleter(s.procs[i].id))
    ensures Exclusive(AfterDelete(s, i).procs) && Conserved(AfterDelete(s, i))
  {
    var x := DeleteReturned(s.procs[i].id, true);
    assert Holds(x) == {Deleter(s.procs[i].id)};
    ExclusiveUpdate(s, i, x);
    ReportedUpdate(s.procs, i, x);
  }

  lemma CommitDeleteStep(s: State, i: Pid)
    requires Inv(s) && i < |s.procs| && s.procs[i].DeleteTombed?
    ensures Inv(AfterDelete(s, i))
  {
    assert ProcOk(s.db, s.written, s.procs[i]);
    DeleteSchema(s.db, s.written, s.procs[i]);
    DeleteDeletion(s.db, s.written, s.procs[i]);
    DeleteProcs(s, i);
    DeletersFree(s, i);
    DeleteAccounted(s, i);
    DeleteRest(s, i);
  }

  // ---------- Compact commits the removal of one doc's chunks ----------

  lemma ReclaimTombstones(db: Tables, written: map<ChunkId, ChunkRow>, p: Proc, d: DocId)
    requires SchemaOk(db) && DeletionOk(db, written) && p.CompactMarked? && ProcOk(db, written, p)
    ensures HasTombstone(Reclaimed(db, p), d) == HasTombstone(db, d)
    ensures HasCompactedTombstone(Reclaimed(db, p), d) == (d == p.id || HasCompactedTombstone(db, d))
  {
    var db' := Reclaimed(db, p);
    if HasTombstone(db, d) {
      var t :| t in db.tombs && db.tombs[t].docId == d;
      assert t in db'.tombs && db'.tombs[t].docId == d;
    }
    if d == p.id {
      assert p.tomb in db'.tombs && db'.tombs[p.tomb].docId == d && db'.tombs[p.tomb].compactedAt.Some?;
    }
    if HasCompactedTombstone(db, d) {
      var t :| t in db.tombs && db.tombs[t].docId == d && db.tombs[t].compactedAt.Some?;
      assert t in db'.tombs && db'.tombs[t].docId == d && db'.tombs[t].compactedAt.Some?;
    }
  }

  lemma ReclaimSchema(db: Tables, p: Proc)
    requires SchemaOk(db) && p.CompactMarked?
    ensures SchemaOk(Reclaimed(db, p))
  {
  }

  lemma ReclaimDeletion(db: Tables, written: map<ChunkId, ChunkRow>, p: Proc)
    requires SchemaOk(db) && DeletionOk(db, written) && p.CompactMarked? && ProcOk(db, written, p)
    ensures DeletionOk(Reclaimed(db, p), written)
  {
    var db' := Reclaimed(db, p);
    forall d ensures HasTombstone(db', d) == HasTombstone(db, d)
               && HasCompactedTombstone(db', d) == (d == p.id || HasCompactedTombstone(db, d)) {
      ReclaimTombstones(db, written, p, d);
    }
    forall c | c in written ensures c in db'.chunks || HasCompactedTombstone(db', written[c].docId) {
      if c in p.mine {
        assert c in RowsOf(db.chunks, p.id);
      }
    }
    forall c | c in db'.chunks ensures !HasCompactedTombstone(db', db'.chunks[c].docId) {
      assert c !in RowsOf(db.chunks, p.id);
    }
  }

  /** Another compactor at work on the same doc can hold none of the rows this one removes. */
  lemma ReclaimOthers(db: Tables, written: map<ChunkId, ChunkRow>, p: Proc, q: Proc)
    requires p.CompactMarked? && p.tomb in db.tombs && p.mine == RowsOf(db.chunks, p.id)
    requires ProcOk(db, written, q) && Holds(p) !! Holds(q)
    ensures ProcOk(Reclaimed(db, p), written, q)
  {
    HashesKept(db, Reclaimed(db, p));
    if q.CompactDeleting? || q.CompactMarked? {
      ReclaimRows(db, p, q.id, q.mine, Holds(q));
    }
  }

  lemma ReclaimRows(db: Tables, p: Proc, d: DocId, mine: set<ChunkId>, held: set<Resource>)
    requires p.CompactMarked? && p.tomb in db.tombs && p.mine == RowsOf(db.chunks, p.id)
    requires mine <= RowsOf(db.chunks, d) && Holds(p) !! held
    requires forall c :: c in mine ==> RowLock(c) in held
    ensures RowsOf(Reclaimed(db, p).chunks, d) == if d == p.id then {} else RowsOf(db.chunks, d)
    ensures d == p.id ==> mine == {}
  {
    if d == p.id {
      forall c | c in mine ensures false {
        assert RowLock(c) in held && c in p.mine;
      }
    }
  }

  function AfterCompact(s: State, i: Pid): State
    requires i < |s.procs| && s.procs[i].CompactMarked?
  {
    State(Reclaimed(s.db, s.procs[i]), s.procs[i := Rescan(s.procs[i])], s.written)
  }

  lemma ReclaimProcs(s: State, i: Pid)
    requires Exclusive(s.procs)
    requires forall q :: 0 <= q < |s.procs| ==> ProcOk(s.db, s.written, s.procs[q])
    requires i < |s.procs| && s.procs[i].CompactMarked?
    ensures forall q :: 0 <= q < |s.procs| ==>
      ProcOk(AfterCompact(s, i).db, s.written, AfterCompact(s, i).procs[q])
  {
    var p, t := s.procs[i], AfterCompact(s, i);
    assert ProcOk(s.db, s.written, p);
    forall q | 0 <= q < |t.procs| ensures ProcOk(t.db, s.written, t.procs[q]) {
      if q != i {
        HoldsApart(s, i, q);
        ReclaimOthers(s.db, s.written, p, s.procs[q]);
      }
    }
  }

  lemma ReclaimAccounted(s: State, i: Pid)
    requires Accounted(s) && i < |s.procs| && s.procs[i].CompactMarked?
    ensures Accounted(AfterCompact(s, i))
  {
    CommitAccounted(s, i, AfterCompact(s, i));
  }

  lemma ReclaimExclusive(s: State, i: Pid)
    requires Exclusive(s.procs) && i < |s.procs| && s.procs[i].CompactMarked?
    ensures Exclusive(AfterCompact(s, i).procs)
  {
    assert Holds(Rescan(s.procs[i])) == {};
    ExclusiveUpdate(s, i, Rescan(s.procs[i]));
  }

  lemma ReclaimConserved(s: State, i: Pid)
    requires Conserved(s) && i < |s.procs| && s.procs[i].CompactMarked? && s.procs[i].mine <= s.db.chunks.Keys
    ensures Conserved(AfterCompact(s, i))
  {
    RemoveSize(s.db.chunks, s.procs[i].mine);
    ReportedUpdate(s.procs, i, Rescan(s.procs[i]));
  }

  lemma CommitCompactStep(s: State, i: Pid)
    requires Inv(s) && i < |s.procs| && s.procs[i].CompactMarked?
    ensures Inv(AfterCompact(s, i))
  {
    assert ProcOk(s.db, s.written, s.procs[i]);
    ReclaimSchema(s.db, s.procs[i]);
    ReclaimDeletion(s.db, s.written, s.procs[i]);
    ReclaimProcs(s, i);
    ReclaimAccounted(s, i);
    ReclaimExclusive(s, i);
    ReclaimConserved(s, i);
  }

  // ---------- every statement ----------

  lemma UpsertMove(s: State, l: Label)
    requires Enabled(s, l) && IsUpsert(l) && !IsCommit(l)
    requires ProcOk(s.db, s.written, s.procs[l.pid]) && KeptOk(s.db, s.written)
    ensures MoveOk(s, l.pid, NextProc(s, l))
  {
    match l
    case InsertDoc(_, _, _) => InsertDocMove(s, l);
    case InsertConflict(_) => InsertDocMove(s, l);
    case InsertChunks(_, _) => InsertChunksMove(s, l);
    case LookupId(_, _) => LookupMove(s, l);
    case LookupMiss(_) => LookupMove(s, l);
    case CountChunks(_) => CountChunksMove(s, l);
    case CommitConflict(_) => LookupMove(s, l);
  }

  lemma DeleteMove(s: State, l: Label)
    requires Enabled(s, l) && IsDelete(l) && !IsCommit(l)
    requires ProcOk(s.db, s.written, s.procs[l.pid]) && FlagsOk(s.db)
    ensures MoveOk(s, l.pid, NextProc(s, l))
  {
    if l.InsertTombstone? || l.TombstoneConflict? {
      TombstoneMove(s, l);
    } else {
      SelectMove(s, l);
    }
  }

  lemma CompactMove(s: State, l: Label)
    requires Enabled(s, l) && IsCompact(l) && !IsCommit(l)
    requires ProcOk(s.db, s.written, s.procs[l.pid]) && KeptOk(s.db, s.written)
    ensures MoveOk(s, l.pid, NextProc(s, l))
  {
    match l
    case ScanTombstone(_, _) => ScanMove(s, l);
    case ScanDrained(_) => ScanMove(s, l);
    case DeleteSnapshot(_) => DeleteSnapshotMove(s, l);
    case DeleteRow(_, _) => DeleteRowMove(s, l);
    case MarkCompacted(_, _) => MarkCompactedMove(s, l);
  }

  lemma CommitStep(s: State, l: Label)
    requires Inv(s) && Enabled(s, l) && IsCommit(l)
    ensures Inv(Next(s, l))
  {
    match l
    case CommitInsert(pid) => CommitInsertStep(s, pid);
    case CommitDelete(pid) => CommitDeleteStep(s, pid);
    case CommitCompact(pid) =>
      assert Next(s, l) == AfterCompact(s, pid);
      CommitCompactStep(s, pid);
  }

  lemma InvStep(s: State, l: Label)
    requires Inv(s) && Enabled(s, l)
    ensures Inv(Next(s, l))
  {
    if l.Start? {
      StartStep(s, l);
    } else if IsCommit(l) {
      CommitStep(s, l);
    } else {
      assert ProcOk(s.db, s.written, s.procs[l.pid]);
      if l.Abort? {
        AbortMove(s, l);
      } else if IsUpsert(l) {
        UpsertMove(s, l);
      } else if IsDelete(l) {
        DeleteMove(s, l);
      } else {
        CompactMove(s, l);
      }
      LocalStep(s, l);
    }
  }

  lemma InitialInv()
    ensures Inv(INITIAL)
  {
    assert !exists d :: IsDeleted(INITIAL.db, d);
  }

  /** Safety over whole runs: the invariant holds in every state of every interleaving. */
  lemma {:induction false} RunInv(trace: seq<State>, i: nat)
    requires Run(trace) && i < |trace|
    ensures Inv(trace[i])
  {
    if i == 0 {
      InitialInv();
    } else {
      RunInv(trace, i - 1);
      assert Step(trace[i - 1], trace[i]);
      var l :| Enabled(trace[i - 1], l) && trace[i] == Next(trace[i - 1], l);
      InvStep(trace[i - 1], l);
    }
  }
}
