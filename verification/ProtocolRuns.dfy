/** What callers may rely on across whole runs of UpsertDoc, DeleteDoc and Compact. */
module ProtocolRuns {
  import opened Wrappers
  import opened Tables
  import opened Protocol
  import opened ProtocolSafety
  import opened ProtocolCommits

  predicate Returned(p: Proc) {
    !InTransaction(p)
  }

  predicate Compacting(p: Proc) {
    p.CompactScan? || p.CompactPicked? || p.CompactDeleting? || p.CompactMarked? || p.CompactReturned?
  }

  // ---------- how the tables may change between two states of a run ----------

  /** docs rows are never removed or rewritten, except that deleted_at is set once. */
  ghost predicate DocsEvolve(s: Tables, t: Tables) {
    forall d :: d in s.docs ==>
      && d in t.docs && t.docs[d].doc == s.docs[d].doc && t.docs[d].createdAt == s.docs[d].createdAt
      && (s.docs[d].deletedAt.Some? ==> t.docs[d].deletedAt == s.docs[d].deletedAt)
  }

  /** Tombstones are never removed, and compacted_at is never reset. */
  ghost predicate TombsEvolve(s: Tables, t: Tables) {
    forall u :: u in s.tombs ==>
      && u in t.tombs && t.tombs[u].docId == s.tombs[u].docId && t.tombs[u].deletedAt == s.tombs[u].deletedAt
      && (s.tombs[u].compactedAt.Some? ==> t.tombs[u].compactedAt.Some?)
  }

  /** A doc that exists never gains a chunk row, in the table or in its history. */
  ghost predicate ChunksEvolve(s: State, t: State) {
    && (forall c :: c in s.written ==> c in t.written && t.written[c] == s.written[c])
    && (forall c :: c in t.written && t.written[c].docId in s.db.docs ==> c in s.written)
    && (forall c :: c in t.db.chunks && t.db.chunks[c].docId in s.db.docs ==>
          c in s.db.chunks && s.db.chunks[c] == t.db.chunks[c])
  }

  ghost predicate ProcsEvolve(s: seq<Proc>, t: seq<Proc>) {
    && |s| <= |t|
    && (forall p :: 0 <= p < |s| && Returned(s[p]) ==> t[p] == s[p])
    && (forall p :: 0 <= p < |s| && Compacting(s[p]) ==> Compacting(t[p]) && s[p].done <= t[p].done)
  }

  ghost predicate Evolves(s: State, t: State) {
    DocsEvolve(s.db, t.db) && TombsEvolve(s.db, t.db) && ChunksEvolve(s, t) && ProcsEvolve(s.procs, t.procs)
  }

  lemma LocalEvolves(s: State, l: Label)
    requires Enabled(s, l) && !IsCommit(l) && KeptOk(s.db, s.written)
    ensures Evolves(s, Next(s, l))
  {
    if !l.Start? {
      LocalNext(s, l);
      MoveEvolves(s.procs, l.pid, NextProc(s, l));
    }
  }

  lemma MoveEvolves(procs: seq<Proc>, p: Pid, x: Proc)
    requires p < |procs| && InTransaction(procs[p])
    requires Compacting(procs[p]) ==> Compacting(x) && procs[p].done <= x.done
    ensures ProcsEvolve(procs, procs[p := x])
  {
  }

  lemma InsertEvolves(s: State, i: Pid)
    requires i < |s.procs| && s.procs[i].UpsertWritten? && s.procs[i].id !in s.db.docs
    requires forall c :: c in s.procs[i].rows ==> c !in s.written && s.procs[i].rows[c].docId == s.procs[i].id
    requires forall c :: c in s.db.chunks ==> c in s.written
    ensures Evolves(s, AfterInsert(s, i))
  {
    var t := AfterInsert(s, i);
    MoveEvolves(s.procs, i, t.procs[i]);
    InsertTablesEvolve(s.db, s.procs[i]);
    InsertChunksEvolve(s, i);
  }

  lemma InsertTablesEvolve(db: Tables, p: Proc)
    requires p.UpsertWritten? && p.id !in db.docs
    ensures DocsEvolve(db, Published(db, p)) && TombsEvolve(db, Published(db, p))
  {
  }

  lemma InsertChunksEvolve(s: State, i: Pid)
    requires i < |s.procs| && s.procs[i].UpsertWritten? && s.procs[i].id !in s.db.docs
    requires forall c :: c in s.procs[i].rows ==> c !in s.written && s.procs[i].rows[c].docId == s.procs[i].id
    requires forall c :: c in s.db.chunks ==> c in s.written
    ensures ChunksEvolve(s, AfterInsert(s, i))
  {
  }

  lemma DeleteEvolves(s: State, i: Pid)
    requires i < |s.procs| && s.procs[i].DeleteTombed? && Live(s.db, s.procs[i].id)
    requires s.procs[i].newTomb.Some? && s.procs[i].newTomb.value !in s.db.tombs
    ensures Evolves(s, AfterDelete(s, i))
  {
  }

  lemma CompactEvolves(s: State, i: Pid)
    requires i < |s.procs| && s.procs[i].CompactMarked? && s.procs[i].tomb in s.db.tombs
    ensures Evolves(s, AfterCompact(s, i))
  {
  }

  lemma StepEvolves(s: State, l: Label)
    requires Inv(s) && Enabled(s, l)
    ensures Evolves(s, Next(s, l))
  {
    if !l.Start? {
      assert ProcOk(s.db, s.written, s.procs[l.pid]);
    }
    if l.CommitInsert? {
      InsertEvolves(s, l.pid);
    } else if l.CommitDelete? {
      DeleteEvolves(s, l.pid);
    } else if l.CommitCompact? {
      assert Next(s, l) == AfterCompact(s, l.pid);
      CompactEvolves(s, l.pid);
    } else {
      LocalEvolves(s, l);
    }
  }

  lemma EvolvesTransitive(s: State, t: State, u: State)
    requires Evolves(s, t) && Evolves(t, u)
    ensures Evolves(s, u)
  {
  }

  lemma {:induction false} RunEvolves(trace: seq<State>, i: nat, j: nat)
    requires Run(trace) && i <= j < |trace|
    ensures Evolves(trace[i], trace[j])
    decreases j
  {
    if i < j {
      RunEvolves(trace, i, j - 1);
      RunInv(trace, j - 1);
      assert Step(trace[j - 1], trace[j]);
      var l :| Enabled(trace[j - 1], l) && trace[j] == Next(trace[j - 1], l);
      StepEvolves(trace[j - 1], l);
      EvolvesTransitive(trace[i], trace[j - 1], trace[j]);
    }
  }
}
