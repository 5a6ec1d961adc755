/**
 The store's methods as the program runs them: each issues its statements one at
 a time against a database that other sessions use at the same time.
 */
module Store {
  import opened Wrappers
  import opened Tables
  import opened Protocol
  import opened ProtocolSafety
  import opened ProtocolCommits
  import opened ProtocolRuns
  import opened ProtocolTheorems

  datatype StoreError =
    | ErrNotFound
    | ErrLookupExisting
    | ErrConstraint   // a generated key collides, or two chunks share an index
    | ErrCancelled    // the context ended while a statement waited for a lock

  datatype Upserted = Upserted(id: DocId, chunks: nat, alreadyExisted: bool)

  datatype Outcome = Drained | Cleaned | Broken

  datatype ClaimOutcome = Claimed | Taken | Refused(error: StoreError)

  class Database {
    var s: State

    /**
     What other sessions attempt between our statements: one burst per statement of
     ours. Nothing is assumed about it, so every interleaving is covered.
     */
    var bursts: seq<seq<Label>>

    ghost var trace: seq<State>

    ghost predicate Valid()
      reads this
    {
      Run(trace) && trace[|trace| - 1] == s
    }

    constructor (bursts: seq<seq<Label>>)
      ensures Valid() && s == INITIAL && this.bursts == bursts
    {
      this.bursts := bursts;
      s := INITIAL;
      trace := [INITIAL];
    }

    /** Executes one statement. */
    method Apply(l: Label)
      requires Valid() && Enabled(s, l)
      modifies this`s, this`trace
      ensures Valid() && s == Next(old(s), l) && trace == old(trace) + [s]
    {
      s := Next(s, l);
      assert Step(trace[|trace| - 1], s);
      trace := trace + [s];
    }

    /** Lets the other sessions run; they cannot move the process `pid`. */
    method Others(pid: Pid)
      requires Valid() && pid < |s.procs|
      modifies this
      ensures Valid() && old(trace) <= trace
      ensures |s.procs| >= |old(s).procs| && s.procs[pid] == old(s).procs[pid]
      ensures old(bursts) == [] ==> bursts == [] && s == old(s) && trace == old(trace)
      ensures old(bursts) != [] ==> bursts == old(bursts)[1..]
    {
      if bursts != [] {
        var burst := bursts[0];
        bursts := bursts[1..];
        for k := 0 to |burst|
          invariant Valid() && old(trace) <= trace && bursts == old(bursts)[1..]
          invariant |s.procs| >= |old(s).procs| && s.procs[pid] == old(s).procs[pid]
        {
          if (burst[k].Start? || burst[k].pid != pid) && Enabled(s, burst[k]) {
            Apply(burst[k]);
          }
        }
      }
    }

    method Begin(call: Call) returns (pid: Pid)
      requires Valid()
      modifies this`s, this`trace
      ensures Valid() && trace == old(trace) + [s]
      ensures pid == |old(s).procs| && s == old(s).(procs := old(s).procs + [StartProc(call)])
    {
      pid := |s.procs|;
      Apply(Start(call));
    }

    /** The deferred rollback of a call that returns an error. */
    method Rollback(pid: Pid)
      requires Valid() && pid < |s.procs| && InTransaction(s.procs[pid])
      modifies this`s, this`trace
      ensures Valid() && trace == old(trace) + [s]
      ensures s.db == old(s).db && s.written == old(s).written
      ensures s.procs == old(s).procs[pid := NextProc(old(s), Abort(pid))]
    {
      Apply(Abort(pid));
    }

    /** Waits until no other session holds `r`, or until the context ends. */
    method Await(pid: Pid, r: Resource) returns (ok: bool)
      requires Valid() && pid < |s.procs|
      modifies this
      ensures Valid() && old(trace) <= trace && |bursts| <= |old(bursts)|
      ensures |s.procs| >= |old(s).procs| && s.procs[pid] == old(s).procs[pid]
      ensures ok == Free(s, pid, r)
      ensures old(bursts) == [] ==> bursts == [] && s == old(s) && trace == old(trace)
    {
      Others(pid);
      while !Free(s, pid, r) && bursts != []
        invariant Valid() && old(trace) <= trace && |bursts| <= |old(bursts)|
        invariant |s.procs| >= |old(s).procs| && s.procs[pid] == old(s).procs[pid]
        invariant old(bursts) == [] ==> bursts == [] && s == old(s) && trace == old(trace)
        decreases |bursts|
      {
        Others(pid);
      }
      ok := Free(s, pid, r);
    }

    /** insertChunks: builds the rows of the multi-row INSERT one by one. */
    static method InsertRows(id: DocId, data: seq<ChunkData>, ids: seq<ChunkId>)
        returns (rows: map<ChunkId, ChunkRow>)
      requires |ids| == |data|
      ensures rows == RowsFrom(id, data, ids)
    {
      rows := map[];
      for i := 0 to |data|
        invariant rows == RowsFrom(id, data[..i], ids[..i])
      {
        assert data[..i + 1][..i] == data[..i] && ids[..i + 1][..i] == ids[..i];
        rows := rows[ids[i] := ChunkRow(id, data[i].index, data[i].text, Some(data[i].embedding))];
      }
      assert data[..|data|] == data && ids[..|data|] == ids;
    }

    // ---------- UpsertDoc ----------

    method UpsertDoc(d: NewDoc, data: seq<ChunkData>, newId: DocId, ids: seq<ChunkId>, at: Time)
        returns (pid: Pid, r: Result<Upserted, StoreError>)
      requires Valid() && |ids| == |data|
      modifies this
      ensures Valid() && old(trace) <= trace
      ensures |old(s).procs| <= pid < |s.procs|
      ensures r.Ok? ==>
        s.procs[pid] == UpsertReturned(d, r.value.id, r.value.chunks, r.value.alreadyExisted)
      ensures r.Err? ==> s.procs[pid] == Failed && r.error != ErrLookupExisting
      ensures r.Ok? && !r.value.alreadyExisted ==>
        r.value.id == newId && r.value.chunks == |data| && Stored(s.db, d, newId, at, data, ids)
      ensures old(bursts) == [] && Alone(old(s)) ==>
        Effect(old(s), s.db, r, d, data, newId, ids, at)
    {
      pid := Begin(CallUpsert(d, data));
      var claim := Claim(pid, d, data, newId, at);
      match claim {
        case Refused(e) => r := Err(e);
        case Taken =>
          var u := Existing(pid, d);
          r := Ok(u);
        case Claimed =>
          r := PersistChunks(pid, d, data, newId, ids, at);
          if r.Ok? && old(bursts) == [] && Alone(old(s)) {
            ChunksAreWritten(old(trace));
            PublishedInserted(old(s).db, d, newId, at, data, ids);
          }
      }
    }

    /** INSERT INTO docs ... ON CONFLICT DO NOTHING RETURNING id. */
    method Claim(pid: Pid, d: NewDoc, data: seq<ChunkData>, newId: DocId, at: Time) returns (c: ClaimOutcome)
      requires Valid() && pid < |s.procs| && s.procs[pid] == UpsertInsert(d, data)
      modifies this
      ensures Valid() && old(trace) <= trace && pid < |s.procs|
      ensures old(bursts) == [] ==> bursts == [] && s.db == old(s).db && s.written == old(s).written
      ensures old(bursts) == [] && OthersReturned(old(s), pid) ==> OthersReturned(s, pid)
      ensures match c
        case Claimed => s.procs[pid] == UpsertClaimed(d, data, newId, at)
        case Taken => s.procs[pid] == UpsertConflict(d)
        case Refused(e) => s.procs[pid] == Failed && e != ErrLookupExisting
      ensures old(bursts) == [] && OthersReturned(old(s), pid) ==>
        c == if HashTaken(old(s).db, d.hash) then Taken
             else if newId != NIL_ID && newId !in old(s).db.docs then Claimed
             else Refused(ErrConstraint)
    {
      // The insert waits for any other transaction that has claimed the hash.
      var _ := Await(pid, HashClaim(d.hash));
      if OthersReturned(s, pid) {
        NothingHeld(trace, pid, HashClaim(d.hash));
        if newId !in s.db.docs {
          NothingHeld(trace, pid, DocKey(newId));
        }
      }
      c := InsertStatement(pid, d, data, newId, at);
    }

    method InsertStatement(pid: Pid, d: NewDoc, data: seq<ChunkData>, newId: DocId, at: Time)
        returns (c: ClaimOutcome)
      requires Valid() && pid < |s.procs| && s.procs[pid] == UpsertInsert(d, data)
      modifies this`s, this`trace
      ensures Valid() && trace == old(trace) + [s]
      ensures s.db == old(s).db && s.written == old(s).written
      ensures |s.procs| == |old(s).procs| && s.procs == old(s).procs[pid := s.procs[pid]]
      ensures match c
        case Claimed => s.procs[pid] == UpsertClaimed(d, data, newId, at)
        case Taken => s.procs[pid] == UpsertConflict(d)
        case Refused(e) => s.procs[pid] == Failed && e != ErrLookupExisting
      ensures c == if !Free(old(s), pid, HashClaim(d.hash)) then Refused(ErrCancelled)
                   else if HashTaken(old(s).db, d.hash) then Taken
                   else if newId != NIL_ID && newId !in old(s).db.docs && Free(old(s), pid, DocKey(newId)) then Claimed
                   else Refused(ErrConstraint)
    {
      if !Free(s, pid, HashClaim(d.hash)) {
        Rollback(pid);
        c := Refused(ErrCancelled);
      } else if HashTaken(s.db, d.hash) {
        Apply(InsertConflict(pid));
        c := Taken;
      } else if newId == NIL_ID || newId in s.db.docs || !Free(s, pid, DocKey(newId)) {
        Rollback(pid);
        c := Refused(ErrConstraint);
      } else {
        Apply(InsertDoc(pid, newId, at));
        c := Claimed;
      }
    }

    /** The hash was claimed: persist chunks and commit. */
    method PersistChunks(pid: Pid, d: NewDoc, data: seq<ChunkData>, id: DocId, ids: seq<ChunkId>, at: Time)
        returns (r: Result<Upserted, StoreError>)
      requires Valid() && |ids| == |data|
      requires pid < |s.procs| && s.procs[pid] == UpsertClaimed(d, data, id, at)
      modifies this
      ensures Valid() && old(trace) <= trace && pid < |s.procs|
      ensures r.Ok? ==> r.value == Upserted(id, |data|, false) && s.procs[pid] == UpsertReturned(d, id, |data|, false)
      ensures r.Err? ==> r.error == ErrConstraint && s.procs[pid] == Failed
      ensures r.Ok? ==> Stored(s.db, d, id, at, data, ids)
      ensures old(bursts) == [] && OthersReturned(old(s), pid) ==>
        (r.Ok? <==> ChunksInsertable(old(s).written, data, ids))
      ensures old(bursts) == [] ==>
        s.db == if r.Ok? then Published(old(s).db, UpsertWritten(d, id, at, RowsFrom(id, data, ids))) else old(s).db
    {
      var written := WriteChunks(pid, d, data, id, ids, at);
      if !written {
        return Err(ErrConstraint);
      }
      CommitRows(pid, data, ids);
      r := Ok(Upserted(id, |data|, false));
    }

    /** The commit that publishes the doc and its chunks. */
    method CommitRows(pid: Pid, ghost data: seq<ChunkData>, ghost ids: seq<ChunkId>)
      requires Valid() && pid < |s.procs| && s.procs[pid].UpsertWritten?
      requires |ids| == |data| && Distinct(ids) && s.procs[pid].rows == RowsFrom(s.procs[pid].id, data, ids)
      modifies this
      ensures Valid() && old(trace) <= trace && pid < |s.procs|
      ensures var p := old(s).procs[pid];
        && s.procs[pid] == UpsertReturned(p.doc, p.id, |data|, false)
        && Stored(s.db, p.doc, p.id, p.createdAt, data, ids)
      ensures old(bursts) == [] ==> s.db == Published(old(s).db, old(s).procs[pid])
    {
      RowsFromAt(s.procs[pid].id, data, ids);
      Others(pid);
      NowStored(trace, pid, data, ids);
      Apply(CommitInsert(pid));
    }

    method WriteChunks(pid: Pid, d: NewDoc, data: seq<ChunkData>, id: DocId, ids: seq<ChunkId>, at: Time)
        returns (ok: bool)
      requires Valid() && |ids| == |data|
      requires pid < |s.procs| && s.procs[pid] == UpsertClaimed(d, data, id, at)
      modifies this
      ensures Valid() && old(trace) <= trace && pid < |s.procs|
      ensures ok ==> Distinct(ids) && s.procs[pid] == UpsertWritten(d, id, at, RowsFrom(id, data, ids))
      ensures !ok ==> s.procs[pid] == Failed
      ensures old(bursts) == [] ==> bursts == [] && s.db == old(s).db
      ensures old(bursts) == [] && OthersReturned(old(s), pid) ==>
        (ok <==> ChunksInsertable(old(s).written, data, ids))
    {
      Others(pid);
      if OthersReturned(s, pid) {
        forall c | c in ids ensures Free(s, pid, ChunkKey(c)) {
          NothingHeld(trace, pid, ChunkKey(c));
        }
      }
      ok := ChunkStatement(pid, d, data, id, ids, at);
    }

    method ChunkStatement(pid: Pid, d: NewDoc, data: seq<ChunkData>, id: DocId, ids: seq<ChunkId>, at: Time)
        returns (ok: bool)
      requires Valid() && |ids| == |data|
      requires pid < |s.procs| && s.procs[pid] == UpsertClaimed(d, data, id, at)
      modifies this`s, this`trace
      ensures Valid() && trace == old(trace) + [s] && pid < |s.procs| && s.db == old(s).db
      ensures ok ==> s.procs[pid] == UpsertWritten(d, id, at, RowsFrom(id, data, ids))
      ensures !ok ==> s.procs[pid] == Failed
      ensures ok == (ChunksInsertable(old(s).written, data, ids) && forall c | c in ids :: Free(old(s), pid, ChunkKey(c)))
    {
      ok := ChunksInsertable(s.written, data, ids) && forall c | c in ids :: Free(s, pid, ChunkKey(c));
      if ok {
        var rows := InsertRows(id, data, ids);
        Apply(InsertChunks(pid, ids));
        assert s.procs[pid].rows == rows;
      } else {
        Rollback(pid);
      }
    }

    /** The hash was taken: report the doc that has it. */
    method Existing(pid: Pid, d: NewDoc) returns (u: Upserted)
      requires Valid()
      requires pid < |s.procs| && s.procs[pid] == UpsertConflict(d)
      modifies this
      ensures Valid() && old(trace) <= trace && pid < |s.procs|
      ensures u.alreadyExisted && s.procs[pid] == UpsertReturned(d, u.id, u.chunks, true)
      ensures old(bursts) == [] ==>
        && s.db == old(s).db && u.id in s.db.docs && s.db.docs[u.id].doc.hash == d.hash
        && u.chunks == |RowsOf(s.db.chunks, u.id)|
    {
      var id := LookupExisting(pid, d);
      Others(pid);
      Apply(CountChunks(pid));
      var n := s.procs[pid].n;
      Others(pid);
      Apply(CommitConflict(pid));
      u := Upserted(id, n, true);
    }

    /** SELECT id FROM docs WHERE content_hash = $1. */
    method LookupExisting(pid: Pid, d: NewDoc) returns (id: DocId)
      requires Valid()
      requires pid < |s.procs| && s.procs[pid] == UpsertConflict(d)
      modifies this
      ensures Valid() && old(trace) <= trace && pid < |s.procs|
      ensures s.procs[pid] == UpsertFound(d, id)
      ensures id in s.db.docs && s.db.docs[id].doc.hash == d.hash
      ensures old(bursts) == [] ==> bursts == [] && s.db == old(s).db
    {
      Others(pid);
      ConflictKnown(trace, pid, d);
      id :| id in s.db.docs && s.db.docs[id].doc.hash == d.hash;
      Apply(LookupId(pid, id));
    }

    // ---------- DeleteDoc ----------

    method DeleteDoc(id: DocId, tomb: TombId, at: Time) returns (pid: Pid, r: Result<(), StoreError>)
      requires Valid()
      modifies this
      ensures Valid() && old(trace) <= trace
      ensures |old(s).procs| <= pid < |s.procs|
      ensures r.Ok? ==> DeletedBy(s.procs[pid], id) && !IsDeleted(old(s).db, id) && Marked(s.db, id, tomb, at)
      ensures r == Err(ErrNotFound) ==> s.procs[pid] == DeleteReturned(id, false) && !Live(s.db, id)
      ensures r.Err? && r.error != ErrNotFound ==> s.procs[pid] == Failed
      ensures old(bursts) == [] && Alone(old(s)) ==>
        && (r == Err(ErrNotFound) <==> !Live(old(s).db, id))
        && (r.Ok? <==> Live(old(s).db, id) && tomb !in old(s).db.tombs)
      ensures old(bursts) == [] && Alone(old(s)) ==>
        if r.Ok? then Removed(old(s).db, s.db, id, tomb, at) else s.db == old(s).db
    {
      pid := Begin(CallDelete(id));
      r := LockRow(pid, id, at);
      if r.Ok? {
        r := Bury(pid, id, tomb, at);
        if r.Ok? {
          NotDeletedBefore(old(trace), trace, pid, id);
        }
      }
    }

    /** SELECT deleted_at ... FOR UPDATE. */
    method LockRow(pid: Pid, id: DocId, at: Time) returns (r: Result<(), StoreError>)
      requires Valid() && pid < |s.procs| && s.procs[pid] == DeleteSelect(id)
      modifies this
      ensures Valid() && old(trace) <= trace && pid < |s.procs|
      ensures old(bursts) == [] ==> bursts == [] && s.db == old(s).db
      ensures old(bursts) == [] && OthersReturned(old(s), pid) ==> OthersReturned(s, pid)
      ensures r.Ok? ==> s.procs[pid] == DeleteHeld(id, at) && Live(s.db, id)
      ensures r == Err(ErrNotFound) ==> s.procs[pid] == DeleteReturned(id, false) && !Live(s.db, id)
      ensures r.Err? && r.error != ErrNotFound ==> s.procs[pid] == Failed
      ensures old(bursts) == [] && OthersReturned(old(s), pid) ==>
        (if Live(old(s).db, id) then r.Ok? else r == Err(ErrNotFound))
    {
      var _ := Await(pid, DocLock(id));
      if OthersReturned(s, pid) {
        NothingHeld(trace, pid, DocLock(id));
      }
      r := SelectStatement(pid, id, at);
    }

    method SelectStatement(pid: Pid, id: DocId, at: Time) returns (r: Result<(), StoreError>)
      requires Valid() && pid < |s.procs| && s.procs[pid] == DeleteSelect(id)
      modifies this`s, this`trace
      ensures Valid() && trace == old(trace) + [s] && s.db == old(s).db
      ensures pid < |s.procs| && s.procs == old(s).procs[pid := s.procs[pid]]
      ensures r.Ok? ==> s.procs[pid] == DeleteHeld(id, at)
      ensures r == Err(ErrNotFound) ==> s.procs[pid] == DeleteReturned(id, false)
      ensures r.Err? && r.error != ErrNotFound ==> s.procs[pid] == Failed
      ensures r == if !Free(old(s), pid, DocLock(id)) then Err(ErrCancelled)
                   else if Live(s.db, id) then Ok(()) else Err(ErrNotFound)
    {
      if !Free(s, pid, DocLock(id)) {
        Rollback(pid);
        r := Err(ErrCancelled);
      } else if !Live(s.db, id) {
        Apply(SelectMissing(pid));
        r := Err(ErrNotFound);
      } else {
        Apply(SelectForUpdate(pid, at));
        r := Ok(());
      }
    }

    /** The row is locked and live: update it, insert the tombstone, commit. */
    method Bury(pid: Pid, id: DocId, tomb: TombId, at: Time) returns (r: Result<(), StoreError>)
      requires Valid() && pid < |s.procs| && s.procs[pid] == DeleteHeld(id, at)
      modifies this
      ensures Valid() && old(trace) <= trace && pid < |s.procs|
      ensures r.Ok? ==> DeletedBy(s.procs[pid], id) && Marked(s.db, id, tomb, at)
      ensures r.Err? ==> r.error == ErrConstraint && s.procs[pid] == Failed
      ensures old(bursts) == [] && OthersReturned(old(s), pid) ==> (r.Ok? <==> tomb !in old(s).db.tombs)
      ensures old(bursts) == [] ==>
        s.db == if r.Ok? then Buried(old(s).db, DeleteTombed(id, at, Some(tomb))) else old(s).db
    {
      Others(pid);
      Apply(MarkDeleted(pid));
      var ok := InsertTomb(pid, id, tomb, at);
      if !ok {
        return Err(ErrConstraint);
      }
      Others(pid);
      StillLive(trace, pid);
      Apply(CommitDelete(pid));
      r := Ok(());
    }

    /** INSERT INTO doc_tombstones ... ON CONFLICT DO NOTHING. */
    method InsertTomb(pid: Pid, id: DocId, tomb: TombId, at: Time) returns (ok: bool)
      requires Valid() && pid < |s.procs| && s.procs[pid] == DeleteMarked(id, at)
      modifies this
      ensures Valid() && old(trace) <= trace && pid < |s.procs|
      ensures s.procs[pid] == if ok then DeleteTombed(id, at, Some(tomb)) else Failed
      ensures old(bursts) == [] ==> bursts == [] && s.db == old(s).db
      ensures old(bursts) == [] && OthersReturned(old(s), pid) ==> (ok <==> tomb !in old(s).db.tombs)
    {
      Others(pid);
      ClaimDecided(trace, pid, id);
      if OthersReturned(s, pid) {
        NothingHeld(trace, pid, TombKey(tomb));
      }
      ok := TombStatement(pid, id, tomb, at);
    }

    method TombStatement(pid: Pid, id: DocId, tomb: TombId, at: Time) returns (ok: bool)
      requires Valid() && pid < |s.procs| && s.procs[pid] == DeleteMarked(id, at)
      requires Free(s, pid, TombClaim(id)) && !HasTombstone(s.db, id)
      modifies this`s, this`trace
      ensures Valid() && trace == old(trace) + [s] && pid < |s.procs| && s.db == old(s).db
      ensures s.procs[pid] == if ok then DeleteTombed(id, at, Some(tomb)) else Failed
      ensures ok == (tomb !in old(s).db.tombs && Free(old(s), pid, TombKey(tomb)))
    {
      ok := tomb !in s.db.tombs && Free(s, pid, TombKey(tomb));
      if ok {
        Apply(InsertTombstone(pid, tomb));
      } else {
        Rollback(pid);
      }
    }

    // ---------- Compact ----------

    /** `at` stands for now(); `batchSize` is advisory. */
    method Compact(batchSize: int, at: Time) returns (pid: Pid, res: CompactResult, ok: bool)
      requires Valid()
      modifies this
      ensures Valid() && old(trace) <= trace
      ensures |old(s).procs| <= pid < |s.procs|
      ensures s.procs[pid].CompactReturned? && s.procs[pid].res == res && s.procs[pid].ok == ok
      ensures ok ==> Pending(s.db) == {} && s.db.chunks == Eligible(s.db)
      ensures old(bursts) == [] && Alone(old(s)) ==>
        && ok && s.db.docs == old(s).db.docs && s.db.chunks == Eligible(old(s).db) && Stamped(old(s).db, s.db, at)
        && res.tombstones == |Pending(old(s).db)|
        && res.chunksDeleted == |old(s).db.chunks| - |Eligible(old(s).db)|
    {
      pid := Begin(CallCompact);
      res, ok := Drain(pid, at);
      if old(bursts) == [] && Alone(old(s)) {
        SameEligible(old(trace), trace);
      }
    }

    /** Compact's loop. */
    method Drain(pid: Pid, at: Time) returns (res: CompactResult, ok: bool)
      requires Valid() && pid < |s.procs| && s.procs[pid].CompactScan? && s.procs[pid].res == CompactResult(0, 0)
      modifies this
      ensures Valid() && old(trace) <= trace && pid < |s.procs|
      ensures s.procs[pid].CompactReturned? && s.procs[pid].res == res && s.procs[pid].ok == ok
      ensures ok ==> Pending(s.db) == {} && s.db.chunks == Eligible(s.db)
      ensures old(bursts) == [] && OthersReturned(old(s), pid) ==> ok && Progress(old(s), s, at, res)
    {
      res := CompactResult(0, 0);
      var outcome := Cleaned;
      while outcome.Cleaned?
        invariant Valid() && old(trace) <= trace && pid < |s.procs|
        invariant RunAt(s.procs[pid], outcome, res)
        invariant outcome.Drained? ==> Pending(s.db) == {} && s.db.chunks == Eligible(s.db)
        invariant old(bursts) == [] && OthersReturned(old(s), pid) ==> !outcome.Broken? && Progress(old(s), s, at, res)
        invariant old(bursts) == [] && OthersReturned(old(s), pid) && outcome.Cleaned? ==>
          bursts == [] && OthersReturned(s, pid)
        decreases outcome.Cleaned?, |bursts|, |Pending(s.db)|
      {
        outcome := Iterate(pid, at);
        res := s.procs[pid].res;
      }
      ok := outcome.Drained?;
    }

    /** One turn of Compact's loop. */
    method Iterate(pid: Pid, at: Time) returns (outcome: Outcome)
      requires Valid() && pid < |s.procs| && s.procs[pid].CompactScan?
      modifies this
      ensures Valid() && old(trace) <= trace && pid < |s.procs|
      ensures |bursts| <= |old(bursts)| && (old(bursts) != [] ==> |bursts| < |old(bursts)|)
      ensures match outcome
        case Drained => s.procs[pid].CompactReturned? && s.procs[pid].ok && s.procs[pid].res == old(s).procs[pid].res
        case Cleaned => s.procs[pid].CompactScan?
        case Broken => s.procs[pid].CompactReturned? && !s.procs[pid].ok
      ensures outcome.Drained? ==> Pending(s.db) == {} && s.db.chunks == Eligible(s.db)
      ensures old(bursts) == [] ==> match outcome
        case Drained => s.db == old(s).db && s.written == old(s).written
        case Cleaned => bursts == [] && CleanedUp(old(s), s, at, old(s).procs[pid].res, s.procs[pid].res)
        case Broken => true
      ensures old(bursts) == [] && OthersReturned(old(s), pid) ==> !outcome.Broken? && OthersReturned(s, pid)
    {
      Others(pid);
      if NoneScannable(s.db) {
        DrainedIsClean(trace);
        Apply(ScanDrained(pid));
        outcome := Drained;
      } else {
        var t := OldestTombstone(s.db);
        Apply(ScanTombstone(pid, t));
        var ok := Cleanup(pid, at);
        outcome := if ok then Cleaned else Broken;
      }
    }

    /** One transaction: delete the chunks of the picked doc and stamp its tombstone. */
    method Cleanup(pid: Pid, at: Time) returns (ok: bool)
      requires Valid() && pid < |s.procs| && s.procs[pid].CompactPicked?
      requires s.procs[pid].tomb in Pending(s.db)
      modifies this
      ensures Valid() && old(trace) <= trace && pid < |s.procs| && |bursts| <= |old(bursts)|
      ensures if ok then s.procs[pid].CompactScan? else s.procs[pid].CompactReturned? && !s.procs[pid].ok
      ensures old(bursts) == [] && ok ==> bursts == [] && CleanedUp(old(s), s, at, old(s).procs[pid].res, s.procs[pid].res)
      ensures old(bursts) == [] && OthersReturned(old(s), pid) ==> ok && OthersReturned(s, pid)
    {
      Others(pid);
      Apply(DeleteSnapshot(pid));
      ok := DeleteRows(pid);
      if ok {
        ok := StampPicked(pid, at, old(s));
      }
    }

    /** The end of a cleanup whose rows are gone; `start` is the state in which it was picked. */
    method StampPicked(pid: Pid, at: Time, ghost start: State) returns (ok: bool)
      requires Valid() && pid < |s.procs| && s.procs[pid].CompactDeleting? && s.procs[pid].todo == {}
      requires pid < |start.procs| && start.procs[pid].CompactPicked? && start.procs[pid].tomb in Pending(start.db)
      requires SameRun(start.procs[pid], s.procs[pid])
      modifies this
      ensures Valid() && old(trace) <= trace && pid < |s.procs| && |bursts| <= |old(bursts)|
      ensures if ok then s.procs[pid].CompactScan? else s.procs[pid].CompactReturned? && !s.procs[pid].ok
      ensures old(bursts) == [] && old(s).db == start.db && old(s).written == start.written && ok ==>
        bursts == [] && CleanedUp(start, s, at, start.procs[pid].res, s.procs[pid].res)
      ensures old(bursts) == [] && OthersReturned(old(s), pid) ==> ok && OthersReturned(s, pid)
    {
      ghost var before := trace;
      ok := Stamp(pid, at);
      if ok && old(bursts) == [] && old(s).db == start.db && old(s).written == start.written {
        StampCleansUp(before, start, pid, at);
      }
    }

    /** DELETE FROM doc_chunks WHERE doc_id = $1: takes the rows its snapshot saw one by one. */
    method DeleteRows(pid: Pid) returns (ok: bool)
      requires Valid() && pid < |s.procs| && s.procs[pid].CompactDeleting?
      modifies this
      ensures Valid() && old(trace) <= trace && pid < |s.procs| && |bursts| <= |old(bursts)|
      ensures if ok then s.procs[pid].CompactDeleting? && s.procs[pid].todo == {}
                         && SameRun(old(s).procs[pid], s.procs[pid])
              else s.procs[pid].CompactReturned? && !s.procs[pid].ok
      ensures old(bursts) == [] ==> bursts == [] && s.db == old(s).db && s.written == old(s).written
      ensures old(bursts) == [] && OthersReturned(old(s), pid) ==> ok && OthersReturned(s, pid)
    {
      ok := true;
      while ok && s.procs[pid].todo != {}
        invariant Valid() && old(trace) <= trace && pid < |s.procs| && |bursts| <= |old(bursts)|
        invariant if ok then s.procs[pid].CompactDeleting? && SameRun(old(s).procs[pid], s.procs[pid])
                  else s.procs[pid].CompactReturned? && !s.procs[pid].ok
        invariant old(bursts) == [] ==> bursts == [] && s.db == old(s).db && s.written == old(s).written
        invariant old(bursts) == [] && OthersReturned(old(s), pid) ==> ok && OthersReturned(s, pid)
        decreases ok, if ok then |s.procs[pid].todo| else 0
      {
        ok := DeleteNext(pid);
      }
    }

    /** Waits for the lock on one row that the snapshot saw, and deletes it if it is still there. */
    method DeleteNext(pid: Pid) returns (ok: bool)
      requires Valid() && pid < |s.procs| && s.procs[pid].CompactDeleting? && s.procs[pid].todo != {}
      modifies this
      ensures Valid() && old(trace) <= trace && pid < |s.procs| && |bursts| <= |old(bursts)|
      ensures if ok then s.procs[pid].CompactDeleting? && |s.procs[pid].todo| < |old(s).procs[pid].todo|
                         && SameRun(old(s).procs[pid], s.procs[pid])
              else s.procs[pid].CompactReturned? && !s.procs[pid].ok
      ensures old(bursts) == [] ==> bursts == [] && s.db == old(s).db && s.written == old(s).written
      ensures old(bursts) == [] && OthersReturned(old(s), pid) ==> ok && OthersReturned(s, pid)
    {
      var c :| c in s.procs[pid].todo;
      ok := Await(pid, RowLock(c));
      if OthersReturned(s, pid) {
        NothingHeld(trace, pid, RowLock(c));
      }
      DeleteStatement(pid, c, ok);
    }

    method DeleteStatement(pid: Pid, c: ChunkId, free: bool)
      requires Valid() && pid < |s.procs| && s.procs[pid].CompactDeleting? && c in s.procs[pid].todo
      requires free == Free(s, pid, RowLock(c))
      modifies this`s, this`trace
      ensures Valid() && trace == old(trace) + [s] && s.db == old(s).db && s.written == old(s).written
      ensures pid < |s.procs| && s.procs == old(s).procs[pid := s.procs[pid]]
      ensures if free then s.procs[pid].CompactDeleting? && s.procs[pid].todo == old(s).procs[pid].todo - {c}
                           && SameRun(old(s).procs[pid], s.procs[pid])
              else s.procs[pid].CompactReturned? && !s.procs[pid].ok
    {
      if free {
        Apply(DeleteRow(pid, c));
      } else {
        Rollback(pid);
      }
    }

    /** UPDATE doc_tombstones SET compacted_at, then commit. */
    method Stamp(pid: Pid, at: Time) returns (ok: bool)
      requires Valid() && pid < |s.procs| && s.procs[pid].CompactDeleting? && s.procs[pid].todo == {}
      modifies this
      ensures Valid() && old(trace) <= trace && pid < |s.procs| && |bursts| <= |old(bursts)|
      ensures if ok then s.procs[pid].CompactScan? else s.procs[pid].CompactReturned? && !s.procs[pid].ok
      ensures old(bursts) == [] && ok ==>
        bursts == [] && s == AfterStamp(old(s), pid, at)
      ensures old(bursts) == [] && OthersReturned(old(s), pid) ==> ok
    {
      var tomb := s.procs[pid].tomb;
      var free := Await(pid, TombLock(tomb));
      if OthersReturned(s, pid) {
        NothingHeld(trace, pid, TombLock(tomb));
      }
      if !free {
        Rollback(pid);
        return false;
      }
      StampAndCommit(pid, at);
      ok := true;
    }

    method StampAndCommit(pid: Pid, at: Time)
      requires Valid() && pid < |s.procs| && s.procs[pid].CompactDeleting? && s.procs[pid].todo == {}
      requires Free(s, pid, TombLock(s.procs[pid].tomb))
      modifies this
      ensures Valid() && old(trace) <= trace && pid < |s.procs| && |bursts| <= |old(bursts)|
      ensures s.procs[pid].CompactScan?
      ensures old(bursts) == [] ==> bursts == [] && s == AfterStamp(old(s), pid, at)
    {
      Apply(MarkCompacted(pid, at));
      Others(pid);
      Apply(CommitCompact(pid));
    }

    /** The scan's ORDER BY deleted_at LIMIT 1. */
    static method OldestTombstone(db: Tables) returns (t: TombId)
      requires exists u :: u in db.tombs && Scannable(db, u)
      ensures OldestScannable(db, t)
      ensures t in db.tombs && db.tombs[t].compactedAt.None? && IsDeleted(db, db.tombs[t].docId)
      ensures forall u :: u in db.tombs && db.tombs[u].compactedAt.None? && IsDeleted(db, db.tombs[u].docId) ==>
        db.tombs[t].deletedAt <= db.tombs[u].deletedAt
    {
      t :| t in db.tombs && Scannable(db, t);
      var rest := db.tombs.Keys;
      while rest != {}
        invariant Scannable(db, t) && rest <= db.tombs.Keys
        invariant forall u :: u in db.tombs && u !in rest && Scannable(db, u) ==>
          db.tombs[t].deletedAt <= db.tombs[u].deletedAt
        decreases rest
      {
        var u :| u in rest;
        if Scannable(db, u) && db.tombs[u].deletedAt < db.tombs[t].deletedAt {
          t := u;
        }
        rest := rest - {u};
      }
    }
  }

  /** No call is in the middle of a transaction. */
  ghost predicate Alone(s: State) {
    forall p :: 0 <= p < |s.procs| ==> Returned(s.procs[p])
  }

  ghost predicate OthersReturned(s: State, pid: Pid) {
    forall p :: 0 <= p < |s.procs| && p != pid ==> Returned(s.procs[p])
  }

  lemma ConflictKnown(trace: seq<State>, pid: Pid, d: NewDoc)
    requires Run(trace) && pid < |trace[|trace| - 1].procs|
    requires trace[|trace| - 1].procs[pid] == UpsertConflict(d)
    ensures HashTaken(trace[|trace| - 1].db, d.hash)
  {
    RunProcOk(trace, |trace| - 1, pid);
  }

  /** Calls that have returned hold no lock, and their keys belong to committed docs. */
  lemma NothingHeld(trace: seq<State>, pid: Pid, r: Resource)
    requires Run(trace) && OthersReturned(trace[|trace| - 1], pid)
    requires !r.Deleter? && (r.DocKey? ==> r.d !in trace[|trace| - 1].db.docs)
    ensures Free(trace[|trace| - 1], pid, r)
  {
    var s := trace[|trace| - 1];
    forall p | 0 <= p < |s.procs| && p != pid ensures r !in Holds(s.procs[p]) {
      RunProcOk(trace, |trace| - 1, p);
    }
  }

  lemma StillLive(trace: seq<State>, pid: Pid)
    requires Run(trace) && pid < |trace[|trace| - 1].procs| && trace[|trace| - 1].procs[pid].DeleteTombed?
    ensures Live(trace[|trace| - 1].db, trace[|trace| - 1].procs[pid].id)
  {
    RunProcOk(trace, |trace| - 1, pid);
  }

  /** deleted_at is set to the given time and the tombstone says so too. */
  predicate Marked(db: Tables, id: DocId, tomb: TombId, at: Time) {
    && id in db.docs && db.docs[id].deletedAt == Some(at)
    && tomb in db.tombs && db.tombs[tomb] == TombRow(id, at, None)
  }

  /** Only deleted_at of this doc changed, only this tombstone was added, and no chunk was touched. */
  predicate Removed(db: Tables, after: Tables, id: DocId, tomb: TombId, at: Time) {
    && id in db.docs && after.docs == db.docs[id := DocRow(db.docs[id].doc, db.docs[id].createdAt, Some(at))]
    && after.tombs == db.tombs[tomb := TombRow(id, at, None)] && after.chunks == db.chunks
  }

  /** With the row lock held, the tombstone insert neither waits nor conflicts. */
  lemma ClaimDecided(trace: seq<State>, pid: Pid, d: DocId)
    requires Run(trace) && pid < |trace[|trace| - 1].procs|
    requires trace[|trace| - 1].procs[pid].DeleteMarked? && trace[|trace| - 1].procs[pid].id == d
    ensures Free(trace[|trace| - 1], pid, TombClaim(d)) && !HasTombstone(trace[|trace| - 1].db, d)
  {
    TombstoneNeverWaits(trace, |trace| - 1, pid);
    RunProcOk(trace, |trace| - 1, pid);
    RunTables(trace, |trace| - 1);
  }

  lemma NotDeletedBefore(before: seq<State>, trace: seq<State>, pid: Pid, d: DocId)
    requires Run(trace) && before <= trace && |before| > 0
    requires |before[|before| - 1].procs| <= pid < |trace[|trace| - 1].procs|
    requires DeletedBy(trace[|trace| - 1].procs[pid], d)
    ensures !IsDeleted(before[|before| - 1].db, d) && IsDeleted(trace[|trace| - 1].db, d)
  {
    assert before[|before| - 1] == trace[|before| - 1];
    if IsDeleted(before[|before| - 1].db, d) {
      LaterDeleteNotFound(trace, |before| - 1, |trace| - 1, pid, d);
    }
    DeletedIffReported(trace, |trace| - 1, d);
  }

  function AfterStamp(s: State, pid: Pid, at: Time): State
    requires pid < |s.procs| && s.procs[pid].CompactDeleting?
  {
    var p := s.procs[pid];
    var q := CompactMarked(p.tomb, p.id, p.mine, at, p.res, p.done);
    State(Reclaimed(s.db, q), s.procs[pid := Rescan(q)], s.written)
  }

  /** The same cleanup of the same tombstone, in the same Compact run. */
  predicate SameRun(p: Proc, q: Proc)
    requires p.CompactPicked? || p.CompactDeleting?
    requires q.CompactPicked? || q.CompactDeleting?
  {
    p.tomb == q.tomb && p.id == q.id && p.res == q.res && p.done == q.done
  }

  lemma StampCleansUp(trace: seq<State>, s: State, pid: Pid, at: Time)
    requires Run(trace) && pid < |s.procs| && pid < |trace[|trace| - 1].procs|
    requires s.procs[pid].CompactPicked? && s.procs[pid].tomb in Pending(s.db)
    requires trace[|trace| - 1].procs[pid].CompactDeleting? && trace[|trace| - 1].procs[pid].todo == {}
    requires SameRun(s.procs[pid], trace[|trace| - 1].procs[pid])
    requires trace[|trace| - 1].db == s.db && trace[|trace| - 1].written == s.written
    ensures CleanedUp(s, AfterStamp(trace[|trace| - 1], pid, at), at, s.procs[pid].res,
                      AfterStamp(trace[|trace| - 1], pid, at).procs[pid].res)
  {
    var n := |trace| - 1;
    RunProcOk(trace, n, pid);
    RemoveSize(s.db.chunks, trace[n].procs[pid].mine);
    assert Pending(AfterStamp(trace[n], pid, at).db) == Pending(s.db) - {s.procs[pid].tomb};
  }

  /** No tombstone changed but by setting the compacted_at of a pending one to the given time. */
  ghost predicate Stamped(s: Tables, t: Tables, at: Time) {
    && t.tombs.Keys == s.tombs.Keys
    && forall u :: u in s.tombs ==>
         t.tombs[u] == s.tombs[u]
         || (s.tombs[u].compactedAt.None? && t.tombs[u] == TombRow(s.tombs[u].docId, s.tombs[u].deletedAt, Some(at)))
  }

  /** What one cleanup that ran alone did to the tables and to the counters of its run. */
  ghost predicate CleanedUp(s: State, t: State, at: Time, before: CompactResult, after: CompactResult) {
    && t.db.docs == s.db.docs && t.written == s.written && Stamped(s.db, t.db, at)
    && |Pending(t.db)| == |Pending(s.db)| - 1
    && after.tombstones == before.tombstones + 1
    && after.chunksDeleted + |t.db.chunks| == before.chunksDeleted + |s.db.chunks|
  }

  /** Where a Compact run stands after a turn of its loop. */
  predicate RunAt(p: Proc, outcome: Outcome, res: CompactResult) {
    if outcome.Cleaned? then p.CompactScan? && p.res == res
    else p.CompactReturned? && p.res == res && p.ok == outcome.Drained?
  }

  /** The counters account for everything that has left the tables since `s`. */
  ghost predicate Progress(s: State, t: State, at: Time, res: CompactResult) {
    && t.db.docs == s.db.docs && t.written == s.written && Stamped(s.db, t.db, at)
    && res.tombstones + |Pending(t.db)| == |Pending(s.db)|
    && res.chunksDeleted + |t.db.chunks| == |s.db.chunks|
  }

  predicate NoneScannable(db: Tables) {
    forall t | t in db.tombs :: !Scannable(db, t)
  }

  /** With nothing left to scan, every chunk row in the table belongs to a live doc. */
  lemma DrainedIsClean(trace: seq<State>)
    requires Run(trace)
    requires NoneScannable(trace[|trace| - 1].db)
    ensures Pending(trace[|trace| - 1].db) == {}
    ensures trace[|trace| - 1].db.chunks == Eligible(trace[|trace| - 1].db)
  {
    var n := |trace| - 1;
    TombstoneIffDeleted(trace, n);
    RunTables(trace, n);
    ChunksHaveDocs(trace, n);
    var db := trace[n].db;
    forall c | c in db.chunks ensures Live(db, db.chunks[c].docId) {
      var d := db.chunks[c].docId;
      if IsDeleted(db, d) {
        var t :| t in db.tombs && db.tombs[t].docId == d;
      }
    }
  }

  lemma ChunksHaveDocs(trace: seq<State>, i: nat)
    requires Run(trace) && i < |trace|
    ensures forall c :: c in trace[i].db.chunks ==> trace[i].db.chunks[c].docId in trace[i].db.docs
  {
    RunInv(trace, i);
  }

  lemma ChunksAreWritten(trace: seq<State>)
    requires Run(trace)
    ensures trace[|trace| - 1].db.chunks.Keys <= trace[|trace| - 1].written.Keys
  {
    RunTables(trace, |trace| - 1);
  }

  lemma SameEligible(before: seq<State>, trace: seq<State>)
    requires Run(before) && Run(trace)
    requires before[|before| - 1].db.docs == trace[|trace| - 1].db.docs
    requires before[|before| - 1].written == trace[|trace| - 1].written
    ensures Eligible(before[|before| - 1].db) == Eligible(trace[|trace| - 1].db)
  {
    EligibleIsLiveHistory(before, |before| - 1);
    EligibleIsLiveHistory(trace, |trace| - 1);
  }

  /** The INSERT of these chunks meets every constraint, given the rows ever written. */
  predicate ChunksInsertable(written: map<ChunkId, ChunkRow>, data: seq<ChunkData>, ids: seq<ChunkId>) {
    Distinct(ids) && DistinctIndexes(data) && forall c | c in ids :: c !in written
  }

  /** The docs row carries these fields and is live; the doc's chunk rows are the supplied ones, each under its own key. */
  ghost predicate Stored(db: Tables, d: NewDoc, id: DocId, at: Time, data: seq<ChunkData>, ids: seq<ChunkId>) {
    && |ids| == |data|
    && id in db.docs && db.docs[id] == DocRow(d, at, None)
    && (forall c :: c in RowsOf(db.chunks, id) <==> c in ids)
    && (forall i :: 0 <= i < |ids| ==> ids[i] in db.chunks && RowCarries(db.chunks[ids[i]], id, data[i]))
  }

  predicate RowCarries(row: ChunkRow, id: DocId, data: ChunkData) {
    row.docId == id && row.index == data.index && row.text == data.text && row.embedding == Some(data.embedding)
  }

  /** Between `db` and `after` nothing but this doc and its chunk rows was added, and nothing else changed. */
  ghost predicate Inserted(db: Tables, after: Tables, d: NewDoc, id: DocId, at: Time, data: seq<ChunkData>, ids: seq<ChunkId>) {
    && after.docs == db.docs[id := DocRow(d, at, None)] && after.tombs == db.tombs
    && Stored(after, d, id, at, data, ids)
    && (forall c :: c in after.chunks <==> c in db.chunks || c in ids)
    && (forall c :: c in db.chunks ==> after.chunks[c] == db.chunks[c])
  }

  lemma PublishedInserted(db: Tables, d: NewDoc, id: DocId, at: Time, data: seq<ChunkData>, ids: seq<ChunkId>)
    requires |ids| == |data| && Distinct(ids)
    requires Stored(Published(db, UpsertWritten(d, id, at, RowsFrom(id, data, ids))), d, id, at, data, ids)
    requires forall c :: c in ids ==> c !in db.chunks
    ensures Inserted(db, Published(db, UpsertWritten(d, id, at, RowsFrom(id, data, ids))), d, id, at, data, ids)
  {
    RowsFromAt(id, data, ids);
  }

  lemma PublishedRows(chunks: map<ChunkId, ChunkRow>, rows: map<ChunkId, ChunkRow>, id: DocId)
    requires RowsOf(chunks, id) == {} && forall c :: c in rows ==> rows[c].docId == id
    ensures RowsOf(chunks + rows, id) == rows.Keys
  {
    assert forall c :: c in chunks + rows && c !in rows ==> c !in RowsOf(chunks, id);
  }

  lemma PublishedStored(db: Tables, p: Proc, data: seq<ChunkData>, ids: seq<ChunkId>)
    requires p.UpsertWritten? && |ids| == |data| && RowsOf(db.chunks, p.id) == {}
    requires (forall c :: c in p.rows <==> c in ids) && (forall c :: c in p.rows ==> p.rows[c].docId == p.id)
    requires forall i :: 0 <= i < |ids| ==> p.rows[ids[i]] == RowOf(p.id, data[i])
    ensures Stored(Published(db, p), p.doc, p.id, p.createdAt, data, ids)
  {
    PublishedRows(db.chunks, p.rows, p.id);
  }

  /** The commit of an insert stores the doc with its chunks: no row of an older doc is mixed in. */
  lemma NowStored(trace: seq<State>, pid: Pid, data: seq<ChunkData>, ids: seq<ChunkId>)
    requires Run(trace) && pid < |trace[|trace| - 1].procs| && |ids| == |data| && Distinct(ids)
    requires trace[|trace| - 1].procs[pid].UpsertWritten?
    requires trace[|trace| - 1].procs[pid].rows == RowsFrom(trace[|trace| - 1].procs[pid].id, data, ids)
    ensures var p := trace[|trace| - 1].procs[pid];
      Stored(Published(trace[|trace| - 1].db, p), p.doc, p.id, p.createdAt, data, ids)
  {
    var n := |trace| - 1;
    RunProcOk(trace, n, pid);
    ChunksHaveDocs(trace, n);
    RowsFromAt(trace[n].procs[pid].id, data, ids);
    PublishedStored(trace[n].db, trace[n].procs[pid], data, ids);
  }

  /** What an UpsertDoc that runs alone does to the tables and reports. */
  ghost predicate Effect(s: State, db: Tables, r: Result<Upserted, StoreError>, d: NewDoc, data: seq<ChunkData>,
                         newId: DocId, ids: seq<ChunkId>, at: Time)
    requires |ids| == |data|
  {
    if HashTaken(s.db, d.hash) then
      && db == s.db && r.Ok? && r.value.alreadyExisted
      && r.value.id in s.db.docs && s.db.docs[r.value.id].doc.hash == d.hash
      && r.value.chunks == |RowsOf(s.db.chunks, r.value.id)|
    else if newId != NIL_ID && newId !in s.db.docs && ChunksInsertable(s.written, data, ids) then
      && r == Ok(Upserted(newId, |data|, false))
      && Inserted(s.db, db, d, newId, at, data, ids)
    else
      r == Err(ErrConstraint) && db == s.db
  }
}
