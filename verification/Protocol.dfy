/**
 UpsertDoc, DeleteDoc and Compact as a transition system: any number of calls run
 at once, each one statement at a time.

 A process is one call. Its constructor is its program counter and its fields are
 its local variables together with the private effects of its open transaction.
 Nothing private is visible to other processes until the transaction commits
 (read committed), and a commit publishes all of it in one step. Locks are not
 stored twice: what a process holds is read off its program counter (`Holds`).
 */
module Protocol {
  import opened Wrappers
  import opened Tables

  type Pid = nat

  datatype CompactResult = CompactResult(tombstones: nat, chunksDeleted: nat)

  datatype Call =
    | CallUpsert(doc: NewDoc, data: seq<ChunkData>)
    | CallDelete(id: DocId)
    | CallCompact

  datatype Proc =
      // UpsertDoc: about to insert; row inserted; chunks inserted; no row returned;
      // existing id looked up; its chunks counted; returned to the caller.
    | UpsertInsert(doc: NewDoc, data: seq<ChunkData>)
    | UpsertClaimed(doc: NewDoc, data: seq<ChunkData>, id: DocId, createdAt: Time)
    | UpsertWritten(doc: NewDoc, id: DocId, createdAt: Time, rows: map<ChunkId, ChunkRow>)
    | UpsertConflict(doc: NewDoc)
    | UpsertFound(doc: NewDoc, id: DocId)
    | UpsertCounted(doc: NewDoc, id: DocId, n: nat)
    | UpsertReturned(doc: NewDoc, id: DocId, n: nat, existed: bool)
      // DeleteDoc: about to lock the row; lock held on a live row; row updated;
      // tombstone inserted; returned (ok means nil error, otherwise ErrNotFound).
    | DeleteSelect(id: DocId)
    | DeleteHeld(id: DocId, at: Time)
    | DeleteMarked(id: DocId, at: Time)
    | DeleteTombed(id: DocId, at: Time, newTomb: Option<TombId>)
    | DeleteReturned(id: DocId, ok: bool)
      // Compact: about to scan; tombstone picked outside any transaction; DELETE
      // running over the rows its snapshot saw; tombstone updated; returned.
    | CompactScan(res: CompactResult, done: set<TombId>)
    | CompactPicked(tomb: TombId, id: DocId, res: CompactResult, done: set<TombId>)
    | CompactDeleting(tomb: TombId, id: DocId, todo: set<ChunkId>, mine: set<ChunkId>,
                      res: CompactResult, done: set<TombId>)
    | CompactMarked(tomb: TombId, id: DocId, mine: set<ChunkId>, at: Time,
                    res: CompactResult, done: set<TombId>)
    | CompactReturned(res: CompactResult, done: set<TombId>, ok: bool)
      // An UpsertDoc or DeleteDoc whose transaction was rolled back.
    | Failed

  /** `written` is history: every row ever committed to doc_chunks. */
  datatype State = State(db: Tables, procs: seq<Proc>, written: map<ChunkId, ChunkRow>)

  datatype Resource =
    | HashClaim(hash: Bytes)
    | DocKey(d: DocId)
    | ChunkKey(c: ChunkId)
    | DocLock(d: DocId)
    | Deleter(d: DocId)
    | TombClaim(d: DocId)
    | TombKey(t: TombId)
    | RowLock(c: ChunkId)
    | TombLock(t: TombId)

  /**
   What a process keeps others from taking: unique-index claims and row locks of
   its open transaction. `DocKey` and `Deleter` outlive the transaction: the first
   is the primary key the call generated, the second marks the delete that won.
   */
  function Holds(p: Proc): set<Resource> {
    match p
    case UpsertClaimed(doc, _, id, _) => {HashClaim(doc.hash), DocKey(id)}
    case UpsertWritten(doc, id, _, rows) =>
      {HashClaim(doc.hash), DocKey(id)} + (set c | c in rows :: ChunkKey(c))
    case UpsertReturned(_, id, _, existed) => if existed then {} else {DocKey(id)}
    case DeleteHeld(id, _) => {DocLock(id)}
    case DeleteMarked(id, _) => {DocLock(id)}
    case DeleteTombed(id, _, newTomb) =>
      {DocLock(id), TombClaim(id)} + (if newTomb.Some? then {TombKey(newTomb.value)} else {})
    case DeleteReturned(id, ok) => if ok then {Deleter(id)} else {}
    case CompactDeleting(_, _, _, mine, _, _) => set c | c in mine :: RowLock(c)
    case CompactMarked(tomb, _, mine, _, _, _) => (set c | c in mine :: RowLock(c)) + {TombLock(tomb)}
    case _ => {}
  }

  /** No other process holds `r`, so `p` need not wait for it. */
  predicate Free(s: State, p: Pid, r: Resource) {
    forall q | 0 <= q < |s.procs| && q != p :: r !in Holds(s.procs[q])
  }

  datatype Label =
    | Start(call: Call)
    | InsertDoc(pid: Pid, id: DocId, at: Time)
    | InsertConflict(pid: Pid)
    | InsertChunks(pid: Pid, ids: seq<ChunkId>)
    | CommitInsert(pid: Pid)
    | LookupId(pid: Pid, id: DocId)
    | LookupMiss(pid: Pid)
    | CountChunks(pid: Pid)
    | CommitConflict(pid: Pid)
    | SelectMissing(pid: Pid)
    | SelectForUpdate(pid: Pid, at: Time)
    | MarkDeleted(pid: Pid)
    | InsertTombstone(pid: Pid, tomb: TombId)
    | TombstoneConflict(pid: Pid)
    | CommitDelete(pid: Pid)
    | ScanTombstone(pid: Pid, tomb: TombId)
    | ScanDrained(pid: Pid)
    | DeleteSnapshot(pid: Pid)
    | DeleteRow(pid: Pid, c: ChunkId)
    | MarkCompacted(pid: Pid, at: Time)
    | CommitCompact(pid: Pid)
    | Abort(pid: Pid)

  predicate IsUpsert(l: Label) {
    l.InsertDoc? || l.InsertConflict? || l.InsertChunks? || l.CommitInsert? || l.LookupId? || l.LookupMiss?
    || l.CountChunks? || l.CommitConflict?
  }

  predicate IsDelete(l: Label) {
    l.SelectMissing? || l.SelectForUpdate? || l.MarkDeleted? || l.InsertTombstone? || l.TombstoneConflict?
    || l.CommitDelete?
  }

  predicate IsCompact(l: Label) {
    l.ScanTombstone? || l.ScanDrained? || l.DeleteSnapshot? || l.DeleteRow? || l.MarkCompacted? || l.CommitCompact?
  }

  function RowOf(d: DocId, data: ChunkData): ChunkRow {
    ChunkRow(d, data.index, data.text, Some(data.embedding))
  }

  /** The rows of one multi-row INSERT: `ids[i]` is the key generated for `data[i]`. */
  function RowsFrom(d: DocId, data: seq<ChunkData>, ids: seq<ChunkId>): map<ChunkId, ChunkRow>
    requires |ids| == |data|
  {
    if data == [] then map[] else
    var n := |data| - 1;
    RowsFrom(d, data[..n], ids[..n])[ids[n] := RowOf(d, data[n])]
  }

  predicate Distinct<T(==)>(xs: seq<T>) {
    forall i, j :: 0 <= i < j < |xs| ==> xs[i] != xs[j]
  }

  predicate DistinctIndexes(data: seq<ChunkData>) {
    forall i, j :: 0 <= i < j < |data| ==> data[i].index != data[j].index
  }

  /** Compact's scan: pending tombstones whose docs row is flagged deleted. */
  predicate Scannable(db: Tables, t: TombId) {
    t in db.tombs && db.tombs[t].compactedAt.None? && IsDeleted(db, db.tombs[t].docId)
  }

  predicate OldestScannable(db: Tables, t: TombId) {
    Scannable(db, t) && forall u | u in db.tombs && Scannable(db, u) :: db.tombs[t].deletedAt <= db.tombs[u].deletedAt
  }

  predicate HashTaken(db: Tables, hash: Bytes) {
    exists d :: d in db.docs && db.docs[d].doc.hash == hash
  }

  predicate InTransaction(p: Proc) {
    !p.UpsertReturned? && !p.DeleteReturned? && !p.CompactReturned? && !p.Failed?
  }

  /** Whether the statement of `l` can execute in `s` without waiting. */
  predicate Enabled(s: State, l: Label) {
    if l.Start? then true else
    l.pid < |s.procs| &&
    var p := s.procs[l.pid];
    match l
    case InsertDoc(pid, id, _) =>
      && p.UpsertInsert? && Free(s, pid, HashClaim(p.doc.hash)) && !HashTaken(s.db, p.doc.hash)
      && id != NIL_ID && id !in s.db.docs && Free(s, pid, DocKey(id))
    case InsertConflict(pid) =>
      p.UpsertInsert? && Free(s, pid, HashClaim(p.doc.hash)) && HashTaken(s.db, p.doc.hash)
    case InsertChunks(pid, ids) =>
      && p.UpsertClaimed? && |ids| == |p.data| && Distinct(ids) && DistinctIndexes(p.data)
      && (forall i | 0 <= i < |ids| :: ids[i] !in s.written && Free(s, pid, ChunkKey(ids[i])))
    case CommitInsert(_) => p.UpsertWritten?
    case LookupId(_, id) => p.UpsertConflict? && id in s.db.docs && s.db.docs[id].doc.hash == p.doc.hash
    case LookupMiss(_) => p.UpsertConflict? && !HashTaken(s.db, p.doc.hash)
    case CountChunks(_) => p.UpsertFound?
    case CommitConflict(_) => p.UpsertCounted?
    case SelectMissing(pid) => p.DeleteSelect? && Free(s, pid, DocLock(p.id)) && !Live(s.db, p.id)
    case SelectForUpdate(pid, _) => p.DeleteSelect? && Free(s, pid, DocLock(p.id)) && Live(s.db, p.id)
    case MarkDeleted(_) => p.DeleteHeld?
    case InsertTombstone(pid, tomb) =>
      && p.DeleteMarked? && Free(s, pid, TombClaim(p.id)) && !HasTombstone(s.db, p.id)
      && tomb !in s.db.tombs && Free(s, pid, TombKey(tomb))
    case TombstoneConflict(pid) =>
      p.DeleteMarked? && Free(s, pid, TombClaim(p.id)) && HasTombstone(s.db, p.id)
    case CommitDelete(_) => p.DeleteTombed?
    case ScanTombstone(_, tomb) => p.CompactScan? && OldestScannable(s.db, tomb)
    case ScanDrained(_) => p.CompactScan? && forall t | t in s.db.tombs :: !Scannable(s.db, t)
    case DeleteSnapshot(_) => p.CompactPicked?
    case DeleteRow(pid, c) => p.CompactDeleting? && c in p.todo && Free(s, pid, RowLock(c))
    case MarkCompacted(pid, _) => p.CompactDeleting? && p.todo == {} && Free(s, pid, TombLock(p.tomb))
    case CommitCompact(_) => p.CompactMarked?
    case Abort(_) => InTransaction(p)
  }

  /** Compact after a committed cleanup: counters advanced, about to scan again. */
  function Rescan(p: Proc): Proc
    requires p.CompactMarked?
  {
    CompactScan(CompactResult(p.res.tombstones + 1, p.res.chunksDeleted + |p.mine|), p.done + {p.tomb})
  }

  /** The program counter and locals of the process after the statement of `l`. */
  function NextProc(s: State, l: Label): Proc
    requires !l.Start? && Enabled(s, l)
  {
    var p := s.procs[l.pid];
    match l
    case InsertDoc(_, id, at) => UpsertClaimed(p.doc, p.data, id, at)
    case InsertConflict(_) => UpsertConflict(p.doc)
    case InsertChunks(_, ids) => UpsertWritten(p.doc, p.id, p.createdAt, RowsFrom(p.id, p.data, ids))
    case CommitInsert(_) => UpsertReturned(p.doc, p.id, |p.rows|, false)
    case LookupId(_, id) => UpsertFound(p.doc, id)
    case LookupMiss(_) => Failed
    case CountChunks(_) => UpsertCounted(p.doc, p.id, |RowsOf(s.db.chunks, p.id)|)
    case CommitConflict(_) => UpsertReturned(p.doc, p.id, p.n, true)
    case SelectMissing(_) => DeleteReturned(p.id, false)
    case SelectForUpdate(_, at) => DeleteHeld(p.id, at)
    case MarkDeleted(_) => DeleteMarked(p.id, p.at)
    case InsertTombstone(_, tomb) => DeleteTombed(p.id, p.at, Some(tomb))
    case TombstoneConflict(_) => DeleteTombed(p.id, p.at, None)
    case CommitDelete(_) => DeleteReturned(p.id, true)
    case ScanTombstone(_, tomb) => CompactPicked(tomb, s.db.tombs[tomb].docId, p.res, p.done)
    case ScanDrained(_) => CompactReturned(p.res, p.done, true)
    case DeleteSnapshot(_) => CompactDeleting(p.tomb, p.id, RowsOf(s.db.chunks, p.id), {}, p.res, p.done)
    case DeleteRow(_, c) =>
      // A row that another compactor deleted while this statement waited is skipped.
      p.(todo := p.todo - {c}, mine := if c in s.db.chunks then p.mine + {c} else p.mine)
    case MarkCompacted(_, at) => CompactMarked(p.tomb, p.id, p.mine, at, p.res, p.done)
    case CommitCompact(_) => Rescan(p)
    case Abort(_) =>
      if p.CompactScan? || p.CompactPicked? || p.CompactDeleting? || p.CompactMarked?
      then CompactReturned(p.res, p.done, false)
      else Failed
  }

  /** UpsertDoc's commit: the docs row and all its chunks appear together. */
  function Published(db: Tables, p: Proc): Tables
    requires p.UpsertWritten?
  {
    db.(docs := db.docs[p.id := DocRow(p.doc, p.createdAt, None)], chunks := db.chunks + p.rows)
  }

  /** DeleteDoc's commit: deleted_at and the tombstone appear together. */
  function Buried(db: Tables, p: Proc): Tables
    requires p.DeleteTombed?
  {
    db.(docs := if p.id in db.docs then db.docs[p.id := db.docs[p.id].(deletedAt := Some(p.at))] else db.docs,
        tombs := if p.newTomb.Some? then db.tombs[p.newTomb.value := TombRow(p.id, p.at, None)] else db.tombs)
  }

  /** Compact's commit: the rows it deleted disappear and the tombstone is stamped. */
  function Reclaimed(db: Tables, p: Proc): Tables
    requires p.CompactMarked?
  {
    db.(chunks := db.chunks - p.mine,
        tombs := if p.tomb in db.tombs
                 then db.tombs[p.tomb := db.tombs[p.tomb].(compactedAt := Some(p.at))]
                 else db.tombs)
  }

  /** The committed tables after the statement of `l`: only a commit changes them. */
  function NextDb(s: State, l: Label): Tables
    requires !l.Start? && Enabled(s, l)
  {
    match l
    case CommitInsert(pid) => Published(s.db, s.procs[pid])
    case CommitDelete(pid) => Buried(s.db, s.procs[pid])
    case CommitCompact(pid) => Reclaimed(s.db, s.procs[pid])
    case _ => s.db
  }

  function StartProc(call: Call): Proc {
    match call
    case CallUpsert(doc, data) => UpsertInsert(doc, data)
    case CallDelete(id) => DeleteSelect(id)
    case CallCompact => CompactScan(CompactResult(0, 0), {})
  }

  function Next(s: State, l: Label): State
    requires Enabled(s, l)
  {
    if l.Start? then s.(procs := s.procs + [StartProc(l.call)]) else
    State(
      NextDb(s, l),
      s.procs[l.pid := NextProc(s, l)],
      if l.CommitInsert? then s.written + s.procs[l.pid].rows else s.written)
  }

  const INITIAL := State(Tables(map[], map[], map[]), [], map[])

  ghost predicate Step(s: State, t: State) {
    exists l :: Enabled(s, l) && t == Next(s, l)
  }

  /** A finite run from the empty database: one interleaving of any number of calls. */
  ghost predicate Run(trace: seq<State>) {
    && |trace| > 0
    && trace[0] == INITIAL
    && forall i, j :: 0 <= i && j == i + 1 < |trace| ==> Step(trace[i], trace[j])
  }
}
