# Verification of the document index service

A Dafny model of the service's core and machine-checked proofs about it. `dafny verify dfyconfig.toml`
checks the whole project.

## What is modelled

**The store** (`internal/store/queries.go`, `migrations/`). `Tables` holds the three tables with their
constraints. `Protocol` is a transition system: any number of `UpsertDoc`, `DeleteDoc` and `Compact`
calls run at once, one SQL statement per step. A call's constructor is its program counter; its fields
are its locals and the private effects of its open transaction. Row locks, unique-index claims and
generated keys are read off the program counter (`Holds`). A statement sees what was committed before
it, and a commit publishes a transaction in one step. `DELETE FROM doc_chunks` takes the rows of its
snapshot one by one and skips rows that another compactor removed while it waited. `Compact` picks its
tombstone outside the transaction that acts on it. `ProtocolSafety` and `ProtocolCommits` prove one
inductive invariant for every statement; `ProtocolRuns` says how any state of a run relates to a later
one; `ProtocolTheorems` states the results over all runs. `Store` writes the same operations as the
methods of a class: each method issues its statements against a database on which an arbitrary burst of
other sessions' statements runs before each of ours, and is proved against the protocol.

**The chunker** (`internal/chunker/chunker.go`): `Chunker` has the loops, proved equal to a recursive
cut into windows; `ChunkerTheorems` has what the cut guarantees.

**Pagination** (`internal/api/handlers.go`, `internal/api/cursor.go`): `Paging` has the handler and
the listing query, `PagingWalk` the pages that following `next_cursor` visits while the table changes, and
`PagingClient` a client that hands each response's cursor back to the handler during a run of the store.

**The query pipeline**: `Utf8` is a concrete codec (section 3 of RFC 3629); `Sanitize` the one-pass
query normaliser against its declarative form; `Fusion` rank fusion over maps visited in any order;
`Rerank` both rerankers; `Hybrid` the engine; each with a module of theorems. `HybridModes` states what
each mode answers directly from the answers of the two searches and the embedder.

**Framing** (`internal/api/wire.go`): `Wire`, with the varint loops written out.

**Indexing** (`handleIndex`, `embedBatched`): `Indexing` ties chunker, embedder and store together.

**End to end**: `EndToEnd` joins the query engine to a run of the store.

`Order` is the theory of sorting by a total order: the sorted arrangement is unique, and prefixes are
the least elements. It stands for the library's sort and for SQL's ORDER BY with LIMIT.

## What the proofs found

- `MaxQueryRunes` is not a bound on the sanitiser's output. The comment at
  `internal/search/sanitize.go:26-27` and the fuzz test at `internal/search/fuzz_test.go:51-53` promise
  at most 4096 runes, but the branches that write a space count it without testing the cap, so 4097 can
  come back. `SanitizeTheorems.CapExceededIff` gives the exact condition, `CapExceededWitness` an input.
- `DecodeFrame`'s comment (`internal/api/wire.go:44-46`) says a short read is `ErrFrameInvalid`; the
  code returns `io.ErrUnexpectedEOF` when only payload bytes are missing. The model follows the code, and
  `Wire.ShortReadExactly` says when that happens.
- `DefaultOverlap` (`internal/chunker/chunker.go:21`) is never read, although the comment at
  `internal/chunker/chunker.go:15-17` says adjacent chunks share context. `ChunkerTheorems.SharesContextIff`
  says exactly which option sets make adjacent windows share text; the zero options of the server do not.
- An accepted cursor can restart the listing instead of failing: `Paging.CursorRestartsIff` says exactly
  which ones do, namely those whose id is not a UUID or is the nil UUID.
- Four branches never run: the lookup miss after a hash conflict, the tombstone insert's conflict, the
  chunker's guard against a cursor that does not advance, and its fallback for an empty result.

## Model

| member | source | states |
|---|---|---|
| ProtocolCommits.RunInv | internal/store/queries.go:46-213 | The invariant (constraints hold; deleted means tombstoned; a compacted doc has no chunks and any other doc all it was given; no resource held twice; rows conserved) holds in every state of every interleaving |
| ProtocolCommits.InvStep | internal/store/queries.go:46-213 | Every single statement of every call, rollbacks included, keeps that invariant |
| ProtocolCommits.CommitInsertStep | internal/store/queries.go:61-70 | The commit that publishes a doc with its chunks keeps the invariant whatever other calls hold |
| ProtocolCommits.CommitDeleteStep | internal/store/queries.go:121-130 | The commit of deleted_at and the tombstone keeps the invariant |
| ProtocolCommits.CommitCompactStep | internal/store/queries.go:176-208 | The commit of a cleanup keeps the invariant although its tombstone was picked outside the transaction and other compactors may work on the same doc |
| ProtocolRuns.RunEvolves | internal/store/queries.go:46-213 | Between any two states of a run: docs rows are never removed or rewritten, deleted_at and compacted_at are never reset, an existing doc never gains a chunk, returned calls stay as they are |
| ProtocolTheorems.TombstoneIffDeleted | internal/store/queries.go:162-169 | A committed tombstone exists for a doc exactly when deleted_at is set; hence Compact's join hides no pending tombstone |
| ProtocolTheorems.DeletedIffReported | internal/store/queries.go:103-131 | A doc is deleted exactly when some DeleteDoc call returned nil for it |
| ProtocolTheorems.ExactlyOneDeleteSucceeds | internal/store/queries.go:89-131 | As soon as any DeleteDoc call on an existing doc has returned, with nil or ErrNotFound, exactly one of all DeleteDoc calls on that id has returned nil |
| ProtocolTheorems.OneDeleteSucceeds | internal/store/queries.go:121-130 | Two DeleteDoc calls that returned nil for one id are the same call |
| ProtocolTheorems.NotFoundSeen | internal/store/queries.go:89-119 | Between the start of a call that reports ErrNotFound and its return there was a state in which the doc was missing or deleted |
| ProtocolTheorems.NotFoundMeansDeleted | internal/store/queries.go:89-119 | ErrNotFound for a doc that existed when the call started means the doc is deleted |
| ProtocolTheorems.LaterDeleteNotFound | internal/store/queries.go:110-119 | A DeleteDoc that starts after the doc was deleted can only report ErrNotFound |
| ProtocolTheorems.TombstoneNeverConflicts | internal/store/queries.go:124-128 | The tombstone insert never meets its ON CONFLICT case |
| ProtocolTheorems.TombstoneNeverWaits | internal/store/queries.go:110-128 | Nobody else holds the tombstone's unique key while the docs row is locked |
| ProtocolTheorems.DeletedForever | internal/store/queries.go:121-123 | Once deleted, a doc is deleted in every later state |
| ProtocolTheorems.DeletedHashNeverLive | internal/store/queries.go:55-86 | A hash whose doc was deleted never belongs to a live doc again, however often it is indexed |
| ProtocolTheorems.LookupNeverMisses | internal/store/queries.go:75-78 | The lookup after a hash conflict always finds the doc |
| ProtocolTheorems.SameHashSameId | internal/store/queries.go:46-87 | Two upserts that returned anywhere in a run report the same id if and only if they were given the same content hash |
| ProtocolTheorems.OneCreator | internal/store/queries.go:46-87 | At most one upsert of a hash reports alreadyExisted=false |
| ProtocolTheorems.ConflictCountWholeOrZero | internal/store/queries.go:79-86 | The count reported on a conflict is the count the creating call reported, or 0, never a part of it |
| ProtocolTheorems.OnlyDeletedDocsLoseChunks | internal/store/queries.go:176-192 | Any statement that removes a chunk row is a Compact commit and the row's doc is deleted |
| ProtocolTheorems.LiveChunksStable | internal/store/queries.go:61-69 | While a doc is live its chunk rows, keys and contents, never change after its insert committed |
| ProtocolTheorems.CompactedStaysEmpty | internal/store/queries.go:186-200 | Once a tombstone is compacted its doc has no chunks in that and every later state |
| ProtocolTheorems.ChunksConserved | internal/store/queries.go:201-209 | Rows ever committed equal rows present plus the rows all Compact calls reported, so none is reported twice |
| ProtocolTheorems.PickIsNew | internal/store/queries.go:162-174 | A Compact run picks a pending tombstone with the earliest deleted_at of all pending ones, and never one it has already compacted |
| ProtocolTheorems.CompactRunBounded | internal/store/queries.go:155-209 | A run's Tombstones counter is the number of distinct tombstones it compacted, at most the compacted ones there are |
| ProtocolTheorems.TakenWerePending | internal/store/queries.go:155-209 | Every older tombstone a run takes on after some state was pending in that state |
| ProtocolTheorems.CleanupShrinksPending | internal/store/queries.go:155-212 | Termination measure: while no delete commits, each cleanup leaves strictly fewer pending tombstones, whatever other compactors do |
| ProtocolTheorems.GetDocUntilDeleted | internal/store/queries.go:239-252 | GetDoc returns the same id, contents and created_at for a doc until it is deleted and ErrNotFound ever after |
| ProtocolTheorems.CreatedWhenInserted | internal/store/queries.go:55-60 | Over every run, a committed doc's created_at is the time its inserting statement took |
| ProtocolTheorems.TombstoneTime | internal/store/queries.go:121-128 | In every reachable state a tombstone's deleted_at is the deleted_at of its doc |
| ProtocolTheorems.DeletedNeverEligible | internal/store/queries.go:303-315 | No chunk of a deleted doc is eligible for a search in any later state |
| ProtocolTheorems.EligibleIsLiveHistory | internal/store/queries.go:303-315 | The eligible rows are exactly all rows ever written for the docs that are live now |
| ProtocolTheorems.CompactInvisible | internal/store/queries.go:330-342 | No statement of Compact changes the rows either search may return |
| Store.Database.constructor | internal/store/queries.go:46-213 | The tables start empty, before any call, with an arbitrary schedule of other sessions |
| Store.Database.Others | internal/store/queries.go:46-213 | Other sessions may run anything that is enabled but cannot move this call |
| Store.Database.UpsertDoc | internal/store/queries.go:46-87 | With any other sessions at work: returns through the committed state of the protocol, and a created doc is stored live, with its fields, the created_at of its insert and exactly the supplied chunk rows; alone: the complete effect on docs, chunks, tombstones, result and errors |
| Store.Database.Claim | internal/store/queries.go:53-73 | The insert waits for a claim on its hash, then claims it, finds it taken, or fails on a generated key |
| Store.Database.PersistChunks | internal/store/queries.go:61-70 | The doc's chunks are inserted and committed with it, or nothing is |
| Store.Database.Existing | internal/store/queries.go:75-86 | On a conflict the existing doc with this hash is reported with the count of its chunk rows |
| Store.Database.InsertRows | internal/store/queries.go:215-235 | The loop builds one row per chunk, each under its own key |
| Store.Database.DeleteDoc | internal/store/queries.go:103-131 | On success the doc is deleted now and was not before, by this call alone; with any other sessions at work ErrNotFound means the doc is not live; alone: ErrNotFound exactly for a missing or deleted doc, and otherwise deleted_at and a new tombstone with the same time appear together and nothing else changes |
| Store.Database.LockRow | internal/store/queries.go:110-119 | With any other sessions at work the row is locked only while live, and ErrNotFound is reported only while it is not |
| Store.Database.Bury | internal/store/queries.go:121-130 | Update, tombstone and commit happen together or not at all |
| Store.Database.Compact | internal/store/queries.go:150-213 | When it returns nil no tombstone is pending and every chunk row left belongs to a live doc; alone: it reports all pending tombstones and all chunk rows of deleted docs, stamps those tombstones and changes nothing else; it terminates |
| Store.Database.Drain | internal/store/queries.go:155-212 | The loop's counters account for everything that left the tables |
| Store.Database.Iterate | internal/store/queries.go:161-211 | One turn: drained, cleaned up one tombstone, or failed |
| Store.Database.Cleanup | internal/store/queries.go:176-210 | One tombstone fewer is pending, stamped with the time of the cleanup, and as many rows fewer as the counter grew by |
| Store.Database.OldestTombstone | internal/store/queries.go:162-169 | The scan picks a pending tombstone of a deleted doc with the earliest deleted_at |
| Store.DrainedIsClean | internal/store/queries.go:170-173 | When the scan finds nothing, only chunks of live docs are left |
| ChunkerTheorems.BoundaryMeaning | internal/chunker/chunker.go:104-127 | The boundary is just past the first sentence terminator from the target and its blanks, else the first blank, else the target |
| ChunkerTheorems.RuneClasses | internal/chunker/chunker.go:110-131 | The terminators are . ! ? and newline; the blanks are space, tab, newline and carriage return |
| ChunkerTheorems.TrimSpaceMeaning | internal/chunker/chunker.go:56 | Trimming removes exactly the leading and trailing runes of Unicode white space |
| ChunkerTheorems.WindowEnds | internal/chunker/chunker.go:69-79 | Every window ends at such a place in [cursor+target, cursor+max], or at the end of the text |
| ChunkerTheorems.WindowShape | internal/chunker/chunker.go:66-94 | Windows are non-empty and at most MaxChars long; each start is Overlap before the last end and at least Target-Overlap >= 1 past the last start, so the guard on the cursor never fires |
| ChunkerTheorems.Reconstruction | internal/chunker/chunker.go:66-94 | The first window followed by each later one without its first Overlap runes is the trimmed body |
| ChunkerTheorems.EveryRuneCovered | internal/chunker/chunker.go:56-99 | Every rune of the body that is not white space lies in some returned chunk |
| ChunkerTheorems.ChunkSizes | internal/chunker/chunker.go:61-85 | Chunks are numbered from 0, trimmed and at most MaxChars runes long |
| ChunkerTheorems.EmptyOnlyForEmpty | internal/chunker/chunker.go:56-98 | There is always a chunk, and an empty one exactly for a body of white space |
| ChunkerTheorems.ChunksAreFixed | internal/chunker/chunker.go:39-100 | Splitting a chunk's text gives that text alone |
| ChunkerTheorems.ChunkCountBound | internal/chunker/chunker.go:66-94 | A body of n runes gives at most 1 + ceil((n-Target)/(Target-Overlap)) chunks |
| ChunkerTheorems.NoOverlapKeepsText | internal/chunker/chunker.go:66-99 | Without overlap the chunk texts, white space aside, concatenate to the body |
| ChunkerTheorems.SharesContextIff | internal/chunker/chunker.go:14-54 | Adjacent windows share text if and only if the overlap option is positive and either below the target or replaced by a quarter of a target of at least 4 |
| Chunker.Normalise | internal/chunker/chunker.go:40-54 | For every option set 0 < target <= max and 0 <= overlap < target |
| ChunkerTheorems.OptionsMeaning | internal/chunker/chunker.go:40-54 | Targets and maxima of zero or less read as 500 and 700, a maximum below the target is raised to it, a negative overlap is none, one not below the target becomes a quarter of it; anything else is kept |
| Chunker.PreferBoundary | internal/chunker/chunker.go:104-127 | The two scans return the boundary of the specification |
| Chunker.SplitLong | internal/chunker/chunker.go:66-99 | The loop ends with exactly the trimmed windows of the cut, numbered in order, and is never empty-handed |
| Chunker.Split | internal/chunker/chunker.go:39-100 | Split returns the specified chunks for every body and option set |
| Chunker.FirstChunk | internal/chunker/chunker.go:96-98 | A trimmed body that is not empty always yields a chunk, so the fallback for an empty result is unreachable |
| Chunker.WindowsComplete | internal/chunker/chunker.go:66-94 | The windows are linked from the start of the text and the last one reaches its end |
| Chunker.CompleteUnique | internal/chunker/chunker.go:66-94 | A text and options determine one cut into windows |
| Paging.PageRows | internal/store/queries.go:258-294 | A page is sorted, within the limit, holds live rows below the cursor, and leaves out only rows after all of its own |
| Paging.NewestFirst | internal/store/queries.go:264-279 | Of two rows of a page the earlier has the later created_at, or the same and the greater id |
| Paging.BelowCursor | internal/store/queries.go:268-279 | Every row of a page is live, shows its own created_at, and is below the cursor in that same order |
| Paging.OmittedAreOlder | internal/store/queries.go:264-279 | A live doc below the cursor that is not on the page comes after every row of it, and the page is full |
| Paging.ListDocs | internal/store/queries.go:258-294 | Returns the page for the cursor or the first page, with out-of-range limits read as 50 |
| Paging.HandleListDocs | internal/api/handlers.go:243-285 | Errors for bad cursors, bad limits and a failing query in that order; otherwise one item per row and a cursor to the last row exactly for a full page |
| Paging.AcceptedIff | internal/api/handlers.go:245-258 | A request is accepted exactly with no cursor or one with a non-empty id, and no limit, read as 50, or one in 1..200 |
| Paging.CursorRestartsIff | internal/api/handlers.go:287-296 | An accepted cursor starts at the first page if and only if there is none, its id is not a UUID, or its id is the nil UUID; any other starts below its key |
| PagingWalk.RunIsEvolving | internal/store/queries.go:258-294 | Tables read along any run of the store change only as the walk assumes |
| PagingWalk.WalkSorted | internal/api/handlers.go:259-283 | Over all pages (created_at, id) strictly decreases, whatever is inserted or deleted between them |
| PagingWalk.WalkNewestFirst | internal/api/handlers.go:259-283 | Over all pages of a walk, any earlier row has a later created_at than any later row, or the same and a greater id |
| PagingWalk.NoDocTwice | internal/api/handlers.go:259-283 | Following next_cursor on a changing table never returns a doc twice |
| PagingWalk.WalkComplete | internal/api/handlers.go:259-283 | A finished walk has returned every doc that was live before the first page and stayed live |
| PagingWalk.WalkBounded | internal/api/handlers.go:250-283 | For any limits in 1..200 a walk has at most one page more than there are docs |
| PagingWalk.UnchangedWalkIsListing | internal/store/queries.go:258-294 | On an unchanged table the pages concatenate to the full live listing |
| PagingWalk.UnchangedWalkLength | internal/api/handlers.go:275-283 | With one limit, the number of pages is the live count divided by it, rounded down, plus one |
| PagingWalk.CursorContinues | internal/api/handlers.go:275-281 | In every reachable table the returned cursor leads to just below the last row shown |
| PagingClient.SessionIsWalk | internal/api/handlers.go:243-285 | A client that starts without a cursor and hands each response's cursor back, at successive states of a run, performs a walk over evolving tables |
| PagingClient.ClientSeesNoDocTwice | internal/api/handlers.go:259-283 | No two items of such a client's responses, on one page or on two, have the same id |
| PagingClient.ClientSeesNewestFirst | internal/api/handlers.go:259-283 | Within and across the responses of such a client, an earlier item is newer, or as new with a greater id |
| PagingClient.ItemShowsDoc | internal/api/handlers.go:268-276 | Each item shows id, source, title and created_at of a doc that was live when its request was served |
| PagingClient.ClientSeesEveryDoc | internal/api/handlers.go:259-283 | A client that got a response without a cursor has been shown every doc that was live from the first request to the last |
| PagingClient.ClientFinishes | internal/api/handlers.go:250-283 | The client makes at most one request more than there are docs |
| Sanitize.SanitizeBM25Query | internal/search/sanitize.go:31-90 | The one-pass loop equals: drop control and zero-width runes, split at white space and invalid bytes, join the words with single spaces, cut |
| SanitizeTheorems.Idempotent | internal/search/sanitize.go:31-90 | Sanitising twice is sanitising once, on all byte strings, truncated ones included |
| SanitizeTheorems.OutputWellFormed | internal/search/sanitize.go:16-30 | The output is valid UTF-8 without NUL, the encoding of its own runes, of kept characters and single inner spaces |
| SanitizeTheorems.UnchangedIff | internal/search/sanitize.go:31-90 | A byte string passes through unchanged if and only if it is valid UTF-8, clean, and at most 4096 runes or 4097 with a space as the 4096th |
| SanitizeTheorems.KindsAre | internal/search/sanitize.go:45-118 | Which characters separate words and which vanish, as explicit sets; an invalid byte separates |
| SanitizeTheorems.WhiteSpaceSeparates | internal/search/sanitize.go:71-78 | White space anywhere in a query: both sides are normalised on their own and joined by one space |
| SanitizeTheorems.InvalidByteSeparates | internal/search/sanitize.go:45-55 | So does a byte that occurs in no UTF-8 encoding: it splits words instead of vanishing |
| SanitizeTheorems.VanishingLeaveNoTrace | internal/search/sanitize.go:57-69 | A control or zero-width character anywhere in a query makes no difference |
| SanitizeTheorems.OthersAreKept | internal/search/sanitize.go:80-82 | Any other character on its own is kept as it is |
| SanitizeTheorems.CutLength | internal/search/sanitize.go:80-89 | The output is a prefix of the uncut form: all of it up to 4096 runes, else its first 4096, or 4097 if the 4096th is a space |
| Utf8.ValidIffEncoded | internal/search/sanitize.go:29-30 | Byte strings without invalid steps are exactly the encodings of their runes |
| Utf8.EncodingTable | internal/search/sanitize.go:80 | A written rune takes one to four bytes and its value reads back from their payload bits |
| Utf8.DecodesExactly | internal/search/sanitize.go:42 | One decoding step yields a character exactly when its encoding is what the bytes start with |
| Utf8.ReadsOn | internal/search/sanitize.go:42-48 | Reading arbitrary bytes goes past a whole encoding where one stands, else past a single byte read as U+FFFD |
| SanitizeTheorems.CapExceededIff | internal/search/sanitize.go:44-90 | The output has at most 4097 runes, and 4097 exactly when the uncut form is longer than 4096 and has a space as its 4096th rune |
| SanitizeTheorems.CapExceededWitness | internal/search/fuzz_test.go:51-53 | 4095 letters, a space and a letter come back unchanged, all 4097 runes |
| SanitizeTheorems.NothingLost | internal/search/sanitize.go:39-89 | Up to the cap every kept character is in the output, once and in order |
| Fusion.FuseRRF | internal/search/rrf.go:43-86 | For every iteration order of the maps the result is the ranking by exact summed score then id, cut at topN |
| Fusion.AddHit | internal/search/rrf.go:53-68 | One hit adds 1/(k+rank+1) to its own id, written out, and raises that signal to the best raw score seen, and changes no other entry |
| Fusion.ScoreSplit | internal/search/rrf.go:52-62 | A list contributes its own part of a score, whatever the order of summing |
| FusionTheorems.FusedInOrder | internal/search/rrf.go:75-81 | Descending by score, then ascending by id, no id twice |
| FusionTheorems.OmittedComeAfter | internal/search/rrf.go:71-85 | As many results as fit, and every omitted id strictly after every returned one |
| FusionTheorems.SmallerTopNIsPrefix | internal/search/rrf.go:82-85 | The result for a smaller topN is a prefix of that for a larger one |
| FusionTheorems.OnceScore | internal/search/rrf.go:53-62 | In a duplicate-free list the hit at place r (from 0) scores 1/(k+r+1) and keeps its raw score |
| FusionTheorems.TwoListScore | internal/search/rrf.go:51-62 | With two duplicate-free lists a score is the sum of 1/(k+r+1) over the lists that have the id at place r |
| FusionTheorems.FusedIds | internal/search/rrf.go:71-85 | Only listed ids are returned, and all of them when topN has room |
| FusionTheorems.LexMeaning | internal/search/rrf.go:79-80 | Ids compare by the first character where they differ, a proper prefix first |
| FusionTheorems.Dominance | internal/search/rrf.go:51-85 | If a is before b in every list that has b, then wherever b is returned a is returned earlier |
| FusionTheorems.RawScoresIrrelevant | internal/search/rrf.go:9-15 | Rewriting raw scores changes neither the ids nor the fused scores of the result |
| FusionTheorems.ScoreRange | internal/search/rrf.go:51-62 | With L duplicate-free lists each score lies in (0, L/(k+1)] |
| FusionTheorems.SignalsExplain | internal/search/rrf.go:63-67 | An entry names exactly the signals that found it, each with the highest raw score there |
| FusionTheorems.OneListIsKept | internal/search/rrf.go:43-86 | Fusing one duplicate-free list returns its first topN hits in order, the i-th (from 0) with score 1/(k+i+1), where k and topN of zero or less read as 60 and 10 |
| Rerank.TokenSet | internal/rerank/rerank.go:126-148 | The loop with its builder collects the token set of the decoded text |
| RerankTheorems.TokensAreWords | internal/rerank/rerank.go:122-148 | The token set holds exactly the lower-cased maximal runs of letters and digits |
| RerankTheorems.TokensAreLowered | internal/rerank/rerank.go:139-147 | A token is valid text whose runes are the lower-cased runes of a maximal word, one for one |
| RerankTheorems.TokensOfJoined | internal/rerank/rerank.go:126-148 | The tokens of a, a separator and b are those of a and those of b, for any bytes |
| Rerank.ScoreOne | internal/rerank/rerank.go:85-105 | A candidate's score is shared tokens over the geometric mean, times the length penalty |
| Rerank.RerankHeuristic | internal/rerank/rerank.go:74-120 | Scores every candidate, sorts stably, cuts at topN |
| Rerank.RerankCrossEncoder | internal/rerank/cross_encoder.go:43-95 | Same order from the sidecar's scores; fails exactly when the sidecar does or counts disagree |
| RerankTheorems.ScoreRange | internal/rerank/rerank.go:50-61 | A score lies in [0,1] and is 1 exactly when the token sets are equal, non-empty and within the target size |
| RerankTheorems.ScoreValue | internal/rerank/rerank.go:88-105 | Times the root of the product of the two sizes, a score is the number of shared tokens, scaled by target over size for a snippet above the target |
| RerankTheorems.ScoresAre | internal/rerank/rerank.go:78-105 | The scores are the heuristic's for each snippet with a target of 60 by default, or the reply to the query and all snippets in order, refused when its length differs |
| RerankTheorems.PaddingNeverHelps | internal/rerank/rerank.go:59-61 | Adding tokens that the query lacks never raises a score |
| RerankTheorems.RerankSelects | internal/rerank/rerank.go:108-119 | The result is min(topN, n) of the scored candidates, none twice |
| RerankTheorems.BestFirst | internal/rerank/rerank.go:108-114 | Of two results of either reranker the earlier has the higher score, or the same and no greater prior rank |
| RerankTheorems.LeftOutScoreNoHigher | internal/rerank/rerank.go:108-119 | A scored candidate that is left out has no higher score than any that is returned |
| RerankTheorems.RerankPrefix | internal/rerank/rerank.go:116-119 | A smaller topN gives a prefix or the same error |
| RerankTheorems.SortedTopIsUnique | internal/rerank/rerank.go:108-119 | With distinct prior ranks the result is the top of the only sorted arrangement, whatever the input order |
| Hybrid.Engine.Query | internal/search/hybrid.go:88-201 | Sets limits of zero or less to 50 and 20 in place and answers as specified, with the error of the first stage that fails |
| Hybrid.CollectBM25 | internal/search/hybrid.go:114-121 | The side maps hold the last keyword hit of every chunk |
| Hybrid.CollectVector | internal/search/hybrid.go:136-145 | A vector hit adds a chunk to the side maps but never replaces one |
| HybridTheorems.SourceIsHit | internal/search/hybrid.go:99-147 | The side maps have an entry for every fused chunk, taken from a hit with that chunk id |
| HybridTheorems.FinishShowsHits | internal/search/hybrid.go:149-200 | For any hits, each result of fusion or reranking shows doc and snippet of a hit with its chunk id |
| HybridTheorems.FinishPrefix | internal/search/hybrid.go:149-200 | For any hits, k=m gives the first m results of k=n, or the same error |
| HybridTheorems.RerankedDistinct | internal/search/hybrid.go:149-187 | For any hits, reranking returns min(k, fused) results, no chunk twice |
| HybridTheorems.ResultsShowHits | internal/search/hybrid.go:156-200 | In every mode each result's doc and snippet come from a hit with its chunk id |
| HybridTheorems.SmallerKIsPrefix | internal/search/hybrid.go:88-201 | In every mode k=m gives the first m results of k=n, or the same error |
| HybridTheorems.RerankPicksFromTop | internal/search/hybrid.go:149-187 | Reranking returns min(k, fused) distinct chunks, all from the fused top RerankInputN |
| HybridTheorems.NoRerankerIsHybrid | internal/search/hybrid.go:59-63 | Without a reranker hybrid+rerank answers as hybrid |
| HybridTheorems.OneSignalModes | internal/search/hybrid.go:105-147 | Keyword answers do not depend on embedder or vector search, vector answers not on keyword search |
| HybridModes.KeywordFailure | internal/search/hybrid.go:105-112 | In every mode but vector, a failing search for the sanitised query fails the query with its error |
| HybridModes.VectorFailures | internal/search/hybrid.go:124-135 | In every mode but keyword, once keyword search has answered: a failing embedder, a number of vectors other than one, and a failing vector search each fail the query with their error |
| HybridModes.KeywordShows | internal/search/hybrid.go:105-122 | Keyword mode shows keyword hits only, and all of them when k has room |
| HybridModes.VectorShows | internal/search/hybrid.go:124-147 | Vector mode shows hits of the vector search for the query's one embedding only, and all of them when k has room |
| HybridModes.HybridShows | internal/search/hybrid.go:105-156 | A hybrid query, and a reranked one without a reranker, shows hits of both searches only, and all of both when k has room |
| HybridModes.RerankedShows | internal/search/hybrid.go:149-187 | A reranked query shows hits of both searches only, and all of both when k and RerankInputN have room |
| HybridModes.KeywordInOrder | internal/search/hybrid.go:105-200 | With no chunk found twice, keyword mode returns the first k hits in their order, each with its doc, its snippet cut at 240 bytes, score 1/(60+rank) and its raw score |
| HybridModes.VectorInOrder | internal/search/hybrid.go:124-200 | The same for vector mode |
| HybridModes.HybridScores | internal/search/hybrid.go:149-200 | With no chunk found twice by one search, a hybrid result's score is the sum of 1/(60+rank) over the searches that found it and its signals are their raw scores |
| HybridModes.HybridShowsKeywordHit | internal/search/hybrid.go:136-145 | A hybrid result shows doc and snippet of the keyword hit if there is one, else of the vector hit |
| HybridModes.RerankedEntry | internal/search/hybrid.go:153-186 | Each reranked result is one of the best RerankInputN fused chunks, with the reranker's score and with the fused and the rerank score as its signals |
| HybridModes.RerankedBestFirst | internal/search/hybrid.go:169-186 | Reranked results descend by score; of equal ones the first has no lower fused score |
| HybridModes.RerankedLeavesOutWorse | internal/search/hybrid.go:153-187 | A chunk given to the reranker and left out was scored no higher than any result |
| HybridModes.DefaultK | internal/search/hybrid.go:89-91 | k of zero or less answers as k=10 |
| Wire.PutUvarint | internal/api/wire.go:37-38 | The loop fills the buffer with the varint of the number |
| Wire.Uvarint | internal/api/wire.go:58 | The loop returns the value and size of a varint of at most 64 bits, 0 when bytes run out, negative on overflow |
| Wire.EncodeFrame | internal/api/wire.go:34-42 | The frame is magic, version, shortest varint of the length, payload |
| Wire.DecodeFrame | internal/api/wire.go:47-70 | Decodes as specified, each failure with its own error |
| Wire.FrameBytes | internal/api/wire.go:22-42 | Up to 64 KiB a frame is D1 01, one to three length bytes of seven bits each, low bits first, and the payload |
| Wire.HeaderRequired | internal/api/wire.go:48-56 | Anything shorter than three bytes or not starting with D1 01 is ErrFrameInvalid |
| Wire.RoundTrip | internal/api/wire.go:34-70 | Every payload up to 64 KiB decodes from its frame, whatever follows |
| Wire.OversizeRejected | internal/api/wire.go:62-64 | A frame of any larger payload is ErrFrameInvalid |
| Wire.PrefixRejected | internal/api/wire.go:47-70 | Every proper prefix of a frame is rejected: as invalid within the header, as a short read after it |
| Wire.AcceptedExactly | internal/api/wire.go:47-70 | An input is accepted with a payload if and only if it is header, some varint of the payload's length, the payload, anything |
| Wire.ShortReadExactly | internal/api/wire.go:66-68 | A short read is reported if and only if the header is good and payload bytes are missing |
| Wire.VarintShortest | internal/api/wire.go:38 | No varint of a number is shorter than the one written |
| Wire.ReencodeNoLonger | internal/api/wire.go:34-70 | Re-encoding an accepted payload gives a frame no longer than the input that decodes to the same payload |
| Indexing.EmbedBatched | internal/api/handlers.go:132-153 | The loop joins the answers to consecutive batches, of 32 texts by default, or fails with the first failing batch |
| Indexing.BatchesAlign | internal/api/handlers.go:140-152 | One vector per text: the one returned at that text's place in its batch |
| Indexing.EmbedFailsIff | internal/api/handlers.go:141-150 | Embedding fails if and only if one of the batches, which start at the multiples of the batch size, cannot be embedded |
| Indexing.DefaultOptions | internal/api/handlers.go:88 | Bodies are cut with target 500, maximum 700 and no overlap |
| Indexing.IndexesDistinct | internal/api/handlers.go:107-114 | Chunk numbers are distinct, so the table's uniqueness constraint never refuses an insert |
| Indexing.StoredTextsKeepBody | internal/api/handlers.go:88-92 | The stored texts read back as the body, white space aside, none empty and none over 700 characters |
| Indexing.HandleIndex | internal/api/handlers.go:74-130 | Which requests fail and how (no JSON object, an empty trimmed field, a batch that cannot be embedded), with the store untouched; otherwise the response is the upsert's and a created doc is stored with its fields, created_at and one row per chunk |
| Indexing.IndexedRow | internal/api/handlers.go:107-116 | Row i has the number and text of chunk i and the vector returned for that very text |
| EndToEnd.DeletedDocNotFound | internal/store/queries.go:299-347 | A search that runs after DeleteDoc returned nil returns no hit of the doc |
| EndToEnd.SearchedRowIsLive | internal/store/queries.go:299-347 | Each hit of a search names and shows a committed row of a doc that is not deleted, for the vector search one with an embedding, and there are at most limit of them, 50 by default |
| EndToEnd.FinishHidesDeleted | internal/search/hybrid.go:149-200 | Fusing and reranking hits of searches that ran after DeleteDoc returned nil yields no result of that doc |
| EndToEnd.DeletedDocNeverShown | internal/search/hybrid.go:88-201 | A query that begins after DeleteDoc returned nil never shows the doc or any chunk ever written for it, in any mode, whatever runs at the same time |
| EndToEnd.ResultsAreRows | internal/search/hybrid.go:88-201 | Each result names the doc and shows the text of one chunk row really written, although the two searches may see different states |
| EndToEnd.HitsAgree | internal/search/hybrid.go:136-145 | Keyword and vector hits of one chunk agree on doc and text, so it does not matter which the side maps keep |
| EndToEnd.ListsDuplicateFree | internal/store/queries.go:303-342 | The fused lists never hold a chunk twice |
| EndToEnd.BetterShownFirst | internal/search/rrf.go:51-85 | In a plain query a chunk that every search ranks above another is shown above it |

## Left out

- Postgres itself: the transition system takes read-committed statements, row locks, unique indexes and atomic commits as given. A statement error rolls the transaction back (`Abort`), and a commit whose acknowledgement is lost is not modelled.
- The predicate re-check of a locked row after a wait: the model's statements run once the lock is free, which is the re-evaluated outcome.
- Generated keys and clocks: UUIDs and `now()` are parameters. The primary keys of docs, chunks and tombstones are assumed not to be issued twice; the class methods return an error for one that collides. No generated UUID is the nil UUID.
- Text ranking, `websearch_to_tsquery`, the HNSW index and SQL score ties: each search returns eligible rows in an arbitrary order, and nothing is claimed about which rows it finds.
- Floating point: scores are reals. The square root is a non-negative number whose square is its argument.
- Library tables: letter, digit and lower-case mappings are parameters of the reranker; SHA-256 is an opaque function; base64, JSON and UUID texts are assumed to round-trip.
- Text decoding before `Split`: a body is a sequence of characters, which is what JSON decoding yields. The chunker is not modelled on invalid UTF-8.
- `chunkIdx` in `Engine.Query`, which is written and never read, and the numbering of SQL parameters in `insertChunks` and `formatVector`.
- Result snippets are cut at 240 bytes, possibly inside a character: the model cuts there too, and does not claim that the result is valid text.
- HybridTheorems.SmallerKIsPrefix: is stated for k >= 1, because k <= 0 means 10.
- Paging.HandleListDocs: does not model the text format of an item's created_at.
- `ParseMode`, HTTP routing, middleware, error envelopes, commands, the embedding client's transport, the sidecar, the seed generator and the benchmarks: input and output, foreign calls, or easy members.
