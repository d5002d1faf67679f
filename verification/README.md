# A Dafny model of afd's download core

afd downloads a file over many connections, queues tasks, limits rates and can run as a cluster. This project models
the parts of it whose correctness depends on state kept across many steps, and proves what those parts are for. Check
it with `dafny verify dfyconfig.toml`.

## How it is built

**Download protocol.** `Bits` and `BitfieldMan` show that the byte-packed bitmaps are sets of block indices; `Blocks`,
`Pieces`, `Split`, `Selection` and `PieceManager` do the same for the objects above them, each class refining the value
type `PieceView`; `SavedBits` is the round trip through the control file, `ProgressBytes` what progress counts.
`Protocol` is a transition system over the file, the pieces and any number of workers. One step is one critical section,
one request outcome, or one read together with the write of its bytes. Serialization goes piece by piece between the
steps of others, saving can fail, and a restart may come at any point. `ProtocolSafety` and `ProtocolFinish` are
invariants of all runs. `ProtocolMoves`, `ProtocolProgress` and `ProtocolThief` build runs: what one worker's moves do
and what they leave alone. `ProtocolEof`, `ProtocolExposed`, `ProtocolLie` and `ProtocolReport` are about responses that
end too soon, `ProtocolSaves` is about progress once saved, `ProtocolLeak` about blocks that nobody fetches,
`ProtocolCounter` about the counter of bytes, `ProtocolFallback` about a resume after the fallback to one thread.

**Task queue.** `HeapSpec` and `QueueOrder` specify the binary heap and the order it drains in; `PriorityQueue` is the
array code with indices kept in the items. `QueueSpec` gives each public operation as a function, `TaskQueue` is the
object proved to refine it, and `QueueInvariants`, `QueuePosition`, `QueueRuns` and `QueueEffects` prove what the
operations keep and do. `QueueRaces` and `QueueGap` split Add and Resume at the point where they let go of the lock.

**The rest.** `RateLimiter` (token bucket), `WindowLimiter` (fixed-window limiter with cleanup), `Rebalance` (cluster),
`ConfigInclude` (recursive includes) and `LabelLru` (capped metric labels). Each has a class that refines a
specification on values, and theorems about runs of the specification.

## What the proofs found

The model follows the code. Where a property one would expect is false of the code, the project has the run or input
that breaks it and says when it holds.

- A response to a stolen range that ends inside a block still gets that block marked done
  (internal/downloader/downloader.go:1511-1530). `EofSafeIff` says for each range and end whether this can go wrong in
  a run, `AlwaysHonestIff` for which configurations it never does, and `SuccessMeansEqualIff` for which a reported success
  means the right file, by the lengths of the pieces. With the default settings it does for files below
  1.5 MiB and from 8 to below 12 MiB (`DefaultsTellIff`). `EarlyEndLies` is the run that ends with a lying done bit, and
  `EndsWrong` carries the wrong byte on to a reported success.
- The `geom` scan goes one above the middle before one below, against the comment beside it
  (internal/downloader/chunk.go:431-441); `RightPickIff` follows the code.
- The `geom` selector with an even number of pieces never looks at piece 0 (`GeomVisitsIff`), so such a download can
  never be complete (`EvenGeomNeverFinishes`), yet some run of it is reported as a success (`ReportsAreRightIff`).
- Workers that notice a cancellation at the top of their loop return without an error, and the download reports
  success whatever is missing (`CancelledLooksComplete`).
- A response that ends inside its block, and a read that overshoots its block, can leave a block claimed by nobody
  (`ShortResponseLeaks`, `OvershootLeaks`); nothing else does (`LeaksIff`), and only a thief or a restart frees it
  (`OrphanStays`, `LoneLeakIsForever`).
- A restart takes a saved byte counter that has reached the file size as a complete file. This is right when no byte
  was fetched twice (`CounterIsRight`); over all runs it is right for files of one byte only (`CounterMeansEqualIff`).
- After the fallback to one thread the bits of the old pieces are saved again, although the file has been cut to nothing.
  `ResumeHonestIff` says when a resume then starts with wrong bits, `FallbackLoses` is such a run.
- `BlockLength` gives a full block for an empty piece, so block lengths add up exactly for non-empty pieces
  (`BlocksTilePiece`).
- Settings accepted by `Validate` can make the split divide by zero (`AcceptedSplitCrashesIff`).
- Removing a running task does not start the next one, unlike Pause, CompleteTask and FailTask (`RemoveKeeps`,
  `RemovingCanStrand`).
- Add and Resume can exceed the limit by one less than the number of callers (`ConcurrencyBound`, `BoundIsReached`),
  and only a removal in the gap can lose a slot for good (`NoHitNoLeak`, `LeaksAreForever`); it does unless the same task
  is added again before its start (`HitLeaks`).
- Wait lets everything through at a rate of zero or less, and there is no bound then (`BoundedIffMetered`).
- A bucket asked too often never fills: each refused request throws away the fraction of a token that has accrued
  (`HurryingStarves`, against `WaitingPays`).
- A negative rate, and nothing else, overdraws the token bucket (`OverdrawnIffNegativeRate`).
- The window limiter lets at most 2 * limit - 1 requests through in one window length, one fewer than the obvious
  bound, and that is reached (`AllowedInAnyWindow`, `BurstReachesBound`).
- Rebalancing brings each overloaded node to the average in its turn, but a later turn can overload it again; this
  happens for some start exactly when three or more nodes are online (`AlwaysBalancesIff`).
- The include loader rejects a file reached by two routes as a circular include, although there is no cycle; this is
  part of the exact condition in `LoadSucceedsIff`.
- The gauge is set after the list's lock is released, so a concurrent forget leaves a label the cap no longer sees
  (`SetKeepsSaneIff`, `LateSetOrphans`, `OrphanStays`).

## Assumptions

- The body of an answer with status 206 is a prefix of the requested range of a fixed source. Writes to the file happen
  whole, in the step that reads the bytes. The file has its full size from the start. A restart keeps the file's bytes,
  and finds the same size, settings and split: `RestorePieceBitfields` (internal/downloader/chunk.go:607-628) does not
  check that the saved bits belong to the present split.
- Clock readings are integers in nanoseconds. They do not decrease within a run.
- The random selector's choice is a parameter. Maps are walked in an arbitrary order.
- The set of online nodes does not change during one rebalance.
- Callbacks of the task queue do nothing, and only the queue changes the status of its tasks.
- The include paths in a file are already absolute.

## Model

| member | source | states |
|---|---|---|
| ProtocolSafety.DoneBitsNeverLie | internal/downloader/downloader.go:717-875 | In every run from a fresh start, with any number of workers, any interleaving, stealing, failed requests, saving and restarts: every byte of every block marked done equals the server's byte, provided each response to a stolen range ends at a block boundary |
| ProtocolSafety.FullMeansEqual | internal/downloader/chunk.go:507-516 | If done bits are honest and every piece is full, the file equals the source, byte for byte |
| ProtocolSafety.ApplyHonest | internal/downloader/downloader.go:1138-1370 | The invariant step: honest done bits, honest saved bitmaps and honest worker positions survive every single step, a restart from the last saved bitmaps included |
| ProtocolSafety.ApplyShape | internal/downloader/downloader.go:717-875 | Every step keeps worker positions inside their pieces and ranges, the file size, and the geometry of the pieces |
| ProtocolSafety.ReadingEffect | internal/downloader/downloader.go:1257-1310 | While a block is read, the bytes from its start to the current offset are already right, also when reads overshoot or break off |
| ProtocolSafety.AdvancingEffect | internal/downloader/downloader.go:1312-1337 | Going on with the next block on the same response keeps this: the new block starts where the bytes are |
| ProtocolSafety.RangeEndGood | internal/downloader/downloader.go:1511-1530 | At a block boundary, all blocks between the first and the last byte of a stolen range are right when they get marked |
| ProtocolSafety.MarkingEffect | internal/downloader/downloader.go:1511-1530 | Marking one of those blocks keeps done bits honest |
| ProtocolSafety.EndOffsetBounds | internal/downloader/chunk.go:532-546 | In every state, the end offset for a piece is not before the piece ends, lies in the file, and not in the next piece once that one has been begun |
| ProtocolSafety.RequestReachesIff | internal/downloader/downloader.go:1201-1210 | A request for a block asks for a byte further on if and only if that is a byte of the file, and of the same piece unless the next piece is not being downloaded at the moment |
| ProtocolEof.EofSafeIff | internal/downloader/downloader.go:1511-1530 | Over all states that runs from a fresh start reach: the end of a stolen range's response at cur marks only right blocks if and only if it comes at the end of the range or a multiple of the block length into the piece, or no theft of exactly this range takes the block of the last byte while that is missing (two workers at least, and a piece the selector hands out) |
| ProtocolEof.ResponseAt | internal/downloader/downloader.go:746-812 | For every theft the configuration allows, from every set of done blocks, and every byte of its range: a run from a fresh start that leads to the response at that byte |
| ProtocolLie.EarlyEndLies | internal/downloader/downloader.go:1511-1530 | For every configuration and every such end inside a missing block: a run from a fresh start after which the block is marked done and the byte at the end of the response is wrong |
| ProtocolLie.AlwaysHonestIff | internal/downloader/downloader.go:1438-1537 | No done bit, saved bit or worker position ever lies, in any run and wherever responses end, if and only if there is only one worker, or no piece that is handed out is as long as the smallest theft plus half of the blocks such a theft takes up |
| ProtocolExposed.ExposedIff | internal/downloader/chunk.go:122-161 | The same bound on lengths says whether any theft the configuration allows, from any set of done blocks, can take a block that is missing and inside which its response can end |
| ProtocolReport.SuccessMeansEqualIff | internal/downloader/downloader.go:871-906 | In every run from a fresh start, wherever responses end and however often it is restarted, a reported success means that the file equals the source, if and only if the selector looks at every piece, and there is only one worker or no piece is long enough for a theft |
| ProtocolReport.SettingsTellIff | internal/downloader/chunk.go:352-395 | The same from the settings: the piece size the split chooses, or the whole file, is too short for a theft of the minimum chunk size, or there is only one connection |
| ProtocolReport.DefaultsTellIff | pkg/config/config.go:343-372 | With the default settings, inorder selector included, this holds exactly for files below 1.5 MiB and those from 8 MiB to below 12 MiB |
| ProtocolReport.EndsWrong | internal/downloader/downloader.go:605-628 | From any resumed state with a wrong byte in a done block: a run that fetches the missing blocks one by one, saving and resuming after each, and is reported as a success with that byte still wrong |
| ProtocolReport.SavesAndRestarts | internal/downloader/downloader.go:384-391 | A save and a resumed restart bring back the done blocks of every piece, with nothing claimed and nobody at work, and the same file |
| ProtocolThief.RangesAreThefts | internal/downloader/chunk.go:482-495 | In every run, a worker with a stolen range is one of several, the piece is one the selector hands out, and the range is what a theft yields from a piece with some of the blocks done that are done now |
| ProtocolFinish.ReportedMeansComplete | internal/downloader/downloader.go:871-906 | If the selector covers all pieces, then in every run after which all workers have returned, with no failure and no cancellation, every piece is full; if stolen ranges ended at boundaries the file is the source |
| ProtocolFinish.StepAccounted | internal/downloader/downloader.go:717-868 | No piece is forgotten: while nobody failed or was cancelled an idle piece will be asked for again, an active one has a worker, a complete one is full; every step keeps this |
| ProtocolFinish.EvenGeomNeverFinishes | internal/downloader/chunk.go:431-449 | With the geom selector and an even number of pieces no run ever marks a block of piece 0, so none completes the file |
| ProtocolFinish.CancelledLooksComplete | internal/downloader/downloader.go:733-738 | For every configuration: workers that notice a cancellation at the top of their loop all return without an error although nothing is done |
| ProtocolProgress.ReportsAreRightIff | internal/downloader/chunk.go:426-478 | A download reported as a success (all workers returned, no failure, no cancellation) has all pieces complete in every run from a fresh start, wherever responses end, if and only if the selector is not geom over an even number of pieces |
| ProtocolProgress.SomeRunDownloadsTheFile | internal/downloader/downloader.go:717-875 | For every file, split and number of workers, with a selector that covers all pieces, some run from a fresh start is reported as a success and has the whole file on disk |
| ProtocolProgress.SomeRunIsReported | internal/downloader/downloader.go:717-875 | For every selector some run is reported as a success with every piece complete that the selector ever looks at |
| ProtocolProgress.ReadsOn | internal/downloader/downloader.go:1248-1350 | For every set of blocks there is a run of the block loop that fetches these and no other: responses carry on from block to block, or end before the first byte |
| ProtocolLeak.LeaksIff | internal/downloader/downloader.go:1322-1348 | In every run from a fresh start, with any number of workers, thefts, saves and restarts: at some time a block is in use by nobody if and only if some response ended inside its block, still marked in use, or some worker went on to a next block that did not start where its bytes ended |
| ProtocolLeak.OrphanStays | internal/downloader/chunk.go:122-161 | Such a block stays in use by nobody through every step but a restart or a thief's release or mark, whatever the other workers do |
| ProtocolLeak.IncompleteUntilFreed | internal/downloader/downloader.go:1322-1348 | As long as no thief and no restart frees it, the download is not complete |
| ProtocolLeak.LoneLeakIsForever | internal/downloader/downloader.go:1322-1348 | With a single worker, in every run that reaches such a state and every continuation without a restart, the block stays in use by nobody and the download incomplete |
| ProtocolLeak.ShortResponseLeaks | internal/downloader/downloader.go:1345-1349 | For every configuration and every block of every piece that is handed out: a run from a fresh start in which the response for that block ends too soon and the block is left in use by nobody |
| ProtocolLeak.OvershootLeaks | internal/downloader/downloader.go:1312-1334 | For every piece of two blocks or more that is handed out: a run from a fresh start in which one read brings the last byte of the first block and the first of the second, and the second is left in use by nobody |
| ProtocolCounter.CounterIsRight | internal/downloader/downloader.go:541-557 | In every run without restart in which no byte is fetched twice: when the saved byte counter has reached the size of the file, at which a restart takes it as complete, the file is the source |
| ProtocolCounter.CounterCanLie | internal/downloader/downloader.go:541-557 | For every file of two bytes or more, every split and every number of workers: a run without a restart that fetches one byte again, as often as the file has bytes, until the saved counter reaches the size of the file, with not one block done and the file wrong |
| ProtocolCounter.CounterMeansEqualIff | internal/downloader/downloader.go:541-557 | Over all runs without a restart, a saved counter that has reached the size of the file means that the file equals the source, if and only if the file has one byte |
| ProtocolFallback.ResumeHonestIff | internal/downloader/downloader.go:882-896 | After the fallback to one thread has cut the file and fetched n bytes again, the bits a resume loads are right if and only if every byte from n on that lies in a block marked done is zero in the source |
| ProtocolFallback.LossIsReported | internal/downloader/downloader.go:382-391 | Otherwise some continuation of that resumed download is reported as a success with the lost bytes missing |
| ProtocolFallback.FallbackLoses | internal/downloader/downloader.go:882-896 | For every piece that is handed out and every non-zero byte of it before its last block: a run that fetches this byte, is refused its next request, loses the byte in the fallback, and reports success after the resume |
| Bits.UpdateSetsMember | internal/downloader/chunk.go:223-233 | Setting a bit of the packed bytes adds exactly that index to the set below n; the count grows by one exactly if the bit was clear |
| Bits.UpdateClearsMember | internal/downloader/chunk.go:236-246 | Clearing a bit removes exactly that index; the count drops by one exactly if the bit was set |
| Bits.OrSetsOneBit | internal/downloader/chunk.go:223-233 | The or with the mask changes one bit of a byte and no other |
| Bits.AndNotClearsOneBit | internal/downloader/chunk.go:236-246 | The and-not with the mask changes one bit of a byte and no other |
| BitfieldManager.BitfieldMan.constructor | internal/downloader/chunk.go:199-208 | A new bitmap reads as two empty sets |
| BitfieldManager.BitfieldMan.SetBit | internal/downloader/chunk.go:223-233 | Done gains exactly idx (if in range), the count stays the size of Done, use bits are as before |
| BitfieldManager.BitfieldMan.ClearBit | internal/downloader/chunk.go:236-246 | Done loses exactly idx, the count stays the size of Done |
| BitfieldManager.BitfieldMan.SetUseBit | internal/downloader/chunk.go:256-260 | InUse gains exactly idx, Done is as before |
| BitfieldManager.BitfieldMan.UnsetUseBit | internal/downloader/chunk.go:249-253 | InUse loses exactly idx, Done is as before |
| BitfieldManager.BitfieldMan.IsAllBitSet | internal/downloader/chunk.go:279-281 | The counter comparison answers whether every block is done |
| BitfieldManager.BitfieldMan.FirstMissingUnusedIndex | internal/downloader/chunk.go:284-291 | The smallest block neither done nor in use, or -1 if there is none |
| BitfieldManager.BitfieldMan.CountMissing | internal/downloader/chunk.go:304-312 | The size of the complement of Done |
| BitfieldManager.BitfieldMan.CompletedLength | internal/downloader/chunk.go:315-323 | The bytes of exactly the done blocks |
| BitfieldManager.BitfieldMan.SetBitfield | internal/downloader/chunk.go:338-350 | Done becomes the members of the given bytes below the number of blocks, whatever the padding bits; the count is recomputed; a wrong length is ignored |
| Blocks.FullIffCount | internal/downloader/chunk.go:279-281 | A set of indices below n is full exactly when it has n elements |
| Blocks.BlocksTilePiece | internal/downloader/chunk.go:211-220 | Block lengths add up to the piece length if and only if the piece is not empty |
| Blocks.CompletedBytes | internal/downloader/chunk.go:315-328 | Completed plus missing bytes are the piece length, and completed bytes reach it exactly when all blocks are done |
| Pieces.BlocksDisjoint | internal/downloader/chunk.go:56-67 | Two blocks of a piece share no byte |
| Pieces.LastBlockReachesEnd | internal/downloader/chunk.go:211-220 | The last block ends where the piece ends |
| Pieces.IndexOfContains | internal/downloader/chunk.go:164-173 | The block found for an offset inside the piece contains that offset |
| Pieces.IndexOfOutside | internal/downloader/chunk.go:164-173 | An offset behind the piece counts as in its last block, one before it as in block 0 or below, by whole blocks towards zero |
| Pieces.IndexOfBlockStart | internal/downloader/downloader.go:1322-1337 | The index computed from a block's own start is that block |
| Pieces.StealIsFair | internal/downloader/chunk.go:122-161 | A successful steal starts on a block boundary, reaches the end of the piece, is long enough, keeps every done bit, frees exactly the missing blocks it takes, and takes at least half (rounded up) of the missing blocks |
| Pieces.StealReleases | internal/downloader/chunk.go:122-161 | Whether or not it yields a range, an attempt releases exactly the use bits of the missing blocks from its starting block on, if as many bytes are missing as it wants; nothing else changes |
| Pieces.StealHalves | internal/downloader/chunk.go:142-147 | When the missing blocks follow each other, the victim keeps exactly half of them, rounded down |
| Pieces.StealSucceedsIff | internal/downloader/chunk.go:122-161 | A steal succeeds if and only if enough bytes are missing and the tail from the chosen block is long enough; the guard against a negative tail never fires |
| Pieces.Piece.constructor | internal/downloader/chunk.go:37-52 | A new piece is idle, with no block done or in use |
| Pieces.Piece.NextUnusedBlock | internal/downloader/chunk.go:56-67 | Claims the first free block and gives its range; nothing changes when there is none |
| Pieces.Piece.CompleteBlock | internal/downloader/chunk.go:70-78 | One block becomes done and unused; the piece turns Complete exactly when that was the last |
| Pieces.Piece.CancelBlock | internal/downloader/chunk.go:81-85 | Only the use bit of the block is given back |
| Pieces.Piece.StealableRange | internal/downloader/chunk.go:122-161 | Returns the range of the steal specification and leaves exactly its state |
| Pieces.Piece.BlockIndexForOffset | internal/downloader/chunk.go:164-173 | The block index with truncating division, cut off at the last block |
| Split.SplitFileIntoPieces | internal/downloader/chunk.go:353-397 | Pieces are separate objects that tile the file without gap or overlap; all but the last have exactly the piece size, and the last is not empty and no longer; an empty size gives one empty piece |
| Split.LayoutTiles | internal/downloader/chunk.go:385-396 | The pieces of a split, as values: the same for every file and piece size |
| Split.OffsetInOnePiece | internal/downloader/chunk.go:353-397 | Every offset below the file size lies in exactly one piece, no other offset in any |
| Split.PieceSizeBounds | internal/downloader/chunk.go:355-381 | The adjustment for connections only shrinks pieces, keeps them inside the configured bounds, and gives every connection a piece |
| Split.ClampedIsNearest | internal/downloader/chunk.go:355-366 | The size starts from the default if that lies in the bounds, else from the bound it violates |
| Split.EveryoneServedIff | internal/downloader/chunk.go:367-381 | Each connection gets a piece if and only if the size before the adjustment gives enough pieces, or it is above the minimum and pieces of the minimum would be enough; the size changes only when it has to, and then to an even share |
| Split.AcceptedSplitCrashesIff | pkg/config/config.go:158-170 | Settings that Validate accepts make the split divide by zero if and only if the default size is zero, or the minimum is zero and the file has fewer bytes than connections |
| Selection.GeomVisitsIff | internal/downloader/chunk.go:431-449 | The geom scan looks at index j if and only if the number of pieces is odd or j is not 0 |
| Selection.NothingPickedIff | internal/downloader/chunk.go:426-478 | No piece is handed out exactly when no piece is idle, or the selector is geom, the count even and only piece 0 is idle |
| Selection.RightPickIff | internal/downloader/chunk.go:426-478 | A piece may be handed out if and only if it is idle and, by the statuses alone, the right one: in order, no idle piece before it; with geom, of the idle ones the scan looks at, none nearer to the middle, and the one above it of two equally near ones; at random, any |
| Selection.TheftIsFair | internal/downloader/chunk.go:482-495 | A theft takes the first active piece of another worker that yields a range; the victims before it have been tried in vain, with what that does to their use bits; no other piece changes |
| PieceManagement.PieceManager.GetPieceForDownload | internal/downloader/chunk.go:426-478 | Hands out, by the statuses alone, the right idle piece (RightPickIff), at random the one the random number counts to, and none exactly when there is none to hand out; it becomes active and owned by the caller, all other pieces stay as they are |
| PieceManagement.PieceManager.TryStealPiece | internal/downloader/chunk.go:482-495 | Leaves the state and gives the range and victim of the scan specification |
| PieceManagement.PieceManager.CompletePiece | internal/downloader/chunk.go:498-504 | Only the status of the given piece changes; an index outside is ignored |
| PieceManagement.PieceManager.AllComplete | internal/downloader/chunk.go:507-516 | Whether every piece has all blocks done |
| PieceManagement.PieceManager.TotalCompletedLength | internal/downloader/chunk.go:519-527 | The sum of the completed bytes of all pieces |
| PieceManagement.TotalWithinFile | internal/downloader/chunk.go:519-527 | Progress is at most the file size and equals it exactly when every piece is full |
| ProgressBytes.TotalIsDoneOffsets | internal/downloader/chunk.go:519-527 | Progress is the number of bytes of the file that lie in blocks marked done |
| ProgressBytes.CompletedIsDoneBytes | internal/downloader/chunk.go:315-323 | The completed length of a piece is the number of its bytes in done blocks |
| PieceManagement.PieceManager.SerializePieceBitfields | internal/downloader/chunk.go:579-604 | One entry, in order, for each piece with a non-zero byte |
| PieceManagement.PieceManager.RestorePieceBitfields | internal/downloader/chunk.go:607-628 | Loads entry after entry; bad indices and undecodable payloads are skipped; use bits, owners and geometry stay |
| SavedBits.RestoreAfterSerialize | internal/downloader/chunk.go:579-628 | Restoring what was serialized into a fresh split brings back every bit of every piece, omitted all-zero pieces included, and completes exactly the full ones |
| SavedBits.SerializedExactly | internal/downloader/chunk.go:579-604 | There is an entry for a piece if and only if it has a non-zero byte; entries are in the order of the pieces and hold all bytes of theirs |
| SavedBits.LastEntryWins | internal/downloader/chunk.go:607-628 | Whatever the entries: a piece gets the bytes of the last entry for it that decodes to the right number of bytes, keeps its own without one, and is complete if it was given all its bits |
| ProtocolSaves.SavedIsNeverLost | internal/downloader/downloader.go:358-409 | In every run in which all restarts resume, what the control file holds at some point is in it, and done, at every later point, whatever crashes and failed saves come in between |
| HeapSpec.PushKeepsHeap | internal/task/queue.go:31-36 | A push keeps heap order and adds exactly the new entry |
| HeapSpec.PopKeepsHeap | internal/task/queue.go:38-46 | A pop keeps heap order, takes out exactly the first entry, and that one is minimal |
| HeapSpec.RemoveKeepsHeap | internal/task/queue.go:98-125 | Removing at any index keeps heap order, sifting down or up as needed, and takes out exactly that entry |
| HeapSpec.UpRestores | internal/task/queue.go:17-46 | Sifting up repairs a heap that is wrong at one entry only |
| HeapSpec.DownRestores | internal/task/queue.go:17-46 | Sifting down repairs a heap that is wrong below one entry only |
| PriorityQueues.PriorityQueue.Swap | internal/task/queue.go:25-29 | Two items trade places and each still knows its index |
| PriorityQueues.PriorityQueue.Push | internal/task/queue.go:31-36 | The array becomes the pushed heap of the specification, every item knowing its index |
| PriorityQueues.PriorityQueue.Pop | internal/task/queue.go:38-46 | Gives the root item, with index -1; the array becomes the popped heap |
| PriorityQueues.PriorityQueue.Remove | internal/task/queue.go:98-125 | Gives the item at the index; the array becomes the removed heap |
| PriorityQueues.PriorityQueue.DrainAll | internal/task/queue.go:401-407 | Gives all items in pop order and leaves the heap empty |
| QueueOrder.DrainedIsSorted | internal/task/queue.go:401-407 | Draining gives a sorted sequence of exactly the heap's entries |
| QueueOrder.SortedIsUnique | internal/task/queue.go:388-463 | A strictly sorted order of a bag of entries is unique, so distinct priorities fix the drain order |
| QueueOrder.RebuildKeepsOrder | internal/task/queue.go:446-462 | A heap rebuilt with positions as priorities drains in exactly that order |
| QueueOrder.MovedAt | internal/task/queue.go:436-444 | Where every element is after the move: between the two positions shifted by one, elsewhere untouched |
| QueueOrder.MovedUp | internal/task/queue.go:436-444 | The copy of the elements in between one place down, and the element over the last of them, is that move |
| QueueOrder.MovedDown | internal/task/queue.go:436-444 | The copy of the elements in between one place up, and the element over the first of them, is that move |
| QueueInvariants.StartNextTakesPrefix | internal/task/queue.go:233-259 | tryStartNext starts exactly as many tasks as there are free slots or waiting tasks, in drain order; the rest waits in the same order; the books stay right; slots are then full or nothing waits |
| QueueInvariants.StartedAreMinimal | internal/task/queue.go:233-259 | Each started task has a priority no larger than every task waiting at that time |
| QueueEffects.StartNextOnlyPending | internal/task/queue.go:233-259 | Whatever the heap holds: only pending tasks are started, each counts once, the limit is kept, and a slot stays free only when nothing waits |
| QueueInvariants.AddKeepsIff | internal/task/queue.go:70-96 | Adding keeps the books right if and only if the id is taken (an error) or the task comes in as pending |
| QueueEffects.AddEffect | internal/task/queue.go:70-96 | A new pending task runs afterwards if and only if a slot was free, else it waits with one entry more in the heap; a taken id is an error; nothing else changes |
| QueueInvariants.RemoveKeeps | internal/task/queue.go:98-125 | Removing keeps the books right and takes exactly the named entry out of the heap; full slots are kept if and only if the task was not running, nothing waits, or the limit is still exceeded |
| QueueEffects.RemoveEffect | internal/task/queue.go:98-125 | The task is gone with its entry, and with its slot if it was running; an unknown id is an error; nothing else changes |
| QueueInvariants.PauseKeeps | internal/task/queue.go:136-155 | Pausing keeps the books right and refills the slot |
| QueueEffects.PauseEffect | internal/task/queue.go:136-155 | A running task is paused afterwards and its slot goes to those who wait, in their order, as many as fit; otherwise the named error, and nothing changes |
| QueueInvariants.ResumeKeeps | internal/task/queue.go:157-189 | Resuming keeps the books right and full slots full |
| QueueEffects.ResumeEffect | internal/task/queue.go:157-189 | A paused task runs afterwards if and only if a slot was free, else it waits with one entry more in the heap; otherwise the named error, and nothing changes |
| QueueInvariants.FinishKeeps | internal/task/queue.go:272-324 | Completing or failing keeps the books right and refills the slot; the counter was at least one, so its guard is not needed |
| QueueEffects.FinishEffect | internal/task/queue.go:272-324 | A running task is gone and its slot goes to those who wait, in their order, as many as fit; any other task is left alone |
| QueueInvariants.SetMaxKeeps | internal/task/queue.go:226-231 | Changing the limit keeps the books right and fills new slots |
| QueueEffects.SetMaxEffect | internal/task/queue.go:226-231 | The new limit is in force; waiting tasks start in their order until it is reached, and none is stopped |
| QueueEffects.StepLimit | internal/task/queue.go:70-324 | An operation takes the number of running tasks over the limit if and only if it sets the limit below that number; over the limit the number never grows |
| QueueEffects.LimitHolds | internal/task/queue.go:70-324 | In every run from an empty queue in which the limit is never set below the number of running tasks, no more tasks run than the limit allows |
| QueuePosition.ChangePositionMoves | internal/task/queue.go:388-463 | The task ends at the position from the first to the last that is nearest to the one asked for (absolute, relative to its own, or to the last), which is returned; the others keep their order, waiting tasks get their places as priorities, and nothing else changes |
| QueuePosition.RelativeMove | internal/task/queue.go:426-437 | A relative move by nothing leaves the order alone, and one within range moves the task exactly that many places |
| QueuePosition.ChangePositionErrors | internal/task/queue.go:388-463 | It fails exactly for an unknown id, a task not pending or an unknown mode, with that error; then only the arrangement of the same entries in the heap can differ |
| QueueRuns.QueueIsConserved | internal/task/queue.go:70-324 | Over every sequence of operations that adds pending tasks: the counter is the number of running tasks, the heap holds each pending task once and nothing else; with no removal of a running task, slots are full whenever a task waits |
| QueueRuns.RemovingCanStrand | internal/task/queue.go:98-125 | After removing the only running task a waiting one stays waiting with a free slot |
| TaskQueues.TaskQueue.TryStartNext | internal/task/queue.go:233-259 | The objects end up as the specification says: statuses, heap, counter |
| TaskQueues.TaskQueue.StartTask | internal/task/queue.go:261-270 | The task object runs and takes a slot, also when the map does not know it any more; the queue stays consistent unless the task waits in the heap |
| TaskQueues.TaskQueue.Add | internal/task/queue.go:70-96 | Refines the specification that AddEffect describes, errors included |
| TaskQueues.TaskQueue.FindPQIndex | internal/task/queue.go:127-134 | The index an item remembers is where the id is in the heap, or -1 |
| TaskQueues.TaskQueue.Remove | internal/task/queue.go:98-125 | Refines the specification, errors included; the task object leaves the map and ends cancelled unless it had ended before |
| TaskQueues.TaskQueue.Cancel | internal/task/model.go:235-247 | A task that left the map becomes cancelled unless it had ended before; nothing else changes |
| TaskQueues.TaskQueue.Pause | internal/task/queue.go:136-155 | Refines the specification that PauseEffect describes, errors included |
| TaskQueues.TaskQueue.Resume | internal/task/queue.go:157-189 | Refines the specification that ResumeEffect describes, errors included |
| TaskQueues.TaskQueue.FinishTask | internal/task/queue.go:272-324 | CompleteTask and FailTask refine the specification; a running task leaves the map with its final status |
| TaskQueues.TaskQueue.SetMaxConcurrent | internal/task/queue.go:226-231 | Refines the specification that SetMaxEffect describes |
| TaskQueues.TaskQueue.ChangePosition | internal/task/queue.go:388-463 | Drain, search, shift, renumber and rebuild on the objects refine the specification, every error path included |
| TaskQueues.TaskQueue.Shift | internal/task/queue.go:436-444 | The two overlapping copies move one element and shift those between |
| QueueRaces.ConcurrencyBound | internal/task/queue.go:82-93 | With n callers in Add, Resume and tryStartNext, and the gap between check and start as separate steps, the counter plus the starts under way never exceeds max - 1 + n, and the counter is exactly the running tasks plus the leaked starts |
| QueueRaces.BoundIsReached | internal/task/queue.go:172-186 | For every limit and number of callers some run reaches that bound |
| QueueGap.NoHitNoLeak | internal/task/queue.go:82-93 | In every run of any number of callers in which no removal hits a task that some caller is about to start, the counter is exactly the number of running tasks |
| QueueGap.HitLeaks | internal/task/queue.go:82-125 | When a removal does hit such a task and the object is not added again before its start, that start takes a slot for good: the counter grows and the running tasks stay the same |
| QueueRaces.RemoveInTheGapLeaks | internal/task/queue.go:82-125 | The shortest such run, from an empty queue: an empty map with a taken slot |
| QueueRaces.LeaksAreForever | internal/task/queue.go:233-270 | Once as many starts have leaked as there are slots, no waiting task is ever started from the heap again |
| RateLimiting.GrantedInAnyWindow | internal/downloader/ratelimit.go:35-116 | In every stretch of every run in which no call of Wait comes at a rate of zero or less: bytes granted are at most one burst, one more per reset by a non-positive rate, and the highest rate times the elapsed time, truncation and late rate changes included; otherwise at most that plus what those calls ask for |
| RateLimiting.BoundedIffMetered | internal/downloader/ratelimit.go:49-52 | What a sequence of calls lets through has a bound, whatever the calls of Wait ask for, if and only if none of them comes at a rate of zero or less |
| RateLimiting.MeteredAfterUpdate | internal/downloader/ratelimit.go:101-116 | What comes out of the bucket from a refill on: the first burst is only what the bucket held |
| RateLimiting.TokensInBounds | internal/downloader/ratelimit.go:35-116 | Tokens never exceed the burst and, without negative rates, never fall below zero |
| RateLimiting.OverdrawnIffNegativeRate | internal/downloader/ratelimit.go:85-116 | From a bucket within bounds, some run that sets no negative rate overdraws it if and only if its rate is already negative |
| RateLimiting.RefillPays | internal/downloader/ratelimit.go:101-116 | A refill leaves the most whole tokens that the time since the last update pays for, up to a full bucket; a negative rate takes tokens away in the same way; without time nothing changes |
| RateLimiting.GrantedIff | internal/downloader/ratelimit.go:35-47 | A request is granted if and only if the tokens are there, or the time since the last update pays for the missing ones and the bucket can hold them all |
| RateLimiting.WaitingPays | internal/downloader/ratelimit.go:35-116 | After any calls without a negative rate, a request that fits into the bucket is granted once the time since the last update is worth it |
| RateLimiting.HurryingStarves | internal/downloader/ratelimit.go:101-116 | An empty bucket asked again and again, each time before a whole token has accrued, stays empty however long that goes on |
| RateLimiting.RateLimiter.constructor | internal/downloader/ratelimit.go:19-33 | The burst is positive whatever the arguments, and the bucket starts full |
| RateLimiting.RateLimiter.Refill | internal/downloader/ratelimit.go:101-116 | Refines the refill on values that RefillPays describes |
| RateLimiting.RateLimiter.Allow | internal/downloader/ratelimit.go:35-47 | Takes the tokens exactly when they are there after a refill |
| RateLimiting.RateLimiter.WaitRound | internal/downloader/ratelimit.go:62-74 | One round of Wait grants like Allow, else says how many tokens are missing |
| RateLimiting.RateLimiter.SetRate | internal/downloader/ratelimit.go:85-93 | The rate is set; only a non-positive one refills the bucket |
| WindowLimiting.AllowedInAnyWindow | internal/api/middleware.go:220-242 | For every address and every half-open interval one window long: at most 2 * limit - 1 requests are allowed |
| WindowLimiting.BurstReachesBound | internal/api/middleware.go:220-242 | Some requests do get that many through |
| WindowLimiting.CleanupIsInvisible | internal/api/middleware.go:193-211 | Removing expired windows at any moments changes no answer of any run |
| WindowLimiting.RefusalLeavesNoTrace | internal/api/middleware.go:220-242 | Leaving a refused request out of any run changes no other answer |
| WindowLimiting.RefusedIffQuotaUsed | internal/api/middleware.go:220-242 | In every run from an empty map: a request is refused if and only if, by the answers so far, the limit was allowed to its address since the request that opened the last window, and that one came less than a window ago |
| WindowLimiting.RateLimiter.AllowRequest | internal/api/middleware.go:220-242 | Answer and window map are those of the specification, which RefusedIffQuotaUsed and RefusalLeavesNoTrace describe by the answers |
| WindowLimiting.RateLimiter.Cleanup | internal/api/middleware.go:193-211 | Removes exactly the expired windows, in whatever order the map is walked |
| Rebalancing.Scheduler.CountTasksForNode | internal/cluster/scheduler.go:288-296 | The number of tasks assigned to the node, in whatever order the map is walked |
| Rebalancing.Scheduler.FindReceiver | internal/cluster/scheduler.go:311-332 | The scan around the list finds the next node other than the giver, or none if it is alone |
| Rebalancing.Scheduler.ReassignTasks | internal/cluster/scheduler.go:311-332 | Moves exactly min(count, tasks there), only from the giver and only to the given nodes; receiver j gets its round-robin share; a lone node keeps everything |
| Rebalancing.Scheduler.Rebalance | internal/cluster/scheduler.go:262-286 | No task appears or disappears, tasks of offline nodes stay, and the counts are those of the nodes' turns in order |
| Rebalancing.SharesAddUp | internal/cluster/scheduler.go:311-332 | The shares add up to the tasks given away |
| Rebalancing.SharesAreFair | internal/cluster/scheduler.go:311-332 | Shares differ by at most one |
| Rebalancing.TurnIsFair | internal/cluster/scheduler.go:262-286 | After its turn an overloaded node holds exactly the average; the others gained the same but for one task, the earlier ones no less than the later ones |
| Rebalancing.TurnLeavesIff | internal/cluster/scheduler.go:262-286 | A node gives nothing away if and only if it has at most two tasks more than the average or is alone |
| Rebalancing.AverageIsShare | internal/cluster/scheduler.go:262-286 | The average is the largest number of tasks that every online node could have |
| Rebalancing.TurnsConserve | internal/cluster/scheduler.go:262-286 | A whole rebalance keeps the total |
| Rebalancing.AlwaysBalancesIff | internal/cluster/scheduler.go:262-286 | A rebalance is sure to leave no online node with more than two tasks above the average, whatever is where, if and only if at most two nodes are online |
| Rebalancing.TwoNodesBalance | internal/cluster/scheduler.go:262-286 | With two online nodes neither ends more than two above the average |
| Rebalancing.LopsidedStaysUnbalanced | internal/cluster/scheduler.go:262-286 | For every number of nodes from three on: a start in which the last node overloads the first again in its own turn |
| ConfigIncludes.LoadSucceedsIff | pkg/config/config.go:435-472 | For every finite disk, cyclic includes or not: loading succeeds if and only if the includes unfold to a finite tree of existing, parsing files that reaches no file twice; the result is then the defaults overridden by the files in post-order |
| ConfigIncludes.LastFileWins | pkg/config/config.go:435-472 | A setting has its value from the last file in that order that sets it, else its default |
| ConfigIncludes.ErrorsFit | pkg/config/config.go:435-472 | An error names a file that fits it: a missing one, one that does not parse, or one that does and is reached again |
| ConfigIncludes.LoadedGivesTree | pkg/config/config.go:435-472 | From any state, a success yields the tree, all its files read for the first time, and the overrides |
| ConfigIncludes.TreeLoads | pkg/config/config.go:435-472 | From any state, such a tree loads |
| ConfigIncludes.Loader.LoadConfigFile | pkg/config/config.go:435-472 | The recursive method refines the specification and terminates: each call marks a file not marked before |
| LabelLru.LabelsAreBounded | internal/api/metrics.go:145-191 | After any sequence of calls: no key twice, at most 256 keys, and every gauge label belongs to a live key |
| LabelLru.LiveIffRecent | internal/api/metrics.go:145-167 | Without forgetting, a key is live if and only if it was recorded and fewer than 256 other keys were recorded since; the keys in front of it are exactly those |
| LabelLru.LiveUntilOvertaken | internal/api/metrics.go:145-181 | With forgetting: a live key was recorded and not forgotten since, and such a key loses its label only to 256 others recorded since |
| LabelLru.TouchRecency | internal/api/metrics.go:145-167 | A touch puts the key in front, keeps the order of the others and drops the 257th |
| LabelLru.GaugeShowsLast | internal/api/metrics.go:145-191 | After any calls a gauge shows a value for a key if and only if it is the last one recorded there for that key, which has been neither forgotten nor evicted since |
| LabelLru.SetKeepsSaneIff | internal/api/metrics.go:183-191 | Setting the gauge, a step of its own after the list lock is released, is right if and only if the key is still live |
| LabelLru.LateSetOrphans | internal/api/metrics.go:172-186 | A forget between touch and set leaves a label of no live key |
| LabelLru.OrphanStays | internal/api/metrics.go:145-191 | No later call about another key takes such a label away |
| LabelLru.Metrics.TouchPerTaskLRU | internal/api/metrics.go:145-167 | List, map and gauges end up as the specification says; list and map hold the same elements |
| LabelLru.Metrics.ForgetPerTask | internal/api/metrics.go:172-181 | Refines the specification, for unknown ids too |
| LabelLru.Metrics.RecordDownloadSpeed | internal/api/metrics.go:183-186 | Refines the specification |
| LabelLru.Metrics.RecordDownloadProgress | internal/api/metrics.go:188-191 | Refines the specification |

## Left out

- HTTP, FTP, S3, SFTP, WebDAV and BitTorrent clients, retries and alternative sources: a request is accepted, refused
  or breaks off, and a worker may give up at the points where its retries can end. The number of retries is not limited;
  in the code it is RetryCount + 1 for each source, and the number of sources has no limit.
- The single-thread download, except for what its fallback does to a later resume, and the resume from a byte count alone.
- Adaptive thread counts, semaphores, speed measurement and the timing of saves: a worker may be throttled, and a save
  may begin, at any time.
- Base64, JSON, YAML and gob: entries hold bytes or are undecodable, files parse to settings or do not.
- Integer widths: sizes, counters and rates are unbounded integers, so overflow of 64-bit values is not modelled.
- Floating point: refilled tokens and the cluster average are the exact quotients cut to integers, without the rounding
  of 64-bit floats.
- Whether a download or a wait ever ends: blocks can leak, and a wait for more than the burst never succeeds.
- The sleep of Wait and its cancellation: a call is its first test and any number of rounds of its loop.
- Lock spans longer than one piece: `TryStealPiece` holds the manager's lock over its whole scan, while the protocol
  lets other workers move between two of its probes.
- The counter of downloaded bytes across a resumed restart, where it is set to the bytes of the restored blocks;
  `ProtocolCounter` is about runs without a restart. It counts bytes of a write that failed halfway, which the code does not.
- The check whether the next block starts where the bytes are uses the block's own start in the protocol instead of the
  index computed from it; `IndexOfBlockStart` says that these are the same.
- Split.SplitFileIntoPieces: its contract requires what makes its divisions defined; `AcceptedSplitCrashesIff` says when
  accepted settings do not meet this.
- PurgeStopped, RemoveStopped, listings and progress notification of the task queue: easy beside the rest.
- `DownloadManager` setting a task's error status before FailTask: this changes a status without the queue's knowledge.
- `filepath.Abs` errors and the resolution of relative include paths.
- Node selection, dispatch, gossip, failover, state sync, plugins, NAT, post-processing, WebSocket and RPC plumbing.
