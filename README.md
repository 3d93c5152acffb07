# Light beacon-chain explorer: synchronizer and slot page, in Dafny

This project models two parts of a beacon-chain explorer written in Go.

**The indexer's synchronizer.** It is a background worker that walks the finalized epochs in order. For each epoch it:

- loads the epoch's duty assignments;
- fetches headers and bodies for the epoch and the one after it (a two-epoch window), keeping them in a slot-keyed block cache;
- loads the validator statistics;
- aggregates the epoch's votes against a target root;
- persists everything and moves the sync cursor, in one database transaction;
- after the commit, deletes the epoch's own slots from the cache.

A high-water mark (`cachedSlot`) records how far the cache has already been filled. Once an epoch's fetch loop has run to its end, the next epoch's step does not request the lookahead slots again. A loop that stops early leaves the mark where it was, so the retry requests again the slots it already cached.

**The slot page handler.** For the page of one slot the model covers:

- how the route parameter is read: a block root in hex, or a decimal slot;
- the headline fields: status, proposer, and the neighbouring slots;
- the block data shown for a slot with a block: counts, one array per operation list, copied index lists, blob previews, and the parts that appear only from a given fork on.

Files:

- `wrappers.dfy`: `Option`.
- `go_ints.dfy`: uint64 wrap-around and the `int64` conversion.
- `beacon_types.dfy`: headers, blocks, blob sidecars, duty assignments.
- `synchronizer.dfy`: the class `Synchronizer`, and the function `SyncEpochSpec` that the method `SyncEpoch` is proved to implement. The lemmas in this file state what an epoch step promises.
- `slot_route.dfy`: route classification, decimal and hex decoding, "0x" removal, and `Headline`.
- `slot_page.dfy`: the block-page builders, which fill arrays in loops, and `BuildBlockPageData`.

Everything outside these functions is an input:

- **Chain node.** Each call answers with a value, nil, or an error (`Rpc`). A body fetch is an `Option`, where None means the request failed.
- **Database.** Each step (begin, persist, cursor write, commit) is a success flag.
- **Kill channel.** Each `checkKillChan` checkpoint is a boolean.
- **Finalized epoch.** The finalized epoch of each loop iteration is a value.
- **Functions passed as parameters.** These are:
  - `GetValidatorName`;
  - `utils.EpochOfSlot`;
  - `SyncCommitteeParticipation`;
  - `aggregateEpochVotes`;
  - `intersect.Simple`.

  `intersect.Simple` is only assumed to return entries of both lists.

The model follows the code also where it behaves differently from what a reader of a two-epoch block cache would expect:

- **Nil assignments.** A nil assignments reply without an error makes `syncEpoch` return `(false, nil)`: it is treated like a kill, not as a retryable error. So runSync does not back off before retrying (`Synchronizer.SyncEpochKilled`).
- **Failed steps leave changes behind.** A failed step is not free of state changes:
  - blocks inserted before a kill, a header error or a body error inside the fetch loop stay in the cache (`Synchronizer.SyncEpochKeepsFetchedBlocks`);
  - such a step leaves the high-water mark where it was, so the retry requests those slots again (`Synchronizer.FailedStepRefetches`);
  - a failure after the fetch loop keeps the raised high-water mark (`Synchronizer.SyncEpochHighWaterMark`).
- **Skipped epochs keep their blocks.** An epoch reported as already synchronized is skipped without eviction. So the lookahead blocks fetched for it by the previous step stay in the cache, below the current epoch's range (`Synchronizer.SkippedEpochKeepsItsBlocks`). The cache therefore does not only hold entries of the current and later epochs.
- **Slot 0 is never fetched.** The high-water mark starts at 0, so slot 0 is never fetched. Slot 0 never enters the cache (`Synchronizer.RunNeverCachesSlotZero`, applied to the state `Synchronizer.Synchronizer.RunSync` starts from).
- **Eviction removes only the entries there are.** The cleanup loop deletes the epoch's cached slots, not a fixed number of entries: with 8 slots per epoch and a single block in the epoch, one entry is removed (`Synchronizer.EpochWithOneBlock`).
- **`isEpochAhead` is true when the worker is behind.** It holds when the worker is running and its cursor is still *below* the given epoch, which is the opposite of what the name suggests (`Synchronizer.Synchronizer.IsEpochAhead`).

## Model

| member | source | states |
|---|---|---|
| GoInts.Inc64 | indexer/synchronizer.go:93 | uint64 `++`: the successor, and 0 after 2^64 - 1 |
| GoInts.Dec64 | handlers/slot.go:111 | uint64 `- 1`: the predecessor, and 2^64 - 1 before 0 |
| GoInts.IncDecInverse | handlers/slot.go:110-111 | next and previous slot undo each other, also across the wrap |
| GoInts.ToInt64 | indexer/synchronizer.go:96 | `int64(u)` lies in the int64 range, agrees with `u` modulo 2^64, and is `u` below 2^63 |
| Synchronizer.FetchFrom | indexer/synchronizer.go:158-182 | the fetch loop as a function: it never removes a cache key, and a loop that stops early has requested at least one slot (where it stopped is `FetchStopsAtFirstUnfetchable`) |
| Synchronizer.FetchRequestsWindow | indexer/synchronizer.go:158-168 | the fetch loop requests headers only for slots of the window above the high-water mark, in strictly increasing order |
| Synchronizer.FetchEntries | indexer/synchronizer.go:158-181 | the loop keeps every cache key; each entry is either old or was inserted for a window slot above the mark, keyed by its slot and carrying the header's root, header and body |
| Synchronizer.FetchCompletesIff | indexer/synchronizer.go:158-182 | the loop runs to its end exactly when no slot it must fetch has a header error, a kill before its body, or a failed body fetch |
| Synchronizer.FetchCompletedContents | indexer/synchronizer.go:158-182 | a loop that completes adds exactly the present blocks (a nil header adds nothing), and requests every slot above the mark, in order |
| Synchronizer.FetchCompletedCache | indexer/synchronizer.go:166-181 | a completed loop's cache is the old cache extended by the reference map `ExpectedBlocks` |
| Synchronizer.FetchCompletedRequests | indexer/synchronizer.go:158-168 | a completed loop requested exactly the slots from max(first, mark + 1) to the last, in order |
| Synchronizer.FetchFailure | indexer/synchronizer.go:162-175 | a header error names some window slot whose header request failed; a body error names one whose header was present, with no kill and a failed body fetch |
| Synchronizer.StopExit | indexer/synchronizer.go:162-175 | the exit the loop takes at one slot: a header error, a kill before the body request, or a body error, and none exactly for a slot it gets through |
| Synchronizer.FetchStopsAtFirstUnfetchable | indexer/synchronizer.go:158-181 | a loop that is killed or fails stops at the last slot it requested, which is the lowest slot above the mark it cannot get through, with the exit that slot's replies give |
| Synchronizer.FetchStopsAt | indexer/synchronizer.go:158-181 | conversely, if a slot is the lowest one above the mark the loop cannot get through, the loop stops there, with the exit that slot's replies give |
| Synchronizer.FetchKilledIff | indexer/synchronizer.go:166-171 | the loop returns the kill exactly when its lowest unfetchable slot has a header and the kill signal is seen before that slot's body request |
| Synchronizer.FetchStoppedCache | indexer/synchronizer.go:162-181 | a loop that is killed or fails stops at the last slot it requested, above the mark, and its cache is the old one extended by the expected blocks of the slots before that one |
| Synchronizer.FirstCachedFrom | indexer/synchronizer.go:207-214 | the first-block search returns, if anything, the entry of a cached slot of the range |
| Synchronizer.FirstCachedIsLowest | indexer/synchronizer.go:207-214 | the first-block search finds nothing exactly when the range holds no key, and otherwise the entry of the lowest cached slot |
| Synchronizer.TargetRoot | indexer/synchronizer.go:216-223 | empty without a block; the block's own root when its header's slot is the epoch's first slot; its parent root otherwise |
| Synchronizer.TargetRootFromLowestBlock | indexer/synchronizer.go:207-223 | the target root is the lowest cached block's own root when it sits in the epoch's first slot, and otherwise its parent root |
| Synchronizer.Evict | indexer/synchronizer.go:249-254 | removes exactly the keys in the range and keeps every other entry unchanged |
| Synchronizer.SyncEpochSpec | indexer/synchronizer.go:137-257 | the epoch step as a function of the old cache state and the inputs; done never carries an error, and a commit is done and raises the mark to the window's last slot |
| Synchronizer.SyncEpochSkipsSynchronized | indexer/synchronizer.go:138-140 | an already synchronized epoch returns (true, nil) with no request and the cache and high-water mark untouched |
| Synchronizer.SyncEpochRequestsWindow | indexer/synchronizer.go:155-168 | the step requests only slots of [e·SPE, e·SPE + 2·SPE - 1] above the mark, in increasing order; a skipped epoch requests none; a step that runs its loop and returns done has requested all of them |
| Synchronizer.SyncEpochHighWaterMark | indexer/synchronizer.go:146-187 | the mark becomes the window's last slot exactly when the fetch loop completed; every earlier return leaves it as it was |
| Synchronizer.SyncEpochCacheEntries | indexer/synchronizer.go:158-181 | every entry after the step is an old one or a fetched one for a window slot above the mark, keyed by its slot; slot 0 never enters a cache that lacked it |
| Synchronizer.SyncEpochEvictsOwnEpochOnly | indexer/synchronizer.go:224-254 | without a commit no key leaves the cache; after a commit the cache is the committed map minus exactly the epoch's own slots, so lookahead entries stay |
| Synchronizer.SyncEpochCommitsIff | indexer/synchronizer.go:137-257 | a transaction is committed exactly when the step reaches the fetch, every slot is fetchable, no kill is seen, the stats are present and all four database steps succeed; done means skipped or committed, and never comes with an error |
| Synchronizer.SyncEpochCommitRecord | indexer/synchronizer.go:189-247 | a commit records the epoch, the cursor value, the old cache plus exactly the fetched blocks, and votes aggregated with the target root of the epoch's lowest cached block |
| Synchronizer.SyncEpochKilled | indexer/synchronizer.go:146-204 | (false, nil) comes back exactly when, in terms of the replies alone, a kill is signalled at a checkpoint the step reaches (after the assignments; before the body of the lowest unfetchable slot; after a loop in which every slot is fetchable; after the stats) or the assignments reply is nil; it never commits and keeps every cache key |
| Synchronizer.SyncEpochFailures | indexer/synchronizer.go:145-247 | an error always comes with not-done and no commit; an assignments error is reported as such; a header or body error names a failing slot and keeps the mark; conversely, at the lowest unfetchable slot a failed header request gives its header error and a failed body request its body error, with that slot requested last and the mark kept; missing stats after a loop in which every slot is fetchable give the stats error |
| Synchronizer.SyncEpochKeepsFetchedBlocks | indexer/synchronizer.go:158-175 | a step whose fetch loop is killed or fails is not done, commits nothing, keeps the mark, and keeps every block inserted before the slot where the loop stopped |
| Synchronizer.FailedStepRefetches | indexer/synchronizer.go:158-183 | 4 slots per epoch, mark 7: epoch 1 caches slot 8, fails on slot 9's header with the mark still 7, and the retry requests slots 8 and 9 |
| Synchronizer.LookaheadIsNotRefetched | indexer/synchronizer.go:155-183 | after epoch e commits, the step for e + 1 requests only slots of epoch e + 2 |
| Synchronizer.SkippedEpochKeepsItsBlocks | indexer/synchronizer.go:137-257 | committing e and then skipping a synchronized e + 1 leaves all of e + 1's fetched blocks in the cache |
| Synchronizer.EpochWithOneBlock | indexer/synchronizer.go:137-257 | epoch 100 with 8 slots per epoch and one block at slot 803: 16 requests, one committed block, the target is its parent root, mark 815, empty cache after eviction |
| Synchronizer.RunFrom | indexer/synchronizer.go:84-106 | the run loop as a function of the iteration inputs: the cursor stays a uint64, at most all inputs are consumed, all of them when the run goes on, and at least one when it stops |
| Synchronizer.RunStopsAtFirstExit | indexer/synchronizer.go:84-106 | a run that stops does so at iteration `count`, after `count - 1` iterations that each went on, and the inputs after it make no difference |
| Synchronizer.RunNeverCachesSlotZero | indexer/synchronizer.go:77-183 | a run that starts without slot 0 in the cache never caches it |
| Synchronizer.Synchronizer.constructor | indexer/synchronizer.go:28-33 | a new synchronizer is stopped, with cursor, mark and cache at their zero values |
| Synchronizer.Synchronizer.IsEpochAhead | indexer/synchronizer.go:35-44 | true exactly when the worker is running and its cursor is below the epoch |
| Synchronizer.Synchronizer.StartSync | indexer/synchronizer.go:57-64 | refuses while still running; otherwise sets the cursor and the running flag, after which `IsEpochAhead(e)` holds exactly for e above the start epoch |
| Synchronizer.Synchronizer.BeginRun | indexer/synchronizer.go:79-80 | a run starts with an empty cache and a zero mark, keeps the worker state valid, and `IsEpochAhead` does not change |
| Synchronizer.Synchronizer.FetchWindow | indexer/synchronizer.go:156-182 | the fetch loop leaves the cache, the request list and the exit that `FetchFrom` describes |
| Synchronizer.Synchronizer.FindFirstBlock | indexer/synchronizer.go:207-214 | returns the entry of the lowest cached slot of the epoch, or none when no slot is cached |
| Synchronizer.Synchronizer.EvictEpoch | indexer/synchronizer.go:249-254 | deletes exactly the cache entries of the epoch's own slots |
| Synchronizer.Synchronizer.SyncEpoch | indexer/synchronizer.go:137-257 | the returned (done, err), the commit, the requests, the new mark and the new cache are those of `SyncEpochSpec` |
| Synchronizer.Synchronizer.RunIteration | indexer/synchronizer.go:84-108 | runs the step for the cursor; on done the cursor advances (uint64 increment) and the run completes when its int64 value passes the finalized epoch; otherwise the cursor stays; a kill in the cooldown aborts (`IterationExit`); the worker stays running exactly when the loop goes on |
| Synchronizer.Synchronizer.RunSync | indexer/synchronizer.go:69-117 | over finite iteration inputs: the exit, the number of iterations, the final cursor, mark and cache are exactly those of `RunFrom` from the old cursor with the reset state (mark 0, empty cache); `running` stays set exactly while the run goes on |
| SlotRoute.ParseInt64 | handlers/slot.go:48 | a decimal parse succeeds only within the int64 range |
| SlotRoute.ParseDecimal | handlers/slot.go:48 | the decimal form of any int64-range number parses back to it |
| SlotRoute.HexDecode | handlers/slot.go:45 | decoding succeeds exactly on an even number of hex digits, giving half as many bytes |
| SlotRoute.HexRoundTrip | handlers/slot.go:45 | decoding the lower-case hex of a byte string gives it back |
| SlotRoute.Strip0x | handlers/slot.go:43 | removing "0x" never lengthens the text and adds no character |
| SlotRoute.Strip0xKeepsPlainText | handlers/slot.go:43 | removing "0x" leaves text without an 'x' unchanged |
| SlotRoute.Strip0xPrefix | handlers/slot.go:43 | a leading "0x" before such text is dropped and nothing else changes |
| SlotRoute.Strip0xSinglePass | handlers/slot.go:43 | removal is one left-to-right pass: "00xx" becomes "0x" |
| SlotRoute.ClassifyRoute | handlers/slot.go:43-56 | a parameter that is 64 hex digits after removing "0x" is a lookup of its 32 decoded bytes with slot -1; otherwise the raw parameter is parsed as a decimal, and a failed parse or a value of 2^31 or more is not found; any other value is a lookup of that slot with an empty root |
| SlotRoute.RootRoute | handlers/slot.go:43-47 | a 32-byte root written in hex, with or without "0x", is looked up by that root |
| SlotRoute.SlotRoute | handlers/slot.go:43-56 | a slot below 2^31 written in decimal is looked up by that slot |
| SlotRoute.LargeSlotNotFound | handlers/slot.go:48-49 | a decimal slot from 2^31 up to the int64 limit is not found |
| SlotRoute.PrefixedSlotNotFound | handlers/slot.go:43-49 | a decimal slot written with "0x" is not found, since the parse reads the unstripped parameter |
| SlotRoute.Headline | handlers/slot.go:105-135 | the slot, its epoch, finality iff the finalized head is at or past the slot, next and previous slot as uint64 neighbours, Missed iff no block, Orphaned iff an orphaned block, and the proposer from the block, else from the proposer duties (0 for a missing duty, 0 and no name without duties) |
| SlotPage.CommitteeKey | handlers/slot.go:173 | the committee key is the slot's decimal digits, a dash, and the committee index's decimal digits |
| SlotPage.Committee | handlers/slot.go:171-176 | the committee's validators are the schedule's list for its key, and empty for a key the schedule lacks or when no schedule was loaded |
| SlotPage.CommitteeKeyInjective | handlers/slot.go:173 | different (slot, committee index) pairs have different "<slot>-<index>" keys |
| SlotPage.ValidatorViews | handlers/slot.go:181-194 | the validator array has one entry per assigned index, in order, with its name |
| SlotPage.AttestationViews | handlers/slot.go:168-196 | one view per attestation with its data copied; its validators follow its committee's list, which is empty for a missing key or missing duties |
| SlotPage.DepositViews | handlers/slot.go:198-207 | one view per deposit, in order, with the deposit data copied |
| SlotPage.VoluntaryExitViews | handlers/slot.go:209-218 | one view per voluntary exit, in order, with the validator named |
| SlotPage.CopyIndices | handlers/slot.go:245-250 | the index list copied element by element |
| SlotPage.SlashedAttestation | handlers/slot.go:223-241 | a slashing's attestation with its indices copied and its data fields taken over |
| SlotPage.AttesterSlashingViewOf | handlers/slot.go:222-258 | both index lists copied; the slashed validators are the intersection's entries in order, each named and each in both lists |
| SlotPage.AttesterSlashingViews | handlers/slot.go:220-259 | one view per attester slashing, in order: both attestations with their indices and data, and as slashed validators the intersection's entries, in order and named, each in both index lists |
| SlotPage.ProposerSlashingViews | handlers/slot.go:261-278 | one view per proposer slashing, the proposer taken from the first header |
| SlotPage.BlsChangeViews | handlers/slot.go:316-326 | one view per BLS-to-execution change, in order, with the validator named |
| SlotPage.WithdrawalViews | handlers/slot.go:328-339 | one view per withdrawal, in order, with the validator named |
| SlotPage.BlobViews | handlers/slot.go:342-361 | one view per blob sidecar; its preview is a prefix of at most 512 bytes, the whole blob iff it has at most 512 bytes, and marked short iff the blob is longer |
| SlotPage.BlobPreviewUnique | handlers/slot.go:353-358 | the preview conditions determine the preview and the short flag |
| SlotPage.BuildBlockPageData | handlers/slot.go:149-364 | the page is `IsBlockPage` of the block: header and body fields copied; each count equals its body list's length and its array's length; the slashings count is the sum of both kinds; every attestation, deposit, exit, attester slashing (with the intersection's validators, named) and proposer slashing shown as its builder shows it; the sync aggregate, all execution fields, the BLS changes and withdrawals, and the blobs present exactly from the Altair, Bellatrix, Capella and Deneb epochs on (blobs only with sidecars loaded), shown element by element, with counts of 0 while absent; every slashed validator is in both attestations |
| SlotPage.BuildSlotPage | handlers/slot.go:102-139 | for the slot taken from the found block's header, the page carries the headline, and block data exactly when a block was found, which is then `IsBlockPage` of that block |

## Left out

- Goroutines, the two mutexes, the kill channel handshake, `recover` and the unlocked `running = false` write: these are concurrency, and each kill check is a boolean input instead.
- Synchronizer.Synchronizer.StartSync: models only the part after the previous worker has stopped. The kill sent to it and the wait on the run mutex are left out (concurrency).
- Time: the 10-second backoff, the cooldown wait, `SlotToTime` and `time.Unix`, which are wall-clock effects. The backoff has no observable effect in the model.
- Remote and database calls: each is an input (chain-node replies, `IsEpochSynchronized`, begin / persist / cursor write / commit results, the finalized head).
- A body reply that is nil with no error, which would make the Go code panic: a body reply is either a block or a failed request.
- `aggregateEpochVotes`, `loadValidatorStats`, `utils.EpochOfSlot`, `SyncCommitteeParticipation`, `GetValidatorName` and `intersect.Simple`: these are defined outside the modelled files, so each is a parameter whose content is not modelled.
- Synchronizer.Synchronizer.RunSync: the worker's loop is unbounded in Go. Here it runs over a finite list of per-iteration inputs, and stops with `Continue` when the list runs out.
- Synchronizer.Synchronizer.SyncEpoch: `syncEpoch * SlotsPerEpoch` and the window arithmetic are unbounded. The Go code computes them in uint64. There `lastSlot` (`firstSlot + 2·SlotsPerEpoch - 1`) already overflows from epoch 2^64 / SlotsPerEpoch - 1 on. At epoch 2^64 / SlotsPerEpoch - 2, `lastSlot` is 2^64 - 1, so `slot <= lastSlot` always holds and the fetch loop never ends by its condition. The model treats these epochs as ordinary ones.
- The handler's lookup of the block by slot or root, the orphaned-block fallback and the choice of the not-found or error page (handlers/slot.go:58-103): service calls and template plumbing. `BuildSlotPage` takes the resolved block as input, and the slot as the one in that block's header when a block was found.
- HTTP, templates and logging.
- The content of the vote tally and the validator statistics: both are opaque values passed through.

