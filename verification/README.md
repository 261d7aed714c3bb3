# Verified model of the media caching proxy

The system is a local HTTP proxy for media players. It answers byte-range requests from a
sparse file cache, from the network, or from both stitched together, and it can feed itself
from a BitTorrent-like swarm. This project models its core in Dafny and proves what that core
is for. Whatever fails, races or is evicted, what a client gets from an honest upstream is the
origin's bytes, except in two situations: a write recreates a data file that something still
promises, or a file is unlinked between the moment a read trusts its metadata and the moment
it opens the file. `Proxy.ProxyServesOrigin` is that theorem. Both exceptions can occur; see
"Where the code falls short of the property". The other side of it is in `Answers`, which says
what each request is answered with, and in `Durability`, which says that what was written is
read back until it is deleted, also after restarts.

`dafny verify dfyconfig.toml` checks everything.

## How the model is built

* What the operating system, the network, the clock and the scheduler decide is an argument:
  which open, seek, write, sync, commit, read, unlink or scan fails, what a torn write leaves
  behind, which index entry is evicted, what each connection answers, in which order steps
  interleave. The theorems hold for all of them; the calls whose failure is not modelled are
  named under "Left out".
* Objects that the program updates in place are classes (`DiskStorage`, `StorageManager`,
  `VerifiedPieceCache`, `Scheduler`, `DhtRoutingTable`, `BencodeParser`). Each method is proved
  equal to a function on the object's value, and the theorems are about those functions.
* Concurrent code is a state machine whose steps are the critical sections of the program, or in
  the disk engine the stretches between two awaits. A step that is not enabled leaves the state
  alone, so a run is any sequence of steps. `DiskEngine` makes each engine operation one step and
  `EngineRaces` takes it apart; `RaceRefinement` proves that an operation nobody interrupts is the
  same in both.
* `origin` and `content` are the true bytes of a resource. An upstream is honest when the bytes
  of an accepted reply are the ones its own headers say they are; replies that are refused may
  carry anything. Nothing is assumed of the hash functions except
  `PieceManifest.Authorises`, which says that a matching digest stands for the authorised bytes.
* Machine integers are unbounded in the proofs, with the 64-bit limits, saturating additions and
  checked additions of the program written out.

| files | source |
|---|---|
| `IntervalTable`, `DiskEngine`, `WriteAccounting`, `WriteContract`, `DiskCoherence`, `IndexTransparency`, `DiskStorageImpl`, `HonestRuns`, `Durability`, `FailingRuns` | `src/storage/disk.rs` |
| `EngineRaces`, `RaceRefinement`, `RaceReads`, `RaceTotals`, `IndexRaces`, `FailingRaces` | `src/storage/disk.rs`, between awaits |
| `Bookkeeping`, `ManagerRuns` | `src/storage/manager.rs` |
| `Ranges`, `RangeText`, `Decimal` | `src/utils/range.rs` |
| `NetSource`, `NetworkRoute` | `src/data_source/net_source.rs` |
| `Serving`, `Answers`, `Tee`, `SingleFlight`, `Proxy` | `src/data_source_manager.rs`, `src/handlers/` |
| `PieceCache`, `PieceFetch`, `SourceLifecycle`, `PieceManifest` | `src/p2p.rs` |
| `PieceScheduler`, `Swarm`, `DhtRouting`, `PeerWire`, `Bencode` | `src/p2p_network.rs` |

## Where the code falls short of the property

Eight properties one would expect do not hold as they stand. The model keeps the code as it is,
shows a concrete failing run, and proves exactly when the property does hold; only for the
second is the condition sufficient and not also necessary.

1. **Cache coherence.** `delete` that unlinks the data file and then fails on the sidecar leaves
   the sidecar's promises behind. The next write makes the sidecar valid again, and holes are
   served as content (`HalfDeleteServesHoles`). A crash in the same place has the same effect if
   the start-up scan does not reach the pair or cannot unlink its sidecar, since the scan ignores
   such errors (`HalfRestartServesHoles`); otherwise the scan mends it (`CleanScanMends`). A run is
   coherent throughout iff no delete or restart loses the data file of a sidecar with promises
   and keeps the sidecar (`RunCoherent`). Three races do the same without any failing call. A
   query takes no lock between loading a sidecar and inserting it into the index, so it can put a
   deleted one back (`LateQueryServesHoles`). The background scan can unlink a pair that a first
   write has filled since the scan looked at it (`LateScanServesHoles`). It can also unlink the
   file while that write still streams, and the write then records the lost bytes
   (`ScanInWriteServesHoles`). Over all interleavings every promise about an existing file stays
   true iff no write creates a data file anew while an old promise about it survives in a sidecar,
   the index, a query or an update (`RacesCoherent`).
2. **A file that was checked is the file that is read.** `read` checks the range, then opens the
   file, and holds no lock. A delete and a write in between replace the file, and a hole is read as
   content although the cache is coherent in both states (`ReplacedFileServesHoles`). A read gets
   the origin's bytes, whatever else happens in between, if the file is not unlinked
   (`RacingReadIsOrigin`).
3. **Transparent index.** The metadata index and a fresh load disagree once an indexed total is
   below the length of the data file, as after recording a smaller total (`LowTotalIsVisible`).
   They agree throughout a run of whole operations iff that never happens (`IndexTransparent`).
   When operations interleave, a query can put metadata from before a write back into the index,
   and the next metadata update commits it, so that the written range is forgotten
   (`LostUpdateForgetsWrite`). Index and sidecars stay equal iff no query or update brings in
   outdated metadata and no sidecar of an indexed key is unlinked (`IndexFollows`).
4. **Complete network bodies.** A reconnect that is answered with a shorter range than the first
   reply announced is accepted, and the body then ends early without an error
   (`ShortResumeEndsEarly`). An error-free body is the announced span iff the last connection
   announced the same end as the first (`NetworkRouteExact`).
5. **Cleanup spares what was just accessed.** `write` returns early when the engine fails,
   although the engine may have recorded a prefix, so such a write does not protect the entry
   (`FailedWriteIsNotProtected`). A read does not protect it either if the system clock gives it
   the stamp of the access before (`RepeatedStampIsNotProtected`). An entry is spared iff it was
   read or successfully rewritten and the last such access changed its stamp
   (`CleanupSparesAccessed`).
6. **Cleanup does not empty the cache for others' files.** When the external cache alone exceeds
   the byte budget, nothing is evicted while the file count is in bounds. Once it is not, every
   entry is evicted and not only the surplus ones: with two files and a limit of one, both go
   (`SurplusFileEvictsAll`). `ExternalOverflow` says for all inputs which of the two happens.
7. **One provider fetch per eviction.** A disk error after a successful fetch loses the piece, so
   it is fetched again without an eviction (`DiskErrorRefetches`). In every reachable state a
   fetched piece can be fetched again without an eviction iff the disk step of the first fetch
   fails (`RefetchIffDiskFails`).
8. **A removed source is quiet.** A second `remove` of the same id finds nothing and returns false
   at once, while the first still waits for a provider call (`SecondRemoverReturnsEarly`). A
   `remove` that returns true always leaves the source quiet (`RemovedIsQuiet`); one that returns
   false does so iff the id was handed out before and no other removal of it still waits for a
   lease (`RemoveOfMissing`).

## Model

| member | source | states |
|---|---|---|
| IntervalTable.MergeIsUnion | src/storage/disk.rs:256-276 | On a canonical table `merge_range` keeps the form (sorted, disjoint, never adjacent) and adds exactly the offsets of the interval, up to the 64-bit limit |
| IntervalTable.CanonicalUnique | src/storage/disk.rs:256-276 | Two canonical tables that promise the same offsets are the same table |
| IntervalTable.MergeAllCovers | src/storage/disk.rs:182-188 | After any history of recorded intervals the table is canonical and promises exactly their union |
| IntervalTable.HistoryIndependent | src/storage/disk.rs:182-188 | Two histories give the same table iff they recorded the same offsets, whatever their order, grouping or repetition |
| IntervalTable.OneIntervalSuffices | src/storage/disk.rs:568-575 | The one-interval test of `check_range` holds iff every single requested offset is promised |
| IntervalTable.TableFits | src/storage/disk.rs:730-757 | The validation loop accepts exactly the canonical tables that lie inside the file |
| WriteAccounting.DrainStops | src/storage/disk.rs:333-385 | The write loop takes a whole-chunk prefix within the limit, and its stop reason says exactly why the next item was not taken: end, upstream error, counter overflow, overrun or disk error |
| WriteAccounting.DrainIsLongest | src/storage/disk.rs:333-385 | While the disk works, no longer error-free prefix fits the limit the loop is given |
| WriteAccounting.WriteShape | src/storage/disk.rs:281-442 | Whatever fails, a write changes nothing, or one data file as a torn write may, or that and then records a prefix that is wholly in the file |
| WriteAccounting.RecordAdds | src/storage/disk.rs:141-188 | Recording an interval adds exactly its offsets to the key's sidecar and changes no data file and no other sidecar |
| WriteAccounting.ClaimedWrite | src/storage/disk.rs:281-442 | A write whose prefix is exact, synced and committed adds exactly the offsets of that prefix, also when it then reports an error |
| WriteAccounting.UnclaimedWrite | src/storage/disk.rs:387-441 | Any other write leaves every sidecar and every other key's file as they were |
| WriteContract.LimitIsRange | src/storage/disk.rs:291-295 | A backward range is refused as invalid; any other limits the write to exactly the bytes of `start..=end` |
| WriteContract.WriteStaysInRange | src/storage/disk.rs:281-442 | Whatever fails, a write to a closed range neither grows the file past its end nor changes or records a byte outside it, and touches no other key |
| WriteContract.WriteAnswer | src/storage/disk.rs:291-441 | A write reports success iff the range is ordered, the whole stream is error-free and inside it and no call fails, and then it reports the stream's length |
| WriteContract.SmoothWrite | src/storage/disk.rs:281-442 | When no call fails, the file and the table gain exactly the longest error-free prefix of whole chunks that fits `start..=end`, and the answer is its length or the reason why it ends there |
| WriteContract.LongestExists | src/storage/disk.rs:333-385 | There always is such a longest prefix |
| DiskCoherence.WriteKeeps | src/storage/disk.rs:281-442 | A faithful write, torn or whole, synced or not, keeps every promise true |
| DiskCoherence.RestartKeeps | src/storage/disk.rs:649-763 | Whatever the crash cut in half and whatever fails in the start-up scan, a restart leaves only true promises iff no pair with promises loses its data file alone |
| DiskCoherence.CleanScanMends | src/storage/disk.rs:649-763 | A scan that reaches every pair and can unlink sidecars mends a delete that a crash cut in half |
| DiskCoherence.DeleteKeepsUnlessHalf | src/storage/disk.rs:624-640 | A delete keeps coherence iff it does not lose the data file of a sidecar that still promises something |
| DiskCoherence.StepKeeps | src/storage/disk.rs:141-213 | Every faithful operation keeps coherence iff it does not remove the data file of a sidecar with promises and leave the sidecar |
| DiskCoherence.RunCoherent | src/storage/disk.rs:281-763 | Over every run of writes, failures, evictions, deletes, crashes and imperfect scans, no sidecar ever promises a byte its file does not hold, iff no delete or restart leaves a stale sidecar |
| EngineRaces.MoveKeeps | src/storage/disk.rs:113-763 | Every step between two awaits of a query, update, write, delete or scan, with any call failing, keeps all promises about existing files true iff it is not a write that creates a data file anew while an old promise about it survives |
| EngineRaces.MoveRuns | src/storage/disk.rs:281-442 | Every step keeps open writes faithful and lets an update record only what its own synced write holds |
| EngineRaces.RacesCoherent | src/storage/disk.rs:113-763 | Over every interleaving of these steps no sidecar, index entry, query, update or write ever promises a byte that an existing file does not hold, iff no write recreates a file that is still promised |
| RaceRefinement.QueryUninterrupted | src/storage/disk.rs:113-127 | The steps of a query that nobody interrupts make the one-step query |
| RaceRefinement.MetaUninterrupted | src/storage/disk.rs:141-168 | The same for a metadata update |
| RaceRefinement.WriteUninterrupted | src/storage/disk.rs:281-442 | The same for a write: open, stream, sync, record, commit and index give the one-step write, with legal bytes on disk throughout |
| RaceRefinement.DeleteUninterrupted | src/storage/disk.rs:624-640 | The same for a delete, wherever it stops |
| RaceRefinement.LocksExclude | src/storage/disk.rs:141-640 | What each lock excludes: a delete starts iff the key is neither written nor updated, a write iff neither written nor deleted, an update iff neither updated nor deleted |
| RaceRefinement.StreamReaches | src/storage/disk.rs:359-385 | Streamed bytes reach the file as long as it is at its path |
| RaceRefinement.ScanUnlinks | src/storage/disk.rs:649-763 | The scan dooms exactly the pairs it cannot read or does not believe, and its unlinks leave neither file of such a pair |
| RaceReads.FileStays | src/storage/disk.rs:281-442 | As long as a data file is not unlinked, no interleaving shortens it or spoils a byte that was right |
| RaceReads.RacingReadIsOrigin | src/storage/disk.rs:444-539 | A read whose file is not unlinked between its look at the metadata and its open gets the origin's bytes, whatever happens in between |
| RaceTotals.MoveKeepsTotals | src/storage/disk.rs:141-168 | No interleaving makes a recorded total false, or one on its way to be recorded |
| IndexRaces.MoveMatches | src/storage/disk.rs:113-168 | A step keeps index and sidecars equal, up to updates on their way to the index, iff it brings no outdated metadata into the index and unlinks no indexed key's sidecar |
| IndexRaces.IndexFollows | src/storage/disk.rs:113-168 | The same over every interleaving, in both directions |
| FailingRaces.LateQueryServesHoles | src/storage/disk.rs:113-127 | A query that overlaps a delete puts the deleted sidecar back into the index, and the next write serves a hole; no call fails |
| FailingRaces.LateScanServesHoles | src/storage/disk.rs:693-718 | The scan unlinks a pair that a first write has filled since, the index goes on promising it, and the next write serves a hole; no call fails |
| FailingRaces.ScanInWriteServesHoles | src/storage/disk.rs:359-411 | The scan unlinks the file under a streaming first write, the write records the lost bytes, and the next write serves a hole; no call fails |
| FailingRaces.LostUpdateForgetsWrite | src/storage/disk.rs:113-168 | A query that overlaps a write, and a metadata update after it, take the written range out of the sidecar; the bytes are on disk and no call fails |
| FailingRuns.HalfDeleteServesHoles | src/storage/disk.rs:624-640 | Three operations from the empty cache after which a cached range is served as zeros |
| FailingRuns.HalfRestartServesHoles | src/storage/disk.rs:759-763 | The same through a crash in `delete` and any scan that misses the pair or cannot unlink its sidecar |
| FailingRuns.ReplacedFileServesHoles | src/storage/disk.rs:444-539 | A delete and a write between a read's check and its open make it stream a hole, from two coherent states |
| DiskCoherence.ReadAcrossIsOrigin | src/storage/disk.rs:444-539 | A read that looks at the metadata in one state and opens the file in another serves exactly the origin's bytes iff the range was promised and the file is there, provided a promised file was not replaced |
| DiskCoherence.CachedReadIsOrigin | src/storage/disk.rs:444-586 | `check_range` accepts a closed range iff `read` serves it, and then the bytes read are the origin's |
| DiskCoherence.CheckRangeMeaning | src/storage/disk.rs:547-586 | In a coherent cache a closed range is accepted iff every offset of it is promised |
| DiskCoherence.OpenReadIsOrigin | src/storage/disk.rs:444-539 | An accepted open range runs to the last byte of the file and is the origin there |
| IndexTransparency.SameIffFits | src/storage/disk.rs:113-135 | The index answers every query as a fresh load would iff no indexed total is below the file length |
| IndexTransparency.StepOk | src/storage/disk.rs:141-180 | Every operation keeps index entries equal to their sidecars and inside their files |
| IndexTransparency.StepSame | src/storage/disk.rs:113-180 | An operation on the indexed engine and on a reloading one has the same effect on disk and the same reply |
| IndexTransparency.IndexTransparent | src/storage/disk.rs:113-180 | Along every run, with any eviction policy, the indexed and the reloading engine never answer differently iff indexed totals never drop below the file length |
| IndexTransparency.IndexRemembers | src/storage/disk.rs:170-180 | An insertion leaves its key indexed and loses nothing but the entry chosen for eviction |
| IndexTransparency.IndexBounded | src/storage/disk.rs:170-180 | The index never outgrows 4096 keys |
| IndexTransparency.TouchRemembers | src/storage/disk.rs:113-127 | After a query a key is indexed iff it was already or its sidecar is valid |
| IndexTransparency.AnswersFollowView | src/storage/disk.rs:547-586 | Agreeing metadata means agreeing `check_range` and `read` |
| FailingRuns.LowTotalIsVisible | src/storage/disk.rs:730-757 | A legal run from the empty cache along which the index and a fresh load part: the index accepts a range that the load refuses |
| DiskStorageImpl.DiskStorage.constructor | src/storage/disk.rs:80-91 | A new engine starts from what is on disk with an empty index |
| DiskStorageImpl.DiskStorage.LoadMetadata | src/storage/disk.rs:130-135 | Loading returns the sidecar iff it is valid for its key and file |
| DiskStorageImpl.DiskStorage.WithMetadata | src/storage/disk.rs:113-127 | A query returns the current metadata, and remembering it does not change what the next query sees |
| DiskStorageImpl.DiskStorage.Update | src/storage/disk.rs:141-168 | Read, edit, commit, then index: a failed commit changes nothing |
| DiskStorageImpl.DiskStorage.DrainLoop | src/storage/disk.rs:333-385 | The loop computes the prefix and the stop reason of `DrainStops` |
| DiskStorageImpl.DiskStorage.Write | src/storage/disk.rs:281-442 | The streaming write leaves the disk, the index and the answer that the run theorems are about; a success is the whole stream inside the range, and nothing outside a closed range changes or is recorded |
| DiskStorageImpl.DiskStorage.Check | src/storage/disk.rs:547-586 | Closed ranges, known totals and unknown totals are tested as `CheckRange` says, and only the index may change |
| DiskStorageImpl.DiskStorage.Read | src/storage/disk.rs:444-539 | A read that nothing interrupts succeeds iff the range is accepted and the file opens; it then streams the accepted span, however it is chunked and wherever an error cuts it short, and changes nothing on disk |
| DiskStorageImpl.DiskStorage.OpenAndRead | src/storage/disk.rs:467-539 | The second half of a read, in whatever state it meets: it streams the requested span of the file that is there then, or fails |
| DiskStorageImpl.DiskStorage.ReadLoop | src/storage/disk.rs:444-539 | Sequential reads of any length yield a prefix of the span, with an error exactly if it is not all of it: after a failed read, at a truncated end, or with a zero chunk size |
| DiskStorageImpl.DiskStorage.Remove | src/storage/disk.rs:624-640 | Index, data file and sidecar go in that order and a failing unlink stops the delete |
| DiskStorageImpl.DiskStorage.Enumerate | src/storage/disk.rs:649-763 | The scan discards exactly the invalid or unreadable pairs it reaches, as far as the unlinks work, and lists every kept key once with its file length |
| HonestRuns.HonestRunsAreGood | src/storage/disk.rs:281-640 | In every state an honest run reaches without leaving a stale sidecar, coherence, true totals and a transparent index hold together for every key |
| HonestRuns.EmptyIsGood | src/storage/disk.rs:80-91 | The empty cache satisfies that invariant, so the run theorem applies to it |
| Durability.LoadMeaning | src/storage/disk.rs:730-757 | A sidecar is believed iff its version is known, it was written for the key, its total is not below the file length, its table is canonical and everything it promises lies in the file |
| Durability.MetaStored | src/storage/disk.rs:588-612 | A recorded total or content type replaces the older one and is in the sidecar; an absent one or a zero total changes nothing, and neither touches the table |
| Durability.OpenRangeMeaning | src/storage/disk.rs:547-586 | An open range is accepted iff every offset from its start to the end of the resource is promised, or to the end of the file when no total is known |
| Durability.StepRemembers | src/storage/disk.rs:113-763 | No honest operation takes back a promise, except a delete of the key and a scan that cannot read it |
| Durability.CachedStaysCached | src/storage/disk.rs:113-763 | A cached range stays cached through every honest run of writes, failures, evictions, crashes and restarts that does not delete it |
| Durability.WrittenIsCached | src/storage/disk.rs:281-442 | A write that fills its range without a failing call makes it cached |
| Durability.WrittenIsReadBack | src/storage/disk.rs:281-763 | What was written whole is read back as the origin's bytes after any such run |
| Durability.DeleteForgets | src/storage/disk.rs:624-640 | A delete unindexes the key and removes its files as far as the unlinks work; a whole one leaves nothing cached, and other keys keep their files and answers |
| RangeText.FormatParses | src/utils/range.rs:114-120 | What `format_range` prints is parsed back as the same pair, also at the open-ended sentinel |
| RangeText.ParsesExactly | src/utils/range.rs:41-94 | The parser accepts exactly the texts of a grammar stated without it (prefix, padded decimal tokens around one dash) and reads exactly their meaning |
| RangeText.RefusalKinds | src/utils/range.rs:41-94 | Of the refused texts, several ranges and a suffix of no bytes are unsatisfiable; any other is a malformed request |
| RangeText.NormaliseDenotes | src/utils/range.rs:41-150 | A text of the grammar resolves to exactly the bytes it denotes in the resource, and is refused as unsatisfiable iff it denotes none |
| RangeText.SpecOrdered | src/utils/range.rs:41-94 | A parsed range is ordered and a parsed suffix is not empty |
| RangeText.SpacesAre | src/utils/range.rs:41-94 | The characters trimmed around a token are the white space of Unicode |
| RangeText.LengthsDoNotOverflow | src/utils/range.rs:132-180 | After resolving, no length overflows, and clamping cuts exactly what the upstream will not send |
| Decimal.ParsePrint | src/utils/range.rs:41-94 | Decimal printing and parsing are inverse up to the type's maximum, and larger numbers are refused |
| Decimal.ParsesDigits | src/utils/range.rs:41-94 | Exactly an optional plus sign and decimal digits up to the maximum are read as a number |
| Decimal.ValueIsPositional | src/utils/range.rs:41-94 | Digits count by position, in tens |
| Decimal.DigitValues | src/utils/range.rs:41-94 | What each digit is worth |
| NetSource.AcceptedIsAligned | src/data_source/net_source.rs:292-356 | A reply of an honest server that passes the checks carries the requested offset and stays inside a closed request |
| NetSource.AcceptedAnswers | src/data_source/net_source.rs:292-356 | Accepted are exactly a 206 whose range starts at the requested byte, ends inside the request and has the declared length, and any other 2xx to a request for everything; a 416 is an invalid range, a 401 or 403 expired credentials |
| NetSource.DownloadStream | src/data_source/net_source.rs:103-152 | At most three attempts; the result is the first acceptable reply or the error that ended it, a refused range or credential ends it at once, and nothing else does |
| NetSource.AdvanceMeaning | src/data_source/net_source.rs:158-290 | The byte counter advances exactly while it stays in 64 bits and in a closed range; anything more is a network error |
| NetSource.WrapWithRetry | src/data_source/net_source.rs:158-290 | However connections break, each reconnect asks for the first byte not yet delivered, reconnects are bounded, the bytes delivered are the origin's, and nothing the connections supplied is lost or repeated |
| NetSource.ItemsCarryReceived | src/data_source/net_source.rs:158-290 | The consumer sees exactly the delivered bytes, and an error iff the download failed |
| NetworkRoute.SuppliedEnd | src/data_source/net_source.rs:359-451 | The bytes of all connections together stay inside content and range, and a clean end is the end the last connection announced |
| NetworkRoute.AnnouncedSpan | src/data_source_manager.rs:329-379 | The response announces exactly the span of the first reply; it is refused iff the request is open-ended and the reply names no total |
| NetworkRoute.NetworkRouteExact | src/data_source_manager.rs:329-379 | An error-free network body has the announced length iff the last connection announced the same end as the first |
| NetworkRoute.ShortResumeEndsEarly | src/data_source/net_source.rs:389-451 | A four-byte response that is answered with three bytes and no error |
| Tee.ForwardUpstream | src/handlers/tee.rs:127-195 | Client and cache each receive exactly what they would have received alone, so neither can cut short or alter what the other gets |
| Tee.OpenClientSeesAll | src/handlers/tee.rs:127-163 | A client that stays open gets every item up to and including the first error, whatever the cache side does |
| Tee.KeepingUpSeesAll | src/handlers/tee.rs:165-195 | A cache writer whose channel frees up within the grace period gets every item too |
| Tee.RefusedItemEndsShare | src/handlers/tee.rs:165-195 | A closed or stuck channel ends the cache's share before that item |
| Tee.SeenIsFaithful | src/handlers/tee.rs:169-195 | On every schedule the cache writer is given a prefix that is faithful when the upstream is |
| Serving.TakeBytesExact | src/handlers/mixed_source.rs:204-239 | `take_bytes` passes exactly the first bytes up to its limit, and errs iff there were fewer |
| Serving.MixedStreamExact | src/handlers/mixed_source.rs:187-200 | The stitched stream is contiguous origin bytes across the seam, complete iff it ends without an error, and nothing either part gives is lost, also when reading the cached part fails midway |
| Serving.MixedGuardNeverFires | src/handlers/mixed_source.rs:49-170 | The handler's argument check cannot fail on a plan made from a resolved range |
| Serving.MixedArgumentsChecked | src/handlers/mixed_source.rs:49-75 | The handler refuses anything but a closed range with a seam inside it |
| Serving.CacheRouteExact | src/data_source_manager.rs:254-277 | A response from the cache announces exactly the resolved span and carries it, or ends in an error, even if the cache changed between check, look and open, provided the file was not replaced between look and open |
| Serving.StitchExact | src/handlers/mixed_source.rs:49-170 | A stitched response announces a span inside the request and carries exactly it, or ends in an error; its read is a look and an open as above |
| Serving.MixedRouteExact | src/data_source_manager.rs:280-322 | Both outcomes of the mixed route are exact |
| Serving.NetworkRouteContiguous | src/data_source_manager.rs:329-379 | A network response carries origin bytes contiguous from the requested start |
| Serving.EveryRouteServesOrigin | src/data_source_manager.rs:88-140 | Whichever route answers, leader or follower, however the cache changed between any two calls and wherever reads fail, the body is the origin's bytes from the requested start, provided no promised file was replaced between look and open |
| Serving.CachedIsServedOffline | src/data_source_manager.rs:254-277 | A range that is cached is answered from the cache, whatever the network does: iff its file opens, and with the whole range iff reading it does not fail |
| Serving.PartlyCachedIsStitched | src/data_source_manager.rs:420-432 | A cached proper prefix and a successful fetch of the rest give a stitched response with the clamped end |
| Serving.HonestFetchIsFaithful | src/handlers/network.rs:56-90 | A resumable download from an honest server is what the routes assume of a fetch: faithful bytes and a true total |
| Serving.FetchedTotal | src/handlers/network.rs:56-90 | The total is the one Content-Range names, else the length of a plain 200, and zero is unknown |
| Serving.TeeWritesFaithfully | src/handlers/tee.rs:127-195 | What the tee hands the cache writer is what the coherence theorem assumes of a write |
| Serving.RoutesAgree | src/data_source_manager.rs:88-140 | Two answers to the same request, served at different times by any routes, never disagree: one body is a prefix of the other, and complete ones for the same span are equal |
| Answers.UncachedIsFetched | src/data_source_manager.rs:88-140 | A request the cache cannot help with is answered from the network, by a leader at once and by a follower after its second attempt: from the requested start to the last byte requested, existing and announced, with the whole fetched payload; a failed fetch is reported as such |
| Answers.CachedIsAnswered | src/data_source_manager.rs:254-322 | A range found cached, at the first look or once the file reaches beyond it, is answered whole from the cache with the true total |
| Answers.FollowerIsAnswered | src/data_source_manager.rs:88-140 | A follower that finds the range cached after its wait is answered from the cache |
| Answers.PartlyCachedIsAnswered | src/data_source_manager.rs:280-322 | A cached prefix and a successful fetch of the rest are answered as one response that loses nothing of either |
| Answers.BeyondTheEndIsRefused | src/utils/range.rs:132-150 | A request beyond a known total is refused as an invalid range without asking the network |
| Answers.UnknownSuffixIsRefused | src/data_source_manager.rs:88-140 | A suffix of a resource whose length nobody knows is refused, with the probe's error if it failed |
| Proxy.RunTruthful | src/storage/disk.rs:113-763 | Over every interleaving fed with faithful writes and true totals that recreates no promised file, promises, totals and open writes stay true together |
| Proxy.HonestMove | src/handlers/tee.rs:60-195 | What an honest download has teed into the cache and recorded as its total is what the interleaving theorem assumes |
| Proxy.ProxyServesOrigin | src/data_source_manager.rs:88-379 | End to end: honest downloads are teed and recorded while writes, updates, queries, deletes, scans and crashes interleave from the empty cache; a request that makes each of its calls anywhere in such a run is answered with the origin's bytes from the requested start, unless a write recreated a promised file or a file was unlinked between look and open |
| SingleFlight.SingleFlightSafe | src/handlers/single_flight.rs:62-159 | In every interleaving each listed range has exactly one live leader, no follower waits on a channel that can no longer be announced, and no request waits twice |
| SingleFlight.UnregisterIsOwn | src/handlers/single_flight.rs:115-130 | A leader that leaves removes its own registration and nobody else's |
| SingleFlight.JoinDecides | src/handlers/single_flight.rs:62-110 | The first request for a range becomes its only leader on a new channel, a later one waits on that leader's channel, and nobody else is touched |
| SingleFlight.LeaderLeaves | src/handlers/single_flight.rs:115-159 | A leader that leaves is off the table, then finished, and announces its channel iff someone listens |
| SingleFlight.LeaderReleasesFollower | src/handlers/single_flight.rs:115-159 | In every reachable state the leader's leaving wakes its follower without a timeout |
| SingleFlight.FinishedLeaderWakes | src/handlers/single_flight.rs:146-159 | In every reachable state a follower can wake without a timeout iff its leader has finished |
| Bookkeeping.AccountWriteExact | src/storage/manager.rs:643-687 | After a write the counter equals the sum of all usages iff that sum fits 64 bits |
| Bookkeeping.UsageIsFurthestEnd | src/storage/manager.rs:643-687 | After any sequence of writes a key's usage is the furthest of what was booked and the ends they reached, its access time is the last one's, and no other key changed |
| Bookkeeping.WarmUpExact | src/storage/manager.rs:503-551 | After warm-up exactly the old and the listed keys are booked, the old ones unchanged, the new ones with the size of their first listing and the oldest access time; the counter stays exact iff the sum fits |
| Bookkeeping.ForgetExact | src/storage/manager.rs:608-636 | Evicting takes the key and its usage out of the books, leaves the other keys and keeps the counter exact |
| Bookkeeping.VictimsAreShortestPrefix | src/storage/manager.rs:568-606 | The victims are the shortest least-recently-used prefix whose removal meets the byte and the file limit; where the sum saturates, the external cache counts only as far as it fits 64 bits |
| Bookkeeping.ExternalOverflow | src/storage/manager.rs:579-604 | With the external cache over the byte budget, nothing is evicted or everything is, by the file count; where the sum saturates, the shortest prefix that meets the counted limits |
| Bookkeeping.SurplusFileEvictsAll | src/storage/manager.rs:579-604 | Two files, a limit of one and an external cache over budget: both are evicted though one would do |
| Bookkeeping.OrderSum | src/storage/manager.rs:568-606 | The usages in any eviction order add up to the booked sum |
| Bookkeeping.StorageManager.RecordWrite | src/storage/manager.rs:643-687 | The accounting of a write on the object, with its exactness |
| Bookkeeping.StorageManager.RecordWarmUp | src/storage/manager.rs:503-551 | The warm-up loop on the object books exactly those keys, with its exactness |
| Bookkeeping.StorageManager.SelectVictims | src/storage/manager.rs:568-606 | The selection loop picks the victims of the theorem above |
| ManagerRuns.RunAccurate | src/storage/manager.rs:643-701 | Over every interleaving of writers, readers, warm-up and cleanup the counter is exact throughout iff the usages always fit 64 bits |
| ManagerRuns.WriteHoldsShard | src/storage/manager.rs:643-687 | In every reachable state a write starts iff nobody holds its shard, holds it until it is accounted for or has failed, and books the furthest end with the stamp of its access |
| ManagerRuns.CleanupSparesAccessed | src/storage/manager.rs:608-636 | In every reachable state, with any clock, the next victim is deleted iff its shard is free, the unlink works and it was neither read nor successfully rewritten since selection or the last such access repeated its stamp; no write to it is then under way, and exactly then its entry leaves the books |
| ManagerRuns.FailedWriteIsNotProtected | src/storage/manager.rs:643-687 | A run in which an entry is deleted although its content changed after it was selected |
| ManagerRuns.RepeatedStampIsNotProtected | src/storage/manager.rs:689-701 | A run in which an entry is deleted although it was read after it was selected, because the clock repeated a stamp |
| PieceCache.EvictionsSuffice | src/p2p.rs:145-178 | The evictions are just enough: after them the piece fits, after one fewer it does not |
| PieceCache.InsertValid | src/p2p.rs:145-178 | Inserting keeps queue, map and byte counter consistent and within the byte limit |
| PieceCache.InsertKeeps | src/p2p.rs:145-178 | A piece that fits is cached at the cost of the fewest oldest pieces and every other piece stays as it was |
| PieceCache.VerifiedPieceCache.Put | src/p2p.rs:145-178 | The eviction loop on the object does that insertion and returns the piece that is cached |
| PieceFetch.FetchedOncePerEviction | src/p2p.rs:412-476 | For any number of concurrent readers, between two provider fetches of a piece lies its eviction or the loss of the first fetch to a disk error |
| PieceFetch.HealthyDiskFetchesOncePerEviction | src/p2p.rs:412-476 | Over every run with a working disk, two provider fetches of a piece are separated by its eviction |
| PieceFetch.ReaderSteps | src/p2p.rs:412-476 | A cached piece needs no lock, a missed one is looked for by one reader at a time, a second look that finds it or a failed fetch ends the read, and a stored piece is the fetched one |
| PieceFetch.StoreCachesIffDiskOk | src/p2p.rs:459-475 | A fetched piece ends up in the memory cache iff the disk step works |
| PieceFetch.DiskErrorRefetches | src/p2p.rs:459-475 | In every reachable state in which a fetched piece is lost, five steps add to the log nothing but the loss and a second fetch |
| PieceFetch.RefetchIffDiskFails | src/p2p.rs:412-476 | In every reachable state some continuation fetches a just fetched piece again without evicting it iff the disk step of the fetch fails |
| SourceLifecycle.RemovedIsQuiet | src/p2p.rs:379-403 | In every reachable state, once `remove` has returned true the source is unregistered and without a lease, now and after any further steps |
| SourceLifecycle.RemoveOfMissing | src/p2p.rs:379-403 | A `remove` that finds nothing returns false at once; its source is quiet from then on iff the id was handed out before and no other removal of it still waits for a lease |
| SourceLifecycle.SecondRemoverReturnsEarly | src/p2p.rs:379-403 | A run in which `remove` returns while a provider call of the source is running |
| SourceLifecycle.RemovalReturnsWhenIdle | src/p2p.rs:85-125 | A removal in progress returns true iff the last lease is gone, and otherwise goes on waiting |
| SourceLifecycle.LeaseSteps | src/p2p.rs:85-125 | A lease is granted iff the source is registered, and is given up only outside a provider call |
| SourceLifecycle.RemovalCanFinish | src/p2p.rs:379-403 | Every removal can return: once the readers' calls are over and they let go, it returns true |
| PieceManifest.PieceExists | src/p2p.rs:692-726 | In an accepted manifest every piece that overlaps the content has a digest |
| PieceManifest.NewAccepts | src/p2p.rs:692-726 | A manifest is accepted iff its pieces cover the content, the last one not in vain, and the size and count limits are met |
| PieceManifest.VerifiesGenuine | src/p2p.rs:728-752 | A piece verifies iff it has the length of its place in the content and the digest of the manifest |
| PieceManifest.CopyBounds | src/p2p.rs:754-793 | Each copy stays inside its piece and starts where the previous one ended |
| PieceManifest.ReadVerifiedRange | src/p2p.rs:754-793 | A range is returned iff it is in bounds and every overlapping piece is served with its length and digest, and then it is exactly the authorised bytes; otherwise the first bad piece decides the error |
| PieceScheduler.BestIsUnique | src/p2p_network.rs:1132-1155 | The claim order has one best eligible piece |
| PieceScheduler.BestIsRarest | src/p2p_network.rs:1132-1155 | The best piece is one the peer has, that is missing and may fail once more; of all such pieces it has the highest priority, among those the fewest copies, then the fewest failures, then the lowest index |
| PieceScheduler.BitsSpellByte | src/p2p_network.rs:1114-1130 | The eight pieces of a bitfield byte spell that byte, the first piece being its most significant bit |
| PieceScheduler.BitfieldFits | src/p2p_network.rs:1114-1130 | A bitfield has one bit per piece and no byte in vain |
| PieceScheduler.TransitionsKeep | src/p2p_network.rs:1157-1181 | Only a piece in flight completes or fails; a completed one is complete, a failed one missing again with one failure more, nothing else changes, and the failure counter never saturates |
| PieceScheduler.NewScheduler | src/p2p_network.rs:1100-1112 | A scheduler is created iff the limits are met, with every piece missing, unfailed, unseen and without priority |
| PieceScheduler.Scheduler.ObserveBitfield | src/p2p_network.rs:1114-1130 | Availabilities grow by exactly the bits that are set, and the call fails iff a spare bit is set, after counting |
| PieceScheduler.Scheduler.ClaimNext | src/p2p_network.rs:1132-1155 | The claimed piece precedes every other eligible one by priority, rarity, failures and index, and none is claimed iff none is eligible |
| PieceScheduler.Scheduler.MarkComplete | src/p2p_network.rs:1157-1167 | Only an in-flight piece completes, and nothing else changes |
| PieceScheduler.Scheduler.MarkFailed | src/p2p_network.rs:1169-1181 | Only an in-flight piece fails; it is missing again and its failure is counted |
| Swarm.ClaimsBounded | src/p2p_network.rs:1219-1252 | Over every interleaving of peer tasks each piece is claimed at most as often as it may fail |
| Swarm.CompletedIsVerified | src/p2p_network.rs:131-165 | A completed piece is in the store, not empty, within the size limit and with the torrent's hash |
| Swarm.OtherSteps | src/p2p_network.rs:1219-1252 | A free task claims the best piece, a task at work claims nothing, and announcements and preferences are taken over |
| Swarm.TaskEnds | src/p2p_network.rs:1318-1393 | In every reachable state bytes of the right hash complete and store a task's piece, other bytes change nothing, and giving up makes it missing with one failure more |
| Swarm.DownloadCanFinish | src/p2p_network.rs:1318-1393 | From every state in which no missing piece is out of attempts, a peer that has everything can complete every missing piece |
| Swarm.ReclaimedOnlyAfterFailure | src/p2p_network.rs:1219-1252 | A claimed piece is never handed out again until it has failed |
| Swarm.DownloadsEnd | src/p2p_network.rs:1318-1393 | No run makes more claims than pieces times allowed failures, so the download loops end |
| DhtRouting.CloserTotal | src/p2p_network.rs:633-639 | XOR distance orders distinct ids strictly and totally |
| DhtRouting.LessIsNumeric | src/p2p_network.rs:633-639 | Comparing distances as byte arrays compares them as unsigned 160-bit numbers |
| DhtRouting.TopKUnique | src/p2p_network.rs:594-624 | What the table must hold after a sequence of offers is determined |
| DhtRouting.SortSorts | src/p2p_network.rs:625-631 | Sorting by distance keeps the nodes and orders them strictly |
| DhtRouting.NewRoutingTable | src/p2p_network.rs:583-593 | A table is created iff its capacity is within limits |
| DhtRouting.DhtRoutingTable.Insert | src/p2p_network.rs:594-624 | After every sequence of offers the table is exactly the nearest acceptable ids ever offered, each with its latest address; the answer tells whether the node is in it |
| DhtRouting.DhtRoutingTable.Farthest | src/p2p_network.rs:594-624 | The replaced node is the strictly farthest one |
| DhtRouting.DhtRoutingTable.Closest | src/p2p_network.rs:625-631 | The answer lists the nearest nodes in strictly increasing distance and every node left out is farther |
| PeerWire.EncodedParses | src/p2p_network.rs:1735-1866 | Whatever the encoder accepts the parser reads back |
| PeerWire.FieldLayout | src/p2p_network.rs:1790-1866 | Every message within the size limits is encoded, a keep-alive as four zero bytes, any other as length prefix, the id of BEP 3 or BEP 10 and its fields at their positions |
| PeerWire.ParsesWire | src/p2p_network.rs:1735-1789 | The parser reads a message exactly from the bytes that are that message on the wire, up to one MiB |
| PeerWire.BigEndian | src/p2p_network.rs:1735-1866 | Numbers are in network byte order |
| PeerWire.ParsedEncodes | src/p2p_network.rs:1735-1866 | Whatever the parser accepts the encoder writes back byte for byte |
| Bencode.ParsedFits | src/p2p_network.rs:2052-2138 | Everything the parser returns is canonical: 64-bit integers, strictly ascending keys, at most 32 levels |
| Bencode.BencodeRoundTrip | src/p2p_network.rs:2052-2138 | A value's encoding, alone or followed by more, is parsed back as that value using exactly its bytes iff the value is canonical and within the depth limit |
| Bencode.Spelling | src/p2p_network.rs:2059-2138 | The encoding that is parsed back uses the letters of BEP 3: i, l, d and e, and the colon after a length |
| Bencode.ItemsInOrder | src/p2p_network.rs:2116-2125 | A list is spelled as its members one after the other |
| Bencode.EntriesInOrder | src/p2p_network.rs:2126-2138 | A dictionary is spelled as its members one after the other |
| Bencode.EntriesCons | src/p2p_network.rs:2126-2138 | Each member of a dictionary is its key and then its value |
| Bencode.ParsedStarts | src/p2p_network.rs:2059-2076 | A value starts with i, l, d or a digit, which decides its kind, and nothing else is a value |
| Bencode.ParsesSigned | src/p2p_network.rs:2077-2091 | Exactly an optional sign and digits within 64 bits are an integer, leading zeros included |
| Bencode.LastValueWins | src/p2p_network.rs:2126-2138 | A dictionary with keys out of order or repeated is read as the sorted one in which each key has its last value |
| Bencode.BencodeParser.ReadValue | src/p2p_network.rs:2059-2076 | On any input the parser stays in bounds, restores its depth and gives the answer of the grammar |
| Bencode.BencodeParser.ReadInteger | src/p2p_network.rs:2077-2091 | The integer branch, on any input |
| Bencode.BencodeParser.ReadBytes | src/p2p_network.rs:2092-2115 | The byte-string branch, on any input, without overflow |
| Bencode.BencodeParser.ReadList | src/p2p_network.rs:2116-2125 | The list loop against the recursive grammar |
| Bencode.BencodeParser.ReadDict | src/p2p_network.rs:2126-2138 | The dictionary loop against the recursive grammar, duplicate and unsorted keys included |

## Left out

- IndexTransparency.IndexTransparent: every operation is one step and a sidecar read or stat does not fail; interleavings are the subject of `IndexFollows`.
- DiskCoherence.RunCoherent: every operation is one step and a sidecar read or stat does not fail; interleavings, and these failures, are the subject of `RacesCoherent`. The program orders them only in part: a write and a delete of a key share its write lock, an update and a delete its metadata lock, a query, a read and the scan take neither.
- HonestRuns.HonestRunsAreGood: as RunCoherent; the interleaved counterpart is `RunTruthful`.
- Durability.CachedStaysCached: every operation is one step, as in RunCoherent; when operations interleave, `LostUpdateForgetsWrite` shows a range that is forgotten.
- RaceReads.RacingReadIsOrigin: that the file is not unlinked is sufficient and not necessary, since an equal file may have been written in its place.
- Serving.EveryRouteServesOrigin: a read streams the file as it was when it was opened. Later writes leave right bytes right (`FileStays`) and an unlink does not reach an open file, so a promised range reads the same.
- Durability below the file system: a committed sidecar is assumed to survive, and a sidecar that does not parse counts as absent.
- Mutex poisoning, task cancellation and memory exhaustion.
- Back-off delays, timeouts as durations, and the header text of Content-Length and Content-Range; the parsed headers are arguments.
- The network policy, TLS, sockets, HTTP framing, the server loop, metrics, and the FFI, JNI and NAPI layers.
- HLS playlist rewriting, opaque source registration and the rqbit backend.
- HEAD requests and the content type that the cache remembers, beyond storing it.
- Bookkeeping.StorageManager.SelectVictims: takes the order as given; the theorems apply to orders that are least recently used first, and the sort itself is not modelled.
- ManagerRuns.RunAccurate: the counter against the booked usages; a booked usage is the program's estimate and may differ from the file's length after an eviction races with a write.
- Serving.NetworkRouteContiguous: does not state the length of the body, which is the subject of NetworkRoute.NetworkRouteExact.
- DiskCoherence.OpenReadIsOrigin: assumes that the recorded total is not below the file length, which holds in every honest run.
- PieceManifest.ReadVerifiedRange: digests are compared as given; the check that they are lower-case hexadecimal text is left out.
- Swarm.DownloadsEnd: peers and the byte-range priorities are steps that set any availabilities and priorities; the peer protocol's message loop is not modelled.
- The P2P disk cache's own size limit, the metadata assembler, and the DHT, tracker and magnet-link codecs, which would add further parsers of the kind shown.
- The encoders of `p2p_network.rs` fill a buffer step by step; they are modelled as functions.
