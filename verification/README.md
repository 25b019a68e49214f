# Custom vehicle client: a verified model

A Dafny model of the client and server plugin that brings custom vehicles to a multiplayer game:
how model files are fetched over the network and cached on disk, how the files are parsed, how
handling overrides are layered on vehicles, and how custom models and their collisions live and
die. Pointers of the game engine are abstract ids; SHA-256 and zlib are uninterpreted functions.

`dafny verify dfyconfig.toml` checks the project.

## How it is organised

Each component has a file of step functions on values, a file of theorems about runs of those
steps, and, where the original changes state, a class whose methods are proved equal to the steps.

- `Common`, `TransferSettings`: shared types; the numeric settings and their range checks.
- `TransferEntry`, `TransferMachine`: one in-flight file, and the client as a state machine over
  packets, requests, worker passes and main-thread tasks in any interleaving. Each call of
  `RequestFile` has a serial number, which the entry it makes and the functions that captured its
  `onReady` carry. `TransferReassembly`, `TransferCoverage`, `TransferDelivery`, `TransferBackoff`,
  `TransferTiming`, `TransferSchedule`, `TransferLiveness`, `TransferCallbacks` and
  `TransferRequests` hold the theorems; `TransferClient` is the class.
- `CacheState`, `CacheIntegrity`, `CacheIndependence`, `Eviction`, `AssetCache`: the content cache
  over a disk, a map from paths to files. `ManifestOrder`: the order in which a JSON object lists its members.
- `ColFormat`, `ColParsers`, `ColTheorems`: the COL record file and its two parsers. `ChunkWalk`:
  the RenderWare chunk walk.
- `HandlingState`, `HandlingPrecedence`, `HandlingFates`, `HandlingHistory`, `Handling`: the layered
  override maps and the live handling pointer of every vehicle. `HandlingAttribs`: attribute lists applied to one record.
- `LifetimeState`, `LifetimeTheorems`, `LifetimeHistory`, `Lifetime`: use counts, bindings, model
  slots and deferred destruction. `CollisionState`, `CollisionTheorems`, `CollisionFlag`,
  `CollisionHistory`, `CollisionLoading`: the collisions installed on models. `ModelIndices`: the server's model registry. `TaskQueue`: the
  main-thread queue.

## Where the code does not do what one would expect

These are facts about the code, each with its exact condition, and most with a run that shows it.

- Begin keeps the byte counter it finds (Client/ModelTransferClient.cpp:352-370), and a chunk may be
  longer than 4096 bytes. When the end test passes, every byte was copied exactly once if and only if
  the Begin in force found a zero counter and no byte was copied twice (`PassedTransferIsCovered`);
  `StaleCounterLetsAGapPass` and `LongChunkLetsAGapPass` are runs in which it passes on a gap. A
  complete honest download passes if and only if the counter was zero (`HonestDownloadPassesIff`).
- `onReady` need not be called exactly once. A cached file's is called once, on the spot; that of a
  request for a file already in flight is dropped and never called (`SecondRequestIsDropped`); any
  other is called twice for each cancel packet that finds the entry and once for each other ending
  (`EveryRequestIsCalled`). So it is called once if and only if the file was cached, or it was not in
  flight and the transfer ended once and not by a cancel packet (`CalledOnceIff`). A cancel calls
  twice (`CancelCallsTwice`), two end packets at the last attempt do too (`TwoEndPacketsCallTwice`),
  and a request that the server never answers fails without any call (`GivenUpWithoutACall`).
- A queued function erases whatever entry stands under its key, also that of a later request, whose
  `onReady` is then lost. A new entry can be lost if and only if such a function, or an end packet
  with good data in mid-work, is left over for its key (`NewEntryCanBeLostIff`);
  `AStaleFunctionTakesTheNewEntry` is a run in which it is.
- A transfer can wait for ever, neither asking again nor failing. An entry is stuck like that if and
  only if it was retried by hand, or a Begin was rejected in mid-download and a chunk came after it,
  with no accepted Begin, retry or timeout since (`StuckIff`, `RetryByHandCanWaitForEver`,
  `RejectedBeginCanWaitForEver`).
- Manifest records of kinds above 7 do not survive a save and load (`ManifestIsWholeIff`). The client
  never asks for such a kind itself.
- Loading settings over arbitrary valid ones can leave an initial back-off above the maximum
  (`LoadIsValidIff`, `TwoLoadsCanBreakTheOrder`). The plugin loads them once, over the defaults
  (Client/Plugin.cpp:3364-3372), where that cannot happen (`FirstLoadIsValid`).
- `ResetPlayerHandling` ignores a vehicle's own override. It keeps the precedence of pointers if
  and only if no vehicle has both (`ResetPlayerKeepsIff`). Over any run a vehicle's pointer is on an
  erased record if and only if a player reset met it with all three overrides, its model was reset
  after that, and the vehicle has not been modified or reset itself since (`PointerIsErasedIff`, which also says
  exactly when the precedence holds; `ResetPlayerThenModelErases` is such a pair of resets). A reset of
  everything repairs such pointers (`ResetAll`).
- Setting the mass before or after the collision damage differs unless a stated condition holds
  (`MassAndDamageCommuteIff`).
- The level-of-detail flag of a model follows the last thing done to the model, not its collision
  stack: with a collision installed it is set if and only if that last thing was an installation
  (`FlagIsRightIff`, `ReleasingTheUpperOneClearsTheFlag`).
- The index counter of the server's registry has 32 bits. Registering keeps the indices distinct if
  and only if the model is valid already or the counter stands at no index in use
  (`RegisterKeepsDistinctIff`); after 2^32 - 212 allocations it stands at a base model's
  (`CounterComesRound`).

## Model

| member | source | states |
|---|---|---|
| `Common.DecimalReadsBack` | Client/ModelCache.cpp:398-402 | a model id written in decimal is all digits and reads back as itself |
| `Common.SameDigestIff` | Client/ModelTransferClient.cpp:515-518 | two digests in lower-case hex compare as equal exactly when they are, also from a field that goes on after its first NUL |
| `Common.CaseDoesNotMatter` | Client/ModelTransferClient.cpp:515-518 | and letters in the other case make no difference |
| `TransferSettings.GetRangedInt64` | Client/TransferConfig.h:182-201 | a setting is taken from the file exactly when it is a whole number inside its range |
| `TransferSettings.FirstLoadIsValid` | Client/TransferConfig.h:91-104 | loading any file over the defaults gives settings inside every range, with initial back-off at most the maximum |
| `TransferSettings.LoadIsValidIff` | Client/TransferConfig.h:98-101 | over arbitrary valid settings that holds if and only if the file's maximum is accepted or the old one is no smaller than the new initial back-off |
| `TransferSettings.TwoLoadsCanBreakTheOrder` | Client/TransferConfig.h:98-101 | two loads after which the initial back-off is above the maximum |
| `TransferSettings.LineSetsItsOwn` | Client/TransferConfig.h:91-104 | each setting is its own line's value when that is in its range, and otherwise as it was, whatever the other lines say |
| `TransferSettings.TransferConfig.Load` | Client/TransferConfig.h:45-111 | the last line of each key wins, and the maximum back-off is checked against the initial one just read |
| `TransferReassembly.MarkedChunksEqualBlob` | Client/ModelTransferClient.cpp:352-445 | under a faithful sender, after any loss, repetition, reordering, retry or repeated Begin, every chunk marked received holds the blob's bytes |
| `TransferReassembly.EndHandsOverTheBlob` | Client/ModelTransferClient.cpp:474-491 | then a buffer that passes the end test is the blob, byte for byte |
| `TransferCoverage.RunAccounted` | Client/ModelTransferClient.cpp:352-445 | in every run, of any sender, the bitmap counts each copy made since the last accepted Begin exactly once, each copy lies inside the buffer, and the byte counter is what Begin found plus the lengths copied, in 32 bits |
| `TransferCoverage.ChunksInsideFile` | Client/ModelTransferClient.cpp:404-433 | when the end test passes, no more chunks were announced than the file has, so every marked chunk starts inside it and no 32-bit product index * 4096 wrapped |
| `TransferCoverage.PassedTransferIsCovered` | Client/ModelTransferClient.cpp:404-485 | in every run, when the end test passes, every byte was copied exactly once if and only if the Begin in force found a zero counter and no byte was copied twice; with chunks of at most 4096 bytes none is, and the chunk count was right |
| `TransferCoverage.HonestDownloadPassesIff` | Client/ModelTransferClient.cpp:352-370 | once every chunk of an honest sender has arrived, the end test passes if and only if the Begin in force found a zero byte counter |
| `TransferCoverage.OnlyInterruptedDownloadsGoStale` | Client/ModelTransferClient.cpp:609-656 | in every run an entry without a bitmap has a zero counter, so a Begin finds a stale one only where it finds the bitmap of a download it interrupts or of one whose buffer an end packet has taken |
| `TransferCoverage.StaleCounterLetsAGapPass` | Client/ModelTransferClient.cpp:352-370 | a run in which the end test passes although a byte was never copied since the Begin in force |
| `TransferCoverage.LongChunkLetsAGapPass` | Client/ModelTransferClient.cpp:404-445 | a run in which it passes with a zero counter although a byte was never copied, because a chunk ran into the next one |
| `TransferDelivery.EveryDeliveryWasAnnounced` | Client/ModelTransferClient.cpp:447-563 | in every run, whatever comes between the two sections, a delivery is of data that an earlier end packet took, with the hash and the size that the Begin in force there announced, within the limit, and goes to that request's `onReady` |
| `TransferDelivery.FaithfulDeliveriesAreTheBlob` | Client/ModelTransferClient.cpp:447-563 | under a sender faithful to a blob, what is unpacked for delivery is the blob |
| `TransferCallbacks.CalledExactlyOnceIff` | Client/ModelTransferClient.cpp:238-607 | over any run the calls queued of the `onReady` with a given serial are two for each cancel packet that finds its entry and one for each other ending of it: exactly one if and only if there is one ending and it is no cancel, none if and only if there is none |
| `TransferRequests.EveryRequestIsCalled` | Client/ModelTransferClient.cpp:123-193 | for a request made in any reachable state, and any run after it: one call on the spot if the file is cached, none ever if it is in flight, and otherwise two for each cancel packet that finds its entry and one for each other ending |
| `TransferRequests.CalledOnceIff` | Client/ModelTransferClient.cpp:123-193 | so its `onReady` is called exactly once if and only if the file was cached, or was not in flight and the transfer ended once and not by a cancel packet; and never if and only if it was not cached and was in flight or has not ended |
| `TransferRequests.SecondRequestIsDropped` | Client/ModelTransferClient.cpp:142-146 | a request for a file in flight changes nothing, and its `onReady` is never called |
| `TransferCallbacks.CancelCallsTwice` | Client/ModelTransferClient.cpp:581-607 | a cancel packet for an entry in flight leads to two calls |
| `TransferCallbacks.TwoEndPacketsCallTwice` | Client/ModelTransferClient.cpp:474-497 | two end packets with chunks missing at the last attempt lead to two calls, without a cancel |
| `TransferCallbacks.GivenUpWithoutACall` | Client/ModelTransferClient.cpp:671-678 | a request that nobody answers is failed in the end, and its `onReady` is never called |
| `TransferCallbacks.LostAtIff` | Client/ModelTransferClient.cpp:238-251 | an entry goes without a call of its own `onReady` exactly when a queued function of another request erases it |
| `TransferCallbacks.CanBeLostIff` | Client/ModelTransferClient.cpp:532-607 | that can happen in some run from here if and only if such a function is queued, or an end packet of another request with good data is between its two sections |
| `TransferCallbacks.NewEntryCanBeLostIff` | Client/ModelTransferClient.cpp:123-193 | in every reachable state, whether the entry of a new request can be lost so is settled by what is left over for its key at that moment |
| `TransferCallbacks.AStaleFunctionTakesTheNewEntry` | Client/ModelTransferClient.cpp:238-251 | a run of request, cancel packet, model cancelled and request again in which the second request's entry is erased and its `onReady` never called |
| `TransferTiming.RequestsAreConserved` | Client/ModelTransferClient.cpp:658-738 | while the server is silent about a file, whatever other traffic there is, requests queued for it plus requests still allowed is constant |
| `TransferTiming.SilentServerIsAskedBoundedly` | Client/ModelTransferClient.cpp:658-738 | a fresh request leads to at most 2 * retryMaxAttempts - 1 further requests, whatever the clock and the other transfers do |
| `TransferTiming.SilentServerIsGivenUp` | Client/ModelTransferClient.cpp:658-738 | from every reachable state, if the server falls silent, passes keep coming and no function that looks the file up is left over, the entry is asked for exactly as often as it has requests left and then failed, by a time fixed by the settings and the gap between passes, if and only if it is not stuck within its attempts |
| `TransferTiming.LeftoverFailureGivesUp` | Client/ModelTransferClient.cpp:629-641 | if a function queued when the entry was given up once before still runs, the entry fails at that moment, stuck or not, and is not asked for again |
| `TransferTiming.FailedStaysSilent` | Client/ModelTransferClient.cpp:671-678 | a failed entry stays as it is and is not asked for again |
| `TransferTiming.WaitsForEverIff` | Client/ModelTransferClient.cpp:671-723 | an entry that is not failed is left unchanged by every pass if and only if it has no retry time and neither status that times out |
| `TransferTiming.StuckIff` | Client/ModelTransferClient.cpp:66-92 | in every run an entry that is not failed is stuck if and only if it was retried by hand, or a Begin was rejected in mid-download and a chunk was written after it, with no accepted Begin, retry or timeout since |
| `TransferTiming.UndisturbedIsWaiting` | Client/ModelTransferClient.cpp:313-371 | so in every run without a retry by hand and without a rejected Begin for it, the entry waits for a retry or a timeout, or is failed |
| `TransferTiming.RetryByHandCanWaitForEver` | Client/ModelTransferClient.cpp:66-92 | a retry by hand leaves such an entry: one request, and then no further one and no failure, however long the server is silent |
| `TransferTiming.RejectedBeginCanWaitForEver` | Client/ModelTransferClient.cpp:337-346 | so does a Begin rejected in mid-download that is followed by a chunk |
| `TransferBackoff.BackoffClosedForm` | Client/ModelTransferClient.cpp:644-655 | in every run backoffMs is min(initial * 2^r, max), r counting doublings since the entry was created, begun or retried by hand |
| `TransferSchedule.RunKeeps` | Client/ModelTransferClient.cpp:313-738 | in every run the client's record of a file is what its events tell: the attempts made, whether it is given up, the back-off, what it waits for and until when, and from which accepted Begin to which end packet or retry it holds a buffer |
| `TransferSchedule.RequestsAreCounted` | Client/ModelTransferClient.cpp:123-193 | in every run the requests queued for a file are exactly one for each request that starts a transfer, one for each retry by hand and one for each pass that finds it due |
| `TransferSchedule.NextRequestIsWhenDue` | Client/ModelTransferClient.cpp:679-723 | in every reachable state of a file not given up, while the server is silent, passes before the retry time, or within the response timeout of the last activity, ask for nothing, and the first that is not asks once |
| `TransferSchedule.RetryBacksOff` | Client/ModelTransferClient.cpp:644-655 | after a refused chunk, an end packet with chunks missing or bad data, short of the last attempt, nothing is asked for before min(initial * 2^r, max) have passed, r the doublings before it, and the first pass from then on asks once |
| `TransferSchedule.EndPacketNeedsABegin` | Client/ModelTransferClient.cpp:464-472 | an end packet without an accepted Begin in the attempt, or after another that took the data, does nothing |
| `TransferLiveness.HonestFileIsDelivered` | Client/ModelTransferClient.cpp:313-579 | from every reachable state without an accepted Begin in the present attempt: a Begin, every chunk at least once in any order and among other traffic, with no pass finding the file due, and an end packet deliver the file to its request, and the entry goes |
| `TransferClient.ModelTransferClient.RequestFile` | Client/ModelTransferClient.cpp:123-193 | a cache hit changes no transfer; otherwise one entry and one request, unless the key is in flight; the request takes a serial, and the cache does a lookup |
| `TransferClient.ModelTransferClient.OnTransferBegin` | Client/ModelTransferClient.cpp:313-371 | the handler is the machine's Begin step, rejected sizes included |
| `TransferClient.ModelTransferClient.OnTransferChunk` | Client/ModelTransferClient.cpp:373-445 | the handler is the machine's Chunk step: drop, refuse with a retry, or write at the 32-bit offset |
| `TransferClient.ModelTransferClient.AllReceived` | Client/ModelTransferClient.cpp:474-485 | the loop over the bitmap, with the byte count, decides the end test |
| `TransferClient.ModelTransferClient.TakeBuffer` | Client/ModelTransferClient.cpp:462-496 | the first locked section of the end handler is the machine's Take step, and what it moves out is the entry's buffer, size and digest |
| `TransferClient.ModelTransferClient.FinishEnd` | Client/ModelTransferClient.cpp:498-579 | the rest, whatever came in between, is the machine's Finish step on what was taken; the cache does one store and stays sound, and a stored path holds what was unpacked |
| `TransferClient.ModelTransferClient.OnTransferEnd` | Client/ModelTransferClient.cpp:447-579 | the two sections with nothing between; on success the delivered path holds bytes that unpack the buffer and hash to the entry's digest; the cache does one store and stays sound |
| `TransferClient.ModelTransferClient.OnTransferCancel` | Client/ModelTransferClient.cpp:581-607 | the entry is failed and two failing calls of the `onReady` it holds are queued |
| `TransferClient.ModelTransferClient.ScheduleRetry` | Client/ModelTransferClient.cpp:609-656 | back-off, reset of the buffer, or final failure with its callback after the last attempt |
| `TransferClient.ModelTransferClient.ManualRetry` | Client/ModelTransferClient.cpp:56-93 | attempts, back-off and progress start again and one request is sent |
| `TransferClient.ModelTransferClient.CancelEverything` | Client/ModelTransferClient.cpp:255-282 | every entry goes, and each one's callback is called once with failure |
| `TransferClient.ModelTransferClient.CancelModelTransfers` | Client/ModelTransferClient.cpp:284-311 | exactly the entries of one model go, and only their callbacks are called |
| `TransferClient.ModelTransferClient.WorkerPass` | Client/ModelTransferClient.cpp:658-738 | one round of the worker ticks every entry once and sends one request for each that is due |
| `CacheState.KindNameReadsBack` | Client/ModelCache.cpp:211-233 | the kind names 0 to 7 read back, and no other kind's name does |
| `CacheState.OwnPathInjective` | Client/ModelCache.cpp:235-257 | no file name serves two keys, ogg and wav names included |
| `CacheState.ModelFilesTellTheKind` | Client/ModelCache.cpp:211-257 | a model's parts are named by their extension, which is the kind's name |
| `CacheState.SoundFilesTellTheKind` | Client/ModelCache.cpp:235-257 | a sound is named by its kind's name, with ogg or wav |
| `CacheState.StoredAsWavIff` | Client/ModelCache.cpp:545-565 | a file is stored as wav exactly when it is a sound that starts with RIFF |
| `CacheState.ManifestRoundTrip` | Client/ModelCache.cpp:388-424 | loading what SaveManifest wrote gives back every record of kinds 0 to 7 and no other |
| `CacheState.ManifestIsWholeIff` | Client/ModelCache.cpp:323-369 | the round trip is exact if and only if no record has a kind above 7 |
| `CacheIntegrity.AddIntact` | Client/ModelCache.cpp:566-585 | a new record keeps the index intact if and only if its sha is its file's hash, since no other record uses that file |
| `CacheIntegrity.GetSound` | Client/ModelCache.cpp:447-517 | a lookup keeps the cache sound, and what it returns for a given sha is a non-empty file with that hash |
| `CacheIntegrity.StoreSoundIff` | Client/ModelCache.cpp:545-586 | a written store keeps the cache sound if and only if the given sha is absent or the file's own |
| `CacheIntegrity.CacheStaysSound` | Client/ModelCache.cpp:381-643 | over any run of lookups, stores with failed writes, invalidations, sweeps and reloads, every record whose file exists names that file's hash, in the index and in the manifest |
| `CacheIntegrity.LookupReturnsTheHashAskedFor` | Client/ModelCache.cpp:447-517 | after any such run, asking for a hash yields a non-empty file with that hash, or nothing |
| `CacheIntegrity.StoreThenGet` | Client/ModelCache.cpp:447-586 | a stored asset is found under its hash, also after a reload when its kind is 0 to 7 |
| `CacheIntegrity.InvalidatedIsNotFound` | Client/ModelCache.cpp:519-543 | after an invalidation whose removals succeed the key is not found under any hash |
| `CacheIndependence.OthersKeepTheirLookup` | Client/ModelCache.cpp:447-586 | a lookup, a store with any outcome, or an invalidation of one key leaves every other key's record and files alone, so a lookup of another key under any hash finds the same file as before |
| `CacheIndependence.StoredStaysFound` | Client/ModelCache.cpp:381-643 | over every run: a stored asset is found under its hash with its bytes after any operations that neither store nor invalidate it, sweep its file, nor look it up under another hash, reloads included when its kind is 0 to 7 |
| `CacheIndependence.RecordStaysIff` | Client/ModelCache.cpp:455-484 | a recorded asset is found exactly when the hash asked for is its own or none and its file has content; otherwise record and file go, the file unless it is held open |
| `CacheIndependence.UnrecordedFileIsAdoptedIff` | Client/ModelCache.cpp:486-517 | a file without a record is returned, recorded and found again exactly when it has content, can be read and has the hash asked for; otherwise it goes unless held open |
| `CacheIndependence.FailedStoreRecordsNothing` | Client/ModelCache.cpp:545-586 | a failed write changes no record, and no file but the one it was to write |
| `Eviction.SortSorts` | Client/ModelCache.cpp:629-632 | the order of eviction is by write time and a permutation of the files listed |
| `Eviction.PlanSweeps` | Client/ModelCache.cpp:607-643 | carrying out an eviction plan makes a sweep: untouched unexpired files that fit the limit together, each file evicted no newer than each file left, and with the newest one evicted the rest would not fit |
| `AssetCache.ModelCache.SaveManifest` | Client/ModelCache.cpp:388-424 | the loop over the index, in any order, writes the nested map of all its records |
| `AssetCache.ModelCache.EnsureServerInitialized` | Client/ModelCache.cpp:298-379 | the loop over the models, in the order of their names, and the loop over the kinds of each, in any order, leave for each key the last record of a named kind that a model id offers, and no other |
| `AssetCache.ModelCache.ReloadManifest` | Client/ModelCache.cpp:381-386 | the same, whatever the index held |
| `AssetCache.ModelCache.TryGet` | Client/ModelCache.cpp:447-517 | every branch of a lookup: recorded, stale, missing, empty, found unrecorded by its hash |
| `AssetCache.ModelCache.Invalidate` | Client/ModelCache.cpp:519-543 | the record goes, and the files of the key go |
| `AssetCache.ModelCache.Store` | Client/ModelCache.cpp:545-586 | the file and record written, or the disk after a failed write |
| `AssetCache.ModelCache.PathFor` | Client/ModelCache.cpp:426-445 | the recorded path, or the file name that exists |
| `AssetCache.ModelCache.Collect` | Client/ModelCache.cpp:607-622 | the directory walk removes the expired files and lists each other file once |
| `AssetCache.ModelCache.Sweep` | Client/ModelCache.cpp:588-646 | with no file held open, the disk afterwards is such a sweep of the disk before; in general the loop carries out an eviction plan, less what other processes keep open |
| `ColFormat.NameTextAt` | Client/CollisionLoader.cpp:243-270 | reading a name one byte at a time, from any point of its printable start, gives the whole name |
| `ColParsers.ReadModelName` | Client/CollisionLoader.cpp:243-270 | the loop fills the 23-character buffer with the name and zeros, and fails exactly on an unprintable byte before the end of the name |
| `ColParsers.ReadName` | Server/src/CollisionAssetRepository.cpp:173-205 | the loop builds the name, and fails in the same cases |
| `ColParsers.ParseFile` | Client/CollisionLoader.cpp:326-470 | the client's loop gives the scan's code and records, and the statistics say whether versions differ |
| `ColParsers.ParseRecords` | Server/src/CollisionAssetRepository.cpp:311-437 | the server's loop gives the scan's code and records |
| `ColTheorems.RecordIff` | Client/CollisionLoader.cpp:358-440 | a record is read at an offset if and only if its header stands there and all of it lies in the file |
| `ColTheorems.ParseIff` | Client/CollisionLoader.cpp:344-469 | every outcome exactly: on success 1 to 256 records lie one after the other from offset 0, followed by end of file, a short zero tail or a zero header |
| `ColTheorems.FirstBytesDecide` | Client/CollisionLoader.cpp:344-440 | the first record's version, size and signed model id in terms of the file's first bytes, the letters COLL, COL2, COL3, COL4 among them |
| `ColTheorems.ParsersAgree` | Server/src/CollisionAssetRepository.cpp:327-436 | for every byte string client and server give the same code and the same records up to name padding |
| `ColTheorems.ItemStandsAt` | Client/CollisionLoader.cpp:381-440 | a serialised record is readable wherever it stands |
| `ColTheorems.RoundTrip` | Server/src/CollisionAssetRepository.cpp:311-437 | parsing serialised records with the server's parser, with any zeros after them, gives back exactly those records if and only if there are 1 to 256; a 257th is an error |
| `ColTheorems.ClientRoundTrip` | Client/CollisionLoader.cpp:326-470 | the client reads the serialised records back, names padded with zeros, if and only if there are 1 to 256 |
| `ChunkWalk.ExtractClump` | Client/binaryrwparser.hpp:8-34 | the loop stays in bounds with 32-bit sizes and returns the answer where a walk over whole chunks gets stuck |
| `ChunkWalk.HeaderBytes` | Client/binaryrwparser.hpp:14-24 | a clump starts with the bytes 10 00 00 00, and a chunk's length has its low byte first |
| `ChunkWalk.ExtractedUnique` | Client/binaryrwparser.hpp:8-34 | that answer is determined by the buffer |
| `ChunkWalk.ExtractedIsOneClump` | Client/binaryrwparser.hpp:14-31 | it is empty, or one clump chunk of its declared length cut from the buffer, or the whole buffer when a truncated clump comes first |
| `ChunkWalk.ReachedClumpIsFound` | Client/binaryrwparser.hpp:26-31 | a whole clump that the walk reaches is the answer, whatever follows |
| `ChunkWalk.ExtractIsIdempotent` | Client/binaryrwparser.hpp:8-34 | extracting from the answer gives the answer |
| `HandlingPrecedence.ResetPlayerKeepsIff` | Client/handling_manager.cpp:1011-1043 | a player reset keeps the precedence if and only if no vehicle has an override of its own and one applied by that player |
| `HandlingPrecedence.StepKeeps` | Client/handling_manager.cpp:345-1227 | every other operation keeps pointers on the first present of vehicle, player, model and default, and every record with one owner |
| `HandlingPrecedence.PointersFollowPrecedence` | Client/handling_manager.cpp:345-374 | over whole runs each vehicle's pointer is that first one, and never an erased record |
| `HandlingFates.PointerIsErasedIff` | Client/handling_manager.cpp:1011-1043 | over every run, player resets of vehicles with their own override included: a vehicle's pointer is on an erased record if and only if its history says so (a player reset met all three overrides, then the model was reset, and the vehicle has not been modified or reset since), and it follows the precedence if and only if no player reset has moved it off the vehicle's own override since the vehicle was last modified or reset |
| `HandlingFates.RunLoose` | Client/handling_manager.cpp:345-1227 | every run keeps every record with one owner and every vehicle without an override of its own on the right record |
| `HandlingHistory.OverridesFollowTheHistory` | Client/handling_manager.cpp:920-1227 | over every run: a vehicle's, a model's and a player's override are there exactly when made last and not reset since; a player's handling is on a vehicle exactly when he was first to be applied while it was free and has not been removed or reset since; and the entries queued for an absent vehicle are all that came since its last reset, in order |
| `HandlingHistory.HistoryDecidesThePointer` | Client/handling_manager.cpp:850-1227 | over every run a vehicle without an override of its own points to the player's copy, the model's override or the model's default, whichever that history leaves first |
| `HandlingHistory.RemovalTakesItOff` | Client/handling_manager.cpp:948-979 | removing the player's handling erases the copy, and the vehicle points to its own override, else its model's, else the default; no other pointer moves |
| `HandlingHistory.RecordsDoNotLeak` | Client/handling_manager.cpp:920-1227 | over every run each record made has one owner or is erased, and not both |
| `HandlingPrecedence.ResetPlayerThenModelErases` | Client/handling_manager.cpp:1011-1043 | with all three overrides on a vehicle, resetting the player and then the model leaves its pointer on an erased record |
| `HandlingPrecedence.AllLayersAreReachable` | Client/handling_manager.cpp:981-1217 | three packets bring any vehicle there |
| `Handling.HandlingManager.ProcessVehicleMods` | Client/handling_manager.cpp:1045-1076 | a streamed vehicle gets an override and points to it; another queues the entries |
| `Handling.HandlingManager.PointModel` | Client/handling_manager.cpp:850-876 | the loop over the pool repoints exactly the model's vehicles without an override of their own or a player's |
| `Handling.HandlingManager.ProcessModelMods` | Client/handling_manager.cpp:1193-1217 | the model's override is made once and its unclaimed vehicles point to it |
| `Handling.HandlingManager.ApplyPlayerHandling` | Client/handling_manager.cpp:920-946 | a copy is applied only to a vehicle without another override |
| `Handling.HandlingManager.RemovePlayerHandling` | Client/handling_manager.cpp:948-979 | the copy goes and the vehicle falls back to the next layer |
| `Handling.HandlingManager.ProcessPlayerMods` | Client/handling_manager.cpp:981-1009 | the player's override is made once and applied to the vehicle he sits in |
| `Handling.HandlingManager.ResetVehicle` | Client/handling_manager.cpp:1170-1191 | the override and the queued entries go and the vehicle falls back |
| `Handling.HandlingManager.ResetModel` | Client/handling_manager.cpp:1219-1227 | the model's vehicles are sent to its own handling before the override goes |
| `Handling.HandlingManager.ResetPlayerHandling` | Client/handling_manager.cpp:1011-1043 | the loop over the applied copies, in any order, sends every vehicle of the player to its model's handling and erases the copies |
| `Handling.HandlingManager.ResetAll` | Client/handling_manager.cpp:1505-1521 | in any state a run can lead to, pointers on erased records included: terminates with no override left, every vehicle on its default, and exactly the owned records erased |
| `HandlingAttribs.HandlingData.ApplyAttribEntries` | Client/handling_manager.cpp:168-292 | the loop applies the entries in order and says whether the gear ratios must be computed anew |
| `HandlingAttribs.AccelerationFollowsDrive` | Client/handling_manager.cpp:187-233 | acceleration over (drive '4' ? 0.25 : 0.5) ends as 0.0004 times the last acceleration entry, or is unchanged, in any order of entries |
| `HandlingAttribs.AccelerationIsConfluent` | Client/handling_manager.cpp:187-233 | lists that agree on the last acceleration and the last drive type leave the same acceleration |
| `HandlingAttribs.LastSettingShows` | Client/handling_manager.cpp:174-292 | after any list the record shows the last setting of each kind: the speed in km/h, with reverse gear a quarter of it down to -0.2, the brake, the masses, gears and drive; what was not set is as before |
| `HandlingAttribs.DamageIsForTheMassThen` | Client/handling_manager.cpp:198-202 | collision damage times the mass in effect when it was set is 2000 times the value, and no other setting changes it |
| `HandlingAttribs.MassAndDamageCommuteIff` | Client/handling_manager.cpp:198-209 | mass and collision damage commute if and only if the value is zero or the mass in effect stays |
| `LifetimeTheorems.UsesAreBalanced` | Client/handling_manager.cpp:454-469 | counting a use and taking it back changes nothing unless the model had an entry of zero; each changes one model's count by one, and a count of one taken back leaves no entry |
| `LifetimeTheorems.TouchedBindsNothing` | Client/CustomVehicleBindingManager.cpp:676-688 | a setter's binding counts for no model, and a later bind gives the same state as without it |
| `LifetimeTheorems.UseCountIsBindingCount` | Client/CustomVehicleBindingManager.cpp:222-589 | in every reachable state the use count of a custom model is the number of bindings that name it, so it agrees with the search of the bindings |
| `LifetimeTheorems.AllocatesTheLeastFreeSlot` | Client/streamingextender.hpp:53-83 | the least free slot from 11000 up, else the least below, and none exactly when none of the 20000 is free |
| `LifetimeTheorems.SlotsAreDistinct` | Client/streamingextender.hpp:157-243 | in every reachable state models hold distinct slots and the table has each one's info there |
| `LifetimeTheorems.QueuedModelsGoIffUnused` | Client/Plugin.cpp:3531-3554 | a pass destroys a queued model if and only if nothing uses it, and queues it again otherwise |
| `LifetimeTheorems.QueuedDestructionIsNotLost` | Client/Plugin.cpp:3474-3478 | no operation loses a queued destruction while the model is there |
| `LifetimeTheorems.BoundModelStays` | Client/streamingextender.hpp:1105-1151 | no operation but clear-all removes a model some vehicle is bound to |
| `LifetimeTheorems.ClearAllKeepsWhatTheWorldUses` | Client/streamingextender.hpp:1153-1195 | clear-all keeps exactly the models whose slot a vehicle uses, in their slots, and frees the other slots |
| `LifetimeHistory.BoundIff` | Client/CustomVehicleBindingManager.cpp:222-589 | over every run a vehicle is bound to a model exactly when its last bind named that model and no unbind of it and no clearing came after |
| `LifetimeHistory.HasBindingIff` | Client/CustomVehicleBindingManager.cpp:222-688 | and it has a binding at all, if only a setter's, exactly when one was made last and not taken away |
| `LifetimeHistory.QueuedModelGoesIffUnbound` | Client/Plugin.cpp:3531-3554 | over every run a queued custom model goes with the next pass exactly when no vehicle's last bind, not undone since, names it and no vehicle of the world uses its slot |
| `LifetimeHistory.EngineUseIsSeenCount` | Client/handling_manager.cpp:417-469 | over every run in which vehicles leave the cache as what they came, an engine model's use count is the number of vehicles in the cache counted for it |
| `LifetimeHistory.CreatedAtTheFirstFreeSlot` | Client/streamingextender.hpp:157-243 | with a base and a free slot a new model is made at the free slot tried first, and the other models and slots stay |
| `LifetimeHistory.DestroyedIffUnused` | Client/streamingextender.hpp:1105-1151 | a model is destroyed, its slot free again, exactly when unused, and queued otherwise |
| `LifetimeHistory.TableIsPutBack` | Client/streamingextender.hpp:53-1195 | over every run the engine's table is the first one but for the slots of the custom models there are, which were empty |
| `Lifetime.CustomModels.Bind` | Client/CustomVehicleBindingManager.cpp:222-360 | rebinding moves the count from the old model to the new one |
| `Lifetime.CustomModels.Unbind` | Client/CustomVehicleBindingManager.cpp:362-573 | the binding goes and its model's count goes down |
| `Lifetime.CustomModels.ClearBindings` | Client/CustomVehicleBindingManager.cpp:575-589 | the loop, in any order, takes one off for every binding |
| `Lifetime.CustomModels.IsModelInUse` | Client/CustomVehicleBindingManager.cpp:666-674 | the search finds a binding if and only if there is one |
| `Lifetime.CustomModels.CacheVehicleSAMPId` | Client/handling_manager.cpp:417-426 | a vehicle seen for the first time counts for its engine model |
| `Lifetime.CustomModels.RemoveVehicleFromCache` | Client/handling_manager.cpp:428-452 | and is taken off when it can still be read |
| `Lifetime.CustomModels.TryRange` | Client/streamingextender.hpp:57-72 | the two nested scans find the first free slot of a range |
| `Lifetime.CustomModels.AllocateGtaModelSlot` | Client/streamingextender.hpp:53-83 | the preferred range first, then the rest |
| `Lifetime.CustomModels.CreateCustomModel` | Client/streamingextender.hpp:157-243 | an existing model, a missing base or a full table change nothing; otherwise one slot is filled |
| `Lifetime.CustomModels.DestroyCustomModel` | Client/streamingextender.hpp:1105-1151 | a model in use is queued again; otherwise slot and entry are emptied |
| `Lifetime.CustomModels.IsCustomModelCurrentlyInUse` | Client/Plugin.cpp:3351-3359 | used by a binding or by a vehicle's slot |
| `Lifetime.CustomModels.ProcessPendingDestructions` | Client/Plugin.cpp:3531-3554 | the swapped queue is worked off in order, pushing back what is in use |
| `Lifetime.CustomModels.ClearAllCustomModels` | Client/streamingextender.hpp:1153-1195 | the loop, in any order, keeps and empties what the specification says |
| `Lifetime.CustomModels.ProcessPendingClearAll` | Client/Plugin.cpp:3577-3583 | bindings first, then models, when a clear is pending |
| `CollisionTheorems.InstalledCollisionsFormAStack` | Client/CollisionLoader.cpp:717-1180 | over any run the ids installed on a model form a stack linked by previous collisions; the model points to the top one or to its original, never to a freed collision |
| `CollisionTheorems.RemovalIffOnTop` | Client/CollisionLoader.cpp:1128-1180 | an unreferenced collision is removed if and only if it is on top, and the model then points to what lay below |
| `CollisionTheorems.ReleaseIsUnloadAtTheLastReference` | Client/CollisionLoader.cpp:1071-1126 | a release takes one reference, and the last one is an unload |
| `CollisionTheorems.ReferencedStaysLoaded` | Client/CollisionLoader.cpp:1037-1126 | over any run in which no more references are taken than there are, a collision stays loaded as it is, with as many references as before plus those added less those taken |
| `CollisionHistory.ReferencesAreCounted` | Client/CollisionLoader.cpp:899-1126 | over every run a loaded collision holds one reference for its load, plus those added less those taken since, not below none |
| `CollisionHistory.AddedReferencesTakeAsManyReleases` | Client/CollisionLoader.cpp:1037-1126 | n references added to a collision with one take n releases back to it, and the next release unloads it |
| `CollisionHistory.LoadSucceedsIff` | Client/CollisionLoader.cpp:717-917 | the exact condition for a load to succeed; then the collision is on the model with one reference, and unloading it at once or loading it again is refused |
| `CollisionHistory.LoadedWasInstalled` | Client/CollisionLoader.cpp:717-917 | over every run each loaded collision was installed by a load of its id on its model, of a parsed file, that the engine took, and has been loaded ever since; and its model fits |
| `CollisionHistory.CollisionsDoNotLeak` | Client/CollisionLoader.cpp:820-1180 | over every run a collision made is freed exactly when no loaded id holds it |
| `CollisionFlag.FlagIsRightIff` | Client/CollisionLoader.cpp:864-893 | over any run: with a collision installed the flag is set if and only if the last thing done to the model was an installation; with none it is the model's own if and only if nothing was done or it equals the ownership that Load took down |
| `CollisionFlag.ReleasingTheUpperOneClearsTheFlag` | Client/CollisionLoader.cpp:1104-1111 | a run: two collisions on one model, the upper one released, and the flag of the lower one is gone |
| `CollisionLoading.CollisionLoader.Load` | Client/CollisionLoader.cpp:717-917 | every refusal in its order, a rejected install undone, or the collision on top of its target |
| `CollisionLoading.CollisionLoader.Release` | Client/CollisionLoader.cpp:1071-1126 | the last reference detaches and frees, unless another collision lies on top |
| `CollisionLoading.CollisionLoader.Unload` | Client/CollisionLoader.cpp:1128-1180 | the same without references, refused while any is held |
| `ModelIndices.IndicesAreDistinct` | Server/src/CVehicleManager.hpp:87-128 | in every run with fewer than 2^32 - 212 allocations, so that the counter does not run over, no two valid models share an index and custom ones lie above 211 |
| `ModelIndices.BaseIndicesAreOnto` | Server/src/CVehicleManager.hpp:113-118 | base models take all of 0 to 211 |
| `ModelIndices.IndicesAreNotReused` | Server/src/CVehicleManager.hpp:87-111 | in such a run an index, even of an unregistered model, never goes to another model |
| `ModelIndices.RegisteringAgainGivesANewIndex` | Server/src/CVehicleManager.hpp:87-111 | a model unregistered has no index, and registered again it gets one that no model had before |
| `ModelIndices.RegisteredIff` | Server/src/CVehicleManager.hpp:87-111 | over every run a custom model has an index exactly when it was added and not removed since |
| `ModelIndices.IndexStays` | Server/src/CVehicleManager.hpp:87-128 | a model keeps its index until it is removed, whatever is done with the others |
| `ModelIndices.RegisterKeepsDistinctIff` | Server/src/CVehicleManager.hpp:102-104 | registering keeps the indices distinct if and only if the model is valid already, or the counter stands at no base index and no index in use |
| `ModelIndices.CounterComesRound` | Server/src/CVehicleManager.hpp:102-104 | a run after which the counter is zero and the next model shares its index with base model 400 |
| `ModelIndices.VehicleRegistry.RegisterCustomModel` | Server/src/CVehicleManager.hpp:87-105 | the index returned is the model's index from then on |
| `TaskQueue.TasksRunOnceInOrder` | Client/MainThreadQueue.h:24-45 | over any interleaving every pushed task is settled once in the order of pushes, and a settled task never ran if and only if an earlier task of its batch threw |
| `TaskQueue.PushedDuringADrainWaits` | Client/MainThreadQueue.h:30-45 | a task pushed while a drain runs is not settled before the next one |
| `TaskQueue.MainThreadQueue.DrainOnMainThread` | Client/MainThreadQueue.h:35-45 | a drain runs the batch up to the first task that throws and drops the rest, and whatever any thread pushed meanwhile is pending, in order |

## Left out

- Unpacking and storing outside the lock are one step with the last locked section of `OnTransferEnd`.
- Two clock readings inside one handler or worker pass are one reading.
- The list of completed transfers, progress for the user interface, `RetryAllFailed`, `Snapshot`, error texts and logging.
- What the queued functions do beyond erasing an entry and calling `onReady`; a call is counted when its function is queued.
- SHA-256 and zlib are arbitrary functions; a hash collision is not excluded by any theorem.
- RakNet framing: packets are decoded values, and a short read of a chunk's payload is a stream shorter than its length field.
- JSON text, creation of directories, the index of servers and switching between servers: the manifest is a nested map of one server.
- Hash-map order: tasks pushed by one loop are a multiset, and loops over maps take the keys in any order.
- Config file text: comments, separators and number syntax; the settings that neither the transfer nor the cache proof uses.
- AssetCache.ModelCache.Sweep: the limit is met when every removal succeeds; a file another process keeps open stays, though the loop takes its size off.
- The engine's reading of a COL body, `SelectRecord`, `ModelNameEquals` and file reading: Load takes their outcome as a parameter.
- The engine's `SetColModel` beyond the pointer: whether a model owns its collision is taken as fixed.
- `Shutdown`, `Attach` and `Detach` of the collision loader, and running out of memory.
- `m_customHandlings`, `OnVehicleStreamIn`, custom-model bindings during handling runs, and vehicles that stream in or out during a run.
- The contents of handling records in the precedence theorems, which are about addresses; derived values, flying and door states.
- Attribute entries other than those with a conversion, and rounding: handling values are reals.
- Offsets, plates, colours and applied vehicles of a binding, textures, audio and render objects of a model.
- `m_gameVehicleToSampId`, whose entries rebinding leaves behind.
- LifetimeTheorems.UseCountIsBindingCount: speaks of ids from 20000 up; counts of engine models also count vehicles in the world.
- ChunkWalk.ExtractClump: takes buffers of at most 2^31 - 1 bytes, the most a vector holds where size_t has 32 bits.
- The server's transfer manager and config parser are not part of this model.
