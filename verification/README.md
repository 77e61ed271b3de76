# Models of OpenAFC's stateful services

A Dafny project that models five stateful parts of OpenAFC and proves what they keep, over all
inputs, all interleavings and all runs.

To verify: `dafny verify dfyconfig.toml`.

1. **The ALS siphon** (`als/als_siphon.py`): messages from Kafka are assembled into bundles, stored,
   and their offsets committed. `KafkaOffsets`, `Heapq`, `AlsBundle`, `AlsConfluence`, `BundleObject`
   and `IncompleteBundles` are its classes; `SiphonProtocol` is the commit protocol as a state
   machine with crashes, `SiphonRuns` what holds in all its runs and `SiphonPlaces` where messages end
   up; `Siphon` is the loop, each method of which is shown to be a run of that protocol,
   `SiphonTurns` what holds for its turns and for siphons one after the other, and `SiphonLogs` what
   becomes of log topics. `AlsHistory` says what a bundle is
   after any messages. The main result is at-least-once safety (`AtLeastOnce`, `MainLoop`,
   `LoopIsSafe`) with the exact conditions under which nothing is lost (`LostExactlyByFailures`,
   `AtLeastOnceExactly`).
2. **The cache of terrain tiles** (`src/afc-engine`): `LruValueCache`, `GdalTransform`, `CachedGdal`
   and `NameMapper`, over real numbers. The main result is transparency: in every state of the cache
   the cached and the direct route read the same pixel (`GetTileVector`, `GetPixelDirect`,
   `OnePixelAt`), with the assumption about the file mapper proved for the SRTM name pattern
   (`SrtmServes`).
3. **The preloaded file tree and the cache on disk** (`src/afc-engine-preload`): `FileList` writes the
   list, `FileTree` reads it into linked entries, `FileLookup` and `FindFile` show that the tree is
   the directory and that paths lead to its entries. `DiskCache` is the cache shared by processes as
   a state machine of single accesses, `DiskProgress` its freedom from deadlock, `DiskAccount` its
   book-keeping, `DiskExamples` what goes wrong and exactly when processes can get stuck
   (`StuckExactly`), and `ReadData` one process reading while the others do as they like.
4. **The response cache** (`rcache`): `RcacheDb` has the statements on the table, `RcacheService` the
   updater, the invalidator and the precomputer with its quota.
5. **From a change of the FS database to invalid responses**: `TileDiff` and `Ras` find the tiles,
   `TileReport` prints and reads them, `ChangePipeline` widens and invalidates them. The main result,
   `PropagateChange`, goes through all of these.

`Wrappers` and `Decimals` are shared. Files have the name of the component, modules too, except where
a class needs the name (`LruCache`, `GdalGeometry`, `SiphonLoop`, `RcacheWorkers`).

## Where the code does otherwise

The models do what the code does. These lemmas and methods give an input for which that is not what
the documentation or a reader would expect, and say under which condition it is:

- One bundle that cannot be taken apart rolls back its whole batch, and the offsets of the good bundles
  are committed all the same (`GoodBundleIsLost`). `LostExactlyByFailures` says when messages are lost
  that way: exactly if some batch is refused or has such a bundle. If none does, everything below a level
  is stored or has a record (`LoopKeepsAll`); in any case it is that or rolled back (`LoopIsSafe`).
- The Kafka client is configured to commit on its own what it has handed over, by `enable.auto.commit`.
  Such a commit can lose a message (`LibraryCommitLoses`). A step of that kind is harmless exactly if
  everything handed over before it is settled (`LibraryCommitIsSafe`), and so is a run (`AtLeastOnceExactly`).
- An expire time that is not text raises an error that the siphon does not catch: it ends (`TakeApart`,
  `MainLoop`).
- A message that repeats one of its bundle is never marked processed and holds up the commits of its
  partition until a restart (`RepeatedMessageBlocksCommits`; `CommitPasses` has all that holds them up).
- `getValueAt` compares with the no-data value of the recent file, which after a direct reading need not
  be the file of the tile at hand (`StaleNoData`; `SameValue` says when it matters, and `ReadBothWays`
  that nothing happens if the files agree).
- A file that, without its margins, is wider than 360 degrees has columns that cannot be told apart by
  longitude (`AmbiguousTile`; `Unambiguous` is the condition).
- Longitude 180 is in the file W180, but asks for E180 (`SrtmServes`); points of the equator have names of
  their own if the latitude is rounded up (`CdsmSameName`).
- `find_fe` follows a null pointer for two components or more below an entry without entries
  (`FindsEntries`, both directions).
- The counters of open files have 8 bits: from the 128th descriptor on, a process can wait for itself
  (`WaitsForItself`; below that `NoDeadlock`).
- Files whose names differ in slashes and underscores only share a semaphore: a process with one open file
  can wait for itself (`SharedNameBlocks`). `StuckExactly` says for which files that can be.
- Whether a download was complete is decided by a comparison of 32-bit integers: for some sizes above 2 GiB,
  a part of a file is taken for the whole (`WholeIsWhole` has these sizes).
- Two processes that cut the same cached file both subtract its size (`SubtractedTwice`,
  `CounterGoesBelow`). With one process whose downloads arrive the size of the cache keeps to its limit
  (`OneProcessKeepsLimit`).
- Of two paths of one identification that differ in the same database only one gets its tiles
  (`TwoPathsOneIdent`; `CoveredExactly` has the condition). A restricted area that is a line of whole
  degrees has no tiles (`TilesCover`).
- The invalidation of a ruleset ends when 1000 valid rows were looked at and none was of the ruleset, even
  if others are (`NothingMeansDone` has the condition).
- `delete` removes all rows of a serial number (`RcacheDbAsync.Delete`).

## Model

| member | source | states |
|---|---|---|
| KafkaOffsets.PartitionOffsets.Add | als/als_siphon.py:714-720 | an offset not yet known is tracked as not processed; a known one changes nothing; heap and catalog keep holding the same offsets |
| KafkaOffsets.PartitionOffsets.MarkProcessed | als/als_siphon.py:722-729 | marks one tracked offset or all of them; an unknown offset changes nothing |
| KafkaOffsets.PartitionOffsets.GetProcessedOffset | als/als_siphon.py:731-742 | the result is the greatest tracked offset with everything tracked at or below it processed (none exactly if there is no such offset), and exactly the offsets at or below it are removed |
| KafkaOffsets.LevelIsUnique | als/als_siphon.py:734-736 | there is one commit level only, so that the level taken from the heap is determined by what is tracked |
| KafkaOffsets.KafkaPositions.Add | als/als_siphon.py:753-762 | as for one partition; no other partition changes |
| KafkaOffsets.KafkaPositions.MarkProcessed | als/als_siphon.py:764-778 | marks the offset in its partition; nothing happens for an unknown partition |
| KafkaOffsets.KafkaPositions.MarkTopicProcessed | als/als_siphon.py:776-778 | marks all offsets of all partitions of the topic and of no other topic |
| KafkaOffsets.KafkaPositions.GetProcessedOffsets | als/als_siphon.py:781-796 | the levels of all partitions at once; emptied partitions are deleted, all others keep what is above their level |
| AlsBundle.StepKeepsCovered | als/als_siphon.py:1014-1072 | a message, accepted or not, leaves an assembled bundle with a catch-all config or with configs for exactly its requests (count test plus range test, by the pigeonhole principle) |
| AlsBundle.AssembledIsCovered | als/als_siphon.py:1063-1067 | the same after every sequence of messages, also those that raise; hence the config lookup of take_apart (1104-1105) never misses |
| AlsBundle.UnusableForGood | als/als_siphon.py:1132-1141 | once a config is out of range or the requests cannot be counted, no further message is ever accepted |
| AlsBundle.AssembledFromAccepted | als/als_siphon.py:1014-1072 | an assembled bundle is what its accepted messages alone make, and the positions it reports as processed are exactly theirs |
| AlsConfluence.FedFamily | als/als_siphon.py:1022-1068 | with one request of n entries, one response and configs that share out 0..n-1, the bundle is incomplete after each beginning and complete at the end |
| AlsConfluence.FamilyInAnyOrder | als/als_siphon.py:1014-1068 | being such a family of messages does not depend on their order |
| AlsConfluence.AssemblyIsConfluent | als/als_siphon.py:1014-1072 | every order of arrival is accepted message by message, assembles the bundle exactly at the last one, and gives the same request, response and config map |
| AlsHistory.OutcomeExactly | als/als_siphon.py:1014-1072 | a message is passed over exactly if the bundle is assembled or has one of that kind, and raises exactly if it is unreadable or with it a config is for a request that is not there |
| AlsHistory.MadeOfAccepted | als/als_siphon.py:1014-1072 | whatever messages came, a usable bundle has the request and the response of those that were accepted, under each index the last config for it, and under the catch-all the last one for all |
| AlsHistory.AssembledExactly | als/als_siphon.py:1063-1067 | for all messages that fit a request of n entries, in any order and with repetitions: the bundle is assembled exactly when there is a request, a response that is not null, and a config for all requests or one for each |
| AlsHistory.AcceptedExactly | als/als_siphon.py:1020-1037 | of these a message is accepted exactly if the bundle is not assembled before and has no request or response of that kind |
| AlsHistory.AssembledByForAll | als/als_siphon.py:1063-1067 | with a config for all requests and others in range that do not name every request, it is assembled as soon as request, response and the config for all are there |
| AlsHistory.CatchAllFamily | als/als_siphon.py:1014-1072 | a request of n entries, a response and a config for all are accepted in every order, assemble the bundle exactly at the last of them, and are what it has |
| AlsHistory.PairsHaveOwnConfigs | als/als_siphon.py:1104-1105 | the config of a pair is the one of the last accepted message that has one for this request, or of the last one for all if none has |
| BundleObject.AlsMessageBundle.Update | als/als_siphon.py:1014-1072 | the object changes as the specification of one message says, whatever the kind of message and outcome; an assembled bundle keeps its configs complete |
| BundleObject.AlsMessageBundle.FileConfig | als/als_siphon.py:1058-1062 | files a config under each of its indexes, or under the catch-all if it has none |
| BundleObject.AlsMessageBundle.CheckConfigIndexes | als/als_siphon.py:1132-1141 | false exactly where the code raises |
| BundleObject.MapResponses | als/als_siphon.py:1095 | the last response of each id, whatever kind of value the id is; fails exactly if one has no id |
| BundleObject.MatchRequests | als/als_siphon.py:1096-1119 | each request that takes a response is paired with it: the bodies of both with blanked ids, the expire time moved out, and the config filed under its index or else the one for all; the others are orphans, and pairs plus orphans are as many as the requests, also with repeated ids |
| BundleObject.OrphansInOrder | als/als_siphon.py:1099-1101 | the orphans are exactly the requests that take no response, in their order |
| BundleObject.ReadableExactly | als/als_siphon.py:1095-1113 | a bundle can be taken apart exactly if every response has an id, every request one of text, and the last response with the id of a request has an expire time that can be read, or none |
| BundleObject.FirstBadDecides | als/als_siphon.py:1106-1113 | the first request that takes a response with a bad expire time decides whether the exception is caught: not if that is not text |
| BundleObject.CollectLeft | als/als_siphon.py:1128-1129 | exactly the responses nobody took are left over |
| BundleObject.SortOut | als/als_siphon.py:1095-1130 | pairs plus left-over responses are as many as the different response ids; it raises exactly if an element has no id or the expire time of a taken response cannot be read, and says whether the siphon catches that |
| BundleObject.AlsMessageBundle.TakeApart | als/als_siphon.py:1074-1130 | envelopes with emptied lists, pairs as for MatchRequests, and orphans; succeeds exactly on the bundles that can be taken apart; fails with an error that is not caught exactly where a taken response has an expire time that is not text before anything else goes wrong; a second call gives the stored result of the first, also after a failure |
| IncompleteBundles.IncompleteAlsBundles.AddMessage | als/als_siphon.py:2902-2922 | the collection afterwards is the one the specification of a message gives; a new bundle is made exactly for a new key; heap order holds again unless the message raises |
| IncompleteBundles.IncompleteAlsBundles.GetOldestBundle | als/als_siphon.py:2924-2926 | none exactly if there are none, otherwise one whose last update is the earliest of all |
| IncompleteBundles.IncompleteAlsBundles.RemoveOldestBundle | als/als_siphon.py:2932-2936 | the bundle at the top leaves queue and map together, and heap order is kept |
| IncompleteBundles.IncompleteAlsBundles.TakeOut | als/als_siphon.py:2960-2962 | one bundle leaves, the rest is a heap again |
| IncompleteBundles.IncompleteAlsBundles.FetchAssembled | als/als_siphon.py:2938-2964 | terminates although the queue is reordered in the loop; returned and remaining bundles together are those that were there; each returned one is assembled and on its own within the limit of requests; if all bundles are assembled and small enough all come back, up to the limit of bundles; nothing comes back only if nothing is assembled or an assembled bundle is too large; queue and map agree and heap order is kept |
| SiphonProtocol.NextInv | als/als_siphon.py:3302-3452 | every event keeps the invariant of the commit protocol: what is below a level is settled, what was received from there on is tracked or settled, what is marked is settled, each held message is in one place; for a commit of the client on its own if it finds everything settled |
| SiphonProtocol.LevelIsSettled | als/als_siphon.py:3445-3452 | a level taken for a commit has nothing unsettled at or below it |
| SiphonProtocol.CommitRaises | als/als_siphon.py:3445-3452 | a commit moves the level strictly up, and not beyond what was received |
| SiphonProtocol.LibraryCommitIsSafe | als/als_siphon.py:3026 | in any state, a commit that the client makes on its own leaves nothing unsettled behind exactly if everything handed over before it is settled |
| SiphonProtocol.NextRises | als/als_siphon.py:3445-3452 | the siphon's own commits only move levels up, and never past a message that is tracked |
| SiphonProtocol.NextExplained | als/als_siphon.py:3324-3452 | a tracked message that is not processed is in a bundle in memory, in one that is being written, or a repeated one |
| SiphonProtocol.HeldUpExactlyBy | als/als_siphon.py:731-742 | an offset can be committed exactly if no message at or below it is in such a place |
| SiphonRuns.RunInv | als/als_siphon.py:3302-3322 | the invariant holds after every sequence of events, with crashes, restarts and commits of the client that find everything settled |
| SiphonRuns.AtLeastOnce | als/als_siphon.py:3302-3452 | in every run without commits of the client on its own, everything below a level is stored, dropped or rejected with a record, logged, or was rolled back, and no commit reaches a message held in memory |
| SiphonRuns.AtLeastOnceExactly | als/als_siphon.py:3026 | with such commits, everything below a level is settled in all states of a run exactly if each of them finds everything settled that was handed over before it |
| SiphonRuns.NotSkipped | als/als_siphon.py:3141-3159 | the consumer does not get past a message without handing it over |
| SiphonRuns.ReadAgainAfterCrash | als/als_siphon.py:3141-3159 | after a crash no run gets past a message that is not settled without handing it over again |
| SiphonRuns.GoodBundleIsLost | als/als_siphon.py:3404-3419 | where the code does not do what one would want: a legal run from the start in which a bundle that can be taken apart is rolled back with another one that cannot, and its messages are committed, will not be handed over again and are nowhere |
| SiphonRuns.NothingLost | als/als_siphon.py:3404-3419 | in every run, no message is lost exactly if no batch with bundles in it is rolled back |
| SiphonRuns.AllKept | als/als_siphon.py:3302-3452 | then everything below a level is stored, or has a record of why not |
| SiphonRuns.CommitGoesUp | als/als_siphon.py:3445-3452 | no other event lowers a level, a commit raises it to one above what it commits |
| SiphonRuns.CommitsIncrease | als/als_siphon.py:781-796 | over a whole run the levels committed for a partition strictly increase, across crashes and the deletion of emptied partitions |
| SiphonRuns.CommitPasses | als/als_siphon.py:731-742 | in every run, a commit passes a tracked message exactly if no message at or below it is in a bundle or was passed over as a repeated one |
| SiphonRuns.RepeatedMessageBlocksCommits | als/als_siphon.py:1022-1038 | a repeated message is never marked processed: until a restart no commit passes it |
| SiphonRuns.StoredWasRead | als/als_siphon.py:3390-3412 | every stored bundle is one that comes apart, and is made of messages that were read under one key |
| SiphonRuns.LibraryCommitLoses | als/als_siphon.py:3026 | a legal run from the start in which the client commits a message on its own, the siphon ends, and the message is not settled |
| SiphonTurns.NothingMore | als/als_siphon.py:731-742 | taking the levels again right away gives none |
| SiphonTurns.TurnsLose | als/als_siphon.py:3302-3322 | over any turns of the loop, a batch is rolled back exactly in the turns in which it is refused or has a bundle that cannot be taken apart |
| SiphonTurns.LoopIsSafe | als/als_siphon.py:3302-3322 | whatever a siphon and those before it did, each until it ended at any point: everything below a level is settled and no commit reaches a message in memory |
| SiphonTurns.LostExactlyByFailures | als/als_siphon.py:3302-3322 | messages are lost exactly if in some turn of some of these siphons the batch is refused or has a bundle that cannot be taken apart |
| SiphonTurns.LoopKeepsAll | als/als_siphon.py:3302-3322 | if that does not happen, everything below a level is stored, or has a record of why not |
| SiphonLogs.LogsAreCommitted | als/als_siphon.py:3351-3388 | when a turn ends, every message of a log topic that it read is marked and committed |
| SiphonLogs.LoopCommitsLogs | als/als_siphon.py:3302-3322 | the same over any number of turns |
| SiphonPlaces.IsOnShelfExactly | als/als_siphon.py:3390-3443 | over every run, a bundle is in the database exactly if a write that succeeded had it in its batch, recorded as incomplete exactly if it was timed out, and rolled back exactly if a write with it failed |
| SiphonPlaces.RecordStep | als/als_siphon.py:3324-3388 | a message is recorded as rejected exactly if its envelope is malformed or its bundle raises, and a log message as handled exactly when its topic is marked |
| SiphonPlaces.HeldStep | als/als_siphon.py:2902-2922 | a message goes into the bundle of its key, a new one if there is none, and no other bundle changes; writes and time-outs take out exactly theirs |
| SiphonLoop.Siphon.ReadAlsMessage | als/als_siphon.py:3332-3349 | one turn of the loop is the read event: tracked, put into its bundle, and marked if it is malformed |
| SiphonLoop.Siphon.ReadAlsKafkaMessages | als/als_siphon.py:3324-3349 | what it does is a run of the protocol, one read event for each message in their order |
| SiphonLoop.Siphon.ProcessLogKafkaMessages | als/als_siphon.py:3351-3388 | a read event for each log message, and only then the topic is marked |
| SiphonLoop.Siphon.ReleaseBundle | als/als_siphon.py:1153-1156 | the destructor marks exactly the positions of its bundle |
| SiphonLoop.Siphon.TakeApartAll | als/als_siphon.py:3404-3406 | no error exactly if each bundle of the batch can be taken apart, otherwise the first error; in any case the positions of the bundles stay |
| SiphonLoop.Siphon.TakeBatch | als/als_siphon.py:3397-3422 | the batch leaves the collection and is stored as a whole, or, exactly if a table refuses it or one of its bundles cannot be taken apart, rolled back as a whole |
| SiphonLoop.Siphon.WriteAlsMessages | als/als_siphon.py:3390-3423 | write and release are a run of the protocol; the batch is rolled back exactly if it is refused or has a bundle that cannot be taken apart, and all bundles taken out are released; nothing is written only if there is nothing to fetch; the siphon ends if an error is not caught |
| SiphonLoop.Siphon.TimeoutAlsMessages | als/als_siphon.py:3425-3443 | terminates; each bundle dropped is not younger than the boundary and is released after its record is written; if the heap is in order none of that age is left |
| SiphonLoop.Siphon.CommitKafkaOffsets | als/als_siphon.py:3445-3452 | commits exactly the levels of what is tracked, and nothing if there are none; afterwards nothing can be committed |
| SiphonLoop.Siphon.MainLoop | als/als_siphon.py:3302-3322 | any number of turns of the loop, with the objects above, is a run of the protocol, and the objects agree with its state; turn by turn it reads all messages, writes exactly if the batch can be written, times out and commits as IsTurn says; it ends early only where an error is not caught |
| SiphonLoop.Siphon.OneTurn | als/als_siphon.py:3305-3322 | one turn, in the order read, write, time out, commit, with the batch stored or rolled back as its bundles and the database decide |
| SiphonLoop.Siphon.Again | als/als_siphon.py:3201-3230 | a siphon that starts after another one has ended is in the state after a crash: nothing in memory, and reading goes on at what is committed |
| LruCache.LruValueCache.Add | src/afc-engine/LruValueCache.h:54-78 | the key comes first in the list, the last one goes if there is no room, list and map hold the same keys, recent key and value are those of the front |
| LruCache.LruValueCache.Get | src/afc-engine/LruValueCache.h:84-95 | a hit moves the key to the front, a miss changes nothing but the count |
| LruCache.LruValueCache.Clear | src/afc-engine/LruValueCache.h:98-104 | nothing is left, also no recent key |
| LruCache.HoldsMostRecent | src/afc-engine/CachedGdal.cpp:346-392 | after any history of lookups followed by additions on a miss, the list is the first capacity keys by recency of that history |
| LruCache.RecencyIsDistinct | src/afc-engine/LruValueCache.h:54-95 | the keys by recency are the keys of the history, each once |
| LruCache.LargerHoldsMore | src/afc-engine/LruValueCache.h:54-95 | what a smaller cache holds is the beginning of what a larger one holds |
| GdalGeometry.RebaseLon | src/afc-engine/GdalTransform.cpp:45-54 | both loops terminate, with the value specified by RebasedIsUnique |
| GdalGeometry.RebasedIsUnique | src/afc-engine/GdalTransform.cpp:45-54 | the rebased longitude is the only value congruent modulo 360 in [base, base + 360) |
| GdalGeometry.CoveredIsInside | src/afc-engine/GdalTransform.cpp:114-143 | a point that the bounding rectangle contains has row and column in [floor(margin), size - floor(margin)) |
| GdalGeometry.PixelHasPoint | src/afc-engine/GdalTransform.cpp:114-122 | row and column count the whole pixels between the top of the file, or its left side, and the point, after the turns that bring it behind the margin |
| GdalGeometry.ComputePixel | src/afc-engine/GdalTransform.cpp:114-135 | throws exactly if off by more than a pixel, otherwise clamps; for a contained point it neither throws nor clamps |
| GdalGeometry.TileAgrees | src/afc-engine/GdalTransform.cpp:88-101 | where tile and file cover the point, the index in the tile is that in the file minus the offset of the tile |
| GdalGeometry.TileHasItsPixels | src/afc-engine/GdalTransform.cpp:88-101 | a tile covers all contained points whose pixels it has |
| GdalGeometry.AmbiguousTile | src/afc-engine/GdalTransform.cpp:45-54 | for a file wider than 360 degrees plus its margins there is a point and a tile with another column of the file: the condition of the two lemmas before cannot be dropped |
| CachedGdal.CachedGdal.GetGdalDataset | src/afc-engine/CachedGdal.cpp:442-459 | the dataset of the name, whether recent, held or opened |
| CachedGdal.CachedGdal.AddGdalInfo | src/afc-engine/CachedGdal.cpp:461-491 | remembers a file or that there is none; only a file becomes the recent one |
| CachedGdal.CachedGdal.FindGdalInfo | src/afc-engine/CachedGdal.cpp:396-432 | whatever was seen before, finds the file that covers the point if there is one |
| CachedGdal.CachedGdal.GetGdalPixel | src/afc-engine/CachedGdal.cpp:396-440 | row and column in the file that covers the point; none exactly if no file does |
| CachedGdal.CachedGdal.GetPixelDirect | src/afc-engine/CachedGdal.cpp:290-320 | the pixel of the file that covers the point; an error exactly for a wrong band |
| CachedGdal.TileHasPixel | src/afc-engine/CachedGdal.cpp:277-288 | in a tile read from its file, the index computed with the transform of the tile is that of the pixel of the file |
| CachedGdal.PointHasTile | src/afc-engine/CachedGdal.cpp:340-345 | the key computed for a contained point is of a tile that covers the point |
| CachedGdal.CachedGdal.AtHandServes | src/afc-engine/CachedGdal.cpp:327-332 | the recent tile passes the double boundary check exactly if it and its file cover the point in that band |
| CachedGdal.CachedGdal.FindTile | src/afc-engine/CachedGdal.cpp:322-394 | by shortcut, hit or reading, the recent tile covers the point afterwards, its key is added to the history of the cache, and the list is what that history makes it; none exactly if no file covers the point |
| CachedGdal.CachedGdal.HoldsRecentTiles | src/afc-engine/CachedGdal.cpp:322-394 | at any time the tiles in the cache are those of the last different keys that were used, as many as there is room for |
| CachedGdal.CachedGdal.GetTileVector | src/afc-engine/CachedGdal.cpp:277-288 | the pixel at the index in the tile is the pixel of the file; the same failures as the direct route |
| CachedGdal.OnePixelAt | src/afc-engine/CachedGdal.cpp:277-320 | there is one answer for a point and band: cached and direct reading agree for every state of the cache |
| CachedGdal.CachedGdal.GetValueAt | src/afc-engine/CachedGdal.h:678-718 | by both routes there is a value exactly if there is a pixel and it is not the no-data value of the recent file, and it is the pixel; otherwise it is the override of the band if there is one, be there a pixel or not, and the no-data value if not |
| CachedGdal.MissingAfterSet | src/afc-engine/CachedGdal.h:700-738 | after a value was set for a band, a reading of it gives that value wherever there is no pixel or the no-data one |
| CachedGdal.ReadBothWays | src/afc-engine/CachedGdal.h:678-718 | if all files have the same no-data values, cached and direct value are the same in every state |
| CachedGdal.StaleNoData | src/afc-engine/CachedGdal.h:700-711 | otherwise they need not be: after a direct reading in another file, the tile at hand is judged by the no-data value of that other file |
| CachedGdal.SameValue | src/afc-engine/CachedGdal.h:700-711 | exactly when the choice of the file for the no-data value makes a difference |
| CachedGdal.CachedGdal.SetNoData | src/afc-engine/CachedGdal.h:734-738 | overrides one band and no other; an error exactly for a wrong band |
| NameMapper.ComputeName | src/afc-engine/GdalNameMapper.cpp:136-188 | the two loops over the parts of a pattern give the name specified |
| NameMapper.NumberOfMoved | src/afc-engine/GdalNameMapper.cpp:140-160 | the operations that end with 1 give the number below or above also for whole numbers, and go on at the other side of the date line |
| NameMapper.SrtmName | src/afc-engine/GdalNameMapper.cpp:136-188 | names by the SRTM pattern have hemisphere and absolute value of the lower left corner of the cell |
| NameMapper.SrtmSameName | src/afc-engine/GdalNameMapper.cpp:136-188 | two points have the same SRTM name exactly if they are in the same cell (N, N+1] x [M, M+1), at the equator and at Greenwich too |
| NameMapper.CdsmSameName | src/afc-engine/GdalNameMapper.cpp:136-188 | for the pattern with the rounded-up latitude this holds except at the equator: its points are named apart from the rest of their cell |
| NameMapper.CellContains | src/afc-engine/GdalTransform.cpp:30-35 | these cells are exactly what the one-degree rectangle contains |
| NameMapper.SrtmServes | src/afc-engine/GdalNameMapper.cpp:136-188 | with one file for each cell, the mapper names the file that covers a point exactly for longitudes in [-180, 180), or if there is no such file |
| FileList.ListWriter.WriteObj | src/afc-engine-preload/parse_fs.py:20-41 | one more line; counts of files and directories and the greatest tab are those of all lines |
| FileList.ListWriter.ParseDir | src/afc-engine-preload/parse_fs.py:48-67 | the lines of a directory in preorder, directories before files, empty ones left out |
| FileList.SortSorts | src/afc-engine-preload/parse_fs.py:62-63 | sorting by name gives the same entries in ascending order |
| FileList.WriteList | src/afc-engine-preload/parse_fs.py:70-83 | header and lines of the tree; fails exactly if a count or the greatest tab does not fit its bytes |
| FileTree.LittleEndianRoundTrip | src/afc-engine-preload/parse_fs.py:28 | numbers that fit are read back from their bytes |
| FileTree.ReadLine | src/afc-engine-preload/aep.cpp:1010-1019 | tab, name and size of the line, and where the next line begins |
| FileTree.RoomForAll | src/afc-engine-preload/aep.cpp:982-987 | the 32-bit size of the entries is right exactly for less than 2^27 of them |
| FileTree.Place | src/afc-engine-preload/aep.cpp:1020-1032 | after a deeper or shallower line, the directory and the last entry in it are found again |
| FileTree.LastIn | src/afc-engine-preload/aep.cpp:1023-1026 | following the links from the first entry ends at the last one |
| FileTree.Link | src/afc-engine-preload/aep.cpp:1033-1042 | one entry is added and one link set, all other entries stay as they are |
| FileTree.AddLine | src/afc-engine-preload/aep.cpp:1005-1042 | one turn of the loop extends the tree by one line and needs no more of the stack than the greatest tab plus one |
| FileTree.Fill | src/afc-engine-preload/aep.cpp:978-1043 | all lines of the list, each linked to the next of its directory and to the first in it; as many entries as directories and files are counted, no index out of bounds |
| FileLookup.RebuildsListed | src/afc-engine-preload/aep.cpp:1004-1043 | the tree filled from the list of a directory is exactly what is listed of it, with names, sizes and order |
| FileLookup.ListIsGood | src/afc-engine-preload/parse_fs.py:48-67 | what is written for a directory with well-formed names satisfies what the reading loop relies on |
| FileLookup.WriteAndFill | src/afc-engine-preload/aep.cpp:978-1043 | writing and reading together: only the depth of the tree can make them fail |
| FindFile.JoinedRoundTrip | src/afc-engine-preload/aep.cpp:477-491 | the components taken from a path are those it was joined from |
| FindFile.Search | src/afc-engine-preload/aep.cpp:494-503 | the first entry of that name in the directory, or none |
| FindFile.FindFe | src/afc-engine-preload/aep.cpp:477-506 | walks the path component by component; a null pointer is followed exactly where the specification says |
| FindFile.FirstListed | src/afc-engine-preload/parse_fs.py:48-67 | of each name the listed entry is found, and no other |
| FindFile.FindsEntries | src/afc-engine-preload/aep.cpp:477-506 | each path leads to the entry that the directory has there, and to none if it has none; a null pointer is followed exactly if the path goes on for two or more components below an entry without entries |
| FindFile.ListAndFind | src/afc-engine-preload/aep.cpp:477-506 | written, read and looked up: the entry of the directory with its size |
| DiskCache.NextSemInv | src/afc-engine-preload/aep.cpp:292-307 | a semaphore, which files with similar names share, is held by exactly the process between taking and giving it back; nobody frees a file with the semaphore of the one it reads |
| DiskCache.NextCacheInv | src/afc-engine-preload/aep.cpp:617-706 | each file in the cache stays the beginning of the remote file, and is whole where a process takes it from the cache, if its size fits the comparison |
| DiskCache.WholeIsWhole | src/afc-engine-preload/aep.cpp:1615-1647 | for which sizes the comparison of 32-bit integers takes nothing but the whole file for whole |
| DiskCache.OverwrittenIsPart | src/afc-engine-preload/aep.cpp:1615-1647 | a download, full or failed part-way, over what was there leaves a beginning of the remote file |
| DiskCache.NextReadInv | src/afc-engine-preload/aep.cpp:675-704 | all readings of a descriptor since the last seek, put together, are what the remote file has there |
| DiskCache.NextBudgetInv | src/afc-engine-preload/aep.cpp:638-671 | counter plus what is about to be added stays below the maximum plus one file for each further process |
| DiskCache.RunsAreSafe | src/afc-engine-preload/aep.cpp:557-706 | the three properties in every run of any number of processes; with one process the counter stays below the maximum |
| DiskProgress.NextOpenInv | src/afc-engine-preload/aep.cpp:589-615 | with at most 127 open descriptors for a hash the 8-bit counters are exact |
| DiskProgress.NextTimeInv | src/afc-engine-preload/aep.cpp:858-876 | whoever has a file open that another one waits to free, or one with the same counter, has opened it after that one looked |
| DiskProgress.OwnerIsAhead | src/afc-engine-preload/aep.cpp:858-876 | along a chain of waiting processes these times increase, so that there is no circle |
| DiskProgress.NoDeadlock | src/afc-engine-preload/aep.cpp:617-706 | whenever a process is in the middle of reading, some such process can go on, although it may hold one semaphore and wait for another; if few files are open and files with one semaphore have one counter or are too large to make room for |
| DiskExamples.StuckExactly | src/afc-engine-preload/aep.cpp:292-307 | for any files, hashes, semaphores, sizes and number of processes: in no run with few open files do the processes get stuck exactly if files with one semaphore have one counter or are too large to make room for |
| DiskExamples.SharedNameBlocks | src/afc-engine-preload/aep.cpp:292-307 | otherwise, a run from the start in which a process with one open file waits for the semaphore it has |
| DiskProgress.WaitsForItself | src/afc-engine-preload/aep.cpp:589-602 | with 128 descriptors the counter is 0 again: a run of one process that waits for the semaphore it has |
| DiskAccount.DriftStep | src/afc-engine-preload/aep.cpp:638-671 | exactly by how much each step makes the counter differ from the bytes in the cache |
| DiskAccount.DriftOnRun | src/afc-engine-preload/aep.cpp:638-671 | hence over every run of any number of processes: counter, what is owed to it and bytes in the cache balance |
| DiskAccount.OneGains | src/afc-engine-preload/aep.cpp:858-876 | a single process never makes the counter too small, unless a download breaks off; cutting a file keeps counter and bytes together |
| DiskAccount.OneProcessKeepsLimit | src/afc-engine-preload/aep.cpp:638-671 | in every run of a single process whose downloads arrive, the bytes in the cache stay below the maximum; it cuts files only as long as there is no room |
| DiskAccount.NextNeeded | src/afc-engine-preload/aep.cpp:643-646 | a single process cuts files only as long as there is no room for the file it reads |
| DiskAccount.RoomIsUsed | src/afc-engine-preload/aep.cpp:640-656 | a file for which there is room can be downloaded, and is whole in the cache and counted then |
| DiskAccount.SubtractedTwice | src/afc-engine-preload/aep.cpp:858-876 | two processes that come to the same file both subtract its size |
| DiskExamples.CounterGoesBelow | src/afc-engine-preload/aep.cpp:858-876 | from a start at which the counter is right, a run of two processes that ends with the counter below zero |
| ReadData.Process.LetOthers | src/afc-engine-preload/aep.cpp:617-706 | the other processes take any of their steps in between |
| ReadData.Process.Await | src/afc-engine-preload/aep.cpp:635 | waiting ends with the semaphore free, or with nothing left that others do |
| ReadData.Process.ReduceCache | src/afc-engine-preload/aep.cpp:858-884 | over the files in the given order, until there is room: if the others do nothing, the files visited that are in the cache and not open are cut and subtracted, no other file changes, and if not all were visited there is room |
| ReadData.Process.CacheFile | src/afc-engine-preload/aep.cpp:643-671 | ends with the file in the cache, or not |
| ReadData.WholeIsReadFromCache | src/afc-engine-preload/aep.cpp:638-684 | whatever the others do, a process that gets the semaphore of a file that is whole in the cache reads it from the cache |
| ReadData.Process.Read | src/afc-engine-preload/aep.cpp:617-706 | whatever the others do between its steps: the bytes are those of the remote file from the place where the last reading ended, all that were asked for if the size of the file fits |
| ReadData.Process.SeekTo | src/afc-engine-preload/aep.cpp:1428-1441 | the place to go on reading |
| ReadData.Process.OpenFile | src/afc-engine-preload/aep.cpp:709-769 | a new descriptor at the beginning of the file; the others stay as they are |
| ReadData.Process.CloseFile | src/afc-engine-preload/aep.cpp:777-796 | the descriptor is gone |
| TileReport.ParseTiles | uls/uls_service.py:631-647 | all matches of the regular expression from left to right, or an error if a number cannot be read |
| TileReport.RectOfTile | uls/fs_db_diff.py:114-119 | signs and absolute values give the tile back, also those that end at the equator or at Greenwich |
| TileReport.FloatOfFraction | uls/uls_service.py:631-647 | a number with digits behind a dot is read as the whole number plus the fraction |
| TileReport.FloatFailsExactly | uls/uls_service.py:631-647 | of what the expression matches, exactly numbers with two dots or without a digit cannot be read |
| TileReport.ReportRoundTrip | uls/fs_db_diff.py:681-737 | what is printed about tiles behind the summary is read as exactly the rectangles of these tiles |
| TileDiff.TileHasPoint | uls/fs_db_diff.py:277-286 | the tile of a receiver has the receiver |
| TileDiff.IdentHashToFsid | uls/fs_db_diff.py:642-657 | each pair of identification and hash of the database, with the FSID of a path that has it |
| TileDiff.DifferentPaths | uls/fs_db_diff.py:661-669 | for each identification with a difference, per database, the FSID of one differing path; none is missing |
| TileDiff.TilesOfDifference | uls/fs_db_diff.py:688-713 | the tiles are those of one differing path for each identification and database that has any: every tile has a receiver of a differing path, and a tile that all differing paths of some place have is there |
| TileDiff.CoveredExactly | uls/fs_db_diff.py:661-713 | a tile is there, whichever paths remain, exactly if for some identification and database all differing paths have it |
| TileDiff.AloneIsCovered | uls/fs_db_diff.py:661-713 | which all tiles of a path are if no other path of its identification differs in its database |
| TileDiff.OnePathPerIdent | uls/fs_db_diff.py:38-47 | which is so if no database has two paths of the same identification |
| TileDiff.TwoPathsOneIdent | uls/fs_db_diff.py:667-669 | otherwise tiles may be missing: of two such paths only those of one are reported |
| Ras.RectTiles | uls/fs_db_diff.py:352-373 | the tiles from floor to ceiling in both directions, longitudes brought back by one turn |
| Ras.AdjustedIsProper | uls/fs_db_diff.py:366-371 | the longitude of a tile is congruent and in [-180, 180) for areas within one more turn on both sides |
| Ras.TilesCover | uls/fs_db_diff.py:352-373 | they cover each point of the rectangle exactly unless the rectangle is a line of whole degrees, which has no tiles |
| Ras.RasRect.Extend | uls/fs_db_diff.py:388-399 | the rectangle gets the corner where it is nearest modulo 360 and loses nothing |
| ChangePipeline.NearIsInRect | rcache/rcache_db_async.py:144-152 | for rows with longitudes in [-180, 180], the comparison with the widened rectangle finds exactly the rows within the distance of a point of the rectangle, with longitudes modulo 360 |
| ChangePipeline.WidenedExactly | rcache/rcache_service.py:324-337 | the widened rectangle has exactly the places that are not further from some point of the rectangle than the distance: in latitude, and in longitude with a degree as long as the reduction at the middle latitude says |
| ChangePipeline.InvalidateTiles | rcache/rcache_service.py:319-337 | no valid row within the distance of one of the rectangles is left; a row that changes was valid, within the distance of one of them, and becomes invalid |
| ChangePipeline.PropagateChange | rcache/rcache_service.py:319-337 | end to end: after comparison, printing, reading and widening, every response within the distance of a receiver of a differing path in a tile that is surely reported, or of a tile of a restricted area, is no longer valid; what changes are valid rows within the distance of a tile with a receiver of a differing path or of a restricted area, which become invalid |
| RcacheDb.RcacheDbAsync.UpdateCache | rcache/rcache_db_async.py:74-94 | rows replace those with the same primary key, or are added |
| RcacheDb.RcacheDbAsync.Invalidate | rcache/rcache_db_async.py:96-132 | a row that changes was valid and has the name of the ruleset, if one is named, and becomes invalid; without a limit no such row is left; with a limit as many valid rows are looked at |
| RcacheDb.NothingMeansDone | rcache/rcache_db_async.py:116-126 | that no row was invalidated means that no valid row with the name of the ruleset is left, exactly if there is none or there are less valid rows with other names than the limit |
| RcacheDb.RcacheDbAsync.SpatialInvalidate | rcache/rcache_db_async.py:134-156 | no valid row is left that is in the rectangle after any number of turns of 360 degrees, if the rectangle reaches into [-180, 180]; all other rows stay as they are |
| RcacheDb.OneTurnIsEnough | rcache/rcache_db_async.py:144-152 | the three longitudes that are compared stand for all turns |
| RcacheDb.RcacheDbAsync.ResetPrecomputations | rcache/rcache_db_async.py:158-168 | no row is left that is being precomputed: these are invalid, and all other rows stay as they are |
| RcacheDb.RcacheDbAsync.NumPrecomputing | rcache/rcache_db_async.py:170-182 | all rows but the valid and the invalid ones |
| RcacheDb.RcacheDbAsync.GetInvalidReqs | rcache/rcache_db_async.py:184-210 | different invalid rows, as many as there are up to the limit, are marked, and the request of each comes back |
| RcacheDb.RcacheDbAsync.Delete | rcache/rcache_db_async.py:237-246 | all rows with the serial number go, because the statement is executed inside the loop over the key columns |
| RcacheWorkers.UpdaterWorker | rcache/rcache_service.py:260-285 | however the queue is divided into batches, the table ends as if the records had been written one by one in order |
| RcacheWorkers.RecordsOneByOne | rcache/rcache_service.py:265-281 | the records of the queue are those of its entries for the cache, in their order |
| RcacheWorkers.TakeBatch | rcache/rcache_service.py:265-281 | a batch has the last record of each primary key and is not larger than allowed |
| RcacheWorkers.RcacheService.InvalidateInChunks | rcache/rcache_service.py:303-318 | with steps of the other workers between its chunks: terminates, and then no valid row is left, or none with the name of the ruleset unless 1000 valid rows have other names; the quota is kept throughout, and if the others do nothing only valid rows with that name become invalid |
| RcacheWorkers.RcacheService.constructor | rcache/rcache_service.py:396-398 | after the reset nothing is being precomputed |
| RcacheWorkers.RcacheService.Look | rcache/rcache_service.py:403-407 | what the quota leaves |
| RcacheWorkers.RcacheService.LaunchMore | rcache/rcache_service.py:408-419 | one subtask for each row that is marked, with its request; the quota is kept |
| RcacheWorkers.RcacheService.TakeStep | rcache/rcache_service.py:371-425 | a step of any worker keeps the quota; invalidation never changes a row that is being precomputed; subtasks are started only by the precomputer, as many as rows are marked |
| RcacheWorkers.RcacheService.Run | rcache/rcache_service.py:371-425 | the number of rows being precomputed does not exceed the quota in any state, for any order of the steps of the workers, each of which does to the table what IsStep says |

## Left out

What the models do not have:

- Kafka, PostgreSQL, SQLite, GDAL, Google storage, HTTP: maps, rasters, sequences and values stand for what
  they hold. A database write is one step that is done or rolled back as a whole.
- JSON and digests: messages are decoded values that keep what the code checks about them; hashes of paths
  and of file names are given.
- Clocks: the time is a parameter, or counts certain steps (`DiskCache`).
- Floating-point rounding: degrees and pixels are real numbers. The clamping in `computePixel` is there, and
  is shown to do nothing.
- The table classes of the siphon, its metrics and its lookups; a siphon without an ALS database.
- When the Kafka library commits on its own: its commits may come at any point of a run.
- An exception of the log database, which ends the siphon: that is the crash event.
- `roundPpdToMultipleOf`, `setMarginsOutsideDeg` and `combine`: a transform is what it is after they were
  applied. `setTransformationModifier` and `forEachGdalInfo`, which read all files again or at once.
- Name patterns with wildcards, and the mapper that opens all files.
- Google storage as the remote side of the disk cache, `f_seek` for other C libraries, and directories in
  the disk cache.
- Restricted circles and their cosines; the reduction of longitude is a given function with values in
  [1/180, 1].
- The switches that stop single workers, except that the updater may be off.

Where a member states less than one might look for, or has another form than the source:

- KafkaOffsets.PartitionOffsets.Add: heap and catalog share one object per offset in the source; here the
  catalog has its state and the heap its number, so that a change through the one is not a change through
  the other.
- KafkaOffsets.KafkaPositions.GetProcessedOffsets: the two levels of dictionaries are one map by topic and
  partition.
- IncompleteBundles.IncompleteAlsBundles.AddMessage: nothing about heap order is stated after a message
  that raises, because the code does not restore it then.
- IncompleteBundles.IncompleteAlsBundles.FetchAssembled: no limit on the total of requests, which the code does
  not add up; and not that all assembled bundles are returned if some are not assembled, because the queue is
  put in heap order again behind the place that the loop has reached.
- SiphonRuns.AtLeastOnce: counts messages of rolled-back batches as settled, see AllKept; and not that
  every offset is settled at last, see RepeatedMessageBlocksCommits.
- SiphonTurns.LoopIsSafe: without commits of the client on its own, for which AtLeastOnceExactly is.
- SiphonRuns.StoredWasRead: not that a bundle is stored only once; after a crash it may be stored again.
- LruCache.LruValueCache.Add: recent key and value are copies where the source has pointers into the list
  and the map.
- CachedGdal.CachedGdal.FindTile: relies on the mapper naming the file that covers the point, for several
  files; NameMapper.SrtmServes shows it for one pattern.
- FileTree.Fill: for lists as they are written; what the loop does with other bytes is not stated.
- FileTree.RoomForAll: entries of 32 bytes, as on machines with 64-bit pointers.
- FindFile.FindFe: the buffer for a component has no bound.
- FileLookup.WriteAndFill: names that begin with a tab are excluded, since the reader takes it for
  indentation.
- DiskCache.RunsAreSafe: touching the file, counting it as open and opening it are one step, as are
  cutting a file and giving back its semaphore; the bound is for the counter, not for the bytes on disk.
  A remote file does not change.
- DiskCache.NextSemInv: the semaphores that guard the counters and the start of a process are not there,
  nor is a file name that gives the name of one of these.
- DiskProgress.NoDeadlock: some process can go on, not that each of them comes to an end. That at most 127
  descriptors are open for a hash is a condition on the run.
- DiskAccount.OneProcessKeepsLimit: for a single process, and downloads that do not break off, since what
  these leave in the cache is not counted (DriftStep).
- ReadData.Process.Read: no result where the others never give a semaphore back.
- TileDiff.DifferentPaths: the nested dictionaries are one map by identification and database; the order of
  the symmetric difference is any order.
- TileReport.ReportRoundTrip: tiles may be printed in any order, not only sorted.
- ChangePipeline.PropagateChange: no row is written while the tiles are invalidated. That a response
  changes only within the distance of a tile is for distances that are not negative.
- RcacheDb.RcacheDbAsync.Invalidate: which rows a limit takes is open.
- RcacheWorkers.RcacheService.InvalidateInChunks: one ruleset at a time, and a given sequence of what the
  other workers do; if they write valid rows for ever, the source does not come to an end either.
- RcacheWorkers.RcacheService.Run: the quota is fixed.
