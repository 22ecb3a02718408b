# etracker, verified model

A Dafny 4.11 model of the BitTorrent tracker etracker, with proofs of what its parts promise.
`dafny verify dfyconfig.toml` checks everything.

## What is modelled

* **The hash list** (`list.c`), on the heap: a 256-way tree of level 0 to 2 over doubly linked chains in `memcmp`
  order. `HashList` has the classes and the shape, `HashListOps` lookup, insertion and deletion, `HashListTraversal`
  the traversal whose callback may delete the current item, `HashListRebuild` creation, destruction and the rebuild
  at another level, `HashListOrder` the order of traversal, `HashListRun` whole runs against a finite map and the
  allocation counters. `HashOrder` and `Entries` hold the order on hashes and the values lists stand for.
* **The tracker** (`data.c`, `data_garbage.c`): `Tracker` is the state machine of announces, stops and collections
  with the laws of its cached counters over every run, `TrackerLaws` what event code 0 does to them and why nothing
  underflows without it, `Garbage` the collector's nested callbacks on values. `TorrentRecord` is one torrent on the
  heap, with the hash list of its peers; `TrackerHeap` the list of torrents with announces and stops,
  `TrackerCollector` the collector on one leaf of it, `TrackerCollection` on any part and on the whole, `TrackerRun`
  whole runs in which announces interleave with the collector's leaves: every operation takes exactly a step of that
  machine, and every heap block is accounted for. `PeerLaws` says in plain numbers what steps and runs do to single
  peers.
* **The answers** (`data.c`): `Render` the choice and the text of peers, `RenderList` the traversal of the peer list,
  `Announce` and `Scrape` whole answers, each read back by the independent reader of `Bencode` or at the offsets of
  BEP 15; `UdpRequest` the requests over UDP.
* **Whole announces** (`thread_client_tcp.c`, `thread_client_udp.c`): `Exchange`, from the bytes of a request over the
  step on the heap to what the client reads; `Clients`, what one client learns of another, at once and after any run.
* **The search for a location** (`geoip.c`): `Geoip`, with the bound of 34 iterations.
* **The semaphores and sockets** (`thread_client_tcp.c`, `thread_garbage.c`, `socket_garbage.c`, `socket_tcp.c`,
  `websocket.c`, `thread_client_udp.c`): `Sockets` is an interleaved state machine of all threads, `SocketLocks` the
  order of the semaphores and the absence of deadlock, `SocketClosing` what happens to the connections.
* **Codecs**: `Sha1` (FIPS 180-4), `Base64` (RFC 4648), `Websocket` (RFC 6455), `Uri` and `UriParser` (`uri.c`), with
  `Text` and `ByteOrder` for strings and numbers; `KnownAnswers` has published answers of FIPS 180-4, RFC 6455 and
  RFC 4648 and a request over HTTP, byte by byte.
* **Controllers and buffers**: `Interval` (`interval.c`, `thread_garbage.c`), `Freshness`, `Block` (`block.c`).

Code that works in place is modelled in place: classes with their fields, arrays, loops with invariants. Each such
method is proved against a function of the old state, and the laws are lemmas about these functions. 32-bit counters
wrap explicitly (`Wrap32`). Runs are sequences of actions; every theorem about them holds for all sequences.

Clocks, load averages and the results of `accept`, `close` and `recv` are parameters or free choices. `inet_ntop` is
a function parameter. The machine is little-endian, as the source assumes where it reads words.

## Where the code and what is said about it differ

* Over UDP an announce without event carries event code 0, which `changeTorrentStatsL` reads as "new" or "delete".
  `AnnounceKeepsSumIff` and `StopKeepsSumIff` say exactly when the counters keep summing to the peers,
  `ZeroEventLosesPeer` gives a run where they do not, `CountersOverRuns` the exact drift of every run, `SumLawIff`
  when the sum is right after it. A crowd of such peers stays at level 0 (`CrowdAtLevel0`, `OutgrowsIff`), and a
  collection may take `incomplete` to 2^32 - 1 (`IncompleteUnderflows`), which a client reads as -1
  (`MinusOneIsRead`).
* An announce over HTTP whose `event` is empty or unknown arrives as CONTINUE (`EventOverHttp`), and a peer stored as
  COMPLETED that sends one stays counted as complete but is no longer stored so (`ContinueDropsCompletion`).
  `CompleteStaysExactIff` says that this is the only announce after which `complete` is wrong, `CountersWithoutZero`
  when the counters are right after a whole run. A plain re-announce, without `event`, arrives as STARTED and moves
  its peer from `complete` to `incomplete` (`StartedAgain`).
* The comment at `interval.c:53-58` promises that a step of a minute settles within max(previous, require) seconds.
  On a fall by n seconds this holds if and only if previous modulo 60 is below 30 or
  n * (previous / 60 + 1) <= previous (`FallingOnTimeIff`); `FallingLate` is a fall that sleeps too long.
* `findGeoip` takes a first entry that ends at address 0 for an unloaded table, and `FindGeoip` says exactly when the
  entry returned is right.
* The start interval is not clamped by `argument.c:143-146`, only the limits are; `AlwaysSteady` asks for a start
  inside the limits, and `StartWrapsIff` says which starts make the first retarget wrap around.
* A collection is no single step: it holds one leaf's semaphore at a time, and announces come in between. The laws of
  runs are proved with these steps; a report then conserves leaf by leaf (`ReportsAdd`), for the torrents of each leaf
  as they were when the collector was there, and of no one moment.
* Peer lists are BIG_ENDIAN, and their switch to level 1 keeps the order of the peers if and only if the last bytes of
  their ids do not decrease along it (`RebuildAtLevel1`); `BigEndianLevelMatters` gives two ids that it swaps.
* `websocketKey2Accept` drops the last byte of a key that ends the data (`KeyIsRead`).
* A key without equals sign is passed on with the value of the pair before it (`ExpectedValue`).
* Counters from 2^31 on are printed as negative numbers (`AnnounceReads`).
* A numwant of 0 means 2^32 peers (`CountDown`).

## Model

| member | source | states |
|---|---|---|
| `HashOrder.MemcmpComparesRanks` | list.c:229-238 | `memcmp` is a total order: its sign compares the numbers the hashes spell, and it is 0 exactly for equal hashes |
| `HashOrder.PlaceIsInjective` | list.c:295-309 | two hashes with the same leaf and the same bytes are the same hash, for every level and byte order |
| `HashOrder.LittleEndianPlace` | list.c:300-306 | with LITTLE_ENDIAN routing the order by leaf, then by `memcmp`, is the `memcmp` order itself, for every level |
| `Entries.EntriesDeterminedByMap` | list.c:110-146 | two sequences ordered by the same injective place that hold the same map are the same sequence |
| `Entries.SweepVisitsEachOnce` | list.c:110-146 | a traversal calls its callback on the items in list order, each exactly once, up to the one that breaks off |
| `Entries.SweepStopsOnlyOnRequest` | list.c:130-136 | a traversal is cut short exactly when its last call returned break, and no call before it did |
| `Entries.SweepLeavesTheRest` | list.c:130-136 | a traversal that is not cut short has called on every item; one that is leaves the items behind as they were |
| `HashList.List.Build` | list.c:56-74 | a new node of any level: the shape of the whole subtree, all chains empty, and the heap blocks it took |
| `HashListOps.GetLeaf` | list.c:295-309 | the leaf reached is the one whose path the hash spells |
| `HashListOps.FindInLeaf` | list.c:272-286 | the search with its early exit finds the item with the hash if and only if the chain holds one |
| `HashListOps.Seek` | list.c:224-241 | `setHash`'s walk: the item, or the two neighbours between which it belongs |
| `HashListOps.GetHash` | list.c:269-287 | null exactly when the list's map lacks the hash; otherwise the item with the map's data |
| `HashListOps.SetHash` | list.c:221-267 | the item with the hash; the map gains it without data if it was missing and is unchanged otherwise; links, order and leaf membership kept; allocations follow the contents |
| `HashListOps.DeleteItem` | list.c:190-208 | exactly this item leaves the list, the map loses exactly its hash, its blocks are freed, everything else stays in order |
| `HashListOps.DeleteHash` | list.c:210-215 | the map without the hash, whether it was there or not |
| `HashListOps.StoreData` | list.c:18-23 | giving an item data changes the map at its hash only |
| `HashListTraversal.MapLeaf` | list.c:122-142 | the loop over a chain whose callback may delete the current item equals the traversal of the chain's value |
| `HashListTraversal.MapList` | list.c:110-146 | the recursion over all levels equals one traversal of the whole list's value; a break propagates; the list stays valid and its blocks are accounted for |
| `HashListRebuild.InitList` | list.c:39-79 | an empty list, or the two exits, each under exactly its condition |
| `HashListRebuild.StructBlocksAre` | list.c:56-76 | the heap blocks of an empty list: 1, 2 or 258 for level 0, 1 or 2 without semaphores, 2, 258 or 65794 with those of the leaves, one more for a global one, except with those of the leaves at level 0 |
| `HashListRebuild.FreeList` | list.c:81-108 | succeeds exactly on an empty list and then frees every block of the structure |
| `HashListRebuild.MoveItem` | list.c:11-27 | one step of a rebuild: the item's data moves to the new list, is not freed, and the item leaves the old list |
| `HashListRebuild.MoveAll` | list.c:33-33 | the whole traversal: the old list ends empty, the new one has the old map, no data block is lost |
| `HashListRebuild.ReInitList` | list.c:29-37 | the new list has the same map at the new level; the exit of `freeList` is never reached; the allocation counters change by the two structures only |
| `HashListOrder.TraversalOrder` | list.c:110-146 | items are met in strictly increasing place: by leaf, then by `memcmp` |
| `HashListOrder.LittleEndianTraversal` | list.c:300-306 | on a LITTLE_ENDIAN list of any level they are met in strictly increasing `memcmp` order |
| `HashListOrder.LevelDoesNotMatter` | list.c:29-37 | LITTLE_ENDIAN lists of different levels with the same map have the same sequence of items, so a rebuild keeps the order |
| `HashListOrder.MapDeterminesTraversal` | list.c:295-309 | lists of one shape with the same map are met in the same order, whatever operations made them |
| `HashListOrder.LastByteDecides` | list.c:301-302 | two hashes keep their order from level 0 to level 1 of a BIG_ENDIAN list if and only if the last byte of the first is at most that of the second |
| `HashListOrder.OrdersAgreeIff` | list.c:29-37 | the entries of one map in the BIG_ENDIAN orders of level 0 and of level 1 are the same sequence if and only if the last bytes do not decrease along the first |
| `HashListOrder.RebuildAtLevel1` | data.c:407-411 | the rebuild of a BIG_ENDIAN list from level 0 to level 1 keeps the map, and keeps the whole traversal if and only if the last bytes do not decrease along it |
| `HashListOrder.BigEndianLevelMatters` | data.c:41-41 | a pair of 20-byte peer ids that the rebuild at level 1 puts in the other order |
| `HashListRun.TraverseList` | list.c:110-146 | `mapList` with a callback that keeps, replaces or deletes: the map after it is the map with every verdict carried out, and the allocation counters follow |
| `HashListRun.VerdictsCarriedOut` | list.c:110-146 | a traversal carries out the verdict on every item, whatever their order |
| `HashListRun.RunList` | list.c:110-267 | any run of set, store, delete, rebuild and traversals that delete or replace, for every level, byte order and semaphore mode, leaves the finite map the run amounts to, and the allocation counters account for exactly that list |
| `HashListRun.RunAndFree` | list.c:81-108 | a run that ends with nothing in the list can be freed, and exactly such a run can; then allocations minus frees are what they were before |
| `Tracker.CountersOverRuns` | data.c:445-483 | over every run of announces, stops and collections, modulo 2^32: complete = stored COMPLETED + drops, incomplete = the others - drops + balance of event code 0, downloaded = completions |
| `Tracker.CountersWithoutZero` | data.c:396-443 | without event code 0 the two counters sum to the number of peers, and each is exact if and only if the number of dropped completions is 0 modulo 2^32 |
| `Tracker.ExactNeverUnderflows` | data.c:463-470 | with exact counters the one that is decremented is above 0 |
| `Tracker.LevelOverRuns` | data.c:407-413 | without event code 0 a peer list of level 0 never holds more than 257 peers; `OutgrowsIff` has all runs |
| `Tracker.AnnounceKeepsSumIff` | data.c:417-429 | an announce keeps the sum of the counters equal to the number of peers if and only if its peer is new or neither the stored nor the sent event is 0 |
| `Tracker.StopKeepsSumIff` | data.c:374-394 | a stop keeps it if and only if the peer is unknown or not stored with event 0 |
| `Tracker.ZeroEventLosesPeer` | data.c:463-470 | after `started` an announce with event code 0 leaves one peer and both counters 0 |
| `Tracker.CompleteStaysExactIff` | data.c:445-483 | an announce keeps `complete` equal to the number of peers stored as COMPLETED if and only if it is not a CONTINUE of a peer stored as COMPLETED |
| `Tracker.CompletedStaysCountedIff` | data.c:471-481 | a peer stored as COMPLETED stays counted in `complete` if and only if the event is COMPLETED or CONTINUE |
| `Tracker.StartedAgain` | data.c:471-476 | COMPLETED, then STARTED: complete 0, incomplete 1, downloaded 1 |
| `Tracker.ContinueDropsCompletion` | data.c:441-441 | COMPLETED, then CONTINUE: counted complete, stored as CONTINUE |
| `Tracker.AnnounceKeepsLaw` | data.c:396-443 | one announce of any event keeps the counter law with its history |
| `Tracker.StopKeepsLaw` | data.c:374-394 | one stop keeps it |
| `Tracker.CollectionKeepsLaw` | data_garbage.c:56-71 | one collection keeps it |
| `Tracker.LeafByLeaf` | list.c:110-120 | collecting each leaf by itself, in any order and undisturbed, amounts to the collection of all torrents |
| `TrackerLaws.SumLawIff` | data.c:445-483 | after every run the counters of a torrent sum to its peers modulo 2^32 if and only if its balance of event code 0 is 0 modulo 2^32 |
| `TrackerLaws.LevelStaysIff` | data.c:407-411 | an announce leaves a list of level 0 there if and only if peers plus balance, modulo 2^32, are at most 256 |
| `TrackerLaws.OutgrowsIff` | data.c:407-411 | a list of level 0 holds more than 257 peers at some point of a run if and only if an announce of the run brings a new peer to a list with more than 256 while peers plus balance, modulo 2^32, are at most 256 |
| `TrackerLaws.CrowdAtLevel0` | data.c:407-411 | n peers that announce over UDP, as `started` and then as regular, leave a list of n peers at level 0, for every n |
| `TrackerLaws.IncompleteUnderflows` | data.c:463-470 | two such peers of which one is collected leave `incomplete` at 2^32 - 1 |
| `TrackerLaws.CollectionNeverUnderflows` | data_garbage.c:56-71 | with exact counters no call of the collector's inner callback, in any order, takes a counter below 0 |
| `TrackerLaws.RunsNeverUnderflow` | data_garbage.c:56-71 | after every run without event code 0 and dropped completions the counters are exact, and neither a stop, an announce nor any call of a collection takes one below 0 |
| `PeerLaws.AnnounceStores` | data.c:413-441 | an announce stores the address as `ip4` under the IPv4 bit and as `ip6` without it, the port, time and event, and adds its bits to the old ones; the other address of a known peer, all other peers and torrents stay; a new peer's other address is zero |
| `PeerLaws.StopRemoves` | data.c:374-394 | a stop removes its peer and nobody else, and never adds one |
| `PeerLaws.AnnounceMoves` | data.c:445-483 | how an announce moves the three counters, for every stored and every sent event code, with the codes as numbers |
| `PeerLaws.StopMoves` | data.c:445-483 | how a stop moves them, for every stored code |
| `PeerLaws.SilentPeersGo` | data_garbage.c:56-71 | a collection leaves exactly the peers heard of within 1860 seconds, with their records unchanged, and no torrent without peers |
| `PeerLaws.PeersOverRuns` | data.c:427-441 | after every run each stored peer has the port, time and event of its last announce, the IPv4 address of its last announce over IPv4 and the IPv6 address of its last one over IPv6 |
| `Garbage.PeerSweep` | data_garbage.c:42-75 | the traversal of a torrent's peers leaves exactly those with `updateTime >= limitTime` and adjusts counters and totals by what it removed |
| `Garbage.NestedSweep` | data_garbage.c:98-119 | the inner traversal and the decision after it: the torrent goes, with an empty peer list, exactly when no peer is left |
| `Garbage.TorrentSweep` | data_garbage.c:84-136 | a whole collection leaves exactly the torrents that keep a peer, and its report conserves: remaining plus removed equal the counts before, for peers and torrents |
| `Garbage.ReportsAdd` | data_garbage.c:129-136 | the report goes on from leaf to leaf: over two visits with anything in between it conserves what each of them met and left |
| `TorrentRecord.MakeRoom` | data.c:407-411 | the switch inside an announce: the peer list is rebuilt at level 1 under exactly the source's condition, no peer is lost, duplicated or changed, and the blocks change by the two structures |
| `TorrentRecord.PeerItem` | data.c:413-416 | `setHash` on the nested list and a blank record for a new peer: the other peers and the counters stay |
| `TorrentRecord.SetPeerOf` | data.c:405-443 | on the record, its counters and its nested list: what an announce makes of a torrent, and every block of the peer list accounted for |
| `TorrentRecord.DeletePeerOf` | data.c:378-391 | the peer's item leaves the nested list and is freed, the counters follow its stored event, the other peers stay; an unknown peer changes nothing |
| `TrackerHeap.SetTorrent` | data.c:34-45 | the torrent's item; a missing one is created with an empty record and peer list of its own, and the list stands for the new state |
| `TrackerHeap.ChangeRecord` | data.c:401-443 | what an announce or a stop does to one torrent's objects leaves every other torrent as it was, and no two torrents come to share anything |
| `TrackerHeap.SetPeerPublic` | data.c:396-443 | on the two nested levels of lists: exactly the step Announce of the state machine, the torrent's item as result, and the blocks of item, record, peer list and peers accounted for |
| `TrackerHeap.DeletePeerPublic` | data.c:374-394 | exactly the step Stop, with the same accounting; null exactly when the torrent is unknown |
| `TrackerHeap.FirstAnnounceBlocks` | data.c:34-45 | the first announce of a torrent takes seven blocks |
| `TrackerCollector.SweepPeers` | data_garbage.c:42-101 | the inner traversal of a nested list leaves exactly the live peers with their counters; `currentPeersInTorrent` is 0 exactly if the list is then empty |
| `TrackerCollector.DropTorrent` | data_garbage.c:103-106 | `freeList` finds the peer list empty and does not end the process; the torrent's item, record and list are freed, the other torrents stay |
| `TrackerCollector.CollectItem` | data_garbage.c:84-122 | the outer callback on one torrent of a leaf: its nested traversal, its removal or its place in the totals, the other torrents untouched |
| `TrackerCollector.CollectLeaf` | list.c:122-142 | the loop over a leaf with this callback, which may delete the current torrent, equals the traversal of the torrents |
| `TrackerCollection.CollectAll` | list.c:110-120 | the recursion over the tree with this callback equals one traversal of all torrents |
| `TrackerCollection.CollectUnder` | list.c:110-142 | the part of that recursion below one node, for a leaf what runs under one semaphore: the torrents there are swept, those before and behind stay as they are |
| `TrackerCollection.CollectPart` | list.c:122-142 | on the heap the collector's visit of one leaf, or of any subtree, is exactly the step CollectBelow while all other torrents stay; its report counts what it met and left; every block accounted for |
| `TrackerCollection.RunGarbageCollector` | data_garbage.c:129-136 | undisturbed: exactly the step Collect with the source's limit; `freeList` never ends the process; a conserving report; every block accounted for |
| `TrackerRun.RunTracker` | server.c:88-89 | any run of announces, stops and visits of the collector to single leaves, in any interleaving, on a new torrent list leaves the state the run amounts to, and the allocation counters account for exactly that list with its 65794 blocks, its torrents and their peer lists |
| `TrackerRun.ShortRunsAreCountable` | data_garbage.c:20-20 | in a run of fewer than 2^32 actions no torrent has 2^32 peers |
| `Geoip.Legendre` | geoip.c:136-157 | the sum of n/2, n/4, ... rounded down is n minus its number of one bits |
| `Geoip.SearchStep` | geoip.c:144-167 | one iteration keeps the target within reach, the index inside the table and the iterations within the bound |
| `Geoip.WorstCaseOfTable` | geoip.c:136-137 | for the 2912124 entries the bound is 34 |
| `Geoip.Search` | geoip.c:136-181 | on every sorted gap-free table: the entry that contains the address, in at most 34 iterations, and exactly 34 when it is the first entry |
| `Geoip.FindGeoip` | geoip.c:127-182 | with both guards: the cutoff of 50 never fires, and the entry returned contains the address if and only if the table was searched or the first entry contains it |
| `Interval.Interval.UpdateInterval` | interval.c:13-43 | the new target is the number inside the limits nearest to one minute below or above the old one or to the old one itself, so it moves by at most a minute; the old target is remembered, the interval and the limits stay; a failed `getloadavg` changes nothing |
| `Interval.Interval.ForceUpdateInterval` | interval.c:45-51 | interval, target and previous target become the number inside the limits nearest to the value, so nothing is left to settle; the limits stay |
| `Interval.Interval.StepInterval` | interval.c:59-66 | the distance to the target falls by exactly one second unless it is 0, nothing but the interval changes, and the pause is the number of minutes nearest to the previous target, at least one second |
| `Interval.AlwaysSteady` | thread_garbage.c:83-115 | every interleaving of collector, changer and administrator keeps all fields inside the limits, the interval within 60 of its target, and no subtraction underflows |
| `Interval.SettlesInDistance` | interval.c:60-63 | left alone the interval settles in exactly \|require - interval\| steps |
| `Interval.SettlingTime` | interval.c:53-66 | settling sleeps at most max(previous, require) seconds when rising and previous + 30 when falling |
| `Interval.FallingOnTimeIff` | interval.c:53-58 | for every fall by n of at most 60 seconds the promise of the comment holds if and only if previous modulo 60 is below 30 or n * (previous / 60 + 1) <= previous |
| `Interval.FallingLate` | interval.c:53-58 | a fall from 299 to 239 seconds sleeps 300 |
| `Interval.StartWrapsIff` | server.c:67-72 | from a settled start at x the first retarget wraps around, to the opposite limit, exactly below 60 when idle and exactly from 2^32 - 60 on when busy |
| `Interval.ClampLimits` | argument.c:143-146 | whatever is asked for, 239 <= min <= max <= 1799, and limits already inside are kept |
| `Freshness.PunctualPeerStays` | data_garbage.c:131-132 | a peer that was told the interval in force: in every run of other announces, other stops and visits of the collector to any leaf, up to its deadline, its torrent and its record stay unchanged |
| `Block.Block.constructor` | block.c:21-28 | an empty block with a zero behind it |
| `Block.Block.Reset` | block.c:41-50 | empty, same memory |
| `Block.Block.ReAlloc` | block.c:105-123 | room for the bytes asked for and a zero; the contents survive; memory at most twice the peak plus 2000, all copies together below the memory |
| `Block.Block.AddString` | block.c:52-62 | the old contents followed by the bytes, and a zero behind them |
| `Block.Block.AddFormat` | block.c:64-76 | the same for printed text that fits the space asked for |
| `Block.RunOps` | block.c:21-62 | any run whose peak, doubled, plus 2000 is below 2^32: the concatenation since the last reset, memory at most 2 * peak + 2000, bytes copied below the memory |
| `Sha1.PaddingIsLeast` | sha1.c:25-40 | the padded length is the least multiple of 64 with room for 0x80 and the length |
| `Sha1.PaddingIsInjective` | sha1.c:25-40 | messages below 2^61 bytes with the same padding are equal |
| `Sha1.LeftRotateIsRotl` | sha1.c:9-11 | the shift form is the rotation ROTL of FIPS 180-4 for the amounts used |
| `Sha1.OrForms` | sha1.c:61-74 | the OR forms of the source equal Ch and Maj of FIPS 180-4 |
| `Sha1.HtonlLoads` | sha1.c:45-47 | `htonl` of four bytes in memory is the big-endian word of the standard |
| `Sha1.HtonlStores` | sha1.c:92-95 | storing `htonl` of a word writes its bytes most significant first |
| `Sha1.FillSchedule` | sha1.c:43-51 | the array w is the message schedule of section 6.1.2 of FIPS 180-4 |
| `Sha1.RunRounds` | sha1.c:53-82 | the loop over a to e computes the 80 rounds of the standard |
| `Sha1.Pad` | sha1.c:14-40 | the block in place becomes the padded message of section 5.1.1 of FIPS 180-4, whenever the block can take its padding |
| `Sha1.CompressAll` | sha1.c:42-89 | the loop over the blocks computes the final hash value |
| `Sha1.Sha1` | sha1.c:13-96 | for every message whose block can take the padding the block ends up holding its SHA-1 digest |
| `Base64.RoundTrip` | base64.c:12-52 | decoding by section 4 of RFC 4648 undoes the encoding of every byte sequence, and the length is 4 * ceil(n/3) |
| `Base64.IndexString` | base64.c:26-45 | the switch chooses the right symbol of the group, padding included |
| `Base64.Base64Encode` | base64.c:12-52 | the two loops leave the encoding of the input's contents in a new block, up to results of 4195352575 bytes |
| `Websocket.AcceptValueShape` | websocket.c:48-51 | the accept value has 28 characters and decodes to the digest of key and GUID |
| `Websocket.WebsocketKey2Accept` | websocket.c:25-55 | null exactly without header or with an empty key; otherwise the value of section 4.2.2 of RFC 6455 for the key collected |
| `Websocket.CollectsOne` | websocket.c:33-40 | the key collected is determined by the request |
| `Websocket.KeyIsRead` | websocket.c:33-40 | the key behind the first header is read if and only if it is empty or something follows it; a key at the very end loses its last byte |
| `Uri.HexByteReads` | uri.c:73-84 | two hexadecimal digits of either case are read as their byte |
| `Uri.RunQuery` | uri.c:32-89 | a query leads to one call for each segment; the last one exactly when a space ends the query |
| `Uri.RunPath` | uri.c:39-50 | the path without its leading slashes, cut to 200 bytes |
| `Uri.RequestIsRead` | uri.c:24-92 | for every path and every query in every mix of plain and encoded bytes: the calls in order with the first 20 bytes of key and decoded value |
| `Uri.ExpectedValue` | uri.c:51-63 | a segment comes with the value behind its last equals sign, without one with the value of the segment before |
| `Uri.HashesComeThrough` | uri.c:197-213 | any 20-byte hashes come through and are collected in order |
| `Uri.MessageIsRead` | uri.c:24-92 | the same for whole messages, which end at their first zero byte |
| `UriParser.Query.GetParam` | uri.c:197-254 | one call reads the field of its own parameter from the value, leaves every other field, and adds the hash to the block exactly for `info_hash` |
| `UriParser.LastValueWins` | uri.c:197-254 | whatever the parameters and their order, each field ends up read from the last value of its own parameter, and is untouched without one |
| `UriParser.EventOverHttp` | uri.c:215-225 | over HTTP an announce without `event` arrives with code 2; completed, started, stopped and paused arrive as 1 to 4, any other value as 5, and none as 0 |
| `UriParser.Turn` | uri.c:39-88 | one turn of the loop on the buffers is one step of the machine |
| `UriParser.ParseUri` | uri.c:24-92 | the loop over path, key and value buffers leaves in query and block what the machine's calls make of them |
| `UriParser.ForwardedAddress` | uri.c:137-153 | the block ends up with the last token between spaces and commas |
| `UriParser.LastTokenIsUnique` | uri.c:139-153 | that token is determined by the text |
| `UriParser.TokenBehindComma` | uri.c:139-153 | behind a comma or a space stands the last token, whatever spaces and commas follow |
| `Bencode.RoundTrip` | data.c:180-209 | every value written is read back, and the text behind it is left alone (BEP 3, keys in any order) |
| `Bencode.ReadIsWritten` | data.c:180-209 | the reader accepts nothing but what the writer writes |
| `Render.PeerFormat` | data.c:102-138 | the two dictionary formats of a peer are bencoding |
| `Render.RenderPeer` | data.c:54-142 | the callback: stop at the size limit, skip a peer of another IP version, otherwise add its text and count down, unsigned |
| `RenderList.RenderLeaf` | list.c:122-142 | the loop over a leaf of the peer list with the rendering callback; a break ends it |
| `RenderList.RenderNode` | list.c:110-120 | the recursion over the peer list; a break ends the whole traversal |
| `RenderList.RenderPeers` | data.c:150-157 | the answer holds the first matching peers of the list in traversal order: all, or numwant (0 stands for 2^32), or as many as reach 64000 bytes; no list gives no peers |
| `Render.ChosenIsUnique` | data.c:64-88 | this determines the peers |
| `Render.ChosenPeers` | data.c:84-88 | they are peers of the torrent with a matching version, and with room left none is missing |
| `Render.CountDown` | data.c:141-141 | the unsigned count-down reaches 0 exactly at numwant, at 2^32 for numwant 0 |
| `Announce.HeadFormat` | data.c:176-210 | the format strings of the head are bencoding, with `%d` of an unsigned counter printed as its signed reading |
| `Announce.RenderHttp` | data.c:176-220 | the pieces written over HTTP are the bencoded answer, compact or not |
| `Announce.RenderAnnounce` | data.c:166-250 | the whole answer, HTTP or UDP, for the torrent's counters and the chosen ones among its peers in list order; without a torrent that of an empty one; `ExchangeUdp` and `ExchangeHttp` say what is read from it |
| `Announce.AddressedOverRuns` | data.c:431-435 | after every run whose announces carry a 16-byte address and a 16-bit port each peer can be rendered |
| `Announce.AnnounceReads` | data.c:176-210 | an HTTP answer parses to the dictionary rendered; a counter is read as itself if and only if it is below 2^31 |
| `Announce.CompactReads` | data.c:92-101 | peer n of a compact answer: bytes 12 to 15 of its `ip4` at byte 6n, or its `ip6` at byte 18n, and its port in network byte order behind (BEP 23, BEP 7) |
| `Announce.PeersTold` | data.c:84-142 | the peers of an answer over HTTP: such a text, or a list with one dictionary for each: `ip` is the text of these bytes, `port` the port, `peer id` the id unless none is wanted |
| `Announce.RowsAreDetermined` | list.c:295-309 | the peers of a torrent come in one order, that of a BIG_ENDIAN list of its level, which the torrent determines |
| `Announce.UdpReads` | data.c:236-245 | the fields of BEP 15 are at their offsets |
| `Announce.HeadStored` | data.c:236-245 | the struct of a UDP answer, whose fields are stored as host words after `htonl`, lies in memory as the fields in network order |
| `Announce.UdpSize` | data.c:64-67 | a UDP answer has 20 + 6k or 20 + 18k bytes, at most 64025 or 64037, which fit a datagram |
| `Scrape.CountersFormat` | data.c:277-284 | the format string of a scraped torrent is bencoding |
| `Scrape.RenderScrapeTorrent` | data.c:259-286 | the text of one torrent, HTTP or UDP |
| `Scrape.RenderEntries` | data.c:340-358 | the loop over the hashes looks each up in the heap list and stops behind the one that reaches 64000 bytes |
| `Scrape.RenderScrape` | data.c:315-366 | the whole scrape for the hashes in the block |
| `Scrape.AnsweredIsUnique` | data.c:354-356 | the number of hashes answered is determined |
| `Scrape.ScrapeReads` | data.c:315-366 | an HTTP scrape parses to a dictionary in which every hash answered has `complete`, `incomplete` and `downloaded` of its torrent, and 0 for an unknown one |
| `Scrape.PackedReads` | data.c:264-271 | a UDP scrape has 8 + 12k <= 65527 bytes, and for hash n the torrent's `complete`, `downloaded` and `incomplete` from byte 8 + 12n on, 0 for an unknown one |
| `UdpRequest.AnnounceIsRead` | thread_client_udp.c:97-114 | every announce request of BEP 15 is read with the fields sent; the event arrives unchanged if and only if it is below 256, so 0 arrives as 0 |
| `UdpRequest.AnnounceLayout` | thread_client_udp.c:97-111 | that request byte by byte: 98 bytes with the fields of BEP 15 at their offsets |
| `UdpRequest.ScrapeIsRead` | thread_client_udp.c:149-158 | a scrape request is read if and only if it asks for a hash |
| `UdpRequest.ConnectIsRead` | thread_client_udp.c:75-82 | a connect request is recognised exactly by its protocol number and action |
| `ByteOrder.SwappedStored` | data.c:236-245 | on a little-endian host a word stored after `htonl` lies most significant byte first |
| `Exchange.ServedTakesStep` | data.c:374-443 | an announce with code 3 removes its peer and adds nobody; any other stores the peer with its code, address and port; it is among the completed ones exactly with code 1; the counters move as their table says, nobody else is touched |
| `Exchange.Serve` | thread_client_tcp.c:212-223 | one announce or stop on the heap and its answer, from the torrent after the step |
| `Exchange.ExchangeUdp` | thread_client_udp.c:97-128 | from the bytes a client of BEP 15 sends to what it reads: the step of its event code, `incomplete` and `complete` of the torrent after the step at bytes 12 and 16, and every chosen peer at its offset |
| `Exchange.ParametersRead` | uri.c:197-254 | what the last value of each parameter stands for: codes 1 to 5 of `event`, decimal `port` and `numwant` as their numbers, `compact` unless it is 0, 50 peers without `numwant` |
| `Exchange.DecimalIsRead` | uri.c:227-227 | `atoi` reads the decimal digits of a number as that number |
| `Exchange.ExchangeHttp` | thread_client_tcp.c:184-223 | from a path and a query in any encoding to the dictionary the client reads: the two refusals with their conditions, otherwise the step of the event, the counters of the torrent after it, and as many peers as asked for up to the limit, in the form asked for |
| `Exchange.PortComesBack` | thread_client_udp.c:104-104 | a port is copied in network order from the request into the peer, and other clients read the number that was sent |
| `Exchange.MinusOneIsRead` | data.c:176-210 | a run of two UDP clients and a collection after which an HTTP client reads -1 leechers |
| `Clients.UdpTells` | data.c:92-101 | over UDP a stored peer of the client's version of IP is in the answer, with its address and port, unless the answer holds as many peers as asked for or 64000 bytes of them |
| `Clients.HttpTells` | data.c:102-138 | the same over HTTP, in a text of peers or in a list of dictionaries |
| `Clients.StillThere` | data.c:413-441 | what a client has stored stays through the announce of another |
| `Clients.TwoClients` | thread_client_udp.c:97-128 | on the heap, with two workers: unless its answer is full, the second client reads the address and the port that the first one sent, of an address mapped from IPv4 the last four bytes |
| `Clients.ChosenOverRuns` | data.c:84-88 | after every run a client is only told of peers that announced over its version of IP |
| `Clients.AnswerOverRuns` | data.c:92-101 | after every run each peer in an answer stands there with the address of its last announce over the client's version of IP and the port of its last announce |
| `Clients.AnswerIsDetermined` | data.c:150-157 | torrent and request determine the peers of an answer and their order |
| `KnownAnswers.DigestOfAbc` | sha1.c:13-96 | the digest of "abc" is that of FIPS 180-4 |
| `KnownAnswers.HandshakeOfRfc6455` | websocket.c:25-55 | the accept value of the key in section 1.3 of RFC 6455 is the one given there |
| `KnownAnswers.KeyOfRfc6455` | websocket.c:28-40 | that key is read from every request with that header line as its first |
| `KnownAnswers.VectorsOfRfc4648` | base64.c:12-52 | the test vectors of section 10 of RFC 4648, and the last two symbols of the alphabet |
| `KnownAnswers.RequestText` | uri.c:24-92 | the text of a request, character by character |
| `KnownAnswers.RequestRead` | uri.c:197-254 | that request is read with its escaped hash, port 6881, code 3 for `stopped`, 7 peers and the defaults |
| `SocketLocks.TakenInOrder` | thread_client_tcp.c:458-500 | every thread takes semaphores in the order socket list, its leaf, torrent leaf, websockets, at most one of each |
| `SocketLocks.LocksAlwaysAgree` | list.c:311-321 | in every run a semaphore is taken exactly by the one thread whose place says so |
| `SocketLocks.ChainEnds` | thread_garbage.c:161-181 | from every thread the chain of waiting ends after at most five threads at one that is not blocked |
| `SocketLocks.NoDeadlock` | thread_client_tcp.c:458-500 | in every reachable state no set of threads waits for one another |
| `SocketLocks.CanStep` | thread_client_udp.c:119-146 | a thread that has begun and is not blocked can take a step |
| `SocketLocks.Progress` | thread_client_tcp.c:458-500 | behind every blocked thread there is one, at most four further, that can step |
| `SocketClosing.AlwaysHolds` | socket_garbage.c:8-66 | the invariant of connections, lists, marks and counters holds in every reachable state |
| `SocketClosing.EachClosedOnce` | socket_garbage.c:33-53 | each call of `close` hits an open connection and no connection is hit twice, even when descriptors are reused |
| `SocketClosing.CloseHitsItsOwn` | thread_client_tcp.c:36-52 | what is closed is a tracked item and its own connection, for a worker the one it marked |
| `SocketClosing.MarkedIsFound` | socket_garbage.c:55-66 | the lookup in front of a worker's close never fails |
| `SocketClosing.NothingLeftMarked` | thread_client_tcp.c:482-497 | whenever a worker does not hold its semaphore its delete list is empty |
| `SocketClosing.TrackedIsAcceptedMinusClosed` | stats.c:155-155 | accept_pass - close_pass - close_failed is the number of live items, plus one while the accept thread holds a connection |
| `SocketClosing.StatisticsOverRuns` | socket_garbage.c:33-53 | in every run accept_pass counts the accepted connections, close_pass the calls of `close` that succeed and close_failed those that do not |
| `SocketClosing.NewItem` | socket_tcp.c:154-162 | the accept thread never overwrites an item: the leaf semaphore keeps it from one that is being removed |

## Left out

- Block.RunOps: for runs whose peak p has 2 * p + 2000 < 2^32; a larger block may need a reallocation whose size is no 32-bit number, and what `realloc` then leaves is not modelled.
- Sha1.Sha1: asks that its block can take the padding (in the room it has, or by a reallocation whose size is a 32-bit number), as `reAllocBlock` does.
- Base64.Base64Encode: results of 4195352576 bytes and more, whose last reallocation is no 32-bit number.
- Websocket.WebsocketKey2Accept: asks for a request far below 2^32 bytes, as `UriParser.ParseUri` and the rendering methods do.
- Clients.TwoClients: the two workers have blocks of their own; that one worker's blocks stay small enough for any number of exchanges is not carried through `ExchangeUdp`.
- Exchange.ExchangeHttp: the client's address is a parameter, so it stands for what `X-Forwarded-For` makes of it too; the HTTP head around the answer and the broadcast to websockets are not part of it.
- Block.Block.AddFormat: takes the printed text as given and asks that it fits the space reserved, as `vsprintf` does.
- TrackerCollection.RunGarbageCollector: asks, with `CollectPart`, that no torrent has 2^32 peers, the range of `currentPeersInTorrent`; with a multiple of 2^32 live peers `freeList` would end the process.
- TrackerHeap.SetPeerPublic: `updatePeerStat`, the statistics of the delay between announces, is not part of it.
- Garbage.TorrentSweep: the maxima per leaf in the report depend on leaf addresses and are not modelled.
- UriParser.Query.GetParam: `atoi` is unbounded here; numbers that overflow an `int` are undefined in the source.
- UriParser.ForwardedAddress: the checks for the header's place before the loop and `inet_pton` behind it are not modelled.
- SocketClosing.TrackedIsAcceptedMinusClosed: descriptor 0, which the accept loop refuses but leaves open, is not counted, as in the source.
- Sockets: a `close` that reports an error still frees the descriptor, as on Linux; the events of a worker are any descriptors; the queue and the condition variable of the UDP workers, and the allocator's own semaphore, are not part of it.
- The semaphores do not appear in the model of the list itself, whose operations run under them.
- A worker waits for events while it holds its list's semaphore; only waiting for semaphores counts as blocked.
- Membership of the websockets list is not tied to live sockets: a connection is closed before it is unregistered there.
- `mapList` itself is modelled with callbacks that are pure visitor functions over the item and an accumulator; the traversals whose callbacks work on the heap (the rebuild, the collector, the rendering of peers) are written out with the same loops.
- The static maximum and the log line of `findGeoip`, `printList`, `updatePeerStat`, statistics pages and log output: text only.
- Sockets, epoll and kqueue, file serving, HTTP headers and failure bodies, thread creation: input and output.
- `loadGeoip`, option parsing beyond the interval limits, request rates, basic authorization, the web pages: one branch each, or text.
- `getloadavg` is a free choice of down, up or stay; `round(p / 60)` is `(p + 30) / 60`.
