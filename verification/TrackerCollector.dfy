/**
 * The garbage collector on the heap (data_garbage.c), up to one leaf of the torrent list: the callback
 * traverses the peers of a torrent, frees a peer list that is left empty and deletes its torrent.
 */
module TrackerCollector {
  import opened Bytes
  import opened Entries
  import opened HashList
  import opened HashListOps
  import opened HashListTraversal
  import opened HashListRebuild
  import opened Tracker
  import opened Garbage
  import opened TorrentRecord
  import opened TrackerHeap

  // ---------------------------------------------------------------- the peers of one torrent

  /** The inner traversal: the record keeps its live peers, and the tally is the one of `VisitTorrent`. */
  method SweepPeers(r: Record, limit: int, acc: Stats, alloc: Allocator, ghost t: Torrent) returns (tally: PeerTally)
    requires Stands(r, t) && |t.peers| < WORD
    modifies Region(r), alloc
    ensures Stands(r, Kept(t, limit)) && Region(r) <= old(Region(r))
    ensures var v := VisitTorrent(limit, acc, t);
      tally.total == v.acc.totalPeers && tally.removed == v.acc.removedPeers
      && tally.current == Wrap32(|Kept(t, limit).peers|) && (tally.current == 0 <==> v.delete)
    ensures tally.current == 0 <==> Value(r.peerList) == []
    ensures alloc.Live() - PeerBlocks(Kept(t, limit)) == old(alloc.Live()) - PeerBlocks(t)
  {
    hide Valid, Value, Blocks, ToMap, Present, AllPresent, StructBlocks, NodeBlocks, PeerBlocks, Enumerates, Sweep,
         VisitTorrent, Kept, Wrap32, PeerVisit;
    ValueInPlace(r.peerList);
    PresentEntries(Value(r.peerList));
    RecordBlocks(r);
    NestedSweep(Value(r.peerList), t, limit, acc);
    VisitTorrentKeeps(limit, acc, t);
    KeptPeers(t, limit);
    RecordIsApart(r);
    var stopped;
    tally, stopped := MapList(r.peerList, PeerTally(r.complete, r.incomplete, acc.totalPeers, 0, acc.removedPeers),
                              PeerVisit(limit), alloc);
    EntriesPresent(Value(r.peerList), Kept(t, limit).peers);
    r.complete := tally.complete;
    r.incomplete := tally.incomplete;
    RecordBlocks(r);
  }

  // ---------------------------------------------------------------- the torrents of a node

  /** The records of the entries, all in `world` and none sharing anything, stand for the torrents `t`. */
  ghost predicate Mirror(e: seq<Entry<Record>>, t: seq<Entry<Torrent>>, world: set<object>)
    reads world
  {
    && |e| == |t|
    && (forall i :: 0 <= i < |e| ==> Mirrored(e[i], t[i], world))
    && (forall i, j :: 0 <= i < j < |e| ==> Region(e[i].data.value) !! Region(e[j].data.value))
  }

  ghost predicate Mirrored(e: Entry<Record>, t: Entry<Torrent>, world: set<object>)
    reads world
  {
    e.hash == t.hash && e.data.Some? && t.data.Some? && Keeps(e.data.value, t.data.value, world)
  }

  /** Every entry but number `k`, before record `k` changes. */
  lemma {:induction false} MirrorOthers(e: seq<Entry<Record>>, t: seq<Entry<Torrent>>, k: nat, world: set<object>)
    requires Mirror(e, t, world) && k < |e|
    ensures |t| == |e| && e[k].hash == t[k].hash && e[k].data.Some? && t[k].data.Some?
    ensures Stands(e[k].data.value, t[k].data.value)
    ensures Region(e[k].data.value) <= world
    ensures forall i :: 0 <= i < |e| && i != k ==>
      && e[i].hash == t[i].hash && e[i].data.Some? && t[i].data.Some? && e[i].data.value in world
      && Stands(e[i].data.value, t[i].data.value) && Region(e[i].data.value) <= world
      && Beside(e[i].data.value, Region(e[k].data.value))
    ensures forall i, j :: 0 <= i < j < |e| ==> Region(e[i].data.value) !! Region(e[j].data.value)
  {
    hide Stands, Beside;
    assert Mirrored(e[k], t[k], world);
    forall i | 0 <= i < |e| && i != k
      ensures e[i].hash == t[i].hash && e[i].data.Some? && t[i].data.Some? && e[i].data.value in world
      ensures Stands(e[i].data.value, t[i].data.value) && Region(e[i].data.value) <= world
      ensures Beside(e[i].data.value, Region(e[k].data.value))
    {
      assert Mirrored(e[i], t[i], world);
      BesideRegion(e[i].data.value, Region(e[k].data.value));
    }
  }

  /** The mirror after record `k` has changed. */
  lemma {:induction false} MirrorChanged(e: seq<Entry<Record>>, t: seq<Entry<Torrent>>, k: nat, x: Torrent,
                                         world: set<object>)
    requires |e| == |t| && k < |e| && e[k].hash == t[k].hash && e[k].data.Some? && Stands(e[k].data.value, x)
    requires Region(e[k].data.value) <= world
    requires forall i :: 0 <= i < |e| && i != k ==>
      && e[i].hash == t[i].hash && e[i].data.Some? && t[i].data.Some?
      && Stands(e[i].data.value, t[i].data.value) && Region(e[i].data.value) <= world
    requires forall i, j :: 0 <= i < j < |e| ==> Region(e[i].data.value) !! Region(e[j].data.value)
    ensures Mirror(e, t[k := Entry(t[k].hash, Some(x))], world)
  {
    hide Stands;
    var u := t[k := Entry(t[k].hash, Some(x))];
    forall i | 0 <= i < |e| ensures Mirrored(e[i], u[i], world) {
      var r := e[i].data.value;
      assert r in Region(r);
      assert forall l :: l in r.peerList.leaves ==> (l as object) in Region(r);
    }
  }

  /** The inner traversal on one of several torrents; the others do not notice. */
  method CollectTorrent(r: Record, limit: int, acc: Stats, alloc: Allocator, ghost e: seq<Entry<Record>>,
                        ghost t: seq<Entry<Torrent>>, ghost k: nat, ghost world: set<object>)
    returns (tally: PeerTally)
    requires Mirror(e, t, world) && k < |e| && e[k].data == Some(r) && t[k].data.Some? && alloc !in world
    requires |t[k].data.value.peers| < WORD
    modifies world, alloc
    ensures Mirror(e, t[k := Entry(t[k].hash, Some(Kept(t[k].data.value, limit)))], world)
    ensures var v := VisitTorrent(limit, acc, t[k].data.value);
      tally.total == v.acc.totalPeers && tally.removed == v.acc.removedPeers
      && tally.current == Wrap32(|Kept(t[k].data.value, limit).peers|) && (tally.current == 0 <==> v.delete)
    ensures Valid(r.peerList) && (tally.current == 0 <==> Value(r.peerList) == [])
    ensures alloc.Live() - PeerBlocks(Kept(t[k].data.value, limit)) == old(alloc.Live()) - PeerBlocks(t[k].data.value)
  {
    hide Valid, Value, ToMap, PeerBlocks, Stands, Region, Mirror, VisitTorrent, Kept, Wrap32;
    MirrorOthers(e, t, k, world);
    tally := SweepPeers(r, limit, acc, alloc, t[k].data.value);
    StandsMeans(r, Kept(t[k].data.value, limit));
    IntactParts(r);
    forall i | 0 <= i < |e| && i != k
      ensures Stands(e[i].data.value, t[i].data.value) && Region(e[i].data.value) == old(Region(e[i].data.value))
    {
    }
    forall i, j | 0 <= i < j < |e| ensures Region(e[i].data.value) !! Region(e[j].data.value) {
      assert old(Region(e[i].data.value)) !! old(Region(e[j].data.value));
    }
    MirrorChanged(e, t, k, Kept(t[k].data.value, limit), world);
  }

  lemma {:induction false} MirrorRemove(e: seq<Entry<Record>>, t: seq<Entry<Torrent>>, k: nat, world: set<object>)
    requires Mirror(e, t, world) && k < |e|
    ensures Mirror(RemoveAt(e, k), RemoveAt(t, k), world)
  {
    hide Mirrored, Region;
    var f, u := RemoveAt(e, k), RemoveAt(t, k);
    forall i | 0 <= i < |f| ensures Mirrored(f[i], u[i], world) {
      assert Mirrored(e[if i < k then i else i + 1], t[if i < k then i else i + 1], world);
    }
    forall i | 0 <= i < |e| ensures e[i].data.Some? {
      MirroredSome(e[i], t[i], world);
    }
  }

  lemma {:induction false} MirroredSome(e: Entry<Record>, t: Entry<Torrent>, world: set<object>)
    requires Mirrored(e, t, world)
    ensures e.hash == t.hash && e.data.Some? && t.data.Some?
  {
  }

  /** The heap blocks of torrents: an item, its hash and its record for each, and its peer list. */
  ghost function Cost(t: seq<Entry<Torrent>>): nat {
    if t == [] then 0
    else
      var last := t[|t| - 1].data;
      Cost(t[..|t| - 1]) + 3 + if last.Some? then PeerBlocks(last.value) else 0
  }

  lemma {:induction false} CostConcat(t: seq<Entry<Torrent>>, u: seq<Entry<Torrent>>)
    ensures Cost(t + u) == Cost(t) + Cost(u)
  {
    hide PeerBlocks;
    if u == [] {
      assert t + u == t;
    } else {
      var n := |u| - 1;
      assert (t + u)[..|t| + n] == t + u[..n];
      CostConcat(t, u[..n]);
    }
  }

  lemma {:induction false} CostAt(t: seq<Entry<Torrent>>, k: nat)
    requires k < |t|
    ensures Cost(t) == Cost(RemoveAt(t, k)) + Cost([t[k]])
    ensures forall x: Entry<Torrent> :: Cost(t[k := x]) == Cost(RemoveAt(t, k)) + Cost([x])
    ensures forall h, x: Torrent :: Cost([Entry(h, Some(x))]) == 3 + PeerBlocks(x)
  {
    hide PeerBlocks;
    CostConcat(t[..k], t[k + 1..]);
    forall x: Entry<Torrent> ensures Cost(t[k := x]) == Cost(RemoveAt(t, k)) + Cost([x]) {
      assert t[k := x] == t[..k] + [x] + t[k + 1..];
      CostConcat(t[..k] + [x], t[k + 1..]);
      CostConcat(t[..k], [x]);
    }
    assert t[k := t[k]] == t;
    forall h, x: Torrent ensures Cost([Entry(h, Some(x))]) == 3 + PeerBlocks(x) {
      var one := [Entry(h, Some(x))];
      assert one[..0] == [];
    }
  }

  /** No torrent has 2^32 peers. */
  ghost predicate Small(t: seq<Entry<Torrent>>) {
    forall i :: 0 <= i < |t| && t[i].data.Some? ==> |t[i].data.value.peers| < WORD
  }

  // ---------------------------------------------------------------- one torrent of a leaf

  /** The collector's own counters after one torrent. */
  method CountTorrent(acc: Stats, tally: PeerTally, ghost limit: int, ghost t: Torrent) returns (stats: Stats)
    requires var v := VisitTorrent(limit, acc, t);
      tally.total == v.acc.totalPeers && tally.removed == v.acc.removedPeers
      && tally.current == Wrap32(|Kept(t, limit).peers|)
    ensures stats == VisitTorrent(limit, acc, t).acc
  {
    hide Wrap32, Kept;
    stats := acc.(totalPeers := tally.total, removedPeers := tally.removed);
    if tally.current == 0 {
      stats := stats.(removedTorrents := Wrap32(stats.removedTorrents + 1));
    } else {
      stats := stats.(totalTorrents := Wrap32(stats.totalTorrents + 1));
      if tally.current > stats.maxPeers {
        stats := stats.(maxPeers := tally.current);
      }
      if tally.current > PEERS_FOR_LEVEL_0_LIMIT {
        stats := stats.(changedLimit := Wrap32(stats.changedLimit + 1));
      }
    }
  }

  /** The item of a torrent is deleted; the list of its peers stays where it is. */
  method DropItemOf(leaf: List<Record>, item: Item<Record>, alloc: Allocator,
                    ghost k: nat, ghost t: seq<Entry<Torrent>>, ghost world: set<object>)
    requires Valid(leaf) && leaf.level == 0 && k < |leaf.chain| && leaf.chain[k] == item && item.data.Some?
    requires Mirror(Value(leaf), t, world) && Outside(leaf, world) && alloc !in world && k < |t|
    modifies leaf, ItemSet(leaf), alloc
    ensures Valid(leaf) && ItemSet(leaf) <= old(ItemSet(leaf)) && leaf.chain == RemoveAt(old(leaf.chain), k)
    ensures Mirror(Value(leaf), RemoveAt(t, k), world)
    ensures alloc.Live() == old(alloc.Live()) - 3
  {
    hide Valid, Value, ToMap, Blocks, Linked, Mirror, Items;
    LeafView(leaf);
    ghost var was := Value(leaf);
    ToMapRemove(was, k) by {
      ValueInPlace(leaf);
    }
    ghost var at := DeleteItem(item, alloc, leaf);
    LeafView(leaf);
    MirrorRemove(was, t, k, world);
  }

  /**
   * The removal of a torrent without peers: its peer list is freed, then its item with its record.
   * `ok` says that `freeList` did not end the process.
   */
  method DropTorrent(leaf: List<Record>, item: Item<Record>, r: Record, alloc: Allocator,
                     ghost k: nat, ghost t: seq<Entry<Torrent>>, ghost world: set<object>)
    returns (ok: bool)
    requires Valid(leaf) && leaf.level == 0 && k < |leaf.chain| && leaf.chain[k] == item && item.data == Some(r)
    requires Mirror(Value(leaf), t, world) && Outside(leaf, world) && alloc !in world
    requires k < |t| && t[k].data.Some? && t[k].data.value.peers == map[]
    requires Valid(r.peerList) && Value(r.peerList) == []
    modifies leaf, ItemSet(leaf), alloc
    ensures Valid(leaf) && ItemSet(leaf) <= old(ItemSet(leaf)) && leaf.chain == RemoveAt(old(leaf.chain), k)
    ensures Mirror(Value(leaf), RemoveAt(t, k), world) && ok
    ensures alloc.Live() - Cost(RemoveAt(t, k)) == old(alloc.Live()) - Cost(t)
  {
    hide Valid, Value, Cost, NodeBlocks, Mirror;
    CostAt(t, k);
    LeafView(leaf);
    ListOf(Value(leaf), t, k, world);
    var freed := FreeList(r.peerList, true, alloc);
    ok := freed == Done(());
    DropItemOf(leaf, item, alloc, k, t, world);
  }

  lemma {:induction false} ListOf(e: seq<Entry<Record>>, t: seq<Entry<Torrent>>, k: nat, world: set<object>)
    requires Mirror(e, t, world) && k < |e|
    ensures |t| == |e| && e[k].data.Some? && t[k].data.Some?
    ensures var r := e[k].data.value;
      r.peerList.level == t[k].data.value.level && r.peerList.semaphores == NO_SEMAPHORES
  {
    assert Mirrored(e[k], t[k], world);
  }

  /** `runGarbageCollectorCallback` on the torrent at position `k` of a leaf. */
  method CollectItem(leaf: List<Record>, item: Item<Record>, limit: int, acc: Stats, alloc: Allocator,
                     ghost k: nat, ghost t: seq<Entry<Torrent>>, ghost world: set<object>)
    returns (stats: Stats, ok: bool, ghost u: seq<Entry<Torrent>>)
    requires Valid(leaf) && leaf.level == 0 && k < |leaf.chain| && leaf.chain[k] == item
    requires Mirror(Value(leaf), t, world) && Outside(leaf, world) && alloc !in world && Small(t)
    modifies leaf, ItemSet(leaf), world, alloc
    ensures Valid(leaf) && ItemSet(leaf) <= old(ItemSet(leaf)) && Mirror(Value(leaf), u, world) && ok
    ensures k < |t| && t[k].data.Some?
    ensures var v := VisitTorrent(limit, acc, t[k].data.value);
      && stats == v.acc && u == (if v.delete then RemoveAt(t, k) else t[k := Entry(t[k].hash, v.data)])
      && leaf.chain == if v.delete then RemoveAt(old(leaf.chain), k) else old(leaf.chain)
    ensures alloc.Live() - Cost(u) == old(alloc.Live()) - Cost(t)
  {
    hide Valid, Value, ToMap, PeerBlocks, Stands, Mirror, VisitTorrent, Kept, Wrap32, Blocks, Linked, Cost, NodeBlocks;
    LeafView(leaf);
    ListOf(Value(leaf), t, k, world);
    ghost var x := t[k].data.value;
    CostAt(t, k);
    VisitTorrentKeeps(limit, acc, x);
    var r := item.data.value;
    var tally := CollectTorrent(r, limit, acc, alloc, Value(leaf), t, k, world);
    u := t[k := Entry(t[k].hash, Some(Kept(x, limit)))];
    CostAt(u, k);
    ok := true;
    if tally.current == 0 {
      KeptPeers(x, limit);
      ok := DropTorrent(leaf, item, r, alloc, k, u, world);
      u := RemoveAt(u, k);
      assert u == RemoveAt(t, k);
    }
    stats := CountTorrent(acc, tally, limit, x);
  }

  lemma {:induction false} SmallAfter(t: seq<Entry<Torrent>>, k: nat, limit: int)
    requires Small(t) && k < |t| && t[k].data.Some?
    ensures Small(RemoveAt(t, k)) && Small(t[k := Entry(t[k].hash, Some(Kept(t[k].data.value, limit)))])
  {
    hide Kept;
    KeptPeers(t[k].data.value, limit);
    LiveIsFewer(t[k].data.value.peers, limit);
  }

  // ---------------------------------------------------------------- the torrents of a leaf

  /**
   * The state of the loop over one leaf, seen from its torrents `t`: `current` is the item at position
   * `k`, everything before it has been kept, and what is left of the old torrents `e` is still to come.
   */
  ghost predicate Advance(leaf: List<Record>, current: Item?<Record>, limit: int, acc: Stats, k: nat,
                          t: seq<Entry<Torrent>>, e: seq<Entry<Torrent>>, j: nat, goal: Swept<Stats, Torrent>)
    reads leaf
  {
    && |t| == |leaf.chain| && k <= |t| && j <= |e| && current == Nth(leaf.chain, k)
    && t[k..] == e[j..]
    && After(t[..k], Sweep(e[j..], acc, TorrentVisit(limit))) == goal
  }

  lemma {:induction false} AdvanceStep(leaf: List<Record>, next: Item?<Record>, limit: int, acc: Stats, k: nat,
                                       t: seq<Entry<Torrent>>, u: seq<Entry<Torrent>>, e: seq<Entry<Torrent>>, j: nat,
                                       goal: Swept<Stats, Torrent>, chain: seq<Item<Record>>) returns (m: nat)
    requires |t| == |chain| && k < |t| && j <= |e| && t[k..] == e[j..] && t[k].data.Some?
    requires After(t[..k], Sweep(e[j..], acc, TorrentVisit(limit))) == goal
    requires next == Nth(chain, k + 1) && |t[k].data.value.peers| < WORD
    requires var v := VisitTorrent(limit, acc, t[k].data.value);
      && u == (if v.delete then RemoveAt(t, k) else t[k := Entry(t[k].hash, v.data)])
      && leaf.chain == if v.delete then RemoveAt(chain, k) else chain
    ensures j < |e| && Advance(leaf, next, limit, VisitTorrent(limit, acc, t[k].data.value).acc, m, u, e, j + 1, goal)
  {
    hide VisitTorrent, Sweep;
    assert t[k] == e[j] by { assert t[k] == t[k..][0]; assert e[j] == e[j..][0]; }
    var v := TorrentVisit(limit)(acc, e[j].hash, e[j].data);
    assert v == VisitTorrent(limit, acc, t[k].data.value);
    VisitTorrentKeeps(limit, acc, t[k].data.value);
    SweepStep(t[..k], e[j..], acc, TorrentVisit(limit));
    Stepped(t, u, k, e, j, v);
    m := if v.delete then k else k + 1;
  }

  /** One iteration; the successor is read before the callback may free the item. */
  method CollectStep(leaf: List<Record>, item: Item<Record>, limit: int, acc: Stats, alloc: Allocator, ghost k: nat,
                     ghost t: seq<Entry<Torrent>>, ghost e: seq<Entry<Torrent>>, ghost j: nat,
                     ghost goal: Swept<Stats, Torrent>, ghost world: set<object>)
    returns (stats: Stats, ok: bool, next: Item?<Record>, ghost m: nat, ghost u: seq<Entry<Torrent>>)
    requires Valid(leaf) && leaf.level == 0 && Advance(leaf, item, limit, acc, k, t, e, j, goal)
    requires Mirror(Value(leaf), t, world) && Outside(leaf, world) && alloc !in world && Small(t)
    modifies leaf, ItemSet(leaf), world, alloc
    ensures Valid(leaf) && ItemSet(leaf) <= old(ItemSet(leaf)) && Mirror(Value(leaf), u, world) && Small(u) && ok
    ensures j < |e| && Advance(leaf, next, limit, stats, m, u, e, j + 1, goal)
    ensures alloc.Live() - Cost(u) == old(alloc.Live()) - Cost(t)
  {
    hide Valid, Value, ToMap, Mirror, VisitTorrent, Kept, Cost, Sweep, Small;
    LeafView(leaf);
    ghost var chain := leaf.chain;
    next := item.nextInLeaf;
    stats, ok, u := CollectItem(leaf, item, limit, acc, alloc, k, t, world);
    SmallAt(t, k);
    VisitTorrentKeeps(limit, acc, t[k].data.value);
    SmallAfter(t, k, limit);
    m := AdvanceStep(leaf, next, limit, acc, k, t, u, e, j, goal, chain);
  }

  lemma {:induction false} SmallAt(t: seq<Entry<Torrent>>, k: nat)
    requires Small(t) && k < |t| && t[k].data.Some?
    ensures |t[k].data.value.peers| < WORD
  {
  }

  /** The loop of `mapList` over one leaf of torrents. */
  method CollectLeaf(leaf: List<Record>, limit: int, start: Stats, alloc: Allocator, ghost t: seq<Entry<Torrent>>,
                     ghost world: set<object>)
    returns (stats: Stats, ok: bool, ghost u: seq<Entry<Torrent>>)
    requires Valid(leaf) && leaf.level == 0
    requires Mirror(Value(leaf), t, world) && Outside(leaf, world) && alloc !in world && Small(t)
    modifies leaf, ItemSet(leaf), world, alloc
    ensures Valid(leaf) && ItemSet(leaf) <= old(ItemSet(leaf)) && Mirror(Value(leaf), u, world) && Small(u) && ok
    ensures Swept(stats, u, false) == Sweep(t, start, TorrentVisit(limit))
    ensures alloc.Live() - Cost(u) == old(alloc.Live()) - Cost(t)
  {
    hide Valid, Value, ToMap, Mirror, Cost, Sweep, Small, Advance;
    ghost var k, j := 0, 0;
    ghost var goal := Sweep(t, start, TorrentVisit(limit));
    AdvanceBegins(leaf, limit, start, t, world);
    stats, ok, u := start, true, t;
    var current := leaf.firstItem;
    while current != null
      invariant Valid(leaf) && ItemSet(leaf) <= old(ItemSet(leaf)) && Mirror(Value(leaf), u, world) && Small(u) && ok
      invariant j <= |t| && Advance(leaf, current, limit, stats, k, u, t, j, goal)
      invariant alloc.Live() - Cost(u) == old(alloc.Live()) - Cost(t)
      decreases |t| - j
    {
      stats, ok, current, k, u := CollectStep(leaf, current, limit, stats, alloc, k, u, t, j, goal, world);
      j := j + 1;
    }
    AdvanceEnds(leaf, limit, stats, k, u, t, j, goal);
  }

  lemma {:induction false} AdvanceBegins(leaf: List<Record>, limit: int, start: Stats, t: seq<Entry<Torrent>>,
                                         world: set<object>)
    requires Valid(leaf) && leaf.level == 0 && Mirror(Value(leaf), t, world)
    ensures Advance(leaf, leaf.firstItem, limit, start, 0, t, t, 0, Sweep(t, start, TorrentVisit(limit)))
  {
    hide Sweep, Valid;
    LeafView(leaf);
    AfterNothing(Sweep(t, start, TorrentVisit(limit)));
  }

  lemma {:induction false} AdvanceEnds(leaf: List<Record>, limit: int, acc: Stats, k: nat, t: seq<Entry<Torrent>>,
                                       e: seq<Entry<Torrent>>, j: nat, goal: Swept<Stats, Torrent>)
    requires Advance(leaf, null, limit, acc, k, t, e, j, goal)
    ensures goal == Swept(acc, t, false)
  {
  }
}
