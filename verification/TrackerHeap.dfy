/**
 * The tracker on the heap: a hash list of torrents, each with its record and the hash list of its
 * peers. Every operation is proved to take one step of the state machine of module Tracker.
 */
module TrackerHeap {
  import opened Bytes
  import opened HashOrder
  import opened Entries
  import opened HashList
  import opened HashListOps
  import opened Tracker
  import opened TorrentRecord

  // ---------------------------------------------------------------- what the heap stands for

  /** All objects of a record lie in `world`. */
  ghost predicate Inside(r: Record, world: set<object>)
    reads world
  {
    r in world && (forall l :: l in r.peerList.leaves ==> l in world) && Region(r) <= world
  }

  /** A record in `world` that stands for a torrent. */
  ghost predicate Keeps(r: Record, t: Torrent, world: set<object>)
    reads world
  {
    && Inside(r, world)
    && (assert forall i :: i in ItemSet(r.peerList) ==> (i as object) in Region(r); Stands(r, t))
  }

  /** No two records share anything. */
  ghost predicate Separate(m: map<Hash, Option<Record>>, world: set<object>)
    reads world
  {
    && (forall h :: h in m ==> m[h].Some? && Inside(m[h].value, world))
    && (forall h, k :: h in m && k in m && h != k ==> Region(m[h].value) !! Region(m[k].value))
  }

  /** Every torrent has a record of its own in `world` that stands for it. */
  ghost predicate Standing(m: map<Hash, Option<Record>>, s: State, world: set<object>)
    reads world
  {
    m.Keys == s.Keys && Separate(m, world) && forall h :: h in m ==> Keeps(m[h].value, s[h], world)
  }

  /** The objects of the list itself are not in `world`. */
  ghost predicate Outside(list: List<Record>, world: set<object>)
    reads list.leaves
  {
    (forall l :: l in list.leaves ==> l !in world) && (forall i :: i in ItemSet(list) ==> i !in world)
  }

  /** The list, with the records in `world`, stands for the state `s`. */
  ghost predicate Holds(list: List<Record>, s: State, world: set<object>)
    reads list.leaves, ItemSet(list), world
  {
    && ValidRoot(list) && list.hashLength == HASH_LENGTH && Outside(list, world)
    && Standing(ToMap(Value(list)), s, world)
  }

  lemma {:induction false} StandingAt(m: map<Hash, Option<Record>>, s: State, h: Hash, world: set<object>)
    requires Standing(m, s, world) && h in m
    ensures h in s && m[h].Some? && Stands(m[h].value, s[h]) && Region(m[h].value) <= world
  {
  }

  /** A new record beside those that are there. */
  lemma {:induction false} StandingNew(m: map<Hash, Option<Record>>, s: State, h: Hash, r: Record, t: Torrent,
                                       world: set<object>)
    requires Standing(m, s, world) && h !in m && Stands(r, t) && Region(r) !! world
    ensures Standing(m[h := Some(r)], s[h := t], world + Region(r))
  {
    hide Stands;
    var n, w := m[h := Some(r)], world + Region(r);
    assert Inside(r, w);
    forall k | k in m ensures Keeps(m[k].value, s[k], w) && Region(m[k].value) <= world {
      assert Keeps(m[k].value, s[k], world);
    }
  }

  // ---------------------------------------------------------------- the blocks of all peer lists

  ghost function NestedBlocks(s: State): nat {
    if s == map[] then 0
    else
      var h :| h in s;
      PeerBlocks(s[h]) + NestedBlocks(s - {h})
  }

  lemma {:induction false} NestedWithout(s: State, h: Hash)
    requires h in s
    ensures NestedBlocks(s) == PeerBlocks(s[h]) + NestedBlocks(s - {h})
    decreases |s|
  {
    hide PeerBlocks;
    var k :| k in s && NestedBlocks(s) == PeerBlocks(s[k]) + NestedBlocks(s - {k});
    if k != h {
      SetSizes(s.Keys, k);
      SetSizes(s.Keys, h);
      assert (s - {k}).Keys == s.Keys - {k} && (s - {h}).Keys == s.Keys - {h};
      NestedWithout(s - {k}, h);
      NestedWithout(s - {h}, k);
      assert s - {k} - {h} == s - {h} - {k};
    }
  }

  lemma {:induction false} NestedUpdate(s: State, h: Hash, t: Torrent)
    ensures NestedBlocks(s[h := t]) == NestedBlocks(s) + PeerBlocks(t) - if h in s then PeerBlocks(s[h]) else 0
  {
    hide PeerBlocks, NestedBlocks;
    NestedWithout(s[h := t], h);
    assert s[h := t] - {h} == s - {h};
    if h in s {
      NestedWithout(s, h);
    } else {
      assert s - {h} == s;
    }
  }

  // ---------------------------------------------------------------- the operations

  lemma {:induction false} HoldsMeans(list: List<Record>, s: State, world: set<object>)
    requires Holds(list, s, world)
    ensures ValidRoot(list) && list.hashLength == HASH_LENGTH && Outside(list, world)
    ensures Standing(ToMap(Value(list)), s, world) && forall h :: h in ToMap(Value(list)) <==> h in s
  {
    hide Value, Valid, ToMap;
  }

  lemma {:induction false} HoldsSince(list: List<Record>, s: State, world: set<object>)
    requires ValidRoot(list) && list.hashLength == HASH_LENGTH && Outside(list, world)
    requires Standing(ToMap(Value(list)), s, world)
    ensures Holds(list, s, world)
  {
  }

  /** The branch of `setTorrentL` for a new item. */
  method AddRecord(list: List<Record>, torrent: Item<Record>, alloc: Allocator, ghost m: map<Hash, Option<Record>>,
                   ghost s: State, ghost world: set<object>)
    returns (ghost wider: set<object>)
    requires ValidRoot(list) && list.hashLength == HASH_LENGTH && torrent in ItemSet(list) && torrent.data == None
    requires Standing(m, s, world) && torrent.hash !in m && ToMap(Value(list)) == m[torrent.hash := None]
    requires Outside(list, world) && alloc !in world
    modifies torrent`data, alloc
    ensures Holds(list, s[torrent.hash := NEW_TORRENT], wider) && ItemSet(list) == old(ItemSet(list))
    ensures world <= wider && fresh(wider - world)
    ensures torrent.data == ToMap(Value(list))[torrent.hash]
    ensures alloc.Live() - Blocks(Value(list)) == old(alloc.Live() - Blocks(Value(list))) + PeerBlocks(NEW_TORRENT)
  {
    hide ToMap, Value, Valid, Blocks, Standing, NestedBlocks, PeerBlocks, Holds;
    var r := NewRecord(alloc);
    ghost var at := StoreData(torrent, Some(r), alloc, list);
    StandingNew(m, s, torrent.hash, r, NEW_TORRENT, world);
    wider := world + Region(r);
    assert ToMap(Value(list)) == m[torrent.hash := Some(r)];
    HoldsSince(list, s[torrent.hash := NEW_TORRENT], wider);
  }

  /** `setTorrentL`. */
  method SetTorrent(list: List<Record>, hash: Hash, alloc: Allocator, ghost s: State, ghost world: set<object>)
    returns (torrent: Item<Record>, ghost wider: set<object>)
    requires Holds(list, s, world) && alloc !in world && |hash| == HASH_LENGTH
    modifies list.leaves, ItemSet(list), alloc
    ensures Holds(list, s[hash := if hash in s then s[hash] else NEW_TORRENT], wider)
    ensures fresh(ItemSet(list) - old(ItemSet(list))) && world <= wider && fresh(wider - world)
    ensures torrent in ItemSet(list) && torrent.hash == hash && torrent.data == ToMap(Value(list))[hash]
    ensures alloc.Live() - Blocks(Value(list)) - NestedBlocks(s[hash := if hash in s then s[hash] else NEW_TORRENT])
         == old(alloc.Live() - Blocks(Value(list))) - NestedBlocks(s)
  {
    hide ToMap, Value, Valid, Blocks, Standing, NestedBlocks, PeerBlocks, Holds;
    HoldsMeans(list, s, world);
    ghost var m := ToMap(Value(list));
    NestedUpdate(s, hash, NEW_TORRENT);
    if hash in s {
      StandingAt(m, s, hash, world);
      assert s[hash := s[hash]] == s;
    }
    torrent := SetHash(list, hash, alloc);
    wider := world;
    if torrent.data == None {
      wider := AddRecord(list, torrent, alloc, m, s, world);
    } else {
      HoldsSince(list, s, world);
    }
  }

  /** One torrent has changed, with objects that no other torrent has. */
  lemma {:induction false} StandingChanged(m: map<Hash, Option<Record>>, s: State, h: Hash, t: Torrent,
                                           world: set<object>)
    requires m.Keys == s.Keys && h in m && AllPresent(m) && Region(m[h].value) <= world && Stands(m[h].value, t)
    requires forall k :: k in m && k != h ==>
      Region(m[k].value) <= world && Stands(m[k].value, s[k]) && Region(m[k].value) !! Region(m[h].value)
    requires forall j, k :: j in m && k in m && j != k && j != h && k != h ==> Region(m[j].value) !! Region(m[k].value)
    ensures Standing(m, s[h := t], world)
  {
    hide Stands;
    forall k | k in m ensures Keeps(m[k].value, s[h := t][k], world) {
      assert m[k].value in Region(m[k].value);
      assert forall l :: l in m[k].value.peerList.leaves ==> (l as object) in Region(m[k].value);
    }
  }

  /** Nothing of this record lies in `region`. */
  ghost predicate Beside(r: Record, region: set<object>)
    reads r, r.peerList.leaves
  {
    && r !in region && (forall l :: l in r.peerList.leaves ==> l !in region)
    && (forall i :: i in ItemSet(r.peerList) ==> i !in region)
  }

  lemma {:induction false} BesideRegion(r: Record, region: set<object>)
    ensures Beside(r, region) <==> Region(r) !! region
  {
    if Region(r) !! region {
      assert r in Region(r);
      assert forall l :: l in r.peerList.leaves ==> (l as object) in Region(r);
      assert forall i :: i in ItemSet(r.peerList) ==> (i as object) in Region(r);
    }
  }

  /** The other torrents of a state. */
  lemma {:induction false} Others(m: map<Hash, Option<Record>>, s: State, h: Hash, world: set<object>)
    requires Standing(m, s, world) && h in m
    ensures AllPresent(m) && m.Keys == s.Keys && Region(m[h].value) <= world && Stands(m[h].value, s[h])
    ensures forall k :: k in m && k != h ==>
      m[k].value in world && Stands(m[k].value, s[k]) && Region(m[k].value) <= world
      && Beside(m[k].value, Region(m[h].value))
    ensures forall j, k :: j in m && k in m && j != k ==> Region(m[j].value) !! Region(m[k].value)
  {
    hide Stands, Beside;
    StandingAt(m, s, h, world);
    forall k | k in m && k != h
      ensures Stands(m[k].value, s[k]) && Region(m[k].value) <= world && Beside(m[k].value, Region(m[h].value))
    {
      BesideRegion(m[k].value, Region(m[h].value));
      assert Keeps(m[k].value, s[k], world);
    }
  }

  /** What an announce or a stop does to its torrent. */
  function Changed(t: Torrent, a: Action): Torrent {
    match a
    case AnnounceOf(q, now, protocol) => SetPeer(t, q, now, protocol)
    case StopOf(q) => DeletePeer(t, q)
    case CollectionAt(_, _) => t
  }

  /** The part of `setPeerPublic` or `deletePeerPublic` on a torrent that is there: no other torrent notices. */
  method ChangeRecord(list: List<Record>, r: Record, a: Action, alloc: Allocator, ghost s: State,
                      ghost world: set<object>)
    returns (ghost wider: set<object>)
    requires Holds(list, s, world) && alloc !in world && !a.CollectionAt? && |a.q.peerId| == HASH_LENGTH
    requires a.q.infoHash in ToMap(Value(list)) && ToMap(Value(list))[a.q.infoHash] == Some(r)
    requires a.q.infoHash in s
    modifies world, alloc
    ensures Holds(list, s[a.q.infoHash := Changed(s[a.q.infoHash], a)], wider)
    ensures world <= wider && fresh(wider - world)
    ensures ItemSet(list) == old(ItemSet(list)) && Value(list) == old(Value(list))
    ensures alloc.Live() - PeerBlocks(Changed(s[a.q.infoHash], a)) == old(alloc.Live()) - PeerBlocks(s[a.q.infoHash])
  {
    hide ToMap, Value, Valid, Blocks, Standing, PeerBlocks, Holds, Stands, SetPeer, DeletePeer, Region;
    HoldsMeans(list, s, world);
    ghost var m, h := ToMap(Value(list)), a.q.infoHash;
    Others(m, s, h, world);
    StandsMeans(r, s[h]);
    ghost var region := Region(r);
    match a {
      case AnnounceOf(q, now, protocol) => SetPeerOf(r, q, now, protocol, alloc);
      case StopOf(q) => DeletePeerOf(r, q, alloc);
    }
    wider := world + Region(r);
    forall k | k in m && k != h
      ensures Stands(m[k].value, s[k]) && Region(m[k].value) <= wider && Region(m[k].value) !! Region(r)
    {
      assert Region(m[k].value) == old(Region(m[k].value));
    }
    forall j, k | j in m && k in m && j != k && j != h && k != h ensures Region(m[j].value) !! Region(m[k].value) {
      assert Region(m[j].value) == old(Region(m[j].value)) && Region(m[k].value) == old(Region(m[k].value));
    }
    StandsSince(r);
    StandingChanged(m, s, h, TorrentOf(r), wider);
    HoldsSince(list, s[h := TorrentOf(r)], wider);
  }

  /** `setPeerPublic`: an announce that is not a stop. */
  method SetPeerPublic(list: List<Record>, q: Query, now: int, protocol: Bits, alloc: Allocator, ghost s: State,
                       ghost world: set<object>)
    returns (torrent: Item<Record>, ghost wider: set<object>)
    requires Holds(list, s, world) && alloc !in world && |q.infoHash| == HASH_LENGTH && |q.peerId| == HASH_LENGTH
    modifies list.leaves, ItemSet(list), world, alloc
    ensures Holds(list, Announce(s, q, now, protocol), wider)
    ensures fresh(ItemSet(list) - old(ItemSet(list))) && world <= wider && fresh(wider - world)
    ensures torrent in ItemSet(list) && torrent.hash == q.infoHash && torrent.data == ToMap(Value(list))[q.infoHash]
    ensures alloc.Live() - Blocks(Value(list)) - NestedBlocks(Announce(s, q, now, protocol))
         == old(alloc.Live() - Blocks(Value(list))) - NestedBlocks(s)
  {
    hide ToMap, Value, Valid, Blocks, Standing, NestedBlocks, PeerBlocks, Holds, SetPeer, Changed, Region;
    var h := q.infoHash;
    ghost var t := if h in s then s[h] else NEW_TORRENT;
    ghost var middle := s[h := t];
    torrent, wider := SetTorrent(list, h, alloc, s, world);
    HoldsMeans(list, middle, wider);
    StandingAt(ToMap(Value(list)), middle, h, wider);
    ChangedBy(t, q, now, protocol);
    NestedUpdate(middle, h, SetPeer(t, q, now, protocol));
    assert middle[h := SetPeer(t, q, now, protocol)] == Announce(s, q, now, protocol);
    wider := ChangeRecord(list, torrent.data.value, AnnounceOf(q, now, protocol), alloc, middle, wider);
  }

  lemma {:induction false} ChangedBy(t: Torrent, q: Query, now: int, protocol: Bits)
    ensures Changed(t, AnnounceOf(q, now, protocol)) == SetPeer(t, q, now, protocol)
    ensures Changed(t, StopOf(q)) == DeletePeer(t, q)
  {
  }

  /** `deletePeerPublic`: a stop. */
  method DeletePeerPublic(list: List<Record>, q: Query, alloc: Allocator, ghost s: State, ghost world: set<object>)
    returns (torrent: Item?<Record>, ghost wider: set<object>)
    requires Holds(list, s, world) && alloc !in world && |q.infoHash| == HASH_LENGTH && |q.peerId| == HASH_LENGTH
    modifies world, alloc
    ensures Holds(list, Stop(s, q), wider) && ItemSet(list) == old(ItemSet(list)) && world <= wider
    ensures fresh(wider - world)
    ensures torrent == null <==> q.infoHash !in s
    ensures torrent != null ==>
      torrent in ItemSet(list) && torrent.hash == q.infoHash && torrent.data == ToMap(Value(list))[q.infoHash]
    ensures alloc.Live() - Blocks(Value(list)) - NestedBlocks(Stop(s, q))
         == old(alloc.Live() - Blocks(Value(list))) - NestedBlocks(s)
  {
    hide ToMap, Value, Valid, Blocks, Standing, NestedBlocks, PeerBlocks, Holds, DeletePeer, Changed, Region, Items;
    HoldsMeans(list, s, world);
    var h := q.infoHash;
    torrent := GetHash(list, h);
    wider := world;
    if torrent != null {
      FoundInSet(list, torrent);
      StandingAt(ToMap(Value(list)), s, h, world);
      ChangedBy(s[h], q, 0, Bits(false, false));
      NestedUpdate(s, h, DeletePeer(s[h], q));
      wider := ChangeRecord(list, torrent.data.value, StopOf(q), alloc, s, world);
    }
  }

  /** A first announce takes seven blocks: the item, its hash and its record, the peer list, and three for the peer. */
  lemma {:induction false} FirstAnnounceBlocks(q: Query, now: int, protocol: Bits, r: Record)
    ensures Blocks([Entry(q.infoHash, Some(r))]) + NestedBlocks(Announce(map[], q, now, protocol)) == 7
  {
    hide NestedBlocks, ChangeStats;
    var t := SetPeer(NEW_TORRENT, q, now, protocol);
    NestedUpdate(map[], q.infoHash, t);
    assert NestedBlocks(map[]) == 0 by { NothingNested(); }
    StatsKeepPeers(NEW_TORRENT, NONE, q.event);
    assert t.peers.Keys == {q.peerId};
  }

  lemma {:induction false} NothingNested()
    ensures NestedBlocks(map[]) == 0
  {
  }
}
