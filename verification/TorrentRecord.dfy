/**
 * A torrent's record on the heap: its counters and the hash list of its peers, and what announces and
 * stops do to them (data.c). Each operation is proved against the step of module Tracker.
 */
module TorrentRecord {
  import opened Bytes
  import opened HashOrder
  import opened Entries
  import opened HashList
  import opened HashListOps
  import opened HashListRebuild
  import opened Tracker
  import opened Garbage

  const NO_SEMAPHORES := SemaphoreMode(false, false)

  /** `struct torrentDataL`. */
  class Record {
    var peerList: List<Peer>
    var complete: u32
    var incomplete: u32
    var downloaded: u32

    /** A record fresh from `c_calloc`, with its new peer list. */
    constructor (peerList: List<Peer>)
      ensures this.peerList == peerList && complete == 0 && incomplete == 0 && downloaded == 0
    {
      this.peerList := peerList;
      complete, incomplete, downloaded := 0, 0, 0;
    }

    /** `changeTorrentStatsL`. */
    method ChangeTorrentStats(oldEvent: byte, newEvent: byte)
      modifies this`complete, this`incomplete, this`downloaded
      ensures var t := ChangeStats(Torrent(map[], 0, old(complete), old(incomplete), old(downloaded)), oldEvent,
        newEvent);
        complete == t.complete && incomplete == t.incomplete && downloaded == t.downloaded
    {
      if oldEvent == NONE {
        if newEvent == COMPLETED {
          downloaded := Wrap32(downloaded + 1);
          complete := Wrap32(complete + 1);
        } else {
          incomplete := Wrap32(incomplete + 1);
        }
      } else if newEvent == NONE {
        if oldEvent == COMPLETED {
          complete := Wrap32(complete - 1);
        } else {
          incomplete := Wrap32(incomplete - 1);
        }
      } else if oldEvent != newEvent && newEvent != CONTINUE {
        if oldEvent == COMPLETED {
          complete := Wrap32(complete - 1);
          incomplete := Wrap32(incomplete + 1);
        } else if newEvent == COMPLETED {
          downloaded := Wrap32(downloaded + 1);
          complete := Wrap32(complete + 1);
          incomplete := Wrap32(incomplete - 1);
        }
      }
    }
  }

  // ---------------------------------------------------------------- what a record stands for

  /** The values that are present. */
  function Present<D>(m: map<Hash, Option<D>>): map<Hash, D> {
    map h | h in m && m[h].Some? :: m[h].value
  }

  predicate AllPresent<D>(m: map<Hash, Option<D>>) {
    forall h :: h in m ==> m[h].Some?
  }

  lemma {:induction false} PresentUpdate<D>(m: map<Hash, Option<D>>, h: Hash, x: D)
    ensures Present(m[h := Some(x)]) == Present(m)[h := x]
    ensures Present(m - {h}) == Present(m) - {h}
    ensures AllPresent(m) ==> AllPresent(m[h := Some(x)]) && AllPresent(m - {h})
    ensures AllPresent(m) ==> (h in Present(m) <==> h in m)
    ensures h in m && m[h].Some? ==> Present(m)[h] == m[h].value
  {
  }

  /** The objects that belong to a record: itself, the leaves of its peer list and their items. */
  ghost function Region(r: Record): set<object>
    reads r, r.peerList.leaves
  {
    {r as object} + (set l | l in r.peerList.leaves :: l as object) + (set i | i in ItemSet(r.peerList) :: i as object)
  }

  /** The peer list is a valid list of 20-byte ids in which every peer has its data. */
  ghost predicate Intact(r: Record)
    reads r, r.peerList.leaves, ItemSet(r.peerList)
  {
    && ValidRoot(r.peerList) && r.peerList.hashLength == HASH_LENGTH
    && r.peerList.semaphores == NO_SEMAPHORES && r.peerList.endianness == BigEndian
    && AllPresent(ToMap(Value(r.peerList)))
  }

  ghost function TorrentOf(r: Record): Torrent
    requires Intact(r)
    reads r, r.peerList.leaves, ItemSet(r.peerList)
  {
    Torrent(Present(ToMap(Value(r.peerList))), r.peerList.level, r.complete, r.incomplete, r.downloaded)
  }

  /** The counters as an answer shows them. */
  function CountersIn(r: Record): Counters
    reads r
  {
    Counters(r.complete, r.incomplete, r.downloaded)
  }

  ghost predicate Stands(r: Record, t: Torrent)
    reads r, r.peerList.leaves, ItemSet(r.peerList)
  {
    Intact(r) && TorrentOf(r) == t
  }

  /** The heap blocks of a torrent's peer list: its structure, and three for each peer. */
  function PeerBlocks(t: Torrent): nat {
    StructBlocks(t.level, NO_SEMAPHORES) + 3 * |t.peers|
  }

  lemma {:induction false} PresentBlocks<D>(e: seq<Entry<D>>)
    requires Distinct(e) && AllPresent(ToMap(e))
    ensures Blocks(e) == 3 * |Present(ToMap(e))|
  {
    if e != [] {
      var n := |e| - 1;
      var m := ToMap(e[..n]);
      ToMapAt(e, n);
      ToMapDomain(e[..n], e[n].hash);
      forall h | h in m ensures m[h].Some? {
        ToMapDomain(e[..n], h);
        assert ToMap(e)[h] == m[h];
      }
      PresentBlocks(e[..n]);
      PresentUpdate(m, e[n].hash, e[n].data.value);
    }
  }

  /** What the peer list of a record occupies. */
  lemma {:induction false} RecordBlocks(r: Record)
    requires Intact(r)
    ensures StructBlocks(r.peerList.level, NO_SEMAPHORES) + Blocks(Value(r.peerList)) == PeerBlocks(TorrentOf(r))
  {
    hide Valid, Value, Blocks, ToMap, Present, AllPresent, StructBlocks;
    ValueInPlace(r.peerList);
    PresentBlocks(Value(r.peerList));
  }

  lemma {:induction false} StandsMeans(r: Record, t: Torrent)
    requires Stands(r, t)
    ensures Intact(r) && TorrentOf(r) == t
  {
  }

  lemma {:induction false} StandsSince(r: Record)
    requires Intact(r)
    ensures Stands(r, TorrentOf(r))
  {
  }

  /** Entries whose data are all present enumerate the map of their values, and only that. */
  lemma {:induction false} PresentEntries<D>(e: seq<Entry<D>>)
    requires Distinct(e) && AllPresent(ToMap(e))
    ensures Enumerates(e, Present(ToMap(e)))
  {
    hide ToMap;
    forall i | 0 <= i < |e| ensures e[i].hash in Present(ToMap(e)) && e[i].data == Some(Present(ToMap(e))[e[i].hash]) {
      ToMapAt(e, i);
    }
    forall h | h in Present(ToMap(e)) ensures exists i :: 0 <= i < |e| && e[i].hash == h {
      ToMapDomain(e, h);
    }
  }

  lemma {:induction false} EntriesPresent<D>(e: seq<Entry<D>>, m: map<Hash, D>)
    requires Enumerates(e, m)
    ensures AllPresent(ToMap(e)) && Present(ToMap(e)) == m
  {
    hide ToMap;
    forall h ensures h in ToMap(e) <==> h in m {
      ToMapDomain(e, h);
    }
    forall h | h in m ensures ToMap(e)[h] == Some(m[h]) {
      var i :| 0 <= i < |e| && e[i].hash == h;
      ToMapAt(e, i);
    }
  }

  // ---------------------------------------------------------------- creation

  /** The part of `setTorrentL` behind `c_calloc`: an empty peer list of level 0. */
  method NewRecord(alloc: Allocator) returns (r: Record)
    modifies alloc
    ensures fresh(Region(r)) && Intact(r) && TorrentOf(r) == NEW_TORRENT
    ensures alloc.Live() == old(alloc.Live()) + PeerBlocks(NEW_TORRENT)
  {
    hide Valid, Value, ToMap;
    var list := InitList<Peer>(0, HASH_LENGTH, NO_SEMAPHORES, BigEndian, alloc);
    r := new Record(list.value);
    EmptyValue<Peer>();
    NothingPresent<Peer>();
  }

  lemma {:induction false} NothingPresent<D>()
    ensures Present<D>(map[]) == map[] && AllPresent<D>(map[]) && |NEW_TORRENT.peers| == 0
  {
  }

  // ---------------------------------------------------------------- announces and stops

  lemma {:induction false} IntactParts(r: Record)
    requires Intact(r)
    ensures ValidRoot(r.peerList) && r.peerList.hashLength == HASH_LENGTH && AllPresent(ToMap(Value(r.peerList)))
    ensures r.peerList.semaphores == NO_SEMAPHORES && r.peerList.endianness == BigEndian
    ensures TorrentOf(r).peers == Present(ToMap(Value(r.peerList))) && TorrentOf(r).level == r.peerList.level
  {
  }

  /** The switch of a crowded peer list to level 1: no peer is lost or duplicated. */
  method MakeRoom(r: Record, alloc: Allocator)
    requires Intact(r)
    modifies Region(r), alloc
    ensures Intact(r) && TorrentOf(r) == Roomier(old(TorrentOf(r)))
    ensures fresh(Region(r) - old(Region(r)))
    ensures alloc.Live() - PeerBlocks(TorrentOf(r)) == old(alloc.Live() - PeerBlocks(TorrentOf(r)))
  {
    hide Valid, Value, Blocks, ToMap, Present, AllPresent, StructBlocks, NodeBlocks, PeerBlocks, Shaped, Apart;
    RecordBlocks(r);
    if Wrap32(r.complete + r.incomplete) > PEERS_FOR_LEVEL_0_LIMIT && r.peerList.level == 0 {
      var rebuilt := ReInitList(r.peerList, 1, alloc);
      r.peerList := rebuilt.value;
      RecordBlocks(r);
    }
  }

  /** The fields of a peer's record that `setPeerPublic` writes, one after the other. */
  method UpdatePeer(was: Peer, q: Query, now: int, protocol: Bits) returns (p: Peer)
    ensures p == UpdatedPeer(was, q, now, protocol)
  {
    p := was.(port := q.port);
    if q.ipVersion.first {
      p := p.(ip4 := q.ip);
    } else {
      p := p.(ip6 := q.ip);
    }
    p := p.(updateTime := now);
    p := p.(event := q.event);
    p := p.(protocol := Or(p.protocol, protocol));
    p := p.(ipVersion := Or(p.ipVersion, q.ipVersion));
  }

  /** `setHash` on the peer list, with a blank record for a new peer; the other peers stay. */
  method PeerItem(r: Record, id: Hash, alloc: Allocator) returns (peer: Item<Peer>, known: bool)
    requires Intact(r) && |id| == HASH_LENGTH
    modifies r.peerList.leaves, ItemSet(r.peerList), alloc
    ensures Intact(r) && fresh(ItemSet(r.peerList) - old(ItemSet(r.peerList))) && peer in ItemSet(r.peerList)
    ensures known <==> id in old(TorrentOf(r)).peers
    ensures peer.hash == id && peer.data == Some(if known then old(TorrentOf(r)).peers[id] else BLANK_PEER)
    ensures TorrentOf(r) == var t := old(TorrentOf(r)); if known then t else t.(peers := t.peers[id := BLANK_PEER])
    ensures alloc.Live() - PeerBlocks(TorrentOf(r)) == old(alloc.Live() - PeerBlocks(TorrentOf(r)))
  {
    hide Valid, Value, Blocks, ToMap, Present, AllPresent, StructBlocks, NodeBlocks, PeerBlocks, Shaped;
    RecordBlocks(r);
    ghost var m := ToMap(Value(r.peerList));
    PresentAt(m, id);
    PresentUpdate(m, id, BLANK_PEER);
    peer := SetHash(r.peerList, id, alloc);
    known := peer.data != None;
    if !known {
      ghost var at := StoreData(peer, Some(BLANK_PEER), alloc, r.peerList);
      assert ToMap(Value(r.peerList)) == m[id := Some(BLANK_PEER)];
    }
    RecordBlocks(r);
  }

  /** A known peer's record is renewed. */
  method AssignPeer(r: Record, peer: Item<Peer>, p: Peer)
    requires Intact(r) && peer in ItemSet(r.peerList) && peer.data.Some?
    modifies ItemSet(r.peerList)
    ensures Intact(r) && ItemSet(r.peerList) == old(ItemSet(r.peerList))
    ensures TorrentOf(r) == var t := old(TorrentOf(r)); t.(peers := t.peers[peer.hash := p])
    ensures PeerBlocks(TorrentOf(r)) == old(PeerBlocks(TorrentOf(r)))
  {
    hide Valid, Value, Blocks, ToMap, Present, AllPresent, StructBlocks, NodeBlocks, PeerBlocks, Shaped;
    RecordBlocks(r);
    PresentUpdate(ToMap(Value(r.peerList)), peer.hash, p);
    ghost var at := AssignData(peer, Some(p), r.peerList);
    RecordBlocks(r);
  }

  /** First the item, then the counters, then the peer's record. */
  lemma {:induction false} EnteredInSteps(t: Torrent, q: Query, now: int, protocol: Bits)
    ensures var known := q.peerId in t.peers;
      var found := if known then t else t.(peers := t.peers[q.peerId := BLANK_PEER]);
      var was := if known then t.peers[q.peerId] else BLANK_PEER;
      var counted := ChangeStats(found, if known then was.event else NONE, q.event);
      counted.(peers := counted.peers[q.peerId := UpdatedPeer(was, q, now, protocol)]) == Entered(t, q, now, protocol)
  {
    hide UpdatedPeer, ChangeStats;
    var known := q.peerId in t.peers;
    var was := if known then t.peers[q.peerId] else BLANK_PEER;
    var p := UpdatedPeer(was, q, now, protocol);
    assert t.peers[q.peerId := BLANK_PEER][q.peerId := p] == t.peers[q.peerId := p];
    StatsOfCounters(t, if known then was.event else NONE, q.event);
    StatsOfCounters(t.(peers := t.peers[q.peerId := BLANK_PEER]), NONE, q.event);
  }

  /** The counters follow the event, then the peer's record is renewed. */
  method RenewPeer(r: Record, peer: Item<Peer>, oldEvent: byte, q: Query, now: int, protocol: Bits)
    requires Intact(r) && peer in ItemSet(r.peerList) && peer.data.Some?
    modifies r`complete, r`incomplete, r`downloaded, ItemSet(r.peerList)
    ensures Intact(r) && ItemSet(r.peerList) == old(ItemSet(r.peerList))
    ensures var counted := ChangeStats(old(TorrentOf(r)), oldEvent, q.event);
      TorrentOf(r)
      == counted.(peers := counted.peers[peer.hash := UpdatedPeer(old(peer.data).value, q, now, protocol)])
    ensures PeerBlocks(TorrentOf(r)) == old(PeerBlocks(TorrentOf(r)))
  {
    hide Intact, TorrentOf, PeerBlocks, UpdatedPeer, ChangeStats;
    RecordIsApart(r);
    Count(r, oldEvent, q.event);
    var p := UpdatePeer(peer.data.value, q, now, protocol);
    AssignPeer(r, peer, p);
  }

  /** The part of `setPeerPublic` on the peer's item. */
  method EnterPeer(r: Record, q: Query, now: int, protocol: Bits, alloc: Allocator)
    requires Intact(r) && |q.peerId| == HASH_LENGTH
    modifies Region(r), alloc
    ensures Intact(r) && TorrentOf(r) == Entered(old(TorrentOf(r)), q, now, protocol)
    ensures fresh(Region(r) - old(Region(r)))
    ensures alloc.Live() - PeerBlocks(TorrentOf(r)) == old(alloc.Live() - PeerBlocks(TorrentOf(r)))
  {
    hide Intact, TorrentOf, PeerBlocks, UpdatedPeer, ChangeStats, Entered;
    ghost var t := TorrentOf(r);
    var peer, known := PeerItem(r, q.peerId, alloc);
    EnteredInSteps(t, q, now, protocol);
    RenewPeer(r, peer, if known then peer.data.value.event else NONE, q, now, protocol);
  }

  /** The counters change; the peers and their blocks do not. */
  method Count(r: Record, oldEvent: byte, newEvent: byte)
    requires Intact(r)
    modifies r`complete, r`incomplete, r`downloaded
    ensures Intact(r) && TorrentOf(r) == ChangeStats(old(TorrentOf(r)), oldEvent, newEvent)
    ensures PeerBlocks(TorrentOf(r)) == old(PeerBlocks(TorrentOf(r)))
  {
    hide Valid, Value, ToMap, Present, AllPresent, ChangeStats;
    RecordIsApart(r);
    StatsOfCounters(TorrentOf(r), oldEvent, newEvent);
    r.ChangeTorrentStats(oldEvent, newEvent);
  }

  lemma {:induction false} RecordIsApart(r: Record)
    ensures forall l :: l in r.peerList.leaves ==> (l as object) != r
    ensures forall i :: i in ItemSet(r.peerList) ==> (i as object) != r
  {
  }

  lemma {:induction false} PresentAt<D>(m: map<Hash, Option<D>>, h: Hash)
    requires AllPresent(m)
    ensures h in Present(m) <==> h in m
    ensures h in m ==> m[h] == Some(Present(m)[h])
  {
  }

  /** The counters of a torrent change without regard to its peers. */
  lemma {:induction false} StatsOfCounters(t: Torrent, oldEvent: byte, newEvent: byte)
    ensures var c := ChangeStats(Torrent(map[], 0, t.complete, t.incomplete, t.downloaded), oldEvent, newEvent);
      ChangeStats(t, oldEvent, newEvent) == Torrent(t.peers, t.level, c.complete, c.incomplete, c.downloaded)
  {
  }

  /** The part of `setPeerPublic` on one torrent. */
  method SetPeerOf(r: Record, q: Query, now: int, protocol: Bits, alloc: Allocator)
    requires Intact(r) && |q.peerId| == HASH_LENGTH
    modifies Region(r), alloc
    ensures Intact(r) && TorrentOf(r) == SetPeer(old(TorrentOf(r)), q, now, protocol)
    ensures fresh(Region(r) - old(Region(r)))
    ensures alloc.Live() - PeerBlocks(TorrentOf(r)) == old(alloc.Live() - PeerBlocks(TorrentOf(r)))
  {
    hide Intact, TorrentOf, PeerBlocks, Roomier, Entered;
    MakeRoom(r, alloc);
    EnterPeer(r, q, now, protocol, alloc);
  }

  /** The part of `deletePeerPublic` on one torrent. */
  method DeletePeerOf(r: Record, q: Query, alloc: Allocator)
    requires Intact(r) && |q.peerId| == HASH_LENGTH
    modifies Region(r), alloc
    ensures Intact(r) && TorrentOf(r) == DeletePeer(old(TorrentOf(r)), q)
    ensures Region(r) <= old(Region(r))
    ensures alloc.Live() - PeerBlocks(TorrentOf(r)) == old(alloc.Live() - PeerBlocks(TorrentOf(r)))
  {
    hide Valid, Value, ToMap, Present, AllPresent, PeerBlocks, ChangeStats;
    IntactParts(r);
    PresentAt(ToMap(Value(r.peerList)), q.peerId);
    var peer := GetHash(r.peerList, q.peerId);
    if peer != null {
      FoundInSet(r.peerList, peer);
      var event := peer.data.value.event;
      Count(r, event, NONE);
      RemovePeer(r, peer, alloc);
    }
  }

  /** A peer's item is deleted. */
  method RemovePeer(r: Record, peer: Item<Peer>, alloc: Allocator)
    requires Intact(r) && peer in ItemSet(r.peerList)
    modifies r.peerList.leaves, ItemSet(r.peerList), alloc
    ensures Intact(r) && ItemSet(r.peerList) <= old(ItemSet(r.peerList))
    ensures TorrentOf(r) == var t := old(TorrentOf(r)); t.(peers := t.peers - {peer.hash})
    ensures alloc.Live() - PeerBlocks(TorrentOf(r)) == old(alloc.Live() - PeerBlocks(TorrentOf(r)))
  {
    hide Valid, Value, Blocks, ToMap, Present, AllPresent, StructBlocks, NodeBlocks, PeerBlocks, Shaped;
    RecordBlocks(r);
    PresentUpdate(ToMap(Value(r.peerList)), peer.hash, BLANK_PEER);
    ghost var k := Whereabouts(r.peerList, peer);
    LeafItems(r.peerList, peer.leaf);
    ghost var at := DeleteItem(peer, alloc, r.peerList);
    RecordBlocks(r);
  }
}
