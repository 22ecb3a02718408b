/**
 * Whole runs of the tracker on the heap: any sequence of announces, stops and collections on a new
 * torrent list ends in the state the run amounts to, and accounts for every block.
 */
module TrackerRun {
  import opened Bytes
  import opened HashOrder
  import opened Entries
  import opened HashList
  import opened HashListOps
  import opened HashListRebuild
  import opened Tracker
  import opened TorrentRecord
  import opened TrackerHeap
  import opened Garbage
  import opened TrackerCollection

  const TORRENT_LEVEL := 2
  const LEAF_SEMAPHORES := SemaphoreMode(true, false)

  /** The requests carry hashes of 20 bytes; a collection step is one leaf, one larger part or the whole. */
  predicate Suits(a: Action) {
    if a.CollectionAt? then |a.path| <= TORRENT_LEVEL
    else |a.q.infoHash| == HASH_LENGTH && |a.q.peerId| == HASH_LENGTH
  }

  /** The collector's 32-bit counter holds the peers of every torrent. */
  ghost predicate Countable(s: State) {
    forall h :: h in s ==> |s[h].peers| < WORD
  }

  /** The list stands for the state, and of the blocks allocated since `live` it accounts for all. */
  ghost predicate Serves(list: List<Record>, s: State, world: set<object>, alloc: Allocator, live: int)
    reads list.leaves, ItemSet(list), world, alloc
  {
    && Holds(list, s, world) && list.level == TORRENT_LEVEL && list.endianness == LittleEndian
    && alloc.Live() == live + StructBlocks(TORRENT_LEVEL, LEAF_SEMAPHORES) + Blocks(Value(list)) + NestedBlocks(s)
  }

  /** One action. */
  method Perform(list: List<Record>, a: Action, alloc: Allocator, ghost s: State, ghost world: set<object>,
                 ghost live: int)
    returns (ghost wider: set<object>)
    requires Serves(list, s, world, alloc, live) && alloc !in world && Suits(a) && (a.CollectionAt? ==> Countable(s))
    modifies list.leaves, ItemSet(list), world, alloc
    ensures Serves(list, Tracker.Step(s, a), wider, alloc, live)
    ensures fresh(ItemSet(list) - old(ItemSet(list))) && world <= wider && fresh(wider - world)
  {
    hide Holds, Value, Blocks, NestedBlocks, StructBlocks, Announce, Stop, CollectBelow, Valid;
    match a {
      case AnnounceOf(q, now, protocol) =>
        var torrent;
        torrent, wider := SetPeerPublic(list, q, now, protocol, alloc, s, world);
      case StopOf(q) =>
        var torrent;
        torrent, wider := DeletePeerPublic(list, q, alloc, s, world);
      case CollectionAt(limit, path) =>
        var stats, ok;
        ghost var was, left;
        stats, ok, was, left := CollectPart(list, path, limit, Stats(0, 0, 0, 0, 0, 0), alloc, s, world);
        wider := world;
    }
  }

  lemma {:induction false} NextAction(actions: seq<Action>, i: nat)
    requires i < |actions|
    ensures Run(actions[..i + 1]).0 == Tracker.Step(Run(actions[..i]).0, actions[i])
  {
    hide Tracker.Step;
    assert actions[..i + 1][..i] == actions[..i];
  }

  lemma {:induction false} NothingYet()
    ensures Run([]).0 == map[]
  {
  }

  lemma {:induction false} BeginsEmpty(list: List<Record>, alloc: Allocator, live: int)
    requires ValidRoot(list) && list.hashLength == HASH_LENGTH && Value(list) == []
    requires list.level == TORRENT_LEVEL && list.endianness == LittleEndian
    requires alloc.Live() == live + StructBlocks(TORRENT_LEVEL, LEAF_SEMAPHORES)
    ensures Serves(list, map[], {}, alloc, live)
  {
    hide StructBlocks;
    EmptyValue<Record>();
    NothingNested();
  }

  /** A torrent has no more peers than there have been actions: any run of fewer than 2^32 can be counted. */
  lemma {:induction false} ShortRunsAreCountable(actions: seq<Action>)
    requires |actions| < WORD
    ensures Countable(Run(actions).0)
  {
    forall h | h in Run(actions).0 ensures |Run(actions).0[h].peers| < WORD {
      PeersAtMost(actions, h);
    }
  }

  lemma {:induction false} PeersAtMost(actions: seq<Action>, h: Hash)
    requires h in Run(actions).0
    ensures |Run(actions).0[h].peers| <= |actions|
  {
    if actions != [] {
      hide Tracker.Step;
      var n := |actions| - 1;
      var s := Run(actions[..n]).0;
      if h in s {
        PeersAtMost(actions[..n], h);
      }
      OneMorePeer(s, actions[n], h);
    }
  }

  lemma {:induction false} OneMorePeer(s: State, a: Action, h: Hash)
    requires h in Tracker.Step(s, a)
    ensures |Tracker.Step(s, a)[h].peers| <= 1 + if h in s then |s[h].peers| else 0
  {
    hide ChangeStats, Tracker.Live, Completed;
    match a {
      case AnnounceOf(q, now, protocol) =>
        var t := if q.infoHash in s then s[q.infoHash] else NEW_TORRENT;
        CompletedUpdate(t.peers, q.peerId, BLANK_PEER);
        assert SetPeer(t, q, now, protocol).peers.Keys == t.peers[q.peerId := BLANK_PEER].Keys;
      case StopOf(q) =>
        if q.infoHash in s && q.peerId in s[q.infoHash].peers {
          CompletedRemove(s[q.infoHash].peers, q.peerId);
        }
      case CollectionAt(limit, path) =>
        LiveIsFewer(s[h].peers, limit);
    }
  }

  /**
   * Any run on a new torrent list, as the server creates it, leaves the list with the state of the run;
   * and the allocation counters account for exactly that list, its torrents and their peer lists.
   */
  method RunTracker(actions: seq<Action>, alloc: Allocator) returns (list: List<Record>, ghost world: set<object>)
    requires forall i :: 0 <= i < |actions| ==> Suits(actions[i])
    requires forall i :: 0 <= i < |actions| && actions[i].CollectionAt? ==> Countable(Run(actions[..i]).0)
    modifies alloc
    ensures fresh(list.leaves) && fresh(ItemSet(list)) && fresh(world)
    ensures Holds(list, Run(actions).0, world)
    ensures alloc.Live() == old(alloc.Live()) + 65794 + 3 * |Run(actions).0| + NestedBlocks(Run(actions).0)
  {
    hide Serves, Holds, Run, Tracker.Step, Valid, Value, Blocks, StructBlocks, NestedBlocks, Countable, Suits;
    StructBlocksAre(false);
    ghost var live := alloc.Live();
    var r := InitList<Record>(TORRENT_LEVEL, HASH_LENGTH, LEAF_SEMAPHORES, LittleEndian, alloc);
    list, world := r.value, {};
    BeginsEmpty(list, alloc, live);
    assert actions[..0] == [];
    NothingYet();
    var i := 0;
    while i < |actions|
      invariant i <= |actions| && fresh(list.leaves) && fresh(ItemSet(list)) && fresh(world) && alloc !in world
      invariant Serves(list, Run(actions[..i]).0, world, alloc, live)
    {
      NextAction(actions, i);
      world := Perform(list, actions[i], alloc, Run(actions[..i]).0, world, live);
      i := i + 1;
    }
    assert actions[..i] == actions;
    ServedBlocks(list, Run(actions).0, world, alloc, live);
  }

  lemma {:induction false} ServedBlocks(list: List<Record>, s: State, world: set<object>, alloc: Allocator, live: int)
    requires Serves(list, s, world, alloc, live)
    ensures Holds(list, s, world)
    ensures alloc.Live() == live + StructBlocks(TORRENT_LEVEL, LEAF_SEMAPHORES) + 3 * |s| + NestedBlocks(s)
  {
    hide Valid, Value, ToMap, Blocks, StructBlocks, NestedBlocks;
    HoldsMeans(list, s, world);
    ValueInPlace(list);
    var m := ToMap(Value(list));
    forall h | h in m ensures m[h].Some? {
      StandingAt(m, s, h, world);
    }
    PresentBlocks(Value(list));
    assert Present(m).Keys == s.Keys;
    assert |Present(m)| == |Present(m).Keys| && |s| == |s.Keys|;
  }
}
