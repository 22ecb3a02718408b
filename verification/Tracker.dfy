/**
 * The tracker's state machine on values: what one announce, one stop and one garbage collection do
 * to the torrents (data.c, data_garbage.c), and the laws of the cached counters over whole runs.
 */
module Tracker {
  import opened Bytes
  import opened HashOrder

  const NONE: byte := 0
  const COMPLETED: byte := 1
  const STARTED: byte := 2
  const STOPPED: byte := 3
  const PAUSED: byte := 4
  const CONTINUE: byte := 5

  const PEERS_FOR_LEVEL_0_LIMIT := 256
  const GARBAGE_MAX_ALIVE_TIME := 1800
  const INTERVAL_STEP_S := 60

  /** A bit set of two: TCP and UDP, or IPv4 and IPv6. */
  datatype Bits = Bits(first: bool, second: bool)

  function Or(a: Bits, b: Bits): Bits {
    Bits(a.first || b.first, a.second || b.second)
  }

  datatype Peer = Peer(updateTime: int, ip6: Hash, ip4: Hash, port: int, event: byte, protocol: Bits, ipVersion: Bits)

  datatype Torrent = Torrent(peers: map<Hash, Peer>, level: nat, complete: u32, incomplete: u32, downloaded: u32)

  type State = map<Hash, Torrent>

  /** What an answer tells of a torrent besides its peers. */
  datatype Counters = Counters(complete: u32, incomplete: u32, downloaded: u32)

  function CountersOf(t: Torrent): Counters {
    Counters(t.complete, t.incomplete, t.downloaded)
  }

  /** The fields of an announce that reach the tracker. */
  datatype Query = Query(infoHash: Hash, peerId: Hash, event: byte, port: int, ip: Hash, ipVersion: Bits)

  const NEW_TORRENT := Torrent(map[], 0, 0, 0, 0)

  /** A peer fresh from `c_calloc`. */
  const BLANK_PEER := Peer(0, NO_ADDRESS, NO_ADDRESS, 0, 0, Bits(false, false), Bits(false, false))

  const NO_ADDRESS: Hash := [0, 0, 0, 0, 0, 0, 0, 0, 0, 0, 0, 0, 0, 0, 0, 0]

  // ---------------------------------------------------------------- the steps

  /** `changeTorrentStatsL`. */
  function ChangeStats(t: Torrent, oldEvent: byte, newEvent: byte): Torrent {
    if oldEvent == NONE then
      if newEvent == COMPLETED then
        t.(downloaded := Wrap32(t.downloaded + 1), complete := Wrap32(t.complete + 1))
      else
        t.(incomplete := Wrap32(t.incomplete + 1))
    else if newEvent == NONE then
      if oldEvent == COMPLETED then
        t.(complete := Wrap32(t.complete - 1))
      else
        t.(incomplete := Wrap32(t.incomplete - 1))
    else if oldEvent != newEvent && newEvent != CONTINUE then
      if oldEvent == COMPLETED then
        t.(complete := Wrap32(t.complete - 1), incomplete := Wrap32(t.incomplete + 1))
      else if newEvent == COMPLETED then
        t.(downloaded := Wrap32(t.downloaded + 1), complete := Wrap32(t.complete + 1),
           incomplete := Wrap32(t.incomplete - 1))
      else t
    else t
  }

  /** The peer record an announce leaves behind. */
  function UpdatedPeer(p: Peer, q: Query, now: int, protocol: Bits): Peer {
    var addressed := if q.ipVersion.first then p.(ip4 := q.ip) else p.(ip6 := q.ip);
    addressed.(port := q.port, updateTime := now, event := q.event,
               protocol := Or(p.protocol, protocol), ipVersion := Or(p.ipVersion, q.ipVersion))
  }

  /** The switch of a crowded peer list to level 1; the peers stay the same. */
  function Roomier(t: Torrent): Torrent {
    if Wrap32(t.complete + t.incomplete) > PEERS_FOR_LEVEL_0_LIMIT && t.level == 0 then t.(level := 1) else t
  }

  /** The peer's record is entered or updated, and the counters follow its event. */
  function Entered(t: Torrent, q: Query, now: int, protocol: Bits): Torrent {
    var known := q.peerId in t.peers;
    var counted := ChangeStats(t, if known then t.peers[q.peerId].event else NONE, q.event);
    var peer := if known then t.peers[q.peerId] else BLANK_PEER;
    counted.(peers := t.peers[q.peerId := UpdatedPeer(peer, q, now, protocol)])
  }

  /** What an announce makes of its torrent. */
  function SetPeer(t: Torrent, q: Query, now: int, protocol: Bits): Torrent {
    Entered(Roomier(t), q, now, protocol)
  }

  /** What a stop makes of its torrent. */
  function DeletePeer(t: Torrent, q: Query): Torrent {
    if q.peerId in t.peers then
      ChangeStats(t, t.peers[q.peerId].event, NONE).(peers := t.peers - {q.peerId})
    else t
  }

  function Announce(s: State, q: Query, now: int, protocol: Bits): State {
    s[q.infoHash := SetPeer(if q.infoHash in s then s[q.infoHash] else NEW_TORRENT, q, now, protocol)]
  }

  function Stop(s: State, q: Query): State {
    if q.infoHash in s then s[q.infoHash := DeletePeer(s[q.infoHash], q)] else s
  }

  function Live(peers: map<Hash, Peer>, limit: int): map<Hash, Peer> {
    map h | h in peers && peers[h].updateTime >= limit :: peers[h]
  }

  /** What a collection makes of one torrent: the peers that are still live, and their counters. */
  function Kept(t: Torrent, limit: int): Torrent {
    var live := Live(t.peers, limit);
    var goneComplete := |Completed(t.peers)| - |Completed(live)|;
    var goneOthers := (|t.peers| - |live|) - goneComplete;
    t.(peers := live, complete := Wrap32(t.complete - goneComplete), incomplete := Wrap32(t.incomplete - goneOthers))
  }

  function Collect(s: State, limit: int): State {
    map h | h in s && Live(s[h].peers, limit) != map[] :: Kept(s[h], limit)
  }

  /**
   * The collection of the torrents whose hashes begin with `path`. The collector holds the semaphore of one
   * leaf of the torrent list at a time, so a leaf, with its path of two bytes, is what it does in one step.
   */
  function CollectBelow(s: State, path: Hash, limit: int): State {
    map h | h in s && (path <= h ==> Live(s[h].peers, limit) != map[]) :: if path <= h then Kept(s[h], limit) else s[h]
  }

  lemma {:induction false} CollectBelowRoot(s: State, limit: int)
    ensures CollectBelow(s, [], limit) == Collect(s, limit)
  {
    hide Kept, Live;
  }

  /** Collecting below some paths one after the other. */
  function CollectEach(s: State, paths: seq<Hash>, limit: int): State {
    if paths == [] then s else CollectBelow(CollectEach(s, paths[..|paths| - 1], limit), paths[|paths| - 1], limit)
  }

  lemma {:induction false} KeptTwice(t: Torrent, limit: int)
    ensures Live(Live(t.peers, limit), limit) == Live(t.peers, limit)
    ensures Kept(Kept(t, limit), limit) == Kept(t, limit)
  {
    hide Completed;
    assert Live(Live(t.peers, limit), limit) == Live(t.peers, limit);
  }

  predicate Reached(paths: seq<Hash>, h: Hash) {
    exists i :: 0 <= i < |paths| && paths[i] <= h
  }

  lemma {:induction false} ReachedNext(paths: seq<Hash>, h: Hash)
    requires paths != []
    ensures Reached(paths, h) <==> Reached(paths[..|paths| - 1], h) || paths[|paths| - 1] <= h
  {
    var n := |paths| - 1;
    if i :| 0 <= i < n && paths[..n][i] <= h {
      assert paths[i] <= h;
    }
    if i :| 0 <= i < |paths| && paths[i] <= h {
      assert i < n ==> paths[..n][i] <= h;
    }
  }

  /** What is left of one torrent. */
  lemma {:induction false} CollectEachAt(s: State, paths: seq<Hash>, limit: int, h: Hash)
    ensures h in CollectEach(s, paths, limit) <==> h in s && (Reached(paths, h) ==> Live(s[h].peers, limit) != map[])
    ensures h in CollectEach(s, paths, limit) ==>
      CollectEach(s, paths, limit)[h] == if Reached(paths, h) then Kept(s[h], limit) else s[h]
  {
    if paths != [] {
      hide Kept, Live, Reached;
      ReachedNext(paths, h);
      CollectEachAt(s, paths[..|paths| - 1], limit, h);
      if h in s {
        KeptTwice(s[h], limit);
        KeptPeers(s[h], limit);
      }
    }
  }

  lemma {:induction false} KeptPeers(t: Torrent, limit: int)
    ensures Kept(t, limit).peers == Live(t.peers, limit)
    ensures Kept(t, limit).level == t.level && Kept(t, limit).downloaded == t.downloaded
  {
  }

  /** Leaf by leaf and undisturbed, in any order, a collection is the collection of all torrents. */
  lemma {:induction false} LeafByLeaf(s: State, paths: seq<Hash>, limit: int)
    requires forall h :: h in s ==> Reached(paths, h)
    ensures CollectEach(s, paths, limit) == Collect(s, limit)
  {
    hide Kept, Live, Reached, CollectEach;
    forall h ensures h in CollectEach(s, paths, limit) <==> h in Collect(s, limit) {
      CollectEachAt(s, paths, limit, h);
    }
    forall h | h in Collect(s, limit) ensures CollectEach(s, paths, limit)[h] == Collect(s, limit)[h] {
      CollectEachAt(s, paths, limit, h);
    }
  }

  /** The peers stored as completed: what the counters are meant to count. */
  function Completed(peers: map<Hash, Peer>): set<Hash> {
    set h | h in peers && peers[h].event == COMPLETED
  }

  // ---------------------------------------------------------------- runs

  datatype Action =
    | AnnounceOf(q: Query, now: int, protocol: Bits)
    | StopOf(q: Query)
    | CollectionAt(limit: int, path: Hash)

  function Step(s: State, a: Action): State {
    match a
    case AnnounceOf(q, now, protocol) => Announce(s, q, now, protocol)
    case StopOf(q) => Stop(s, q)
    case CollectionAt(limit, path) => CollectBelow(s, path, limit)
  }

  /**
   * What has happened to a torrent since it was created, as seen from the requests alone:
   * `dropped` counts re-announces with event CONTINUE by a peer stored as completed; `zero` balances
   * the re-announces and stops in which event code 0 occurs; `completions` counts announces that
   * complete a peer not yet stored as completed.
   */
  datatype History = History(dropped: int, zero: int, completions: nat)

  const NO_HISTORY := History(0, 0, 0)

  function AnnounceHistory(t: Torrent, h: History, q: Query): History {
    var completes := q.event == COMPLETED && (q.peerId !in t.peers || t.peers[q.peerId].event != COMPLETED);
    var counted := if completes then h.(completions := h.completions + 1) else h;
    if q.peerId !in t.peers then counted
    else
      var stored := t.peers[q.peerId].event;
      if stored == NONE then counted.(zero := h.zero + 1)
      else if q.event == NONE then counted.(zero := h.zero - 1)
      else if stored == COMPLETED && q.event == CONTINUE then counted.(dropped := h.dropped + 1)
      else counted
  }

  function StopHistory(t: Torrent, h: History, q: Query): History {
    if q.peerId in t.peers && t.peers[q.peerId].event == NONE then h.(zero := h.zero + 2) else h
  }

  type Histories = map<Hash, History>

  function Of(hs: Histories, h: Hash): History {
    if h in hs then hs[h] else NO_HISTORY
  }

  function StepHistory(s: State, hs: Histories, a: Action): Histories {
    match a
    case AnnounceOf(q, _, _) =>
      if q.infoHash in s then hs[q.infoHash := AnnounceHistory(s[q.infoHash], Of(hs, q.infoHash), q)]
      else hs[q.infoHash := AnnounceHistory(NEW_TORRENT, NO_HISTORY, q)]
    case StopOf(q) =>
      if q.infoHash in s then hs[q.infoHash := StopHistory(s[q.infoHash], Of(hs, q.infoHash), q)] else hs
    case CollectionAt(_, _) => hs
  }

  function Run(actions: seq<Action>): (State, Histories) {
    if actions == [] then (map[], map[])
    else
      var (s, hs) := Run(actions[..|actions| - 1]);
      var a := actions[|actions| - 1];
      (Step(s, a), StepHistory(s, hs, a))
  }

  // ---------------------------------------------------------------- the counter law

  /** The cached counters against a recount of the peers, modulo 2^32. */
  ghost predicate Law(t: Torrent, h: History) {
    && t.complete == Wrap32(|Completed(t.peers)| + h.dropped)
    && t.incomplete == Wrap32(|t.peers| - |Completed(t.peers)| - h.dropped + h.zero)
    && t.downloaded == Wrap32(h.completions)
  }

  lemma {:induction false} WrapAdd(x: int, d: int)
    ensures Wrap32(Wrap32(x) + d) == Wrap32(x + d)
  {
  }

  lemma {:induction false} WrapSum(x: int, y: int)
    ensures Wrap32(Wrap32(x) + Wrap32(y)) == Wrap32(x + y)
  {
  }

  /** Adding `d` is noticed exactly if `d` is no multiple of 2^32. */
  lemma {:induction false} WrapOffset(x: int, d: int)
    ensures Wrap32(x + d) == Wrap32(x) <==> Wrap32(d) == 0
  {
  }

  lemma {:induction false} SetSizes<T>(s: set<T>, x: T)
    ensures |s + {x}| == |s| + if x in s then 0 else 1
    ensures |s - {x}| == |s| - if x in s then 1 else 0
  {
  }

  lemma {:induction false} CompletedUpdate(peers: map<Hash, Peer>, id: Hash, p: Peer)
    ensures |peers[id := p]| == |peers| + if id in peers then 0 else 1
    ensures |Completed(peers[id := p])| == |Completed(peers)|
              - (if id in peers && peers[id].event == COMPLETED then 1 else 0)
              + (if p.event == COMPLETED then 1 else 0)
  {
    hide Completed;
    var c := Completed(peers);
    SetSizes(peers.Keys, id);
    assert peers[id := p].Keys == peers.Keys + {id};
    SetSizes(c, id);
    SetSizes(c - {id}, id);
    CompletedAfterUpdate(peers, id, p);
  }

  lemma {:induction false} CompletedAfterUpdate(peers: map<Hash, Peer>, id: Hash, p: Peer)
    ensures Completed(peers[id := p]) == (Completed(peers) - {id}) + if p.event == COMPLETED then {id} else {}
    ensures id in Completed(peers) <==> id in peers && peers[id].event == COMPLETED
  {
  }

  lemma {:induction false} CompletedRemove(peers: map<Hash, Peer>, id: Hash)
    requires id in peers
    ensures |peers - {id}| == |peers| - 1
    ensures |Completed(peers - {id})| == |Completed(peers)| - if peers[id].event == COMPLETED then 1 else 0
  {
    assert Completed(peers - {id}) == Completed(peers) - {id};
    assert (peers - {id}).Keys == peers.Keys - {id};
    assert |peers| == |peers.Keys| && |peers - {id}| == |(peers - {id}).Keys|;
  }

  lemma {:induction false} CompletedAtMostAll(peers: map<Hash, Peer>)
    ensures |Completed(peers)| <= |peers|
  {
    assert Completed(peers) <= peers.Keys;
    SubsetSize(Completed(peers), peers.Keys);
    assert |peers| == |peers.Keys|;
  }

  lemma {:induction false} SubsetSize<T>(a: set<T>, b: set<T>)
    requires a <= b
    ensures |a| <= |b|
  {
    assert b == a + (b - a);
  }

  /** The law in numbers: `c` of `n` peers are stored as completed. */
  ghost predicate Counts(t: Torrent, c: int, n: int, h: History) {
    && t.complete == Wrap32(c + h.dropped)
    && t.incomplete == Wrap32(n - c - h.dropped + h.zero)
    && t.downloaded == Wrap32(h.completions)
  }

  /** A new peer is counted. */
  lemma {:induction false} NewPeerCounts(t: Torrent, c: int, n: int, h: History, event: byte)
    requires Counts(t, c, n, h)
    ensures var done := event == COMPLETED;
            Counts(ChangeStats(t, NONE, event), if done then c + 1 else c, n + 1,
                   if done then h.(completions := h.completions + 1) else h)
  {
  }

  /** A known peer changes its event from `stored` to `event`. */
  lemma {:induction false} KnownPeerCounts(t: Torrent, c: int, n: int, h: History, stored: byte, event: byte)
    requires Counts(t, c, n, h)
    ensures var done := event == COMPLETED && stored != COMPLETED;
            var h1 := if done then h.(completions := h.completions + 1) else h;
            var h2 := if stored == NONE then h1.(zero := h.zero + 1)
                      else if event == NONE then h1.(zero := h.zero - 1)
                      else if stored == COMPLETED && event == CONTINUE then h1.(dropped := h.dropped + 1)
                      else h1;
            Counts(ChangeStats(t, stored, event),
                   c - (if stored == COMPLETED then 1 else 0) + (if event == COMPLETED then 1 else 0), n, h2)
  {
    hide Wrap32;
    var x, y := c + h.dropped, n - c - h.dropped + h.zero;
    WrapAdd(x, 1);
    WrapAdd(x, -1);
    WrapAdd(y, 1);
    WrapAdd(y, -1);
    WrapAdd(h.completions, 1);
  }

  /** One announce keeps the law, whatever its event code. */
  lemma {:induction false} AnnounceKeepsLaw(t: Torrent, h: History, q: Query, now: int, protocol: Bits)
    requires Law(t, h)
    ensures Law(SetPeer(t, q, now, protocol), AnnounceHistory(t, h, q))
  {
    hide Completed, ChangeStats;
    var r := Roomier(t);
    var c, n := |Completed(t.peers)|, |t.peers|;
    if q.peerId in t.peers {
      CompletedUpdate(t.peers, q.peerId, UpdatedPeer(t.peers[q.peerId], q, now, protocol));
      KnownPeerCounts(r, c, n, h, t.peers[q.peerId].event, q.event);
      StatsKeepPeers(r, t.peers[q.peerId].event, q.event);
    } else {
      CompletedUpdate(t.peers, q.peerId, UpdatedPeer(BLANK_PEER, q, now, protocol));
      NewPeerCounts(r, c, n, h, q.event);
      StatsKeepPeers(r, NONE, q.event);
    }
  }

  lemma {:induction false} StatsKeepPeers(t: Torrent, oldEvent: byte, newEvent: byte)
    ensures ChangeStats(t, oldEvent, newEvent).peers == t.peers && ChangeStats(t, oldEvent, newEvent).level == t.level
  {
  }

  /** One stop keeps the law. */
  lemma {:induction false} StopKeepsLaw(t: Torrent, h: History, q: Query)
    requires Law(t, h)
    ensures Law(DeletePeer(t, q), StopHistory(t, h, q))
  {
    hide Completed;
    if q.peerId in t.peers {
      CompletedRemove(t.peers, q.peerId);
    }
  }

  /** One collection keeps the law. */
  lemma {:induction false} CollectionKeepsLaw(t: Torrent, h: History, limit: int)
    requires Law(t, h)
    ensures Law(Kept(t, limit), h)
  {
    hide Completed, Live;
  }

  /**
   * The counters over every run of announces, stops and collections: modulo 2^32 `complete` is the
   * number of peers stored as completed plus the dropped completions, `incomplete` the number of all
   * other peers minus those, corrected by the balance of event code 0; `downloaded` counts completions.
   */
  lemma {:induction false} CountersOverRuns(actions: seq<Action>, h: Hash)
    ensures var (s, hs) := Run(actions); h in s ==> Law(s[h], Of(hs, h))
  {
    if actions != [] {
      hide Completed, Law;
      var (s, hs) := Run(actions[..|actions| - 1]);
      CountersOverRuns(actions[..|actions| - 1], h);
      match actions[|actions| - 1]
      case AnnounceOf(q, now, protocol) =>
        NewTorrentLaw();
        if q.infoHash == h {
          if h in s {
            AnnounceKeepsLaw(s[h], Of(hs, h), q, now, protocol);
          } else {
            AnnounceKeepsLaw(NEW_TORRENT, NO_HISTORY, q, now, protocol);
          }
        }
      case StopOf(q) =>
        if q.infoHash == h && h in s {
          StopKeepsLaw(s[h], Of(hs, h), q);
        }
      case CollectionAt(limit, path) =>
        if h in s {
          CollectionKeepsLaw(s[h], Of(hs, h), limit);
        }
    }
  }

  lemma {:induction false} NewTorrentLaw()
    ensures Law(NEW_TORRENT, NO_HISTORY)
  {
  }

  // ---------------------------------------------------------------- runs without event code 0

  /** No announce of the run carries event code 0. */
  ghost predicate NoZeroEvents(actions: seq<Action>) {
    forall i :: 0 <= i < |actions| && actions[i].AnnounceOf? ==> actions[i].q.event != NONE
  }

  ghost predicate NoZeroStored(t: Torrent) {
    forall id :: id in t.peers ==> t.peers[id].event != NONE
  }

  lemma {:induction false} AnnounceWithoutZero(t: Torrent, h: History, q: Query, now: int, protocol: Bits)
    requires NoZeroStored(t) && q.event != NONE && h.zero == 0 && h.dropped >= 0
    ensures NoZeroStored(SetPeer(t, q, now, protocol))
    ensures AnnounceHistory(t, h, q).zero == 0 && AnnounceHistory(t, h, q).dropped >= h.dropped
  {
  }

  lemma {:induction false} StopWithoutZero(t: Torrent, h: History, q: Query)
    requires NoZeroStored(t)
    ensures NoZeroStored(DeletePeer(t, q)) && StopHistory(t, h, q) == h
  {
  }

  lemma {:induction false} CollectionWithoutZero(t: Torrent, limit: int)
    requires NoZeroStored(t)
    ensures NoZeroStored(Kept(t, limit))
  {
  }

  /** Torrent `h` and its history as a run without event code 0 leaves them. */
  ghost predicate WithoutZero(s: State, hs: Histories, h: Hash) {
    h in s ==> NoZeroStored(s[h]) && Of(hs, h).zero == 0 && Of(hs, h).dropped >= 0
  }

  lemma {:induction false} StepWithoutZero(s: State, hs: Histories, a: Action, h: Hash)
    requires WithoutZero(s, hs, h) && (a.AnnounceOf? ==> a.q.event != NONE)
    ensures WithoutZero(Step(s, a), StepHistory(s, hs, a), h)
  {
    hide ChangeStats, SetPeer, DeletePeer, Kept, NoZeroStored, AnnounceHistory, StopHistory;
    NewTorrentWithoutZero();
    match a
    case AnnounceOf(q, now, protocol) =>
      if q.infoHash == h {
        if h in s {
          AnnounceWithoutZero(s[h], Of(hs, h), q, now, protocol);
        } else {
          AnnounceWithoutZero(NEW_TORRENT, NO_HISTORY, q, now, protocol);
        }
      }
    case StopOf(q) =>
      if h in s {
        StopWithoutZero(s[h], Of(hs, h), q);
      }
    case CollectionAt(limit, path) =>
      if h in s {
        CollectionWithoutZero(s[h], limit);
      }
  }

  lemma {:induction false} RunsWithoutZero(actions: seq<Action>, h: Hash)
    requires NoZeroEvents(actions)
    ensures WithoutZero(Run(actions).0, Run(actions).1, h)
  {
    hide WithoutZero, Step, StepHistory;
    if actions == [] {
      StartWithoutZero(h);
    } else {
      var n := |actions| - 1;
      assert forall i :: 0 <= i < n ==> actions[..n][i] == actions[i];
      RunsWithoutZero(actions[..n], h);
      var (s, hs) := Run(actions[..n]);
      StepWithoutZero(s, hs, actions[n], h);
    }
  }

  lemma {:induction false} StartWithoutZero(h: Hash)
    ensures WithoutZero(map[], map[], h)
  {
  }

  lemma {:induction false} NewTorrentWithoutZero()
    ensures NoZeroStored(NEW_TORRENT)
  {
  }

  /** The two counters together are the number of peers. */
  ghost predicate SumLaw(t: Torrent) {
    Wrap32(t.complete + t.incomplete) == Wrap32(|t.peers|)
  }

  /**
   * In every run without event code 0 the counters sum to the number of peers, and each of them is
   * exact if and only if completions were dropped a multiple of 2^32 times.
   */
  lemma {:induction false} CountersWithoutZero(actions: seq<Action>, h: Hash)
    requires NoZeroEvents(actions) && h in Run(actions).0
    ensures var (s, hs) := Run(actions);
            var t, c := s[h], |Completed(s[h].peers)|;
            && SumLaw(t)
            && (|t.peers| < WORD ==>
                 (t.complete == c <==> Wrap32(Of(hs, h).dropped) == 0)
                 && (t.incomplete == |t.peers| - c <==> Wrap32(Of(hs, h).dropped) == 0))
  {
    hide Completed, Wrap32, Run;
    var (s, hs) := Run(actions);
    CountersOverRuns(actions, h);
    RunsWithoutZero(actions, h);
    var c, n, d := |Completed(s[h].peers)|, |s[h].peers|, Of(hs, h).dropped;
    CompletedAtMostAll(s[h].peers);
    WrapSum(c + d, n - c - d);
    WrapOffset(c, d);
    WrapOffset(n - c, -d);
    WrapZero(d);
    if n < WORD {
      WrapSmall(c);
      WrapSmall(n - c);
    }
  }

  lemma {:induction false} WrapSmall(x: int)
    requires 0 <= x < WORD
    ensures Wrap32(x) == x
  {
  }

  lemma {:induction false} WrapZero(d: int)
    ensures Wrap32(-d) == 0 <==> Wrap32(d) == 0
  {
  }

  /** With exact counters the one that a stop or a collection decrements is not zero: nothing underflows. */
  lemma {:induction false} ExactNeverUnderflows(t: Torrent, id: Hash)
    requires t.complete == |Completed(t.peers)| && t.incomplete == |t.peers| - |Completed(t.peers)|
    requires id in t.peers
    ensures if t.peers[id].event == COMPLETED then t.complete > 0 else t.incomplete > 0
  {
    CompletedRemove(t.peers, id);
    CompletedAtMostAll(t.peers - {id});
  }

  /** A torrent still at level 0 is one that never outgrew it. */
  ghost predicate LevelLaw(t: Torrent) {
    t.level <= 1 && (t.level == 0 ==> |t.peers| <= 257)
  }

  lemma {:induction false} AnnounceKeepsLevelLaw(t: Torrent, q: Query, now: int, protocol: Bits)
    requires LevelLaw(t) && SumLaw(t)
    ensures LevelLaw(SetPeer(t, q, now, protocol))
  {
  }

  lemma {:induction false} LiveIsFewer(peers: map<Hash, Peer>, limit: int)
    ensures |Live(peers, limit)| <= |peers|
  {
    assert Live(peers, limit).Keys <= peers.Keys;
    SubsetSize(Live(peers, limit).Keys, peers.Keys);
  }

  lemma {:induction false} StepKeepsLevelLaw(s: State, a: Action, h: Hash)
    requires h in s ==> LevelLaw(s[h]) && SumLaw(s[h])
    ensures h in Step(s, a) ==> LevelLaw(Step(s, a)[h])
  {
    hide LevelLaw, SumLaw, SetPeer, DeletePeer, Kept, Live;
    NewTorrentLevel();
    match a
    case AnnounceOf(q, now, protocol) =>
      if q.infoHash == h {
        AnnounceKeepsLevelLaw(if h in s then s[h] else NEW_TORRENT, q, now, protocol);
      }
    case StopOf(q) =>
      if h in s {
        StopKeepsLevelLaw(s[h], q);
      }
    case CollectionAt(limit, path) =>
      if h in s {
        CollectionKeepsLevelLaw(s[h], limit);
      }
  }

  /** In every run without event code 0 a peer list of level 0 holds at most 257 peers. */
  lemma {:induction false} LevelOverRuns(actions: seq<Action>, h: Hash)
    requires NoZeroEvents(actions)
    ensures var (s, hs) := Run(actions); h in s ==> LevelLaw(s[h])
  {
    hide LevelLaw, SumLaw, Completed, Step, StepHistory;
    if actions != [] {
      var n := |actions| - 1;
      assert forall i :: 0 <= i < n ==> actions[..n][i] == actions[i];
      LevelOverRuns(actions[..n], h);
      if h in Run(actions[..n]).0 {
        CountersWithoutZero(actions[..n], h);
      }
      StepKeepsLevelLaw(Run(actions[..n]).0, actions[n], h);
    }
  }

  lemma {:induction false} NewTorrentLevel()
    ensures LevelLaw(NEW_TORRENT) && SumLaw(NEW_TORRENT)
  {
  }

  lemma {:induction false} StopKeepsLevelLaw(t: Torrent, q: Query)
    requires LevelLaw(t)
    ensures LevelLaw(DeletePeer(t, q))
  {
  }

  lemma {:induction false} CollectionKeepsLevelLaw(t: Torrent, limit: int)
    requires LevelLaw(t)
    ensures LevelLaw(Kept(t, limit))
  {
    LiveIsFewer(t.peers, limit);
  }

  // ---------------------------------------------------------------- what event code 0 breaks

  /** How far one change of a stored event moves the sum of the counters. */
  function SumShift(oldEvent: byte, newEvent: byte): int {
    if oldEvent == NONE then 1 else if newEvent == NONE then -1 else 0
  }

  lemma {:induction false} StatsShiftSum(t: Torrent, oldEvent: byte, newEvent: byte)
    ensures var r := ChangeStats(t, oldEvent, newEvent);
            Wrap32(r.complete + r.incomplete) == Wrap32(t.complete + t.incomplete + SumShift(oldEvent, newEvent))
  {
    hide Wrap32;
    var x: int, y: int := t.complete, t.incomplete;
    WrapSmall(x);
    WrapSmall(y);
    WrapSum(x + 1, y);
    WrapSum(x, y + 1);
    WrapSum(x - 1, y);
    WrapSum(x, y - 1);
    WrapSum(x - 1, y + 1);
    WrapSum(x + 1, y - 1);
  }

  /** A counter sum that moves by `shift` while the peers change by `peers` keeps the law iff these agree. */
  lemma {:induction false} SumIff(sum: int, n: int, shift: int, peers: int)
    requires Wrap32(sum) == Wrap32(n) && -WORD < shift - peers < WORD
    ensures Wrap32(sum + shift) == Wrap32(n + peers) <==> shift == peers
  {
    hide Wrap32;
    WrapAdd(sum, shift);
    WrapAdd(n, shift);
    assert n + shift == n + peers + (shift - peers);
    WrapOffset(n + peers, shift - peers);
    WrapNear(shift - peers);
  }

  lemma {:induction false} WrapNear(d: int)
    requires -WORD < d < WORD
    ensures Wrap32(d) == 0 <==> d == 0
  {
  }

  lemma {:induction false} PeersAfterAnnounce(t: Torrent, q: Query, now: int, protocol: Bits)
    ensures |SetPeer(t, q, now, protocol).peers| == |t.peers| + if q.peerId in t.peers then 0 else 1
  {
    hide ChangeStats;
    var p := if q.peerId in t.peers then t.peers[q.peerId] else BLANK_PEER;
    SetSizes(t.peers.Keys, q.peerId);
    assert t.peers[q.peerId := UpdatedPeer(p, q, now, protocol)].Keys == t.peers.Keys + {q.peerId};
  }

  /** How far an announce moves the sum of the counters. */
  lemma {:induction false} AnnounceShiftsSum(t: Torrent, q: Query, now: int, protocol: Bits)
    ensures var stored := if q.peerId in t.peers then t.peers[q.peerId].event else NONE;
      var u := SetPeer(t, q, now, protocol);
      Wrap32(u.complete + u.incomplete) == Wrap32(t.complete + t.incomplete + SumShift(stored, q.event))
  {
    hide Wrap32, ChangeStats;
    StatsShiftSum(Roomier(t), if q.peerId in t.peers then t.peers[q.peerId].event else NONE, q.event);
  }

  /** An announce keeps the sum law exactly if its peer is new or neither event involved is code 0. */
  lemma {:induction false} AnnounceKeepsSumIff(t: Torrent, q: Query, now: int, protocol: Bits)
    requires SumLaw(t)
    ensures SumLaw(SetPeer(t, q, now, protocol))
       <==> q.peerId !in t.peers || (t.peers[q.peerId].event != NONE && q.event != NONE)
  {
    hide Wrap32, SetPeer;
    var known := q.peerId in t.peers;
    var stored := if known then t.peers[q.peerId].event else NONE;
    PeersAfterAnnounce(t, q, now, protocol);
    AnnounceShiftsSum(t, q, now, protocol);
    SumIff(t.complete + t.incomplete, |t.peers|, SumShift(stored, q.event), if known then 0 else 1);
  }

  /** A stop keeps the sum law exactly if its peer is unknown or not stored with event code 0. */
  lemma {:induction false} StopKeepsSumIff(t: Torrent, q: Query)
    requires SumLaw(t)
    ensures SumLaw(DeletePeer(t, q)) <==> q.peerId !in t.peers || t.peers[q.peerId].event != NONE
  {
    hide Wrap32, ChangeStats;
    if q.peerId in t.peers {
      var stored := t.peers[q.peerId].event;
      CompletedRemove(t.peers, q.peerId);
      StatsShiftSum(t, stored, NONE);
      SumIff(t.complete + t.incomplete, |t.peers|, SumShift(stored, NONE), -1);
    }
  }

  /** Over UDP a regular announce carries event code 0: after "started" it takes its own peer off the counters. */
  lemma {:induction false} ZeroEventLosesPeer(q: Query, now: int, protocol: Bits)
    requires q.event == STARTED
    ensures var t := SetPeer(SetPeer(NEW_TORRENT, q, now, protocol), q.(event := NONE), now, protocol);
            |t.peers| == 1 && t.complete == 0 && t.incomplete == 0
  {
    var t := SetPeer(NEW_TORRENT, q, now, protocol);
    assert t.peers.Keys == {q.peerId};
    assert SetPeer(t, q.(event := NONE), now, protocol).peers.Keys == {q.peerId};
  }

  // ---------------------------------------------------------------- what becomes of completed peers

  /**
   * An announce keeps `complete` equal to the number of peers stored as completed, exactly unless it is a
   * CONTINUE of a peer stored as COMPLETED: that one stays counted and is stored as CONTINUE.
   */
  lemma {:induction false} CompleteStaysExactIff(t: Torrent, q: Query, now: int, protocol: Bits)
    requires t.complete == Wrap32(|Completed(t.peers)|)
    ensures var u := SetPeer(t, q, now, protocol);
      u.complete == Wrap32(|Completed(u.peers)|)
      <==> !(q.peerId in t.peers && t.peers[q.peerId].event == COMPLETED && q.event == CONTINUE)
  {
    hide Completed, Wrap32;
    var known := q.peerId in t.peers;
    var c := |Completed(t.peers)|;
    CompletedUpdate(t.peers, q.peerId, UpdatedPeer(if known then t.peers[q.peerId] else BLANK_PEER, q, now, protocol));
    WrapAdd(c, 1);
    WrapAdd(c, -1);
    WrapOffset(c - 1, 1);
    WrapSmall(1);
  }

  /** A peer stored as COMPLETED stays in `complete` exactly under another COMPLETED and under CONTINUE. */
  lemma {:induction false} CompletedStaysCountedIff(t: Torrent, q: Query, now: int, protocol: Bits)
    requires q.peerId in t.peers && t.peers[q.peerId].event == COMPLETED
    ensures SetPeer(t, q, now, protocol).complete == t.complete <==> q.event == COMPLETED || q.event == CONTINUE
  {
    assert Wrap32(t.complete - 1) != t.complete;
  }

  /** COMPLETED and then STARTED, as a plain re-announce over HTTP arrives: the peer counts as incomplete again. */
  lemma {:induction false} StartedAgain(q: Query, now: int, protocol: Bits)
    requires q.event == COMPLETED
    ensures var t := SetPeer(SetPeer(NEW_TORRENT, q, now, protocol), q.(event := STARTED), now, protocol);
            t.complete == 0 && t.incomplete == 1 && t.downloaded == 1 && Completed(t.peers) == {}
  {
    hide Completed;
    var p := UpdatedPeer(UpdatedPeer(BLANK_PEER, q, now, protocol), q.(event := STARTED), now, protocol);
    NoneCompleted(q.peerId, p);
    assert SetPeer(SetPeer(NEW_TORRENT, q, now, protocol), q.(event := STARTED), now, protocol).peers
      == map[q.peerId := p];
  }

  /** COMPLETED and then CONTINUE: still counted as complete, and no longer stored so. */
  lemma {:induction false} ContinueDropsCompletion(q: Query, now: int, protocol: Bits)
    requires q.event == COMPLETED
    ensures var t := SetPeer(SetPeer(NEW_TORRENT, q, now, protocol), q.(event := CONTINUE), now, protocol);
            t.complete == 1 && Completed(t.peers) == {}
  {
    hide Completed;
    var p := UpdatedPeer(UpdatedPeer(BLANK_PEER, q, now, protocol), q.(event := CONTINUE), now, protocol);
    NoneCompleted(q.peerId, p);
    assert SetPeer(SetPeer(NEW_TORRENT, q, now, protocol), q.(event := CONTINUE), now, protocol).peers
      == map[q.peerId := p];
  }

  lemma {:induction false} NoneCompleted(id: Hash, p: Peer)
    requires p.event != COMPLETED
    ensures Completed(map[id := p]) == {}
  {
  }
}
