/**
 * What event code 0, the regular one over UDP, does to whole runs, and why without it and without
 * dropped completions nothing underflows.
 */
module TrackerLaws {
  import opened Bytes
  import opened HashOrder
  import opened Entries
  import opened Tracker
  import opened Garbage

  // ---------------------------------------------------------------- the sum of the counters

  lemma {:induction false} CounterSum(t: Torrent, h: History)
    requires Law(t, h)
    ensures Wrap32(t.complete + t.incomplete) == Wrap32(|t.peers| + h.zero)
  {
    hide Completed, Wrap32;
    var c, n := |Completed(t.peers)|, |t.peers|;
    WrapSum(c + h.dropped, n - c - h.dropped + h.zero);
  }

  /** After every run the counters sum to the number of peers exactly if the balance of event code 0 vanishes. */
  lemma {:induction false} SumLawIff(actions: seq<Action>, h: Hash)
    requires h in Run(actions).0
    ensures var (s, hs) := Run(actions); SumLaw(s[h]) <==> Wrap32(Of(hs, h).zero) == 0
  {
    hide Law, Run, Of;
    var (s, hs) := Run(actions);
    CountersOverRuns(actions, h);
    CounterSum(s[h], Of(hs, h));
    WrapOffset(|s[h].peers|, Of(hs, h).zero);
  }

  // ---------------------------------------------------------------- the level of a peer list

  /** An announce leaves a list of level 0 there exactly if peers and balance sum to at most 256. */
  lemma {:induction false} LevelStaysIff(t: Torrent, h: History, q: Query, now: int, protocol: Bits)
    requires Law(t, h) && t.level == 0
    ensures SetPeer(t, q, now, protocol).level == 0 <==> Wrap32(|t.peers| + h.zero) <= 256
  {
    hide Law, ChangeStats;
    CounterSum(t, h);
    StatsKeepPeers(Roomier(t), if q.peerId in t.peers then t.peers[q.peerId].event else NONE, q.event);
  }

  /** After `i` actions the list has level 0 and more peers than a run without event code 0 puts there. */
  ghost predicate Outgrown(actions: seq<Action>, i: nat, h: Hash) {
    i <= |actions| && var s := Run(actions[..i]).0;
    h in s && s[h].level == 0 && |s[h].peers| > 257
  }

  /** Action `i` brings a new peer to a full list of level 0 while the balance hides the crowd. */
  ghost predicate Escapes(actions: seq<Action>, i: nat, h: Hash) {
    && i < |actions| && actions[i].AnnounceOf? && actions[i].q.infoHash == h
    && var (s, hs) := Run(actions[..i]);
    && h in s && s[h].level == 0 && actions[i].q.peerId !in s[h].peers
    && |s[h].peers| > 256
    && Wrap32(|s[h].peers| + Of(hs, h).zero) <= 256
  }

  /** A list of level 0 outgrows 257 peers somewhere in a run exactly if some announce of it is such an escape. */
  lemma {:induction false} OutgrowsIff(actions: seq<Action>, h: Hash)
    ensures (exists i: nat :: Outgrown(actions, i, h)) <==> (exists i: nat :: Escapes(actions, i, h))
  {
    hide Outgrown, Escapes;
    if i: nat :| Outgrown(actions, i, h) {
      var j := FirstEscape(actions, i, h);
    }
    if i: nat :| Escapes(actions, i, h) {
      EscapeOutgrows(actions, i, h);
    }
  }

  lemma {:induction false} RunNext(actions: seq<Action>, i: nat)
    requires i < |actions|
    ensures Run(actions[..i + 1]).0 == Step(Run(actions[..i]).0, actions[i])
  {
    hide Step;
    assert actions[..i + 1][..i] == actions[..i];
  }

  lemma {:induction false} EscapeOutgrows(actions: seq<Action>, i: nat, h: Hash)
    requires Escapes(actions, i, h)
    ensures Outgrown(actions, i + 1, h)
  {
    hide Law, Of, SetPeer, Run;
    RunNext(actions, i);
    var (s, hs) := Run(actions[..i]);
    var a := actions[i];
    CountersOverRuns(actions[..i], h);
    LevelStaysIff(s[h], Of(hs, h), a.q, a.now, a.protocol);
    PeersAfterAnnounce(s[h], a.q, a.now, a.protocol);
  }

  lemma {:induction false} FirstEscape(actions: seq<Action>, i: nat, h: Hash) returns (j: nat)
    requires Outgrown(actions, i, h)
    ensures j < i && Escapes(actions, j, h)
  {
    hide Law, Of, Step, Run;
    NothingRun();
    assert actions[..0] == [];
    if i > 0 {
      var n := i - 1;
      RunNext(actions, n);
      var (s, hs) := Run(actions[..n]);
      if Outgrown(actions, n, h) {
        j := FirstEscape(actions, n, h);
      } else {
        CountersOverRuns(actions[..n], h);
        OnlyNewPeersCrowd(s, hs, actions[n], h);
        j := n;
      }
    }
  }

  /** A list of level 0 gets its 258th peer only in an escape. */
  lemma {:induction false} OnlyNewPeersCrowd(s: State, hs: Histories, a: Action, h: Hash)
    requires h in Step(s, a) && Step(s, a)[h].level == 0 && |Step(s, a)[h].peers| > PEERS_FOR_LEVEL_0_LIMIT + 1
    requires h in s ==> Law(s[h], Of(hs, h))
    requires h in s && s[h].level == 0 ==> |s[h].peers| <= PEERS_FOR_LEVEL_0_LIMIT + 1
    ensures a.AnnounceOf? && a.q.infoHash == h && h in s && s[h].level == 0 && a.q.peerId !in s[h].peers
    ensures |s[h].peers| > PEERS_FOR_LEVEL_0_LIMIT && Wrap32(|s[h].peers| + Of(hs, h).zero) <= PEERS_FOR_LEVEL_0_LIMIT
  {
    hide Law, Of, SetPeer, DeletePeer, Kept, Live, Wrap32;
    match a
    case AnnounceOf(q, now, protocol) =>
      if q.infoHash == h {
        var t := if h in s then s[h] else NEW_TORRENT;
        PeersAfterAnnounce(t, q, now, protocol);
        LevelNeverFalls(t, q, now, protocol);
        if h in s {
          LevelStaysIff(t, Of(hs, h), q, now, protocol);
        }
      }
    case StopOf(q) =>
      if q.infoHash == h {
        StopShrinks(s[h], q);
      }
    case CollectionAt(limit, path) =>
      KeptPeers(s[h], limit);
      LiveIsFewer(s[h].peers, limit);
  }

  lemma {:induction false} LevelNeverFalls(t: Torrent, q: Query, now: int, protocol: Bits)
    ensures SetPeer(t, q, now, protocol).level == 0 ==> t.level == 0
  {
  }

  lemma {:induction false} StopShrinks(t: Torrent, q: Query)
    ensures DeletePeer(t, q).level == t.level && |DeletePeer(t, q).peers| <= |t.peers|
  {
    if q.peerId in t.peers {
      CompletedRemove(t.peers, q.peerId);
    }
  }

  // ---------------------------------------------------------------- runs that outgrow the level

  /** Each peer announces twice, first with STARTED and then, as regular over UDP, with event code 0. */
  function TwiceEach(q: Query, ids: seq<Hash>, now: int, protocol: Bits): seq<Action> {
    if ids == [] then []
    else
      var one := q.(peerId := ids[|ids| - 1]);
      TwiceEach(q, ids[..|ids| - 1], now, protocol)
      + [AnnounceOf(one.(event := STARTED), now, protocol), AnnounceOf(one.(event := NONE), now, protocol)]
  }

  ghost predicate AllDistinct(ids: seq<Hash>) {
    forall i, j :: 0 <= i < j < |ids| ==> ids[i] != ids[j]
  }

  lemma {:induction false} LastIsNew(ids: seq<Hash>)
    requires ids != [] && AllDistinct(ids)
    ensures var n := |ids| - 1;
      AllDistinct(ids[..n]) && ids[n] !in ids[..n] && forall id :: id in ids <==> id in ids[..n] || id == ids[n]
  {
    var n := |ids| - 1;
    forall id ensures id in ids <==> id in ids[..n] || id == ids[n] {
      assert ids == ids[..n] + [ids[n]];
    }
  }

  /** The torrent after such announces of the peers `ids`. */
  ghost predicate Crowd(t: Torrent, ids: seq<Hash>) {
    && t.level == 0 && t.complete == 0 && t.incomplete == 0
    && |t.peers| == |ids| && forall id :: id in t.peers <==> id in ids
  }

  lemma {:induction false} CrowdGrows(t: Torrent, ids: seq<Hash>, q: Query, now: int, protocol: Bits)
    requires ids != [] && AllDistinct(ids) && Crowd(t, ids[..|ids| - 1]) && q.peerId == ids[|ids| - 1]
    ensures Crowd(AfterPair(t, q, now, protocol), ids)
  {
    hide AfterPair, AllDistinct;
    LastIsNew(ids);
    TwiceOnce(t, q, now, protocol);
  }

  /** However many such peers come, both counters stay at 0 and the list stays at level 0. */
  lemma {:induction false} CrowdAtLevel0(q: Query, ids: seq<Hash>, now: int, protocol: Bits)
    requires ids != [] && AllDistinct(ids)
    ensures var s := Run(TwiceEach(q, ids, now, protocol)).0; q.infoHash in s && Crowd(s[q.infoHash], ids)
  {
    hide AfterPair, Run, TwiceEach, Crowd, AllDistinct;
    var n := |ids| - 1;
    var one := q.(peerId := ids[n]);
    LastIsNew(ids);
    TwiceEachNext(q, ids, now, protocol);
    RunOfPair(TwiceEach(q, ids[..n], now, protocol), one, now, protocol);
    if n == 0 {
      NothingRun();
      NobodyTwice(q, ids[..n], now, protocol);
      CrowdGrows(NEW_TORRENT, ids, one, now, protocol) by {
        NoCrowd(ids[..n]);
      }
    } else {
      CrowdAtLevel0(q, ids[..n], now, protocol);
      CrowdGrows(Run(TwiceEach(q, ids[..n], now, protocol)).0[q.infoHash], ids, one, now, protocol);
    }
  }

  lemma {:induction false} NoCrowd(ids: seq<Hash>)
    requires ids == []
    ensures Crowd(NEW_TORRENT, ids)
  {
  }

  lemma {:induction false} TwiceEachNext(q: Query, ids: seq<Hash>, now: int, protocol: Bits)
    requires ids != []
    ensures var one := q.(peerId := ids[|ids| - 1]);
      TwiceEach(q, ids, now, protocol) == TwiceEach(q, ids[..|ids| - 1], now, protocol)
        + [AnnounceOf(one.(event := STARTED), now, protocol), AnnounceOf(one.(event := NONE), now, protocol)]
  {
  }

  lemma {:induction false} NobodyTwice(q: Query, ids: seq<Hash>, now: int, protocol: Bits)
    requires ids == []
    ensures TwiceEach(q, ids, now, protocol) == []
  {
  }

  lemma {:induction false} NothingRun()
    ensures Run([]).0 == map[]
  {
  }

  lemma {:induction false} TwiceOnce(t: Torrent, q: Query, now: int, protocol: Bits)
    requires t.level == 0 && t.complete == 0 && t.incomplete == 0 && q.peerId !in t.peers
    ensures var u := AfterPair(t, q, now, protocol);
      && u.level == 0 && u.complete == 0 && u.incomplete == 0
      && u.peers.Keys == t.peers.Keys + {q.peerId} && |u.peers| == |t.peers| + 1
  {
    hide SetPeer;
    StartedOnce(t, q.(event := STARTED), now, protocol);
    var s := SetPeer(t, q.(event := STARTED), now, protocol);
    NoneOnce(s, q.(event := NONE), now, protocol);
    PairStored(t, q, now, protocol);
    SetSizes(t.peers.Keys, q.peerId);
    assert |t.peers| == |t.peers.Keys|;
  }

  lemma {:induction false} StartedOnce(t: Torrent, q: Query, now: int, protocol: Bits)
    requires t.level == 0 && t.complete == 0 && t.incomplete == 0 && q.peerId !in t.peers && q.event == STARTED
    ensures var s := SetPeer(t, q, now, protocol);
      && s.level == 0 && s.complete == 0 && s.incomplete == 1 && q.peerId in s.peers
        && s.peers[q.peerId].event == STARTED
  {
  }

  lemma {:induction false} NoneOnce(t: Torrent, q: Query, now: int, protocol: Bits)
    requires t.level == 0 && t.complete == 0 && t.incomplete == 1 && q.event == NONE
    requires q.peerId in t.peers && t.peers[q.peerId].event == STARTED
    ensures var s := SetPeer(t, q, now, protocol); s.level == 0 && s.complete == 0 && s.incomplete == 0
  {
  }

  /** A run that takes `incomplete` below 0: two such peers, of which a collection finds one too old. */
  lemma {:induction false} IncompleteUnderflows(q: Query, a: Hash, b: Hash, early: int, limit: int, late: int,
                                                protocol: Bits)
    requires a != b && early < limit <= late
    ensures var s := Run(TwiceEach(q, [a], early, protocol) + TwiceEach(q, [b], late, protocol)
                         + [CollectionAt(limit, [])]).0;
      q.infoHash in s && |s[q.infoHash].peers| == 1 && s[q.infoHash].incomplete == WORD - 1
  {
    hide SetPeer, CollectBelow;
    var first, second := TwiceEach(q, [a], early, protocol), TwiceEach(q, [b], late, protocol);
    PairOfActions(q, a, early, protocol);
    PairOfActions(q, b, late, protocol);
    var qa, qb := q.(peerId := a), q.(peerId := b);
    var t := AfterPair(NEW_TORRENT, qa, early, protocol);
    var u := AfterPair(t, qb, late, protocol);
    RunOfPair([], qa, early, protocol);
    assert [] + first == first;
    RunOfPair(first, qb, late, protocol);
    var all := first + second + [CollectionAt(limit, [])];
    assert all[..|all| - 1] == first + second;
    OneOfTwoGone(qa, qb, early, limit, late, protocol);
    CollectBelowRoot(Run(first + second).0, limit);
  }

  lemma {:induction false} PairOfActions(q: Query, id: Hash, now: int, protocol: Bits)
    ensures TwiceEach(q, [id], now, protocol)
         == [AnnounceOf(q.(peerId := id, event := STARTED), now, protocol),
             AnnounceOf(q.(peerId := id, event := NONE), now, protocol)]
  {
    assert [id][..0] == [];
    assert [id][0] == id;
  }

  function AfterPair(t: Torrent, q: Query, now: int, protocol: Bits): Torrent {
    SetPeer(SetPeer(t, q.(event := STARTED), now, protocol), q.(event := NONE), now, protocol)
  }

  lemma {:induction false} RunOfPair(before: seq<Action>, q: Query, now: int, protocol: Bits)
    ensures var s := Run(before).0;
      Run(before + [AnnounceOf(q.(event := STARTED), now, protocol), AnnounceOf(q.(event := NONE), now, protocol)]).0
      == s[q.infoHash := AfterPair(if q.infoHash in s then s[q.infoHash] else NEW_TORRENT, q, now, protocol)]
  {
    hide SetPeer;
    var all := before + [AnnounceOf(q.(event := STARTED), now, protocol), AnnounceOf(q.(event := NONE), now, protocol)];
    assert all[..|all| - 1][..|all| - 2] == before;
    assert all[|all| - 1] == AnnounceOf(q.(event := NONE), now, protocol);
    assert all[..|all| - 1][|all| - 2] == AnnounceOf(q.(event := STARTED), now, protocol);
  }

  lemma {:induction false} OneOfTwoGone(qa: Query, qb: Query, early: int, limit: int, late: int, protocol: Bits)
    requires qa.peerId != qb.peerId && early < limit <= late
    ensures var u := AfterPair(AfterPair(NEW_TORRENT, qa, early, protocol), qb, late, protocol);
      Live(u.peers, limit) != map[] && |Kept(u, limit).peers| == 1 && Kept(u, limit).incomplete == WORD - 1
  {
    var t := AfterPair(NEW_TORRENT, qa, early, protocol);
    TwiceOnce(NEW_TORRENT, qa, early, protocol);
    var u := AfterPair(t, qb, late, protocol);
    TwiceOnce(t, qb, late, protocol);
    PairStored(NEW_TORRENT, qa, early, protocol);
    PairStored(t, qb, late, protocol);
    hide AfterPair;
    OneLive(u, qa.peerId, qb.peerId, limit);
  }

  lemma {:induction false} PairStored(t: Torrent, q: Query, now: int, protocol: Bits)
    ensures var u := AfterPair(t, q, now, protocol);
      && u.peers.Keys == t.peers.Keys + {q.peerId}
      && u.peers[q.peerId].updateTime == now && u.peers[q.peerId].event == NONE
      && forall h :: h in t.peers && h != q.peerId ==> u.peers[h] == t.peers[h]
  {
    hide ChangeStats;
    var s := SetPeer(t, q.(event := STARTED), now, protocol);
    StatsKeepPeers(Roomier(t), if q.peerId in t.peers then t.peers[q.peerId].event else NONE, STARTED);
    StatsKeepPeers(Roomier(s), s.peers[q.peerId].event, NONE);
  }

  /** Of two peers, neither of them completed, one is too old. */
  lemma {:induction false} OneLive(u: Torrent, a: Hash, b: Hash, limit: int)
    requires a != b && u.peers.Keys == {a, b} && u.peers[a].event != COMPLETED && u.peers[b].event != COMPLETED
    requires u.peers[a].updateTime < limit <= u.peers[b].updateTime && u.incomplete == 0
    ensures Live(u.peers, limit) != map[] && |Kept(u, limit).peers| == 1 && Kept(u, limit).incomplete == WORD - 1
  {
    var live := Live(u.peers, limit);
    assert live.Keys == {b};
    assert Completed(u.peers) == {} && Completed(live) == {};
    assert |u.peers.Keys| == 2 && |live.Keys| == 1;
  }

  // ---------------------------------------------------------------- nothing underflows

  /** The counters are what they are meant to be. */
  ghost predicate Exact(t: Torrent) {
    t.complete == |Completed(t.peers)| && t.incomplete == |t.peers| - |Completed(t.peers)|
  }

  /** The peers met by the first `i` calls of a traversal. */
  ghost function Met(e: seq<Entry<Peer>>, i: nat, peers: map<Hash, Peer>): map<Hash, Peer>
    requires i <= |e|
  {
    map h | h in peers && (exists j :: 0 <= j < i && e[j].hash == h) :: peers[h]
  }

  lemma {:induction false} MetEnumerates(e: seq<Entry<Peer>>, i: nat, peers: map<Hash, Peer>)
    requires Enumerates(e, peers) && i < |e|
    ensures Enumerates(e[..i], Met(e, i, peers))
    ensures e[i].hash in peers && e[i].data == Some(peers[e[i].hash]) && e[i].hash !in Met(e, i, peers)
  {
    forall h | h in Met(e, i, peers) ensures exists j :: 0 <= j < i && e[..i][j].hash == h {
      var j :| 0 <= j < i && e[j].hash == h;
      assert e[..i][j].hash == h;
    }
  }

  lemma {:induction false} Difference<T>(a: set<T>, b: set<T>)
    requires b <= a
    ensures |a - b| == |a| - |b|
  {
    assert a == (a - b) + b;
  }

  /** The peers that a collection removes, and those of them that are stored as completed. */
  lemma {:induction false} Removed(some: map<Hash, Peer>, limit: int)
    ensures var live := Live(some, limit);
      var gone, done := some.Keys - live.Keys, Completed(some) - Completed(live);
      && |gone| == |some| - |live| && |done| == |Completed(some)| - |Completed(live)|
      && done <= gone && |gone - done| == |gone| - |done|
      && done <= Completed(some) && (gone - done) * Completed(some) == {}
  {
    var live := Live(some, limit);
    var gone, done := some.Keys - live.Keys, Completed(some) - Completed(live);
    assert live.Keys <= some.Keys && Completed(live) <= Completed(some) && done <= gone;
    Difference(some.Keys, live.Keys);
    Difference(Completed(some), Completed(live));
    Difference(gone, done);
    assert |some| == |some.Keys| && |live| == |live.Keys|;
  }

  /** How many peers a collection removes of some that do not include `id`. */
  lemma {:induction false} GoneWithout(some: map<Hash, Peer>, peers: map<Hash, Peer>, id: Hash, limit: int)
    requires id in peers && id !in some && forall h :: h in some ==> h in peers && some[h] == peers[h]
    ensures 0 <= |Completed(some)| - |Completed(Live(some, limit))|
         <= |Completed(peers)| - if peers[id].event == COMPLETED then 1 else 0
    ensures 0 <= (|some| - |Live(some, limit)|) - (|Completed(some)| - |Completed(Live(some, limit))|)
         <= |peers| - |Completed(peers)| - if peers[id].event == COMPLETED then 0 else 1
  {
    hide Live;
    Removed(some, limit);
    CompletedOfSome(some, peers, id);
    var live := Live(some, limit);
    var gone, done := some.Keys - live.Keys, Completed(some) - Completed(live);
    var all, rest := Completed(peers), peers.Keys - Completed(peers);
    Difference(peers.Keys, all);
    assert |peers| == |peers.Keys|;
    SetSizes(all, id);
    SetSizes(rest, id);
    SubsetSize(done, all - {id});
    SubsetSize(gone - done, rest - {id});
  }

  lemma {:induction false} CompletedOfSome(some: map<Hash, Peer>, peers: map<Hash, Peer>, id: Hash)
    requires id in peers && id !in some && forall h :: h in some ==> h in peers && some[h] == peers[h]
    ensures Completed(peers) <= peers.Keys && some.Keys <= peers.Keys - {id}
    ensures Completed(some) == Completed(peers) * some.Keys
    ensures id in Completed(peers) <==> peers[id].event == COMPLETED
  {
  }

  /** With exact counters no call of the collector's inner callback takes one below 0, whatever the order. */
  lemma {:induction false} CollectionNeverUnderflows(e: seq<Entry<Peer>>, t: Torrent, limit: int, i: nat,
                                                     acc: PeerTally)
    requires Exact(t) && Enumerates(e, t.peers) && i < |e| && acc.complete == t.complete
    requires acc.incomplete == t.incomplete
    ensures e[i].hash in t.peers
    ensures var tally := Sweep(e[..i], acc, PeerVisit(limit)).acc;
      if t.peers[e[i].hash].event == COMPLETED then tally.complete > 0 else tally.incomplete > 0
  {
    hide Enumerates, Completed, Live, Sweep, PeerVisit, Met, Tallied, Wrap32;
    MetEnumerates(e, i, t.peers);
    PeerSweep(e[..i], Met(e, i, t.peers), limit, acc);
    MetOf(e, i, t.peers);
    GoneWithout(Met(e, i, t.peers), t.peers, e[i].hash, limit);
    var met := Met(e, i, t.peers);
    var done, gone := |Completed(met)| - |Completed(Live(met, limit))|, |met| - |Live(met, limit)|;
    StillPositive(acc, done, gone, |Live(met, limit)|);
  }

  lemma {:induction false} StillPositive(acc: PeerTally, done: int, gone: int, live: int)
    requires 0 <= done <= acc.complete && 0 <= gone - done <= acc.incomplete
    ensures Tallied(acc, done, gone, live).complete == acc.complete - done
    ensures Tallied(acc, done, gone, live).incomplete == acc.incomplete - (gone - done)
  {
    WrapSmall(acc.complete - done);
    WrapSmall(acc.incomplete - (gone - done));
  }

  lemma {:induction false} MetOf(e: seq<Entry<Peer>>, i: nat, peers: map<Hash, Peer>)
    requires i <= |e|
    ensures forall h :: h in Met(e, i, peers) ==> h in peers && Met(e, i, peers)[h] == peers[h]
  {
  }

  /**
   * In every run without event code 0 and without a dropped completion the counters of a torrent are exact:
   * neither an announce nor a stop nor any call of a collection takes one of them below 0.
   */
  lemma {:induction false} RunsNeverUnderflow(actions: seq<Action>, h: Hash, id: Hash, e: seq<Entry<Peer>>, limit: int,
                                              i: nat, acc: PeerTally)
    requires NoZeroEvents(actions) && h in Run(actions).0 && Of(Run(actions).1, h).dropped == 0
    requires var t := Run(actions).0[h];
      && |t.peers| < WORD && id in t.peers && Enumerates(e, t.peers) && i < |e|
      && acc.complete == t.complete && acc.incomplete == t.incomplete
    ensures var t := Run(actions).0[h];
      && Exact(t)
      && (if t.peers[id].event == COMPLETED then t.complete > 0 else t.incomplete > 0)
      && e[i].hash in t.peers
      && var tally := Sweep(e[..i], acc, PeerVisit(limit)).acc;
      if t.peers[e[i].hash].event == COMPLETED then tally.complete > 0 else tally.incomplete > 0
  {
    hide Enumerates, Completed, Sweep, PeerVisit, Run;
    CountersWithoutZero(actions, h);
    WrapSmall(0);
    ExactNeverUnderflows(Run(actions).0[h], id);
    CollectionNeverUnderflows(e, Run(actions).0[h], limit, i, acc);
  }
}
