/**
 * The garbage collector's two nested callbacks (data_garbage.c) as traversals, and what one
 * collection leaves behind.
 */
module Garbage {
  import opened Bytes
  import opened HashOrder
  import opened Entries
  import opened Tracker

  // ---------------------------------------------------------------- the peers of one torrent

  /** What the inner callback changes: the torrent's counters and the collector's own. */
  datatype PeerTally = PeerTally(complete: u32, incomplete: u32, total: u32, current: u32, removed: u32)

  /** `runGarbageCollectorCallbackCallback` on one peer. */
  function VisitPeer(limit: int, acc: PeerTally, p: Peer): Visit<PeerTally, Peer> {
    if p.updateTime < limit then
      var counted := if p.event == COMPLETED then acc.(complete := Wrap32(acc.complete - 1))
                     else acc.(incomplete := Wrap32(acc.incomplete - 1));
      Visit(counted.(removed := Wrap32(acc.removed + 1)), Some(p), true, false)
    else
      Visit(acc.(total := Wrap32(acc.total + 1), current := Wrap32(acc.current + 1)), Some(p), false, false)
  }

  function PeerVisit(limit: int): (PeerTally, Hash, Option<Peer>) -> Visit<PeerTally, Peer> {
    (acc: PeerTally, h: Hash, data: Option<Peer>) =>
      if data.None? then Visit(acc, data, false, false) else VisitPeer(limit, acc, data.value)
  }

  /** Entries that stand for a map of present values. */
  ghost predicate Enumerates<D>(e: seq<Entry<D>>, m: map<Hash, D>) {
    && Distinct(e)
    && (forall i :: 0 <= i < |e| ==> e[i].hash in m && e[i].data == Some(m[e[i].hash]))
    && (forall h :: h in m ==> exists i :: 0 <= i < |e| && e[i].hash == h)
  }

  lemma {:induction false} EnumeratesRest<D>(e: seq<Entry<D>>, m: map<Hash, D>)
    requires Enumerates(e, m) && e != []
    ensures e[0].hash in m && Enumerates(e[1..], m - {e[0].hash})
  {
  }

  lemma {:induction false} EnumeratesMore<D>(e: seq<Entry<D>>, m: map<Hash, D>, x: Entry<D>)
    requires Enumerates(e, m) && x.hash !in m && x.data.Some?
    ensures Enumerates([x] + e, m[x.hash := x.data.value])
  {
    var r := [x] + e;
    var more := m[x.hash := x.data.value];
    forall h | h in more ensures exists i :: 0 <= i < |r| && r[i].hash == h {
      if h == x.hash {
        assert r[0].hash == h;
      } else {
        var i :| 0 <= i < |e| && e[i].hash == h;
        assert r[i + 1].hash == h;
      }
    }
  }

  /** The tally after a collection of the peers `peers`. */
  ghost function PeerTallyAfter(acc: PeerTally, peers: map<Hash, Peer>, limit: int): PeerTally {
    var live := Live(peers, limit);
    Tallied(acc, |Completed(peers)| - |Completed(live)|, |peers| - |live|, |live|)
  }

  /** The tally after `gone` peers were removed, `goneComplete` of them completed, and `live` kept. */
  ghost function Tallied(acc: PeerTally, goneComplete: int, gone: int, live: int): PeerTally {
    PeerTally(Wrap32(acc.complete - goneComplete), Wrap32(acc.incomplete - (gone - goneComplete)),
              Wrap32(acc.total + live), Wrap32(acc.current + live), Wrap32(acc.removed + gone))
  }

  lemma {:induction false} TalliedKept(acc: PeerTally, goneComplete: int, gone: int, live: int)
    ensures Tallied(acc.(total := Wrap32(acc.total + 1), current := Wrap32(acc.current + 1)), goneComplete, gone, live)
         == Tallied(acc, goneComplete, gone, live + 1)
  {
    hide Wrap32;
    WrapAdd(acc.total + 1, live);
    WrapAdd(acc.current + 1, live);
  }

  lemma {:induction false} TalliedGone(acc: PeerTally, goneComplete: int, gone: int, live: int)
    ensures Tallied(acc.(complete := Wrap32(acc.complete - 1), removed := Wrap32(acc.removed + 1)),
                    goneComplete, gone, live)
         == Tallied(acc, goneComplete + 1, gone + 1, live)
    ensures Tallied(acc.(incomplete := Wrap32(acc.incomplete - 1), removed := Wrap32(acc.removed + 1)),
                    goneComplete, gone, live)
         == Tallied(acc, goneComplete, gone + 1, live)
  {
    hide Wrap32;
    WrapAdd(acc.complete - 1, -goneComplete);
    WrapAdd(acc.incomplete - 1, -(gone - goneComplete));
    WrapAdd(acc.removed + 1, gone);
  }

  lemma {:induction false} LiveWithout(peers: map<Hash, Peer>, h: Hash, limit: int)
    requires h in peers
    ensures var rest := peers - {h};
            && Live(peers, limit)
              == (if peers[h].updateTime >= limit then Live(rest, limit)[h := peers[h]] else Live(rest, limit))
            && h !in Live(rest, limit)
  {
  }

  /**
   * In whatever order the traversal meets the peers, it keeps exactly the live ones and takes every
   * other peer off the counters.
   */
  lemma {:induction false} PeerSweep(e: seq<Entry<Peer>>, peers: map<Hash, Peer>, limit: int, acc: PeerTally)
    requires Enumerates(e, peers)
    ensures var r := Sweep(e, acc, PeerVisit(limit));
            && !r.stopped && Enumerates(r.kept, Live(peers, limit))
            && r.acc == PeerTallyAfter(acc, peers, limit)
  {
    if e == [] {
      assert peers == map[] by {
        assert forall h :: h !in peers;
      }
      assert Live(peers, limit) == map[];
      PeerTallyOfNothing(acc, limit);
    } else {
      hide Enumerates, Live, PeerTallyAfter, VisitPeer, Sweep, PeerVisit;
      EnumeratesRest(e, peers);
      FirstOf(e, peers);
      var h, p := e[0].hash, peers[e[0].hash];
      var next := VisitPeer(limit, acc, p).acc;
      FirstPeer(e, limit, acc, p);
      PeerSweep(e[1..], peers - {h}, limit, next);
      LiveWithout(peers, h, limit);
      PeerTallyStep(acc, peers, h, limit);
      var r := Sweep(e[1..], next, PeerVisit(limit));
      if p.updateTime >= limit {
        EnumeratesMore(r.kept, Live(peers - {h}, limit), Entry(h, Some(p)));
      }
    }
  }

  /** The first call of the inner traversal. */
  lemma {:induction false} FirstPeer(e: seq<Entry<Peer>>, limit: int, acc: PeerTally, p: Peer)
    requires e != [] && e[0].data == Some(p)
    ensures var r := Sweep(e[1..], VisitPeer(limit, acc, p).acc, PeerVisit(limit));
            Sweep(e, acc, PeerVisit(limit))
            == Swept(r.acc, if p.updateTime >= limit then [Entry(e[0].hash, Some(p))] + r.kept else r.kept, r.stopped)
  {
    hide Sweep;
    SweepUnfold(e, acc, PeerVisit(limit));
    var r := Sweep(e[1..], VisitPeer(limit, acc, p).acc, PeerVisit(limit));
    assert [] + r.kept == r.kept;
  }

  lemma {:induction false} FirstOf<D>(e: seq<Entry<D>>, m: map<Hash, D>)
    requires Enumerates(e, m) && e != []
    ensures e[0].hash in m && e[0].data == Some(m[e[0].hash])
  {
  }

  lemma {:induction false} PeerTallyOfNothing(acc: PeerTally, limit: int)
    ensures PeerTallyAfter(acc, map[], limit) == acc
  {
  }

  lemma {:induction false} PeerTallyStep(acc: PeerTally, peers: map<Hash, Peer>, h: Hash, limit: int)
    requires h in peers
    ensures PeerTallyAfter(VisitPeer(limit, acc, peers[h]).acc, peers - {h}, limit) == PeerTallyAfter(acc, peers, limit)
  {
    hide Live, Completed, Wrap32, Tallied;
    var rest := peers - {h};
    var live := Live(rest, limit);
    CountsWithout(peers, h, limit);
    VisitTally(acc, peers[h], limit, |Completed(rest)| - |Completed(live)|, |rest| - |live|, |live|);
  }

  /** The numbers of a collection with one peer more. */
  lemma {:induction false} CountsWithout(peers: map<Hash, Peer>, h: Hash, limit: int)
    requires h in peers
    ensures var rest, p := peers - {h}, peers[h];
      var live, all := Live(rest, limit), Live(peers, limit);
      if p.updateTime >= limit then
        && |all| == |live| + 1 && |peers| - |all| == |rest| - |live|
        && |Completed(peers)| - |Completed(all)| == |Completed(rest)| - |Completed(live)|
      else
        && |all| == |live| && |peers| - |all| == |rest| - |live| + 1
        && |Completed(peers)| - |Completed(all)|
           == |Completed(rest)| - |Completed(live)| + if p.event == COMPLETED then 1 else 0
  {
    hide Live, Completed;
    CompletedRemove(peers, h);
    LiveWithout(peers, h, limit);
    CompletedUpdate(Live(peers - {h}, limit), h, peers[h]);
  }

  /** One call of the callback in front of the rest of a collection. */
  lemma {:induction false} VisitTally(acc: PeerTally, p: Peer, limit: int, goneComplete: int, gone: int, live: int)
    ensures Tallied(VisitPeer(limit, acc, p).acc, goneComplete, gone, live)
         == if p.updateTime >= limit then Tallied(acc, goneComplete, gone, live + 1)
            else Tallied(acc, goneComplete + (if p.event == COMPLETED then 1 else 0), gone + 1, live)
  {
    hide Wrap32, Tallied;
    if p.updateTime >= limit {
      TalliedKept(acc, goneComplete, gone, live);
    } else {
      TalliedGone(acc, goneComplete, gone, live);
    }
  }

  // ---------------------------------------------------------------- the torrents

  /** The collector's own counters (without the per-leaf maxima, which depend on addresses of leaves). */
  datatype Stats = Stats(totalPeers: u32, totalTorrents: u32, changedLimit: u32, maxPeers: u32,
                         removedPeers: u32, removedTorrents: u32)

  /** `runGarbageCollectorCallback` on one torrent, its nested traversal summed up by `Kept`. */
  function VisitTorrent(limit: int, acc: Stats, t: Torrent): Visit<Stats, Torrent> {
    var kept := Kept(t, limit);
    var current := Wrap32(|kept.peers|);
    var counted := acc.(totalPeers := Wrap32(acc.totalPeers + |kept.peers|),
                        removedPeers := Wrap32(acc.removedPeers + (|t.peers| - |kept.peers|)));
    if current == 0 then
      Visit(counted.(removedTorrents := Wrap32(acc.removedTorrents + 1)), Some(kept), true, false)
    else
      Visit(counted.(totalTorrents := Wrap32(acc.totalTorrents + 1),
                     maxPeers := if current > acc.maxPeers then current else acc.maxPeers,
                     changedLimit := if current > PEERS_FOR_LEVEL_0_LIMIT then Wrap32(acc.changedLimit + 1)
                                     else acc.changedLimit),
            Some(kept), false, false)
  }

  function TorrentVisit(limit: int): (Stats, Hash, Option<Torrent>) -> Visit<Stats, Torrent> {
    (acc: Stats, h: Hash, data: Option<Torrent>) =>
      if data.None? then Visit(acc, data, false, false) else VisitTorrent(limit, acc, data.value)
  }

  /**
   * The nested traversal is what `VisitTorrent` says it is: for every order of the peers the counters,
   * the tallies and the kept peers agree, and `currentPeersInTorrent` is 0 - so that `freeList` and
   * `deleteItem` run - exactly if the peer list is left empty.
   */
  lemma {:induction false} NestedSweep(e: seq<Entry<Peer>>, t: Torrent, limit: int, acc: Stats)
    requires Enumerates(e, t.peers) && |t.peers| < WORD
    ensures var r := Sweep(e, PeerTally(t.complete, t.incomplete, acc.totalPeers, 0, acc.removedPeers),
      PeerVisit(limit));
            var v := VisitTorrent(limit, acc, t);
            && !r.stopped && Enumerates(r.kept, v.data.value.peers)
            && r.acc.complete == v.data.value.complete && r.acc.incomplete == v.data.value.incomplete
            && r.acc.total == v.acc.totalPeers && r.acc.removed == v.acc.removedPeers
            && r.acc.current == Wrap32(|v.data.value.peers|)
            && (v.delete <==> r.acc.current == 0) && (v.delete <==> r.kept == [])
  {
    hide Live, Completed, Enumerates, Sweep, PeerVisit, Wrap32;
    var start := PeerTally(t.complete, t.incomplete, acc.totalPeers, 0, acc.removedPeers);
    var live := Live(t.peers, limit);
    PeerSweep(e, t.peers, limit, start);
    LiveIsFewer(t.peers, limit);
    EnumerationSize(Sweep(e, start, PeerVisit(limit)).kept, live);
    WrapSmall(|live|);
  }

  lemma {:induction false} EnumerationSize<D>(e: seq<Entry<D>>, m: map<Hash, D>)
    requires Enumerates(e, m)
    ensures |e| == |m|
  {
    if e == [] {
      assert forall h :: h !in m;
      assert m == map[];
    } else {
      EnumeratesRest(e, m);
      EnumerationSize(e[1..], m - {e[0].hash});
      assert (m - {e[0].hash}).Keys == m.Keys - {e[0].hash};
      SetSizes(m.Keys, e[0].hash);
    }
  }

  /** The peers of all torrents. */
  ghost function PeersIn(e: seq<Entry<Torrent>>): nat {
    if e == [] then 0
    else (if e[0].data.Some? then |e[0].data.value.peers| else 0) + PeersIn(e[1..])
  }

  /** The torrents whose peer list is over the level-0 limit. */
  ghost function Crowded(e: seq<Entry<Torrent>>): nat {
    if e == [] then 0
    else (if e[0].data.Some? && |e[0].data.value.peers| > PEERS_FOR_LEVEL_0_LIMIT then 1 else 0) + Crowded(e[1..])
  }

  /** The size of the largest torrent, or `m` if that is larger. */
  ghost function Largest(e: seq<Entry<Torrent>>, m: nat): nat {
    if e == [] then m
    else
      var n := if e[0].data.Some? then |e[0].data.value.peers| else 0;
      Largest(e[1..], if n > m then n else m)
  }

  /** What a collection reports of the entries it met (`e`) and those it left (`kept`). */
  ghost predicate Reports(acc: Stats, e: seq<Entry<Torrent>>, kept: seq<Entry<Torrent>>, r: Stats) {
    && r.totalPeers == Wrap32(acc.totalPeers + PeersIn(kept))
    && r.removedPeers == Wrap32(acc.removedPeers + (PeersIn(e) - PeersIn(kept)))
    && r.totalTorrents == Wrap32(acc.totalTorrents + |kept|)
    && r.removedTorrents == Wrap32(acc.removedTorrents + (|e| - |kept|))
    && r.changedLimit == Wrap32(acc.changedLimit + Crowded(kept))
    && r.maxPeers == Largest(kept, acc.maxPeers)
  }

  /**
   * One collection, in whatever order it meets the torrents: it leaves exactly the torrents with a
   * live peer, each with exactly its live peers and the matching counters, and what it reports as
   * total and as removed adds up to what was there before.
   */
  lemma {:induction false} TorrentSweep(e: seq<Entry<Torrent>>, s: State, limit: int, acc: Stats)
    requires Enumerates(e, s) && forall h :: h in s ==> |s[h].peers| < WORD
    ensures var r := Sweep(e, acc, TorrentVisit(limit));
            && !r.stopped && Enumerates(r.kept, Collect(s, limit))
            && Reports(acc, e, r.kept, r.acc)
  {
    if e == [] {
      assert s == map[] by {
        assert forall h :: h !in s;
      }
      assert Collect(s, limit) == map[];
    } else {
      hide Enumerates, Collect, VisitTorrent, Sweep, Reports, Kept;
      SweepUnfold(e, acc, TorrentVisit(limit));
      var h := e[0].hash;
      EnumeratesRest(e, s);
      FirstOf(e, s);
      var v := VisitTorrent(limit, acc, s[h]);
      TorrentSweep(e[1..], s - {h}, limit, v.acc);
      VisitTorrentKeeps(limit, acc, s[h]);
      CollectWithout(s, h, limit);
      var r := Sweep(e[1..], v.acc, TorrentVisit(limit));
      if v.delete {
        assert [] + r.kept == r.kept;
        ReportsGone(acc, e, r.kept, r.acc, limit, s[h]);
      } else {
        EnumeratesMore(r.kept, Collect(s - {h}, limit), Entry(h, Some(Kept(s[h], limit))));
        ReportsKept(acc, e, r.kept, r.acc, limit, s[h]);
      }
    }
  }

  lemma {:induction false} VisitTorrentKeeps(limit: int, acc: Stats, t: Torrent)
    requires |t.peers| < WORD
    ensures var v := VisitTorrent(limit, acc, t);
            v.data == Some(Kept(t, limit)) && !v.stop && (v.delete <==> Live(t.peers, limit) == map[])
  {
    hide Live, Completed;
    LiveIsFewer(t.peers, limit);
    WrapSmall(|Live(t.peers, limit)|);
  }

  lemma {:induction false} CollectWithout(s: State, h: Hash, limit: int)
    requires h in s
    ensures var rest := Collect(s - {h}, limit);
            && h !in rest
            && Collect(s, limit) == if Live(s[h].peers, limit) == map[] then rest else rest[h := Kept(s[h], limit)]
  {
    hide Live, Kept;
  }

  lemma {:induction false} ReportsGone(acc: Stats, e: seq<Entry<Torrent>>, kept: seq<Entry<Torrent>>, r: Stats,
                                       limit: int, t: Torrent)
    requires e != [] && e[0].data == Some(t) && |t.peers| < WORD && Live(t.peers, limit) == map[]
    requires Reports(VisitTorrent(limit, acc, t).acc, e[1..], kept, r)
    ensures Reports(acc, e, kept, r)
  {
    hide Live, Completed, Wrap32;
    WrapSmall(0);
    WrapSmall(acc.totalPeers);
    WrapAdd(acc.removedPeers + |t.peers|, PeersIn(e[1..]) - PeersIn(kept));
    WrapAdd(acc.removedTorrents + 1, |e[1..]| - |kept|);
  }

  lemma {:induction false} ReportsKept(acc: Stats, e: seq<Entry<Torrent>>, kept: seq<Entry<Torrent>>, r: Stats,
                                       limit: int, t: Torrent)
    requires e != [] && e[0].data == Some(t) && |t.peers| < WORD && Live(t.peers, limit) != map[]
    requires Reports(VisitTorrent(limit, acc, t).acc, e[1..], kept, r)
    ensures Reports(acc, e, [Entry(e[0].hash, Some(Kept(t, limit)))] + kept, r)
  {
    hide Live, Completed, Wrap32;
    var live := |Live(t.peers, limit)|;
    LiveIsFewer(t.peers, limit);
    WrapSmall(live);
    var all := [Entry(e[0].hash, Some(Kept(t, limit)))] + kept;
    assert all[1..] == kept;
    WrapAdd(acc.totalPeers + live, PeersIn(kept));
    WrapAdd(acc.removedPeers + (|t.peers| - live), PeersIn(e[1..]) - PeersIn(kept));
    WrapAdd(acc.totalTorrents + 1, |kept|);
    WrapAdd(acc.changedLimit + 1, Crowded(kept));
  }

  // ---------------------------------------------------------------- leaf after leaf

  lemma {:induction false} TotalsAdd(e: seq<Entry<Torrent>>, f: seq<Entry<Torrent>>, m: nat)
    ensures PeersIn(e + f) == PeersIn(e) + PeersIn(f)
    ensures Crowded(e + f) == Crowded(e) + Crowded(f)
    ensures Largest(e + f, m) == Largest(f, Largest(e, m))
  {
    if e == [] {
      assert e + f == f;
    } else {
      var n := if e[0].data.Some? then |e[0].data.value.peers| else 0;
      assert (e + f)[0] == e[0] && (e + f)[1..] == e[1..] + f;
      TotalsAdd(e[1..], f, if n > m then n else m);
    }
  }

  /**
   * The collector goes on with its counters from leaf to leaf while announces come in between: what it
   * reports in the end is right of the leaves as it met them (`e`, then `f`) and as it left them.
   */
  lemma {:induction false} ReportsAdd(acc: Stats, e: seq<Entry<Torrent>>, kept: seq<Entry<Torrent>>, middle: Stats,
                                      f: seq<Entry<Torrent>>, more: seq<Entry<Torrent>>, r: Stats)
    requires Reports(acc, e, kept, middle) && Reports(middle, f, more, r)
    ensures Reports(acc, e + f, kept + more, r)
  {
    hide Wrap32;
    TotalsAdd(e, f, 0);
    TotalsAdd(kept, more, acc.maxPeers);
    WrapAdd(acc.totalPeers + PeersIn(kept), PeersIn(more));
    WrapAdd(acc.removedPeers + (PeersIn(e) - PeersIn(kept)), PeersIn(f) - PeersIn(more));
    WrapAdd(acc.totalTorrents + |kept|, |more|);
    WrapAdd(acc.removedTorrents + (|e| - |kept|), |f| - |more|);
    WrapAdd(acc.changedLimit + Crowded(kept), Crowded(more));
  }
}
