/**
 * What announces, stops and collections do to single peers, with the event codes and times of the source
 * as numbers: which addresses and ports are stored after whole runs, who stays, and how the counters move.
 */
module PeerLaws {
  import opened Bytes
  import opened HashOrder
  import opened Tracker

  // ---------------------------------------------------------------- one announce, one stop

  /**
   * An announce stores the address under its version and the port, adds its bits to those it finds, and
   * leaves the peer's other address, all other peers and all other torrents alone.
   */
  lemma {:induction false} AnnounceStores(s: State, q: Query, now: int, protocol: Bits)
    ensures var t := Announce(s, q, now, protocol);
      var was := if q.infoHash in s then s[q.infoHash].peers else map[];
      && t.Keys == s.Keys + {q.infoHash} && (forall h :: h in s && h != q.infoHash ==> t[h] == s[h])
      && var peers := t[q.infoHash].peers;
      && peers.Keys == was.Keys + {q.peerId} && (forall id :: id in was && id != q.peerId ==> peers[id] == was[id])
      && var p := peers[q.peerId];
      && p.port == q.port && p.updateTime == now && p.event == q.event
      && (q.ipVersion.first ==> p.ip4 == q.ip) && (!q.ipVersion.first ==> p.ip6 == q.ip)
      && (q.peerId !in was ==> (if q.ipVersion.first then p.ip6 else p.ip4) == seq(16, _ => 0))
      && (q.peerId !in was ==> p.ipVersion == q.ipVersion && p.protocol == protocol)
      && (q.peerId in was ==> var stored := was[q.peerId];
            && (if q.ipVersion.first then p.ip6 == stored.ip6 else p.ip4 == stored.ip4)
            && (p.ipVersion.first <==> stored.ipVersion.first || q.ipVersion.first)
            && (p.ipVersion.second <==> stored.ipVersion.second || q.ipVersion.second)
            && (p.protocol.first <==> stored.protocol.first || protocol.first)
            && (p.protocol.second <==> stored.protocol.second || protocol.second))
  {
    var t := if q.infoHash in s then s[q.infoHash] else NEW_TORRENT;
    StatsKeepPeers(Roomier(t), if q.peerId in t.peers then t.peers[q.peerId].event else NONE, q.event);
  }

  /** A stop removes its peer and nobody else, and adds nobody. */
  lemma {:induction false} StopRemoves(s: State, q: Query)
    ensures var t := Stop(s, q);
      && t.Keys == s.Keys && (forall h :: h in s && h != q.infoHash ==> t[h] == s[h])
      && (q.infoHash in s ==> t[q.infoHash].peers == s[q.infoHash].peers - {q.peerId})
      && (q.infoHash in s && q.peerId !in s[q.infoHash].peers ==> t == s)
  {
    if q.infoHash in s && q.peerId in s[q.infoHash].peers {
      StatsKeepPeers(s[q.infoHash], s[q.infoHash].peers[q.peerId].event, NONE);
    }
  }

  // ---------------------------------------------------------------- the counters

  /**
   * How an announce with event code `event` moves the counters of a torrent: 0 stands for no event, 1 for
   * completed, 2 for started, 3 for stopped, 4 for paused, 5 for an unknown one. `code` is the code stored
   * with the peer, and 0 for a new one.
   */
  predicate Moved(t: Torrent, u: Torrent, known: bool, code: int, event: int) {
    if event == 3 then
      && u.downloaded == t.downloaded
      && u.complete == Wrap32(t.complete - if known && code == 1 then 1 else 0)
      && u.incomplete == Wrap32(t.incomplete + if known && code == 0 then 1 else if known && code != 1 then -1 else 0)
    else
      && u.downloaded == Wrap32(t.downloaded + if event == 1 && code != 1 then 1 else 0)
      && u.complete == Wrap32(t.complete + if event == 1 && code != 1 then 1
                                           else if code == 1 && event !in {1, 5} then -1 else 0)
      && u.incomplete == Wrap32(t.incomplete + if code == 0 && event != 1 then 1
                                               else if code > 1 && event in {0, 1} then -1
                                               else if code == 1 && event !in {0, 1, 5} then 1 else 0)
  }

  function CodeIn(t: Torrent, id: Hash): int {
    if id in t.peers then t.peers[id].event else 0
  }

  lemma {:induction false} AnnounceMoves(s: State, q: Query, now: int, protocol: Bits)
    requires q.event != 3
    ensures var t := if q.infoHash in s then s[q.infoHash] else NEW_TORRENT;
      Moved(t, Announce(s, q, now, protocol)[q.infoHash], q.peerId in t.peers, CodeIn(t, q.peerId), q.event)
  {
    hide ChangeStats, UpdatedPeer, Wrap32;
    var t := if q.infoHash in s then s[q.infoHash] else NEW_TORRENT;
    EventMoves(Roomier(t), if q.peerId in t.peers then t.peers[q.peerId].event else NONE, q.event);
  }

  lemma {:induction false} EventMoves(t: Torrent, code: byte, event: byte)
    requires event != 3
    ensures Moved(t, ChangeStats(t, code, event), true, code, event)
  {
    hide Wrap32;
    WrapIdentity();
  }

  lemma {:induction false} StopMoves(s: State, q: Query)
    requires q.infoHash in s
    ensures var t := s[q.infoHash];
      Moved(t, Stop(s, q)[q.infoHash], q.peerId in t.peers, CodeIn(t, q.peerId), 3)
  {
    WrapIdentity();
  }

  lemma {:induction false} WrapIdentity()
    ensures forall x: u32 :: Wrap32(x) == x
  {
  }

  // ---------------------------------------------------------------- collections

  /** A collection leaves exactly the peers that were heard of within 1860 seconds, as they were. */
  lemma {:induction false} SilentPeersGo(s: State, now: int)
    ensures var t := Collect(s, now - 1860);
      && (forall h, id :: h in s && id in s[h].peers && now - s[h].peers[id].updateTime <= 1860 ==>
            h in t && id in t[h].peers && t[h].peers[id] == s[h].peers[id])
      && (forall h, id :: h in t && id in t[h].peers ==>
            h in s && id in s[h].peers && now - s[h].peers[id].updateTime <= 1860)
      && (forall h :: h in t ==> t[h].peers != map[])
  {
    hide Completed;
    var limit := now - 1860;
    forall h, id | h in s && id in s[h].peers && now - s[h].peers[id].updateTime <= 1860
      ensures id in Live(s[h].peers, limit) && Live(s[h].peers, limit) != map[]
    {
    }
  }

  // ---------------------------------------------------------------- whole runs

  /** An address belongs to one version of IP, as `getIpVersion` says. */
  predicate OneVersion(a: Action) {
    a.AnnounceOf? ==> a.q.ipVersion.first != a.q.ipVersion.second
  }

  /** The last announce of a peer over one of the versions of IP. */
  function LastAnnounce(actions: seq<Action>, h: Hash, id: Hash, over: Bits): Option<Action> {
    if actions == [] then None
    else
      var a := actions[|actions| - 1];
      if a.AnnounceOf? && a.q.infoHash == h && a.q.peerId == id
         && ((over.first && a.q.ipVersion.first) || (over.second && a.q.ipVersion.second)) then Some(a)
      else LastAnnounce(actions[..|actions| - 1], h, id, over)
  }

  lemma {:induction false} LastAnnounceNext(actions: seq<Action>, a: Action, h: Hash, id: Hash, over: Bits)
    ensures LastAnnounce(actions + [a], h, id, over)
         == if a.AnnounceOf? && a.q.infoHash == h && a.q.peerId == id
               && ((over.first && a.q.ipVersion.first) || (over.second && a.q.ipVersion.second)) then Some(a)
            else LastAnnounce(actions, h, id, over)
  {
    assert (actions + [a])[..|actions|] == actions;
  }

  /**
   * A stored peer has the port, the time and the event of its last announce; if it is known over IPv4 its
   * IPv4 address is that of its last announce over IPv4, and likewise for IPv6.
   */
  ghost predicate AsAnnounced(p: Peer, actions: seq<Action>, h: Hash, id: Hash) {
    var last := LastAnnounce(actions, h, id, Bits(true, true));
    var over4 := LastAnnounce(actions, h, id, Bits(true, false));
    var over6 := LastAnnounce(actions, h, id, Bits(false, true));
    && last.Some? && last.value.AnnounceOf?
    && p.port == last.value.q.port && p.updateTime == last.value.now && p.event == last.value.q.event
    && (p.ipVersion.first ==> over4.Some? && over4.value.AnnounceOf? && p.ip4 == over4.value.q.ip)
    && (p.ipVersion.second ==> over6.Some? && over6.value.AnnounceOf? && p.ip6 == over6.value.q.ip)
    && (p.ipVersion.first || p.ipVersion.second)
  }

  /** After every run each stored peer is as it last announced itself. */
  lemma {:induction false} PeersOverRuns(actions: seq<Action>, h: Hash, id: Hash)
    requires forall i :: 0 <= i < |actions| ==> OneVersion(actions[i])
    requires h in Run(actions).0 && id in Run(actions).0[h].peers
    ensures AsAnnounced(Run(actions).0[h].peers[id], actions, h, id)
  {
    hide AsAnnounced, Step;
    if actions != [] {
      var n := |actions| - 1;
      var s := Run(actions[..n]).0;
      assert actions == actions[..n] + [actions[n]];
      if h in s && id in s[h].peers {
        PeersOverRuns(actions[..n], h, id);
      }
      PeerAfterStep(actions[..n], s, actions[n], h, id);
    }
  }

  lemma {:induction false} PeerAfterStep(actions: seq<Action>, s: State, a: Action, h: Hash, id: Hash)
    requires OneVersion(a) && h in Step(s, a) && id in Step(s, a)[h].peers
    requires h in s && id in s[h].peers ==> AsAnnounced(s[h].peers[id], actions, h, id)
    ensures AsAnnounced(Step(s, a)[h].peers[id], actions + [a], h, id)
  {
    hide Announce, Stop, CollectBelow, LastAnnounce;
    LastAnnounceNext(actions, a, h, id, Bits(true, true));
    LastAnnounceNext(actions, a, h, id, Bits(true, false));
    LastAnnounceNext(actions, a, h, id, Bits(false, true));
    match a
    case AnnounceOf(q, now, protocol) => AnnounceStores(s, q, now, protocol);
    case StopOf(q) => StopRemoves(s, q);
    case CollectionAt(limit, path) => CollectionKeepsRecords(s, path, limit, h, id);
  }

  lemma {:induction false} CollectionKeepsRecords(s: State, path: Hash, limit: int, h: Hash, id: Hash)
    requires h in CollectBelow(s, path, limit) && id in CollectBelow(s, path, limit)[h].peers
    ensures h in s && id in s[h].peers && CollectBelow(s, path, limit)[h].peers[id] == s[h].peers[id]
  {
    hide Completed;
  }
}
