/** Where the interval controller meets the garbage collector. */
module Freshness {
  import opened Tracker
  import I = Interval

  /** An action that neither announces nor stops this peer, and a collection no later than its deadline. */
  predicate Spares(a: Action, q: Query, deadline: int) {
    match a
    case AnnounceOf(p, _, _) => p.infoHash != q.infoHash || p.peerId != q.peerId
    case StopOf(p) => p.infoHash != q.infoHash || p.peerId != q.peerId
    case CollectionAt(limit, _) => limit + 1860 <= deadline
  }

  /**
   * A peer that is told the current interval and re-announces within it is never collected: whatever
   * other peers and torrents do, and however often the collector runs up to the peer's deadline, its
   * torrent and its record are there unchanged.
   */
  lemma {:induction false} PunctualPeerStays(c: I.Control, events: seq<I.Event>, before: seq<Action>, q: Query, t: int,
                                             protocol: Bits, after: seq<Action>)
    requires I.Start(c) && I.Possible(c, events)
    requires forall i :: 0 <= i < |after| ==> Spares(after[i], q, t + I.Execute(c, events).s.interval)
    ensures var announced := Run(before + [AnnounceOf(q, t, protocol)]).0;
            var s := Run(before + [AnnounceOf(q, t, protocol)] + after).0;
            && q.infoHash in announced && q.peerId in announced[q.infoHash].peers
            && q.infoHash in s && q.peerId in s[q.infoHash].peers
            && s[q.infoHash].peers[q.peerId] == announced[q.infoHash].peers[q.peerId]
  {
    hide I.Execute, Step, Run, Spares;
    I.AlwaysSteady(c, events);
    Announced(before, q, t, protocol);
    Undisturbed(before + [AnnounceOf(q, t, protocol)], after, q, t, t + I.Execute(c, events).s.interval);
  }

  lemma {:induction false} Announced(before: seq<Action>, q: Query, t: int, protocol: Bits)
    ensures var s := Run(before + [AnnounceOf(q, t, protocol)]).0;
      q.infoHash in s && q.peerId in s[q.infoHash].peers && s[q.infoHash].peers[q.peerId].updateTime == t
  {
    hide ChangeStats;
    var all := before + [AnnounceOf(q, t, protocol)];
    assert all[..|all| - 1] == before;
  }

  /** A peer that announced at `t` is left alone by any number of such actions. */
  lemma {:induction false} Undisturbed(before: seq<Action>, after: seq<Action>, q: Query, t: int, deadline: int)
    requires var s := Run(before).0;
      q.infoHash in s && q.peerId in s[q.infoHash].peers && s[q.infoHash].peers[q.peerId].updateTime == t
    requires deadline <= t + 1860
    requires forall i :: 0 <= i < |after| ==> Spares(after[i], q, deadline)
    ensures var s := Run(before + after).0;
      && q.infoHash in s && q.peerId in s[q.infoHash].peers
      && s[q.infoHash].peers[q.peerId] == Run(before).0[q.infoHash].peers[q.peerId]
  {
    hide Step, Spares;
    if after == [] {
      assert before + after == before;
    } else {
      var n := |after| - 1;
      var all := before + after;
      assert all[..|all| - 1] == before + after[..n];
      Undisturbed(before, after[..n], q, t, deadline);
      LeftAlone(Run(before + after[..n]).0, after[n], q, deadline);
    }
  }

  lemma {:induction false} LeftAlone(s: State, a: Action, q: Query, deadline: int)
    requires q.infoHash in s && q.peerId in s[q.infoHash].peers
    requires deadline <= s[q.infoHash].peers[q.peerId].updateTime + 1860
    requires Spares(a, q, deadline)
    ensures var u := Step(s, a);
      && q.infoHash in u && q.peerId in u[q.infoHash].peers
      && u[q.infoHash].peers[q.peerId] == s[q.infoHash].peers[q.peerId]
  {
    hide ChangeStats, Completed;
    match a {
      case AnnounceOf(p, now, protocol) =>
        if p.infoHash == q.infoHash {
          StatsKeepPeers(Roomier(s[p.infoHash]), NONE, p.event);
        }
      case StopOf(p) =>
        if p.infoHash == q.infoHash && p.peerId in s[p.infoHash].peers {
          StatsKeepPeers(s[p.infoHash], s[p.infoHash].peers[p.peerId].event, NONE);
        }
      case CollectionAt(limit, _) =>
        assert q.peerId in Live(s[q.infoHash].peers, limit);
    }
  }
}
