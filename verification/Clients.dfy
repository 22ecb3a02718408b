/** What one client learns of another: addresses and ports on their whole way through the tracker. */
module Clients {
  import opened Bytes
  import opened HashOrder
  import opened Block
  import opened Entries
  import opened Garbage
  import opened Render
  import opened Tracker
  import opened TorrentRecord
  import opened TrackerHeap
  import opened PeerLaws
  import opened Exchange
  import A = Announce
  import Bencode
  import HashList
  import HashListOps
  import Text
  import UdpRequest

  /** An address as clients of its version see it: the last four bytes of a mapped one. */
  function Shown(v4: bool, ip: Hash): seq<byte>
    requires |ip| == 16
  {
    if v4 then [ip[12], ip[13], ip[14], ip[15]] else ip
  }

  /** Peer number `n` of those that lie side by side from byte `from` on: 6 bytes each, or 18. */
  predicate PeerAt(text: seq<byte>, from: nat, n: nat, address: seq<byte>, port: int) {
    var at := from + (if |address| == 4 then 6 else 18) * n;
    && at + |address| + 2 <= |text| && text[at..at + |address|] == address
    && 256 * (text[at + |address|] as int) + text[at + |address| + 1] as int == port
  }

  ghost predicate TellsPacked(text: seq<byte>, from: nat, address: seq<byte>, port: int) {
    exists n: nat :: PeerAt(text, from, n, address, port)
  }

  /** A dictionary with this address and port. */
  predicate TellsDict(v: Bencode.Value, address: seq<byte>, port: int, ntop: Printer) {
    && v.Dict? && A.Lookup(v.fields, Text.Ascii("ip")) == Some(Bencode.Str(ntop(address)))
    && A.Lookup(v.fields, Text.Ascii("port")) == Some(Bencode.Int(port))
  }

  /** An answer over HTTP tells of a peer, in a text or in a list. */
  ghost predicate TellsHttp(text: seq<byte>, v4: bool, address: seq<byte>, port: int, ntop: Printer) {
    var p := Bencode.Parse(text);
    && p.Some? && p.value.value.Dict?
    && var peers := A.Lookup(p.value.value.fields, Text.Ascii(if v4 then "peers" else "peers6"));
    && peers.Some?
    && (peers.value.Str? || peers.value.List?)
    && (peers.value.Str? ==> TellsPacked(peers.value.s, 0, address, port))
    && (peers.value.List? ==> TellsList(peers.value.elements, address, port, ntop))
  }

  ghost predicate TellsList(e: Bencode.Elements, address: seq<byte>, port: int, ntop: Printer) {
    exists n: nat :: n < A.Count(e) && TellsDict(A.ElementAt(e, n), address, port, ntop)
  }

  /** As many peers as were asked for, or 64000 bytes of them; 0 asks for 2^32. */
  predicate NoRoom(numwant: u32, count: nat, size: nat) {
    count == (if numwant == 0 then 0x1_0000_0000 else numwant) || size >= 64000
  }

  lemma {:induction false} StillRoom(r: Request, chosen: seq<Entry<Peer>>, ntop: Printer)
    requires Sound(chosen) && Full(r, chosen, ntop)
    ensures NoRoom(r.numwant, |chosen|, |PeersText(r, chosen, ntop)|)
  {
    hide PeersText, Sound;
  }

  /** A stored peer of the client's version is among the chosen ones if there is room left. */
  lemma {:induction false} PeerIsChosen(r: Request, peers: map<Hash, Peer>, id: Hash, rows: seq<Entry<Peer>>,
                                        chosen: seq<Entry<Peer>>, ntop: Printer) returns (n: nat)
    requires id in peers && Enumerates(rows, peers) && Sound(chosen) && Chosen(r, rows, chosen, ntop)
    requires if r.ipVersion.first then peers[id].ipVersion.first else r.ipVersion.second && peers[id].ipVersion.second
    requires !NoRoom(r.numwant, |chosen|, |PeersText(r, chosen, ntop)|)
    ensures n < |chosen| && chosen[n] == Entry(id, Some(peers[id]))
  {
    hide Enumerates, Chosen, PeersText, Full, NoRoom, Sound;
    if Full(r, chosen, ntop) {
      StillRoom(r, chosen, ntop);
    }
    ChosenPeers(r, rows, peers, chosen, ntop);
    var row := Entry(id, Some(peers[id]));
    assert Matches(r, row);
    n :| n < |chosen| && chosen[n] == row;
  }

  /** Over UDP such a peer's address and port stand in the answer. */
  lemma {:induction false} UdpTells(text: seq<byte>, r: Request, t: Torrent, id: Hash, interval: u32,
                                    rows: seq<Entry<Peer>>, chosen: seq<Entry<Peer>>, ntop: Printer)
    requires r.udp && id in t.peers && Enumerates(rows, t.peers) && Sound(chosen) && Chosen(r, rows, chosen, ntop)
    requires ReadsUdp(text, r, t, interval, chosen) && Addressed(t.peers[id])
    requires if r.ipVersion.first then t.peers[id].ipVersion.first
             else r.ipVersion.second && t.peers[id].ipVersion.second
    requires !NoRoom(r.numwant, (|text| - 20) / (if r.ipVersion.first then 6 else 18), |text| - 20)
    ensures var p, v4 := t.peers[id], r.ipVersion.first;
      TellsPacked(text, 20, Shown(v4, if v4 then p.ip4 else p.ip6), PortNumber(p))
  {
    hide Enumerates, Chosen, PeersText, NoRoom, Sound, ReadsUdp, PeerAt, PortNumber, Addressed;
    UdpCount(text, r, t, interval, chosen, ntop);
    var n := PeerIsChosen(r, t.peers, id, rows, chosen, ntop);
    UdpPeer(text, r, t, interval, chosen, n);
  }

  lemma {:induction false} UdpCount(text: seq<byte>, r: Request, t: Torrent, interval: u32, chosen: seq<Entry<Peer>>,
                                    ntop: Printer)
    requires r.udp && Sound(chosen) && ReadsUdp(text, r, t, interval, chosen)
    ensures |text| >= 20 && |PeersText(r, chosen, ntop)| == |text| - 20
    ensures (|text| - 20) / (if r.ipVersion.first then 6 else 18) == |chosen|
  {
    hide PeersText, Sound, Rank, A.HoldsPeer;
    A.CompactLength(r, chosen, ntop);
    Divided(|chosen|);
  }

  lemma {:induction false} Divided(n: nat)
    ensures 6 * n / 6 == n && 18 * n / 18 == n
  {
  }

  lemma {:induction false} UdpPeer(text: seq<byte>, r: Request, t: Torrent, interval: u32, chosen: seq<Entry<Peer>>,
                                   n: nat)
    requires Sound(chosen) && ReadsUdp(text, r, t, interval, chosen) && n < |chosen|
    ensures var p, v4 := chosen[n].data.value, r.ipVersion.first;
      Addressed(p) && PeerAt(text, 20, n, Shown(v4, if v4 then p.ip4 else p.ip6), PortNumber(p))
  {
    hide Rank, A.HoldsPeer, PeerAt, Addressed, PortNumber;
    PeerBehindHead(text, r, n, chosen[n].data.value);
  }

  lemma {:induction false} Behind(text: seq<byte>, at: nat, w: nat)
    requires 2 <= w && 20 + at + w <= |text|
    ensures text[20..][at..at + w - 2] == text[20 + at..20 + at + w - 2]
    ensures text[20..][at + w - 2] == text[18 + at + w] && text[20..][at + w - 1] == text[19 + at + w]
  {
  }

  lemma {:induction false} PeerBehindHead(text: seq<byte>, r: Request, n: nat, p: Peer)
    requires |text| >= 20 && Addressed(p) && A.HoldsPeer(r, text[20..], n, p)
    ensures var v4 := r.ipVersion.first;
      PeerAt(text, 20, n, Shown(v4, if v4 then p.ip4 else p.ip6), PortNumber(p))
  {
    hide PortNumber;
    var w := if r.ipVersion.first then 6 else 18;
    var at := w * n;
    Behind(text, at, w);
  }

  /** Over HTTP as well: the address in a text of peers, or what `inet_ntop` makes of it in a dictionary. */
  lemma {:induction false} HttpTells(text: seq<byte>, r: Request, t: Torrent, id: Hash, interval: u32,
                                     rows: seq<Entry<Peer>>, chosen: seq<Entry<Peer>>, ntop: Printer)
    requires !r.udp && id in t.peers && Enumerates(rows, t.peers) && Sound(chosen) && Chosen(r, rows, chosen, ntop)
    requires ReadsHttp(text, r, t, interval, chosen, ntop) && Addressed(t.peers[id])
    requires if r.ipVersion.first then t.peers[id].ipVersion.first
             else r.ipVersion.second && t.peers[id].ipVersion.second
    requires !NoRoom(r.numwant, |chosen|, |text|)
    ensures var p, v4 := t.peers[id], r.ipVersion.first;
      TellsHttp(text, v4, Shown(v4, if v4 then p.ip4 else p.ip6), PortNumber(p), ntop)
  {
    hide Enumerates, Chosen, PeersText, Sound, PortNumber, Addressed, ReadsHttp, TellsPacked, TellsList, Shown,
         Bencode.Parse, A.Lookup, A.TellsPeers, Text.Ascii, A.Count, A.ElementAt;
    var peers := PeersRead(text, r, t, interval, chosen, ntop);
    var n := PeerIsChosen(r, t.peers, id, rows, chosen, ntop);
    HttpPeer(peers, r, chosen, n, ntop);
  }

  lemma {:induction false} PeersRead(text: seq<byte>, r: Request, t: Torrent, interval: u32, chosen: seq<Entry<Peer>>,
                                     ntop: Printer) returns (peers: Bencode.Value)
    requires Sound(chosen) && ReadsHttp(text, r, t, interval, chosen, ntop)
    ensures var p := Bencode.Parse(text);
      && p.Some? && p.value.value.Dict?
      && A.Lookup(p.value.value.fields, Text.Ascii(if r.ipVersion.first then "peers" else "peers6")) == Some(peers)
      && A.TellsPeers(r, peers, chosen, ntop)
    ensures |PeersText(r, chosen, ntop)| <= |text|
  {
    hide Sound, Bencode.Parse, A.Lookup, A.TellsPeers, Text.Ascii, PeersText;
    peers := A.Lookup(Bencode.Parse(text).value.value.fields,
                      Text.Ascii(if r.ipVersion.first then "peers" else "peers6")).value;
  }

  lemma {:induction false} HttpPeer(peers: Bencode.Value, r: Request, chosen: seq<Entry<Peer>>, n: nat, ntop: Printer)
    requires Sound(chosen) && n < |chosen| && A.TellsPeers(r, peers, chosen, ntop)
    ensures var p, v4 := chosen[n].data.value, r.ipVersion.first;
      && Addressed(p)
      && var address := Shown(v4, if v4 then p.ip4 else p.ip6);
      if r.compact then peers.Str? && TellsPacked(peers.s, 0, address, PortNumber(p))
      else peers.List? && TellsList(peers.elements, address, PortNumber(p), ntop)
  {
    hide PortNumber, Text.Ascii, A.Lookup, A.Count, A.ElementAt, PeerAt, A.HoldsPeer;
    if r.compact {
      PackedPeer(peers.s, r, n, chosen[n].data.value);
    } else {
      assert A.TellsPeer(r, A.ElementAt(peers.elements, n), chosen[n].hash, chosen[n].data.value, ntop);
    }
  }

  lemma {:induction false} PackedPeer(text: seq<byte>, r: Request, n: nat, p: Peer)
    requires Addressed(p) && A.HoldsPeer(r, text, n, p)
    ensures var v4 := r.ipVersion.first;
      PeerAt(text, 0, n, Shown(v4, if v4 then p.ip4 else p.ip6), PortNumber(p))
  {
    hide PortNumber;
  }

  // ---------------------------------------------------------------- two clients

  /** What one client has stored is still there after the announce of another. */
  lemma {:induction false} StillThere(s: State, u: State, w: State, h: Hash, id: Hash, event: int, ip: Hash,
                                      version: Bits, port: int, now: int, protocol: Bits, id2: Hash, event2: int,
                                      ip2: Hash, version2: Bits, port2: int, now2: int, protocol2: Bits)
    requires StepTaken(s, u, h, id, event, ip, version, port, now, protocol) && event != 3 && id != id2
    requires StepTaken(u, w, h, id2, event2, ip2, version2, port2, now2, protocol2)
    ensures id in TorrentIn(w, h).peers && StoredAs(TorrentIn(w, h).peers[id], event, ip, version, port, now, protocol)
  {
    hide StoredAs, Moved, Completed;
  }

  lemma {:induction false} SecondPeer(s: State, u: State, w: State, c: UdpRequest.Client, ip: Hash, now: int,
                                      d: UdpRequest.Client, ip2: Hash, now2: int, maxPeers: u32, text: seq<byte>,
                                      interval: u32, rows: seq<Entry<Peer>>, chosen: seq<Entry<Peer>>, ntop: Printer)
    requires |ip| == 16 && c.infoHash == d.infoHash && c.peerId != d.peerId && c.event % 256 != 3
    requires StepTaken(s, u, c.infoHash, c.peerId, c.event % 256, ip, VersionOf(ip), c.port % 65536, now,
                       Bits(false, true))
    requires StepTaken(u, w, d.infoHash, d.peerId, d.event % 256, ip2, VersionOf(ip2), d.port % 65536, now2,
                       Bits(false, true))
    requires var numwant := if d.numwant > maxPeers then maxPeers else d.numwant;
      var r, t := Request(true, false, false, VersionOf(ip2), numwant, d.transaction), TorrentIn(w, d.infoHash);
      && A.Listed(rows, t) && Sound(chosen) && Chosen(r, rows, chosen, ntop)
      && ReadsUdp(text, r, t, interval, chosen)
    requires VersionOf(ip) == VersionOf(ip2)
    ensures |text| >= 20
    ensures var numwant, v4 := if d.numwant > maxPeers then maxPeers else d.numwant, VersionOf(ip).first;
      !NoRoom(numwant, (|text| - 20) / (if v4 then 6 else 18), |text| - 20)
      ==> TellsPacked(text, 20, Shown(v4, ip), c.port % 65536)
  {
    hide StepTaken, ReadsUdp, Enumerates, Sound, Chosen, NoRoom, TellsPacked, Shown, TorrentIn;
    StillThere(s, u, w, c.infoHash, c.peerId, c.event % 256, ip, VersionOf(ip), c.port % 65536, now, Bits(false, true),
               d.peerId, d.event % 256, ip2, VersionOf(ip2), d.port % 65536, now2, Bits(false, true));
    var numwant := if d.numwant > maxPeers then maxPeers else d.numwant;
    var r, t := Request(true, false, false, VersionOf(ip2), numwant, d.transaction), TorrentIn(w, d.infoHash);
    UdpCount(text, r, t, interval, chosen, ntop);
    if !NoRoom(numwant, (|text| - 20) / (if VersionOf(ip).first then 6 else 18), |text| - 20) {
      UdpTells(text, r, t, c.peerId, interval, rows, chosen, ntop);
    }
  }

  lemma {:induction false} SecondReads(s: State, u: State, w: State, c: UdpRequest.Client, ip: Hash, now: int,
                                       d: UdpRequest.Client, ip2: Hash, now2: int, maxPeers: u32, text: seq<byte>,
                                       interval: u32, rows: seq<Entry<Peer>>, chosen: seq<Entry<Peer>>, ntop: Printer)
    requires |ip| == 16 && c.infoHash == d.infoHash && c.peerId != d.peerId && c.event % 256 != 3
    requires StepTaken(s, u, c.infoHash, c.peerId, c.event % 256, ip, VersionOf(ip), c.port % 65536, now,
                       Bits(false, true))
    requires StepTaken(u, w, d.infoHash, d.peerId, d.event % 256, ip2, VersionOf(ip2), d.port % 65536, now2,
                       Bits(false, true))
    requires var numwant := if d.numwant > maxPeers then maxPeers else d.numwant;
      var r, t := Request(true, false, false, VersionOf(ip2), numwant, d.transaction), TorrentIn(w, d.infoHash);
      && A.Listed(rows, t) && Sound(chosen) && Chosen(r, rows, chosen, ntop)
      && ReadsUdp(text, r, t, interval, chosen)
    requires |ip2| == 16 && (V4(ip) <==> V4(ip2))
    ensures |text| >= 20 && SecondTold(text, if d.numwant > maxPeers then maxPeers else d.numwant, ip, c.port % 65536)
  {
    hide StepTaken, ReadsUdp, A.Listed, Sound, Chosen, NoRoom, TellsPacked, Shown, TorrentIn, VersionOf;
    Versions(ip);
    Versions(ip2);
    SecondPeer(s, u, w, c, ip, now, d, ip2, now2, maxPeers, text, interval, rows, chosen, ntop);
    ShownIs(ip);
  }

  lemma {:induction false} ShownIs(ip: Hash)
    requires |ip| == 16
    ensures Shown(true, ip) == [ip[12], ip[13], ip[14], ip[15]] && Shown(false, ip) == ip
  {
  }

  predicate V4(ip: Hash) {
    |ip| == 16 && ip[..12] == [0, 0, 0, 0, 0, 0, 0, 0, 0, 0, 255, 255]
  }

  /** Unless there was no room, this answer tells of an address and a port: of a mapped one the last four bytes. */
  ghost predicate SecondTold(text: seq<byte>, numwant: u32, ip: Hash, port: int)
    requires |text| >= 20 && |ip| == 16
  {
    !NoRoom(numwant, (|text| - 20) / (if V4(ip) then 6 else 18), |text| - 20) ==>
      TellsPacked(text, 20, if V4(ip) then [ip[12], ip[13], ip[14], ip[15]] else ip, port)
  }

  lemma {:induction false} Versions(ip: Hash)
    requires |ip| == 16
    ensures VersionOf(ip).first <==> V4(ip)
    ensures VersionOf(ip).second <==> !VersionOf(ip).first
  {
  }

  /**
   * Two clients, one after the other, served by two workers over UDP and with the same version of IP: unless
   * its answer is full, the second reads the address and the port of the first, of an address mapped from
   * IPv4 the last four bytes.
   */
  method TwoClients(list: HashList.List<Record>, c: UdpRequest.Client, ip: Hash, d: UdpRequest.Client, ip2: Hash,
                    maxPeers: u32, now: int, now2: int, block: Block, announceBlock: Block, block2: Block,
                    announceBlock2: Block, interval: u32, ntop: Printer, alloc: HashList.Allocator, ghost s: State,
                    ghost world: set<object>)
    requires Holds(list, s, world) && alloc !in world && |ip| == 16 == |ip2| && Renderable(s)
    requires Buffers(block, announceBlock, world) && Buffers(block2, announceBlock2, world)
    requires {block as object, block.data, announceBlock, announceBlock.data}
             !! {block2 as object, block2.data, announceBlock2, announceBlock2.data}
    requires UdpRequest.WellFormed(c) && UdpRequest.WellFormed(d)
    requires c.infoHash == d.infoHash && c.peerId != d.peerId && c.event % 256 != 3
    requires V4(ip) <==> V4(ip2)
    modifies list.leaves, HashListOps.ItemSet(list), world, alloc, block, block.data, announceBlock, announceBlock.data,
             block2, block2.data, announceBlock2, announceBlock2.data
    ensures block2.Valid() && |block2.Contents()| >= 20
    ensures SecondTold(block2.Contents(), if d.numwant > maxPeers then maxPeers else d.numwant, ip, c.port % 65536)
  {
    hide Holds, Renderable, StepTaken, StoredAs, ReadsUdp, A.Listed, Sound, Chosen, VersionOf, NoRoom, TellsPacked,
         TorrentIn, V4, SecondTold;
    ListApart(list, block2);
    ListApart(list, announceBlock2);
    ghost var u, w, wider, rows, chosen;
    u, wider, rows, chosen := ExchangeUdp(list, c, [], ip, maxPeers, now, block, announceBlock, interval, ntop, alloc,
                                          s, world);
    w, wider, rows, chosen := ExchangeUdp(list, d, [], ip2, maxPeers, now2, block2, announceBlock2, interval, ntop,
                                          alloc, u, wider);
    SecondReads(s, u, w, c, ip, now, d, ip2, now2, maxPeers, block2.Contents(), interval, rows, chosen, ntop);
  }

  // ---------------------------------------------------------------- answers after whole runs

  /** After every run the peers of an answer are peers that announced over the client's version of IP. */
  lemma {:induction false} ChosenOverRuns(actions: seq<Action>, h: Hash, r: Request, rows: seq<Entry<Peer>>,
                                          chosen: seq<Entry<Peer>>, ntop: Printer, n: nat)
    requires forall i :: 0 <= i < |actions| ==> OneVersion(actions[i])
    requires h in Run(actions).0 && Enumerates(rows, Run(actions).0[h].peers)
    requires Chosen(r, rows, chosen, ntop) && n < |chosen| && r.ipVersion.first != r.ipVersion.second
    ensures chosen[n].data.Some? && AsAnnounced(chosen[n].data.value, actions, h, chosen[n].hash)
    ensures LastAnnounce(actions, h, chosen[n].hash, r.ipVersion).Some?
    ensures if r.ipVersion.first then chosen[n].data.value.ipVersion.first else chosen[n].data.value.ipVersion.second
  {
    hide Run, Enumerates, Chosen, LastAnnounce, Full;
    ChosenPeers(r, rows, Run(actions).0[h].peers, chosen, ntop);
    assert chosen[n] in chosen;
    PeersOverRuns(actions, h, chosen[n].hash);
  }

  /** Peer number `n` of a text is told with the address and the port of its last announces. */
  ghost predicate ToldAsAnnounced(text: seq<byte>, n: nat, actions: seq<Action>, h: Hash, id: Hash, version: Bits) {
    var last, over := LastAnnounce(actions, h, id, Bits(true, true)), LastAnnounce(actions, h, id, version);
    && last.Some? && last.value.AnnounceOf? && over.Some? && over.value.AnnounceOf? && |over.value.q.ip| == 16
    && var port := last.value.q.port;
    PeerAt(text, 20, n, Shown(version.first, over.value.q.ip), port % 256 * 256 + port / 256)
  }

  /**
   * After every run an answer over UDP tells of each peer the address of its last announce over the client's
   * version of IP and the port of its last announce.
   */
  lemma {:induction false} AnswerOverRuns(actions: seq<Action>, h: Hash, text: seq<byte>, r: Request, interval: u32,
                                          rows: seq<Entry<Peer>>, chosen: seq<Entry<Peer>>, ntop: Printer, n: nat)
    requires forall i :: 0 <= i < |actions| ==> OneVersion(actions[i])
    requires h in Run(actions).0 && Enumerates(rows, Run(actions).0[h].peers) && Sound(chosen)
    requires Chosen(r, rows, chosen, ntop) && n < |chosen| && r.ipVersion.first != r.ipVersion.second
    requires ReadsUdp(text, r, Run(actions).0[h], interval, chosen)
    ensures ToldAsAnnounced(text, n, actions, h, chosen[n].hash, r.ipVersion)
  {
    hide *;
    ChosenOverRuns(actions, h, r, rows, chosen, ntop, n);
    UdpPeer(text, r, Run(actions).0[h], interval, chosen, n);
    ToldOfLast(text, n, chosen[n].data.value, actions, h, chosen[n].hash, r.ipVersion);
  }

  lemma {:induction false} ToldOfLast(text: seq<byte>, n: nat, p: Peer, actions: seq<Action>, h: Hash, id: Hash,
                                      version: Bits)
    requires AsAnnounced(p, actions, h, id) && Addressed(p) && version.first != version.second
    requires if version.first then p.ipVersion.first else p.ipVersion.second
    requires PeerAt(text, 20, n, Shown(version.first, if version.first then p.ip4 else p.ip6), PortNumber(p))
    ensures ToldAsAnnounced(text, n, actions, h, id, version)
  {
    hide AsAnnounced, LastAnnounce, PeerAt, Shown, PortNumber;
    LastOver(p, actions, h, id, version);
  }

  lemma {:induction false} LastOver(p: Peer, actions: seq<Action>, h: Hash, id: Hash, version: Bits)
    requires AsAnnounced(p, actions, h, id) && Addressed(p) && version.first != version.second
    requires if version.first then p.ipVersion.first else p.ipVersion.second
    ensures var last, over := LastAnnounce(actions, h, id, Bits(true, true)), LastAnnounce(actions, h, id, version);
      && last.Some? && last.value.AnnounceOf? && over.Some? && over.value.AnnounceOf?
      && over.value.q.ip == (if version.first then p.ip4 else p.ip6) && |over.value.q.ip| == 16
      && PortNumber(p) == last.value.q.port % 256 * 256 + last.value.q.port / 256
  {
    hide LastAnnounce;
    assert version == if version.first then Bits(true, false) else Bits(false, true);
  }

  /** The torrent and the request determine the peers of an answer and their order. */
  lemma {:induction false} AnswerIsDetermined(t: Torrent, r: Request, rows: seq<Entry<Peer>>, chosen: seq<Entry<Peer>>,
                                              others: seq<Entry<Peer>>, picked: seq<Entry<Peer>>, ntop: Printer)
    requires A.Listed(rows, t) && Chosen(r, rows, chosen, ntop)
    requires A.Listed(others, t) && Chosen(r, others, picked, ntop)
    ensures rows == others && chosen == picked
  {
    hide A.Listed, Chosen;
    A.RowsAreDetermined(rows, others, t);
    ChosenIsUnique(r, rows, chosen, picked, ntop);
  }
}
