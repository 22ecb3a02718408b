/**
 * Whole announces, from the bytes of the request over the step of the tracker to what the client reads in
 * the answer (thread_client_tcp.c, thread_client_udp.c).
 */
module Exchange {
  import opened Bytes
  import opened HashOrder
  import opened Block
  import opened ByteOrder
  import opened Entries
  import opened Garbage
  import opened Render
  import opened Tracker
  import opened TorrentRecord
  import opened TrackerHeap
  import opened PeerLaws
  import A = Announce
  import Bencode
  import HashList
  import HashListOps
  import Text
  import TrackerLaws
  import UdpRequest
  import Uri
  import UriParser

  const TCP := Bits(true, false)
  const UDP := Bits(false, true)

  // ---------------------------------------------------------------- the step behind an announce

  /** A stop deletes the peer, any other event enters it. */
  function Served(s: State, q: Query, now: int, protocol: Bits): State {
    if q.event == STOPPED then Stop(s, q) else Announce(s, q, now, protocol)
  }

  function TorrentIn(s: State, h: Hash): Torrent {
    if h in s then s[h] else NEW_TORRENT
  }

  /**
   * What the announce of one client does to the tracker: event code 3 removes its peer and adds nobody; any
   * other stores the peer with this code, address and port and counts it, as completed exactly for code 1;
   * nobody else is touched.
   */
  ghost predicate StepTaken(s: State, u: State, h: Hash, id: Hash, event: int, ip: Hash, version: Bits, port: int,
                            now: int, protocol: Bits)
  {
    var was, t := TorrentIn(s, h), TorrentIn(u, h);
    && u.Keys == (if event == 3 then s.Keys else s.Keys + {h}) && (forall k :: k in s && k != h ==> u[k] == s[k])
    && t.peers.Keys == (if event == 3 then was.peers.Keys - {id} else was.peers.Keys + {id})
    && (forall k :: k in was.peers && k != id ==> t.peers[k] == was.peers[k])
    && (event != 3 ==> StoredAs(t.peers[id], event, ip, version, port, now, protocol))
    && (id in Completed(t.peers) <==> event == 1)
    && Moved(was, t, id in was.peers, CodeIn(was, id), event)
  }

  /** The peer of an announce: its address is kept under its version, the port is read in network order. */
  ghost predicate StoredAs(p: Peer, event: int, ip: Hash, version: Bits, port: int, now: int, protocol: Bits) {
    && Addressed(p) && p.event == event && p.updateTime == now && PortNumber(p) == port
    && (if version.first then p.ip4 == ip else p.ip6 == ip)
    && (version.first ==> p.ipVersion.first) && (version.second ==> p.ipVersion.second)
    && (protocol.first ==> p.protocol.first) && (protocol.second ==> p.protocol.second)
  }

  lemma {:induction false} ServedTakesStep(s: State, q: Query, now: int, protocol: Bits, port: int)
    requires Renderable(s) && Proper(q) && port == q.port % 256 * 256 + q.port / 256
    ensures StepTaken(s, Served(s, q, now, protocol), q.infoHash, q.peerId, q.event, q.ip, q.ipVersion, port, now,
                      protocol)
  {
    hide Announce, Stop, Moved, CodeIn, Addressed;
    ServedRenderable(s, q, now, protocol);
    if q.event == 3 {
      StopRemoves(s, q);
      if q.infoHash in s {
        StopMoves(s, q);
      } else {
        NothingMoves(q.peerId);
      }
    } else {
      AnnounceStores(s, q, now, protocol);
      AnnounceMoves(s, q, now, protocol);
    }
  }

  lemma {:induction false} NothingMoves(id: Hash)
    ensures Moved(NEW_TORRENT, NEW_TORRENT, false, CodeIn(NEW_TORRENT, id), 3)
  {
  }

  /** The hashes have 20 bytes, the address has 16, and the port is a 16-bit number. */
  predicate Proper(q: Query) {
    |q.infoHash| == HASH_LENGTH == |q.peerId| && |q.ip| == 16 && 0 <= q.port < 65536
  }

  /** Every stored peer can be rendered. */
  ghost predicate Renderable(s: State) {
    forall h, id :: h in s && id in s[h].peers ==> Addressed(s[h].peers[id])
  }

  lemma {:induction false} ServedRenderable(s: State, q: Query, now: int, protocol: Bits)
    requires Renderable(s) && Proper(q)
    ensures Renderable(Served(s, q, now, protocol))
  {
    hide Announce, Stop, Addressed;
    var a := if q.event == STOPPED then StopOf(q) else AnnounceOf(q, now, protocol);
    assert Step(s, a) == Served(s, q, now, protocol);
    forall h, id | h in Step(s, a) && id in Step(s, a)[h].peers ensures Addressed(Step(s, a)[h].peers[id]) {
      A.StepAddressed(s, a, h, id);
    }
  }

  lemma {:induction false} TorrentRenderable(s: State, h: Hash)
    requires Renderable(s)
    ensures forall id :: id in TorrentIn(s, h).peers ==> Addressed(TorrentIn(s, h).peers[id])
  {
  }

  /** `deletePeerPublic` or `setPeerPublic`. */
  method Apply(list: HashList.List<Record>, q: Query, now: int, protocol: Bits, alloc: HashList.Allocator,
               ghost s: State, ghost world: set<object>)
    returns (torrent: HashList.Item?<Record>, ghost wider: set<object>)
    requires Holds(list, s, world) && alloc !in world && Proper(q)
    modifies list.leaves, HashListOps.ItemSet(list), world, alloc
    ensures Holds(list, Served(s, q, now, protocol), wider) && world <= wider && fresh(wider - world)
    ensures fresh(HashListOps.ItemSet(list) - old(HashListOps.ItemSet(list)))
    ensures Found(list, torrent, q.infoHash)
    ensures torrent == null <==> q.infoHash !in Served(s, q, now, protocol)
  {
    hide Holds, ToMap, HashListOps.Value, HashListOps.Valid, SetPeer, DeletePeer;
    if q.event == STOPPED {
      torrent, wider := DeletePeerPublic(list, q, alloc, s, world);
    } else {
      torrent, wider := SetPeerPublic(list, q, now, protocol, alloc, s, world);
    }
    HoldsMeans(list, Served(s, q, now, protocol), wider);
    KnownAfter(s, q, now, protocol);
  }

  lemma {:induction false} KnownAfter(s: State, q: Query, now: int, protocol: Bits)
    ensures q.infoHash in Served(s, q, now, protocol) <==> q.infoHash in s || q.event != STOPPED
  {
  }

  /** `torrent` is the item of the hash, or there is none. */
  ghost predicate Found(list: HashList.List<Record>, torrent: HashList.Item?<Record>, h: Hash)
    reads list.leaves, HashListOps.ItemSet(list), torrent
  {
    && HashListOps.Valid(list)
    && (torrent != null ==> h in ToMap(HashListOps.Value(list)) && torrent.data == ToMap(HashListOps.Value(list))[h])
  }

  /** The two blocks of a worker, apart from the torrents. */
  ghost predicate Buffers(block: Block, announceBlock: Block, world: set<object>)
    reads block, block.data, announceBlock, announceBlock.data
  {
    && block != announceBlock && block.data != announceBlock.data
    && block.Valid() && block.peak < WORD / 64 && announceBlock.Valid() && announceBlock.peak < WORD / 16
    && {block as object, block.data, announceBlock, announceBlock.data} !! world
  }

  lemma {:induction false} RecordOfFound(list: HashList.List<Record>, torrent: HashList.Item?<Record>, h: Hash,
                                         s: State, world: set<object>)
    requires Holds(list, s, world) && Found(list, torrent, h) && (torrent == null <==> h !in s)
    ensures torrent != null ==> torrent.data.Some? && Stands(torrent.data.value, TorrentIn(s, h))
    ensures torrent == null ==> TorrentIn(s, h) == NEW_TORRENT
  {
    hide ToMap, HashListOps.Valid, HashListOps.Value, Standing, Stands;
    HoldsMeans(list, s, world);
    if torrent != null {
      StandingAt(ToMap(HashListOps.Value(list)), s, h, world);
    }
  }

  lemma {:induction false} ListApart(list: HashList.List<Record>, block: Block)
    ensures forall l :: l in list.leaves ==> (l as object) != block && (l as object) != block.data
    ensures forall i :: i in HashListOps.ItemSet(list) ==> (i as object) != block && (i as object) != block.data
  {
  }

  /** The answer for the torrent as it now stands; the list does not notice. */
  method Answer(list: HashList.List<Record>, torrent: HashList.Item?<Record>, h: Hash, block: Block,
                announceBlock: Block, q: Request, interval: u32, ntop: Printer, ghost s: State,
                ghost world: set<object>)
    returns (ghost rows: seq<Entry<Peer>>, ghost chosen: seq<Entry<Peer>>)
    requires Holds(list, s, world) && Found(list, torrent, h) && (torrent == null <==> h !in s) && Renderable(s)
    requires Buffers(block, announceBlock, world) && |q.transaction| == 4
    modifies block, block.data, announceBlock, announceBlock.data
    ensures Holds(list, s, world) && block.Valid()
    ensures A.Listed(rows, TorrentIn(s, h)) && Sound(chosen) && Chosen(q, rows, chosen, ntop)
    ensures block.Contents()
         == old(block.Contents()) + A.AnnounceText(q, CountersOf(TorrentIn(s, h)), interval, chosen, ntop)
  {
    hide Holds, Found, Renderable, Stands, ToMap, Addressed, Sound, Chosen, A.Listed, A.AnnounceText, TorrentIn,
         CountersOf;
    ListApart(list, block);
    ListApart(list, announceBlock);
    RecordOfFound(list, torrent, h, s, world);
    TorrentRenderable(s, h);
    var r := if torrent == null then null else torrent.data.value;
    rows, chosen := A.RenderAnnounce(block, announceBlock, r, q, interval, ntop, TorrentIn(s, h));
  }

  /** An announce or a stop on the torrents, and its answer. */
  method Serve(list: HashList.List<Record>, q: Query, now: int, protocol: Bits, block: Block, announceBlock: Block,
               r: Request, interval: u32, ntop: Printer, alloc: HashList.Allocator, ghost s: State,
               ghost world: set<object>)
    returns (ghost wider: set<object>, ghost rows: seq<Entry<Peer>>, ghost chosen: seq<Entry<Peer>>)
    requires Holds(list, s, world) && alloc !in world && Proper(q) && Renderable(s)
    requires Buffers(block, announceBlock, world) && |r.transaction| == 4
    modifies list.leaves, HashListOps.ItemSet(list), world, alloc, block, block.data, announceBlock, announceBlock.data
    ensures Holds(list, Served(s, q, now, protocol), wider) && world <= wider && fresh(wider - world)
    ensures fresh(HashListOps.ItemSet(list) - old(HashListOps.ItemSet(list)))
    ensures Renderable(Served(s, q, now, protocol)) && block.Valid()
    ensures A.Listed(rows, TorrentIn(Served(s, q, now, protocol), q.infoHash))
    ensures Sound(chosen) && Chosen(r, rows, chosen, ntop)
    ensures block.Contents() == old(block.Contents())
              + A.AnnounceText(r, CountersOf(TorrentIn(Served(s, q, now, protocol), q.infoHash)), interval, chosen,
                ntop)
  {
    hide Holds, Found, Served, Renderable, Addressed, Sound, Chosen, A.Listed, A.AnnounceText, TorrentIn, CountersOf;
    ListApart(list, block);
    ListApart(list, announceBlock);
    ServedRenderable(s, q, now, protocol);
    var torrent;
    torrent, wider := Apply(list, q, now, protocol, alloc, s, world);
    rows, chosen := Answer(list, torrent, q.infoHash, block, announceBlock, r, interval, ntop,
                           Served(s, q, now, protocol), wider);
  }

  // ---------------------------------------------------------------- over UDP

  /** A port of two bytes in memory, as a little-endian host reads it. */
  function PortOf(port: seq<byte>): int {
    if |port| == 2 then (port[0] as int) + 256 * (port[1] as int) else 0
  }

  lemma {:induction false} PortInRange(port: seq<byte>)
    ensures 0 <= PortOf(port) < 65536
  {
  }

  /** The query that the worker makes of an announce packet and of the sender's address. */
  function UdpQuery(p: UdpRequest.Packet, ip: Hash, ipVersion: Bits): Query
    requires p.Announce?
  {
    Query(p.infoHash, p.peerId, p.event, PortOf(p.port), ip, ipVersion)
  }

  function UdpRequestOf(p: UdpRequest.Packet, ipVersion: Bits): Request
    requires p.Announce?
  {
    Request(true, false, false, ipVersion, p.numwant, p.transaction)
  }

  /** The announce branch of a worker over UDP; `answered` says that the packet is an announce. */
  method AnswerPacket(list: HashList.List<Record>, packet: seq<byte>, ip: Hash, ipVersion: Bits, maxPeers: u32,
                      now: int, block: Block, announceBlock: Block, interval: u32, ntop: Printer,
                      alloc: HashList.Allocator, ghost s: State, ghost world: set<object>)
    returns (answered: bool, ghost wider: set<object>, ghost rows: seq<Entry<Peer>>, ghost chosen: seq<Entry<Peer>>)
    requires Holds(list, s, world) && alloc !in world && |ip| == 16 && Renderable(s)
    requires Buffers(block, announceBlock, world)
    modifies list.leaves, HashListOps.ItemSet(list), world, alloc, block, block.data, announceBlock, announceBlock.data
    ensures answered <==> UdpRequest.Dispatch(packet, maxPeers).Announce?
    ensures !answered ==> Holds(list, s, world) && wider == world
    ensures world <= wider && fresh(wider - world)
    ensures fresh(HashListOps.ItemSet(list) - old(HashListOps.ItemSet(list)))
    ensures answered ==>
      var p := UdpRequest.Dispatch(packet, maxPeers);
      var q, r := UdpQuery(p, ip, ipVersion), UdpRequestOf(p, ipVersion);
      var now := Served(s, q, now, UDP);
      && Holds(list, now, wider) && Renderable(now) && block.Valid() && |p.transaction| == 4
      && A.Listed(rows, TorrentIn(now, q.infoHash)) && Sound(chosen) && Chosen(r, rows, chosen, ntop)
      && block.Contents() == A.AnnounceText(r, CountersOf(TorrentIn(now, q.infoHash)), interval, chosen, ntop)
  {
    hide Holds, Served, Renderable, Addressed, Sound, Chosen, A.Listed, A.AnnounceText, TorrentIn, CountersOf,
         UdpRequest.Dispatch;
    var p := UdpRequest.Dispatch(packet, maxPeers);
    answered, wider, rows, chosen := p.Announce?, world, [], [];
    if answered {
      PacketSizes(packet, maxPeers);
      PortInRange(p.port);
      wider, rows, chosen := ServeAfresh(list, UdpQuery(p, ip, ipVersion), now, UDP, block, announceBlock,
                                         UdpRequestOf(p, ipVersion), interval, ntop, alloc, s, world);
    }
  }

  lemma {:induction false} PacketSizes(packet: seq<byte>, maxPeers: u32)
    ensures var p := UdpRequest.Dispatch(packet, maxPeers);
      p.Announce? ==> |p.transaction| == 4 && |p.infoHash| == HASH_LENGTH == |p.peerId| && |p.port| == 2
  {
    hide UdpRequest.Word;
  }

  /** The answer in an emptied block. */
  method ServeAfresh(list: HashList.List<Record>, q: Query, now: int, protocol: Bits, block: Block,
                     announceBlock: Block, r: Request, interval: u32, ntop: Printer, alloc: HashList.Allocator,
                     ghost s: State, ghost world: set<object>)
    returns (ghost wider: set<object>, ghost rows: seq<Entry<Peer>>, ghost chosen: seq<Entry<Peer>>)
    requires Holds(list, s, world) && alloc !in world && Proper(q) && Renderable(s)
    requires Buffers(block, announceBlock, world) && |r.transaction| == 4
    modifies list.leaves, HashListOps.ItemSet(list), world, alloc, block, block.data, announceBlock, announceBlock.data
    ensures Holds(list, Served(s, q, now, protocol), wider) && world <= wider && fresh(wider - world)
    ensures fresh(HashListOps.ItemSet(list) - old(HashListOps.ItemSet(list)))
    ensures Renderable(Served(s, q, now, protocol)) && block.Valid()
    ensures A.Listed(rows, TorrentIn(Served(s, q, now, protocol), q.infoHash))
    ensures Sound(chosen) && Chosen(r, rows, chosen, ntop)
    ensures block.Contents()
         == A.AnnounceText(r, CountersOf(TorrentIn(Served(s, q, now, protocol), q.infoHash)), interval, chosen, ntop)
  {
    hide Holds, Served, Renderable, Addressed, Sound, Chosen, A.Listed, A.AnnounceText, TorrentIn, CountersOf;
    ListApart(list, block);
    block.Reset();
    wider, rows, chosen := Serve(list, q, now, protocol, block, announceBlock, r, interval, ntop, alloc, s, world);
    ghost var text := A.AnnounceText(r, CountersOf(TorrentIn(Served(s, q, now, protocol), q.infoHash)), interval,
      chosen, ntop);
    assert [] + text == text;
  }

  /** What a client of BEP 15 reads: the counters of the torrent, and every chosen peer at its offset. */
  ghost predicate ReadsUdp(text: seq<byte>, r: Request, t: Torrent, interval: u32, chosen: seq<Entry<Peer>>)
    requires Sound(chosen)
  {
    && 20 <= |text| == 20 + (if r.ipVersion.first then 6 else 18) * |chosen| <= 65527
    && Rank(text[0..4]) == 1 && text[4..8] == r.transaction && Rank(text[8..12]) == interval
    && Rank(text[12..16]) == t.incomplete && Rank(text[16..20]) == t.complete
    && forall n :: 0 <= n < |chosen| ==> A.HoldsPeer(r, text[20..], n, chosen[n].data.value)
  }

  lemma {:induction false} AnswerReadsUdp(r: Request, t: Torrent, interval: u32, rows: seq<Entry<Peer>>,
                                          chosen: seq<Entry<Peer>>, ntop: Printer)
    requires r.udp && |r.transaction| == 4 && Sound(chosen) && Chosen(r, rows, chosen, ntop)
    ensures ReadsUdp(A.AnnounceText(r, CountersOf(t), interval, chosen, ntop), r, t, interval, chosen)
  {
    hide A.AnnounceText, Chosen, Rank, PeersText, Addressed, A.HoldsPeer;
    A.UdpReads(r, CountersOf(t), interval, chosen, ntop);
    A.UdpSize(r, CountersOf(t), interval, rows, chosen, ntop);
    forall n | 0 <= n < |chosen| ensures A.HoldsPeer(r, PeersText(r, chosen, ntop), n, chosen[n].data.value) {
      A.CompactReads(r, chosen, n, chosen[n].data.value, ntop);
    }
  }

  /** `getIpVersion`: an address that is mapped from IPv4, or any other. */
  function VersionOf(ip: Hash): Bits {
    var mapped := |ip| == 16 && ip[..12] == [0, 0, 0, 0, 0, 0, 0, 0, 0, 0, 255, 255];
    Bits(mapped, !mapped)
  }

  /** The query behind the announce of a client. */
  function ClientQuery(c: UdpRequest.Client, ip: Hash): Query {
    Query(c.infoHash, c.peerId, c.event % 256, PortOf(Octets(c.port, 2)), ip, VersionOf(ip))
  }

  lemma {:induction false} ClientStep(s: State, c: UdpRequest.Client, ip: Hash, now: int)
    requires Renderable(s) && UdpRequest.WellFormed(c) && |ip| == 16
    ensures StepTaken(s, Served(s, ClientQuery(c, ip), now, UDP), c.infoHash, c.peerId, c.event % 256, ip,
                      VersionOf(ip), c.port % 65536, now, Bits(false, true))
  {
    hide Renderable, Served, StepTaken, VersionOf, PortOf, Octets;
    PortStored(c.port);
    ServedTakesStep(s, ClientQuery(c, ip), now, UDP, c.port % 65536);
  }

  /** A port is stored as its two bytes in network order. */
  lemma {:induction false} PortStored(x: nat)
    ensures var port := PortOf(Octets(x, 2)); port % 256 * 256 + port / 256 == x % 65536 && 0 <= port < 65536
  {
    var high, low := x / 256, x % 256;
    assert Octets(high, 1) == Octets(high / 256, 0) + [high % 256];
    LowBytes(high / 256, high % 256, low);
  }

  lemma {:induction false} LowBytes(rest: nat, high: byte, low: byte)
    ensures (rest * 65536 + high * 256 + low) % 65536 == high * 256 + low
    ensures (high + 256 * low) % 256 == high && (high + 256 * low) / 256 == low
  {
  }

  /**
   * One exchange over UDP: whatever a client of BEP 15 announces, the tracker takes the step of its event, and
   * the client reads the interval, the counters after that step and the chosen ones among the peers after it.
   */
  method ExchangeUdp(list: HashList.List<Record>, c: UdpRequest.Client, extra: seq<byte>, ip: Hash, maxPeers: u32,
                     now: int, block: Block, announceBlock: Block, interval: u32, ntop: Printer,
                     alloc: HashList.Allocator, ghost s: State, ghost world: set<object>)
    returns (ghost after: State, ghost wider: set<object>, ghost rows: seq<Entry<Peer>>, ghost chosen: seq<Entry<Peer>>)
    requires Holds(list, s, world) && alloc !in world && |ip| == 16 && Renderable(s)
    requires Buffers(block, announceBlock, world)
    requires UdpRequest.WellFormed(c)
    modifies list.leaves, HashListOps.ItemSet(list), world, alloc, block, block.data, announceBlock, announceBlock.data
    ensures StepTaken(s, after, c.infoHash, c.peerId, c.event % 256, ip, VersionOf(ip), c.port % 65536, now,
                      Bits(false, true))
    ensures Holds(list, after, wider) && world <= wider && fresh(wider - world)
    ensures fresh(HashListOps.ItemSet(list) - old(HashListOps.ItemSet(list)))
    ensures Renderable(after) && block.Valid()
    ensures var numwant := if c.numwant > maxPeers then maxPeers else c.numwant;
      var r, t := Request(true, false, false, VersionOf(ip), numwant, c.transaction), TorrentIn(after, c.infoHash);
      && A.Listed(rows, t) && Sound(chosen) && Chosen(r, rows, chosen, ntop)
      && ReadsUdp(block.Contents(), r, t, interval, chosen)
  {
    hide Holds, Served, Renderable, Addressed, Sound, Chosen, A.Listed, A.AnnounceText, TorrentIn, CountersOf,
         ReadsUdp, UdpRequest.Dispatch, UdpRequest.AnnounceBytes, UdpRequest.WellFormed, Octets, PortOf, StepTaken,
         VersionOf;
    UdpRequest.AnnounceIsRead(c, extra, maxPeers);
    ClientStep(s, c, ip, now);
    after := Served(s, ClientQuery(c, ip), now, UDP);
    var answered;
    answered, wider, rows, chosen :=
      AnswerPacket(list, UdpRequest.AnnounceBytes(c) + extra, ip, VersionOf(ip), maxPeers, now, block, announceBlock,
                   interval, ntop, alloc, s, world);
    ghost var numwant := if c.numwant > maxPeers then maxPeers else c.numwant;
    AnswerReadsUdp(Request(true, false, false, VersionOf(ip), numwant, c.transaction), TorrentIn(after, c.infoHash),
                   interval, rows, chosen, ntop);
  }

  /** A port comes back to other clients as it was sent. */
  lemma {:induction false} PortComesBack(p: Peer, port: nat)
    requires Addressed(p) && port < 65536 && p.port == PortOf(Octets(port, 2))
    ensures PortNumber(p) == port
  {
    assert Octets(port / 256, 1) == Octets(0, 0) + [port / 256];
    assert Octets(port, 2) == [port / 256, port % 256];
  }

  // ---------------------------------------------------------------- over HTTP

  const NO_HASH: Hash := [0, 0, 0, 0, 0, 0, 0, 0, 0, 0, 0, 0, 0, 0, 0, 0, 0, 0, 0, 0]

  /** The query before its parameters are read: STARTED, 50 peers, compact. */
  const DEFAULTS := UriParser.Fields(false, NO_HASH, STARTED, [0, 0], NO_HASH, true, false, 50, 0, 0, 0, 0)

  /** What the parameters of a message make of it. */
  function FieldsOf(message: seq<byte>): UriParser.Fields {
    UriParser.AppliedAll(DEFAULTS, Uri.Run(Uri.START, Uri.Line(message)).calls)
  }

  lemma {:induction false} FieldsSized(message: seq<byte>)
    ensures UriParser.Sized(FieldsOf(message))
  {
    hide Uri.Run, UriParser.AppliedAll, Uri.Line;
    UriParser.RunFilled(Uri.START, Uri.Line(message));
    UriParser.AppliedSized(DEFAULTS, Uri.Run(Uri.START, Uri.Line(message)).calls);
  }

  function HttpQuery(f: UriParser.Fields, ip: Hash, ipVersion: Bits): Query {
    Query(f.infoHash, f.peerId, f.event, PortOf(f.port), ip, ipVersion)
  }

  function HttpRequest(f: UriParser.Fields, maxPeers: u32, ipVersion: Bits): Request {
    Request(false, f.compact, f.noPeerId, ipVersion, if f.numwant > maxPeers then maxPeers else f.numwant, [0, 0, 0, 0])
  }

  /** What the names and numbers of a request stand for, by the last value of each parameter. */
  ghost predicate Parameters(f: UriParser.Fields, calls: seq<Uri.Call>) {
    var infoHash, peerId, compact := Said(calls, "info_hash"), Said(calls, "peer_id"), Said(calls, "compact");
    var event, port, numwant := Said(calls, "event"), Said(calls, "port"), Said(calls, "numwant");
    && (f.hasInfoHash <==> infoHash.Some?) && (infoHash.Some? ==> f.infoHash == infoHash.value)
    && (peerId.Some? ==> f.peerId == peerId.value)
    && f.event == (if event.None? then 2 else CodeOf(Text.CString(event.value)))
    && (port.None? ==> f.port == [0, 0]) && (numwant.None? ==> f.numwant == 50)
    && (forall n: nat :: port.Some? && Text.CString(port.value) == Bencode.Decimal(n) && n < 65536 ==>
          PortOf(f.port) % 256 * 256 + PortOf(f.port) / 256 == n)
    && (forall n: nat :: numwant.Some? && Text.CString(numwant.value) == Bencode.Decimal(n) && n < WORD ==>
          f.numwant == n)
    && (compact.None? ==> f.compact)
    && (forall n: nat :: compact.Some? && Text.CString(compact.value) == Bencode.Decimal(n) ==>
          f.compact == (n != 0))
    && (f.noPeerId <==> Said(calls, "no_peer_id").Some?)
  }

  function Said(calls: seq<Uri.Call>, name: string): Option<seq<byte>> {
    UriParser.LastValue(calls, Text.Ascii(name))
  }

  /** The event codes of the names; 5 is none of them. */
  function CodeOf(name: seq<byte>): int {
    if name == Text.Ascii("completed") then 1
    else if name == Text.Ascii("started") then 2
    else if name == Text.Ascii("stopped") then 3
    else if name == Text.Ascii("paused") then 4
    else 5
  }

  lemma {:induction false} ParametersRead(calls: seq<Uri.Call>)
    ensures Parameters(UriParser.ReadAll(DEFAULTS, calls), calls)
  {
    hide Text.Ascii, Text.CString, Text.Atoi, UriParser.LastValue, Bencode.Decimal, PortOf, CodeOf, UriParser.EventCode,
         UriParser.PortRead, UriParser.NumberRead;
    forall v ensures UriParser.EventCode(v) == CodeOf(Text.CString(v)) {
      CodesAgree(v);
    }
    forall v, n: nat | Text.CString(v) == Bencode.Decimal(n)
      ensures Text.Atoi(v) == n && (n < WORD ==> UriParser.NumberRead(v) == n)
      ensures n < 65536 ==> PortOf(UriParser.PortRead(v)) % 256 * 256 + PortOf(UriParser.PortRead(v)) / 256 == n
    {
      DecimalIsRead(v, n);
      NumbersAgree(v, n);
    }
  }

  lemma {:induction false} CodesAgree(v: seq<byte>)
    ensures UriParser.EventCode(v) == CodeOf(Text.CString(v))
  {
    hide Text.Ascii, Text.CString;
  }

  lemma {:induction false} NumbersAgree(v: seq<byte>, n: nat)
    requires Text.Atoi(v) == n
    ensures n < WORD ==> UriParser.NumberRead(v) == n
    ensures n < 65536 ==> PortOf(UriParser.PortRead(v)) % 256 * 256 + PortOf(UriParser.PortRead(v)) / 256 == n
  {
    hide Text.Atoi;
    if n < 65536 {
      LowBytes(0, n / 256, n % 256);
    }
  }

  // ---------------------------------------------------------------- decimal numbers

  lemma {:induction false} DigitsAdd(s: seq<byte>, d: byte, sum: nat)
    requires Bencode.AllDigits(s) && Bencode.IsDigit(d)
    ensures Text.Digits(s + [d], 10, sum) == Text.Digits(s, 10, sum) * 10 + (d - 48)
  {
    if s == [] {
      assert s + [d] == [d];
    } else {
      assert (s + [d])[1..] == s[1..] + [d];
      DigitsAdd(s[1..], d, sum * 10 + Text.DigitValue(s[0]));
    }
  }

  lemma {:induction false} DecimalDigitsRead(n: nat)
    ensures Bencode.AllDigits(Bencode.Decimal(n)) && Text.Digits(Bencode.Decimal(n), 10, 0) == n
  {
    if n >= 10 {
      DecimalDigitsRead(n / 10);
      DigitsAdd(Bencode.Decimal(n / 10), 48 + n % 10, 0);
    }
  }

  /** `atoi` reads the decimal digits of a number as that number. */
  lemma {:induction false} DecimalIsRead(v: seq<byte>, n: nat)
    requires Text.CString(v) == Bencode.Decimal(n)
    ensures Text.Atoi(v) == n
  {
    hide Text.CString, Text.Digits, Bencode.Decimal;
    DecimalDigitsRead(n);
    assert Bencode.IsDigit(Bencode.Decimal(n)[0]);
  }

  datatype HttpOutcome = MissingHash | MissingPort | Answered

  function OutcomeOf(f: UriParser.Fields): HttpOutcome {
    if !f.hasInfoHash then MissingHash else if PortOf(f.port) == 0 then MissingPort else Answered
  }

  /** `parseUri` on the query of an announce. */
  method ReadFields(message: seq<byte>) returns (f: UriParser.Fields)
    requires |message| < WORD / 1024
    ensures f == FieldsOf(message)
  {
    hide Uri.Run, UriParser.AppliedAll, Uri.Line;
    var query := new UriParser.Query(DEFAULTS);
    UriParser.ParseUri(query, null, message);
    f := query.fields;
  }

  /** The announce branch of a worker over HTTP; the two refusals leave everything as it is. */
  method AnswerMessage(list: HashList.List<Record>, message: seq<byte>, ip: Hash, ipVersion: Bits, maxPeers: u32,
                       now: int, block: Block, announceBlock: Block, interval: u32, ntop: Printer,
                       alloc: HashList.Allocator, ghost s: State, ghost world: set<object>)
    returns (outcome: HttpOutcome, ghost wider: set<object>, ghost rows: seq<Entry<Peer>>,
             ghost chosen: seq<Entry<Peer>>)
    requires Holds(list, s, world) && alloc !in world && |ip| == 16 && Renderable(s)
    requires Buffers(block, announceBlock, world)
    requires |message| < WORD / 1024
    modifies list.leaves, HashListOps.ItemSet(list), world, alloc, block, block.data, announceBlock, announceBlock.data
    ensures outcome == OutcomeOf(FieldsOf(message))
    ensures outcome != Answered ==> Holds(list, s, world) && wider == world
    ensures world <= wider && fresh(wider - world)
    ensures fresh(HashListOps.ItemSet(list) - old(HashListOps.ItemSet(list)))
    ensures outcome == Answered ==>
      var q, r := HttpQuery(FieldsOf(message), ip, ipVersion), HttpRequest(FieldsOf(message), maxPeers, ipVersion);
      var after := Served(s, q, now, TCP);
      && Holds(list, after, wider) && Renderable(after) && block.Valid()
      && A.Listed(rows, TorrentIn(after, q.infoHash)) && Sound(chosen) && Chosen(r, rows, chosen, ntop)
      && block.Contents() == A.AnnounceText(r, CountersOf(TorrentIn(after, q.infoHash)), interval, chosen, ntop)
  {
    hide Holds, Served, Renderable, Addressed, Sound, Chosen, A.Listed, A.AnnounceText, TorrentIn, CountersOf,
         FieldsOf;
    ListApart(list, block);
    ListApart(list, announceBlock);
    FieldsSized(message);
    var f := ReadFields(message);
    wider, rows, chosen := world, [], [];
    if !f.hasInfoHash {
      return MissingHash, wider, rows, chosen;
    }
    if PortOf(f.port) == 0 {
      return MissingPort, wider, rows, chosen;
    }
    outcome := Answered;
    PortInRange(f.port);
    wider, rows, chosen := ServeAfresh(list, HttpQuery(f, ip, ipVersion), now, TCP, block, announceBlock,
                                       HttpRequest(f, maxPeers, ipVersion), interval, ntop, alloc, s, world);
  }

  /** What a client reads of a bencoded answer: `%d` prints numbers from 2^31 on as negative ones. */
  ghost predicate ReadsHttp(text: seq<byte>, r: Request, t: Torrent, interval: u32, chosen: seq<Entry<Peer>>,
                            ntop: Printer)
    requires Sound(chosen)
  {
    var p := Bencode.Parse(text);
    && p.Some? && p.value.rest == [] && p.value.value.Dict? && |PeersText(r, chosen, ntop)| <= |text|
    && var f := p.value.value.fields;
    && A.Lookup(f, Text.Ascii("complete"))
       == Some(Bencode.Int(if t.complete < 0x8000_0000 then t.complete else t.complete - 0x1_0000_0000))
    && A.Lookup(f, Text.Ascii("incomplete"))
       == Some(Bencode.Int(if t.incomplete < 0x8000_0000 then t.incomplete else t.incomplete - 0x1_0000_0000))
    && A.Lookup(f, Text.Ascii("downloaded"))
       == Some(Bencode.Int(if t.downloaded < 0x8000_0000 then t.downloaded else t.downloaded - 0x1_0000_0000))
    && A.Lookup(f, Text.Ascii("interval"))
       == Some(Bencode.Int(if interval < 0x8000_0000 then interval else interval - 0x1_0000_0000))
    && var peers := A.Lookup(f, Text.Ascii(if r.ipVersion.first then "peers" else "peers6"));
    && peers.Some? && A.TellsPeers(r, peers.value, chosen, ntop)
  }

  lemma {:induction false} AnswerReadsHttp(r: Request, t: Torrent, interval: u32, chosen: seq<Entry<Peer>>,
                                           ntop: Printer)
    requires !r.udp && Sound(chosen)
    ensures ReadsHttp(A.AnnounceText(r, CountersOf(t), interval, chosen, ntop), r, t, interval, chosen, ntop)
  {
    hide A.AnnounceText, Bencode.Parse, A.Lookup, A.PeersValue, Text.Ascii, Sound, A.TellsPeers, PeersText, A.Signed;
    SignedIs(t.complete);
    SignedIs(t.incomplete);
    SignedIs(t.downloaded);
    SignedIs(interval);
    A.AnnounceReads(r, CountersOf(t), interval, chosen, ntop);
    A.PeersTold(r, chosen, ntop);
    PeersInText(r, CountersOf(t), interval, chosen, ntop);
  }

  lemma {:induction false} SignedIs(x: u32)
    ensures A.Signed(x) == if x < 0x8000_0000 then x else x - 0x1_0000_0000
  {
  }

  lemma {:induction false} PeersInText(r: Request, c: Counters, interval: u32, chosen: seq<Entry<Peer>>, ntop: Printer)
    requires !r.udp && Sound(chosen)
    ensures |PeersText(r, chosen, ntop)| <= |A.AnnounceText(r, c, interval, chosen, ntop)|
  {
    hide A.AnnounceText, PeersText, A.HeadText, Bencode.Decimal, Text.Ascii, Sound;
    A.HttpPieces(r, c, interval, chosen, ntop, []);
    assert [] + A.AnnounceText(r, c, interval, chosen, ntop) == A.AnnounceText(r, c, interval, chosen, ntop);
  }

  /**
   * One exchange over HTTP: for a path and a query in any mix of plain and encoded bytes the fields are read
   * from the last value of each parameter; with a hash and a port the tracker takes the step of the event, and
   * the client reads the dictionary with the counters after that step and the chosen ones among its peers.
   */
  method ExchangeHttp(list: HashList.List<Record>, path: seq<byte>, segments: seq<Uri.Segment>, rest: seq<byte>,
                      ip: Hash, ipVersion: Bits, maxPeers: u32, now: int, block: Block, announceBlock: Block,
                      interval: u32, ntop: Printer, alloc: HashList.Allocator, ghost s: State, ghost world: set<object>)
    returns (outcome: HttpOutcome, ghost f: UriParser.Fields, ghost after: State, ghost wider: set<object>,
             ghost rows: seq<Entry<Peer>>, ghost chosen: seq<Entry<Peer>>)
    requires Holds(list, s, world) && alloc !in world && |ip| == 16 && Renderable(s)
    requires Buffers(block, announceBlock, world)
    requires Uri.ValidPath(path) && Uri.ValidQuery(segments) && rest != [] && rest[0] == Uri.SPACE
    requires |Uri.GET + Uri.Request(path, segments, rest)| < WORD / 1024
    modifies list.leaves, HashListOps.ItemSet(list), world, alloc, block, block.data, announceBlock, announceBlock.data
    ensures world <= wider && fresh(wider - world)
    ensures fresh(HashListOps.ItemSet(list) - old(HashListOps.ItemSet(list)))
    ensures var calls := Uri.Expected(segments, []);
      && (outcome == MissingHash <==> Said(calls, "info_hash").None?)
      && (outcome == MissingPort <==> Said(calls, "info_hash").Some? && PortOf(f.port) == 0)
      && (outcome != Answered ==> after == s && Holds(list, s, world))
    ensures outcome == Answered ==>
      var numwant := if f.numwant > maxPeers then maxPeers else f.numwant;
      var r := Request(false, f.compact, f.noPeerId, ipVersion, numwant, [0, 0, 0, 0]);
      var t, port := TorrentIn(after, f.infoHash), PortOf(f.port) % 256 * 256 + PortOf(f.port) / 256;
      && StepTaken(s, after, f.infoHash, f.peerId, f.event, ip, ipVersion, port, now, Bits(true, false))
      && Holds(list, after, wider) && Renderable(after) && block.Valid()
      && A.Listed(rows, t) && Sound(chosen) && Chosen(r, rows, chosen, ntop)
      && ReadsHttp(block.Contents(), r, t, interval, chosen, ntop)
    ensures Parameters(f, Uri.Expected(segments, []))
  {
    hide Holds, Served, Renderable, Addressed, Sound, Chosen, A.Listed, A.AnnounceText, TorrentIn, CountersOf,
         ReadsHttp, UriParser.ReadAll, UriParser.LastValue, Uri.Request, Uri.ValidPath, PortOf, StepTaken, Text.Ascii,
         Text.CString, Bencode.Decimal;
    f := FieldsOfRequest(path, segments, rest);
    ParametersRead(Uri.Expected(segments, []));
    outcome, wider, rows, chosen :=
      AnswerMessage(list, Uri.GET + Uri.Request(path, segments, rest), ip, ipVersion, maxPeers, now, block,
                    announceBlock, interval, ntop, alloc, s, world);
    after := s;
    if outcome == Answered {
      after := Served(s, HttpQuery(f, ip, ipVersion), now, TCP);
      FieldsSized(Uri.GET + Uri.Request(path, segments, rest));
      HttpStep(s, f, ip, ipVersion, now);
      AnswerReadsHttp(HttpRequest(f, maxPeers, ipVersion), TorrentIn(after, f.infoHash), interval, chosen, ntop);
    }
  }

  lemma {:induction false} HttpStep(s: State, f: UriParser.Fields, ip: Hash, ipVersion: Bits, now: int)
    requires Renderable(s) && UriParser.Sized(f) && |ip| == 16
    ensures var port := PortOf(f.port) % 256 * 256 + PortOf(f.port) / 256;
      StepTaken(s, Served(s, HttpQuery(f, ip, ipVersion), now, TCP), f.infoHash, f.peerId, f.event, ip, ipVersion, port,
                now, Bits(true, false))
  {
    hide Renderable, Served, StepTaken, PortOf;
    PortInRange(f.port);
    ServedTakesStep(s, HttpQuery(f, ip, ipVersion), now, TCP, PortOf(f.port) % 256 * 256 + PortOf(f.port) / 256);
  }

  lemma {:induction false} FieldsOfRequest(path: seq<byte>, segments: seq<Uri.Segment>, rest: seq<byte>)
    returns (f: UriParser.Fields)
    requires Uri.ValidPath(path) && Uri.ValidQuery(segments) && rest != [] && rest[0] == Uri.SPACE
    ensures f == UriParser.ReadAll(DEFAULTS, Uri.Expected(segments, []))
    ensures FieldsOf(Uri.GET + Uri.Request(path, segments, rest)) == f
  {
    hide Uri.Run, UriParser.AppliedAll, UriParser.ReadAll, Uri.Line, Uri.Request, Uri.ValidPath, Uri.ValidQuery;
    Uri.MessageIsRead(path, segments, rest);
    UriParser.LastValueWins(DEFAULTS, Uri.Expected(segments, []));
    f := UriParser.ReadAll(DEFAULTS, Uri.Expected(segments, []));
  }

  // ---------------------------------------------------------------- a counter below zero

  /**
   * A run after which an answer over HTTP tells of -1 leechers: two peers that announce over UDP, first with
   * "started" and then as regular, and a collection that finds one of them too old.
   */
  lemma {:induction false} MinusOneIsRead(q: Query, a: Hash, b: Hash, early: int, limit: int, late: int, r: Request,
                                          interval: u32, chosen: seq<Entry<Peer>>, ntop: Printer)
    requires a != b && early < limit <= late && !r.udp && Sound(chosen)
    ensures var s := Run(TrackerLaws.TwiceEach(q, [a], early, UDP) + TrackerLaws.TwiceEach(q, [b], late, UDP)
                         + [CollectionAt(limit, [])]).0;
      var p := Bencode.Parse(A.AnnounceText(r, CountersOf(TorrentIn(s, q.infoHash)), interval, chosen, ntop));
      && p.Some? && p.value.value.Dict?
      && A.Lookup(p.value.value.fields, Text.Ascii("incomplete")) == Some(Bencode.Int(-1))
  {
    hide A.AnnounceText, Bencode.Parse, A.Lookup, Run, TrackerLaws.TwiceEach, Text.Ascii, Sound;
    TrackerLaws.IncompleteUnderflows(q, a, b, early, limit, late, UDP);
    var s := Run(TrackerLaws.TwiceEach(q, [a], early, UDP) + TrackerLaws.TwiceEach(q, [b], late, UDP)
                 + [CollectionAt(limit, [])]).0;
    AnswerReadsHttp(r, TorrentIn(s, q.infoHash), interval, chosen, ntop);
  }
}
