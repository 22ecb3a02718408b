/** The announce answers of data.c as a whole: bencoded over HTTP, packed over UDP. */
module Announce {
  import opened Bytes
  import opened HashOrder
  import opened ByteOrder
  import opened Text
  import opened Block
  import opened Entries
  import HashListOps
  import HashList
  import HashListOrder
  import opened Tracker
  import opened Garbage
  import opened TorrentRecord
  import opened Bencode
  import opened Render
  import opened RenderList
  import UdpRequest

  /** `%d` of an unsigned int: its two's complement reading. */
  function Signed(x: u32): int {
    if x < WORD / 2 then x else x - WORD
  }

  function PeersKey(q: Request): seq<byte> {
    if q.ipVersion.first then Ascii("peers") else Ascii("peers6")
  }

  /** The dictionaries of the chosen peers as a list. */
  function PeerElements(q: Request, chosen: seq<Entry<Peer>>, ntop: Printer): Elements
    requires Sound(chosen)
  {
    if chosen == [] then NoElement
    else Element(PeerValue(q, chosen[0].hash, chosen[0].data.value, ntop), PeerElements(q, chosen[1..], ntop))
  }

  function PeersValue(q: Request, chosen: seq<Entry<Peer>>, ntop: Printer): Value
    requires Sound(chosen)
  {
    if q.compact then Str(PeersText(q, chosen, ntop)) else List(PeerElements(q, chosen, ntop))
  }

  function AnnounceFields(q: Request, t: Counters, interval: u32, peers: Value): Fields {
    Field(Ascii("complete"), Int(Signed(t.complete)),
          Field(Ascii("incomplete"), Int(Signed(t.incomplete)),
                Field(Ascii("downloaded"), Int(Signed(t.downloaded)),
                      Field(Ascii("interval"), Int(Signed(interval)),
                            Field(PeersKey(q), peers, NoField)))))
  }

  /** The answer over HTTP. */
  function AnnounceValue(q: Request, t: Counters, interval: u32, chosen: seq<Entry<Peer>>, ntop: Printer): Value
    requires Sound(chosen)
  {
    Dict(AnnounceFields(q, t, interval, PeersValue(q, chosen, ntop)))
  }

  /** The head of the answer over UDP (BEP 15). */
  function UdpHead(q: Request, t: Counters, interval: u32): seq<byte> {
    Octets(UdpRequest.ACTION_ANNOUNCE, 4) + q.transaction + Octets(interval, 4) + Octets(t.incomplete, 4)
      + Octets(t.complete, 4)
  }

  function AnnounceText(q: Request, t: Counters, interval: u32, chosen: seq<Entry<Peer>>, ntop: Printer): seq<byte>
    requires Sound(chosen)
  {
    if q.udp then UdpHead(q, t, interval) + PeersText(q, chosen, ntop)
    else Encode(AnnounceValue(q, t, interval, chosen, ntop))
  }

  // ---------------------------------------------------------------- the format strings

  /** What the format string prints up to the peers. */
  function HeadText(q: Request, t: Counters, interval: u32): seq<byte> {
    Ascii("d8:completei") + Integer(Signed(t.complete))
    + Ascii("e10:incompletei") + Integer(Signed(t.incomplete))
    + Ascii("e10:downloadedi") + Integer(Signed(t.downloaded))
    + Ascii("e8:intervali") + Integer(Signed(interval))
    + if q.ipVersion.first then Ascii("e5:peers") else Ascii("e6:peers6")
  }

  lemma {:induction false} Literal(first: byte, key: string, last: seq<byte>, text: string)
    requires |text| == 1 + |key| + |last| && text[0] as int % 256 == first && text[1..1 + |key|] == key
    requires forall i :: 0 <= i < |last| ==> text[1 + |key| + i] as int % 256 == last[i]
    ensures Ascii(text) == [first] + Ascii(key) + last
  {
  }

  lemma {:induction false} HeadLiterals()
    ensures Ascii("d8:completei") == [D] + Ascii("8:complete") + [I]
    ensures Ascii("e10:incompletei") == [E] + Ascii("10:incomplete") + [I]
    ensures Ascii("e10:downloadedi") == [E] + Ascii("10:downloaded") + [I]
    ensures Ascii("e8:intervali") == [E] + Ascii("8:interval") + [I]
    ensures Ascii("e5:peers") == [E] + Ascii("5:peers") && Ascii("e6:peers6") == [E] + Ascii("6:peers6")
  {
    hide Ascii;
    Literal(D, "8:complete", [I], "d8:completei");
    Literal(E, "10:incomplete", [I], "e10:incompletei");
    Literal(E, "10:downloaded", [I], "e10:downloadedi");
    Literal(E, "8:interval", [I], "e8:intervali");
    Literal(E, "5:peers", [], "e5:peers");
    Literal(E, "6:peers6", [], "e6:peers6");
    assert forall s: seq<byte> :: s + [] == s;
  }

  lemma {:induction false} LongKey(key: string, text: string)
    requires |key| == 10 && text == ['1', '0', ':'] + key
    ensures String(Ascii(key)) == Ascii(text)
  {
  }

  lemma {:induction false} HeadKeys()
    ensures String(Ascii("complete")) == Ascii("8:complete") && String(Ascii("interval")) == Ascii("8:interval")
    ensures String(Ascii("incomplete")) == Ascii("10:incomplete")
    ensures String(Ascii("downloaded")) == Ascii("10:downloaded")
    ensures String(Ascii("peers")) == Ascii("5:peers") && String(Ascii("peers6")) == Ascii("6:peers6")
  {
    hide Ascii, String;
    Key("complete", "8:complete");
    Key("interval", "8:interval");
    LongKey("incomplete", "10:incomplete");
    LongKey("downloaded", "10:downloaded");
    Key("peers", "5:peers");
    Key("peers6", "6:peers6");
  }

  /** A number behind the end of another. */
  lemma {:induction false} NumberStep(begin: seq<byte>, key: string, i: int, rest: Fields, text: seq<byte>)
    requires text == [E] + String(Ascii(key)) + [I]
    ensures begin + [E] + EncodeFields(Field(Ascii(key), Int(i), rest))
         == begin + text + Integer(i) + [E] + EncodeFields(rest)
  {
    hide EncodeFields, Integer, String, Ascii;
    NumberFormat(key, i, rest, begin + [E]);
    var k := String(Ascii(key));
    assert begin + [E] + k + [I] == begin + ([E] + k + [I]);
  }

  lemma {:induction false} PeersStep(q: Request, begin: seq<byte>, peers: Value)
    ensures begin + [E] + EncodeFields(Field(PeersKey(q), peers, NoField))
         == begin + (if q.ipVersion.first then Ascii("e5:peers") else Ascii("e6:peers6")) + Encode(peers)
  {
    hide EncodeFields, Encode, String, Ascii;
    HeadKeys();
    HeadLiterals();
    EncodeNext(Field(PeersKey(q), peers, NoField));
    EncodeNext(NoField);
    var k := String(PeersKey(q));
    assert begin + [E] + (k + Encode(peers) + []) == begin + ([E] + k) + Encode(peers);
  }

  lemma {:induction false} HeadFormat(q: Request, t: Counters, interval: u32, peers: Value)
    ensures Encode(Dict(AnnounceFields(q, t, interval, peers))) == HeadText(q, t, interval) + Encode(peers) + [E]
  {
    hide EncodeFields, Encode, String, Ascii, Integer, Signed, PeersKey;
    HeadKeys();
    HeadLiterals();
    var e := Field(PeersKey(q), peers, NoField);
    var d := Field(Ascii("interval"), Int(Signed(interval)), e);
    var c := Field(Ascii("downloaded"), Int(Signed(t.downloaded)), d);
    var b := Field(Ascii("incomplete"), Int(Signed(t.incomplete)), c);
    var begin := Ascii("d8:completei") + Integer(Signed(t.complete));
    EncodeNext(AnnounceFields(q, t, interval, peers));
    NumberFormat("complete", Signed(t.complete), b, [D]);
    NumberStep(begin, "incomplete", Signed(t.incomplete), c, Ascii("e10:incompletei"));
    begin := begin + Ascii("e10:incompletei") + Integer(Signed(t.incomplete));
    NumberStep(begin, "downloaded", Signed(t.downloaded), d, Ascii("e10:downloadedi"));
    begin := begin + Ascii("e10:downloadedi") + Integer(Signed(t.downloaded));
    NumberStep(begin, "interval", Signed(interval), e, Ascii("e8:intervali"));
    begin := begin + Ascii("e8:intervali") + Integer(Signed(interval));
    PeersStep(q, begin, peers);
  }

  lemma {:induction false} SignedLength(x: u32)
    ensures |Integer(Signed(x))| <= 11
  {
    hide Decimal;
    NumberLengths(if Signed(x) < 0 then -Signed(x) else Signed(x));
  }

  lemma {:induction false} HeadLength(q: Request, t: Counters, interval: u32)
    ensures |HeadText(q, t, interval)| <= 200
  {
    hide Integer, Signed;
    SignedLength(t.complete);
    SignedLength(t.incomplete);
    SignedLength(t.downloaded);
    SignedLength(interval);
  }

  lemma {:induction false} SoundParts(row: Entry<Peer>, rows: seq<Entry<Peer>>)
    requires Sound([row] + rows)
    ensures Sound(rows) && row.data.Some? && Addressed(row.data.value)
    ensures rows != [] ==> Sound([row] + rows[..|rows| - 1])
  {
    hide Addressed;
    var all := [row] + rows;
    assert all[0] == row;
    assert forall i :: 0 <= i < |rows| ==> rows[i] == all[i + 1];
  }

  /** The peers' texts, one after the other, are the elements of the list. */
  lemma {:induction false} PeersTextFirst(q: Request, row: Entry<Peer>, rows: seq<Entry<Peer>>, ntop: Printer)
    requires Sound([row] + rows) && Sound(rows) && row.data.Some? && Addressed(row.data.value)
    ensures PeersText(q, [row] + rows, ntop) == PeerText(q, row, ntop) + PeersText(q, rows, ntop)
  {
    hide PeerText, Addressed;
    var n := |rows|;
    if n == 0 {
      assert ([row] + rows)[..0] == [] && ([row] + rows)[0] == row;
    } else {
      SoundParts(row, rows);
      SoundParts(row, rows[..n - 1]);
      assert ([row] + rows)[..n] == [row] + rows[..n - 1];
      assert ([row] + rows)[n] == rows[n - 1];
      PeersTextFirst(q, row, rows[..n - 1], ntop);
      Joined(PeerText(q, row, ntop), PeersText(q, rows[..n - 1], ntop), PeerText(q, rows[n - 1], ntop));
    }
  }

  lemma {:induction false} ElementsText(q: Request, chosen: seq<Entry<Peer>>, ntop: Printer)
    requires Sound(chosen) && !q.compact && !q.udp
    ensures EncodeElements(PeerElements(q, chosen, ntop)) == PeersText(q, chosen, ntop)
  {
    hide Encode, PeerValue;
    if chosen != [] {
      assert chosen == [chosen[0]] + chosen[1..];
      PeersTextFirst(q, chosen[0], chosen[1..], ntop);
      ElementsText(q, chosen[1..], ntop);
    }
  }

  lemma {:induction false} JoinedCompact(s: seq<byte>, t: seq<byte>, u: seq<byte>, v: seq<byte>, w: seq<byte>,
                                         x: seq<byte>)
    ensures s + (t + (u + v + w) + x) == s + (t + u + v) + w + x
  {
  }

  lemma {:induction false} JoinedList(s: seq<byte>, t: seq<byte>, u: seq<byte>, v: seq<byte>, w: seq<byte>)
    ensures s + (t + (u + v + w) + w) == s + (t + u) + v + w + w
  {
  }

  /** How the pieces printed over HTTP make up the answer. */
  lemma {:induction false} HttpPieces(q: Request, t: Counters, interval: u32, chosen: seq<Entry<Peer>>,
                                      ntop: Printer, before: seq<byte>)
    requires Sound(chosen) && !q.udp
    ensures var peers, head, all := PeersText(q, chosen, ntop), HeadText(q, t, interval),
                                    before + AnnounceText(q, t, interval, chosen, ntop);
      && (q.compact ==> all == before + (head + Decimal(|peers|) + Ascii(":")) + peers + Ascii("e"))
      && (!q.compact ==> all == before + (head + Ascii("l")) + peers + Ascii("e") + Ascii("e"))
  {
    hide Encode, PeersText, HeadText, Decimal, AnnounceFields, PeerElements, Sound, Ascii;
    var peers, head := PeersText(q, chosen, ntop), HeadText(q, t, interval);
    assert Ascii(":") == [COLON] && Ascii("e") == [E] && Ascii("l") == [L] by { EndLiterals(); }
    HeadFormat(q, t, interval, PeersValue(q, chosen, ntop));
    if q.compact {
      assert Encode(Str(peers)) == Decimal(|peers|) + [COLON] + peers by { EncodeString(peers); }
      JoinedCompact(before, head, Decimal(|peers|), [COLON], peers, [E]);
    } else {
      ElementsText(q, chosen, ntop);
      EncodeList(PeerElements(q, chosen, ntop));
      JoinedList(before, head, [L], peers, [E]);
    }
  }

  lemma {:induction false} EndLiterals()
    ensures Ascii(":") == [COLON] && Ascii("e") == [E] && Ascii("l") == [L]
  {
  }

  lemma {:induction false} EncodeString(s: seq<byte>)
    ensures Encode(Str(s)) == Decimal(|s|) + [COLON] + s
  {
  }

  lemma {:induction false} EncodeList(elements: Elements)
    ensures Encode(List(elements)) == [L] + EncodeElements(elements) + [E]
  {
  }

  // ---------------------------------------------------------------- the methods

  /** The beginning of the dictionary, up to the peers. */
  method AddHttpHead(block: Block, c: Counters, q: Request, interval: u32, peersSize: u32)
    requires block.Valid() && 2 * (block.size + 500) + MIN_FREE_ALLOCATE_SIZE < WORD && peersSize < WORD / 16
    modifies block, block.data
    ensures block.Valid() && block.size <= old(block.size) + 500 && (block.data == old(block.data) || fresh(block.data))
    ensures block.Contents() == old(block.Contents())
              + if q.compact then HeadText(q, c, interval) + Decimal(peersSize) + Ascii(":")
                else HeadText(q, c, interval) + Ascii("l")
  {
    hide HeadText, Decimal, Block.Fits;
    HeadLength(q, c, interval);
    NumberLengths(peersSize);
    block.SmallFits(500);
    if q.compact {
      block.AddFormat(500, HeadText(q, c, interval) + Decimal(peersSize) + Ascii(":"));
    } else {
      block.AddFormat(500, HeadText(q, c, interval) + Ascii("l"));
    }
  }

  /** The peers and the ends of the list and of the dictionary. */
  method AddHttpTail(block: Block, peers: seq<byte>, compact: bool)
    requires block.Valid() && 2 * (block.size + |peers| + 2) + MIN_FREE_ALLOCATE_SIZE < WORD
    modifies block, block.data
    ensures block.Valid() && (block.data == old(block.data) || fresh(block.data))
    ensures block.Contents() == old(block.Contents()) + peers + (if compact then [] else Ascii("e")) + Ascii("e")
  {
    hide Block.Fits;
    block.SmallFits(|peers|);
    block.AddString(peers);
    block.SmallFits(1);
    if !compact {
      block.AddString(Ascii("e"));
      block.SmallFits(1);
    }
    block.AddString(Ascii("e"));
  }

  /** `renderAnnounceTorrentL` over HTTP, with the peers already in the second block. */
  method RenderHttp(block: Block, announceBlock: Block, t: Counters, ghost chosen: seq<Entry<Peer>>, q: Request,
                    interval: u32, ntop: Printer)
    requires block != announceBlock && block.data != announceBlock.data && !q.udp
    requires block.Valid() && block.peak < WORD / 32 && announceBlock.Valid() && announceBlock.peak < WORD / 16
    requires Sound(chosen) && announceBlock.Contents() == PeersText(q, chosen, ntop)
    modifies block, block.data
    ensures block.Valid() && (block.data == old(block.data) || fresh(block.data))
    ensures block.Contents() == old(block.Contents()) + AnnounceText(q, t, interval, chosen, ntop)
  {
    hide AnnounceText, PeersText, HeadText, Decimal, Ascii;
    ghost var before := block.Contents();
    HttpPieces(q, t, interval, chosen, ntop, before);
    AddHttpHead(block, t, q, interval, announceBlock.size);
    AddHttpTail(block, announceBlock.data[..announceBlock.size], q.compact);
    assert forall s: seq<byte> :: s + [] == s;
  }

  /**
   * The peers of a torrent in the order of its list, a BIG_ENDIAN one: by the last bytes of their ids where it
   * has a level, then by `memcmp`. The torrent determines these rows.
   */
  ghost predicate Listed(rows: seq<Entry<Peer>>, t: Torrent) {
    && Enumerates(rows, t.peers) && t.level <= 20
    && (forall i :: 0 <= i < |rows| ==> |rows[i].hash| == 20)
    && (forall i, j :: 0 <= i < j < |rows| ==>
          Place(rows[i].hash, t.level, BigEndian) < Place(rows[j].hash, t.level, BigEndian))
  }

  lemma {:induction false} RowsAreDetermined(e: seq<Entry<Peer>>, f: seq<Entry<Peer>>, t: Torrent)
    requires Listed(e, t) && Listed(f, t)
    ensures e == f
  {
    hide Place;
    var place := h => if |h| >= t.level then Place(h, t.level, BigEndian) else 0;
    forall i, j | 0 <= i < |e| && 0 <= j < |f| && place(e[i].hash) == place(f[j].hash) ensures e[i].hash == f[j].hash {
      PlaceIsInjective(e[i].hash, f[j].hash, t.level, BigEndian);
    }
    SameMap(e, f, t.peers);
    EntriesDeterminedByMap(e, f, place);
  }

  lemma {:induction false} SameMap(e: seq<Entry<Peer>>, f: seq<Entry<Peer>>, m: map<Hash, Peer>)
    requires Enumerates(e, m) && Enumerates(f, m)
    ensures ToMap(e) == ToMap(f)
  {
    hide ToMap;
    MapOf(e, m);
    MapOf(f, m);
  }

  lemma {:induction false} MapOf(e: seq<Entry<Peer>>, m: map<Hash, Peer>)
    requires Enumerates(e, m)
    ensures ToMap(e) == map h | h in m :: Some(m[h])
  {
    hide ToMap;
    forall h ensures h in ToMap(e) <==> h in m {
      ToMapDomain(e, h);
    }
    forall h | h in m ensures ToMap(e)[h] == Some(m[h]) {
      var i :| 0 <= i < |e| && e[i].hash == h;
      ToMapAt(e, i);
    }
  }

  /** The rows of a record's peer list are the peers of its torrent, each once. */
  lemma {:induction false} RowsOf(r: Record, t: Torrent)
    requires Stands(r, t) && forall id :: id in t.peers ==> Addressed(t.peers[id])
    ensures HashListOps.Valid(r.peerList) && Listed(HashListOps.Value(r.peerList), t)
    ensures Sound(HashListOps.Value(r.peerList)) && CountersIn(r) == CountersOf(t)
  {
    hide HashListOps.Valid, HashListOps.Value, ToMap, Addressed, Present, AllPresent;
    IntactParts(r);
    HashListOps.ValueInPlace(r.peerList);
    PresentEntries(HashListOps.Value(r.peerList));
    RowHashes(r.peerList);
    RowOrder(r.peerList);
  }

  lemma {:induction false} RowOrder(n: HashList.List<Peer>)
    requires HashListOps.ValidRoot(n) && n.hashLength == 20
    ensures var rows := HashListOps.Value(n);
      && n.level <= 20 && (forall i :: 0 <= i < |rows| ==> |rows[i].hash| == 20)
      && forall i, j :: 0 <= i < j < |rows| ==>
        Place(rows[i].hash, n.level, n.endianness) < Place(rows[j].hash, n.level, n.endianness)
  {
    hide HashListOps.Valid, HashListOps.Value, Place;
    RowHashes(n);
    var rows := HashListOps.Value(n);
    forall i, j | 0 <= i < j < |rows|
      ensures Place(rows[i].hash, n.level, n.endianness) < Place(rows[j].hash, n.level, n.endianness)
    {
      HashListOrder.TraversalOrder(n, i, j);
    }
  }

  lemma {:induction false} RowHashes(n: HashList.List<Peer>)
    requires HashListOps.Valid(n)
    ensures forall i :: 0 <= i < |HashListOps.Value(n)| ==> |HashListOps.Value(n)[i].hash| == n.hashLength
  {
    hide HashListOps.Valid;
    HashListOps.ValueInPlace(n);
  }

  /** `struct announceHeadResponse`; the transaction is copied as its four bytes. */
  datatype HeadResponse = HeadResponse(action: u32, transaction: seq<byte>, interval: u32, leechers: u32, seeders: u32)

  /** Its packed memory on a little-endian host. */
  function HeadMemory(h: HeadResponse): seq<byte> {
    Stored(h.action) + h.transaction + Stored(h.interval) + Stored(h.leechers) + Stored(h.seeders)
  }

  lemma {:induction false} HeadStored(q: Request, c: Counters, interval: u32)
    ensures HeadMemory(HeadResponse(Swapped(UdpRequest.ACTION_ANNOUNCE), q.transaction, Swapped(interval),
                                    Swapped(c.incomplete), Swapped(c.complete))) == UdpHead(q, c, interval)
  {
    hide Stored, Swapped, Octets;
    SwappedStored(UdpRequest.ACTION_ANNOUNCE);
    SwappedStored(interval);
    SwappedStored(c.incomplete);
    SwappedStored(c.complete);
  }

  /** The UDP head of `renderAnnouncePublic`, its words turned by `ntohl`. */
  method AddUdpHead(block: Block, c: Counters, q: Request, interval: u32)
    requires block.Valid() && block.peak < WORD / 64 && |q.transaction| == 4
    modifies block, block.data
    ensures block.Valid() && block.peak < WORD / 32 && (block.data == old(block.data) || fresh(block.data))
    ensures block.Contents() == old(block.Contents()) + if q.udp then UdpHead(q, c, interval) else []
  {
    hide UdpHead, HeadMemory, Swapped;
    if q.udp {
      var head := HeadResponse(Swapped(UdpRequest.ACTION_ANNOUNCE), q.transaction, Swapped(interval),
                               Swapped(c.incomplete), Swapped(c.complete));
      HeadStored(q, c, interval);
      UdpHeadLength(q, c, interval);
      block.AddString(HeadMemory(head));
    }
  }

  /** The peers and the rest of the answer. */
  method AddPeers(block: Block, announceBlock: Block, c: Counters, ghost chosen: seq<Entry<Peer>>, q: Request,
                  interval: u32, ntop: Printer, ghost before: seq<byte>)
    requires block != announceBlock && block.data != announceBlock.data
    requires block.Valid() && block.peak < WORD / 32 && announceBlock.Valid() && announceBlock.peak < WORD / 16
    requires Sound(chosen) && announceBlock.Contents() == PeersText(q, chosen, ntop)
    requires block.Contents() == before + if q.udp then UdpHead(q, c, interval) else []
    modifies block, block.data
    ensures block.Valid() && block.Contents() == before + AnnounceText(q, c, interval, chosen, ntop)
  {
    hide AnnounceText, PeersText, UdpHead, Sound;
    if q.udp {
      block.AddString(announceBlock.data[..announceBlock.size]);
      UdpPieces(q, c, interval, chosen, ntop, before);
    } else {
      assert before + [] == before;
      RenderHttp(block, announceBlock, c, chosen, q, interval, ntop);
    }
  }

  /** What is rendered of a torrent. */
  lemma {:induction false} Rendered(r: Record?, t: Torrent) returns (rows: seq<Entry<Peer>>)
    requires if r == null then t == NEW_TORRENT else Stands(r, t)
    requires forall id :: id in t.peers ==> Addressed(t.peers[id])
    ensures Listed(rows, t) && Sound(rows)
    ensures if r == null then rows == []
            else (HashListOps.Valid(r.peerList) && HashListOps.Value(r.peerList) == rows
                  && CountersIn(r) == CountersOf(t))
  {
    hide Stands, HashListOps.Valid, HashListOps.Value, CountersIn, CountersOf;
    if r == null {
      NoRows();
      rows := [];
    } else {
      RowsOf(r, t);
      rows := HashListOps.Value(r.peerList);
    }
  }

  lemma {:induction false} ListIsApart(peerList: HashList.List?<Peer>, block: Block)
    ensures peerList != null ==> forall l :: l in peerList.leaves ==>
      (l as object) != block && (l as object) != block.data
    ensures peerList != null ==>
      forall i :: i in HashListOps.ItemSet(peerList) ==> (i as object) != block && (i as object) != block.data
  {
  }

  /** The emptied second block receives the peers. */
  method RenderChosen(announceBlock: Block, peerList: HashList.List?<Peer>, q: Request, ntop: Printer,
                      ghost rows: seq<Entry<Peer>>)
    returns (ghost chosen: seq<Entry<Peer>>)
    requires announceBlock.Valid() && announceBlock.peak < WORD / 16 && Sound(rows)
    requires if peerList == null then rows == [] else HashListOps.Valid(peerList) && HashListOps.Value(peerList) == rows
    modifies announceBlock, announceBlock.data
    ensures announceBlock.Valid() && announceBlock.peak < WORD / 16
    ensures announceBlock.data == old(announceBlock.data) || fresh(announceBlock.data)
    ensures Sound(chosen) && Chosen(q, rows, chosen, ntop) && announceBlock.Contents() == PeersText(q, chosen, ntop)
  {
    hide PeersText, Chosen, Sound, HashListOps.Valid, HashListOps.Value;
    ListIsApart(peerList, announceBlock);
    announceBlock.Reset();
    chosen := RenderPeers(announceBlock, peerList, q, ntop);
  }

  /** `renderAnnouncePublic`; without a torrent the answer is that of an empty one. */
  method RenderAnnounce(block: Block, announceBlock: Block, r: Record?, q: Request, interval: u32, ntop: Printer,
                        ghost t: Torrent)
    returns (ghost rows: seq<Entry<Peer>>, ghost chosen: seq<Entry<Peer>>)
    requires block != announceBlock && block.data != announceBlock.data
    requires block.Valid() && block.peak < WORD / 64 && announceBlock.Valid() && announceBlock.peak < WORD / 16
    requires |q.transaction| == 4 && if r == null then t == NEW_TORRENT else Stands(r, t)
    requires forall id :: id in t.peers ==> Addressed(t.peers[id])
    modifies block, block.data, announceBlock, announceBlock.data
    ensures block.Valid() && Listed(rows, t) && Sound(chosen) && Chosen(q, rows, chosen, ntop)
    ensures block.Contents() == old(block.Contents()) + AnnounceText(q, CountersOf(t), interval, chosen, ntop)
  {
    hide AnnounceText, UdpHead, PeersText, Chosen, Sound, Listed, HashListOps.Valid, HashListOps.Value, Stands,
         CountersIn;
    ghost var before := block.Contents();
    rows := Rendered(r, t);
    var c := if r == null then CountersOf(NEW_TORRENT) else CountersIn(r);
    var peerList := if r == null then null else r.peerList;
    ListIsApart(peerList, block);
    AddUdpHead(block, c, q, interval);
    chosen := RenderChosen(announceBlock, peerList, q, ntop, rows);
    AddPeers(block, announceBlock, c, chosen, q, interval, ntop, before);
  }

  /** Announces bring addresses of 16 bytes and 16-bit ports. */
  predicate WellAddressed(a: Action) {
    a.AnnounceOf? ==> |a.q.ip| == 16 && 0 <= a.q.port < 65536
  }

  /** Whatever peers a run has left in the torrents can be rendered. */
  lemma {:induction false} AddressedOverRuns(actions: seq<Action>, h: Hash, id: Hash)
    requires forall i :: 0 <= i < |actions| ==> WellAddressed(actions[i])
    requires h in Run(actions).0 && id in Run(actions).0[h].peers
    ensures Addressed(Run(actions).0[h].peers[id])
  {
    if actions != [] {
      hide ChangeStats;
      var n := |actions| - 1;
      var s := Run(actions[..n]).0;
      if h in s && id in s[h].peers {
        AddressedOverRuns(actions[..n], h, id);
      }
      StepAddressed(s, actions[n], h, id);
    }
  }

  lemma {:induction false} StepAddressed(s: State, a: Action, h: Hash, id: Hash)
    requires WellAddressed(a) && h in Step(s, a) && id in Step(s, a)[h].peers
    requires h in s && id in s[h].peers ==> Addressed(s[h].peers[id])
    ensures Addressed(Step(s, a)[h].peers[id])
  {
    hide ChangeStats;
    if a.StopOf? && a.q.infoHash in s && a.q.peerId in s[a.q.infoHash].peers {
      StatsKeepPeers(s[a.q.infoHash], s[a.q.infoHash].peers[a.q.peerId].event, NONE);
    }
  }

  lemma {:induction false} NoRows()
    ensures Listed([], NEW_TORRENT)
  {
  }

  lemma {:induction false} UdpHeadLength(q: Request, t: Counters, interval: u32)
    requires |q.transaction| == 4
    ensures |UdpHead(q, t, interval)| == 20
  {
  }

  lemma {:induction false} UdpPieces(q: Request, t: Counters, interval: u32, chosen: seq<Entry<Peer>>, ntop: Printer,
                                     before: seq<byte>)
    requires Sound(chosen) && q.udp
    ensures before + AnnounceText(q, t, interval, chosen, ntop)
         == before + UdpHead(q, t, interval) + PeersText(q, chosen, ntop)
  {
    hide UdpHead, PeersText, Sound;
  }

  // ---------------------------------------------------------------- what a client reads

  /** The first value of a key. */
  function Lookup(f: Fields, key: seq<byte>): Option<Value> {
    if f.NoField? then None else if f.key == key then Some(f.value) else Lookup(f.tail, key)
  }

  /**
   * An answer over HTTP is read back as the dictionary that was rendered, with the signed readings of the
   * counters; a counter is read as itself exactly when it is below 2^31.
   */
  lemma {:induction false} AnnounceReads(q: Request, t: Counters, interval: u32, chosen: seq<Entry<Peer>>,
                                         ntop: Printer)
    requires Sound(chosen) && !q.udp
    ensures var r := Parse(AnnounceText(q, t, interval, chosen, ntop));
      && r.Some? && r.value.rest == [] && r.value.value.Dict?
      && var f := r.value.value.fields;
      && Lookup(f, Ascii("complete")) == Some(Int(Signed(t.complete)))
      && Lookup(f, Ascii("incomplete")) == Some(Int(Signed(t.incomplete)))
      && Lookup(f, Ascii("downloaded")) == Some(Int(Signed(t.downloaded)))
      && Lookup(f, Ascii("interval")) == Some(Int(Signed(interval)))
      && (Lookup(f, Ascii("complete")) == Some(Int(t.complete)) <==> t.complete < WORD / 2)
      && (Lookup(f, Ascii("incomplete")) == Some(Int(t.incomplete)) <==> t.incomplete < WORD / 2)
      && (Lookup(f, Ascii("downloaded")) == Some(Int(t.downloaded)) <==> t.downloaded < WORD / 2)
      && (Lookup(f, Ascii("interval")) == Some(Int(interval)) <==> interval < WORD / 2)
      && Lookup(f, PeersKey(q)) == Some(PeersValue(q, chosen, ntop))
  {
    hide Encode, Parse, PeersValue, Sound, AnnounceFields, Lookup, PeersKey, Ascii;
    var peers := PeersValue(q, chosen, ntop);
    var v := Dict(AnnounceFields(q, t, interval, peers));
    RoundTrip(v, []);
    assert Encode(v) + [] == Encode(v);
    FieldsRead(q, t, interval, peers);
  }

  lemma {:induction false} LookupNext(f: Fields, key: seq<byte>)
    requires f.Field?
    ensures Lookup(f, key) == if f.key == key then Some(f.value) else Lookup(f.tail, key)
  {
  }

  lemma {:induction false} FieldsRead(q: Request, t: Counters, interval: u32, peers: Value)
    ensures var f := AnnounceFields(q, t, interval, peers);
      && Lookup(f, Ascii("complete")) == Some(Int(Signed(t.complete)))
      && Lookup(f, Ascii("incomplete")) == Some(Int(Signed(t.incomplete)))
      && Lookup(f, Ascii("downloaded")) == Some(Int(Signed(t.downloaded)))
      && Lookup(f, Ascii("interval")) == Some(Int(Signed(interval)))
      && (Lookup(f, Ascii("complete")) == Some(Int(t.complete)) <==> t.complete < WORD / 2)
      && (Lookup(f, Ascii("incomplete")) == Some(Int(t.incomplete)) <==> t.incomplete < WORD / 2)
      && (Lookup(f, Ascii("downloaded")) == Some(Int(t.downloaded)) <==> t.downloaded < WORD / 2)
      && (Lookup(f, Ascii("interval")) == Some(Int(interval)) <==> interval < WORD / 2)
      && Lookup(f, PeersKey(q)) == Some(peers)
  {
    hide Lookup, Ascii;
    KeysDiffer();
    var f := AnnounceFields(q, t, interval, peers);
    LookupNext(f, Ascii("complete"));
    FindSecond(f, Ascii("incomplete"));
    FindSecond(f, Ascii("downloaded"));
    FindSecond(f.tail, Ascii("downloaded"));
    FindSecond(f, Ascii("interval"));
    FindSecond(f.tail, Ascii("interval"));
    FindSecond(f.tail.tail, Ascii("interval"));
    FindSecond(f, PeersKey(q));
    FindSecond(f.tail, PeersKey(q));
    FindSecond(f.tail.tail, PeersKey(q));
    FindSecond(f.tail.tail.tail, PeersKey(q));
  }

  lemma {:induction false} FindSecond(f: Fields, key: seq<byte>)
    requires f.Field? && f.tail.Field? && f.key != key
    ensures Lookup(f, key) == Lookup(f.tail, key)
    ensures f.tail.key == key ==> Lookup(f, key) == Some(f.tail.value)
  {
  }

  lemma {:induction false} KeysDiffer()
    ensures |Ascii("complete")| == 8 && |Ascii("incomplete")| == 10 && |Ascii("downloaded")| == 10
    ensures |Ascii("interval")| == 8 && |Ascii("peers")| == 5 && |Ascii("peers6")| == 6
    ensures Ascii("complete") != Ascii("interval") && Ascii("incomplete") != Ascii("downloaded")
  {
    assert Ascii("complete")[0] != Ascii("interval")[0] && Ascii("incomplete")[0] != Ascii("downloaded")[0];
  }

  /** The size of a peer in compact form. */
  function Width(q: Request): nat {
    if q.ipVersion.first then 6 else 18
  }

  /**
   * Peer number `n` of a compact text: 6 bytes with the last four of its IPv4 address, or 18 with its IPv6
   * address, and its port in network byte order.
   */
  predicate HoldsPeer(q: Request, text: seq<byte>, n: nat, p: Peer)
    requires Addressed(p)
  {
    if q.ipVersion.first then
      && 6 * n + 6 <= |text|
      && text[6 * n..6 * n + 4] == [p.ip4[12], p.ip4[13], p.ip4[14], p.ip4[15]]
      && 256 * (text[6 * n + 4] as int) + text[6 * n + 5] as int == PortNumber(p)
    else
      && 18 * n + 18 <= |text|
      && text[18 * n..18 * n + 16] == p.ip6
      && 256 * (text[18 * n + 16] as int) + text[18 * n + 17] as int == PortNumber(p)
  }

  lemma {:induction false} CompactNext(q: Request, chosen: seq<Entry<Peer>>, ntop: Printer)
    requires Sound(chosen) && (q.compact || q.udp) && chosen != []
    ensures var k := |chosen| - 1;
      && Sound(chosen[..k]) && chosen[k].data.Some? && Addressed(chosen[k].data.value)
      && PeersText(q, chosen, ntop) == PeersText(q, chosen[..k], ntop) + CompactPeer(q, chosen[k].data.value)
      && |CompactPeer(q, chosen[k].data.value)| == Width(q)
  {
    hide PeerValue;
  }

  lemma {:induction false} CompactLength(q: Request, chosen: seq<Entry<Peer>>, ntop: Printer)
    requires Sound(chosen) && (q.compact || q.udp)
    ensures |PeersText(q, chosen, ntop)| == Width(q) * |chosen|
  {
    hide CompactPeer, Addressed, PeersText, Sound, Width;
    if chosen == [] {
      NoPeersText(q, ntop);
    } else {
      var k := |chosen| - 1;
      CompactNext(q, chosen, ntop);
      CompactLength(q, chosen[..k], ntop);
      Distribute(Width(q), k);
    }
  }

  lemma {:induction false} NoPeersText(q: Request, ntop: Printer)
    ensures Sound([]) && PeersText(q, [], ntop) == []
  {
  }

  lemma {:induction false} Distribute(w: nat, k: nat)
    ensures w * (k + 1) == w * k + w
  {
  }

  /** Compact peers lie side by side. */
  lemma {:induction false} CompactReads(q: Request, chosen: seq<Entry<Peer>>, n: nat, p: Peer, ntop: Printer)
    requires Sound(chosen) && (q.compact || q.udp) && n < |chosen| && chosen[n].data == Some(p) && Addressed(p)
    ensures HoldsPeer(q, PeersText(q, chosen, ntop), n, p)
  {
    hide *;
    var k := |chosen| - 1;
    var front := chosen[..k];
    CompactNext(q, chosen, ntop);
    CompactLength(q, front, ntop);
    if n < k {
      assert front[n] == chosen[n];
      CompactReads(q, front, n, p, ntop);
      EarlierPeer(q, PeersText(q, front, ntop), k, n, CompactPeer(q, chosen[k].data.value), p);
    } else {
      LastPeer(q, PeersText(q, front, ntop), k, p);
    }
  }

  lemma {:induction false} LastPeer(q: Request, s: seq<byte>, k: nat, p: Peer)
    requires Addressed(p) && |s| == Width(q) * k
    ensures HoldsPeer(q, s + CompactPeer(q, p), k, p)
  {
    hide PortNumber;
    var a, c := Address(q, p), PortBytes(p);
    var text := s + (a + c);
    assert text[|s|..|s| + |a|] == a;
    assert text[|s| + |a|] == c[0] && text[|s| + |a| + 1] == c[1];
    PortInOrder(p);
  }

  lemma {:induction false} PortInOrder(p: Peer)
    requires Addressed(p)
    ensures 256 * (PortBytes(p)[0] as int) + PortBytes(p)[1] as int == PortNumber(p)
  {
  }

  lemma {:induction false} EarlierPeer(q: Request, s: seq<byte>, k: nat, n: nat, last: seq<byte>, p: Peer)
    requires Addressed(p) && |s| == Width(q) * k && n < k && HoldsPeer(q, s, n, p)
    ensures HoldsPeer(q, s + last, n, p)
  {
    hide Addressed, PortNumber;
    var w := if q.ipVersion.first then 6 else 18;
    assert (s + last)[w * n..w * n + w - 2] == s[w * n..w * n + w - 2];
  }

  function Count(e: Elements): nat {
    if e.NoElement? then 0 else 1 + Count(e.tail)
  }

  function ElementAt(e: Elements, n: nat): Value
    requires n < Count(e)
  {
    if n == 0 then e.head else ElementAt(e.tail, n - 1)
  }

  /** A peer's dictionary: the text of its address, its port, and its id unless the client wants none. */
  predicate TellsPeer(q: Request, v: Value, id: Hash, p: Peer, ntop: Printer)
    requires Addressed(p)
  {
    && v.Dict?
    && Lookup(v.fields, Ascii("ip"))
       == Some(Str(ntop(if q.ipVersion.first then [p.ip4[12], p.ip4[13], p.ip4[14], p.ip4[15]] else p.ip6)))
    && Lookup(v.fields, Ascii("port")) == Some(Int(PortNumber(p)))
    && Lookup(v.fields, Ascii("peer id")) == if q.noPeerId then None else Some(Str(id))
  }

  /** The chosen peers as a client over HTTP reads them: side by side in a text, or a list of dictionaries. */
  ghost predicate TellsPeers(q: Request, v: Value, chosen: seq<Entry<Peer>>, ntop: Printer)
    requires Sound(chosen)
  {
    if q.compact then
      && v.Str? && |v.s| == (if q.ipVersion.first then 6 else 18) * |chosen|
      && forall n :: 0 <= n < |chosen| ==> HoldsPeer(q, v.s, n, chosen[n].data.value)
    else
      && v.List? && Count(v.elements) == |chosen|
      && forall n :: 0 <= n < |chosen| ==>
        TellsPeer(q, ElementAt(v.elements, n), chosen[n].hash, chosen[n].data.value, ntop)
  }

  lemma {:induction false} PeersTold(q: Request, chosen: seq<Entry<Peer>>, ntop: Printer)
    requires Sound(chosen) && !q.udp
    ensures TellsPeers(q, PeersValue(q, chosen, ntop), chosen, ntop)
  {
    hide HoldsPeer, TellsPeer, PeersText, PeerElements, Addressed;
    if q.compact {
      CompactLength(q, chosen, ntop);
      forall n | 0 <= n < |chosen| ensures HoldsPeer(q, PeersText(q, chosen, ntop), n, chosen[n].data.value) {
        CompactReads(q, chosen, n, chosen[n].data.value, ntop);
      }
    } else {
      ElementsTold(q, chosen, ntop);
    }
  }

  lemma {:induction false} ElementsTold(q: Request, chosen: seq<Entry<Peer>>, ntop: Printer)
    requires Sound(chosen)
    ensures Count(PeerElements(q, chosen, ntop)) == |chosen|
    ensures forall n :: 0 <= n < |chosen| ==>
      TellsPeer(q, ElementAt(PeerElements(q, chosen, ntop), n), chosen[n].hash, chosen[n].data.value, ntop)
  {
    hide TellsPeer, PeerValue, Addressed;
    if chosen != [] {
      ElementsTold(q, chosen[1..], ntop);
      PeerTold(q, chosen[0].hash, chosen[0].data.value, ntop);
    }
  }

  lemma {:induction false} PeerTold(q: Request, id: Hash, p: Peer, ntop: Printer)
    requires Addressed(p)
    ensures TellsPeer(q, PeerValue(q, id, p, ntop), id, p, ntop)
  {
    hide Ascii, Addressed, PortNumber, Lookup;
    PeerKeys();
    var ip := Field(Ascii("ip"), Str(ntop(Address(q, p))), NoField);
    var rest := if q.noPeerId then ip else Field(Ascii("peer id"), Str(id), ip);
    var all := Field(Ascii("port"), Int(PortNumber(p)), rest);
    forall key ensures Lookup(all, key) == if key == Ascii("port") then Some(all.value) else Lookup(rest, key) {
      LookupNext(all, key);
    }
    forall key ensures Lookup(ip, key) == if key == Ascii("ip") then Some(ip.value) else None {
      LookupNext(ip, key);
      NothingThere(key);
    }
    LookupNext(rest, Ascii("ip"));
    LookupNext(rest, Ascii("peer id"));
  }

  lemma {:induction false} NothingThere(key: seq<byte>)
    ensures Lookup(NoField, key) == None
  {
  }

  lemma {:induction false} PeerKeys()
    ensures |Ascii("ip")| == 2 && |Ascii("port")| == 4 && |Ascii("peer id")| == 7
  {
  }

  lemma {:induction false} SizeBelow(q: Request, rows: seq<Entry<Peer>>, chosen: seq<Entry<Peer>>, ntop: Printer)
    requires Sound(chosen) && Chosen(q, rows, chosen, ntop) && q.udp
    ensures Width(q) * |chosen| < MAX_PACKET_SIZE + Width(q) <= MAX_PACKET_SIZE + 18
  {
    hide PeersText, Sound, Matching;
    if chosen != [] {
      var k := |chosen| - 1;
      assert Sound(chosen[..k]) && !Full(q, chosen[..k], ntop);
      CompactLength(q, chosen[..k], ntop);
      Distribute(Width(q), k);
    }
  }

  /** No packed answer is longer than a UDP datagram can be. */
  lemma {:induction false} UdpSize(q: Request, t: Counters, interval: u32, rows: seq<Entry<Peer>>,
                                   chosen: seq<Entry<Peer>>, ntop: Printer)
    requires Sound(chosen) && Chosen(q, rows, chosen, ntop) && q.udp && |q.transaction| == 4
    ensures var text := AnnounceText(q, t, interval, chosen, ntop);
      |text| == 20 + (if q.ipVersion.first then 6 else 18) * |chosen|
      && |text| <= (if q.ipVersion.first then 64025 else 64037) <= 65527
  {
    hide PeersText, UdpHead, Sound, Chosen;
    UdpHeadLength(q, t, interval);
    CompactLength(q, chosen, ntop);
    SizeBelow(q, rows, chosen, ntop);
  }

  /** The fields of BEP 15 at their offsets. */
  lemma {:induction false} UdpReads(q: Request, t: Counters, interval: u32, chosen: seq<Entry<Peer>>, ntop: Printer)
    requires Sound(chosen) && q.udp && |q.transaction| == 4
    ensures var text := AnnounceText(q, t, interval, chosen, ntop);
      && |text| >= 20
      && Rank(text[0..4]) == UdpRequest.ACTION_ANNOUNCE && text[4..8] == q.transaction && Rank(text[8..12]) == interval
      && Rank(text[12..16]) == t.incomplete && Rank(text[16..20]) == t.complete
      && text[20..] == PeersText(q, chosen, ntop)
  {
    hide PeersText, Octets, Rank, Sound;
    FourOctets(UdpRequest.ACTION_ANNOUNCE);
    FourOctets(interval);
    FourOctets(t.incomplete);
    FourOctets(t.complete);
    var a, b, c, d := Octets(UdpRequest.ACTION_ANNOUNCE, 4), Octets(interval, 4), Octets(t.incomplete, 4),
      Octets(t.complete, 4);
    Parts(a, q.transaction, b, c, d, PeersText(q, chosen, ntop));
  }

  lemma {:induction false} FourOctets(x: u32)
    ensures |Octets(x, 4)| == 4 && Rank(Octets(x, 4)) == x
  {
    assert Pow256(4) == 256 * Pow256(3) && Pow256(3) == 256 * Pow256(2) && Pow256(2) == 256 * Pow256(1);
    OctetsRead(x, 4);
  }

  lemma {:induction false} Parts(a: seq<byte>, b: seq<byte>, c: seq<byte>, d: seq<byte>, e: seq<byte>, f: seq<byte>)
    requires |a| == 4 && |b| == 4 && |c| == 4 && |d| == 4 && |e| == 4
    ensures var text := a + b + c + d + e + f;
      && text[0..4] == a && text[4..8] == b && text[8..12] == c && text[12..16] == d && text[16..20] == e
      && text[20..] == f
  {
  }
}
