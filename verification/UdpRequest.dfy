/** The requests of BEP 15 as thread_client_udp.c tells them apart and reads them. */
module UdpRequest {
  import opened Bytes
  import opened HashOrder
  import opened ByteOrder

  const CONNECT_SIZE := 16
  const ANNOUNCE_SIZE := 98
  const SCRAPE_SIZE := 16

  const PROTOCOL_ID := 0x41727101980
  const ACTION_CONNECT := 0
  const ACTION_ANNOUNCE := 1
  const ACTION_SCRAPE := 2

  /** What a worker does with a packet; the port stays as its two bytes. */
  datatype Packet =
    | Connect(transaction: seq<byte>)
    | Announce(transaction: seq<byte>, infoHash: seq<byte>, peerId: seq<byte>, event: byte, numwant: u32,
               port: seq<byte>)
    | Scrape(transaction: seq<byte>, hashes: seq<byte>)
    | Ignored

  function Word(b: seq<byte>, at: nat): u32
    requires at + 4 <= |b|
  {
    Wrap32(Rank(b[at..at + 4]))
  }

  /**
   * The dispatch by size and action. The event of a query is an `unsigned char`, so only the low byte
   * of the word sent arrives; `numwant` is cut to the server's limit.
   */
  function Dispatch(b: seq<byte>, maxPeers: u32): Packet {
    if |b| == CONNECT_SIZE then
      if b[0..8] == Octets(PROTOCOL_ID, 8) && b[8..12] == Octets(ACTION_CONNECT, 4) then Connect(b[12..16]) else Ignored
    else if |b| >= ANNOUNCE_SIZE && Word(b, 8) == ACTION_ANNOUNCE then
      Announce(b[12..16], b[16..36], b[36..56], Word(b, 80) % 256,
               if Word(b, 92) > maxPeers then maxPeers else Word(b, 92), b[96..98])
    else if |b| > SCRAPE_SIZE && Word(b, 8) == ACTION_SCRAPE then
      Scrape(b[12..16], b[16..16 + (|b| - SCRAPE_SIZE) / HASH_LENGTH * HASH_LENGTH])
    else Ignored
  }

  // ---------------------------------------------------------------- what clients send

  datatype Client = Client(
    connection: nat, transaction: seq<byte>, infoHash: seq<byte>, peerId: seq<byte>,
    downloaded: nat, left: nat, uploaded: nat, event: u32, ip: u32, key: u32, numwant: u32, port: nat)

  predicate WellFormed(c: Client) {
    |c.transaction| == 4 && |c.infoHash| == HASH_LENGTH && |c.peerId| == HASH_LENGTH
  }

  /** The numbers at the end of an announce request. */
  function Tail(c: Client): (t: seq<byte>)
    ensures |t| == 42
  {
    (Octets(c.downloaded, 8) + Octets(c.left, 8) + Octets(c.uploaded, 8))
    + (Octets(c.event, 4) + Octets(c.ip, 4) + Octets(c.key, 4) + Octets(c.numwant, 4) + Octets(c.port, 2))
  }

  /** The announce request of BEP 15: 98 bytes. */
  function AnnounceBytes(c: Client): seq<byte> {
    Octets(c.connection, 8) + Octets(ACTION_ANNOUNCE, 4) + c.transaction + c.infoHash + c.peerId + Tail(c)
  }

  lemma {:induction false} WordIsRead(before: seq<byte>, x: u32, after: seq<byte>)
    ensures Word(before + Octets(x, 4) + after, |before|) == x
  {
    var b := before + Octets(x, 4) + after;
    assert b[|before|..|before| + 4] == Octets(x, 4);
    assert Pow256(4) == 256 * Pow256(3) && Pow256(3) == 256 * Pow256(2) && Pow256(2) == 256 * Pow256(1);
    OctetsRead(x, 4);
  }

  lemma {:induction false} Field(before: seq<byte>, field: seq<byte>, after: seq<byte>, at: nat, end: nat)
    requires at == |before| && end == at + |field|
    ensures (before + field + after)[at..end] == field
  {
  }

  lemma {:induction false} TailIsRead(head: seq<byte>, c: Client, extra: seq<byte>)
    requires |head| == 56
    ensures var b := head + Tail(c) + extra;
      Word(b, 80) == c.event && Word(b, 92) == c.numwant && b[96..98] == Octets(c.port, 2)
  {
    hide Octets, Word;
    var b := head + Tail(c) + extra;
    var numbers := Octets(c.downloaded, 8) + Octets(c.left, 8) + Octets(c.uploaded, 8);
    var middle := Octets(c.ip, 4) + Octets(c.key, 4);
    var port := Octets(c.port, 2);
    assert b == (head + numbers) + Octets(c.event, 4) + (middle + Octets(c.numwant, 4) + port + extra);
    WordIsRead(head + numbers, c.event, middle + Octets(c.numwant, 4) + port + extra);
    assert b == (head + numbers + Octets(c.event, 4) + middle) + Octets(c.numwant, 4) + (port + extra);
    WordIsRead(head + numbers + Octets(c.event, 4) + middle, c.numwant, port + extra);
    assert b == (head + numbers + Octets(c.event, 4) + middle + Octets(c.numwant, 4)) + port + extra;
    Field(head + numbers + Octets(c.event, 4) + middle + Octets(c.numwant, 4), port, extra, 96, 98);
  }

  lemma {:induction false} HeadIsRead(c: Client, after: seq<byte>)
    requires WellFormed(c)
    ensures var b := Octets(c.connection, 8) + Octets(ACTION_ANNOUNCE, 4) + c.transaction + c.infoHash + c.peerId
      + after;
      |b| == 56 + |after| && Word(b, 8) == ACTION_ANNOUNCE
      && b[12..16] == c.transaction && b[16..36] == c.infoHash && b[36..56] == c.peerId
  {
    hide Octets, Word;
    var o, a := Octets(c.connection, 8), Octets(ACTION_ANNOUNCE, 4);
    var b := o + a + c.transaction + c.infoHash + c.peerId + after;
    assert b == o + a + (c.transaction + c.infoHash + c.peerId + after);
    WordIsRead(o, ACTION_ANNOUNCE, c.transaction + c.infoHash + c.peerId + after);
    assert b == (o + a) + c.transaction + (c.infoHash + c.peerId + after);
    Field(o + a, c.transaction, c.infoHash + c.peerId + after, 12, 16);
    assert b == (o + a + c.transaction) + c.infoHash + (c.peerId + after);
    Field(o + a + c.transaction, c.infoHash, c.peerId + after, 16, 36);
    Field(o + a + c.transaction + c.infoHash, c.peerId, after, 36, 56);
  }

  /** The request of a client byte by byte (BEP 15). */
  lemma {:induction false} AnnounceLayout(c: Client)
    requires WellFormed(c)
    ensures var b := AnnounceBytes(c);
      && |b| == 98 && b[0..8] == Octets(c.connection, 8) && b[8..12] == [0, 0, 0, 1] && b[12..16] == c.transaction
      && b[16..36] == c.infoHash && b[36..56] == c.peerId && b[56..64] == Octets(c.downloaded, 8)
      && b[64..72] == Octets(c.left, 8) && b[72..80] == Octets(c.uploaded, 8) && b[80..84] == Octets(c.event, 4)
      && b[84..88] == Octets(c.ip, 4) && b[88..92] == Octets(c.key, 4) && b[92..96] == Octets(c.numwant, 4)
      && b[96..98] == Octets(c.port, 2)
  {
    FourOctetsOf(ACTION_ANNOUNCE);
    hide Octets;
    var b := AnnounceBytes(c);
    var h := Octets(c.connection, 8) + Octets(ACTION_ANNOUNCE, 4) + c.transaction + c.infoHash + c.peerId;
    var t := Tail(c);
    assert b[..56] == h && b[56..] == t && |t| == 42;
    assert h[0..8] == Octets(c.connection, 8) && h[8..12] == Octets(ACTION_ANNOUNCE, 4) && h[12..16] == c.transaction;
    assert h[16..36] == c.infoHash && h[36..56] == c.peerId;
    TailLayout(c);
    forall i, j | 0 <= i <= j <= 42 ensures b[56 + i..56 + j] == t[i..j] {
    }
    forall i, j | 0 <= i <= j <= 56 ensures b[i..j] == h[i..j] {
    }
  }

  lemma {:induction false} TailLayout(c: Client)
    ensures var t := Tail(c);
      && t[0..8] == Octets(c.downloaded, 8) && t[8..16] == Octets(c.left, 8) && t[16..24] == Octets(c.uploaded, 8)
      && t[24..28] == Octets(c.event, 4) && t[28..32] == Octets(c.ip, 4) && t[32..36] == Octets(c.key, 4)
      && t[36..40] == Octets(c.numwant, 4) && t[40..42] == Octets(c.port, 2)
  {
    hide Octets;
  }

  /**
   * Every announce request, with anything behind it, is read with the fields that were sent. The event
   * arrives unchanged exactly when it is below 256; in particular 0 arrives as 0.
   */
  lemma {:induction false} AnnounceIsRead(c: Client, extra: seq<byte>, maxPeers: u32)
    requires WellFormed(c)
    ensures Dispatch(AnnounceBytes(c) + extra, maxPeers)
         == Announce(c.transaction, c.infoHash, c.peerId, c.event % 256,
                     if c.numwant > maxPeers then maxPeers else c.numwant, Octets(c.port, 2))
    ensures Dispatch(AnnounceBytes(c) + extra, maxPeers).event == c.event <==> c.event < 256
  {
    hide Octets, Word;
    var head := Octets(c.connection, 8) + Octets(ACTION_ANNOUNCE, 4) + c.transaction + c.infoHash + c.peerId;
    assert AnnounceBytes(c) + extra == head + Tail(c) + extra;
    assert head + Tail(c) + extra == head + (Tail(c) + extra);
    HeadIsRead(c, Tail(c) + extra);
    TailIsRead(head, c, extra);
  }

  /** The scrape request of BEP 15. */
  function ScrapeBytes(connection: nat, transaction: seq<byte>, hashes: seq<byte>): seq<byte> {
    Octets(connection, 8) + Octets(ACTION_SCRAPE, 4) + transaction + hashes
  }

  /** A scrape request for whole hashes is read exactly when it asks for at least one. */
  lemma {:induction false} ScrapeIsRead(connection: nat, transaction: seq<byte>, hashes: seq<byte>, maxPeers: u32)
    requires |transaction| == 4 && |hashes| % HASH_LENGTH == 0
    ensures Dispatch(ScrapeBytes(connection, transaction, hashes), maxPeers) == Scrape(transaction, hashes)
            <==> hashes != []
    ensures hashes == [] ==> Dispatch(ScrapeBytes(connection, transaction, hashes), maxPeers) == Ignored
  {
    hide Octets, Word;
    var o, a := Octets(connection, 8), Octets(ACTION_SCRAPE, 4);
    var b := ScrapeBytes(connection, transaction, hashes);
    assert b == o + a + (transaction + hashes);
    WordIsRead(o, ACTION_SCRAPE, transaction + hashes);
    Field(o, a, transaction + hashes, 8, 12);
    assert b == (o + a) + transaction + hashes;
    Field(o + a, transaction, hashes, 12, 16);
    assert b[16..] == hashes;
    WholeHashes(|hashes|);
    if hashes == [] {
      ActionsDiffer();
    } else {
      assert b[16..16 + |hashes|] == hashes;
    }
  }

  lemma {:induction false} WholeHashes(n: nat)
    requires n % HASH_LENGTH == 0
    ensures n / HASH_LENGTH * HASH_LENGTH == n
  {
  }

  lemma {:induction false} ActionsDiffer()
    ensures Octets(ACTION_CONNECT, 4) != Octets(ACTION_SCRAPE, 4)
  {
    WordIsRead([], ACTION_CONNECT, []);
    WordIsRead([], ACTION_SCRAPE, []);
    assert [] + Octets(ACTION_CONNECT, 4) + [] == Octets(ACTION_CONNECT, 4);
    assert [] + Octets(ACTION_SCRAPE, 4) + [] == Octets(ACTION_SCRAPE, 4);
  }

  /** A connect request is recognised exactly by its protocol number and its action. */
  lemma {:induction false} ConnectIsRead(protocol: nat, action: u32, transaction: seq<byte>, maxPeers: u32)
    requires |transaction| == 4 && protocol < Pow256(8)
    ensures Dispatch(Octets(protocol, 8) + Octets(action, 4) + transaction, maxPeers) == Connect(transaction)
            <==> protocol == 0x41727101980 && action == 0
  {
    hide Word;
    var o, a := Octets(protocol, 8), Octets(action, 4);
    var b := o + a + transaction;
    assert b[0..8] == o && b[8..12] == a && b[12..16] == transaction;
    hide Octets;
    OctetsDiffer(protocol, PROTOCOL_ID, 8);
    OctetsDiffer(action, ACTION_CONNECT, 4);
  }

  lemma {:induction false} OctetsDiffer(x: nat, y: nat, k: nat)
    requires (k == 8 && x < Pow256(8) && y <= PROTOCOL_ID) || (k == 4 && x < WORD && y < WORD)
    ensures Octets(x, k) == Octets(y, k) <==> x == y
  {
    hide Octets;
    assert Pow256(1) == 256 && Pow256(2) == 65536 && Pow256(3) == 16777216 && Pow256(4) == WORD;
    assert Pow256(5) == 256 * WORD && Pow256(6) == 65536 * WORD && Pow256(7) == 16777216 * WORD
      && Pow256(8) == WORD * WORD;
    OctetsRead(x, k);
    OctetsRead(y, k);
  }
}
