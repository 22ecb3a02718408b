/** The announce answers of data.c: what is printed, which peers are chosen, and what a client reads. */
module Render {
  import opened Bytes
  import opened HashOrder
  import opened Text
  import opened Block
  import opened Entries
  import opened Tracker
  import opened Garbage
  import opened Bencode

  const MAX_PACKET_SIZE := 64000

  /** The fields of a query that shape its answer; `first` of the versions is IPv4. */
  datatype Request = Request(udp: bool, compact: bool, noPeerId: bool, ipVersion: Bits, numwant: u32,
                             transaction: seq<byte>)

  /** `inet_ntop`: the text of an address of 4 or 16 bytes. */
  type Printer = f: seq<byte> -> seq<byte> | forall a :: |f(a)| <= 45 witness _ => []

  // ---------------------------------------------------------------- one peer

  predicate Addressed(p: Peer) {
    |p.ip4| == 16 && |p.ip6| == 16 && 0 <= p.port < 65536
  }

  /** Peers as the traversal meets them: present, with 16 bytes of each address and an id of 20 bytes. */
  ghost predicate Sound(rows: seq<Entry<Peer>>) {
    forall i :: 0 <= i < |rows| ==> rows[i].data.Some? && Addressed(rows[i].data.value) && |rows[i].hash| == HASH_LENGTH
  }

  function Address(q: Request, p: Peer): (a: seq<byte>)
    requires Addressed(p)
    ensures a == if q.ipVersion.first then [p.ip4[12], p.ip4[13], p.ip4[14], p.ip4[15]] else p.ip6
  {
    if q.ipVersion.first then p.ip4[12..] else p.ip6
  }

  /** The port in memory: it is kept in network byte order. */
  function PortBytes(p: Peer): seq<byte>
    requires Addressed(p)
  {
    [p.port % 256, p.port / 256]
  }

  /** `htons` of the port on a little-endian machine. */
  function PortNumber(p: Peer): int
    requires Addressed(p)
  {
    p.port % 256 * 256 + p.port / 256
  }

  function CompactPeer(q: Request, p: Peer): seq<byte>
    requires Addressed(p)
  {
    Address(q, p) + PortBytes(p)
  }

  /** A peer as a dictionary. */
  function PeerValue(q: Request, id: Hash, p: Peer, ntop: Printer): Value
    requires Addressed(p)
  {
    var ip := Field(Ascii("ip"), Str(ntop(Address(q, p))), NoField);
    var rest := if q.noPeerId then ip else Field(Ascii("peer id"), Str(id), ip);
    Dict(Field(Ascii("port"), Int(PortNumber(p)), rest))
  }

  function PeerText(q: Request, row: Entry<Peer>, ntop: Printer): seq<byte>
    requires row.data.Some? && Addressed(row.data.value)
  {
    if q.compact || q.udp then CompactPeer(q, row.data.value)
    else Encode(PeerValue(q, row.hash, row.data.value, ntop))
  }

  function PeersText(q: Request, rows: seq<Entry<Peer>>, ntop: Printer): seq<byte>
    requires Sound(rows)
  {
    if rows == [] then []
    else PeersText(q, rows[..|rows| - 1], ntop) + PeerText(q, rows[|rows| - 1], ntop)
  }

  // ---------------------------------------------------------------- which peers

  predicate Matches(q: Request, row: Entry<Peer>) {
    row.data.Some? && ((q.ipVersion.first && row.data.value.ipVersion.first)
                       || (q.ipVersion.second && row.data.value.ipVersion.second))
  }

  /** The peers of a matching IP version, in traversal order. */
  function Matching(q: Request, rows: seq<Entry<Peer>>): (m: seq<Entry<Peer>>)
    ensures |m| <= |rows|
  {
    if rows == [] then []
    else Matching(q, rows[..|rows| - 1]) + if Matches(q, rows[|rows| - 1]) then [rows[|rows| - 1]] else []
  }

  /** `numwant`, counted down before it is looked at: 0 stands for 2^32. */
  function Limit(numwant: u32): nat {
    if numwant == 0 then WORD else numwant
  }

  ghost predicate Full(q: Request, chosen: seq<Entry<Peer>>, ntop: Printer)
    requires Sound(chosen)
  {
    |chosen| == Limit(q.numwant) || |PeersText(q, chosen, ntop)| >= MAX_PACKET_SIZE
  }

  /**
   * `chosen` are the first matching peers: all of them, or `numwant`, or as many as reach the size limit,
   * and no more than that.
   */
  ghost predicate Chosen(q: Request, rows: seq<Entry<Peer>>, chosen: seq<Entry<Peer>>, ntop: Printer) {
    && Sound(chosen) && chosen <= Matching(q, rows)
    && (chosen == Matching(q, rows) || Full(q, chosen, ntop))
    && NoneFull(q, chosen, ntop)
  }

  /** No shorter choice would have been full already. */
  ghost predicate NoneFull(q: Request, chosen: seq<Entry<Peer>>, ntop: Printer) {
    forall n :: 0 <= n < |chosen| ==> Sound(chosen[..n]) && !Full(q, chosen[..n], ntop)
  }

  lemma {:induction false} ChosenIsUnique(q: Request, rows: seq<Entry<Peer>>, a: seq<Entry<Peer>>, b: seq<Entry<Peer>>,
                                          ntop: Printer)
    requires Chosen(q, rows, a, ntop) && Chosen(q, rows, b, ntop)
    ensures a == b
  {
    ChosenIsNoShorter(q, rows, a, b, ntop);
    ChosenIsNoShorter(q, rows, b, a, ntop);
  }

  lemma {:induction false} ChosenIsNoShorter(q: Request, rows: seq<Entry<Peer>>, a: seq<Entry<Peer>>,
                                             b: seq<Entry<Peer>>, ntop: Printer)
    requires Chosen(q, rows, a, ntop) && Chosen(q, rows, b, ntop)
    ensures |b| <= |a| && b == a[..|b|]
  {
    hide Sound, Full, Matching;
    var p := if |a| <= |b| then b[..|a|] else a;
    assert p == a;
  }

  lemma {:induction false} MatchingMembers(q: Request, rows: seq<Entry<Peer>>, row: Entry<Peer>)
    ensures row in Matching(q, rows) <==> row in rows && Matches(q, row)
  {
    hide Matches;
    if rows != [] {
      var n := |rows| - 1;
      MatchingMembers(q, rows[..n], row);
      assert rows == rows[..n] + [rows[n]];
    }
  }

  /** Every chosen peer is a peer of the torrent with a matching version, and with room left none is missing. */
  lemma {:induction false} ChosenPeers(q: Request, rows: seq<Entry<Peer>>, peers: map<Hash, Peer>,
                                       chosen: seq<Entry<Peer>>, ntop: Printer)
    requires Enumerates(rows, peers) && Chosen(q, rows, chosen, ntop)
    ensures forall row :: row in chosen ==>
      && row.hash in peers && row.data == Some(peers[row.hash])
      && ((q.ipVersion.first && peers[row.hash].ipVersion.first)
          || (q.ipVersion.second && peers[row.hash].ipVersion.second))
    ensures !Full(q, chosen, ntop) ==>
      forall id :: id in peers && ((q.ipVersion.first && peers[id].ipVersion.first)
                                   || (q.ipVersion.second && peers[id].ipVersion.second)) ==>
        Entry(id, Some(peers[id])) in chosen
  {
    hide Sound, Full, Matching;
    forall row | row in chosen
      ensures row.hash in peers && row.data == Some(peers[row.hash]) && Matches(q, row)
    {
      MatchingMembers(q, rows, row);
    }
    if !Full(q, chosen, ntop) {
      forall id | id in peers && Matches(q, Entry(id, Some(peers[id])))
        ensures Entry(id, Some(peers[id])) in chosen
      {
        MatchingMembers(q, rows, Entry(id, Some(peers[id])));
      }
    }
  }

  // ---------------------------------------------------------------- printing

  lemma {:induction false} Joined(s: seq<byte>, t: seq<byte>, u: seq<byte>)
    ensures s + (t + u) == s + t + u
  {
  }

  lemma {:induction false} JoinedFour(s: seq<byte>, t: seq<byte>, u: seq<byte>, v: seq<byte>, w: seq<byte>)
    ensures s + (t + u + v + w) == s + t + u + v + w
  {
  }

  lemma {:induction false} EncodeNext(f: Fields)
    ensures Encode(Dict(f)) == [D] + EncodeFields(f) + [E]
    ensures f.Field? ==> EncodeFields(f) == String(f.key) + Encode(f.value) + EncodeFields(f.tail)
    ensures f.NoField? ==> EncodeFields(f) == []
  {
  }

  /** A key as it stands in a format string: its length, a colon and itself. */
  lemma {:induction false} Key(key: string, text: string)
    requires |key| < 10 && text == [(48 + |key|) as char, ':'] + key
    ensures String(Ascii(key)) == Ascii(text)
  {
  }

  lemma {:induction false} TwoDigits(n: nat)
    requires 10 <= n < 100
    ensures Decimal(n) == [48 + n / 10, 48 + n % 10]
  {
  }

  /** A number in a dictionary, with the format text around it. */
  lemma {:induction false} NumberFormat(key: string, i: int, rest: Fields, before: seq<byte>)
    ensures before + EncodeFields(Field(Ascii(key), Int(i), rest))
         == before + String(Ascii(key)) + [I] + Integer(i) + [E] + EncodeFields(rest)
  {
  }

  lemma {:induction false} TextFormat(key: string, t: seq<byte>, rest: Fields, before: seq<byte>)
    ensures before + EncodeFields(Field(Ascii(key), Str(t), rest))
         == before + String(Ascii(key)) + Decimal(|t|) + [COLON] + t + EncodeFields(rest)
  {
  }

  /** The literals of the peer formats, cut at their keys. */
  lemma {:induction false} PeerLiterals()
    ensures Ascii("d4:porti") == [D] + Ascii("4:port") + [I]
    ensures Ascii("e2:ip") == [E] + Ascii("2:ip")
    ensures Ascii("e7:peer id20:") == [E] + Ascii("7:peer id") + [50, 48] + [COLON]
    ensures Ascii(":") == [COLON] && Ascii("e") == [E]
  {
  }

  /** The text of a peer dictionary up to the address, and from its length on. */
  function PeerHead(q: Request, id: Hash, p: Peer): seq<byte>
    requires Addressed(p)
  {
    var begin := Ascii("d4:porti") + Integer(PortNumber(p));
    if q.noPeerId then begin + Ascii("e2:ip") else begin + Ascii("e7:peer id20:") + id + Ascii("2:ip")
  }

  lemma {:induction false} PeerFormatShort(q: Request, id: Hash, p: Peer, f: Fields)
    requires Addressed(p) && q.noPeerId && f.Field? && f.key == Ascii("ip") && f.value.Str? && f.tail.NoField?
    ensures [D] + EncodeFields(Field(Ascii("port"), Int(PortNumber(p)), f))
         == PeerHead(q, id, p) + Decimal(|f.value.s|) + [COLON] + f.value.s
  {
    hide Encode, EncodeFields, String, Integer, Decimal, Ascii;
    var begin := Ascii("d4:porti") + Integer(PortNumber(p));
    PeerLiterals();
    Key("port", "4:port");
    Key("ip", "2:ip");
    NumberFormat("port", PortNumber(p), f, [D]);
    EncodeNext(NoField);
    TextFormat("ip", f.value.s, f.tail, begin + [E]);
    assert begin + [E] + Ascii("2:ip") == begin + ([E] + Ascii("2:ip"));
  }

  lemma {:induction false} PeerFormatLong(q: Request, id: Hash, p: Peer, f: Fields)
    requires Addressed(p) && |id| == HASH_LENGTH && !q.noPeerId
    requires f.Field? && f.key == Ascii("ip") && f.value.Str? && f.tail.NoField?
    ensures [D] + EncodeFields(Field(Ascii("port"), Int(PortNumber(p)), Field(Ascii("peer id"), Str(id), f)))
         == PeerHead(q, id, p) + Decimal(|f.value.s|) + [COLON] + f.value.s
  {
    hide Encode, EncodeFields, String, Integer, Decimal, Ascii;
    var rest := Field(Ascii("peer id"), Str(id), f);
    var begin := Ascii("d4:porti") + Integer(PortNumber(p));
    PeerLiterals();
    Key("port", "4:port");
    Key("ip", "2:ip");
    Key("peer id", "7:peer id");
    NumberFormat("port", PortNumber(p), rest, [D]);
    EncodeNext(NoField);
    TextFormat("peer id", id, f, begin + [E]);
    TwoDigits(HASH_LENGTH);
    assert begin + [E] + Ascii("7:peer id") + [50, 48] + [COLON]
        == begin + ([E] + Ascii("7:peer id") + [50, 48] + [COLON]);
    TextFormat("ip", f.value.s, f.tail, begin + Ascii("e7:peer id20:") + id);
  }

  /** The format strings of the two peer dictionaries are bencoding. */
  lemma {:induction false} PeerFormat(q: Request, id: Hash, p: Peer, ntop: Printer)
    requires Addressed(p) && |id| == HASH_LENGTH
    ensures var ip := ntop(Address(q, p));
      Encode(PeerValue(q, id, p, ntop))
      == PeerHead(q, id, p) + (Decimal(|ip|) + Ascii(":") + ip + Ascii("e"))
  {
    hide Encode, EncodeFields, String, Integer, Decimal, Ascii, PeerHead;
    var ip := ntop(Address(q, p));
    var last := Field(Ascii("ip"), Str(ip), NoField);
    PeerLiterals();
    JoinedFour(PeerHead(q, id, p), Decimal(|ip|), [COLON], ip, [E]);
    if q.noPeerId {
      EncodeNext(Field(Ascii("port"), Int(PortNumber(p)), last));
      PeerFormatShort(q, id, p, last);
    } else {
      EncodeNext(Field(Ascii("port"), Int(PortNumber(p)), Field(Ascii("peer id"), Str(id), last)));
      PeerFormatLong(q, id, p, last);
    }
  }

  // ---------------------------------------------------------------- lengths of numbers

  function Pow10(k: nat): nat {
    if k == 0 then 1 else 10 * Pow10(k - 1)
  }

  lemma {:induction false} DecimalLength(n: nat, k: nat)
    requires k > 0 && n < Pow10(k)
    ensures |Decimal(n)| <= k
  {
    if n >= 10 {
      assert Pow10(k - 1) > 1;
      DecimalLength(n / 10, k - 1);
    }
  }

  lemma {:induction false} NumberLengths(n: nat)
    ensures n < 100 ==> |Decimal(n)| <= 2
    ensures n < 100000 ==> |Decimal(n)| <= 5
    ensures n <= WORD ==> |Decimal(n)| <= 10
  {
    assert Pow10(1) == 10 && Pow10(2) == 100 && Pow10(3) == 1000 && Pow10(4) == 10000 && Pow10(5) == 100000;
    assert Pow10(6) == 1000000 && Pow10(7) == 10000000 && Pow10(8) == 100000000 && Pow10(9) == 1000000000;
    assert Pow10(10) == 10000000000;
    if n < 100 {
      DecimalLength(n, 2);
    }
    if n < 100000 {
      DecimalLength(n, 5);
    }
    if n <= WORD {
      DecimalLength(n, 10);
    }
  }

  // ---------------------------------------------------------------- the callback and its traversal

  /** `renderAnnouncePeersCallback`; `stop` is LIST_BREAK_RETURN. */
  method RenderPeer(block: Block, row: Entry<Peer>, q: Request, leftPeers: u32, ntop: Printer)
    returns (stop: bool, left: u32)
    requires block.Valid() && block.peak < WORD / 16
    requires row.data.Some? && Addressed(row.data.value) && |row.hash| == HASH_LENGTH
    modifies block, block.data
    ensures block.Valid() && block.peak < WORD / 16 && (block.data == old(block.data) || fresh(block.data))
    ensures |old(block.Contents())| >= 64000 ==> stop && block.Contents() == old(block.Contents())
    ensures |old(block.Contents())| < 64000 && !Matches(q, row) ==>
      !stop && left == leftPeers && block.Contents() == old(block.Contents())
    ensures |old(block.Contents())| < 64000 && Matches(q, row) ==>
      && left == Wrap32(leftPeers - 1) && stop == (left == 0)
      && block.Contents() == old(block.Contents()) + PeerText(q, row, ntop)
  {
    hide PeerValue, Decimal, Integer, Ascii, Encode;
    left := leftPeers;
    if block.size >= MAX_PACKET_SIZE {
      return true, left;
    }
    if !Matches(q, row) {
      return false, left;
    }
    var peer := row.data.value;
    if q.compact || q.udp {
      block.AddString(Address(q, peer));
      block.AddString(PortBytes(peer));
    } else {
      RenderDictionary(block, row, q, ntop);
    }
    left := Wrap32(left - 1);
    stop := left <= 0;
  }

  /** What the format strings print: a peer without an id, and what stands before and behind an id. */
  function ShortText(p: Peer, ip: seq<byte>): seq<byte>
    requires Addressed(p)
  {
    Ascii("d4:porti") + Integer(PortNumber(p)) + Ascii("e2:ip") + (Decimal(|ip|) + Ascii(":") + ip + Ascii("e"))
  }

  function LongHead(p: Peer): seq<byte>
    requires Addressed(p)
  {
    Ascii("d4:porti") + Integer(PortNumber(p)) + Ascii("e7:peer id20:")
  }

  function LongTail(ip: seq<byte>): seq<byte> {
    Ascii("2:ip") + (Decimal(|ip|) + Ascii(":") + ip + Ascii("e"))
  }

  lemma {:induction false} DictionaryLengths(p: Peer, ip: seq<byte>)
    requires Addressed(p) && |ip| <= 45
    ensures |ShortText(p, ip)| <= 500 && |LongHead(p)| <= 500 && |LongTail(ip)| <= 500
  {
    hide Decimal, Integer;
    NumberLengths(PortNumber(p));
    NumberLengths(|ip|);
    PortInteger(p);
  }

  lemma {:induction false} DictionaryTexts(q: Request, id: Hash, p: Peer, ntop: Printer, before: seq<byte>)
    requires Addressed(p) && |id| == HASH_LENGTH
    ensures var ip, all := ntop(Address(q, p)), before + Encode(PeerValue(q, id, p, ntop));
      && (q.noPeerId ==> all == before + ShortText(p, ip))
      && (!q.noPeerId ==> all == before + LongHead(p) + id + LongTail(ip))
  {
    hide PeerValue, Decimal, Integer, Ascii, Encode, PortNumber, Address;
    var ip := ntop(Address(q, p));
    var end := Decimal(|ip|) + Ascii(":") + ip + Ascii("e");
    PeerFormat(q, id, p, ntop);
    if !q.noPeerId {
      Joined(LongHead(p) + id, Ascii("2:ip"), end);
      Joined(before, LongHead(p), id);
      Joined(before, LongHead(p) + id, LongTail(ip));
    }
  }

  /** The dictionary forms of a peer. */
  method RenderDictionary(block: Block, row: Entry<Peer>, q: Request, ntop: Printer)
    requires block.Valid() && block.peak < WORD / 16 && block.size < MAX_PACKET_SIZE
    requires row.data.Some? && Addressed(row.data.value) && |row.hash| == HASH_LENGTH
    modifies block, block.data
    ensures block.Valid() && block.peak < WORD / 16 && (block.data == old(block.data) || fresh(block.data))
    ensures block.Contents() == old(block.Contents()) + Encode(PeerValue(q, row.hash, row.data.value, ntop))
  {
    hide PeerValue, Encode, ShortText, LongHead, LongTail, Block.Fits;
    block.SmallFits(500);
    var peer := row.data.value;
    var ip := ntop(Address(q, peer));
    DictionaryTexts(q, row.hash, peer, ntop, block.Contents());
    DictionaryLengths(peer, ip);
    if q.noPeerId {
      block.AddFormat(500, ShortText(peer, ip));
    } else {
      block.AddFormat(500, LongHead(peer));
      block.SmallFits(HASH_LENGTH);
      block.AddString(row.hash);
      block.SmallFits(500);
      block.AddFormat(500, LongTail(ip));
    }
  }

  lemma {:induction false} PortInteger(p: Peer)
    requires Addressed(p)
    ensures 0 <= PortNumber(p) < 65536 && Integer(PortNumber(p)) == Decimal(PortNumber(p))
  {
  }

  lemma {:induction false} MatchingGrows(q: Request, rows: seq<Entry<Peer>>, i: nat)
    requires i <= |rows|
    ensures Matching(q, rows[..i]) <= Matching(q, rows)
    ensures i < |rows| ==>
      Matching(q, rows[..i + 1]) == Matching(q, rows[..i]) + if Matches(q, rows[i]) then [rows[i]] else []
  {
    hide Matches;
    if i < |rows| {
      assert rows[..i + 1][..i] == rows[..i];
      var n := |rows| - 1;
      assert rows[..n][..i] == rows[..i];
      MatchingGrows(q, rows[..n], i);
    } else {
      assert rows[..i] == rows;
    }
  }

  lemma {:induction false} OneMorePeer(q: Request, chosen: seq<Entry<Peer>>, row: Entry<Peer>, ntop: Printer)
    requires Sound(chosen) && NoneFull(q, chosen, ntop) && !Full(q, chosen, ntop)
    requires row.data.Some? && Addressed(row.data.value) && |row.hash| == HASH_LENGTH
    ensures Sound(chosen + [row]) && NoneFull(q, chosen + [row], ntop)
    ensures PeersText(q, chosen + [row], ntop) == PeersText(q, chosen, ntop) + PeerText(q, row, ntop)
  {
    hide Full, PeerText, Addressed;
    var more := chosen + [row];
    assert more[..|chosen|] == chosen;
    forall n | 0 <= n < |more| ensures Sound(more[..n]) && !Full(q, more[..n], ntop) {
      assert more[..n] == chosen[..n];
      assert n == |chosen| ==> more[..n] == chosen;
    }
  }

  /** The unsigned count-down of `leftPeers` reaches zero exactly at the limit. */
  lemma {:induction false} CountDown(numwant: u32, k: nat)
    requires 1 <= k <= Limit(numwant)
    ensures Wrap32(Wrap32(numwant - (k - 1)) - 1) == Wrap32(numwant - k)
    ensures Wrap32(numwant - k) == 0 <==> k == if numwant == 0 then 0x1_0000_0000 else numwant
    ensures Limit(numwant) == if numwant == 0 then 0x1_0000_0000 else numwant
  {
  }

  /** The traversal has met the first `i` peers and chosen all that match; the answer is not full. */
  ghost predicate Underway(q: Request, rows: seq<Entry<Peer>>, i: nat, chosen: seq<Entry<Peer>>, left: u32,
                           ntop: Printer)
  {
    && i <= |rows| && Sound(chosen) && NoneFull(q, chosen, ntop) && chosen == Matching(q, rows[..i])
    && |chosen| < Limit(q.numwant) && left == Wrap32(q.numwant - |chosen|)
  }

  /** The choice after one more peer. */
  function NextChosen(q: Request, chosen: seq<Entry<Peer>>, row: Entry<Peer>, size: nat): seq<Entry<Peer>> {
    if size < MAX_PACKET_SIZE && Matches(q, row) then chosen + [row] else chosen
  }

  lemma {:induction false} PeersBegin(q: Request, rows: seq<Entry<Peer>>, ntop: Printer)
    ensures Underway(q, rows, 0, [], q.numwant, ntop) && Sound([]) && PeersText(q, [], ntop) == []
  {
  }

  /** The traversal ends behind the last peer or at a full answer. */
  lemma {:induction false} PeersEnd(q: Request, rows: seq<Entry<Peer>>, chosen: seq<Entry<Peer>>, i: nat, ntop: Printer)
    requires i <= |rows| && Sound(chosen) && NoneFull(q, chosen, ntop) && chosen == Matching(q, rows[..i])
    requires i == |rows| || |chosen| == Limit(q.numwant) || |PeersText(q, chosen, ntop)| >= MAX_PACKET_SIZE
    ensures Chosen(q, rows, chosen, ntop)
  {
    hide Matching, PeersText;
    MatchingGrows(q, rows, i);
    assert rows[..|rows|] == rows;
  }

  lemma {:induction false} PeersStep(q: Request, rows: seq<Entry<Peer>>, i: nat, chosen: seq<Entry<Peer>>,
                                     left: u32, ntop: Printer)
    requires Sound(rows) && i < |rows| && Underway(q, rows, i, chosen, left, ntop)
    ensures rows[i].data.Some? && Addressed(rows[i].data.value) && |rows[i].hash| == HASH_LENGTH
    ensures var size := |PeersText(q, chosen, ntop)|;
      var next := NextChosen(q, chosen, rows[i], size);
      && Sound(next)
      && (size >= MAX_PACKET_SIZE ==> Chosen(q, rows, next, ntop))
      && (size < MAX_PACKET_SIZE && !Matches(q, rows[i]) ==> Underway(q, rows, i + 1, next, left, ntop))
      && (size < MAX_PACKET_SIZE && Matches(q, rows[i]) ==>
        && PeersText(q, next, ntop) == PeersText(q, chosen, ntop) + PeerText(q, rows[i], ntop)
        && var now := Wrap32(left - 1);
           if now == 0 then Chosen(q, rows, next, ntop) else Underway(q, rows, i + 1, next, now, ntop))
  {
    hide Matches, PeerText, PeersText, Matching, Wrap32, Limit, Addressed, NoneFull, Chosen, Full;
    assert rows[i].data.Some?;
    MatchingGrows(q, rows, i);
    if |PeersText(q, chosen, ntop)| >= MAX_PACKET_SIZE {
      PeersEnd(q, rows, chosen, i, ntop);
    } else if Matches(q, rows[i]) {
      MatchingPeer(q, rows, i, chosen, left, ntop);
    }
  }

  lemma {:induction false} NotFull(q: Request, chosen: seq<Entry<Peer>>, ntop: Printer)
    requires Sound(chosen) && |chosen| < Limit(q.numwant) && |PeersText(q, chosen, ntop)| < MAX_PACKET_SIZE
    ensures !Full(q, chosen, ntop)
  {
  }

  lemma {:induction false} MatchingPeer(q: Request, rows: seq<Entry<Peer>>, i: nat, chosen: seq<Entry<Peer>>,
                                        left: u32, ntop: Printer)
    requires i < |rows| && Underway(q, rows, i, chosen, left, ntop) && Matches(q, rows[i])
    requires rows[i].data.Some? && Addressed(rows[i].data.value) && |rows[i].hash| == HASH_LENGTH
    requires |PeersText(q, chosen, ntop)| < MAX_PACKET_SIZE
    ensures var next, now := chosen + [rows[i]], Wrap32(left - 1);
      && Sound(next)
      && PeersText(q, next, ntop) == PeersText(q, chosen, ntop) + PeerText(q, rows[i], ntop)
      && if now == 0 then Chosen(q, rows, next, ntop) else Underway(q, rows, i + 1, next, now, ntop)
  {
    hide Matches, PeerText, PeersText, Matching, Wrap32, Limit, Addressed, NoneFull, Chosen, Full, Sound;
    NotFull(q, chosen, ntop);
    OneMorePeer(q, chosen, rows[i], ntop);
    MatchingGrows(q, rows, i);
    PeerCounted(q, rows, i + 1, chosen + [rows[i]], left, ntop);
  }

  /** The count-down behind a peer that was chosen: the answer is full, or the traversal goes on. */
  lemma {:induction false} PeerCounted(q: Request, rows: seq<Entry<Peer>>, i: nat, next: seq<Entry<Peer>>, left: u32,
                                       ntop: Printer)
    requires i <= |rows| && Sound(next) && NoneFull(q, next, ntop) && next == Matching(q, rows[..i])
    requires 1 <= |next| <= Limit(q.numwant) && left == Wrap32(q.numwant - (|next| - 1))
    ensures var now := Wrap32(left - 1);
      if now == 0 then Chosen(q, rows, next, ntop) else Underway(q, rows, i, next, now, ntop)
  {
    hide PeersText, Matching, Wrap32, Limit, NoneFull, Chosen, Full, Sound;
    CountDown(q.numwant, |next|);
    if |next| == Limit(q.numwant) {
      PeersEnd(q, rows, next, i, ntop);
    }
  }

  /** One step of the traversal. */
  method RenderNext(block: Block, row: Entry<Peer>, ghost rows: seq<Entry<Peer>>, ghost i: nat,
                    ghost chosen: seq<Entry<Peer>>, q: Request, leftPeers: u32, ntop: Printer)
    returns (stop: bool, left: u32, ghost next: seq<Entry<Peer>>)
    requires block.Valid() && block.peak < WORD / 16 && Sound(rows) && Sound(chosen) && i < |rows| && row == rows[i]
    requires block.Contents() == PeersText(q, chosen, ntop) && Underway(q, rows, i, chosen, leftPeers, ntop)
    modifies block, block.data
    ensures block.Valid() && block.peak < WORD / 16 && (block.data == old(block.data) || fresh(block.data))
    ensures Sound(next) && block.Contents() == PeersText(q, next, ntop)
    ensures if stop then Chosen(q, rows, next, ntop) else Underway(q, rows, i + 1, next, left, ntop)
  {
    hide Matches, PeerText, PeersText, Wrap32, Addressed, Chosen, Underway, Sound, Matching, Limit;
    PeersStep(q, rows, i, chosen, leftPeers, ntop);
    next := NextChosen(q, chosen, rows[i], |PeersText(q, chosen, ntop)|);
    stop, left := RenderPeer(block, row, q, leftPeers, ntop);
  }

  lemma {:induction false} PeersFinished(q: Request, rows: seq<Entry<Peer>>, chosen: seq<Entry<Peer>>,
                                         left: u32, ntop: Printer)
    requires Underway(q, rows, |rows|, chosen, left, ntop)
    ensures Chosen(q, rows, chosen, ntop)
  {
    hide Matching;
    PeersEnd(q, rows, chosen, |rows|, ntop);
  }
}
