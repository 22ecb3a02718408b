/** The scrape answers of data.c, rendered from the torrent list on the heap. */
module Scrape {
  import opened Bytes
  import opened HashOrder
  import opened ByteOrder
  import opened Text
  import opened Block
  import opened Entries
  import HashList
  import HashListOps
  import opened TrackerHeap
  import opened TorrentRecord
  import opened Tracker
  import opened Bencode
  import opened Render
  import opened Announce
  import UdpRequest

  /** A torrent that is not in the list is rendered as an empty one. */
  function CountersAt(s: State, h: Hash): Counters {
    CountersOf(if h in s then s[h] else NEW_TORRENT)
  }

  /** Hash number `i` of the bytes requested. */
  function Chunk(b: seq<byte>, i: nat): Hash
    requires HASH_LENGTH * (i + 1) <= |b|
  {
    b[HASH_LENGTH * i..HASH_LENGTH * (i + 1)]
  }

  function ScrapeCounters(t: Counters): Value {
    Dict(Field(Ascii("complete"), Int(Signed(t.complete)),
               Field(Ascii("incomplete"), Int(Signed(t.incomplete)),
                     Field(Ascii("downloaded"), Int(Signed(t.downloaded)), NoField))))
  }

  /** The counters of BEP 15: seeders, completed, leechers. */
  function PackedCounters(t: Counters): seq<byte> {
    Octets(t.complete, 4) + Octets(t.downloaded, 4) + Octets(t.incomplete, 4)
  }

  function EntryText(udp: bool, h: Hash, t: Counters): seq<byte> {
    if udp then PackedCounters(t) else String(h) + Encode(ScrapeCounters(t))
  }

  /** The texts of the first `k` hashes. */
  function EntriesText(udp: bool, s: State, b: seq<byte>, k: nat): seq<byte>
    requires HASH_LENGTH * k <= |b|
  {
    if k == 0 then []
    else EntriesText(udp, s, b, k - 1) + EntryText(udp, Chunk(b, k - 1), CountersAt(s, Chunk(b, k - 1)))
  }

  /** `k` hashes are answered: all of them, or as many as reach the size limit, and no more than that. */
  ghost predicate Answered(udp: bool, s: State, b: seq<byte>, k: nat) {
    && k <= |b| / HASH_LENGTH
    && (k == |b| / HASH_LENGTH || |EntriesText(udp, s, b, k)| >= MAX_PACKET_SIZE)
    && forall j :: 0 <= j < k ==> |EntriesText(udp, s, b, j)| < MAX_PACKET_SIZE
  }

  lemma {:induction false} AnsweredIsUnique(udp: bool, s: State, b: seq<byte>, k: nat, l: nat)
    requires Answered(udp, s, b, k) && Answered(udp, s, b, l)
    ensures k == l
  {
  }

  /** The hashes from number `i` on as dictionary entries. */
  function EntriesFrom(s: State, b: seq<byte>, i: nat, k: nat): Fields
    requires HASH_LENGTH * k <= |b|
    decreases k - i
  {
    if i >= k then NoField
    else Field(Chunk(b, i), ScrapeCounters(CountersAt(s, Chunk(b, i))), EntriesFrom(s, b, i + 1, k))
  }

  /** The answer over HTTP. */
  function ScrapeValue(s: State, b: seq<byte>, k: nat): Value
    requires HASH_LENGTH * k <= |b|
  {
    Dict(Field(Ascii("files"), Dict(EntriesFrom(s, b, 0, k)), NoField))
  }

  function ScrapeText(q: Request, s: State, b: seq<byte>, k: nat): seq<byte>
    requires HASH_LENGTH * k <= |b|
  {
    if q.udp then Octets(UdpRequest.ACTION_SCRAPE, 4) + q.transaction + EntriesText(true, s, b, k)
    else Encode(ScrapeValue(s, b, k))
  }

  // ---------------------------------------------------------------- the format strings

  function CountersText(t: Counters): seq<byte> {
    Ascii("d8:completei") + Integer(Signed(t.complete))
    + Ascii("e10:incompletei") + Integer(Signed(t.incomplete))
    + Ascii("e10:downloadedi") + Integer(Signed(t.downloaded))
    + Ascii("ee")
  }

  lemma {:induction false} CountersFormat(t: Counters)
    ensures Encode(ScrapeCounters(t)) == CountersText(t)
  {
    hide *;
    assert Ascii("ee") == [E] + [E] by { TwoEnds(); }
    HeadKeys();
    HeadLiterals();
    CountersFields(t);
    var c := Field(Ascii("downloaded"), Int(Signed(t.downloaded)), NoField);
    var b := Field(Ascii("incomplete"), Int(Signed(t.incomplete)), c);
    var a := Field(Ascii("complete"), Int(Signed(t.complete)), b);
    EncodeNext(a);
    EncodeNext(NoField);
    NumberFormat("complete", Signed(t.complete), b, [D]);
    var begin := Ascii("d8:completei") + Integer(Signed(t.complete));
    NumberStep(begin, "incomplete", Signed(t.incomplete), c, Ascii("e10:incompletei"));
    begin := begin + Ascii("e10:incompletei") + Integer(Signed(t.incomplete));
    NumberStep(begin, "downloaded", Signed(t.downloaded), NoField, Ascii("e10:downloadedi"));
    begin := begin + Ascii("e10:downloadedi") + Integer(Signed(t.downloaded));
    assert begin + [E] + [] + [E] == begin + ([E] + [E]);
  }

  lemma {:induction false} CountersFields(t: Counters)
    ensures ScrapeCounters(t)
         == Dict(Field(Ascii("complete"), Int(Signed(t.complete)),
                       Field(Ascii("incomplete"), Int(Signed(t.incomplete)),
                             Field(Ascii("downloaded"), Int(Signed(t.downloaded)), NoField))))
    ensures CountersText(t) == Ascii("d8:completei") + Integer(Signed(t.complete))
              + Ascii("e10:incompletei") + Integer(Signed(t.incomplete))
              + Ascii("e10:downloadedi") + Integer(Signed(t.downloaded)) + Ascii("ee")
  {
  }

  lemma {:induction false} TwoEnds()
    ensures Ascii("ee") == [E] + [E]
  {
  }

  lemma {:induction false} CountersLength(t: Counters)
    ensures |CountersText(t)| <= 100
  {
    hide Integer, Signed;
    SignedLength(t.complete);
    SignedLength(t.incomplete);
    SignedLength(t.downloaded);
  }

  /** `20:` and a hash are a bencoded string. */
  lemma {:induction false} HashFormat(h: Hash)
    requires |h| == HASH_LENGTH
    ensures String(h) == Ascii("20:") + h
  {
  }

  /** The entries rendered one by one are the dictionary. */
  lemma {:induction false} EntriesFormat(s: State, b: seq<byte>, i: nat, k: nat)
    requires i <= k && HASH_LENGTH * k <= |b|
    ensures EntriesText(false, s, b, k) == EntriesText(false, s, b, i) + EncodeFields(EntriesFrom(s, b, i, k))
    decreases k - i
  {
    hide ScrapeCounters, Encode, String, CountersAt, Chunk;
    if i < k {
      EntriesFormat(s, b, i + 1, k);
      var h := Chunk(b, i);
      Joined(EntriesText(false, s, b, i), EntryText(false, h, CountersAt(s, h)),
             EncodeFields(EntriesFrom(s, b, i + 1, k)));
    }
  }

  lemma {:induction false} ScrapeFormat(s: State, b: seq<byte>, k: nat)
    requires HASH_LENGTH * k <= |b|
    ensures Encode(ScrapeValue(s, b, k)) == Ascii("d5:filesd") + EntriesText(false, s, b, k) + Ascii("ee")
  {
    hide Encode, EncodeFields, String, EntriesText, EntriesFrom, Ascii;
    EntriesFormat(s, b, 0, k);
    NoEntries(s, b);
    Key("files", "5:files");
    var entries := EntriesFrom(s, b, 0, k);
    var f := Field(Ascii("files"), Dict(entries), NoField);
    EncodeNext(f);
    EncodeNext(entries);
    EncodeNext(NoField);
    FilesLiteral();
    var e := EntriesText(false, s, b, k);
    assert [] + EncodeFields(entries) == EncodeFields(entries);
    JoinedFiles([D], Ascii("5:files"), e, [E]);
  }

  lemma {:induction false} NoEntries(s: State, b: seq<byte>)
    ensures EntriesText(false, s, b, 0) == []
  {
  }

  lemma {:induction false} FilesLiteral()
    ensures Ascii("d5:filesd") == [D] + Ascii("5:files") + [D] && Ascii("ee") == [E] + [E]
  {
  }

  lemma {:induction false} JoinedFiles(d: seq<byte>, f: seq<byte>, t: seq<byte>, e: seq<byte>)
    ensures d + (f + (d + t + e) + []) + e == (d + f + d) + t + (e + e)
  {
  }

  // ---------------------------------------------------------------- the methods

  /** `renderScrapeTorrentL`. */
  method RenderScrapeTorrent(block: Block, t: Counters, hash: Hash, udp: bool)
    requires block.Valid() && block.peak < WORD / 16 && block.size < MAX_PACKET_SIZE && |hash| == HASH_LENGTH
    modifies block, block.data
    ensures block.Valid() && block.peak < WORD / 16 && (block.data == old(block.data) || fresh(block.data))
    ensures block.Contents() == old(block.Contents()) + EntryText(udp, hash, t)
  {
    hide PackedCounters, CountersText, ScrapeCounters, Encode, String, Stored, Swapped;
    if udp {
      PackedLength(t);
      PackedStored(t);
      block.AddString(Stored(Swapped(t.complete)) + Stored(Swapped(t.downloaded)) + Stored(Swapped(t.incomplete)));
    } else {
      HashFormat(hash);
      CountersFormat(t);
      Joined(block.Contents(), String(hash), CountersText(t));
      Joined(block.Contents(), Ascii("20:"), hash);
      AddTexts(block, hash, t);
    }
  }

  /** The three pieces over HTTP. */
  method AddTexts(block: Block, hash: Hash, t: Counters)
    requires block.Valid() && block.peak < WORD / 16 && block.size < MAX_PACKET_SIZE && |hash| == HASH_LENGTH
    modifies block, block.data
    ensures block.Valid() && block.peak < WORD / 16 && (block.data == old(block.data) || fresh(block.data))
    ensures block.Contents() == old(block.Contents()) + Ascii("20:") + hash + CountersText(t)
  {
    hide CountersText, FitsIn;
    CountersLength(t);
    block.SmallFits(3);
    block.AddString(Ascii("20:"));
    block.SmallFits(HASH_LENGTH);
    block.AddString(hash);
    block.SmallFits(1000);
    block.AddFormat(1000, CountersText(t));
  }

  /** `struct scrapeTorrentResponse` with its words turned by `htonl`. */
  lemma {:induction false} PackedStored(t: Counters)
    ensures Stored(Swapped(t.complete)) + Stored(Swapped(t.downloaded)) + Stored(Swapped(t.incomplete))
      == PackedCounters(t)
  {
    hide Stored, Swapped, Octets;
    SwappedStored(t.complete);
    SwappedStored(t.downloaded);
    SwappedStored(t.incomplete);
  }

  lemma {:induction false} PackedLength(t: Counters)
    ensures |PackedCounters(t)| == 12
  {
  }

  lemma {:induction false} BlockIsApart(list: HashList.List<Record>, block: Block)
    ensures forall l :: l in list.leaves ==> (l as object) != block && (l as object) != block.data
    ensures forall i :: i in HashListOps.ItemSet(list) ==> (i as object) != block && (i as object) != block.data
  {
  }

  /** What `getHash` finds is the record of the torrent. */
  lemma {:induction false} RecordFound(list: HashList.List<Record>, hash: Hash, torrent: HashList.Item?<Record>,
                                       s: State, world: set<object>)
    requires Holds(list, s, world) && HashListOps.ValidRoot(list)
    requires torrent == null <==> hash !in ToMap(HashListOps.Value(list))
    requires torrent != null ==> hash in ToMap(HashListOps.Value(list))
                                 && ToMap(HashListOps.Value(list))[hash] == torrent.data
    ensures torrent == null ==> CountersAt(s, hash) == CountersOf(NEW_TORRENT)
    ensures torrent != null ==> torrent.data.Some? && CountersIn(torrent.data.value) == CountersAt(s, hash)
  {
    hide ToMap, HashListOps.Valid, HashListOps.Value, Standing, Stands;
    HoldsMeans(list, s, world);
    if torrent != null {
      StandingAt(ToMap(HashListOps.Value(list)), s, hash, world);
      StandsMeans(torrent.data.value, s[hash]);
    }
  }

  /** One turn of the loop over the hashes. */
  method RenderOne(scrapeBlock: Block, list: HashList.List<Record>, hash: Hash, udp: bool, ghost s: State,
                   ghost world: set<object>)
    requires scrapeBlock.Valid() && scrapeBlock.peak < WORD / 16 && scrapeBlock.size < MAX_PACKET_SIZE
    requires |hash| == HASH_LENGTH && Holds(list, s, world)
    modifies scrapeBlock, scrapeBlock.data
    ensures scrapeBlock.Valid() && scrapeBlock.peak < WORD / 16
    ensures scrapeBlock.data == old(scrapeBlock.data) || fresh(scrapeBlock.data)
    ensures scrapeBlock.Contents() == old(scrapeBlock.Contents()) + EntryText(udp, hash, CountersAt(s, hash))
  {
    hide EntryText, Holds, ToMap, HashListOps.Valid, HashListOps.Value, CountersAt, CountersIn;
    HoldsMeans(list, s, world);
    var torrent := HashListOps.GetHash(list, hash);
    RecordFound(list, hash, torrent, s, world);
    var t := if torrent == null then CountersOf(NEW_TORRENT) else CountersIn(torrent.data.value);
    RenderScrapeTorrent(scrapeBlock, t, hash, udp);
  }

  /** The loop over the hashes of `renderScrapeTorrentsPublic`. */
  method RenderEntries(scrapeBlock: Block, list: HashList.List<Record>, b: seq<byte>, udp: bool, ghost s: State,
                       ghost world: set<object>)
    returns (ghost k: nat)
    requires scrapeBlock.Valid() && scrapeBlock.peak < WORD / 16 && scrapeBlock.Contents() == []
    requires Holds(list, s, world) && scrapeBlock !in world && scrapeBlock.data !in world
    modifies scrapeBlock, scrapeBlock.data
    ensures scrapeBlock.Valid() && scrapeBlock.peak < WORD / 16
    ensures scrapeBlock.data == old(scrapeBlock.data) || fresh(scrapeBlock.data)
    ensures HASH_LENGTH * k <= |b| && Answered(udp, s, b, k)
    ensures scrapeBlock.Contents() == EntriesText(udp, s, b, k)
  {
    hide EntryText, Holds, ToMap, HashListOps.Valid, HashListOps.Value, CountersAt, CountersIn;
    BlockIsApart(list, scrapeBlock);
    var index := 0;
    while index < |b| / HASH_LENGTH
      invariant index <= |b| / HASH_LENGTH && HASH_LENGTH * index <= |b|
      invariant scrapeBlock.Valid() && scrapeBlock.peak < WORD / 16 && Holds(list, s, world)
      invariant scrapeBlock.data == old(scrapeBlock.data) || fresh(scrapeBlock.data)
      invariant scrapeBlock.Contents() == EntriesText(udp, s, b, index)
      invariant forall j :: 0 <= j <= index ==> |EntriesText(udp, s, b, j)| < MAX_PACKET_SIZE
    {
      RenderOne(scrapeBlock, list, b[HASH_LENGTH * index..HASH_LENGTH * (index + 1)], udp, s, world);
      index := index + 1;
      if scrapeBlock.size >= MAX_PACKET_SIZE {
        break;
      }
    }
    k := index;
  }

  /** `renderScrapeTorrentsPublic`; a full scrape is switched off, so no hashes give no torrents. */
  method RenderScrape(block: Block, scrapeBlock: Block, list: HashList.List<Record>, hashes: Block, q: Request,
                      ghost s: State, ghost world: set<object>)
    returns (ghost k: nat)
    requires block != scrapeBlock && block.data != scrapeBlock.data
    requires hashes !in {block, scrapeBlock} && hashes.data !in {block.data, scrapeBlock.data}
    requires block.Valid() && block.peak < WORD / 32 && scrapeBlock.Valid() && scrapeBlock.peak < WORD / 16
    requires hashes.Valid() && Holds(list, s, world) && |q.transaction| == 4
    requires {block, block.data, scrapeBlock, scrapeBlock.data} !! world
    modifies block, block.data, scrapeBlock, scrapeBlock.data
    ensures block.Valid() && HASH_LENGTH * k <= |hashes.Contents()| && Answered(q.udp, s, hashes.Contents(), k)
    ensures block.Contents() == old(block.Contents()) + ScrapeText(q, s, hashes.Contents(), k)
  {
    hide Answered, EntriesText, Holds, ScrapeText, Octets, Ascii;
    BlockIsApart(list, block);
    BlockIsApart(list, scrapeBlock);
    ghost var before := block.Contents();
    var b := hashes.data[..hashes.size];
    scrapeBlock.Reset();
    AddHead(block, q);
    k := RenderEntries(scrapeBlock, list, b, q.udp, s, world);
    ScrapePieces(q, s, b, k, before);
    AddEntries(block, scrapeBlock, q);
  }

  /** The beginning of `renderScrapeTorrentsPublic`. */
  method AddHead(block: Block, q: Request)
    requires block.Valid() && block.peak < WORD / 32 && |q.transaction| == 4
    modifies block, block.data
    ensures block.Valid() && block.peak < WORD / 16 && (block.data == old(block.data) || fresh(block.data))
    ensures block.Contents() == old(block.Contents())
              + if q.udp then Octets(UdpRequest.ACTION_SCRAPE, 4) + q.transaction else Ascii("d5:filesd")
  {
    hide Octets, Ascii, Stored, Swapped;
    if q.udp {
      SwappedStored(UdpRequest.ACTION_SCRAPE);
      block.AddString(Stored(Swapped(UdpRequest.ACTION_SCRAPE)) + q.transaction);
    } else {
      block.AddString(Ascii("d5:filesd"));
    }
  }

  /** The end of `renderScrapeTorrentsPublic`: the entries, and over HTTP the ends of the dictionaries. */
  method AddEntries(block: Block, scrapeBlock: Block, q: Request)
    requires block != scrapeBlock && block.data != scrapeBlock.data && scrapeBlock.Valid()
    requires scrapeBlock.peak < WORD / 16
    requires block.Valid() && block.peak < WORD / 16
    modifies block, block.data
    ensures block.Valid()
    ensures block.Contents() == old(block.Contents()) + scrapeBlock.Contents() + if q.udp then [] else Ascii("ee")
  {
    hide Ascii;
    block.AddString(scrapeBlock.data[..scrapeBlock.size]);
    if !q.udp {
      block.AddString(Ascii("ee"));
    }
  }

  lemma {:induction false} ScrapePieces(q: Request, s: State, b: seq<byte>, k: nat, before: seq<byte>)
    requires HASH_LENGTH * k <= |b|
    ensures var all, e := before + ScrapeText(q, s, b, k), EntriesText(q.udp, s, b, k);
      && (q.udp ==> all == before + (Octets(UdpRequest.ACTION_SCRAPE, 4) + q.transaction) + e)
      && (!q.udp ==> all == before + Ascii("d5:filesd") + e + Ascii("ee"))
  {
    hide EntriesText, ScrapeValue, Encode, Octets, Ascii;
    if q.udp {
      Joined(before, Octets(UdpRequest.ACTION_SCRAPE, 4) + q.transaction, EntriesText(true, s, b, k));
    } else {
      ScrapeFormat(s, b, k);
      var e := EntriesText(false, s, b, k);
      Joined(before, Ascii("d5:filesd") + e, Ascii("ee"));
      Joined(before, Ascii("d5:filesd"), e);
    }
  }

  // ---------------------------------------------------------------- what a client reads

  /** Whichever of the answered hashes is looked up, its torrent's counters are found. */
  lemma {:induction false} EntriesRead(s: State, b: seq<byte>, i: nat, k: nat, n: nat)
    requires i <= n < k && HASH_LENGTH * k <= |b|
    ensures Lookup(EntriesFrom(s, b, i, k), Chunk(b, n)) == Some(ScrapeCounters(CountersAt(s, Chunk(b, n))))
    decreases n - i
  {
    hide ScrapeCounters, Chunk, CountersAt;
    if Chunk(b, i) != Chunk(b, n) {
      EntriesRead(s, b, i + 1, k, n);
    }
  }

  /** An answer over HTTP is read back with the counters of every hash answered. */
  lemma {:induction false} ScrapeReads(q: Request, s: State, b: seq<byte>, k: nat, n: nat)
    requires !q.udp && n < k && HASH_LENGTH * k <= |b|
    ensures var r := Parse(ScrapeText(q, s, b, k));
      && r.Some? && r.value.rest == [] && r.value.value.Dict?
      && var files := Lookup(r.value.value.fields, Ascii("files"));
      && files.Some? && files.value.Dict?
      && var found := Lookup(files.value.fields, b[20 * n..20 * n + 20]);
      found.Some? && TellsCounters(found.value, s, b[20 * n..20 * n + 20])
  {
    hide Encode, Parse, EntriesFrom, Chunk, ScrapeCounters, CountersAt, Ascii, TellsCounters;
    RoundTrip(ScrapeValue(s, b, k), []);
    assert Encode(ScrapeValue(s, b, k)) + [] == Encode(ScrapeValue(s, b, k));
    EntriesRead(s, b, 0, k, n);
    assert Chunk(b, n) == b[20 * n..20 * n + 20] by { ChunkAt(b, n); }
    CountersTold(s, Chunk(b, n));
  }

  lemma {:induction false} ChunkAt(b: seq<byte>, n: nat)
    requires 20 * (n + 1) <= |b|
    ensures Chunk(b, n) == b[20 * n..20 * n + 20]
  {
  }

  /** The counters of a torrent, or 0 without one; `%d` prints numbers from 2^31 on as negative ones. */
  predicate TellsCounters(v: Value, s: State, h: Hash) {
    var complete, incomplete := if h in s then s[h].complete else 0, if h in s then s[h].incomplete else 0;
    var downloaded := if h in s then s[h].downloaded else 0;
    && v.Dict?
    && Lookup(v.fields, Ascii("complete"))
       == Some(Int(if complete < 0x8000_0000 then complete else complete - 0x1_0000_0000))
    && Lookup(v.fields, Ascii("incomplete"))
       == Some(Int(if incomplete < 0x8000_0000 then incomplete else incomplete - 0x1_0000_0000))
    && Lookup(v.fields, Ascii("downloaded"))
       == Some(Int(if downloaded < 0x8000_0000 then downloaded else downloaded - 0x1_0000_0000))
  }

  lemma {:induction false} CountersTold(s: State, h: Hash)
    ensures TellsCounters(ScrapeCounters(CountersAt(s, h)), s, h)
  {
    hide Lookup, Ascii;
    KeysDiffer();
    var f := ScrapeCounters(CountersAt(s, h)).fields;
    LookupNext(f, Ascii("complete"));
    FindSecond(f, Ascii("incomplete"));
    FindSecond(f, Ascii("downloaded"));
    FindSecond(f.tail, Ascii("downloaded"));
  }

  lemma {:induction false} PackedTextLength(s: State, b: seq<byte>, k: nat)
    requires HASH_LENGTH * k <= |b|
    ensures |EntriesText(true, s, b, k)| == 12 * k
  {
    hide PackedCounters, CountersAt, Chunk;
    if k > 0 {
      PackedTextLength(s, b, k - 1);
      PackedLength(CountersAt(s, Chunk(b, k - 1)));
    }
  }

  /** An answer over UDP: its length, and the three counters of every hash answered at their offsets (BEP 15). */
  lemma {:induction false} PackedReads(q: Request, s: State, b: seq<byte>, k: nat, n: nat)
    requires q.udp && |q.transaction| == 4 && HASH_LENGTH * k <= |b| && n < k && Answered(true, s, b, k)
    ensures var text, h := ScrapeText(q, s, b, k), b[20 * n..20 * n + 20];
      && |text| == 8 + 12 * k <= 65527
      && Rank(text[0..4]) == 2 && text[4..8] == q.transaction
      && var at := 8 + 12 * n;
      && Rank(text[at..at + 4]) == (if h in s then s[h].complete else 0)
      && Rank(text[at + 4..at + 8]) == (if h in s then s[h].downloaded else 0)
      && Rank(text[at + 8..at + 12]) == if h in s then s[h].incomplete else 0
  {
    hide EntriesText, Octets, Rank, CountersAt, Chunk, PackedCounters;
    ChunkAt(b, n);
    FieldsAt(s, Chunk(b, n));
    PackedTextLength(s, b, k);
    PackedTextLength(s, b, k - 1);
    FourOctets(UdpRequest.ACTION_SCRAPE);
    var text, t, e := ScrapeText(q, s, b, k), CountersAt(s, Chunk(b, n)), EntriesText(true, s, b, k);
    var head := Octets(UdpRequest.ACTION_SCRAPE, 4) + q.transaction;
    assert text == head + e;
    assert text[0..4] == Octets(UdpRequest.ACTION_SCRAPE, 4) && text[4..8] == q.transaction;
    PackedAt(s, b, k, n);
    PackedParts(t);
    var at := 8 + 12 * n;
    SliceOfSlice(text, at, 12);
    assert text[at..at + 12] == e[12 * n..12 * n + 12];
  }

  lemma {:induction false} FieldsAt(s: State, h: Hash)
    ensures CountersAt(s, h).complete == (if h in s then s[h].complete else 0)
    ensures CountersAt(s, h).downloaded == (if h in s then s[h].downloaded else 0)
    ensures CountersAt(s, h).incomplete == (if h in s then s[h].incomplete else 0)
  {
  }

  lemma {:induction false} SliceOfSlice(text: seq<byte>, at: nat, n: nat)
    requires at + n <= |text| && n == 12
    ensures text[at..at + 4] == text[at..at + n][0..4] && text[at + 4..at + 8] == text[at..at + n][4..8]
    ensures text[at + 8..at + 12] == text[at..at + n][8..12]
  {
  }

  lemma {:induction false} PackedAt(s: State, b: seq<byte>, k: nat, n: nat)
    requires HASH_LENGTH * k <= |b| && n < k
    ensures |EntriesText(true, s, b, k)| == 12 * k
    ensures EntriesText(true, s, b, k)[12 * n..12 * n + 12] == PackedCounters(CountersAt(s, Chunk(b, n)))
  {
    hide PackedCounters, CountersAt, Chunk;
    PackedTextLength(s, b, k);
    PackedTextLength(s, b, k - 1);
    PackedLength(CountersAt(s, Chunk(b, k - 1)));
    if n < k - 1 {
      PackedAt(s, b, k - 1, n);
    }
  }

  lemma {:induction false} PackedParts(t: Counters)
    ensures var p := PackedCounters(t);
      |p| == 12 && Rank(p[0..4]) == t.complete && Rank(p[4..8]) == t.downloaded && Rank(p[8..12]) == t.incomplete
  {
    hide Octets, Rank;
    FourOctets(t.complete);
    FourOctets(t.downloaded);
    FourOctets(t.incomplete);
    var p := PackedCounters(t);
    assert p[0..4] == Octets(t.complete, 4) && p[4..8] == Octets(t.downloaded, 4)
      && p[8..12] == Octets(t.incomplete, 4);
  }
}
