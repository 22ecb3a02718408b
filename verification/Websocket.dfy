/** The accept value of websocket.c against section 4.2.2 of RFC 6455. */
module Websocket {
  import opened Bytes
  import opened Block
  import opened Text
  import Base64
  import Sha1

  const CARRIAGE_RETURN: byte := 13
  const SPACE: byte := 32

  const HEADER := Ascii("Sec-WebSocket-Key: ")
  /** 258EAFA5-E914-47DA-95CA-C5AB0DC85B11 */
  const GUID := Ascii("258EAFA5-E914") + Ascii("-47DA-95CA-") + Ascii("C5AB0DC85B11")

  /** Section 4.2.2, item 5.4: base64 of the SHA-1 of the key followed by the GUID. */
  function AcceptValue(key: seq<byte>): seq<byte> {
    Base64.Encoded(Sha1.Digest(key + GUID))
  }

  /** The accept value has 28 characters and decodes to the 20-byte digest. */
  lemma {:induction false} AcceptValueShape(key: seq<byte>)
    ensures |AcceptValue(key)| == 28
    ensures Base64.Decoded(AcceptValue(key)) == Some(Sha1.Digest(key + GUID))
  {
    hide Sha1.Digest, Base64.Encoded, Base64.Decoded;
    Base64.RoundTrip(Sha1.Digest(key + GUID));
  }

  // ---------------------------------------------------------------- finding the key

  predicate IsEnd(b: byte) {
    b == CARRIAGE_RETURN || b == SPACE
  }

  predicate NoEnd(s: seq<byte>) {
    forall i :: 0 <= i < |s| ==> !IsEnd(s[i])
  }

  /**
   * `key` is what the loop of `websocketKey2Accept` collects from `data`: it starts behind the first
   * header and stops at a carriage return or a space, or one byte before the end of the data.
   */
  ghost predicate Collects(data: seq<byte>, key: seq<byte>) {
    exists at: nat :: CollectsAt(data, key, at)
  }

  ghost predicate CollectsAt(data: seq<byte>, key: seq<byte>, at: nat) {
    && Matches(CString(data), at, HEADER) && Avoids(CString(data), at, HEADER)
    && var from := at + |HEADER|;
    && Matches(data, from, key) && NoEnd(key)
    && (from + |key| + 1 >= |data| || IsEnd(data[from + |key|]))
    && (key == [] || from + |key| + 1 <= |data|)
  }

  ghost predicate HasHeader(data: seq<byte>) {
    exists at: nat :: Matches(CString(data), at, HEADER)
  }

  /** The loop of `websocketKey2Accept` from position `from` on. */
  method CollectKey(data: seq<byte>, from: nat) returns (block: Block)
    requires |data| < WORD / 64 && from <= |data|
    ensures fresh(block) && fresh(block.data) && block.Valid() && block.peak <= |data|
    ensures var key := block.Contents();
      && Matches(data, from, key) && NoEnd(key)
      && (from + |key| + 1 >= |data| || IsEnd(data[from + |key|]))
      && (key == [] || from + |key| + 1 <= |data|)
  {
    block := new Block();
    var offset := from;
    while offset < |data| - 1
      invariant from <= offset && (offset == from || offset < |data|) && block.Valid()
      invariant fresh(block) && fresh(block.data) && block.peak == offset - from
      invariant |block.Contents()| == offset - from && NoEnd(block.Contents())
      invariant Matches(data, from, block.Contents())
    {
      var current := data[offset];
      if current == CARRIAGE_RETURN || current == SPACE {
        break;
      }
      block.AddString([current]);
      offset := offset + 1;
    }
  }

  /** The part of `websocketKey2Accept` behind the key. */
  method AcceptOf(block: Block) returns (accept: seq<byte>)
    requires block.Valid() && block.size < WORD / 64 && block.peak < WORD / 64
    modifies block, block.data
    ensures accept == AcceptValue(old(block.Contents()))
  {
    hide Sha1.Digest, Sha1.Padded, Base64.Encoded, FitsIn;
    block.SmallFits(|GUID|);
    block.AddString(GUID);
    Sha1.PaddingIsLeast(block.Contents());
    block.SmallFits(|Sha1.Padded(block.Contents())| - block.size);
    Sha1.Sha1(block);
    var result := Base64.Base64Encode(block);
    accept := result.data[..result.size];
  }

  /** `websocketKey2Accept`; `data` is followed by a zero, and `None` is the null pointer. */
  method WebsocketKey2Accept(data: seq<byte>) returns (accept: Option<seq<byte>>)
    requires |data| < WORD / 64
    ensures accept.None? <==> !HasHeader(data) || Collects(data, [])
    ensures accept.Some? ==>
      exists key :: key != [] && Collects(data, key) && accept.value == AcceptValue(key)
  {
    hide AcceptValue, CString, NoEnd, IsEnd;
    var at := Strstr(CString(data), HEADER);
    if at.None? {
      return None;
    }
    var block := CollectKey(data, at.value + |HEADER|);
    ghost var key := block.Contents();
    assert CollectsAt(data, key, at.value);
    if block.size == 0 {
      assert key == [];
      return None;
    }
    CollectsOne(data, key);
    var value := AcceptOf(block);
    accept := Some(value);
  }

  /** The key collected is determined by the data. */
  lemma {:induction false} CollectsOne(data: seq<byte>, key: seq<byte>)
    requires Collects(data, key)
    ensures HasHeader(data)
    ensures forall other :: Collects(data, other) ==> other == key
  {
    hide CString;
    var at: nat :| CollectsAt(data, key, at);
    forall other | Collects(data, other) ensures other == key {
      var place: nat :| CollectsAt(data, other, place);
      assert at == place;
      NotShorter(data, at + |HEADER|, key, other);
      NotShorter(data, at + |HEADER|, other, key);
    }
  }

  lemma {:induction false} NotShorter(data: seq<byte>, from: nat, key: seq<byte>, other: seq<byte>)
    requires Matches(data, from, key) && Matches(data, from, other) && NoEnd(other)
    requires from + |key| + 1 >= |data| || IsEnd(data[from + |key|])
    requires other == [] || from + |other| + 1 <= |data|
    ensures |other| <= |key| && other == key[..|other|]
  {
    if |key| < |other| {
      ByteOfKey(data, from, other, |key|);
      assert false;
    }
    forall i | 0 <= i < |other| ensures other[i] == key[i] {
      ByteOfKey(data, from, other, i);
      assert data[from..from + |key|][i] == data[from + i];
    }
  }

  lemma {:induction false} ByteOfKey(data: seq<byte>, from: nat, other: seq<byte>, i: nat)
    requires Matches(data, from, other) && NoEnd(other) && i < |other|
    ensures from + |other| <= |data| && data[from + i] == other[i] && !IsEnd(data[from + i])
  {
    assert data[from..from + |other|][i] == data[from + i];
  }

  // ---------------------------------------------------------------- which requests are answered

  /**
   * A request whose first header line is followed by a key: the key read is that key exactly when it
   * is not empty and something follows it; a key that ends the data loses its last byte.
   */
  lemma {:induction false} KeyIsRead(before: seq<byte>, key: seq<byte>, tail: seq<byte>)
    requires 0 !in before && Avoids(CString(before + HEADER + key + tail), |before|, HEADER)
    requires NoEnd(key) && (tail == [] || IsEnd(tail[0]))
    ensures Collects(before + HEADER + key + tail, key) <==> key == [] || tail != []
    ensures key != [] && tail == [] ==> Collects(before + HEADER + key + tail, key[..|key| - 1])
  {
    hide CString, Avoids, NoEnd, CollectsAt;
    if key == [] || tail != [] {
      WholeKey(before, key, tail);
    } else {
      CutKey(before, key, tail);
      CollectsOne(before + HEADER + key + tail, key[..|key| - 1]);
    }
  }

  lemma {:induction false} HeaderIsFound(before: seq<byte>, key: seq<byte>, tail: seq<byte>)
    requires 0 !in before
    ensures Matches(CString(before + HEADER + key + tail), |before|, HEADER)
    ensures var data, from := before + HEADER + key + tail, |before| + |HEADER|;
      |data| == from + |key| + |tail| && data[from..from + |key|] == key && data[from + |key|..] == tail
  {
    hide CString;
    var data, start := before + HEADER + key + tail, before + HEADER;
    assert data == start + (key + tail);
    CStringOfPrefix(start, key + tail);
  }

  lemma {:induction false} WholeKey(before: seq<byte>, key: seq<byte>, tail: seq<byte>)
    requires 0 !in before && Avoids(CString(before + HEADER + key + tail), |before|, HEADER)
    requires NoEnd(key) && (tail == [] || IsEnd(tail[0])) && (key == [] || tail != [])
    ensures CollectsAt(before + HEADER + key + tail, key, |before|)
  {
    hide CString, Avoids, NoEnd;
    HeaderIsFound(before, key, tail);
    var data, from := before + HEADER + key + tail, |before| + |HEADER|;
    assert tail != [] ==> data[from + |key|] == data[from + |key|..][0];
  }

  lemma {:induction false} CutKey(before: seq<byte>, key: seq<byte>, tail: seq<byte>)
    requires 0 !in before && Avoids(CString(before + HEADER + key + tail), |before|, HEADER)
    requires NoEnd(key) && key != [] && tail == []
    ensures CollectsAt(before + HEADER + key + tail, key[..|key| - 1], |before|)
  {
    hide CString, Avoids, NoEnd;
    HeaderIsFound(before, key, tail);
    NoEndPrefix(key, |key| - 1);
    var data, from, n := before + HEADER + key + tail, |before| + |HEADER|, |key| - 1;
    assert data[from..from + n] == data[from..from + |key|][..n];
  }

  lemma {:induction false} NoEndPrefix(key: seq<byte>, n: nat)
    requires NoEnd(key) && n <= |key|
    ensures NoEnd(key[..n])
  {
  }
}
