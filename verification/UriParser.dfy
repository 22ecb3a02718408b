/** uri.c in place: the character loop over its buffers, the query it fills and the token loop for addresses. */
module UriParser {
  import opened Bytes
  import opened Text
  import opened Block
  import Tracker
  import opened Uri

  /** The event codes of uri.h are those that the tracker stores. */
  function EventCode(value: seq<byte>): byte {
    var name := CString(value);
    if name == Ascii("completed") then Tracker.COMPLETED
    else if name == Ascii("started") then Tracker.STARTED
    else if name == Ascii("stopped") then Tracker.STOPPED
    else if name == Ascii("paused") then Tracker.PAUSED
    else Tracker.CONTINUE
  }

  /** The fields of `struct query` that `getParam` writes; the port as its two bytes in memory. */
  datatype Fields = Fields(
    hasInfoHash: bool, infoHash: seq<byte>, event: byte, port: seq<byte>, peerId: seq<byte>,
    compact: bool, noPeerId: bool, numwant: u32,
    interval: u32, maxPeers: u32, socketTimeout: nat, keepAlive: byte)

  /** The fields after one call. */
  function Applied(f: Fields, c: Call): Fields {
    var number := Atoi(c.value);
    if c.key == INFO_HASH then f.(infoHash := c.value, hasInfoHash := true)
    else if c.key == Ascii("event") then f.(event := EventCode(c.value))
    else if c.key == Ascii("port") then f.(port := [number / 256 % 256, number % 256])
    else if c.key == Ascii("peer_id") then f.(peerId := c.value)
    else if c.key == Ascii("compact") then f.(compact := number != 0)
    else if c.key == Ascii("no_peer_id") then f.(noPeerId := true)
    else if c.key == Ascii("numwant") then f.(numwant := Wrap32(number))
    else if c.key == Ascii("interval") then f.(interval := Wrap32(number))
    else if c.key == Ascii("max_peers_response") then f.(maxPeers := Wrap32(number))
    else if c.key == Ascii("socket_timeout") then f.(socketTimeout := number % 65536)
    else if c.key == Ascii("keep_alive") then f.(keepAlive := number % 256)
    else f
  }

  function AppliedAll(f: Fields, calls: seq<Call>): Fields {
    if calls == [] then f else Applied(AppliedAll(f, calls[..|calls| - 1]), calls[|calls| - 1])
  }

  /** The names of the parameters that are looked at. */
  const NAMES := [INFO_HASH, Ascii("event"), Ascii("port"), Ascii("peer_id"), Ascii("compact"), Ascii("no_peer_id"),
                  Ascii("numwant"), Ascii("interval"), Ascii("max_peers_response"), Ascii("socket_timeout"),
                  Ascii("keep_alive")]

  lemma {:induction false} NamesDiffer()
    ensures forall i, j :: 0 <= i < j < |NAMES| ==> NAMES[i] != NAMES[j]
  {
    assert NAMES[3][0] != NAMES[4][0] && NAMES[3][0] != NAMES[6][0] && NAMES[4][0] != NAMES[6][0];
    assert NAMES[5][0] != NAMES[10][0];
  }

  /** The value of the last call with this key. */
  function LastValue(calls: seq<Call>, key: seq<byte>): Option<seq<byte>> {
    if calls == [] then None
    else if calls[|calls| - 1].key == key then Some(calls[|calls| - 1].value)
    else LastValue(calls[..|calls| - 1], key)
  }

  /** What the last call with this key says, or what was there before. */
  function Latest<T>(calls: seq<Call>, key: seq<byte>, before: T, read: seq<byte> -> T): T {
    match LastValue(calls, key)
    case None => before
    case Some(v) => read(v)
  }

  lemma {:induction false} LatestStep<T>(calls: seq<Call>, c: Call, key: seq<byte>, before: T, read: seq<byte> -> T)
    ensures Latest(calls + [c], key, before, read)
            == if c.key == key then read(c.value) else Latest(calls, key, before, read)
    ensures LastValue(calls + [c], key) == if c.key == key then Some(c.value) else LastValue(calls, key)
    ensures Latest([], key, before, read) == before
  {
    assert (calls + [c])[..|calls|] == calls;
  }

  function PortRead(v: seq<byte>): seq<byte> {
    [Atoi(v) / 256 % 256, Atoi(v) % 256]
  }

  function NumberRead(v: seq<byte>): u32 {
    Wrap32(Atoi(v))
  }

  function ShortRead(v: seq<byte>): nat {
    Atoi(v) % 65536
  }

  function ByteRead(v: seq<byte>): byte {
    Atoi(v) % 256
  }

  /** Every field read from the last value of its own parameter. */
  function ReadAll(f: Fields, calls: seq<Call>): Fields {
    Fields(
      Latest(calls, INFO_HASH, f.hasInfoHash, _ => true),
      Latest(calls, INFO_HASH, f.infoHash, v => v),
      Latest(calls, Ascii("event"), f.event, EventCode),
      Latest(calls, Ascii("port"), f.port, PortRead),
      Latest(calls, Ascii("peer_id"), f.peerId, v => v),
      Latest(calls, Ascii("compact"), f.compact, v => Atoi(v) != 0),
      Latest(calls, Ascii("no_peer_id"), f.noPeerId, _ => true),
      Latest(calls, Ascii("numwant"), f.numwant, NumberRead),
      Latest(calls, Ascii("interval"), f.interval, NumberRead),
      Latest(calls, Ascii("max_peers_response"), f.maxPeers, NumberRead),
      Latest(calls, Ascii("socket_timeout"), f.socketTimeout, ShortRead),
      Latest(calls, Ascii("keep_alive"), f.keepAlive, ByteRead))
  }

  lemma {:induction false} ReadStep(f: Fields, calls: seq<Call>, c: Call)
    ensures ReadAll(f, calls + [c]) == Applied(ReadAll(f, calls), c)
  {
    hide Atoi, Ascii, EventCode, Latest, LastValue;
    NamesDiffer();
    LatestStep(calls, c, NAMES[0], f.hasInfoHash, _ => true);
    LatestStep(calls, c, NAMES[0], f.infoHash, v => v);
    LatestStep(calls, c, NAMES[1], f.event, EventCode);
    LatestStep(calls, c, NAMES[2], f.port, PortRead);
    LatestStep(calls, c, NAMES[3], f.peerId, v => v);
    LatestStep(calls, c, NAMES[4], f.compact, v => Atoi(v) != 0);
    LatestStep(calls, c, NAMES[5], f.noPeerId, _ => true);
    LatestStep(calls, c, NAMES[6], f.numwant, NumberRead);
    LatestStep(calls, c, NAMES[7], f.interval, NumberRead);
    LatestStep(calls, c, NAMES[8], f.maxPeers, NumberRead);
    LatestStep(calls, c, NAMES[9], f.socketTimeout, ShortRead);
    LatestStep(calls, c, NAMES[10], f.keepAlive, ByteRead);
  }

  lemma {:induction false} OneRead(f: Fields, c: Call)
    ensures ReadAll(f, [c]) == Applied(f, c)
  {
    hide ReadAll, Applied;
    NothingRead(f);
    ReadStep(f, [], c);
    assert [] + [c] == [c];
  }

  /** Whatever the parameters and their order, each field is read from the last value of its own parameter. */
  lemma {:induction false} LastValueWins(f: Fields, calls: seq<Call>)
    ensures AppliedAll(f, calls) == ReadAll(f, calls)
  {
    hide Applied, ReadAll;
    if calls == [] {
      NothingRead(f);
    } else {
      var n := |calls| - 1;
      LastValueWins(f, calls[..n]);
      ReadStep(f, calls[..n], calls[n]);
      assert calls[..n] + [calls[n]] == calls;
    }
  }

  lemma {:induction false} NothingRead(f: Fields)
    ensures ReadAll(f, []) == f
  {
    hide Ascii, EventCode, Atoi;
  }

  /**
   * The event of an announce over HTTP, which the worker starts as STARTED: without an `event` parameter
   * it stays so, with one its last value decides: the four names stand for 1 to 4, and any other value, such
   * as an empty one, for 5.
   */
  lemma {:induction false} EventOverHttp(f: Fields, calls: seq<Call>)
    requires f.event == Tracker.STARTED
    ensures var value, event := LastValue(calls, Ascii("event")), AppliedAll(f, calls).event;
      && (value.None? ==> event == 2)
      && (value.Some? && CString(value.value) == Ascii("completed") ==> event == 1)
      && (value.Some? && CString(value.value) == Ascii("started") ==> event == 2)
      && (value.Some? && CString(value.value) == Ascii("stopped") ==> event == 3)
      && (value.Some? && CString(value.value) == Ascii("paused") ==> event == 4)
      && (event == 5 <==>
           value.Some?
           && CString(value.value) !in {Ascii("completed"), Ascii("started"), Ascii("stopped"), Ascii("paused")})
      && event != 0
  {
    hide Ascii, Atoi, CString;
    LastValueWins(f, calls);
    NamesOfEvents();
  }

  lemma {:induction false} NamesOfEvents()
    ensures |Ascii("completed")| == 9 && |Ascii("started")| == 7 && |Ascii("stopped")| == 7 && |Ascii("paused")| == 6
    ensures Ascii("started") != Ascii("stopped")
  {
    assert Ascii("started")[2] != Ascii("stopped")[2];
  }

  /** The values of calls have 20 bytes. */
  ghost predicate AllFilled(calls: seq<Call>) {
    forall i :: 0 <= i < |calls| ==> |calls[i].value| == LENGTH
  }

  lemma {:induction false} RunFilled(s: State, text: seq<byte>)
    requires AllFilled(s.calls)
    ensures AllFilled(Run(s, text).calls)
    decreases |text|
  {
    hide HexByte;
    if text != [] && text[0] != SPACE {
      RunFilled(Step(s, text[0]), text[1..]);
    }
  }

  /** Info hash and peer id keep their 20 bytes, and the port its two. */
  ghost predicate Sized(f: Fields) {
    |f.infoHash| == LENGTH && |f.peerId| == LENGTH && |f.port| == 2
  }

  lemma {:induction false} AppliedSized(f: Fields, calls: seq<Call>)
    requires Sized(f) && AllFilled(calls)
    ensures Sized(AppliedAll(f, calls))
  {
    hide Atoi, Ascii, EventCode, LastValue;
    LastValueWins(f, calls);
    LastFilled(calls, INFO_HASH);
    LastFilled(calls, Ascii("peer_id"));
  }

  lemma {:induction false} LastFilled(calls: seq<Call>, key: seq<byte>)
    requires AllFilled(calls)
    ensures LastValue(calls, key).Some? ==> |LastValue(calls, key).value| == LENGTH
  {
    if calls != [] {
      LastFilled(calls[..|calls| - 1], key);
    }
  }

  /** `buffer` holds the string `s` and zeros behind it. */
  ghost predicate Holds(buffer: array<byte>, s: seq<byte>)
    reads buffer
  {
    |s| < buffer.Length && buffer[..|s|] == s && forall j :: |s| <= j < buffer.Length ==> buffer[j] == 0
  }

  /** A zero-terminated buffer holding nothing. */
  method Empty(length: nat) returns (buffer: array<byte>)
    requires length > 0
    ensures fresh(buffer) && buffer.Length == length && Holds(buffer, [])
  {
    buffer := new byte[length](_ => 0);
  }

  /** `memset` over all but the last byte, which is never written. */
  method Clear(buffer: array<byte>, ghost s: seq<byte>)
    requires Holds(buffer, s)
    modifies buffer
    ensures Holds(buffer, [])
  {
    for i := 0 to buffer.Length - 1
      invariant forall j :: 0 <= j < i ==> buffer[j] == 0
      invariant buffer[buffer.Length - 1] == 0
    {
      buffer[i] := 0;
    }
  }

  /** `strlen` of such a buffer. */
  method Length(buffer: array<byte>, ghost s: seq<byte>) returns (n: nat)
    requires Holds(buffer, s) && 0 !in s
    ensures n == |s|
  {
    assert buffer[|s|] == 0;
    assert forall j :: 0 <= j < |s| ==> buffer[j] == s[j] && s[j] in s;
    n := Strlen(buffer);
  }

  class Query {
    const path: array<byte>
    var fields: Fields

    constructor (fields: Fields)
      ensures this.fields == fields && fresh(path) && path.Length == PATH_LENGTH + 1 && Holds(path, [])
    {
      var buffer := Empty(PATH_LENGTH + 1);
      path := buffer;
      this.fields := fields;
    }

    /** `getParam`; with a block it collects the hashes. */
    method GetParam(hashes: Block?, key: seq<byte>, value: seq<byte>)
      requires |value| == LENGTH
      requires hashes != null ==> hashes.Valid() && hashes.peak < WORD / 8
      modifies this`fields, hashes, if hashes != null then {hashes.data} else {}
      ensures fields == Applied(old(fields), Call(key, value))
      ensures fields == ReadAll(old(fields), [Call(key, value)])
      ensures hashes != null ==>
        && hashes.Valid() && (hashes.data == old(hashes.data) || fresh(hashes.data))
        && hashes.Contents() == old(hashes.Contents()) + Hashes([Call(key, value)])
        && hashes.peak <= old(hashes.peak) + LENGTH
    {
      hide ReadAll, Hashes, Ascii, Atoi, EventCode;
      HashesOne(Call(key, value));
      OneRead(fields, Call(key, value));
      if key == INFO_HASH {
        fields := fields.(infoHash := value, hasInfoHash := true);
        if hashes != null {
          hashes.AddString(fields.infoHash);
        }
      } else if key == Ascii("event") {
        fields := fields.(event := EventCode(value));
      } else if key == Ascii("port") {
        fields := fields.(port := [Atoi(value) / 256 % 256, Atoi(value) % 256]);
      } else if key == Ascii("peer_id") {
        fields := fields.(peerId := value);
      } else if key == Ascii("compact") {
        fields := fields.(compact := Atoi(value) != 0);
      } else if key == Ascii("no_peer_id") {
        fields := fields.(noPeerId := true);
      } else if key == Ascii("numwant") {
        fields := fields.(numwant := Wrap32(Atoi(value)));
      } else if key == Ascii("interval") {
        fields := fields.(interval := Wrap32(Atoi(value)));
      } else if key == Ascii("max_peers_response") {
        fields := fields.(maxPeers := Wrap32(Atoi(value)));
      } else if key == Ascii("socket_timeout") {
        fields := fields.(socketTimeout := Atoi(value) % 65536);
      } else if key == Ascii("keep_alive") {
        fields := fields.(keepAlive := Atoi(value) % 256);
      }
    }
  }

  lemma {:induction false} HashesOne(c: Call)
    ensures Hashes([c]) == if c.key == INFO_HASH then c.value else []
    ensures Hashes([]) == []
  {
  }

  // ---------------------------------------------------------------- the character loop

  /** The buffers hold the state of the machine. */
  ghost predicate Represents(s: State, path: array<byte>, param: array<byte>, value: array<byte>)
    reads path, param, value
  {
    && path.Length == PATH_LENGTH + 1 && param.Length == LENGTH + 1 && value.Length == LENGTH + 1
    && Holds(path, s.path) && Holds(param, s.key) && Holds(value, s.value)
    && 0 !in s.path && 0 !in s.key
  }

  /** `percent` and the first of `percentChars`. */
  predicate Pending(s: State, percent: nat, digit: byte) {
    match s.escape
    case Plain => percent == 0
    case Percent => percent == 1
    case High(d) => percent == 2 && digit == d
  }

  lemma {:induction false} FilledBuffer(value: array<byte>, s: seq<byte>)
    requires value.Length == LENGTH + 1 && Holds(value, s)
    ensures value[..LENGTH] == Filled(s)
  {
  }

  lemma {:induction false} OneMoreCall(f: Fields, calls: seq<Call>, c: Call)
    ensures AppliedAll(f, calls + [c]) == Applied(AppliedAll(f, calls), c)
    ensures Hashes(calls + [c]) == Hashes(calls) + Hashes([c])
    ensures AppliedAll(f, []) == f && Hashes([]) == []
  {
  }

  lemma {:induction false} StepAnd(s: State)
    requires !s.status.Path?
    ensures Step(s, AND) == Finish(s).(key := [], status := Param)
  {
  }

  /** One turn of the loop that calls nothing. */
  method Turn(path: array<byte>, param: array<byte>, value: array<byte>,
              status: Status, len: nat, percent: nat, digit: byte, current: byte, ghost s: State)
    returns (newStatus: Status, newLen: nat, newPercent: nat, newDigit: byte)
    requires path != param && path != value && param != value
    requires Represents(s, path, param, value) && s.status == status && Pending(s, percent, digit)
    requires status.Value? ==> len == |s.value|
    requires current != 0 && (status.Path? || current != AND)
    modifies path, param, value
    ensures var t := Step(s, current);
      && Represents(t, path, param, value) && t.status == newStatus && Pending(t, newPercent, newDigit)
      && (newStatus.Value? ==> newLen == |t.value|) && t.calls == s.calls
  {
    hide HexByte;
    newStatus, newLen, newPercent, newDigit := status, len, percent, digit;
    if status == Path {
      if current == QUESTION {
        newStatus := Param;
        return;
      }
      newLen := Length(path, s.path);
      if newLen < PATH_LENGTH && (newLen != 0 || current != SLASH) {
        path[newLen] := current;
      }
      return;
    }
    if current == EQUALS {
      Clear(value, s.value);
      newStatus, newLen := Value, 0;
      return;
    }
    if status == Param {
      newLen := Length(param, s.key);
      if newLen < LENGTH {
        param[newLen] := current;
      }
    }
    if status == Value && newLen < LENGTH {
      if current == PERCENT {
        newPercent := 1;
        return;
      }
      if percent == 1 {
        newPercent, newDigit := 2, current;
        return;
      }
      var decoded := current;
      if percent == 2 {
        newPercent := 0;
        decoded := HexByte(digit, current);
      }
      value[newLen] := decoded;
      newLen := newLen + 1;
    }
  }

  /** The block of hashes, if there is one, has received what the calls so far add to it. */
  ghost predicate Collected(hashes: Block?, before: seq<byte>, calls: seq<Call>, limit: nat)
    reads hashes, if hashes != null then {hashes.data} else {}
  {
    hashes != null ==>
      hashes.Valid() && hashes.Contents() == before + Hashes(calls) && hashes.peak <= limit
  }

  /** A call of `getParam` on the two buffers. */
  method Deliver(query: Query, hashes: Block?, param: array<byte>, value: array<byte>,
                 ghost s: State, ghost fields: Fields, ghost before: seq<byte>, ghost limit: nat)
    requires Represents(s, query.path, param, value) && query.fields == AppliedAll(fields, s.calls)
    requires Collected(hashes, before, s.calls, limit) && limit < WORD / 8
    modifies query`fields, hashes, if hashes != null then {hashes.data} else {}
    ensures query.fields == AppliedAll(fields, Finish(s).calls)
    ensures Collected(hashes, before, Finish(s).calls, limit + LENGTH)
    ensures hashes != null ==> hashes.data == old(hashes.data) || fresh(hashes.data)
  {
    hide AppliedAll, Applied, Hashes, Filled;
    FilledBuffer(value, s.value);
    var len := Length(param, s.key);
    OneMoreCall(fields, s.calls, Call(s.key, Filled(s.value)));
    query.GetParam(hashes, param[..len], value[..LENGTH]);
  }

  /** The turn of the loop on an ampersand. */
  method NextPair(query: Query, hashes: Block?, param: array<byte>, value: array<byte>,
                  ghost s: State, ghost fields: Fields, ghost before: seq<byte>, ghost limit: nat)
    requires query.path != param && query.path != value && param != value
    requires Represents(s, query.path, param, value) && query.fields == AppliedAll(fields, s.calls)
    requires !s.status.Path?
    requires Collected(hashes, before, s.calls, limit) && limit < WORD / 8
    requires hashes != null ==> hashes.data != query.path && hashes.data != param && hashes.data != value
    modifies query`fields, param, hashes, if hashes != null then {hashes.data} else {}
    ensures var t := Step(s, AND);
      && Represents(t, query.path, param, value) && t.status == Param && t.escape == s.escape
      && query.fields == AppliedAll(fields, t.calls)
      && Collected(hashes, before, t.calls, limit + LENGTH)
    ensures hashes != null ==> hashes.data == old(hashes.data) || fresh(hashes.data)
  {
    hide Step, AppliedAll, Collected, Holds;
    StepAnd(s);
    Deliver(query, hashes, param, value, s, fields, before, limit);
    Clear(param, s.key);
  }

  /** The local variables of `parseUri` that a turn may change, other than its buffers. */
  datatype Locals = Locals(status: Status, len: nat, percent: nat, digit: byte)

  /** What has been parsed so far is in the buffers, the query and the block of hashes. */
  ghost predicate Parsed(query: Query, hashes: Block?, param: array<byte>, value: array<byte>, v: Locals,
                         s: State, fields: Fields, before: seq<byte>, limit: nat)
    reads query, query.path, param, value, hashes, if hashes != null then {hashes.data} else {}
  {
    && query.path != param && query.path != value && param != value
    && (hashes != null ==> hashes.data != query.path && hashes.data != param && hashes.data != value)
    && Represents(s, query.path, param, value) && Pending(s, v.percent, v.digit)
    && s.status == v.status && (v.status.Value? ==> v.len == |s.value|)
    && query.fields == AppliedAll(fields, s.calls)
    && Collected(hashes, before, s.calls, limit)
  }

  lemma {:induction false} ParseBegins(query: Query, hashes: Block?, param: array<byte>, value: array<byte>,
                                       before: seq<byte>, limit: nat)
    requires query.path != param && query.path != value && param != value
    requires hashes != null ==> hashes.data != query.path && hashes.data != param && hashes.data != value
    requires query.path.Length == PATH_LENGTH + 1 && param.Length == LENGTH + 1 && value.Length == LENGTH + 1
    requires Holds(query.path, []) && Holds(param, []) && Holds(value, [])
    requires hashes != null ==> hashes.Valid() && hashes.peak == limit && hashes.Contents() == before
    ensures Parsed(query, hashes, param, value, Locals(Path, 0, 0, 0), START, query.fields, before, limit)
  {
  }

  /** The machine's state after a character; a space ends the last pair. */
  function After(s: State, c: byte): State {
    if c == SPACE then Finish(s) else Step(s, c)
  }

  lemma {:induction false} RunAt(s: State, text: seq<byte>, i: nat)
    requires i < |text|
    ensures Run(s, text[i..]) == if text[i] == SPACE then After(s, text[i]) else Run(After(s, text[i]), text[i + 1..])
    ensures text[0..] == text
  {
  }

  lemma {:induction false} RunNone(s: State)
    ensures Run(s, []) == s
  {
  }

  /** The body of the loop. */
  method Iterate(query: Query, hashes: Block?, param: array<byte>, value: array<byte>, v: Locals, current: byte,
                 ghost s: State, ghost fields: Fields, ghost before: seq<byte>, ghost limit: nat)
    returns (w: Locals)
    requires Parsed(query, hashes, param, value, v, s, fields, before, limit) && limit < WORD / 8 && current != 0
    modifies query`fields, query.path, param, value, hashes, if hashes != null then {hashes.data} else {}
    ensures Parsed(query, hashes, param, value, w, After(s, current), fields, before, limit + LENGTH)
    ensures hashes != null ==> hashes.data == old(hashes.data) || fresh(hashes.data)
  {
    hide Step, Applied, AppliedAll, Hashes, Filled, Holds, Collected;
    w := v;
    if current == SPACE {
      Deliver(query, hashes, param, value, s, fields, before, limit);
    } else if v.status != Path && current == AND {
      NextPair(query, hashes, param, value, s, fields, before, limit);
      w := v.(status := Param);
    } else {
      var status, len, percent, digit :=
        Turn(query.path, param, value, v.status, v.len, v.percent, v.digit, current, s);
      w := Locals(status, len, percent, digit);
      CollectedMore(hashes, before, s.calls, limit, limit + LENGTH);
    }
  }

  lemma {:induction false} CollectedMore(hashes: Block?, before: seq<byte>, calls: seq<Call>, limit: nat, more: nat)
    requires Collected(hashes, before, calls, limit) && limit <= more
    ensures Collected(hashes, before, calls, more)
  {
  }

  lemma {:induction false} ParsedMeans(query: Query, hashes: Block?, param: array<byte>, value: array<byte>, v: Locals,
                                       s: State, fields: Fields, before: seq<byte>, limit: nat)
    requires Parsed(query, hashes, param, value, v, s, fields, before, limit)
    ensures Holds(query.path, s.path) && query.fields == AppliedAll(fields, s.calls)
    ensures hashes != null ==> hashes.Valid() && hashes.Contents() == before + Hashes(s.calls)
  {
  }

  lemma {:induction false} LineIs(message: seq<byte>)
    ensures |CString(message)| <= |message|
    ensures Line(message) == if |CString(message)| < 4 then [] else CString(message)[4..]
  {
  }

  /** `parseUri`: the query and the block of hashes are what the calls of the machine make of them. */
  method ParseUri(query: Query, hashes: Block?, message: seq<byte>)
    requires query.path.Length == PATH_LENGTH + 1 && Holds(query.path, [])
    requires |message| < WORD / 1024
    requires hashes != null ==> hashes.Valid() && hashes.peak < WORD / 16 && hashes.data != query.path
    modifies query, query.path, hashes, if hashes != null then {hashes.data} else {}
    ensures Holds(query.path, Run(START, Line(message)).path)
    ensures query.fields == AppliedAll(old(query.fields), Run(START, Line(message)).calls)
    ensures hashes != null ==>
      && hashes.Valid()
      && hashes.Contents() == old(hashes.Contents()) + Hashes(Run(START, Line(message)).calls)
  {
    hide Run, After, AppliedAll, Hashes, Holds, Parsed, CString, Line;
    LineIs(message);
    var characters := CString(message);
    var param := Empty(LENGTH + 1);
    var value := Empty(LENGTH + 1);
    var v := Locals(Path, 0, 0, 0);
    ghost var text, s, fields := Line(message), START, query.fields;
    ghost var before := if hashes != null then hashes.Contents() else [];
    ghost var limit := if hashes != null then hashes.peak else 0;
    ghost var bound: nat := limit;
    ParseBegins(query, hashes, param, value, before, limit);
    assert text[0..] == text;
    var i := 4;
    while i < |characters|
      invariant 4 <= i && (i == 4 || i <= |characters|)
      invariant Run(START, text) == Run(s, text[i - 4..])
      invariant fresh(param) && fresh(value)
      invariant hashes != null ==> hashes.data == old(hashes.data) || fresh(hashes.data)
      invariant bound == limit + LENGTH * (i - 4) && Parsed(query, hashes, param, value, v, s, fields, before, bound)
    {
      var current := characters[i];
      RunAt(s, text, i - 4);
      v := Iterate(query, hashes, param, value, v, current, s, fields, before, bound);
      s := After(s, current);
      i, bound := i + 1, bound + LENGTH;
      if current == SPACE {
        ParsedMeans(query, hashes, param, value, v, s, fields, before, bound);
        return;
      }
    }
    assert text[i - 4..] == [];
    RunNone(s);
    ParsedMeans(query, hashes, param, value, v, s, fields, before, bound);
  }

  // ---------------------------------------------------------------- the forwarded address

  predicate Separator(c: byte) {
    c == 32 || c == 44
  }

  predicate NoSeparator(s: seq<byte>) {
    forall i :: 0 <= i < |s| ==> !Separator(s[i])
  }

  predicate OnlySeparators(s: seq<byte>) {
    forall i :: 0 <= i < |s| ==> Separator(s[i])
  }

  /** `token` is the last of the stretches of `text` between spaces and commas; with none it is empty. */
  ghost predicate LastToken(text: seq<byte>, token: seq<byte>) {
    exists n: nat, m: nat :: LastTokenAt(text, token, n, m)
  }

  ghost predicate LastTokenAt(text: seq<byte>, token: seq<byte>, n: nat, m: nat) {
    && n <= m <= |text| && token == text[n..m] && NoSeparator(token) && OnlySeparators(text[m..])
    && (n == 0 || Separator(text[n - 1]))
    && (token == [] ==> n == 0)
  }

  lemma {:induction false} LastTokenIsUnique(text: seq<byte>, a: seq<byte>, b: seq<byte>)
    requires LastToken(text, a) && LastToken(text, b)
    ensures a == b
  {
    var n: nat, m: nat :| LastTokenAt(text, a, n, m);
    var k: nat, l: nat :| LastTokenAt(text, b, k, l);
    TokenEnds(text, a, n, m, b, k, l);
    TokenEnds(text, b, k, l, a, n, m);
  }

  /** Of two last tokens the first begins where the second does, or later. */
  lemma {:induction false} TokenEnds(text: seq<byte>, a: seq<byte>, n: nat, m: nat, b: seq<byte>, k: nat, l: nat)
    requires LastTokenAt(text, a, n, m) && LastTokenAt(text, b, k, l)
    ensures m >= l || b == []
    ensures a != [] && b != [] && m == l ==> n >= k
    ensures b == [] ==> a == []
  {
    TokenBytes(text, a, n, m);
    TokenBytes(text, b, k, l);
  }

  lemma {:induction false} TokenBytes(text: seq<byte>, a: seq<byte>, n: nat, m: nat)
    requires LastTokenAt(text, a, n, m)
    ensures forall i :: n <= i < m ==> !Separator(text[i])
    ensures forall i :: m <= i < |text| ==> Separator(text[i])
    ensures a != [] ==> !Separator(text[m - 1])
  {
    assert forall i :: m <= i < |text| ==> text[m..][i - m] == text[i];
    assert forall i :: n <= i < m ==> a[i - n] == text[i];
  }

  lemma {:induction false} TokenSkip(text: seq<byte>, i: nat, token: seq<byte>, n: nat, m: nat)
    requires i < |text| && LastTokenAt(text[..i], token, n, m) && Separator(text[i])
    ensures LastTokenAt(text[..i + 1], token, n, m)
  {
    assert text[..i + 1] == text[..i] + [text[i]];
    assert text[..i + 1][m..] == text[..i][m..] + [text[i]];
  }

  lemma {:induction false} TokenExtend(text: seq<byte>, i: nat, token: seq<byte>, n: nat)
    requires i < |text| && !Separator(text[i])
    requires LastTokenAt(text[..i], token, n, i) || (token == [] && n == i && (i > 0 ==> Separator(text[i - 1])))
    ensures LastTokenAt(text[..i + 1], token + [text[i]], n, i + 1)
  {
  }

  /** The loop of `parseXForwardedFor`: the block ends up with the last token. */
  method ForwardedAddress(block: Block, text: seq<byte>)
    requires block.Valid() && block.peak < WORD / 16 && |text| < WORD / 16
    modifies block, block.data
    ensures block.Valid() && LastToken(text, block.Contents())
  {
    hide LastTokenAt;
    var nice := false;
    block.Reset();
    ghost var n, m, token := 0, 0, [];
    assert LastTokenAt(text[..0], [], 0, 0) by { NoToken(text); }
    for index := 0 to |text|
      invariant block.Valid() && (block.data == old(block.data) || fresh(block.data))
      invariant m <= index && block.peak <= old(block.peak) + index
      invariant nice ==> m == index
      invariant !nice && index > 0 ==> Separator(text[index - 1])
      invariant block.Contents() == token && |token| <= index && LastTokenAt(text[..index], token, n, m)
    {
      var current := text[index];
      if current == 32 || current == 44 {
        nice := false;
        TokenSkip(text, index, token, n, m);
      } else {
        if !nice {
          block.Reset();
          n, token := index, [];
        }
        block.AddString([current]);
        TokenExtend(text, index, token, n);
        nice, m, token := true, index + 1, token + [current];
      }
    }
    assert text[..|text|] == text;
  }

  lemma {:induction false} NoToken(text: seq<byte>)
    ensures LastTokenAt(text[..0], [], 0, 0)
  {
  }

  /** Behind a comma, a space or both stands the last token, whatever spaces and commas follow it. */
  lemma {:induction false} TokenBehindComma(before: seq<byte>, mark: byte, token: seq<byte>, after: seq<byte>)
    requires token != [] && mark in {32, 44} && (forall i :: 0 <= i < |token| ==> token[i] !in {32, 44})
    requires forall i :: 0 <= i < |after| ==> after[i] in {32, 44}
    ensures LastToken(before + [mark] + token + after, token)
  {
    var text, n := before + [mark] + token + after, |before| + 1;
    assert text[n..n + |token|] == token && text[n + |token|..] == after;
    assert LastTokenAt(text, token, n, n + |token|);
  }
}
