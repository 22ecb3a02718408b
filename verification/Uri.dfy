/** The request line parser of uri.c: a character machine, and what it reads from an encoded query. */
module Uri {
  import opened Bytes
  import opened Text

  const LENGTH := 20
  const PATH_LENGTH := 200

  const SPACE: byte := 32
  const PERCENT: byte := 37
  const AND: byte := 38
  const SLASH: byte := 47
  const EQUALS: byte := 61
  const QUESTION: byte := 63

  datatype Status = Path | Param | Value

  /** `percent` of the source, with the digit it has kept. */
  datatype Escape = Plain | Percent | High(digit: byte)

  /** A call of `getParam`: a key, and a value filled up with zeros to 20 bytes. */
  datatype Call = Call(key: seq<byte>, value: seq<byte>)

  datatype State = State(status: Status, path: seq<byte>, key: seq<byte>, value: seq<byte>,
                         escape: Escape, calls: seq<Call>)

  const START := State(Path, [], [], [], Plain, [])

  function Take(s: seq<byte>, n: nat): (t: seq<byte>)
    ensures |t| <= n && t <= s
  {
    if |s| <= n then s else s[..n]
  }

  lemma {:induction false} TakeAll(s: seq<byte>, n: nat)
    requires |s| <= n
    ensures Take(s, n) == s
  {
  }

  /** Appending one more byte while there is room keeps the first `n` bytes of everything read. */
  lemma {:induction false} TakeNext(s: seq<byte>, t: seq<byte>, n: nat)
    requires t != []
    ensures Take((if |s| < n then s + [t[0]] else s) + t[1..], n) == Take(s + t, n)
  {
  }

  /** `value` as the 20 bytes that the source copies. */
  function Filled(s: seq<byte>): (f: seq<byte>)
    ensures |f| == LENGTH
  {
    seq(LENGTH, i => if 0 <= i < |s| then s[i] else 0)
  }

  /** Two characters read by `strtol` in base 16, cut to a byte. */
  function HexByte(high: byte, low: byte): byte {
    Strtol([high, low], 16) % 256
  }

  function Finish(s: State): State {
    s.(calls := s.calls + [Call(s.key, Filled(s.value))])
  }

  /** One turn of the loop of `parseUri` on a character that is not a space. */
  function Step(s: State, c: byte): State {
    if s.status.Path? then
      if c == QUESTION then s.(status := Param)
      else if |s.path| < PATH_LENGTH && (s.path != [] || c != SLASH) then s.(path := s.path + [c])
      else s
    else if c == EQUALS then s.(value := [], status := Value)
    else if c == AND then Finish(s).(key := [], status := Param)
    else if s.status.Param? then
      if |s.key| < LENGTH then s.(key := s.key + [c]) else s
    else if |s.value| >= LENGTH then s
    else if c == PERCENT then s.(escape := Percent)
    else
      match s.escape
      case Percent => s.(escape := High(c))
      case High(digit) => s.(escape := Plain, value := s.value + [HexByte(digit, c)])
      case Plain => s.(value := s.value + [c])
  }

  /** The whole loop: it ends at a space, and then the last pair is complete. */
  function Run(s: State, text: seq<byte>): State
    decreases |text|
  {
    if text == [] then s
    else if text[0] == SPACE then Finish(s)
    else Run(Step(s, text[0]), text[1..])
  }

  // ---------------------------------------------------------------- requests

  /** One encoded byte of a value: itself, or a percent sign and two hexadecimal digits of either case. */
  datatype Symbol = Raw(c: byte) | Escaped(b: byte, upperHigh: bool, upperLow: bool)

  predicate Writable(x: Symbol) {
    x.Raw? ==> x.c !in {0, SPACE, AND, EQUALS, PERCENT}
  }

  function HexDigit(n: nat, upper: bool): byte
    requires n < 16
  {
    if n < 10 then 48 + n else if upper then 65 + n - 10 else 97 + n - 10
  }

  function Written(x: Symbol): seq<byte> {
    match x
    case Raw(c) => [c]
    case Escaped(b, upperHigh, upperLow) => [PERCENT, HexDigit(b / 16, upperHigh), HexDigit(b % 16, upperLow)]
  }

  function Meaning(x: Symbol): byte {
    if x.Raw? then x.c else x.b
  }

  function Encode(v: seq<Symbol>): seq<byte> {
    if v == [] then [] else Written(v[0]) + Encode(v[1..])
  }

  function Decode(v: seq<Symbol>): (d: seq<byte>)
    ensures |d| == |v|
  {
    if v == [] then [] else [Meaning(v[0])] + Decode(v[1..])
  }

  /** A key and what follows each of its equals signs: usually one value, but none and several are possible. */
  datatype Segment = Segment(key: seq<byte>, values: seq<seq<Symbol>>)

  predicate ValidSegment(g: Segment) {
    && (forall i :: 0 <= i < |g.key| ==> g.key[i] !in {0, SPACE, AND, EQUALS})
    && (forall i :: 0 <= i < |g.values| ==> ValidValue(g.values[i]))
  }

  predicate ValidValue(v: seq<Symbol>) {
    forall i :: 0 <= i < |v| ==> Writable(v[i])
  }

  predicate ValidQuery(q: seq<Segment>) {
    q != [] && forall i :: 0 <= i < |q| ==> ValidSegment(q[i])
  }

  function ValuesText(values: seq<seq<Symbol>>): seq<byte> {
    if values == [] then [] else [EQUALS] + Encode(values[0]) + ValuesText(values[1..])
  }

  function SegmentText(g: Segment): seq<byte> {
    g.key + ValuesText(g.values)
  }

  function QueryText(q: seq<Segment>): seq<byte>
    requires q != []
  {
    if |q| == 1 then SegmentText(q[0]) else SegmentText(q[0]) + [AND] + QueryText(q[1..])
  }

  /** The value that goes with a segment: the one behind its last equals sign, or else the value before. */
  function ValueOf(values: seq<seq<Symbol>>, stale: seq<byte>): seq<byte> {
    if values == [] then stale else Take(Decode(values[|values| - 1]), LENGTH)
  }

  /** The calls a query should lead to: one for each segment, in order. */
  function Expected(q: seq<Segment>, stale: seq<byte>): (c: seq<Call>)
    ensures |c| == |q|
  {
    if q == [] then []
    else
      var value := ValueOf(q[0].values, stale);
      [Call(Take(q[0].key, LENGTH), Filled(value))] + Expected(q[1..], value)
  }

  /** A path without the slashes it begins with. */
  function Trimmed(path: seq<byte>): seq<byte> {
    if path != [] && path[0] == SLASH then Trimmed(path[1..]) else path
  }

  predicate ValidPath(path: seq<byte>) {
    forall i :: 0 <= i < |path| ==> path[i] !in {0, SPACE, QUESTION}
  }

  function Request(path: seq<byte>, q: seq<Segment>, rest: seq<byte>): seq<byte>
    requires q != []
  {
    path + [QUESTION] + QueryText(q) + rest
  }

  // ---------------------------------------------------------------- hexadecimal digits

  lemma {:induction false} HexByteReads(b: byte, upperHigh: bool, upperLow: bool)
    ensures HexByte(HexDigit(b / 16, upperHigh), HexDigit(b % 16, upperLow)) == b
  {
    var high, low := HexDigit(b / 16, upperHigh), HexDigit(b % 16, upperLow);
    var s := [high, low];
    assert DigitValue(high) == b / 16 && DigitValue(low) == b % 16;
    assert s[1..] == [low] && [low][1..] == [];
    assert Digits(s, 16, 0) == Digits([low], 16, b / 16) == Digits([], 16, b / 16 * 16 + b % 16);
    assert Strtol(s, 16) == b;
  }

  // ---------------------------------------------------------------- the machine on encoded text

  lemma {:induction false} RunNext(s: State, c: byte, rest: seq<byte>)
    requires c != SPACE
    ensures Run(s, [c] + rest) == Run(Step(s, c), rest)
  {
  }

  lemma {:induction false} StepHex(s: State, x: Symbol)
    requires x.Escaped? && s.status.Value? && s.escape.Plain? && |s.value| < LENGTH
    ensures var w := Written(x);
      |w| == 3 && SPACE !in w && Step(Step(Step(s, w[0]), w[1]), w[2]) == s.(value := s.value + [x.b])
  {
    HexByteReads(x.b, x.upperHigh, x.upperLow);
  }

  lemma {:induction false} RunSymbol(s: State, x: Symbol, rest: seq<byte>)
    requires s.status.Value? && s.escape.Plain? && Writable(x)
    ensures Run(s, Written(x) + rest)
         == Run(s.(value := if |s.value| < LENGTH then s.value + [Meaning(x)] else s.value), rest)
  {
    hide Run, HexByte, HexDigit;
    var w := Written(x);
    match x
    case Raw(c) =>
      RunNext(s, c, rest);
    case Escaped(b, _, _) =>
      assert w[1] !in {SPACE, AND, EQUALS} && w[2] !in {SPACE, AND, EQUALS} by { HexDigitIsPlain(x); }
      assert w + rest == [w[0]] + ([w[1]] + ([w[2]] + rest));
      RunNext(s, w[0], [w[1]] + ([w[2]] + rest));
      RunNext(Step(s, w[0]), w[1], [w[2]] + rest);
      RunNext(Step(Step(s, w[0]), w[1]), w[2], rest);
      if |s.value| < LENGTH {
        StepHex(s, x);
      }
  }

  lemma {:induction false} HexDigitIsPlain(x: Symbol)
    requires x.Escaped?
    ensures Written(x)[1] !in {SPACE, AND, EQUALS} && Written(x)[2] !in {SPACE, AND, EQUALS}
  {
  }

  lemma {:induction false} RunValue(s: State, v: seq<Symbol>, rest: seq<byte>)
    requires s.status.Value? && s.escape.Plain? && ValidValue(v) && |s.value| <= LENGTH
    ensures Run(s, Encode(v) + rest) == Run(s.(value := Take(s.value + Decode(v), LENGTH)), rest)
    decreases |v|
  {
    hide Run, Written, Writable, Take;
    if v == [] {
      assert Encode(v) + rest == rest && s.value + Decode(v) == s.value;
      TakeAll(s.value, LENGTH);
    } else {
      var tail := Encode(v[1..]) + rest;
      assert Encode(v) + rest == Written(v[0]) + tail;
      RunSymbol(s, v[0], tail);
      var next := s.(value := if |s.value| < LENGTH then s.value + [Meaning(v[0])] else s.value);
      RunValue(next, v[1..], rest);
      TakeNext(s.value, Decode(v), LENGTH);
      assert Decode(v)[1..] == Decode(v[1..]);
    }
  }

  lemma {:induction false} RunValues(s: State, values: seq<seq<Symbol>>, rest: seq<byte>)
    requires !s.status.Path? && s.escape.Plain?
    requires forall i :: 0 <= i < |values| ==> ValidValue(values[i])
    ensures Run(s, ValuesText(values) + rest)
         == Run(s.(value := ValueOf(values, s.value), status := if values == [] then s.status else Value), rest)
    decreases |values|
  {
    hide Run, Encode, Decode, ValidValue;
    if values == [] {
      assert ValuesText(values) + rest == rest;
    } else {
      var tail := ValuesText(values[1..]) + rest;
      assert ValuesText(values) + rest == [EQUALS] + (Encode(values[0]) + tail);
      RunNext(s, EQUALS, Encode(values[0]) + tail);
      var begun := s.(value := [], status := Value);
      RunValue(begun, values[0], tail);
      assert begun.value + Decode(values[0]) == Decode(values[0]);
      RunValues(begun.(value := Take(Decode(values[0]), LENGTH)), values[1..], rest);
    }
  }

  lemma {:induction false} RunKey(s: State, key: seq<byte>, rest: seq<byte>)
    requires s.status.Param? && |s.key| <= LENGTH
    requires forall i :: 0 <= i < |key| ==> key[i] !in {0, SPACE, AND, EQUALS}
    ensures Run(s, key + rest) == Run(s.(key := Take(s.key + key, LENGTH)), rest)
    decreases |key|
  {
    hide Run;
    if key == [] {
      assert key + rest == rest && s.key + key == s.key;
      TakeAll(s.key, LENGTH);
    } else {
      assert key + rest == [key[0]] + (key[1..] + rest);
      RunNext(s, key[0], key[1..] + rest);
      var next := Step(s, key[0]);
      RunKey(next, key[1..], rest);
      TakeNext(s.key, key, LENGTH);
    }
  }

  function AfterSegment(s: State, g: Segment): State {
    s.(key := Take(g.key, LENGTH), value := ValueOf(g.values, s.value),
       status := if g.values == [] then Param else Value)
  }

  lemma {:induction false} RunSegment(s: State, g: Segment, rest: seq<byte>)
    requires s.status.Param? && s.key == [] && s.escape.Plain? && ValidSegment(g)
    ensures Run(s, SegmentText(g) + rest) == Run(AfterSegment(s, g), rest)
  {
    hide Run, ValuesText, ValueOf, ValidValue;
    var tail := ValuesText(g.values) + rest;
    assert SegmentText(g) + rest == g.key + tail;
    RunKey(s, g.key, tail);
    assert s.key + g.key == g.key;
    RunValues(s.(key := Take(g.key, LENGTH)), g.values, rest);
  }

  lemma {:induction false} RunSegmentAnd(s: State, g: Segment, tail: seq<byte>)
    requires s.status.Param? && s.key == [] && s.escape.Plain? && ValidSegment(g)
    ensures var value := ValueOf(g.values, s.value);
      Run(s, SegmentText(g) + ([AND] + tail))
      == Run(s.(value := value, calls := s.calls + [Call(Take(g.key, LENGTH), Filled(value))]), tail)
  {
    hide Run, SegmentText, ValueOf, ValidSegment, Filled, Take;
    RunSegment(s, g, [AND] + tail);
    RunNext(AfterSegment(s, g), AND, tail);
  }

  /** A query ended by a space leads to one call for each segment; without the space the last one is missing. */
  lemma {:induction false} RunQuery(s: State, q: seq<Segment>, rest: seq<byte>)
    requires s.status.Param? && s.key == [] && s.escape.Plain? && ValidQuery(q)
    requires rest == [] || rest[0] == SPACE
    ensures Run(s, QueryText(q) + rest).path == s.path
    ensures Run(s, QueryText(q) + rest).calls
         == s.calls + if rest == [] then Expected(q, s.value)[..|q| - 1] else Expected(q, s.value)
    decreases |q|
  {
    hide Run, SegmentText, ValueOf, ValidSegment, Filled, Take, Expected;
    var g, value := q[0], ValueOf(q[0].values, s.value);
    ExpectedFirst(q, s.value);
    if |q| == 1 {
      RunSegment(s, g, rest);
      RunEnd(AfterSegment(s, g), rest);
    } else {
      var c, tail := [Call(Take(g.key, LENGTH), Filled(value))], QueryText(q[1..]) + rest;
      assert QueryText(q) + rest == SegmentText(g) + ([AND] + tail);
      RunSegmentAnd(s, g, tail);
      RunQuery(s.(value := value, calls := s.calls + c), q[1..], rest);
      assert forall e :: s.calls + c + e == s.calls + (c + e);
    }
  }

  lemma {:induction false} RunEnd(s: State, rest: seq<byte>)
    requires rest == [] || rest[0] == SPACE
    ensures Run(s, rest) == if rest == [] then s else Finish(s)
  {
  }

  lemma {:induction false} ExpectedFirst(q: seq<Segment>, stale: seq<byte>)
    requires q != []
    ensures var value := ValueOf(q[0].values, stale);
      var c := [Call(Take(q[0].key, LENGTH), Filled(value))];
      && Expected(q, stale) == c + Expected(q[1..], value)
      && (|q| == 1 ==> Expected(q, stale) == c && Expected(q, stale)[..0] == [])
      && (|q| > 1 ==> Expected(q, stale)[..|q| - 1] == c + Expected(q[1..], value)[..|q| - 2])
  {
  }

  lemma {:induction false} RunPath(s: State, path: seq<byte>, rest: seq<byte>)
    requires s.status.Path? && ValidPath(path) && |s.path| <= PATH_LENGTH
    ensures Run(s, path + [QUESTION] + rest)
         == Run(s.(status := Param,
                   path := Take(if s.path == [] then Trimmed(path) else s.path + path, PATH_LENGTH)), rest)
    decreases |path|
  {
    hide Run;
    if path == [] {
      assert path + [QUESTION] + rest == [QUESTION] + rest && s.path + path == s.path;
      RunNext(s, QUESTION, rest);
    } else {
      var tail := path[1..];
      assert path + [QUESTION] + rest == [path[0]] + (tail + [QUESTION] + rest);
      RunNext(s, path[0], tail + [QUESTION] + rest);
      var next := Step(s, path[0]);
      RunPath(next, tail, rest);
      if s.path == [] && path[0] == SLASH {
        assert Trimmed(path) == Trimmed(tail);
      } else if s.path == [] {
        assert Trimmed(path) == path && next.path + tail == path;
      } else {
        TakeNext(s.path, path, PATH_LENGTH);
      }
    }
  }

  /**
   * Every path and every query, in every mix of plain and percent-encoded characters: the parser calls
   * `getParam` once for each segment, in order, with the first 20 bytes of the key and of the decoded
   * value. The last call is made exactly when a space ends the query.
   */
  lemma {:induction false} RequestIsRead(path: seq<byte>, q: seq<Segment>, rest: seq<byte>)
    requires ValidPath(path) && ValidQuery(q) && (rest == [] || rest[0] == SPACE)
    ensures Run(START, Request(path, q, rest)).path == Take(Trimmed(path), 200)
    ensures Run(START, Request(path, q, rest)).calls
         == if rest == [] then Expected(q, [])[..|q| - 1] else Expected(q, [])
  {
    hide Run, Expected, Trimmed, Take;
    assert Request(path, q, rest) == path + [QUESTION] + (QueryText(q) + rest);
    RunPath(START, path, QueryText(q) + rest);
    RunQuery(START.(status := Param, path := Take(Trimmed(path), PATH_LENGTH)), q, rest);
  }

  /** A segment comes with the value behind its last equals sign; without one, with the value of the segment before. */
  lemma {:induction false} ExpectedValue(q: seq<Segment>, stale: seq<byte>, i: nat)
    requires i < |q|
    ensures Expected(q, stale)[i].key == Take(q[i].key, LENGTH)
    ensures q[i].values != [] ==>
      Expected(q, stale)[i].value == Filled(Take(Decode(q[i].values[|q[i].values| - 1]), LENGTH))
    ensures q[i].values == [] ==>
      Expected(q, stale)[i].value == if i == 0 then Filled(stale) else Expected(q, stale)[i - 1].value
  {
    hide Take, Filled, Decode;
    if i > 0 {
      ExpectedValue(q[1..], ValueOf(q[0].values, stale), i - 1);
    }
  }

  // ---------------------------------------------------------------- info hashes

  const INFO_HASH := Ascii("info_hash")

  /** What the calls add to the block of hashes. */
  function Hashes(calls: seq<Call>): seq<byte> {
    if calls == [] then []
    else
      var last := calls[|calls| - 1];
      Hashes(calls[..|calls| - 1]) + if last.key == INFO_HASH then last.value else []
  }

  lemma {:induction false} HashesFirst(c: Call, calls: seq<Call>)
    ensures Hashes([c] + calls) == (if c.key == INFO_HASH then c.value else []) + Hashes(calls)
  {
    var n := |calls|;
    if n == 0 {
      assert [c] + calls == [c] && [c][..0] == [];
    } else {
      HashesFirst(c, calls[..n - 1]);
      assert ([c] + calls)[..n] == [c] + calls[..n - 1];
    }
  }

  /** The hashes that a query encodes, one after the other. */
  function Sent(q: seq<Segment>): seq<byte> {
    if q == [] then []
    else if q[0].key == INFO_HASH && q[0].values != [] then Decode(q[0].values[|q[0].values| - 1]) + Sent(q[1..])
    else Sent(q[1..])
  }

  /** Every `info_hash` carries exactly one value behind its last equals sign, of 20 bytes. */
  predicate SendsHashes(q: seq<Segment>) {
    forall i :: 0 <= i < |q| ==>
      q[i].key == INFO_HASH ==> q[i].values != [] && |q[i].values[|q[i].values| - 1]| == LENGTH
  }

  /** Any 20 bytes, whatever their values, come through; several hashes are collected in order. */
  lemma {:induction false} HashesComeThrough(q: seq<Segment>, stale: seq<byte>)
    requires SendsHashes(q)
    ensures Hashes(Expected(q, stale)) == Sent(q)
  {
    hide Decode, Hashes;
    if q == [] {
      assert Hashes([]) == [] by { NoHashes(); }
    } else {
      var value := ValueOf(q[0].values, stale);
      HashesComeThrough(q[1..], value);
      HashesFirst(Call(Take(q[0].key, LENGTH), Filled(value)), Expected(q[1..], value));
      if q[0].key == INFO_HASH {
        assert Filled(value) == value;
      }
    }
  }

  lemma {:induction false} NoHashes()
    ensures Hashes([]) == []
  {
  }

  // ---------------------------------------------------------------- whole messages

  const GET := Ascii("GET ")

  /** The line behind `GET `, up to the end of the message. */
  function Line(message: seq<byte>): seq<byte> {
    if |CString(message)| < 4 then [] else CString(message)[4..]
  }

  lemma {:induction false} NoZeroInValue(v: seq<Symbol>)
    requires ValidValue(v)
    ensures 0 !in Encode(v)
  {
    if v != [] {
      assert Writable(v[0]) && 0 !in Written(v[0]);
      NoZeroInValue(v[1..]);
    }
  }

  lemma {:induction false} NoZeroInValues(values: seq<seq<Symbol>>)
    requires forall i :: 0 <= i < |values| ==> ValidValue(values[i])
    ensures 0 !in ValuesText(values)
  {
    hide Encode, ValidValue;
    if values != [] {
      NoZeroInValue(values[0]);
      NoZeroInValues(values[1..]);
    }
  }

  lemma {:induction false} NoZeroInQuery(q: seq<Segment>)
    requires ValidQuery(q)
    ensures 0 !in QueryText(q)
  {
    hide ValuesText, ValidValue;
    assert ValidSegment(q[0]);
    NoZeroInValues(q[0].values);
    if |q| > 1 {
      NoZeroInQuery(q[1..]);
    }
  }

  lemma {:induction false} FirstIsKept(rest: seq<byte>)
    requires rest != [] && rest[0] == SPACE
    ensures CString(rest) != [] && CString(rest)[0] == SPACE
  {
  }

  /** Cut at its first zero byte the message loses nothing of the path and the query. */
  lemma {:induction false} LineOfMessage(path: seq<byte>, q: seq<Segment>, rest: seq<byte>)
    requires ValidPath(path) && ValidQuery(q)
    ensures Line(GET + Request(path, q, rest)) == Request(path, q, CString(rest))
  {
    hide QueryText, CString;
    var head := path + [QUESTION] + QueryText(q);
    NoZeroInQuery(q);
    assert 0 !in GET + head;
    assert GET + Request(path, q, rest) == (GET + head) + rest;
    CStringOfPrefix(GET + head, rest);
    assert (GET + head + CString(rest))[4..] == head + CString(rest);
  }

  /**
   * A whole message: `GET `, a path, a query, a space and anything. The path, the calls and the collected
   * hashes are those that were encoded, although the message ends at its first zero byte.
   */
  lemma {:induction false} MessageIsRead(path: seq<byte>, q: seq<Segment>, rest: seq<byte>)
    requires ValidPath(path) && ValidQuery(q) && rest != [] && rest[0] == SPACE
    ensures var s := Run(START, Line(GET + Request(path, q, rest)));
      && s.path == Take(Trimmed(path), 200) && s.calls == Expected(q, [])
      && (SendsHashes(q) ==> Hashes(s.calls) == Sent(q))
  {
    hide Run, Line, Request, Expected, Hashes, Trimmed, Take, SendsHashes, ValidPath, ValidQuery;
    LineOfMessage(path, q, rest);
    FirstIsKept(rest);
    RequestIsRead(path, q, CString(rest));
    if SendsHashes(q) {
      HashesComeThrough(q, []);
    }
  }
}
