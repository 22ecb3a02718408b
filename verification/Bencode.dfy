/** Bencoding as BEP 3 frames it, with a reader that does not insist on sorted keys. */
module Bencode {
  import opened Bytes

  datatype Value = Int(i: int) | Str(s: seq<byte>) | List(elements: Elements) | Dict(fields: Fields)
  datatype Elements = NoElement | Element(head: Value, tail: Elements)
  datatype Fields = NoField | Field(key: seq<byte>, value: Value, tail: Fields)

  const MINUS: byte := 45
  const COLON: byte := 58
  const D: byte := 100
  const E: byte := 101
  const I: byte := 105
  const L: byte := 108

  // ---------------------------------------------------------------- writing

  /** A number in decimal digits. */
  function Decimal(n: nat): (d: seq<byte>)
    ensures d != []
  {
    if n < 10 then [48 + n] else Decimal(n / 10) + [48 + n % 10]
  }

  function Integer(i: int): seq<byte> {
    if i < 0 then [MINUS] + Decimal(-i) else Decimal(i)
  }

  function String(s: seq<byte>): seq<byte> {
    Decimal(|s|) + [COLON] + s
  }

  function Encode(v: Value): (t: seq<byte>)
    ensures t != []
  {
    match v
    case Int(i) => [I] + Integer(i) + [E]
    case Str(s) => String(s)
    case List(elements) => [L] + EncodeElements(elements) + [E]
    case Dict(fields) => [D] + EncodeFields(fields) + [E]
  }

  function EncodeElements(elements: Elements): seq<byte> {
    if elements.NoElement? then [] else Encode(elements.head) + EncodeElements(elements.tail)
  }

  function EncodeFields(fields: Fields): seq<byte> {
    if fields.NoField? then []
    else String(fields.key) + Encode(fields.value) + EncodeFields(fields.tail)
  }

  // ---------------------------------------------------------------- reading

  /** What was read, and the text behind it. */
  datatype Parsed<+T> = Parsed(value: T, rest: seq<byte>)

  predicate IsDigit(c: byte) {
    48 <= c <= 57
  }

  function DigitCount(text: seq<byte>): (k: nat)
    ensures k <= |text| && (forall i :: 0 <= i < k ==> IsDigit(text[i])) && (k < |text| ==> !IsDigit(text[k]))
  {
    if text == [] || !IsDigit(text[0]) then 0 else 1 + DigitCount(text[1..])
  }

  predicate AllDigits(d: seq<byte>) {
    forall i :: 0 <= i < |d| ==> IsDigit(d[i])
  }

  function NumberOf(d: seq<byte>): nat
    requires AllDigits(d)
  {
    if d == [] then 0 else NumberOf(d[..|d| - 1]) * 10 + (d[|d| - 1] - 48)
  }

  /** No leading zeros. */
  predicate Canonical(d: seq<byte>) {
    d != [] && (d[0] == 48 ==> |d| == 1)
  }

  function ParseNumber(text: seq<byte>): (r: Option<Parsed<nat>>)
    ensures r.Some? ==> |r.value.rest| < |text|
  {
    var k := DigitCount(text);
    if Canonical(text[..k]) then Some(Parsed(NumberOf(text[..k]), text[k..])) else None
  }

  function ParseInteger(text: seq<byte>): (r: Option<Parsed<int>>)
    ensures r.Some? ==> |r.value.rest| < |text|
  {
    if text != [] && text[0] == MINUS then
      var n := ParseNumber(text[1..]);
      if n.None? || n.value.value == 0 then None else Some(Parsed(0 - n.value.value, n.value.rest))
    else
      var n := ParseNumber(text);
      if n.None? then None else Some(Parsed(n.value.value, n.value.rest))
  }

  function ParseString(text: seq<byte>): (r: Option<Parsed<seq<byte>>>)
    ensures r.Some? ==> |r.value.rest| < |text|
  {
    var n := ParseNumber(text);
    if n.None? then None
    else
      var rest, k := n.value.rest, n.value.value;
      if rest == [] || rest[0] != COLON || |rest| < k + 1 then None
      else Some(Parsed(rest[1..k + 1], rest[k + 1..]))
  }

  function Parse(text: seq<byte>): (r: Option<Parsed<Value>>)
    ensures r.Some? ==> |r.value.rest| < |text|
    decreases |text|, 0
  {
    if text == [] then None
    else if text[0] == I then
      var n := ParseInteger(text[1..]);
      if n.None? || n.value.rest == [] || n.value.rest[0] != E then None
      else Some(Parsed(Int(n.value.value), n.value.rest[1..]))
    else if text[0] == L then
      var elements := ParseElements(text[1..]);
      if elements.None? then None else Some(Parsed(List(elements.value.value), elements.value.rest))
    else if text[0] == D then
      var fields := ParseFields(text[1..]);
      if fields.None? then None else Some(Parsed(Dict(fields.value.value), fields.value.rest))
    else
      var s := ParseString(text);
      if s.None? then None else Some(Parsed(Str(s.value.value), s.value.rest))
  }

  function ParseElements(text: seq<byte>): (r: Option<Parsed<Elements>>)
    ensures r.Some? ==> |r.value.rest| < |text|
    decreases |text|, 1
  {
    if text == [] then None
    else if text[0] == E then Some(Parsed(NoElement, text[1..]))
    else
      var head := Parse(text);
      if head.None? then None
      else
        var tail := ParseElements(head.value.rest);
        if tail.None? then None else Some(Parsed(Element(head.value.value, tail.value.value), tail.value.rest))
  }

  function ParseFields(text: seq<byte>): (r: Option<Parsed<Fields>>)
    ensures r.Some? ==> |r.value.rest| < |text|
    decreases |text|, 1
  {
    if text == [] then None
    else if text[0] == E then Some(Parsed(NoField, text[1..]))
    else
      var key := ParseString(text);
      if key.None? then None
      else
        var value := Parse(key.value.rest);
        if value.None? then None
        else
          var tail := ParseFields(value.value.rest);
          if tail.None? then None
          else Some(Parsed(Field(key.value.value, value.value.value, tail.value.value), tail.value.rest))
  }

  // ---------------------------------------------------------------- numbers

  lemma {:induction false} DecimalDigits(n: nat)
    ensures AllDigits(Decimal(n)) && Canonical(Decimal(n)) && NumberOf(Decimal(n)) == n
    ensures n > 0 ==> Decimal(n)[0] != 48
  {
    if n >= 10 {
      DecimalDigits(n / 10);
      assert Decimal(n)[..|Decimal(n)| - 1] == Decimal(n / 10);
    } else {
      assert Decimal(n)[..0] == [];
    }
  }

  lemma {:induction false} NumberDigits(d: seq<byte>)
    requires AllDigits(d) && Canonical(d)
    ensures Decimal(NumberOf(d)) == d
    ensures d[0] != 48 ==> NumberOf(d) > 0
  {
    var k := |d| - 1;
    if k == 0 {
      assert d[..0] == [] && d == [d[0]];
    } else {
      NumberDigits(d[..k]);
      assert d == d[..k] + [d[k]];
    }
  }

  predicate NoDigitFirst(rest: seq<byte>) {
    rest == [] || !IsDigit(rest[0])
  }

  lemma {:induction false} DigitCountIs(d: seq<byte>, rest: seq<byte>)
    requires AllDigits(d) && NoDigitFirst(rest)
    ensures DigitCount(d + rest) == |d|
  {
    if d == [] {
      assert d + rest == rest;
    } else {
      assert (d + rest)[1..] == d[1..] + rest;
      DigitCountIs(d[1..], rest);
    }
  }

  lemma {:induction false} NumberIsRead(n: nat, rest: seq<byte>)
    requires NoDigitFirst(rest)
    ensures ParseNumber(Decimal(n) + rest) == Some(Parsed(n, rest))
  {
    DecimalDigits(n);
    DigitCountIs(Decimal(n), rest);
    var text := Decimal(n) + rest;
    assert text[..|Decimal(n)|] == Decimal(n) && text[|Decimal(n)|..] == rest;
  }

  lemma {:induction false} NumberIsWritten(text: seq<byte>)
    requires ParseNumber(text).Some?
    ensures var r := ParseNumber(text).value; text == Decimal(r.value) + r.rest && NoDigitFirst(r.rest)
  {
    var k := DigitCount(text);
    NumberDigits(text[..k]);
    assert text == text[..k] + text[k..];
  }

  lemma {:induction false} IntegerIsRead(i: int, rest: seq<byte>)
    requires NoDigitFirst(rest)
    ensures ParseInteger(Integer(i) + rest) == Some(Parsed(i, rest))
  {
    hide ParseNumber, Decimal, NoDigitFirst;
    if i < 0 {
      NumberIsRead(-i, rest);
      assert (Integer(i) + rest)[1..] == Decimal(-i) + rest;
    } else {
      NumberIsRead(i, rest);
      DecimalDigits(i);
      assert IsDigit(Decimal(i)[0]);
      assert (Integer(i) + rest)[0] == Decimal(i)[0];
    }
  }

  lemma {:induction false} IntegerIsWritten(text: seq<byte>)
    requires ParseInteger(text).Some?
    ensures var r := ParseInteger(text).value; text == Integer(r.value) + r.rest
  {
    hide ParseNumber;
    if text[0] == MINUS {
      NumberIsWritten(text[1..]);
      var r := ParseInteger(text).value;
      assert text == [MINUS] + text[1..];
      assert text == [MINUS] + (Decimal(-r.value) + r.rest);
    } else {
      NumberIsWritten(text);
    }
  }

  lemma {:induction false} StringIsRead(s: seq<byte>, rest: seq<byte>)
    ensures ParseString(String(s) + rest) == Some(Parsed(s, rest))
    ensures IsDigit((String(s) + rest)[0])
  {
    hide ParseNumber;
    var tail := [COLON] + s + rest;
    assert String(s) + rest == Decimal(|s|) + tail;
    NumberIsRead(|s|, tail);
    assert tail[1..|s| + 1] == s && tail[|s| + 1..] == rest;
    DecimalDigits(|s|);
    assert (String(s) + rest)[0] == Decimal(|s|)[0];
  }

  lemma {:induction false} StringIsWritten(text: seq<byte>)
    requires ParseString(text).Some?
    ensures var r := ParseString(text).value; text == String(r.value) + r.rest
    ensures IsDigit(text[0])
  {
    hide ParseNumber;
    NumberIsWritten(text);
    var n := ParseNumber(text).value;
    var k := n.value;
    assert n.rest == [COLON] + n.rest[1..k + 1] + n.rest[k + 1..];
    DecimalDigits(k);
    assert text[0] == Decimal(k)[0];
  }

  // ---------------------------------------------------------------- reading is the inverse of writing

  /** Whatever is written is read back, and the text behind it is left alone. */
  lemma {:induction false} RoundTrip(v: Value, rest: seq<byte>)
    ensures Parse(Encode(v) + rest) == Some(Parsed(v, rest))
    ensures Encode(v)[0] != E
    decreases v, 0
  {
    hide ParseInteger, ParseString, Integer, String, ParseElements, ParseFields, EncodeElements, EncodeFields;
    match v
    case Int(i) =>
      IntRoundTrip(i, rest);
    case Str(s) =>
      StringIsRead(s, rest);
      StringBegins(s);
    case List(elements) =>
      ElementsRoundTrip(elements, rest);
      assert (Encode(v) + rest)[1..] == EncodeElements(elements) + [E] + rest;
    case Dict(fields) =>
      FieldsRoundTrip(fields, rest);
      assert (Encode(v) + rest)[1..] == EncodeFields(fields) + [E] + rest;
  }

  lemma {:induction false} IntRoundTrip(i: int, rest: seq<byte>)
    ensures Parse([I] + Integer(i) + [E] + rest) == Some(Parsed(Int(i), rest))
  {
    hide ParseInteger, ParseString, Integer, ParseElements, ParseFields;
    IntegerIsRead(i, [E] + rest);
    var text := [I] + Integer(i) + [E] + rest;
    assert text[1..] == Integer(i) + ([E] + rest);
    assert ([E] + rest)[1..] == rest;
  }

  lemma {:induction false} StringBegins(s: seq<byte>)
    ensures String(s) != [] && IsDigit(String(s)[0])
  {
    DecimalDigits(|s|);
  }

  lemma {:induction false} ElementsRoundTrip(elements: Elements, rest: seq<byte>)
    ensures ParseElements(EncodeElements(elements) + [E] + rest) == Some(Parsed(elements, rest))
    decreases elements, 1
  {
    hide Parse, Encode;
    var text := EncodeElements(elements) + [E] + rest;
    if elements.NoElement? {
      assert text == [E] + rest;
      assert text[1..] == rest;
    } else {
      var tail := EncodeElements(elements.tail) + [E] + rest;
      assert text == Encode(elements.head) + tail;
      RoundTrip(elements.head, tail);
      ElementsRoundTrip(elements.tail, rest);
    }
  }

  lemma {:induction false} FieldsRoundTrip(fields: Fields, rest: seq<byte>)
    ensures ParseFields(EncodeFields(fields) + [E] + rest) == Some(Parsed(fields, rest))
    decreases fields, 1
  {
    hide Parse, Encode, ParseString, String;
    var text := EncodeFields(fields) + [E] + rest;
    if fields.NoField? {
      assert text == [E] + rest;
      assert text[1..] == rest;
    } else {
      var tail := EncodeFields(fields.tail) + [E] + rest;
      assert text == String(fields.key) + (Encode(fields.value) + tail);
      StringIsRead(fields.key, Encode(fields.value) + tail);
      RoundTrip(fields.value, tail);
      FieldsRoundTrip(fields.tail, rest);
    }
  }

  /** The reader accepts nothing but what the writer writes: every value has one text. */
  lemma {:induction false} ReadIsWritten(text: seq<byte>)
    requires Parse(text).Some?
    ensures var r := Parse(text).value; text == Encode(r.value) + r.rest
    decreases |text|, 0
  {
    hide ParseInteger, ParseString, Integer, String, ParseElements, ParseFields, EncodeElements, EncodeFields;
    assert text == [text[0]] + text[1..];
    if text[0] == I {
      IntegerValueWritten(text);
    } else if text[0] == L {
      ElementsWritten(text[1..]);
    } else if text[0] == D {
      FieldsWritten(text[1..]);
    } else {
      StringIsWritten(text);
    }
  }

  lemma {:induction false} IntegerValueWritten(text: seq<byte>)
    requires Parse(text).Some? && text[0] == I
    ensures var r := Parse(text).value; text == Encode(r.value) + r.rest
  {
    hide ParseInteger, Integer;
    IntegerIsWritten(text[1..]);
    var n := ParseInteger(text[1..]).value;
    assert text == [I] + text[1..];
    assert n.rest == [E] + n.rest[1..];
  }

  lemma {:induction false} ElementsWritten(text: seq<byte>)
    requires ParseElements(text).Some?
    ensures var r := ParseElements(text).value; text == EncodeElements(r.value) + [E] + r.rest
    decreases |text|, 1
  {
    hide Parse, Encode;
    var r := ParseElements(text).value;
    if text[0] == E {
      assert text == [E] + r.rest;
    } else {
      ReadIsWritten(text);
      ElementsWritten(Parse(text).value.rest);
    }
  }

  lemma {:induction false} FieldsWritten(text: seq<byte>)
    requires ParseFields(text).Some?
    ensures var r := ParseFields(text).value; text == EncodeFields(r.value) + [E] + r.rest
    decreases |text|, 1
  {
    hide Parse, Encode, ParseString, String;
    var r := ParseFields(text).value;
    if text[0] == E {
      assert text == [E] + r.rest;
    } else {
      StringIsWritten(text);
      var rest := ParseString(text).value.rest;
      ReadIsWritten(rest);
      FieldsWritten(Parse(rest).value.rest);
    }
  }
}
