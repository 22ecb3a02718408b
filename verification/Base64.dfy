/** base64.c against the encoding of section 4 of RFC 4648. */
module Base64 {
  import opened Bytes
  import opened Block

  const PAD: byte := 61

  /** The table of the source: symbol number 64 is the padding character. */
  function Symbol(index: nat): byte
    requires index <= 64
  {
    if index < 26 then 65 + index
    else if index < 52 then 97 + (index - 26)
    else if index < 62 then 48 + (index - 52)
    else if index == 62 then 43
    else if index == 63 then 47
    else PAD
  }

  /** Table 1 of RFC 4648, read backwards. */
  function ValueOf(symbol: byte): Option<nat> {
    if 65 <= symbol <= 90 then Some(symbol - 65)
    else if 97 <= symbol <= 122 then Some(symbol - 97 + 26)
    else if 48 <= symbol <= 57 then Some(symbol - 48 + 52)
    else if symbol == 43 then Some(62)
    else if symbol == 47 then Some(63)
    else None
  }

  lemma {:induction false} ValueOfSymbol(index: nat)
    requires index < 64
    ensures ValueOf(Symbol(index)) == Some(index) && Symbol(index) != PAD
  {
  }

  // ---------------------------------------------------------------- what the source produces

  /** The four symbols for the one, two or three bytes that are left. */
  function Group(g: seq<byte>): (r: seq<byte>)
    requires 1 <= |g| <= 3
    ensures |r| == 4
  {
    var a, b, c := g[0], if |g| > 1 then g[1] else 0, if |g| > 2 then g[2] else 0;
    [Symbol(a / 4), Symbol(a % 4 * 16 + b / 16),
     if |g| < 2 then PAD else Symbol(b % 16 * 4 + c / 64),
     if |g| < 3 then PAD else Symbol(c % 64)]
  }

  function Encoded(s: seq<byte>): seq<byte> {
    if s == [] then []
    else if |s| <= 3 then Group(s)
    else Group(s[..3]) + Encoded(s[3..])
  }

  // ---------------------------------------------------------------- decoding by section 4 of RFC 4648

  /** The bytes behind four symbols; padding only at the end, and the bits it leaves over must be zero. */
  function DecodeGroup(g: seq<byte>): Option<seq<byte>>
    requires |g| == 4
  {
    var a, b, c, d := ValueOf(g[0]), ValueOf(g[1]), ValueOf(g[2]), ValueOf(g[3]);
    if a.None? || b.None? then None
    else
      var first := a.value * 4 + b.value / 16;
      if first > 255 then None
      else if g[2] == PAD then
        if g[3] == PAD && b.value % 16 == 0 then Some([first]) else None
      else if c.None? || b.value > 63 || c.value > 63 then None
      else
        var second := b.value % 16 * 16 + c.value / 4;
        if second > 255 then None
        else if g[3] == PAD then
          if c.value % 4 == 0 then Some([first, second]) else None
        else if d.None? || d.value > 63 then None
        else Some([first, second, c.value % 4 * 64 + d.value])
  }

  function Decoded(t: seq<byte>): Option<seq<byte>> {
    if t == [] then Some([])
    else if |t| < 4 then None
    else
      var g := DecodeGroup(t[..4]);
      if g.None? then None
      else if |t| == 4 then g
      else if |g.value| < 3 then None
      else
        var rest := Decoded(t[4..]);
        if rest.None? then None else Some(g.value + rest.value)
  }

  lemma {:induction false} SixBits(a: int, b: int, c: int)
    requires 0 <= a < 256 && 0 <= b < 256 && 0 <= c < 256
    ensures a / 4 * 4 + (a % 4 * 16 + b / 16) / 16 == a
    ensures (a % 4 * 16 + b / 16) % 16 * 16 + (b % 16 * 4 + c / 64) / 4 == b
    ensures (b % 16 * 4 + c / 64) % 4 * 64 + c % 64 == c
  {
  }

  lemma {:induction false} GroupRoundTrip(g: seq<byte>)
    requires 1 <= |g| <= 3
    ensures DecodeGroup(Group(g)) == Some(g)
  {
    hide Symbol, ValueOf;
    var a: int, b: int, c: int := g[0], if |g| > 1 then g[1] else 0, if |g| > 2 then g[2] else 0;
    ValueOfSymbol(a / 4);
    ValueOfSymbol(a % 4 * 16 + b / 16);
    ValueOfSymbol(b % 16 * 4 + c / 64);
    ValueOfSymbol(c % 64);
    SixBits(a, b, c);
    var r := Group(g);
    assert r[0] == Symbol(a / 4) && r[1] == Symbol(a % 4 * 16 + b / 16);
    if |g| == 1 {
      assert g == [g[0]];
    } else if |g| == 2 {
      assert r[2] == Symbol(b % 16 * 4 + c / 64) && g == [g[0], g[1]];
    } else {
      assert r[2] == Symbol(b % 16 * 4 + c / 64) && r[3] == Symbol(c % 64) && g == [g[0], g[1], g[2]];
    }
  }

  /** Decoding undoes the encoding of every byte sequence, and the encoding has the length the RFC gives it. */
  lemma {:induction false} RoundTrip(s: seq<byte>)
    ensures Decoded(Encoded(s)) == Some(s)
    ensures |Encoded(s)| == 4 * ((|s| + 2) / 3)
  {
    hide Group, DecodeGroup;
    if s != [] {
      if |s| <= 3 {
        GroupRoundTrip(s);
        assert Group(s)[..4] == Group(s);
      } else {
        GroupRoundTrip(s[..3]);
        RoundTrip(s[3..]);
        var t := Encoded(s);
        assert t[..4] == Group(s[..3]) && t[4..] == Encoded(s[3..]);
        assert |Encoded(s[3..])| >= 4;
        assert s == s[..3] + s[3..];
      }
    }
  }

  lemma {:induction false} EncodedConcat(s: seq<byte>, t: seq<byte>)
    requires |s| % 3 == 0
    ensures Encoded(s + t) == Encoded(s) + Encoded(t)
  {
    hide Encoded, Group;
    if s == [] {
      assert s + t == t;
      EncodedStep(s);
      assert [] + Encoded(t) == Encoded(t);
    } else {
      EncodedConcat(s[3..], t);
      EncodedStep(s);
      EncodedStep(s + t);
      assert (s + t)[..3] == s[..3] && (s + t)[3..] == s[3..] + t;
      assert Group(s[..3]) + (Encoded(s[3..]) + Encoded(t)) == Group(s[..3]) + Encoded(s[3..]) + Encoded(t);
    }
  }

  lemma {:induction false} EncodedStep(s: seq<byte>)
    ensures s == [] ==> Encoded(s) == []
    ensures |s| >= 3 ==> Encoded(s) == Group(s[..3]) + Encoded(s[3..])
  {
    hide Group;
    if |s| == 3 {
      assert s[..3] == s && s[3..] == [];
    }
  }

  // ---------------------------------------------------------------- base64.c

  /** `getIndex`: 0 behind the end. */
  function GetIndex(s: seq<byte>, index: nat): byte {
    if index >= |s| then 0 else s[index]
  }

  function Least(a: nat, b: nat): nat {
    if a < b then a else b
  }

  /** The switch of `base64_encode`; the operands of its `|` share no bits. */
  method IndexString(s: seq<byte>, offset: nat, resultIndex: nat) returns (index: nat)
    requires offset < |s| && resultIndex < 4
    ensures index <= 64 && Symbol(index) == Group(s[offset..Least(offset + 3, |s|)])[resultIndex]
  {
    hide Symbol;
    if resultIndex == 0 {
      index := s[offset] / 4;
    } else if resultIndex == 1 {
      index := (s[offset] as int * 16 + GetIndex(s, offset + 1) / 16) % 64;
      ModuloShift(s[offset], 16, 4, GetIndex(s, offset + 1) / 16);
    } else if resultIndex == 2 {
      if offset + 2 > |s| {
        index := 64;
        PadSymbol();
      } else {
        index := (GetIndex(s, offset + 1) as int * 4 + GetIndex(s, offset + 2) / 64) % 64;
        ModuloShift(GetIndex(s, offset + 1), 4, 16, GetIndex(s, offset + 2) / 64);
      }
    } else {
      if offset + 3 > |s| {
        index := 64;
        PadSymbol();
      } else {
        index := GetIndex(s, offset + 2) % 64;
      }
    }
  }

  lemma {:induction false} PadSymbol()
    ensures Symbol(64) == PAD
  {
  }

  lemma {:induction false} ModuloShift(a: int, up: int, keep: int, low: int)
    requires 0 <= a < 256 && 0 <= low < up && ((up == 16 && keep == 4) || (up == 4 && keep == 16))
    ensures (a * up + low) % 64 == a % keep * up + low
  {
    if up == 16 {
      Modulo64(a / 4, a % 4 * 16 + low);
    } else {
      Modulo64(a / 16, a % 16 * 4 + low);
    }
  }

  lemma {:induction false} Modulo64(q: int, r: int)
    requires 0 <= r < 64
    ensures (64 * q + r) % 64 == r
  {
  }

  /** The sizes that a block takes which is filled byte by byte: 2000, 4001 and then doubled. */
  function Doubled(k: nat): nat {
    if k == 0 then START_ALLOCATE_SIZE else if k == 1 then 4001 else 2 * Doubled(k - 1)
  }

  /** The largest of them in 32 bits; the encoding has to stay below it. */
  const LARGEST_SIZE := 4195352576

  lemma {:induction false} Doublings()
    ensures Doubled(21) == LARGEST_SIZE < WORD
  {
    assert Doubled(5) == 64016 && Doubled(9) == 1024256 && Doubled(13) == 16388096 && Doubled(17) == 262209536;
  }

  lemma {:induction false} DoubledGrows(k: nat, n: nat)
    requires k <= n
    ensures START_ALLOCATE_SIZE <= Doubled(k) <= Doubled(n)
  {
    if k < n {
      DoubledGrows(k, n - 1);
    } else if k > 1 {
      DoubledGrows(k - 1, k - 1);
    }
  }

  /** Below the largest size a full block can be doubled. */
  lemma {:induction false} OneMoreFits(size: nat, k: nat)
    requires k <= 21 && size < Doubled(k) && size + 1 < LARGEST_SIZE
    ensures FitsIn(Doubled(k), size, 1)
    ensures Grown(Doubled(k), size, 1) == Doubled(if size + 1 < Doubled(k) then k else k + 1)
    ensures size + 1 >= Doubled(k) ==> k < 21
  {
    Doublings();
    if size + 1 >= Doubled(k) {
      DoubledGrows(k + 1, 21);
      if k > 0 {
        DoubledGrows(1, k);
      }
    }
  }

  /** The inner loop of `base64_encode`: the four symbols of one group. */
  method EncodeGroup(result: Block, bytes: seq<byte>, offset: nat, ghost g: seq<byte>, ghost k: nat)
    returns (ghost n: nat)
    requires offset < |bytes| && g == bytes[offset..Least(offset + 3, |bytes|)]
    requires result.Valid() && k <= 21 && result.capacity == Doubled(k) && result.size + 4 < LARGEST_SIZE
    modifies result, result.data
    ensures result.Valid() && (result.data == old(result.data) || fresh(result.data))
    ensures result.Contents() == old(result.Contents()) + Group(g) && result.size == old(result.size) + 4
    ensures n <= 21 && result.capacity == Doubled(n)
  {
    hide Group, Symbol, FitsIn, Grown, Doubled;
    n := k;
    for resultIndex := 0 to 4
      invariant result.Valid() && (result.data == old(result.data) || fresh(result.data))
      invariant result.Contents() == old(result.Contents()) + Group(g)[..resultIndex]
      invariant result.size == old(result.size) + resultIndex && n <= 21 && result.capacity == Doubled(n)
    {
      var index := IndexString(bytes, offset, resultIndex);
      assert Group(g)[..resultIndex + 1] == Group(g)[..resultIndex] + [Symbol(index)];
      OneMoreFits(result.size, n);
      n := if result.size + 1 < Doubled(n) then n else n + 1;
      result.AddString([Symbol(index)]);
    }
    assert Group(g)[..4] == Group(g);
  }

  /** `base64_encode`. */
  method Base64Encode(input: Block) returns (result: Block)
    requires input.Valid() && 4 * ((input.size + 2) / 3) < LARGEST_SIZE
    ensures fresh(result) && fresh(result.data) && result.Valid()
    ensures result.Contents() == Encoded(input.Contents())
  {
    hide Encoded, Group, Symbol;
    ghost var s := input.Contents();
    var bytes := input.data[..input.size];
    result := new Block();
    ghost var k := 0;
    EncodedPrefix(s, 0);
    var source := 0;
    while source < (input.size + 2) / 3
      invariant source <= (input.size + 2) / 3 && input.Valid() && input.Contents() == s
      invariant fresh(result) && fresh(result.data) && result.Valid() && k <= 21 && result.capacity == Doubled(k)
      invariant result.Contents() == Encoded(s[..Least(3 * source, |s|)]) && result.size == 4 * source
    {
      var offset := source * 3;
      ghost var g := s[offset..Least(offset + 3, |s|)];
      k := EncodeGroup(result, bytes, offset, g, k);
      EncodedPrefix(s, source + 1);
      source := source + 1;
    }
    assert s[..|s|] == s;
  }

  /** One more group of the source is one more group of the encoding. */
  lemma {:induction false} EncodedPrefix(s: seq<byte>, i: nat)
    requires i <= (|s| + 2) / 3
    ensures i == 0 ==> Encoded(s[..Least(3 * i, |s|)]) == []
    ensures i > 0 ==>
      Encoded(s[..Least(3 * i, |s|)])
      == Encoded(s[..Least(3 * (i - 1), |s|)]) + Group(s[3 * (i - 1)..Least(3 * i, |s|)])
  {
    hide Group;
    if i > 0 {
      var p, g := s[..3 * (i - 1)], s[3 * (i - 1)..Least(3 * i, |s|)];
      assert s[..Least(3 * i, |s|)] == p + g;
      EncodedConcat(p, g);
      assert Encoded(g) == Group(g);
    }
  }
}
