/** sha1.c against the SHA-1 of FIPS 180-4, in place on a block. */
module Sha1 {
  import opened Bytes
  import opened ByteOrder
  import opened HashOrder
  import opened Block

  // ---------------------------------------------------------------- FIPS 180-4: padding (5.1.1)

  function Zeros(n: nat): (z: seq<byte>)
    ensures |z| == n && forall i :: 0 <= i < n ==> z[i] == 0
  {
    seq(n, _ => 0)
  }

  /** The number of zero bytes: the least that makes the length 56 modulo 64 after the byte 0x80. */
  function ZeroCount(n: nat): nat {
    (119 - n % 64) % 64
  }

  function Padded(m: seq<byte>): seq<byte> {
    m + [0x80] + Zeros(ZeroCount(|m|)) + Octets(8 * |m|, 8)
  }

  /** `k` zero bytes make a message of `n` bytes end 8 bytes short of a block. */
  predicate Aligns(n: nat, k: nat) {
    (n + 1 + k) % 64 == 56
  }

  lemma {:induction false} AlignsModulo(n: nat, q: nat, r: nat, k: nat)
    requires n == 64 * q + r
    ensures Aligns(n, k) <==> Aligns(r, k)
  {
  }

  lemma {:induction false} LeastZeros(r: nat, k: nat)
    requires r < 64
    ensures Aligns(r, if r <= 55 then 55 - r else 119 - r)
    ensures Aligns(r, k) ==> k >= if r <= 55 then 55 - r else 119 - r
  {
  }

  /** The padded length is the least multiple of 64 with room for 0x80 and eight bytes of length. */
  lemma {:induction false} PaddingIsLeast(m: seq<byte>)
    ensures |Padded(m)| % 64 == 0 && |m| + 9 <= |Padded(m)| < |m| + 9 + 64
    ensures Aligns(|m|, ZeroCount(|m|)) && forall k: nat :: Aligns(|m|, k) ==> k >= ZeroCount(|m|)
  {
    hide Aligns, Padded, ZeroCount;
    var n, q, r := |m|, |m| / 64, |m| % 64;
    PaddedSize(m);
    ZeroCases(n, q, r);
    AlignsModulo(n, q, r, ZeroCount(n));
    LeastZeros(r, 0);
    forall k: nat | Aligns(n, k) ensures k >= ZeroCount(n) {
      AlignsModulo(n, q, r, k);
      LeastZeros(r, k);
    }
    assert |Padded(m)| == 64 * q + (if r <= 55 then 64 else 128);
  }

  lemma {:induction false} PaddedSize(m: seq<byte>)
    ensures |Padded(m)| == |m| + 9 + ZeroCount(|m|)
  {
    hide ZeroCount, Octets;
  }

  lemma {:induction false} ZeroCases(n: nat, q: nat, r: nat)
    requires n == 64 * q + r && r < 64
    ensures ZeroCount(n) == if r <= 55 then 55 - r else 119 - r
  {
    assert n % 64 == r;
  }

  /** No two messages shorter than 2^61 bytes are padded to the same bytes. */
  lemma {:induction false} PaddingIsInjective(m: seq<byte>, n: seq<byte>)
    requires 8 * |m| < Pow256(8) && 8 * |n| < Pow256(8) && Padded(m) == Padded(n)
    ensures m == n
  {
    hide Octets, Pow256, Rank, Zeros;
    var p := Padded(m);
    var l := |p| - 8;
    assert p[l..] == Octets(8 * |m|, 8) && p[l..] == Octets(8 * |n|, 8);
    OctetsRead(8 * |m|, 8);
    OctetsRead(8 * |n|, 8);
    assert p[..|m|] == m && p[..|n|] == n;
  }

  // ---------------------------------------------------------------- FIPS 180-4: the functions (4.1.1, 4.2.1)

  type word = bv32

  function Rotl(x: word, n: nat): word
    requires n <= 32
  {
    x.RotateLeft(n)
  }

  function Ch(x: word, y: word, z: word): word {
    (x & y) ^ (!x & z)
  }

  function Parity(x: word, y: word, z: word): word {
    x ^ y ^ z
  }

  function Maj(x: word, y: word, z: word): word {
    (x & y) ^ (x & z) ^ (y & z)
  }

  function F(t: nat, x: word, y: word, z: word): word {
    if t < 20 then Ch(x, y, z) else if t < 40 then Parity(x, y, z) else if t < 60 then Maj(x, y, z) else Parity(x, y, z)
  }

  function K(t: nat): word {
    if t < 20 then 0x5a827999 else if t < 40 then 0x6ed9eba1 else if t < 60 then 0x8f1bbcdc else 0xca62c1d6
  }

  // ---------------------------------------------------------------- FIPS 180-4: the computation (6.1.2)

  function WordOf(a: word, b: word, c: word, d: word): word {
    ((a & 0xff) << 24) | ((b & 0xff) << 16) | ((c & 0xff) << 8) | (d & 0xff)
  }

  function ByteWord(x: byte): word {
    x as bv32
  }

  /** The big-endian word at byte `i`. */
  function WordAt(b: seq<byte>, i: nat): word
    requires i + 4 <= |b|
  {
    WordOf(ByteWord(b[i]), ByteWord(b[i + 1]), ByteWord(b[i + 2]), ByteWord(b[i + 3]))
  }

  /** Addition modulo 2^32. */
  function Plus(x: word, y: word): word {
    x + y
  }

  function PlusAll(x: word, y: word, z: word, u: word, v: word): word {
    x + y + z + u + v
  }

  function XorAll(x: word, y: word, z: word, u: word): word {
    x ^ y ^ z ^ u
  }

  /** The message schedule of one block. */
  function Schedule(b: seq<byte>, t: nat): word
    requires |b| == 64 && t < 80
  {
    if t < 16 then WordAt(b, 4 * t)
    else Rotl(XorAll(Schedule(b, t - 3), Schedule(b, t - 8), Schedule(b, t - 14), Schedule(b, t - 16)), 1)
  }

  datatype Registers = Registers(a: word, b: word, c: word, d: word, e: word)

  const INITIAL := Registers(0x67452301, 0xefcdab89, 0x98badcfe, 0x10325476, 0xc3d2e1f0)

  function Round(r: Registers, t: nat, w: word): Registers {
    Registers(PlusAll(Rotl(r.a, 5), F(t, r.b, r.c, r.d), r.e, K(t), w), r.a, Rotl(r.b, 30), r.c, r.d)
  }

  function Rounds(r: Registers, b: seq<byte>, t: nat): Registers
    requires |b| == 64 && t <= 80
  {
    if t == 0 then r else Round(Rounds(r, b, t - 1), t - 1, Schedule(b, t - 1))
  }

  function Sum(r: Registers, s: Registers): Registers {
    Registers(Plus(r.a, s.a), Plus(r.b, s.b), Plus(r.c, s.c), Plus(r.d, s.d), Plus(r.e, s.e))
  }

  function BlockAt(p: seq<byte>, i: nat): seq<byte>
    requires 64 * (i + 1) <= |p|
  {
    p[64 * i..64 * (i + 1)]
  }

  /** The hash value after the first `n` blocks. */
  function HashValue(p: seq<byte>, n: nat): Registers
    requires 64 * n <= |p|
  {
    if n == 0 then INITIAL
    else
      var before := HashValue(p, n - 1);
      Sum(before, Rounds(before, BlockAt(p, n - 1), 80))
  }

  function AsByte(w: word): byte {
    (w & 0xff) as bv8 as int
  }

  function Part0(w: word): word { w & 0xff }
  function Part1(w: word): word { (w >> 8) & 0xff }
  function Part2(w: word): word { (w >> 16) & 0xff }
  function Part3(w: word): word { (w >> 24) & 0xff }

  /** A word as four bytes, most significant first. */
  function WordBytes(w: word): (b: seq<byte>)
    ensures |b| == 4
  {
    [AsByte(Part3(w)), AsByte(Part2(w)), AsByte(Part1(w)), AsByte(Part0(w))]
  }

  function Digest(m: seq<byte>): (d: seq<byte>)
    ensures |d| == 20
  {
    var p := Padded(m);
    DigestBytes(HashValue(p, |p| / 64))
  }

  function DigestBytes(h: Registers): (d: seq<byte>)
    ensures |d| == 20
  {
    WordBytes(h.a) + WordBytes(h.b) + WordBytes(h.c) + WordBytes(h.d) + WordBytes(h.e)
  }

  // ---------------------------------------------------------------- sha1.c

  /** `leftRotate`. */
  function LeftRotate(input: word, rotate: nat): word
    requires 0 < rotate < 32
  {
    (input << rotate) | (input >> (32 - rotate))
  }

  lemma {:induction false} LeftRotateIsRotl(x: word)
    ensures LeftRotate(x, 1) == Rotl(x, 1) && LeftRotate(x, 5) == Rotl(x, 5) && LeftRotate(x, 30) == Rotl(x, 30)
  {
  }

  /** The OR forms of the source are the XOR forms of the standard. */
  lemma {:induction false} OrForms(b: word, c: word, d: word)
    ensures (b & c) | (!b & d) == Ch(b, c, d)
    ensures (b & c) | (b & d) | (c & d) == Maj(b, c, d)
    ensures b ^ c ^ d == Parity(b, c, d)
  {
  }

  function Htonl(w: word): word {
    ((w & 0xff) << 24) | ((w & 0xff00) << 8) | ((w >> 8) & 0xff00) | ((w >> 24) & 0xff)
  }

  /** A word as a little-endian host loads it from byte `i` on. */
  function LoadAt(b: seq<byte>, i: nat): word
    requires i + 4 <= |b|
  {
    WordOf(ByteWord(b[i + 3]), ByteWord(b[i + 2]), ByteWord(b[i + 1]), ByteWord(b[i]))
  }

  lemma {:induction false} HtonlLoads(b: seq<byte>, i: nat)
    requires i + 4 <= |b|
    ensures Htonl(LoadAt(b, i)) == WordAt(b, i)
  {
  }

  /** The memory of a word on a little-endian host. */
  function Memory(w: word): (b: seq<byte>)
    ensures |b| == 4
  {
    [AsByte(Part0(w)), AsByte(Part1(w)), AsByte(Part2(w)), AsByte(Part3(w))]
  }

  lemma {:induction false} HtonlStores(w: word)
    ensures Memory(Htonl(w)) == WordBytes(w)
  {
  }

  /** The loops of `sha1` that fill `w` from one block. */
  method FillSchedule(block: seq<byte>) returns (w: array<word>)
    requires |block| == 64
    ensures fresh(w) && w.Length == 80 && forall t :: 0 <= t < 80 ==> w[t] == Schedule(block, t)
  {
    hide Htonl, LoadAt, LeftRotate, Rotl, WordAt, XorAll;
    w := new word[80];
    for i := 0 to 16
      invariant forall t :: 0 <= t < i ==> w[t] == Schedule(block, t)
    {
      HtonlLoads(block, 4 * i);
      w[i] := Htonl(LoadAt(block, 4 * i));
    }
    for i := 16 to 80
      invariant forall t :: 0 <= t < i ==> w[t] == Schedule(block, t)
    {
      var x := XorAll(w[i - 3], w[i - 8], w[i - 14], w[i - 16]);
      LeftRotateIsRotl(x);
      w[i] := LeftRotate(x, 1);
    }
  }

  /** The branches of the loop over the rounds. */
  method RoundFunction(i: nat, b: word, c: word, d: word) returns (f: word, k: word)
    requires i < 80
    ensures f == F(i, b, c, d) && k == K(i)
  {
    hide Ch, Parity, Maj;
    OrForms(b, c, d);
    if i < 20 {
      f, k := (b & c) | (!b & d), 0x5A827999;
    } else if i < 40 {
      f, k := b ^ c ^ d, 0x6ED9EBA1;
    } else if i < 60 {
      f, k := (b & c) | (b & d) | (c & d), 0x8F1BBCDC;
    } else {
      f, k := b ^ c ^ d, 0xCA62C1D6;
    }
  }

  lemma {:induction false} RoundsBegin(r: Registers, b: seq<byte>)
    requires |b| == 64
    ensures Rounds(r, b, 0) == r
  {
  }

  lemma {:induction false} RoundsNext(r: Registers, b: seq<byte>, t: nat)
    requires |b| == 64 && t < 80
    ensures Rounds(r, b, t + 1) == Round(Rounds(r, b, t), t, Schedule(b, t))
  {
  }

  /** The 80 rounds over one block. */
  method RunRounds(start: Registers, block: seq<byte>) returns (r: Registers)
    requires |block| == 64
    ensures r == Rounds(start, block, 80)
  {
    hide LeftRotate, Rotl, Schedule, F, K, Rounds, PlusAll;
    RoundsBegin(start, block);
    var w := FillSchedule(block);
    var a, b, c, d, e := start.a, start.b, start.c, start.d, start.e;
    for i := 0 to 80
      invariant Registers(a, b, c, d, e) == Rounds(start, block, i)
      invariant forall t :: 0 <= t < 80 ==> w[t] == Schedule(block, t)
    {
      var f, k := RoundFunction(i, b, c, d);
      LeftRotateIsRotl(a);
      LeftRotateIsRotl(b);
      RoundsNext(start, block, i);
      var temp := PlusAll(LeftRotate(a, 5), f, e, k, w[i]);
      a, b, c, d, e := temp, a, LeftRotate(b, 30), c, d;
    }
    r := Registers(a, b, c, d, e);
  }

  /** The array `h` of the source as the five words of the hash value. */
  ghost function InRegisters(h: array<word>): Registers
    requires h.Length == 5
    reads h
  {
    Registers(h[0], h[1], h[2], h[3], h[4])
  }

  /** The zero bytes that `sha1` adds when `left` bytes stand in the last block. */
  function ZerosFor(left: nat): seq<byte>
    requires left < 64
  {
    if left < 56 then Zeros(56 - left) else if left > 56 then Zeros(64 - left) + Zeros(56) else []
  }

  lemma {:induction false} ZerosCases(left: nat)
    requires left < 64
    ensures left < 56 ==> ZerosFor(left) == Zeros(56 - left)
    ensures left > 56 ==> ZerosFor(left) == Zeros(64 - left) + Zeros(56)
    ensures left == 56 ==> ZerosFor(left) == []
  {
    hide Zeros;
  }

  lemma {:induction false} PaddingPieces(m: seq<byte>)
    ensures Padded(m) == m + [0x80] + ZerosFor((|m| + 1) % 64) + Octets(8 * |m|, 8)
    ensures |ZerosFor((|m| + 1) % 64)| < 64
  {
    hide Octets, Zeros, ZeroCount;
    var left := (|m| + 1) % 64;
    LeftAndZeros(|m|);
    if left > 56 {
      ZerosJoin(64 - left, 56);
    } else if left == 56 {
      assert Zeros(0) == [];
    }
  }

  lemma {:induction false} ZerosJoin(i: nat, j: nat)
    ensures Zeros(i) + Zeros(j) == Zeros(i + j)
  {
  }

  lemma {:induction false} LeftAndZeros(n: nat)
    ensures var left := (n + 1) % 64;
            ZeroCount(n) == if left <= 56 then 56 - left else 120 - left
  {
  }

  function Larger(a: int, b: int): int {
    if a > b then a else b
  }

  /** Two pieces one after the other; `rest` more bytes still fit behind them. */
  method AddTwice(block: Block, first: seq<byte>, second: seq<byte>, ghost rest: nat)
    requires block.Valid() && |first| + |second| + rest <= MIN_FREE_ALLOCATE_SIZE
    requires block.Fits(|first| + |second| + rest)
    modifies block, block.data
    ensures block.Valid() && block.Contents() == old(block.Contents()) + first + second
    ensures block.data == old(block.data) || fresh(block.data)
    ensures block.Fits(rest) && block.peak <= Larger(old(block.peak), old(block.size) + |first| + |second|)
  {
    hide FitsIn, Grown;
    PartFits(block.capacity, block.size, |first|, |second| + rest);
    block.AddString(first);
    PartFits(block.capacity, block.size, |second|, rest);
    block.AddString(second);
  }

  /** The branches on `left` in `sha1`: at most 63 zeros; `rest` more bytes still fit behind them. */
  method PadZeros(block: Block, ghost rest: nat)
    requires block.Valid() && rest <= 8 && block.Fits(|ZerosFor(block.size % 64)| + rest)
    modifies block, block.data
    ensures block.Valid() && block.Contents() == old(block.Contents()) + ZerosFor(old(block.size) % 64)
    ensures block.data == old(block.data) || fresh(block.data)
    ensures block.Fits(rest) && block.peak <= Larger(old(block.peak), old(block.size) + 63)
  {
    hide Zeros, ZerosFor, FitsIn, Grown;
    ghost var m := block.Contents();
    var left := block.size % 64;
    ZerosCases(left);
    if left < 56 {
      PartFits(block.capacity, block.size, 56 - left, rest);
      block.AddString(Zeros(56 - left));
    } else if left > 56 {
      AddTwice(block, Zeros(64 - left), Zeros(56), rest);
      assert m + (Zeros(64 - left) + Zeros(56)) == m + Zeros(64 - left) + Zeros(56);
    } else {
      assert m + [] == m;
    }
  }

  /** The first half of `sha1`: the block is padded in place. */
  method Pad(block: Block)
    requires block.Valid() && block.Fits(|Padded(block.Contents())| - block.size)
    modifies block, block.data
    ensures block.Valid() && block.Contents() == Padded(old(block.Contents()))
    ensures block.data == old(block.data) || fresh(block.data)
    ensures block.peak <= Larger(old(block.peak), old(block.size) + 72)
  {
    hide ZerosFor, Octets, Padded, FitsIn, Grown;
    PaddingPieces(block.Contents());
    var size := Octets(8 * block.size, 8);
    ghost var zeros := |ZerosFor((block.size + 1) % 64)|;
    PartFits(block.capacity, block.size, 1, zeros + 8);
    block.AddString([0x80]);
    PadZeros(block, 8);
    block.AddString(size);
  }

  /** The second half of `sha1`: the loop over the blocks of the padded message. */
  method CompressAll(block: Block, h: array<word>)
    requires block.Valid() && |block.Contents()| % 64 == 0
    requires h.Length == 5 && InRegisters(h) == INITIAL
    modifies h
    ensures InRegisters(h) == HashValue(block.Contents(), |block.Contents()| / 64)
  {
    hide HashValue, Rounds, Sum;
    ghost var p := block.Contents();
    HashBegins(p);
    var index := 0;
    while index < block.size / 64
      invariant index <= block.size / 64 && block.Valid() && block.Contents() == p
      invariant InRegisters(h) == HashValue(p, index)
    {
      HashNext(p, index);
      var bytes := block.data[64 * index..64 * (index + 1)];
      assert bytes == BlockAt(p, index);
      CompressBlock(bytes, h);
      index := index + 1;
    }
  }

  /** The body of that loop. */
  method CompressBlock(bytes: seq<byte>, h: array<word>)
    requires |bytes| == 64 && h.Length == 5
    modifies h
    ensures InRegisters(h) == Sum(old(InRegisters(h)), Rounds(old(InRegisters(h)), bytes, 80))
  {
    hide Rounds, Plus;
    var r := RunRounds(Registers(h[0], h[1], h[2], h[3], h[4]), bytes);
    h[0], h[1], h[2], h[3], h[4] :=
      Plus(h[0], r.a), Plus(h[1], r.b), Plus(h[2], r.c), Plus(h[3], r.d), Plus(h[4], r.e);
  }

  /** The five words of a digest, in order. */
  lemma {:induction false} DigestWords(h: Registers, i: nat)
    requires i < 5
    ensures DigestBytes(h)[..0] == [] && DigestBytes(h)[..20] == DigestBytes(h)
    ensures DigestBytes(h)[..4 * (i + 1)] == DigestBytes(h)[..4 * i] + WordBytes([h.a, h.b, h.c, h.d, h.e][i])
  {
    hide WordBytes;
    Fifths(WordBytes(h.a), WordBytes(h.b), WordBytes(h.c), WordBytes(h.d), WordBytes(h.e));
    assert DigestBytes(h)[..20] == DigestBytes(h);
  }

  lemma {:induction false} Fifths(a: seq<byte>, b: seq<byte>, c: seq<byte>, d: seq<byte>, e: seq<byte>)
    requires |a| == 4 && |b| == 4 && |c| == 4 && |d| == 4 && |e| == 4
    ensures var t := a + b + c + d + e;
      && t[..4] == t[..0] + a && t[..8] == t[..4] + b && t[..12] == t[..8] + c && t[..16] == t[..12] + d
      && t[..20] == t[..16] + e
  {
    var t := a + b + c + d + e;
    assert t[..8] == a + b && t[..12] == a + b + c && t[..16] == a + b + c + d;
  }

  /** The end of `sha1`: the block is emptied and receives the five words. */
  method Emit(block: Block, h: array<word>)
    requires block.Valid() && h.Length == 5
    modifies block, block.data
    ensures block.Valid() && block.Contents() == DigestBytes(InRegisters(h))
    ensures block.data == old(block.data) || fresh(block.data)
    ensures block.peak <= Larger(old(block.peak), 20)
  {
    hide WordBytes, Memory, Htonl, DigestBytes;
    ghost var r := InRegisters(h);
    ghost var d := DigestBytes(r);
    DigestWords(r, 0);
    block.Reset();
    for i := 0 to 5
      invariant block.Valid() && block.Contents() == d[..4 * i]
      invariant block.data == old(block.data) || fresh(block.data)
      invariant block.peak <= Larger(old(block.peak), 4 * i)
    {
      DigestWords(r, i);
      assert h[i] == [r.a, r.b, r.c, r.d, r.e][i];
      HtonlStores(h[i]);
      block.AddString(Memory(Htonl(h[i])));
    }
  }

  /** `sha1`: the block's contents are replaced by their digest. */
  method Sha1(block: Block)
    requires block.Valid() && block.Fits(|Padded(block.Contents())| - block.size)
    modifies block, block.data
    ensures block.Valid() && block.Contents() == Digest(old(block.Contents()))
    ensures block.data == old(block.data) || fresh(block.data)
    ensures block.peak <= Larger(old(block.peak), old(block.size) + 72)
  {
    hide Padded, HashValue, DigestBytes;
    PaddingIsLeast(block.Contents());
    var h := new word[5];
    h[0], h[1], h[2], h[3], h[4] := 0x67452301, 0xEFCDAB89, 0x98BADCFE, 0x10325476, 0xC3D2E1F0;
    Pad(block);
    CompressAll(block, h);
    Emit(block, h);
  }

  lemma {:induction false} HashBegins(p: seq<byte>)
    ensures HashValue(p, 0) == INITIAL
  {
  }

  lemma {:induction false} HashNext(p: seq<byte>, i: nat)
    requires 64 * (i + 1) <= |p|
    ensures HashValue(p, i + 1) == Sum(HashValue(p, i), Rounds(HashValue(p, i), BlockAt(p, i), 80))
  {
  }
}
