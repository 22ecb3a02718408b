/** Numbers as bytes, most significant byte first. */
module ByteOrder {
  import opened Bytes
  import opened HashOrder

  /** `k` bytes holding `x` modulo 256^k, most significant byte first. */
  function Octets(x: nat, k: nat): (b: seq<byte>)
    ensures |b| == k
  {
    if k == 0 then [] else Octets(x / 256, k - 1) + [x % 256]
  }

  function Pow256(k: nat): nat {
    if k == 0 then 1 else 256 * Pow256(k - 1)
  }

  lemma {:induction false} OctetsRead(x: nat, k: nat)
    requires x < Pow256(k)
    ensures Rank(Octets(x, k)) == x
  {
    if k > 0 {
      OctetsRead(x / 256, k - 1);
      var b := Octets(x, k);
      assert b[..k - 1] == Octets(x / 256, k - 1);
    }
  }

  /** The memory of an `unsigned int` on a little-endian host. */
  function Stored(x: u32): (b: seq<byte>)
    ensures |b| == 4
  {
    [x % 256, x / 256 % 256, x / 65536 % 256, x / 16777216]
  }

  /** `htonl` and `ntohl` there: the four bytes in the other order. */
  function Swapped(x: u32): u32 {
    x % 256 * 16777216 + x / 256 % 256 * 65536 + x / 65536 % 256 * 256 + x / 16777216
  }

  /** A swapped word lies in memory most significant byte first. */
  lemma {:induction false} SwappedStored(x: u32)
    ensures Stored(Swapped(x)) == Octets(x, 4)
  {
    var a, b, c, d := x / 16777216, x / 65536 % 256, x / 256 % 256, x % 256;
    assert x / 256 / 256 == x / 65536 && x / 256 / 256 / 256 == a;
    FourOctetsOf(x);
    BytesOfSum(d, c, b, a);
  }

  lemma {:induction false} BytesOfSum(d: byte, c: byte, b: byte, a: byte)
    ensures Stored(d * 16777216 + c * 65536 + b * 256 + a) == [a, b, c, d]
  {
    var y := d * 16777216 + c * 65536 + b * 256 + a;
    LastByte(d * 65536 + c * 256 + b, a);
    LastByte(d * 256 + c, b);
    LastByte(d, c);
    assert y / 256 / 256 == y / 65536 && y / 65536 / 256 == y / 16777216;
  }

  lemma {:induction false} LastByte(high: nat, low: byte)
    ensures (high * 256 + low) / 256 == high && (high * 256 + low) % 256 == low
  {
  }

  lemma {:induction false} FourOctetsOf(x: u32)
    ensures Octets(x, 4) == [x / 16777216, x / 65536 % 256, x / 256 % 256, x % 256]
  {
    assert Octets(x / 16777216, 1) == Octets(0, 0) + [x / 16777216];
    assert x / 256 / 256 == x / 65536 && x / 65536 / 256 == x / 16777216;
    assert Octets(x / 65536, 2) == Octets(x / 16777216, 1) + [x / 65536 % 256];
    assert Octets(x / 256, 3) == Octets(x / 65536, 2) + [x / 256 % 256];
  }
}
