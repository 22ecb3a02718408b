/**
 * The order `memcmp` puts on hashes of one length, the leaf a hash is routed to, and the order in
 * which a traversal of the hash list meets the hashes (list.c).
 */
module HashOrder {
  import opened Bytes

  /** The length of info hashes and peer ids. */
  const HASH_LENGTH := 20

  type Hash = seq<byte>

  datatype Endianness = LittleEndian | BigEndian

  /** C's `memcmp`: the difference of the first pair of bytes that differ, 0 if there is none. */
  function Memcmp(a: Hash, b: Hash): int
    requires |a| == |b|
  {
    if a == [] then 0
    else if a[0] != b[0] then a[0] as int - b[0] as int
    else Memcmp(a[1..], b[1..])
  }

  /** A hash read as one big-endian number. */
  function Rank(a: Hash): nat {
    if a == [] then 0 else 256 * Rank(a[..|a| - 1]) + a[|a| - 1]
  }

  lemma {:induction false} MemcmpFromTheEnd(a: Hash, b: Hash)
    requires |a| == |b| > 0
    ensures var n := |a| - 1;
            var d := Memcmp(a[..n], b[..n]);
            Memcmp(a, b) == if d != 0 then d else a[n] as int - b[n] as int
  {
    var n := |a| - 1;
    if n > 0 && a[0] == b[0] {
      MemcmpFromTheEnd(a[1..], b[1..]);
      assert a[1..][..n - 1] == a[..n][1..];
      assert b[1..][..n - 1] == b[..n][1..];
    }
  }

  /** `memcmp` compares the numbers that the hashes spell, so it is a total order. */
  lemma {:induction false} MemcmpComparesRanks(a: Hash, b: Hash)
    requires |a| == |b|
    ensures Memcmp(a, b) < 0 <==> Rank(a) < Rank(b)
    ensures Memcmp(a, b) == 0 <==> Rank(a) == Rank(b)
    ensures Memcmp(a, b) == 0 <==> a == b
  {
    if a != [] {
      var n := |a| - 1;
      MemcmpFromTheEnd(a, b);
      MemcmpComparesRanks(a[..n], b[..n]);
      assert a == a[..n] + [a[n]];
      assert b == b[..n] + [b[n]];
    }
  }

  /** The first differing byte decides. */
  lemma {:induction false} FirstDifference(a: Hash, b: Hash, n: nat)
    requires |a| == |b| && n < |a|
    requires a[..n] == b[..n] && a[n] < b[n]
    ensures Rank(a) < Rank(b)
  {
    FirstDifferenceMemcmp(a, b, n);
    MemcmpComparesRanks(a, b);
  }

  lemma {:induction false} FirstDifferenceMemcmp(a: Hash, b: Hash, n: nat)
    requires |a| == |b| && n < |a|
    requires a[..n] == b[..n] && a[n] < b[n]
    ensures Memcmp(a, b) == a[n] as int - b[n] as int
  {
    if n > 0 {
      assert a[0] == a[..n][0] == b[..n][0] == b[0];
      assert a[1..][..n - 1] == a[..n][1..];
      assert b[1..][..n - 1] == b[..n][1..];
      FirstDifferenceMemcmp(a[1..], b[1..], n - 1);
    }
  }

  lemma {:induction false} MemcmpSplit(p: Hash, q: Hash, a: Hash, b: Hash)
    requires |p| == |q| && |a| == |b|
    ensures Memcmp(p + a, q + b) == if Memcmp(p, q) != 0 then Memcmp(p, q) else Memcmp(a, b)
  {
    if p == [] {
      assert p + a == a && q + b == b;
    } else {
      assert (p + a)[1..] == p[1..] + a;
      assert (q + b)[1..] == q[1..] + b;
      if p[0] == q[0] {
        MemcmpSplit(p[1..], q[1..], a, b);
      }
    }
  }

  /** The bytes by which `getLeaf` walks down a list of the given level. */
  function Route(h: Hash, level: nat, endianness: Endianness): (p: Hash)
    requires level <= |h|
    ensures |p| == level
  {
    seq(level, k requires 0 <= k < level => RouteByte(h, k, endianness))
  }

  function RouteByte(h: Hash, nest: nat, endianness: Endianness): byte
    requires nest < |h|
  {
    if endianness == BigEndian then h[|h| - 1 - nest] else h[nest]
  }

  /** Where a traversal of a list of the given level meets `h`: first by leaf, then by hash. */
  function Place(h: Hash, level: nat, endianness: Endianness): nat
    requires level <= |h|
  {
    Rank(Route(h, level, endianness) + h)
  }

  lemma {:induction false} PlaceIsInjective(a: Hash, b: Hash, level: nat, endianness: Endianness)
    requires |a| == |b| && level <= |a|
    ensures Place(a, level, endianness) == Place(b, level, endianness) <==> a == b
  {
    var p, q := Route(a, level, endianness), Route(b, level, endianness);
    MemcmpComparesRanks(p + a, q + b);
    assert (p + a)[level..] == a && (q + b)[level..] == b;
  }

  /** On a list routed by the first bytes the leaf order and the hash order are one. */
  lemma {:induction false} LittleEndianPlace(a: Hash, b: Hash, level: nat)
    requires |a| == |b| && level <= |a|
    ensures Place(a, level, LittleEndian) < Place(b, level, LittleEndian) <==> Rank(a) < Rank(b)
  {
    var p, q := Route(a, level, LittleEndian), Route(b, level, LittleEndian);
    assert p == a[..level] && q == b[..level];
    MemcmpComparesRanks(p + a, q + b);
    MemcmpComparesRanks(a, b);
    MemcmpSplit(p, q, a, b);
    MemcmpSplit(p, q, a[level..], b[level..]);
    assert p + a[level..] == a && q + b[level..] == b;
  }

  ghost predicate Increasing(s: seq<int>) {
    forall i, j :: 0 <= i < j < |s| ==> s[i] < s[j]
  }

  /** A strictly increasing sequence is determined by its elements. */
  lemma {:induction false} IncreasingIsUnique(s: seq<int>, t: seq<int>)
    requires Increasing(s) && Increasing(t)
    requires forall x :: x in s <==> x in t
    ensures s == t
  {
    if s == [] {
      assert forall i :: 0 <= i < |t| ==> t[i] in s;
    } else {
      assert s[0] in s && s[0] in t;
      assert t[0] in t && t[0] in s;
      assert s[0] == t[0];
      forall x ensures x in s[1..] <==> x in t[1..] {
        assert x in s <==> x == s[0] || x in s[1..];
        assert x in t <==> x == t[0] || x in t[1..];
      }
      IncreasingIsUnique(s[1..], t[1..]);
      assert s == [s[0]] + s[1..] && t == [t[0]] + t[1..];
    }
  }
}
