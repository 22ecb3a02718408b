/** The order in which a traversal meets the hashes, and when a rebuild at another level keeps it. */
module HashListOrder {
  import opened HashOrder
  import opened Entries
  import opened HashList
  import opened HashListOps
  import opened HashListRebuild

  ghost function Hashes<D>(e: seq<Entry<D>>): (h: seq<Hash>)
    ensures |h| == |e|
    ensures forall i :: 0 <= i < |e| ==> h[i] == e[i].hash
  {
    seq(|e|, i requires 0 <= i < |e| => e[i].hash)
  }

  /** A traversal meets the hashes in strictly increasing place: by leaf path, then by `memcmp`. */
  lemma {:induction false} TraversalOrder<D>(list: List<D>, i: nat, j: nat)
    requires ValidRoot(list) && i < j < |Value(list)|
    ensures |Value(list)[i].hash| == |Value(list)[j].hash| == list.hashLength >= list.level
    ensures Place(Value(list)[i].hash, list.level, list.endianness)
            < Place(Value(list)[j].hash, list.level, list.endianness)
  {
    hide Flatten, Rank, Valid;
    ValueInPlace(list);
    assert Items(list)[i].hash == Value(list)[i].hash && Items(list)[j].hash == Value(list)[j].hash;
  }

  /** On a LITTLE_ENDIAN list of any level that order is the global `memcmp` order. */
  lemma {:induction false} LittleEndianTraversal<D>(list: List<D>, i: nat, j: nat)
    requires ValidRoot(list) && list.endianness == LittleEndian && i < j < |Value(list)|
    ensures |Value(list)[i].hash| == |Value(list)[j].hash|
    ensures Memcmp(Value(list)[i].hash, Value(list)[j].hash) < 0
  {
    hide Flatten, Valid;
    var a, b := Value(list)[i].hash, Value(list)[j].hash;
    TraversalOrder(list, i, j);
    LittleEndianPlace(a, b, list.level);
    MemcmpComparesRanks(a, b);
  }

  /**
   * Two LITTLE_ENDIAN lists with the same map have the same value, whatever their levels: rebuilding
   * at another level changes neither the contents nor the traversal order.
   */
  lemma {:induction false} LevelDoesNotMatter<D>(a: List<D>, b: List<D>)
    requires ValidRoot(a) && ValidRoot(b) && a.endianness == b.endianness == LittleEndian
    requires a.hashLength == b.hashLength
    requires ToMap(Value(a)) == ToMap(Value(b))
    ensures Value(a) == Value(b)
  {
    hide Flatten, Valid, ToMap;
    var e, f := Value(a), Value(b);
    forall i, j | 0 <= i < j < |e| ensures Rank(e[i].hash) < Rank(e[j].hash) {
      LittleEndianTraversal(a, i, j);
      MemcmpComparesRanks(e[i].hash, e[j].hash);
    }
    forall i, j | 0 <= i < j < |f| ensures Rank(f[i].hash) < Rank(f[j].hash) {
      LittleEndianTraversal(b, i, j);
      MemcmpComparesRanks(f[i].hash, f[j].hash);
    }
    forall i, j | 0 <= i < |e| && 0 <= j < |f| && Rank(e[i].hash) == Rank(f[j].hash) ensures e[i].hash == f[j].hash {
      HashLengths(a, i);
      HashLengths(b, j);
      MemcmpComparesRanks(e[i].hash, f[j].hash);
    }
    EntriesDeterminedByMap(e, f, h => Rank(h));
  }

  /** Lists of the same shape with the same map have the same value: the map determines the traversal. */
  lemma {:induction false} MapDeterminesTraversal<D>(a: List<D>, b: List<D>)
    requires ValidRoot(a) && ValidRoot(b) && a.endianness == b.endianness && a.hashLength == b.hashLength
    requires a.level == b.level && ToMap(Value(a)) == ToMap(Value(b))
    ensures Value(a) == Value(b)
  {
    hide Flatten, Valid, ToMap, Place;
    var e, f, level, endianness := Value(a), Value(b), a.level, a.endianness;
    var place := (h: Hash) => if level <= |h| then Place(h, level, endianness) else 0;
    forall i, j | 0 <= i < j < |e| ensures place(e[i].hash) < place(e[j].hash) {
      TraversalOrder(a, i, j);
    }
    forall i, j | 0 <= i < j < |f| ensures place(f[i].hash) < place(f[j].hash) {
      TraversalOrder(b, i, j);
    }
    forall i, j | 0 <= i < |e| && 0 <= j < |f| && place(e[i].hash) == place(f[j].hash) ensures e[i].hash == f[j].hash {
      HashLengths(a, i);
      HashLengths(b, j);
      PlaceIsInjective(e[i].hash, f[j].hash, level, endianness);
    }
    EntriesDeterminedByMap(e, f, place);
  }

  lemma {:induction false} HashLengths<D>(list: List<D>, i: nat)
    requires ValidRoot(list) && i < |Value(list)|
    ensures |Value(list)[i].hash| == list.hashLength >= list.level
  {
    hide Flatten, Valid;
    ValueInPlace(list);
    assert Items(list)[i].hash == Value(list)[i].hash;
  }

  // ---------------------------------------------------------------- BIG_ENDIAN lists

  /** At level 0 places compare as hashes; at any other they compare as routes first. */
  lemma {:induction false} PlaceFromLevel0(a: Hash, b: Hash, level: nat)
    requires |a| == |b| >= level && Place(a, 0, BigEndian) < Place(b, 0, BigEndian)
    ensures Place(a, level, BigEndian) < Place(b, level, BigEndian)
       <==> Memcmp(Route(a, level, BigEndian), Route(b, level, BigEndian)) <= 0
  {
    hide Route;
    assert Route(a, 0, BigEndian) + a == a && Route(b, 0, BigEndian) + b == b;
    MemcmpComparesRanks(a, b);
    var p, q := Route(a, level, BigEndian), Route(b, level, BigEndian);
    MemcmpSplit(p, q, a, b);
    MemcmpComparesRanks(p + a, q + b);
  }

  /** Two hashes keep their order from level 0 to level 1 exactly if the last byte does not decrease. */
  lemma {:induction false} LastByteDecides(a: Hash, b: Hash)
    requires |a| == |b| > 0 && Place(a, 0, BigEndian) < Place(b, 0, BigEndian)
    ensures Place(a, 1, BigEndian) < Place(b, 1, BigEndian) <==> a[|a| - 1] <= b[|b| - 1]
  {
    PlaceFromLevel0(a, b, 1);
    assert Route(a, 1, BigEndian) == [a[|a| - 1]] && Route(b, 1, BigEndian) == [b[|b| - 1]];
  }

  /** Entries in the order of a BIG_ENDIAN list of this level, with hashes of `n` bytes. */
  ghost predicate Ordered<D>(e: seq<Entry<D>>, n: nat, level: nat) {
    && level <= n && (forall i :: 0 <= i < |e| ==> |e[i].hash| == n)
    && forall i, j :: 0 <= i < j < |e| ==> Place(e[i].hash, level, BigEndian) < Place(e[j].hash, level, BigEndian)
  }

  lemma {:induction false} ListOrdered<D>(list: List<D>)
    requires ValidRoot(list) && list.endianness == BigEndian
    ensures Ordered(Value(list), list.hashLength, list.level)
  {
    hide Valid, Value, Place;
    ValueInPlace(list);
    RootFits(list);
    forall i | 0 <= i < |Value(list)| ensures |Value(list)[i].hash| == list.hashLength {
      HashLengths(list, i);
    }
    forall i, j | 0 <= i < j < |Value(list)|
      ensures Place(Value(list)[i].hash, list.level, BigEndian) < Place(Value(list)[j].hash, list.level, BigEndian)
    {
      TraversalOrder(list, i, j);
    }
  }

  /** The last bytes of the hashes do not decrease. */
  ghost predicate LastBytesAscend<D>(e: seq<Entry<D>>, n: nat) {
    n > 0 && forall i, j :: 0 <= i < j < |e| ==>
      |e[i].hash| == n == |e[j].hash| && e[i].hash[n - 1] <= e[j].hash[n - 1]
  }

  /**
   * The entries of one map in the order of level 0 and in that of level 1 are one sequence exactly if the
   * last bytes do not decrease along the first.
   */
  lemma {:induction false} OrdersAgreeIff<D>(e: seq<Entry<D>>, f: seq<Entry<D>>, n: nat)
    requires n > 0 && Ordered(e, n, 0) && Ordered(f, n, 1) && ToMap(e) == ToMap(f)
    ensures e == f <==> LastBytesAscend(e, n)
  {
    hide ToMap, Place;
    forall i, j | 0 <= i < j < |e|
      ensures Place(e[i].hash, 1, BigEndian) < Place(e[j].hash, 1, BigEndian) <==> e[i].hash[n - 1] <= e[j].hash[n - 1]
    {
      LastByteDecides(e[i].hash, e[j].hash);
    }
    if LastBytesAscend(e, n) {
      var place := (h: Hash) => if 1 <= |h| then Place(h, 1, BigEndian) else 0;
      forall i, j | 0 <= i < |e| && 0 <= j < |f| && place(e[i].hash) == place(f[j].hash)
        ensures e[i].hash == f[j].hash
      {
        PlaceIsInjective(e[i].hash, f[j].hash, 1, BigEndian);
      }
      EntriesDeterminedByMap(e, f, place);
    }
  }

  /**
   * `reInitList` at level 1, as `setPeerPublic` calls it on the peers of a crowded torrent: it keeps the
   * order in which the peers are announced exactly if the last bytes of their ids do not decrease along it.
   */
  method RebuildAtLevel1<D>(list: List<D>, alloc: Allocator) returns (rebuilt: List<D>)
    requires ValidRoot(list) && list.endianness == BigEndian && list.level == 0 < list.hashLength
    modifies list.leaves, ItemSet(list), alloc
    ensures ValidRoot(rebuilt) && rebuilt.level == 1 && ToMap(Value(rebuilt)) == old(ToMap(Value(list)))
    ensures Value(rebuilt) == old(Value(list)) <==> LastBytesAscend(old(Value(list)), list.hashLength)
  {
    hide Valid, Value, ToMap, Ordered, LastBytesAscend;
    ListOrdered(list);
    var r := ReInitList(list, 1, alloc);
    rebuilt := r.value;
    ListOrdered(rebuilt);
    OrdersAgreeIff(old(Value(list)), Value(rebuilt), list.hashLength);
  }

  /** Two peer ids that the switch to level 1 swaps. */
  lemma {:induction false} BigEndianLevelMatters()
    ensures var a, b := [0, 0, 0, 0, 0, 0, 0, 0, 0, 0, 0, 0, 0, 0, 0, 0, 0, 0, 0, 1],
                        [1, 0, 0, 0, 0, 0, 0, 0, 0, 0, 0, 0, 0, 0, 0, 0, 0, 0, 0, 0];
            && |a| == |b| == HASH_LENGTH
            && Place(a, 0, BigEndian) < Place(b, 0, BigEndian) && Place(b, 1, BigEndian) < Place(a, 1, BigEndian)
  {
    var a: Hash, b: Hash := [0, 0, 0, 0, 0, 0, 0, 0, 0, 0, 0, 0, 0, 0, 0, 0, 0, 0, 0, 1],
                            [1, 0, 0, 0, 0, 0, 0, 0, 0, 0, 0, 0, 0, 0, 0, 0, 0, 0, 0, 0];
    assert Route(a, 0, BigEndian) + a == a && Route(b, 0, BigEndian) + b == b;
    FirstDifference(a, b, 0);
    LastByteDecides(a, b);
    PlaceIsInjective(a, b, 1, BigEndian);
  }
}
