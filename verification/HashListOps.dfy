/** The operations of list.c on the heap, each proved against the abstract value of the list. */
module HashListOps {
  import opened Bytes
  import opened HashOrder
  import opened Entries
  import opened HashList

  // ---------------------------------------------------------------- heap invariant and abstract value

  /** The item at a position of a chain, null outside. */
  ghost function Nth<D>(s: seq<Item<D>>, i: int): Item?<D> {
    if 0 <= i < |s| then s[i] else null
  }

  /** The pointers of a leaf spell its chain, forwards and backwards. */
  ghost predicate Linked<D>(l: List<D>)
    reads l, l.chain`previousInLeaf, l.chain`nextInLeaf
  {
    && l.firstItem == Nth(l.chain, 0)
    && forall i :: 0 <= i < |l.chain| ==>
         && l.chain[i].previousInLeaf == Nth(l.chain, i - 1)
         && l.chain[i].nextInLeaf == Nth(l.chain, i + 1)
  }

  ghost predicate LeafValid<D>(l: List<D>)
    reads l, l.chain`previousInLeaf, l.chain`nextInLeaf
  {
    ChainOk(l, l.chain) && Linked(l)
  }

  ghost function ChainsOf<D>(n: List<D>): Chains<D>
    reads n.leaves
  {
    map l | l in n.leaves :: l.chain
  }

  /** Every item, in the order of a traversal. */
  ghost function Items<D>(n: List<D>): seq<Item<D>>
    reads n.leaves
  {
    Flatten(n, ChainsOf(n))
  }

  ghost function ItemSet<D>(n: List<D>): set<Item<D>>
    reads n.leaves
  {
    set l, item | l in n.leaves && item in l.chain :: item
  }

  ghost predicate Valid<D>(n: List<D>)
    reads n.leaves, ItemSet(n)`previousInLeaf, ItemSet(n)`nextInLeaf
  {
    && Shaped(n)
    && forall l :: l in n.leaves ==>
         assert forall item :: item in l.chain ==> item in ItemSet(n);
         LeafValid(l)
  }

  /** A valid list as its users hold it. */
  ghost predicate ValidRoot<D>(n: List<D>)
    reads n.leaves, ItemSet(n)`previousInLeaf, ItemSet(n)`nextInLeaf
  {
    Valid(n) && n.path == [] && n.level <= LIMIT_LEVEL
  }

  ghost function EntriesOf<D>(s: seq<Item<D>>): (e: seq<Entry<D>>)
    reads s`data
    ensures |e| == |s|
    ensures forall i :: 0 <= i < |s| ==> e[i] == Entry(s[i].hash, s[i].data)
  {
    if s == [] then [] else EntriesOf(s[..|s| - 1]) + [Entry(s[|s| - 1].hash, s[|s| - 1].data)]
  }

  /** The abstract value: hashes and data in traversal order. */
  ghost function Value<D>(n: List<D>): seq<Entry<D>>
    requires Valid(n)
    reads n.leaves, ItemSet(n)
  {
    ItemsInSet(n);
    EntriesOf(Items(n))
  }

  lemma {:induction false} ItemsInSet<D>(n: List<D>)
    requires Valid(n)
    ensures forall i :: 0 <= i < |Items(n)| ==> Items(n)[i] in ItemSet(n)
    ensures forall item :: item in ItemSet(n) ==> item in Items(n)
    ensures ChainsOk(n, ChainsOf(n))
  {
    var c := ChainsOf(n);
    forall l | l in n.leaves ensures l in c && ChainOk(l, c[l]) {
      assert LeafValid(l);
    }
    forall i | 0 <= i < |Items(n)| ensures Items(n)[i] in ItemSet(n) {
      FlattenMember(n, c, Items(n)[i]);
    }
    forall item | item in ItemSet(n) ensures item in Items(n) {
      var l :| l in n.leaves && item in l.chain;
      assert LeafValid(l) && ItemOk(l, item);
      FlattenMember(n, c, item);
    }
  }

  /** No hash occurs twice, and the entries stand in strictly increasing place. */
  lemma {:induction false} ValueInPlace<D>(n: List<D>)
    requires Valid(n)
    ensures Fits(n, Items(n)) && InPlace(n, Items(n))
    ensures Distinct(Value(n))
  {
    ItemsInSet(n);
    FlattenInPlace(n, ChainsOf(n));
  }

  /** An item whose hash is routed to `leaf` hangs in that leaf. */
  lemma {:induction false} RoutedItem<D>(n: List<D>, leaf: List<D>, item: Item<D>)
    requires Valid(n) && leaf in n.leaves && item in Items(n)
    requires |item.hash| == n.hashLength >= |n.path| + n.level
    requires leaf.path == Route(item.hash, |n.path| + n.level, n.endianness)
    ensures item in leaf.chain
  {
    ItemsInSet(n);
    FlattenMember(n, ChainsOf(n), item);
    assert LeafValid(item.leaf) && ItemOk(item.leaf, item);
    LeafByPath(n, item.leaf);
    LeafByPath(n, leaf);
  }

  // ---------------------------------------------------------------- lookup

  method GetLeaf<D>(list: List<D>, hash: Hash) returns (leaf: List<D>)
    requires Shaped(list) && list.path == [] && |hash| == list.hashLength
    ensures leaf in list.leaves && leaf.path == Route(hash, list.level, list.endianness)
    ensures leaf.level == 0 && leaf.hashLength == list.hashLength && leaf.endianness == list.endianness
  {
    leaf := list;
    var nest := 0;
    while leaf.level > 0
      invariant Shaped(leaf) && nest + leaf.level == list.level && leaf.hashLength == list.hashLength
      invariant leaf.endianness == list.endianness
      invariant leaf.path == Route(hash, nest, list.endianness)
      invariant leaf.leaves <= list.leaves
      decreases leaf.level
    {
      ghost var b := RouteByte(hash, nest, list.endianness);
      assert Made(leaf.children[b], leaf.path + [b], leaf.level - 1, leaf.hashLength, leaf.semaphores, leaf.endianness);
      if list.endianness == BigEndian {
        leaf := leaf.children[hash[list.hashLength - 1 - nest]];
      } else {
        leaf := leaf.children[hash[nest]];
      }
      nest := nest + 1;
    }
  }

  lemma {:induction false} ChainFacts<D>(leaf: List<D>)
    requires LeafValid(leaf)
    ensures Linked(leaf)
    ensures forall i :: 0 <= i < |leaf.chain| ==> |leaf.chain[i].hash| == leaf.hashLength
    ensures forall i, j :: 0 <= i < j < |leaf.chain| ==> Rank(leaf.chain[i].hash) < Rank(leaf.chain[j].hash)
  {
  }

  lemma {:induction false} ChainLinks<D>(leaf: List<D>)
    requires LeafValid(leaf)
    ensures Linked(leaf)
    ensures forall i :: 0 <= i < |leaf.chain| ==> |leaf.chain[i].hash| == leaf.hashLength
  {
  }

  /** A hash below that of one item is below those of all items behind it. */
  lemma {:induction false} BelowRest<D>(leaf: List<D>, k: nat, hash: Hash)
    requires LeafValid(leaf) && k < |leaf.chain| && Rank(hash) < Rank(leaf.chain[k].hash)
    ensures forall i :: k <= i < |leaf.chain| ==> Rank(hash) < Rank(leaf.chain[i].hash)
  {
    hide LeafValid;
    ChainFacts(leaf);
  }

  /** The lookup walks one chain and gives up at the first larger hash. */
  method FindInLeaf<D>(leaf: List<D>, hash: Hash) returns (item: Item?<D>, ghost k: nat)
    requires LeafValid(leaf) && |hash| == leaf.hashLength
    ensures item != null ==> k < |leaf.chain| && item == leaf.chain[k] && item.hash == hash
    ensures item == null ==> forall i :: 0 <= i < |leaf.chain| ==> leaf.chain[i].hash != hash
  {
    hide Rank, Memcmp, Route, ChainOk, ItemOk, LeafValid;
    ChainLinks(leaf);
    item, k := leaf.firstItem, 0;
    while item != null
      invariant k <= |leaf.chain| && item == Nth(leaf.chain, k)
      invariant forall i :: 0 <= i < k ==> Rank(leaf.chain[i].hash) < Rank(hash)
      decreases |leaf.chain| - k
    {
      MemcmpComparesRanks(item.hash, hash);
      var compare := Memcmp(item.hash, hash);
      if compare == 0 {
        return;
      } else if compare > 0 {
        BelowRest(leaf, k, hash);
        break;
      }
      item, k := item.nextInLeaf, k + 1;
    }
    item := null;
  }

  /** `getHash`: the item with this hash, null exactly if there is none. */
  method GetHash<D>(list: List<D>, hash: Hash) returns (item: Item?<D>)
    requires ValidRoot(list) && |hash| == list.hashLength
    ensures item == null <==> hash !in ToMap(Value(list))
    ensures item != null ==> item in Items(list) && item.hash == hash && ToMap(Value(list))[hash] == item.data
  {
    hide Rank, Memcmp, Route, Flatten, ToMap, Shaped, Value, ChainOk, Linked;
    RootFits(list);
    var leaf := GetLeaf(list, hash);
    assert LeafValid(leaf);
    ghost var k;
    item, k := FindInLeaf(leaf, hash);
    if item == null {
      NotFound(list, leaf, hash);
    } else {
      Found(list, leaf, k);
    }
  }

  lemma {:induction false} Found<D>(n: List<D>, leaf: List<D>, k: nat)
    requires Valid(n) && leaf in n.leaves && k < |leaf.chain|
    ensures var item := leaf.chain[k];
            item in Items(n) && item.hash in ToMap(Value(n)) && ToMap(Value(n))[item.hash] == item.data
  {
    ChainInItems(n, leaf, k);
    ItemInMap(n, leaf.chain[k]);
  }

  lemma {:induction false} ChainInItems<D>(n: List<D>, leaf: List<D>, k: nat)
    requires Valid(n) && leaf in n.leaves && k < |leaf.chain|
    ensures leaf.chain[k] in Items(n)
  {
    ItemsInSet(n);
    var item := leaf.chain[k];
    assert item in leaf.chain;
    assert item in ItemSet(n);
  }

  lemma {:induction false} ItemInMap<D>(n: List<D>, item: Item<D>)
    requires Valid(n) && item in Items(n)
    ensures item.hash in ToMap(Value(n)) && ToMap(Value(n))[item.hash] == item.data
  {
    ValueInPlace(n);
    var i :| 0 <= i < |Items(n)| && Items(n)[i] == item;
    ToMapAt(Value(n), i);
  }

  lemma {:induction false} NotFound<D>(n: List<D>, leaf: List<D>, hash: Hash)
    requires Valid(n) && leaf in n.leaves && |hash| == n.hashLength >= |n.path| + n.level
    requires leaf.path == Route(hash, |n.path| + n.level, n.endianness)
    requires forall i :: 0 <= i < |leaf.chain| ==> leaf.chain[i].hash != hash
    ensures hash !in ToMap(Value(n))
  {
    ToMapDomain(Value(n), hash);
    if i :| 0 <= i < |Value(n)| && Value(n)[i].hash == hash {
      RoutedItem(n, leaf, Items(n)[i]);
    }
  }

  // ---------------------------------------------------------------- one leaf changes

  lemma {:induction false} InsertMiddle<T>(before: seq<T>, s: seq<T>, after: seq<T>, k: nat, x: T)
    requires k <= |s|
    ensures before + InsertAt(s, k, x) + after == InsertAt(before + s + after, |before| + k, x)
  {
  }

  lemma {:induction false} RemoveMiddle<T>(before: seq<T>, s: seq<T>, after: seq<T>, k: nat)
    requires k < |s|
    ensures before + RemoveAt(s, k) + after == RemoveAt(before + s + after, |before| + k)
  {
  }

  /** The items of a list whose leaf takes in `item` at position `k` of its chain. */
  lemma {:induction false} FlattenInsert<D>(n: List<D>, c: Chains<D>, leaf: List<D>, k: nat, item: Item<D>)
    returns (at: nat)
    requires Shaped(n) && leaf in n.leaves && n.leaves <= c.Keys && k <= |c[leaf]|
    ensures at <= |Flatten(n, c)|
    ensures Flatten(n, c[leaf := InsertAt(c[leaf], k, item)]) == InsertAt(Flatten(n, c), at, item)
  {
    var before, after := FlattenUpdate(n, c, leaf, InsertAt(c[leaf], k, item));
    at := |before| + k;
    InsertMiddle(before, c[leaf], after, k, item);
  }

  /** The items of a list whose leaf loses position `k` of its chain. */
  lemma {:induction false} FlattenRemove<D>(n: List<D>, c: Chains<D>, leaf: List<D>, k: nat) returns (at: nat)
    requires Shaped(n) && leaf in n.leaves && n.leaves <= c.Keys && k < |c[leaf]|
    ensures at < |Flatten(n, c)| && Flatten(n, c)[at] == c[leaf][k]
    ensures Flatten(n, c[leaf := RemoveAt(c[leaf], k)]) == RemoveAt(Flatten(n, c), at)
  {
    var before, after := FlattenUpdate(n, c, leaf, RemoveAt(c[leaf], k));
    at := |before| + k;
    RemoveMiddle(before, c[leaf], after, k);
  }

  lemma {:induction false} ChainInsert<D>(l: List<D>, s: seq<Item<D>>, k: nat, item: Item<D>)
    requires ChainOk(l, s) && k <= |s| && ItemOk(l, item)
    requires forall i :: 0 <= i < k ==> Rank(s[i].hash) < Rank(item.hash)
    requires forall i :: k <= i < |s| ==> Rank(item.hash) < Rank(s[i].hash)
    ensures ChainOk(l, InsertAt(s, k, item))
  {
  }

  lemma {:induction false} ChainRemove<D>(l: List<D>, s: seq<Item<D>>, k: nat)
    requires ChainOk(l, s) && k < |s|
    ensures ChainOk(l, RemoveAt(s, k))
  {
  }

  lemma {:induction false} ChainItemsDiffer<D>(l: List<D>, s: seq<Item<D>>)
    requires ChainOk(l, s)
    ensures AllDiffer(s)
  {
  }

  ghost predicate AllDiffer<T>(s: seq<T>) {
    forall i, j :: 0 <= i < j < |s| ==> s[i] != s[j]
  }

  lemma {:induction false} LinkedAfterInsert<D>(leaf: List<D>, s: seq<Item<D>>, k: nat, item: Item<D>)
    requires k <= |s| && leaf.chain == InsertAt(s, k, item)
    requires leaf.firstItem == if k == 0 then item else s[0]
    requires item.previousInLeaf == Nth(s, k - 1) && item.nextInLeaf == Nth(s, k)
    requires forall j :: 0 <= j < |s| ==> s[j].previousInLeaf == if j == k then item else Nth(s, j - 1)
    requires forall j :: 0 <= j < |s| ==> s[j].nextInLeaf == if j == k - 1 then item else Nth(s, j + 1)
    ensures Linked(leaf)
  {
    var r := leaf.chain;
    forall i | 0 <= i < |r|
      ensures r[i].previousInLeaf == Nth(r, i - 1) && r[i].nextInLeaf == Nth(r, i + 1)
    {
      assert r[i] == if i < k then s[i] else if i == k then item else s[i - 1];
    }
  }

  lemma {:induction false} LinkedAfterRemove<D>(leaf: List<D>, s: seq<Item<D>>, k: nat)
    requires k < |s| && leaf.chain == RemoveAt(s, k)
    requires leaf.firstItem == if k == 0 then Nth(s, 1) else s[0]
    requires forall j :: 0 <= j < |s| && j != k ==>
      s[j].previousInLeaf == if j == k + 1 then Nth(s, k - 1) else Nth(s, j - 1)
    requires forall j :: 0 <= j < |s| && j != k ==>
      s[j].nextInLeaf == if j == k - 1 then Nth(s, k + 1) else Nth(s, j + 1)
    ensures Linked(leaf)
  {
  }

  /** Links a new item into its leaf between its neighbours. */
  method LinkItem<D>(leaf: List<D>, item: Item<D>, ghost k: nat)
    requires Linked(leaf) && AllDiffer(leaf.chain) && item !in leaf.chain
    requires k <= |leaf.chain|
    requires item.previousInLeaf == Nth(leaf.chain, k - 1) && item.nextInLeaf == Nth(leaf.chain, k)
    modifies leaf, leaf.chain`previousInLeaf, leaf.chain`nextInLeaf
    ensures Linked(leaf) && leaf.chain == InsertAt(old(leaf.chain), k, item)
  {
    ghost var s := leaf.chain;
    if item.previousInLeaf != null {
      item.previousInLeaf.nextInLeaf := item;
    }
    if item.nextInLeaf != null {
      item.nextInLeaf.previousInLeaf := item;
    }
    if item.previousInLeaf == null {
      leaf.firstItem := item;
    }
    leaf.chain := InsertAt(s, k, item);
    LinkedAfterInsert(leaf, s, k, item);
  }

  /** Takes an item out of its leaf's chain. */
  method UnlinkItem<D>(leaf: List<D>, item: Item<D>, ghost k: nat)
    requires Linked(leaf) && AllDiffer(leaf.chain) && k < |leaf.chain| && leaf.chain[k] == item
    modifies leaf, leaf.chain`previousInLeaf, leaf.chain`nextInLeaf
    ensures Linked(leaf) && leaf.chain == RemoveAt(old(leaf.chain), k)
  {
    ghost var s := leaf.chain;
    if item.previousInLeaf == null {
      leaf.firstItem := item.nextInLeaf;
      if item.nextInLeaf != null {
        item.nextInLeaf.previousInLeaf := null;
      }
    } else {
      item.previousInLeaf.nextInLeaf := item.nextInLeaf;
      if item.nextInLeaf != null {
        item.nextInLeaf.previousInLeaf := item.previousInLeaf;
      }
    }
    leaf.chain := RemoveAt(s, k);
    LinkedAfterRemove(leaf, s, k);
  }

  /** Frees an item, its hash and its data; the freed memory may hold anything. */
  method FreeItem<D>(item: Item<D>, alloc: Allocator)
    modifies item, alloc
    ensures alloc.Live() == old(alloc.Live()) - 2 - if old(item.data).Some? then 1 else 0
  {
    if item.data.Some? {
      alloc.countFree := alloc.countFree + 1;
    }
    alloc.countFree := alloc.countFree + 2;
    item.previousInLeaf, item.nextInLeaf, item.data := *, *, *;
  }

  // ---------------------------------------------------------------- insertion and deletion

  /** Finds the item or, failing that, the two neighbours between which its hash belongs. */
  method Seek<D>(leaf: List<D>, hash: Hash)
    returns (found: Item?<D>, previous: Item?<D>, current: Item?<D>, ghost k: nat)
    requires LeafValid(leaf) && |hash| == leaf.hashLength
    ensures k <= |leaf.chain| && previous == Nth(leaf.chain, k - 1) && current == Nth(leaf.chain, k)
    ensures found != null ==> found == current && found.hash == hash
    ensures forall i :: 0 <= i < k ==> Rank(leaf.chain[i].hash) < Rank(hash)
    ensures found == null ==> forall i :: k <= i < |leaf.chain| ==> Rank(hash) < Rank(leaf.chain[i].hash)
  {
    hide Rank, Memcmp, Route, ChainOk, ItemOk, LeafValid;
    ChainLinks(leaf);
    found, previous, current, k := null, null, leaf.firstItem, 0;
    while current != null
      invariant k <= |leaf.chain| && previous == Nth(leaf.chain, k - 1) && current == Nth(leaf.chain, k)
      invariant forall i :: 0 <= i < k ==> Rank(leaf.chain[i].hash) < Rank(hash)
      decreases |leaf.chain| - k
    {
      MemcmpComparesRanks(current.hash, hash);
      var compare := Memcmp(current.hash, hash);
      if compare == 0 {
        found := current;
        return;
      } else if compare > 0 {
        BelowRest(leaf, k, hash);
        return;
      }
      previous, current, k := current, current.nextInLeaf, k + 1;
    }
  }

  /** The chain of a leaf consists of items that name it as their leaf. */
  ghost predicate Owned<D>(l: List<D>)
    reads l
  {
    forall item :: item in l.chain ==> item.leaf == l
  }

  /** Linking an item into one leaf leaves the pointers of all other leaves alone. */
  method LinkAmong<D>(ghost list: List<D>, leaf: List<D>, item: Item<D>, ghost k: nat)
    requires leaf in list.leaves && forall l :: l in list.leaves ==> Linked(l) && Owned(l)
    requires AllDiffer(leaf.chain) && item !in leaf.chain && k <= |leaf.chain|
    requires item.previousInLeaf == Nth(leaf.chain, k - 1) && item.nextInLeaf == Nth(leaf.chain, k)
    modifies leaf, leaf.chain`previousInLeaf, leaf.chain`nextInLeaf
    ensures forall l :: l in list.leaves ==> Linked(l)
    ensures ChainsOf(list) == old(ChainsOf(list))[leaf := InsertAt(old(leaf.chain), k, item)]
  {
    LinkItem(leaf, item, k);
    forall l | l in list.leaves && l != leaf ensures Linked(l) {
      assert l.chain == old(l.chain) && old(Linked(l) && Owned(l)) && old(Owned(leaf));
      forall i | 0 <= i < |l.chain|
        ensures l.chain[i].previousInLeaf == Nth(l.chain, i - 1) && l.chain[i].nextInLeaf == Nth(l.chain, i + 1)
      {
        var x := l.chain[i];
        assert x in l.chain && x.leaf == l;
        assert x !in old(leaf.chain);
      }
    }
  }

  /** Unlinking an item from one leaf leaves the pointers of all other leaves alone. */
  method UnlinkAmong<D>(ghost list: List<D>, leaf: List<D>, item: Item<D>, ghost k: nat)
    requires leaf in list.leaves && forall l :: l in list.leaves ==> Linked(l) && Owned(l)
    requires AllDiffer(leaf.chain) && k < |leaf.chain| && leaf.chain[k] == item
    modifies leaf, leaf.chain`previousInLeaf, leaf.chain`nextInLeaf
    ensures forall l :: l in list.leaves ==> Linked(l)
    ensures ChainsOf(list) == old(ChainsOf(list))[leaf := RemoveAt(old(leaf.chain), k)]
  {
    UnlinkItem(leaf, item, k);
    forall l | l in list.leaves && l != leaf ensures Linked(l) {
      assert l.chain == old(l.chain) && old(Linked(l) && Owned(l)) && old(Owned(leaf));
      forall i | 0 <= i < |l.chain|
        ensures l.chain[i].previousInLeaf == Nth(l.chain, i - 1) && l.chain[i].nextInLeaf == Nth(l.chain, i + 1)
      {
        var x := l.chain[i];
        assert x in l.chain && x.leaf == l;
        assert x !in old(leaf.chain);
      }
    }
  }

  lemma {:induction false} LeavesOwned<D>(n: List<D>)
    requires Valid(n)
    ensures forall l :: l in n.leaves ==> Linked(l) && Owned(l)
  {
  }

  lemma {:induction false} ChainsOkUpdate<D>(n: List<D>, c: Chains<D>, leaf: List<D>, s: seq<Item<D>>)
    requires ChainsOk(n, c) && leaf in n.leaves && ChainOk(leaf, s)
    ensures ChainsOk(n, c[leaf := s])
  {
  }

  lemma {:induction false} ValidFromParts<D>(n: List<D>)
    requires Shaped(n) && ChainsOk(n, ChainsOf(n)) && forall l :: l in n.leaves ==> Linked(l)
    ensures Valid(n)
  {
  }

  /** Links a new item into a list, seen from the list. */
  method LinkInto<D>(ghost list: List<D>, leaf: List<D>, item: Item<D>, ghost k: nat) returns (ghost at: nat)
    requires Valid(list) && leaf in list.leaves && ItemOk(leaf, item) && item !in leaf.chain
    requires k <= |leaf.chain|
    requires item.previousInLeaf == Nth(leaf.chain, k - 1) && item.nextInLeaf == Nth(leaf.chain, k)
    requires forall i :: 0 <= i < k ==> Rank(leaf.chain[i].hash) < Rank(item.hash)
    requires forall i :: k <= i < |leaf.chain| ==> Rank(item.hash) < Rank(leaf.chain[i].hash)
    modifies leaf, leaf.chain`previousInLeaf, leaf.chain`nextInLeaf
    ensures Valid(list) && at <= |old(Items(list))|
    ensures Items(list) == InsertAt(old(Items(list)), at, item)
  {
    ghost var c := ChainsOf(list);
    ItemsInSet(list);
    LeavesOwned(list);
    ChainItemsDiffer(leaf, leaf.chain);
    ChainInsert(leaf, leaf.chain, k, item);
    ChainsOkUpdate(list, c, leaf, InsertAt(leaf.chain, k, item));
    at := FlattenInsert(list, c, leaf, k, item);
    LinkAmong(list, leaf, item, k);
    ValidFromParts(list);
  }

  /** Takes an item out of a list, seen from the list. */
  method UnlinkFrom<D>(ghost list: List<D>, leaf: List<D>, item: Item<D>, ghost k: nat) returns (ghost at: nat)
    requires Valid(list) && leaf in list.leaves && k < |leaf.chain| && leaf.chain[k] == item
    modifies leaf, leaf.chain`previousInLeaf, leaf.chain`nextInLeaf
    ensures Valid(list) && at < |old(Items(list))| && old(Items(list))[at] == item
    ensures Items(list) == RemoveAt(old(Items(list)), at)
  {
    ghost var c := ChainsOf(list);
    ItemsInSet(list);
    LeavesOwned(list);
    ChainItemsDiffer(leaf, leaf.chain);
    ChainRemove(leaf, leaf.chain, k);
    ChainsOkUpdate(list, c, leaf, RemoveAt(leaf.chain, k));
    at := FlattenRemove(list, c, leaf, k);
    UnlinkAmong(list, leaf, item, k);
    ValidFromParts(list);
  }

  // ---------------------------------------------------------------- the operations of list.h

  lemma {:induction false} ItemSetAfterInsert<D>(n: List<D>, items: seq<Item<D>>, was: set<Item<D>>, at: nat,
                                                 item: Item<D>)
    requires Valid(n) && at <= |items| && Items(n) == InsertAt(items, at, item)
    requires forall i :: 0 <= i < |items| ==> items[i] in was
    requires forall x :: x in was ==> x in items
    ensures ItemSet(n) == was + {item}
  {
    hide Flatten, ChainOk, Linked, Shaped;
    ItemsInSet(n);
    forall x | x in ItemSet(n) ensures x in was + {item} {
      assert x in InsertAt(items, at, item);
    }
    forall x | x in was + {item} ensures x in ItemSet(n) {
      assert x in InsertAt(items, at, item) by {
        if x != item {
          var i :| 0 <= i < |items| && items[i] == x;
          assert x == InsertAt(items, at, item)[if i < at then i else i + 1];
        } else {
          assert x == InsertAt(items, at, item)[at];
        }
      }
    }
  }

  lemma {:induction false} ItemSetAfterRemove<D>(n: List<D>, items: seq<Item<D>>, was: set<Item<D>>, at: nat)
    requires Valid(n) && at < |items| && Items(n) == RemoveAt(items, at)
    requires forall i, j :: 0 <= i < j < |items| ==> items[i] != items[j]
    requires forall i :: 0 <= i < |items| ==> items[i] in was
    requires forall x :: x in was ==> x in items
    ensures ItemSet(n) == was - {items[at]}
  {
    hide Flatten, ChainOk, Linked, Shaped;
    ItemsInSet(n);
    forall x | x in ItemSet(n) ensures x in was - {items[at]} {
      var i :| 0 <= i < |Items(n)| && Items(n)[i] == x;
      assert x == items[if i < at then i else i + 1];
    }
    forall x | x in was - {items[at]} ensures x in ItemSet(n) {
      var i :| 0 <= i < |items| && items[i] == x;
      assert x == RemoveAt(items, at)[if i < at then i else i - 1];
    }
  }

  /** `was` is the value of a list with these items. */
  ghost predicate Spells<D>(items: seq<Item<D>>, was: seq<Entry<D>>)
    reads items`data
  {
    |was| == |items| && forall i :: 0 <= i < |items| ==> was[i] == Entry(items[i].hash, items[i].data)
  }

  lemma {:induction false} ValueAfterInsert<D>(n: List<D>, items: seq<Item<D>>, was: seq<Entry<D>>, at: nat,
                                               item: Item<D>)
    requires Valid(n) && at <= |items| && Items(n) == InsertAt(items, at, item)
    requires Spells(items, was) && item.hash !in ToMap(was)
    ensures ToMap(Value(n)) == ToMap(was)[item.hash := item.data]
    ensures Blocks(Value(n)) == Blocks(was) + 2 + if item.data.Some? then 1 else 0
  {
    hide Valid, Flatten;
    var e := Entry(item.hash, item.data);
    forall i | 0 <= i < |was| ensures was[i].hash != e.hash {
      ToMapDomain(was, e.hash);
    }
    ToMapInsert(was, at, e);
    assert Value(n) == InsertAt(was, at, e);
  }

  lemma {:induction false} ValueAfterRemove<D>(n: List<D>, items: seq<Item<D>>, was: seq<Entry<D>>, at: nat)
    requires Valid(n) && at < |items| && Items(n) == RemoveAt(items, at) && |was| == |items| && Distinct(was)
    requires forall i :: 0 <= i < |items| && i != at ==> was[i] == Entry(items[i].hash, items[i].data)
    ensures Value(n) == RemoveAt(was, at) && ToMap(Value(n)) == ToMap(was) - {was[at].hash}
    ensures Blocks(was) == Blocks(Value(n)) + 2 + if was[at].data.Some? then 1 else 0
  {
    hide Valid, Flatten;
    ToMapRemove(was, at);
    assert Value(n) == RemoveAt(was, at);
  }

  lemma {:induction false} ValueAfterReplace<D>(n: List<D>, was: seq<Entry<D>>, at: nat)
    requires Valid(n) && at < |Items(n)| && |was| == |Items(n)| && Distinct(was) && was[at].hash == Items(n)[at].hash
    requires forall i :: 0 <= i < |was| && i != at ==> was[i] == Entry(Items(n)[i].hash, Items(n)[i].data)
    ensures Value(n) == was[at := Entry(Items(n)[at].hash, Items(n)[at].data)]
    ensures ToMap(Value(n)) == ToMap(was)[Items(n)[at].hash := Items(n)[at].data]
    ensures Blocks(Value(n)) - Blocks(was)
         == (if Items(n)[at].data.Some? then 1 else 0) - (if was[at].data.Some? then 1 else 0)
  {
    hide Valid, Flatten;
    var e := Entry(Items(n)[at].hash, Items(n)[at].data);
    ToMapReplace(was, at, e);
    assert Value(n) == was[at := e];
  }

  /** A new item and its hash. */
  method NewItem<D>(leaf: List<D>, hash: Hash, previous: Item?<D>, current: Item?<D>, alloc: Allocator)
    returns (item: Item<D>)
    modifies alloc
    ensures fresh(item) && item.hash == hash && item.leaf == leaf && item.data == None
    ensures item.previousInLeaf == previous && item.nextInLeaf == current
    ensures alloc.Live() == old(alloc.Live()) + 2
  {
    alloc.countCalloc, alloc.countMalloc := alloc.countCalloc + 1, alloc.countMalloc + 1;
    item := new Item<D>(hash, leaf, previous, current);
  }

  /** The part of `setHash` that links a new item into the list. */
  method AddItem<D>(list: List<D>, leaf: List<D>, hash: Hash, previous: Item?<D>, current: Item?<D>, alloc: Allocator,
                    ghost k: nat) returns (item: Item<D>)
    requires Valid(list) && leaf in list.leaves && |hash| == list.hashLength >= |list.path| + list.level
    requires leaf.path == Route(hash, |list.path| + list.level, list.endianness)
    requires k <= |leaf.chain| && previous == Nth(leaf.chain, k - 1) && current == Nth(leaf.chain, k)
    requires forall i :: 0 <= i < k ==> Rank(leaf.chain[i].hash) < Rank(hash)
    requires forall i :: k <= i < |leaf.chain| ==> Rank(hash) < Rank(leaf.chain[i].hash)
    modifies leaf, leaf.chain`previousInLeaf, leaf.chain`nextInLeaf, alloc
    ensures Valid(list) && ItemSet(list) == old(ItemSet(list)) + {item}
    ensures fresh(item) && item.hash == hash && item.data == None
    ensures hash !in old(ToMap(Value(list)))
    ensures ToMap(Value(list)) == old(ToMap(Value(list)))[hash := None]
    ensures alloc.Live() - Blocks(Value(list)) == old(alloc.Live() - Blocks(Value(list)))
  {
    hide Rank, Memcmp, Route, ChainOk, Flatten, Blocks, ToMap, Linked, Shaped, EntriesOf, LeafValid, Valid, Value;
    NotFound(list, leaf, hash);
    RootFits(list);
    LeafByPath(list, leaf);
    LeafItems(list, leaf);
    ghost var was, items := Value(list), ItemSet(list);
    item := NewItem(leaf, hash, previous, current, alloc);
    assert ItemSet(list) == items && Valid(list) && Value(list) == was;
    LinkNew(list, leaf, item, k);
  }

  /** Links a new item without data into a list, seen from the list's value. */
  method LinkNew<D>(ghost list: List<D>, leaf: List<D>, item: Item<D>, ghost k: nat)
    requires Valid(list) && leaf in list.leaves && ItemOk(leaf, item) && item !in leaf.chain
    requires item.data == None && item.hash !in ToMap(Value(list))
    requires k <= |leaf.chain|
    requires item.previousInLeaf == Nth(leaf.chain, k - 1) && item.nextInLeaf == Nth(leaf.chain, k)
    requires forall i :: 0 <= i < k ==> Rank(leaf.chain[i].hash) < Rank(item.hash)
    requires forall i :: k <= i < |leaf.chain| ==> Rank(item.hash) < Rank(leaf.chain[i].hash)
    modifies leaf, leaf.chain`previousInLeaf, leaf.chain`nextInLeaf
    ensures Valid(list) && ItemSet(list) == old(ItemSet(list)) + {item}
    ensures ToMap(Value(list)) == old(ToMap(Value(list)))[item.hash := None]
    ensures Blocks(Value(list)) == old(Blocks(Value(list))) + 2
  {
    hide Rank, Memcmp, Route, ChainOk, Flatten, Blocks, ToMap, Linked, Shaped, EntriesOf, LeafValid;
    ItemsInSet(list);
    ghost var was, items, set0 := Value(list), Items(list), ItemSet(list);
    ghost var at := LinkInto(list, leaf, item, k);
    assert Spells(items, was) by {
      forall i | 0 <= i < |items| ensures was[i] == Entry(items[i].hash, items[i].data) {
        assert items[i] in set0;
        assert was[i] == old(EntriesOf(items))[i];
      }
    }
    ValueAfterInsert(list, items, was, at, item);
    ItemSetAfterInsert(list, items, set0, at, item);
  }

  /** The part of `setHash` below `getLeaf`. */
  method SetInLeaf<D>(list: List<D>, leaf: List<D>, hash: Hash, alloc: Allocator) returns (item: Item<D>)
    requires Valid(list) && leaf in list.leaves && |hash| == list.hashLength >= |list.path| + list.level
    requires leaf.path == Route(hash, |list.path| + list.level, list.endianness)
    modifies leaf, leaf.chain`previousInLeaf, leaf.chain`nextInLeaf, alloc
    ensures Valid(list) && fresh(ItemSet(list) - old(ItemSet(list)))
    ensures item in ItemSet(list) && item.hash == hash
    ensures SetSpec(old(Value(list)), Value(list), hash, item.data)
    ensures hash !in ToMap(old(Value(list))) ==> fresh(item)
    ensures alloc.Live() - Blocks(Value(list)) == old(alloc.Live() - Blocks(Value(list)))
  {
    hide Rank, Memcmp, Route, ChainOk, Flatten, Blocks, ToMap, Linked, Shaped, EntriesOf;
    assert LeafValid(leaf);
    LeafByPath(list, leaf);
    var found, previous, current;
    ghost var k;
    found, previous, current, k := Seek(leaf, hash);
    if found != null {
      Found(list, leaf, k);
      item := found;
      assert item in leaf.chain;
    } else {
      item := AddItem(list, leaf, hash, previous, current, alloc, k);
    }
  }

  /** What `setHash` makes of a list's value: nothing if the hash is there, else one more entry without data. */
  ghost predicate SetSpec<D>(was: seq<Entry<D>>, now: seq<Entry<D>>, hash: Hash, data: Option<D>) {
    if hash in ToMap(was) then now == was && data == ToMap(was)[hash]
    else ToMap(now) == ToMap(was)[hash := None] && data == None
  }

  lemma {:induction false} RootFits<D>(n: List<D>)
    requires Valid(n)
    ensures Shaped(n) && |n.path| + n.level <= n.hashLength
  {
  }

  lemma {:induction false} LeafItems<D>(n: List<D>, leaf: List<D>)
    requires leaf in n.leaves
    ensures forall i :: 0 <= i < |leaf.chain| ==> leaf.chain[i] in ItemSet(n)
  {
    forall i | 0 <= i < |leaf.chain| ensures leaf.chain[i] in ItemSet(n) {
      assert leaf.chain[i] in leaf.chain;
    }
  }

  /** `setHash`: the item with this hash, created without data if there was none. */
  method SetHash<D>(list: List<D>, hash: Hash, alloc: Allocator) returns (item: Item<D>)
    requires ValidRoot(list) && |hash| == list.hashLength
    modifies list.leaves, ItemSet(list)`previousInLeaf, ItemSet(list)`nextInLeaf, alloc
    ensures ValidRoot(list) && fresh(ItemSet(list) - old(ItemSet(list)))
    ensures item in ItemSet(list) && item.hash == hash
    ensures SetSpec(old(Value(list)), Value(list), hash, item.data)
    ensures hash !in ToMap(old(Value(list))) ==> fresh(item)
    ensures alloc.Live() - Blocks(Value(list)) == old(alloc.Live() - Blocks(Value(list)))
  {
    hide Rank, Memcmp, Route, ChainOk, Flatten, Blocks, ToMap, Linked, Shaped, EntriesOf, SetSpec, Valid, Value;
    RootFits(list);
    var leaf := GetLeaf(list, hash);
    LeafItems(list, leaf);
    item := SetInLeaf(list, leaf, hash, alloc);
  }

  /** `deleteItem`: the item leaves its list and is freed with its hash and its data. */
  method DeleteItem<D>(item: Item<D>, alloc: Allocator, ghost list: List<D>) returns (ghost at: nat)
    requires Valid(list) && item in ItemSet(list)
    modifies item, item.leaf, item.leaf.chain`previousInLeaf, item.leaf.chain`nextInLeaf, alloc
    ensures Valid(list) && ItemSet(list) == old(ItemSet(list)) - {item}
    ensures at < |old(Items(list))| && old(Items(list))[at] == item
    ensures Items(list) == RemoveAt(old(Items(list)), at)
    ensures Value(list) == RemoveAt(old(Value(list)), at)
    ensures ToMap(Value(list)) == old(ToMap(Value(list))) - {item.hash}
    ensures alloc.Live() - Blocks(Value(list)) == old(alloc.Live() - Blocks(Value(list)))
  {
    hide Rank, Memcmp, Route, ChainOk, Flatten, Blocks, ToMap, Linked, Shaped, EntriesOf;
    ItemsInSet(list);
    ValueInPlace(list);
    var leaf := item.leaf;
    ghost var k := Whereabouts(list, item);
    ghost var was, items, set0, live := Value(list), Items(list), ItemSet(list), alloc.Live();
    at := UnlinkFrom(list, leaf, item, k);
    ItemSetAfterRemove(list, items, set0, at);
    FreeItem(item, alloc);
    assert alloc.Live() == live - 2 - if was[at].data.Some? then 1 else 0;
    forall i | 0 <= i < |items| && i != at ensures was[i] == Entry(items[i].hash, items[i].data) {
      assert items[i] in set0;
      assert was[i] == old(EntriesOf(items))[i];
    }
    ValueAfterRemove(list, items, was, at);
  }

  /** The leaf an item belongs to and its position there. */
  lemma {:induction false} Whereabouts<D>(n: List<D>, item: Item<D>) returns (k: nat)
    requires Valid(n) && item in ItemSet(n)
    ensures item.leaf in n.leaves && k < |item.leaf.chain| && item.leaf.chain[k] == item
  {
    var leaf :| leaf in n.leaves && item in leaf.chain;
    k :| 0 <= k < |leaf.chain| && leaf.chain[k] == item;
    assert LeafValid(leaf) && ItemOk(leaf, item);
  }

  /** `deleteHash`: afterwards the list holds everything else. */
  method DeleteHash<D>(list: List<D>, hash: Hash, alloc: Allocator)
    requires ValidRoot(list) && |hash| == list.hashLength
    modifies list.leaves, ItemSet(list), alloc
    ensures ValidRoot(list) && ItemSet(list) <= old(ItemSet(list))
    ensures ToMap(Value(list)) == old(ToMap(Value(list))) - {hash}
    ensures alloc.Live() - Blocks(Value(list)) == old(alloc.Live() - Blocks(Value(list)))
  {
    hide Rank, Memcmp, Route, ChainOk, Flatten, Blocks, ToMap, Linked, Shaped, EntriesOf, Valid, Value;
    RootFits(list);
    var item := GetHash(list, hash);
    if item != null {
      FoundInSet(list, item);
      ghost var k := Whereabouts(list, item);
      LeafItems(list, item.leaf);
      ghost var at := DeleteItem(item, alloc, list);
    }
  }

  lemma {:induction false} FoundInSet<D>(n: List<D>, item: Item<D>)
    requires Valid(n) && item in Items(n)
    ensures item in ItemSet(n)
  {
    ItemsInSet(n);
  }

  /** An item's data pointer is assigned; no block is allocated or freed. */
  method AssignData<D>(item: Item<D>, data: Option<D>, ghost list: List<D>) returns (ghost at: nat)
    requires Valid(list) && item in ItemSet(list)
    modifies item`data
    ensures Valid(list) && Items(list) == old(Items(list)) && ItemSet(list) == old(ItemSet(list))
    ensures at < |Items(list)| && Items(list)[at] == item && item.data == data
    ensures Value(list) == old(Value(list))[at := Entry(item.hash, data)]
    ensures ToMap(Value(list)) == old(ToMap(Value(list)))[item.hash := data]
    ensures Blocks(Value(list)) - old(Blocks(Value(list)))
         == (if data.Some? then 1 else 0) - (if old(item.data).Some? then 1 else 0)
  {
    hide Rank, Memcmp, Route, ChainOk, Flatten, Blocks, ToMap, Linked, Shaped, EntriesOf;
    ItemsInSet(list);
    ValueInPlace(list);
    ghost var was, items, set0 := Value(list), Items(list), ItemSet(list);
    at :| 0 <= at < |items| && items[at] == item;
    ItemsDiffer(list);
    item.data := data;
    assert Items(list) == items;
    forall i | 0 <= i < |items| && i != at ensures was[i] == Entry(items[i].hash, items[i].data) {
      assert items[i] in set0;
      assert was[i] == old(EntriesOf(items))[i];
    }
    ValueAfterReplace(list, was, at);
  }

  /**
   * A caller gives an item new data: the block is allocated if there was none (`c_calloc` after
   * `setHash`) and freed if none is left.
   */
  method StoreData<D>(item: Item<D>, data: Option<D>, alloc: Allocator, ghost list: List<D>) returns (ghost at: nat)
    requires Valid(list) && item in ItemSet(list)
    modifies item`data, alloc
    ensures Valid(list) && Items(list) == old(Items(list)) && ItemSet(list) == old(ItemSet(list))
    ensures at < |Items(list)| && Items(list)[at] == item && item.data == data
    ensures Value(list) == old(Value(list))[at := Entry(item.hash, data)]
    ensures ToMap(Value(list)) == old(ToMap(Value(list)))[item.hash := data]
    ensures alloc.Live() - Blocks(Value(list)) == old(alloc.Live() - Blocks(Value(list)))
  {
    hide Rank, Memcmp, Route, ChainOk, Flatten, Blocks, ToMap, Linked, Shaped, EntriesOf, Valid, Value, Items;
    if item.data.None? && data.Some? {
      alloc.countCalloc := alloc.countCalloc + 1;
    } else if item.data.Some? && data.None? {
      alloc.countFree := alloc.countFree + 1;
    }
    at := AssignData(item, data, list);
  }

  lemma {:induction false} ItemsDiffer<D>(n: List<D>)
    requires Valid(n)
    ensures AllDiffer(Items(n))
  {
    hide Flatten, Rank, Valid;
    ValueInPlace(n);
  }
}
