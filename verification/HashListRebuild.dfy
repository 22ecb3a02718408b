/** `initList`, `freeList` and the rebuild of a list at another level (`reInitList`). */
module HashListRebuild {
  import opened Bytes
  import opened HashOrder
  import opened Entries
  import opened HashList
  import opened HashListOps
  import opened HashListTraversal

  // ---------------------------------------------------------------- creation and destruction

  /** How `initList` and `freeList` end the process. */
  datatype Exit = WrongLimit | WrongHashLength | NotEmpty
  datatype Outcome<+T> = Done(value: T) | Exited(code: Exit)

  /** The heap blocks of an empty list: its own struct and everything below it. */
  function StructBlocks(level: nat, semaphores: SemaphoreMode): nat {
    1 + NodeBlocks(level, true, semaphores)
  }

  lemma {:induction false} TimesIs(count: nat, each: nat)
    ensures Times(count, each) == count * each
  {
    if count > 0 {
      TimesIs(count - 1, each);
    }
  }

  /** A list of level 0, 1 or 2: without semaphores 1, 2 or 258 blocks, with those of the leaves 2, 258 or 65794. */
  lemma {:induction false} StructBlocksAre(global: bool)
    ensures var none, leaf, more := SemaphoreMode(false, global), SemaphoreMode(true, global), if global then 1 else 0;
      && StructBlocks(0, none) == 1 + more && StructBlocks(1, none) == 2 + more && StructBlocks(2, none) == 258 + more
      && StructBlocks(0, leaf) == 2 && StructBlocks(1, leaf) == 258 + more && StructBlocks(2, leaf) == 65794 + more
  {
    TimesIs(256, 0);
    TimesIs(256, 1);
    TimesIs(256, 257);
    var none, leaf := SemaphoreMode(false, global), SemaphoreMode(true, global);
    assert NodeBlocks(0, false, none) == 0 && NodeBlocks(0, false, leaf) == 1;
    assert NodeBlocks(1, false, none) == 1 && NodeBlocks(1, false, leaf) == 257;
  }

  method InitList<D>(level: nat, hashLength: nat, semaphores: SemaphoreMode, endianness: Endianness, alloc: Allocator)
    returns (r: Outcome<List<D>>)
    modifies alloc
    ensures r == Exited(WrongLimit) <==> level > 2
    ensures r == Exited(WrongHashLength) <==> hashLength < level <= 2
    ensures level <= 2 && level <= hashLength ==>
      && r.Done? && fresh(r.value.leaves) && Made(r.value, [], level, hashLength, semaphores, endianness)
      && ValidRoot(r.value) && ItemSet(r.value) == {} && Value(r.value) == []
      && alloc.Live() == old(alloc.Live()) + StructBlocks(level, semaphores)
  {
    if level > LIMIT_LEVEL {
      return Exited(WrongLimit);
    }
    if level > hashLength {
      return Exited(WrongHashLength);
    }
    alloc.countCalloc := alloc.countCalloc + 1;
    var list := new List<D>.Build([], level, 0, hashLength, semaphores, endianness, alloc);
    VacantIsEmpty(list);
    r := Done(list);
  }

  lemma {:induction false} VacantIsEmpty<D>(n: List<D>)
    requires Shaped(n) && Vacant(n)
    ensures Valid(n) && ItemSet(n) == {} && Value(n) == []
  {
    hide Rank, Flatten;
    forall l | l in n.leaves ensures LeafValid(l) {
      LeafByPath(n, l);
    }
    ItemsInSet(n);
    SomeMember(Items(n), ItemSet(n));
  }

  lemma {:induction false} SomeMember<T>(s: seq<T>, t: set<T>)
    requires forall i :: 0 <= i < |s| ==> s[i] in t
    ensures s == [] || t != {}
  {
    if s != [] {
      assert s[0] in t;
    }
  }

  /** `freeList` on a subtree; `root` is its `firstRecursion`. It ends the process at the first item it meets. */
  method FreeList<D>(n: List<D>, root: bool, alloc: Allocator) returns (r: Outcome<()>)
    requires Valid(n)
    modifies alloc
    ensures r == Done(()) <==> old(Value(n)) == []
    ensures r != Done(()) ==> r == Exited(NotEmpty)
    ensures r == Done(()) ==>
      alloc.Live() == old(alloc.Live()) - NodeBlocks(n.level, root, n.semaphores) - if root then 1 else 0
    decreases n.level
  {
    hide Rank, ChainOk, Flatten, EntriesOf, Valid, Value, InParts;
    if n.level > 0 {
      ghost var parts := Partition(n);
      PartOfNode(n, parts, 0);
      ghost var each := NodeBlocks(n.level - 1, false, n.semaphores);
      var index := 0;
      while index < FANOUT
        invariant Valid(n) && InParts(n, parts) && |parts| == FANOUT && old(Value(n)) == Concat(parts)
        invariant index <= FANOUT && Concat(parts[..index]) == []
        invariant alloc.Live() == old(alloc.Live()) - Times(index, each)
      {
        PartOfNode(n, parts, index);
        AllEmpty(parts, index);
        label before:
        var child := FreeList(n.children[index], false, alloc);
        assert ItemSet(n) == old@before(ItemSet(n));
        if child != Done(()) {
          return Exited(NotEmpty);
        }
        index := index + 1;
      }
      assert parts[..FANOUT] == parts;
      alloc.countFree := alloc.countFree + 1;
    } else {
      LeafView(n);
      if n.firstItem != null {
        return Exited(NotEmpty);
      }
    }
    if (n.level == 0 && n.semaphores.leaf) || (root && n.semaphores.global) {
      alloc.countFree := alloc.countFree + 1;
    }
    if root {
      alloc.countFree := alloc.countFree + 1;
    }
    r := Done(());
  }

  lemma {:induction false} AllEmpty<T>(parts: seq<seq<T>>, i: nat)
    requires i < |parts|
    ensures Concat(parts[..i]) == [] && parts[i] == [] ==> Concat(parts[..i + 1]) == []
    ensures parts[i] != [] ==> Concat(parts) != []
  {
    ConcatSplit(parts, i);
    ConcatSplit(parts[..i + 1], i);
    assert parts[..i + 1][..i] == parts[..i] && parts[..i + 1][i + 1..] == [];
  }

  lemma {:induction false} PartOfNode<D>(n: List<D>, parts: seq<seq<Entry<D>>>, i: nat)
    requires Valid(n) && n.level > 0 && InParts(n, parts) && i < FANOUT
    ensures |n.children| == FANOUT == |parts| && Valid(n.children[i]) && Value(n.children[i]) == parts[i]
    ensures n.children[i].level == n.level - 1 && n.children[i].semaphores == n.semaphores
  {
    hide Valid;
    ChildrenValid(n);
    RootFits(n);
    assert Made(n.children[i], n.path + [i], n.level - 1, n.hashLength, n.semaphores, n.endianness);
  }

  // ---------------------------------------------------------------- moving every item to another list

  /** Two lists that share neither leaves, nor items, nor hashes. */
  ghost predicate Apart<D>(n: List<D>, target: List<D>)
    reads n.leaves, ItemSet(n), target.leaves, ItemSet(target)
  {
    && Valid(n) && ValidRoot(target) && n.hashLength == target.hashLength
    && n.leaves !! target.leaves && ItemSet(n) !! ItemSet(target)
    && ToMap(Value(n)).Keys !! ToMap(Value(target)).Keys
  }

  ghost function BothBlocks<D>(n: List<D>, target: List<D>): nat
    requires Valid(n) && Valid(target)
    reads n.leaves, ItemSet(n), target.leaves, ItemSet(target)
  {
    Blocks(Value(n)) + Blocks(Value(target))
  }

  /** `reInitListCallback`: the data moves to a new item of the target, the old item is freed without it. */
  method MoveItem<D>(item: Item<D>, target: List<D>, alloc: Allocator, ghost n: List<D>) returns (ghost at: nat)
    requires Apart(n, target) && item in ItemSet(n)
    modifies n.leaves, ItemSet(n), target.leaves, ItemSet(target), alloc
    ensures Apart(n, target)
    ensures at < |old(Items(n))| && old(Items(n))[at] == item && Items(n) == RemoveAt(old(Items(n)), at)
    ensures ItemSet(n) == old(ItemSet(n)) - {item} && fresh(ItemSet(target) - old(ItemSet(target)))
    ensures ToMap(Value(n)) == old(ToMap(Value(n))) - {item.hash}
    ensures item.hash in old(ToMap(Value(n)))
    ensures ToMap(Value(target)) == old(ToMap(Value(target)))[item.hash := old(ToMap(Value(n)))[item.hash]]
    ensures alloc.Live() - BothBlocks(n, target) == old(alloc.Live() - BothBlocks(n, target))
  {
    hide Rank, ChainOk, Flatten, Blocks, ToMap, EntriesOf, Valid, Value, Linked, Shaped, Items;
    ItemInMapOfSet(n, item);
    ghost var here, items, order := Value(n), ItemSet(n), Items(n);
    CopyItem(item, target, alloc);
    assert ItemSet(n) == items && Valid(n) && Value(n) == here && Items(n) == order;
    ghost var there, others := Value(target), ItemSet(target);
    at := DropItem(item, alloc, n);
    assert ItemSet(target) == others && ValidRoot(target) && Value(target) == there;
  }

  /** The target takes over the item's hash and data. */
  method CopyItem<D>(item: Item<D>, target: List<D>, alloc: Allocator)
    requires ValidRoot(target) && |item.hash| == target.hashLength && item.hash !in ToMap(Value(target))
    modifies target.leaves, ItemSet(target), alloc
    ensures ValidRoot(target) && fresh(ItemSet(target) - old(ItemSet(target)))
    ensures ToMap(Value(target)) == old(ToMap(Value(target)))[item.hash := old(item.data)]
    ensures alloc.Live() - Blocks(Value(target)) + (if old(item.data).Some? then 1 else 0)
         == old(alloc.Live() - Blocks(Value(target)))
  {
    hide Rank, ChainOk, Flatten, Blocks, ToMap, EntriesOf, Valid, Value, Linked, Shaped;
    var data := item.data;
    var moved := SetHash(target, item.hash, alloc);
    ghost var at := AssignData(moved, data, target);
  }

  /** The item gives up its data, so that `deleteItem` does not free it. */
  method DropItem<D>(item: Item<D>, alloc: Allocator, ghost n: List<D>) returns (ghost at: nat)
    requires Valid(n) && item in ItemSet(n)
    modifies n.leaves, ItemSet(n), alloc
    ensures Valid(n) && ItemSet(n) == old(ItemSet(n)) - {item}
    ensures at < |old(Items(n))| && old(Items(n))[at] == item && Items(n) == RemoveAt(old(Items(n)), at)
    ensures ToMap(Value(n)) == old(ToMap(Value(n))) - {item.hash}
    ensures alloc.Live() - Blocks(Value(n)) - (if old(item.data).Some? then 1 else 0)
         == old(alloc.Live() - Blocks(Value(n)))
  {
    hide Rank, ChainOk, Flatten, Blocks, ToMap, EntriesOf, Valid, Value, Linked, Shaped;
    ghost var k := Whereabouts(n, item);
    LeafItems(n, item.leaf);
    ghost var gone := AssignData(item, None, n);
    at := DeleteItem(item, alloc, n);
  }

  lemma {:induction false} ItemInMapOfSet<D>(n: List<D>, item: Item<D>)
    requires Valid(n) && item in ItemSet(n)
    ensures |item.hash| == n.hashLength && item.hash in ToMap(Value(n)) && ToMap(Value(n))[item.hash] == item.data
  {
    hide Flatten, ToMap;
    ItemsInSet(n);
    ItemInMap(n, item);
    ValueInPlace(n);
  }

  /** What moving items has done so far: together the two lists still stand for `total`. */
  ghost predicate Together<D>(n: List<D>, target: List<D>, total: map<Hash, Option<D>>)
    requires Apart(n, target)
    reads n.leaves, ItemSet(n), target.leaves, ItemSet(target)
  {
    ToMap(Value(target)) + ToMap(Value(n)) == total
  }

  lemma {:induction false} StillTogether<K, V>(here: map<K, V>, there: map<K, V>, h: K)
    requires h in here && here.Keys !! there.Keys
    ensures there[h := here[h]] + (here - {h}) == there + here
  {
  }

  /** One iteration over a leaf; the successor is read before the item is freed. */
  method MoveFirst<D>(leaf: List<D>, current: Item<D>, target: List<D>, alloc: Allocator,
                      ghost total: map<Hash, Option<D>>)
    returns (next: Item?<D>)
    requires Apart(leaf, target) && leaf.level == 0 && current == Nth(leaf.chain, 0) && Together(leaf, target, total)
    modifies leaf.leaves, ItemSet(leaf), target.leaves, ItemSet(target), alloc
    ensures Apart(leaf, target) && Together(leaf, target, total)
    ensures ItemSet(leaf) <= old(ItemSet(leaf)) && fresh(ItemSet(target) - old(ItemSet(target)))
    ensures next == Nth(leaf.chain, 0) && |leaf.chain| < |old(leaf.chain)|
    ensures alloc.Live() - BothBlocks(leaf, target) == old(alloc.Live() - BothBlocks(leaf, target))
  {
    hide Rank, ChainOk, Flatten, Blocks, ToMap, EntriesOf, Valid, Value, Shaped, BothBlocks;
    LeafView(leaf);
    next := current.nextInLeaf;
    StillTogether(ToMap(Value(leaf)), ToMap(Value(target)), current.hash) by {
      ItemInMapOfSet(leaf, current);
    }
    ghost var at := MoveItem(current, target, alloc, leaf);
    LeafView(leaf);
    assert at == 0 && leaf.chain == old(leaf.chain)[1..];
  }

  /** The loop of `mapList` with `reInitListCallback` over one leaf. */
  method MoveLeaf<D>(leaf: List<D>, target: List<D>, alloc: Allocator)
    requires Apart(leaf, target) && leaf.level == 0
    modifies leaf.leaves, ItemSet(leaf), target.leaves, ItemSet(target), alloc
    ensures Apart(leaf, target) && ItemSet(leaf) == {} && Value(leaf) == []
    ensures fresh(ItemSet(target) - old(ItemSet(target)))
    ensures ToMap(Value(target)) == old(ToMap(Value(target)) + ToMap(Value(leaf)))
    ensures alloc.Live() - BothBlocks(leaf, target) == old(alloc.Live() - BothBlocks(leaf, target))
  {
    hide Rank, ChainOk, Flatten, Blocks, ToMap, EntriesOf, Valid, Value, Shaped, BothBlocks;
    LeafView(leaf);
    ghost var total := ToMap(Value(target)) + ToMap(Value(leaf));
    var current := leaf.firstItem;
    while current != null
      invariant Apart(leaf, target) && Together(leaf, target, total)
      invariant current == Nth(leaf.chain, 0)
      invariant ItemSet(leaf) <= old(ItemSet(leaf)) && fresh(ItemSet(target) - old(ItemSet(target)))
      invariant alloc.Live() - BothBlocks(leaf, target) == old(alloc.Live() - BothBlocks(leaf, target))
      decreases |leaf.chain|
    {
      current := MoveFirst(leaf, current, target, alloc, total);
    }
    LeafView(leaf);
    NothingLeft(leaf);
  }

  lemma {:induction false} NothingLeft<D>(leaf: List<D>)
    requires Valid(leaf) && leaf.level == 0 && leaf.chain == []
    ensures ItemSet(leaf) == {} && Value(leaf) == [] && ToMap(Value(leaf)) == map[]
  {
  }

  lemma {:induction false} PartMoved<D>(parts: seq<seq<Entry<D>>>, i: nat, there: map<Hash, Option<D>>)
    requires i < |parts| && Distinct(Concat(parts)) && ToMap(Concat(parts)).Keys !! there.Keys
    ensures ToMap(parts[i]).Keys !! there.Keys
    ensures var left := ToMap(Concat(parts[i := []]));
            && (there + ToMap(parts[i])) + left == there + ToMap(Concat(parts))
            && left.Keys !! (there + ToMap(parts[i])).Keys
    ensures Blocks(Concat(parts)) == Blocks(parts[i]) + Blocks(Concat(parts[i := []]))
  {
    hide ToMap, Blocks, Distinct;
    var before, after := Concat(parts[..i]), Concat(parts[i + 1..]);
    ConcatSplit(parts, i);
    ConcatSplit(parts[i := []], i);
    assert parts[i := []][..i] == parts[..i] && parts[i := []][i + 1..] == parts[i + 1..];
    assert Concat(parts[i := []]) == before + after;
    BlocksConcat(before + parts[i], after);
    BlocksConcat(before, parts[i]);
    BlocksConcat(before, after);
    ToMapConcat(before + parts[i], after);
    ToMapConcat(before, parts[i]);
    ToMapConcat(before, after);
    StretchesDisjoint(before + parts[i], after);
    StretchesDisjoint(before, parts[i]);
  }

  /** One child of the old list moves to the target. */
  method MoveChild<D>(n: List<D>, i: nat, target: List<D>, alloc: Allocator, ghost parts: seq<seq<Entry<D>>>)
    requires Apart(n, target) && n.level > 0 && i < FANOUT && InParts(n, parts)
    modifies n.leaves, ItemSet(n), target.leaves, ItemSet(target), alloc
    ensures Apart(n, target) && InParts(n, parts[i := []])
    ensures ItemSet(n) <= old(ItemSet(n)) && fresh(ItemSet(target) - old(ItemSet(target)))
    ensures ToMap(Value(target)) + ToMap(Value(n)) == old(ToMap(Value(target)) + ToMap(Value(n)))
    ensures alloc.Live() - BothBlocks(n, target) == old(alloc.Live() - BothBlocks(n, target))
    decreases n.level - 1, 1
  {
    hide Rank, ChainOk, Flatten, Blocks, ToMap, EntriesOf, Valid, Value, Shaped, Distinct, Concat;
    ChildrenValid(n);
    ValueOfNode(n, parts);
    ValueInPlace(n);
    PartMoved(parts, i, ToMap(Value(target)));
    RootFits(n);
    ChildLength(n, i);
    EmptyValue<D>();
    MoveAll(n.children[i], target, alloc);
    NodeFromChildren(n);
    ValueOfNode(n, parts[i := []]);
  }

  lemma {:induction false} ChildLength<D>(n: List<D>, i: nat)
    requires Shaped(n) && n.level > 0 && i < FANOUT
    ensures n.children[i].hashLength == n.hashLength && n.children[i].level == n.level - 1
  {
  }

  /** `mapList` with `reInitListCallback`: every item moves to the target. */
  method MoveAll<D>(n: List<D>, target: List<D>, alloc: Allocator)
    requires Apart(n, target)
    modifies n.leaves, ItemSet(n), target.leaves, ItemSet(target), alloc
    ensures Apart(n, target) && Value(n) == []
    ensures ItemSet(n) <= old(ItemSet(n)) && fresh(ItemSet(target) - old(ItemSet(target)))
    ensures ToMap(Value(target)) == old(ToMap(Value(target)) + ToMap(Value(n)))
    ensures alloc.Live() - BothBlocks(n, target) == old(alloc.Live() - BothBlocks(n, target))
    decreases n.level, 0
  {
    hide Rank, ChainOk, Flatten, Blocks, ToMap, EntriesOf, Valid, Value, Shaped, InParts, BothBlocks;
    if n.level > 0 {
      ghost var parts := Partition(n);
      ghost var total := ToMap(Value(target)) + ToMap(Value(n));
      PartCount(n, parts);
      var index := 0;
      while index < FANOUT
        invariant index <= FANOUT && |parts| == FANOUT
        invariant Apart(n, target) && InParts(n, parts) && Together(n, target, total)
        invariant forall j :: 0 <= j < index ==> parts[j] == []
        invariant ItemSet(n) <= old(ItemSet(n)) && fresh(ItemSet(target) - old(ItemSet(target)))
        invariant alloc.Live() - BothBlocks(n, target) == old(alloc.Live() - BothBlocks(n, target))
      {
        MoveChild(n, index, target, alloc, parts);
        parts := parts[index := []];
        index := index + 1;
      }
      NothingInParts(n, parts);
    } else {
      LeafView(n);
      MoveLeaf(n, target, alloc);
    }
  }

  lemma {:induction false} PartCount<D>(n: List<D>, parts: seq<seq<Entry<D>>>)
    requires Valid(n) && n.level > 0 && InParts(n, parts)
    ensures |parts| == FANOUT
  {
  }

  lemma {:induction false} NothingInParts<D>(n: List<D>, parts: seq<seq<Entry<D>>>)
    requires Valid(n) && n.level > 0 && InParts(n, parts) && forall j :: 0 <= j < |parts| ==> parts[j] == []
    ensures Value(n) == [] && ToMap(Value(n)) == map[]
  {
    hide Valid;
    ChildrenValid(n);
    ValueOfNode(n, parts);
    NoParts(parts);
  }

  lemma {:induction false} NoParts<T>(parts: seq<seq<T>>)
    requires forall j :: 0 <= j < |parts| ==> parts[j] == []
    ensures Concat(parts) == []
  {
    if parts != [] {
      NoParts(parts[1..]);
    }
  }

  /**
   * `reInitList`: a new list of another level with the same map from hashes to data; the old list is
   * empty when `freeList` gets it, so the rebuild never ends the process there.
   */
  method ReInitList<D>(list: List<D>, level: nat, alloc: Allocator) returns (r: Outcome<List<D>>)
    requires ValidRoot(list)
    modifies list.leaves, ItemSet(list), alloc
    ensures r.Exited? <==> level > 2 || level > list.hashLength
    ensures r.Exited? ==> r.code != NotEmpty
    ensures r.Done? ==>
      && fresh(r.value.leaves) && fresh(ItemSet(r.value))
      && ValidRoot(r.value) && Made(r.value, [], level, list.hashLength, list.semaphores, list.endianness)
      && ToMap(Value(r.value)) == old(ToMap(Value(list)))
      && alloc.Live() - Blocks(Value(r.value)) - StructBlocks(level, list.semaphores)
         == old(alloc.Live() - Blocks(Value(list))) - StructBlocks(list.level, list.semaphores)
  {
    hide Rank, ChainOk, Flatten, Blocks, ToMap, EntriesOf, Valid, Value, Shaped, NodeBlocks;
    ghost var was, items := Value(list), ItemSet(list);
    r := InitList(level, list.hashLength, list.semaphores, list.endianness, alloc);
    if r.Done? {
      assert ItemSet(list) == items && ValidRoot(list) && Value(list) == was;
      EmptyValue<D>();
      MoveAll(list, r.value, alloc);
      ghost var now, others := Value(r.value), ItemSet(r.value);
      var freed := FreeList(list, true, alloc);
      assert ItemSet(r.value) == others && ValidRoot(r.value) && Value(r.value) == now;
    }
  }

  lemma {:induction false} EmptyValue<D>()
    ensures ToMap<D>([]) == map[] && Blocks<D>([]) == 0
  {
  }
}
