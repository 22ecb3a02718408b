/** Whole runs of list operations: the map they amount to, and that no memory is lost. */
module HashListRun {
  import opened Bytes
  import opened HashOrder
  import opened Entries
  import opened HashList
  import opened HashListOps
  import opened HashListTraversal
  import opened HashListRebuild

  /** What a traversal's callback does to one item. */
  datatype Verdict<+D> = Drop | Keep(data: Option<D>)

  /**
   * `setHash`, `setHash` with new data for the item, `deleteHash`, `reInitList`, and `mapList` with a callback
   * that deletes items or gives them new data.
   */
  datatype Op<!D> =
    | Set(hash: Hash)
    | Store(hash: Hash, data: Option<D>)
    | Delete(hash: Hash)
    | Rebuild(level: nat)
    | Traverse(callback: (Hash, Option<D>) -> Verdict<D>)

  /** What one operation does to a finite map. */
  function Applied<D>(m: map<Hash, Option<D>>, op: Op<D>): map<Hash, Option<D>> {
    match op
    case Set(h) => if h in m then m else m[h := None]
    case Store(h, data) => m[h := data]
    case Delete(h) => m - {h}
    case Rebuild(_) => m
    case Traverse(callback) => map h | h in m && callback(h, m[h]).Keep? :: callback(h, m[h]).data
  }

  function Meaning<D>(ops: seq<Op<D>>): map<Hash, Option<D>> {
    if |ops| == 0 then map[] else Applied(Meaning(ops[..|ops| - 1]), ops[|ops| - 1])
  }

  /** The hashes have the list's length, and no level is asked for that `initList` refuses. */
  predicate Suits<D>(op: Op<D>, hashLength: nat) {
    match op
    case Set(h) => |h| == hashLength
    case Store(h, _) => |h| == hashLength
    case Delete(h) => |h| == hashLength
    case Rebuild(level) => level <= LIMIT_LEVEL && level <= hashLength
    case Traverse(_) => true
  }

  /** The list stands for the map `m`, and everything allocated since `live` is in it. */
  ghost predicate StandsFor<D>(list: List<D>, m: map<Hash, Option<D>>, hashLength: nat, semaphores: SemaphoreMode,
                               endianness: Endianness, alloc: Allocator, live: int)
    reads list.leaves, ItemSet(list), alloc
  {
    && ValidRoot(list) && list.hashLength == hashLength && list.semaphores == semaphores
      && list.endianness == endianness
    && ToMap(Value(list)) == m
    && alloc.Live() == live + StructBlocks(list.level, semaphores) + Blocks(Value(list))
  }

  /** The callback of `mapList` that carries out the verdicts. */
  function Visitor<D>(callback: (Hash, Option<D>) -> Verdict<D>): ((), Hash, Option<D>) -> Visit<(), D> {
    (acc: (), h: Hash, data: Option<D>) =>
      match callback(h, data)
      case Drop => Visit(acc, data, true, false)
      case Keep(x) => Visit(acc, x, false, false)
  }

  /** A traversal carries out every verdict, whatever the order of the items. */
  lemma {:induction false} VerdictsCarriedOut<D>(e: seq<Entry<D>>, callback: (Hash, Option<D>) -> Verdict<D>)
    requires Distinct(e)
    ensures var r := Sweep(e, (), Visitor(callback));
      !r.stopped && ToMap(r.kept) == Applied(ToMap(e), Traverse(callback))
  {
    hide ToMap;
    if e == [] {
      EmptyValue<D>();
    } else {
      var rest := e[1..];
      assert e == [e[0]] + rest;
      ToMapConcat([e[0]], rest);
      StretchesDisjoint([e[0]], rest);
      VerdictsCarriedOut(rest, callback);
      SingleMap(e[0]);
      var r := Sweep(rest, (), Visitor(callback));
      match callback(e[0].hash, e[0].data)
      case Drop =>
        assert [] + r.kept == r.kept;
      case Keep(x) =>
        SingleMap(Entry(e[0].hash, x));
        ToMapConcat([Entry(e[0].hash, x)], r.kept);
    }
  }

  lemma {:induction false} SingleMap<D>(x: Entry<D>)
    ensures ToMap([x]) == map[x.hash := x.data]
  {
    assert [x][..0] == [];
  }

  /** `mapList` with such a callback. */
  method TraverseList<D>(list: List<D>, callback: (Hash, Option<D>) -> Verdict<D>, alloc: Allocator)
    requires ValidRoot(list)
    modifies list.leaves, ItemSet(list), alloc
    ensures ValidRoot(list) && ItemSet(list) <= old(ItemSet(list))
    ensures ToMap(Value(list)) == Applied(old(ToMap(Value(list))), Traverse(callback))
    ensures alloc.Live() - Blocks(Value(list)) == old(alloc.Live() - Blocks(Value(list)))
  {
    hide ToMap, Value, Valid, Blocks, Sweep, Applied;
    ValueInPlace(list);
    VerdictsCarriedOut(Value(list), callback);
    var acc, stopped := MapList(list, (), Visitor(callback), alloc);
  }

  /** One operation on the list; a rebuild hands out another list. */
  method Perform<D>(list: List<D>, op: Op<D>, alloc: Allocator, ghost m: map<Hash, Option<D>>, ghost live: int)
    returns (now: List<D>)
    requires StandsFor(list, m, list.hashLength, list.semaphores, list.endianness, alloc, live)
    requires Suits(op, list.hashLength)
    modifies list.leaves, ItemSet(list), alloc
    ensures StandsFor(now, Applied(m, op), list.hashLength, list.semaphores, list.endianness, alloc, live)
    ensures now == list || fresh(now.leaves)
    ensures fresh(ItemSet(now) - old(ItemSet(list)))
  {
    hide ToMap, Value, Valid, Blocks, StructBlocks, NodeBlocks, Shaped;
    now := list;
    match op {
      case Set(h) =>
        var item := SetHash(list, h, alloc);
        assert ToMap(Value(list)) == Applied(m, op);
      case Store(h, data) =>
        var item := SetHash(list, h, alloc);
        ghost var at := StoreData(item, data, alloc, list);
        assert ToMap(Value(list)) == Applied(m, op);
      case Delete(h) =>
        DeleteHash(list, h, alloc);
      case Rebuild(level) =>
        var r := ReInitList(list, level, alloc);
        now := r.value;
      case Traverse(callback) =>
        TraverseList(list, callback, alloc);
    }
  }

  /** An empty map has an empty list. */
  lemma {:induction false} EmptyMap<D>(e: seq<Entry<D>>)
    requires ToMap(e) == map[]
    ensures e == [] && Blocks(e) == 0
  {
    if e != [] {
      ToMapDomain(e, e[0].hash);
    }
  }

  lemma {:induction false} NextMeaning<D>(ops: seq<Op<D>>, i: nat)
    requires i < |ops|
    ensures Meaning(ops[..i + 1]) == Applied(Meaning(ops[..i]), ops[i])
    ensures Meaning<D>([]) == map[]
  {
    assert ops[..i + 1][..i] == ops[..i];
  }

  /**
   * Any run of operations on a new list, of any level, byte order and semaphore mode, leaves the list
   * with the map the run amounts to; and the allocation counters account for exactly that list.
   */
  method RunList<D>(level: nat, hashLength: nat, semaphores: SemaphoreMode, endianness: Endianness, ops: seq<Op<D>>,
                    alloc: Allocator)
    returns (list: List<D>)
    requires level <= LIMIT_LEVEL && level <= hashLength && forall i :: 0 <= i < |ops| ==> Suits(ops[i], hashLength)
    modifies alloc
    ensures fresh(list.leaves) && fresh(ItemSet(list))
    ensures StandsFor(list, Meaning(ops), hashLength, semaphores, endianness, alloc, old(alloc.Live()))
  {
    hide StandsFor, Meaning, Applied, Suits, Valid, Value;
    ghost var live := alloc.Live();
    var r := InitList<D>(level, hashLength, semaphores, endianness, alloc);
    list := r.value;
    assert ops[..0] == [];
    StartsEmpty(list, hashLength, semaphores, endianness, alloc, live);
    var i := 0;
    while i < |ops|
      invariant i <= |ops| && fresh(list.leaves) && fresh(ItemSet(list))
      invariant StandsFor(list, Meaning(ops[..i]), hashLength, semaphores, endianness, alloc, live)
    {
      NextMeaning(ops, i);
      SameMake(list, Meaning(ops[..i]), hashLength, semaphores, endianness, alloc, live);
      list := Perform(list, ops[i], alloc, Meaning(ops[..i]), live);
      i := i + 1;
    }
    assert ops[..i] == ops;
  }

  lemma {:induction false} StartsEmpty<D>(list: List<D>, hashLength: nat, semaphores: SemaphoreMode,
                                          endianness: Endianness, alloc: Allocator, live: int)
    requires ValidRoot(list) && Made(list, [], list.level, hashLength, semaphores, endianness) && Value(list) == []
    requires alloc.Live() == live + StructBlocks(list.level, semaphores)
    ensures StandsFor(list, Meaning<D>([]), hashLength, semaphores, endianness, alloc, live)
  {
  }

  lemma {:induction false} SameMake<D>(list: List<D>, m: map<Hash, Option<D>>, hashLength: nat,
                                       semaphores: SemaphoreMode, endianness: Endianness, alloc: Allocator, live: int)
    requires StandsFor(list, m, hashLength, semaphores, endianness, alloc, live)
    ensures list.hashLength == hashLength && list.semaphores == semaphores && list.endianness == endianness
  {
  }

  /** A run that ends with nothing in the list, then `freeList`: the process goes on and no block is left. */
  method RunAndFree<D>(level: nat, hashLength: nat, semaphores: SemaphoreMode, endianness: Endianness, ops: seq<Op<D>>,
                       alloc: Allocator)
    returns (r: Outcome<()>)
    requires level <= LIMIT_LEVEL && level <= hashLength && forall i :: 0 <= i < |ops| ==> Suits(ops[i], hashLength)
    modifies alloc
    ensures r == Done(()) <==> Meaning(ops) == map[]
    ensures r == Done(()) ==> alloc.Live() == old(alloc.Live())
  {
    hide Meaning, Suits, ToMap, Valid, Value, Blocks, NodeBlocks;
    var list := RunList(level, hashLength, semaphores, endianness, ops, alloc);
    EmptyValue<D>();
    if Meaning(ops) == map[] {
      EmptyMap(Value(list));
    }
    r := FreeList(list, true, alloc);
  }
}
