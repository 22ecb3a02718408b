/**
 * Traversals of the hash list (`mapList`) whose callback may change the data of the current item,
 * delete it or break off.
 */
module HashListTraversal {
  import opened Bytes
  import opened HashOrder
  import opened Entries
  import opened HashList
  import opened HashListOps

  // ---------------------------------------------------------------- one leaf

  lemma {:induction false} LeafView<D>(leaf: List<D>)
    requires Valid(leaf) && leaf.level == 0
    ensures leaf.leaves == {leaf} && Items(leaf) == leaf.chain && |Value(leaf)| == |leaf.chain|
    ensures forall i :: 0 <= i < |leaf.chain| ==> leaf.chain[i] in ItemSet(leaf)
    ensures AllDiffer(leaf.chain) && Linked(leaf)
    ensures forall i :: 0 <= i < |leaf.chain| ==> leaf.chain[i].leaf == leaf
    ensures forall i :: 0 <= i < |leaf.chain| ==> Value(leaf)[i] == Entry(leaf.chain[i].hash, leaf.chain[i].data)
  {
    LeafItems(leaf, leaf);
    ItemsDiffer(leaf);
    assert LeafValid(leaf);
    forall i | 0 <= i < |leaf.chain| ensures leaf.chain[i].leaf == leaf {
      assert ItemOk(leaf, leaf.chain[i]);
    }
  }

  /** One call of the callback on the item at position `k` of a leaf. */
  method VisitItem<A, D>(leaf: List<D>, item: Item<D>, acc: A, visit: (A, Hash, Option<D>) -> Visit<A, D>,
                         alloc: Allocator, ghost k: nat) returns (v: Visit<A, D>)
    requires Valid(leaf) && leaf.level == 0 && k < |leaf.chain| && leaf.chain[k] == item
    modifies leaf, ItemSet(leaf), alloc
    ensures Valid(leaf) && ItemSet(leaf) <= old(ItemSet(leaf))
    ensures v == visit(acc, old(Value(leaf))[k].hash, old(Value(leaf))[k].data)
    ensures leaf.chain == if v.delete then RemoveAt(old(leaf.chain), k) else old(leaf.chain)
    ensures Value(leaf) == if v.delete then RemoveAt(old(Value(leaf)), k)
                           else old(Value(leaf))[k := Entry(item.hash, v.data)]
    ensures alloc.Live() - Blocks(Value(leaf)) == old(alloc.Live() - Blocks(Value(leaf)))
  {
    hide Rank, ChainOk, Flatten, Blocks, ToMap, EntriesOf, Valid, Linked;
    LeafView(leaf);
    ghost var was, chain := Value(leaf), leaf.chain;
    v := visit(acc, item.hash, item.data);
    ghost var at := StoreData(item, v.data, alloc, leaf);
    LeafView(leaf);
    assert at == k;
    if v.delete {
      ghost var gone := DeleteItem(item, alloc, leaf);
      LeafView(leaf);
      assert gone == k;
      assert RemoveAt(was[k := Entry(item.hash, v.data)], k) == RemoveAt(was, k);
    }
  }

  /**
   * The state of the loop over one leaf: `current` is the item at position `k`, everything before it
   * has been kept, and what is left of the old entries `e` has still to be visited.
   */
  ghost predicate Progress<A, D>(leaf: List<D>, current: Item?<D>, acc: A, k: nat, e: seq<Entry<D>>, j: nat,
                                 goal: Swept<A, D>, visit: (A, Hash, Option<D>) -> Visit<A, D>)
    requires Valid(leaf)
    reads leaf, leaf.leaves, ItemSet(leaf)
  {
    var now := Value(leaf);
    && |now| == |leaf.chain| && k <= |now| && j <= |e| && current == Nth(leaf.chain, k)
    && now[k..] == e[j..]
    && After(now[..k], Sweep(e[j..], acc, visit)) == goal
  }

  lemma {:induction false} ProgressBegins<A, D>(leaf: List<D>, start: A, visit: (A, Hash, Option<D>) -> Visit<A, D>)
    requires Valid(leaf) && leaf.level == 0
    ensures Progress(leaf, leaf.firstItem, start, 0, Value(leaf), 0, Sweep(Value(leaf), start, visit), visit)
  {
  }

  lemma {:induction false} ProgressEnds<A, D>(leaf: List<D>, acc: A, k: nat, e: seq<Entry<D>>, j: nat,
                                              goal: Swept<A, D>, visit: (A, Hash, Option<D>) -> Visit<A, D>)
    requires Valid(leaf) && Progress(leaf, null, acc, k, e, j, goal, visit)
    ensures goal == Swept(acc, Value(leaf), false)
  {
  }

  /** One iteration; the successor is read before the callback may free the item. */
  method MapStep<A, D>(leaf: List<D>, item: Item<D>, acc: A, visit: (A, Hash, Option<D>) -> Visit<A, D>,
                       alloc: Allocator, ghost k: nat, ghost e: seq<Entry<D>>, ghost j: nat, ghost goal: Swept<A, D>)
    returns (v: Visit<A, D>, next: Item?<D>, ghost m: nat)
    requires Valid(leaf) && leaf.level == 0 && Progress(leaf, item, acc, k, e, j, goal, visit)
    modifies leaf, ItemSet(leaf), alloc
    ensures Valid(leaf) && ItemSet(leaf) <= old(ItemSet(leaf))
    ensures v.stop ==> goal == Swept(v.acc, Value(leaf), true)
    ensures !v.stop ==> Progress(leaf, next, v.acc, m, e, j + 1, goal, visit) && j < |e|
    ensures alloc.Live() - Blocks(Value(leaf)) == old(alloc.Live() - Blocks(Value(leaf)))
  {
    hide Rank, ChainOk, Flatten, Blocks, ToMap, EntriesOf, Valid, Sweep;
    LeafView(leaf);
    ghost var was := Value(leaf);
    assert was[k] == e[j] by { assert was[k] == was[k..][0]; assert e[j] == e[j..][0]; }
    next := item.nextInLeaf;
    v := VisitItem(leaf, item, acc, visit, alloc, k);
    LeafView(leaf);
    SweepStep(was[..k], e[j..], acc, visit);
    Stepped(was, Value(leaf), k, e, j, v);
    m := if v.delete then k else k + 1;
  }

  /** The loop of `mapList` over one leaf. */
  method MapLeaf<A, D>(leaf: List<D>, start: A, visit: (A, Hash, Option<D>) -> Visit<A, D>, alloc: Allocator)
    returns (acc: A, stopped: bool)
    requires Valid(leaf) && leaf.level == 0
    modifies leaf, ItemSet(leaf), alloc
    ensures Valid(leaf) && ItemSet(leaf) <= old(ItemSet(leaf))
    ensures Swept(acc, Value(leaf), stopped) == Sweep(old(Value(leaf)), start, visit)
    ensures alloc.Live() - Blocks(Value(leaf)) == old(alloc.Live() - Blocks(Value(leaf)))
  {
    hide Rank, ChainOk, Flatten, Blocks, ToMap, EntriesOf, Valid, Sweep, Progress, Value;
    ProgressBegins(leaf, start, visit);
    ghost var e, goal := Value(leaf), Sweep(Value(leaf), start, visit);
    ghost var k, j := 0, 0;
    acc, stopped := start, false;
    var current := leaf.firstItem;
    while current != null
      invariant Valid(leaf) && ItemSet(leaf) <= old(ItemSet(leaf))
      invariant j <= |e| && Progress(leaf, current, acc, k, e, j, goal, visit)
      invariant alloc.Live() - Blocks(Value(leaf)) == old(alloc.Live() - Blocks(Value(leaf)))
      decreases |e| - j
    {
      var v, next;
      v, next, k := MapStep(leaf, current, acc, visit, alloc, k, e, j, goal);
      acc := v.acc;
      if v.stop {
        stopped := true;
        return;
      }
      current, j := next, j + 1;
    }
    ProgressEnds(leaf, acc, k, e, j, goal, visit);
  }

  lemma {:induction false} AfterNothing<A, D>(s: Swept<A, D>)
    ensures After([], s) == s
  {
  }

  /** The value of a leaf before and after one call of the callback, cut at the current item. */
  lemma {:induction false} Stepped<A, D>(was: seq<Entry<D>>, now: seq<Entry<D>>, k: nat, e: seq<Entry<D>>, j: nat,
                                         v: Visit<A, D>)
    requires k < |was| && j < |e| && was[k..] == e[j..]
    requires now == if v.delete then RemoveAt(was, k) else was[k := Entry(was[k].hash, v.data)]
    ensures var here := if v.delete then [] else [Entry(e[j].hash, v.data)];
            var m := if v.delete then k else k + 1;
            now[..m] == was[..k] + here && now[m..] == e[j + 1..] == e[j..][1..]
    ensures now == was[..k] + (if v.delete then [] else [Entry(e[j].hash, v.data)]) + e[j..][1..]
  {
  }

  // ---------------------------------------------------------------- the tree above the leaves

  ghost function Concat<T>(parts: seq<seq<T>>): seq<T> {
    if parts == [] then [] else parts[0] + Concat(parts[1..])
  }

  lemma {:induction false} ConcatSplit<T>(parts: seq<seq<T>>, i: nat)
    requires i < |parts|
    ensures Concat(parts) == Concat(parts[..i]) + parts[i] + Concat(parts[i + 1..])
  {
    if i == 0 {
      assert parts[..0] == [];
    } else {
      ConcatSplit(parts[1..], i - 1);
      assert parts[1..][..i - 1] == parts[..i][1..];
      assert parts[1..][i..] == parts[i + 1..];
    }
  }

  /** Everything about the children of a valid node that a traversal relies on. */
  lemma {:induction false} ChildrenValid<D>(n: List<D>)
    requires Valid(n) && n.level > 0
    ensures |n.children| == FANOUT
    ensures forall i :: 0 <= i < FANOUT ==> Valid(n.children[i]) && n.children[i].level == n.level - 1
    ensures forall i :: 0 <= i < FANOUT ==> n.children[i].leaves <= n.leaves && ItemSet(n.children[i]) <= ItemSet(n)
    ensures forall i, j :: 0 <= i < FANOUT && 0 <= j < FANOUT && i != j ==>
      n.children[i].leaves !! n.children[j].leaves && ItemSet(n.children[i]) !! ItemSet(n.children[j])
  {
    hide ChainOk, Linked, Flatten;
    forall i | 0 <= i < FANOUT
      ensures Valid(n.children[i]) && n.children[i].level == n.level - 1
      ensures n.children[i].leaves <= n.leaves && ItemSet(n.children[i]) <= ItemSet(n)
    {
      assert Made(n.children[i], n.path + [i], n.level - 1, n.hashLength, n.semaphores, n.endianness);
    }
    forall i, j | 0 <= i < FANOUT && 0 <= j < FANOUT && i != j
      ensures n.children[i].leaves !! n.children[j].leaves && ItemSet(n.children[i]) !! ItemSet(n.children[j])
    {
      ChildrenDisjoint(n, i, j);
      forall item | item in ItemSet(n.children[i]) && item in ItemSet(n.children[j]) ensures false {
        var k := Whereabouts(n.children[i], item);
        var m := Whereabouts(n.children[j], item);
      }
    }
  }

  /** The value of a node is the values of its children in a row. */
  lemma {:induction false} ValueOfNode<D>(n: List<D>, parts: seq<seq<Entry<D>>>)
    requires Valid(n) && n.level > 0 && |parts| == FANOUT
    requires forall i :: 0 <= i < FANOUT ==> Valid(n.children[i]) && Value(n.children[i]) == parts[i]
    ensures Value(n) == Concat(parts)
  {
    hide ChainOk, Linked;
    ValueFromChild(n, parts, 0);
    assert parts[0..] == parts;
  }

  lemma {:induction false} ValueFromChild<D>(n: List<D>, parts: seq<seq<Entry<D>>>, i: nat)
    requires Valid(n) && n.level > 0 && |parts| == FANOUT && i <= FANOUT
    requires forall j :: 0 <= j < FANOUT ==> Valid(n.children[j]) && Value(n.children[j]) == parts[j]
    ensures EntriesOf(FlattenFrom(n, i, ChainsOf(n))) == Concat(parts[i..])
    decreases FANOUT - i
  {
    hide ChainOk, Linked, Valid, Flatten;
    RootFits(n);
    if i < FANOUT {
      ValueFromChild(n, parts, i + 1);
      var kid := n.children[i];
      assert Made(kid, n.path + [i], n.level - 1, n.hashLength, n.semaphores, n.endianness);
      FlattenAgree(kid, ChainsOf(n), ChainsOf(kid));
      EntriesOfConcat(Flatten(kid, ChainsOf(n)), FlattenFrom(n, i + 1, ChainsOf(n)));
      assert parts[i..][0] == parts[i] && parts[i..][1..] == parts[i + 1..];
    }
  }

  lemma {:induction false} EntriesOfConcat<D>(s: seq<Item<D>>, t: seq<Item<D>>)
    ensures EntriesOf(s + t) == EntriesOf(s) + EntriesOf(t)
  {
  }

  /** The value of node `n` is `parts`, child by child. */
  ghost predicate InParts<D>(n: List<D>, parts: seq<seq<Entry<D>>>)
    requires Valid(n) && n.level > 0
    reads n.leaves, ItemSet(n)
  {
    ChildrenValid(n);
    |parts| == FANOUT && forall i :: 0 <= i < FANOUT ==> Value(n.children[i]) == parts[i]
  }

  /** The state of the loop over the children: those before `i` have been traversed. */
  ghost predicate Halfway<A, D>(parts: seq<seq<Entry<D>>>, i: nat, acc: A, goal: Swept<A, D>,
                                visit: (A, Hash, Option<D>) -> Visit<A, D>)
  {
    i <= |parts| && After(Concat(parts[..i]), Sweep(Concat(parts[i..]), acc, visit)) == goal
  }

  lemma {:induction false} HalfwayStep<A, D>(parts: seq<seq<Entry<D>>>, i: nat, acc: A, goal: Swept<A, D>,
                                             visit: (A, Hash, Option<D>) -> Visit<A, D>, r: Swept<A, D>)
    requires i < |parts| && Halfway(parts, i, acc, goal, visit) && r == Sweep(parts[i], acc, visit)
    ensures !r.stopped ==> Halfway(parts[i := r.kept], i + 1, r.acc, goal, visit)
    ensures r.stopped ==> goal == Swept(r.acc, Concat(parts[i := r.kept]), true)
    ensures Blocks(Concat(parts[i := r.kept])) - Blocks(r.kept) == Blocks(Concat(parts)) - Blocks(parts[i])
  {
    hide Sweep, Blocks, Concat;
    var before, after := Concat(parts[..i]), Concat(parts[i + 1..]);
    PartReplaced(parts, i, r.kept);
    BlocksAround(before, parts[i], after);
    BlocksAround(before, r.kept, after);
    SweepConcat(parts[i], after, acc, visit);
    if r.stopped {
      assert before + (r.kept + after) == before + r.kept + after;
    } else {
      var b := Sweep(after, r.acc, visit);
      assert before + (r.kept + b.kept) == (before + r.kept) + b.kept;
    }
  }

  /** Around part `i`, and around what takes its place. */
  lemma {:induction false} PartReplaced<T>(parts: seq<seq<T>>, i: nat, part: seq<T>)
    requires i < |parts|
    ensures var before, after, next := Concat(parts[..i]), Concat(parts[i + 1..]), parts[i := part];
      && Concat(parts) == before + parts[i] + after && Concat(parts[i..]) == parts[i] + after
      && Concat(next) == before + part + after && Concat(next[..i + 1]) == before + part
      && Concat(next[i + 1..]) == after
  {
    hide Concat;
    var next := parts[i := part];
    ConcatSplit(parts, i);
    ConcatSplit(next, i);
    ConcatSplit(next[..i + 1], i);
    assert next[..i] == parts[..i] && next[i + 1..] == parts[i + 1..];
    assert next[..i + 1][..i] == parts[..i] && next[..i + 1][i + 1..] == [];
    ConcatFirst(parts[i..]);
    NoParts(next[..i + 1][i + 1..]);
    assert parts[i..][0] == parts[i] && parts[i..][1..] == parts[i + 1..];
  }

  lemma {:induction false} ConcatFirst<T>(parts: seq<seq<T>>)
    requires parts != []
    ensures Concat(parts) == parts[0] + Concat(parts[1..])
  {
  }

  lemma {:induction false} NoParts<T>(parts: seq<seq<T>>)
    requires parts == []
    ensures Concat(parts) == []
  {
  }

  lemma {:induction false} BlocksAround<D>(a: seq<Entry<D>>, b: seq<Entry<D>>, c: seq<Entry<D>>)
    ensures Blocks(a + b + c) == Blocks(a) + Blocks(b) + Blocks(c)
  {
    hide Blocks;
    BlocksConcat(a, b);
    BlocksConcat(a + b, c);
  }

  /** `mapList`: a traversal with a callback that may change, delete and break off. */
  method MapList<A, D>(n: List<D>, start: A, visit: (A, Hash, Option<D>) -> Visit<A, D>, alloc: Allocator)
    returns (acc: A, stopped: bool)
    requires Valid(n)
    modifies n.leaves, ItemSet(n), alloc
    ensures Valid(n) && ItemSet(n) <= old(ItemSet(n))
    ensures Swept(acc, Value(n), stopped) == Sweep(old(Value(n)), start, visit)
    ensures alloc.Live() - Blocks(Value(n)) == old(alloc.Live() - Blocks(Value(n)))
    decreases n.level, 0
  {
    hide Rank, ChainOk, Flatten, Blocks, ToMap, EntriesOf, Valid, Sweep, Value, Halfway, InParts;
    if n.level > 0 {
      ghost var parts := Partition(n);
      ghost var goal := Sweep(Value(n), start, visit);
      HalfwayBegins(n, parts, start, visit);
      acc, stopped := start, false;
      var i := 0;
      while i < FANOUT
        invariant i <= FANOUT
        invariant Valid(n) && ItemSet(n) <= old(ItemSet(n)) && InParts(n, parts)
        invariant Halfway(parts, i, acc, goal, visit)
        invariant alloc.Live() - Blocks(Value(n)) == old(alloc.Live() - Blocks(Value(n)))
      {
        acc, stopped, parts := MapChild(n, i, acc, visit, alloc, parts, goal);
        if stopped {
          return;
        }
        i := i + 1;
      }
      HalfwayEnds(n, parts, acc, goal, visit);
    } else {
      LeafView(n);
      acc, stopped := MapLeaf(n, start, visit, alloc);
    }
  }

  lemma {:induction false} PartsOf<D>(n: List<D>, k: nat) returns (parts: seq<seq<Entry<D>>>)
    requires k <= |n.children| && forall i :: 0 <= i < k ==> Valid(n.children[i])
    ensures |parts| == k && forall i :: 0 <= i < k ==> Value(n.children[i]) == parts[i]
  {
    hide Valid, Value;
    if k == 0 {
      parts := [];
    } else {
      var before := PartsOf(n, k - 1);
      parts := before + [Value(n.children[k - 1])];
    }
  }

  lemma {:induction false} Partition<D>(n: List<D>) returns (parts: seq<seq<Entry<D>>>)
    requires Valid(n) && n.level > 0
    ensures InParts(n, parts) && Value(n) == Concat(parts)
  {
    ChildrenValid(n);
    parts := PartsOf(n, FANOUT);
    ValueOfNode(n, parts);
  }

  lemma {:induction false} HalfwayBegins<A, D>(n: List<D>, parts: seq<seq<Entry<D>>>, start: A,
                                               visit: (A, Hash, Option<D>) -> Visit<A, D>)
    requires Valid(n) && n.level > 0 && InParts(n, parts)
    ensures Halfway(parts, 0, start, Sweep(Value(n), start, visit), visit)
  {
    hide Sweep, Valid;
    ChildrenValid(n);
    ValueOfNode(n, parts);
    assert parts[..0] == [] && parts[0..] == parts;
    AfterNothing(Sweep(Value(n), start, visit));
  }

  lemma {:induction false} HalfwayEnds<A, D>(n: List<D>, parts: seq<seq<Entry<D>>>, acc: A, goal: Swept<A, D>,
                                             visit: (A, Hash, Option<D>) -> Visit<A, D>)
    requires Valid(n) && n.level > 0 && InParts(n, parts) && Halfway(parts, FANOUT, acc, goal, visit)
    ensures goal == Swept(acc, Value(n), false)
  {
    hide Valid;
    ChildrenValid(n);
    ValueOfNode(n, parts);
    assert parts[..FANOUT] == parts && parts[FANOUT..] == [];
    assert Concat(parts) + [] == Concat(parts);
  }

  /** One iteration of the loop over the children. */
  method MapChild<A, D>(n: List<D>, i: nat, start: A, visit: (A, Hash, Option<D>) -> Visit<A, D>, alloc: Allocator,
                        ghost parts: seq<seq<Entry<D>>>, ghost goal: Swept<A, D>)
    returns (acc: A, stopped: bool, ghost next: seq<seq<Entry<D>>>)
    requires Valid(n) && n.level > 0 && i < FANOUT && InParts(n, parts) && Halfway(parts, i, start, goal, visit)
    modifies n.leaves, ItemSet(n), alloc
    ensures Valid(n) && ItemSet(n) <= old(ItemSet(n)) && InParts(n, next)
    ensures stopped ==> goal == Swept(acc, Value(n), true)
    ensures !stopped ==> Halfway(next, i + 1, acc, goal, visit)
    ensures alloc.Live() - Blocks(Value(n)) == old(alloc.Live() - Blocks(Value(n)))
    decreases n.level - 1, 1
  {
    hide Rank, ChainOk, Flatten, Blocks, ToMap, EntriesOf, Valid, Sweep, Value, Halfway, Shaped;
    ChildrenValid(n);
    ValueOfNode(n, parts);
    RootFits(n);
    acc, stopped := MapList(n.children[i], start, visit, alloc);
    next := parts[i := Value(n.children[i])];
    NodeFromChildren(n);
    ValueOfNode(n, next);
    HalfwayStep(parts, i, start, goal, visit, Swept(acc, next[i], stopped));
  }

  lemma {:induction false} NodeFromChildren<D>(n: List<D>)
    requires Shaped(n) && n.level > 0 && forall i :: 0 <= i < FANOUT ==> Valid(n.children[i])
    ensures Valid(n)
  {
  }
}
