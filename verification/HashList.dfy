/**
 * The hash list of list.c: a 256-way tree of level 0 to 2 whose leaves are doubly linked chains of
 * items kept in `memcmp` order.
 *
 * The tree itself never changes after `initList`, so its shape lives in `const` fields. Every node
 * carries the ghost path of bytes that leads to it, and every item the leaf that owns it (as in C);
 * two nodes with different paths, or two items of different leaves, are therefore different objects.
 */
module HashList {
  import opened Bytes
  import opened HashOrder

  const LIMIT_LEVEL := 2
  const FANOUT := 256

  /** The counters of alloc.c. */
  class Allocator {
    var countMalloc: nat
    var countCalloc: nat
    var countFree: nat

    function Live(): int
      reads this
    {
      countMalloc + countCalloc - countFree
    }

    constructor ()
      ensures Live() == 0
    {
      countMalloc, countCalloc, countFree := 0, 0, 0;
    }
  }

  /** Which semaphores a list allocates (LIST_SEMAPHORE_ENABLE_LEAF, LIST_SEMAPHORE_ENABLE_GLOBAL). */
  datatype SemaphoreMode = SemaphoreMode(leaf: bool, global: bool)

  class Item<D> {
    const hash: Hash
    const leaf: List<D>
    var previousInLeaf: Item?<D>
    var nextInLeaf: Item?<D>
    var data: Option<D>

    constructor (hash: Hash, leaf: List<D>, previousInLeaf: Item?<D>, nextInLeaf: Item?<D>)
      ensures this.hash == hash && this.leaf == leaf && data == None
      ensures this.previousInLeaf == previousInLeaf && this.nextInLeaf == nextInLeaf
    {
      this.hash, this.leaf, data := hash, leaf, None;
      this.previousInLeaf, this.nextInLeaf := previousInLeaf, nextInLeaf;
    }
  }

  class List<D> {
    const level: nat
    const hashLength: nat
    const semaphores: SemaphoreMode
    const endianness: Endianness
    const children: seq<List<D>>
    ghost const path: Hash
    ghost const leaves: set<List<D>>
    var firstItem: Item?<D>
    ghost var chain: seq<Item<D>>

    /** `initList` below its two checks: the node at the end of `path`, with its whole subtree. */
    constructor Build(ghost path: Hash, level: nat, nest: nat, hashLength: nat, semaphores: SemaphoreMode,
                      endianness: Endianness, alloc: Allocator)
      requires nest == |path| && nest + level <= hashLength
      modifies alloc
      ensures Made(this, path, level, hashLength, semaphores, endianness)
      ensures Vacant(this) && fresh(this.leaves)
      ensures alloc.Live() == old(alloc.Live()) + NodeBlocks(level, nest == 0, semaphores)
      decreases level, 1
    {
      var kids: seq<List<D>> := [];
      ghost var below: set<List<D>> := {};
      if level > 0 {
        alloc.countCalloc := alloc.countCalloc + 1;
        kids, below := BuildChildren(path, level - 1, nest + 1, hashLength, semaphores, endianness, alloc);
      }
      if (level == 0 && semaphores.leaf) || (nest == 0 && semaphores.global) {
        alloc.countCalloc := alloc.countCalloc + 1;
      }
      this.path, this.level, this.hashLength := path, level, hashLength;
      this.semaphores, this.endianness, this.children := semaphores, endianness, kids;
      this.firstItem, this.chain := null, [];
      if level == 0 {
        this.leaves := {this};
      } else {
        this.leaves := below;
      }
    }

    static method BuildChildren(ghost path: Hash, level: nat, nest: nat, hashLength: nat, semaphores: SemaphoreMode,
                                endianness: Endianness, alloc: Allocator)
      returns (kids: seq<List<D>>, ghost leaves: set<List<D>>)
      requires nest == |path| + 1 && nest + level <= hashLength
      modifies alloc
      ensures |kids| == FANOUT
      ensures forall i :: 0 <= i < FANOUT ==> Made(kids[i], path + [i], level, hashLength, semaphores, endianness)
      ensures forall i :: 0 <= i < FANOUT ==> kids[i].leaves <= leaves
      ensures forall l :: l in leaves ==> exists i :: 0 <= i < FANOUT && l in kids[i].leaves
      ensures fresh(leaves) && forall l :: l in leaves ==> l.chain == [] && l.firstItem == null
      ensures alloc.Live() == old(alloc.Live()) + Times(FANOUT, NodeBlocks(level, false, semaphores))
      decreases level, 2
    {
      kids := [];
      ghost var each := NodeBlocks(level, false, semaphores);
      leaves := {};
      while |kids| < FANOUT
        invariant |kids| <= FANOUT
        invariant forall i :: 0 <= i < |kids| ==> Made(kids[i], path + [i], level, hashLength, semaphores, endianness)
        invariant forall i :: 0 <= i < |kids| ==> kids[i].leaves <= leaves
        invariant forall l :: l in leaves ==> exists i :: 0 <= i < |kids| && l in kids[i].leaves
        invariant fresh(leaves)
        invariant forall l :: l in leaves ==> l.chain == [] && l.firstItem == null
        invariant alloc.Live() == old(alloc.Live()) + Times(|kids|, each)
      {
        var kid := new List<D>.Build(path + [|kids|], level, nest, hashLength, semaphores, endianness, alloc);
        leaves := leaves + kid.leaves;
        kids := kids + [kid];
      }
    }
  }

  /** `n` is a well-formed node with these parameters at the end of `path`. */
  ghost predicate Made<D>(n: List<D>, path: Hash, level: nat, hashLength: nat, semaphores: SemaphoreMode,
                          endianness: Endianness)
    decreases level, 1
  {
    && n.path == path && n.level == level && n.hashLength == hashLength
    && n.semaphores == semaphores && n.endianness == endianness
    && Shaped(n)
  }

  /** `count` times `each`. */
  function Times(count: nat, each: nat): nat {
    if count == 0 then 0 else Times(count - 1, each) + each
  }

  /** The blocks of a node and its subtree, without the root's own struct. */
  function NodeBlocks(level: nat, root: bool, semaphores: SemaphoreMode): nat
  {
    (if level == 0 then 0 else 1 + Times(FANOUT, NodeBlocks(level - 1, false, semaphores)))
    + if (level == 0 && semaphores.leaf) || (root && semaphores.global) then 1 else 0
  }

  // ---------------------------------------------------------------- the constant shape

  ghost predicate Shaped<D>(n: List<D>)
    decreases n.level, 0
  {
    && |n.path| + n.level <= n.hashLength
    && if n.level == 0 then n.children == [] && n.leaves == {n}
       else
         && |n.children| == FANOUT
         && (forall i :: 0 <= i < FANOUT ==>
               Made(n.children[i], n.path + [i], n.level - 1, n.hashLength, n.semaphores, n.endianness))
         && (forall i :: 0 <= i < FANOUT ==> n.children[i].leaves <= n.leaves)
         && (forall l :: l in n.leaves ==> exists i :: 0 <= i < FANOUT && l in n.children[i].leaves)
  }

  ghost predicate Vacant<D>(n: List<D>)
    reads n.leaves
  {
    forall l :: l in n.leaves ==> l.chain == [] && l.firstItem == null
  }

  /** The node reached from `n` by the rest of the path `p`. */
  ghost function Descend<D>(n: List<D>, p: Hash): List<D>
    requires Shaped(n) && n.path <= p && |p| == |n.path| + n.level
    decreases n.level
  {
    if n.level == 0 then n else Descend(Step(n, p), p)
  }

  ghost function Step<D>(n: List<D>, p: Hash): (kid: List<D>)
    requires Shaped(n) && n.level > 0 && n.path <= p && |p| == |n.path| + n.level
    ensures Shaped(kid) && kid.level == n.level - 1 && kid.path <= p && |p| == |kid.path| + kid.level
  {
    var kid := n.children[p[|n.path|]];
    assert Made(kid, n.path + [p[|n.path|]], n.level - 1, n.hashLength, n.semaphores, n.endianness);
    kid
  }

  lemma {:induction false} DescendIsLeaf<D>(n: List<D>, p: Hash)
    requires Shaped(n) && n.path <= p && |p| == |n.path| + n.level
    ensures Descend(n, p) in n.leaves && Descend(n, p).path == p
    decreases n.level
  {
    if n.level > 0 {
      DescendIsLeaf(Step(n, p), p);
    } else {
      assert n.path == p;
    }
  }

  /** A leaf is found by its path: no two leaves of one list share a path. */
  lemma {:induction false} LeafByPath<D>(n: List<D>, l: List<D>)
    requires Shaped(n) && l in n.leaves
    ensures l.level == 0 && Shaped(l) && n.path <= l.path && |l.path| == |n.path| + n.level
    ensures l.hashLength == n.hashLength && l.endianness == n.endianness
    ensures Descend(n, l.path) == l
    decreases n.level
  {
    if n.level > 0 {
      var i :| 0 <= i < |n.children| && l in n.children[i].leaves;
      assert Made(n.children[i], n.path + [i], n.level - 1, n.hashLength, n.semaphores, n.endianness);
      LeafByPath(n.children[i], l);
      assert l.path[|n.path|] == i;
    }
  }

  /** The leaves below two different children are different. */
  lemma {:induction false} ChildrenDisjoint<D>(n: List<D>, i: nat, j: nat)
    requires Shaped(n) && n.level > 0 && i < FANOUT && j < FANOUT && i != j
    ensures n.children[i].leaves !! n.children[j].leaves
  {
    forall l | l in n.children[i].leaves && l in n.children[j].leaves ensures false {
      ChildLeaf(n, i, l);
      ChildLeaf(n, j, l);
    }
  }

  lemma {:induction false} ChildLeaf<D>(n: List<D>, i: nat, l: List<D>)
    requires Shaped(n) && n.level > 0 && i < FANOUT && l in n.children[i].leaves
    ensures Shaped(n.children[i]) && n.children[i].level == n.level - 1
    ensures l in n.leaves && |l.path| > |n.path| && l.path[|n.path|] == i
  {
    assert Made(n.children[i], n.path + [i], n.level - 1, n.hashLength, n.semaphores, n.endianness);
    LeafByPath(n.children[i], l);
  }

  // ---------------------------------------------------------------- chains and their concatenation

  type Chains<D> = map<List<D>, seq<Item<D>>>

  /** The items below `n`, leaf by leaf, when the leaves hold the given chains. */
  ghost function Flatten<D>(n: List<D>, c: Chains<D>): seq<Item<D>>
    decreases n.level, |n.children| + 1
  {
    if n.level == 0 then (if n in c then c[n] else []) else FlattenFrom(n, 0, c)
  }

  ghost function FlattenFrom<D>(n: List<D>, i: nat, c: Chains<D>): seq<Item<D>>
    requires i <= |n.children|
    decreases n.level, |n.children| - i
  {
    if i == |n.children| || n.children[i].level >= n.level then []
    else Flatten(n.children[i], c) + FlattenFrom(n, i + 1, c)
  }

  lemma {:induction false} FlattenAgree<D>(n: List<D>, c: Chains<D>, d: Chains<D>)
    requires Shaped(n)
    requires forall l :: l in n.leaves ==> l in c && l in d && c[l] == d[l]
    ensures Flatten(n, c) == Flatten(n, d)
    decreases n.level, |n.children| + 1
  {
    if n.level > 0 {
      FlattenFromAgree(n, 0, c, d);
    } else {
      assert n in n.leaves;
    }
  }

  lemma {:induction false} FlattenFromAgree<D>(n: List<D>, i: nat, c: Chains<D>, d: Chains<D>)
    requires Shaped(n) && n.level > 0 && i <= FANOUT
    requires forall j, l :: i <= j < FANOUT && l in n.children[j].leaves ==> l in c && l in d && c[l] == d[l]
    ensures FlattenFrom(n, i, c) == FlattenFrom(n, i, d)
    decreases n.level, |n.children| - i
  {
    if i < FANOUT {
      assert Made(n.children[i], n.path + [i], n.level - 1, n.hashLength, n.semaphores, n.endianness);
      FlattenAgree(n.children[i], c, d);
      FlattenFromAgree(n, i + 1, c, d);
    }
  }

  lemma {:induction false} ChildShape<D>(n: List<D>, i: nat)
    requires Shaped(n) && n.level > 0 && i < FANOUT
    ensures |n.children| == FANOUT && Shaped(n.children[i]) && n.children[i].level == n.level - 1
    ensures n.children[i].leaves <= n.leaves
  {
  }

  lemma {:induction false} Associate<T>(a: seq<T>, b: seq<T>, c: seq<T>, d: seq<T>)
    ensures (a + b + c) + d == a + b + (c + d)
    ensures a + (b + c + d) == a + b + c + d
  {
  }

  /** Changing one leaf changes one stretch of the whole. */
  lemma {:induction false} FlattenUpdate<D>(n: List<D>, c: Chains<D>, l: List<D>, s: seq<Item<D>>)
    returns (before: seq<Item<D>>, after: seq<Item<D>>)
    requires Shaped(n) && l in n.leaves && n.leaves <= c.Keys
    ensures Flatten(n, c) == before + c[l] + after
    ensures Flatten(n, c[l := s]) == before + s + after
    decreases n.level, |n.children| + 1
  {
    if n.level == 0 {
      before, after := [], [];
    } else {
      var i :| 0 <= i < |n.children| && l in n.children[i].leaves;
      before, after := FlattenFromUpdate(n, 0, c, l, s, i);
    }
  }

  lemma {:induction false} FlattenFromUpdate<D>(n: List<D>, j: nat, c: Chains<D>, l: List<D>, s: seq<Item<D>>, i: nat)
    returns (before: seq<Item<D>>, after: seq<Item<D>>)
    requires Shaped(n) && n.level > 0 && j <= i < FANOUT && l in n.children[i].leaves && n.leaves <= c.Keys
    requires l in c
    ensures FlattenFrom(n, j, c) == before + c[l] + after
    ensures FlattenFrom(n, j, c[l := s]) == before + s + after
    decreases n.level, |n.children| - j
  {
    hide Shaped;
    var d := c[l := s];
    ChildShape(n, i);
    ChildShape(n, j);
    forall k, m | 0 <= k < FANOUT && k != i && m in n.children[k].leaves ensures m in c && m in d && c[m] == d[m] {
      ChildLeaf(n, i, l);
      ChildLeaf(n, k, m);
    }
    if j == i {
      var b, a := FlattenUpdate(n.children[i], c, l, s);
      FlattenFromAgree(n, i + 1, c, d);
      var rest := FlattenFrom(n, i + 1, c);
      before, after := b, a + rest;
      Associate(b, c[l], a, rest);
      Associate(b, s, a, rest);
    } else {
      FlattenAgree(n.children[j], c, d);
      var b, a := FlattenFromUpdate(n, j + 1, c, l, s, i);
      var first := Flatten(n.children[j], c);
      before, after := first + b, a;
      Associate(first, b, c[l], a);
      Associate(first, b, s, a);
    }
  }

  /** A chain that may hang below leaf `l`: owned, routed there, strictly increasing. */
  ghost predicate ChainOk<D>(l: List<D>, s: seq<Item<D>>) {
    && |l.path| <= l.hashLength
    && (forall i :: 0 <= i < |s| ==> ItemOk(l, s[i]))
    && (forall i, j :: 0 <= i < j < |s| ==> Rank(s[i].hash) < Rank(s[j].hash))
  }

  ghost predicate ItemOk<D>(l: List<D>, item: Item<D>) {
    && item.leaf == l
    && |item.hash| == l.hashLength >= |l.path|
    && Route(item.hash, |l.path|, l.endianness) == l.path
  }

  ghost predicate ChainsOk<D>(n: List<D>, c: Chains<D>) {
    forall l :: l in n.leaves ==> l in c && ChainOk(l, c[l])
  }

  lemma {:induction false} FlattenMember<D>(n: List<D>, c: Chains<D>, item: Item<D>)
    requires Shaped(n) && ChainsOk(n, c)
    ensures item in Flatten(n, c) <==> item.leaf in n.leaves && item in c[item.leaf]
    decreases n.level, |n.children| + 1
  {
    if n.level > 0 {
      FlattenFromMember(n, 0, c, item);
      if i :| 0 <= i < FANOUT && item.leaf in n.children[i].leaves {
        ChildLeaf(n, i, item.leaf);
      }
    } else {
      assert n in n.leaves;
      assert item in c[n] ==> ItemOk(n, item);
    }
  }

  lemma {:induction false} FlattenFromMember<D>(n: List<D>, i: nat, c: Chains<D>, item: Item<D>)
    requires Shaped(n) && n.level > 0 && i <= FANOUT && ChainsOk(n, c)
    ensures item in FlattenFrom(n, i, c)
       <==> exists j :: i <= j < FANOUT && item.leaf in n.children[j].leaves && item.leaf in c && item in c[item.leaf]
    decreases n.level, |n.children| - i
  {
    hide Shaped, ChainsOk;
    ChildShape(n, 0);
    if i < FANOUT {
      ChildShape(n, i);
      ChildChainsOk(n, i, c);
      FlattenMember(n.children[i], c, item);
      FlattenFromMember(n, i + 1, c, item);
      LeafKnown(n, i, c, item);
      assert FlattenFrom(n, i, c) == Flatten(n.children[i], c) + FlattenFrom(n, i + 1, c);
    }
  }

  lemma {:induction false} LeafKnown<D>(n: List<D>, i: nat, c: Chains<D>, item: Item<D>)
    requires Shaped(n) && n.level > 0 && i < FANOUT && ChainsOk(n, c)
    ensures item.leaf in n.children[i].leaves ==> item.leaf in c
  {
  }

  lemma {:induction false} ChildChainsOk<D>(n: List<D>, i: nat, c: Chains<D>)
    requires Shaped(n) && n.level > 0 && i < FANOUT && ChainsOk(n, c)
    ensures Shaped(n.children[i]) && n.children[i].level == n.level - 1 && ChainsOk(n.children[i], c)
  {
  }

  // ---------------------------------------------------------------- the order of a traversal

  ghost predicate Fits<D>(n: List<D>, s: seq<Item<D>>) {
    && (s != [] ==> |n.path| + n.level <= n.hashLength)
    && forall i :: 0 <= i < |s| ==> |s[i].hash| == n.hashLength
  }

  ghost predicate InPlace<D>(n: List<D>, s: seq<Item<D>>)
    requires Fits(n, s)
  {
    var depth := |n.path| + n.level;
    forall i, j :: 0 <= i < j < |s| ==> Place(s[i].hash, depth, n.endianness) < Place(s[j].hash, depth, n.endianness)
  }

  /** Items of one leaf are placed by their hashes. */
  lemma {:induction false} LeafInPlace<D>(l: List<D>, s: seq<Item<D>>)
    requires ChainOk(l, s) && l.level == 0
    ensures Fits(l, s) && InPlace(l, s)
  {
    forall i, j | 0 <= i < j < |s|
      ensures Place(s[i].hash, |l.path|, l.endianness) < Place(s[j].hash, |l.path|, l.endianness)
    {
      assert ItemOk(l, s[i]) && ItemOk(l, s[j]);
      MemcmpComparesRanks(s[i].hash, s[j].hash);
      MemcmpComparesRanks(l.path, l.path);
      MemcmpSplit(l.path, l.path, s[i].hash, s[j].hash);
      MemcmpComparesRanks(l.path + s[i].hash, l.path + s[j].hash);
    }
  }

  /** Items below an earlier child are placed before items below a later one. */
  lemma {:induction false} ChildrenInPlace<D>(n: List<D>, c: Chains<D>, a: Item<D>, b: Item<D>, i: nat, j: nat)
    requires Shaped(n) && n.level > 0 && i < j < FANOUT && ChainsOk(n, c)
    requires a in Flatten(n.children[i], c) && b in Flatten(n.children[j], c)
    ensures |a.hash| == |b.hash| == n.hashLength >= |n.path| + n.level
    ensures Place(a.hash, |n.path| + n.level, n.endianness) < Place(b.hash, |n.path| + n.level, n.endianness)
  {
    hide Shaped, ChainsOk, Flatten, Route;
    ItemBelowChild(n, c, a, i);
    ItemBelowChild(n, c, b, j);
    var p, q := a.leaf.path, b.leaf.path;
    PrefixOfSum(p, a.hash, n.path);
    PrefixOfSum(q, b.hash, n.path);
    FirstDifference(p + a.hash, q + b.hash, |n.path|);
  }

  lemma {:induction false} PrefixOfSum(p: Hash, a: Hash, front: Hash)
    requires front <= p
    ensures (p + a)[..|front|] == front && forall i :: 0 <= i < |p| ==> (p + a)[i] == p[i]
  {
  }

  lemma {:induction false} ItemBelowChild<D>(n: List<D>, c: Chains<D>, a: Item<D>, i: nat)
    requires Shaped(n) && n.level > 0 && i < FANOUT && ChainsOk(n, c)
    requires a in Flatten(n.children[i], c)
    ensures |a.hash| == n.hashLength >= |n.path| + n.level
    ensures a.leaf.path == Route(a.hash, |n.path| + n.level, n.endianness)
    ensures n.path <= a.leaf.path && a.leaf.path[|n.path|] == i
  {
    hide Shaped, Flatten, Route, Rank;
    ChildShape(n, i);
    ChildChainsOk(n, i, c);
    FlattenMember(n.children[i], c, a);
    ChildLeaf(n, i, a.leaf);
    LeafByPath(n, a.leaf);
    assert ItemOk(a.leaf, a) by {
      assert ChainOk(a.leaf, c[a.leaf]);
    }
  }

  /** A traversal meets the items in strictly increasing place. */
  lemma {:induction false} FlattenInPlace<D>(n: List<D>, c: Chains<D>)
    requires Shaped(n) && ChainsOk(n, c)
    ensures Fits(n, Flatten(n, c)) && InPlace(n, Flatten(n, c))
    decreases n.level, |n.children| + 1
  {
    if n.level > 0 {
      FlattenFromInPlace(n, 0, c);
    } else {
      assert n in n.leaves;
      LeafInPlace(n, c[n]);
    }
  }

  lemma {:induction false} FlattenFromInPlace<D>(n: List<D>, i: nat, c: Chains<D>)
    requires Shaped(n) && n.level > 0 && i <= FANOUT && ChainsOk(n, c)
    ensures Fits(n, FlattenFrom(n, i, c)) && InPlace(n, FlattenFrom(n, i, c))
    decreases n.level, |n.children| - i
  {
    hide Shaped, ChainsOk, Place, InPlace, Fits;
    ChildShape(n, 0);
    if i < FANOUT {
      ChildChainsOk(n, i, c);
      ChildLike(n, i);
      FlattenInPlace(n.children[i], c);
      FlattenFromInPlace(n, i + 1, c);
      var s, t := Flatten(n.children[i], c), FlattenFrom(n, i + 1, c);
      InPlaceLike(n, n.children[i], s);
      ChildBeforeRest(n, i, c);
      InPlaceConcat(n, s, t, FlattenFrom(n, i, c));
    } else {
      NoneInPlace(n, FlattenFrom(n, i, c));
    }
  }

  lemma {:induction false} NoneInPlace<D>(n: List<D>, s: seq<Item<D>>)
    requires s == []
    ensures Fits(n, s) && InPlace(n, s)
  {
  }

  /** Items below one child come before those below the later ones. */
  lemma {:induction false} ChildBeforeRest<D>(n: List<D>, i: nat, c: Chains<D>)
    requires Shaped(n) && n.level > 0 && i < FANOUT && ChainsOk(n, c)
    requires Fits(n, Flatten(n.children[i], c)) && Fits(n, FlattenFrom(n, i + 1, c))
    ensures var s, t, depth := Flatten(n.children[i], c), FlattenFrom(n, i + 1, c), |n.path| + n.level;
      forall x, y :: 0 <= x < |s| && 0 <= y < |t| ==>
        Place(s[x].hash, depth, n.endianness) < Place(t[y].hash, depth, n.endianness)
  {
    hide Shaped, ChainsOk, Place, Flatten, FlattenFrom;
    ChildShape(n, 0);
    var s, t := Flatten(n.children[i], c), FlattenFrom(n, i + 1, c);
    forall x, y | 0 <= x < |s| && 0 <= y < |t|
      ensures Place(s[x].hash, |n.path| + n.level, n.endianness) < Place(t[y].hash, |n.path| + n.level, n.endianness)
    {
      var j := ChildOf(n, i + 1, c, t[y]);
      ChildrenInPlace(n, c, s[x], t[y], i, j);
    }
  }

  lemma {:induction false} InPlaceLike<D>(n: List<D>, m: List<D>, s: seq<Item<D>>)
    requires |m.path| + m.level == |n.path| + n.level && m.hashLength == n.hashLength && m.endianness == n.endianness
    requires Fits(m, s) && InPlace(m, s)
    ensures Fits(n, s) && InPlace(n, s)
  {
    hide Place;
    var depth := |m.path| + m.level;
    forall i, j | 0 <= i < j < |s|
      ensures Place(s[i].hash, depth, n.endianness) < Place(s[j].hash, depth, n.endianness)
    {
      assert Place(s[i].hash, depth, m.endianness) < Place(s[j].hash, depth, m.endianness);
    }
  }

  lemma {:induction false} InPlaceConcat<D>(n: List<D>, s: seq<Item<D>>, t: seq<Item<D>>, u: seq<Item<D>>)
    requires Fits(n, s) && Fits(n, t) && InPlace(n, s) && InPlace(n, t) && u == s + t
    requires forall x, y :: 0 <= x < |s| && 0 <= y < |t| ==>
      Place(s[x].hash, |n.path| + n.level, n.endianness) < Place(t[y].hash, |n.path| + n.level, n.endianness)
    ensures Fits(n, u) && InPlace(n, u)
  {
    hide Place;
    var depth := |n.path| + n.level;
    forall i | 0 <= i < |u| ensures |u[i].hash| == n.hashLength {
      assert u[i] == if i < |s| then s[i] else t[i - |s|];
    }
    forall i, j | 0 <= i < j < |u|
      ensures Place(u[i].hash, depth, n.endianness) < Place(u[j].hash, depth, n.endianness)
    {
      if j < |s| {
        assert u[i] == s[i] && u[j] == s[j];
      } else if |s| <= i {
        assert u[i] == t[i - |s|] && u[j] == t[j - |s|];
      } else {
        assert u[i] == s[i] && u[j] == t[j - |s|];
      }
    }
  }

  lemma {:induction false} ChildLike<D>(n: List<D>, i: nat)
    requires Shaped(n) && n.level > 0 && i < FANOUT
    ensures |n.children[i].path| + n.children[i].level == |n.path| + n.level
    ensures n.children[i].hashLength == n.hashLength && n.children[i].endianness == n.endianness
  {
  }

  lemma {:induction false} ChildOf<D>(n: List<D>, i: nat, c: Chains<D>, item: Item<D>) returns (j: nat)
    requires Shaped(n) && n.level > 0 && i <= FANOUT
    requires item in FlattenFrom(n, i, c)
    ensures i <= j < FANOUT && item in Flatten(n.children[j], c)
    decreases FANOUT - i
  {
    if item in Flatten(n.children[i], c) {
      j := i;
    } else {
      j := ChildOf(n, i + 1, c, item);
    }
  }
}
