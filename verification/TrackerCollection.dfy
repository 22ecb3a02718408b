/**
 * The garbage collector on the whole torrent list: the tree above the leaves, one leaf among others,
 * and a collection from the first torrent to the last.
 */
module TrackerCollection {
  import opened Bytes
  import opened HashOrder
  import opened Entries
  import opened HashList
  import opened HashListOps
  import opened HashListTraversal
  import opened HashListRebuild
  import opened Tracker
  import opened Garbage
  import opened TorrentRecord
  import opened TrackerHeap
  import opened TrackerCollector

  // ---------------------------------------------------------------- the tree above the leaves

  /** Everything that belongs to the records of some entries. */
  ghost function Regions(e: seq<Entry<Record>>, world: set<object>): (w: set<object>)
    reads world
    ensures w <= world
  {
    set i, o | 0 <= i < |e| && e[i].data.Some? && e[i].data.value in world && Inside(e[i].data.value, world)
               && o in Region(e[i].data.value) :: o
  }

  lemma {:induction false} RegionsHave(e: seq<Entry<Record>>, t: seq<Entry<Torrent>>, world: set<object>, o: object)
    requires Mirror(e, t, world)
    ensures forall i :: 0 <= i < |e| ==> e[i].data.Some? && Region(e[i].data.value) <= Regions(e, world)
    ensures o in Regions(e, world) ==> exists i :: 0 <= i < |e| && o in Region(e[i].data.value)
  {
    hide Stands, Region;
    forall i | 0 <= i < |e| ensures e[i].data.Some? && Region(e[i].data.value) <= Regions(e, world) {
      assert Mirrored(e[i], t[i], world);
    }
  }

  lemma {:induction false} MirroredWithin(e: Entry<Record>, t: Entry<Torrent>, world: set<object>, w: set<object>)
    requires Mirrored(e, t, world) && Region(e.data.value) <= w
    ensures Mirrored(e, t, w)
  {
    hide Stands;
    var r := e.data.value;
    assert r in Region(r) && forall l :: l in r.peerList.leaves ==> (l as object) in Region(r);
  }

  /** A selection of the entries of a mirror whose regions lie in `w`. */
  lemma {:induction false} MirrorPart(e: seq<Entry<Record>>, t: seq<Entry<Torrent>>, f: seq<Entry<Record>>,
                                      u: seq<Entry<Torrent>>, world: set<object>, w: set<object>, at: int -> int)
    requires Mirror(e, t, world) && |f| == |u|
    requires forall i :: 0 <= i < |f| ==> 0 <= at(i) < |e| && f[i] == e[at(i)] && u[i] == t[at(i)]
    requires forall i, j :: 0 <= i < j < |f| ==> at(i) < at(j)
    requires forall i :: 0 <= i < |f| && f[i].data.Some? ==> Region(f[i].data.value) <= w
    ensures Mirror(f, u, w)
  {
    hide Region, Mirrored;
    forall i | 0 <= i < |f| ensures Mirrored(f[i], u[i], w) {
      MirroredSome(e[at(i)], t[at(i)], world);
      MirroredWithin(f[i], u[i], world, w);
    }
    forall i, j | 0 <= i < j < |f| ensures f[i].data.Some? && f[j].data.Some?
      && Region(f[i].data.value) !! Region(f[j].data.value)
    {
      MirroredSome(e[at(i)], t[at(i)], world);
      MirroredSome(e[at(j)], t[at(j)], world);
    }
  }

  /** Where the entries of the two outer stretches stand in the whole, and where those of the middle one do. */
  function OuterAt(m: nat, n: nat): int -> int {
    i => if i < m then i else i + n
  }

  function MiddleAt(m: nat): int -> int {
    i => i + m
  }

  lemma {:induction false} Places<T>(e: seq<T>, f: seq<T>, g: seq<T>)
    ensures forall i :: 0 <= i < |f| ==> f[i] == (e + f + g)[MiddleAt(|e|)(i)]
    ensures forall i :: 0 <= i < |e + g| ==>
      0 <= OuterAt(|e|, |f|)(i) < |e + f + g| && (e + g)[i] == (e + f + g)[OuterAt(|e|, |f|)(i)]
  {
  }

  /** Three stretches of entries side by side: the middle one with a world of its own, the others with the rest. */
  lemma {:induction false} MirrorSplit(e: seq<Entry<Record>>, f: seq<Entry<Record>>, g: seq<Entry<Record>>,
                                       t: seq<Entry<Torrent>>, u: seq<Entry<Torrent>>, v: seq<Entry<Torrent>>,
                                       world: set<object>)
    requires |e| == |t| && |f| == |u| && Mirror(e + f + g, t + u + v, world)
    ensures Mirror(f, u, Regions(f, world)) && Mirror(e + g, t + v, world - Regions(f, world))
  {
    hide Region, Mirrored, Regions, Mirror;
    Places(e, f, g);
    Places(t, u, v);
    MirrorSize(e + f + g, t + u + v, world);
    var w := Regions(f, world);
    forall i | 0 <= i < |e + f + g| ensures (e + f + g)[i].data.Some? && Region((e + f + g)[i].data.value) <= world {
      MirrorInside(e + f + g, t + u + v, world, i);
    }
    MirrorPart(e + f + g, t + u + v, f, u, world, world, MiddleAt(|e|));
    forall i | 0 <= i < |f| ensures f[i].data.Some? && Region(f[i].data.value) <= w {
      RegionsHave(f, u, world, f[i].data.value);
    }
    MirrorPart(e + f + g, t + u + v, f, u, world, w, MiddleAt(|e|));
    forall i | 0 <= i < |e + g| ensures (e + g)[i].data.Some? && Region((e + g)[i].data.value) <= world - w {
      OuterApart(e, f, g, t + u + v, u, world, i);
    }
    MirrorPart(e + f + g, t + u + v, e + g, t + v, world, world - w, OuterAt(|e|, |f|));
  }

  lemma {:induction false} MirrorSize(e: seq<Entry<Record>>, t: seq<Entry<Torrent>>, world: set<object>)
    requires Mirror(e, t, world)
    ensures |e| == |t|
  {
  }

  lemma {:induction false} MirrorInside(e: seq<Entry<Record>>, t: seq<Entry<Torrent>>, world: set<object>, i: nat)
    requires Mirror(e, t, world) && i < |e|
    ensures e[i].data.Some? && Region(e[i].data.value) <= world
  {
    RegionInside(e[i], t[i], world);
  }

  lemma {:induction false} MirrorApart(e: seq<Entry<Record>>, t: seq<Entry<Torrent>>, world: set<object>, i: nat,
                                       j: nat)
    requires Mirror(e, t, world) && i < |e| && j < |e| && i != j
    ensures e[i].data.Some? && e[j].data.Some? && Region(e[i].data.value) !! Region(e[j].data.value)
  {
    hide Region;
    RegionInside(e[i], t[i], world);
    RegionInside(e[j], t[j], world);
  }

  lemma {:induction false} OuterApart(e: seq<Entry<Record>>, f: seq<Entry<Record>>, g: seq<Entry<Record>>,
                                      t: seq<Entry<Torrent>>, u: seq<Entry<Torrent>>, world: set<object>, i: nat)
    requires Mirror(e + f + g, t, world) && Mirror(f, u, world) && i < |e + g|
    ensures (e + g)[i].data.Some? && Region((e + g)[i].data.value) <= world - Regions(f, world)
  {
    hide Region, Regions, Mirror;
    var k := if i < |e| then i else i + |f|;
    var x := (e + g)[i];
    assert x == (e + f + g)[k];
    MirrorInside(e + f + g, t, world, k);
    forall m | 0 <= m < |f| ensures f[m].data.Some? && Region(f[m].data.value) !! Region(x.data.value) {
      assert (e + f + g)[|e| + m] == f[m];
      MirrorApart(e + f + g, t, world, |e| + m, k);
    }
    forall o | o in Region(x.data.value) ensures o !in Regions(f, world) {
      RegionsHave(f, u, world, o);
    }
  }

  lemma {:induction false} RegionInside(e: Entry<Record>, t: Entry<Torrent>, world: set<object>)
    requires Mirrored(e, t, world)
    ensures e.data.Some? && Region(e.data.value) <= world
  {
  }

  /** The three stretches together again, after the middle one has changed. */
  lemma {:induction false} MirrorJoin(e: seq<Entry<Record>>, f: seq<Entry<Record>>, g: seq<Entry<Record>>,
                                      t: seq<Entry<Torrent>>, u: seq<Entry<Torrent>>, v: seq<Entry<Torrent>>,
                                      w: set<object>, world: set<object>)
    requires |e| == |t| && Mirror(f, u, w) && Mirror(e + g, t + v, world - w) && w <= world
    ensures Mirror(e + f + g, t + u + v, world)
  {
    hide Region, Mirrored;
    var all, ts, rest, rt := e + f + g, t + u + v, e + g, t + v;
    forall i | 0 <= i < |rest| ensures rest[i].data.Some? && Region(rest[i].data.value) <= world - w {
      RegionInside(rest[i], rt[i], world - w);
    }
    forall i | 0 <= i < |f| ensures f[i].data.Some? && Region(f[i].data.value) <= w {
      RegionInside(f[i], u[i], w);
    }
    forall i | 0 <= i < |all| ensures Mirrored(all[i], ts[i], world) && all[i].data.Some? {
      if |e| <= i < |e| + |f| {
        MirroredWithin(f[i - |e|], u[i - |e|], w, world);
      } else {
        var k := if i < |e| then i else i - |f|;
        assert all[i] == rest[k] && ts[i] == rt[k];
        MirroredWithin(rest[k], rt[k], world - w, world);
      }
    }
    forall i, j | 0 <= i < j < |all| ensures Region(all[i].data.value) !! Region(all[j].data.value) {
      Within(e, f, g, i);
      Within(e, f, g, j);
    }
  }

  lemma {:induction false} Within<T>(e: seq<T>, f: seq<T>, g: seq<T>, i: nat)
    requires i < |e + f + g|
    ensures (e + f + g)[i] == if |e| <= i < |e| + |f| then f[i - |e|] else (e + g)[if i < |e| then i else i - |f|]
  {
  }

  // ---------------------------------------------------------------- the torrents of the tree

  /** The torrents cut into stretches as long as those of the entries. */
  lemma {:induction false} Cut(parts: seq<seq<Entry<Record>>>, t: seq<Entry<Torrent>>)
    returns (cut: seq<seq<Entry<Torrent>>>)
    requires |Concat(parts)| == |t|
    ensures Cutting(parts, cut) && Concat(cut) == t
  {
    if parts == [] {
      cut := [];
    } else {
      var rest := Cut(parts[1..], t[|parts[0]|..]);
      cut := [t[..|parts[0]|]] + rest;
      assert cut[1..] == rest;
      forall i | 0 <= i < |parts| ensures |cut[i]| == |parts[i]| {
        assert i > 0 ==> parts[i] == parts[1..][i - 1];
      }
    }
  }

  ghost predicate Cutting(parts: seq<seq<Entry<Record>>>, cut: seq<seq<Entry<Torrent>>>) {
    |cut| == |parts| && forall i :: 0 <= i < |parts| ==> |cut[i]| == |parts[i]|
  }

  lemma {:induction false} CuttingSize(parts: seq<seq<Entry<Record>>>, cut: seq<seq<Entry<Torrent>>>)
    requires Cutting(parts, cut)
    ensures |Concat(parts)| == |Concat(cut)|
  {
    if parts != [] {
      forall i | 0 <= i < |parts[1..]| ensures |cut[1..][i]| == |parts[1..][i]| {
        assert |cut[i + 1]| == |parts[i + 1]|;
      }
      CuttingSize(parts[1..], cut[1..]);
    }
  }

  /** Stretch `i` gets a world of its own. */
  lemma {:induction false} MirrorPartOf(parts: seq<seq<Entry<Record>>>, cut: seq<seq<Entry<Torrent>>>, i: nat,
                                        world: set<object>)
    requires Cutting(parts, cut) && i < |parts| && Mirror(Concat(parts), Concat(cut), world)
    ensures var w := Regions(parts[i], world);
      && Mirror(parts[i], cut[i], w)
      && Mirror(Concat(parts[..i]) + Concat(parts[i + 1..]), Concat(cut[..i]) + Concat(cut[i + 1..]), world - w)
  {
    hide Mirror, Regions, Concat;
    ConcatSplit(parts, i);
    ConcatSplit(cut, i);
    CuttingSize(parts[..i], cut[..i]);
    MirrorSplit(Concat(parts[..i]), parts[i], Concat(parts[i + 1..]), Concat(cut[..i]), cut[i], Concat(cut[i + 1..]),
                world);
  }

  lemma {:induction false} MirrorWhole(parts: seq<seq<Entry<Record>>>, cut: seq<seq<Entry<Torrent>>>, i: nat,
                                       f: seq<Entry<Record>>, u: seq<Entry<Torrent>>, w: set<object>,
                                       world: set<object>)
    requires Cutting(parts, cut) && i < |parts| && w <= world && Mirror(f, u, w)
    requires Mirror(Concat(parts[..i]) + Concat(parts[i + 1..]), Concat(cut[..i]) + Concat(cut[i + 1..]), world - w)
    ensures Mirror(Concat(parts[i := f]), Concat(cut[i := u]), world) && Cutting(parts[i := f], cut[i := u])
    ensures Cost(Concat(cut[i := u])) - Cost(u) == Cost(Concat(cut)) - Cost(cut[i])
  {
    hide Mirror, Concat, Cost;
    MirrorSize(f, u, w);
    ConcatSplit(parts[i := f], i);
    ConcatSplit(cut[i := u], i);
    ConcatSplit(cut, i);
    assert parts[i := f][..i] == parts[..i] && parts[i := f][i + 1..] == parts[i + 1..];
    assert cut[i := u][..i] == cut[..i] && cut[i := u][i + 1..] == cut[i + 1..];
    CuttingSize(parts[..i], cut[..i]);
    var e, g, t, v := Concat(parts[..i]), Concat(parts[i + 1..]), Concat(cut[..i]), Concat(cut[i + 1..]);
    MirrorJoin(e, f, g, t, u, v, w, world);
    CostConcat(t + u, v);
    CostConcat(t, u);
    CostConcat(t + cut[i], v);
    CostConcat(t, cut[i]);
  }

  /** One iteration of the loop over the children. */
  method CollectChild(n: List<Record>, i: nat, limit: int, start: Stats, alloc: Allocator,
                      ghost parts: seq<seq<Entry<Record>>>, ghost cut: seq<seq<Entry<Torrent>>>,
                      ghost goal: Swept<Stats, Torrent>, ghost world: set<object>)
    returns (stats: Stats, ok: bool, ghost after: seq<seq<Entry<Record>>>, ghost left: seq<seq<Entry<Torrent>>>)
    requires Valid(n) && n.level > 0 && i < FANOUT && InParts(n, parts)
    requires Halfway(cut, i, start, goal, TorrentVisit(limit))
    requires Cutting(parts, cut) && Mirror(Concat(parts), Concat(cut), world)
    requires Outside(n, world) && alloc !in world && AllSmall(cut)
    modifies n.leaves, ItemSet(n), world, alloc
    ensures Valid(n) && ItemSet(n) <= old(ItemSet(n)) && InParts(n, after) && ok
    ensures Cutting(after, left) && Mirror(Concat(after), Concat(left), world)
    ensures AllSmall(left) && Halfway(left, i + 1, stats, goal, TorrentVisit(limit))
    ensures alloc.Live() - Cost(Concat(left)) == old(alloc.Live()) - Cost(Concat(cut))
    decreases n.level - 1, 1
  {
    hide Rank, ChainOk, Flatten, Cost, ToMap, EntriesOf, Valid, Sweep, Value, Halfway, Shaped, Mirror, Regions, Concat,
         Small;
    ChildrenValid(n);
    RootFits(n);
    PartCount(n, parts);
    MirrorPartOf(parts, cut, i, world);
    ghost var w := Regions(parts[i], world);
    ghost var u;
    stats, ok, u := CollectAll(n.children[i], limit, start, alloc, cut[i], w);
    after, left := parts[i := Value(n.children[i])], cut[i := u];
    NodeFromChildren(n);
    MirrorWhole(parts, cut, i, after[i], u, w, world);
    HalfwayStep(cut, i, start, goal, TorrentVisit(limit), Swept(stats, u, false));
  }

  ghost predicate AllSmall(cut: seq<seq<Entry<Torrent>>>) {
    forall i :: 0 <= i < |cut| ==> Small(cut[i])
  }

  /** `mapList` with `runGarbageCollectorCallback`. */
  method CollectAll(n: List<Record>, limit: int, start: Stats, alloc: Allocator, ghost t: seq<Entry<Torrent>>,
                    ghost world: set<object>)
    returns (stats: Stats, ok: bool, ghost u: seq<Entry<Torrent>>)
    requires Valid(n) && Mirror(Value(n), t, world) && Outside(n, world) && alloc !in world && Small(t)
    modifies n.leaves, ItemSet(n), world, alloc
    ensures Valid(n) && ItemSet(n) <= old(ItemSet(n)) && Mirror(Value(n), u, world) && Small(u) && ok
    ensures Swept(stats, u, false) == Sweep(t, start, TorrentVisit(limit))
    ensures alloc.Live() - Cost(u) == old(alloc.Live()) - Cost(t)
    decreases n.level, 0
  {
    hide Rank, ChainOk, Flatten, Cost, ToMap, EntriesOf, Valid, Sweep, Value, Halfway, InParts, Mirror, Concat, Small,
         AllSmall, Cutting;
    if n.level > 0 {
      ghost var parts := Partition(n);
      ghost var cut := CutOf(parts, t, world);
      ghost var goal := Sweep(t, start, TorrentVisit(limit));
      CutBegins(cut, t, start, limit);
      stats, ok := start, true;
      var i := 0;
      while i < FANOUT
        invariant i <= FANOUT && ok
        invariant Valid(n) && ItemSet(n) <= old(ItemSet(n)) && InParts(n, parts)
        invariant Cutting(parts, cut) && Mirror(Concat(parts), Concat(cut), world)
        invariant AllSmall(cut) && Halfway(cut, i, stats, goal, TorrentVisit(limit))
        invariant alloc.Live() - Cost(Concat(cut)) == old(alloc.Live()) - Cost(t)
      {
        stats, ok, parts, cut := CollectChild(n, i, limit, stats, alloc, parts, cut, goal, world);
        i := i + 1;
      }
      u := Concat(cut);
      CutEnds(n, parts, cut, stats, goal, limit);
    } else {
      LeafView(n);
      stats, ok, u := CollectLeaf(n, limit, start, alloc, t, world);
    }
  }

  lemma {:induction false} CutOf(parts: seq<seq<Entry<Record>>>, t: seq<Entry<Torrent>>, world: set<object>)
    returns (cut: seq<seq<Entry<Torrent>>>)
    requires Mirror(Concat(parts), t, world) && Small(t)
    ensures Cutting(parts, cut) && Concat(cut) == t && AllSmall(cut)
  {
    hide Small;
    cut := Cut(parts, t);
    forall i | 0 <= i < |cut| ensures Small(cut[i]) {
      SmallPart(cut, i);
    }
  }

  lemma {:induction false} SmallPart(cut: seq<seq<Entry<Torrent>>>, i: nat)
    requires i < |cut| && Small(Concat(cut))
    ensures Small(cut[i])
  {
    hide Concat;
    ConcatSplit(cut, i);
    var before := Concat(cut[..i]);
    forall k | 0 <= k < |cut[i]| ensures cut[i][k] == Concat(cut)[|before| + k] {
    }
  }

  lemma {:induction false} SmallParts(cut: seq<seq<Entry<Torrent>>>)
    requires AllSmall(cut)
    ensures Small(Concat(cut))
  {
    if cut != [] {
      assert forall i :: 0 <= i < |cut[1..]| ==> cut[1..][i] == cut[i + 1];
      SmallParts(cut[1..]);
    }
  }

  lemma {:induction false} CutBegins(cut: seq<seq<Entry<Torrent>>>, t: seq<Entry<Torrent>>, start: Stats, limit: int)
    requires Concat(cut) == t
    ensures Halfway(cut, 0, start, Sweep(t, start, TorrentVisit(limit)), TorrentVisit(limit))
  {
    hide Sweep;
    assert cut[..0] == [] && cut[0..] == cut;
    AfterNothing(Sweep(t, start, TorrentVisit(limit)));
  }

  lemma {:induction false} CutEnds(n: List<Record>, parts: seq<seq<Entry<Record>>>, cut: seq<seq<Entry<Torrent>>>,
                                   acc: Stats, goal: Swept<Stats, Torrent>, limit: int)
    requires Valid(n) && n.level > 0 && InParts(n, parts) && Cutting(parts, cut) && AllSmall(cut)
    requires Halfway(cut, FANOUT, acc, goal, TorrentVisit(limit))
    ensures Value(n) == Concat(parts) && Small(Concat(cut)) && goal == Swept(acc, Concat(cut), false)
  {
    hide Valid, Value, AllSmall;
    ChildrenValid(n);
    ValueOfNode(n, parts);
    SmallParts(cut);
    assert cut[..FANOUT] == cut && cut[FANOUT..] == [];
    assert Concat(cut) + [] == Concat(cut);
  }

  // ---------------------------------------------------------------- the whole collection

  /** The torrents of a state in the order in which the list has them. */
  lemma {:induction false} MirrorOf(e: seq<Entry<Record>>, s: State, world: set<object>)
    returns (t: seq<Entry<Torrent>>)
    requires Distinct(e) && Standing(ToMap(e), s, world)
    ensures Mirror(e, t, world) && Enumerates(t, s)
  {
    hide ToMap, Keeps, Region, Inside;
    forall i | 0 <= i < |e|
      ensures e[i].hash in s && e[i].data.Some? && Keeps(e[i].data.value, s[e[i].hash], world)
    {
      ToMapAt(e, i);
    }
    t := seq(|e|, i requires 0 <= i < |e| => Entry(e[i].hash, Some(s[e[i].hash])));
    forall i | 0 <= i < |e| ensures Mirrored(e[i], t[i], world) {
    }
    forall i, j | 0 <= i < j < |e| ensures Region(e[i].data.value) !! Region(e[j].data.value) {
      ToMapAt(e, i);
      ToMapAt(e, j);
    }
    forall h | h in s ensures exists i :: 0 <= i < |t| && t[i].hash == h {
      ToMapDomain(e, h);
      var i :| 0 <= i < |e| && e[i].hash == h;
      assert t[i].hash == h;
    }
  }

  /** Where a hash of the list stands in both sequences. */
  lemma {:induction false} MirrorAt(e: seq<Entry<Record>>, t: seq<Entry<Torrent>>, s: State, world: set<object>,
                                    h: Hash)
    returns (i: nat)
    requires Mirror(e, t, world) && Enumerates(t, s) && h in s
    ensures i < |e| && e[i].hash == h && h in ToMap(e) && ToMap(e)[h] == e[i].data
    ensures e[i].data.Some? && Keeps(e[i].data.value, s[h], world)
  {
    hide ToMap, Keeps, Region;
    i :| 0 <= i < |t| && t[i].hash == h;
    assert Mirrored(e[i], t[i], world);
    MirrorDistinct(e, t, s, world);
    ToMapAt(e, i);
  }

  lemma {:induction false} MirrorDistinct(e: seq<Entry<Record>>, t: seq<Entry<Torrent>>, s: State, world: set<object>)
    requires Mirror(e, t, world) && Enumerates(t, s)
    ensures Distinct(e) && forall h :: h in ToMap(e) ==> h in s
  {
    hide ToMap, Region, Keeps;
    forall i | 0 <= i < |e| ensures e[i].hash == t[i].hash {
      assert Mirrored(e[i], t[i], world);
    }
    forall h | h in ToMap(e) ensures h in s {
      ToMapDomain(e, h);
    }
  }

  lemma {:induction false} KeepsMeans(r: Record, t: Torrent, world: set<object>)
    requires Keeps(r, t, world)
    ensures Inside(r, world)
  {
  }

  lemma {:induction false} StandingOf(e: seq<Entry<Record>>, t: seq<Entry<Torrent>>, s: State, world: set<object>)
    requires Mirror(e, t, world) && Enumerates(t, s)
    ensures Standing(ToMap(e), s, world)
  {
    hide ToMap, Keeps, Region, Inside, Enumerates, Mirrored;
    MirrorDistinct(e, t, s, world);
    forall h | h in s
      ensures h in ToMap(e) && ToMap(e)[h].Some? && Inside(ToMap(e)[h].value, world)
      ensures Keeps(ToMap(e)[h].value, s[h], world)
    {
      var i := MirrorAt(e, t, s, world, h);
      KeepsMeans(e[i].data.value, s[h], world);
    }
    forall h, k | h in s && k in s && h != k ensures Region(ToMap(e)[h].value) !! Region(ToMap(e)[k].value) {
      var i := MirrorAt(e, t, s, world, h);
      var j := MirrorAt(e, t, s, world, k);
    }
  }

  lemma {:induction false} BlocksOfPresent<D>(e: seq<Entry<D>>)
    requires forall i :: 0 <= i < |e| ==> e[i].data.Some?
    ensures Blocks(e) == 3 * |e|
  {
    if e != [] {
      BlocksOfPresent(e[..|e| - 1]);
    }
  }

  lemma {:induction false} CostOfState(t: seq<Entry<Torrent>>, s: State)
    requires Enumerates(t, s)
    ensures Cost(t) == 3 * |t| + NestedBlocks(s)
  {
    hide Enumerates, Cost, NestedBlocks, PeerBlocks;
    if t == [] {
      EnumerationSize(t, s);
      CostOfNone();
    } else {
      var h := t[0].hash;
      FirstOf(t, s);
      EnumeratesRest(t, s);
      CostOfState(t[1..], s - {h});
      NestedWithout(s, h);
      CostAt(t, 0);
      assert RemoveAt(t, 0) == t[1..];
      assert [t[0]] == [Entry(h, Some(s[h]))];
    }
  }

  lemma {:induction false} CostOfNone()
    ensures Cost([]) == 0 == NestedBlocks(map[])
  {
  }

  lemma {:induction false} CostOfList(e: seq<Entry<Record>>, t: seq<Entry<Torrent>>, s: State, world: set<object>)
    requires Mirror(e, t, world) && Enumerates(t, s)
    ensures Cost(t) == Blocks(e) + NestedBlocks(s)
  {
    hide Mirrored, Region, Enumerates, Cost, Blocks, NestedBlocks;
    forall i | 0 <= i < |e| ensures e[i].data.Some? {
      MirroredSome(e[i], t[i], world);
    }
    BlocksOfPresent(e);
    CostOfState(t, s);
  }

  lemma {:induction false} SmallState(t: seq<Entry<Torrent>>, s: State)
    requires Enumerates(t, s) && forall h :: h in s ==> |s[h].peers| < WORD
    ensures Small(t)
  {
  }

  // ---------------------------------------------------------------- one part of the tree

  /** The hashes below a node begin with its path. */
  lemma {:induction false} NodePrefix<D>(n: List<D>, k: nat)
    requires Valid(n) && n.endianness == LittleEndian && k < |Value(n)|
    ensures n.path <= Value(n)[k].hash
  {
    hide Flatten;
    ItemsInSet(n);
    var item := Items(n)[k];
    var at := Whereabouts(n, item);
    assert LeafValid(item.leaf) && ItemOk(item.leaf, item);
    LeafByPath(n, item.leaf);
    PathIsPrefix(item.hash, item.leaf.path, n.path);
  }

  lemma {:induction false} PathIsPrefix(hash: Hash, path: Hash, front: Hash)
    requires |path| <= |hash| && Route(hash, |path|, LittleEndian) == path && front <= path
    ensures front <= hash
  {
    forall i | 0 <= i < |front| ensures front[i] == hash[i] {
      assert path[i] == RouteByte(hash, i, LittleEndian);
    }
  }

  lemma {:induction false} ConcatAll<T>(parts: seq<seq<T>>, p: T -> bool)
    requires forall j, k :: 0 <= j < |parts| && 0 <= k < |parts[j]| ==> p(parts[j][k])
    ensures forall k :: 0 <= k < |Concat(parts)| ==> p(Concat(parts)[k])
  {
    if parts != [] {
      forall j, k | 0 <= j < |parts[1..]| && 0 <= k < |parts[1..][j]| ensures p(parts[1..][j][k]) {
        assert parts[1..][j] == parts[j + 1];
      }
      ConcatAll(parts[1..], p);
    }
  }

  /** No hash of these entries begins with `path`. */
  ghost predicate Elsewhere<D>(e: seq<Entry<D>>, path: Hash) {
    forall k :: 0 <= k < |e| ==> !(path <= e[k].hash)
  }

  ghost predicate AllBelow<D>(e: seq<Entry<D>>, path: Hash) {
    forall k :: 0 <= k < |e| ==> path <= e[k].hash
  }

  /** The children beside number `i` hold nothing below a path through it. */
  lemma {:induction false} SiblingsElsewhere<D>(n: List<D>, parts: seq<seq<Entry<D>>>, i: nat, path: Hash)
    requires Valid(n) && n.level > 0 && InParts(n, parts) && n.endianness == LittleEndian
    requires n.path <= path && |n.path| < |path| && path[|n.path|] == i < |parts|
    ensures Elsewhere(Concat(parts[..i]) + Concat(parts[i + 1..]), path)
  {
    hide Valid, Value, Concat;
    forall j, k | 0 <= j < |parts| && j != i && 0 <= k < |parts[j]| ensures !(path <= parts[j][k].hash) {
      PartPrefix(n, parts, j, k);
      var h := parts[j][k].hash;
      assert (n.path + [j])[|n.path|] == h[|n.path|];
    }
    var p := (x: Entry<D>) => !(path <= x.hash);
    ConcatAll(parts[..i], p);
    ConcatAll(parts[i + 1..], p);
    assert forall x: Entry<D> :: p(x) ==> !(path <= x.hash);
  }

  lemma {:induction false} PartPrefix<D>(n: List<D>, parts: seq<seq<Entry<D>>>, j: nat, k: nat)
    requires Valid(n) && n.level > 0 && InParts(n, parts) && n.endianness == LittleEndian
    requires j < |parts| && k < |parts[j]|
    ensures n.path + [j] <= parts[j][k].hash
  {
    hide Valid, Value;
    ChildrenValid(n);
    RootFits(n);
    assert Made(n.children[j], n.path + [j], n.level - 1, n.hashLength, n.semaphores, n.endianness);
    NodePrefix(n.children[j], k);
  }

  lemma {:induction false} MirrorHashes(e: seq<Entry<Record>>, t: seq<Entry<Torrent>>, world: set<object>, path: Hash)
    requires Mirror(e, t, world)
    ensures Elsewhere(e, path) ==> Elsewhere(t, path)
    ensures AllBelow(e, path) ==> AllBelow(t, path)
  {
    hide Mirrored, Region;
    forall i | 0 <= i < |e| ensures e[i].hash == t[i].hash {
      MirroredSome(e[i], t[i], world);
    }
  }

  /** The torrents `t` fall into those below `path`, all in a row, and the others. */
  ghost predicate Parted(t: seq<Entry<Torrent>>, before: seq<Entry<Torrent>>, part: seq<Entry<Torrent>>,
                         after: seq<Entry<Torrent>>, path: Hash)
  {
    t == before + part + after && AllBelow(part, path) && Elsewhere(before + after, path)
  }

  lemma {:induction false} ElsewhereSum(a: seq<Entry<Torrent>>, b: seq<Entry<Torrent>>, path: Hash)
    ensures Elsewhere(a + b, path) <==> Elsewhere(a, path) && Elsewhere(b, path)
  {
    assert forall k :: 0 <= k < |a| ==> (a + b)[k] == a[k];
    assert forall k :: 0 <= k < |b| ==> (a + b)[|a| + k] == b[k];
  }

  lemma {:induction false} Regroup<T>(a: seq<T>, b: seq<T>, c: seq<T>, d: seq<T>, e: seq<T>)
    ensures a + (b + c + d) + e == (a + b) + c + (d + e)
  {
  }

  lemma {:induction false} PartedWider(cut: seq<seq<Entry<Torrent>>>, i: nat, before: seq<Entry<Torrent>>,
                                       part: seq<Entry<Torrent>>, left: seq<Entry<Torrent>>, after: seq<Entry<Torrent>>,
                                       path: Hash)
    requires i < |cut| && Parted(cut[i], before, part, after, path)
    requires Elsewhere(Concat(cut[..i]) + Concat(cut[i + 1..]), path)
    ensures Parted(Concat(cut), Concat(cut[..i]) + before, part, after + Concat(cut[i + 1..]), path)
    ensures Concat(cut[i := before + left + after])
         == (Concat(cut[..i]) + before) + left + (after + Concat(cut[i + 1..]))
  {
    hide Concat, Elsewhere, AllBelow;
    var whole := before + left + after;
    ConcatSplit(cut, i);
    ConcatSplit(cut[i := whole], i);
    assert cut[i := whole][..i] == cut[..i] && cut[i := whole][i + 1..] == cut[i + 1..];
    var a, b := Concat(cut[..i]), Concat(cut[i + 1..]);
    Regroup(a, before, part, after, b);
    Regroup(a, before, left, after, b);
    ElsewhereSum(a, b, path);
    ElsewhereSum(before, after, path);
    ElsewhereSum(a, before, path);
    ElsewhereSum(after, b, path);
    ElsewhereSum(a + before, after + b, path);
  }

  /** The part of the traversal below the node at the end of `path`, for a leaf what the collector does in one go. */
  method CollectUnder(n: List<Record>, nest: nat, path: Hash, limit: int, start: Stats, alloc: Allocator,
                      ghost t: seq<Entry<Torrent>>, ghost world: set<object>)
    returns (stats: Stats, ok: bool, ghost before: seq<Entry<Torrent>>, ghost part: seq<Entry<Torrent>>,
             ghost left: seq<Entry<Torrent>>, ghost after: seq<Entry<Torrent>>)
    requires Valid(n) && n.endianness == LittleEndian && nest == |n.path| && n.path <= path && |path| <= nest + n.level
    requires Mirror(Value(n), t, world) && Outside(n, world) && alloc !in world && Small(t)
    modifies n.leaves, ItemSet(n), world, alloc
    ensures Valid(n) && ItemSet(n) <= old(ItemSet(n)) && Mirror(Value(n), before + left + after, world) && ok
    ensures Parted(t, before, part, after, path)
    ensures Swept(stats, left, false) == Sweep(part, start, TorrentVisit(limit))
    ensures alloc.Live() - Cost(before + left + after) == old(alloc.Live()) - Cost(t)
    decreases n.level
  {
    hide Rank, ChainOk, Flatten, Cost, ToMap, EntriesOf, Valid, Sweep, Value, Shaped, Mirror, Regions, Concat, Small,
         Elsewhere, AllBelow, Parted;
    if |path| == nest {
      assert path == n.path;
      WholeNode(n, t, world);
      stats, ok, left := CollectAll(n, limit, start, alloc, t, world);
      before, part, after := [], t, [];
      assert [] + left + [] == left;
    } else {
      var i := path[nest];
      ghost var parts := Partition(n);
      PartCount(n, parts);
      ghost var cut := CutOf(parts, t, world);
      ChildrenValid(n);
      RootFits(n);
      ChildShapeOf(n, i);
      MirrorPartOf(parts, cut, i, world);
      SiblingsElsewhere(n, parts, i, path);
      MirrorHashes(Concat(parts[..i]) + Concat(parts[i + 1..]), Concat(cut[..i]) + Concat(cut[i + 1..]),
                   world - Regions(parts[i], world), path);
      ghost var w := Regions(parts[i], world);
      stats, ok, before, part, left, after :=
        CollectUnder(n.children[i], nest + 1, path, limit, start, alloc, cut[i], w);
      ghost var now := parts[i := Value(n.children[i])];
      NodeFromChildren(n);
      ValueOfNode(n, now);
      MirrorWhole(parts, cut, i, now[i], before + left + after, w, world);
      PartedWider(cut, i, before, part, left, after, path);
      before, after := Concat(cut[..i]) + before, after + Concat(cut[i + 1..]);
    }
  }

  lemma {:induction false} ChildShapeOf<D>(n: List<D>, i: nat)
    requires Shaped(n) && n.level > 0 && i < FANOUT
    ensures |n.children| == FANOUT && n.children[i].path == n.path + [i] && n.children[i].endianness == n.endianness
    ensures n.children[i].level == n.level - 1
  {
  }

  lemma {:induction false} WholeNode(n: List<Record>, t: seq<Entry<Torrent>>, world: set<object>)
    requires Valid(n) && n.endianness == LittleEndian && Mirror(Value(n), t, world)
    ensures Parted(t, [], t, [], n.path)
  {
    hide Valid, Value, Mirror;
    forall k | 0 <= k < |Value(n)| ensures n.path <= Value(n)[k].hash {
      NodePrefix(n, k);
    }
    MirrorHashes(Value(n), t, world, n.path);
    assert [] + t + [] == t;
  }

  // ---------------------------------------------------------------- one part of the state

  /** The torrents below `path`, and the others. */
  function Under(s: State, path: Hash): State {
    map h | h in s && path <= h :: s[h]
  }

  function Beyond(s: State, path: Hash): State {
    map h | h in s && !(path <= h) :: s[h]
  }

  /** Some of the entries enumerate a part of the map. */
  lemma {:induction false} EnumeratesSome<D>(e: seq<Entry<D>>, m: map<Hash, D>, f: seq<Entry<D>>, some: map<Hash, D>,
                                             at: int -> int)
    requires Enumerates(e, m) && forall i :: 0 <= i < |f| ==> 0 <= at(i) < |e| && f[i] == e[at(i)] && f[i].hash in some
    requires forall i, j :: 0 <= i < j < |f| ==> at(i) < at(j)
    requires forall h :: h in some ==> h in m && some[h] == m[h] && exists i :: 0 <= i < |f| && f[i].hash == h
    ensures Enumerates(f, some)
  {
    forall i | 0 <= i < |f| ensures f[i].data == Some(some[f[i].hash]) {
      assert e[at(i)].hash in m;
    }
    forall i, j | 0 <= i < j < |f| ensures f[i].hash != f[j].hash {
      assert e[at(i)].hash != e[at(j)].hash;
    }
  }

  lemma {:induction false} PartOfState(s: State, before: seq<Entry<Torrent>>, part: seq<Entry<Torrent>>,
                                       after: seq<Entry<Torrent>>, path: Hash)
    requires Enumerates(before + part + after, s) && AllBelow(part, path) && Elsewhere(before + after, path)
    ensures Enumerates(part, Under(s, path)) && Enumerates(before + after, Beyond(s, path))
  {
    hide Enumerates;
    InState(before + part + after, s);
    Places(before, part, after);
    forall h | h in Under(s, path) ensures exists i :: 0 <= i < |part| && part[i].hash == h {
      var k := PlaceOf(before, part, after, s, h);
      assert |before| <= k < |before| + |part| ==> part[k - |before|].hash == h;
    }
    forall h | h in Beyond(s, path) ensures exists i :: 0 <= i < |before + after| && (before + after)[i].hash == h {
      var k := PlaceOf(before, part, after, s, h);
    }
    EnumeratesSome(before + part + after, s, part, Under(s, path), MiddleAt(|before|));
    EnumeratesSome(before + part + after, s, before + after, Beyond(s, path), OuterAt(|before|, |part|));
  }

  lemma {:induction false} InState(e: seq<Entry<Torrent>>, s: State)
    requires Enumerates(e, s)
    ensures forall i :: 0 <= i < |e| ==> e[i].hash in s
  {
  }

  /** Where the torrent `h` stands among three stretches. */
  lemma {:induction false} PlaceOf(before: seq<Entry<Torrent>>, part: seq<Entry<Torrent>>, after: seq<Entry<Torrent>>,
                                   s: State, h: Hash)
    returns (k: nat)
    requires Enumerates(before + part + after, s) && h in s
    ensures k < |before| + |part| + |after|
    ensures if |before| <= k < |before| + |part| then part[k - |before|].hash == h
            else (before + after)[if k < |before| then k else k - |part|].hash == h
  {
    k :| 0 <= k < |before + part + after| && (before + part + after)[k].hash == h;
    Within(before, part, after, k);
  }

  /** One of three stretches' entries, of which the middle and the outer ones enumerate disjoint maps. */
  lemma {:induction false} BothAt<D>(a: seq<Entry<D>>, f: seq<Entry<D>>, b: seq<Entry<D>>, m: map<Hash, D>,
                                     n: map<Hash, D>, i: nat)
    requires Enumerates(f, m) && Enumerates(a + b, n) && m.Keys !! n.Keys && i < |a + f + b|
    ensures var x := (a + f + b)[i];
      && x.hash in m + n && x.data == Some((m + n)[x.hash])
      && (x.hash in m <==> |a| <= i < |a| + |f|) && (x.hash in n <==> !(|a| <= i < |a| + |f|))
  {
    Within(a, f, b, i);
  }

  lemma {:induction false} BothDiffer<D>(a: seq<Entry<D>>, f: seq<Entry<D>>, b: seq<Entry<D>>, m: map<Hash, D>,
                                         n: map<Hash, D>, i: nat, j: nat)
    requires Enumerates(f, m) && Enumerates(a + b, n) && m.Keys !! n.Keys && i < j < |a + f + b|
    ensures (a + f + b)[i].hash != (a + f + b)[j].hash
  {
    hide Enumerates;
    BothAt(a, f, b, m, n, i);
    BothAt(a, f, b, m, n, j);
    Within(a, f, b, i);
    Within(a, f, b, j);
    Apart(f, m);
    Apart(a + b, n);
  }

  lemma {:induction false} Apart<D>(e: seq<Entry<D>>, m: map<Hash, D>)
    requires Enumerates(e, m)
    ensures Distinct(e)
  {
  }

  lemma {:induction false} EnumeratesBoth<D>(a: seq<Entry<D>>, f: seq<Entry<D>>, b: seq<Entry<D>>, m: map<Hash, D>,
                                             n: map<Hash, D>)
    requires Enumerates(f, m) && Enumerates(a + b, n) && m.Keys !! n.Keys
    ensures Enumerates(a + f + b, m + n)
  {
    forall i | 0 <= i < |a + f + b| ensures (a + f + b)[i].hash in m + n
      && (a + f + b)[i].data == Some((m + n)[(a + f + b)[i].hash])
    {
      BothAt(a, f, b, m, n, i);
    }
    forall i, j | 0 <= i < j < |a + f + b| ensures (a + f + b)[i].hash != (a + f + b)[j].hash {
      BothDiffer(a, f, b, m, n, i, j);
    }
    forall h | h in m + n ensures exists i :: 0 <= i < |a + f + b| && (a + f + b)[i].hash == h {
      var i := BothFound(a, f, b, m, n, h);
    }
  }

  lemma {:induction false} BothFound<D>(a: seq<Entry<D>>, f: seq<Entry<D>>, b: seq<Entry<D>>, m: map<Hash, D>,
                                        n: map<Hash, D>, h: Hash)
    returns (i: nat)
    requires Enumerates(f, m) && Enumerates(a + b, n) && h in m + n
    ensures i < |a + f + b| && (a + f + b)[i].hash == h
  {
    hide Enumerates;
    if h in m {
      var k := HashAt(f, m, h);
      i := |a| + k;
      Within(a, f, b, i);
    } else {
      var k := HashAt(a + b, n, h);
      i := if k < |a| then k else k + |f|;
      Within(a, f, b, i);
    }
  }

  lemma {:induction false} HashAt<D>(e: seq<Entry<D>>, m: map<Hash, D>, h: Hash) returns (k: nat)
    requires Enumerates(e, m) && h in m
    ensures k < |e| && e[k].hash == h
  {
    k :| 0 <= k < |e| && e[k].hash == h;
  }

  lemma {:induction false} CollectedApart(s: State, path: Hash, limit: int)
    ensures Collect(Under(s, path), limit).Keys !! Beyond(s, path).Keys
    ensures Collect(Under(s, path), limit) + Beyond(s, path) == CollectBelow(s, path, limit)
  {
    hide Kept, Live;
  }

  lemma {:induction false} StateOfParts(s: State, before: seq<Entry<Torrent>>, left: seq<Entry<Torrent>>,
                                        after: seq<Entry<Torrent>>, path: Hash, limit: int)
    requires Enumerates(left, Collect(Under(s, path), limit)) && Enumerates(before + after, Beyond(s, path))
    ensures Enumerates(before + left + after, CollectBelow(s, path, limit))
  {
    hide Enumerates, Collect, CollectBelow, Under, Beyond;
    CollectedApart(s, path, limit);
    EnumeratesBoth(before, left, after, Collect(Under(s, path), limit), Beyond(s, path));
  }

  /**
   * The collector at one part of the torrent list, a leaf or any other subtree, while the rest stays as it
   * is: it takes the step CollectBelow, and reports of the part what it removed and what it left.
   */
  method CollectPart(list: List<Record>, path: Hash, limit: int, start: Stats, alloc: Allocator, ghost s: State,
                     ghost world: set<object>)
    returns (stats: Stats, ok: bool, ghost was: seq<Entry<Torrent>>, ghost left: seq<Entry<Torrent>>)
    requires Holds(list, s, world) && alloc !in world && forall h :: h in s ==> |s[h].peers| < WORD
    requires list.endianness == LittleEndian && |path| <= list.level
    modifies list.leaves, ItemSet(list), world, alloc
    ensures Holds(list, CollectBelow(s, path, limit), world) && ItemSet(list) <= old(ItemSet(list)) && ok
    ensures Enumerates(was, Under(s, path)) && Enumerates(left, Collect(Under(s, path), limit))
    ensures Reports(start, was, left, stats)
    ensures alloc.Live() - Blocks(Value(list)) - NestedBlocks(CollectBelow(s, path, limit))
         == old(alloc.Live() - Blocks(Value(list))) - NestedBlocks(s)
  {
    hide ToMap, Value, Valid, Blocks, Sweep, Enumerates, Reports, Collect, CollectBelow, Standing, Mirror, Cost,
         NestedBlocks, Small, Holds, TorrentVisit, AllBelow, Elsewhere, Under, Beyond;
    HoldsMeans(list, s, world);
    ValueInPlace(list);
    ghost var t := MirrorOf(Value(list), s, world);
    SmallState(t, s);
    CostOfList(Value(list), t, s, world);
    ghost var before, after;
    stats, ok, before, was, left, after := CollectUnder(list, 0, path, limit, start, alloc, t, world);
    PartOfState(s, before, was, after, path);
    UnderIsSmall(s, path);
    TorrentSweep(was, Under(s, path), limit, start);
    StateOfParts(s, before, left, after, path, limit);
    StandingOf(Value(list), before + left + after, CollectBelow(s, path, limit), world);
    CostOfList(Value(list), before + left + after, CollectBelow(s, path, limit), world);
    HoldsSince(list, CollectBelow(s, path, limit), world);
  }

  lemma {:induction false} UnderIsSmall(s: State, path: Hash)
    requires forall h :: h in s ==> |s[h].peers| < WORD
    ensures forall h :: h in Under(s, path) ==> |Under(s, path)[h].peers| < WORD
  {
  }

  /**
   * `runGarbageCollectorL`: one traversal of the torrent list at time `now`. Torrents that keep a peer
   * stay with their live peers, the others go with all their blocks; `freeList` never ends the process.
   */
  method RunGarbageCollector(list: List<Record>, now: int, alloc: Allocator, ghost s: State, ghost world: set<object>)
    returns (stats: Stats, ok: bool, ghost was: seq<Entry<Torrent>>, ghost left: seq<Entry<Torrent>>)
    requires Holds(list, s, world) && alloc !in world && forall h :: h in s ==> |s[h].peers| < WORD
    modifies list.leaves, ItemSet(list), world, alloc
    ensures Holds(list, Collect(s, now - 1860), world)
    ensures ItemSet(list) <= old(ItemSet(list)) && ok
    ensures Enumerates(was, s) && Enumerates(left, Collect(s, now - 1860))
    ensures Reports(Stats(0, 0, 0, 0, 0, 0), was, left, stats)
    ensures alloc.Live() - Blocks(Value(list)) - NestedBlocks(Collect(s, now - 1860))
         == old(alloc.Live() - Blocks(Value(list))) - NestedBlocks(s)
  {
    hide ToMap, Value, Valid, Blocks, Sweep, Enumerates, Reports, Collect, Standing, Mirror, Cost, NestedBlocks, Small,
         Holds, TorrentVisit;
    var limit := now - GARBAGE_MAX_ALIVE_TIME - INTERVAL_STEP_S;
    var start := Stats(0, 0, 0, 0, 0, 0);
    HoldsMeans(list, s, world);
    ValueInPlace(list);
    was := MirrorOf(Value(list), s, world);
    SmallState(was, s);
    TorrentSweep(was, s, limit, start);
    CostOfList(Value(list), was, s, world);
    stats, ok, left := CollectAll(list, limit, start, alloc, was, world);
    StandingOf(Value(list), left, Collect(s, limit), world);
    CostOfList(Value(list), left, Collect(s, limit), world);
    HoldsSince(list, Collect(s, limit), world);
  }
}
