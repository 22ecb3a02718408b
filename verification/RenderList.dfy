/** The traversal of a torrent's peer list that renders the peers of an announce answer (data.c). */
module RenderList {
  import opened Bytes
  import opened Block
  import opened Entries
  import opened HashList
  import opened HashListOps
  import opened HashListTraversal
  import opened HashListRebuild
  import opened Tracker
  import opened Render

  /** Node `n` is a valid list whose value, `mine`, stands in `rows` from position `at` on. */
  ghost predicate Stretch(n: List<Peer>, mine: seq<Entry<Peer>>, rows: seq<Entry<Peer>>, at: nat)
    reads n.leaves, ItemSet(n)
  {
    Valid(n) && Value(n) == mine && at + |mine| <= |rows| && rows[at..at + |mine|] == mine
  }

  lemma {:induction false} BlockIsApart(n: List<Peer>, block: Block)
    ensures (n as object) != block && (n as object) != block.data
    ensures forall l :: l in n.leaves ==> (l as object) != block && (l as object) != block.data
    ensures forall i :: i in ItemSet(n) ==> (i as object) != block && (i as object) != block.data
  {
  }

  lemma {:induction false} StretchAt(leaf: List<Peer>, mine: seq<Entry<Peer>>, rows: seq<Entry<Peer>>, at: nat, k: nat)
    requires leaf.level == 0 && Stretch(leaf, mine, rows, at)
    ensures |mine| == |leaf.chain| && leaf.firstItem == Nth(leaf.chain, 0)
    ensures k < |mine| ==>
      && at + k < |rows| && rows[at + k] == Entry(leaf.chain[k].hash, leaf.chain[k].data)
      && leaf.chain[k].nextInLeaf == Nth(leaf.chain, k + 1)
  {
    hide Valid, Value, Nth;
    LeafView(leaf);
    LeafLinks(leaf, k);
    if k < |mine| {
      SliceAt(rows, at, |mine|, k);
    }
  }

  lemma {:induction false} SliceAt<T>(rows: seq<T>, at: nat, n: nat, k: nat)
    requires at + n <= |rows| && k < n
    ensures rows[at..at + n][k] == rows[at + k]
  {
  }

  lemma {:induction false} LeafLinks(leaf: List<Peer>, k: nat)
    requires Linked(leaf)
    ensures leaf.firstItem == Nth(leaf.chain, 0)
    ensures k < |leaf.chain| ==> leaf.chain[k].nextInLeaf == Nth(leaf.chain, k + 1)
  {
  }

  /**
   * What the block holds after the first `end` rows: the peers chosen, which are final if the traversal
   * was told to stop.
   */
  ghost predicate Printed(block: Block, q: Request, rows: seq<Entry<Peer>>, stop: bool, end: nat,
                          chosen: seq<Entry<Peer>>, left: u32, ntop: Printer)
    reads block, block.data
  {
    && block.Valid() && block.peak < WORD / 16 && Sound(rows) && Sound(chosen)
    && block.Contents() == PeersText(q, chosen, ntop)
    && if stop then Chosen(q, rows, chosen, ntop) else Underway(q, rows, end, chosen, left, ntop)
  }

  /** One call of the callback. */
  method RenderItem(block: Block, row: Entry<Peer>, q: Request, leftPeers: u32, ntop: Printer,
                    ghost rows: seq<Entry<Peer>>, ghost at: nat, ghost chosen: seq<Entry<Peer>>)
    returns (stop: bool, left: u32, ghost next: seq<Entry<Peer>>)
    requires Printed(block, q, rows, false, at, chosen, leftPeers, ntop) && at < |rows| && row == rows[at]
    modifies block, block.data
    ensures block.data == old(block.data) || fresh(block.data)
    ensures Printed(block, q, rows, stop, at + 1, next, left, ntop)
  {
    hide Sound, PeersText, Underway, Chosen;
    stop, left, next := RenderNext(block, row, rows, at, chosen, q, leftPeers, ntop);
  }

  /** The traversal of a leaf has come to `current`, its item at position `k`; null is behind the last. */
  ghost predicate Reached(leaf: List<Peer>, mine: seq<Entry<Peer>>, rows: seq<Entry<Peer>>, at: nat,
                          current: Item?<Peer>, k: nat)
    reads leaf, leaf.leaves, ItemSet(leaf)
  {
    && leaf.level == 0 && Stretch(leaf, mine, rows, at) && k <= |mine| == |leaf.chain| && current == Nth(leaf.chain, k)
  }

  lemma {:induction false} ReachedStep(leaf: List<Peer>, mine: seq<Entry<Peer>>, rows: seq<Entry<Peer>>, at: nat,
                                       current: Item?<Peer>, k: nat)
    requires Reached(leaf, mine, rows, at, current, k)
    ensures k <= |mine| && (current == null <==> k == |mine|)
    ensures current != null ==>
      && at + k < |rows| && rows[at + k] == Entry(current.hash, current.data)
      && Reached(leaf, mine, rows, at, current.nextInLeaf, k + 1)
  {
    hide Stretch;
    StretchAt(leaf, mine, rows, at, k);
  }

  lemma {:induction false} ReachedFirst(leaf: List<Peer>, mine: seq<Entry<Peer>>, rows: seq<Entry<Peer>>, at: nat)
    requires leaf.level == 0 && Stretch(leaf, mine, rows, at)
    ensures Reached(leaf, mine, rows, at, leaf.firstItem, 0)
  {
    hide Stretch;
    StretchAt(leaf, mine, rows, at, 0);
  }

  /** The loop of `mapList` over one leaf; `stop` passes LIST_BREAK_RETURN on. */
  method RenderLeaf(block: Block, leaf: List<Peer>, q: Request, leftPeers: u32, ntop: Printer,
                    ghost mine: seq<Entry<Peer>>, ghost rows: seq<Entry<Peer>>, ghost at: nat,
                    ghost chosen: seq<Entry<Peer>>)
    returns (stop: bool, left: u32, ghost next: seq<Entry<Peer>>, ghost end: nat)
    requires leaf.level == 0 && Stretch(leaf, mine, rows, at)
    requires Printed(block, q, rows, false, at, chosen, leftPeers, ntop)
    modifies block, block.data
    ensures block.data == old(block.data) || fresh(block.data)
    ensures Printed(block, q, rows, stop, end, next, left, ntop)
    ensures !stop ==> end == at + |mine|
  {
    hide Valid, Value, Printed, Stretch, Reached;
    BlockIsApart(leaf, block);
    var current := leaf.firstItem;
    ghost var k := 0;
    stop, left, next, end := false, leftPeers, chosen, at;
    ReachedFirst(leaf, mine, rows, at);
    while current != null
      invariant Reached(leaf, mine, rows, at, current, k) && k <= |mine| && end == at + k && !stop
      invariant Printed(block, q, rows, false, end, next, left, ntop)
      invariant block.data == old(block.data) || fresh(block.data)
      decreases |mine| - k
    {
      ReachedStep(leaf, mine, rows, at, current, k);
      var following := current.nextInLeaf;
      stop, left, next := RenderItem(block, Entry(current.hash, current.data), q, left, ntop, rows, end, next);
      end := end + 1;
      if stop {
        return;
      }
      current, k := following, k + 1;
    }
    ReachedStep(leaf, mine, rows, at, current, k);
  }

  /** The stretch of an inner node, child by child. */
  ghost predicate Parted(n: List<Peer>, parts: seq<seq<Entry<Peer>>>, rows: seq<Entry<Peer>>, at: nat)
    reads n.leaves, ItemSet(n)
  {
    n.level > 0 && |parts| == FANOUT && Stretch(n, Concat(parts), rows, at) && InParts(n, parts)
  }

  /** The stretch of child `i`, and where the next one begins. */
  lemma {:induction false} StretchOfChild(n: List<Peer>, parts: seq<seq<Entry<Peer>>>, rows: seq<Entry<Peer>>, at: nat,
                                          i: nat, end: nat)
    requires Parted(n, parts, rows, at) && i < FANOUT
    requires end == at + |Concat(parts[..i])|
    ensures |n.children| == FANOUT && n.children[i].level == n.level - 1
    ensures Stretch(n.children[i], parts[i], rows, end)
    ensures |Concat(parts[..i + 1])| == |Concat(parts[..i])| + |parts[i]|
  {
    hide Valid, Value, Concat;
    ChildrenValid(n);
    ValueOfNode(n, parts);
    ConcatSplit(parts, i);
    ConcatSplit(parts[..i + 1], i);
    assert parts[..i + 1][..i] == parts[..i] && parts[..i + 1][i + 1..] == [];
    NoneConcat();
    Middle(rows, at, Concat(parts[..i]), parts[i], Concat(parts[i + 1..]));
  }

  lemma {:induction false} NoneConcat()
    ensures Concat<Entry<Peer>>([]) == []
  {
  }

  lemma {:induction false} Middle<T>(rows: seq<T>, at: nat, s: seq<T>, t: seq<T>, u: seq<T>)
    requires at + |s + t + u| <= |rows| && rows[at..at + |s + t + u|] == s + t + u
    ensures rows[at + |s|..at + |s| + |t|] == t
  {
    forall k | 0 <= k < |t| ensures rows[at + |s| + k] == t[k] {
      assert rows[at..at + |s + t + u|][|s| + k] == t[k];
    }
  }

  /** `mapList` with `renderAnnouncePeersCallback`. */
  method RenderNode(block: Block, n: List<Peer>, q: Request, leftPeers: u32, ntop: Printer,
                    ghost mine: seq<Entry<Peer>>, ghost rows: seq<Entry<Peer>>, ghost at: nat,
                    ghost chosen: seq<Entry<Peer>>)
    returns (stop: bool, left: u32, ghost next: seq<Entry<Peer>>, ghost end: nat)
    requires Stretch(n, mine, rows, at) && Printed(block, q, rows, false, at, chosen, leftPeers, ntop)
    modifies block, block.data
    ensures block.data == old(block.data) || fresh(block.data)
    ensures Printed(block, q, rows, stop, end, next, left, ntop)
    ensures !stop ==> end == at + |mine|
    decreases n.level, 0
  {
    hide *;
    if n.level > 0 {
      ghost var parts := PartsOfStretch(n, mine, rows, at);
      stop, left, next, end := false, leftPeers, chosen, at;
      var index := 0;
      while index < FANOUT
        invariant index <= FANOUT == |parts| && !stop && end == at + |Concat(parts[..index])|
        invariant Parted(n, parts, rows, at)
        invariant Printed(block, q, rows, false, end, next, left, ntop)
        invariant block.data == old(block.data) || fresh(block.data)
      {
        stop, left, next, end := RenderChild(block, n, index, q, left, ntop, parts, rows, at, end, next);
        if stop {
          return;
        }
        index := index + 1;
      }
      assert parts[..FANOUT] == parts;
    } else {
      stop, left, next, end := RenderLeaf(block, n, q, leftPeers, ntop, mine, rows, at, chosen);
    }
  }

  /** The body of the loop over the children. */
  method RenderChild(block: Block, n: List<Peer>, index: nat, q: Request, leftPeers: u32, ntop: Printer,
                     ghost parts: seq<seq<Entry<Peer>>>, ghost rows: seq<Entry<Peer>>, ghost at: nat, ghost from: nat,
                     ghost chosen: seq<Entry<Peer>>)
    returns (stop: bool, left: u32, ghost next: seq<Entry<Peer>>, ghost end: nat)
    requires Parted(n, parts, rows, at) && index < FANOUT == |parts| && from == at + |Concat(parts[..index])|
    requires Printed(block, q, rows, false, from, chosen, leftPeers, ntop) && n.level > 0
    modifies block, block.data
    ensures block.data == old(block.data) || fresh(block.data)
    ensures Printed(block, q, rows, stop, end, next, left, ntop)
    ensures Parted(n, parts, rows, at) && (!stop ==> end == at + |Concat(parts[..index + 1])|)
    decreases n.level - 1, 1
  {
    hide Valid, Value, Printed, Stretch, Parted, Concat;
    BlockIsApart(n, block);
    StretchOfChild(n, parts, rows, at, index, from);
    stop, left, next, end := RenderNode(block, n.children[index], q, leftPeers, ntop, parts[index], rows, from, chosen);
  }

  lemma {:induction false} PartsOfStretch(n: List<Peer>, mine: seq<Entry<Peer>>, rows: seq<Entry<Peer>>, at: nat)
    returns (parts: seq<seq<Entry<Peer>>>)
    requires n.level > 0 && Stretch(n, mine, rows, at)
    ensures |parts| == FANOUT && Concat(parts) == mine && Concat(parts[..0]) == []
    ensures Parted(n, parts, rows, at)
  {
    hide Valid, Value;
    parts := Partition(n);
    NoneConcat();
    PartCount(n, parts);
    assert parts[..0] == [];
  }

  /** `renderAnnouncePeersL`: the peers of the list, from the first to the last or to a full answer. */
  method RenderPeers(block: Block, peerList: List?<Peer>, q: Request, ntop: Printer)
    returns (ghost chosen: seq<Entry<Peer>>)
    requires block.Valid() && block.peak < WORD / 16 && block.Contents() == []
    requires peerList != null ==> Valid(peerList) && Sound(Value(peerList))
    modifies block, block.data
    ensures block.Valid() && block.peak < WORD / 16 && (block.data == old(block.data) || fresh(block.data))
    ensures Chosen(q, if peerList == null then [] else old(Value(peerList)), chosen, ntop)
    ensures Sound(chosen) && block.Contents() == PeersText(q, chosen, ntop)
  {
    hide Valid, Value, Sound, PeersText, Underway, Chosen, Stretch;
    ghost var rows := if peerList == null then [] else Value(peerList);
    PeersBegin(q, rows, ntop);
    var stop, left := false, q.numwant;
    chosen := [];
    ghost var end := 0;
    if peerList != null {
      WholeStretch(peerList);
      stop, left, chosen, end := RenderNode(block, peerList, q, left, ntop, rows, rows, 0, chosen);
    }
    if !stop {
      PeersFinished(q, rows, chosen, left, ntop);
    }
  }

  lemma {:induction false} WholeStretch(n: List<Peer>)
    requires Valid(n)
    ensures Stretch(n, Value(n), Value(n), 0)
  {
    hide Valid, Value;
    assert Value(n)[0..|Value(n)|] == Value(n);
  }
}
