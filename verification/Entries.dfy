/**
 * The abstract value of a hash list: its hashes with their data, in the order in which a traversal
 * meets them, and the finite map they stand for.
 */
module Entries {
  import opened Bytes
  import opened HashOrder

  datatype Entry<+D> = Entry(hash: Hash, data: Option<D>)

  ghost predicate Distinct<D>(e: seq<Entry<D>>) {
    forall i, j :: 0 <= i < j < |e| ==> e[i].hash != e[j].hash
  }

  /** The finite map from hash to data. */
  function ToMap<D>(e: seq<Entry<D>>): map<Hash, Option<D>> {
    if e == [] then map[]
    else ToMap(e[..|e| - 1])[e[|e| - 1].hash := e[|e| - 1].data]
  }

  function InsertAt<T>(s: seq<T>, k: nat, x: T): seq<T>
    requires k <= |s|
  {
    s[..k] + [x] + s[k..]
  }

  function RemoveAt<T>(s: seq<T>, k: nat): seq<T>
    requires k < |s|
  {
    s[..k] + s[k + 1..]
  }

  /** The heap blocks behind the entries: the item, its hash and, if present, its data. */
  function Blocks<D>(e: seq<Entry<D>>): nat {
    if e == [] then 0
    else Blocks(e[..|e| - 1]) + 2 + if e[|e| - 1].data.Some? then 1 else 0
  }

  lemma {:induction false} ToMapDomain<D>(e: seq<Entry<D>>, h: Hash)
    ensures h in ToMap(e) <==> exists i :: 0 <= i < |e| && e[i].hash == h
  {
    if e != [] {
      var n := |e| - 1;
      ToMapDomain(e[..n], h);
      if h in ToMap(e[..n]) {
        var i :| 0 <= i < n && e[..n][i].hash == h;
        assert e[i].hash == h;
      }
      if h in ToMap(e) && h !in ToMap(e[..n]) {
        assert e[n].hash == h;
      }
      if i :| 0 <= i < |e| && e[i].hash == h {
        assert i == n || e[..n][i].hash == h;
      }
    }
  }

  lemma {:induction false} ToMapAt<D>(e: seq<Entry<D>>, i: nat)
    requires Distinct(e) && i < |e|
    ensures e[i].hash in ToMap(e) && ToMap(e)[e[i].hash] == e[i].data
  {
    var n := |e| - 1;
    if i < n {
      ToMapAt(e[..n], i);
    }
  }

  lemma {:induction false} InsertAtEnd<T>(s: seq<T>, x: T)
    ensures InsertAt(s, |s|, x) == s + [x]
  {
  }

  /** An insertion before the end, cut at its last element. */
  lemma {:induction false} InsertBefore<T>(s: seq<T>, k: nat, x: T)
    requires k < |s|
    ensures InsertAt(s, k, x) == InsertAt(s[..|s| - 1], k, x) + [s[|s| - 1]]
  {
    assert s[k..] == s[..|s| - 1][k..] + [s[|s| - 1]];
  }

  lemma {:induction false} ToMapMore<D>(e: seq<Entry<D>>, x: Entry<D>)
    ensures ToMap(e + [x]) == ToMap(e)[x.hash := x.data]
    ensures Blocks(e + [x]) == Blocks(e) + 2 + if x.data.Some? then 1 else 0
  {
    assert (e + [x])[..|e|] == e;
  }

  lemma {:induction false} ToMapInsert<D>(e: seq<Entry<D>>, k: nat, x: Entry<D>)
    requires k <= |e|
    requires forall i :: 0 <= i < |e| ==> e[i].hash != x.hash
    ensures ToMap(InsertAt(e, k, x)) == ToMap(e)[x.hash := x.data]
    ensures Blocks(InsertAt(e, k, x)) == Blocks(e) + 2 + if x.data.Some? then 1 else 0
  {
    hide InsertAt, ToMap, Blocks;
    if k == |e| {
      InsertAtEnd(e, x);
      ToMapMore(e, x);
    } else {
      var n := |e| - 1;
      InsertBefore(e, k, x);
      ToMapInsert(e[..n], k, x);
      ToMapMore(InsertAt(e[..n], k, x), e[n]);
      assert e[..n] + [e[n]] == e;
      ToMapMore(e[..n], e[n]);
    }
  }

  lemma {:induction false} ToMapRemove<D>(e: seq<Entry<D>>, k: nat)
    requires Distinct(e) && k < |e|
    ensures ToMap(RemoveAt(e, k)) == ToMap(e) - {e[k].hash}
    ensures Blocks(e) == Blocks(RemoveAt(e, k)) + 2 + if e[k].data.Some? then 1 else 0
  {
    var r := RemoveAt(e, k);
    assert e == InsertAt(r, k, e[k]);
    assert forall i :: 0 <= i < |r| ==> r[i] == e[if i < k then i else i + 1];
    ToMapInsert(r, k, e[k]);
    ToMapDomain(r, e[k].hash);
  }

  lemma {:induction false} ToMapReplace<D>(e: seq<Entry<D>>, k: nat, x: Entry<D>)
    requires Distinct(e) && k < |e| && x.hash == e[k].hash
    ensures ToMap(e[k := x]) == ToMap(e)[x.hash := x.data]
    ensures Blocks(e[k := x]) - Blocks(e)
         == (if x.data.Some? then 1 else 0) - (if e[k].data.Some? then 1 else 0)
  {
    var n := |e| - 1;
    var r := e[k := x];
    if k == n {
      assert r[..n] == e[..n];
    } else {
      ToMapReplace(e[..n], k, x);
      assert r[..n] == e[..n][k := x];
      assert r[n] == e[n];
    }
  }

  /** Entries in strictly increasing place are determined by the map they stand for. */
  lemma {:induction false} EntriesDeterminedByMap<D>(e: seq<Entry<D>>, f: seq<Entry<D>>, place: Hash -> int)
    requires forall i, j :: 0 <= i < j < |e| ==> place(e[i].hash) < place(e[j].hash)
    requires forall i, j :: 0 <= i < j < |f| ==> place(f[i].hash) < place(f[j].hash)
    requires forall i, j :: 0 <= i < |e| && 0 <= j < |f| && place(e[i].hash) == place(f[j].hash) ==>
      e[i].hash == f[j].hash
    requires ToMap(e) == ToMap(f)
    ensures e == f
  {
    var s := seq(|e|, i requires 0 <= i < |e| => place(e[i].hash));
    var t := seq(|f|, i requires 0 <= i < |f| => place(f[i].hash));
    forall i | 0 <= i < |e| ensures s[i] in t {
      ToMapAt(e, i);
      ToMapDomain(f, e[i].hash);
      var j :| 0 <= j < |f| && f[j].hash == e[i].hash;
      assert t[j] == s[i];
    }
    forall i | 0 <= i < |f| ensures t[i] in s {
      ToMapAt(f, i);
      ToMapDomain(e, f[i].hash);
      var j :| 0 <= j < |e| && e[j].hash == f[i].hash;
      assert s[j] == t[i];
    }
    IncreasingIsUnique(s, t);
    forall i | 0 <= i < |e| ensures e[i] == f[i] {
      assert s[i] == t[i];
      ToMapAt(e, i);
      ToMapAt(f, i);
    }
  }

  // ---------------------------------------------------------------- traversal with a callback

  /** What one call of a traversal callback does: its own state, the item's data, and its verdict. */
  datatype Visit<+A, +D> = Visit(acc: A, data: Option<D>, delete: bool, stop: bool)

  datatype Swept<+A, +D> = Swept(acc: A, kept: seq<Entry<D>>, stopped: bool)

  /** The meaning of a traversal: one call per entry, in order, up to the first `stop`. */
  function Sweep<A, D>(e: seq<Entry<D>>, acc: A, visit: (A, Hash, Option<D>) -> Visit<A, D>): (r: Swept<A, D>)
  {
    if e == [] then Swept(acc, [], false)
    else
      var v := visit(acc, e[0].hash, e[0].data);
      var here := if v.delete then [] else [Entry(e[0].hash, v.data)];
      if v.stop then Swept(v.acc, here + e[1..], true)
      else
        var rest := Sweep(e[1..], v.acc, visit);
        Swept(rest.acc, here + rest.kept, rest.stopped)
  }

  /** A traversal of two stretches is the two traversals in a row, unless the first was broken off. */
  lemma {:induction false} SweepConcat<A, D>(e: seq<Entry<D>>, f: seq<Entry<D>>, acc: A,
                                             visit: (A, Hash, Option<D>) -> Visit<A, D>)
    ensures var a := Sweep(e, acc, visit);
            var b := Sweep(f, a.acc, visit);
            Sweep(e + f, acc, visit)
            == if a.stopped then Swept(a.acc, a.kept + f, true) else Swept(b.acc, a.kept + b.kept, b.stopped)
  {
    if e == [] {
      assert e + f == f;
      assert [] + Sweep(f, acc, visit).kept == Sweep(f, acc, visit).kept;
    } else {
      var v := visit(acc, e[0].hash, e[0].data);
      var here := if v.delete then [] else [Entry(e[0].hash, v.data)];
      assert (e + f)[0] == e[0] && (e + f)[1..] == e[1..] + f;
      SweepConcat(e[1..], f, v.acc, visit);
      var a := Sweep(e[1..], v.acc, visit);
      var b := Sweep(f, a.acc, visit);
      assert here + (e[1..] + f) == (here + e[1..]) + f;
      assert here + (a.kept + f) == (here + a.kept) + f;
      assert here + (a.kept + b.kept) == (here + a.kept) + b.kept;
    }
  }

  /** A traversal whose first calls have already kept `done`. */
  function After<A, D>(done: seq<Entry<D>>, rest: Swept<A, D>): Swept<A, D> {
    Swept(rest.acc, done + rest.kept, rest.stopped)
  }

  /** One call of the callback moves the front of a traversal by one entry. */
  lemma {:induction false} SweepStep<A, D>(done: seq<Entry<D>>, e: seq<Entry<D>>, acc: A,
                                           visit: (A, Hash, Option<D>) -> Visit<A, D>)
    requires e != []
    ensures var v := visit(acc, e[0].hash, e[0].data);
            var here := if v.delete then [] else [Entry(e[0].hash, v.data)];
            After(done, Sweep(e, acc, visit))
            == if v.stop then Swept(v.acc, done + here + e[1..], true)
               else After(done + here, Sweep(e[1..], v.acc, visit))
  {
  }

  lemma {:induction false} BlocksConcat<D>(e: seq<Entry<D>>, f: seq<Entry<D>>)
    ensures Blocks(e + f) == Blocks(e) + Blocks(f)
  {
    if f == [] {
      assert e + f == e;
    } else {
      BlocksConcat(e, f[..|f| - 1]);
      assert (e + f)[..|e + f| - 1] == e + f[..|f| - 1];
    }
  }

  lemma {:induction false} ToMapConcat<D>(e: seq<Entry<D>>, f: seq<Entry<D>>)
    ensures ToMap(e + f) == ToMap(e) + ToMap(f)
  {
    if f == [] {
      assert e + f == e;
    } else {
      ToMapConcat(e, f[..|f| - 1]);
      assert (e + f)[..|e + f| - 1] == e + f[..|f| - 1];
    }
  }

  /** In a sequence without repeated hashes, two stretches stand for maps with disjoint domains. */
  lemma {:induction false} StretchesDisjoint<D>(e: seq<Entry<D>>, f: seq<Entry<D>>)
    requires Distinct(e + f)
    ensures Distinct(e) && Distinct(f) && ToMap(e).Keys !! ToMap(f).Keys
  {
    assert forall i :: 0 <= i < |e| ==> (e + f)[i] == e[i];
    assert forall i :: 0 <= i < |f| ==> (e + f)[|e| + i] == f[i];
    forall h | h in ToMap(e) ensures h !in ToMap(f) {
      ToMapDomain(e, h);
      ToMapDomain(f, h);
      var i :| 0 <= i < |e| && e[i].hash == h;
      forall j | 0 <= j < |f| ensures f[j].hash != h {
        assert (e + f)[i].hash != (e + f)[|e| + j].hash;
      }
    }
  }

  /** The same callback, writing down the hash of every item it is called on. */
  function Logged<A, D>(visit: (A, Hash, Option<D>) -> Visit<A, D>)
      : ((A, seq<Hash>), Hash, Option<D>) -> Visit<(A, seq<Hash>), D> {
    (acc: (A, seq<Hash>), h: Hash, data: Option<D>) =>
      var v := visit(acc.0, h, data);
      Visit((v.acc, acc.1 + [h]), v.data, v.delete, v.stop)
  }

  /** A traversal is its first call and, unless that stops it, the traversal of the rest. */
  lemma {:induction false} SweepUnfold<A, D>(e: seq<Entry<D>>, acc: A, visit: (A, Hash, Option<D>) -> Visit<A, D>)
    requires e != []
    ensures var v := visit(acc, e[0].hash, e[0].data);
            var here := if v.delete then [] else [Entry(e[0].hash, v.data)];
            Sweep(e, acc, visit) == if v.stop then Swept(v.acc, here + e[1..], true)
                                    else After(here, Sweep(e[1..], v.acc, visit))
  {
  }

  /** How many calls a traversal makes: up to and including the first that answers `stop`. */
  function Calls<A, D>(e: seq<Entry<D>>, acc: A, visit: (A, Hash, Option<D>) -> Visit<A, D>): (n: nat)
    ensures n <= |e|
  {
    if e == [] then 0
    else
      var v := visit(acc, e[0].hash, e[0].data);
      if v.stop then 1 else 1 + Calls(e[1..], v.acc, visit)
  }

  /** The calls are made on the first entries, once each and in order; writing a log changes nothing else. */
  lemma {:induction false} SweepVisitsEachOnce<A, D>(e: seq<Entry<D>>, acc: A, log: seq<Hash>,
                                                     visit: (A, Hash, Option<D>) -> Visit<A, D>)
    ensures var plain := Sweep(e, acc, visit);
            var logged := Sweep(e, (acc, log), Logged(visit));
            && logged == Swept((plain.acc, logged.acc.1), plain.kept, plain.stopped)
            && |logged.acc.1| == |log| + Calls(e, acc, visit)
            && logged.acc.1[..|log|] == log
            && (forall i :: 0 <= i < Calls(e, acc, visit) ==> logged.acc.1[|log| + i] == e[i].hash)
  {
    if e != [] {
      var v := visit(acc, e[0].hash, e[0].data);
      if !v.stop {
        var next := log + [e[0].hash];
        SweepVisitsEachOnce(e[1..], v.acc, next, visit);
        var deep := Sweep(e[1..], (v.acc, next), Logged(visit)).acc.1;
        assert deep[..|log|] == deep[..|next|][..|log|] == log;
        assert deep[|log|] == deep[..|next|][|log|];
        forall i | 1 <= i < 1 + Calls(e[1..], v.acc, visit) ensures deep[|log| + i] == e[i].hash {
          assert deep[|next| + (i - 1)] == e[1..][i - 1].hash;
        }
      }
    }
  }

  /** The answer of call number `i`. */
  function Answer<A, D>(e: seq<Entry<D>>, i: nat, acc: A, visit: (A, Hash, Option<D>) -> Visit<A, D>): Visit<A, D>
    requires i < |e|
  {
    if i == 0 then visit(acc, e[0].hash, e[0].data)
    else Answer(e[1..], i - 1, visit(acc, e[0].hash, e[0].data).acc, visit)
  }

  /** A traversal is broken off exactly if its last call answers `stop`; no call before it does. */
  lemma {:induction false} SweepStopsOnlyOnRequest<A, D>(e: seq<Entry<D>>, acc: A,
                                                         visit: (A, Hash, Option<D>) -> Visit<A, D>)
    ensures var n := Calls(e, acc, visit);
            && (Sweep(e, acc, visit).stopped <==> n > 0 && Answer(e, n - 1, acc, visit).stop)
            && (forall i :: 0 <= i < n - 1 ==> !Answer(e, i, acc, visit).stop)
  {
    if e != [] {
      var v := visit(acc, e[0].hash, e[0].data);
      if !v.stop {
        SweepStopsOnlyOnRequest(e[1..], v.acc, visit);
        var n := Calls(e[1..], v.acc, visit);
        forall i | 0 <= i < n ensures !Answer(e, i, acc, visit).stop {
          assert i > 0 ==> Answer(e, i, acc, visit) == Answer(e[1..], i - 1, v.acc, visit);
        }
      }
    }
  }

  /** Unless it is broken off a traversal calls on every entry; broken off, it leaves the rest as it was. */
  lemma {:induction false} SweepLeavesTheRest<A, D>(e: seq<Entry<D>>, acc: A,
                                                    visit: (A, Hash, Option<D>) -> Visit<A, D>)
    ensures var s, n := Sweep(e, acc, visit), Calls(e, acc, visit);
            && (!s.stopped ==> n == |e|)
            && |s.kept| >= |e| - n && s.kept[|s.kept| - (|e| - n)..] == e[n..]
  {
    if e != [] {
      var v := visit(acc, e[0].hash, e[0].data);
      var here := if v.delete then [] else [Entry(e[0].hash, v.data)];
      if v.stop {
        assert (here + e[1..])[|here|..] == e[1..];
      } else {
        SweepLeavesTheRest(e[1..], v.acc, visit);
        var s, n := Sweep(e[1..], v.acc, visit), Calls(e[1..], v.acc, visit);
        var at := |s.kept| - (|e[1..]| - n);
        assert (here + s.kept)[|here| + at..] == s.kept[at..];
        assert e[1..][n..] == e[n + 1..];
      }
    }
  }
}
