/** The order of the semaphores, and what follows from it: no deadlock in any interleaving. */
module SocketLocks {
  import opened Sockets

  /** The order: socket list, its leaf, a leaf of the torrents, the websockets. */
  function PlaceInOrder(l: Lock): nat {
    match l
    case Global(_) => 0
    case Leaf(_, _) => 1
    case TorrentLeaf(_) => 2
    case Websockets => 3
  }

  /** Whose step an action is. */
  function Actor(a: Action): Thread {
    match a
    case Wait(t) => t
    case Post(t) => t
    case Go(t, _) => t
    case Accept(_, _) => Acceptor
    case AcceptZero => Acceptor
    case Insert => Acceptor
    case Mark(w) => Worker(w)
    case Close(t, _) => t
    case Remove(t) => t
    case Unlist(w) => Worker(w)
  }

  /** Every thread takes its semaphores in that order, at most one of each kind. */
  lemma {:induction false} TakenInOrder(p: Place)
    ensures Wanted(p).Some? ==> forall l :: l in Held(p) ==> PlaceInOrder(l) < PlaceInOrder(Wanted(p).value)
    ensures forall l, m :: l in Held(p) && m in Held(p) && PlaceInOrder(l) == PlaceInOrder(m) ==> l == m
  {
  }

  lemma {:induction false} WaitTakes(p: Place)
    requires Wanted(p).Some?
    ensures Held(AfterWait(p)) == Held(p) + {Wanted(p).value}
  {
  }

  lemma {:induction false} PostReleases(p: Place)
    requires AfterPost(p).Some?
    ensures AfterPost(p).value.lock in Held(p)
    ensures Held(AfterPost(p).value.place) == Held(p) - {AfterPost(p).value.lock}
  {
  }

  lemma {:induction false} GoKeeps(s: State, t: Thread, p: Place, q: Place)
    requires CanGo(s, t, p, q)
    ensures Held(p) == Held(q)
  {
  }

  // ---------------------------------------------------------------- who holds what

  /** A semaphore is taken exactly by the thread whose place says so. */
  ghost predicate LocksAgree(s: State) {
    && (forall t, l :: l in Held(At(s, t)) ==> l in s.holder && s.holder[l] == t)
    && (forall l :: l in s.holder ==> l in Held(At(s, s.holder[l])))
  }

  lemma {:induction false} HeldBy(s: State, t: Thread)
    requires LocksAgree(s)
    ensures forall l :: l in Held(At(s, t)) ==> l in s.holder && s.holder[l] == t
  {
    hide Held, At;
  }

  /** What one thread takes or posts is all that changes. */
  lemma {:induction false} ChangedLocks(s: State, t: Thread, u: State)
    requires LocksAgree(s) && (forall o :: o != t ==> At(u, o) == At(s, o))
    requires forall l :: l in Held(At(u, t)) ==> l in u.holder && u.holder[l] == t
    requires forall l :: l !in Held(At(s, t)) + Held(At(u, t)) ==>
      (l in u.holder <==> l in s.holder) && (l in s.holder ==> u.holder[l] == s.holder[l])
    requires forall l :: l in Held(At(s, t)) && l !in Held(At(u, t)) ==> l !in u.holder
    requires forall l :: l in Held(At(u, t)) && l !in Held(At(s, t)) ==> l !in s.holder
    ensures LocksAgree(u)
  {
    hide Held, At;
    forall o, l | l in Held(At(u, o)) ensures l in u.holder && u.holder[l] == o {
      HeldBy(s, t);
      HeldBy(s, o);
    }
    forall l | l in u.holder ensures l in Held(At(u, u.holder[l])) {
      if l !in Held(At(u, t)) {
        assert l in s.holder && l in Held(At(s, s.holder[l]));
      }
    }
  }

  lemma {:induction false} MovedLocks(s: State, t: Thread, p: Place, u: State)
    requires LocksAgree(s) && Held(p) == Held(At(s, t)) && u.holder == s.holder && u.places == s.places[t := p]
    ensures LocksAgree(u)
  {
    hide Held;
    assert At(u, t) == p && forall o :: o != t ==> At(u, o) == At(s, o);
    HeldBy(s, t);
    ChangedLocks(s, t, u);
  }

  lemma {:induction false} WaitedLocks(s: State, t: Thread)
    requires LocksAgree(s) && Enabled(s, Wait(t))
    ensures LocksAgree(Next(s, Wait(t)))
  {
    hide Held, Wanted, AfterWait;
    WaitTakes(At(s, t));
    HeldBy(s, t);
    var u := Next(s, Wait(t));
    assert At(u, t) == AfterWait(At(s, t)) && forall o :: o != t ==> At(u, o) == At(s, o);
    ChangedLocks(s, t, u);
  }

  lemma {:induction false} PostedLocks(s: State, t: Thread)
    requires LocksAgree(s) && Enabled(s, Post(t))
    ensures LocksAgree(Next(s, Post(t)))
  {
    hide Held, AfterPost;
    PostReleases(At(s, t));
    HeldBy(s, t);
    var u := Next(s, Post(t));
    assert At(u, t) == AfterPost(At(s, t)).value.place && forall o :: o != t ==> At(u, o) == At(s, o);
    ChangedLocks(s, t, u);
  }

  lemma {:induction false} StepKeepsLocks(s: State, a: Action)
    requires LocksAgree(s) && Enabled(s, a)
    ensures LocksAgree(Next(s, a))
  {
    hide LocksAgree, Wanted, AfterWait, AfterPost, CanGo, Held;
    match a
    case Wait(t) => WaitedLocks(s, t);
    case Post(t) => PostedLocks(s, t);
    case Go(t, to) =>
      GoKeeps(s, t, At(s, t), to);
      MovedLocks(s, t, to, Next(s, a));
    case AcceptZero => SamePlaces(s, Next(s, a));
    case Mark(w) => SamePlaces(s, Next(s, a));
    case _ => EffectKeepsLocks(s, a);
  }

  /** A step on shared data moves its thread, but takes and posts nothing. */
  lemma {:induction false} EffectKeepsLocks(s: State, a: Action)
    requires LocksAgree(s) && Enabled(s, a)
    requires a.Accept? || a.Insert? || a.Close? || a.Remove? || a.Unlist?
    ensures LocksAgree(Next(s, a))
  {
    hide LocksAgree, Next, Enabled, Held, At;
    var t, u := Actor(a), Next(s, a);
    EffectMoves(s, a);
    EffectHolds(s, a);
    MovedLocks(s, t, At(u, t), u);
  }

  lemma {:induction false} EffectMoves(s: State, a: Action)
    requires Enabled(s, a) && (a.Accept? || a.Insert? || a.Close? || a.Remove? || a.Unlist?)
    ensures var t, u := Actor(a), Next(s, a);
      u.places == s.places[t := At(u, t)] && u.holder == s.holder
  {
    hide Wanted, AfterWait, AfterPost, CanGo, NothingMarked, LeafOf, Held;
  }

  lemma {:induction false} EffectHolds(s: State, a: Action)
    requires Enabled(s, a) && (a.Accept? || a.Insert? || a.Close? || a.Remove? || a.Unlist?)
    ensures Held(At(Next(s, a), Actor(a))) == Held(At(s, Actor(a)))
  {
    hide Wanted, AfterWait, AfterPost, CanGo, NothingMarked, LeafOf;
  }

  lemma {:induction false} SamePlaces(s: State, u: State)
    requires LocksAgree(s) && u.holder == s.holder && u.places == s.places
    ensures LocksAgree(u)
  {
    hide Held;
    assert forall o :: At(u, o) == At(s, o);
  }

  lemma {:induction false} LocksAlwaysAgree(run: seq<Action>)
    requires Possible(run)
    ensures LocksAgree(After(run))
    decreases |run|
  {
    if run == [] {
      assert forall t :: At(START, t) == Idle;
    } else {
      hide LocksAgree, Enabled, Next;
      var n := |run| - 1;
      LocksAlwaysAgree(run[..n]);
      StepKeepsLocks(After(run[..n]), run[n]);
    }
  }

  // ---------------------------------------------------------------- no deadlock

  predicate Blocked(s: State, t: Thread) {
    Wanted(At(s, t)).Some? && Wanted(At(s, t)).value in s.holder
  }

  /** The thread that another one waits for. */
  function Blocker(s: State, t: Thread): Thread
    requires Blocked(s, t)
  {
    s.holder[Wanted(At(s, t)).value]
  }

  /** Each waits for the next; the last one is not blocked. */
  predicate Chain(s: State, chain: seq<Thread>) {
    && chain != []
    && (forall i :: 0 <= i < |chain| - 1 ==> Blocked(s, chain[i]) && chain[i + 1] == Blocker(s, chain[i]))
    && !Blocked(s, chain[|chain| - 1])
  }

  lemma {:induction false} ChainEnds(s: State, t: Thread) returns (chain: seq<Thread>)
    requires LocksAgree(s)
    ensures Chain(s, chain) && chain[0] == t
    ensures |chain| <= if Wanted(At(s, t)).Some? then 5 - PlaceInOrder(Wanted(At(s, t)).value) else 1
    decreases if Wanted(At(s, t)).Some? then 4 - PlaceInOrder(Wanted(At(s, t)).value) else 0
  {
    hide Held, Wanted, At;
    if !Blocked(s, t) {
      chain := [t];
    } else {
      var u := Blocker(s, t);
      TakenInOrder(At(s, u));
      var rest := ChainEnds(s, u);
      chain := [t] + rest;
      assert forall i :: 0 < i < |chain| ==> chain[i] == rest[i - 1];
    }
  }

  /**
   * In every reachable state and for every set of threads: not all of its members wait for one another.
   */
  lemma {:induction false} NoDeadlock(run: seq<Action>, threads: set<Thread>)
    requires Possible(run) && threads != {}
    ensures exists t :: t in threads && !(Blocked(After(run), t) && Blocker(After(run), t) in threads)
  {
    hide Blocked, LocksAgree, Possible, After;
    var s := After(run);
    LocksAlwaysAgree(run);
    var t :| t in threads;
    var chain := ChainEnds(s, t);
    if forall u :: u in threads ==> Blocked(s, u) && Blocker(s, u) in threads {
      ChainStays(s, chain, threads, |chain| - 1);
      assert false;
    }
  }

  lemma {:induction false} ChainStays(s: State, chain: seq<Thread>, threads: set<Thread>, i: nat)
    requires Chain(s, chain) && chain[0] in threads && i < |chain|
    requires forall u :: u in threads ==> Blocked(s, u) && Blocker(s, u) in threads
    ensures chain[i] in threads
  {
    hide Blocked, Blocker;
    if i > 0 {
      ChainStays(s, chain, threads, i - 1);
      assert chain[i - 1 + 1] == Blocker(s, chain[i - 1]);
    }
  }

  // ---------------------------------------------------------------- progress

  /** The places a thread's code has. */
  predicate Fits(t: Thread, p: Place) {
    if p.Idle? then true
    else if p.AcceptWant? || p.AcceptIn? || p.AcceptDone? then t == Acceptor
    else if p.SweepWantGlobal? || p.Sweeping? || p.SweepWant? || p.SweepIn? || p.SweepWantWeb? || p.SweepInWeb?
            || p.SweepClose? || p.SweepClosed? then t == SocketCollector
    else if p.TorrentWant? || p.TorrentIn? then t.UdpWorker? || t.TorrentCollector?
    else if p.WebWant? || p.WebIn? then t.UdpWorker?
    else t == Worker(p.w)
  }

  ghost predicate AllFit(s: State) {
    forall t :: Fits(t, At(s, t))
  }

  /** Wherever a step takes its thread, the place is one of the thread's own. */
  lemma {:induction false} ActorFits(s: State, a: Action)
    requires Fits(Actor(a), At(s, Actor(a))) && Enabled(s, a)
    ensures Fits(Actor(a), At(Next(s, a), Actor(a)))
  {
    hide NothingMarked, Held, LeafOf, CanGo, Wanted, AfterWait, AfterPost;
    var t, p := Actor(a), At(s, Actor(a));
    if a.Wait? {
      WaitFits(t, p);
    } else if a.Post? {
      PostFits(t, p);
    } else if a.Go? {
      MoveFits(s, t, p, a.to);
    }
  }

  lemma {:induction false} WaitFits(t: Thread, p: Place)
    requires Fits(t, p) && Wanted(p).Some?
    ensures Fits(t, AfterWait(p))
  {
    hide LeafOf;
  }

  lemma {:induction false} PostFits(t: Thread, p: Place)
    requires Fits(t, p) && AfterPost(p).Some?
    ensures Fits(t, AfterPost(p).value.place)
  {
    hide LeafOf;
  }

  lemma {:induction false} MoveFits(s: State, t: Thread, p: Place, q: Place)
    requires Fits(t, p) && CanGo(s, t, p, q)
    ensures Fits(t, q)
  {
    hide LeafOf;
  }

  lemma {:induction false} OthersStay(s: State, a: Action)
    requires Enabled(s, a)
    ensures forall o :: o != Actor(a) ==> At(Next(s, a), o) == At(s, o)
  {
    hide NothingMarked, Held, LeafOf, CanGo;
  }

  lemma {:induction false} StepKeepsFit(s: State, a: Action)
    requires AllFit(s) && Enabled(s, a)
    ensures AllFit(Next(s, a))
  {
    hide Fits, Enabled, Next, At, Actor;
    ActorFits(s, a);
    OthersStay(s, a);
  }

  lemma {:induction false} AlwaysFit(run: seq<Action>)
    requires Possible(run)
    ensures AllFit(After(run))
    decreases |run|
  {
    if run == [] {
      assert forall t :: At(START, t) == Idle;
    } else {
      hide AllFit, Enabled, Next;
      var n := |run| - 1;
      AlwaysFit(run[..n]);
      StepKeepsFit(After(run[..n]), run[n]);
    }
  }

  /** A thread that has begun something and is not blocked can take a step: no semaphore is kept for ever. */
  lemma {:induction false} CanStep(s: State, t: Thread) returns (a: Action)
    requires Fits(t, At(s, t)) && At(s, t) != Idle && !Blocked(s, t)
    ensures Actor(a) == t && Enabled(s, a)
  {
    var p := At(s, t);
    if Wanted(p).Some? {
      a := Wait(t);
    } else if p.Closing? && !NothingMarked(s, p.w) {
      var k :| k in s.marked && k.w == p.w;
      assert k == Key(p.w, k.fd);
      a := Go(t, CloseWant(p.w, k.fd));
    } else if AfterPost(p).Some? {
      a := Post(t);
    } else {
      a := match p
        case AcceptIn(_, _, _) => Insert
        case Events(w) => Go(t, Closing(w))
        case CloseIn(w, fd) => if Key(w, fd) in s.tracked then Close(t, true) else Go(t, CloseRemoved(w, fd))
        case CloseClosed(_, _) => Remove(t)
        case CloseUnlist(w, _) => Unlist(w)
        case SweepClose(_, _, _) => Close(t, true)
        case _ => Remove(t);
    }
  }

  /** Behind every blocked thread there is, at most four threads further, one that can take a step. */
  lemma {:induction false} Progress(run: seq<Action>, t: Thread) returns (chain: seq<Thread>, a: Action)
    requires Possible(run) && Blocked(After(run), t)
    ensures Chain(After(run), chain) && chain[0] == t && |chain| <= 5
    ensures Actor(a) == chain[|chain| - 1] && Enabled(After(run), a)
  {
    hide Enabled, Wanted, Held, Fits;
    var s := After(run);
    LocksAlwaysAgree(run);
    AlwaysFit(run);
    chain := ChainEnds(s, t);
    var u := chain[|chain| - 1];
    ChainBegun(s, chain);
    a := CanStep(s, u);
  }

  lemma {:induction false} ChainBegun(s: State, chain: seq<Thread>)
    requires LocksAgree(s) && Chain(s, chain) && Blocked(s, chain[0])
    ensures At(s, chain[|chain| - 1]) != Idle
  {
    var n := |chain| - 1;
    assert Blocked(s, chain[n - 1]) && chain[n - 1 + 1] == Blocker(s, chain[n - 1]);
  }
}
