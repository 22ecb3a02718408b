/** What every interleaving keeps of the connections: each is closed at most once, and none is lost. */
module SocketClosing {
  import opened Bytes
  import opened Sockets
  import opened SocketLocks

  // ---------------------------------------------------------------- the invariant

  /** Between `close` and `deleteItem`: the item is still in the list, its descriptor is free. */
  predicate Window(s: State, k: Key) {
    At(s, Worker(k.w)) == CloseClosed(k.w, k.fd) || At(s, SocketCollector) == SweepClosed(k.w, LeafOf(k.fd), k.fd)
  }

  /** Descriptors stand for different connections, and none of them has been closed. */
  ghost predicate Kernel(s: State) {
    && (forall fd :: fd in s.open ==> s.open[fd].id < s.next)
    && (forall f, g :: f in s.open && g in s.open && s.open[f] == s.open[g] ==> f == g)
    && (forall i :: 0 <= i < |s.closes| ==> s.closes[i].Some? && s.closes[i].value.id < s.next)
    && (forall i, j :: 0 <= i < j < |s.closes| ==> s.closes[i] != s.closes[j])
    && (forall i, fd :: 0 <= i < |s.closes| && fd in s.open ==> s.closes[i] != Some(s.open[fd]))
  }

  /** Outside its window a tracked item stands for the connection that is open on its descriptor. */
  ghost predicate ItemsLive(s: State) {
    && (forall k :: k in s.tracked ==> k.fd != 0 && s.tracked[k].home == k.w && s.tracked[k].id < s.next)
    && (forall k :: k in s.tracked && !Window(s, k) ==> k.fd in s.open && s.open[k.fd] == s.tracked[k])
    && (forall k, fd :: k in s.tracked && Window(s, k) && fd in s.open ==> s.open[fd] != s.tracked[k])
  }

  /** A descriptor the accept thread has got but not yet put on a list. */
  predicate InTransit(s: State, fd: Fd) {
    var p := At(s, Acceptor);
    (p.AcceptWant? || p.AcceptIn?) && p.fd == fd
  }

  ghost predicate TransitLive(s: State) {
    var p := At(s, Acceptor);
    p.AcceptWant? || p.AcceptIn? ==>
      && p.fd != 0 && p.fd in s.open && s.open[p.fd] == p.conn && p.conn.home == p.w
      && forall k :: k in s.tracked ==> s.tracked[k] != p.conn
  }

  /** No open connection is lost: it is in transit or on its list. */
  ghost predicate NoneLost(s: State) {
    forall fd :: fd in s.open && fd != 0 && !InTransit(s, fd) ==>
      var k := Key(s.open[fd].home, fd); k in s.tracked && s.tracked[k] == s.open[fd]
  }

  /** The places where a worker may have marked descriptors. */
  predicate Busy(p: Place) {
    || p.Events? || p.EventWant? || p.EventIn? || p.EventWantWeb? || p.EventInWeb? || p.EventWantTorrent?
    || p.EventInTorrent? || p.Closing? || p.CloseWant? || p.CloseIn? || p.CloseClosed? || p.CloseRemoved?
    || p.CloseUnlist? || p.CloseWantWeb? || p.CloseInWeb?
  }

  /** The item is gone from the socket list, but not yet from the delete list. */
  predicate Unlisting(p: Place, fd: Fd) {
    (p.CloseRemoved? || p.CloseUnlist?) && p.fd == fd
  }

  /** What a worker has marked is still tracked, as the same connection. */
  ghost predicate MarksLive(s: State) {
    forall k :: k in s.marked ==>
      && Busy(At(s, Worker(k.w)))
      && (Unlisting(At(s, Worker(k.w)), k.fd) || (k in s.tracked && s.tracked[k] == s.marked[k]))
  }

  /** A worker closes only what it has marked, the collector only what it has found. */
  ghost predicate PlacesLive(s: State) {
    && (forall w :: var p := At(s, Worker(w));
                    p.CloseWant? || p.CloseIn? || p.CloseClosed? || p.CloseRemoved? || p.CloseUnlist? ==>
                      Key(w, p.fd) in s.marked)
    && var p := At(s, SocketCollector);
       p.SweepWantWeb? || p.SweepInWeb? || p.SweepClose? || p.SweepClosed? ==>
         p.b == LeafOf(p.fd) && Key(p.w, p.fd) in s.tracked
  }

  /** The counters of the statistics; descriptor 0 is never counted. */
  ghost predicate Counted(s: State) {
    && s.acceptPass == s.closePass + s.closeFailed + |s.open.Keys - {0}|
    && s.closePass + s.closeFailed == |s.closes|
  }

  ghost predicate Inv(s: State) {
    && LocksAgree(s) && AllFit(s)
    && Kernel(s) && ItemsLive(s) && TransitLive(s) && NoneLost(s) && MarksLive(s) && PlacesLive(s) && Counted(s)
  }

  lemma {:induction false} InvParts(s: State)
    requires Inv(s)
    ensures LocksAgree(s) && AllFit(s)
    ensures Kernel(s) && ItemsLive(s) && TransitLive(s) && NoneLost(s) && MarksLive(s) && PlacesLive(s) && Counted(s)
  {
    hide LocksAgree, AllFit, Kernel, ItemsLive, TransitLive, NoneLost, MarksLive, PlacesLive, Counted;
  }

  lemma {:induction false} InvWhole(s: State)
    requires LocksAgree(s) && AllFit(s)
    requires Kernel(s) && ItemsLive(s) && TransitLive(s) && NoneLost(s) && MarksLive(s) && PlacesLive(s) && Counted(s)
    ensures Inv(s)
  {
    hide LocksAgree, AllFit, Kernel, ItemsLive, TransitLive, NoneLost, MarksLive, PlacesLive, Counted;
  }

  // ---------------------------------------------------------------- exclusion

  lemma {:induction false} Exclusive(s: State, t: Thread, u: Thread, l: Lock)
    requires LocksAgree(s) && l in Held(At(s, t)) && l in Held(At(s, u))
    ensures t == u
  {
    assert s.holder[l] == t;
    assert s.holder[l] == u;
  }

  lemma {:induction false} BusyHoldsGlobal(s: State, w: nat)
    requires AllFit(s) && Busy(At(s, Worker(w)))
    ensures Global(w) in Held(At(s, Worker(w)))
  {
  }

  /** While a worker may have marks, the collector is not in its list. */
  lemma {:induction false} Apart(s: State, w: nat)
    requires LocksAgree(s) && AllFit(s) && Busy(At(s, Worker(w)))
    ensures var p := At(s, SocketCollector);
      (p.Sweeping? || p.SweepWant? || p.SweepIn? || p.SweepWantWeb? || p.SweepInWeb? || p.SweepClose? || p.SweepClosed?)
      ==> p.w != w
  {
    BusyHoldsGlobal(s, w);
    var p := At(s, SocketCollector);
    if (p.Sweeping? || p.SweepWant? || p.SweepIn? || p.SweepWantWeb? || p.SweepInWeb? || p.SweepClose?
      || p.SweepClosed?)
       && p.w == w {
      Exclusive(s, Worker(w), SocketCollector, Global(w));
    }
  }

  // ---------------------------------------------------------------- steps that touch no connection

  /** A move that changes neither a window nor what is in transit, nor leaves marks behind. */
  ghost predicate Harmless(s: State, t: Thread, p: Place, q: Place) {
    && !p.CloseClosed? && !p.SweepClosed? && !q.CloseClosed? && !q.SweepClosed?
    && (t == Acceptor ==> ((p.AcceptWant? || p.AcceptIn?) <==> (q.AcceptWant? || q.AcceptIn?)))
    && (t == Acceptor && (p.AcceptWant? || p.AcceptIn?) ==> p.w == q.w && p.fd == q.fd && p.conn == q.conn)
    && (t.Worker? ==>
      && (Busy(p) && !Busy(q) ==> forall k :: k in s.marked ==> k.w != t.w)
      && (forall fd :: Unlisting(p, fd) ==> Unlisting(q, fd))
      && (q.CloseWant? || q.CloseIn? || q.CloseRemoved? || q.CloseUnlist? ==> Key(t.w, q.fd) in s.marked))
    && (t == SocketCollector && (q.SweepWantWeb? || q.SweepInWeb? || q.SweepClose?) ==>
      q.b == LeafOf(q.fd) && Key(q.w, q.fd) in s.tracked)
  }

  /** The same connections and lists, with one thread elsewhere. */
  predicate OnlyMoved(s: State, t: Thread, q: Place, u: State) {
    && u.places == s.places[t := q]
    && u.(places := s.places, holder := s.holder) == s
  }

  lemma {:induction false} SameKernel(s: State, u: State)
    requires Kernel(s) && u.open == s.open && u.closes == s.closes && u.next == s.next
    ensures Kernel(u)
  {
  }

  lemma {:induction false} SameItems(s: State, u: State)
    requires ItemsLive(s) && u.open == s.open && u.tracked == s.tracked && u.next == s.next
    requires forall k :: Window(u, k) <==> Window(s, k)
    ensures ItemsLive(u)
  {
  }

  lemma {:induction false} SameTransit(s: State, u: State)
    requires TransitLive(s) && NoneLost(s) && u.open == s.open && u.tracked == s.tracked
    requires At(u, Acceptor) == At(s, Acceptor)
    ensures TransitLive(u) && NoneLost(u)
  {
  }

  lemma {:induction false} SameMarks(s: State, u: State)
    requires MarksLive(s) && PlacesLive(s) && u.marked == s.marked && u.tracked == s.tracked
    requires forall o :: o != Acceptor ==> At(u, o) == At(s, o)
    ensures MarksLive(u) && PlacesLive(u)
  {
  }

  lemma {:induction false} HarmlessItems(s: State, t: Thread, q: Place, u: State)
    requires Inv(s) && OnlyMoved(s, t, q, u) && Harmless(s, t, At(s, t), q) && Fits(t, At(s, t)) && Fits(t, q)
    ensures Kernel(u) && ItemsLive(u) && Counted(u)
  {
    hide Held, LocksAgree, AllFit, LeafOf, Kernel, ItemsLive, Counted, TransitLive, NoneLost, MarksLive, PlacesLive;
    assert At(u, t) == q && forall o :: o != t ==> At(u, o) == At(s, o);
    assert forall k :: Window(u, k) <==> Window(s, k);
    SameKernel(s, u);
    SameItems(s, u);
    SameCount(s, u);
  }

  lemma {:induction false} SameCount(s: State, u: State)
    requires Counted(s) && u.open == s.open && u.closes == s.closes
    requires u.acceptPass == s.acceptPass && u.closePass == s.closePass && u.closeFailed == s.closeFailed
    ensures Counted(u)
  {
  }

  lemma {:induction false} HarmlessTransit(s: State, t: Thread, q: Place, u: State)
    requires Inv(s) && OnlyMoved(s, t, q, u) && Harmless(s, t, At(s, t), q) && Fits(t, At(s, t)) && Fits(t, q)
    ensures TransitLive(u) && NoneLost(u)
  {
    hide Held, LocksAgree, AllFit, LeafOf, Kernel, ItemsLive, MarksLive, PlacesLive, Counted;
    assert At(u, t) == q && forall o :: o != t ==> At(u, o) == At(s, o);
    assert forall fd :: InTransit(u, fd) <==> InTransit(s, fd);
  }

  lemma {:induction false} HarmlessMarks(s: State, t: Thread, q: Place, u: State)
    requires Inv(s) && OnlyMoved(s, t, q, u) && Harmless(s, t, At(s, t), q) && Fits(t, At(s, t)) && Fits(t, q)
    ensures MarksLive(u) && PlacesLive(u)
  {
    hide Held, LocksAgree, AllFit, LeafOf, Kernel, ItemsLive, TransitLive, NoneLost, Counted;
    assert At(u, t) == q && forall o :: o != t ==> At(u, o) == At(s, o);
  }

  lemma {:induction false} HarmlessKeeps(s: State, t: Thread, q: Place, u: State)
    requires Inv(s) && OnlyMoved(s, t, q, u) && LocksAgree(u) && AllFit(u)
    requires Harmless(s, t, At(s, t), q) && Fits(t, At(s, t)) && Fits(t, q)
    ensures Inv(u)
  {
    hide LocksAgree, AllFit, Kernel, ItemsLive, TransitLive, NoneLost, MarksLive, PlacesLive, Counted, Harmless,
         OnlyMoved;
    HarmlessItems(s, t, q, u);
    HarmlessTransit(s, t, q, u);
    HarmlessMarks(s, t, q, u);
  }

  lemma {:induction false} WaitIsHarmless(s: State, t: Thread)
    requires Inv(s) && Enabled(s, Wait(t))
    ensures Harmless(s, t, At(s, t), AfterWait(At(s, t)))
  {
    hide LocksAgree, Kernel, ItemsLive, TransitLive, NoneLost, Counted, LeafOf;
    assert Fits(t, At(s, t));
  }

  lemma {:induction false} PostIsHarmless(s: State, t: Thread)
    requires Inv(s) && Enabled(s, Post(t))
    ensures Harmless(s, t, At(s, t), AfterPost(At(s, t)).value.place)
  {
    hide LocksAgree, Kernel, ItemsLive, TransitLive, NoneLost, Counted, LeafOf;
    assert Fits(t, At(s, t));
  }

  lemma {:induction false} GoIsHarmless(s: State, t: Thread, to: Place)
    requires Inv(s) && Enabled(s, Go(t, to))
    ensures Harmless(s, t, At(s, t), to)
  {
    hide LocksAgree, Kernel, ItemsLive, TransitLive, NoneLost, Counted, LeafOf;
    assert Fits(t, At(s, t));
  }

  lemma {:induction false} QuietStep(s: State, a: Action)
    requires Inv(s) && Enabled(s, a) && (a.Wait? || a.Post? || a.Go?)
    ensures Inv(Next(s, a))
  {
    hide Inv, Harmless, LocksAgree, AllFit, NothingMarked, CanGo;
    InvParts(s);
    StepKeepsLocks(s, a);
    StepKeepsFit(s, a);
    var u := Next(s, a);
    FitAt(s, a.t);
    FitAt(u, a.t);
    match a
    case Wait(t) => WaitIsHarmless(s, t); HarmlessKeeps(s, t, AfterWait(At(s, t)), u);
    case Post(t) => PostIsHarmless(s, t); HarmlessKeeps(s, t, AfterPost(At(s, t)).value.place, u);
    case Go(t, to) => GoIsHarmless(s, t, to); HarmlessKeeps(s, t, to, u);
  }

  lemma {:induction false} FitAt(s: State, t: Thread)
    requires AllFit(s)
    ensures Fits(t, At(s, t))
  {
  }

  // ---------------------------------------------------------------- accept

  lemma {:induction false} WindowsOf(s: State, u: State, t: Thread)
    requires forall o :: o != t ==> At(u, o) == At(s, o)
    requires !At(s, t).CloseClosed? && !At(s, t).SweepClosed? && !At(u, t).CloseClosed? && !At(u, t).SweepClosed?
    ensures forall k :: Window(u, k) <==> Window(s, k)
  {
  }

  /** A descriptor that was free stands for a new connection. */
  lemma {:induction false} Opened(s: State, u: State, fd: Fd, c: Conn)
    requires Kernel(s) && ItemsLive(s) && fd !in s.open && c.id == s.next
    requires u.open == s.open[fd := c] && u.next == s.next + 1 && u.closes == s.closes && u.tracked == s.tracked
    requires forall k :: Window(u, k) <==> Window(s, k)
    ensures Kernel(u) && ItemsLive(u)
    ensures forall k :: k in u.tracked ==> u.tracked[k] != c
  {
    hide Window;
  }

  lemma {:induction false} AcceptTransit(s: State, u: State, fd: Fd, c: Conn)
    requires NoneLost(s) && At(s, Acceptor) == Idle && fd != 0
    requires u.open == s.open[fd := c] && u.tracked == s.tracked && At(u, Acceptor) == AcceptWant(c.home, fd, c)
    requires forall k :: k in u.tracked ==> u.tracked[k] != c
    ensures TransitLive(u) && NoneLost(u)
  {
  }

  lemma {:induction false} AcceptEffect(s: State, fd: Fd, w: nat)
    requires Enabled(s, Accept(fd, w))
    ensures At(s, Acceptor) == Idle && fd != 0 && fd !in s.open
    ensures var u, c := Next(s, Accept(fd, w)), Conn(s.next, w);
      && u.open == s.open[fd := c] && u.next == s.next + 1 && u.closes == s.closes
      && u.tracked == s.tracked && u.marked == s.marked
      && At(u, Acceptor) == AcceptWant(w, fd, c) && (forall o :: o != Acceptor ==> At(u, o) == At(s, o))
      && u.acceptPass == s.acceptPass + 1 && u.closePass == s.closePass && u.closeFailed == s.closeFailed
  {
  }

  lemma {:induction false} AcceptCount(s: State, u: State, fd: Fd, c: Conn)
    requires Counted(s) && fd != 0 && fd !in s.open && u.open == s.open[fd := c] && u.closes == s.closes
    requires u.acceptPass == s.acceptPass + 1 && u.closePass == s.closePass && u.closeFailed == s.closeFailed
    ensures Counted(u)
  {
  }

  lemma {:induction false} OneMore(a: set<Fd>, fd: Fd)
    requires fd !in a
    ensures |a + {fd}| == |a| + 1
  {
  }

  lemma {:induction false} AcceptKeeps(s: State, fd: Fd, w: nat)
    requires Inv(s) && Enabled(s, Accept(fd, w))
    ensures Inv(Next(s, Accept(fd, w)))
  {
    hide *;
    var u, c := Next(s, Accept(fd, w)), Conn(s.next, w);
    InvParts(s);
    AcceptEffect(s, fd, w);
    StepKeepsLocks(s, Accept(fd, w));
    StepKeepsFit(s, Accept(fd, w));
    WindowsOf(s, u, Acceptor);
    Opened(s, u, fd, c);
    AcceptTransit(s, u, fd, c);
    SameMarks(s, u);
    AcceptCount(s, u, fd, c);
    InvWhole(u);
  }

  lemma {:induction false} ZeroTransit(s: State, u: State, c: Conn)
    requires NoneLost(s) && TransitLive(s) && u.open == s.open[0 := c] && u.tracked == s.tracked
    requires At(u, Acceptor) == At(s, Acceptor)
    ensures TransitLive(u) && NoneLost(u)
  {
  }

  lemma {:induction false} ZeroEffect(s: State)
    requires Enabled(s, AcceptZero)
    ensures At(s, Acceptor) == Idle && 0 !in s.open
    ensures var u, c := Next(s, AcceptZero), Conn(s.next, 0);
      && u.open == s.open[0 := c] && u.next == s.next + 1 && u.closes == s.closes
      && u.tracked == s.tracked && u.marked == s.marked && (forall o :: At(u, o) == At(s, o))
      && u.acceptPass == s.acceptPass && u.closePass == s.closePass && u.closeFailed == s.closeFailed
  {
  }

  lemma {:induction false} ZeroCount(s: State, u: State, c: Conn)
    requires Counted(s) && u.open == s.open[0 := c] && u.closes == s.closes
    requires u.acceptPass == s.acceptPass && u.closePass == s.closePass && u.closeFailed == s.closeFailed
    ensures Counted(u)
  {
  }

  lemma {:induction false} AcceptZeroKeeps(s: State)
    requires Inv(s) && Enabled(s, AcceptZero)
    ensures Inv(Next(s, AcceptZero))
  {
    hide *;
    var u, c := Next(s, AcceptZero), Conn(s.next, 0);
    InvParts(s);
    ZeroEffect(s);
    StepKeepsLocks(s, AcceptZero);
    StepKeepsFit(s, AcceptZero);
    WindowsOf(s, u, Acceptor);
    Opened(s, u, 0, c);
    ZeroTransit(s, u, c);
    SameMarks(s, u);
    ZeroCount(s, u, c);
    InvWhole(u);
  }

  // ---------------------------------------------------------------- setHash on the socket list

  /** The leaf keeps the accept thread away from an item that is being removed. */
  lemma {:induction false} NoWindowAtInsert(s: State)
    requires LocksAgree(s) && At(s, Acceptor).AcceptIn?
    ensures !Window(s, Key(At(s, Acceptor).w, At(s, Acceptor).fd))
  {
    hide LeafOf;
    var p := At(s, Acceptor);
    var k, l := Key(p.w, p.fd), Leaf(p.w, LeafOf(p.fd));
    if Window(s, k) {
      Exclusive(s, Acceptor, if At(s, Worker(k.w)) == CloseClosed(k.w, k.fd) then Worker(k.w) else SocketCollector, l);
    }
  }

  /** So the item is new: its descriptor stands for a connection that no list holds. */
  lemma {:induction false} NewItem(s: State)
    requires LocksAgree(s) && ItemsLive(s) && TransitLive(s) && At(s, Acceptor).AcceptIn?
    ensures Key(At(s, Acceptor).w, At(s, Acceptor).fd) !in s.tracked
  {
    hide Window;
    NoWindowAtInsert(s);
    var p := At(s, Acceptor);
    var k := Key(p.w, p.fd);
  }

  lemma {:induction false} InsertItems(s: State, u: State, p: Place)
    requires ItemsLive(s) && Kernel(s) && TransitLive(s) && NoneLost(s) && p == At(s, Acceptor) && p.AcceptIn?
    requires !Window(s, Key(p.w, p.fd)) && (forall k :: Window(u, k) <==> Window(s, k))
    requires u.open == s.open && u.next == s.next && u.tracked == s.tracked[Key(p.w, p.fd) := p.conn]
    requires At(u, Acceptor) == AcceptDone(p.w, p.fd)
    ensures ItemsLive(u) && TransitLive(u) && NoneLost(u)
  {
    hide Window;
    assert forall f :: InTransit(s, f) <==> f == p.fd;
    assert forall f :: !InTransit(u, f);
  }

  lemma {:induction false} InsertMarks(s: State, u: State, k: Key, c: Conn)
    requires MarksLive(s) && PlacesLive(s) && k !in s.tracked && u.tracked == s.tracked[k := c] && u.marked == s.marked
    requires forall o :: o != Acceptor ==> At(u, o) == At(s, o)
    ensures MarksLive(u) && PlacesLive(u)
  {
  }

  /** What a step leaves alone in the kernel and the statistics. */
  predicate SameKernelFields(s: State, u: State) {
    && u.open == s.open && u.next == s.next && u.closes == s.closes
    && u.acceptPass == s.acceptPass && u.closePass == s.closePass && u.closeFailed == s.closeFailed
  }

  lemma {:induction false} SameFields(s: State, u: State)
    requires SameKernelFields(s, u) && Kernel(s) && Counted(s)
    ensures Kernel(u) && Counted(u) && u.open == s.open && u.next == s.next
  {
  }

  lemma {:induction false} InsertEffect(s: State)
    requires Enabled(s, Insert)
    ensures At(s, Acceptor).AcceptIn?
    ensures var u, p := Next(s, Insert), At(s, Acceptor);
      && SameKernelFields(s, u) && u.tracked == s.tracked[Key(p.w, p.fd) := p.conn] && u.marked == s.marked
      && At(u, Acceptor) == AcceptDone(p.w, p.fd) && (forall o :: o != Acceptor ==> At(u, o) == At(s, o))
  {
  }

  lemma {:induction false} InsertKeeps(s: State)
    requires Inv(s) && Enabled(s, Insert)
    ensures Inv(Next(s, Insert))
  {
    hide *;
    var u, p := Next(s, Insert), At(s, Acceptor);
    InvParts(s);
    InsertEffect(s);
    StepKeepsLocks(s, Insert);
    StepKeepsFit(s, Insert);
    NoWindowAtInsert(s);
    NewItem(s);
    WindowsOf(s, u, Acceptor);
    SameFields(s, u);
    InsertItems(s, u, p);
    InsertMarks(s, u, Key(p.w, p.fd), p.conn);
    InvWhole(u);
  }

  // ---------------------------------------------------------------- setHash and deleteItem on the delete list

  lemma {:induction false} MarkMarks(s: State, u: State, k: Key)
    requires MarksLive(s) && PlacesLive(s) && k in s.tracked && At(s, Worker(k.w)).EventIn?
    requires u.places == s.places && u.tracked == s.tracked && u.marked == s.marked[k := s.tracked[k]]
    ensures MarksLive(u) && PlacesLive(u)
  {
    assert forall o :: At(u, o) == At(s, o);
  }

  lemma {:induction false} MarkEffect(s: State, w: nat)
    requires Enabled(s, Mark(w)) && AllFit(s)
    ensures var u, p := Next(s, Mark(w)), At(s, Worker(w));
      && p.EventIn? && p.w == w && Key(w, p.fd) in s.tracked
      && SameKernelFields(s, u) && u.tracked == s.tracked && u.places == s.places
      && u.marked == s.marked[Key(w, p.fd) := s.tracked[Key(w, p.fd)]] && (forall o :: At(u, o) == At(s, o))
  {
  }

  lemma {:induction false} MarkKeeps(s: State, w: nat)
    requires Inv(s) && Enabled(s, Mark(w))
    ensures Inv(Next(s, Mark(w)))
  {
    hide *;
    var u, p := Next(s, Mark(w)), At(s, Worker(w));
    InvParts(s);
    MarkEffect(s, w);
    StepKeepsLocks(s, Mark(w));
    StepKeepsFit(s, Mark(w));
    WindowsOf(s, u, Worker(w));
    SameFields(s, u);
    SameItems(s, u);
    SameTransit(s, u);
    MarkMarks(s, u, Key(w, p.fd));
    InvWhole(u);
  }

  lemma {:induction false} UnlistMarks(s: State, u: State, w: nat, fd: Fd)
    requires MarksLive(s) && PlacesLive(s) && At(s, Worker(w)) == CloseUnlist(w, fd)
    requires At(u, Worker(w)) == CloseWantWeb(w, fd) && (forall o :: o != Worker(w) ==> At(u, o) == At(s, o))
    requires u.tracked == s.tracked && u.marked == s.marked - {Key(w, fd)}
    ensures MarksLive(u) && PlacesLive(u)
  {
    hide LeafOf;
    forall k | k in u.marked
      ensures Busy(At(u, Worker(k.w)))
      ensures Unlisting(At(u, Worker(k.w)), k.fd) || (k in u.tracked && u.tracked[k] == u.marked[k])
    {
      assert k != Key(w, fd) && k == Key(k.w, k.fd);
    }
  }

  lemma {:induction false} UnlistEffect(s: State, w: nat)
    requires Enabled(s, Unlist(w)) && AllFit(s)
    ensures var u, p := Next(s, Unlist(w)), At(s, Worker(w));
      && p == CloseUnlist(w, p.fd) && At(u, Worker(w)) == CloseWantWeb(w, p.fd)
      && SameKernelFields(s, u) && u.tracked == s.tracked && u.marked == s.marked - {Key(w, p.fd)}
      && (forall o :: o != Worker(w) ==> At(u, o) == At(s, o))
  {
    assert Fits(Worker(w), At(s, Worker(w)));
  }

  lemma {:induction false} UnlistKeeps(s: State, w: nat)
    requires Inv(s) && Enabled(s, Unlist(w))
    ensures Inv(Next(s, Unlist(w)))
  {
    hide *;
    var u, p := Next(s, Unlist(w)), At(s, Worker(w));
    InvParts(s);
    UnlistEffect(s, w);
    StepKeepsLocks(s, Unlist(w));
    StepKeepsFit(s, Unlist(w));
    WindowsOf(s, u, Worker(w));
    SameFields(s, u);
    SameItems(s, u);
    SameTransit(s, u);
    UnlistMarks(s, u, w, p.fd);
    InvWhole(u);
  }

  // ---------------------------------------------------------------- close

  /** The item that a thread in front of `close` or `deleteItem` works on; nobody else works on it. */
  lemma {:induction false} CloserIsAlone(s: State, t: Thread)
    requires LocksAgree(s) && AllFit(s) && MarksLive(s) && PlacesLive(s)
    requires At(s, t).CloseIn? || At(s, t).SweepClose?
    ensures var k := Subject(At(s, t));
      && k in s.tracked && !Window(s, k) && (t == Worker(k.w) || t == SocketCollector)
      && (t == Worker(k.w) ==> k in s.marked && s.marked[k] == s.tracked[k])
  {
    hide LeafOf, Held;
    FitAt(s, t);
    var p := At(s, t);
    var k := Subject(p);
    if p.CloseIn? {
      Apart(s, k.w);
    } else if Busy(At(s, Worker(k.w))) {
      Apart(s, k.w);
    }
  }

  lemma {:induction false} CloseEffect(s: State, t: Thread, ok: bool)
    requires Enabled(s, Close(t, ok))
    ensures At(s, t).CloseIn? || At(s, t).SweepClose?
    ensures var u, p := Next(s, Close(t, ok)), At(s, t);
      && u.open == s.open - {p.fd} && u.next == s.next && u.tracked == s.tracked && u.marked == s.marked
      && (p.fd in s.open ==> u.closes == s.closes + [Some(s.open[p.fd])]) && u.acceptPass == s.acceptPass
      && u.closePass + u.closeFailed == s.closePass + s.closeFailed + 1
      && At(u, t) == (if p.CloseIn? then CloseClosed(p.w, p.fd) else SweepClosed(p.w, p.b, p.fd))
      && (forall o :: o != t ==> At(u, o) == At(s, o))
  {
  }

  lemma {:induction false} ClosedKernel(s: State, u: State, fd: Fd)
    requires Kernel(s) && fd in s.open && u.open == s.open - {fd} && u.next == s.next
    requires u.closes == s.closes + [Some(s.open[fd])]
    ensures Kernel(u) && forall f :: f in u.open ==> u.open[f] != s.open[fd]
  {
    var n := |s.closes|;
    assert forall i :: 0 <= i < n ==> u.closes[i] == s.closes[i];
  }

  lemma {:induction false} ClosedItems(s: State, u: State, k: Key)
    requires ItemsLive(s) && k in s.tracked && !Window(s, k) && k.fd in s.open
    requires u.open == s.open - {k.fd} && u.next == s.next && u.tracked == s.tracked
    requires forall f :: f in u.open ==> u.open[f] != s.open[k.fd]
    requires forall l :: Window(u, l) <==> Window(s, l) || l == k
    ensures ItemsLive(u)
  {
  }

  lemma {:induction false} ClosedTransit(s: State, u: State, k: Key)
    requires TransitLive(s) && NoneLost(s) && k in s.tracked && k.fd in s.open && s.open[k.fd] == s.tracked[k]
    requires u.open == s.open - {k.fd} && u.tracked == s.tracked && At(u, Acceptor) == At(s, Acceptor)
    ensures TransitLive(u) && NoneLost(u)
  {
  }

  lemma {:induction false} ClosedMarks(s: State, u: State, t: Thread)
    requires MarksLive(s) && PlacesLive(s) && u.tracked == s.tracked && u.marked == s.marked && Fits(t, At(s, t))
    requires var p := At(s, t);
      && (p.CloseIn? || p.SweepClose?)
      && At(u, t) == if p.CloseIn? then CloseClosed(p.w, p.fd) else SweepClosed(p.w, p.b, p.fd)
    requires forall o :: o != t ==> At(u, o) == At(s, o)
    ensures MarksLive(u) && PlacesLive(u)
  {
    hide LeafOf;
  }

  lemma {:induction false} ClosedWindows(s: State, u: State, t: Thread)
    requires PlacesLive(s) && Fits(t, At(s, t))
    requires var p := At(s, t);
      && (p.CloseIn? || p.SweepClose?)
      && At(u, t) == if p.CloseIn? then CloseClosed(p.w, p.fd) else SweepClosed(p.w, p.b, p.fd)
    requires forall o :: o != t ==> At(u, o) == At(s, o)
    ensures forall l :: Window(u, l) <==> Window(s, l) || l == Subject(At(s, t))
  {
  }

  lemma {:induction false} ClosedCount(s: State, u: State, fd: Fd)
    requires Counted(s) && fd != 0 && fd in s.open && u.open == s.open - {fd} && |u.closes| == |s.closes| + 1
    requires u.acceptPass == s.acceptPass && u.closePass + u.closeFailed == s.closePass + s.closeFailed + 1
    ensures Counted(u)
  {
  }

  /** The item to be closed is tracked, and its descriptor is still the connection's own. */
  lemma {:induction false} SubjectIsOpen(s: State, k: Key)
    requires ItemsLive(s) && k in s.tracked && !Window(s, k)
    ensures k.fd != 0 && k.fd in s.open && s.open[k.fd] == s.tracked[k]
  {
  }

  lemma {:induction false} CloseKeeps(s: State, t: Thread, ok: bool)
    requires Inv(s) && Enabled(s, Close(t, ok))
    ensures Inv(Next(s, Close(t, ok)))
  {
    hide *;
    var a := Close(t, ok);
    var u := Next(s, a);
    InvParts(s);
    CloseEffect(s, t, ok);
    StepKeepsLocks(s, a);
    StepKeepsFit(s, a);
    FitAt(s, t);
    CloserIsAlone(s, t);
    var k := Subject(At(s, t));
    SubjectFields(At(s, t));
    SubjectIsOpen(s, k);
    ClosedWindows(s, u, t);
    ClosedKernel(s, u, k.fd);
    ClosedItems(s, u, k);
    if t != Acceptor {
      ClosedTransit(s, u, k);
    }
    ClosedMarks(s, u, t);
    ClosedCount(s, u, k.fd);
    InvWhole(u);
  }

  lemma {:induction false} SubjectFields(p: Place)
    requires p.CloseIn? || p.SweepClose? || p.CloseClosed? || p.SweepClosed?
    ensures Subject(p) == Key(p.w, p.fd)
  {
  }

  // ---------------------------------------------------------------- deleteItem on the socket list

  lemma {:induction false} RemoveEffect(s: State, t: Thread)
    requires Enabled(s, Remove(t)) && AllFit(s)
    ensures At(s, t).CloseClosed? || At(s, t).SweepClosed?
    ensures var u, p := Next(s, Remove(t)), At(s, t);
      && SameKernelFields(s, u) && u.tracked == s.tracked - {Key(p.w, p.fd)} && u.marked == s.marked
      && At(u, t) == (if p.CloseClosed? then CloseRemoved(p.w, p.fd) else SweepIn(p.w, p.b))
      && (forall o :: o != t ==> At(u, o) == At(s, o))
      && (p.CloseClosed? ==> t == Worker(p.w)) && (p.SweepClosed? ==> t == SocketCollector)
  {
    assert Fits(t, At(s, t));
  }

  lemma {:induction false} RemovedWindows(s: State, u: State, t: Thread, k: Key)
    requires PlacesLive(s)
    requires At(s, t).CloseClosed? || At(s, t).SweepClosed?
    requires var p := At(s, t);
      && k == Key(p.w, p.fd) && At(u, t) == (if p.CloseClosed? then CloseRemoved(p.w, p.fd) else SweepIn(p.w, p.b))
      && (p.CloseClosed? ==> t == Worker(p.w)) && (p.SweepClosed? ==> t == SocketCollector)
    requires forall o :: o != t ==> At(u, o) == At(s, o)
    ensures Window(s, k) && forall l :: l != k ==> (Window(u, l) <==> Window(s, l))
  {
  }

  lemma {:induction false} RemovedItems(s: State, u: State, k: Key)
    requires ItemsLive(s) && NoneLost(s) && TransitLive(s) && Window(s, k) && k in s.tracked
    requires u.open == s.open && u.next == s.next && u.tracked == s.tracked - {k}
    requires forall l :: l != k ==> (Window(u, l) <==> Window(s, l))
    requires At(u, Acceptor) == At(s, Acceptor)
    ensures ItemsLive(u) && TransitLive(u) && NoneLost(u)
  {
    hide Window;
    assert forall f :: InTransit(u, f) <==> InTransit(s, f);
  }

  lemma {:induction false} RemovedMarks(s: State, u: State, t: Thread, k: Key)
    requires LocksAgree(s) && AllFit(s) && MarksLive(s) && PlacesLive(s)
    requires u.tracked == s.tracked - {k} && u.marked == s.marked
    requires At(s, t).CloseClosed? || At(s, t).SweepClosed?
    requires var p := At(s, t);
      && k == Key(p.w, p.fd) && At(u, t) == (if p.CloseClosed? then CloseRemoved(p.w, p.fd) else SweepIn(p.w, p.b))
      && (p.CloseClosed? ==> t == Worker(p.w)) && (p.SweepClosed? ==> t == SocketCollector)
    requires forall o :: o != t ==> At(u, o) == At(s, o)
    ensures k in s.tracked && MarksLive(u) && PlacesLive(u)
  {
    hide LeafOf, LocksAgree, AllFit, Held;
    if t == SocketCollector {
      assert Busy(At(s, Worker(k.w))) ==> false by {
        if Busy(At(s, Worker(k.w))) {
          Apart(s, k.w);
        }
      }
    } else {
      Apart(s, k.w);
    }
  }

  lemma {:induction false} RemoveKeeps(s: State, t: Thread)
    requires Inv(s) && Enabled(s, Remove(t))
    ensures Inv(Next(s, Remove(t)))
  {
    hide *;
    var u, p := Next(s, Remove(t)), At(s, t);
    InvParts(s);
    RemoveEffect(s, t);
    StepKeepsLocks(s, Remove(t));
    StepKeepsFit(s, Remove(t));
    var k := Key(p.w, p.fd);
    RemovedWindows(s, u, t, k);
    SameFields(s, u);
    RemovedMarks(s, u, t, k);
    RemovedItems(s, u, k);
    InvWhole(u);
  }

  // ---------------------------------------------------------------- every run

  lemma {:induction false} StepKeeps(s: State, a: Action)
    requires Inv(s) && Enabled(s, a)
    ensures Inv(Next(s, a))
  {
    hide *;
    match a
    case Wait(_) => QuietStep(s, a);
    case Post(_) => QuietStep(s, a);
    case Go(_, _) => QuietStep(s, a);
    case Accept(fd, w) => AcceptKeeps(s, fd, w);
    case AcceptZero => AcceptZeroKeeps(s);
    case Insert => InsertKeeps(s);
    case Mark(w) => MarkKeeps(s, w);
    case Close(t, ok) => CloseKeeps(s, t, ok);
    case Remove(t) => RemoveKeeps(s, t);
    case Unlist(w) => UnlistKeeps(s, w);
  }

  lemma {:induction false} StartHolds()
    ensures Inv(START)
  {
    assert forall t :: At(START, t) == Idle;
    assert START.open.Keys - {0} == {};
  }

  /** The invariant holds in every reachable state. */
  lemma {:induction false} AlwaysHolds(run: seq<Action>)
    requires Possible(run)
    ensures Inv(After(run))
    decreases |run|
  {
    hide Inv, Enabled, Next;
    if run == [] {
      StartHolds();
    } else {
      var n := |run| - 1;
      AlwaysHolds(run[..n]);
      StepKeeps(After(run[..n]), run[n]);
    }
  }

  // ---------------------------------------------------------------- the results

  /** Whatever the interleaving: each call of `close` hits an open connection, and no connection is hit twice. */
  lemma {:induction false} EachClosedOnce(run: seq<Action>)
    requires Possible(run)
    ensures var closes := After(run).closes;
      && (forall i :: 0 <= i < |closes| ==> closes[i].Some?)
      && (forall i, j :: 0 <= i < j < |closes| ==> closes[i] != closes[j])
  {
    hide After, Possible;
    AlwaysHolds(run);
  }

  /**
   * What is closed is an item of the socket list, and the connection closed is the item's own, even when
   * descriptors are reused; for a worker it is the connection that it marked.
   */
  lemma {:induction false} CloseHitsItsOwn(run: seq<Action>, t: Thread, ok: bool)
    requires Possible(run) && Enabled(After(run), Close(t, ok))
    ensures var s := After(run);
      && (At(s, t).CloseIn? || At(s, t).SweepClose?)
      && var k := Subject(At(s, t));
      && k in s.tracked && k.fd in s.open && s.open[k.fd] == s.tracked[k]
      && Next(s, Close(t, ok)).closes == s.closes + [Some(s.tracked[k])]
      && (t != SocketCollector ==> k in s.marked && s.marked[k] == s.tracked[k])
  {
    hide *;
    var s := After(run);
    AlwaysHolds(run);
    InvParts(s);
    CloseEffect(s, t, ok);
    CloserIsAlone(s, t);
    SubjectFields(At(s, t));
    SubjectIsOpen(s, Subject(At(s, t)));
  }

  /** The lookup before the close never fails: the item marked is still there. */
  lemma {:induction false} MarkedIsFound(run: seq<Action>, w: nat, fd: Fd)
    requires Possible(run) && At(After(run), Worker(w)) == CloseIn(w, fd)
    ensures Key(w, fd) in After(run).tracked
  {
    hide *;
    var s := After(run);
    AlwaysHolds(run);
    InvParts(s);
    CloserIsAlone(s, Worker(w));
    SubjectFields(At(s, Worker(w)));
  }

  /** Whenever a worker does not hold its semaphore, its delete list is empty. */
  lemma {:induction false} NothingLeftMarked(run: seq<Action>, w: nat)
    requires Possible(run) && Global(w) !in Held(At(After(run), Worker(w)))
    ensures NothingMarked(After(run), w)
  {
    hide After, Possible, Held;
    var s := After(run);
    AlwaysHolds(run);
    if Busy(At(s, Worker(w))) {
      BusyHoldsGlobal(s, w);
    }
  }

  // ---------------------------------------------------------------- counting

  /** The items outside their windows. */
  function LiveItems(s: State): set<Key> {
    set k | k in s.tracked && !Window(s, k)
  }

  function KeyOf(s: State, fd: Fd): Key
    requires fd in s.open
  {
    Key(s.open[fd].home, fd)
  }

  lemma {:induction false} OneKeyEach(s: State, fds: set<Fd>)
    requires fds <= s.open.Keys
    ensures |set fd | fd in fds :: KeyOf(s, fd)| == |fds|
  {
    if fds == {} {
      assert (set fd | fd in fds :: KeyOf(s, fd)) == {};
    } else {
      var f :| f in fds;
      var rest := fds - {f};
      OneKeyEach(s, rest);
      assert (set fd | fd in fds :: KeyOf(s, fd)) == (set fd | fd in rest :: KeyOf(s, fd)) + {KeyOf(s, f)};
    }
  }

  /** The descriptors of the live items. */
  function Descriptors(s: State): set<Fd> {
    set fd | fd in s.open && fd != 0 && !InTransit(s, fd)
  }

  lemma {:induction false} ItemsAreDescriptors(s: State)
    requires ItemsLive(s) && TransitLive(s) && NoneLost(s)
    ensures LiveItems(s) == set fd | fd in Descriptors(s) :: KeyOf(s, fd)
  {
    hide Window;
    forall k | k in LiveItems(s) ensures k.fd in Descriptors(s) && KeyOf(s, k.fd) == k {
      assert k == Key(k.w, k.fd);
    }
    forall fd | fd in Descriptors(s) ensures KeyOf(s, fd) in LiveItems(s) {
    }
  }

  lemma {:induction false} TransitCount(s: State)
    requires TransitLive(s)
    ensures |s.open.Keys - {0}|
            == |Descriptors(s)| + if At(s, Acceptor).AcceptWant? || At(s, Acceptor).AcceptIn? then 1 else 0
  {
    var p := At(s, Acceptor);
    if p.AcceptWant? || p.AcceptIn? {
      assert s.open.Keys - {0} == Descriptors(s) + {p.fd};
      OneMore(Descriptors(s), p.fd);
    } else {
      assert s.open.Keys - {0} == Descriptors(s);
    }
  }

  /**
   * accept_pass - close_pass - close_failed is the number of live items, and one more while the accept
   * thread has a connection in its hands.
   */
  lemma {:induction false} TrackedIsAcceptedMinusClosed(run: seq<Action>)
    requires Possible(run)
    ensures var s := After(run);
      && s.acceptPass - s.closePass - s.closeFailed
         == |LiveItems(s)| + (if At(s, Acceptor).AcceptWant? || At(s, Acceptor).AcceptIn? then 1 else 0)
      && ((forall k :: k in s.tracked ==> !Window(s, k)) ==> LiveItems(s) == s.tracked.Keys)
  {
    hide After, Possible, Window, ItemsLive, TransitLive, NoneLost, LocksAgree, AllFit, Kernel, MarksLive, PlacesLive,
         Descriptors;
    var s := After(run);
    AlwaysHolds(run);
    TransitCount(s);
    ItemsAreDescriptors(s);
    DescriptorsAreOpen(s);
    OneKeyEach(s, Descriptors(s));
  }

  lemma {:induction false} DescriptorsAreOpen(s: State)
    ensures Descriptors(s) <= s.open.Keys
  {
  }

  /** How many actions of a run are of a kind. */
  function CountOf(run: seq<Action>, kind: Action -> bool): nat {
    if run == [] then 0 else CountOf(run[..|run| - 1], kind) + if kind(run[|run| - 1]) then 1 else 0
  }

  /** The statistics count the accepted connections, and the calls of `close` by their results. */
  lemma {:induction false} StatisticsOverRuns(run: seq<Action>)
    requires Possible(run)
    ensures var s := After(run);
      && s.acceptPass == CountOf(run, (a: Action) => a.Accept?)
      && s.closePass == CountOf(run, (a: Action) => a.Close? && a.ok)
      && s.closeFailed == CountOf(run, (a: Action) => a.Close? && !a.ok)
      && |s.closes| == s.closePass + s.closeFailed
  {
    hide Next, Enabled;
    if run != [] {
      var n := |run| - 1;
      StatisticsOverRuns(run[..n]);
      StatisticsStep(After(run[..n]), run[n]);
    }
  }

  lemma {:induction false} StatisticsStep(s: State, a: Action)
    requires Enabled(s, a)
    ensures var u := Next(s, a);
      && u.acceptPass == s.acceptPass + (if a.Accept? then 1 else 0)
      && u.closePass == s.closePass + (if a.Close? && a.ok then 1 else 0)
      && u.closeFailed == s.closeFailed + (if a.Close? && !a.ok then 1 else 0)
      && |u.closes| == |s.closes| + if a.Close? then 1 else 0
  {
    hide NothingMarked, CanGo, Wanted, AfterWait, AfterPost;
  }
}
