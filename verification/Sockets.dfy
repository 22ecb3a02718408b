/**
 * The protocol of semaphores and sockets: accept thread, TCP workers, UDP workers and the two
 * collectors as interleaved steps over the semaphores, the socket lists and the kernel's descriptors.
 */
module Sockets {
  import opened Bytes

  type Fd = nat

  /** An accepted connection, and the worker whose list it is put on. */
  datatype Conn = Conn(id: nat, home: nat)

  datatype Thread = Acceptor | Worker(w: nat) | UdpWorker(u: nat) | TorrentCollector | SocketCollector

  /** The semaphores: of a socket list, of its leaves, of the torrents' leaves and of the websockets. */
  datatype Lock = Global(w: nat) | Leaf(w: nat, b: nat) | TorrentLeaf(h: nat) | Websockets

  /** The leaf of a socket list that holds a descriptor. */
  function LeafOf(fd: Fd): nat {
    fd % 256
  }

  /** An item of the list of worker `w`. */
  datatype Key = Key(w: nat, fd: Fd)

  /** Where a thread is; "Want" is in front of a wait on a semaphore. */
  datatype Place =
    | Idle
      // the accept thread: updateSocketL
    | AcceptWant(w: nat, fd: Fd, conn: Conn) | AcceptIn(w: nat, fd: Fd, conn: Conn) | AcceptDone(w: nat, fd: Fd)
      // a worker: its loop over the events
    | WantGlobal(w: nat) | Polled(w: nat) | Events(w: nat)
    | EventWant(w: nat, fd: Fd) | EventIn(w: nat, fd: Fd)
    | EventWantWeb(w: nat, fd: Fd) | EventInWeb(w: nat, fd: Fd)
    | EventWantTorrent(w: nat, fd: Fd, h: nat) | EventInTorrent(w: nat, fd: Fd, h: nat)
      // a worker: its traversal of deleteSocketList
    | Closing(w: nat) | CloseWant(w: nat, fd: Fd) | CloseIn(w: nat, fd: Fd) | CloseClosed(w: nat, fd: Fd)
    | CloseRemoved(w: nat, fd: Fd) | CloseUnlist(w: nat, fd: Fd) | CloseWantWeb(w: nat, fd: Fd)
    | CloseInWeb(w: nat, fd: Fd)
      // the socket collector
    | SweepWantGlobal(w: nat) | Sweeping(w: nat) | SweepWant(w: nat, b: nat) | SweepIn(w: nat, b: nat)
    | SweepWantWeb(w: nat, b: nat, fd: Fd) | SweepInWeb(w: nat, b: nat, fd: Fd)
    | SweepClose(w: nat, b: nat, fd: Fd) | SweepClosed(w: nat, b: nat, fd: Fd)
      // UDP workers and the torrent collector
    | TorrentWant(h: nat) | TorrentIn(h: nat) | WebWant | WebIn

  /**
   * `open` is the kernel's table, `tracked` the socket lists and `marked` the delete lists of the workers,
   * with the connection that was marked; `closes` is what each call of `close` hit.
   */
  datatype State = State(
    holder: map<Lock, Thread>, places: map<Thread, Place>,
    open: map<Fd, Conn>, tracked: map<Key, Conn>, marked: map<Key, Conn>,
    next: nat, acceptPass: nat, closePass: nat, closeFailed: nat, closes: seq<Option<Conn>>)

  const START := State(map[], map[], map[], map[], map[], 0, 0, 0, 0, [])

  function At(s: State, t: Thread): Place {
    if t in s.places then s.places[t] else Idle
  }

  /** The semaphores a thread has taken. */
  function Held(p: Place): set<Lock> {
    match p
    case Idle => {}
    case AcceptWant(_, _, _) => {}
    case AcceptIn(w, fd, _) => {Leaf(w, LeafOf(fd))}
    case AcceptDone(w, fd) => {Leaf(w, LeafOf(fd))}
    case WantGlobal(_) => {}
    case Polled(w) => {Global(w)}
    case Events(w) => {Global(w)}
    case EventWant(w, _) => {Global(w)}
    case EventIn(w, fd) => {Global(w), Leaf(w, LeafOf(fd))}
    case EventWantWeb(w, fd) => {Global(w), Leaf(w, LeafOf(fd))}
    case EventInWeb(w, fd) => {Global(w), Leaf(w, LeafOf(fd)), Websockets}
    case EventWantTorrent(w, fd, _) => {Global(w), Leaf(w, LeafOf(fd))}
    case EventInTorrent(w, fd, h) => {Global(w), Leaf(w, LeafOf(fd)), TorrentLeaf(h)}
    case Closing(w) => {Global(w)}
    case CloseWant(w, _) => {Global(w)}
    case CloseIn(w, fd) => {Global(w), Leaf(w, LeafOf(fd))}
    case CloseClosed(w, fd) => {Global(w), Leaf(w, LeafOf(fd))}
    case CloseRemoved(w, fd) => {Global(w), Leaf(w, LeafOf(fd))}
    case CloseUnlist(w, _) => {Global(w)}
    case CloseWantWeb(w, _) => {Global(w)}
    case CloseInWeb(w, _) => {Global(w), Websockets}
    case SweepWantGlobal(_) => {}
    case Sweeping(w) => {Global(w)}
    case SweepWant(w, _) => {Global(w)}
    case SweepIn(w, b) => {Global(w), Leaf(w, b)}
    case SweepWantWeb(w, b, _) => {Global(w), Leaf(w, b)}
    case SweepInWeb(w, b, _) => {Global(w), Leaf(w, b), Websockets}
    case SweepClose(w, b, _) => {Global(w), Leaf(w, b)}
    case SweepClosed(w, b, _) => {Global(w), Leaf(w, b)}
    case TorrentWant(_) => {}
    case TorrentIn(h) => {TorrentLeaf(h)}
    case WebWant => {}
    case WebIn => {Websockets}
  }

  /** The semaphore a thread waits for. */
  function Wanted(p: Place): Option<Lock> {
    match p
    case AcceptWant(w, fd, _) => Some(Leaf(w, LeafOf(fd)))
    case WantGlobal(w) => Some(Global(w))
    case EventWant(w, fd) => Some(Leaf(w, LeafOf(fd)))
    case EventWantWeb(_, _) => Some(Websockets)
    case EventWantTorrent(_, _, h) => Some(TorrentLeaf(h))
    case CloseWant(w, fd) => Some(Leaf(w, LeafOf(fd)))
    case CloseWantWeb(_, _) => Some(Websockets)
    case SweepWantGlobal(w) => Some(Global(w))
    case SweepWant(w, b) => Some(Leaf(w, b))
    case SweepWantWeb(_, _, _) => Some(Websockets)
    case TorrentWant(h) => Some(TorrentLeaf(h))
    case WebWant => Some(Websockets)
    case _ => None
  }

  /** Where a thread is when its wait returns. */
  function AfterWait(p: Place): Place
    requires Wanted(p).Some?
  {
    match p
    case AcceptWant(w, fd, conn) => AcceptIn(w, fd, conn)
    case WantGlobal(w) => Polled(w)
    case EventWant(w, fd) => EventIn(w, fd)
    case EventWantWeb(w, fd) => EventInWeb(w, fd)
    case EventWantTorrent(w, fd, h) => EventInTorrent(w, fd, h)
    case CloseWant(w, fd) => CloseIn(w, fd)
    case CloseWantWeb(w, fd) => CloseInWeb(w, fd)
    case SweepWantGlobal(w) => Sweeping(w)
    case SweepWant(w, b) => SweepIn(w, b)
    case SweepWantWeb(w, b, fd) => SweepInWeb(w, b, fd)
    case TorrentWant(h) => TorrentIn(h)
    case WebWant => WebIn
  }

  /** A semaphore that is posted, and where its thread is then. */
  datatype Release = Release(lock: Lock, place: Place)

  function AfterPost(p: Place): Option<Release> {
    match p
    case AcceptDone(w, fd) => Some(Release(Leaf(w, LeafOf(fd)), Idle))
    case Polled(w) => Some(Release(Global(w), Idle))
    case EventIn(w, fd) => Some(Release(Leaf(w, LeafOf(fd)), Events(w)))
    case EventInWeb(w, fd) => Some(Release(Websockets, EventIn(w, fd)))
    case EventInTorrent(w, fd, h) => Some(Release(TorrentLeaf(h), EventIn(w, fd)))
    case Closing(w) => Some(Release(Global(w), Idle))
    case CloseRemoved(w, fd) => Some(Release(Leaf(w, LeafOf(fd)), CloseUnlist(w, fd)))
    case CloseInWeb(w, _) => Some(Release(Websockets, Closing(w)))
    case Sweeping(w) => Some(Release(Global(w), Idle))
    case SweepIn(w, b) => Some(Release(Leaf(w, b), Sweeping(w)))
    case SweepInWeb(w, b, fd) => Some(Release(Websockets, SweepClose(w, b, fd)))
    case TorrentIn(h) => Some(Release(TorrentLeaf(h), Idle))
    case WebIn => Some(Release(Websockets, Idle))
    case _ => None
  }

  /** Moves that touch nothing shared: the choices of the code, its events and its outer loops. */
  predicate CanGo(s: State, t: Thread, p: Place, q: Place) {
    match t
    case Acceptor => false
    case Worker(w) =>
      || (p == Idle && q == WantGlobal(w))
      || (p == Polled(w) && q == Events(w))
      || (p == Events(w) && (q == Closing(w) || (q.EventWant? && q.w == w)))
      || (p.EventIn? && Key(p.w, p.fd) in s.tracked
          && (q == EventWantWeb(p.w, p.fd) || (q.EventWantTorrent? && q.w == p.w && q.fd == p.fd)))
      || (p == Closing(w) && q.CloseWant? && q.w == w && Key(w, q.fd) in s.marked)
      || (p.CloseIn? && q == CloseRemoved(p.w, p.fd) && Key(p.w, p.fd) !in s.tracked)
    case UdpWorker(_) => p == Idle && (q.TorrentWant? || q.WebWant?)
    case TorrentCollector => p == Idle && q.TorrentWant?
    case SocketCollector =>
      || (p == Idle && q.SweepWantGlobal?)
      || (p.Sweeping? && q.SweepWant? && q.w == p.w)
      || (p.SweepIn? && q.SweepWantWeb? && q.w == p.w && q.b == p.b && LeafOf(q.fd) == p.b
        && Key(p.w, q.fd) in s.tracked)
  }

  /**
   * One step: a wait that returns, a post, a move, `accept` (with descriptor 0 refused by the code but
   * open), `setHash` on the socket list, `setHash` on the delete list, `close` with its result,
   * `deleteItem` on the socket list, `deleteItem` on the delete list.
   */
  datatype Action =
    | Wait(t: Thread) | Post(t: Thread) | Go(t: Thread, to: Place)
    | Accept(fd: Fd, w: nat) | AcceptZero | Insert | Mark(w: nat)
    | Close(t: Thread, ok: bool) | Remove(t: Thread) | Unlist(w: nat)

  /** The item that a thread in front of `close` or `deleteItem` works on. */
  function Subject(p: Place): Key
    requires p.CloseIn? || p.SweepClose? || p.CloseClosed? || p.SweepClosed?
  {
    Key(p.w, p.fd)
  }

  ghost predicate NothingMarked(s: State, w: nat) {
    forall k :: k in s.marked ==> k.w != w
  }

  ghost predicate Enabled(s: State, a: Action) {
    match a
    case Wait(t) => Wanted(At(s, t)).Some? && Wanted(At(s, t)).value !in s.holder
    case Post(t) => AfterPost(At(s, t)).Some? && (At(s, t).Closing? ==> NothingMarked(s, At(s, t).w))
    case Go(t, to) => CanGo(s, t, At(s, t), to)
    case Accept(fd, _) => At(s, Acceptor) == Idle && fd != 0 && fd !in s.open
    case AcceptZero => At(s, Acceptor) == Idle && 0 !in s.open
    case Insert => At(s, Acceptor).AcceptIn?
    case Mark(w) => At(s, Worker(w)).EventIn? && Key(At(s, Worker(w)).w, At(s, Worker(w)).fd) in s.tracked
    case Close(t, _) => (At(s, t).CloseIn? && Subject(At(s, t)) in s.tracked) || At(s, t).SweepClose?
    case Remove(t) => At(s, t).CloseClosed? || At(s, t).SweepClosed?
    case Unlist(w) => At(s, Worker(w)).CloseUnlist?
  }

  function Move(s: State, t: Thread, p: Place): State {
    s.(places := s.places[t := p])
  }

  ghost function Next(s: State, a: Action): State
    requires Enabled(s, a)
  {
    match a
    case Wait(t) => Move(s, t, AfterWait(At(s, t))).(holder := s.holder[Wanted(At(s, t)).value := t])
    case Post(t) =>
      var r := AfterPost(At(s, t)).value;
      Move(s, t, r.place).(holder := s.holder - {r.lock})
    case Go(t, to) => Move(s, t, to)
    case Accept(fd, w) =>
      var c := Conn(s.next, w);
      Move(s, Acceptor, AcceptWant(w, fd, c)).(open := s.open[fd := c], next := s.next + 1,
                                               acceptPass := s.acceptPass + 1)
    case AcceptZero => s.(open := s.open[0 := Conn(s.next, 0)], next := s.next + 1)
    case Insert =>
      var p := At(s, Acceptor);
      Move(s, Acceptor, AcceptDone(p.w, p.fd)).(tracked := s.tracked[Key(p.w, p.fd) := p.conn])
    case Mark(w) =>
      var p := At(s, Worker(w));
      s.(marked := s.marked[Key(p.w, p.fd) := s.tracked[Key(p.w, p.fd)]])
    case Close(t, ok) =>
      var p := At(s, t);
      var hit := if p.fd in s.open then Some(s.open[p.fd]) else None;
      Move(s, t, if p.CloseIn? then CloseClosed(p.w, p.fd) else SweepClosed(p.w, p.b, p.fd)).(
        open := s.open - {p.fd}, closes := s.closes + [hit],
        closePass := s.closePass + if ok then 1 else 0, closeFailed := s.closeFailed + if ok then 0 else 1)
    case Remove(t) =>
      var p := At(s, t);
      Move(s, t, if p.CloseClosed? then CloseRemoved(p.w, p.fd) else SweepIn(p.w, p.b)).(
        tracked := s.tracked - {Key(p.w, p.fd)})
    case Unlist(w) =>
      var p := At(s, Worker(w));
      Move(s, Worker(w), CloseWantWeb(p.w, p.fd)).(marked := s.marked - {Key(p.w, p.fd)})
  }

  /** Every step of the run was possible. */
  ghost predicate Possible(run: seq<Action>)
    decreases |run|, 0
  {
    run == [] || (Possible(run[..|run| - 1]) && Enabled(After(run[..|run| - 1]), run[|run| - 1]))
  }

  ghost function After(run: seq<Action>): State
    requires Possible(run)
    decreases |run|, 1
  {
    if run == [] then START else Next(After(run[..|run| - 1]), run[|run| - 1])
  }
}
