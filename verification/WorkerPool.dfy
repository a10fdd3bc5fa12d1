/**
 * The concurrent server (src/server/concurrent_server.cpp): an acceptor, a bounded queue, a pool
 * of workers and a shutdown that can come from any thread. Every critical section and every atomic
 * operation is one step; the steps of all threads interleave freely.
 */
module WorkerPool {

  /** A descriptor number. The operating system reuses the numbers of closed descriptors. */
  type Fd = nat

  /** What the threads share. `shut` holds the open descriptors on which `shutdown` has been called. */
  datatype Shared = Shared(
    pending: seq<Fd>,
    workersStopping: bool,
    activeStopping: bool,
    active: set<Fd>,
    shut: set<Fd>,
    stopRequested: bool,
    accepted: nat,
    completed: nat,
    failed: nat,
    rejected: nat,
    cancelled: nat,
    peak: nat)

  /** Where the accepting thread is. */
  datatype Acceptor =
    | Polling                // between two connections
    | Accepting              // has seen that no stop is requested
    | Accepted(fd: Fd)       // not yet counted
    | Counted(fd: Fd)
    | Enqueued(depth: nat)   // the peak is not yet observed
    | Notifying
    | Refusing(fd: Fd)       // not yet counted as rejected
    | Dropping(fd: Fd)
    | Stopping               // in stop_workers, a stop is requested
    | ClosingQueue           // the active connections are shut down
    | NotifyingAll           // the queue is closed
    | Joining
    | Joined

  /** Where a worker is. */
  datatype Worker =
    | Checking                      // about to evaluate the wait condition under the lock
    | Sleeping                      // waiting, not notified
    | Taken(fd: Fd)                 // popped, not yet registered
    | Serving(fd: Fd)               // registered, in the session
    | Served(fd: Fd, ok: bool)      // the session has returned
    | Erased(fd: Fd, ok: bool)      // no longer registered, not yet counted
    | Closing(fd: Fd)               // counted; the descriptor closes at the end of the iteration
    | Exited

  /** `deepest` records the longest the queue has ever been. */
  datatype Server = Server(shared: Shared, acceptor: Acceptor, workers: seq<Worker>, deepest: nat)

  // ---------------------------------------------------------------------------
  // The critical sections.
  // ---------------------------------------------------------------------------

  function Max(a: nat, b: nat): nat { if a < b then b else a }

  /** A descriptor that is closed is no longer shut down: its number may name another connection next. */
  function Closed(sh: Shared, fds: set<Fd>): Shared
  {
    sh.(shut := sh.shut - fds)
  }

  function Contents(fds: seq<Fd>): set<Fd>
  {
    set fd | fd in fds
  }

  predicate HasRoom(sh: Shared, max: nat)
  {
    !sh.workersStopping && |sh.pending| < max
  }

  function Pushed(sh: Shared, fd: Fd): Shared
  {
    sh.(pending := sh.pending + [fd])
  }

  function Popped(sh: Shared): Shared
    requires sh.pending != []
  {
    sh.(pending := sh.pending[1..])
  }

  /** `shutdown_active_connections`. */
  function ActiveShut(sh: Shared): Shared
  {
    sh.(activeStopping := true, shut := sh.shut + sh.active)
  }

  /** The queue's part of `stop_workers`. */
  function QueueClosed(sh: Shared): Shared
  {
    Closed(sh, Contents(sh.pending)).(workersStopping := true, cancelled := sh.cancelled + |sh.pending|, pending := [])
  }

  /** Register, or cancel if the active connections have been shut down. */
  function Registered(sh: Shared, fd: Fd): Shared
  {
    if sh.activeStopping then sh.(cancelled := sh.cancelled + 1) else sh.(active := sh.active + {fd})
  }

  function Unregistered(sh: Shared, fd: Fd): Shared
  {
    sh.(active := sh.active - {fd})
  }

  // ---------------------------------------------------------------------------
  // Steps.
  // ---------------------------------------------------------------------------

  datatype Happening =
    | Poll | Accept(fd: Fd) | NothingToAccept | CountAccepted | Enqueue | ObservePeak | NotifyOne(i: nat)
    | Reject | DropClient
    | BeginStop | ShutActive | CloseQueue | NotifyAll | Join
    | RequestStop | RequestShutdown
    | Wake(i: nat)                // a spurious wakeup
    | Work(i: nat, ok: bool)

  predicate Has(w: Worker, fd: Fd)
  {
    (w.Taken? || w.Serving? || w.Served? || w.Erased? || w.Closing?) && w.fd == fd
  }

  function WorkerOwns(fd: Fd): Worker -> nat
  {
    (w: Worker) => if Has(w, fd) then 1 else 0
  }

  function AcceptorOwns(a: Acceptor, fd: Fd): nat
  {
    if (a.Accepted? || a.Counted? || a.Refusing? || a.Dropping?) && a.fd == fd then 1 else 0
  }

  function Sum(ws: seq<Worker>, f: Worker -> nat): nat
  {
    if ws == [] then 0 else Sum(ws[..|ws| - 1], f) + f(ws[|ws| - 1])
  }

  function Queued(fds: seq<Fd>, fd: Fd): nat
  {
    if fds == [] then 0 else (if fds[0] == fd then 1 else 0) + Queued(fds[1..], fd)
  }

  /** In how many places the descriptor is owned: the queue, the acceptor, the workers. */
  function Owners(s: Server, fd: Fd): nat
  {
    Queued(s.shared.pending, fd) + AcceptorOwns(s.acceptor, fd) + Sum(s.workers, WorkerOwns(fd))
  }

  /** One step of a worker. */
  function WorkerStep(sh: Shared, w: Worker, ok: bool): (Shared, Worker)
  {
    match w
    case Checking =>
      if sh.pending != [] then (Popped(sh), Taken(sh.pending[0]))
      else if sh.workersStopping then (sh, Exited)
      else (sh, Sleeping)
    case Taken(fd) => (Registered(sh, fd), if sh.activeStopping then Closing(fd) else Serving(fd))
    case Serving(fd) => (sh, Served(fd, ok))
    case Served(fd, result) => (Unregistered(sh, fd), Erased(fd, result))
    case Erased(fd, result) =>
      (if result then sh.(completed := sh.completed + 1) else sh.(failed := sh.failed + 1), Closing(fd))
    case Closing(fd) => (Closed(sh, {fd}), Checking)
    case _ => (sh, w)
  }

  function Woken(ws: seq<Worker>): (ws': seq<Worker>)
  {
    seq(|ws|, i requires 0 <= i < |ws| => if ws[i] == Sleeping then Checking else ws[i])
  }

  /** One step of the server; a step that is not possible changes nothing. */
  ghost function Next(s: Server, h: Happening, max: nat): Server
  {
    var sh, a, ws := s.shared, s.acceptor, s.workers;
    match h
    case Poll => if a == Polling && !sh.stopRequested then s.(acceptor := Accepting) else s
    case Accept(fd) => if a == Accepting && Owners(s, fd) == 0 then s.(acceptor := Accepted(fd)) else s
    case NothingToAccept => if a == Accepting then s.(acceptor := Polling) else s
    case CountAccepted =>
      if !a.Accepted? then s else s.(acceptor := Counted(a.fd), shared := sh.(accepted := sh.accepted + 1))
    case Enqueue =>
      if !a.Counted? then s
      else if HasRoom(sh, max) then
        Server(Pushed(sh, a.fd), Enqueued(|sh.pending| + 1), ws, Max(s.deepest, |sh.pending| + 1))
      else s.(acceptor := Refusing(a.fd))
    case ObservePeak =>
      if !a.Enqueued? then s else s.(acceptor := Notifying, shared := sh.(peak := Max(sh.peak, a.depth)))
    case NotifyOne(i) =>
      if a != Notifying then s
      else if Sleeping !in ws then s.(acceptor := Polling)
      else if i < |ws| && ws[i] == Sleeping then s.(acceptor := Polling, workers := ws[i := Checking])
      else s
    case Reject =>
      if !a.Refusing? then s else s.(acceptor := Dropping(a.fd), shared := sh.(rejected := sh.rejected + 1))
    case DropClient =>
      if !a.Dropping? then s else s.(acceptor := Polling, shared := Closed(sh, {a.fd}))
    case BeginStop => if a == Polling then s.(acceptor := Stopping, shared := sh.(stopRequested := true)) else s
    case ShutActive => if a == Stopping then s.(acceptor := ClosingQueue, shared := ActiveShut(sh)) else s
    case CloseQueue => if a == ClosingQueue then s.(acceptor := NotifyingAll, shared := QueueClosed(sh)) else s
    case NotifyAll => if a == NotifyingAll then s.(acceptor := Joining, workers := Woken(ws)) else s
    case Join => if a == Joining && forall w :: w in ws ==> w == Exited then s.(acceptor := Joined) else s
    case RequestStop => s.(shared := sh.(stopRequested := true))
    case RequestShutdown => if sh.stopRequested then s.(shared := ActiveShut(sh)) else s
    case Wake(i) => if i < |ws| && ws[i] == Sleeping then s.(workers := ws[i := Checking]) else s
    case Work(i, ok) =>
      if i < |ws| then
        var (sh', w) := WorkerStep(sh, ws[i], ok);
        s.(shared := sh', workers := ws[i := w])
      else s
  }

  // ---------------------------------------------------------------------------
  // Sums over the workers.
  // ---------------------------------------------------------------------------

  /** The connections a worker holds that are not yet in any of the final counters. */
  function Unsettled(w: Worker): nat { if w.Taken? || w.Serving? || w.Served? || w.Erased? then 1 else 0 }

  function IsChecking(w: Worker): nat { if w.Checking? then 1 else 0 }

  /** How many steps the worker is from its exit once the queue is closed. */
  function Rank(w: Worker): nat
  {
    match w
    case Exited => 0
    case Checking => 1
    case Closing(_) => 2
    case Erased(_, _) => 3
    case Served(_, _) => 4
    case Serving(_) => 5
    case Taken(_) => 6
    case Sleeping => 2
  }

  lemma {:induction false} SumUpdate(ws: seq<Worker>, f: Worker -> nat, i: nat, w: Worker)
    requires i < |ws|
    ensures Sum(ws[i := w], f) + f(ws[i]) == Sum(ws, f) + f(w)
  {
    var n := |ws| - 1;
    if i < n {
      SumUpdate(ws[..n], f, i, w);
      assert ws[i := w][..n] == ws[..n][i := w];
    } else {
      assert ws[i := w][..n] == ws[..n];
    }
  }

  lemma {:induction false} SumIncludes(ws: seq<Worker>, f: Worker -> nat, i: nat)
    requires i < |ws|
    ensures f(ws[i]) <= Sum(ws, f)
  {
    var n := |ws| - 1;
    if i < n {
      SumIncludes(ws[..n], f, i);
    }
  }

  lemma {:induction false} SumTwo(ws: seq<Worker>, f: Worker -> nat, i: nat, j: nat)
    requires i < j < |ws|
    ensures f(ws[i]) + f(ws[j]) <= Sum(ws, f)
  {
    var n := |ws| - 1;
    if j < n {
      SumTwo(ws[..n], f, i, j);
    } else {
      SumIncludes(ws[..n], f, i);
    }
  }

  lemma {:induction false} SumSame(ws: seq<Worker>, ws': seq<Worker>, f: Worker -> nat)
    requires |ws| == |ws'| && forall i :: 0 <= i < |ws| ==> f(ws[i]) == f(ws'[i])
    ensures Sum(ws, f) == Sum(ws', f)
  {
    if ws != [] {
      var n := |ws| - 1;
      SumSame(ws[..n], ws'[..n], f);
    }
  }

  lemma {:induction false} SumZero(ws: seq<Worker>, f: Worker -> nat)
    requires forall i :: 0 <= i < |ws| ==> f(ws[i]) == 0
    ensures Sum(ws, f) == 0
  {
    if ws != [] {
      SumZero(ws[..|ws| - 1], f);
    }
  }

  // ---------------------------------------------------------------------------
  // What holds in every interleaving.
  // ---------------------------------------------------------------------------

  /** No descriptor has two owners. */
  ghost predicate OneOwner(s: Server)
  {
    forall fd :: Owners(s, fd) <= 1
  }

  predicate Registers(w: Worker, fd: Fd)
  {
    (w.Serving? || w.Served?) && w.fd == fd
  }

  /** The registered numbers are those of the connections being served. */
  ghost predicate ActiveServed(s: Server)
  {
    forall fd :: fd in s.shared.active <==> exists i :: 0 <= i < |s.workers| && Registers(s.workers[i], fd)
  }

  /** Shutdown misses no socket, and a number counts as shut down only while it names the socket that was. */
  ghost predicate NoneMissed(s: Server)
  {
    && (s.shared.activeStopping ==> s.shared.active <= s.shared.shut)
    && (forall fd :: fd in s.shared.shut ==> Owners(s, fd) != 0)
  }

  /** The connection the acceptor has counted but not yet disposed of. */
  function AcceptorUnsettled(a: Acceptor): nat { if a.Counted? || a.Refusing? then 1 else 0 }

  /** Every accepted connection is in exactly one place. */
  ghost predicate Conserved(s: Server)
  {
    var sh := s.shared;
    sh.accepted == sh.rejected + sh.cancelled + sh.completed + sh.failed
                   + |sh.pending| + AcceptorUnsettled(s.acceptor) + Sum(s.workers, Unsettled)
  }

  function Undelivered(a: Acceptor): nat { if a.Enqueued? || a.Notifying? then 1 else 0 }

  /** While a worker sleeps, every queued connection has a worker on its way to it or a notification on its way. */
  ghost predicate NoLostWakeup(s: Server)
  {
    Sleeping in s.workers ==> |s.shared.pending| <= Sum(s.workers, IsChecking) + Undelivered(s.acceptor)
  }

  /** The queue stays within its bound, and the observed peak is the longest it has ever been. */
  ghost predicate PeakKnown(s: Server, max: nat)
  {
    && |s.shared.pending| <= s.deepest <= max
    && s.deepest == if s.acceptor.Enqueued? then Max(s.shared.peak, s.acceptor.depth) else s.shared.peak
  }

  predicate QueueIsClosed(a: Acceptor) { a.NotifyingAll? || a.Joining? || a.Joined? }

  /** The stages of `stop_workers`. */
  ghost predicate Staged(s: Server)
  {
    && (s.shared.workersStopping <==> QueueIsClosed(s.acceptor))
    && (s.shared.workersStopping ==> s.shared.pending == [])
    && (QueueIsClosed(s.acceptor) || s.acceptor.ClosingQueue? ==> s.shared.activeStopping)
    && (s.acceptor.Joining? || s.acceptor.Joined? ==> Sleeping !in s.workers)
    && (s.acceptor.Joined? ==> forall w :: w in s.workers ==> w == Exited)
    && (Exited in s.workers ==> s.shared.workersStopping)
  }

  ghost predicate Inv(s: Server, max: nat)
  {
    OneOwner(s) && ActiveServed(s) && NoneMissed(s) && Conserved(s) && NoLostWakeup(s) && PeakKnown(s, max) && Staged(s)
  }

  /** A pool of idle workers and an empty queue. */
  function Started(n: nat): Server
  {
    Server(Shared([], false, false, {}, {}, false, 0, 0, 0, 0, 0, 0), Polling, seq(n, _ => Checking), 0)
  }

  lemma StartedInv(n: nat, max: nat)
    ensures Inv(Started(n), max)
  {
    hide Sum;
    var s := Started(n);
    SumZero(s.workers, Unsettled);
    forall fd
      ensures Owners(s, fd) == 0
    {
      SumZero(s.workers, WorkerOwns(fd));
    }
  }

  // ---------------------------------------------------------------------------
  // Steps keep it: the workers.
  // ---------------------------------------------------------------------------

  ghost function Worked(s: Server, i: nat, ok: bool): Server
    requires i < |s.workers|
  {
    var (sh, w) := WorkerStep(s.shared, s.workers[i], ok);
    s.(shared := sh, workers := s.workers[i := w])
  }

  /** A worker's step moves its descriptor, or closes it. */
  lemma WorkOwners(s: Server, i: nat, ok: bool, fd: Fd)
    requires i < |s.workers|
    ensures Owners(Worked(s, i, ok), fd) + (if s.workers[i] == Closing(fd) then 1 else 0) == Owners(s, fd)
  {
    hide Sum;
    SumUpdate(s.workers, WorkerOwns(fd), i, WorkerStep(s.shared, s.workers[i], ok).1);
  }

  lemma WorkActive(s: Server, i: nat, ok: bool)
    requires i < |s.workers| && OneOwner(s) && ActiveServed(s)
    ensures ActiveServed(Worked(s, i, ok))
  {
    hide Owners;
    var s' := Worked(s, i, ok);
    var w, w' := s.workers[i], s'.workers[i];
    forall fd
      ensures fd in s'.shared.active <==> exists j :: 0 <= j < |s'.workers| && Registers(s'.workers[j], fd)
    {
      if fd in s'.shared.active {
        if Registers(w', fd) {
        } else {
          var j :| 0 <= j < |s.workers| && Registers(s.workers[j], fd);
          assert j != i;
          assert Registers(s'.workers[j], fd);
        }
      }
      if j :| 0 <= j < |s'.workers| && Registers(s'.workers[j], fd) {
        if j != i {
          assert Registers(s.workers[j], fd);
          if w.Served? && w.fd == fd {
            NotTwice(s, i, j, fd);
          }
        } else {
          assert w.Taken? || Registers(w, fd);
        }
      }
    }
  }

  /** Two workers cannot hold the same descriptor. */
  lemma NotTwice(s: Server, i: nat, j: nat, fd: Fd)
    requires OneOwner(s) && i < |s.workers| && j < |s.workers|
    requires Has(s.workers[i], fd) && Has(s.workers[j], fd)
    ensures i == j
  {
    hide Sum;
    assert Sum(s.workers, WorkerOwns(fd)) <= Owners(s, fd) <= 1;
    if i < j {
      SumTwo(s.workers, WorkerOwns(fd), i, j);
    } else if j < i {
      SumTwo(s.workers, WorkerOwns(fd), j, i);
    }
  }

  lemma WorkNoneMissed(s: Server, i: nat, ok: bool)
    requires i < |s.workers| && OneOwner(s) && ActiveServed(s) && NoneMissed(s)
    ensures NoneMissed(Worked(s, i, ok))
  {
    hide Owners;
    var s', w := Worked(s, i, ok), s.workers[i];
    forall fd
      ensures Owners(s', fd) + (if w == Closing(fd) then 1 else 0) == Owners(s, fd)
    {
      WorkOwners(s, i, ok, fd);
    }
    if w.Closing? && w.fd in s.shared.active {
      var j :| 0 <= j < |s.workers| && Registers(s.workers[j], w.fd);
      NotTwice(s, i, j, w.fd);
    }
  }

  lemma WorkCounts(s: Server, i: nat, ok: bool)
    requires i < |s.workers|
    ensures Conserved(s) ==> Conserved(Worked(s, i, ok))
    ensures NoLostWakeup(s) ==> NoLostWakeup(Worked(s, i, ok))
  {
    hide Sum;
    var s', w' := Worked(s, i, ok), WorkerStep(s.shared, s.workers[i], ok).1;
    SumUpdate(s.workers, Unsettled, i, w');
    SumUpdate(s.workers, IsChecking, i, w');
    if Sleeping in s'.workers && !w'.Sleeping? {
      var j :| 0 <= j < |s'.workers| && s'.workers[j] == Sleeping;
      assert s.workers[j] == Sleeping;
    }
  }

  lemma WorkStaged(s: Server, i: nat, ok: bool, max: nat)
    requires i < |s.workers| && Staged(s)
    ensures Staged(Worked(s, i, ok)) && (PeakKnown(s, max) ==> PeakKnown(Worked(s, i, ok), max))
  {
    var s' := Worked(s, i, ok);
    assert s.workers[i] in s.workers;
    forall w | w in s'.workers
      ensures w in s.workers || w == s'.workers[i]
    {
      var j :| 0 <= j < |s'.workers| && s'.workers[j] == w;
      assert j != i ==> s.workers[j] == w;
    }
  }

  lemma WorkKeeps(s: Server, i: nat, ok: bool, max: nat)
    requires i < |s.workers| && Inv(s, max)
    ensures Inv(Worked(s, i, ok), max)
  {
    hide Worked, Owners, ActiveServed, NoneMissed, Conserved, NoLostWakeup, PeakKnown, Staged;
    forall fd
      ensures Owners(Worked(s, i, ok), fd) <= 1
    {
      WorkOwners(s, i, ok, fd);
    }
    WorkActive(s, i, ok);
    WorkNoneMissed(s, i, ok);
    WorkCounts(s, i, ok);
    WorkStaged(s, i, ok, max);
  }

  // ---------------------------------------------------------------------------
  // Steps keep it: the acceptor, shutdown and wakeups.
  // ---------------------------------------------------------------------------

  lemma {:induction false} QueuedPush(fds: seq<Fd>, last: Fd, fd: Fd)
    ensures Queued(fds + [last], fd) == Queued(fds, fd) + (if last == fd then 1 else 0)
  {
    if fds == [] {
      assert fds + [last] == [last] && [last][1..] == [];
    } else {
      assert (fds + [last])[1..] == fds[1..] + [last];
      QueuedPush(fds[1..], last, fd);
    }
  }

  lemma {:induction false} QueuedIn(fds: seq<Fd>, fd: Fd)
    ensures Queued(fds, fd) != 0 <==> fd in fds
  {
    if fds != [] {
      QueuedIn(fds[1..], fd);
    }
  }

  /** Only the worker at `i` may have changed, and it was asleep. */
  lemma WakeKeeps(s: Server, i: nat, a: Acceptor, max: nat)
    requires Inv(s, max) && i < |s.workers| && s.workers[i] == Sleeping
    requires a == s.acceptor || (s.acceptor == Notifying && a == Polling)
    ensures Inv(s.(acceptor := a, workers := s.workers[i := Checking]), max)
  {
    hide Sum;
    var s' := s.(acceptor := a, workers := s.workers[i := Checking]);
    SumUpdate(s.workers, Unsettled, i, Checking);
    SumUpdate(s.workers, IsChecking, i, Checking);
    forall fd
      ensures Owners(s', fd) == Owners(s, fd)
    {
      SumUpdate(s.workers, WorkerOwns(fd), i, Checking);
    }
    forall j | 0 <= j < |s.workers|
      ensures s'.workers[j] != Checking ==> s'.workers[j] == s.workers[j]
      ensures forall fd :: Registers(s'.workers[j], fd) <==> Registers(s.workers[j], fd)
    {
    }
    forall w | w in s'.workers
      ensures w in s.workers || w == Checking
    {
      var j :| 0 <= j < |s'.workers| && s'.workers[j] == w;
      assert j != i ==> s.workers[j] == w;
    }
    assert s.workers[i] in s.workers;
  }

  lemma NotifyAllKeeps(s: Server, max: nat)
    requires Inv(s, max) && s.acceptor == NotifyingAll
    ensures Inv(s.(acceptor := Joining, workers := Woken(s.workers)), max)
  {
    hide Sum;
    var s' := s.(acceptor := Joining, workers := Woken(s.workers));
    SumSame(s.workers, s'.workers, Unsettled);
    forall fd
      ensures Owners(s', fd) == Owners(s, fd)
    {
      SumSame(s.workers, s'.workers, WorkerOwns(fd));
    }
    forall w | w in s'.workers
      ensures w != Sleeping && (w in s.workers || w == Checking)
    {
      var j :| 0 <= j < |s'.workers| && s'.workers[j] == w;
      assert s.workers[j] in s.workers;
    }
    forall j, fd | 0 <= j < |s.workers|
      ensures Registers(s'.workers[j], fd) <==> Registers(s.workers[j], fd)
    {
    }
    assert ActiveServed(s');
  }

  /** Steps that leave the workers and the registered connections alone. */
  lemma QuietKeeps(s: Server, s': Server, max: nat)
    requires Inv(s, max) && s'.workers == s.workers && s'.shared.active == s.shared.active
    requires Conserved(s') && PeakKnown(s', max) && Staged(s') && NoLostWakeup(s')
    requires forall fd :: Owners(s', fd) <= 1
    requires s'.shared.activeStopping == s.shared.activeStopping && s'.shared.shut <= s.shared.shut
    requires forall fd :: fd in s'.shared.shut ==> Owners(s', fd) >= Owners(s, fd)
    requires forall fd :: fd in s.shared.active && fd in s.shared.shut ==> fd in s'.shared.shut
    ensures Inv(s', max)
  {
    hide Owners, Conserved, PeakKnown, Staged, NoLostWakeup;
  }

  /** A registered descriptor is nowhere else. */
  lemma ActiveElsewhere(s: Server, fd: Fd)
    requires OneOwner(s) && ActiveServed(s) && fd in s.shared.active
    ensures Queued(s.shared.pending, fd) == 0 && AcceptorOwns(s.acceptor, fd) == 0
  {
    hide Sum;
    var i :| 0 <= i < |s.workers| && Registers(s.workers[i], fd);
    SumIncludes(s.workers, WorkerOwns(fd), i);
    assert Owners(s, fd) <= 1;
  }

  lemma EnqueueKeeps(s: Server, max: nat)
    requires Inv(s, max) && s.acceptor.Counted?
    ensures Inv(Next(s, Enqueue, max), max)
  {
    hide Sum, Queued;
    var s' := Next(s, Enqueue, max);
    forall fd
      ensures Owners(s', fd) == Owners(s, fd)
    {
      QueuedPush(s.shared.pending, s.acceptor.fd, fd);
    }
    assert forall fd :: Owners(s, fd) <= 1;
    QuietKeeps(s, s', max);
  }

  lemma DropKeeps(s: Server, max: nat)
    requires Inv(s, max) && s.acceptor.Dropping?
    ensures Inv(Next(s, DropClient, max), max)
  {
    hide Sum, Queued;
    var s', fd0 := Next(s, DropClient, max), s.acceptor.fd;
    forall fd
      ensures Owners(s', fd) == if fd == fd0 then Owners(s, fd) - 1 else Owners(s, fd)
    {
    }
    assert forall fd :: Owners(s, fd) <= 1;
    if fd0 in s.shared.active {
      ActiveElsewhere(s, fd0);
    }
    QuietKeeps(s, s', max);
  }

  lemma CloseQueueKeeps(s: Server, max: nat)
    requires Inv(s, max) && s.acceptor == ClosingQueue
    ensures Inv(Next(s, CloseQueue, max), max)
  {
    hide Sum;
    var s' := Next(s, CloseQueue, max);
    forall fd
      ensures Owners(s', fd)
           == if fd in s.shared.pending then Owners(s, fd) - Queued(s.shared.pending, fd) else Owners(s, fd)
    {
      QueuedIn(s.shared.pending, fd);
    }
    assert forall fd :: Owners(s, fd) <= 1;
    forall fd | fd in s.shared.active
      ensures fd !in s.shared.pending
    {
      ActiveElsewhere(s, fd);
      QueuedIn(s.shared.pending, fd);
    }
    QuietKeeps(s, s', max);
  }

  /** Shutting down adds exactly the registered connections, which are all owned. */
  lemma ShutKeeps(s: Server, a: Acceptor, max: nat)
    requires Inv(s, max)
    requires a == s.acceptor || (s.acceptor == Stopping && a == ClosingQueue)
    ensures Inv(s.(acceptor := a, shared := ActiveShut(s.shared)), max)
  {
    hide Sum, Queued;
    var s' := s.(acceptor := a, shared := ActiveShut(s.shared));
    forall fd
      ensures Owners(s', fd) == Owners(s, fd)
    {
    }
    forall fd | fd in s.shared.active
      ensures Owners(s, fd) != 0
    {
      var i :| 0 <= i < |s.workers| && Registers(s.workers[i], fd);
      SumIncludes(s.workers, WorkerOwns(fd), i);
    }
  }

  lemma AcceptKeeps(s: Server, fd0: Fd, max: nat)
    requires Inv(s, max)
    ensures Inv(Next(s, Accept(fd0), max), max)
  {
    hide Sum, Queued;
    var s' := Next(s, Accept(fd0), max);
    if s' != s {
      forall fd
        ensures Owners(s', fd) == if fd == fd0 then 1 else Owners(s, fd)
      {
      }
      assert forall fd :: Owners(s, fd) <= 1;
      QuietKeeps(s, s', max);
    }
  }

  /** The remaining steps only move the acceptor on and count. */
  lemma CountingKeeps(s: Server, h: Happening, max: nat)
    requires Inv(s, max)
    requires h.Poll? || h.NothingToAccept? || h.CountAccepted? || h.ObservePeak? || h.Reject?
      || h.BeginStop? || h.Join? || h.RequestStop? || (h.NotifyOne? && Sleeping !in s.workers)
    ensures Inv(Next(s, h, max), max)
  {
    hide Sum, Queued, Owners, OneOwner, ActiveServed, NoneMissed;
    var s' := Next(s, h, max);
    OwnersKept(s, h, max);
    assert forall fd :: Owners(s, fd) <= 1 by { OnlyOne(s); }
    QuietKeeps(s, s', max);
  }

  lemma OnlyOne(s: Server)
    requires OneOwner(s)
    ensures forall fd :: Owners(s, fd) <= 1
  {
  }

  lemma OwnersKept(s: Server, h: Happening, max: nat)
    requires h.Poll? || h.NothingToAccept? || h.CountAccepted? || h.ObservePeak? || h.Reject?
      || h.BeginStop? || h.Join? || h.RequestStop? || (h.NotifyOne? && Sleeping !in s.workers)
    ensures forall fd :: Owners(Next(s, h, max), fd) == Owners(s, fd)
  {
    hide Sum, Queued;
  }

  lemma NextKeeps(s: Server, h: Happening, max: nat)
    requires Inv(s, max)
    ensures Inv(Next(s, h, max), max)
  {
    hide Inv, Owners, WorkerStep, ActiveShut, QueueClosed, Woken;
    match h
    case Accept(fd) => AcceptKeeps(s, fd, max);
    case Enqueue => if s.acceptor.Counted? { EnqueueKeeps(s, max); }
    case DropClient => if s.acceptor.Dropping? { DropKeeps(s, max); }
    case CloseQueue => if s.acceptor == ClosingQueue { CloseQueueKeeps(s, max); }
    case NotifyAll => if s.acceptor == NotifyingAll { NotifyAllKeeps(s, max); }
    case ShutActive => if s.acceptor == Stopping { ShutKeeps(s, ClosingQueue, max); }
    case RequestShutdown => ShutKeeps(s, s.acceptor, max);
    case NotifyOne(i) =>
      if Sleeping !in s.workers {
        CountingKeeps(s, h, max);
      } else if s.acceptor == Notifying && i < |s.workers| && s.workers[i] == Sleeping {
        WakeKeeps(s, i, Polling, max);
      }
    case Wake(i) => if i < |s.workers| && s.workers[i] == Sleeping { WakeKeeps(s, i, s.acceptor, max); }
    case Work(i, ok) => if i < |s.workers| { WorkKeeps(s, i, ok, max); }
    case _ => CountingKeeps(s, h, max);
  }

  // ---------------------------------------------------------------------------
  // Every run.
  // ---------------------------------------------------------------------------

  ghost function Run(s: Server, hs: seq<Happening>, max: nat): Server
    decreases |hs|
  {
    if hs == [] then s else Run(Next(s, hs[0], max), hs[1..], max)
  }

  lemma {:induction false} RunKeeps(s: Server, hs: seq<Happening>, max: nat)
    requires Inv(s, max)
    ensures Inv(Run(s, hs, max), max)
    decreases |hs|
  {
    hide Inv, Next;
    if hs != [] {
      NextKeeps(s, hs[0], max);
      RunKeeps(Next(s, hs[0], max), hs[1..], max);
    }
  }

  /** In every interleaving every accepted connection is accounted for; after the join, in the final counters. */
  lemma EveryConnectionCounted(n: nat, hs: seq<Happening>, max: nat)
    ensures var s := Run(Started(n), hs, max);
      var sh := s.shared;
      && sh.accepted == sh.rejected + sh.cancelled + sh.completed + sh.failed
                        + |sh.pending| + AcceptorUnsettled(s.acceptor) + Sum(s.workers, Unsettled)
      && (s.acceptor.Joined? ==> sh.accepted == sh.rejected + sh.cancelled + sh.completed + sh.failed)
  {
    hide Run, Sum;
    StartedInv(n, max);
    RunKeeps(Started(n), hs, max);
    var s := Run(Started(n), hs, max);
    if s.acceptor.Joined? {
      assert forall i :: 0 <= i < |s.workers| ==> s.workers[i] in s.workers;
      SumZero(s.workers, Unsettled);
    }
  }

  /**
   * In every interleaving: a registered number names a descriptor that exactly one worker owns and
   * nothing else does, and once the active connections are shut down, every registered connection
   * has been shut down, those in a session among them.
   */
  lemma ShutdownMissesNone(n: nat, hs: seq<Happening>, max: nat, fd: Fd)
    ensures var s := Run(Started(n), hs, max);
      && (fd in s.shared.active ==>
            && Owners(s, fd) == 1 && AcceptorOwns(s.acceptor, fd) == 0 && fd !in s.shared.pending
            && (exists i :: 0 <= i < |s.workers| && Registers(s.workers[i], fd)
                           && (forall j :: 0 <= j < |s.workers| && j != i ==> !Has(s.workers[j], fd))))
      && (s.shared.activeStopping ==>
            && s.shared.active <= s.shared.shut
            && forall i :: 0 <= i < |s.workers| && Registers(s.workers[i], fd) ==> fd in s.shared.shut)
  {
    hide Run, Sum, Queued;
    StartedInv(n, max);
    RunKeeps(Started(n), hs, max);
    var s := Run(Started(n), hs, max);
    if fd in s.shared.active {
      ActiveElsewhere(s, fd);
      QueuedIn(s.shared.pending, fd);
      var i :| 0 <= i < |s.workers| && Registers(s.workers[i], fd);
      SumIncludes(s.workers, WorkerOwns(fd), i);
      forall j | 0 <= j < |s.workers| && j != i
        ensures !Has(s.workers[j], fd)
      {
        if Has(s.workers[j], fd) {
          NotTwice(s, i, j, fd);
        }
      }
      assert Owners(s, fd) <= 1;
    }
  }

  /** Once the active connections are shut down, no connection registers any more. */
  lemma {:induction false} NoneRegistersLater(s: Server, hs: seq<Happening>, max: nat)
    requires s.shared.activeStopping
    ensures var s' := Run(s, hs, max); s'.shared.activeStopping && s'.shared.active <= s.shared.active
    decreases |hs|
  {
    if hs != [] {
      var next := Next(s, hs[0], max);
      assert next.shared.activeStopping && next.shared.active <= s.shared.active;
      NoneRegistersLater(next, hs[1..], max);
    }
  }

  /** No wakeup is lost: with no worker and no notification on its way, a sleeping worker means an empty queue. */
  lemma NoConnectionWaitsForSleepers(n: nat, hs: seq<Happening>, max: nat)
    ensures var s := Run(Started(n), hs, max);
      && (Sleeping in s.workers ==> |s.shared.pending| <= Sum(s.workers, IsChecking) + Undelivered(s.acceptor))
      && (Sleeping in s.workers && Checking !in s.workers && !s.acceptor.Enqueued? && !s.acceptor.Notifying? ==>
            s.shared.pending == [])
  {
    hide Run, Sum;
    StartedInv(n, max);
    RunKeeps(Started(n), hs, max);
    var s := Run(Started(n), hs, max);
    if Checking !in s.workers {
      assert forall i :: 0 <= i < |s.workers| ==> s.workers[i] in s.workers;
      SumZero(s.workers, IsChecking);
    }
  }

  lemma {:induction false} RunAppend(s: Server, a: seq<Happening>, b: seq<Happening>, max: nat)
    ensures Run(s, a + b, max) == Run(Run(s, a, max), b, max)
    decreases |a|
  {
    hide Next;
    if a == [] {
      assert a + b == b;
    } else {
      assert (a + b)[1..] == a[1..] + b;
      RunAppend(Next(s, a[0], max), a[1..], b, max);
    }
  }

  lemma {:induction false} DeepestGrows(s: Server, hs: seq<Happening>, max: nat)
    ensures s.deepest <= Run(s, hs, max).deepest
    decreases |hs|
  {
    if hs != [] {
      assert s.deepest <= Next(s, hs[0], max).deepest;
      DeepestGrows(Next(s, hs[0], max), hs[1..], max);
    }
  }

  /** The recorded depth was really reached. */
  lemma {:induction false} DeepestReached(s: Server, hs: seq<Happening>, max: nat) returns (k: nat)
    ensures k <= |hs|
    ensures var s' := Run(s, hs, max); s'.deepest == s.deepest || s'.deepest == |Run(s, hs[..k], max).shared.pending|
    decreases |hs|
  {
    if hs == [] {
      k := 0;
    } else {
      var next := Next(s, hs[0], max);
      var j := DeepestReached(next, hs[1..], max);
      if Run(s, hs, max).deepest == next.deepest {
        k := 1;
        assert hs[..1] == [hs[0]] && hs[..1][1..] == [];
        assert Run(next, [], max) == next;
        assert next.deepest == s.deepest || next.deepest == |next.shared.pending|;
      } else {
        k := j + 1;
        assert hs[..k][1..] == hs[1..][..j];
      }
    }
  }

  /** The queue never exceeds its bound, and the peak, once observed, is exactly the longest the queue has been. */
  lemma PeakIsExact(n: nat, hs: seq<Happening>, max: nat, k: nat)
    requires k <= |hs|
    ensures var s := Run(Started(n), hs, max);
      && |Run(Started(n), hs[..k], max).shared.pending| <= s.deepest <= max
      && (exists j :: 0 <= j <= |hs| && |Run(Started(n), hs[..j], max).shared.pending| == s.deepest)
      && (!s.acceptor.Enqueued? ==> s.shared.peak == s.deepest)
  {
    hide Next;
    StartedInv(n, max);
    RunKeeps(Started(n), hs, max);
    RunKeeps(Started(n), hs[..k], max);
    assert hs == hs[..k] + hs[k..];
    RunAppend(Started(n), hs[..k], hs[k..], max);
    DeepestGrows(Run(Started(n), hs[..k], max), hs[k..], max);
    var j := DeepestReached(Started(n), hs, max);
    var s := Run(Started(n), hs, max);
    if s.deepest == 0 {
      assert Run(Started(n), hs[..0], max) == Started(n);
    }
  }

  // ---------------------------------------------------------------------------
  // The workers exit.
  // ---------------------------------------------------------------------------

  function TotalRank(s: Server): nat { Sum(s.workers, Rank) }

  lemma {:induction false} RankBound(ws: seq<Worker>)
    ensures Sum(ws, Rank) <= 6 * |ws|
  {
    if ws != [] {
      RankBound(ws[..|ws| - 1]);
    }
  }

  lemma {:induction false} SumLess(ws: seq<Worker>, ws': seq<Worker>, f: Worker -> nat)
    requires |ws| == |ws'| && forall i :: 0 <= i < |ws| ==> f(ws[i]) <= f(ws'[i])
    ensures Sum(ws, f) <= Sum(ws', f)
  {
    if ws != [] {
      SumLess(ws[..|ws| - 1], ws'[..|ws| - 1], f);
    }
  }

  /** A worker that is neither asleep nor gone. */
  predicate Awake(w: Worker) { w != Exited && w != Sleeping }

  /** Once the queue is closed it stays so, nothing raises the rank, and every step of an awake worker lowers it. */
  lemma ClosedStep(s: Server, h: Happening, max: nat)
    requires Inv(s, max) && QueueIsClosed(s.acceptor)
    ensures var s' := Next(s, h, max);
      && QueueIsClosed(s'.acceptor) && |s'.workers| == |s.workers|
      && TotalRank(s') <= TotalRank(s)
      && (h.Work? && h.i < |s.workers| && Awake(s.workers[h.i]) ==> TotalRank(s') < TotalRank(s))
  {
    hide Sum;
    if h.Work? && h.i < |s.workers| {
      SumUpdate(s.workers, Rank, h.i, WorkerStep(s.shared, s.workers[h.i], h.ok).1);
    } else if h.Wake? && h.i < |s.workers| {
      SumUpdate(s.workers, Rank, h.i, Checking);
    } else if h.NotifyAll? {
      SumLess(Woken(s.workers), s.workers, Rank);
    }
  }

  /** How many of the steps are taken by workers that are awake. */
  ghost function Efforts(s: Server, hs: seq<Happening>, max: nat): nat
    decreases |hs|
  {
    if hs == [] then 0 else
      (if hs[0].Work? && hs[0].i < |s.workers| && Awake(s.workers[hs[0].i]) then 1 else 0)
      + Efforts(Next(s, hs[0], max), hs[1..], max)
  }

  /**
   * From the moment the queue is closed, however the threads interleave, the workers take at most
   * six steps each; when there are none left to take, they have all exited.
   */
  lemma {:induction false} WorkersExit(s: Server, hs: seq<Happening>, max: nat)
    requires Inv(s, max) && QueueIsClosed(s.acceptor)
    ensures Efforts(s, hs, max) + TotalRank(Run(s, hs, max)) <= TotalRank(s) <= 6 * |s.workers|
    ensures TotalRank(Run(s, hs, max)) == 0 ==> forall w :: w in Run(s, hs, max).workers ==> w == Exited
    decreases |hs|
  {
    hide Next, Inv;
    RankBound(s.workers);
    if hs == [] {
      forall w | TotalRank(s) == 0 && w in s.workers
        ensures w == Exited
      {
        var i :| 0 <= i < |s.workers| && s.workers[i] == w;
        SumIncludes(s.workers, Rank, i);
      }
    } else {
      ClosedStep(s, hs[0], max);
      NextKeeps(s, hs[0], max);
      WorkersExit(Next(s, hs[0], max), hs[1..], max);
    }
  }

  /** And they can always go on: from any such state some schedule lets the join return, with the books balanced. */
  lemma {:induction false} JoinReturns(s: Server, max: nat) returns (hs: seq<Happening>)
    requires Inv(s, max) && QueueIsClosed(s.acceptor)
    ensures |hs| <= TotalRank(s) + 2
    ensures var s' := Run(s, hs, max); var sh := s'.shared;
      s'.acceptor == Joined && sh.accepted == sh.rejected + sh.cancelled + sh.completed + sh.failed
  {
    hide Sum, Inv, Woken, TotalRank;
    if s.acceptor == NotifyingAll {
      ClosedStep(s, NotifyAll, max);
      NextKeeps(s, NotifyAll, max);
      var rest := WorkersJoined(Next(s, NotifyAll, max), max);
      hs := [NotifyAll] + rest;
      assert hs[1..] == rest;
    } else if s.acceptor == Joining {
      hs := WorkersJoined(s, max);
    } else {
      hs := [];
      JoinedBooks(s, max);
    }
  }

  lemma {:induction false} WorkersJoined(s: Server, max: nat) returns (hs: seq<Happening>)
    requires Inv(s, max) && s.acceptor == Joining
    ensures |hs| <= TotalRank(s) + 1
    ensures var s' := Run(s, hs, max); var sh := s'.shared;
      s'.acceptor == Joined && sh.accepted == sh.rejected + sh.cancelled + sh.completed + sh.failed
    decreases TotalRank(s)
  {
    hide Sum, Inv;
    if i :| 0 <= i < |s.workers| && s.workers[i] != Exited {
      var h := Work(i, true);
      NoneAsleep(s, i, max);
      ClosedStep(s, h, max);
      NextKeeps(s, h, max);
      var rest := WorkersJoined(Next(s, h, max), max);
      hs := [h] + rest;
      assert hs[1..] == rest;
    } else {
      hs := [Join];
      assert hs[1..] == [];
      JoinedBooks(s, max);
    }
  }

  lemma NoneAsleep(s: Server, i: nat, max: nat)
    requires Inv(s, max) && s.acceptor == Joining && i < |s.workers|
    ensures s.workers[i] != Sleeping
  {
    assert s.workers[i] in s.workers;
  }

  lemma JoinedBooks(s: Server, max: nat)
    requires Inv(s, max)
    requires s.acceptor == Joined
      || (s.acceptor == Joining && forall i :: 0 <= i < |s.workers| ==> s.workers[i] == Exited)
    ensures var sh := s.shared; sh.accepted == sh.rejected + sh.cancelled + sh.completed + sh.failed
  {
    hide Sum;
    assert forall i :: 0 <= i < |s.workers| ==> s.workers[i] in s.workers;
    SumZero(s.workers, Unsettled);
  }
}
