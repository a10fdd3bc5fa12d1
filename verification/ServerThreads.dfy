/** The critical sections of the concurrent server as code, each proved to be the step `WorkerPool` takes. */
module ServerThreads {
  import opened WorkerPool

  class Impl {
    var pending: seq<Fd>
    var workersStopping: bool
    var activeStopping: bool
    var active: set<Fd>
    var shut: set<Fd>
    var stopRequested: bool
    var accepted: nat
    var completed: nat
    var failed: nat
    var rejected: nat
    var cancelled: nat
    var peak: nat

    ghost function View(): Shared
      reads this
    {
      Shared(pending, workersStopping, activeStopping, active, shut, stopRequested,
             accepted, completed, failed, rejected, cancelled, peak)
    }

    constructor ()
      ensures View() == Started(0).shared
    {
      pending, workersStopping, activeStopping, active, shut, stopRequested := [], false, false, {}, {}, false;
      accepted, completed, failed, rejected, cancelled, peak := 0, 0, 0, 0, 0, 0;
    }

    /** `observe_peak`: a compare-and-swap loop; `fails` says which exchanges fail spuriously. */
    method ObserveDepth(depth: nat, fails: seq<bool>)
      modifies this
      ensures View() == old(View()).(peak := Max(old(peak), depth))
    {
      var current, i := peak, 0;
      while depth > current
        invariant 0 <= i <= |fails|
        invariant View() == old(View()).(peak := peak)
        invariant (peak == old(peak) && current == peak) || (current == depth && peak == Max(old(peak), depth))
        decreases depth - current, |fails| - i
      {
        if i < |fails| && fails[i] {
          current, i := peak, i + 1;
        } else {
          peak, current := depth, depth;
        }
      }
    }

    /** `shutdown_active_connections`: the flag and the scan under one lock. */
    method ShutdownActiveConnections()
      modifies this
      ensures View() == ActiveShut(old(View()))
    {
      activeStopping := true;
      var left := active;
      while left != {}
        invariant left <= active
        invariant forall fd :: fd in shut <==> fd in old(shut) || (fd in active && fd !in left)
        decreases |left|
        modifies this`shut
      {
        var fd :| fd in left;
        shut := shut + {fd};
        left := left - {fd};
      }
      assert shut == old(shut) + active;
    }

    /** The worker's first critical section: what it does when the wait condition is evaluated. */
    method TakeConnection() returns (w: Worker)
      modifies this
      ensures forall ok :: (View(), w) == WorkerStep(old(View()), Checking, ok)
    {
      if !workersStopping && pending == [] {
        return Sleeping;
      }
      if pending == [] {
        return Exited;
      }
      var client := pending[0];
      pending := pending[1..];
      return Taken(client);
    }

    /** The worker's second critical section: register, or cancel. */
    method RegisterOrCancel(client: Fd) returns (w: Worker)
      modifies this
      ensures forall ok :: (View(), w) == WorkerStep(old(View()), Taken(client), ok)
    {
      if activeStopping {
        cancelled := cancelled + 1;
        return Closing(client);
      }
      active := active + {client};
      return Serving(client);
    }

    method Unregister(client: Fd, result: bool) returns (w: Worker)
      modifies this
      ensures forall ok :: (View(), w) == WorkerStep(old(View()), Served(client, result), ok)
    {
      active := active - {client};
      return Erased(client, result);
    }

    method CountResult(client: Fd, result: bool) returns (w: Worker)
      modifies this
      ensures forall ok :: (View(), w) == WorkerStep(old(View()), Erased(client, result), ok)
    {
      if result {
        completed := completed + 1;
      } else {
        failed := failed + 1;
      }
      return Closing(client);
    }

    /** The acceptor's critical section. */
    method TryEnqueue(client: Fd, max: nat) returns (enqueued: bool, depth: nat)
      modifies this
      ensures enqueued <==> HasRoom(old(View()), max)
      ensures View() == if enqueued then Pushed(old(View()), client) else old(View())
      ensures enqueued ==> depth == |pending|
    {
      enqueued, depth := false, 0;
      if !workersStopping && |pending| < max {
        pending := pending + [client];
        depth := |pending|;
        enqueued := true;
      }
    }

    /** The queue's critical section of `stop_workers`; clearing the queue closes its descriptors one by one. */
    method CloseThePool()
      modifies this
      ensures View() == QueueClosed(old(View()))
    {
      workersStopping := true;
      cancelled := cancelled + |pending|;
      var left := pending;
      while left != []
        invariant |left| <= |old(pending)| && left == old(pending)[|old(pending)| - |left|..]
        invariant shut == old(shut) - Contents(old(pending)[..|old(pending)| - |left|])
        decreases |left|
        modifies this`shut
      {
        ghost var done := |old(pending)| - |left|;
        assert old(pending)[..done + 1] == old(pending)[..done] + [left[0]];
        shut := shut - {left[0]};
        left := left[1..];
      }
      assert old(pending)[..|old(pending)|] == old(pending);
      pending := [];
    }
  }
}
