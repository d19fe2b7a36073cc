/** The methods of SignalThread (src/base/signalthread.cpp) as steps of SignalThreadSpec. A method that calls out
    while it runs is cut there: what the called code does to the object are steps of its own. */
module SignalThreads {
  import opened Bytes
  import opened SignalThreadSpec

  class SignalThread {
    var life: Life
    var refcount: int
    var worker: Worker
    var workerStop: bool         // worker_'s fStop_
    var messages: nat            // what the main thread's queue holds for this object
    ghost var frame: Option<Frame>
    ghost var waiting: bool
    ghost var gaveUp: bool
    ghost var deleted: nat
    ghost var starts: nat
    ghost var signals: nat
    ghost var stopped: nat
    ghost var dropped: nat

    ghost function View(): State
      reads this
    {
      State(life, refcount, worker, workerStop, messages, frame, waiting, gaveUp, deleted, starts, signals, stopped, dropped)
    }

    constructor ()
      ensures View() == NEW
    {
      life, refcount, worker, workerStop, messages := Init, 1, Idle, false, 0;
      frame, waiting, gaveUp, deleted := None, false, false, 0;
      starts, signals, stopped, dropped := 0, 0, 0, 0;
    }

    /** EnterExit's constructor; the lock is held from here on. */
    method EnterLock()
      requires refcount != 0
      modifies this
      ensures View() == Enter(old(View()))
    {
      refcount := refcount + 1;
    }

    /** EnterExit's destructor. */
    method ExitLock()
      modifies this
      ensures View() == Leave(old(View()))
    {
      refcount := refcount - 1;
      if refcount == 0 {
        Delete();
      }
    }

    /** The destructors of MessageHandler, which clears the queues, and of the worker, which joins it. */
    method Delete()
      modifies this
      ensures View() == old(View()).(deleted := old(deleted) + 1, messages := 0, worker := Idle)
    {
      messages := 0;
      worker := Idle;
      deleted := deleted + 1;
    }

    method DropReference()
      modifies this
      ensures View() == Drop(old(View()))
    {
      refcount := refcount - 1;
      dropped := dropped + 1;
    }

    method Start()
      requires Inv(View()) && Enabled(View(), Step.Start)
      modifies this
      ensures View() == Apply(old(View()), Step.Start)
    {
      EnterLock();
      if life == Init || life == Complete {
        life := Running;
        worker := Working;
        starts := starts + 1;
      } else {
        assert false;
      }
      ExitLock();
    }

    method Release()
      requires Inv(View()) && Enabled(View(), Step.Release)
      modifies this
      ensures View() == Apply(old(View()), Step.Release)
    {
      EnterLock();
      gaveUp := true;
      if life == Complete {
        DropReference();
      } else if life == Running {
        life := Releasing;
      } else {
        assert false;
      }
      ExitLock();
    }

    /** Destroy up to its end, or to the call of worker_.Stop(). */
    method Destroy(wait: bool)
      requires Inv(View()) && Enabled(View(), Step.Destroy(wait))
      modifies this
      ensures View() == Apply(old(View()), Step.Destroy(wait))
    {
      EnterLock();
      gaveUp := true;
      if life == Init || life == Complete {
        DropReference();
      } else if life == Running || life == Releasing {
        life := Stopping;
        workerStop := true;
        if wait {
          waiting := true;
          return;
        }
      } else {
        assert false;
      }
      ExitLock();
    }

    /** Destroy(true) from the return of worker_.Stop() on. */
    method FinishDestroy()
      requires Inv(View()) && Enabled(View(), DestroyJoins)
      modifies this
      ensures View() == Apply(old(View()), DestroyJoins)
    {
      waiting := false;
      stopped := stopped + if worker == Exited then 1 else 0;
      worker := Idle;
      DropReference();
      ExitLock();
    }

    /** The locked part of Run. */
    method PostDone()
      requires Inv(View()) && Enabled(View(), WorkerPosts)
      modifies this
      ensures View() == Apply(old(View()), WorkerPosts)
    {
      EnterLock();
      worker := Exited;
      messages := messages + 1;
      ExitLock();
    }

    /** OnMessage up to the call of OnWorkDone. */
    method OnMessage()
      requires Inv(View()) && Enabled(View(), Deliver)
      modifies this
      ensures View() == Apply(old(View()), Deliver)
    {
      messages := messages - 1;
      EnterLock();
      frame := Some(InWorkDone);
    }

    /** OnMessage behind OnWorkDone; it returns whether SignalWorkDone is called now. */
    method AfterWorkDone() returns (signal: bool, doDelete: bool)
      requires Inv(View()) && Enabled(View(), WorkDoneReturns)
      modifies this
      ensures View() == Apply(old(View()), WorkDoneReturns)
      ensures signal == !old(life).Stopping? && doDelete == !old(life).Running?
    {
      doDelete := false;
      if life == Running {
        life := Complete;
      } else {
        doDelete := true;
      }
      signal := life != Stopping;
      if signal {
        workerStop := true;
        worker := Idle;
        signals := signals + 1;
        frame := Some(InSignal(doDelete));
      } else {
        stopped := stopped + 1;
        FinishMessage(doDelete);
      }
    }

    /** OnMessage behind SignalWorkDone. */
    method AfterSignal(doDelete: bool)
      requires Inv(View()) && Enabled(View(), SignalReturns) && frame == Some(InSignal(doDelete))
      modifies this
      ensures View() == Apply(old(View()), SignalReturns)
    {
      FinishMessage(doDelete);
    }

    method FinishMessage(doDelete: bool)
      modifies this
      ensures View() == EndMessage(old(View()), doDelete)
    {
      frame := None;
      if doDelete {
        DropReference();
      }
      ExitLock();
    }
  }
}
