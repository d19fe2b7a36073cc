/** The lifetime of a SignalThread (src/base/signalthread.cpp, signalthread.h): a main thread and a worker share
    an object that counts its users. A step is what one thread does while it holds the lock; only Destroy(true)
    gives the lock up in the middle, and the handlers that OnMessage calls run while the main thread holds it. */
module SignalThreadSpec {
  import opened Bytes

  datatype Life = Init | Running | Releasing | Complete | Stopping

  /** The worker thread: not started or joined; in DoWork; past Run, with its message posted. */
  datatype Worker = Idle | Working | Exited

  /** Where the main thread is inside OnMessage: in OnWorkDone, or in the handlers of SignalWorkDone. */
  datatype Frame = InWorkDone | InSignal(doDelete: bool)

  /** `deleted`, `starts`, `signals`, `stopped` and `dropped` count what has happened; `gaveUp` is set by the
      client's Release or Destroy. */
  datatype State = State(
    life: Life,
    refcount: int,
    worker: Worker,
    quit: bool,          // fStop_ of the worker
    messages: nat,       // ST_MSG_WORKER_DONE in the queue of the main thread
    frame: Option<Frame>,
    waiting: bool,       // inside Destroy(true), in worker_.Stop()
    gaveUp: bool,
    deleted: nat,
    starts: nat,
    signals: nat,
    stopped: nat,        // runs that ended without SignalWorkDone
    dropped: nat)        // refcount_-- outside EnterExit

  const NEW := State(Init, 1, Idle, false, 0, None, false, false, 0, 0, 0, 0, 0)

  datatype Step =
    | Start
    | Release
    | Destroy(wait: bool)
    | DestroyJoins     // worker_.Stop() returns
    | WorkerPosts      // DoWork has returned: the locked part of Run
    | Deliver          // OnMessage is entered
    | WorkDoneReturns  // OnMessage from OnWorkDone to SignalWorkDone
    | SignalReturns    // the rest of OnMessage

  /** The lock is held by the main thread inside OnMessage; the worker can only take it outside. */
  predicate LockIsFree(s: State) {
    s.frame.None?
  }

  /** The client's part of the contract: it gives the object up once, by Release or Destroy, or turns a Release
      into a Destroy while the work goes on. */
  predicate Enabled(s: State, step: Step) {
    && s.deleted == 0
    && match step
       case Start => !s.waiting && !s.gaveUp && (s.life.Init? || s.life.Complete?)
       case Release => !s.waiting && !s.gaveUp && (s.life.Complete? || s.life.Running?)
       case Destroy(_) => !s.waiting && (!s.gaveUp || s.life.Releasing?) && !s.life.Stopping?
       case DestroyJoins => s.waiting && s.worker != Working
       case WorkerPosts => s.worker == Working && LockIsFree(s)
       case Deliver => !s.waiting && s.frame.None? && s.messages > 0
       case WorkDoneReturns => !s.waiting && s.frame == Some(InWorkDone) && (s.life.Stopping? || s.worker != Working)
       case SignalReturns => !s.waiting && s.frame.Some? && s.frame.value.InSignal?
  }

  /** EnterExit's end: the last user deletes the object, whose message is removed and whose worker is joined. */
  function Leave(s: State): State {
    if s.refcount - 1 == 0 then s.(refcount := 0, deleted := s.deleted + 1, messages := 0, worker := Idle)
    else s.(refcount := s.refcount - 1)
  }

  function Drop(s: State): State {
    s.(refcount := s.refcount - 1, dropped := s.dropped + 1)
  }

  function Enter(s: State): State {
    s.(refcount := s.refcount + 1)
  }

  function Apply(s: State, step: Step): State
    requires Enabled(s, step)
  {
    match step
    case Start => Leave(Enter(s).(life := Running, worker := Working, starts := s.starts + 1))
    case Release =>
      var e := Enter(s).(gaveUp := true);
      Leave(if s.life.Complete? then Drop(e) else e.(life := Releasing))
    case Destroy(wait) =>
      var e := Enter(s).(gaveUp := true);
      if s.life.Init? || s.life.Complete? then Leave(Drop(e))
      else if wait then e.(life := Stopping, quit := true, waiting := true)
      else Leave(e.(life := Stopping, quit := true))
    case DestroyJoins =>
      var joined := s.(waiting := false, worker := Idle, stopped := s.stopped + if s.worker == Exited then 1 else 0);
      Leave(Drop(joined))
    case WorkerPosts => Leave(Enter(s).(worker := Exited, messages := s.messages + 1))
    case Deliver => Enter(s).(frame := Some(InWorkDone), messages := s.messages - 1)
    case WorkDoneReturns =>
      var doDelete := !s.life.Running?;
      var t := if s.life.Running? then s.(life := Complete) else s;
      if s.life.Stopping? then EndMessage(t.(stopped := s.stopped + 1), true)
      else t.(quit := true, worker := Idle, signals := s.signals + 1, frame := Some(InSignal(doDelete)))
    case SignalReturns => EndMessage(s, s.frame.value.doDelete)
  }

  function EndMessage(s: State, doDelete: bool): State {
    var t := s.(frame := None);
    Leave(if doDelete then Drop(t) else t)
  }

  // ---- runs --------------------------------------------------------------------------------------

  /** A Destroy(true) that would wait although OnMessage is on the stack. */
  predicate WaitsInside(s: State, step: Step) {
    step == Destroy(true) && s.frame.Some? && (s.life.Running? || s.life.Releasing?)
  }

  predicate AllEnabled(s: State, steps: seq<Step>)
    decreases |steps|
  {
    steps == [] || (Enabled(s, steps[0]) && AllEnabled(Apply(s, steps[0]), steps[1..]))
  }

  function Run(s: State, steps: seq<Step>): State
    requires AllEnabled(s, steps)
    decreases |steps|
  {
    if steps == [] then s else Run(Apply(s, steps[0]), steps[1..])
  }

  predicate NeverWaitsInside(s: State, steps: seq<Step>)
    requires AllEnabled(s, steps)
    decreases |steps|
  {
    steps == [] || (!WaitsInside(s, steps[0]) && NeverWaitsInside(Apply(s, steps[0]), steps[1..]))
  }

  function B(b: bool): nat { if b then 1 else 0 }

  // ---- what every step keeps ---------------------------------------------------------------------

  /** The count is what the users say: the client until it has dropped the object, OnMessage, and a waiting Destroy. */
  predicate Counted(s: State) {
    && s.deleted <= 1 && s.dropped <= 1
    && s.refcount == (if s.deleted == 1 then 0 else 1 - s.dropped + B(s.frame.Some?) + B(s.waiting))
    && (s.deleted == 1 ==> s.frame.None? && !s.waiting && s.dropped == 1)
    && (s.deleted == 0 ==> s.refcount > 0)
  }

  /** Where the worker and its message are. */
  predicate WorkerOk(s: State) {
    && (s.worker == Working ==> s.messages == 0 && !s.life.Init? && !s.life.Complete? && s.frame != Some(InWorkDone))
    && (s.worker == Exited ==> s.messages + B(s.frame == Some(InWorkDone)) == 1 && !s.life.Init? && !s.life.Complete?)
    && (s.worker == Idle ==> s.messages == 0 && s.frame != Some(InWorkDone))
    && (s.deleted == 1 ==> s.worker == Idle)
    && (s.frame.Some? && s.frame.value.InSignal? ==> s.worker != Exited)
  }

  predicate LifeOk(s: State) {
    && (s.life.Releasing? || s.life.Stopping? || s.dropped == 1 ==> s.gaveUp)
    && (s.life.Init? ==> s.frame.None?)
    && (s.gaveUp && (s.life.Init? || s.life.Complete?) ==> s.dropped == 1)
    && (s.dropped == 1 && s.deleted == 0 ==> s.life.Complete? && s.frame.Some? && s.frame.value.InSignal?)
    && (s.waiting ==> s.life.Stopping? && s.frame.None? && s.worker != Idle && s.dropped == 0)
    && (s.life.Running? ==> s.worker != Idle && !s.gaveUp)
    && (s.life.Releasing? && s.worker == Idle ==> s.frame == Some(InSignal(true)) || s.deleted == 1)
    && (s.life.Stopping? && s.worker == Idle ==> s.frame == Some(InSignal(true)) || s.deleted == 1)
    && (s.frame == Some(InSignal(true)) ==> s.gaveUp && s.worker == Idle && (s.life.Releasing? || s.life.Stopping?))
  }

  /** Every started run has ended with a signal, ended without one, or goes on; only Destroy ends one without. */
  predicate SignalsOk(s: State) {
    && s.signals + s.stopped + B(s.worker != Idle) == s.starts
    && (s.stopped > 0 ==> s.life.Stopping? && s.deleted == 1 && s.stopped == 1)
    && (s.quit <==> s.signals > 0 || s.life.Stopping?)
  }

  predicate Inv(s: State) {
    Counted(s) && WorkerOk(s) && LifeOk(s) && SignalsOk(s)
  }

  lemma StartInv(s: State)
    requires Inv(s) && Enabled(s, Start)
    ensures Inv(Apply(s, Start))
  {
    var r := Apply(s, Start);
    assert Counted(r);
    assert WorkerOk(r);
    assert LifeOk(r);
    assert SignalsOk(r);
  }

  lemma ReleaseInv(s: State)
    requires Inv(s) && Enabled(s, Release)
    ensures Inv(Apply(s, Release))
  {
    var r := Apply(s, Release);
    assert Counted(r);
    assert WorkerOk(r);
    assert LifeOk(r);
    assert SignalsOk(r);
  }

  lemma DestroyLaterInv(s: State)
    requires Inv(s) && Enabled(s, Destroy(false))
    ensures Inv(Apply(s, Destroy(false)))
  {
    var r := Apply(s, Destroy(false));
    assert Counted(r);
    assert WorkerOk(r);
    assert LifeOk(r);
    assert SignalsOk(r);
  }

  lemma DestroyWaitingInv(s: State)
    requires Inv(s) && Enabled(s, Destroy(true)) && !WaitsInside(s, Destroy(true))
    ensures Inv(Apply(s, Destroy(true)))
  {
    var r := Apply(s, Destroy(true));
    assert Counted(r);
    assert WorkerOk(r);
    assert LifeOk(r);
    assert SignalsOk(r);
  }

  lemma DestroyJoinsInv(s: State)
    requires Inv(s) && Enabled(s, DestroyJoins)
    ensures Inv(Apply(s, DestroyJoins))
  {
    var r := Apply(s, DestroyJoins);
    assert Counted(r);
    assert WorkerOk(r);
    assert LifeOk(r);
    assert SignalsOk(r);
  }

  lemma WorkerPostsInv(s: State)
    requires Inv(s) && Enabled(s, WorkerPosts)
    ensures Inv(Apply(s, WorkerPosts))
  {
    var r := Apply(s, WorkerPosts);
    assert Counted(r);
    assert WorkerOk(r);
    assert LifeOk(r);
    assert SignalsOk(r);
  }

  lemma DeliverInv(s: State)
    requires Inv(s) && Enabled(s, Deliver)
    ensures Inv(Apply(s, Deliver))
  {
    var r := Apply(s, Deliver);
    assert Counted(r);
    assert WorkerOk(r);
    assert LifeOk(r);
    assert SignalsOk(r);
  }

  lemma WorkDoneReturnsInv(s: State)
    requires Inv(s) && Enabled(s, WorkDoneReturns)
    ensures Inv(Apply(s, WorkDoneReturns))
  {
    var r := Apply(s, WorkDoneReturns);
    assert Counted(r);
    assert WorkerOk(r);
    assert LifeOk(r);
    assert SignalsOk(r);
  }

  lemma SignalReturnsInv(s: State)
    requires Inv(s) && Enabled(s, SignalReturns)
    ensures Inv(Apply(s, SignalReturns))
  {
    var r := Apply(s, SignalReturns);
    assert Counted(r);
    assert WorkerOk(r);
    assert LifeOk(r);
    assert SignalsOk(r);
  }

  lemma StepInv(s: State, step: Step)
    requires Inv(s) && Enabled(s, step) && !WaitsInside(s, step)
    ensures Inv(Apply(s, step))
  {
    match step
    case Start => StartInv(s);
    case Release => ReleaseInv(s);
    case Destroy(wait) =>
      if wait {
        DestroyWaitingInv(s);
      } else {
        DestroyLaterInv(s);
      }
    case DestroyJoins => DestroyJoinsInv(s);
    case WorkerPosts => WorkerPostsInv(s);
    case Deliver => DeliverInv(s);
    case WorkDoneReturns => WorkDoneReturnsInv(s);
    case SignalReturns => SignalReturnsInv(s);
  }

  lemma {:induction false} RunInv(s: State, steps: seq<Step>)
    requires Inv(s) && AllEnabled(s, steps) && NeverWaitsInside(s, steps)
    ensures Inv(Run(s, steps))
    decreases |steps|
  {
    if steps != [] {
      StepInv(s, steps[0]);
      RunInv(Apply(s, steps[0]), steps[1..]);
    }
  }

  // ---- the main results --------------------------------------------------------------------------

  /** What a run without a waiting Destroy inside OnMessage can reach. */
  ghost predicate Reachable(s: State) {
    exists steps :: AllEnabled(NEW, steps) && NeverWaitsInside(NEW, steps) && s == Run(NEW, steps)
  }

  lemma ReachableInv(s: State)
    requires Reachable(s)
    ensures Inv(s)
  {
    var steps :| AllEnabled(NEW, steps) && NeverWaitsInside(NEW, steps) && s == Run(NEW, steps);
    RunInv(NEW, steps);
  }

  /** In every run the object is deleted at most once, its count is never zero before, and every started
      run has been signalled once, is stopped by Destroy, or still goes on. */
  lemma LifetimeIsExact(s: State)
    requires Reachable(s)
    ensures s.deleted <= 1 && (s.deleted == 0 ==> s.refcount > 0) && (s.deleted == 1 ==> s.refcount == 0 && s.gaveUp)
    ensures s.signals + s.stopped + B(s.worker != Idle) == s.starts
    ensures s.stopped == B(s.life.Stopping? && s.deleted == 1 && s.signals < s.starts)
  {
    ReachableInv(s);
  }

  /** The step that deletes the object comes after the worker has posted or has been joined. */
  lemma DeletedAfterTheWorker(s: State, step: Step)
    requires Inv(s) && Enabled(s, step) && !WaitsInside(s, step) && Apply(s, step).deleted > 0
    ensures s.worker != Working && step != Start && step != WorkerPosts && step != Deliver
    ensures Apply(s, step).signals + Apply(s, step).stopped == s.starts
  {
    StepInv(s, step);
  }

  /** What happens without the client. */
  predicate Internal(step: Step) {
    step.DestroyJoins? || step.WorkerPosts? || step.Deliver? || step.WorkDoneReturns? || step.SignalReturns?
  }

  predicate AllInternal(steps: seq<Step>) {
    forall i :: 0 <= i < |steps| ==> Internal(steps[i])
  }

  function Measure(s: State): nat {
    4 * B(s.worker == Working) + 3 * s.messages + B(s.waiting)
    + match s.frame
      case None => 0
      case Some(InWorkDone) => 2
      case Some(InSignal(_)) => 1
  }

  lemma InternalDecreases(s: State, step: Step)
    requires Enabled(s, step) && Internal(step)
    ensures Measure(Apply(s, step)) < Measure(s) && !WaitsInside(s, step)
  {
  }

  /** An object that has been given up is never stuck. */
  lemma Progress(s: State) returns (step: Step)
    requires Inv(s) && s.gaveUp && s.deleted == 0
    ensures Internal(step) && Enabled(s, step)
  {
    if s.waiting {
      step := if s.worker == Working then WorkerPosts else DestroyJoins;
    } else if s.frame.Some? {
      step := if s.frame == Some(InWorkDone) then WorkDoneReturns else SignalReturns;
    } else {
      step := if s.worker == Working then WorkerPosts else Deliver;
    }
  }

  /** However the threads are scheduled, after the client has given the object up it is deleted within a bounded
      number of steps. */
  lemma {:induction false} GivenUpIsDeleted(s: State, steps: seq<Step>)
    requires Inv(s) && s.gaveUp && AllEnabled(s, steps) && AllInternal(steps)
    ensures |steps| <= Measure(s)
    ensures (forall step :: Internal(step) ==> !Enabled(Run(s, steps), step)) ==> Run(s, steps).deleted == 1
    decreases |steps|
  {
    if steps == [] {
      if s.deleted == 0 {
        var step := Progress(s);
      }
    } else {
      assert Internal(steps[0]);
      InternalDecreases(s, steps[0]);
      StepInv(s, steps[0]);
      GivenUpIsDeleted(Apply(s, steps[0]), steps[1..]);
    }
  }

  /** ContinueWork: the worker has not been told to quit. */
  predicate ContinueWork(s: State) {
    !s.quit
  }

  /** Nothing resets the worker's fStop_: a running worker may go on exactly in the first run, while Destroy has
      not interrupted it. Every run after the first is told to quit at once. */
  lemma RestartedWorkIsQuit(s: State)
    requires Reachable(s)
    ensures s.worker == Working ==> (ContinueWork(s) <==> s.starts == 1 && !s.life.Stopping?)
    ensures s.starts > 1 ==> !ContinueWork(s)
  {
    ReachableInv(s);
  }

  // ---- Destroy(true) inside OnMessage --------------------------------------------------------------

  /** Main thread and worker wait for each other, or the count is dropped once too often: in each of these states
      the object exists and will exist for ever. */
  predicate Doomed(s: State) {
    && s.deleted == 0 && s.life.Stopping? && s.gaveUp
    && (|| (s.waiting && s.worker == Working && s.frame.Some? && s.frame.value.InSignal?)
        || (s.waiting && s.worker != Working && s.messages == 0 && s.refcount == 3 && DropsAgain(s))
        || (!s.waiting && s.worker == Idle && s.messages == 0 && s.refcount == 1 && DropsAgain(s))
        || (!s.waiting && s.worker == Idle && s.messages == 0 && s.refcount == -1 && s.frame.None?))
  }

  /** OnMessage is going to drop the count. */
  predicate DropsAgain(s: State) {
    s.frame == Some(InWorkDone) || s.frame == Some(InSignal(true))
  }

  lemma WaitingInsideDooms(s: State, step: Step)
    requires Inv(s) && Enabled(s, step) && WaitsInside(s, step)
    ensures Doomed(Apply(s, step))
  {
    assert s.frame.value.InSignal? || s.worker == Exited;
  }

  lemma DoomedStep(s: State, step: Step)
    requires Doomed(s) && Enabled(s, step)
    ensures Doomed(Apply(s, step))
  {
  }

  lemma {:induction false} DoomedRun(s: State, steps: seq<Step>)
    requires Doomed(s) && AllEnabled(s, steps)
    ensures Doomed(Run(s, steps))
    decreases |steps|
  {
    if steps != [] {
      DoomedStep(s, steps[0]);
      DoomedRun(Apply(s, steps[0]), steps[1..]);
    }
  }

  lemma {:induction false} WaitingInsideIsFatal(s: State, steps: seq<Step>)
    requires Inv(s) && AllEnabled(s, steps) && !NeverWaitsInside(s, steps)
    ensures Doomed(Run(s, steps))
    decreases |steps|
  {
    var next := Apply(s, steps[0]);
    if WaitsInside(s, steps[0]) {
      WaitingInsideDooms(s, steps[0]);
      DoomedRun(next, steps[1..]);
    } else {
      StepInv(s, steps[0]);
      WaitingInsideIsFatal(next, steps[1..]);
    }
  }

  /** The exact condition: an object that the client has given up is deleted, once the threads have run to their
      end, if and only if no Destroy(true) had to wait inside OnMessage. */
  lemma {:induction false} DeletedIffNeverWaitsInside(steps: seq<Step>, s: State, more: seq<Step>, end: State)
    requires AllEnabled(NEW, steps) && s == Run(NEW, steps) && s.gaveUp
    requires AllEnabled(s, more) && AllInternal(more) && end == Run(s, more)
    requires forall step :: Internal(step) ==> !Enabled(end, step)
    ensures end.deleted == 1 <==> NeverWaitsInside(NEW, steps)
  {
    if NeverWaitsInside(NEW, steps) {
      RunInv(NEW, steps);
      GivenUpIsDeleted(s, more);
    } else {
      WaitingInsideIsFatal(NEW, steps);
      DoomedRun(s, more);
    }
  }

  lemma {:induction false} RunAppend(s: State, a: seq<Step>, b: seq<Step>)
    requires AllEnabled(s, a) && AllEnabled(Run(s, a), b)
    ensures AllEnabled(s, a + b) && Run(s, a + b) == Run(Run(s, a), b)
    decreases |a|
  {
    if a == [] {
      assert a + b == b;
    } else {
      assert (a + b)[1..] == a[1..] + b;
      RunAppend(Apply(s, a[0]), a[1..], b);
    }
  }

  lemma {:induction false} RunOne(s: State, a: Step)
    requires Enabled(s, a)
    ensures AllEnabled(s, [a]) && Run(s, [a]) == Apply(s, a)
  {
    assert [a][1..] == [];
  }

  lemma {:induction false} RunThree(s: State, steps: seq<Step>, s1: State, s2: State, s3: State)
    requires |steps| == 3 && Enabled(s, steps[0]) && s1 == Apply(s, steps[0])
    requires Enabled(s1, steps[1]) && s2 == Apply(s1, steps[1]) && Enabled(s2, steps[2]) && s3 == Apply(s2, steps[2])
    ensures AllEnabled(s, steps) && Run(s, steps) == s3
  {
    var rest := steps[1..];
    assert rest[1..] == [steps[2]];
    RunOne(s2, steps[2]);
    assert AllEnabled(s1, rest) && Run(s1, rest) == s3;
  }

  /** The main thread in OnWorkDone of a first run. */
  const IN_WORK_DONE := State(Running, 2, Exited, false, 0, Some(InWorkDone), false, false, 0, 1, 0, 0, 0)

  lemma ReachesWorkDone() returns (steps: seq<Step>)
    ensures steps == [Start, WorkerPosts, Deliver]
    ensures AllEnabled(NEW, steps) && Run(NEW, steps) == IN_WORK_DONE
  {
    steps := [Start, WorkerPosts, Deliver];
    var s1 := NEW.(life := Running, worker := Working, starts := 1);
    var s2 := s1.(worker := Exited, messages := 1);
    RunThree(NEW, steps, s1, s2, IN_WORK_DONE);
  }

  /** From OnWorkDone the count is dropped twice: it jumps over zero and the object is never deleted. */
  lemma DestroyInWorkDoneLeaks() returns (first: seq<Step>, steps: seq<Step>, s: State)
    ensures first == [Start, WorkerPosts, Deliver] && steps == [Destroy(true), DestroyJoins, WorkDoneReturns]
    ensures AllEnabled(NEW, first + steps) && s == Run(NEW, first + steps)
    ensures s.refcount == -1 && s.deleted == 0 && forall step :: !Enabled(s, step)
  {
    first := ReachesWorkDone();
    steps := [Destroy(true), DestroyJoins, WorkDoneReturns];
    var s1 := IN_WORK_DONE.(refcount := 3, gaveUp := true, life := Stopping, quit := true, waiting := true);
    var s2 := s1.(refcount := 1, waiting := false, worker := Idle, stopped := 1, dropped := 1);
    s := s2.(refcount := -1, frame := None, stopped := 2, dropped := 2);
    RunThree(IN_WORK_DONE, steps, s1, s2, s);
    RunAppend(NEW, first, steps);
  }

  /** From a handler of SignalWorkDone that has started the thread again, the main thread waits for a worker that
      waits for the lock. */
  lemma DestroyInSignalDeadlocks() returns (first: seq<Step>, steps: seq<Step>, s: State)
    ensures first == [Start, WorkerPosts, Deliver] && steps == [WorkDoneReturns, Start, Destroy(true)]
    ensures AllEnabled(NEW, first + steps) && s == Run(NEW, first + steps)
    ensures s.deleted == 0 && forall step :: !Enabled(s, step)
  {
    first := ReachesWorkDone();
    steps := [WorkDoneReturns, Start, Destroy(true)];
    var s1 := IN_WORK_DONE.(life := Complete, quit := true, worker := Idle, signals := 1, frame := Some(InSignal(false)));
    var s2 := s1.(life := Running, worker := Working, starts := 2);
    s := s2.(refcount := 3, gaveUp := true, life := Stopping, waiting := true);
    RunThree(IN_WORK_DONE, steps, s1, s2, s);
    RunAppend(NEW, first, steps);
  }
}
