/** The synchronous cross-thread call protocol of src/event/thread.cpp: `Send`, `ReceiveSends`
    and `Clear`, running over the sticky wake-up and the `fWait_` flag of PhysicalSocketServer.

    Every thread is a stack of frames; the top frame is the code being executed. One action is
    one access to shared data or one critical section. The two accesses that other threads can
    see in the middle of a critical section (`*smsg.ready = true` and the following WakeUp) are
    separate actions, which admits more interleavings than the lock does. */
module ThreadSend {

  type Tid = nat

  /** Sends are numbered in the order in which they were accepted. */
  type SendId = nat

  datatype SendPc =
    | WakeTarget   // queued, ss_->WakeUp() on the target comes next
    | Test         // about to evaluate while (!ready)
    | ToWait       // ReceiveSends has been called; Wait comes next
    | Waiting      // inside Wait(kForever, false)
    | ReWake       // left the loop after waiting; WakeUp on the own socket server comes next

  datatype ReceivePc =
    | Check                       // about to read has_sends_
    | PopFront                    // in the critical section, at while (!sendlist_.empty())
    | Handling(handled: SendId)   // OnMessage of this call runs in the frames above
    | WakeSender(done: SendId)    // *ready is set, the WakeUp of the sender comes next

  datatype GetPc =
    | Scan     // ReceiveSends has been called; the posted messages are examined next
    | InWait   // inside Wait(cmsNext, process_io)
    | Woken    // Wait returned

  datatype Frame =
    | Code                                            // a thread body, a handler or an I/O callback
    | Get(gpc: GetPc, forever: bool)                  // MessageQueue::Get
    | Send(id: SendId, spc: SendPc, waited: bool)     // Thread::Send
    | Receive(rpc: ReceivePc)                         // Thread::ReceiveSends
    | Clear(removed: SendId)                          // Thread::Clear, about to wake this sender

  /** The bottom frame is the thread's own body and never returns. */
  datatype Stack = Bottom | Over(top: Frame, below: Stack)

  datatype Thread = Thread(
    stack: Stack,
    sends: seq<SendId>,   // sendlist_
    hasSends: bool,       // has_sends_
    wake: bool,           // EventDispatcher::fSignaled_ of the socket server
    fWait: bool)          // PhysicalSocketServer::fWait_

  datatype Call = Call(sender: Tid, target: Tid)

  /** `begun`, `handled`, `cleared` and `returned` record what happened to every accepted Send. */
  datatype State = State(
    threads: seq<Thread>,
    calls: seq<Call>,
    ready: set<SendId>,
    begun: multiset<SendId>,
    handled: multiset<SendId>,
    cleared: multiset<SendId>,
    returned: multiset<SendId>,
    nestedGet: bool)   // some Get was entered where it can swallow or outlast a Send, see GetIsNested

  datatype Step =
    | CallHandler                // Dispatch, or a Send to the current thread
    | Return
    | PostTo(u: Tid)             // Post, DoDelayPost, Quit: all end in WakeUp
    | CallGet(forever: bool)
    | CallSend(u: Tid)
    | CallClear(u: Tid, k: nat)  // Clear on u reaches a matching entry at position k
    | ClearWakes
    | SendWakes
    | SendTests
    | SendBlocks
    | SendWoken
    | SendReWakes
    | ReceiveChecks
    | ReceivePops
    | ReceiveReady
    | ReceiveWakes
    | GetTakes                   // a posted message is returned to the caller
    | GetBlocks
    | GetConsumes                // the wake-up event is handled inside Wait
    | GetIo                      // another event is handled inside Wait
    | GetLeavesWait              // while (fWait_) ends
    | GetTimesOut                // a time-out of the caller or of a delayed message
    | GetAgain
    | GetGivesUp

  /** One step of thread t. */
  datatype Action = Action(t: Tid, step: Step)

  // ---- stacks ------------------------------------------------------------------------------

  /** Which frame can run directly on top of which. */
  predicate MayCover(below: Frame, f: Frame) {
    match f
    case Code => below.Code? || (below.Get? && below.gpc.InWait?) || (below.Receive? && below.rpc.Handling?)
    case Receive(_) => (below.Send? && below.spc.ToWait?) || (below.Get? && below.gpc.Scan?)
    case _ => below.Code?
  }

  predicate StackOk(s: Stack) {
    match s
    case Bottom => false
    case Over(f, Bottom) => f.Code?
    case Over(f, below) => MayCover(below.top, f) && StackOk(below)
  }

  /** How often the stack is inside this Send. */
  function SendCount(s: Stack, id: SendId): nat {
    match s
    case Bottom => 0
    case Over(f, below) => SendCount(below, id) + if f.Send? && f.id == id then 1 else 0
  }

  /** How often the handler of this Send runs on the stack. */
  function HandlingCount(s: Stack, id: SendId): nat {
    match s
    case Bottom => 0
    case Over(f, below) => HandlingCount(below, id) + if f == Receive(Handling(id)) then 1 else 0
  }

  predicate HasSend(s: Stack) {
    s.Over? && (s.top.Send? || HasSend(s.below))
  }

  predicate HasHandling(s: Stack) {
    s.Over? && ((s.top.Receive? && s.top.rpc.Handling?) || HasHandling(s.below))
  }

  /** A Get entered while a Send of the same thread is still waiting, or a Get(kForever) entered by
      the handler of somebody else's Send. A caller can see both before it calls Get. */
  predicate GetIsNested(s: Stack, forever: bool) {
    HasSend(s) || (forever && HasHandling(s))
  }

  // ---- actions -----------------------------------------------------------------------------

  predicate Enabled(st: State, a: Action) {
    && a.t < |st.threads|
    && st.threads[a.t].stack.Over?
    && var th := st.threads[a.t];
       var top := th.stack.top;
       match a.step
       case CallHandler => top.Code?
       case Return => top.Code? && th.stack.below.Over?
       case PostTo(u) => top.Code? && u < |st.threads|
       case CallGet(_) => top.Code?
       case CallSend(u) => top.Code? && u < |st.threads| && u != a.t
       case CallClear(u, k) => top.Code? && u < |st.threads| && k < |st.threads[u].sends|
       case ClearWakes => top.Clear? && top.removed < |st.calls| && st.calls[top.removed].sender < |st.threads|
       case SendWakes =>
         top.Send? && top.spc.WakeTarget? && top.id < |st.calls| && st.calls[top.id].target < |st.threads|
       case SendTests => top.Send? && top.spc.Test?
       case SendBlocks => top.Send? && top.spc.ToWait?
       case SendWoken => top.Send? && top.spc.Waiting? && th.wake
       case SendReWakes => top.Send? && top.spc.ReWake?
       case ReceiveChecks => top.Receive? && top.rpc.Check?
       case ReceivePops => top.Receive? && top.rpc.PopFront?
       case ReceiveReady => top.Receive? && top.rpc.Handling?
       case ReceiveWakes =>
         && top.Receive? && top.rpc.WakeSender? && top.rpc.done < |st.calls|
         && st.calls[top.rpc.done].sender < |st.threads|
       case GetTakes => top.Get? && top.gpc.Scan?
       case GetBlocks => top.Get? && top.gpc.Scan?
       case GetConsumes => top.Get? && top.gpc.InWait? && th.wake
       case GetIo => top.Get? && top.gpc.InWait?
       case GetLeavesWait => top.Get? && top.gpc.InWait? && !th.fWait
       case GetTimesOut => top.Get? && top.gpc.InWait?
       case GetAgain => top.Get? && top.gpc.Woken?
       case GetGivesUp => top.Get? && top.gpc.Woken?
  }

  /** The control part of an action: what the acting thread runs afterwards. */
  function NewStack(st: State, a: Action): Stack
    requires Enabled(st, a)
  {
    var th := st.threads[a.t];
    var Over(top, below) := th.stack;
    match a.step
    case CallHandler => Over(Code, th.stack)
    case Return => below
    case PostTo(_) => th.stack
    case CallGet(forever) => Over(Receive(Check), Over(Get(Scan, forever), th.stack))
    case CallSend(_) => Over(Send(|st.calls|, WakeTarget, false), th.stack)
    case CallClear(u, k) => Over(Clear(st.threads[u].sends[k]), th.stack)
    case ClearWakes => below
    case SendWakes => Over(top.(spc := Test), below)
    case SendTests =>
      if top.id !in st.ready then Over(Receive(Check), Over(top.(spc := ToWait), below))
      else if top.waited then Over(top.(spc := ReWake), below)
      else below
    case SendBlocks => Over(top.(spc := Waiting), below)
    case SendWoken => Over(top.(spc := Test, waited := true), below)
    case SendReWakes => below
    case ReceiveChecks => if th.hasSends then Over(Receive(PopFront), below) else below
    case ReceivePops => if th.sends == [] then below else Over(Code, Over(Receive(Handling(th.sends[0])), below))
    case ReceiveReady => Over(Receive(WakeSender(top.rpc.handled)), below)
    case ReceiveWakes => Over(Receive(PopFront), below)
    case GetTakes => below
    case GetBlocks => Over(top.(gpc := InWait), below)
    case GetConsumes => th.stack
    case GetIo => Over(Code, th.stack)
    case GetLeavesWait => Over(top.(gpc := Woken), below)
    case GetTimesOut => Over(top.(gpc := Woken), below)
    case GetAgain => Over(Receive(Check), Over(top.(gpc := Scan), below))
    case GetGivesUp => below
  }

  /** The thread whose send list, flags or wake-up the action writes. */
  function Touched(st: State, a: Action): (u: Tid)
    requires Enabled(st, a)
    ensures u < |st.threads|
  {
    var top := st.threads[a.t].stack.top;
    match a.step
    case PostTo(u) => u
    case CallSend(u) => u
    case CallClear(u, _) => u
    case ClearWakes => st.calls[top.removed].sender
    case SendWakes => st.calls[top.id].target
    case ReceiveWakes => st.calls[top.rpc.done].sender
    case _ => a.t
  }

  function NewSends(st: State, a: Action): seq<SendId>
    requires Enabled(st, a)
  {
    var l := st.threads[Touched(st, a)].sends;
    match a.step
    case CallSend(_) => l + [|st.calls|]
    case CallClear(_, k) => l[..k] + l[k + 1..]
    case ReceivePops => if l == [] then l else l[1..]
    case _ => l
  }

  function NewHasSends(st: State, a: Action): bool
    requires Enabled(st, a)
  {
    var th := st.threads[Touched(st, a)];
    if a.step.CallSend? then true
    else if a.step.ReceivePops? then th.hasSends && th.sends != []
    else th.hasSends
  }

  function NewWake(st: State, a: Action): bool
    requires Enabled(st, a)
  {
    match a.step
    case PostTo(_) => true
    case ClearWakes => true
    case SendWakes => true
    case SendReWakes => true
    case ReceiveWakes => true
    case SendWoken => false
    case GetConsumes => false
    case _ => st.threads[Touched(st, a)].wake
  }

  function NewFWait(st: State, a: Action): bool
    requires Enabled(st, a)
  {
    match a.step
    case SendBlocks => true
    case GetBlocks => true
    case SendWoken => false
    case GetConsumes => false
    case _ => st.threads[Touched(st, a)].fWait
  }

  // What the action enters into the logs: at most one Send each.

  function Called(st: State, a: Action): set<SendId>
    requires Enabled(st, a)
  {
    if a.step.CallSend? then {|st.calls|} else {}
  }

  function Returned(st: State, a: Action): set<SendId>
    requires Enabled(st, a)
  {
    var top := st.threads[a.t].stack.top;
    if a.step.SendReWakes? || (a.step.SendTests? && top.id in st.ready && !top.waited) then {top.id} else {}
  }

  function Begun(st: State, a: Action): set<SendId>
    requires Enabled(st, a)
  {
    var th := st.threads[a.t];
    if a.step.ReceivePops? && th.sends != [] then {th.sends[0]} else {}
  }

  function Handled(st: State, a: Action): set<SendId>
    requires Enabled(st, a)
  {
    if a.step.ReceiveReady? then {st.threads[a.t].stack.top.rpc.handled} else {}
  }

  function Cleared(st: State, a: Action): set<SendId>
    requires Enabled(st, a)
  {
    if a.step.CallClear? then {st.threads[a.step.u].sends[a.step.k]} else {}
  }

  function Apply(st: State, a: Action): State
    requires Enabled(st, a)
  {
    var u := Touched(st, a);
    var touched := Thread(st.threads[u].stack, NewSends(st, a), NewHasSends(st, a), NewWake(st, a), NewFWait(st, a));
    var threads := st.threads[u := touched];
    State(
      threads[a.t := threads[a.t].(stack := NewStack(st, a))],
      if a.step.CallSend? then st.calls + [Call(a.t, u)] else st.calls,
      st.ready + Handled(st, a) + Cleared(st, a),
      st.begun + multiset(Begun(st, a)),
      st.handled + multiset(Handled(st, a)),
      st.cleared + multiset(Cleared(st, a)),
      st.returned + multiset(Returned(st, a)),
      st.nestedGet || (a.step.CallGet? && GetIsNested(st.threads[a.t].stack, a.step.forever)))
  }

  // ---- runs --------------------------------------------------------------------------------

  const Idle := Thread(Over(Code, Bottom), [], false, false, false)

  function Init(n: nat): State {
    State(seq(n, _ => Idle), [], {}, multiset{}, multiset{}, multiset{}, multiset{}, false)
  }

  /** A run from st to end: every action was enabled when it came. */
  ghost predicate Runs(st: State, acts: seq<Action>, end: State)
    decreases |acts|
  {
    if acts == [] then st == end
    else
      var last := acts[|acts| - 1];
      exists mid :: Runs(st, acts[..|acts| - 1], mid) && Enabled(mid, last) && end == Apply(mid, last)
  }

  lemma RunsExtend(st: State, acts: seq<Action>, mid: State, a: Action)
    requires Runs(st, acts, mid) && Enabled(mid, a)
    ensures Runs(st, acts + [a], Apply(mid, a))
  {
    var more := acts + [a];
    var init, last := more[..|more| - 1], more[|more| - 1];
    assert init == acts && last == a;
    assert Runs(st, init, mid) && Enabled(mid, last);
  }

  ghost predicate Reachable(n: nat, st: State) {
    exists acts :: Runs(Init(n), acts, st)
  }

  // ---- invariants --------------------------------------------------------------------------

  /** Every stack is one the code can build, and a non-empty send list has has_sends_ set. */
  ghost predicate ControlOk(st: State) {
    forall t {:trigger st.threads[t]} :: 0 <= t < |st.threads| ==>
      StackOk(st.threads[t].stack) && (st.threads[t].sends != [] ==> st.threads[t].hasSends)
  }

  /** Every accepted Send is between two existing, different threads. */
  ghost predicate CallsOk(st: State) {
    forall id {:trigger st.calls[id]} :: 0 <= id < |st.calls| ==>
      && st.calls[id].sender < |st.threads| && st.calls[id].target < |st.threads|
      && st.calls[id].sender != st.calls[id].target
  }

  // What the logs say about one Send.
  predicate IsQueued(st: State, id: SendId) {
    id < |st.calls| && st.begun[id] == 0 && st.handled[id] == 0 && st.cleared[id] == 0
  }

  predicate IsRunning(st: State, id: SendId) {
    id < |st.calls| && st.begun[id] == 1 && st.handled[id] == 0 && st.cleared[id] == 0
  }

  predicate IsHandled(st: State, id: SendId) {
    id < |st.calls| && st.begun[id] == 1 && st.handled[id] == 1 && st.cleared[id] == 0
  }

  predicate IsCleared(st: State, id: SendId) {
    id < |st.calls| && st.begun[id] == 0 && st.handled[id] == 0 && st.cleared[id] == 1
  }

  predicate IsOpen(st: State, id: SendId) {
    id < |st.calls| && st.returned[id] == 0
  }

  /** Every accepted Send is queued, running, handled or cleared, and returns only after the last two. */
  ghost predicate LedgerAt(st: State, id: SendId) {
    && (id < |st.calls| ==> IsQueued(st, id) || IsRunning(st, id) || IsHandled(st, id) || IsCleared(st, id))
    && (id in st.ready <==> IsHandled(st, id) || IsCleared(st, id))
    && st.returned[id] <= 1
    && (st.returned[id] == 1 ==> id in st.ready)
    && (id >= |st.calls| ==> st.begun[id] == 0 && st.handled[id] == 0 && st.cleared[id] == 0)
  }

  /** The send lists hold exactly the queued Sends, each once and on its target. */
  ghost predicate ListAt(st: State, t: Tid, id: SendId)
    requires t < |st.threads|
  {
    multiset(st.threads[t].sends)[id] == if IsQueued(st, id) && st.calls[id].target == t then 1 else 0
  }

  /** The stacks hold exactly the handlers of the running Sends, each once and on its target. */
  ghost predicate HandlerAt(st: State, t: Tid, id: SendId)
    requires t < |st.threads|
  {
    HandlingCount(st.threads[t].stack, id) == if IsRunning(st, id) && st.calls[id].target == t then 1 else 0
  }

  /** The stacks hold exactly the Sends that have not returned, each once and on its sender. */
  ghost predicate SenderAt(st: State, t: Tid, id: SendId)
    requires t < |st.threads|
  {
    SendCount(st.threads[t].stack, id) == if IsOpen(st, id) && st.calls[id].sender == t then 1 else 0
  }

  ghost predicate LedgersOk(st: State) { forall id :: LedgerAt(st, id) }

  ghost predicate ListsOk(st: State) { forall t, id :: 0 <= t < |st.threads| ==> ListAt(st, t, id) }

  ghost predicate HandlersOk(st: State) { forall t, id :: 0 <= t < |st.threads| ==> HandlerAt(st, t, id) }

  ghost predicate SendersOk(st: State) { forall t, id :: 0 <= t < |st.threads| ==> SenderAt(st, t, id) }

  /** A frame about to set or use a flag names a Send for which it may. */
  predicate TopOk(st: State, s: Stack) {
    match s
    case Over(Send(id, ReWake, _), _) => id in st.ready
    case Over(Clear(id), _) => id < |st.calls|
    case Over(Receive(WakeSender(id)), _) => id < |st.calls|
    case _ => true
  }

  ghost predicate TopsOk(st: State) {
    forall t {:trigger st.threads[t]} :: 0 <= t < |st.threads| ==> TopOk(st, st.threads[t].stack)
  }

  /** A Send was accepted after everything below its frame. */
  ghost predicate Ascending(s: Stack) {
    match s
    case Bottom => true
    case Over(f, below) =>
      && Ascending(below)
      && (f.Send? ==> forall id: SendId {:trigger SendCount(below, id)} {:trigger HandlingCount(below, id)} ::
            SendCount(below, id) + HandlingCount(below, id) > 0 ==> id < f.id)
  }

  ghost predicate OrderOk(st: State) {
    forall t {:trigger st.threads[t]} :: 0 <= t < |st.threads| ==> Ascending(st.threads[t].stack)
  }

  /** The thread will empty its send list before it blocks. */
  predicate Attends(s: Stack, fWait: bool) {
    match s
    case Bottom => true
    case Over(Code, below) => Attends(below, fWait)
    case Over(Clear(_), below) => Attends(below, fWait)
    case Over(Get(gpc, _), below) => if gpc.Woken? then Attends(below, fWait) else gpc.InWait? && !fWait
    case Over(Send(_, spc, waited), below) =>
      if spc.WakeTarget? || spc.Test? then waited || Attends(below, fWait) else spc.ReWake?
    case Over(Receive(_), _) => true
  }

  /** Some sender has queued a message for u and is about to wake u. */
  ghost predicate WakeComing(st: State, u: Tid) {
    exists t :: 0 <= t < |st.threads| && st.threads[t].stack.Over? && st.threads[t].stack.top.Send? &&
      st.threads[t].stack.top.spc.WakeTarget? && st.threads[t].stack.top.id < |st.calls| &&
      st.calls[st.threads[t].stack.top.id].target == u
  }

  /** No queued Send is forgotten by its target. */
  ghost predicate Attended(st: State, u: Tid)
    requires u < |st.threads|
  {
    st.threads[u].sends != [] ==>
      st.threads[u].wake || WakeComing(st, u) || Attends(st.threads[u].stack, st.threads[u].fWait)
  }

  ghost predicate NoLostSend(st: State) { forall u :: 0 <= u < |st.threads| ==> Attended(st, u) }

  /** Some thread has finished this Send and is about to wake its sender. */
  ghost predicate DoneComing(st: State, id: SendId) {
    exists t :: 0 <= t < |st.threads| && st.threads[t].stack.Over? &&
      (st.threads[t].stack.top == Receive(WakeSender(id)) || st.threads[t].stack.top == Clear(id))
  }

  /** The Send will look at its flag again, or a Send above it will wake its thread again. */
  predicate Recalls(s: Stack, id: SendId) {
    match s
    case Bottom => false
    case Over(Send(other, spc, waited), below) =>
      if other == id then !spc.ToWait? && !spc.Waiting? else waited || Recalls(below, id)
    case Over(_, below) => Recalls(below, id)
  }

  /** No finished Send is forgotten by its sender. */
  ghost predicate Recalled(st: State, id: SendId) {
    IsOpen(st, id) && id in st.ready && st.calls[id].sender < |st.threads| ==>
      var sender := st.threads[st.calls[id].sender];
      sender.wake || DoneComing(st, id) || Recalls(sender.stack, id)
  }

  ghost predicate NoLostCompletion(st: State) { forall id :: Recalled(st, id) }

  /** No Get is running where GetIsNested forbids it. */
  predicate Disciplined(s: Stack) {
    match s
    case Bottom => true
    case Over(f, below) => (f.Get? ==> !GetIsNested(below, f.forever)) && Disciplined(below)
  }

  ghost predicate DisciplineOk(st: State) {
    forall t {:trigger st.threads[t]} :: 0 <= t < |st.threads| ==> Disciplined(st.threads[t].stack)
  }

  ghost predicate Invariant(st: State) {
    && ControlOk(st) && CallsOk(st) && LedgersOk(st) && ListsOk(st) && HandlersOk(st) && SendersOk(st)
    && TopsOk(st) && OrderOk(st) && NoLostSend(st)
    && (!st.nestedGet ==> DisciplineOk(st) && NoLostCompletion(st))
  }

  lemma InitInvariant(n: nat)
    ensures Invariant(Init(n))
  {
    var st := Init(n);
    assert forall t {:trigger st.threads[t]} :: 0 <= t < |st.threads| ==> st.threads[t] == Idle;
    forall id: SendId ensures SendCount(Idle.stack, id) == 0 && HandlingCount(Idle.stack, id) == 0 {
      assert SendCount(Bottom, id) == 0 && HandlingCount(Bottom, id) == 0;
    }
  }

  // ---- every action keeps the invariant ----------------------------------------------------

  lemma ControlStep(st: State, a: Action)
    requires Enabled(st, a) && ControlOk(st)
    ensures ControlOk(Apply(st, a))
  {
  }

  lemma CallsStep(st: State, a: Action)
    requires Enabled(st, a) && CallsOk(st)
    ensures CallsOk(Apply(st, a))
  {
  }

  function One(s: set<SendId>, id: SendId): nat {
    if id in s then 1 else 0
  }

  /** The books of one step: a Send that leaves a list, a stack or a log enters the next one. */
  ghost predicate Balanced(st: State, a: Action, st': State, id: SendId)
    requires Enabled(st, a)
  {
    var t, u := a.t, Touched(st, a);
    && |st'.threads| == |st.threads|
    && (forall v {:trigger st'.threads[v]} :: 0 <= v < |st.threads| && v != t ==> st'.threads[v].stack == st.threads[v].stack)
    && (forall v {:trigger st'.threads[v]} :: 0 <= v < |st.threads| && v != u ==> st'.threads[v].sends == st.threads[v].sends)
    && SendCount(st'.threads[t].stack, id) + One(Returned(st, a), id) == SendCount(st.threads[t].stack, id) + One(Called(st, a), id)
    && HandlingCount(st'.threads[t].stack, id) + One(Handled(st, a), id) == HandlingCount(st.threads[t].stack, id) + One(Begun(st, a), id)
    && multiset(st'.threads[u].sends)[id] + One(Begun(st, a), id) + One(Cleared(st, a), id) ==
       multiset(st.threads[u].sends)[id] + One(Called(st, a), id)
    && st'.calls == (if a.step.CallSend? then st.calls + [Call(t, u)] else st.calls)
    && (id in st'.ready <==> id in st.ready || id in Handled(st, a) || id in Cleared(st, a))
    && st'.begun[id] == st.begun[id] + One(Begun(st, a), id)
    && st'.handled[id] == st.handled[id] + One(Handled(st, a), id)
    && st'.cleared[id] == st.cleared[id] + One(Cleared(st, a), id)
    && st'.returned[id] == st.returned[id] + One(Returned(st, a), id)
  }

  lemma StackBalance(st: State, a: Action, id: SendId)
    requires Enabled(st, a)
    ensures SendCount(NewStack(st, a), id) + One(Returned(st, a), id) ==
            SendCount(st.threads[a.t].stack, id) + One(Called(st, a), id)
    ensures HandlingCount(NewStack(st, a), id) + One(Handled(st, a), id) ==
            HandlingCount(st.threads[a.t].stack, id) + One(Begun(st, a), id)
  {
  }

  lemma RemoveAt(l: seq<SendId>, k: nat, id: SendId)
    requires k < |l|
    ensures multiset(l[..k] + l[k + 1..])[id] + One({l[k]}, id) == multiset(l)[id]
  {
    assert l == l[..k] + [l[k]] + l[k + 1..];
  }

  lemma RemoveFirst(l: seq<SendId>, id: SendId)
    requires l != []
    ensures multiset(l[1..])[id] + One({l[0]}, id) == multiset(l)[id]
  {
    assert l == [l[0]] + l[1..];
  }

  lemma AppendAt(l: seq<SendId>, x: SendId, id: SendId)
    ensures multiset(l + [x])[id] == multiset(l)[id] + One({x}, id)
  {
  }

  lemma ListBalance(st: State, a: Action, id: SendId)
    requires Enabled(st, a)
    ensures multiset(NewSends(st, a))[id] + One(Begun(st, a), id) + One(Cleared(st, a), id) ==
            multiset(st.threads[Touched(st, a)].sends)[id] + One(Called(st, a), id)
  {
    var l := st.threads[Touched(st, a)].sends;
    if a.step.CallSend? {
      AppendAt(l, |st.calls|, id);
    } else if a.step.CallClear? {
      RemoveAt(l, a.step.k, id);
    } else if a.step.ReceivePops? && l != [] {
      RemoveFirst(l, id);
    }
  }

  lemma StepBalance(st: State, a: Action, id: SendId)
    requires Enabled(st, a)
    ensures Balanced(st, a, Apply(st, a), id)
  {
    StackBalance(st, a, id);
    ListBalance(st, a, id);
  }

  lemma LedgerStep(st: State, a: Action, st': State, id: SendId)
    requires Enabled(st, a) && CallsOk(st) && LedgersOk(st) && ListsOk(st) && HandlersOk(st) && SendersOk(st) && TopsOk(st)
    requires Balanced(st, a, st', id)
    ensures LedgerAt(st', id)
  {
    assert LedgerAt(st, id);
    assert ListAt(st, Touched(st, a), id) && HandlerAt(st, a.t, id) && SenderAt(st, a.t, id);
  }

  lemma ListStep(st: State, a: Action, st': State, t: Tid, id: SendId)
    requires Enabled(st, a) && CallsOk(st) && LedgersOk(st) && ListsOk(st) && HandlersOk(st) && t < |st.threads|
    requires Balanced(st, a, st', id)
    ensures ListAt(st', t, id)
  {
    assert ListAt(st, t, id) && LedgerAt(st, id);
    assert ListAt(st, Touched(st, a), id) && HandlerAt(st, a.t, id);
  }

  lemma HandlerStep(st: State, a: Action, st': State, t: Tid, id: SendId)
    requires Enabled(st, a) && CallsOk(st) && LedgersOk(st) && ListsOk(st) && HandlersOk(st) && t < |st.threads|
    requires Balanced(st, a, st', id)
    ensures HandlerAt(st', t, id)
  {
    assert HandlerAt(st, t, id) && LedgerAt(st, id);
    assert ListAt(st, Touched(st, a), id) && HandlerAt(st, a.t, id);
  }

  lemma SenderStep(st: State, a: Action, st': State, t: Tid, id: SendId)
    requires Enabled(st, a) && CallsOk(st) && LedgersOk(st) && SendersOk(st) && t < |st.threads|
    requires Balanced(st, a, st', id)
    ensures SenderAt(st', t, id)
  {
    assert SenderAt(st, t, id) && LedgerAt(st, id) && SenderAt(st, a.t, id);
  }

  lemma TopStep(st: State, a: Action, st': State)
    requires Enabled(st, a) && ControlOk(st) && ListsOk(st) && HandlersOk(st) && TopsOk(st)
    requires st.ready <= st'.ready && |st.calls| <= |st'.calls|
    ensures TopOk(st', NewStack(st, a))
  {
    var th := st.threads[a.t];
    if a.step.CallClear? {
      assert ListAt(st, a.step.u, st.threads[a.step.u].sends[a.step.k]);
    } else if a.step.ReceiveReady? {
      assert HandlerAt(st, a.t, th.stack.top.rpc.handled);
    }
  }

  lemma TopsStep(st: State, a: Action)
    requires Enabled(st, a) && ControlOk(st) && ListsOk(st) && HandlersOk(st) && TopsOk(st)
    ensures TopsOk(Apply(st, a))
  {
    TopStep(st, a, Apply(st, a));
  }

  lemma OrderStep(st: State, a: Action)
    requires Enabled(st, a) && ControlOk(st) && HandlersOk(st) && SendersOk(st) && OrderOk(st)
    ensures OrderOk(Apply(st, a))
  {
    var s := st.threads[a.t].stack;
    if a.step.CallSend? {
      forall id: SendId | SendCount(s, id) + HandlingCount(s, id) > 0 ensures id < |st.calls| {
        assert SenderAt(st, a.t, id) && HandlerAt(st, a.t, id);
      }
    }
  }

  lemma DisciplineStep(st: State, a: Action)
    requires Enabled(st, a) && DisciplineOk(st) && !Apply(st, a).nestedGet
    ensures DisciplineOk(Apply(st, a))
  {
  }

  /** A thread whose fWait_ has been cleared leaves every Wait it is in. */
  lemma {:induction false} CodeAttends(s: Stack)
    requires StackOk(s) && s.top.Code?
    ensures Attends(s, false)
  {
    match s.below
    case Bottom =>
    case Over(f, _) => if f.Code? { CodeAttends(s.below); }
  }

  lemma AttendsStep(st: State, a: Action)
    requires Enabled(st, a) && ControlOk(st) && st.threads[a.t].sends != []
    requires st.threads[a.t].wake || Attends(st.threads[a.t].stack, st.threads[a.t].fWait)
    ensures var th := Apply(st, a).threads[a.t]; th.sends == [] || th.wake || Attends(th.stack, th.fWait)
  {
    var s := st.threads[a.t].stack;
    if s.top.Get? { CodeAttends(s.below); }
    if a.step.ReceivePops? { assert Attends(NewStack(st, a).below, st.threads[a.t].fWait); }
  }

  /** No other thread can weaken what a thread knows about its send list. */
  lemma SleepStep(st: State, a: Action)
    requires Enabled(st, a) && ControlOk(st)
    ensures Apply(st, a).threads[a.t].sends != [] ==> st.threads[a.t].sends != []
    ensures forall u {:trigger Apply(st, a).threads[u]} :: 0 <= u < |st.threads| && u != a.t && a.step != CallSend(u) ==>
      var th, th' := st.threads[u], Apply(st, a).threads[u];
      th'.stack == th.stack && th'.fWait == th.fWait && (th'.sends != [] ==> th.sends != []) && (th.wake ==> th'.wake)
  {
  }

  lemma WakeStays(st: State, a: Action, u: Tid)
    requires Enabled(st, a) && CallsOk(st) && u < |st.threads| && WakeComing(st, u)
    ensures WakeComing(Apply(st, a), u) || Apply(st, a).threads[u].wake
  {
    var t :| 0 <= t < |st.threads| && st.threads[t].stack.Over? && st.threads[t].stack.top.Send? &&
      st.threads[t].stack.top.spc.WakeTarget? && st.threads[t].stack.top.id < |st.calls| &&
      st.calls[st.threads[t].stack.top.id].target == u;
    if t != a.t { assert Apply(st, a).threads[t].stack == st.threads[t].stack; }
  }

  lemma AttendedStep(st: State, a: Action, u: Tid)
    requires Enabled(st, a) && ControlOk(st) && CallsOk(st) && u < |st.threads| && Attended(st, u)
    ensures Attended(Apply(st, a), u)
  {
    var st' := Apply(st, a);
    SleepStep(st, a);
    if a.step == CallSend(u) {
      assert st'.threads[a.t].stack.top == Send(|st.calls|, WakeTarget, false);
      assert WakeComing(st', u);
    } else if WakeComing(st, u) {
      WakeStays(st, a, u);
    } else if u == a.t && st.threads[u].sends != [] {
      AttendsStep(st, a);
    }
  }

  lemma {:induction false} CountsMeanHas(s: Stack, id: SendId)
    ensures SendCount(s, id) > 0 ==> HasSend(s)
    ensures HandlingCount(s, id) > 0 ==> HasHandling(s)
  {
    if s.Over? { CountsMeanHas(s.below, id); }
  }

  lemma RecallsStep(st: State, a: Action, id: SendId)
    requires Enabled(st, a) && StackOk(st.threads[a.t].stack) && Disciplined(st.threads[a.t].stack)
    requires id in st.ready && SendCount(st.threads[a.t].stack, id) > 0 && id != |st.calls|
    requires st.threads[a.t].wake || Recalls(st.threads[a.t].stack, id)
    ensures a.step.SendReWakes? || id in Returned(st, a) || Recalls(NewStack(st, a), id) ||
            (st.threads[a.t].wake && !a.step.SendWoken? && !a.step.GetConsumes?)
  {
    CountsMeanHas(st.threads[a.t].stack.below, id);
  }

  lemma RecalledStep(st: State, a: Action, id: SendId)
    requires Enabled(st, a) && ControlOk(st) && CallsOk(st) && SendersOk(st) && LedgersOk(st) && DisciplineOk(st)
    requires Recalled(st, id)
    ensures Recalled(Apply(st, a), id)
  {
    var st' := Apply(st, a);
    if IsOpen(st', id) && id in st'.ready {
      assert LedgerAt(st, id);
      var t := st.calls[id].sender;
      assert SenderAt(st, t, id);
      if id !in st.ready {
        assert st'.threads[a.t].stack.top in {Receive(WakeSender(id)), Clear(id)};
        assert DoneComing(st', id);
      } else if st'.threads[t].wake {
      } else if DoneComing(st, id) {
        DoneStays(st, a, id);
      } else if t == a.t {
        RecallsStep(st, a, id);
      }
    }
  }

  /** An announced completion is delivered by waking the sender. */
  lemma DoneStays(st: State, a: Action, id: SendId)
    requires Enabled(st, a) && CallsOk(st) && DoneComing(st, id) && id < |st.calls|
    ensures DoneComing(Apply(st, a), id) || Apply(st, a).threads[st.calls[id].sender].wake
  {
    var v :| 0 <= v < |st.threads| && st.threads[v].stack.Over? &&
      (st.threads[v].stack.top == Receive(WakeSender(id)) || st.threads[v].stack.top == Clear(id));
    if v != a.t {
      assert Apply(st, a).threads[v].stack == st.threads[v].stack;
    } else {
      assert a.step.ReceiveWakes? || a.step.ClearWakes?;
    }
  }

  lemma InvariantStep(st: State, a: Action)
    requires Enabled(st, a) && Invariant(st)
    ensures Invariant(Apply(st, a))
  {
    var st' := Apply(st, a);
    ControlStep(st, a);
    CallsStep(st, a);
    forall id: SendId ensures LedgerAt(st', id) {
      StepBalance(st, a, id);
      LedgerStep(st, a, st', id);
    }
    forall t, id: SendId | 0 <= t < |st.threads| ensures ListAt(st', t, id) && HandlerAt(st', t, id) && SenderAt(st', t, id) {
      StepBalance(st, a, id);
      ListStep(st, a, st', t, id);
      HandlerStep(st, a, st', t, id);
      SenderStep(st, a, st', t, id);
    }
    TopsStep(st, a);
    OrderStep(st, a);
    forall u | 0 <= u < |st.threads| ensures Attended(st', u) { AttendedStep(st, a, u); }
    if !st'.nestedGet {
      DisciplineStep(st, a);
      forall id ensures Recalled(st', id) { RecalledStep(st, a, id); }
    }
  }

  lemma {:induction false} RunInvariant(st: State, acts: seq<Action>, end: State)
    requires Invariant(st) && Runs(st, acts, end)
    ensures Invariant(end)
    decreases |acts|
  {
    if acts != [] {
      var last := acts[|acts| - 1];
      var mid :| Runs(st, acts[..|acts| - 1], mid) && Enabled(mid, last) && end == Apply(mid, last);
      RunInvariant(st, acts[..|acts| - 1], mid);
      InvariantStep(mid, last);
    }
  }

  lemma ReachableInvariant(n: nat, st: State)
    requires Reachable(n, st)
    ensures Invariant(st)
  {
    var acts :| Runs(Init(n), acts, st);
    InitInvariant(n);
    RunInvariant(Init(n), acts, st);
  }

  // ---- what the protocol guarantees ----------------------------------------------------------

  /** Inside a Wait without a time-out, with no wake-up pending and fWait_ still set. */
  predicate Blocked(th: Thread) {
    match th.stack
    case Over(Send(_, Waiting, _), _) => !th.wake
    case Over(Get(InWait, forever), _) => forever && !th.wake && th.fWait
    case _ => false
  }

  /** A Send has been accepted and its caller is still waiting for it. */
  ghost predicate Outstanding(st: State) {
    exists id: SendId :: IsOpen(st, id)
  }

  lemma {:induction false} LatestOpen(st: State, k: nat) returns (id: SendId)
    requires exists x: SendId :: x < k && IsOpen(st, x)
    ensures IsOpen(st, id) && id < k && forall x: SendId :: IsOpen(st, x) && x < k ==> x <= id
  {
    if k > 0 && IsOpen(st, k - 1) { id := k - 1; }
    else { id := LatestOpen(st, k - 1); }
  }

  lemma TopIsOpen(st: State, t: Tid)
    requires Invariant(st) && t < |st.threads|
    ensures var s := st.threads[t].stack; s.Over? && s.top.Send? ==> IsOpen(st, s.top.id)
  {
    var s := st.threads[t].stack;
    if s.Over? && s.top.Send? { assert SenderAt(st, t, s.top.id); }
  }

  /** A blocked sender of the latest Send has that Send on top of its stack, and so knows when it is done. */
  lemma LatestIsUnfinished(st: State, id: SendId)
    requires Invariant(st) && !st.nestedGet && IsOpen(st, id) && Blocked(st.threads[st.calls[id].sender])
    requires forall x: SendId :: IsOpen(st, x) ==> x <= id
    ensures id in st.ready ==> DoneComing(st, id)
  {
    var t := st.calls[id].sender;
    var s := st.threads[t].stack;
    TopIsOpen(st, t);
    CountsMeanHas(s.below, id);
    assert SenderAt(st, t, id) && Recalled(st, id) && Disciplined(s) && Ascending(s);
  }

  /** The target of an unfinished latest Send is not blocked, unless it is about to be woken. */
  lemma TargetOfLatest(st: State, id: SendId)
    requires Invariant(st) && !st.nestedGet && IsOpen(st, id) && id !in st.ready
    requires forall x: SendId :: IsOpen(st, x) ==> x <= id
    ensures !Blocked(st.threads[st.calls[id].target]) || WakeComing(st, st.calls[id].target)
  {
    var u := st.calls[id].target;
    var s := st.threads[u].stack;
    TopIsOpen(st, u);
    CountsMeanHas(s.below, id);
    assert Disciplined(s) && Ascending(s) && LedgerAt(st, id);
    assert ListAt(st, u, id) && HandlerAt(st, u, id) && Attended(st, u);
  }

  /** The Send that keeps the others going: its sender is not blocked or is about to be told that it is done,
      or it is not done and its target is not blocked or is about to be woken. */
  ghost predicate GoesOn(st: State, id: SendId)
    requires id < |st.calls| && st.calls[id].sender < |st.threads| && st.calls[id].target < |st.threads|
  {
    || !Blocked(st.threads[st.calls[id].sender])
    || DoneComing(st, id)
    || (id !in st.ready && (!Blocked(st.threads[st.calls[id].target]) || WakeComing(st, st.calls[id].target)))
  }

  /** The latest open Send. */
  ghost predicate IsLatest(st: State, id: SendId) {
    IsOpen(st, id) && forall x: SendId :: IsOpen(st, x) ==> x <= id
  }

  lemma OpenIsCall(st: State, id: SendId)
    requires Invariant(st) && IsOpen(st, id)
    ensures id < |st.calls| && st.calls[id].sender < |st.threads| && st.calls[id].target < |st.threads|
  {
  }

  lemma SomebodyIsAwake(st: State)
    requires Invariant(st) && !st.nestedGet && Outstanding(st)
    ensures exists id: SendId :: IsLatest(st, id) && id < |st.calls| && st.calls[id].sender < |st.threads|
              && st.calls[id].target < |st.threads| && GoesOn(st, id)
    ensures exists t :: 0 <= t < |st.threads| && !Blocked(st.threads[t])
  {
    var id := LatestOpen(st, |st.calls|);
    OpenIsCall(st, id);
    assert IsLatest(st, id);
    if Blocked(st.threads[st.calls[id].sender]) { LatestIsUnfinished(st, id); }
    if id !in st.ready { TargetOfLatest(st, id); }
    assert GoesOn(st, id);
  }

  /** Sends never deadlock: in every reachable state with an outstanding Send, whatever the nesting of Sends,
      handlers and callbacks, the latest open Send goes on, by its own sender, its own target or a thread that is
      about to wake one of them, provided no Get was entered where GetIsNested holds. */
  lemma SendNeverDeadlocks(n: nat, st: State)
    requires Reachable(n, st) && Outstanding(st) && !st.nestedGet
    ensures exists id: SendId :: IsLatest(st, id) && id < |st.calls| && st.calls[id].sender < |st.threads|
              && st.calls[id].target < |st.threads| && GoesOn(st, id)
    ensures exists t :: 0 <= t < |st.threads| && !Blocked(st.threads[t])
  {
    ReachableInvariant(n, st);
    SomebodyIsAwake(st);
  }

  /** A step the top frame of a thread can take. */
  function StepOf(th: Thread): Step {
    match th.stack
    case Bottom => CallHandler
    case Over(Code, _) => CallHandler
    case Over(Clear(_), _) => ClearWakes
    case Over(Send(_, spc, _), _) =>
      (match spc case WakeTarget => SendWakes case Test => SendTests case ToWait => SendBlocks
                 case Waiting => SendWoken case ReWake => SendReWakes)
    case Over(Receive(rpc), _) =>
      (match rpc case Check => ReceiveChecks case PopFront => ReceivePops case Handling(_) => ReceiveReady
                 case WakeSender(_) => ReceiveWakes)
    case Over(Get(gpc, _), _) =>
      (match gpc case Scan => GetBlocks case Woken => GetAgain
                 case InWait => if th.wake then GetConsumes else if th.fWait then GetTimesOut else GetLeavesWait)
  }

  lemma StepOfIsEnabled(st: State, t: Tid)
    requires t < |st.threads| && st.threads[t].stack.Over? && CallsOk(st)
    requires var top := st.threads[t].stack.top;
      && (top.Send? ==> top.id < |st.calls|)
      && (top.Send? && top.spc.Waiting? ==> st.threads[t].wake)
      && (top.Clear? ==> top.removed < |st.calls|)
      && (top.Receive? && top.rpc.WakeSender? ==> top.rpc.done < |st.calls|)
    ensures Enabled(st, Action(t, StepOf(st.threads[t])))
  {
  }

  /** A thread that is not blocked can take a step. */
  lemma AwakeCanStep(n: nat, st: State, t: Tid)
    requires Reachable(n, st) && t < |st.threads| && !Blocked(st.threads[t])
    ensures exists a: Action :: a.t == t && Enabled(st, a)
  {
    ReachableInvariant(n, st);
    var s := st.threads[t].stack;
    if s.top.Send? { assert SenderAt(st, t, s.top.id); }
    StepOfIsEnabled(st, t);
  }

  /** Every accepted Send is handled exactly once or removed by Clear exactly once, never both, and
      it returns at most once and only afterwards; until then its caller is still inside Send, so
      the flag it handed out still exists. */
  lemma SendsAreExact(n: nat, st: State, id: SendId)
    requires Reachable(n, st) && id < |st.calls|
    ensures st.begun[id] + st.cleared[id] <= 1 && st.handled[id] <= st.begun[id] && st.returned[id] <= 1
    ensures id in st.ready <==> st.handled[id] + st.cleared[id] == 1
    ensures st.returned[id] == 1 ==> id in st.ready
    ensures st.calls[id].sender < |st.threads| && st.calls[id].target < |st.threads|
    ensures st.returned[id] == 0 <==> SendCount(st.threads[st.calls[id].sender].stack, id) == 1
    ensures forall t :: 0 <= t < |st.threads| && HandlingCount(st.threads[t].stack, id) > 0 ==>
              t == st.calls[id].target && id !in st.ready
    ensures forall t :: 0 <= t < |st.threads| && id in st.threads[t].sends ==>
              t == st.calls[id].target && id !in st.ready && st.begun[id] == 0
  {
    ReachableInvariant(n, st);
    assert LedgerAt(st, id) && SenderAt(st, st.calls[id].sender, id);
    forall t | 0 <= t < |st.threads|
      ensures HandlingCount(st.threads[t].stack, id) > 0 ==> t == st.calls[id].target && id !in st.ready
      ensures id in st.threads[t].sends ==> t == st.calls[id].target && id !in st.ready && st.begun[id] == 0
    {
      assert HandlerAt(st, t, id) && ListAt(st, t, id);
    }
  }

  /** The unlocked test of has_sends_ never hides a queued Send. */
  lemma FlagCoversList(n: nat, st: State, t: Tid)
    requires Reachable(n, st) && t < |st.threads|
    ensures st.threads[t].sends != [] ==> st.threads[t].hasSends
  {
    ReachableInvariant(n, st);
  }
}
