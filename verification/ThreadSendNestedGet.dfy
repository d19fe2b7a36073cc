/** Runs in which a Send waits forever, and exactly which nested Gets make them possible: the condition of
    ThreadSend.SendNeverDeadlocks cannot be weakened. */
module ThreadSendNestedGet {
  import opened ThreadSend

  /** Where a Get is entered: above a Send of the same thread that still waits, or else inside the handler of another's
      Send, or neither. */
  datatype GetKind = Plain | AboveSend(forever: bool) | InHandler(forever: bool)

  function KindOf(s: Stack, forever: bool): GetKind {
    if HasSend(s) then AboveSend(forever) else if HasHandling(s) then InHandler(forever) else Plain
  }

  /** The handlers call Get only in ways that a policy allows. */
  predicate Permits(policy: set<GetKind>, st: State, a: Action) {
    a.step.CallGet? ==> a.t < |st.threads| && KindOf(st.threads[a.t].stack, a.step.forever) in policy
  }

  ghost predicate RunsUnder(policy: set<GetKind>, st: State, acts: seq<Action>, end: State)
    decreases |acts|
  {
    if acts == [] then st == end
    else
      var last := acts[|acts| - 1];
      exists mid :: RunsUnder(policy, st, acts[..|acts| - 1], mid) && Enabled(mid, last) && Permits(policy, mid, last)
        && end == Apply(mid, last)
  }

  ghost predicate ReachableUnder(policy: set<GetKind>, n: nat, st: State) {
    exists acts :: RunsUnder(policy, Init(n), acts, st)
  }

  /** A set of states that no allowed step leaves; the set of reachable states is one. */
  ghost predicate Closed(good: iset<State>, policy: set<GetKind>) {
    forall st, a :: st in good && Enabled(st, a) && Permits(policy, st, a) ==> Apply(st, a) in good
  }

  /** Takes one step inside a closed set and says what the next state looks like. */
  lemma Then(good: iset<State>, policy: set<GetKind>, st: State, t: Tid, step: Step, threads: seq<Thread>, ready: set<SendId>)
    returns (st': State)
    requires Closed(good, policy) && st in good && Enabled(st, Action(t, step)) && Permits(policy, st, Action(t, step))
    requires Apply(st, Action(t, step)).threads == threads && Apply(st, Action(t, step)).ready == ready
    ensures st' in good && st'.threads == threads && st'.ready == ready
    ensures st'.calls == if step.CallSend? then st.calls + [Call(t, step.u)] else st.calls
  {
    st' := Apply(st, Action(t, step));
  }

  /** Thread 0 has sent to thread 1. */
  const FirstSend: seq<Thread> := [
    Thread(Over(Send(0, Test, false), Over(Code, Bottom)), [], false, false, false),
    Thread(Over(Code, Bottom), [0], true, true, false)]

  lemma ReachFirstSend(good: iset<State>, policy: set<GetKind>) returns (s: State)
    requires Closed(good, policy) && Init(2) in good
    ensures s in good && s.threads == FirstSend && s.calls == [Call(0, 1)] && s.ready == {}
  {
    s := Init(2);
    var a, b := Idle, Idle;
    var r: set<SendId> := {};
    a := a.(stack := Over(Send(0, WakeTarget, false), a.stack)); b := b.(sends := b.sends + [0], hasSends := true);
    s := Then(good, policy, s, 0, CallSend(1), [a, b], r);
    a := a.(stack := Over(Send(0, Test, false), a.stack.below)); b := b.(wake := true);
    s := Then(good, policy, s, 0, SendWakes, [a, b], r);
    assert a.sends == FirstSend[0].sends && b.sends == FirstSend[1].sends;
  }

  /** Threads 0 and 1 have sent to each other. */
  const CrossedSends: seq<Thread> := [
    Thread(Over(Send(0, Test, false), Over(Code, Bottom)), [1], true, true, false),
    Thread(Over(Send(1, Test, false), Over(Code, Bottom)), [0], true, true, false)]

  lemma ReachCrossedSends(good: iset<State>, policy: set<GetKind>) returns (s: State)
    requires Closed(good, policy) && Init(2) in good
    ensures s in good && s.threads == CrossedSends && s.calls == [Call(0, 1), Call(1, 0)] && s.ready == {}
  {
    s := ReachFirstSend(good, policy);
    var a, b := FirstSend[0], FirstSend[1];
    var r: set<SendId> := {};
    a := a.(sends := a.sends + [1], hasSends := true); b := b.(stack := Over(Send(1, WakeTarget, false), b.stack));
    s := Then(good, policy, s, 1, CallSend(0), [a, b], r);
    a := a.(wake := true); b := b.(stack := Over(Send(1, Test, false), b.stack.below));
    s := Then(good, policy, s, 1, SendWakes, [a, b], r);
    assert a.sends == CrossedSends[0].sends && b.sends == CrossedSends[1].sends;
  }

  /** Both have found their flag unset and look at their own send lists. */
  const BothReceiving: seq<Thread> := [
    Thread(Over(Receive(PopFront), Over(Send(0, ToWait, false), Over(Code, Bottom))), [1], true, true, false),
    Thread(Over(Receive(Check), Over(Send(1, ToWait, false), Over(Code, Bottom))), [0], true, true, false)]

  lemma ReachBothReceiving(good: iset<State>, policy: set<GetKind>) returns (s: State)
    requires Closed(good, policy) && Init(2) in good
    ensures s in good && s.threads == BothReceiving && s.calls == [Call(0, 1), Call(1, 0)] && s.ready == {}
  {
    s := ReachCrossedSends(good, policy);
    var a, b := CrossedSends[0], CrossedSends[1];
    var r: set<SendId> := {};
    a := a.(stack := Over(Receive(Check), Over(Send(0, ToWait, false), a.stack.below)));
    s := Then(good, policy, s, 0, SendTests, [a, b], r);
    b := b.(stack := Over(Receive(Check), Over(Send(1, ToWait, false), b.stack.below)));
    s := Then(good, policy, s, 1, SendTests, [a, b], r);
    a := a.(stack := Over(Receive(PopFront), a.stack.below)); s := Then(good, policy, s, 0, ReceiveChecks, [a, b], r);
  }

  /** Each is handling the call of the other. */
  const BothHandling: seq<Thread> := [
    Thread(Over(Code, Over(Receive(Handling(1)), Over(Send(0, ToWait, false), Over(Code, Bottom)))), [], true, true, false),
    Thread(Over(Code, Over(Receive(Handling(0)), Over(Send(1, ToWait, false), Over(Code, Bottom)))), [], true, true, false)]

  lemma ReachBothHandling(good: iset<State>, policy: set<GetKind>) returns (s: State)
    requires Closed(good, policy) && Init(2) in good
    ensures s in good && s.threads == BothHandling && s.calls == [Call(0, 1), Call(1, 0)] && s.ready == {}
  {
    s := ReachBothReceiving(good, policy);
    var a, b := BothReceiving[0], BothReceiving[1];
    var r: set<SendId> := {};
    a := a.(stack := Over(Code, Over(Receive(Handling(1)), a.stack.below)), sends := a.sends[1..]);
    s := Then(good, policy, s, 0, ReceivePops, [a, b], r);
    b := b.(stack := Over(Receive(PopFront), b.stack.below)); s := Then(good, policy, s, 1, ReceiveChecks, [a, b], r);
    b := b.(stack := Over(Code, Over(Receive(Handling(0)), b.stack.below)), sends := b.sends[1..]);
    s := Then(good, policy, s, 1, ReceivePops, [a, b], r);
    assert a.sends == BothHandling[0].sends && b.sends == BothHandling[1].sends;
  }

  /** Thread 1 has handled the call of thread 0 and woken it. */
  const CallZeroDone: seq<Thread> := [
    Thread(Over(Code, Over(Receive(Handling(1)), Over(Send(0, ToWait, false), Over(Code, Bottom)))), [], true, true, false),
    Thread(Over(Send(1, ToWait, false), Over(Code, Bottom)), [], false, true, false)]

  lemma ReachCallZeroDone(good: iset<State>, policy: set<GetKind>) returns (s: State)
    requires Closed(good, policy) && Init(2) in good
    ensures s in good && s.threads == CallZeroDone && s.calls == [Call(0, 1), Call(1, 0)] && s.ready == {0}
  {
    s := ReachBothHandling(good, policy);
    var a, b := BothHandling[0], BothHandling[1];
    var r: set<SendId> := {};
    b := b.(stack := b.stack.below); s := Then(good, policy, s, 1, Return, [a, b], r);
    b := b.(stack := Over(Receive(WakeSender(0)), b.stack.below)); r := {0};
    s := Then(good, policy, s, 1, ReceiveReady, [a, b], r);
    b := b.(stack := Over(Receive(PopFront), b.stack.below)); s := Then(good, policy, s, 1, ReceiveWakes, [a, b], r);
    b := b.(stack := b.stack.below, hasSends := false); s := Then(good, policy, s, 1, ReceivePops, [a, b], r);
    assert a.sends == CallZeroDone[0].sends && b.sends == CallZeroDone[1].sends;
  }

  /** The handler on thread 0 has called Get, with or without a time-out. */
  function GetEntered(forever: bool): seq<Thread> {
    [Thread(Over(Get(Scan, forever), Over(Code, Over(Receive(Handling(1)), Over(Send(0, ToWait, false), Over(Code, Bottom))))), [], false, true, false),
     Thread(Over(Send(1, ToWait, false), Over(Code, Bottom)), [], false, true, false)]
  }

  lemma ReachGetCalled(good: iset<State>, policy: set<GetKind>, forever: bool, a: Thread) returns (s: State)
    requires Closed(good, policy) && Init(2) in good && {Plain, AboveSend(forever)} <= policy
    requires a == CallZeroDone[0].(stack := Over(Receive(Check), Over(Get(Scan, forever), CallZeroDone[0].stack)))
    ensures s in good && s.threads == [a, CallZeroDone[1]] && s.calls == [Call(0, 1), Call(1, 0)] && s.ready == {0}
  {
    s := ReachCallZeroDone(good, policy);
    assert KindOf(CallZeroDone[0].stack, forever) == AboveSend(forever);
    s := Then(good, policy, s, 0, CallGet(forever), [a, CallZeroDone[1]], {0});
  }

  lemma ReachGetEntered(good: iset<State>, policy: set<GetKind>, forever: bool) returns (s: State)
    requires Closed(good, policy) && Init(2) in good && {Plain, AboveSend(forever)} <= policy
    ensures s in good && s.threads == GetEntered(forever) && s.calls == [Call(0, 1), Call(1, 0)] && s.ready == {0}
  {
    var a, b := CallZeroDone[0], CallZeroDone[1];
    var r: set<SendId> := {0};
    a := a.(stack := Over(Receive(Check), Over(Get(Scan, forever), a.stack)));
    s := ReachGetCalled(good, policy, forever, a);
    a := a.(stack := Over(Receive(PopFront), a.stack.below)); s := Then(good, policy, s, 0, ReceiveChecks, [a, b], r);
    a := a.(stack := a.stack.below, hasSends := false); s := Then(good, policy, s, 0, ReceivePops, [a, b], r);
    assert a.sends == GetEntered(forever)[0].sends && b.sends == GetEntered(forever)[1].sends;
  }

  /** The Wait of that Get has consumed the wake-up. */
  function WakeUpSwallowed(forever: bool): seq<Thread> {
    [Thread(Over(Get(InWait, forever), Over(Code, Over(Receive(Handling(1)), Over(Send(0, ToWait, false), Over(Code, Bottom))))), [], false, false, false),
     Thread(Over(Send(1, ToWait, false), Over(Code, Bottom)), [], false, true, false)]
  }

  lemma ReachWakeUpSwallowed(good: iset<State>, policy: set<GetKind>, forever: bool) returns (s: State)
    requires Closed(good, policy) && Init(2) in good && {Plain, AboveSend(forever)} <= policy
    ensures s in good && s.threads == WakeUpSwallowed(forever) && s.calls == [Call(0, 1), Call(1, 0)] && s.ready == {0}
  {
    s := ReachGetEntered(good, policy, forever);
    var a, b := GetEntered(forever)[0], GetEntered(forever)[1];
    var r: set<SendId> := {0};
    a := a.(stack := Over(Get(InWait, forever), a.stack.below), fWait := true);
    s := Then(good, policy, s, 0, GetBlocks, [a, b], r);
    a := a.(wake := false, fWait := false); s := Then(good, policy, s, 0, GetConsumes, [a, b], r);
  }

  /** That Get looks again. */
  function GetLooksAgain(forever: bool): seq<Thread> {
    [Thread(Over(Get(Scan, forever), Over(Code, Over(Receive(Handling(1)), Over(Send(0, ToWait, false), Over(Code, Bottom))))), [], false, false, false),
     Thread(Over(Send(1, ToWait, false), Over(Code, Bottom)), [], false, true, false)]
  }

  lemma ReachGetLooksAgain(good: iset<State>, policy: set<GetKind>, forever: bool) returns (s: State)
    requires Closed(good, policy) && Init(2) in good && {Plain, AboveSend(forever)} <= policy
    ensures s in good && s.threads == GetLooksAgain(forever) && s.calls == [Call(0, 1), Call(1, 0)] && s.ready == {0}
  {
    s := ReachWakeUpSwallowed(good, policy, forever);
    var a, b := WakeUpSwallowed(forever)[0], WakeUpSwallowed(forever)[1];
    var r: set<SendId> := {0};
    a := a.(stack := Over(Get(Woken, forever), a.stack.below)); s := Then(good, policy, s, 0, GetLeavesWait, [a, b], r);
    a := a.(stack := Over(Receive(Check), Over(Get(Scan, forever), a.stack.below)));
    s := Then(good, policy, s, 0, GetAgain, [a, b], r);
    a := a.(stack := a.stack.below); s := Then(good, policy, s, 0, ReceiveChecks, [a, b], r);
  }

  /** That Get has returned a message and the handler is done. */
  const HandlerBack: seq<Thread> := [
    Thread(Over(Receive(Handling(1)), Over(Send(0, ToWait, false), Over(Code, Bottom))), [], false, false, false),
    Thread(Over(Send(1, ToWait, false), Over(Code, Bottom)), [], false, true, false)]

  lemma ReachHandlerBack(good: iset<State>, policy: set<GetKind>, forever: bool) returns (s: State)
    requires Closed(good, policy) && Init(2) in good && {Plain, AboveSend(forever)} <= policy
    ensures s in good && s.threads == HandlerBack && s.calls == [Call(0, 1), Call(1, 0)] && s.ready == {0}
  {
    s := ReachGetLooksAgain(good, policy, forever);
    var a, b := GetLooksAgain(forever)[0], GetLooksAgain(forever)[1];
    var r: set<SendId> := {0};
    a := a.(stack := a.stack.below); s := Then(good, policy, s, 0, GetTakes, [a, b], r);
    a := a.(stack := a.stack.below); s := Then(good, policy, s, 0, Return, [a, b], r);
  }

  /** Thread 0 has completed the call it handled, which wakes thread 1. */
  const CallOneDone: seq<Thread> := [
    Thread(Over(Send(0, ToWait, false), Over(Code, Bottom)), [], false, false, false),
    Thread(Over(Send(1, ToWait, false), Over(Code, Bottom)), [], false, true, false)]

  lemma ReachCallOneDone(good: iset<State>, policy: set<GetKind>, forever: bool) returns (s: State)
    requires Closed(good, policy) && Init(2) in good && {Plain, AboveSend(forever)} <= policy
    ensures s in good && s.threads == CallOneDone && s.calls == [Call(0, 1), Call(1, 0)] && s.ready == {0, 1}
  {
    s := ReachHandlerBack(good, policy, forever);
    var a, b := HandlerBack[0], HandlerBack[1];
    var r: set<SendId> := {0};
    a := a.(stack := Over(Receive(WakeSender(1)), a.stack.below)); r := {0, 1};
    s := Then(good, policy, s, 0, ReceiveReady, [a, b], r);
    a := a.(stack := Over(Receive(PopFront), a.stack.below)); s := Then(good, policy, s, 0, ReceiveWakes, [a, b], r);
    a := a.(stack := a.stack.below); s := Then(good, policy, s, 0, ReceivePops, [a, b], r);
    assert a.sends == CallOneDone[0].sends && b.sends == CallOneDone[1].sends;
  }

  /** Thread 0 waits for a flag that is already set; thread 1 has returned from Send. */
  const ThreadOneReturned: seq<Thread> := [
    Thread(Over(Send(0, Waiting, false), Over(Code, Bottom)), [], false, false, true),
    Thread(Over(Code, Bottom), [], false, true, false)]

  lemma ReachThreadOneReturned(good: iset<State>, policy: set<GetKind>, forever: bool) returns (s: State)
    requires Closed(good, policy) && Init(2) in good && {Plain, AboveSend(forever)} <= policy
    ensures s in good && s.threads == ThreadOneReturned && s.calls == [Call(0, 1), Call(1, 0)] && s.ready == {0, 1}
  {
    s := ReachCallOneDone(good, policy, forever);
    var a, b := CallOneDone[0], CallOneDone[1];
    var r: set<SendId> := {0, 1};
    a := a.(stack := Over(Send(0, Waiting, false), a.stack.below), fWait := true);
    s := Then(good, policy, s, 0, SendBlocks, [a, b], r);
    b := b.(stack := Over(Send(1, Waiting, false), b.stack.below), fWait := true);
    s := Then(good, policy, s, 1, SendBlocks, [a, b], r);
    b := b.(stack := Over(Send(1, Test, true), b.stack.below), wake := false, fWait := false);
    s := Then(good, policy, s, 1, SendWoken, [a, b], r);
    b := b.(stack := Over(Send(1, ReWake, true), b.stack.below)); s := Then(good, policy, s, 1, SendTests, [a, b], r);
    b := b.(stack := b.stack.below, wake := true); s := Then(good, policy, s, 1, SendReWakes, [a, b], r);
  }

  /** Thread 1 waits for messages in Get and consumes the wake-up its Send re-issued. */
  const ThreadOneIdle: seq<Thread> := [
    Thread(Over(Send(0, Waiting, false), Over(Code, Bottom)), [], false, false, true),
    Thread(Over(Get(InWait, true), Over(Code, Bottom)), [], false, false, false)]

  lemma ReachThreadOneIdle(good: iset<State>, policy: set<GetKind>, forever: bool) returns (s: State)
    requires Closed(good, policy) && Init(2) in good && {Plain, AboveSend(forever)} <= policy
    ensures s in good && s.threads == ThreadOneIdle && s.calls == [Call(0, 1), Call(1, 0)] && s.ready == {0, 1}
  {
    s := ReachThreadOneReturned(good, policy, forever);
    var a, b := ThreadOneReturned[0], ThreadOneReturned[1];
    var r: set<SendId> := {0, 1};
    b := b.(stack := Over(Receive(Check), Over(Get(Scan, true), b.stack)));
    s := Then(good, policy, s, 1, CallGet(true), [a, b], r);
    b := b.(stack := b.stack.below); s := Then(good, policy, s, 1, ReceiveChecks, [a, b], r);
    b := b.(stack := Over(Get(InWait, true), b.stack.below), fWait := true);
    s := Then(good, policy, s, 1, GetBlocks, [a, b], r);
    b := b.(wake := false, fWait := false); s := Then(good, policy, s, 1, GetConsumes, [a, b], r);
  }

  /** Thread 1 waits for its next message; thread 0 is never woken. */
  const Deadlock: seq<Thread> := [
    Thread(Over(Send(0, Waiting, false), Over(Code, Bottom)), [], false, false, true),
    Thread(Over(Get(InWait, true), Over(Code, Bottom)), [], false, false, true)]

  lemma ReachDeadlock(good: iset<State>, policy: set<GetKind>, forever: bool) returns (s: State)
    requires Closed(good, policy) && Init(2) in good && {Plain, AboveSend(forever)} <= policy
    ensures s in good && s.threads == Deadlock && s.calls == [Call(0, 1), Call(1, 0)] && s.ready == {0, 1}
  {
    s := ReachThreadOneIdle(good, policy, forever);
    var a, b := ThreadOneIdle[0], ThreadOneIdle[1];
    var r: set<SendId> := {0, 1};
    b := b.(stack := Over(Get(Woken, true), b.stack.below)); s := Then(good, policy, s, 1, GetLeavesWait, [a, b], r);
    b := b.(stack := Over(Receive(Check), Over(Get(Scan, true), b.stack.below)));
    s := Then(good, policy, s, 1, GetAgain, [a, b], r);
    b := b.(stack := b.stack.below); s := Then(good, policy, s, 1, ReceiveChecks, [a, b], r);
    b := b.(stack := Over(Get(InWait, true), b.stack.below), fWait := true);
    s := Then(good, policy, s, 1, GetBlocks, [a, b], r);
  }

  // ---- a Get(kForever) in the handler of another's Send --------------------------------------------

  /** Thread 1 calls Get and handles the call of thread 0 there, and the handler calls Get(kForever). */
  const HandlerGets: seq<Thread> := [
    FirstSend[0],
    Thread(Over(Receive(Check), Over(Get(Scan, true), Over(Code, Over(Receive(Handling(0)), Over(Get(Scan, true), Over(Code, Bottom)))))),
           [], true, true, false)]

  lemma ReachHandlerGets(good: iset<State>, policy: set<GetKind>) returns (s: State)
    requires Closed(good, policy) && Init(2) in good && {Plain, InHandler(true)} <= policy
    ensures s in good && s.threads == HandlerGets && s.calls == [Call(0, 1)] && s.ready == {}
  {
    s := ReachFirstSend(good, policy);
    var a, b := FirstSend[0], FirstSend[1];
    var r: set<SendId> := {};
    b := b.(stack := Over(Receive(Check), Over(Get(Scan, true), b.stack)));
    s := Then(good, policy, s, 1, CallGet(true), [a, b], r);
    b := b.(stack := Over(Receive(PopFront), b.stack.below)); s := Then(good, policy, s, 1, ReceiveChecks, [a, b], r);
    b := b.(stack := Over(Code, Over(Receive(Handling(0)), b.stack.below)), sends := b.sends[1..]);
    s := Then(good, policy, s, 1, ReceivePops, [a, b], r);
    b := b.(stack := Over(Receive(Check), Over(Get(Scan, true), b.stack)));
    s := Then(good, policy, s, 1, CallGet(true), [a, b], r);
    assert b.sends == [];
  }

  /** That Get has found nothing and consumed the wake-up of the Send. */
  const HandlerWoken: seq<Thread> := [
    FirstSend[0],
    Thread(Over(Get(InWait, true), Over(Code, Over(Receive(Handling(0)), Over(Get(Scan, true), Over(Code, Bottom))))),
           [], false, false, false)]

  lemma ReachHandlerWoken(good: iset<State>, policy: set<GetKind>) returns (s: State)
    requires Closed(good, policy) && Init(2) in good && {Plain, InHandler(true)} <= policy
    ensures s in good && s.threads == HandlerWoken && s.calls == [Call(0, 1)] && s.ready == {}
  {
    s := ReachHandlerGets(good, policy);
    var a, b := HandlerGets[0], HandlerGets[1];
    var r: set<SendId> := {};
    b := b.(stack := Over(Receive(PopFront), b.stack.below)); s := Then(good, policy, s, 1, ReceiveChecks, [a, b], r);
    b := b.(stack := b.stack.below, hasSends := false); s := Then(good, policy, s, 1, ReceivePops, [a, b], r);
    b := b.(stack := Over(Get(InWait, true), b.stack.below), fWait := true); s := Then(good, policy, s, 1, GetBlocks, [a, b], r);
    b := b.(wake := false, fWait := false); s := Then(good, policy, s, 1, GetConsumes, [a, b], r);
  }

  /** It waits again. */
  const HandlerWaits: seq<Thread> := [
    FirstSend[0],
    Thread(Over(Get(InWait, true), Over(Code, Over(Receive(Handling(0)), Over(Get(Scan, true), Over(Code, Bottom))))),
           [], false, false, true)]

  lemma ReachHandlerWaits(good: iset<State>, policy: set<GetKind>) returns (s: State)
    requires Closed(good, policy) && Init(2) in good && {Plain, InHandler(true)} <= policy
    ensures s in good && s.threads == HandlerWaits && s.calls == [Call(0, 1)] && s.ready == {}
  {
    s := ReachHandlerWoken(good, policy);
    var a, b := HandlerWoken[0], HandlerWoken[1];
    var r: set<SendId> := {};
    b := b.(stack := Over(Get(Woken, true), b.stack.below)); s := Then(good, policy, s, 1, GetLeavesWait, [a, b], r);
    b := b.(stack := Over(Receive(Check), Over(Get(Scan, true), b.stack.below))); s := Then(good, policy, s, 1, GetAgain, [a, b], r);
    b := b.(stack := b.stack.below); s := Then(good, policy, s, 1, ReceiveChecks, [a, b], r);
    b := b.(stack := Over(Get(InWait, true), b.stack.below), fWait := true); s := Then(good, policy, s, 1, GetBlocks, [a, b], r);
  }

  /** Thread 0 waits for its call. */
  const HandlerDeadlock: seq<Thread> := [
    Thread(Over(Send(0, Waiting, false), Over(Code, Bottom)), [], false, false, true),
    HandlerWaits[1]]

  lemma ReachHandlerDeadlock(good: iset<State>, policy: set<GetKind>) returns (s: State)
    requires Closed(good, policy) && Init(2) in good && {Plain, InHandler(true)} <= policy
    ensures s in good && s.threads == HandlerDeadlock && s.calls == [Call(0, 1)] && s.ready == {}
  {
    s := ReachHandlerWaits(good, policy);
    var a, b := HandlerWaits[0], HandlerWaits[1];
    var r: set<SendId> := {};
    a := a.(stack := Over(Receive(Check), Over(Send(0, ToWait, false), a.stack.below))); s := Then(good, policy, s, 0, SendTests, [a, b], r);
    a := a.(stack := a.stack.below); s := Then(good, policy, s, 0, ReceiveChecks, [a, b], r);
    a := a.(stack := Over(Send(0, Waiting, false), a.stack.below), fWait := true); s := Then(good, policy, s, 0, SendBlocks, [a, b], r);
  }

  // ---- any number of threads ---------------------------------------------------------------------

  /** More threads, which do nothing. */
  function Wide(st: State, more: seq<Thread>): State { st.(threads := st.threads + more) }

  lemma WideTouches(st: State, more: seq<Thread>, a: Action)
    requires Enabled(st, a)
    ensures Enabled(Wide(st, more), a) && Touched(Wide(st, more), a) == Touched(st, a)
  {
  }

  /** What the acting thread and the touched one become. */
  lemma WideParts(st: State, more: seq<Thread>, a: Action)
    requires Enabled(st, a) && Enabled(Wide(st, more), a) && Touched(Wide(st, more), a) == Touched(st, a)
    ensures NewStack(Wide(st, more), a) == NewStack(st, a) && NewSends(Wide(st, more), a) == NewSends(st, a)
    ensures NewHasSends(Wide(st, more), a) == NewHasSends(st, a) && NewWake(Wide(st, more), a) == NewWake(st, a)
    ensures NewFWait(Wide(st, more), a) == NewFWait(st, a)
  {
  }

  lemma WideLogs(st: State, more: seq<Thread>, a: Action)
    requires Enabled(st, a) && Enabled(Wide(st, more), a)
    ensures Begun(Wide(st, more), a) == Begun(st, a) && Handled(Wide(st, more), a) == Handled(st, a)
    ensures Cleared(Wide(st, more), a) == Cleared(st, a) && Returned(Wide(st, more), a) == Returned(st, a)
  {
  }

  lemma UpdateAppend<T>(s: seq<T>, more: seq<T>, i: nat, x: T)
    requires i < |s|
    ensures (s + more)[i := x] == s[i := x] + more
  {
  }

  /** The others do not disturb a step. */
  lemma WideStep(st: State, more: seq<Thread>, a: Action)
    requires Enabled(st, a)
    ensures Enabled(Wide(st, more), a) && Apply(Wide(st, more), a) == Wide(Apply(st, a), more)
  {
    WideTouches(st, more, a);
    WideParts(st, more, a);
    WideLogs(st, more, a);
    var u := Touched(st, a);
    var touched := Thread(st.threads[u].stack, NewSends(st, a), NewHasSends(st, a), NewWake(st, a), NewFWait(st, a));
    var threads := st.threads[u := touched];
    UpdateAppend(st.threads, more, u, touched);
    UpdateAppend(threads, more, a.t, threads[a.t].(stack := NewStack(st, a)));
  }

  lemma RunsUnderExtend(policy: set<GetKind>, st: State, acts: seq<Action>, mid: State, a: Action)
    requires RunsUnder(policy, st, acts, mid) && Enabled(mid, a) && Permits(policy, mid, a)
    ensures RunsUnder(policy, st, acts + [a], Apply(mid, a))
  {
    var more := acts + [a];
    var init, last := more[..|more| - 1], more[|more| - 1];
    assert init == acts && last == a;
    assert RunsUnder(policy, st, init, mid) && Enabled(mid, last) && Permits(policy, mid, last);
  }

  lemma ReachMore(policy: set<GetKind>, n: nat, st: State, a: Action)
    requires ReachableUnder(policy, n, st) && Enabled(st, a) && Permits(policy, st, a)
    ensures ReachableUnder(policy, n, Apply(st, a))
  {
    var acts :| RunsUnder(policy, Init(n), acts, st);
    RunsUnderExtend(policy, Init(n), acts, st, a);
  }

  /** The states of two threads that can be reached among n. */
  ghost function Good(policy: set<GetKind>, n: nat, more: seq<Thread>): iset<State> {
    iset st: State | |st.threads| == 2 && ReachableUnder(policy, n, Wide(st, more))
  }

  lemma GoodIsClosed(policy: set<GetKind>, n: nat) returns (more: seq<Thread>)
    requires n >= 2
    ensures |more| == n - 2 && AllIdle(more)
    ensures Closed(Good(policy, n, more), policy) && Init(2) in Good(policy, n, more)
  {
    more := seq(n - 2, _ => Idle);
    assert Wide(Init(2), more) == Init(n);
    assert RunsUnder(policy, Init(n), [], Init(n));
    forall st, a | st in Good(policy, n, more) && Enabled(st, a) && Permits(policy, st, a)
      ensures Apply(st, a) in Good(policy, n, more)
    {
      WideStep(st, more, a);
      ReachMore(policy, n, Wide(st, more), a);
    }
  }

  // ---- exactly which nested Gets are harmless ----------------------------------------------------

  /** The policies under which no Get is entered where GetIsNested holds. */
  predicate Harmless(policy: set<GetKind>) {
    AboveSend(true) !in policy && AboveSend(false) !in policy && InHandler(true) !in policy
  }

  /** The latest open Send goes on. */
  ghost predicate LatestGoesOn(st: State) {
    exists id: SendId :: IsLatest(st, id) && id < |st.calls| && st.calls[id].sender < |st.threads|
      && st.calls[id].target < |st.threads| && GoesOn(st, id)
  }

  lemma HarmlessStep(policy: set<GetKind>, st: State, a: Action)
    requires Enabled(st, a) && Permits(policy, st, a) && Harmless(policy) && !st.nestedGet
    ensures !Apply(st, a).nestedGet
  {
    if a.step.CallGet? {
      assert KindOf(st.threads[a.t].stack, a.step.forever) in policy;
      assert !GetIsNested(st.threads[a.t].stack, a.step.forever);
    }
  }

  lemma {:induction false} RunsStayInside(good: iset<State>, policy: set<GetKind>, st: State, acts: seq<Action>, end: State)
    requires Closed(good, policy) && st in good && RunsUnder(policy, st, acts, end)
    ensures end in good
    decreases |acts|
  {
    if acts != [] {
      var init, last := acts[..|acts| - 1], acts[|acts| - 1];
      var mid :| RunsUnder(policy, st, init, mid) && Enabled(mid, last) && Permits(policy, mid, last) && end == Apply(mid, last);
      RunsStayInside(good, policy, st, init, mid);
    }
  }

  lemma UnderReaches(policy: set<GetKind>, n: nat, st: State)
    requires ReachableUnder(policy, n, st)
    ensures Reachable(n, st) && (Harmless(policy) ==> !st.nestedGet)
  {
    var good := iset s: State | Reachable(n, s) && (Harmless(policy) ==> !s.nestedGet);
    assert Runs(Init(n), [], Init(n));
    forall s, a | s in good && Enabled(s, a) && Permits(policy, s, a) ensures Apply(s, a) in good {
      var acts :| Runs(Init(n), acts, s);
      RunsExtend(Init(n), acts, s, a);
      if Harmless(policy) { HarmlessStep(policy, s, a); }
    }
    var acts :| RunsUnder(policy, Init(n), acts, st);
    RunsStayInside(good, policy, Init(n), acts, st);
  }

  /** Nobody is on the way to wake anybody. */
  ghost predicate Silent(st: State) {
    forall t :: 0 <= t < |st.threads| ==>
      st.threads[t].stack.Over? && var top := st.threads[t].stack.top;
        top.Code? || (top.Send? && top.spc.Waiting?) || top.Get?
  }

  lemma NothingComes(st: State, id: SendId)
    requires Silent(st) && id < |st.calls| && st.calls[id].sender < |st.threads| && st.calls[id].target < |st.threads|
    requires Blocked(st.threads[st.calls[id].sender])
    requires id in st.ready || Blocked(st.threads[st.calls[id].target])
    ensures !GoesOn(st, id)
  {
  }

  lemma GoodReaches(policy: set<GetKind>, n: nat, more: seq<Thread>, s: State, st: State)
    requires s in Good(policy, n, more) && st == Wide(s, more)
    ensures ReachableUnder(policy, n, st) && Invariant(st)
  {
    UnderReaches(policy, n, st);
    ReachableInvariant(n, st);
  }

  ghost predicate AllIdle(more: seq<Thread>) {
    forall i :: 0 <= i < |more| ==> more[i] == Idle
  }

  lemma NoneGoesOn(st: State, id: SendId)
    requires IsLatest(st, id) && id < |st.calls| && st.calls[id].sender < |st.threads| && st.calls[id].target < |st.threads|
    requires !GoesOn(st, id)
    ensures !LatestGoesOn(st)
  {
    forall x: SendId | IsLatest(st, x) ensures x == id {
    }
  }

  /** The deadlock of the crossed Sends, among n threads. */
  lemma DeadlockAmong(policy: set<GetKind>, n: nat, forever: bool) returns (st: State)
    requires n >= 2 && {Plain, AboveSend(forever)} <= policy
    ensures ReachableUnder(policy, n, st) && |st.threads| == n && st.threads[..2] == Deadlock && AllIdle(st.threads[2..])
    ensures IsOpen(st, 0) && 0 in st.ready && !LatestGoesOn(st) && Blocked(st.threads[0]) && Blocked(st.threads[1])
  {
    var more := GoodIsClosed(policy, n);
    var s := ReachDeadlock(Good(policy, n, more), policy, forever);
    st := Wide(s, more);
    GoodReaches(policy, n, more, s, st);
    assert st.threads[..2] == Deadlock && st.threads[2..] == more;
    DeadlockHangs(st, more);
  }

  lemma DeadlockHangs(st: State, more: seq<Thread>)
    requires Invariant(st) && st.threads == Deadlock + more && AllIdle(more)
    requires st.calls == [Call(0, 1), Call(1, 0)] && 0 in st.ready
    ensures IsOpen(st, 0) && !LatestGoesOn(st) && Blocked(st.threads[0]) && Blocked(st.threads[1])
  {
    assert st.threads[0] == Deadlock[0] && st.threads[1] == Deadlock[1];
    assert SendCount(Over(Code, Bottom), 0) == 0 && SendCount(Over(Code, Bottom), 1) == 0;
    assert SendCount(st.threads[0].stack, 0) == 1 && SendCount(st.threads[1].stack, 1) == 0;
    assert SenderAt(st, 0, 0) && SenderAt(st, 1, 1);
    NothingComes(st, 0);
    NoneGoesOn(st, 0);
  }

  /** The deadlock of the handler, among n threads. */
  lemma HandlerDeadlockAmong(policy: set<GetKind>, n: nat) returns (st: State)
    requires n >= 2 && {Plain, InHandler(true)} <= policy
    ensures ReachableUnder(policy, n, st) && |st.threads| == n && st.threads[..2] == HandlerDeadlock && AllIdle(st.threads[2..])
    ensures IsOpen(st, 0) && 0 !in st.ready && !LatestGoesOn(st) && Blocked(st.threads[0]) && Blocked(st.threads[1])
  {
    var more := GoodIsClosed(policy, n);
    var s := ReachHandlerDeadlock(Good(policy, n, more), policy);
    st := Wide(s, more);
    GoodReaches(policy, n, more, s, st);
    assert st.threads[..2] == HandlerDeadlock && st.threads[2..] == more;
    HandlerHangs(st, more);
  }

  lemma HandlerHangs(st: State, more: seq<Thread>)
    requires Invariant(st) && st.threads == HandlerDeadlock + more && AllIdle(more) && st.calls == [Call(0, 1)]
    ensures IsOpen(st, 0) && !LatestGoesOn(st) && Blocked(st.threads[0]) && Blocked(st.threads[1])
  {
    assert st.threads[0] == HandlerDeadlock[0] && st.threads[1] == HandlerDeadlock[1];
    assert SendCount(Over(Code, Bottom), 0) == 0;
    assert SenderAt(st, 0, 0);
    NothingComes(st, 0);
    NoneGoesOn(st, 0);
  }

  /** The guard is needed, and even for a Get with a time-out: with a Get inside a handler, two crossed Sends of two
      threads reach a state in which everybody is blocked although the call of thread 0, still waiting, has been
      handled. */
  lemma NestedGetDeadlocks(forever: bool)
    ensures exists st :: ReachableUnder({Plain, AboveSend(forever)}, 2, st) && IsOpen(st, 0) && 0 in st.ready &&
                         forall t :: 0 <= t < |st.threads| ==> Blocked(st.threads[t])
  {
    var st := DeadlockAmong({Plain, AboveSend(forever)}, 2, forever);
  }

  /** The other half of the guard is needed too: the handler of a Send that calls Get(kForever) leaves the sender
      and itself blocked, with the call begun and never finished, although no Get runs above a Send. */
  lemma HandlerGetDeadlocks()
    ensures exists st :: ReachableUnder({Plain, InHandler(true)}, 2, st) && IsOpen(st, 0) && 0 !in st.ready &&
                         forall t :: 0 <= t < |st.threads| ==> Blocked(st.threads[t])
  {
    var st := HandlerDeadlockAmong({Plain, InHandler(true)}, 2);
  }

  /** For any number of threads, exactly the Gets above a waiting Send and the Get(kForever) inside a handler can do harm:
      the latest open Send goes on in every state that can be reached under a policy if and only if the policy
      forbids them. */
  lemma HarmlessIff(policy: set<GetKind>, n: nat)
    requires n >= 2 && Plain in policy
    ensures (forall st :: ReachableUnder(policy, n, st) && Outstanding(st) ==> LatestGoesOn(st)) <==> Harmless(policy)
  {
    if Harmless(policy) {
      forall st | ReachableUnder(policy, n, st) && Outstanding(st) ensures LatestGoesOn(st) {
        UnderReaches(policy, n, st);
        SendNeverDeadlocks(n, st);
      }
    } else if InHandler(true) in policy {
      var st := HandlerDeadlockAmong(policy, n);
    } else {
      var st := DeadlockAmong(policy, n, AboveSend(true) in policy);
    }
  }
}
