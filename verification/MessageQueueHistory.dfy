/** Any calls of the queue, one after the other: what all of them keep, and when the order of delivery holds. */
module MessageQueueHistory {
  import opened Bytes
  import opened MessageQueueSpec
  import opened MessageQueueCalls
  import opened MessageQueueQuit
  import opened MessageQueuePeek

  /** DoTest and DoPush are the halves of a post of another thread, DoPost is one without anything in between. */
  datatype Call =
    | DoPost(p: Posting)
    | DoTest(p: Posting)
    | DoPush(p: Posting)
    | DoClear(handler: Option<Handler>, id: nat)
    | DoQuit
    | DoRestart
    | DoGet(cmsWait: Option<nat>, msStart: nat, env: seq<Pause>)
    | DoPeek(cmsWait: Option<nat>, msStart: nat, env: seq<Pause>)

  /** A post whose test fails does nothing, even if an equal one is in flight. */
  function Post(q: Queue, p: Posting): Queue {
    if q.stop then q else Pushed(Entered(q, p), p)
  }

  function After(q: Queue, call: Call): Queue {
    match call
    case DoPost(p) => Post(q, p)
    case DoTest(p) => Entered(q, p)
    case DoPush(p) => Pushed(q, p)
    case DoClear(handler, id) => Cleared(q, handler, id)
    case DoQuit => Apply(q, Quit)
    case DoRestart => Apply(q, Restart)
    case DoGet(cmsWait, msStart, env) => Get(q, cmsWait, msStart, env).q
    case DoPeek(cmsWait, msStart, env) => Peek(q, cmsWait, msStart, env).q
  }

  function History(calls: seq<Call>): Queue {
    if calls == [] then EMPTY else After(History(calls[..|calls| - 1]), calls[|calls| - 1])
  }

  /** The call hands out a message although another one waits peeked. */
  predicate Passes(q: Queue, call: Call) {
    match call
    case DoGet(cmsWait, msStart, env) => PassesSlot(Get(q, cmsWait, msStart, env))
    case DoPeek(cmsWait, msStart, env) => q.peek.None? && PassesSlot(Get(q, cmsWait, msStart, env))
    case _ => false
  }

  predicate NonePasses(calls: seq<Call>) {
    calls == []
    || (NonePasses(calls[..|calls| - 1]) && !Passes(History(calls[..|calls| - 1]), calls[|calls| - 1]))
  }

  /** Every handler that runs inside the call takes back what it peeks. */
  predicate CallTakesBack(call: Call) {
    match call
    case DoGet(_, _, env) => TakesBack(env)
    case DoPeek(_, _, env) => TakesBack(env)
    case _ => true
  }

  predicate AllTakeBack(calls: seq<Call>) {
    forall i :: 0 <= i < |calls| ==> CallTakesBack(calls[i])
  }

  lemma TakesBackIsEnough(q: Queue, call: Call)
    requires CallTakesBack(call)
    ensures !Passes(q, call)
  {
    if call.DoGet? || call.DoPeek? {
      GetEmpty(q, call.cmsWait, call.msStart, call.env, Get(q, call.cmsWait, call.msStart, call.env));
    }
  }

  lemma {:induction false} AllTakeBackIsEnough(calls: seq<Call>)
    requires AllTakeBack(calls)
    ensures NonePasses(calls)
  {
    if calls != [] {
      var init := calls[..|calls| - 1];
      AllTakeBackIsEnough(init);
      TakesBackIsEnough(History(init), calls[|calls| - 1]);
    }
  }

  lemma CallPath(q: Queue, call: Call)
    ensures Path(q, After(q, call), !Passes(q, call))
  {
    var r := After(q, call);
    match call
    case DoPost(p) =>
      if q.stop {
        NoPath(q);
      } else {
        StepPath(q, Enter(p), Entered(q, p));
        StepPath(Entered(q, p), Push(p), r);
        PathTrans(q, Entered(q, p), r, true, true);
      }
    case DoTest(p) => StepPath(q, Enter(p), r);
    case DoPush(p) => StepPath(q, Push(p), r);
    case DoClear(handler, id) => StepPath(q, Clear(handler, id), r);
    case DoQuit => StepPath(q, Quit, r);
    case DoRestart => StepPath(q, Restart, r);
    case DoGet(cmsWait, msStart, env) => GetPath(q, cmsWait, msStart, env, Get(q, cmsWait, msStart, env));
    case DoPeek(cmsWait, msStart, env) => PeekPath(q, cmsWait, msStart, env, Peek(q, cmsWait, msStart, env));
  }

  lemma {:induction false} HistoryPath(calls: seq<Call>)
    ensures Path(EMPTY, History(calls), NonePasses(calls))
  {
    var clean := NonePasses(calls);
    if calls == [] {
      NoPath(EMPTY);
    } else {
      var init, call := calls[..|calls| - 1], calls[|calls| - 1];
      var q := History(init);
      HistoryPath(init);
      CallPath(q, call);
      PathWeaker(EMPTY, q, NonePasses(init), clean);
      PathWeaker(q, After(q, call), !Passes(q, call), clean);
      PathTrans(EMPTY, q, After(q, call), clean, clean);
    }
  }

  /** After any calls whatsoever every message that got into the queue is in exactly one place, once, no delivered one
      was a dispose message or early, and every post that found the queue not stopped is in flight or has become
      one message. */
  lemma {:induction false} CallsDeliverOnce(calls: seq<Call>, q: Queue, x: Item, p: Posting)
    requires q == History(calls)
    ensures Copies(q, x) == if x in q.posted then 1 else 0
    ensures x in q.out ==> x.msg.id != MQID_DISPOSE && TriggerOf(x) <= q.clock
    ensures q.admitted[p] == q.flight[p] + Arrivals(q.posted, p)
  {
    HistoryPath(calls);
    PathWeaker(EMPTY, q, NonePasses(calls), false);
    DeliveredOnce(q, x);
    AdmittedOnce(q, p);
    if x in q.out { NeverEarly(q, x); }
  }

  lemma {:induction false} HistoryInOrder(calls: seq<Call>)
    ensures NonePasses(calls) ==> LineInOrder(History(calls)) && History(calls).lost == []
    ensures AllTakeBack(calls) ==> NonePasses(calls)
  {
    EmptyInv();
    HistoryPath(calls);
    PathInv(EMPTY, History(calls), NonePasses(calls));
    if AllTakeBack(calls) { AllTakeBackIsEnough(calls); }
  }

  /** If no call passes a peeked message, as it is when every handler takes back what it peeks, messages are delivered in
      order and none is lost. */
  lemma {:induction false} CallsDeliverInOrder(calls: seq<Call>)
    ensures NonePasses(calls) ==> SeqInOrder(History(calls).movedAt, History(calls).out) && History(calls).lost == []
    ensures AllTakeBack(calls) ==> NonePasses(calls)
  {
    var q := History(calls);
    HistoryInOrder(calls);
    HistoryPath(calls);
    if NonePasses(calls) {
      forall i, j | 0 <= i < j < |q.out| ensures InOrder(q.movedAt, q.out[i], q.out[j]) {
        DeliveredInOrder(q, i, j);
      }
    }
  }

  /** The Peeks that pass a peeked message, in any calls. */
  function PassingPeeks(calls: seq<Call>): nat {
    if calls == [] then 0
    else
      var init, call := calls[..|calls| - 1], calls[|calls| - 1];
      PassingPeeks(init) + if call.DoPeek? && Passes(History(init), call) then 1 else 0
  }

  lemma CallLoses(q: Queue, call: Call)
    ensures |After(q, call).lost| == |q.lost| + if call.DoPeek? && Passes(q, call) then 1 else 0
  {
    if (call.DoGet? || call.DoPeek?) && q.peek.None? {
      PeekLosesIff(q, call.cmsWait, call.msStart, call.env, Get(q, call.cmsWait, call.msStart, call.env),
                   Peek(q, call.cmsWait, call.msStart, call.env));
    }
  }

  /** Each of them loses one message, and nothing else does. */
  lemma {:induction false} CallsLose(calls: seq<Call>)
    ensures |History(calls).lost| == PassingPeeks(calls)
  {
    if calls != [] {
      CallsLose(calls[..|calls| - 1]);
      CallLoses(History(calls[..|calls| - 1]), calls[|calls| - 1]);
    }
  }

  // ---- a handler that peeks ----------------------------------------------------------------------

  /** A Get during which a handler peeks once: q1 is the queue behind that peek. */
  lemma GetBehindPeek(q: Queue, cmsWait: Option<nat>, now: nat, pause: Pause, q1: Queue, g: GetEnd)
    requires q.peek.None? && pause.ops == [OpPeek(now)] && q1 == PeekNow(q, now).q && NoneDue(q1, now)
    requires g == Get(q, cmsWait, now, [pause])
    ensures g.q == PullAll(q1).q && g.got == PullAll(q1).got
  {
    var env := [pause];
    OneOp(q, OpPeek(now), false);
    NothingMoves(q1, now);
    assert Rest(env) == [] && Looked(q, env, now) == q1;
    PassAlone(q1, now + Elapsed(env));
  }

  /** The queue behind a peek of two or more, one or no messages. */
  lemma {:induction false} PeekNowTakes(q: Queue, now: nat, q1: Queue, ready: seq<Item>)
    requires Pending(q) && q.peek.None? && q1 == PeekNow(q, now).q && ready == Deliverable(MoveDue(q, now).list)
    ensures NoneDue(q1, now) && q1.lost == q.lost
    ensures q1.peek == if ready == [] then None else Some(ready[0])
    ensures Deliverable(q1.list) == if ready == [] then [] else ready[1..]
  {
    var p := MoveDue(q, now);
    MoveDueFrame(q, now, p);
    MoveDuePath(q, now);
    PullAllTakes(p, PullAll(p));
  }

  /** A handler peeks while a Get of the same queue handles its sent messages, and nothing else happens during the call.
      Exactly if two messages are ready, the Get hands out the second one and leaves the first one behind; and a
      Peek in the place of the Get overwrites the first one, which is lost. */
  lemma {:induction false} NestedPeekLoses(q: Queue, cmsWait: Option<nat>, now: nat, pause: Pause, ready: seq<Item>, g: GetEnd, e: GetEnd)
    requires Pending(q) && q.peek.None? && pause.ops == [OpPeek(now)] && ready == Deliverable(MoveDue(q, now).list)
    requires g == Get(q, cmsWait, now, [pause]) && e == Peek(q, cmsWait, now, [pause])
    ensures g.got.Some? <==> |ready| >= 2
    ensures |ready| >= 2 ==> g.got == Some(ready[1]) && g.q.peek == Some(ready[0])
    ensures e.q.lost == q.lost + if |ready| >= 2 then [ready[0]] else []
  {
    var q1 := PeekNow(q, now).q;
    PeekNowTakes(q, now, q1, ready);
    GetBehindPeek(q, cmsWait, now, pause, q1, g);
    PullAllTakes(q1, PullAll(q1));
  }

  lemma BothDeliverable(x: Item, y: Item)
    requires x.msg.id != MQID_DISPOSE && y.msg.id != MQID_DISPOSE
    ensures Deliverable([x] + [y]) == [x] + [y]
  {
    var both := [x] + [y];
    var none: seq<Item> := [y][1..];
    assert both[1..] == [y] && none == [];
    assert Deliverable(none) == [] && Deliverable([y]) == [y] + [];
    assert Deliverable(both) == [x] + Deliverable(both[1..]);
  }

  /** Out of order: what has been handed out last was posted behind what is still peeked. */
  lemma LineBreaks(q: Queue, x: Item, y: Item)
    requires q.out != [] && q.out[|q.out| - 1] == y && q.peek == Some(x)
    requires x.trigger.None? && y.trigger.None? && x.serial < y.serial
    ensures !LineInOrder(q)
  {
    var n := |q.out|;
    assert Line(q)[n - 1] == y && Line(q)[n] == x;
    assert !InOrder(q.movedAt, Line(q)[n - 1], Line(q)[n]);
  }

  /** Of two posts the second one is delivered, and the first one waits behind it. */
  lemma {:induction false} NestedPeekOvertakes(a: Message, b: Message, now: nat, pause: Pause, q: Queue, g: GetEnd)
    requires a.id != MQID_DISPOSE && b.id != MQID_DISPOSE && pause.ops == [OpPeek(now)]
    requires q == Post(Post(EMPTY, Posting(a, None)), Posting(b, None)) && g == Get(q, None, now, [pause])
    ensures g.got == Some(Item(1, b, None, 0)) && g.q.peek == Some(Item(0, a, None, 0)) && !LineInOrder(g.q)
  {
    var x, y := Item(0, a, None, 0), Item(1, b, None, 0);
    assert q.list == [x] + [y] && MoveDue(q, now) == q;
    BothDeliverable(x, y);
    NestedPeekLoses(q, None, now, pause, [x] + [y], g, Peek(q, None, now, [pause]));
    GetHandsOut(q, None, now, [pause], g);
    LineBreaks(g.q, x, y);
  }
}
