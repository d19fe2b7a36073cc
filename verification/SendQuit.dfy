/** Sends to a thread that quits: "any pending Sends will be delivered before Get (or Peek) returns false"
    (src/event/messagequeue.h). A Send tests fStop_ before it takes the lock and queues itself
    (src/event/thread.cpp); the Get of the thread calls ReceiveSends, looks for posts, and tests fStop_. */
module SendQuit {
  import opened Bytes

  type SendId = nat

  /** `flight` holds the Sends between their test of fStop_ and the lock; `queued` and `handled` record the order in which
      the others were queued and handled, `cleared` what was removed. */
  datatype Box = Box(
    sends: seq<SendId>,         // sendlist_
    hasSends: bool,             // has_sends_
    stop: bool,                 // fStop_
    flight: multiset<SendId>,
    queued: seq<SendId>,
    handled: seq<SendId>,
    cleared: multiset<SendId>)

  /** What other threads, and handlers on this one, do meanwhile. */
  datatype Op =
    | OpTest(id: SendId)
    | OpQueue(id: SendId)
    | OpClear(k: nat)      // removes the k-th Send of the list
    | OpQuit
    | OpRestart
    | OpReceive            // ReceiveSends of a nested Get or Send

  /** What `yes` answers depends on the moment: a post was found, or Wait succeeded in time. */
  datatype Pause = Pause(ops: seq<Op>, yes: bool)

  function Received(b: Box): Box {
    if b.hasSends then b.(sends := [], hasSends := false, handled := b.handled + b.sends) else b
  }

  function Performed(b: Box, op: Op): Box {
    match op
    case OpTest(id) => if b.stop then b else b.(flight := b.flight + multiset{id})
    case OpQueue(id) =>
      if id !in b.flight then b
      else b.(flight := b.flight - multiset{id}, sends := b.sends + [id], hasSends := true, queued := b.queued + [id])
    case OpClear(k) =>
      if k >= |b.sends| then b
      else b.(sends := b.sends[..k] + b.sends[k + 1..], cleared := b.cleared + multiset{b.sends[k]})
    case OpQuit => b.(stop := true)
    case OpRestart => b.(stop := false)
    case OpReceive => Received(b)
  }

  function Interfered(b: Box, ops: seq<Op>): Box
    decreases |ops|
  {
    if ops == [] then b else Interfered(Performed(b, ops[0]), ops[1..])
  }

  /** A script that is over interrupts no more. */
  function Interrupted(b: Box, env: seq<Pause>): Box { if env == [] then b else Interfered(b, env[0].ops) }

  function Rest(env: seq<Pause>): seq<Pause> { if env == [] then [] else env[1..] }

  function Popped(b: Box): Box
    requires b.sends != []
  {
    b.(sends := b.sends[1..], handled := b.handled + [b.sends[0]])
  }

  datatype Step = Step(b: Box, rest: seq<Pause>)

  /** The loop of ReceiveSends, which leaves the lock for every handler. */
  function Handle(b: Box, env: seq<Pause>): (s: Step)
    ensures |s.rest| <= |env|
    decreases |env|, |b.sends|
  {
    if b.sends == [] then Step(b.(hasSends := false), env)
    else Handle(Interrupted(Popped(b), env), Rest(env))
  }

  function ReceiveSends(b: Box, env: seq<Pause>): (s: Step)
    ensures |s.rest| <= |env|
  {
    if b.hasSends then Handle(b, env) else Step(b, env)
  }

  datatype End = End(b: Box, got: bool)

  /** Get, as far as Sends are concerned: rounds of ReceiveSends, a look for posts, the test of fStop_ and a wait. */
  function Get(b: Box, env: seq<Pause>): End
    decreases |env|
  {
    var s := ReceiveSends(b, env);
    var looked, rest := Interrupted(s.b, s.rest), Rest(s.rest);
    if s.rest != [] && s.rest[0].yes then End(looked, true)
    else if looked.stop || rest == [] || !rest[0].yes then
      End(if looked.stop then looked else Interrupted(looked, rest), false)
    else Get(Interrupted(looked, rest), Rest(rest))
  }

  // ---- what every call keeps ---------------------------------------------------------------------

  /** How often a Send was queued is how often it waits, was handled or was cleared. */
  ghost predicate LedgerAt(b: Box, id: SendId) {
    multiset(b.queued)[id] == multiset(b.sends)[id] + multiset(b.handled)[id] + b.cleared[id]
  }

  /** A waiting Send has its flag set, and none is lost. */
  ghost predicate Valid(b: Box) {
    (b.sends != [] ==> b.hasSends) && forall id :: LedgerAt(b, id)
  }

  lemma RemoveAt(s: seq<SendId>, k: nat, rest: seq<SendId>, id: SendId)
    requires k < |s| && rest == s[..k] + s[k + 1..]
    ensures multiset(s)[id] == multiset(rest)[id] + if id == s[k] then 1 else 0
  {
    assert s == s[..k] + ([s[k]] + s[k + 1..]);
    assert multiset(s) == multiset(s[..k]) + (multiset{s[k]} + multiset(s[k + 1..]));
    assert multiset(rest) == multiset(s[..k]) + multiset(s[k + 1..]);
  }

  lemma QueueAt(b: Box, late: SendId, id: SendId)
    requires LedgerAt(b, id)
    ensures LedgerAt(Performed(b, OpQueue(late)), id)
  {
    assert multiset(b.sends + [late]) == multiset(b.sends) + multiset{late};
    assert multiset(b.queued + [late]) == multiset(b.queued) + multiset{late};
  }

  lemma ClearAt(b: Box, k: nat, id: SendId)
    requires LedgerAt(b, id)
    ensures LedgerAt(Performed(b, OpClear(k)), id)
  {
    if k < |b.sends| { RemoveAt(b.sends, k, b.sends[..k] + b.sends[k + 1..], id); }
  }

  lemma PerformedAt(b: Box, op: Op, id: SendId)
    requires LedgerAt(b, id)
    ensures LedgerAt(Performed(b, op), id)
  {
    match op
    case OpQueue(late) => QueueAt(b, late, id);
    case OpClear(k) => ClearAt(b, k, id);
    case OpReceive => assert multiset(b.handled + b.sends) == multiset(b.handled) + multiset(b.sends);
    case _ =>
  }

  lemma PerformedValid(b: Box, op: Op)
    requires Valid(b)
    ensures Valid(Performed(b, op))
  {
    forall id ensures LedgerAt(Performed(b, op), id) {
      assert LedgerAt(b, id);
      PerformedAt(b, op, id);
    }
  }

  lemma PoppedValid(b: Box)
    requires Valid(b) && b.sends != []
    ensures Valid(Popped(b))
  {
    forall id ensures LedgerAt(Popped(b), id) {
      assert LedgerAt(b, id) && b.sends[..0] + b.sends[1..] == b.sends[1..];
      RemoveAt(b.sends, 0, b.sends[1..], id);
      assert multiset(b.handled + [b.sends[0]]) == multiset(b.handled) + multiset{b.sends[0]};
    }
  }

  lemma {:induction false} InterferedValid(b: Box, ops: seq<Op>)
    requires Valid(b)
    ensures Valid(Interfered(b, ops))
    decreases |ops|
  {
    if ops != [] {
      PerformedValid(b, ops[0]);
      InterferedValid(Performed(b, ops[0]), ops[1..]);
    }
  }

  lemma InterruptedValid(b: Box, env: seq<Pause>)
    requires Valid(b)
    ensures Valid(Interrupted(b, env))
  {
    if env != [] { InterferedValid(b, env[0].ops); }
  }

  lemma {:induction false} HandleValid(b: Box, env: seq<Pause>, s: Step)
    requires Valid(b) && s == Handle(b, env)
    ensures Valid(s.b)
    decreases |env|, |b.sends|
  {
    if b.sends == [] {
      forall id ensures LedgerAt(s.b, id) { assert LedgerAt(b, id); }
    } else {
      PoppedValid(b);
      InterruptedValid(Popped(b), env);
      HandleValid(Interrupted(Popped(b), env), Rest(env), s);
    }
  }

  /** No Get loses a Send: whatever happens meanwhile, it waits, was handled or was cleared. */
  lemma {:induction false} GetValid(b: Box, env: seq<Pause>, e: End)
    requires Valid(b) && e == Get(b, env)
    ensures Valid(e.b)
    decreases |env|
  {
    var s := ReceiveSends(b, env);
    if b.hasSends { HandleValid(b, env, s); }
    var looked, rest := Interrupted(s.b, s.rest), Rest(s.rest);
    InterruptedValid(s.b, s.rest);
    InterruptedValid(looked, rest);
    if !(s.rest != [] && s.rest[0].yes) && !(looked.stop || rest == [] || !rest[0].yes) {
      GetValid(Interrupted(looked, rest), Rest(rest), e);
    }
  }

  // ---- the order ---------------------------------------------------------------------------------

  /** What remains of a sequence, by the positions that remain. */
  ghost predicate Remains(s: seq<SendId>, t: seq<SendId>, at: seq<nat>) {
    && |at| == |t| && (forall i :: 0 <= i < |t| ==> at[i] < |s| && t[i] == s[at[i]])
    && (forall i, j :: 0 <= i < j < |t| ==> at[i] < at[j])
  }

  /** The handled Sends, and then the waiting ones, come in the order in which all were queued. */
  ghost predicate InOrder(b: Box) {
    exists at :: Remains(b.queued, b.handled + b.sends, at)
  }

  lemma RemainsMore(s: seq<SendId>, t: seq<SendId>, at: seq<nat>, id: SendId)
    requires Remains(s, t, at)
    ensures Remains(s + [id], t + [id], at + [|s|])
  {
  }

  lemma RemainsLess(s: seq<SendId>, t: seq<SendId>, at: seq<nat>, k: nat)
    requires Remains(s, t, at) && k < |t|
    ensures Remains(s, t[..k] + t[k + 1..], at[..k] + at[k + 1..])
  {
  }

  lemma PerformedInOrder(b: Box, op: Op)
    requires InOrder(b)
    ensures InOrder(Performed(b, op))
  {
    var r := Performed(b, op);
    var t := b.handled + b.sends;
    var at :| Remains(b.queued, t, at);
    match op
    case OpQueue(id) =>
      if id in b.flight {
        RemainsMore(b.queued, t, at, id);
        assert t + [id] == r.handled + r.sends;
      }
    case OpClear(k) =>
      if k < |b.sends| {
        var i := |b.handled| + k;
        RemainsLess(b.queued, t, at, i);
        assert t[..i] + t[i + 1..] == r.handled + r.sends;
      }
    case _ => assert t == r.handled + r.sends;
  }

  lemma {:induction false} InterferedInOrder(b: Box, ops: seq<Op>)
    requires InOrder(b)
    ensures InOrder(Interfered(b, ops))
    decreases |ops|
  {
    if ops != [] {
      PerformedInOrder(b, ops[0]);
      InterferedInOrder(Performed(b, ops[0]), ops[1..]);
    }
  }

  lemma InterruptedInOrder(b: Box, env: seq<Pause>)
    requires InOrder(b)
    ensures InOrder(Interrupted(b, env))
  {
    if env != [] { InterferedInOrder(b, env[0].ops); }
  }

  lemma {:induction false} HandleInOrder(b: Box, env: seq<Pause>, s: Step)
    requires InOrder(b) && s == Handle(b, env)
    ensures InOrder(s.b)
    decreases |env|, |b.sends|
  {
    if b.sends != [] {
      var p := Popped(b);
      assert p.handled + p.sends == b.handled + b.sends;
      InterruptedInOrder(p, env);
      HandleInOrder(Interrupted(p, env), Rest(env), s);
    }
  }

  /** First come, first served, whatever happens during the Get. */
  lemma {:induction false} GetInOrder(b: Box, env: seq<Pause>, e: End)
    requires InOrder(b) && e == Get(b, env)
    ensures InOrder(e.b)
    decreases |env|
  {
    var s := ReceiveSends(b, env);
    if b.hasSends { HandleInOrder(b, env, s); }
    var looked, rest := Interrupted(s.b, s.rest), Rest(s.rest);
    InterruptedInOrder(s.b, s.rest);
    InterruptedInOrder(looked, rest);
    if !(s.rest != [] && s.rest[0].yes) && !(looked.stop || rest == [] || !rest[0].yes) {
      GetInOrder(Interrupted(looked, rest), Rest(rest), e);
    }
  }

  // ---- a stopped thread --------------------------------------------------------------------------

  predicate NoRestart(ops: seq<Op>) { forall i :: 0 <= i < |ops| ==> !ops[i].OpRestart? }

  predicate NoRestarts(env: seq<Pause>) { forall i :: 0 <= i < |env| ==> NoRestart(env[i].ops) }

  /** Nothing can be queued any more. */
  predicate Shut(b: Box) { b.stop && b.flight == multiset{} }

  lemma {:induction false} InterferedShut(b: Box, ops: seq<Op>)
    requires Shut(b) && NoRestart(ops)
    ensures Shut(Interfered(b, ops)) && |Interfered(b, ops).sends| <= |b.sends|
    decreases |ops|
  {
    if ops != [] {
      assert !ops[0].OpRestart? && NoRestart(ops[1..]);
      InterferedShut(Performed(b, ops[0]), ops[1..]);
    }
  }

  lemma InterruptedShut(b: Box, env: seq<Pause>)
    requires Shut(b) && NoRestarts(env)
    ensures Shut(Interrupted(b, env)) && |Interrupted(b, env).sends| <= |b.sends| && NoRestarts(Rest(env))
  {
    if env != [] { InterferedShut(b, env[0].ops); }
  }

  lemma {:induction false} HandleShut(b: Box, env: seq<Pause>, s: Step)
    requires Shut(b) && NoRestarts(env) && s == Handle(b, env)
    ensures Shut(s.b) && s.b.sends == [] && NoRestarts(s.rest)
    decreases |env|, |b.sends|
  {
    if b.sends != [] {
      InterruptedShut(Popped(b), env);
      HandleShut(Interrupted(Popped(b), env), Rest(env), s);
    }
  }

  /** A Get that returns false on a quitting thread leaves no Send behind. */
  predicate Promised(e: End) { !e.got && e.b.stop ==> e.b.sends == [] }

  lemma ShutDelivers(b: Box, env: seq<Pause>)
    requires Valid(b) && Shut(b) && NoRestarts(env)
    ensures Promised(Get(b, env)) && (!Get(b, env).got ==> Get(b, env).b.stop)
  {
    var s := ReceiveSends(b, env);
    if b.hasSends { HandleShut(b, env, s); }
    InterruptedShut(s.b, s.rest);
  }

  // ---- exactly when the promise holds ------------------------------------------------------------

  /** Nothing waits when ReceiveSends is done, and the interruption behind it makes Get return false. */
  lemma LastLook(b: Box, env: seq<Pause>, s: Step, last: Pause, e: End)
    requires s == ReceiveSends(b, env) && s.rest == [last] && !last.yes && e == Get(b, env)
    requires Interfered(s.b, last.ops).stop
    ensures e == End(Interfered(s.b, last.ops), false)
  {
  }

  /** A handler that receives all other Sends, or nothing if there are none. */
  lemma ReceivesAll(b: Box, last: Pause) returns (env: seq<Pause>)
    requires Valid(b)
    ensures NoRestart(last.ops) ==> NoRestarts(env)
    ensures var s := ReceiveSends(b, env);
      s.rest == [last] && s.b.sends == [] && s.b.stop == b.stop && s.b.flight == b.flight
  {
    if b.sends == [] {
      env := [last];
    } else {
      var first := Pause([OpReceive], false);
      env := [first] + [last];
      var p := Popped(b);
      var r := Received(p);
      OneOp(p, OpReceive);
      assert Rest(env) == [last] && Interrupted(p, env) == r && r.sends == [];
      assert Handle(b, env) == Handle(r, [last]) == Step(r.(hasSends := false), [last]);
    }
  }

  lemma OneOp(b: Box, op: Op)
    ensures Interfered(b, [op]) == Performed(b, op)
  {
    assert [op][1..] == [];
  }

  lemma FirstOp(b: Box, op: Op, ops: seq<Op>)
    ensures Interfered(b, [op] + ops) == Interfered(Performed(b, op), ops)
  {
    assert ([op] + ops)[1..] == ops;
  }

  /** A Send that has passed its test comes behind the last ReceiveSends, although the thread was stopped before. */
  lemma LateSend(b: Box, id: SendId) returns (env: seq<Pause>)
    requires Valid(b) && b.stop && id in b.flight
    ensures NoRestarts(env) && !Promised(Get(b, env))
  {
    var last := Pause([OpQueue(id)], false);
    env := ReceivesAll(b, last);
    var s := ReceiveSends(b, env);
    OneOp(s.b, OpQueue(id));
    LastLook(b, env, s, last, Get(b, env));
  }

  /** A Send and a Quit come behind it. */
  lemma SendAndQuit(b: Box, id: SendId) returns (env: seq<Pause>)
    requires Valid(b) && !b.stop
    ensures NoRestarts(env) && !Promised(Get(b, env))
  {
    var last := Pause([OpTest(id)] + ([OpQueue(id)] + [OpQuit]), false);
    env := ReceivesAll(b, last);
    var s := ReceiveSends(b, env);
    var tested := Performed(s.b, OpTest(id));
    var queued := Performed(tested, OpQueue(id));
    FirstOp(s.b, OpTest(id), [OpQueue(id)] + [OpQuit]);
    FirstOp(tested, OpQueue(id), [OpQuit]);
    OneOp(queued, OpQuit);
    LastLook(b, env, s, last, Get(b, env));
  }

  /** The promise holds, whatever happens during the call short of a Restart, exactly for a thread that is stopped before
      the call with no Send in flight. */
  lemma SendPromiseIff(b: Box)
    requires Valid(b)
    ensures (forall env :: NoRestarts(env) ==> Promised(Get(b, env))) <==> b.stop && b.flight == multiset{}
  {
    if Shut(b) {
      forall env | NoRestarts(env) ensures Promised(Get(b, env)) {
        ShutDelivers(b, env);
      }
    } else if b.stop {
      var id :| id in b.flight;
      var env := LateSend(b, id);
    } else {
      var env := SendAndQuit(b, 0);
    }
  }
}
