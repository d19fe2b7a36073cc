/** What Get and Peek have seen when they return nothing, and the promise about a queue that quits: "any pending
    Sends and ready Posts will be delivered before Get (or Peek) returns false" (messagequeue.h). */
module MessageQueueQuit {
  import opened Bytes
  import opened MessageQueueSpec
  import opened MessageQueueCalls

  /** Nothing delayed has triggered at a time. */
  ghost predicate NoneDue(q: Queue, now: nat) {
    forall x :: x in q.delayed ==> now < TriggerOf(x)
  }

  /** The list is empty, and nothing delayed has triggered at a time. */
  ghost predicate NothingListed(q: Queue, now: nat) {
    q.list == [] && NoneDue(q, now)
  }

  /** Nothing can be delivered at a time. */
  ghost predicate NothingReady(q: Queue, now: nat) {
    q.peek.None? && NothingListed(q, now)
  }

  /** A post that could be delivered at a time if it got into the queue. */
  predicate Due(p: Posting, now: nat) {
    p.trigger.None? || p.trigger.value <= now
  }

  /** No such post is in flight. */
  ghost predicate Calm(q: Queue, now: nat) {
    forall p :: p in q.flight ==> !Due(p, now)
  }

  // ---- what the parts of a call leave alone ------------------------------------------------------

  lemma {:induction false} MoveDueFrame(q: Queue, now: nat, r: Queue)
    requires r == MoveDue(q, now) && Pending(q)
    ensures r.stop == q.stop && r.flight == q.flight && r.posted == q.posted && r.lost == q.lost && r.out == q.out
    ensures NoneDue(r, now) && Pending(r)
    decreases |q.delayed|
  {
    if CanMove(q, now) {
      var p := Moved(q, now);
      StepPending(q, Move(now));
      MoveDueFrame(p, now, r);
    } else {
      forall x | x in q.delayed ensures now < TriggerOf(x) {
        var i :| 0 <= i < |q.delayed| && q.delayed[i] == x;
        assert i > 0 ==> Before(q.delayed[0], q.delayed[i]);
      }
    }
  }

  lemma {:induction false} PullAllFrame(q: Queue, t: Taken)
    requires t == PullAll(q)
    ensures t.q.stop == q.stop && t.q.flight == q.flight && t.q.posted == q.posted && t.q.delayed == q.delayed
    ensures t.got.None? ==> t.q.list == []
    decreases |q.list|
  {
    if PullResult(q).Skipped? { PullAllFrame(Pulled(q), t); }
  }

  lemma GetNowFrame(q: Queue, now: nat, t: Taken)
    requires t == GetNow(q, now) && Pending(q)
    ensures t.q.stop == q.stop && t.q.flight == q.flight && t.q.posted == q.posted
  {
    if q.peek.None? {
      MoveDueFrame(q, now, MoveDue(q, now));
      PullAllFrame(MoveDue(q, now), t);
    }
  }

  // ---- a stopped queue ---------------------------------------------------------------------------

  /** On a stopped queue nothing starts any more, and what is in flight can only land. */
  ghost predicate Winding(q: Queue, r: Queue) {
    r.stop && r.flight <= q.flight
  }

  lemma PerformedWinds(q: Queue, op: Op)
    requires q.stop && Pending(q) && !op.OpRestart?
    ensures Winding(q, Performed(q, op)) && Pending(Performed(q, op))
  {
    PerformedPath(q, op);
    PathPending(q, Performed(q, op), true);
    match op
    case OpGet(now) => GetNowFrame(q, now, GetNow(q, now));
    case OpPeek(now) => GetNowFrame(q, now, GetNow(q, now));
    case _ =>
  }

  lemma {:induction false} InterferedWinds(q: Queue, ops: seq<Op>, gap: bool)
    requires q.stop && Pending(q) && NoRestart(ops)
    ensures Winding(q, Interfered(q, ops, gap)) && Pending(Interfered(q, ops, gap))
    decreases |ops|
  {
    if ops != [] {
      var p := if gap && !Foreign(ops[0]) then q else Performed(q, ops[0]);
      assert !ops[0].OpRestart?;
      PerformedWinds(q, ops[0]);
      assert NoRestart(ops[1..]);
      InterferedWinds(p, ops[1..], gap);
    }
  }

  /** While nothing in flight is due, other threads make nothing ready. */
  lemma CalmStep(q: Queue, op: Op, now: nat)
    requires q.stop && Calm(q, now) && NoneDue(q, now) && Foreign(op) && !op.OpRestart?
    ensures NoneDue(Performed(q, op), now) && (q.list == [] ==> Performed(q, op).list == [])
  {
    var r := Performed(q, op);
    forall x | x in r.delayed ensures now < TriggerOf(x) {
      match op
      case OpPush(p) => if p in q.flight { PushElements(q, p, x); }
      case OpClear(handler, id) => KeepElements(q.delayed, handler, id, x);
      case _ =>
    }
  }

  lemma {:induction false} CalmGap(q: Queue, ops: seq<Op>, now: nat)
    requires q.stop && Pending(q) && Calm(q, now) && NoneDue(q, now) && NoRestart(ops)
    ensures NoneDue(Interfered(q, ops, true), now)
    ensures q.list == [] ==> Interfered(q, ops, true).list == []
    decreases |ops|
  {
    if ops != [] {
      var p := if Foreign(ops[0]) then Performed(q, ops[0]) else q;
      assert !ops[0].OpRestart? && NoRestart(ops[1..]);
      if Foreign(ops[0]) {
        CalmStep(q, ops[0], now);
        PerformedWinds(q, ops[0]);
      }
      CalmGap(p, ops[1..], now);
    }
  }

  lemma CalmInterrupt(q: Queue, env: seq<Pause>, now: nat, r: Queue)
    requires q.stop && Pending(q) && Calm(q, now) && NoneDue(q, now) && NoRestarts(env) && r == Interrupted(q, env, true)
    ensures r.stop && Pending(r) && Calm(r, now) && NoneDue(r, now) && (q.list == [] ==> r.list == [])
  {
    if env != [] {
      CalmGap(q, env[0].ops, now);
      InterferedWinds(q, env[0].ops, true);
    }
  }

  /** A pass over a stopped, calm queue that returns nothing leaves nothing ready. */
  lemma {:induction false} CalmPass(q: Queue, env: seq<Pause>, time: nat, now: nat, s: Scan)
    requires q.stop && Pending(q) && Calm(q, now) && NoneDue(q, now) && NoRestarts(env) && s == Pass(q, env, time)
    ensures s.q.stop && (s.got.None? ==> NothingListed(s.q, now))
    decreases |env|, |q.list|
  {
    match PullResult(q)
    case Got(_) =>
    case Nothing => CalmInterrupt(q, env, now, s.q);
    case Skipped =>
      var p := Interrupted(Pulled(q), env, true);
      CalmInterrupt(Pulled(q), env, now, p);
      CalmPass(p, Rest(env), time + Elapsed(env), now, s);
  }

  lemma LookedWinds(q: Queue, env: seq<Pause>, now: nat, look: Queue)
    requires q.stop && Pending(q) && NoRestarts(env) && look == Looked(q, env, now)
    ensures Winding(q, look) && Pending(look) && NoneDue(look, now)
  {
    if env != [] { InterferedWinds(q, env[0].ops, false); }
    MoveDueFrame(Interrupted(q, env, false), now, look);
  }

  /** The promise, for a queue that is stopped before the call: unless it is restarted, a post in flight is due, or a
      handler leaves a message peeked, Get returns a message, or nothing is ready. */
  lemma QuitDelivers(q: Queue, cmsWait: Option<nat>, msStart: nat, env: seq<Pause>, e: GetEnd)
    requires Pending(q) && q.stop && Calm(q, msStart) && NoRestarts(env) && e == Get(q, cmsWait, msStart, env)
    ensures e.got.Some? <==> e.why.Returned?
    ensures e.got.None? ==> e.why.Stopped? && e.asOf == msStart && NothingListed(e.q, msStart)
    ensures e.got.None? && TakesBack(env) ==> NothingReady(e.q, msStart)
  {
    if q.peek.None? {
      var look := Looked(q, env, msStart);
      var s := Pass(look, Rest(env), msStart + Elapsed(env));
      LookedWinds(q, env, msStart, look);
      CalmPass(look, Rest(env), msStart + Elapsed(env), msStart, s);
      if TakesBack(env) { GetEmpty(q, cmsWait, msStart, env, e); }
    }
  }

  // ---- what a Get has seen that returns nothing --------------------------------------------------

  /** What is pending was so before, or is new. */
  ghost predicate OnlyNew(q0: Queue, q1: Queue) {
    && q0.posted <= q1.posted
    && (forall x :: x in q1.list ==> x in q0.list || x.serial >= |q0.posted|)
    && (forall x :: x in q1.delayed ==> x in q0.delayed || x.serial >= |q0.posted|)
  }

  lemma ForeignIsNew(q: Queue, op: Op)
    requires Foreign(op)
    ensures OnlyNew(q, Performed(q, op))
  {
    var r := Performed(q, op);
    forall x | x in r.list ensures x in q.list || x.serial >= |q.posted| {
      match op
      case OpPush(p) => if p in q.flight { PushElements(q, p, x); }
      case OpClear(handler, id) => KeepElements(q.list, handler, id, x);
      case _ =>
    }
    forall x | x in r.delayed ensures x in q.delayed || x.serial >= |q.posted| {
      match op
      case OpPush(p) => if p in q.flight { PushElements(q, p, x); }
      case OpClear(handler, id) => KeepElements(q.delayed, handler, id, x);
      case _ =>
    }
  }

  lemma NewAgain(q0: Queue, q1: Queue, q2: Queue)
    requires OnlyNew(q0, q1) && OnlyNew(q1, q2)
    ensures OnlyNew(q0, q2)
  {
  }

  lemma {:induction false} GapIsNew(q: Queue, ops: seq<Op>)
    ensures OnlyNew(q, Interfered(q, ops, true))
    decreases |ops|
  {
    if ops != [] {
      var p := if Foreign(ops[0]) then Performed(q, ops[0]) else q;
      if Foreign(ops[0]) { ForeignIsNew(q, ops[0]); }
      GapIsNew(p, ops[1..]);
      NewAgain(q, p, Interfered(p, ops[1..], true));
    }
  }

  lemma InterruptIsNew(q: Queue, env: seq<Pause>)
    ensures OnlyNew(q, Interrupted(q, env, true))
  {
    if env != [] { GapIsNew(q, env[0].ops); }
  }

  lemma PullIsNew(q: Queue)
    ensures OnlyNew(q, Pulled(q))
  {
  }

  lemma {:induction false} PassSees(q: Queue, env: seq<Pause>, time: nat, s: Scan)
    requires s == Pass(q, env, time) && s.got.None?
    ensures OnlyNew(q, s.seen) && s.seen.list == [] && OnlyNew(s.seen, s.q)
    decreases |env|, |q.list|
  {
    match PullResult(q)
    case Nothing => InterruptIsNew(q, env);
    case Skipped =>
      var p := Pulled(q);
      var r := Interrupted(p, env, true);
      PullIsNew(q);
      InterruptIsNew(p, env);
      NewAgain(q, p, r);
      PassSees(r, Rest(env), time + Elapsed(env), s);
      NewAgain(q, r, s.seen);
  }

  /** What the list holds and what has triggered at a time was accepted from the n-th message on. */
  ghost predicate ListedIsLate(q: Queue, now: nat, n: nat) {
    && (forall x :: x in q.list ==> x.serial >= n)
    && (forall x :: x in q.delayed && TriggerOf(x) <= now ==> x.serial >= n)
  }

  /** So was everything that can be delivered. */
  ghost predicate ReadyIsLate(q: Queue, now: nat, n: nat) {
    q.peek.None? && ListedIsLate(q, now, n)
  }

  /** What a look that ended without a message says. */
  ghost predicate Saw(look: Queue, seen: Queue, now: nat) {
    NoneDue(look, now) && OnlyNew(look, seen) && NothingOld(seen, now, |look.posted|)
  }

  /** At the last look at the list it was empty, and what had triggered by then was accepted behind the look at the
      delayed messages. */
  ghost predicate NothingOld(seen: Queue, now: nat, n: nat) {
    seen.list == [] && ListedIsLate(seen, now, n)
  }

  lemma LookSees(q: Queue, env: seq<Pause>, now: nat, look: Queue, s: Scan)
    requires Pending(q) && look == Looked(q, env, now) && s == Pass(look, Rest(env), now + Elapsed(env)) && s.got.None?
    ensures Saw(look, s.seen, now) && OnlyNew(s.seen, s.q)
  {
    var p := Interrupted(q, env, false);
    InterruptedPath(q, env, false);
    PathPending(q, p, true);
    MoveDueFrame(p, now, look);
    PassSees(look, Rest(env), now + Elapsed(env), s);
  }

  lemma RoundSees(q: Queue, cmsWait: Option<nat>, env: seq<Pause>, msStart: nat, now: nat, r: RoundEnd)
    requires Pending(q) && r == Round(q, cmsWait, env, msStart, now)
    ensures r.Done? && r.end.got.None? ==>
      Saw(r.end.look, r.end.seen, now) && r.end.asOf == now
      && (r.end.why.Stopped? ==> r.end.q.stop && OnlyNew(r.end.seen, r.end.q))
  {
    var look := Looked(q, env, now);
    var s := Pass(look, Rest(env), now + Elapsed(env));
    assert r == Decide(look, s, cmsWait, msStart, now);
    if s.got.None? { LookSees(q, env, now, look, s); }
  }

  lemma RoundPending(q: Queue, cmsWait: Option<nat>, env: seq<Pause>, msStart: nat, now: nat, r: RoundEnd)
    requires Pending(q) && r == Round(q, cmsWait, env, msStart, now)
    ensures Pending(EndOf(r))
  {
    RoundPath(q, cmsWait, env, msStart, now, r);
    PathPending(q, EndOf(r), !(r.Done? && PassesSlot(r.end)));
  }

  lemma {:induction false} RoundsSee(q: Queue, cmsWait: Option<nat>, env: seq<Pause>, msStart: nat, now: nat, e: GetEnd)
    requires Pending(q) && e == Rounds(q, cmsWait, env, msStart, now) && e.got.None?
    ensures Saw(e.look, e.seen, e.asOf) && (e.why.Stopped? ==> e.q.stop && OnlyNew(e.seen, e.q))
    decreases |env|
  {
    var r := Round(q, cmsWait, env, msStart, now);
    RoundSees(q, cmsWait, env, msStart, now, r);
    if r.Again? {
      RoundPending(q, cmsWait, env, msStart, now, r);
      RoundsSee(r.q, cmsWait, r.rest, msStart, r.time, e);
    }
  }

  /** A Get that returns nothing has looked at the list and found nothing; and if it gave up for fStop_, whatever the
      list holds or has triggered got into the queue behind that look. If every handler takes back what it peeks,
      nothing else can be delivered. */
  lemma GetSees(q: Queue, cmsWait: Option<nat>, msStart: nat, env: seq<Pause>, e: GetEnd)
    requires Pending(q) && e == Get(q, cmsWait, msStart, env) && e.got.None?
    ensures Saw(e.look, e.seen, e.asOf)
    ensures e.why.Stopped? ==> e.q.stop && ListedIsLate(e.q, e.asOf, |e.look.posted|)
    ensures TakesBack(env) ==> e.seen.peek.None? && (e.why.Stopped? ==> ReadyIsLate(e.q, e.asOf, |e.look.posted|))
  {
    RoundsSee(q, cmsWait, env, msStart, msStart, e);
    if TakesBack(env) { GetEmpty(q, cmsWait, msStart, env, e); }
  }

  // ---- the end of the wait -----------------------------------------------------------------------

  function TotalElapsed(env: seq<Pause>): nat {
    if env == [] then 0 else env[0].elapsed + TotalElapsed(env[1..])
  }

  /** How much of a script a call has used. */
  ghost predicate Used(env: seq<Pause>, rest: seq<Pause>) {
    |rest| <= |env| && rest == env[|env| - |rest|..]
  }

  lemma UsedMore(env: seq<Pause>, mid: seq<Pause>, rest: seq<Pause>)
    requires Used(env, mid) && Used(mid, rest)
    ensures Used(env, rest)
  {
  }

  lemma {:induction false} PassTime(q: Queue, env: seq<Pause>, time: nat, s: Scan)
    requires s == Pass(q, env, time)
    ensures Used(env, s.rest) && s.time + TotalElapsed(s.rest) == time + TotalElapsed(env)
    decreases |env|, |q.list|
  {
    if PullResult(q).Skipped? {
      PassTime(Interrupted(Pulled(q), env, true), Rest(env), time + Elapsed(env), s);
      UsedMore(env, Rest(env), s.rest);
    }
  }

  /** The wait of a round failed in the script, or the script is over. */
  ghost predicate Failed(env: seq<Pause>, rest: seq<Pause>) {
    Used(env, rest) && (rest == [] || (|rest| < |env| && !env[|env| - |rest| - 1].ok))
  }

  lemma DecideTime(look: Queue, s: Scan, cmsWait: Option<nat>, msStart: nat, now: nat, r: RoundEnd)
    requires r == Decide(look, s, cmsWait, msStart, now)
    ensures r.Again? ==> Used(s.rest, r.rest) && r.time + TotalElapsed(r.rest) == s.time + TotalElapsed(s.rest)
    ensures r.Done? && r.end.why.TimedOut? ==>
      cmsWait.Some? && s.time + TotalElapsed(s.rest) >= msStart + cmsWait.value + TotalElapsed(r.end.rest)
    ensures r.Done? && r.end.why.WaitFailed? ==> Failed(s.rest, r.end.rest)
  {
  }

  lemma {:induction false} RoundTime(q: Queue, cmsWait: Option<nat>, env: seq<Pause>, msStart: nat, now: nat, r: RoundEnd)
    requires r == Round(q, cmsWait, env, msStart, now)
    ensures r.Again? ==> Used(env, r.rest) && r.time + TotalElapsed(r.rest) == now + TotalElapsed(env)
    ensures r.Done? && r.end.why.TimedOut? ==>
      cmsWait.Some? && now + TotalElapsed(env) >= msStart + cmsWait.value + TotalElapsed(r.end.rest)
    ensures r.Done? && r.end.why.WaitFailed? ==> Failed(env, r.end.rest)
  {
    var look := Looked(q, env, now);
    var s := Pass(look, Rest(env), now + Elapsed(env));
    PassTime(look, Rest(env), now + Elapsed(env), s);
    UsedMore(env, Rest(env), s.rest);
    DecideTime(look, s, cmsWait, msStart, now, r);
    if r.Again? {
      UsedMore(env, s.rest, r.rest);
    } else if r.end.why.WaitFailed? {
      FailedMore(env, s.rest, r.end.rest);
    }
  }

  lemma {:induction false} RoundsTime(q: Queue, cmsWait: Option<nat>, env: seq<Pause>, msStart: nat, now: nat, e: GetEnd)
    requires e == Rounds(q, cmsWait, env, msStart, now)
    ensures e.why.TimedOut? ==>
      cmsWait.Some? && now + TotalElapsed(env) >= msStart + cmsWait.value + TotalElapsed(e.rest)
    ensures e.why.WaitFailed? ==> Failed(env, e.rest)
    decreases |env|
  {
    var r := Round(q, cmsWait, env, msStart, now);
    RoundTime(q, cmsWait, env, msStart, now, r);
    if r.Again? {
      RoundsTime(r.q, cmsWait, r.rest, msStart, r.time, e);
      if e.why.WaitFailed? { FailedMore(env, r.rest, e.rest); }
    }
  }

  lemma FailedMore(env: seq<Pause>, mid: seq<Pause>, rest: seq<Pause>)
    requires Used(env, mid) && Failed(mid, rest)
    ensures Failed(env, rest)
  {
    UsedMore(env, mid, rest);
  }

  /** A Get times out only when the time it was given has passed, and fails otherwise only with Wait. */
  lemma GetTakesItsTime(q: Queue, cmsWait: Option<nat>, msStart: nat, env: seq<Pause>, e: GetEnd)
    requires e == Get(q, cmsWait, msStart, env)
    ensures e.why.TimedOut? ==> cmsWait.Some? && TotalElapsed(env) >= cmsWait.value + TotalElapsed(e.rest)
    ensures e.why.WaitFailed? ==> Failed(env, e.rest)
  {
    if q.peek.None? { RoundsTime(q, cmsWait, env, msStart, msStart, e); }
  }

  /** Which way a round goes on: it returns a message, gives up for fStop_, ends because Wait failed, because the time
      the caller gave has passed, or is followed by another one. */
  lemma DecideIff(look: Queue, s: Scan, cmsWait: Option<nat>, msStart: nat, now: nat, r: RoundEnd)
    requires r == Decide(look, s, cmsWait, msStart, now)
    ensures r.Done? && r.end.why.Returned? <==> s.got.Some?
    ensures r.Done? && r.end.why.Stopped? <==> s.got.None? && s.q.stop
    ensures r.Done? && r.end.why.WaitFailed? <==> s.got.None? && !s.q.stop && (s.rest == [] || !s.rest[0].ok)
    ensures r.Done? && r.end.why.TimedOut? <==>
      s.got.None? && !s.q.stop && s.rest != [] && s.rest[0].ok
      && cmsWait.Some? && msStart + cmsWait.value <= s.time + s.rest[0].elapsed
  {
  }

  /** Once the time is over a Get does not look again: its last look was its first one, or came before. */
  lemma {:induction false} RoundsEndInTime(q: Queue, cmsWait: Option<nat>, env: seq<Pause>, msStart: nat, now: nat, e: GetEnd)
    requires e == Rounds(q, cmsWait, env, msStart, now) && cmsWait.Some?
    requires now == msStart || now < msStart + cmsWait.value
    ensures e.asOf == msStart || e.asOf < msStart + cmsWait.value
    decreases |env|
  {
    var look := Looked(q, env, now);
    var s := Pass(look, Rest(env), now + Elapsed(env));
    var r := Decide(look, s, cmsWait, msStart, now);
    assert r == Round(q, cmsWait, env, msStart, now);
    DecideIff(look, s, cmsWait, msStart, now, r);
    if r.Again? { RoundsEndInTime(r.q, cmsWait, r.rest, msStart, r.time, e); }
  }

  lemma GetEndsInTime(q: Queue, cmsWait: Option<nat>, msStart: nat, env: seq<Pause>, e: GetEnd)
    requires e == Get(q, cmsWait, msStart, env) && cmsWait.Some?
    ensures e.asOf == msStart || e.asOf < msStart + cmsWait.value
  {
    if q.peek.None? { RoundsEndInTime(q, cmsWait, env, msStart, msStart, e); }
  }

  // ---- exactly when the promise holds ------------------------------------------------------------

  /** A call that returns false on a quitting queue leaves nothing ready. */
  ghost predicate Promised(e: GetEnd) {
    e.got.None? && e.q.stop ==> NothingReady(e.q, e.asOf)
  }

  lemma OneOp(q: Queue, op: Op, gap: bool)
    ensures Interfered(q, [op], gap) == if gap && !Foreign(op) then q else Performed(q, op)
  {
    assert [op][1..] == [];
  }

  /** Nothing is ready when Get looks, and what happens before it tests fStop_ makes it give up. */
  lemma GivesUp(q: Queue, cmsWait: Option<nat>, now: nat, first: Pause, last: Pause, q1: Queue, q2: Queue, e: GetEnd)
    requires q.peek.None? && q1 == Interfered(q, first.ops, false) && NothingReady(q1, now)
    requires q2 == Interfered(q1, last.ops, true) && q2.stop
    requires e == Get(q, cmsWait, now, [first] + [last])
    ensures e.why.Stopped? && e.got.None? && e.q == q2 && e.asOf == now
  {
    var env := [first] + [last];
    assert Rest(env) == [last];
    assert !CanMove(q1, now) by {
      if q1.delayed != [] { assert q1.delayed[0] in q1.delayed; }
    }
    assert Looked(q, env, now) == q1;
  }

  /** The race: a post passes its test, the queue quits, Get looks and finds nothing, the post gets into the queue,
      and Get returns false. The queue was stopped before the call and is not restarted. */
  lemma LatePush(q: Queue, p: Posting, cmsWait: Option<nat>, now: nat, first: Pause, last: Pause, e: GetEnd)
    requires q.stop && NothingReady(q, now) && p in q.flight && Due(p, now)
    requires first.ops == [] && last.ops == [OpPush(p)] && e == Get(q, cmsWait, now, [first] + [last])
    ensures NoRestarts([first] + [last]) && TakesBack([first] + [last])
    ensures e.got.None? && e.q == Pushed(q, p) && !NothingReady(e.q, now)
  {
    OneOp(q, OpPush(p), true);
    NoPeekEndsEmpty(first.ops);
    NoPeekEndsEmpty(last.ops);
    GivesUp(q, cmsWait, now, first, last, q, Pushed(q, p), e);
    PushIsReady(q, p, now);
  }

  lemma PushIsReady(q: Queue, p: Posting, now: nat)
    requires p in q.flight && Due(p, now)
    ensures !NothingReady(Pushed(q, p), now)
  {
    PushElements(q, p, NewItem(q, p));
  }

  lemma {:induction false} KeepNothing(s: seq<Item>)
    ensures Keep(s, None, MQID_ANY) == []
  {
    if s != [] { KeepNothing(s[..|s| - 1]); }
  }

  /** A handler that clears the queue, and then a due post in flight. */
  lemma FlightBreaks(q: Queue, p: Posting, cmsWait: Option<nat>, now: nat) returns (env: seq<Pause>)
    requires q.peek.None? && q.stop && p in q.flight && Due(p, now)
    ensures NoRestarts(env) && TakesBack(env) && !Promised(Get(q, cmsWait, now, env))
  {
    var q1 := Cleared(q, None, MQID_ANY);
    var first, last := Pause([OpClear(None, MQID_ANY)], 0, true), Pause([OpPush(p)], 0, true);
    KeepNothing(q.list);
    KeepNothing(q.delayed);
    OneOp(q, OpClear(None, MQID_ANY), false);
    OneOp(q1, OpPush(p), true);
    PushIsReady(q1, p, now);
    env := [first] + [last];
    NoPeekEndsEmpty(first.ops);
    NoPeekEndsEmpty(last.ops);
    GivesUp(q, cmsWait, now, first, last, q1, Pushed(q1, p), Get(q, cmsWait, now, env));
  }

  lemma FirstOp(q: Queue, op: Op, ops: seq<Op>, gap: bool)
    requires gap ==> Foreign(op)
    ensures Interfered(q, [op] + ops, gap) == Interfered(Performed(q, op), ops, gap)
  {
    assert ([op] + ops)[1..] == ops;
  }

  lemma ThreeOps(q: Queue, a: Op, b: Op, c: Op, q1: Queue, q2: Queue, gap: bool)
    requires Foreign(a) && Foreign(b) && Foreign(c) && q1 == Performed(q, a) && q2 == Performed(q1, b)
    ensures Interfered(q, [a] + ([b] + [c]), gap) == Performed(q2, c)
  {
    FirstOp(q, a, [b] + [c], gap);
    FirstOp(q1, b, [c], gap);
    OneOp(q2, c, gap);
  }

  lemma PostAndQuit(q: Queue, p: Posting, now: nat, ops: seq<Op>, r: Queue)
    requires !q.stop && Due(p, now) && ops == [OpTest(p)] + ([OpPush(p)] + [OpQuit])
    requires r == Apply(Pushed(Entered(q, p), p), Quit)
    ensures Interfered(q, ops, true) == r && r.stop && !NothingReady(r, now)
  {
    var q1 := Entered(q, p);
    ThreeOps(q, OpTest(p), OpPush(p), OpQuit, q1, Pushed(q1, p), true);
    PushIsReady(q1, p, now);
  }

  /** The same on a queue that quits during the call: the post may even start behind the look. */
  lemma QuitBreaks(q: Queue, p: Posting, cmsWait: Option<nat>, now: nat) returns (env: seq<Pause>)
    requires q.peek.None? && !q.stop && Due(p, now)
    ensures NoRestarts(env) && TakesBack(env) && !Promised(Get(q, cmsWait, now, env))
  {
    var q1 := Cleared(q, None, MQID_ANY);
    var q2, ops := Apply(Pushed(Entered(q1, p), p), Quit), [OpTest(p)] + ([OpPush(p)] + [OpQuit]);
    var first, last := Pause([OpClear(None, MQID_ANY)], 0, true), Pause(ops, 0, true);
    KeepNothing(q.list);
    KeepNothing(q.delayed);
    OneOp(q, OpClear(None, MQID_ANY), false);
    PostAndQuit(q1, p, now, ops, q2);
    env := [first] + [last];
    NoPeekEndsEmpty(first.ops);
    NoPeekEndsEmpty(last.ops);
    GivesUp(q, cmsWait, now, first, last, q1, q2, Get(q, cmsWait, now, env));
  }

  /** The promise holds, whatever happens during the call short of a Restart and of a message left peeked, exactly for
      a queue that has a peeked message, or is stopped before the call with no due post in flight. */
  lemma {:induction false} QuitPromiseIff(q: Queue, cmsWait: Option<nat>, msStart: nat)
    requires Pending(q)
    ensures (forall env :: NoRestarts(env) && TakesBack(env) ==> Promised(Get(q, cmsWait, msStart, env)))
      <==> (q.peek.Some? || (q.stop && Calm(q, msStart)))
  {
    if q.peek.None? {
      if q.stop && Calm(q, msStart) {
        forall env | NoRestarts(env) && TakesBack(env) ensures Promised(Get(q, cmsWait, msStart, env)) {
          QuitDelivers(q, cmsWait, msStart, env, Get(q, cmsWait, msStart, env));
        }
      } else if q.stop {
        var p :| p in q.flight && Due(p, msStart);
        var env := FlightBreaks(q, p, cmsWait, msStart);
      } else {
        var env := QuitBreaks(q, Posting(Message(None, 0, 0), None), cmsWait, msStart);
      }
    }
  }

  /** And so for Peek: one that returns nothing is a Get that returns nothing. */
  lemma {:induction false} PeekPromiseIff(q: Queue, cmsWait: Option<nat>, msStart: nat)
    requires Pending(q)
    ensures (forall env :: NoRestarts(env) && TakesBack(env) ==> Promised(Peek(q, cmsWait, msStart, env)))
      <==> (q.peek.Some? || (q.stop && Calm(q, msStart)))
  {
    QuitPromiseIff(q, cmsWait, msStart);
    forall env ensures Promised(Peek(q, cmsWait, msStart, env)) <==> Promised(Get(q, cmsWait, msStart, env)) {
      PeekIsGet(q, cmsWait, msStart, env);
    }
  }

  lemma PeekIsGet(q: Queue, cmsWait: Option<nat>, msStart: nat, env: seq<Pause>)
    ensures var e, g := Peek(q, cmsWait, msStart, env), Get(q, cmsWait, msStart, env);
      e.got == g.got && e.why == g.why && e.asOf == g.asOf && (e.got.None? ==> e == g)
  {
  }

  // ---- what a caller is promised -----------------------------------------------------------------

  /** A queue in order, with nothing wrong in it. */
  ghost predicate Sound(q: Queue) {
    Inv(q) && LineInOrder(q)
  }

  lemma {:induction false} GetPromises(q: Queue, cmsWait: Option<nat>, msStart: nat, env: seq<Pause>, e: GetEnd)
    requires Pending(q) && e == Get(q, cmsWait, msStart, env)
    ensures q.stop && Calm(q, msStart) && NoRestarts(env) && e.got.None? ==> e.why.Stopped? && NothingListed(e.q, msStart)
    ensures e.got.None? ==> Saw(e.look, e.seen, e.asOf)
    ensures Sound(q) && !PassesSlot(e) ==> Sound(e.q) && e.q.lost == q.lost
    ensures TakesBack(env) ==> e.q.peek.None?
  {
    if q.stop && Calm(q, msStart) && NoRestarts(env) { QuitDelivers(q, cmsWait, msStart, env, e); }
    if e.got.None? { GetSees(q, cmsWait, msStart, env, e); }
    GetPath(q, cmsWait, msStart, env, e);
    if Inv(q) { PathInv(q, e.q, !PassesSlot(e)); }
    if TakesBack(env) { GetEmpty(q, cmsWait, msStart, env, e); }
  }

  lemma {:induction false} PeekPromises(q: Queue, cmsWait: Option<nat>, msStart: nat, env: seq<Pause>, e: GetEnd)
    requires Pending(q) && e == Peek(q, cmsWait, msStart, env)
    ensures q.stop && Calm(q, msStart) && NoRestarts(env) && e.got.None? ==> e.why.Stopped? && NothingListed(e.q, msStart)
    ensures e.got.None? ==> Saw(e.look, e.seen, e.asOf) && (TakesBack(env) ==> e.q.peek.None?)
    ensures e.got.Some? ==> e.q.peek == e.got
    ensures Sound(q) && TakesBack(env) ==> Sound(e.q) && e.q.lost == q.lost
  {
    var g := Get(q, cmsWait, msStart, env);
    PeekIsGet(q, cmsWait, msStart, env);
    if q.peek.None? {
      GetPromises(q, cmsWait, msStart, env, g);
      GetHandsOut(q, cmsWait, msStart, env, g);
    }
    PeekPath(q, cmsWait, msStart, env, e);
    if Inv(q) { PathInv(q, e.q, q.peek.Some? || !PassesSlot(g)); }
  }
}
