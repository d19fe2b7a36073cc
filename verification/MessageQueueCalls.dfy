/** The calls of vzsdk::MessageQueue as functions on the state of the machine: what Get and Peek do to a queue
    when a script says what other code does to it meanwhile. */
module MessageQueueCalls {
  import opened Bytes
  import opened MessageQueueSpec

  /** What other code does to the queue while a Get is outside its critical section. A post of another thread can
      test fStop_ in one interruption and push in a later one. */
  datatype Op =
    | OpTest(p: Posting)
    | OpPush(p: Posting)
    | OpClear(handler: Option<Handler>, id: nat)
    | OpQuit
    | OpRestart
    | OpGet(now: nat)     // a nested Get that does not wait
    | OpPeek(now: nat)

  /** What other threads can do; the rest needs the thread of the queue itself. */
  predicate Foreign(op: Op) { !op.OpGet? && !op.OpPeek? }

  /** One interruption: what happens meanwhile, how much time passes, and what Wait returns. */
  datatype Pause = Pause(ops: seq<Op>, elapsed: nat, ok: bool)

  /** Why Get came back. */
  datatype End = Returned | Stopped | TimedOut | WaitFailed

  // ---- without interruptions ---------------------------------------------------------------------

  /** The first pass of the inner loop: everything that has triggered goes to the list. */
  function MoveDue(q: Queue, now: nat): Queue
    decreases |q.delayed|
  {
    if CanMove(q, now) then MoveDue(Moved(q, now), now) else q
  }

  datatype Taken = Taken(q: Queue, got: Option<Item>)

  function PullAll(q: Queue): Taken
    decreases |q.list|
  {
    match PullResult(q)
    case Nothing => Taken(q, None)
    case Got(x) => Taken(Pulled(q), Some(x))
    case Skipped => PullAll(Pulled(q))
  }

  function GetNow(q: Queue, now: nat): Taken {
    if q.peek.Some? then Taken(PeekTaken(q), q.peek) else PullAll(MoveDue(q, now))
  }

  function PeekNow(q: Queue, now: nat): Taken {
    if q.peek.Some? then Taken(q, q.peek)
    else
      var g := GetNow(q, now);
      if g.got.Some? then g.(q := PeekKept(g.q)) else g
  }

  // ---- interruptions -----------------------------------------------------------------------------

  function Performed(q: Queue, op: Op): Queue {
    match op
    case OpTest(p) => Entered(q, p)
    case OpPush(p) => Pushed(q, p)
    case OpClear(handler, id) => Cleared(q, handler, id)
    case OpQuit => Apply(q, Quit)
    case OpRestart => Apply(q, Restart)
    case OpGet(now) => GetNow(q, now).q
    case OpPeek(now) => PeekNow(q, now).q
  }

  /** In a gap between two critical sections only other threads act. */
  function Interfered(q: Queue, ops: seq<Op>, gap: bool): Queue
    decreases |ops|
  {
    if ops == [] then q
    else Interfered(if gap && !Foreign(ops[0]) then q else Performed(q, ops[0]), ops[1..], gap)
  }

  /** A script that is over interrupts no more. */
  function Interrupted(q: Queue, env: seq<Pause>, gap: bool): Queue {
    if env == [] then q else Interfered(q, env[0].ops, gap)
  }

  function Elapsed(env: seq<Pause>): nat { if env == [] then 0 else env[0].elapsed }

  function Rest(env: seq<Pause>): seq<Pause> { if env == [] then [] else env[1..] }

  // ---- Get and Peek ------------------------------------------------------------------------------

  /** `seen` is the queue at the last look at the list. */
  datatype Scan = Scan(q: Queue, got: Option<Item>, rest: seq<Pause>, time: nat, seen: Queue)

  /** The inner loop of Get behind the move of what has triggered. It is interrupted behind every dispose message,
      and once more before Get tests fStop_. */
  function Pass(q: Queue, env: seq<Pause>, time: nat): (s: Scan)
    ensures |s.rest| <= |env| && time <= s.time
    decreases |env|, |q.list|
  {
    match PullResult(q)
    case Got(x) => Scan(Pulled(q), Some(x), env, time, q)
    case Nothing => Scan(Interrupted(q, env, true), None, Rest(env), time + Elapsed(env), q)
    case Skipped => Pass(Interrupted(Pulled(q), env, true), Rest(env), time + Elapsed(env))
  }

  /** The queue when a round has handled its sent messages and moved what has triggered. */
  function Looked(q: Queue, env: seq<Pause>, now: nat): Queue {
    MoveDue(Interrupted(q, env, false), now)
  }

  /** How a Get ends, and the rest of its script. Its last look at the delayed messages was at the time asOf; `look`
      and `seen` are the queue then and at the last look at the list. */
  datatype GetEnd =
    GetEnd(q: Queue, got: Option<Item>, why: End, rest: seq<Pause>, asOf: nat, look: Queue, seen: Queue)

  /** What a round of Get comes to: the end of the call, or another round at a time. */
  datatype RoundEnd = Done(end: GetEnd) | Again(q: Queue, rest: seq<Pause>, time: nat)

  /** One round of the outer loop of Get, which was called at msStart: the sent messages, the look at the delayed
      ones, and the inner loop; then the test of fStop_ and the wait. */
  function Round(q: Queue, cmsWait: Option<nat>, env: seq<Pause>, msStart: nat, now: nat): (r: RoundEnd)
    ensures r.Again? ==> |r.rest| < |env|
  {
    var look := Looked(q, env, now);
    Decide(look, Pass(look, Rest(env), now + Elapsed(env)), cmsWait, msStart, now)
  }

  /** The rest of a round behind its inner loop. When the script is over, Wait fails. */
  function Decide(look: Queue, s: Scan, cmsWait: Option<nat>, msStart: nat, now: nat): (r: RoundEnd)
    ensures r.Again? ==> |r.rest| < |s.rest|
  {
    if s.got.Some? then Done(GetEnd(s.q, s.got, Returned, s.rest, now, look, s.seen))
    else if s.q.stop then Done(GetEnd(s.q, None, Stopped, s.rest, now, look, s.seen))
    else
      var q1, time := Interrupted(s.q, s.rest, false), s.time + Elapsed(s.rest);
      if s.rest == [] || !s.rest[0].ok then Done(GetEnd(q1, None, WaitFailed, Rest(s.rest), now, look, s.seen))
      else if cmsWait.Some? && time >= msStart + cmsWait.value then
        Done(GetEnd(q1, None, TimedOut, Rest(s.rest), now, look, s.seen))
      else Again(q1, s.rest[1..], time)
  }

  function Rounds(q: Queue, cmsWait: Option<nat>, env: seq<Pause>, msStart: nat, now: nat): GetEnd
    decreases |env|
  {
    match Round(q, cmsWait, env, msStart, now)
    case Done(end) => end
    case Again(q1, rest, time) => Rounds(q1, cmsWait, rest, msStart, time)
  }

  function Get(q: Queue, cmsWait: Option<nat>, msStart: nat, env: seq<Pause>): GetEnd {
    if q.peek.Some? then GetEnd(PeekTaken(q), q.peek, Returned, env, msStart, q, q)
    else Rounds(q, cmsWait, env, msStart, msStart)
  }

  function Peek(q: Queue, cmsWait: Option<nat>, msStart: nat, env: seq<Pause>): GetEnd {
    if q.peek.Some? then GetEnd(q, q.peek, Returned, env, msStart, q, q)
    else
      var g := Get(q, cmsWait, msStart, env);
      if g.got.Some? then g.(q := PeekKept(g.q)) else g
  }

  // ---- every call is a run of the machine --------------------------------------------------------

  /** The Get hands out a message although a peeked one waits. */
  predicate PassesSlot(e: GetEnd) {
    e.got.Some? && e.q.peek.Some?
  }

  lemma {:induction false} MoveDuePath(q: Queue, now: nat)
    ensures Path(q, MoveDue(q, now), true) && MoveDue(q, now).peek == q.peek
    decreases |q.delayed|
  {
    if CanMove(q, now) {
      var p := Moved(q, now);
      StepPath(q, Move(now), p);
      MoveDuePath(p, now);
      PathTrans(q, p, MoveDue(p, now), true, true);
    } else {
      NoPath(q);
    }
  }

  /** Taking from the list is clean while no peeked message waits, or if nothing is handed out. */
  lemma PullPath(q: Queue)
    ensures Path(q, Pulled(q), q.peek.None? || !PullResult(q).Got?) && Pulled(q).peek == q.peek
  {
    StepPath(q, Pull, Pulled(q));
    PathWeaker(q, Pulled(q), !Overtakes(q, Pull) && !Overwrites(q, Pull), q.peek.None? || !PullResult(q).Got?);
  }

  lemma {:induction false} PullAllPath(q: Queue)
    ensures Path(q, PullAll(q).q, q.peek.None?) && PullAll(q).q.peek == q.peek
    decreases |q.list|
  {
    match PullResult(q)
    case Nothing => NoPath(q); PathWeaker(q, q, true, q.peek.None?);
    case Got(_) => PullPath(q);
    case Skipped =>
      var p := Pulled(q);
      PullPath(q);
      PullAllPath(p);
      PathTrans(q, p, PullAll(p).q, true, q.peek.None?);
  }

  lemma GetNowPath(q: Queue, now: nat)
    ensures Path(q, GetNow(q, now).q, true) && GetNow(q, now).q.peek.None?
  {
    if q.peek.Some? {
      StepPath(q, TakePeek, PeekTaken(q));
    } else {
      var p := MoveDue(q, now);
      MoveDuePath(q, now);
      PullAllPath(p);
      PathTrans(q, p, PullAll(p).q, true, true);
    }
  }

  lemma KeepPath(q: Queue)
    ensures Path(q, PeekKept(q), q.peek.None?)
  {
    StepPath(q, KeepPeek, PeekKept(q));
    PathWeaker(q, PeekKept(q), !Overtakes(q, KeepPeek) && !Overwrites(q, KeepPeek), q.peek.None?);
  }

  lemma PeekNowPath(q: Queue, now: nat)
    ensures Path(q, PeekNow(q, now).q, true)
  {
    if q.peek.Some? {
      NoPath(q);
    } else {
      var g := GetNow(q, now);
      GetNowPath(q, now);
      if g.got.Some? {
        KeepPath(g.q);
        PathTrans(q, g.q, PeekKept(g.q), true, true);
      }
    }
  }

  lemma PerformedPath(q: Queue, op: Op)
    ensures Path(q, Performed(q, op), true)
  {
    match op
    case OpTest(p) => StepPath(q, Enter(p), Performed(q, op));
    case OpPush(p) => StepPath(q, Push(p), Performed(q, op));
    case OpClear(handler, id) => StepPath(q, Clear(handler, id), Performed(q, op));
    case OpQuit => StepPath(q, Quit, Performed(q, op));
    case OpRestart => StepPath(q, Restart, Performed(q, op));
    case OpGet(now) => GetNowPath(q, now);
    case OpPeek(now) => PeekNowPath(q, now);
  }

  lemma {:induction false} InterferedPath(q: Queue, ops: seq<Op>, gap: bool)
    ensures Path(q, Interfered(q, ops, gap), true)
    decreases |ops|
  {
    if ops == [] {
      NoPath(q);
    } else {
      var p := if gap && !Foreign(ops[0]) then q else Performed(q, ops[0]);
      if gap && !Foreign(ops[0]) { NoPath(q); } else { PerformedPath(q, ops[0]); }
      InterferedPath(p, ops[1..], gap);
      PathTrans(q, p, Interfered(p, ops[1..], gap), true, true);
    }
  }

  lemma InterruptedPath(q: Queue, env: seq<Pause>, gap: bool)
    ensures Path(q, Interrupted(q, env, gap), true)
  {
    if env == [] { NoPath(q); } else { InterferedPath(q, env[0].ops, gap); }
  }

  /** A pass is clean unless it hands out a message while a peeked one waits. */
  lemma {:induction false} PassPath(q: Queue, env: seq<Pause>, time: nat, s: Scan)
    requires s == Pass(q, env, time)
    ensures Path(q, s.q, s.got.None? || s.q.peek.None?)
    decreases |env|, |q.list|
  {
    var clean, p := s.got.None? || s.q.peek.None?, Pulled(q);
    var r := Interrupted(p, env, true);
    PullPath(q);
    InterruptedPath(p, env, true);
    match PullResult(q)
    case Got(_) => PathWeaker(q, s.q, q.peek.None? || !PullResult(q).Got?, clean);
    case Nothing => PathWeaker(q, r, true, clean);
    case Skipped =>
      PathTrans(q, p, r, true, true);
      PassPath(r, Rest(env), time + Elapsed(env), s);
      PathTrans(q, r, s.q, true, clean);
  }

  lemma LookedPath(q: Queue, env: seq<Pause>, now: nat)
    ensures Path(q, Looked(q, env, now), true)
  {
    var p := Interrupted(q, env, false);
    InterruptedPath(q, env, false);
    MoveDuePath(p, now);
    PathTrans(q, p, MoveDue(p, now), true, true);
  }

  /** The look and the pass of a round. */
  lemma LookPassPath(q: Queue, env: seq<Pause>, now: nat, look: Queue, rest: seq<Pause>, time: nat, s: Scan)
    requires look == Looked(q, env, now) && s == Pass(look, rest, time)
    ensures Path(q, s.q, s.got.None? || s.q.peek.None?)
  {
    LookedPath(q, env, now);
    PassPath(look, rest, time, s);
    PathTrans(q, look, s.q, true, s.got.None? || s.q.peek.None?);
  }

  function EndOf(r: RoundEnd): Queue { if r.Done? then r.end.q else r.q }

  lemma DecidePath(q: Queue, look: Queue, s: Scan, cmsWait: Option<nat>, msStart: nat, now: nat, r: RoundEnd)
    requires r == Decide(look, s, cmsWait, msStart, now) && Path(q, s.q, s.got.None? || s.q.peek.None?)
    ensures Path(q, EndOf(r), !(r.Done? && PassesSlot(r.end)))
  {
    if s.got.None? {
      InterruptedPath(s.q, s.rest, false);
      PathTrans(q, s.q, Interrupted(s.q, s.rest, false), true, true);
    }
  }

  lemma RoundPath(q: Queue, cmsWait: Option<nat>, env: seq<Pause>, msStart: nat, now: nat, r: RoundEnd)
    requires r == Round(q, cmsWait, env, msStart, now)
    ensures Path(q, EndOf(r), !(r.Done? && PassesSlot(r.end)))
  {
    var look, rest, time := Looked(q, env, now), Rest(env), now + Elapsed(env);
    var s := Pass(look, rest, time);
    LookPassPath(q, env, now, look, rest, time, s);
    DecidePath(q, look, s, cmsWait, msStart, now, r);
  }

  lemma {:induction false} RoundsPath(q: Queue, cmsWait: Option<nat>, env: seq<Pause>, msStart: nat, now: nat, e: GetEnd)
    requires e == Rounds(q, cmsWait, env, msStart, now)
    ensures Path(q, e.q, !PassesSlot(e))
    decreases |env|
  {
    var r := Round(q, cmsWait, env, msStart, now);
    RoundPath(q, cmsWait, env, msStart, now, r);
    if r.Again? {
      RoundsPath(r.q, cmsWait, r.rest, msStart, r.time, e);
      PathTrans(q, r.q, e.q, true, !PassesSlot(e));
    }
  }

  /** Every Get is a run of the machine, and a clean one unless it passes a peeked message. */
  lemma GetPath(q: Queue, cmsWait: Option<nat>, msStart: nat, env: seq<Pause>, e: GetEnd)
    requires e == Get(q, cmsWait, msStart, env)
    ensures Path(q, e.q, !PassesSlot(e))
  {
    if q.peek.Some? { StepPath(q, TakePeek, e.q); } else { RoundsPath(q, cmsWait, env, msStart, msStart, e); }
  }

  /** So is every Peek, unless its Get passes a peeked message. */
  lemma PeekPath(q: Queue, cmsWait: Option<nat>, msStart: nat, env: seq<Pause>, e: GetEnd)
    requires e == Peek(q, cmsWait, msStart, env)
    ensures Path(q, e.q, q.peek.Some? || !PassesSlot(Get(q, cmsWait, msStart, env)))
  {
    if q.peek.Some? {
      NoPath(q);
    } else {
      var g := Get(q, cmsWait, msStart, env);
      GetPath(q, cmsWait, msStart, env, g);
      if g.got.Some? {
        KeepPath(g.q);
        PathTrans(q, g.q, PeekKept(g.q), !PassesSlot(g), g.q.peek.None?);
      }
    }
  }

  // ---- handlers that take back what they peek ----------------------------------------------------

  predicate NoRestart(ops: seq<Op>) {
    forall i :: 0 <= i < |ops| ==> !ops[i].OpRestart?
  }

  predicate NoRestarts(env: seq<Pause>) {
    forall i :: 0 <= i < |env| ==> NoRestart(env[i].ops)
  }

  /** A Get takes a peeked message, and a Clear of everything removes it. */
  predicate Empties(op: Op) {
    op.OpGet? || op == OpClear(None, MQID_ANY)
  }

  /** Behind the last OpPeek there is an operation that empties the slot; `full` says whether it may be full before. */
  predicate EndsEmpty(ops: seq<Op>, full: bool)
    decreases |ops|
  {
    if ops == [] then !full else EndsEmpty(ops[1..], ops[0].OpPeek? || (full && !Empties(ops[0])))
  }

  /** Every interruption empties the slot behind its last peek, if there is one. */
  predicate TakesBack(env: seq<Pause>) {
    forall i :: 0 <= i < |env| ==> EndsEmpty(env[i].ops, false)
  }

  lemma {:induction false} NoPeekEndsEmpty(ops: seq<Op>)
    requires forall i :: 0 <= i < |ops| ==> !ops[i].OpPeek?
    ensures EndsEmpty(ops, false)
    decreases |ops|
  {
    if ops != [] { NoPeekEndsEmpty(ops[1..]); }
  }

  /** Other threads do not fill the slot. */
  lemma {:induction false} GapKeepsEmpty(q: Queue, ops: seq<Op>)
    requires q.peek.None?
    ensures Interfered(q, ops, true).peek.None?
    decreases |ops|
  {
    if ops != [] { GapKeepsEmpty(if Foreign(ops[0]) then Performed(q, ops[0]) else q, ops[1..]); }
  }

  lemma {:induction false} PassKeepsEmpty(q: Queue, env: seq<Pause>, time: nat, s: Scan)
    requires q.peek.None? && s == Pass(q, env, time)
    ensures s.q.peek.None? && s.seen.peek.None?
    decreases |env|, |q.list|
  {
    var p := Pulled(q);
    if env != [] { GapKeepsEmpty(p, env[0].ops); }
    if PullResult(q).Skipped? {
      PassKeepsEmpty(Interrupted(p, env, true), Rest(env), time + Elapsed(env), s);
    }
  }

  lemma PerformedSlot(q: Queue, op: Op)
    ensures Empties(op) || (q.peek.None? && !op.OpPeek?) ==> Performed(q, op).peek.None?
  {
    if op.OpGet? { GetNowPath(q, op.now); }
  }

  lemma {:induction false} InterferedEmpty(q: Queue, ops: seq<Op>, full: bool)
    requires EndsEmpty(ops, full) && (q.peek.Some? ==> full)
    ensures Interfered(q, ops, false).peek.None?
    decreases |ops|
  {
    if ops != [] {
      PerformedSlot(q, ops[0]);
      InterferedEmpty(Performed(q, ops[0]), ops[1..], ops[0].OpPeek? || (full && !Empties(ops[0])));
    }
  }

  lemma InterruptedEmpty(q: Queue, env: seq<Pause>)
    requires q.peek.None? && TakesBack(env)
    ensures Interrupted(q, env, false).peek.None?
  {
    if env != [] { InterferedEmpty(q, env[0].ops, false); }
  }

  lemma LookedEmpty(q: Queue, env: seq<Pause>, now: nat)
    requires q.peek.None? && TakesBack(env)
    ensures Looked(q, env, now).peek.None?
  {
    InterruptedEmpty(q, env);
    MoveDuePath(Interrupted(q, env, false), now);
  }

  lemma {:induction false} PassRest(q: Queue, env: seq<Pause>, time: nat)
    ensures TakesBack(env) ==> TakesBack(Pass(q, env, time).rest)
    decreases |env|, |q.list|
  {
    if PullResult(q).Skipped? {
      PassRest(Interrupted(Pulled(q), env, true), Rest(env), time + Elapsed(env));
    }
  }

  lemma DecideEmpty(look: Queue, s: Scan, cmsWait: Option<nat>, msStart: nat, now: nat, r: RoundEnd)
    requires r == Decide(look, s, cmsWait, msStart, now) && s.q.peek.None? && TakesBack(s.rest)
    ensures EndOf(r).peek.None? && (r.Again? ==> TakesBack(r.rest))
    ensures r.Done? ==> r.end.look == look && r.end.seen == s.seen
  {
    InterruptedEmpty(s.q, s.rest);
  }

  lemma {:induction false} RoundsEmpty(q: Queue, cmsWait: Option<nat>, env: seq<Pause>, msStart: nat, now: nat, e: GetEnd)
    requires e == Rounds(q, cmsWait, env, msStart, now) && q.peek.None? && TakesBack(env)
    ensures e.look.peek.None? && e.seen.peek.None? && e.q.peek.None?
    decreases |env|
  {
    var look, rest, time := Looked(q, env, now), Rest(env), now + Elapsed(env);
    var s := Pass(look, rest, time);
    LookedEmpty(q, env, now);
    PassKeepsEmpty(look, rest, time, s);
    PassRest(look, rest, time);
    var r := Decide(look, s, cmsWait, msStart, now);
    DecideEmpty(look, s, cmsWait, msStart, now, r);
    assert r == Round(q, cmsWait, env, msStart, now);
    if r.Again? { RoundsEmpty(r.q, cmsWait, r.rest, msStart, r.time, e); }
  }

  /** If every handler takes back what it has peeked, no look finds a peeked message. */
  lemma GetEmpty(q: Queue, cmsWait: Option<nat>, msStart: nat, env: seq<Pause>, e: GetEnd)
    requires e == Get(q, cmsWait, msStart, env) && TakesBack(env)
    ensures !PassesSlot(e) && e.q.peek.None?
    ensures e.got.None? ==> e.look.peek.None? && e.seen.peek.None?
  {
    if q.peek.None? { RoundsEmpty(q, cmsWait, env, msStart, msStart, e); }
  }

  // ---- what a call hands out ---------------------------------------------------------------------

  /** The last message handed out. */
  ghost predicate HandedOut(q: Queue, got: Option<Item>) {
    got.Some? ==> q.out != [] && q.out[|q.out| - 1] == got.value
  }

  lemma {:induction false} PassHandsOut(q: Queue, env: seq<Pause>, time: nat, s: Scan)
    requires s == Pass(q, env, time)
    ensures HandedOut(s.q, s.got)
    decreases |env|, |q.list|
  {
    if PullResult(q).Skipped? {
      PassHandsOut(Interrupted(Pulled(q), env, true), Rest(env), time + Elapsed(env), s);
    }
  }

  lemma {:induction false} RoundsHandOut(q: Queue, cmsWait: Option<nat>, env: seq<Pause>, msStart: nat, now: nat, e: GetEnd)
    requires e == Rounds(q, cmsWait, env, msStart, now)
    ensures HandedOut(e.q, e.got)
    decreases |env|
  {
    var look := Looked(q, env, now);
    var s := Pass(look, Rest(env), now + Elapsed(env));
    PassHandsOut(look, Rest(env), now + Elapsed(env), s);
    var r := Decide(look, s, cmsWait, msStart, now);
    assert r == Round(q, cmsWait, env, msStart, now);
    if r.Again? { RoundsHandOut(r.q, cmsWait, r.rest, msStart, r.time, e); }
  }

  lemma GetHandsOut(q: Queue, cmsWait: Option<nat>, msStart: nat, env: seq<Pause>, e: GetEnd)
    requires e == Get(q, cmsWait, msStart, env)
    ensures HandedOut(e.q, e.got)
  {
    if q.peek.None? { RoundsHandOut(q, cmsWait, env, msStart, msStart, e); }
  }
}
