/** Handlers that peek at a queue inside a Get or Peek of the same queue: when the outer call passes the peeked message,
    what is lost then, and what is left of the promise about a queue that quits. */
module MessageQueuePeek {
  import opened Bytes
  import opened MessageQueueSpec
  import opened MessageQueueCalls
  import opened MessageQueueQuit

  // ---- uninterrupted looks -----------------------------------------------------------------------

  /** The messages of a list that can be handed out. */
  function Deliverable(s: seq<Item>): seq<Item> {
    if s == [] then []
    else (if s[0].msg.id == MQID_DISPOSE then [] else [s[0]]) + Deliverable(s[1..])
  }

  lemma {:induction false} SomeDeliverable(s: seq<Item>, x: Item)
    requires x in s && x.msg.id != MQID_DISPOSE
    ensures Deliverable(s) != []
  {
    if s[0] != x { SomeDeliverable(s[1..], x); }
  }

  lemma {:induction false} NoneDeliverable(s: seq<Item>)
    requires forall x :: x in s ==> x.msg.id == MQID_DISPOSE
    ensures Deliverable(s) == []
  {
    if s != [] { NoneDeliverable(s[1..]); }
  }

  /** What an uninterrupted look at the list comes to. */
  lemma {:induction false} PullAllTakes(q: Queue, t: Taken)
    requires t == PullAll(q)
    ensures Deliverable(q.list) == SlotOf(t.got) + Deliverable(t.q.list)
    ensures t.got.None? <==> Deliverable(q.list) == []
    ensures t.q.out == q.out + SlotOf(t.got) && t.q.lost == q.lost && t.q.peek == q.peek && t.q.delayed == q.delayed
    decreases |q.list|
  {
    match PullResult(q)
    case Nothing => assert q.out + [] == q.out && [] + Deliverable([]) == Deliverable([]);
    case Got(_) =>
    case Skipped =>
      PullAllTakes(Pulled(q), t);
      assert [] + Deliverable(q.list[1..]) == Deliverable(q.list[1..]);
  }

  /** A pass without interruptions. */
  lemma {:induction false} PassAlone(q: Queue, time: nat)
    ensures Pass(q, [], time).q == PullAll(q).q && Pass(q, [], time).got == PullAll(q).got
    decreases |q.list|
  {
    if PullResult(q).Skipped? { PassAlone(Pulled(q), time); }
  }

  lemma NothingMoves(q: Queue, now: nat)
    requires NoneDue(q, now)
    ensures MoveDue(q, now) == q
  {
    if q.delayed != [] { assert q.delayed[0] in q.delayed; }
  }

  // ---- nothing is lost inside a Get --------------------------------------------------------------

  lemma {:induction false} MoveDueLoses(q: Queue, now: nat)
    ensures MoveDue(q, now).lost == q.lost && MoveDue(q, now).peek == q.peek
    decreases |q.delayed|
  {
    if CanMove(q, now) { MoveDueLoses(Moved(q, now), now); }
  }

  lemma PerformedLoses(q: Queue, op: Op)
    ensures Performed(q, op).lost == q.lost
  {
    if op.OpGet? || op.OpPeek? {
      var p := MoveDue(q, op.now);
      MoveDueLoses(q, op.now);
      PullAllTakes(p, PullAll(p));
    }
  }

  lemma {:induction false} InterferedLoses(q: Queue, ops: seq<Op>, gap: bool)
    ensures Interfered(q, ops, gap).lost == q.lost
    decreases |ops|
  {
    if ops != [] {
      PerformedLoses(q, ops[0]);
      InterferedLoses(if gap && !Foreign(ops[0]) then q else Performed(q, ops[0]), ops[1..], gap);
    }
  }

  lemma InterruptedLoses(q: Queue, env: seq<Pause>, gap: bool)
    ensures Interrupted(q, env, gap).lost == q.lost
  {
    if env != [] { InterferedLoses(q, env[0].ops, gap); }
  }

  lemma {:induction false} PassLoses(q: Queue, env: seq<Pause>, time: nat, s: Scan)
    requires s == Pass(q, env, time)
    ensures s.q.lost == q.lost
    decreases |env|, |q.list|
  {
    InterruptedLoses(Pulled(q), env, true);
    if PullResult(q).Skipped? {
      PassLoses(Interrupted(Pulled(q), env, true), Rest(env), time + Elapsed(env), s);
    }
  }

  lemma {:induction false} RoundsLose(q: Queue, cmsWait: Option<nat>, env: seq<Pause>, msStart: nat, now: nat, e: GetEnd)
    requires e == Rounds(q, cmsWait, env, msStart, now)
    ensures e.q.lost == q.lost
    decreases |env|
  {
    var look, rest, time := Looked(q, env, now), Rest(env), now + Elapsed(env);
    InterruptedLoses(q, env, false);
    MoveDueLoses(Interrupted(q, env, false), now);
    var s := Pass(look, rest, time);
    PassLoses(look, rest, time, s);
    InterruptedLoses(s.q, s.rest, false);
    var r := Decide(look, s, cmsWait, msStart, now);
    assert r == Round(q, cmsWait, env, msStart, now);
    if r.Again? { RoundsLose(r.q, cmsWait, r.rest, msStart, r.time, e); }
  }

  /** A Peek loses a message exactly if its Get passes a peeked one, and then that one. */
  lemma PeekLosesIff(q: Queue, cmsWait: Option<nat>, msStart: nat, env: seq<Pause>, g: GetEnd, e: GetEnd)
    requires q.peek.None? && g == Get(q, cmsWait, msStart, env) && e == Peek(q, cmsWait, msStart, env)
    ensures g.q.lost == q.lost
    ensures e.q.lost == q.lost + if PassesSlot(g) then [g.q.peek.value] else []
  {
    RoundsLose(q, cmsWait, env, msStart, msStart, g);
    GetHandsOut(q, cmsWait, msStart, env, g);
    assert q.lost + [] == q.lost;
  }

  // ---- exactly when a Get leaves the order -------------------------------------------------------

  /** The queue in front of the step that hands out the message. */
  ghost predicate HandsOutFrom(q: Queue, seen: Queue, after: Queue, got: Option<Item>) {
    Path(q, seen, true) && PullResult(seen).Got? && got == Some(seen.list[0]) && after == Pulled(seen)
  }

  lemma {:induction false} PassSeen(q: Queue, env: seq<Pause>, time: nat, s: Scan)
    requires s == Pass(q, env, time) && s.got.Some?
    ensures HandsOutFrom(q, s.seen, s.q, s.got)
    decreases |env|, |q.list|
  {
    match PullResult(q)
    case Got(_) => NoPath(q);
    case Skipped =>
      var p := Pulled(q);
      var r := Interrupted(p, env, true);
      PullPath(q);
      InterruptedPath(p, env, true);
      PathTrans(q, p, r, true, true);
      PassSeen(r, Rest(env), time + Elapsed(env), s);
      PathTrans(q, r, s.seen, true, true);
  }

  lemma LookSeen(q: Queue, env: seq<Pause>, now: nat, look: Queue, rest: seq<Pause>, time: nat, s: Scan)
    requires look == Looked(q, env, now) && s == Pass(look, rest, time) && s.got.Some?
    ensures HandsOutFrom(q, s.seen, s.q, s.got)
  {
    LookedPath(q, env, now);
    PassSeen(look, rest, time, s);
    PathTrans(q, look, s.seen, true, true);
  }

  lemma RoundSeen(q: Queue, cmsWait: Option<nat>, env: seq<Pause>, msStart: nat, now: nat, r: RoundEnd)
    requires r == Round(q, cmsWait, env, msStart, now) && r.Done? && r.end.got.Some?
    ensures HandsOutFrom(q, r.end.seen, r.end.q, r.end.got)
  {
    var look, rest, time := Looked(q, env, now), Rest(env), now + Elapsed(env);
    var s := Pass(look, rest, time);
    assert r == Decide(look, s, cmsWait, msStart, now);
    LookSeen(q, env, now, look, rest, time, s);
  }

  lemma {:induction false} RoundsSeen(q: Queue, cmsWait: Option<nat>, env: seq<Pause>, msStart: nat, now: nat, e: GetEnd)
    requires e == Rounds(q, cmsWait, env, msStart, now) && e.got.Some?
    ensures HandsOutFrom(q, e.seen, e.q, e.got)
    decreases |env|
  {
    var r := Round(q, cmsWait, env, msStart, now);
    if r.Done? {
      RoundSeen(q, cmsWait, env, msStart, now, r);
    } else {
      RoundPath(q, cmsWait, env, msStart, now, r);
      RoundsSeen(r.q, cmsWait, r.rest, msStart, r.time, e);
      PathTrans(q, r.q, e.seen, true, true);
    }
  }

  /** The message passed over was in front of the one handed out, and is behind it now. */
  lemma Overtaken(seen: Queue, after: Queue, x: Item, y: Item)
    requires seen.peek == Some(x) && PullResult(seen).Got? && seen.list[0] == y && after == Pulled(seen)
    ensures var n := |seen.out|;
      && Line(seen)[n] == x && Line(seen)[n + 1] == y && n + 1 < |Line(after)|
      && Line(after)[n] == y && Line(after)[n + 1] == x
  {
  }

  lemma OvertakenPlain(seen: Queue, after: Queue, x: Item, y: Item)
    requires LineInOrder(seen) && seen.peek == Some(x) && PullResult(seen).Got? && seen.list[0] == y && after == Pulled(seen)
    requires x.trigger.None? && y.trigger.None?
    ensures !LineInOrder(after)
  {
    var n := |seen.out|;
    Overtaken(seen, after, x, y);
    assert InOrder(seen.movedAt, Line(seen)[n], Line(seen)[n + 1]);
    assert !InOrder(after.movedAt, Line(after)[n], Line(after)[n + 1]);
  }

  /** On a sound queue a Get keeps everything in order if it passes no peeked message. If it does, that message was in
      front of the one handed out; if both are plain posts, the order is broken. */
  lemma GetOrderIff(q: Queue, cmsWait: Option<nat>, msStart: nat, env: seq<Pause>, e: GetEnd)
    requires Sound(q) && e == Get(q, cmsWait, msStart, env)
    ensures !PassesSlot(e) ==> Sound(e.q)
    ensures PassesSlot(e) ==> Sound(e.seen) && e.seen.peek == e.q.peek && e.seen.list != [] && e.got == Some(e.seen.list[0])
    ensures PassesSlot(e) && e.q.peek.value.trigger.None? && e.got.value.trigger.None? ==> !LineInOrder(e.q)
  {
    GetPromises(q, cmsWait, msStart, env, e);
    if PassesSlot(e) {
      RoundsSeen(q, cmsWait, env, msStart, msStart, e);
      PathInv(q, e.seen, true);
      if e.q.peek.value.trigger.None? && e.got.value.trigger.None? {
        OvertakenPlain(e.seen, e.q, e.q.peek.value, e.got.value);
      }
    }
  }

  // ---- every peeked message that a look finds can be passed --------------------------------------

  /** Some look of the Get finds a peeked message. */
  predicate FullLook(q: Queue, cmsWait: Option<nat>, env: seq<Pause>, msStart: nat, now: nat)
    decreases |env|
  {
    || Looked(q, env, now).peek.Some?
    || (var r := Round(q, cmsWait, env, msStart, now);
        r.Again? && FullLook(r.q, cmsWait, r.rest, msStart, r.time))
  }

  /** Without such a look no peeked message is passed. */
  lemma {:induction false} NoFullLook(q: Queue, cmsWait: Option<nat>, env: seq<Pause>, msStart: nat, now: nat, e: GetEnd)
    requires e == Rounds(q, cmsWait, env, msStart, now) && !FullLook(q, cmsWait, env, msStart, now)
    ensures !PassesSlot(e)
    decreases |env|
  {
    var look, rest, time := Looked(q, env, now), Rest(env), now + Elapsed(env);
    var s := Pass(look, rest, time);
    PassKeepsEmpty(look, rest, time, s);
    var r := Decide(look, s, cmsWait, msStart, now);
    assert r == Round(q, cmsWait, env, msStart, now);
    if r.Again? { NoFullLook(r.q, cmsWait, r.rest, msStart, r.time, e); }
  }

  /** Another thread posts. */
  function Posts(p: Posting): seq<Op> { [OpRestart] + ([OpTest(p)] + [OpPush(p)]) }

  /** The script up to its k-th interruption, with one more post at the end of that one. */
  function WithPost(env: seq<Pause>, k: nat, p: Posting): seq<Pause>
    requires k <= |env|
  {
    var pause := if k < |env| then env[k] else Pause([], 0, true);
    env[..k] + [pause.(ops := pause.ops + Posts(p))]
  }

  lemma {:induction false} InterferedAppend(q: Queue, a: seq<Op>, b: seq<Op>, gap: bool)
    ensures Interfered(q, a + b, gap) == Interfered(Interfered(q, a, gap), b, gap)
    decreases |a|
  {
    if a == [] {
      assert a + b == b;
    } else {
      assert (a + b)[1..] == a[1..] + b;
      InterferedAppend(if gap && !Foreign(a[0]) then q else Performed(q, a[0]), a[1..], b, gap);
    }
  }

  lemma PostLands(q: Queue, p: Posting, r: Queue)
    requires !q.stop && p.trigger.None? && r == Pushed(Entered(q, p), p)
    ensures r.peek == q.peek && r.list == q.list + [NewItem(q, p)]
  {
    assert p in Entered(q, p).flight;
  }

  lemma PostsAre(q: Queue, p: Posting, open: Queue, r: Queue)
    requires open == Apply(q, Restart) && r == Pushed(Entered(open, p), p)
    ensures Interfered(q, Posts(p), false) == r
  {
    ThreeOps(q, OpRestart, OpTest(p), OpPush(p), open, Entered(open, p), false);
  }

  lemma {:induction false} MoveDueExtends(q: Queue, now: nat)
    ensures q.list <= MoveDue(q, now).list && MoveDue(q, now).peek == q.peek
    decreases |q.delayed|
  {
    if CanMove(q, now) { MoveDueExtends(Moved(q, now), now); }
  }

  /** A look at a queue with a peeked message and another one ready hands that one out. */
  lemma LastLookPasses(q: Queue, cmsWait: Option<nat>, env: seq<Pause>, msStart: nat, now: nat, look: Queue, x: Item, e: GetEnd)
    requires look == Looked(q, env, now) && look.peek.Some? && x in look.list && x.msg.id != MQID_DISPOSE
    requires Rest(env) == [] && e == Rounds(q, cmsWait, env, msStart, now)
    ensures PassesSlot(e)
  {
    SomeDeliverable(look.list, x);
    PullAllTakes(look, PullAll(look));
    PassAlone(look, now + Elapsed(env));
  }

  lemma PostedLook(q: Queue, now: nat, p: Posting, q2: Queue)
    requires q.peek.Some? && p.trigger.None? && q2 == Pushed(Entered(Apply(q, Restart), p), p)
    ensures MoveDue(q2, now).peek.Some? && NewItem(q, p) in MoveDue(q2, now).list
  {
    PostLands(Apply(q, Restart), p, q2);
    MoveDueExtends(q2, now);
    assert q2.list[|q.list|] == NewItem(q, p);
    assert MoveDue(q2, now).list[|q.list|] == NewItem(q, p);
  }

  /** A look that finds a peeked message, and a post in front of it. */
  lemma FullLookPasses(q: Queue, cmsWait: Option<nat>, env: seq<Pause>, msStart: nat, now: nat, p: Posting, broken: seq<Pause>, e: GetEnd)
    requires Looked(q, env, now).peek.Some? && p.trigger.None? && p.msg.id != MQID_DISPOSE
    requires broken == WithPost(env, 0, p) && e == Rounds(q, cmsWait, broken, msStart, now)
    ensures PassesSlot(e)
  {
    var ops: seq<Op> := if env == [] then [] else env[0].ops;
    var q1 := Interfered(q, ops, false);
    var q2 := Pushed(Entered(Apply(q1, Restart), p), p);
    assert env[..0] == [] && broken[0].ops == ops + Posts(p) && Rest(broken) == [];
    InterferedAppend(q, ops, Posts(p), false);
    PostsAre(q1, p, Apply(q1, Restart), q2);
    MoveDueExtends(q1, now);
    PostedLook(q1, now, p, q2);
    LastLookPasses(q, cmsWait, broken, msStart, now, MoveDue(q2, now), NewItem(q1, p), e);
  }

  lemma UsedFirst(used: seq<Pause>, tail: seq<Pause>)
    requires used != []
    ensures used + tail != [] && (used + tail)[0] == used[0] && Rest(used + tail) == used[1..] + tail
    ensures Elapsed(used + tail) == used[0].elapsed
  {
  }

  /** What a pass does depends only on the interruptions it uses. */
  lemma {:induction false} PassPrefix(q: Queue, used: seq<Pause>, rest: seq<Pause>, tail: seq<Pause>, time: nat, s: Scan)
    requires rest != [] && s == Pass(q, used + rest, time) && s.rest == rest
    ensures Pass(q, used + tail, time) == s.(rest := tail)
    decreases |used|
  {
    match PullResult(q)
    case Got(_) => assert used == [] && used + tail == tail;
    case Nothing =>
      UsedFirst(used, rest);
      UsedFirst(used, tail);
      assert used[1..] == [] && [] + tail == tail;
    case Skipped =>
      UsedFirst(used, rest);
      UsedFirst(used, tail);
      PassPrefix(Interfered(Pulled(q), used[0].ops, true), used[1..], rest, tail, time + used[0].elapsed, s);
  }

  lemma DecidePrefix(look: Queue, s: Scan, cmsWait: Option<nat>, msStart: nat, now: nat, r: RoundEnd, wait: seq<Pause>, tail: seq<Pause>)
    requires r == Decide(look, s, cmsWait, msStart, now) && r.Again? && wait == [s.rest[0]]
    ensures Decide(look, s.(rest := wait + tail), cmsWait, msStart, now) == Again(r.q, tail, r.time)
  {
    assert (wait + tail)[0] == s.rest[0] && (wait + tail)[1..] == tail;
  }

  /** The first interruption alone decides what a look finds. */
  lemma LookPrefix(q: Queue, env: seq<Pause>, now: nat, more: seq<Pause>)
    requires env != []
    ensures Looked(q, [env[0]] + more, now) == Looked(q, env, now)
    ensures Elapsed([env[0]] + more) == Elapsed(env) && Rest([env[0]] + more) == more
  {
  }

  lemma RoundIs(q: Queue, cmsWait: Option<nat>, env: seq<Pause>, msStart: nat, now: nat, look: Queue, s: Scan, r: RoundEnd)
    requires look == Looked(q, env, now) && s == Pass(look, Rest(env), now + Elapsed(env))
    requires r == Decide(look, s, cmsWait, msStart, now)
    ensures Round(q, cmsWait, env, msStart, now) == r
  {
  }

  /** A round behind which another one follows, in front of any other script. */
  lemma RoundOver(q: Queue, cmsWait: Option<nat>, env: seq<Pause>, msStart: nat, now: nat, look: Queue, s: Scan, r: RoundEnd,
                  passed: seq<Pause>, tail: seq<Pause>)
    requires env != [] && s.rest != [] && passed + s.rest == Rest(env)
    requires look == Looked(q, env, now) && s == Pass(look, passed + s.rest, now + Elapsed(env))
    requires r == Decide(look, s, cmsWait, msStart, now) && r.Again?
    ensures Round(q, cmsWait, [env[0]] + (passed + ([s.rest[0]] + tail)), msStart, now) == Again(r.q, tail, r.time)
  {
    var wait := [s.rest[0]];
    var more := passed + (wait + tail);
    PassPrefix(look, passed, s.rest, wait + tail, now + Elapsed(env), s);
    LookPrefix(q, env, now, more);
    DecidePrefix(look, s, cmsWait, msStart, now, r, wait, tail);
    RoundIs(q, cmsWait, [env[0]] + more, msStart, now, look, s.(rest := wait + tail), Again(r.q, tail, r.time));
  }

  lemma RoundUses(look: Queue, s: Scan, cmsWait: Option<nat>, env: seq<Pause>, time: nat, msStart: nat, now: nat, r: RoundEnd)
    returns (passed: seq<Pause>)
    requires s == Pass(look, Rest(env), time) && r == Decide(look, s, cmsWait, msStart, now) && r.Again?
    ensures env != [] && s.rest != [] && r.rest == s.rest[1..] && passed + s.rest == Rest(env)
  {
    PassTime(look, Rest(env), time, s);
    passed := Rest(env)[..|Rest(env)| - |s.rest|];
  }

  lemma RoundPrefix(q: Queue, cmsWait: Option<nat>, env: seq<Pause>, msStart: nat, now: nat, r: RoundEnd, tail: seq<Pause>)
    requires r == Round(q, cmsWait, env, msStart, now) && r.Again?
    ensures |r.rest| < |env| && Used(env, r.rest)
    ensures Round(q, cmsWait, env[..|env| - |r.rest|] + tail, msStart, now) == Again(r.q, tail, r.time)
  {
    var look, time := Looked(q, env, now), now + Elapsed(env);
    var s := Pass(look, Rest(env), time);
    assert r == Decide(look, s, cmsWait, msStart, now);
    var passed := RoundUses(look, s, cmsWait, env, time, msStart, now, r);
    RoundOver(q, cmsWait, env, msStart, now, look, s, r, passed, tail);
    UsedSplit(env, s.rest, r.rest, tail, passed);
  }

  lemma UsedSplit(env: seq<Pause>, mid: seq<Pause>, rest: seq<Pause>, tail: seq<Pause>, passed: seq<Pause>)
    requires env != [] && mid != [] && passed + mid == Rest(env) && rest == mid[1..]
    ensures Used(env, rest) && |rest| < |env|
    ensures env[..|env| - |rest|] + tail == [env[0]] + (passed + ([mid[0]] + tail))
  {
    assert env == [env[0]] + (passed + mid) && mid == [mid[0]] + rest;
  }

  lemma WithPostBehind(env: seq<Pause>, rest: seq<Pause>, k: nat, p: Posting)
    requires Used(env, rest) && k <= |rest|
    ensures env[..|env| - |rest|] + WithPost(rest, k, p) == WithPost(env, |env| - |rest| + k, p)
  {
    var n := |env| - |rest|;
    assert env[..n] + rest[..k] == env[..n + k];
    if k < |rest| { assert rest[k] == env[n + k]; }
  }

  lemma RoundsAgain(q: Queue, cmsWait: Option<nat>, env: seq<Pause>, msStart: nat, now: nat, q1: Queue, rest: seq<Pause>, time: nat)
    requires Round(q, cmsWait, env, msStart, now) == Again(q1, rest, time)
    ensures Rounds(q, cmsWait, env, msStart, now) == Rounds(q1, cmsWait, rest, msStart, time)
  {
  }

  lemma RoundsPassOn(q: Queue, cmsWait: Option<nat>, env: seq<Pause>, msStart: nat, now: nat, r: RoundEnd, p: Posting,
                     j: nat, tail: seq<Pause>)
    returns (k: nat, broken: seq<Pause>)
    requires r == Round(q, cmsWait, env, msStart, now) && r.Again?
    requires j <= |r.rest| && tail == WithPost(r.rest, j, p) && PassesSlot(Rounds(r.q, cmsWait, tail, msStart, r.time))
    ensures k <= |env| && broken == WithPost(env, k, p) && PassesSlot(Rounds(q, cmsWait, broken, msStart, now))
  {
    var used := |env| - |r.rest|;
    RoundPrefix(q, cmsWait, env, msStart, now, r, tail);
    WithPostBehind(env, r.rest, j, p);
    k, broken := used + j, env[..used] + tail;
    RoundsAgain(q, cmsWait, broken, msStart, now, r.q, tail, r.time);
  }

  lemma {:induction false} RoundsPass(q: Queue, cmsWait: Option<nat>, env: seq<Pause>, msStart: nat, now: nat, p: Posting)
    returns (k: nat, broken: seq<Pause>)
    requires FullLook(q, cmsWait, env, msStart, now) && p.trigger.None? && p.msg.id != MQID_DISPOSE
    ensures k <= |env| && broken == WithPost(env, k, p) && PassesSlot(Rounds(q, cmsWait, broken, msStart, now))
    decreases |env|
  {
    if Looked(q, env, now).peek.Some? {
      k, broken := 0, WithPost(env, 0, p);
      FullLookPasses(q, cmsWait, env, msStart, now, p, broken, Rounds(q, cmsWait, broken, msStart, now));
    } else {
      var r := Round(q, cmsWait, env, msStart, now);
      var j, tail := RoundsPass(r.q, cmsWait, r.rest, msStart, r.time, p);
      k, broken := RoundsPassOn(q, cmsWait, env, msStart, now, r, p, j, tail);
    }
  }

  /** Exactly the scripts in which a look finds a peeked message are dangerous. In the others Get passes none. In
      these, let another thread post once more before that look: then the Get passes the peeked message, and
      a Peek in its place loses it. */
  lemma PeekedCanBePassed(q: Queue, cmsWait: Option<nat>, msStart: nat, env: seq<Pause>, p: Posting) returns (k: nat)
    requires q.peek.None? && p.trigger.None? && p.msg.id != MQID_DISPOSE
    ensures !FullLook(q, cmsWait, env, msStart, msStart) ==> !PassesSlot(Get(q, cmsWait, msStart, env))
    ensures FullLook(q, cmsWait, env, msStart, msStart) ==>
      && k <= |env| && PassesSlot(Get(q, cmsWait, msStart, WithPost(env, k, p)))
      && |Peek(q, cmsWait, msStart, WithPost(env, k, p)).q.lost| == |q.lost| + 1
  {
    k := 0;
    if FullLook(q, cmsWait, env, msStart, msStart) {
      var broken;
      k, broken := RoundsPass(q, cmsWait, env, msStart, msStart, p);
      PeekLosesIff(q, cmsWait, msStart, broken, Get(q, cmsWait, msStart, broken), Peek(q, cmsWait, msStart, broken));
    } else {
      NoFullLook(q, cmsWait, env, msStart, msStart, Get(q, cmsWait, msStart, env));
    }
  }

  // ---- what is left of the promise for handlers that peek ----------------------------------------

  /** Nothing that waits or is in flight could ever be peeked: dispose messages alone. */
  ghost predicate NothingToPeek(q: Queue) {
    && (forall x :: x in q.list ==> x.msg.id == MQID_DISPOSE)
    && (forall x :: x in q.delayed ==> x.msg.id == MQID_DISPOSE)
    && (forall p :: p in q.flight ==> p.msg.id == MQID_DISPOSE)
  }

  ghost predicate Barren(q: Queue) {
    q.stop && q.peek.None? && NothingToPeek(q)
  }

  lemma {:induction false} MoveDueBarren(q: Queue, now: nat)
    requires Barren(q)
    ensures Barren(MoveDue(q, now))
    decreases |q.delayed|
  {
    if CanMove(q, now) {
      var p := Moved(q, now);
      assert q.delayed[0] in q.delayed;
      assert forall x :: x in p.delayed ==> x in q.delayed;
      MoveDueBarren(p, now);
    }
  }

  lemma {:induction false} PullAllBarren(q: Queue)
    requires Barren(q)
    ensures Barren(PullAll(q).q) && PullAll(q).got.None?
    decreases |q.list|
  {
    if q.list != [] {
      assert q.list[0] in q.list;
      assert forall x :: x in q.list[1..] ==> x in q.list;
      PullAllBarren(Pulled(q));
    }
  }

  lemma PushBarren(q: Queue, p: Posting)
    requires Barren(q)
    ensures Barren(Pushed(q, p))
  {
    if p in q.flight {
      forall x ensures x in Pushed(q, p).list || x in Pushed(q, p).delayed ==> x.msg.id == MQID_DISPOSE {
        PushElements(q, p, x);
      }
    }
  }

  lemma ClearBarren(q: Queue, handler: Option<Handler>, id: nat)
    requires Barren(q)
    ensures Barren(Cleared(q, handler, id))
  {
    forall x ensures x in Cleared(q, handler, id).list ==> x in q.list {
      KeepElements(q.list, handler, id, x);
    }
    forall x ensures x in Cleared(q, handler, id).delayed ==> x in q.delayed {
      KeepElements(q.delayed, handler, id, x);
    }
  }

  lemma PerformedBarren(q: Queue, op: Op)
    requires Barren(q) && !op.OpRestart?
    ensures Barren(Performed(q, op))
  {
    match op
    case OpPush(p) => PushBarren(q, p);
    case OpClear(handler, id) => ClearBarren(q, handler, id);
    case OpGet(now) => MoveDueBarren(q, now); PullAllBarren(MoveDue(q, now));
    case OpPeek(now) => MoveDueBarren(q, now); PullAllBarren(MoveDue(q, now));
    case _ =>
  }

  lemma {:induction false} InterferedBarren(q: Queue, ops: seq<Op>)
    requires Barren(q) && NoRestart(ops)
    ensures Barren(Interfered(q, ops, false))
    decreases |ops|
  {
    if ops != [] {
      assert !ops[0].OpRestart? && NoRestart(ops[1..]);
      PerformedBarren(q, ops[0]);
      InterferedBarren(Performed(q, ops[0]), ops[1..]);
    }
  }

  /** On such a queue no handler leaves a message peeked. */
  lemma BarrenPromised(q: Queue, cmsWait: Option<nat>, msStart: nat, env: seq<Pause>, e: GetEnd)
    requires Pending(q) && Barren(q) && Calm(q, msStart) && NoRestarts(env) && e == Get(q, cmsWait, msStart, env)
    ensures Promised(e)
  {
    var p := Interrupted(q, env, false);
    var look, rest, time := Looked(q, env, msStart), Rest(env), msStart + Elapsed(env);
    if env != [] { InterferedBarren(q, env[0].ops); }
    MoveDueBarren(p, msStart);
    var s := Pass(look, rest, time);
    PassKeepsEmpty(look, rest, time, s);
    LookedWinds(q, env, msStart, look);
    CalmPass(look, rest, time, msStart, s);
    assert Round(q, cmsWait, env, msStart, msStart) == Decide(look, s, cmsWait, msStart, msStart);
  }

  function MaxTrigger(s: seq<Item>): nat {
    if s == [] then 0 else Max(MaxTrigger(s[1..]), TriggerOf(s[0]))
  }

  lemma {:induction false} MaxTriggerIs(s: seq<Item>, x: Item)
    requires x in s
    ensures TriggerOf(x) <= MaxTrigger(s)
  {
    if s[0] != x { MaxTriggerIs(s[1..], x); }
  }

  /** Late enough everything has moved. */
  lemma {:induction false} AllMoves(q: Queue, now: nat)
    requires forall x :: x in q.delayed ==> TriggerOf(x) <= now
    ensures MoveDue(q, now).delayed == []
    ensures forall x :: x in q.list || x in q.delayed ==> x in MoveDue(q, now).list
    ensures MoveDue(q, now).peek == q.peek && MoveDue(q, now).stop == q.stop
    decreases |q.delayed|
  {
    if q.delayed != [] {
      var p := Moved(q, now);
      assert q.delayed[0] in q.delayed;
      assert forall x :: x in p.delayed ==> x in q.delayed;
      assert forall x :: x in q.delayed ==> x == q.delayed[0] || x in p.delayed;
      AllMoves(p, now);
    }
  }

  /** Get and Peek at a time at which everything has moved. */
  lemma TakesAtOnce(q: Queue, now: nat, r: Queue, t: Taken)
    requires q.peek.None? && r == MoveDue(q, now) && r.delayed == [] && r.peek.None? && t == PullAll(r) && t.got.Some?
    ensures t.q.peek.None? && t.q.stop == r.stop && t.q.delayed == [] && MoveDue(t.q, now) == t.q
    ensures Performed(q, OpGet(now)) == t.q
    ensures Performed(q, OpPeek(now)).peek == t.got && Performed(q, OpPeek(now)).list == t.q.list
    ensures Performed(q, OpPeek(now)).delayed == [] && Performed(q, OpPeek(now)).stop == r.stop
  {
    PullAllTakes(r, t);
    PullAllFrame(r, t);
  }

  /** Handlers that take all deliverable messages but the last, and leave that one peeked. */
  lemma {:induction false} LeaveOne(q: Queue, now: nat, r: Queue) returns (ops: seq<Op>)
    requires q.peek.None? && r == MoveDue(q, now) && r.delayed == [] && r.peek.None? && Deliverable(r.list) != []
    ensures NoRestart(ops)
    ensures var q1 := Interfered(q, ops, false);
      q1.peek.Some? && q1.delayed == [] && Deliverable(q1.list) == [] && q1.stop == r.stop
    decreases |Deliverable(r.list)|
  {
    var t := PullAll(r);
    PullAllTakes(r, t);
    TakesAtOnce(q, now, r, t);
    if Deliverable(t.q.list) == [] {
      ops := [OpPeek(now)];
      OneOp(q, OpPeek(now), false);
    } else {
      var more := LeaveOne(t.q, now, t.q);
      ops := [OpGet(now)] + more;
      FirstOp(q, OpGet(now), more, false);
    }
  }

  /** A Get whose handlers have left one message peeked and nothing else. */
  lemma PeekedIsHidden(q: Queue, cmsWait: Option<nat>, now: nat, pause: Pause, q1: Queue, e: GetEnd)
    requires q.peek.None? && q1 == Interfered(q, pause.ops, false) && e == Get(q, cmsWait, now, [pause])
    requires q1.peek.Some? && q1.delayed == [] && Deliverable(q1.list) == [] && q1.stop
    ensures e.got.None? && e.why.Stopped? && e.q.peek == q1.peek && !Promised(e)
  {
    var env := [pause];
    assert Rest(env) == [] && Looked(q, env, now) == q1;
    PullAllTakes(q1, PullAll(q1));
    PullAllFrame(q1, PullAll(q1));
    PassAlone(q1, now + Elapsed(env));
  }

  /** For every stopped queue with a deliverable message there are handlers that hide it: they leave it peeked, the Get
      that has called them finds nothing and returns false, and the next Get returns it. */
  lemma NestedPeekHides(q: Queue, cmsWait: Option<nat>, now: nat, x: Item) returns (env: seq<Pause>)
    requires q.stop && q.peek.None? && (x in q.list || x in q.delayed) && x.msg.id != MQID_DISPOSE
    ensures NoRestarts(env)
    ensures var e := Get(q, cmsWait, now, env);
      e.got.None? && e.why.Stopped? && !Promised(e) && Get(e.q, cmsWait, now, []).got.Some?
  {
    var late := MaxTrigger(q.delayed);
    var r := MoveDue(q, late);
    forall y | y in q.delayed ensures TriggerOf(y) <= late { MaxTriggerIs(q.delayed, y); }
    AllMoves(q, late);
    SomeDeliverable(r.list, x);
    var ops := LeaveOne(q, late, r);
    var pause := Pause(ops, 0, true);
    PeekedIsHidden(q, cmsWait, now, pause, Interfered(q, ops, false), Get(q, cmsWait, now, [pause]));
    env := [pause];
  }

  /** The same for one that is in flight. */
  lemma FlightHides(q: Queue, cmsWait: Option<nat>, now: nat, p: Posting) returns (env: seq<Pause>)
    requires q.stop && q.peek.None? && p in q.flight && p.msg.id != MQID_DISPOSE
    ensures NoRestarts(env) && !Promised(Get(q, cmsWait, now, env))
  {
    var q1 := Pushed(q, p);
    var late := MaxTrigger(q1.delayed);
    var r := MoveDue(q1, late);
    PushElements(q, p, NewItem(q, p));
    forall y | y in q1.delayed ensures TriggerOf(y) <= late { MaxTriggerIs(q1.delayed, y); }
    AllMoves(q1, late);
    SomeDeliverable(r.list, NewItem(q, p));
    var more := LeaveOne(q1, late, r);
    var pause := Pause([OpPush(p)] + more, 0, true);
    FirstOp(q, OpPush(p), more, false);
    PeekedIsHidden(q, cmsWait, now, pause, Interfered(q, pause.ops, false), Get(q, cmsWait, now, [pause]));
    env := [pause];
  }

  /** If handlers may leave messages peeked, the promise holds exactly for a queue that has a peeked message before the
      call, or is stopped, with no due post in flight and nothing but dispose messages anywhere. */
  lemma {:induction false} PeekingPromiseIff(q: Queue, cmsWait: Option<nat>, msStart: nat)
    requires Pending(q)
    ensures (forall env :: NoRestarts(env) ==> Promised(Get(q, cmsWait, msStart, env)))
      <==> (q.peek.Some? || (q.stop && Calm(q, msStart) && NothingToPeek(q)))
  {
    QuitPromiseIff(q, cmsWait, msStart);
    if q.peek.None? && q.stop && Calm(q, msStart) {
      if NothingToPeek(q) {
        forall env | NoRestarts(env) ensures Promised(Get(q, cmsWait, msStart, env)) {
          BarrenPromised(q, cmsWait, msStart, env, Get(q, cmsWait, msStart, env));
        }
      } else if p :| p in q.flight && p.msg.id != MQID_DISPOSE {
        var env := FlightHides(q, cmsWait, msStart, p);
      } else {
        var x :| (x in q.list || x in q.delayed) && x.msg.id != MQID_DISPOSE;
        var env := NestedPeekHides(q, cmsWait, msStart, x);
      }
    }
  }

  lemma {:induction false} PeekingPeekIff(q: Queue, cmsWait: Option<nat>, msStart: nat)
    requires Pending(q)
    ensures (forall env :: NoRestarts(env) ==> Promised(Peek(q, cmsWait, msStart, env)))
      <==> (q.peek.Some? || (q.stop && Calm(q, msStart) && NothingToPeek(q)))
  {
    PeekingPromiseIff(q, cmsWait, msStart);
    forall env ensures Promised(Peek(q, cmsWait, msStart, env)) <==> Promised(Get(q, cmsWait, msStart, env)) {
      PeekIsGet(q, cmsWait, msStart, env);
    }
  }
}
