/** The methods of vzsdk::MessageQueue (src/event/messagequeue.cpp). Every method takes the state of the machine to what
    the function of the same name in MessageQueueCalls says. */
module MessageQueues {
  import opened Bytes
  import opened MessageQueueSpec
  import opened MessageQueueCalls
  import opened MessageQueueQuit
  import opened Heaps
  import Calls = MessageQueueCalls
  import Histories = MessageQueueHistory

  // ---- the priority queue ------------------------------------------------------------------------

  /** The container holds the delayed messages. */
  ghost predicate Holds(c: seq<Item>, delayed: seq<Item>) {
    IsHeap(c) && forall x :: Count(c, x) == Count(delayed, x)
  }

  lemma SameElements(c: seq<Item>, delayed: seq<Item>, x: Item)
    requires Holds(c, delayed)
    ensures x in c <==> x in delayed
  {
    assert Count(c, x) == Count(delayed, x);
    assert x in multiset(c) <==> x in c;
    assert x in multiset(delayed) <==> x in delayed;
  }

  /** The top of the heap is the message that comes out first. */
  lemma HoldsTop(c: seq<Item>, delayed: seq<Item>)
    requires Holds(c, delayed) && Ascending(delayed)
    ensures c == [] <==> delayed == []
    ensures c != [] ==> c[0] == delayed[0]
  {
    if c != [] {
      SameElements(c, delayed, c[0]);
    }
    if delayed != [] {
      SameElements(c, delayed, delayed[0]);
      var k :| 0 <= k < |c| && c[k] == delayed[0];
      TopIsFirst(c, k);
    }
  }

  lemma HoldsMore(c: seq<Item>, delayed: seq<Item>, x: Item, h: seq<Item>)
    requires Holds(c, delayed) && IsHeap(h) && forall y :: Count(h, y) == Count(c, y) + Count([x], y)
    ensures Holds(h, Insert(delayed, x))
  {
    forall y ensures Count(h, y) == Count(Insert(delayed, x), y) {
      InsertCount(delayed, x, y);
    }
  }

  lemma HoldsLess(c: seq<Item>, delayed: seq<Item>, h: seq<Item>)
    requires Holds(c, delayed) && c != [] && delayed != [] && c[0] == delayed[0]
    requires IsHeap(h) && forall y :: Count(h, y) + Count([c[0]], y) == Count(c, y)
    ensures Holds(h, delayed[1..])
  {
    forall y ensures Count(h, y) == Count(delayed[1..], y) {
      HeadCount(delayed, y);
    }
  }

  lemma HoldsKept(c: seq<Item>, delayed: seq<Item>, handler: Option<Handler>, id: nat, h: seq<Item>)
    requires Holds(c, delayed) && IsHeap(h) && forall y :: Count(h, y) == Count(Keep(c, handler, id), y)
    ensures Holds(h, Keep(delayed, handler, id))
  {
    forall y ensures Count(h, y) == Count(Keep(delayed, handler, id), y) {
      FilterCount(c, handler, id, y);
      FilterCount(delayed, handler, id, y);
    }
  }

  // ---- Clear -------------------------------------------------------------------------------------

  /** What Clear reports: the peeked message, those in the list in order, and the delayed ones in any order. */
  ghost predicate IsRemoved(q: Queue, handler: Option<Handler>, id: nat, removed: seq<Item>) {
    var front := Matching(SlotOf(q.peek), handler, id) + Matching(q.list, handler, id);
    && front <= removed
    && (forall x :: Count(removed[|front|..], x) == Count(Matching(q.delayed, handler, id), x))
  }

  lemma HoldsRemoved(c: seq<Item>, delayed: seq<Item>, handler: Option<Handler>, id: nat, removed: seq<Item>)
    requires Holds(c, delayed) && removed == Matching(c, handler, id)
    ensures forall x :: Count(removed, x) == Count(Matching(delayed, handler, id), x)
  {
    forall x ensures Count(removed, x) == Count(Matching(delayed, handler, id), x) {
      FilterCount(c, handler, id, x);
      FilterCount(delayed, handler, id, x);
    }
  }

  lemma Erase(front: seq<Item>, tail: seq<Item>, s: seq<Item>, it: nat)
    requires s == front + tail && it == |front| && tail != []
    ensures s[it] == tail[0] && s[..it] + s[it + 1..] == front + tail[1..] && s == front + [tail[0]] + tail[1..]
    ensures tail == [tail[0]] + tail[1..]
  {
  }

  lemma FilterSnoc(s: seq<Item>, x: Item, handler: Option<Handler>, id: nat)
    ensures Keep(s + [x], handler, id) == Keep(s, handler, id) + if Match(x.msg, handler, id) then [] else [x]
    ensures Matching(s + [x], handler, id) == Matching(s, handler, id) + if Match(x.msg, handler, id) then [x] else []
  {
    assert (s + [x])[..|s|] == s;
  }

  // ---- Wait --------------------------------------------------------------------------------------

  /** What Wait may be asked for: at most the time the caller has left and the time to the next trigger. */
  method NextWait(left: Option<nat>, delayNext: Option<nat>) returns (cmsNext: Option<nat>)
    ensures cmsNext.None? <==> left.None? && delayNext.None?
    ensures cmsNext.Some? ==> cmsNext == left || cmsNext == delayNext
    ensures left.Some? ==> cmsNext.value <= left.value
    ensures delayNext.Some? ==> cmsNext.value <= delayNext.value
  {
    if left.None? {
      cmsNext := delayNext;
    } else {
      cmsNext := left;
      if delayNext.Some? && delayNext.value < cmsNext.value {
        cmsNext := delayNext;
      }
    }
  }

  /** A round ends in this state with these results. */
  ghost predicate Ends(r: RoundEnd, q: Queue, got: Option<Item>, why: Option<End>, rest: seq<Pause>, time: nat) {
    match r
    case Done(e) => why == Some(e.why) && got == e.got && q == e.q && rest == e.rest
    case Again(q1, rest1, time1) => why.None? && got.None? && q == q1 && rest == rest1 && time == time1
  }

  // ---- GetDelay ----------------------------------------------------------------------------------

  /** The time to the first trigger, unless the list holds a message or something has triggered. */
  function DelayOf(q: Queue, now: nat): Option<nat> {
    if q.list != [] then Some(0)
    else if q.delayed == [] then None
    else if TriggerOf(q.delayed[0]) > now then Some(TriggerOf(q.delayed[0]) - now)
    else Some(0)
  }

  lemma DelayIs(q: Queue, now: nat)
    requires Pending(q)
    ensures DelayOf(q, now) == Some(0) <==> !NothingListed(q, now)
  {
    AllBehindHead(q.delayed);
  }

  /** The delay is 0 exactly when something can be delivered, unless there is only a peeked message. */
  lemma DelayIsRightIff(q: Queue, now: nat)
    requires Pending(q)
    ensures (DelayOf(q, now) == Some(0) <==> !NothingReady(q, now)) <==> q.peek.None? || !NothingListed(q, now)
  {
    DelayIs(q, now);
  }

  /** The delayed messages accepted before the n-th trigger no sooner than after a delay. */
  ghost predicate DueAfter(q: Queue, now: nat, delay: Option<nat>, n: nat) {
    forall x :: x in q.delayed && x.serial < n ==> delay.Some? && now + delay.value <= TriggerOf(x)
  }

  /** The delay that a look has found still covers what was accepted before it when Get waits. */
  lemma StillDueAfter(look: Queue, s: Scan, env: seq<Pause>, time: nat, now: nat, delay: Option<nat>)
    requires s == Calls.Pass(look, env, time) && s.got.None?
    requires forall x :: x in look.delayed ==> delay.Some? && now + delay.value <= TriggerOf(x)
    ensures DueAfter(s.q, now, delay, |look.posted|)
  {
    PassSees(look, env, time, s);
    NewAgain(look, s.seen, s.q);
  }

  class MessageQueue {
    var msgq: seq<Item>
    var dmsgq: seq<Item>
    var msgPeek: Option<Item>         // with fPeekKeep_
    var fStop: bool
    var dmsgqNextNum: nat
    var accepted: nat                 // numbers the accepted messages
    var flight: multiset<Posting>     // where the posting threads are: behind their test, before their lock
    ghost var q: Queue

    ghost predicate Valid()
      reads this
    {
      && msgq == q.list && msgPeek == q.peek && fStop == q.stop && dmsgqNextNum == q.nextNum
      && accepted == |q.posted| && flight == q.flight
      && Holds(dmsgq, q.delayed) && Pending(q)
    }

    constructor ()
      ensures Valid() && q == EMPTY
    {
      msgq, dmsgq, msgPeek, fStop, dmsgqNextNum, accepted, flight := [], [], None, false, 0, 0, multiset{};
      q := EMPTY;
    }

    method Quit()
      requires Valid()
      modifies this
      ensures Valid() && fStop && q == Apply(old(q), Step.Quit)
      ensures msgq == old(msgq) && dmsgq == old(dmsgq) && msgPeek == old(msgPeek) && flight == old(flight)
    {
      fStop := true;
      q := Apply(q, Step.Quit);
    }

    method Restart()
      requires Valid()
      modifies this
      ensures Valid() && !fStop && q == Apply(old(q), Step.Restart)
      ensures msgq == old(msgq) && dmsgq == old(dmsgq) && msgPeek == old(msgPeek) && flight == old(flight)
    {
      fStop := false;
      q := Apply(q, Step.Restart);
    }

    /** The unlocked test of a post. */
    method Test(p: Posting) returns (ok: bool)
      requires Valid()
      modifies this
      ensures Valid() && q == Entered(old(q), p) && ok == !old(q).stop && (ok ==> p in flight)
    {
      ok := !fStop;
      q := Entered(q, p);
      if ok { flight := flight + multiset{p}; }
    }

    /** The locked part of a post in flight. */
    method Push(p: Posting)
      requires Valid()
      modifies this
      ensures Valid() && q == Pushed(old(q), p)
    {
      if p in flight {
        var x := Item(accepted, p.msg, p.trigger, if p.trigger.Some? then dmsgqNextNum else 0);
        if p.trigger.None? { PushBack(p, x); } else { PushDelayed(p, x); }
      }
    }

    method PushBack(p: Posting, x: Item)
      requires Valid() && p in flight && p.trigger.None? && x == NewItem(q, p)
      modifies this
      ensures Valid() && q == Pushed(old(q), p)
    {
      flight, accepted := flight - multiset{p}, accepted + 1;
      msgq := msgq + [x];
      q := Pushed(q, p);
    }

    method PushDelayed(p: Posting, x: Item)
      requires Valid() && p in flight && p.trigger.Some? && x == NewItem(q, p)
      modifies this
      ensures Valid() && q == Pushed(old(q), p)
    {
      ghost var r := Pushed(q, p);
      StepPending(q, Step.Push(p));
      var h := PushHeap(dmsgq, x);
      HoldsMore(dmsgq, q.delayed, x, h);
      assert Holds(h, r.delayed) && Pending(r);
      flight, accepted := flight - multiset{p}, accepted + 1;
      dmsgq, dmsgqNextNum := h, dmsgqNextNum + 1;
      q := r;
    }

    method Post(msg: Message)
      requires Valid()
      modifies this
      ensures Valid() && q == Histories.Post(old(q), Posting(msg, None))
    {
      var ok := Test(Posting(msg, None));
      if ok { Push(Posting(msg, None)); }
    }

    method DoDelayPost(trigger: nat, msg: Message)
      requires Valid()
      modifies this
      ensures Valid() && q == Histories.Post(old(q), Posting(msg, Some(trigger)))
    {
      var ok := Test(Posting(msg, Some(trigger)));
      if ok { Push(Posting(msg, Some(trigger))); }
    }

    /** The time until something can be delivered, if no message is peeked: GetDelay does not look at the slot. */
    method GetDelay(now: nat) returns (delay: Option<nat>)
      requires Valid()
      ensures delay == DelayOf(q, now)
      ensures q.peek.None? ==>
        && (delay == Some(0) <==> !NothingReady(q, now))
        && (delay.None? <==> q.list == [] && q.delayed == [])
      ensures delay.Some? && delay.value > 0 ==>
        && NothingListed(q, now)
        && (forall x :: x in q.delayed ==> now + delay.value <= TriggerOf(x))
        && (exists x :: x in q.delayed && TriggerOf(x) == now + delay.value)
    {
      HoldsTop(dmsgq, q.delayed);
      AllBehindHead(q.delayed);
      DelayIs(q, now);
      if msgq != [] {
        delay := Some(0);
      } else if dmsgq != [] {
        var trigger := TriggerOf(dmsgq[0]);
        delay := Some(if trigger > now then trigger - now else 0);
      } else {
        delay := None;
      }
    }

    // ---- Clear -----------------------------------------------------------------------------------

    method Clear(handler: Option<Handler>, id: nat) returns (removed: seq<Item>)
      requires Valid()
      modifies this
      ensures Valid() && q == Cleared(old(q), handler, id) && IsRemoved(old(q), handler, id, removed)
      ensures forall x :: x in msgq <==> (x in old(msgq) &&
        !((handler == None || x.msg.handler == handler) && (id == 0xFFFF_FFFF || x.msg.id == id)))
    {
      var peeked, peek := [], msgPeek;
      if msgPeek.Some? && Match(msgPeek.value.msg, handler, id) {
        peeked, peek := [msgPeek.value], None;
      }
      var kept, listed := ClearList(msgq, handler, id);
      var delayed;
      removed := peeked + listed;
      ghost var front := removed;
      delayed := ClearDelayed(handler, id, peek, kept);
      removed := removed + delayed;
      assert peeked == Matching(SlotOf(old(msgPeek)), handler, id);
      assert removed[|front|..] == delayed;
      forall x { KeepElements(old(msgq), handler, id, x); }
    }

    /** The end of Clear: the delayed messages, and the new state. */
    method ClearDelayed(handler: Option<Handler>, id: nat, peek: Option<Item>, kept: seq<Item>) returns (removed: seq<Item>)
      requires Valid() && kept == Keep(msgq, handler, id)
      requires peek == if msgPeek.Some? && Match(msgPeek.value.msg, handler, id) then None else msgPeek
      modifies this
      ensures Valid() && q == Cleared(old(q), handler, id)
      ensures forall x :: Count(removed, x) == Count(Matching(old(q).delayed, handler, id), x)
    {
      var container;
      container, removed := Compact(dmsgq, handler, id);
      var h := MakeHeap(container);
      HoldsKept(dmsgq, q.delayed, handler, id, h);
      HoldsRemoved(dmsgq, q.delayed, handler, id, removed);
      StepPending(q, Step.Clear(handler, id));
      msgPeek, msgq, dmsgq := peek, kept, h;
      q := Cleared(q, handler, id);
    }

    /** The loop that erases from the list. */
    static method ClearList(list: seq<Item>, handler: Option<Handler>, id: nat) returns (kept: seq<Item>, removed: seq<Item>)
      ensures kept == Keep(list, handler, id) && removed == Matching(list, handler, id)
    {
      kept, removed := list, [];
      var it := 0;
      ghost var front, tail, seen: seq<Item> := [], list, [];
      while it < |kept|
        invariant kept == front + tail && list == seen + tail && it == |front|
        invariant front == Keep(seen, handler, id) && removed == Matching(seen, handler, id)
        decreases |kept| - it
      {
        ghost var x := tail[0];
        Erase(front, tail, kept, it);
        Assoc3(seen, [x], tail[1..]);
        FilterSnoc(seen, x, handler, id);
        if Match(kept[it].msg, handler, id) {
          removed := removed + [kept[it]];
          kept := kept[..it] + kept[it + 1..];
        } else {
          front := front + [x];
          it := it + 1;
        }
        seen, tail := seen + [x], tail[1..];
      }
      assert tail == [] && front + tail == front && seen + tail == seen;
    }

    /** The loop that moves the remaining delayed messages to the front of the container. */
    static method Compact(container: seq<Item>, handler: Option<Handler>, id: nat)
      returns (c: seq<Item>, removed: seq<Item>)
      ensures c == Keep(container, handler, id) && removed == Matching(container, handler, id)
    {
      c, removed := container, [];
      var newEnd := 0;
      for it := 0 to |c|
        invariant |c| == |container| && newEnd <= it && c[it..] == container[it..]
        invariant c[..newEnd] == Keep(container[..it], handler, id)
        invariant removed == Matching(container[..it], handler, id)
      {
        assert container[..it + 1][..it] == container[..it];
        assert c[it] == c[it..][0] == container[it];
        ghost var before := c;
        if Match(c[it].msg, handler, id) {
          removed := removed + [c[it]];
        } else {
          c := c[newEnd := c[it]];
          assert c[..newEnd + 1] == before[..newEnd] + [before[it]];
          newEnd := newEnd + 1;
        }
        assert c[it + 1..] == before[it..][1..];
      }
      assert container[..|container|] == container;
      c := c[..newEnd];
    }

    // ---- Get -------------------------------------------------------------------------------------

    /** The first pass of the inner loop: what has triggered moves to the list, and the next trigger is found. */
    method MoveTriggered(now: nat) returns (delayNext: Option<nat>)
      requires Valid()
      modifies this
      ensures Valid() && q == MoveDue(old(q), now)
      ensures delayNext.None? <==> q.delayed == []
      ensures forall x :: x in q.delayed ==> 0 < delayNext.value && now + delayNext.value <= TriggerOf(x)
      ensures delayNext.Some? ==> exists x :: x in q.delayed && now + delayNext.value == TriggerOf(x)
    {
      delayNext := None;
      HoldsTop(dmsgq, q.delayed);
      while dmsgq != []
        invariant Valid() && MoveDue(q, now) == MoveDue(old(q), now) && delayNext.None?
        invariant (dmsgq == [] <==> q.delayed == []) && (dmsgq != [] ==> dmsgq[0] == q.delayed[0])
        decreases |q.delayed|
      {
        if now < TriggerOf(dmsgq[0]) {
          delayNext := Some(TriggerOf(dmsgq[0]) - now);
          AllBehindHead(q.delayed);
          return;
        }
        MoveTop(now);
        HoldsTop(dmsgq, q.delayed);
      }
    }

    /** msgq_.push_back(dmsgq_.top().msg_), dmsgq_.pop(). */
    method MoveTop(now: nat)
      requires Valid() && dmsgq != [] && q.delayed != [] && dmsgq[0] == q.delayed[0] && TriggerOf(dmsgq[0]) <= now
      modifies this
      ensures Valid() && q == Moved(old(q), now)
    {
      StepPending(q, Move(now));
      var x := dmsgq[0];
      var h := PopHeap(dmsgq);
      HoldsLess(dmsgq, q.delayed, h);
      msgq, dmsgq := msgq + [x], h;
      q := Moved(q, now);
    }

    /** The rest of a pass: the front of the list. */
    method PullFront() returns (r: LookResult)
      requires Valid()
      modifies this
      ensures Valid() && q == Pulled(old(q)) && r == PullResult(old(q))
    {
      if msgq == [] {
        r := Nothing;
      } else {
        r := if msgq[0].msg.id == MQID_DISPOSE then Skipped else Got(msgq[0]);
        msgq := msgq[1..];
      }
      q := Pulled(q);
    }

    method TakePeeked() returns (item: Item)
      requires Valid() && msgPeek.Some?
      modifies this
      ensures Valid() && q == PeekTaken(old(q)) && old(msgPeek) == Some(item)
    {
      item := msgPeek.value;
      msgPeek := None;
      q := PeekTaken(q);
    }

    /** The end of Peek, for the message that Get has just handed out. */
    method KeepAsPeek(item: Item)
      requires Valid() && q.out != [] && q.out[|q.out| - 1] == item
      modifies this
      ensures Valid() && q == PeekKept(old(q)) && msgPeek == Some(item)
    {
      msgPeek := Some(item);
      q := PeekKept(q);
    }

    /** A Get that is not interrupted and does not wait. */
    method GetNow(now: nat) returns (got: Option<Item>)
      requires Valid()
      modifies this
      ensures Valid() && Taken(q, got) == Calls.GetNow(old(q), now)
      ensures got.Some? ==> q.out != [] && q.out[|q.out| - 1] == got.value
    {
      if msgPeek.Some? {
        var item := TakePeeked();
        return Some(item);
      }
      ghost var q0 := q;
      var _ := MoveTriggered(now);
      while true
        invariant Valid() && PullAll(q) == Calls.GetNow(q0, now)
        decreases |msgq|
      {
        var r := PullFront();
        match r
        case Nothing => return None;
        case Got(item) => return Some(item);
        case Skipped =>
      }
    }

    method PeekNow(now: nat) returns (got: Option<Item>)
      requires Valid()
      modifies this
      ensures Valid() && Taken(q, got) == Calls.PeekNow(old(q), now)
    {
      if msgPeek.Some? {
        return msgPeek;
      }
      got := GetNow(now);
      if got.Some? {
        KeepAsPeek(got.value);
      }
    }

    method Perform(op: Op)
      requires Valid()
      modifies this
      ensures Valid() && q == Performed(old(q), op)
    {
      match op
      case OpTest(p) => var _ := Test(p);
      case OpPush(p) => Push(p);
      case OpClear(handler, id) => var _ := Clear(handler, id);
      case OpQuit => Quit();
      case OpRestart => Restart();
      case OpGet(now) => var _ := GetNow(now);
      case OpPeek(now) => var _ := PeekNow(now);
    }

    /** The operations of an interruption; in the gaps between critical sections only those of other threads. */
    method Interfere(ops: seq<Op>, gap: bool)
      requires Valid()
      modifies this
      ensures Valid() && q == Interfered(old(q), ops, gap)
      decreases |ops|
    {
      if ops != [] {
        if !gap || Foreign(ops[0]) { Perform(ops[0]); }
        Interfere(ops[1..], gap);
      }
    }

    /** The next interruption of a script. */
    method Interrupt(env: seq<Pause>, gap: bool) returns (rest: seq<Pause>, elapsed: nat)
      requires Valid()
      modifies this
      ensures Valid() && q == Interrupted(old(q), env, gap) && rest == Rest(env) && elapsed == Elapsed(env)
    {
      rest, elapsed := env, 0;
      if env != [] {
        Interfere(env[0].ops, gap);
        rest, elapsed := env[1..], env[0].elapsed;
      }
    }

    /** Wait. It must not sleep past the trigger of a message that was accepted before the look at the delayed ones;
        later ones come with a WakeUp. */
    method Wait(cmsNext: Option<nat>, env: seq<Pause>, ghost now: nat, ghost looked: nat)
      returns (ok: bool, rest: seq<Pause>, elapsed: nat)
      requires Valid() && DueAfter(q, now, cmsNext, looked)
      modifies this
      ensures Valid() && q == Interrupted(old(q), env, false) && rest == Rest(env) && elapsed == Elapsed(env)
      ensures ok <==> env != [] && env[0].ok
    {
      ok := env != [] && env[0].ok;
      rest, elapsed := Interrupt(env, false);
    }

    /** The inner loop of Get behind the move of the triggered messages. */
    method Pass(env: seq<Pause>, time: nat) returns (got: Option<Item>, rest: seq<Pause>, now: nat, ghost s: Scan)
      requires Valid()
      modifies this
      ensures Valid() && s == Calls.Pass(old(q), env, time) && q == s.q && got == s.got && rest == s.rest && now == s.time
    {
      s := Calls.Pass(q, env, time);
      rest, now := env, time;
      while true
        invariant Valid() && Calls.Pass(q, rest, now) == s
        decreases |rest|, |msgq|
      {
        var r := PullFront();
        if r.Got? {
          return Some(r.item), rest, now, s;
        }
        var elapsed;
        rest, elapsed := Interrupt(rest, true);
        now := now + elapsed;
        if r.Nothing? {
          return None, rest, now, s;
        }
      }
    }

    /** The sent messages, and the look at the delayed ones. */
    method Look(env: seq<Pause>, now: nat) returns (delayNext: Option<nat>, rest: seq<Pause>, elapsed: nat)
      requires Valid()
      modifies this
      ensures Valid() && q == Looked(old(q), env, now) && rest == Rest(env) && elapsed == Elapsed(env)
      ensures forall x :: x in q.delayed ==> delayNext.Some? && 0 < delayNext.value && now + delayNext.value <= TriggerOf(x)
    {
      rest, elapsed := Interrupt(env, false);       // ReceiveSends
      delayNext := MoveTriggered(now);
    }

    /** One round of Get: the look, the inner loop, and what follows. */
    method Round(cmsWait: Option<nat>, env: seq<Pause>, msStart: nat, now: nat)
      returns (got: Option<Item>, why: Option<End>, rest: seq<Pause>, time: nat)
      requires Valid() && msStart <= now
      modifies this
      ensures Valid() && now <= time
      ensures Ends(Calls.Round(old(q), cmsWait, env, msStart, now), q, got, why, rest, time)
    {
      var delayNext, elapsed;
      ghost var s: Scan;
      delayNext, rest, elapsed := Look(env, now);
      time := now + elapsed;
      ghost var look, behind, at := q, rest, time;
      got, rest, time, s := Pass(rest, time);
      assert Calls.Round(old(q), cmsWait, env, msStart, now) == Decide(look, s, cmsWait, msStart, now);
      if got.None? { StillDueAfter(look, s, behind, at, now, delayNext); }
      got, why, rest, time := Finish(cmsWait, got, delayNext, rest, time, msStart, now, look, s);
    }

    /** The end of a round: the test of fStop_ and the wait. */
    method Finish(cmsWait: Option<nat>, result: Option<Item>, delayNext: Option<nat>, env: seq<Pause>, at: nat,
                  msStart: nat, now: nat, ghost look: Queue, ghost s: Scan)
      returns (got: Option<Item>, why: Option<End>, rest: seq<Pause>, time: nat)
      requires Valid() && msStart <= now <= at && q == s.q && result == s.got && env == s.rest && at == s.time
      requires result.None? ==> DueAfter(q, now, delayNext, |look.posted|)
      modifies this
      ensures Valid() && at <= time
      ensures Ends(Decide(look, s, cmsWait, msStart, now), q, got, why, rest, time)
    {
      got, rest, time := result, env, at;
      if got.Some? {
        return got, Some(Returned), rest, time;
      }
      if fStop {
        return None, Some(Stopped), rest, time;
      }
      var ok, elapsed;
      ok, rest, elapsed := Sleep(cmsWait, delayNext, env, now - msStart, now, |look.posted|);
      time := time + elapsed;
      why := if !ok then Some(WaitFailed)
             else if cmsWait.Some? && time - msStart >= cmsWait.value then Some(TimedOut) else None;
    }

    /** The wait of Get: until the next trigger or the end of the caller's time. */
    method Sleep(cmsWait: Option<nat>, delayNext: Option<nat>, env: seq<Pause>, cmsElapsed: nat, ghost now: nat, ghost looked: nat)
      returns (ok: bool, rest: seq<Pause>, elapsed: nat)
      requires Valid() && DueAfter(q, now, delayNext, looked)
      modifies this
      ensures Valid() && q == Interrupted(old(q), env, false) && rest == Rest(env) && elapsed == Elapsed(env)
      ensures ok <==> env != [] && env[0].ok
    {
      var left := if cmsWait.None? then None
                  else if cmsWait.value < cmsElapsed then Some(0) else Some(cmsWait.value - cmsElapsed);
      var cmsNext := NextWait(left, delayNext);
      ok, rest, elapsed := Wait(cmsNext, env, now, looked);
    }

    /** Get, called at msStart. A script says what happens meanwhile. */
    method Get(cmsWait: Option<nat>, msStart: nat, env: seq<Pause>) returns (got: Option<Item>, why: End, rest: seq<Pause>)
      requires Valid()
      modifies this
      ensures Valid()
      ensures var e := Calls.Get(old(q), cmsWait, msStart, env);
        q == e.q && got == e.got && why == e.why && rest == e.rest
      ensures TakesBack(env) ==> q.peek.None?
      ensures old(q).stop && Calm(old(q), msStart) && NoRestarts(env) && TakesBack(env) && got.None? ==>
        why.Stopped? && NothingReady(q, msStart)
      ensures Sound(old(q)) && (got.None? || q.peek.None?) ==> Sound(q) && q.lost == old(q).lost
    {
      GetPromises(q, cmsWait, msStart, env, Calls.Get(q, cmsWait, msStart, env));
      if msgPeek.Some? {
        var item := TakePeeked();
        return Some(item), Returned, env;
      }
      ghost var e := Rounds(q, cmsWait, env, msStart, msStart);
      var msCurrent := msStart;
      rest := env;
      while true
        invariant Valid() && msStart <= msCurrent && Rounds(q, cmsWait, rest, msStart, msCurrent) == e
        decreases |rest|
      {
        var end;
        got, end, rest, msCurrent := Round(cmsWait, rest, msStart, msCurrent);
        if end.Some? {
          return got, end.value, rest;
        }
      }
    }

    method Peek(cmsWait: Option<nat>, msStart: nat, env: seq<Pause>) returns (got: Option<Item>, why: End, rest: seq<Pause>)
      requires Valid()
      modifies this
      ensures Valid()
      ensures var e := Calls.Peek(old(q), cmsWait, msStart, env);
        q == e.q && got == e.got && why == e.why && rest == e.rest
      ensures got.Some? ==> msgPeek == got
      ensures old(q).stop && Calm(old(q), msStart) && NoRestarts(env) && TakesBack(env) && got.None? ==>
        why.Stopped? && NothingReady(q, msStart)
      ensures Sound(old(q)) && TakesBack(env) ==> Sound(q) && q.lost == old(q).lost
    {
      PeekPromises(q, cmsWait, msStart, env, Calls.Peek(q, cmsWait, msStart, env));
      if msgPeek.Some? {
        return msgPeek, Returned, env;
      }
      ghost var q0 := q;
      got, why, rest := Get(cmsWait, msStart, env);
      if got.Some? {
        GetHandsOut(q0, cmsWait, msStart, env, Calls.Get(q0, cmsWait, msStart, env));
        KeepAsPeek(got.value);
      }
    }

    method Call(call: Histories.Call)
      requires Valid()
      modifies this
      ensures Valid() && q == Histories.After(old(q), call)
    {
      match call
      case DoPost(p) =>
        var ok := Test(p);
        if ok { Push(p); }
      case DoTest(p) => var _ := Test(p);
      case DoPush(p) => Push(p);
      case DoClear(handler, id) => var _ := Clear(handler, id);
      case DoQuit => Quit();
      case DoRestart => Restart();
      case DoGet(cmsWait, msStart, env) => var _, _, _ := Get(cmsWait, msStart, env);
      case DoPeek(cmsWait, msStart, env) => var _, _, _ := Peek(cmsWait, msStart, env);
    }
  }

  lemma AllBehindHead(s: seq<Item>)
    requires Ascending(s)
    ensures s != [] ==> s[0] in s && forall x :: x in s ==> TriggerOf(s[0]) <= TriggerOf(x)
  {
    forall x | x in s ensures TriggerOf(s[0]) <= TriggerOf(x) {
      var i :| 0 <= i < |s| && s[i] == x;
      assert i > 0 ==> Before(s[0], s[i]);
    }
  }

  /** Any calls of a new queue: if every handler takes back what it peeks inside a call, the messages come out in order
      and none is lost. */
  method Play(calls: seq<Histories.Call>) returns (mq: MessageQueue)
    ensures fresh(mq) && mq.Valid() && mq.q == Histories.History(calls)
    ensures Histories.NonePasses(calls) ==> LineInOrder(mq.q) && mq.q.lost == []
    ensures Histories.AllTakeBack(calls) ==> LineInOrder(mq.q) && mq.q.lost == []
  {
    mq := new MessageQueue();
    assert calls[..|calls|] == calls;
    for i := 0 to |calls|
      invariant fresh(mq) && mq.Valid() && mq.q == Histories.History(calls[..i])
    {
      assert calls[..i + 1][..i] == calls[..i];
      mq.Call(calls[i]);
    }
    Histories.HistoryInOrder(calls);
  }
}
