/** vzsdk::MessageQueue (src/event/messagequeue.cpp, messagequeue.h) as a machine over its critical sections and
    the unlocked accesses between them. Times, message numbers and posts are counted without wrap-around. */
module MessageQueueSpec {
  import opened Bytes

  const MQID_ANY: nat := 0xFFFF_FFFF
  const MQID_DISPOSE: nat := 0xFFFF_FFFE

  type Handler = nat

  datatype Message = Message(handler: Option<Handler>, id: nat, data: int)

  predicate Match(m: Message, handler: Option<Handler>, id: nat) {
    (handler.None? || handler == m.handler) && (id == MQID_ANY || id == m.id)
  }

  /** A call of Post, or of DoDelayPost for a trigger. */
  datatype Posting = Posting(msg: Message, trigger: Option<nat>)

  /** A message in the queue: the serial-th one to get there. A delayed one has a trigger and a number. */
  datatype Item = Item(serial: nat, msg: Message, trigger: Option<nat>, num: nat)

  function TriggerOf(x: Item): nat { if x.trigger.Some? then x.trigger.value else 0 }

  /** DelayedMessage::operator< the other way around: x comes out before y. */
  predicate Before(x: Item, y: Item) {
    TriggerOf(x) < TriggerOf(y) || (TriggerOf(x) == TriggerOf(y) && x.num < y.num)
  }

  /** The delayed messages are listed in the order in which they come out. A post first tests fStop_ and then takes
      the lock: in between it is in flight. The fields from `admitted` on record what happened: the posts that
      passed their test, every message that got into the queue, those handed to callers in order, the ends of the
      others, the latest time at which a delayed one became ready, and how many messages had been accepted when
      each of them did. */
  datatype Queue = Queue(
    list: seq<Item>,              // msgq_
    delayed: seq<Item>,           // dmsgq_
    peek: Option<Item>,           // msgPeek_, if fPeekKeep_
    stop: bool,                   // fStop_
    nextNum: nat,                 // dmsgq_next_num_
    flight: multiset<Posting>,    // posts between their test of fStop_ and their lock
    admitted: multiset<Posting>,
    posted: seq<Item>,
    out: seq<Item>,
    disposed: seq<Item>,
    cleared: seq<Item>,
    lost: seq<Item>,
    clock: nat,
    movedAt: map<nat, nat>)

  const EMPTY := Queue([], [], None, false, 0, multiset{}, multiset{}, [], [], [], [], [], 0, map[])

  // ---- operations --------------------------------------------------------------------------------

  /** The unlocked test of fStop_ at the start of a post. */
  function Entered(q: Queue, p: Posting): Queue {
    if q.stop then q else q.(flight := q.flight + multiset{p}, admitted := q.admitted + multiset{p})
  }

  function NewItem(q: Queue, p: Posting): Item {
    Item(|q.posted|, p.msg, p.trigger, if p.trigger.Some? then q.nextNum else 0)
  }

  function Insert(s: seq<Item>, x: Item): seq<Item> {
    if s == [] || !Before(x, s[|s| - 1]) then s + [x] else Insert(s[..|s| - 1], x) + [s[|s| - 1]]
  }

  /** The locked part of a post that has passed its test, whatever fStop_ is by now. */
  function Pushed(q: Queue, p: Posting): Queue {
    if p !in q.flight then q
    else
      var x := NewItem(q, p);
      var r := q.(flight := q.flight - multiset{p}, posted := q.posted + [x]);
      if p.trigger.None? then r.(list := q.list + [x])
      else r.(delayed := Insert(q.delayed, x), nextNum := q.nextNum + 1)
  }

  function Keep(s: seq<Item>, handler: Option<Handler>, id: nat): seq<Item> {
    if s == [] then []
    else
      var rest := Keep(s[..|s| - 1], handler, id);
      if Match(s[|s| - 1].msg, handler, id) then rest else rest + [s[|s| - 1]]
  }

  function Matching(s: seq<Item>, handler: Option<Handler>, id: nat): seq<Item> {
    if s == [] then []
    else
      var rest := Matching(s[..|s| - 1], handler, id);
      if Match(s[|s| - 1].msg, handler, id) then rest + [s[|s| - 1]] else rest
  }

  function SlotOf(peek: Option<Item>): seq<Item> {
    if peek.Some? then [peek.value] else []
  }

  function Removed(q: Queue, handler: Option<Handler>, id: nat): seq<Item> {
    Matching(SlotOf(q.peek), handler, id) + Matching(q.list, handler, id) + Matching(q.delayed, handler, id)
  }

  function Cleared(q: Queue, handler: Option<Handler>, id: nat): Queue {
    q.(list := Keep(q.list, handler, id), delayed := Keep(q.delayed, handler, id),
       peek := if q.peek.Some? && Match(q.peek.value.msg, handler, id) then None else q.peek,
       cleared := q.cleared + Removed(q, handler, id))
  }

  /** The first delayed message has triggered. */
  predicate CanMove(q: Queue, now: nat) {
    q.delayed != [] && TriggerOf(q.delayed[0]) <= now
  }

  function Max(x: nat, y: nat): nat { if x < y then y else x }

  /** It goes to the end of the list. */
  function Moved(q: Queue, now: nat): Queue {
    if !CanMove(q, now) then q
    else
      var x := q.delayed[0];
      q.(list := q.list + [x], delayed := q.delayed[1..], clock := Max(q.clock, now),
         movedAt := q.movedAt[x.serial := |q.posted|])
  }

  datatype LookResult = Nothing | Skipped | Got(item: Item)

  function PullResult(q: Queue): LookResult {
    if q.list == [] then Nothing else if q.list[0].msg.id == MQID_DISPOSE then Skipped else Got(q.list[0])
  }

  /** The front of the list goes to the caller; a dispose message ends here. */
  function Pulled(q: Queue): Queue {
    match PullResult(q)
    case Nothing => q
    case Skipped => q.(list := q.list[1..], disposed := q.disposed + [q.list[0]])
    case Got(x) => q.(list := q.list[1..], out := q.out + [x])
  }

  function PeekTaken(q: Queue): Queue {
    q.(out := q.out + SlotOf(q.peek), peek := None)
  }

  /** The message that Get has just returned to Peek is kept for the next caller. Whatever the slot
      holds by then is overwritten. */
  function PeekKept(q: Queue): Queue {
    if q.out == [] then q
    else q.(out := q.out[..|q.out| - 1], peek := Some(q.out[|q.out| - 1]), lost := q.lost + SlotOf(q.peek))
  }

  // ---- runs --------------------------------------------------------------------------------------

  datatype Step =
    | Enter(p: Posting)
    | Push(p: Posting)
    | Clear(handler: Option<Handler>, id: nat)
    | Quit
    | Restart
    | Move(now: nat)
    | Pull
    | TakePeek
    | KeepPeek

  function Apply(q: Queue, s: Step): Queue {
    match s
    case Enter(p) => Entered(q, p)
    case Push(p) => Pushed(q, p)
    case Clear(handler, id) => Cleared(q, handler, id)
    case Quit => q.(stop := true)
    case Restart => q.(stop := false)
    case Move(now) => Moved(q, now)
    case Pull => Pulled(q)
    case TakePeek => PeekTaken(q)
    case KeepPeek => PeekKept(q)
  }

  function Run(q: Queue, steps: seq<Step>): Queue {
    if steps == [] then q else Apply(Run(q, steps[..|steps| - 1]), steps[|steps| - 1])
  }

  // ---- what every run keeps ----------------------------------------------------------------------

  /** Everything in the order in which it comes out: delivered, peeked, ready. */
  function Line(q: Queue): seq<Item> { q.out + SlotOf(q.peek) + q.list }

  function Count(s: seq<Item>, x: Item): nat { multiset(s)[x] }

  /** How often a message is in one of the places: in the line, delayed, or at one of the other ends. */
  function Copies(q: Queue, x: Item): nat {
    Count(Line(q), x) + Count(q.delayed, x) + Count(q.disposed, x) + Count(q.cleared, x) + Count(q.lost, x)
  }

  ghost predicate AccountedAt(q: Queue, x: Item) {
    Copies(q, x) == Count(q.posted, x)
  }

  ghost predicate Accounted(q: Queue) {
    forall x :: AccountedAt(q, x)
  }

  /** How many messages a post has become. */
  function Arrivals(posted: seq<Item>, p: Posting): nat {
    if posted == [] then 0
    else
      var x := posted[|posted| - 1];
      Arrivals(posted[..|posted| - 1], p) + if x.msg == p.msg && x.trigger == p.trigger then 1 else 0
  }

  /** Every post that passed its test is in flight or has become one message, and nothing else has. */
  ghost predicate AdmittedAt(q: Queue, p: Posting) {
    q.admitted[p] == q.flight[p] + Arrivals(q.posted, p)
  }

  ghost predicate Admitted(q: Queue) {
    forall p :: AdmittedAt(q, p)
  }

  predicate NumsGrow(x: Item, y: Item) {
    x.trigger.Some? && y.trigger.Some? ==> x.num < y.num
  }

  /** Posts are numbered, and delayed ones among themselves. */
  ghost predicate Numbered(q: Queue) {
    && (forall i :: 0 <= i < |q.posted| ==> q.posted[i].serial == i && (q.posted[i].trigger.Some? ==> q.posted[i].num < q.nextNum))
    && (forall i, j :: 0 <= i < j < |q.posted| ==> NumsGrow(q.posted[i], q.posted[j]))
  }

  /** Two messages in the order in which they may come out: plain posts in the order of the posts, and
      delayed ones that were pending together in the order of their triggers, then of the posts. */
  predicate InOrder(movedAt: map<nat, nat>, x: Item, y: Item) {
    && (x.trigger.None? && y.trigger.None? ==> x.serial < y.serial)
    && (x.trigger.Some? && y.trigger.Some? && x.serial in movedAt && y.serial < movedAt[x.serial] ==> Before(x, y))
  }

  ghost predicate LineInOrder(q: Queue) {
    forall i, j :: 0 <= i < j < |Line(q)| ==> InOrder(q.movedAt, Line(q)[i], Line(q)[j])
  }

  /** What is ready has triggered, and nothing still delayed should have come before it. */
  ghost predicate ReadyAt(q: Queue, x: Item) {
    && x in q.posted
    && (x.trigger.Some? ==> x.serial in q.movedAt && q.movedAt[x.serial] <= |q.posted| && TriggerOf(x) <= q.clock)
    && (forall y :: y in q.delayed ==> InOrder(q.movedAt, x, y))
  }

  ghost predicate Ready(q: Queue) {
    forall i :: 0 <= i < |Line(q)| ==> ReadyAt(q, Line(q)[i])
  }

  /** Each comes out before those behind it. */
  predicate Ascending(s: seq<Item>) {
    forall i, j :: 0 <= i < j < |s| ==> Before(s[i], s[j])
  }

  /** The delayed messages are in order, and the next number is larger than theirs. */
  ghost predicate Pending(q: Queue) {
    Ascending(q.delayed) && forall x :: x in q.delayed ==> x.trigger.Some? && x.num < q.nextNum
  }

  ghost predicate DelayedOk(q: Queue) {
    && Pending(q)
    && (forall x :: x in q.delayed ==> x in q.posted && x.serial !in q.movedAt)
    && (forall k :: k in q.movedAt ==> k < |q.posted|)
  }

  ghost predicate NothingDisposed(q: Queue) {
    && (forall i :: 0 <= i < |q.out| ==> q.out[i].msg.id != MQID_DISPOSE)
    && (q.peek.Some? ==> q.peek.value.msg.id != MQID_DISPOSE)
  }

  /** Everything but the order. */
  ghost predicate Inv(q: Queue) {
    Accounted(q) && Admitted(q) && Numbered(q) && Ready(q) && DelayedOk(q) && NothingDisposed(q)
  }

  // ---- proofs: counting --------------------------------------------------------------------------

  lemma CountAppend(a: seq<Item>, b: seq<Item>, x: Item)
    ensures Count(a + b, x) == Count(a, x) + Count(b, x)
  {
  }

  lemma LineCount(q: Queue, x: Item)
    ensures Count(Line(q), x) == Count(q.out, x) + Count(SlotOf(q.peek), x) + Count(q.list, x)
  {
    CountAppend(q.out + SlotOf(q.peek), q.list, x);
    CountAppend(q.out, SlotOf(q.peek), x);
  }

  lemma {:induction false} FilterCount(s: seq<Item>, handler: Option<Handler>, id: nat, x: Item)
    ensures Count(Keep(s, handler, id), x) == if Match(x.msg, handler, id) then 0 else Count(s, x)
    ensures Count(Matching(s, handler, id), x) == if Match(x.msg, handler, id) then Count(s, x) else 0
  {
    if s != [] {
      var rest, last := s[..|s| - 1], s[|s| - 1];
      FilterCount(rest, handler, id, x);
      assert s == rest + [last];
      CountAppend(rest, [last], x);
      CountAppend(Keep(rest, handler, id), [last], x);
      CountAppend(Matching(rest, handler, id), [last], x);
    }
  }

  /** What Clear removes: everything that matches, wherever it waits. */
  lemma RemovedCount(q: Queue, handler: Option<Handler>, id: nat, x: Item)
    ensures Count(Removed(q, handler, id), x) ==
      if Match(x.msg, handler, id) then Count(SlotOf(q.peek), x) + Count(q.list, x) + Count(q.delayed, x) else 0
  {
    var peeked, listed := Matching(SlotOf(q.peek), handler, id), Matching(q.list, handler, id);
    FilterCount(SlotOf(q.peek), handler, id, x);
    FilterCount(q.list, handler, id, x);
    FilterCount(q.delayed, handler, id, x);
    CountAppend(peeked + listed, Matching(q.delayed, handler, id), x);
    CountAppend(peeked, listed, x);
  }

  lemma ClearAccounted(q: Queue, handler: Option<Handler>, id: nat, x: Item)
    requires AccountedAt(q, x)
    ensures AccountedAt(Cleared(q, handler, id), x)
  {
    var r := Cleared(q, handler, id);
    LineCount(q, x);
    LineCount(r, x);
    FilterCount(q.list, handler, id, x);
    FilterCount(q.delayed, handler, id, x);
    RemovedCount(q, handler, id, x);
    CountAppend(q.cleared, Removed(q, handler, id), x);
  }

  lemma HeadCount(s: seq<Item>, x: Item)
    requires s != []
    ensures Count(s, x) == Count([s[0]], x) + Count(s[1..], x)
  {
    assert s == [s[0]] + s[1..];
    CountAppend([s[0]], s[1..], x);
  }

  lemma LastCount(s: seq<Item>, x: Item)
    requires s != []
    ensures Count(s, x) == Count(s[..|s| - 1], x) + Count([s[|s| - 1]], x)
  {
    assert s == s[..|s| - 1] + [s[|s| - 1]];
    CountAppend(s[..|s| - 1], [s[|s| - 1]], x);
  }

  lemma {:induction false} InsertCount(s: seq<Item>, x: Item, y: Item)
    ensures Count(Insert(s, x), y) == Count(s, y) + Count([x], y)
  {
    if s == [] || !Before(x, s[|s| - 1]) {
      CountAppend(s, [x], y);
    } else {
      InsertCount(s[..|s| - 1], x, y);
      LastCount(s, y);
      CountAppend(Insert(s[..|s| - 1], x), [s[|s| - 1]], y);
    }
  }

  lemma InsertElements(s: seq<Item>, x: Item, y: Item)
    ensures y in Insert(s, x) <==> y == x || y in s
  {
    InsertCount(s, x, y);
    assert y in multiset(Insert(s, x)) <==> y in Insert(s, x);
    assert y in multiset(s) <==> y in s;
  }

  /** The largest number goes behind all that it does not come before. */
  lemma {:induction false} InsertAscending(s: seq<Item>, x: Item)
    requires Ascending(s) && forall y :: y in s ==> y.num < x.num
    ensures Ascending(Insert(s, x))
  {
    if s != [] && Before(x, s[|s| - 1]) {
      var front, last := s[..|s| - 1], s[|s| - 1];
      InsertAscending(front, x);
      forall i | 0 <= i < |Insert(front, x)| ensures Before(Insert(front, x)[i], last) {
        InsertElements(front, x, Insert(front, x)[i]);
      }
    }
  }

  lemma PlainAccounted(q: Queue, p: Posting, x: Item)
    requires AccountedAt(q, x) && p in q.flight && p.trigger.None?
    ensures AccountedAt(Pushed(q, p), x)
  {
    var y := NewItem(q, p);
    LineCount(q, x);
    LineCount(Pushed(q, p), x);
    CountAppend(q.posted, [y], x);
    CountAppend(q.list, [y], x);
  }

  lemma DelayAccounted(q: Queue, p: Posting, x: Item)
    requires AccountedAt(q, x) && p in q.flight && p.trigger.Some?
    ensures AccountedAt(Pushed(q, p), x)
  {
    var y := NewItem(q, p);
    CountAppend(q.posted, [y], x);
    InsertCount(q.delayed, y, x);
  }

  lemma PushAccounted(q: Queue, p: Posting, x: Item)
    requires AccountedAt(q, x)
    ensures AccountedAt(Pushed(q, p), x)
  {
    if p in q.flight {
      if p.trigger.None? { PlainAccounted(q, p, x); } else { DelayAccounted(q, p, x); }
    }
  }

  lemma MoveAccounted(q: Queue, now: nat, x: Item)
    requires AccountedAt(q, x)
    ensures AccountedAt(Moved(q, now), x)
  {
    if CanMove(q, now) {
      LineCount(q, x);
      LineCount(Moved(q, now), x);
      HeadCount(q.delayed, x);
      CountAppend(q.list, [q.delayed[0]], x);
    }
  }

  lemma SkipAccounted(q: Queue, r: Queue, x: Item)
    requires AccountedAt(q, x) && q.list != [] && PullResult(q).Skipped? && r == Pulled(q)
    ensures AccountedAt(r, x)
  {
    LineCount(q, x);
    LineCount(r, x);
    HeadCount(q.list, x);
    CountAppend(q.disposed, [q.list[0]], x);
  }

  lemma GotAccounted(q: Queue, r: Queue, x: Item)
    requires AccountedAt(q, x) && q.list != [] && PullResult(q).Got? && r == Pulled(q)
    ensures AccountedAt(r, x)
  {
    LineCount(q, x);
    LineCount(r, x);
    HeadCount(q.list, x);
    CountAppend(q.out, [q.list[0]], x);
    assert Count(r.out, x) + Count(r.list, x) == Count(q.out, x) + Count(q.list, x);
  }

  lemma PullAccounted(q: Queue, x: Item)
    requires AccountedAt(q, x)
    ensures AccountedAt(Pulled(q), x)
  {
    match PullResult(q)
    case Nothing =>
    case Skipped => SkipAccounted(q, Pulled(q), x);
    case Got(_) => GotAccounted(q, Pulled(q), x);
  }

  lemma TakeAccounted(q: Queue, x: Item)
    requires AccountedAt(q, x)
    ensures AccountedAt(PeekTaken(q), x)
  {
    LineCount(q, x);
    LineCount(PeekTaken(q), x);
    CountAppend(q.out, SlotOf(q.peek), x);
  }

  lemma KeepAccounted(q: Queue, x: Item)
    requires AccountedAt(q, x)
    ensures AccountedAt(PeekKept(q), x)
  {
    if q.out != [] {
      var r := PeekKept(q);
      LineCount(q, x);
      LineCount(r, x);
      LastCount(q.out, x);
      CountAppend(q.lost, SlotOf(q.peek), x);
      assert Count(q.out, x) == Count(r.out, x) + Count(SlotOf(r.peek), x);
    }
  }

  lemma StepAccounted(q: Queue, s: Step)
    requires Accounted(q)
    ensures Accounted(Apply(q, s))
  {
    forall x ensures AccountedAt(Apply(q, s), x) {
      assert AccountedAt(q, x);
      match s
      case Push(p) => PushAccounted(q, p, x);
      case Clear(handler, id) => ClearAccounted(q, handler, id, x);
      case Move(now) => MoveAccounted(q, now, x);
      case Pull => PullAccounted(q, x);
      case TakePeek => TakeAccounted(q, x);
      case KeepPeek => KeepAccounted(q, x);
      case _ =>
    }
  }

  lemma ArrivalsSnoc(posted: seq<Item>, x: Item, p: Posting)
    ensures Arrivals(posted + [x], p) == Arrivals(posted, p) + if x.msg == p.msg && x.trigger == p.trigger then 1 else 0
  {
    assert (posted + [x])[..|posted|] == posted;
  }

  lemma PushAdmitted(q: Queue, p: Posting, o: Posting)
    requires AdmittedAt(q, o)
    ensures AdmittedAt(Pushed(q, p), o)
  {
    if p in q.flight {
      ArrivalsSnoc(q.posted, NewItem(q, p), o);
    }
  }

  lemma StepAdmitted(q: Queue, s: Step)
    requires Admitted(q)
    ensures Admitted(Apply(q, s))
  {
    forall o ensures AdmittedAt(Apply(q, s), o) {
      assert AdmittedAt(q, o);
      match s
      case Push(p) => PushAdmitted(q, p, o);
      case _ =>
    }
  }

  // ---- proofs: numbers and readiness -------------------------------------------------------------

  lemma PushNumbered(q: Queue, p: Posting)
    requires Numbered(q)
    ensures Numbered(Pushed(q, p))
  {
    if p in q.flight {
      var s, x := q.posted, NewItem(q, p);
      forall i | 0 <= i < |s| ensures NumsGrow(s[i], x) {
      }
    }
  }

  lemma StepNumbered(q: Queue, s: Step)
    requires Numbered(q)
    ensures Numbered(Apply(q, s))
  {
    match s
    case Push(p) => PushNumbered(q, p);
    case _ => assert Apply(q, s).posted == q.posted && Apply(q, s).nextNum == q.nextNum;
  }

  /** Two accepted messages with the same number are the same, or not both delayed. */
  lemma NumsDiffer(q: Queue, x: Item, y: Item)
    requires Numbered(q) && x in q.posted && y in q.posted && x != y && x.trigger.Some? && y.trigger.Some?
    ensures x.num != y.num && x.serial != y.serial
    ensures x.serial < y.serial <==> x.num < y.num
  {
    var i :| 0 <= i < |q.posted| && q.posted[i] == x;
    var j :| 0 <= j < |q.posted| && q.posted[j] == y;
    if i < j {
      assert NumsGrow(q.posted[i], q.posted[j]);
    } else {
      assert NumsGrow(q.posted[j], q.posted[i]);
    }
  }

  lemma {:induction false} KeepElements(s: seq<Item>, handler: Option<Handler>, id: nat, x: Item)
    ensures x in Keep(s, handler, id) <==> x in s && !Match(x.msg, handler, id)
  {
    FilterCount(s, handler, id, x);
    assert x in multiset(s) <==> x in s;
    assert x in multiset(Keep(s, handler, id)) <==> x in Keep(s, handler, id);
  }

  lemma InLine(q: Queue, x: Item)
    ensures x in Line(q) <==> x in q.out || q.peek == Some(x) || x in q.list
  {
  }

  /** Accepting a message, or fewer delayed ones, leaves the ready ones ready. */
  lemma StaysReady(q: Queue, r: Queue, x: Item)
    requires ReadyAt(q, x) && q.posted <= r.posted && r.movedAt == q.movedAt && q.clock <= r.clock
    requires forall y :: y in r.delayed ==> y.trigger.Some? && (y in q.delayed || y.serial == |q.posted|)
    ensures ReadyAt(r, x)
  {
    assert forall y :: y in q.posted ==> y in r.posted;
  }

  /** The first of those that ascend comes before the others. */
  lemma HeadIsFirst(s: seq<Item>, y: Item)
    requires s != [] && Ascending(s) && y in s[1..]
    ensures Before(s[0], y)
  {
  }

  lemma MovedReady(q: Queue, now: nat, x: Item)
    requires Inv(q) && CanMove(q, now) && (ReadyAt(q, x) || x == q.delayed[0])
    ensures ReadyAt(Moved(q, now), x)
  {
    var r, y := Moved(q, now), q.delayed[0];
    assert forall z :: z in r.delayed ==> z in q.delayed;
    if x == y {
      forall z | z in r.delayed ensures InOrder(r.movedAt, x, z) {
        HeadIsFirst(q.delayed, z);
      }
    } else if x.trigger.Some? {
      NumsDiffer(q, x, y);
    }
  }

  lemma PostedSerials(q: Queue)
    requires Numbered(q)
    ensures forall y :: y in q.posted ==> y.serial < |q.posted|
  {
  }

  /** A step that only takes from the line, or moves within it. */
  lemma LessReady(q: Queue, r: Queue)
    requires Inv(q) && q.posted == r.posted && r.movedAt == q.movedAt && q.clock <= r.clock
    requires forall x :: x in r.delayed ==> x in q.delayed
    requires forall x :: x in Line(r) ==> x in Line(q)
    ensures Ready(r)
  {
    forall x | x in Line(r) ensures ReadyAt(r, x) {
      StaysReady(q, r, x);
    }
  }

  /** What a push adds. */
  lemma PushElements(q: Queue, p: Posting, x: Item)
    requires p in q.flight
    ensures x in Pushed(q, p).delayed <==> x in q.delayed || (p.trigger.Some? && x == NewItem(q, p))
    ensures x in Pushed(q, p).list <==> x in q.list || (p.trigger.None? && x == NewItem(q, p))
    ensures NewItem(q, p) in Pushed(q, p).posted
  {
    if p.trigger.Some? {
      InsertElements(q.delayed, NewItem(q, p), x);
    }
    assert Pushed(q, p).posted[|q.posted|] == NewItem(q, p);
  }

  lemma PushReady(q: Queue, p: Posting)
    requires Inv(q)
    ensures Ready(Pushed(q, p))
  {
    var r := Pushed(q, p);
    if p in q.flight {
      forall y | y in r.delayed ensures y.trigger.Some? && (y in q.delayed || y.serial == |q.posted|) {
        PushElements(q, p, y);
      }
      forall x | x in Line(r) ensures ReadyAt(r, x) {
        InLine(q, x);
        InLine(r, x);
        PushElements(q, p, x);
        if x in Line(q) {
          StaysReady(q, r, x);
        }
      }
    }
  }

  lemma MoveReady(q: Queue, now: nat)
    requires Inv(q)
    ensures Ready(Moved(q, now))
  {
    if CanMove(q, now) {
      var r := Moved(q, now);
      forall x | x in Line(r) ensures ReadyAt(r, x) {
        InLine(q, x);
        InLine(r, x);
        MovedReady(q, now, x);
      }
    }
  }

  lemma Shrinks(q: Queue, s: Step)
    requires !s.Push? && !s.Move?
    ensures forall x :: x in Line(Apply(q, s)) ==> x in Line(q)
    ensures forall x :: x in Apply(q, s).delayed ==> x in q.delayed
  {
    var r := Apply(q, s);
    forall x | x in Line(r) ensures x in Line(q) {
      InLine(q, x);
      InLine(r, x);
      if s.Clear? {
        KeepElements(q.list, s.handler, s.id, x);
      }
    }
    forall x | x in r.delayed ensures x in q.delayed {
      if s.Clear? {
        KeepElements(q.delayed, s.handler, s.id, x);
      }
    }
  }

  lemma StepReady(q: Queue, s: Step)
    requires Inv(q)
    ensures Ready(Apply(q, s))
  {
    match s
    case Push(p) => PushReady(q, p);
    case Move(now) => MoveReady(q, now);
    case _ =>
      Shrinks(q, s);
      LessReady(q, Apply(q, s));
  }

  lemma KeepAscending(s: seq<Item>, handler: Option<Handler>, id: nat)
    requires Ascending(s)
    ensures Ascending(Keep(s, handler, id))
  {
    var at := KeepIsSubsequence(s, handler, id);
    var t := Keep(s, handler, id);
    forall i, j | 0 <= i < j < |t| ensures Before(t[i], t[j]) {
      assert Before(s[at[i]], s[at[j]]);
    }
  }

  /** The delayed messages stay in order whatever happens. */
  lemma StepPending(q: Queue, s: Step)
    requires Pending(q)
    ensures Pending(Apply(q, s))
  {
    var r := Apply(q, s);
    match s
    case Push(p) =>
      if p in q.flight && p.trigger.Some? {
        InsertAscending(q.delayed, NewItem(q, p));
        forall x | x in r.delayed ensures x.trigger.Some? && x.num < r.nextNum {
          PushElements(q, p, x);
        }
      }
    case Clear(handler, id) =>
      Shrinks(q, s);
      KeepAscending(q.delayed, handler, id);
    case _ => assert forall x :: x in r.delayed ==> x in q.delayed;
  }

  /** A message that is still delayed is not the one that moves. */
  lemma MoveDelayed(q: Queue, now: nat, x: Item)
    requires Inv(q) && CanMove(q, now) && x in Moved(q, now).delayed
    ensures x in q.delayed && x.serial !in Moved(q, now).movedAt
  {
    HeadIsFirst(q.delayed, x);
    assert x in q.delayed;
    NumsDiffer(q, x, q.delayed[0]);
  }

  lemma StaysDelayed(q: Queue, s: Step, x: Item)
    requires Inv(q) && x in Apply(q, s).delayed
    ensures x in Apply(q, s).posted && x.serial !in Apply(q, s).movedAt
  {
    PostedSerials(q);
    match s
    case Push(p) => if p in q.flight { PushElements(q, p, x); }
    case Move(now) => if CanMove(q, now) { MoveDelayed(q, now, x); }
    case _ => Shrinks(q, s);
  }

  lemma StepMovedAt(q: Queue, s: Step)
    requires Inv(q)
    ensures forall k :: k in Apply(q, s).movedAt ==> k < |Apply(q, s).posted|
  {
    StepPosted(q, s);
    PostedSerials(q);
    if s.Move? && CanMove(q, s.now) {
      assert q.delayed[0] in q.delayed;
    }
  }

  lemma StepDelayedOk(q: Queue, s: Step)
    requires Inv(q)
    ensures DelayedOk(Apply(q, s))
  {
    StepPending(q, s);
    StepMovedAt(q, s);
    forall x | x in Apply(q, s).delayed ensures x in Apply(q, s).posted && x.serial !in Apply(q, s).movedAt {
      StaysDelayed(q, s, x);
    }
  }

  lemma StepNothingDisposed(q: Queue, s: Step)
    requires NothingDisposed(q)
    ensures NothingDisposed(Apply(q, s))
  {
  }

  lemma StepInv(q: Queue, s: Step)
    requires Inv(q)
    ensures Inv(Apply(q, s))
  {
    StepAccounted(q, s);
    StepAdmitted(q, s);
    StepNumbered(q, s);
    StepReady(q, s);
    StepDelayedOk(q, s);
    StepNothingDisposed(q, s);
  }

  // ---- proofs: the order -------------------------------------------------------------------------

  /** A message is handed out from the list although a peeked one waits. */
  predicate Overtakes(q: Queue, s: Step) {
    s.Pull? && q.peek.Some? && PullResult(q).Got?
  }

  ghost predicate SeqInOrder(movedAt: map<nat, nat>, s: seq<Item>) {
    forall i, j :: 0 <= i < j < |s| ==> InOrder(movedAt, s[i], s[j])
  }

  /** What remains of a sequence, by the positions that remain. */
  ghost predicate Subsequence(s: seq<Item>, t: seq<Item>, at: seq<nat>) {
    && |at| == |t| && (forall i :: 0 <= i < |t| ==> at[i] < |s| && t[i] == s[at[i]])
    && (forall i, j :: 0 <= i < j < |t| ==> at[i] < at[j])
  }

  lemma SubsequenceInOrder(movedAt: map<nat, nat>, s: seq<Item>, t: seq<Item>, at: seq<nat>)
    requires SeqInOrder(movedAt, s) && Subsequence(s, t, at)
    ensures SeqInOrder(movedAt, t)
  {
    forall i, j | 0 <= i < j < |t| ensures InOrder(movedAt, t[i], t[j]) {
      assert InOrder(movedAt, s[at[i]], s[at[j]]);
    }
  }

  lemma {:induction false} KeepIsSubsequence(s: seq<Item>, handler: Option<Handler>, id: nat) returns (at: seq<nat>)
    ensures Subsequence(s, Keep(s, handler, id), at)
  {
    if s == [] {
      at := [];
    } else {
      at := KeepIsSubsequence(s[..|s| - 1], handler, id);
      if !Match(s[|s| - 1].msg, handler, id) {
        at := at + [|s| - 1];
      }
    }
  }

  lemma AppendSubsequence(s: seq<Item>, t: seq<Item>, at: seq<nat>, s': seq<Item>, t': seq<Item>, at': seq<nat>)
    returns (all: seq<nat>)
    requires Subsequence(s, t, at) && Subsequence(s', t', at')
    ensures Subsequence(s + s', t + t', all)
  {
    all := at + seq(|t'|, i requires 0 <= i < |t'| => |s| + at'[i]);
  }

  lemma Same(s: seq<Item>) returns (at: seq<nat>)
    ensures Subsequence(s, s, at)
  {
    at := seq(|s|, i => i);
  }

  lemma Without(s: seq<Item>, t: seq<Item>, u: seq<Item>) returns (at: seq<nat>)
    ensures Subsequence(s + t + u, s + u, at)
  {
    at := seq(|s + u|, i => if i < |s| then i else |t| + i);
  }

  /** Clear leaves all others in the same relative order. */
  lemma ClearKeepsOrder(q: Queue, handler: Option<Handler>, id: nat) returns (at: seq<nat>)
    ensures Subsequence(Line(q), Line(Cleared(q, handler, id)), at)
  {
    var r := Cleared(q, handler, id);
    var kept := KeepIsSubsequence(q.list, handler, id);
    var out := Same(q.out);
    var slot := if r.peek == q.peek then seq(|SlotOf(q.peek)|, i => i) else [];
    var front := AppendSubsequence(q.out, q.out, out, SlotOf(q.peek), SlotOf(r.peek), slot);
    at := AppendSubsequence(q.out + SlotOf(q.peek), q.out + SlotOf(r.peek), front, q.list, r.list, kept);
  }

  lemma AppendInOrder(movedAt: map<nat, nat>, s: seq<Item>, x: Item)
    requires SeqInOrder(movedAt, s) && forall i :: 0 <= i < |s| ==> InOrder(movedAt, s[i], x)
    ensures SeqInOrder(movedAt, s + [x])
  {
  }

  lemma PushInOrder(q: Queue, p: Posting)
    requires Inv(q) && LineInOrder(q)
    ensures LineInOrder(Pushed(q, p))
  {
    if p in q.flight && p.trigger.None? {
      var x := NewItem(q, p);
      PostedSerials(q);
      forall i | 0 <= i < |Line(q)| ensures InOrder(q.movedAt, Line(q)[i], x) {
        assert ReadyAt(q, Line(q)[i]);
      }
      AppendInOrder(q.movedAt, Line(q), x);
      Assoc3(q.out + SlotOf(q.peek), q.list, [x]);
    } else {
      assert Line(Pushed(q, p)) == Line(q);
    }
  }

  lemma MoveInOrder(q: Queue, now: nat)
    requires Inv(q) && LineInOrder(q)
    ensures LineInOrder(Moved(q, now))
  {
    if CanMove(q, now) {
      var r, x := Moved(q, now), q.delayed[0];
      assert x in q.delayed;
      PostedSerials(q);
      forall i | 0 <= i < |Line(q)| ensures InOrder(r.movedAt, Line(q)[i], x) {
        assert ReadyAt(q, Line(q)[i]);
      }
      forall i, j | 0 <= i < j < |Line(q)| ensures InOrder(r.movedAt, Line(q)[i], Line(q)[j]) {
        assert ReadyAt(q, Line(q)[i]);
        if Line(q)[i].trigger.Some? {
          NumbersName(q, Line(q)[i], x);
        }
      }
      AppendInOrder(r.movedAt, Line(q), x);
      Assoc3(q.out + SlotOf(q.peek), q.list, [x]);
    }
  }

  /** A message that is ready is not the one that is still delayed. */
  lemma NumbersName(q: Queue, x: Item, y: Item)
    requires Inv(q) && ReadyAt(q, x) && y in q.delayed && x.trigger.Some?
    ensures x.serial != y.serial
  {
  }

  lemma PullInOrder(q: Queue)
    requires LineInOrder(q) && !Overtakes(q, Pull)
    ensures LineInOrder(Pulled(q))
  {
    if q.list != [] {
      var x, front := q.list[0], q.out + SlotOf(q.peek);
      assert q.list == [x] + q.list[1..];
      Assoc3(front, [x], q.list[1..]);
      if PullResult(q).Skipped? {
        var at := Without(front, [x], q.list[1..]);
        SubsequenceInOrder(q.movedAt, Line(q), front + q.list[1..], at);
        assert Line(Pulled(q)) == front + q.list[1..];
      } else {
        assert front == q.out && SlotOf(Pulled(q).peek) == [] && q.out + [x] + [] == q.out + [x];
        assert Line(Pulled(q)) == Line(q);
      }
    }
  }

  lemma PeekInOrder(q: Queue)
    requires LineInOrder(q)
    ensures LineInOrder(PeekTaken(q)) && LineInOrder(PeekKept(q))
  {
    assert Line(PeekTaken(q)) == Line(q);
    if q.out != [] {
      var x := q.out[|q.out| - 1];
      var at := Without(q.out, SlotOf(q.peek), q.list);
      SubsequenceInOrder(q.movedAt, Line(q), q.out + q.list, at);
      assert q.out == q.out[..|q.out| - 1] + [x];
      assert Line(PeekKept(q)) == q.out + q.list;
    }
  }

  lemma StepInOrder(q: Queue, s: Step)
    requires Inv(q) && LineInOrder(q) && !Overtakes(q, s)
    ensures LineInOrder(Apply(q, s))
  {
    match s
    case Push(p) => PushInOrder(q, p);
    case Clear(handler, id) =>
      var at := ClearKeepsOrder(q, handler, id);
      SubsequenceInOrder(q.movedAt, Line(q), Line(Apply(q, s)), at);
    case Move(now) => MoveInOrder(q, now);
    case Pull => PullInOrder(q);
    case TakePeek => PeekInOrder(q);
    case KeepPeek => PeekInOrder(q);
    case _ => assert Line(Apply(q, s)) == Line(q);
  }

  /** Peek overwrites a full slot. */
  predicate Overwrites(q: Queue, s: Step) {
    s.KeepPeek? && q.peek.Some? && q.out != []
  }

  /** Nothing else loses a message. */
  lemma LosesIff(q: Queue, s: Step)
    ensures Apply(q, s).lost == q.lost + if Overwrites(q, s) then SlotOf(q.peek) else []
  {
  }

  // ---- whole runs --------------------------------------------------------------------------------

  /** No step of the run takes from the list while a peeked message waits, or overwrites that message. */
  predicate Orderly(q: Queue, steps: seq<Step>) {
    steps == []
    || (var before, s := Run(q, steps[..|steps| - 1]), steps[|steps| - 1];
        Orderly(q, steps[..|steps| - 1]) && !Overtakes(before, s) && !Overwrites(before, s))
  }

  lemma {:induction false} RunInv(q: Queue, steps: seq<Step>)
    requires Inv(q)
    ensures Inv(Run(q, steps))
  {
    if steps != [] {
      RunInv(q, steps[..|steps| - 1]);
      StepInv(Run(q, steps[..|steps| - 1]), steps[|steps| - 1]);
    }
  }

  lemma {:induction false} RunInOrder(q: Queue, steps: seq<Step>)
    requires Inv(q) && LineInOrder(q) && Orderly(q, steps)
    ensures LineInOrder(Run(q, steps)) && Run(q, steps).lost == q.lost
  {
    if steps != [] {
      var init, s := steps[..|steps| - 1], steps[|steps| - 1];
      RunInv(q, init);
      RunInOrder(q, init);
      StepInOrder(Run(q, init), s);
      LosesIff(Run(q, init), s);
    }
  }

  lemma RunSnoc(q: Queue, steps: seq<Step>, s: Step)
    ensures Run(q, steps + [s]) == Apply(Run(q, steps), s)
    ensures Orderly(q, steps + [s]) <==>
      Orderly(q, steps) && !Overtakes(Run(q, steps), s) && !Overwrites(Run(q, steps), s)
  {
    assert (steps + [s])[..|steps|] == steps;
  }

  lemma {:induction false} RunAppend(q: Queue, a: seq<Step>, b: seq<Step>)
    ensures Run(q, a + b) == Run(Run(q, a), b)
    ensures Orderly(q, a + b) <==> Orderly(q, a) && Orderly(Run(q, a), b)
  {
    if b == [] {
      assert a + b == a;
    } else {
      var init, s := b[..|b| - 1], b[|b| - 1];
      RunAppend(q, a, init);
      RunSnoc(q, a + init, s);
      RunSnoc(Run(q, a), init, s);
      assert init + [s] == b && a + init + [s] == a + b;
    }
  }

  /** One queue comes from the other by a run; a clean one neither overtakes nor overwrites a peeked message. */
  ghost predicate Path(q: Queue, r: Queue, clean: bool) {
    exists steps :: Run(q, steps) == r && (clean ==> Orderly(q, steps))
  }

  lemma NoPath(q: Queue)
    ensures Path(q, q, true)
  {
    var none: seq<Step> := [];
    assert Run(q, none) == q && Orderly(q, none);
  }

  lemma StepPath(q: Queue, s: Step, r: Queue)
    requires r == Apply(q, s)
    ensures Path(q, r, !Overtakes(q, s) && !Overwrites(q, s))
  {
    var none: seq<Step> := [];
    RunSnoc(q, none, s);
    assert Run(q, none + [s]) == r;
  }

  lemma PathTrans(q: Queue, p: Queue, r: Queue, clean: bool, again: bool)
    requires Path(q, p, clean) && Path(p, r, again)
    ensures Path(q, r, clean && again)
  {
    var a :| Run(q, a) == p && (clean ==> Orderly(q, a));
    var b :| Run(p, b) == r && (again ==> Orderly(p, b));
    RunAppend(q, a, b);
  }

  lemma PathWeaker(q: Queue, r: Queue, clean: bool, less: bool)
    requires Path(q, r, clean) && (less ==> clean)
    ensures Path(q, r, less)
  {
    var a :| Run(q, a) == r && (clean ==> Orderly(q, a));
  }

  lemma PathInv(q: Queue, r: Queue, clean: bool)
    requires Path(q, r, clean) && Inv(q)
    ensures Inv(r)
    ensures clean && LineInOrder(q) ==> LineInOrder(r) && r.lost == q.lost
  {
    var a :| Run(q, a) == r && (clean ==> Orderly(q, a));
    RunInv(q, a);
    if clean && LineInOrder(q) {
      RunInOrder(q, a);
    }
  }

  lemma {:induction false} RunPending(q: Queue, steps: seq<Step>)
    requires Pending(q)
    ensures Pending(Run(q, steps))
  {
    if steps != [] {
      RunPending(q, steps[..|steps| - 1]);
      StepPending(Run(q, steps[..|steps| - 1]), steps[|steps| - 1]);
    }
  }

  lemma PathPending(q: Queue, r: Queue, clean: bool)
    requires Path(q, r, clean) && Pending(q)
    ensures Pending(r)
  {
    var a :| Run(q, a) == r && (clean ==> Orderly(q, a));
    RunPending(q, a);
  }

  lemma {:induction false} PostedGrows(q: Queue, steps: seq<Step>)
    ensures q.posted <= Run(q, steps).posted
  {
    if steps != [] {
      PostedGrows(q, steps[..|steps| - 1]);
      StepPosted(Run(q, steps[..|steps| - 1]), steps[|steps| - 1]);
    }
  }

  lemma StepPosted(q: Queue, s: Step)
    ensures q.posted <= Apply(q, s).posted
  {
  }

  lemma EmptyInv()
    ensures Inv(EMPTY) && LineInOrder(EMPTY)
  {
    assert Line(EMPTY) == [];
  }

  // ---- the results -------------------------------------------------------------------------------

  /** Every accepted message of every run is delivered, peeked, ready, delayed, disposed, cleared or lost: in
      exactly one of these places, and there once; nothing else is anywhere. */
  lemma DeliveredOnce(q: Queue, x: Item)
    requires Path(EMPTY, q, false)
    ensures Copies(q, x) == if x in q.posted then 1 else 0
  {
    EmptyInv();
    PathInv(EMPTY, q, false);
    assert AccountedAt(q, x);
    if x in q.posted {
      var i :| 0 <= i < |q.posted| && q.posted[i] == x;
      OnceIn(q, i);
    } else {
      assert x !in multiset(q.posted);
    }
  }

  lemma OnceIn(q: Queue, i: nat)
    requires Numbered(q) && i < |q.posted|
    ensures Count(q.posted, q.posted[i]) == 1
  {
    var x := q.posted[i];
    assert q.posted == q.posted[..i] + [x] + q.posted[i + 1..];
    CountAppend(q.posted[..i] + [x], q.posted[i + 1..], x);
    CountAppend(q.posted[..i], [x], x);
    assert x !in q.posted[..i] && x !in q.posted[i + 1..];
    assert multiset(q.posted[..i])[x] == 0 && multiset(q.posted[i + 1..])[x] == 0;
  }

  /** Posts and messages: a post that found the queue not stopped is in flight or has become one message. */
  lemma AdmittedOnce(q: Queue, p: Posting)
    requires Path(EMPTY, q, false)
    ensures q.admitted[p] == q.flight[p] + Arrivals(q.posted, p)
  {
    EmptyInv();
    PathInv(EMPTY, q, false);
    assert AdmittedAt(q, p);
  }

  /** Delivery order of every clean run: plain posts in the order of the posts, delayed messages that were pending
      together by trigger and then by post; and nothing is lost. */
  lemma DeliveredInOrder(q: Queue, i: nat, j: nat)
    requires Path(EMPTY, q, true) && i < j < |q.out|
    ensures InOrder(q.movedAt, q.out[i], q.out[j]) && q.lost == []
  {
    EmptyInv();
    PathInv(EMPTY, q, true);
    assert q.out[i] == Line(q)[i] && q.out[j] == Line(q)[j];
  }

  lemma LaterNumber(q: Queue, i: nat, j: nat)
    requires Numbered(q) && i < |q.posted| && j < |q.posted| && q.posted[i].trigger.Some? && q.posted[j].trigger.Some?
    ensures i < j ==> q.posted[i].num < q.posted[j].num
  {
    assert i < j ==> NumsGrow(q.posted[i], q.posted[j]);
  }

  lemma NumberIsPlace(q: Queue, x: Item, y: Item)
    requires Numbered(q) && x in q.posted && y in q.posted && x.trigger.Some? && y.trigger.Some? && x.num < y.num
    ensures x.serial < y.serial
  {
    var i :| 0 <= i < |q.posted| && q.posted[i] == x;
    var j :| 0 <= j < |q.posted| && q.posted[j] == y;
    LaterNumber(q, j, i);
  }

  /** Delayed messages that waited together come out in the order of their triggers, and those with one trigger in the
      order in which they were posted. */
  lemma DelayedInOrder(q: Queue, i: nat, j: nat, x: Item, y: Item)
    requires Path(EMPTY, q, true) && i < j < |q.out| && x == q.out[i] && y == q.out[j] && x.trigger.Some? && y.trigger.Some?
    ensures x.serial in q.movedAt
    ensures y.serial < q.movedAt[x.serial] ==>
      x.trigger.value < y.trigger.value || (x.trigger.value == y.trigger.value && x.serial < y.serial)
  {
    EmptyInv();
    PathInv(EMPTY, q, true);
    assert x == Line(q)[i] && y == Line(q)[j];
    assert ReadyAt(q, x) && ReadyAt(q, y);
    if y.serial < q.movedAt[x.serial] {
      DeliveredInOrder(q, i, j);
      if x.trigger == y.trigger { NumberIsPlace(q, x, y); }
    }
  }

  lemma NeverEarly(q: Queue, x: Item)
    requires Path(EMPTY, q, false) && x in q.out
    ensures x.msg.id != MQID_DISPOSE && TriggerOf(x) <= q.clock
  {
    EmptyInv();
    PathInv(EMPTY, q, false);
    InLine(q, x);
    assert ReadyAt(q, x);
  }
}
