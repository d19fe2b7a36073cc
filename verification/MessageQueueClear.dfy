/** What Clear means for everything that comes later: the queue goes on as it would have done without the Clear, minus
    the messages that matched. */
module MessageQueueClear {
  import opened Bytes
  import opened MessageQueueSpec
  import opened MessageQueueCalls
  import opened MessageQueueQuit
  import opened MessageQueuePeek
  import opened MessageQueueHistory

  /** What Clear is asked to remove. */
  function Doomed(q: Queue, handler: Option<Handler>, id: nat): set<Item> {
    set x | x in SlotOf(q.peek) + q.list + q.delayed && Match(x.msg, handler, id)
  }

  function Without(s: seq<Item>, d: set<Item>): seq<Item> {
    if s == [] then []
    else
      var rest := Without(s[..|s| - 1], d);
      if s[|s| - 1] in d then rest else rest + [s[|s| - 1]]
  }

  function SlotWithout(peek: Option<Item>, d: set<Item>): Option<Item> {
    if peek.Some? && peek.value in d then None else peek
  }

  /** The queue c is the queue q without the doomed messages. */
  ghost predicate Spares(q: Queue, c: Queue, d: set<Item>) {
    && c.list == Without(q.list, d) && c.delayed == Without(q.delayed, d) && c.peek == SlotWithout(q.peek, d)
    && c.out == Without(q.out, d) && c.disposed == Without(q.disposed, d) && c.lost == Without(q.lost, d)
    && c.stop == q.stop && c.nextNum == q.nextNum && c.flight == q.flight && c.posted == q.posted
  }

  /** The step concerns a doomed message alone. */
  predicate IsSpared(q: Queue, s: Step, d: set<Item>) {
    || (s.Move? && CanMove(q, s.now) && q.delayed[0] in d)
    || (s.Pull? && q.list != [] && q.list[0] in d)
    || (s.KeepPeek? && q.out != [] && q.out[|q.out| - 1] in d)
  }

  /** A run without the steps that concern doomed messages. */
  function Spared(q: Queue, steps: seq<Step>, d: set<Item>): seq<Step> {
    if steps == [] then []
    else
      var init, s := steps[..|steps| - 1], steps[|steps| - 1];
      Spared(q, init, d) + if IsSpared(Run(q, init), s, d) then [] else [s]
  }

  predicate NeverOverwrites(q: Queue, steps: seq<Step>) {
    steps == []
    || (NeverOverwrites(q, steps[..|steps| - 1]) && !Overwrites(Run(q, steps[..|steps| - 1]), steps[|steps| - 1]))
  }

  // ---- sequences ---------------------------------------------------------------------------------

  lemma WithoutSnoc(s: seq<Item>, x: Item, d: set<Item>)
    ensures Without(s + [x], d) == if x in d then Without(s, d) else Without(s, d) + [x]
  {
    assert (s + [x])[..|s|] == s;
  }

  lemma {:induction false} WithoutHead(s: seq<Item>, d: set<Item>)
    requires s != []
    ensures Without(s, d) == (if s[0] in d then [] else [s[0]]) + Without(s[1..], d)
  {
    var head := if s[0] in d then [] else [s[0]];
    if |s| == 1 {
      assert s[..0] == [] && s[1..] == [];
    } else {
      var init, last := s[..|s| - 1], s[|s| - 1];
      WithoutHead(init, d);
      assert s[1..][..|s| - 2] == init[1..] && s[1..][|s| - 2] == last;
      Assoc3(head, Without(init[1..], d), [last]);
    }
  }

  lemma {:induction false} WithoutNone(s: seq<Item>, d: set<Item>)
    requires forall x :: x in s ==> x !in d
    ensures Without(s, d) == s
  {
    if s != [] {
      WithoutNone(s[..|s| - 1], d);
      assert s == s[..|s| - 1] + [s[|s| - 1]];
    }
  }

  lemma {:induction false} WithoutElements(s: seq<Item>, d: set<Item>, x: Item)
    ensures x in Without(s, d) <==> x in s && x !in d
  {
    if s != [] {
      WithoutElements(s[..|s| - 1], d, x);
      assert x in s <==> x in s[..|s| - 1] || x == s[|s| - 1];
    }
  }

  /** Among messages that are doomed exactly if they match, removing and keeping are one. */
  lemma {:induction false} WithoutIsKeep(s: seq<Item>, d: set<Item>, handler: Option<Handler>, id: nat)
    requires forall x :: x in s ==> (x in d <==> Match(x.msg, handler, id))
    ensures Without(s, d) == Keep(s, handler, id)
  {
    if s != [] {
      assert s[|s| - 1] in s;
      WithoutIsKeep(s[..|s| - 1], d, handler, id);
    }
  }

  lemma {:induction false} WithoutKeep(s: seq<Item>, d: set<Item>, handler: Option<Handler>, id: nat)
    ensures Without(Keep(s, handler, id), d) == Keep(Without(s, d), handler, id)
  {
    if s != [] {
      var init, last := s[..|s| - 1], s[|s| - 1];
      WithoutKeep(init, d, handler, id);
      WithoutSnoc(Keep(init, handler, id), last, d);
      assert (Without(init, d) + [last])[..|Without(init, d)|] == Without(init, d);
    }
  }

  /** The last of what remains comes before everything behind it. */
  lemma NotBehind(s: seq<Item>, x: Item, z: Item)
    requires s != [] && Ascending(s) && z in s && !Before(x, s[|s| - 1])
    ensures !Before(x, z)
  {
    var i :| 0 <= i < |s| && s[i] == z;
    assert i < |s| - 1 ==> Before(s[i], s[|s| - 1]);
  }

  lemma {:induction false} WithoutInsert(s: seq<Item>, d: set<Item>, x: Item)
    requires Ascending(s) && x !in d
    ensures Without(Insert(s, x), d) == Insert(Without(s, d), x)
  {
    var t := Without(s, d);
    if s == [] {
      WithoutSnoc(s, x, d);
    } else if !Before(x, s[|s| - 1]) {
      WithoutSnoc(s, x, d);
      if t != [] {
        WithoutElements(s, d, t[|t| - 1]);
        NotBehind(s, x, t[|t| - 1]);
      }
    } else {
      var init, last := s[..|s| - 1], s[|s| - 1];
      WithoutInsert(init, d, x);
      WithoutSnoc(Insert(init, x), last, d);
      if last !in d { assert t[..|t| - 1] == Without(init, d); }
    }
  }

  // ---- one step ----------------------------------------------------------------------------------

  lemma PushSpares(q: Queue, c: Queue, d: set<Item>, p: Posting)
    requires Spares(q, c, d) && Pending(q) && forall x :: x in d ==> x.serial < |q.posted|
    ensures Spares(Pushed(q, p), Pushed(c, p), d)
  {
    if p in q.flight {
      var x := NewItem(q, p);
      if p.trigger.None? { WithoutSnoc(q.list, x, d); } else { WithoutInsert(q.delayed, d, x); }
    }
  }

  lemma ClearSpares(q: Queue, c: Queue, d: set<Item>, handler: Option<Handler>, id: nat)
    requires Spares(q, c, d)
    ensures Spares(Cleared(q, handler, id), Cleared(c, handler, id), d)
  {
    WithoutKeep(q.list, d, handler, id);
    WithoutKeep(q.delayed, d, handler, id);
  }

  /** If the first delayed message is doomed and not due, no other one is due. */
  lemma NoneDueWithout(q: Queue, c: Queue, d: set<Item>, now: nat)
    requires Spares(q, c, d) && Pending(q) && !CanMove(q, now)
    ensures !CanMove(c, now)
  {
    if c.delayed != [] {
      var z := c.delayed[0];
      WithoutElements(q.delayed, d, z);
      var i :| 0 <= i < |q.delayed| && q.delayed[i] == z;
      assert i > 0 ==> Before(q.delayed[0], q.delayed[i]);
    }
  }

  lemma MoveSpares(q: Queue, c: Queue, d: set<Item>, now: nat)
    requires Spares(q, c, d) && Pending(q)
    ensures Spares(Moved(q, now), if IsSpared(q, Move(now), d) then c else Moved(c, now), d)
  {
    if CanMove(q, now) {
      WithoutHead(q.delayed, d);
      WithoutSnoc(q.list, q.delayed[0], d);
      if q.delayed[0] !in d { Cons(q.delayed[0], Without(q.delayed[1..], d)); }
    } else {
      NoneDueWithout(q, c, d, now);
    }
  }

  lemma PullKeeps(q: Queue, c: Queue, d: set<Item>, x: Item)
    requires Spares(q, c, d) && q.list != [] && q.list[0] == x && x !in d
    ensures Spares(Pulled(q), Pulled(c), d)
  {
    WithoutHead(q.list, d);
    Cons(x, Without(q.list[1..], d));
    if x.msg.id == MQID_DISPOSE { WithoutSnoc(q.disposed, x, d); } else { WithoutSnoc(q.out, x, d); }
  }

  lemma PullSkips(q: Queue, c: Queue, d: set<Item>, x: Item)
    requires Spares(q, c, d) && q.list != [] && q.list[0] == x && x in d
    ensures Spares(Pulled(q), c, d)
  {
    WithoutHead(q.list, d);
    assert [] + Without(q.list[1..], d) == Without(q.list[1..], d);
    if x.msg.id == MQID_DISPOSE { WithoutSnoc(q.disposed, x, d); } else { WithoutSnoc(q.out, x, d); }
  }

  lemma PullSpares(q: Queue, c: Queue, d: set<Item>)
    requires Spares(q, c, d)
    ensures Spares(Pulled(q), if IsSpared(q, Pull, d) then c else Pulled(c), d)
  {
    if q.list != [] {
      if q.list[0] in d { PullSkips(q, c, d, q.list[0]); } else { PullKeeps(q, c, d, q.list[0]); }
    }
  }

  lemma PeekSpares(q: Queue, c: Queue, d: set<Item>)
    requires Spares(q, c, d)
    ensures Spares(PeekTaken(q), PeekTaken(c), d)
  {
    if q.peek.Some? {
      WithoutSnoc(q.out, q.peek.value, d);
    }
    assert q.out + [] == q.out && c.out + [] == c.out;
  }

  lemma KeepSpares(q: Queue, c: Queue, d: set<Item>)
    requires Spares(q, c, d) && !Overwrites(q, KeepPeek)
    ensures Spares(PeekKept(q), if IsSpared(q, KeepPeek, d) then c else PeekKept(c), d)
  {
    if q.out != [] {
      var init, last := q.out[..|q.out| - 1], q.out[|q.out| - 1];
      WithoutSnoc(init, last, d);
      assert q.out == init + [last] && q.lost + [] == q.lost && c.lost + [] == c.lost;
      if last !in d { assert (Without(init, d) + [last])[..|Without(init, d)|] == Without(init, d); }
    }
  }

  lemma StepSpares(q: Queue, c: Queue, d: set<Item>, s: Step)
    requires Spares(q, c, d) && Pending(q) && !Overwrites(q, s) && forall x :: x in d ==> x.serial < |q.posted|
    ensures Spares(Apply(q, s), if IsSpared(q, s, d) then c else Apply(c, s), d)
  {
    match s
    case Push(p) => PushSpares(q, c, d, p);
    case Clear(handler, id) => ClearSpares(q, c, d, handler, id);
    case Move(now) => MoveSpares(q, c, d, now);
    case Pull => PullSpares(q, c, d);
    case TakePeek => PeekSpares(q, c, d);
    case KeepPeek => KeepSpares(q, c, d);
    case _ =>
  }

  // ---- whole runs --------------------------------------------------------------------------------

  /** What waits is nowhere else. */
  lemma WaitsOnce(q: Queue, x: Item)
    requires Inv(q) && x in SlotOf(q.peek) + q.list + q.delayed
    ensures x !in q.out && x !in q.disposed && x !in q.lost && x.serial < |q.posted|
  {
    var front, back := SlotOf(q.peek) + q.list, q.delayed;
    assert AccountedAt(q, x);
    LineCount(q, x);
    CountAppend(SlotOf(q.peek), q.list, x);
    CountAppend(front, back, x);
    assert x in multiset(front + back);
    assert Count(q.posted, x) > 0;
    assert x in multiset(q.posted);
    var i :| 0 <= i < |q.posted| && q.posted[i] == x;
    OnceIn(q, i);
    assert Count(q.out, x) == 0 && Count(q.disposed, x) == 0 && Count(q.lost, x) == 0;
    assert x !in multiset(q.out) && x !in multiset(q.disposed) && x !in multiset(q.lost);
  }

  lemma {:induction false} ClearBegins(q: Queue, handler: Option<Handler>, id: nat, d: set<Item>)
    requires Inv(q) && d == Doomed(q, handler, id)
    ensures Spares(q, Cleared(q, handler, id), d) && forall x :: x in d ==> x.serial < |q.posted|
  {
    forall x | x in d ensures x !in q.out && x !in q.disposed && x !in q.lost && x.serial < |q.posted| {
      WaitsOnce(q, x);
    }
    WithoutNone(q.out, d);
    WithoutNone(q.disposed, d);
    WithoutNone(q.lost, d);
    WithoutIsKeep(q.list, d, handler, id);
    WithoutIsKeep(q.delayed, d, handler, id);
  }

  lemma {:induction false} RunSpares(q: Queue, c: Queue, d: set<Item>, steps: seq<Step>)
    requires Spares(q, c, d) && Pending(q) && NeverOverwrites(q, steps) && forall x :: x in d ==> x.serial < |q.posted|
    ensures Spares(Run(q, steps), Run(c, Spared(q, steps, d)), d)
  {
    if steps != [] {
      var init, s := steps[..|steps| - 1], steps[|steps| - 1];
      var q1, spared := Run(q, init), Spared(q, init, d);
      RunSpares(q, c, d, init);
      RunPending(q, init);
      PostedGrows(q, init);
      StepSpares(q1, Run(c, spared), d, s);
      RunSnoc(c, spared, s);
      assert spared + [] == spared;
    }
  }

  /** Whatever happens after a Clear, as long as no peeked message is overwritten: the run without the steps that
      concern the removed messages delivers, disposes of and keeps exactly what the same run delivers, disposes of and
      keeps without the Clear, minus those messages. */
  lemma {:induction false} ClearForgets(q: Queue, handler: Option<Handler>, id: nat, steps: seq<Step>, d: set<Item>, r: Queue, c: Queue)
    requires Inv(q) && d == Doomed(q, handler, id) && NeverOverwrites(q, steps)
    requires r == Run(q, steps) && c == Run(Cleared(q, handler, id), Spared(q, steps, d))
    ensures c.out == Without(r.out, d) && c.disposed == Without(r.disposed, d)
    ensures c.list == Without(r.list, d) && c.delayed == Without(r.delayed, d) && c.peek == SlotWithout(r.peek, d)
  {
    ClearBegins(q, handler, id, d);
    RunSpares(q, Cleared(q, handler, id), d, steps);
  }

  // ---- what later Gets return --------------------------------------------------------------------

  function Size(q: Queue): nat { |SlotOf(q.peek)| + |q.list| + |q.delayed| }

  lemma {:induction false} MoveDueSize(q: Queue, now: nat)
    ensures Size(MoveDue(q, now)) == Size(q)
    decreases |q.delayed|
  {
    if CanMove(q, now) { MoveDueSize(Moved(q, now), now); }
  }

  lemma {:induction false} PullAllSize(q: Queue)
    ensures Size(PullAll(q).q) <= Size(q) && (PullAll(q).got.Some? ==> Size(PullAll(q).q) < Size(q))
    decreases |q.list|
  {
    if PullResult(q).Skipped? { PullAllSize(Pulled(q)); }
  }

  lemma GetNowSize(q: Queue, now: nat)
    ensures GetNow(q, now).got.Some? ==> Size(GetNow(q, now).q) < Size(q)
  {
    if q.peek.None? {
      MoveDueSize(q, now);
      PullAllSize(MoveDue(q, now));
    }
  }

  /** A message loop: Get until it returns nothing. */
  function Drain(q: Queue, now: nat): Queue
    decreases Size(q)
  {
    var t := GetNow(q, now);
    GetNowSize(q, now);
    if t.got.None? then t.q else Drain(t.q, now)
  }

  /** The dispose messages of a list. */
  function Disposals(s: seq<Item>): seq<Item> {
    if s == [] then [] else (if s[0].msg.id == MQID_DISPOSE then [s[0]] else []) + Disposals(s[1..])
  }

  /** What taking everything from the list comes to. */
  function Emptied(q: Queue): Queue {
    q.(list := [], out := q.out + Deliverable(q.list), disposed := q.disposed + Disposals(q.list))
  }

  lemma EmptiedHead(q: Queue)
    requires q.list != []
    ensures Emptied(Pulled(q)) == Emptied(q)
  {
    var x, rest := q.list[0], q.list[1..];
    assert [] + Deliverable(rest) == Deliverable(rest) && [] + Disposals(rest) == Disposals(rest);
    if x.msg.id == MQID_DISPOSE {
      Assoc3(q.disposed, [x], Disposals(rest));
    } else {
      Assoc3(q.out, [x], Deliverable(rest));
    }
  }

  lemma {:induction false} PullAllEmpties(q: Queue, t: Taken)
    requires t == PullAll(q)
    ensures Emptied(t.q) == Emptied(q) && t.q.delayed == q.delayed && t.q.peek == q.peek && (t.got.None? ==> t.q == Emptied(q))
    decreases |q.list|
  {
    if q.list == [] {
      assert q.out + [] == q.out && q.disposed + [] == q.disposed;
    } else {
      EmptiedHead(q);
      if PullResult(q).Skipped? { PullAllEmpties(Pulled(q), t); }
    }
  }

  /** A loop hands out the peeked message, then what is listed and has triggered, in order. */
  lemma {:induction false} DrainIs(q: Queue, now: nat)
    requires Pending(q)
    ensures Drain(q, now) == Emptied(MoveDue(PeekTaken(q), now))
    decreases Size(q)
  {
    var t := GetNow(q, now);
    GetNowSize(q, now);
    GetNowPath(q, now);
    PathPending(q, t.q, true);
    if q.peek.Some? {
      DrainIs(t.q, now);
      assert PeekTaken(t.q) == t.q by { assert t.q.out + [] == t.q.out; }
    } else {
      assert PeekTaken(q) == q by { assert q.out + [] == q.out; }
      DrainStep(q, now, MoveDue(q, now), t);
      if t.got.Some? { DrainIs(t.q, now); }
    }
  }

  lemma DrainStep(q: Queue, now: nat, r: Queue, t: Taken)
    requires Pending(q) && q.peek.None? && r == MoveDue(q, now) && t == PullAll(r)
    ensures Emptied(MoveDue(PeekTaken(t.q), now)) == Emptied(r) && (t.got.None? ==> t.q == Emptied(r))
  {
    MoveDueFrame(q, now, r);
    MoveDueLoses(q, now);
    PullAllEmpties(r, t);
    assert PeekTaken(t.q) == t.q by { assert t.q.out + [] == t.q.out; }
    NothingMoves(t.q, now);
  }

  lemma {:induction false} WithoutAppend(a: seq<Item>, b: seq<Item>, d: set<Item>)
    ensures Without(a + b, d) == Without(a, d) + Without(b, d)
  {
    if b == [] {
      assert a + b == a;
    } else {
      var init, last := b[..|b| - 1], b[|b| - 1];
      assert a + b == a + init + [last];
      WithoutAppend(a, init, d);
      WithoutSnoc(a + init, last, d);
    }
  }

  lemma {:induction false} WithoutDelivers(s: seq<Item>, d: set<Item>)
    ensures Deliverable(Without(s, d)) == Without(Deliverable(s), d)
    ensures Disposals(Without(s, d)) == Without(Disposals(s), d)
  {
    if s != [] {
      var x, rest := s[0], s[1..];
      WithoutHead(s, d);
      WithoutDelivers(rest, d);
      WithoutFirst(x, Deliverable(rest), d);
      WithoutFirst(x, Disposals(rest), d);
      var kept := Without(rest, d);
      Cons(x, kept);
      assert [] + kept == kept && [] + Deliverable(rest) == Deliverable(rest) && [] + Disposals(rest) == Disposals(rest);
      assert [] + Deliverable(kept) == Deliverable(kept) && [] + Disposals(kept) == Disposals(kept);
    }
  }

  lemma WithoutFirst(x: Item, s: seq<Item>, d: set<Item>)
    ensures Without([x] + s, d) == if x in d then Without(s, d) else [x] + Without(s, d)
  {
    Cons(x, s);
    WithoutHead([x] + s, d);
    assert [] + Without(s, d) == Without(s, d);
  }

  lemma {:induction false} MoveDueSpares(q: Queue, c: Queue, d: set<Item>, now: nat)
    requires Spares(q, c, d) && Pending(q)
    ensures Spares(MoveDue(q, now), MoveDue(c, now), d)
    decreases |q.delayed|
  {
    MoveSpares(q, c, d, now);
    StepPending(q, Move(now));
    if CanMove(q, now) {
      if q.delayed[0] in d {
        MoveDueSpares(Moved(q, now), c, d, now);
      } else {
        WithoutHead(q.delayed, d);
        Cons(q.delayed[0], Without(q.delayed[1..], d));
        MoveDueSpares(Moved(q, now), Moved(c, now), d, now);
      }
    } else {
      NoneDueWithout(q, c, d, now);
    }
  }

  lemma EmptiedSpares(q: Queue, c: Queue, d: set<Item>)
    requires Spares(q, c, d)
    ensures Spares(Emptied(q), Emptied(c), d)
  {
    WithoutDelivers(q.list, d);
    WithoutAppend(q.out, Deliverable(q.list), d);
    WithoutAppend(q.disposed, Disposals(q.list), d);
  }

  lemma DrainSpares(q: Queue, c: Queue, d: set<Item>, now: nat)
    requires Spares(q, c, d) && Pending(q) && Pending(c)
    ensures Spares(Drain(q, now), Drain(c, now), d)
  {
    DrainIs(q, now);
    DrainIs(c, now);
    PeekSpares(q, c, d);
    StepPending(q, TakePeek);
    MoveDueSpares(PeekTaken(q), PeekTaken(c), d, now);
    EmptiedSpares(MoveDue(PeekTaken(q), now), MoveDue(PeekTaken(c), now), d);
  }

  /** What a client does later: any calls but Get and Peek, and message loops. */
  datatype Later = Do(call: Call) | Loop(now: nat)

  predicate LaterOk(l: Later) {
    l.Do? ==> !l.call.DoGet? && !l.call.DoPeek?
  }

  predicate AllLaterOk(ls: seq<Later>) {
    forall i :: 0 <= i < |ls| ==> LaterOk(ls[i])
  }

  function AfterLater(q: Queue, l: Later): Queue {
    match l
    case Do(call) => After(q, call)
    case Loop(now) => Drain(q, now)
  }

  function AfterAll(q: Queue, ls: seq<Later>): Queue {
    if ls == [] then q else AfterLater(AfterAll(q, ls[..|ls| - 1]), ls[|ls| - 1])
  }

  /** What is carried along: both queues are in order, and what is doomed was accepted before. */
  ghost predicate Alike(q: Queue, c: Queue, d: set<Item>) {
    Spares(q, c, d) && Pending(q) && Pending(c) && forall x :: x in d ==> x.serial < |q.posted|
  }

  lemma {:induction false} DrainGrows(q: Queue, now: nat)
    ensures Path(q, Drain(q, now), false)
    decreases Size(q)
  {
    var t := GetNow(q, now);
    GetNowSize(q, now);
    GetNowPath(q, now);
    PathWeaker(q, t.q, true, false);
    if t.got.Some? {
      DrainGrows(t.q, now);
      PathTrans(q, t.q, Drain(t.q, now), false, false);
    }
  }

  lemma AlikePath(q: Queue, c: Queue, q1: Queue, c1: Queue, d: set<Item>)
    requires Alike(q, c, d) && Path(q, q1, false) && Path(c, c1, false) && Spares(q1, c1, d)
    ensures Alike(q1, c1, d)
  {
    PathPending(q, q1, false);
    PathPending(c, c1, false);
    var steps :| Run(q, steps) == q1 && (false ==> Orderly(q, steps));
    PostedGrows(q, steps);
  }

  lemma CallSpares(q: Queue, c: Queue, d: set<Item>, call: Call)
    requires Alike(q, c, d) && !call.DoGet? && !call.DoPeek?
    ensures Spares(After(q, call), After(c, call), d)
  {
    match call
    case DoPost(p) =>
      if !q.stop {
        StepPending(q, Enter(p));
        PushSpares(Entered(q, p), Entered(c, p), d, p);
      }
    case DoPush(p) => PushSpares(q, c, d, p);
    case DoClear(handler, id) => ClearSpares(q, c, d, handler, id);
    case _ =>
  }

  lemma LaterAlike(q: Queue, c: Queue, d: set<Item>, l: Later)
    requires Alike(q, c, d) && LaterOk(l)
    ensures Alike(AfterLater(q, l), AfterLater(c, l), d)
  {
    match l
    case Do(call) =>
      CallSpares(q, c, d, call);
      CallPath(q, call);
      CallPath(c, call);
      PathWeaker(q, After(q, call), !Passes(q, call), false);
      PathWeaker(c, After(c, call), !Passes(c, call), false);
      AlikePath(q, c, After(q, call), After(c, call), d);
    case Loop(now) =>
      DrainSpares(q, c, d, now);
      DrainGrows(q, now);
      DrainGrows(c, now);
      AlikePath(q, c, Drain(q, now), Drain(c, now), d);
  }

  lemma {:induction false} AllLaterAlike(q: Queue, c: Queue, d: set<Item>, ls: seq<Later>)
    requires Alike(q, c, d) && AllLaterOk(ls)
    ensures Alike(AfterAll(q, ls), AfterAll(c, ls), d)
  {
    if ls != [] {
      AllLaterAlike(q, c, d, ls[..|ls| - 1]);
      LaterAlike(AfterAll(q, ls[..|ls| - 1]), AfterAll(c, ls[..|ls| - 1]), d, ls[|ls| - 1]);
    }
  }

  /** After a Clear the same later calls hand out, in the same order, what they would have handed out without it, minus
      the removed messages: for any posts, Clears, Quits, Restarts and message loops. */
  lemma ClearForgetsCalls(q: Queue, handler: Option<Handler>, id: nat, ls: seq<Later>, d: set<Item>)
    requires Inv(q) && d == Doomed(q, handler, id) && AllLaterOk(ls)
    ensures AfterAll(Cleared(q, handler, id), ls).out == Without(AfterAll(q, ls).out, d)
    ensures AfterAll(Cleared(q, handler, id), ls).disposed == Without(AfterAll(q, ls).disposed, d)
  {
    ClearBegins(q, handler, id, d);
    StepPending(q, Clear(handler, id));
    AllLaterAlike(q, Cleared(q, handler, id), d, ls);
  }

  // ---- which messages those are ------------------------------------------------------------------

  predicate Waits(q: Queue, x: Item) {
    q.peek == Some(x) || x in q.list || x in q.delayed
  }

  /** A Clear for a handler leaves every message of other handlers and, with an id, every message with another id; and
      nothing else. */
  lemma ClearOfHandler(q: Queue, h: Handler, id: nat, x: Item)
    ensures Waits(Cleared(q, Some(h), id), x) <==>
      Waits(q, x) && (x.msg.handler != Some(h) || (id != 0xFFFF_FFFF && x.msg.id != id))
  {
    KeepElements(q.list, Some(h), id, x);
    KeepElements(q.delayed, Some(h), id, x);
  }

  /** A Clear for no handler leaves every message with another id, and nothing else. */
  lemma ClearOfAll(q: Queue, id: nat, x: Item)
    ensures Waits(Cleared(q, None, id), x) <==> Waits(q, x) && id != 0xFFFF_FFFF && x.msg.id != id
  {
    KeepElements(q.list, None, id, x);
    KeepElements(q.delayed, None, id, x);
  }

  /** The messages that are not for a handler. */
  function NotFor(s: seq<Item>, h: Handler): seq<Item> {
    if s == [] then []
    else
      var rest, last := NotFor(s[..|s| - 1], h), s[|s| - 1];
      if last.msg.handler == Some(h) then rest else rest + [last]
  }

  lemma {:induction false} WithoutOthers(s: seq<Item>, d: set<Item>, h: Handler)
    requires forall x :: x in d ==> x.msg.handler == Some(h)
    ensures NotFor(Without(s, d), h) == NotFor(s, h)
  {
    if s != [] {
      var init, last := s[..|s| - 1], s[|s| - 1];
      WithoutOthers(init, d, h);
      assert (Without(init, d) + [last])[..|Without(init, d)|] == Without(init, d);
    }
  }

  /** A Clear for one handler changes nothing for the others: whatever posts, Clears, Quits, Restarts and message loops
      follow, they are handed the same messages in the same order. */
  lemma ClearSparesOthers(q: Queue, h: Handler, id: nat, ls: seq<Later>)
    requires Inv(q) && AllLaterOk(ls)
    ensures NotFor(AfterAll(Cleared(q, Some(h), id), ls).out, h) == NotFor(AfterAll(q, ls).out, h)
  {
    var d := Doomed(q, Some(h), id);
    ClearForgetsCalls(q, Some(h), id, ls, d);
    WithoutOthers(AfterAll(q, ls).out, d, h);
  }

  /** And what the handler itself is handed later that was waiting before the Clear has another id. */
  lemma {:induction false} ClearedStayAway(q: Queue, h: Handler, id: nat, ls: seq<Later>, x: Item)
    requires Inv(q) && AllLaterOk(ls) && Waits(q, x) && x in AfterAll(Cleared(q, Some(h), id), ls).out
    ensures x.msg.handler != Some(h) || (id != 0xFFFF_FFFF && x.msg.id != id)
  {
    var d := Doomed(q, Some(h), id);
    ClearForgetsCalls(q, Some(h), id, ls, d);
    WithoutElements(AfterAll(q, ls).out, d, x);
    assert x in SlotOf(q.peek) + q.list + q.delayed;
  }
}
