/** Add, Remove and the dispatch pass of PhysicalSocketServer (src/event/physicalsocketserver.cpp). */
module PhysicalSocketServers {
  import opened Bytes
  import opened Dispatch

  /** What a handler does: it adds or removes a dispatcher, or waits itself, which is a pass within the pass. */
  datatype Action = DoAdd(d: Dispatcher) | DoRemove(d: Dispatcher) | DoPass

  /** The takes belong to passes numbered from p on. */
  predicate TakesFrom(events: seq<Event>, p: nat) {
    forall j :: 0 <= j < |events| && events[j].Took? ==> events[j].pass >= p
  }

  lemma SplitReplay(list: seq<Dispatcher>, outer: seq<nat>, own: seq<nat>, happened: seq<Event>, s: Server)
    requires s == Replay(Server(list, outer + own), happened)
    ensures |s.iterators| == |outer| + |own|
    ensures Server(s.list, s.iterators[..|outer|]) == Replay(Server(list, outer), happened)
    ensures Server(s.list, s.iterators[|outer|..]) == Replay(Server(list, own), happened)
  {
    ReplayParts(list, outer, own, happened);
  }

  class PhysicalSocketServer {
    var dispatchers: seq<Dispatcher>
    var iterators: seq<nat>          // the registered indices, by value
    var passes: nat                  // numbers the passes
    ghost var log: seq<Event>

    ghost predicate Valid()
      reads this
    {
      Distinct(dispatchers)
    }

    ghost function View(): Server
      reads this
    {
      Server(dispatchers, iterators)
    }

    constructor ()
      ensures Valid() && dispatchers == [] && iterators == [] && log == []
    {
      dispatchers, iterators, passes, log := [], [], 0, [];
    }

    method Find(d: Dispatcher) returns (pos: nat)
      ensures pos <= |dispatchers| && d !in dispatchers[..pos] && (pos < |dispatchers| ==> dispatchers[pos] == d)
    {
      pos := 0;
      while pos < |dispatchers| && dispatchers[pos] != d
        invariant pos <= |dispatchers| && d !in dispatchers[..pos]
      {
        pos := pos + 1;
      }
    }

    method Add(d: Dispatcher)
      requires Valid()
      modifies this
      ensures Valid() && log == old(log) + [Added(d)] && View() == After(old(View()), Added(d)) && passes == old(passes)
      ensures d in dispatchers
      ensures dispatchers == if d in old(dispatchers) then old(dispatchers) else old(dispatchers) + [d]
    {
      var pos := Find(d);
      log := log + [Added(d)];
      if pos != |dispatchers| {
        return;
      }
      dispatchers := dispatchers + [d];
    }

    method Remove(d: Dispatcher)
      requires Valid() && d in dispatchers
      modifies this
      ensures Valid() && log == old(log) + [Removed(d)] && View() == After(old(View()), Removed(d)) && passes == old(passes)
      ensures d !in dispatchers
      ensures exists i :: 0 <= i < |old(dispatchers)| && old(dispatchers)[i] == d &&
                          dispatchers == old(dispatchers)[..i] + old(dispatchers)[i + 1..]
    {
      var index := Find(d);
      assert dispatchers[..|dispatchers|] == dispatchers;
      IndexIs(dispatchers, index);
      WithoutDistinct(dispatchers, index);
      dispatchers := dispatchers[..index] + dispatchers[index + 1..];
      var it := 0;
      while it < |iterators|
        invariant it <= |iterators| == |old(iterators)|
        invariant forall k :: 0 <= k < it ==> iterators[k] == Adjusted(old(iterators)[k], index)
        invariant forall k :: it <= k < |iterators| ==> iterators[k] == old(iterators)[k]
        modifies this`iterators
      {
        if index < iterators[it] {
          iterators := iterators[it := iterators[it] - 1];
        }
        it := it + 1;
      }
      log := log + [Removed(d)];
    }

    /** In the middle of a pass, whose two iterators are registered at base. */
    ghost predicate Passing(start: Server, base: nat, k: nat, events: seq<Event>, pass: nat)
      reads this
    {
      && |iterators| == base + 2 && k <= |start.list| && passes > pass && TakesFrom(events, pass)
      && Server(dispatchers, iterators[..base]) == Replay(start, events)
      && Window(start.list, k, events, Server(dispatchers, iterators[base..]))
      && Progress(start.list, k, events, pass)
    }

    /** One pass. A script says what the handlers do, in the order of their calls; `left` is what remains of it.
        Every dispatcher of the start is taken once, in order and not after it has been removed, or it is removed
        and not taken; no other one is taken. An outer pass sees additions and removals only. */
    method Pass(script: seq<seq<Action>>) returns (left: seq<seq<Action>>, ghost events: seq<Event>)
      requires Valid()
      modifies this
      ensures Valid() && log == old(log) + events && View() == Replay(old(View()), events)
      ensures Progress(old(dispatchers), |old(dispatchers)|, events, old(passes))
      ensures TakesFrom(events, old(passes)) && passes > old(passes) && |left| <= |script|
      decreases |script|, 1
    {
      var pass, base := passes, |iterators|;
      ghost var start, k, log0 := View(), 0, log;
      Begin();
      left, events := script, [];
      while iterators[base] < iterators[base + 1]
        invariant Passing(start, base, k, events, pass)
        invariant log == log0 + events && |left| <= |script|
        decreases |start.list| - k
      {
        ghost var took;
        k, took := TakeNext(start, base, k, events, pass);
        Assoc3(log0, events, [took]);
        events := events + [took];
        if left != [] {
          ghost var happened;
          left, happened := CallHandler(left[0], left[1..], start, base, k, events, pass);
          Assoc3(log0, events, happened);
          events := events + happened;
        }
      }
      End(start, base, k, events, pass);
    }

    method End(ghost start: Server, base: nat, ghost k: nat, ghost events: seq<Event>, ghost pass: nat)
      requires Passing(start, base, k, events, pass) && iterators[base] == iterators[base + 1]
      modifies this`iterators
      ensures Valid() && View() == Replay(start, events) && Progress(start.list, |start.list|, events, pass)
    {
      AllSettled(start.list, k, events, pass, Server(dispatchers, iterators[base..]));
      iterators := iterators[..base];
    }

    method Begin()
      requires Valid()
      modifies this`passes, this`iterators
      ensures Passing(old(View()), |old(iterators)|, 0, [], old(passes))
    {
      ghost var start := View();
      passes := passes + 1;
      iterators := iterators + [0, |dispatchers|];
      RemainsAll(start.list);
      assert iterators[|start.iterators|..] == [0, |dispatchers|] && dispatchers[0..|dispatchers|] == dispatchers;
      assert start.list[0..] == start.list;
    }

    /** Dispatcher* disp = dispatchers_[i++]. */
    method TakeNext(ghost start: Server, base: nat, ghost k: nat, ghost events: seq<Event>, pass: nat)
      returns (ghost k': nat, ghost took: Event)
      requires Passing(start, base, k, events, pass) && iterators[base] < iterators[base + 1]
      modifies this`iterators, this`log
      ensures k < k' <= |start.list| && Passing(start, base, k', events + [took], pass) && log == old(log) + [took]
    {
      ghost var before := Server(dispatchers, iterators[base..]);
      var disp := dispatchers[iterators[base]];
      took := Took(pass, disp);
      k' := Take(start.list, k, events, pass, before);
      ReplaySnoc(start, events, took);
      iterators := iterators[base := iterators[base] + 1];
      log := log + [took];
      assert iterators[base..] == [before.iterators[0] + 1, before.iterators[1]];
      assert iterators[..base] == old(iterators)[..base];
    }

    /** OnEvent in the middle of a pass. */
    method CallHandler(actions: seq<Action>, script: seq<seq<Action>>,
                       ghost start: Server, ghost base: nat, ghost k: nat, ghost events: seq<Event>, ghost pass: nat)
      returns (left: seq<seq<Action>>, ghost happened: seq<Event>)
      requires Passing(start, base, k, events, pass)
      modifies this
      ensures Passing(start, base, k, events + happened, pass) && log == old(log) + happened && |left| <= |script|
      decreases |script|, 4
    {
      ghost var list, outer, own := dispatchers, iterators[..base], iterators[base..];
      assert iterators == outer + own;
      left, happened := Handle(actions, script);
      SplitReplay(list, outer, own, happened, View());
      ReplayAppend(start, events, happened);
      WindowKeepsAll(start.list, k, events, Server(list, own), happened);
      ProgressStaysAll(start.list, k, events, pass, happened);
    }

    /** OnEvent of a dispatcher. */
    method Handle(actions: seq<Action>, script: seq<seq<Action>>)
      returns (left: seq<seq<Action>>, ghost events: seq<Event>)
      requires Valid()
      modifies this
      ensures Valid() && log == old(log) + events && View() == Replay(old(View()), events)
      ensures TakesFrom(events, old(passes)) && passes >= old(passes) && |left| <= |script|
      decreases |script|, 3
    {
      left, events := script, [];
      ghost var start, log0, pass := View(), log, passes;
      for j := 0 to |actions|
        invariant Valid() && log == log0 + events && View() == Replay(start, events)
        invariant TakesFrom(events, pass) && passes >= pass && |left| <= |script|
      {
        ghost var more;
        left, more := Perform(actions[j], left);
        Assoc3(log0, events, more);
        ReplayAppend(start, events, more);
        events := events + more;
      }
    }

    method Perform(action: Action, script: seq<seq<Action>>) returns (left: seq<seq<Action>>, ghost events: seq<Event>)
      requires Valid()
      modifies this
      ensures Valid() && log == old(log) + events && View() == Replay(old(View()), events)
      ensures TakesFrom(events, old(passes)) && passes >= old(passes) && |left| <= |script|
      decreases |script|, 2
    {
      left, events := script, [];
      match action
      case DoAdd(d) =>
        events := [Added(d)];
        ReplayOne(View(), events);
        Add(d);
      case DoRemove(d) =>
        if d in dispatchers {
          events := [Removed(d)];
          ReplayOne(View(), events);
          Remove(d);
        }
      case DoPass =>
        left, events := Pass(script);
    }
  }

  /** A dispatcher that is added and stays is taken by the next pass, once, whatever the handlers do. */
  method AddThenPass(server: PhysicalSocketServer, d: Dispatcher, script: seq<seq<Action>>)
    returns (left: seq<seq<Action>>, ghost events: seq<Event>)
    requires server.Valid()
    modifies server
    ensures server.Valid() && Removed(d) !in events ==> TakenProperly(events, old(server.passes), d)
    ensures Removed(d) !in events ==> d in server.dispatchers
  {
    server.Add(d);
    ghost var start := server.View();
    left, events := server.Pass(script);
    if Removed(d) !in events {
      ListedIsTaken(start.list, events, old(server.passes), d);
      StaysListed(start, d, events);
    }
  }

  lemma ReplayOne(s: Server, events: seq<Event>)
    requires |events| == 1
    ensures Replay(s, events) == After(s, events[0])
  {
    assert events[..0] == [];
  }

  lemma RemainsAll(s: seq<Dispatcher>)
    ensures Remaining(s, []) == s
  {
    if s != [] {
      RemainsAll(s[1..]);
    }
  }

  // ---- the pass behind select() ------------------------------------------------------------------

  /** The POSIX pass counts with an index that is not registered, up to the current size of the list; what the
      handlers do to the list is given by their events. */
  function PosixTaken(list: seq<Dispatcher>, i: nat, script: seq<seq<Event>>): seq<Dispatcher>
    decreases |script|, |list| - i
  {
    if i >= |list| then []
    else
      [list[i]] + if script == [] then PosixTaken(list, i + 1, [])
                  else PosixTaken(Replay(Server(list, []), script[0]).list, i + 1, script[1..])
  }

  /** A handler removes a dispatcher at or before the current index. */
  predicate RemovesBehind(list: seq<Dispatcher>, i: nat, events: seq<Event>) {
    events != []
    && var init, last := events[..|events| - 1], events[|events| - 1];
       var now := Replay(Server(list, []), init).list;
       RemovesBehind(list, i, init) || (last.Removed? && last.d in now && IndexOf(now, last.d) <= i)
  }

  /** The handlers called from index i on leave a dispatcher at or before their index. */
  predicate FallsBehind(list: seq<Dispatcher>, i: nat, script: seq<seq<Event>>, d: Dispatcher)
    decreases |script|
  {
    && i < |list| && list[i] != d && script != []
    && var next := Replay(Server(list, []), script[0]).list;
       (d in next && IndexOf(next, d) <= i) || FallsBehind(next, i + 1, script[1..], d)
  }

  predicate NeverRemoved(script: seq<seq<Event>>, d: Dispatcher) {
    forall j :: 0 <= j < |script| ==> Removed(d) !in script[j]
  }

  lemma AfterDistinct(s: Server, e: Event)
    requires Distinct(s.list)
    ensures Distinct(After(s, e).list)
  {
    if e.Removed? && e.d in s.list {
      WithoutDistinct(s.list, IndexOf(s.list, e.d));
    }
  }

  /** A removal in front of a dispatcher moves it down by one; nothing else moves it. */
  lemma IndexAfter(s: Server, e: Event, d: Dispatcher)
    requires Distinct(s.list) && d in s.list && e != Removed(d)
    ensures d in After(s, e).list && IndexOf(After(s, e).list, d) ==
      if e.Removed? && e.d in s.list then Adjusted(IndexOf(s.list, d), IndexOf(s.list, e.d)) else IndexOf(s.list, d)
  {
    var r, at := After(s, e), IndexOf(s.list, d);
    AfterDistinct(s, e);
    if e.Removed? && e.d in s.list {
      var to := Adjusted(at, IndexOf(s.list, e.d));
      assert r.list[to] == d;
      IndexIs(r.list, to);
    } else {
      assert r.list[at] == d;
      IndexIs(r.list, at);
    }
  }

  /** What the events of one handler do to a dispatcher that is still to come. */
  lemma {:induction false} Ahead(list: seq<Dispatcher>, i: nat, events: seq<Event>, d: Dispatcher, next: seq<Dispatcher>)
    requires Distinct(list) && d in list && Removed(d) !in events && next == Replay(Server(list, []), events).list
    ensures Distinct(next) && d in next && IndexOf(next, d) <= IndexOf(list, d)
    ensures IndexOf(list, d) > i && !RemovesBehind(list, i, events) ==> IndexOf(next, d) > i
    ensures IndexOf(list, d) == i + 1 && RemovesBehind(list, i, events) ==> IndexOf(next, d) <= i
  {
    if events != [] {
      var init, last := events[..|events| - 1], events[|events| - 1];
      var now := Replay(Server(list, []), init);
      Ahead(list, i, init, d, now.list);
      AfterDistinct(now, last);
      IndexAfter(now, last, d);
      assert last in events;
    }
  }

  lemma PosixTakenStep(list: seq<Dispatcher>, i: nat, script: seq<seq<Event>>)
    requires i < |list|
    ensures var rest := if script == [] then PosixTaken(list, i + 1, [])
                        else PosixTaken(Replay(Server(list, []), script[0]).list, i + 1, script[1..]);
      forall d :: d in PosixTaken(list, i, script) <==> d == list[i] || d in rest
  {
  }

  /** Behind the index nothing is taken any more. */
  lemma {:induction false} BehindIsNotTaken(list: seq<Dispatcher>, i: nat, script: seq<seq<Event>>, d: Dispatcher, at: nat)
    requires Distinct(list) && at < |list| && at < i && list[at] == d && NeverRemoved(script, d)
    ensures d !in PosixTaken(list, i, script)
    decreases |script|, |list| - i
  {
    if i < |list| {
      assert list[i] != d;
      if script == [] {
        BehindIsNotTaken(list, i + 1, [], d, at);
        NotTakenStep(list, i, script, d, PosixTaken(list, i + 1, []));
      } else {
        var next, to := MovesDown(list, i, script[0], d, at);
        BehindIsNotTaken(next, i + 1, script[1..], d, to);
        NotTakenStep(list, i, script, d, PosixTaken(next, i + 1, script[1..]));
      }
    }
  }

  lemma NotTakenStep(list: seq<Dispatcher>, i: nat, script: seq<seq<Event>>, d: Dispatcher, rest: seq<Dispatcher>)
    requires i < |list| && list[i] != d && d !in rest
    requires rest == if script == [] then PosixTaken(list, i + 1, [])
                     else PosixTaken(Replay(Server(list, []), script[0]).list, i + 1, script[1..])
    ensures d !in PosixTaken(list, i, script)
  {
    PosixTakenStep(list, i, script);
  }

  lemma MovesDown(list: seq<Dispatcher>, i: nat, events: seq<Event>, d: Dispatcher, at: nat)
    returns (next: seq<Dispatcher>, to: nat)
    requires Distinct(list) && at < |list| && list[at] == d && Removed(d) !in events
    ensures next == Replay(Server(list, []), events).list && Distinct(next) && to < |next| && next[to] == d && to <= at
  {
    next := Replay(Server(list, []), events).list;
    IndexIs(list, at);
    Ahead(list, i, events, d, next);
    to := IndexOf(next, d);
  }

  /** A dispatcher that is to come and that no handler removes is taken if and only if it never falls behind. */
  lemma {:induction false} PosixTakesIff(list: seq<Dispatcher>, i: nat, script: seq<seq<Event>>, d: Dispatcher)
    requires Distinct(list) && d in list && IndexOf(list, d) >= i && NeverRemoved(script, d)
    ensures d in PosixTaken(list, i, script) <==> !FallsBehind(list, i, script, d)
    decreases |script|, |list| - i
  {
    if list[i] != d {
      if script == [] {
        PosixTakesIff(list, i + 1, [], d);
      } else {
        var next := Replay(Server(list, []), script[0]).list;
        Ahead(list, i, script[0], d, next);
        if IndexOf(next, d) <= i {
          BehindIsNotTaken(next, i + 1, script[1..], d, IndexOf(next, d));
        } else {
          PosixTakesIff(next, i + 1, script[1..], d);
        }
      }
    }
  }

  /** No handler of the rest of the pass removes anything at or before its index. */
  predicate NoneBehind(list: seq<Dispatcher>, i: nat, script: seq<seq<Event>>)
    decreases |script|
  {
    script == [] || i >= |list|
    || (!RemovesBehind(list, i, script[0]) && NoneBehind(Replay(Server(list, []), script[0]).list, i + 1, script[1..]))
  }

  /** Such handlers may add dispatchers and remove those to come: every other one that is to come is taken. */
  lemma {:induction false} PosixTakesAll(list: seq<Dispatcher>, i: nat, script: seq<seq<Event>>, d: Dispatcher)
    requires Distinct(list) && NoneBehind(list, i, script)
    requires d in list && IndexOf(list, d) >= i && NeverRemoved(script, d)
    ensures d in PosixTaken(list, i, script)
    decreases |script|, |list| - i
  {
    if list[i] != d {
      if script == [] {
        PosixTakesAll(list, i + 1, [], d);
      } else {
        var next := Replay(Server(list, []), script[0]).list;
        Ahead(list, i, script[0], d, next);
        PosixTakesAll(next, i + 1, script[1..], d);
      }
    }
  }

  /** The next dispatcher falls behind at once, or is reached. */
  lemma NextFallsBehind(list: seq<Dispatcher>, i: nat, script: seq<seq<Event>>, d: Dispatcher, next: seq<Dispatcher>)
    requires i + 1 < |list| && d == list[i + 1] && list[i] != d && script != []
    requires next == Replay(Server(list, []), script[0]).list && d in next && IndexOf(next, d) <= i + 1
    ensures FallsBehind(list, i, script, d) <==> IndexOf(next, d) <= i
  {
    if IndexOf(next, d) == i + 1 {
      assert next[i + 1] == d;
    }
  }

  /** The next dispatcher is skipped if and only if the handler removes something at or before the index. */
  lemma PosixSkips(list: seq<Dispatcher>, i: nat, script: seq<seq<Event>>, d: Dispatcher)
    requires Distinct(list) && i + 1 < |list| && d == list[i + 1] && script != [] && NeverRemoved(script, d)
    ensures d !in PosixTaken(list, i, script) <==> RemovesBehind(list, i, script[0])
  {
    IndexIs(list, i + 1);
    var next := Replay(Server(list, []), script[0]).list;
    Ahead(list, i, script[0], d, next);
    NextFallsBehind(list, i, script, d, next);
    PosixTakesIff(list, i, script, d);
  }
}
