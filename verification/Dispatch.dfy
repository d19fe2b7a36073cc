/** The dispatch pass of PhysicalSocketServer (src/event/physicalsocketserver.cpp): handlers that run in the middle of
    a pass add and remove dispatchers, and run passes of their own. */
module Dispatch {

  type Dispatcher = nat

  /** What happens to a server. Passes are numbered. */
  datatype Event = Added(d: Dispatcher) | Removed(d: Dispatcher) | Took(pass: nat, d: Dispatcher)

  /** The list and the registered iterators. */
  datatype Server = Server(list: seq<Dispatcher>, iterators: seq<nat>)

  predicate Distinct(s: seq<Dispatcher>) {
    forall i, j :: 0 <= i < j < |s| ==> s[i] != s[j]
  }

  function IndexOf(s: seq<Dispatcher>, d: Dispatcher): (i: nat)
    requires d in s
    ensures i < |s| && s[i] == d && d !in s[..i]
  {
    if s[0] == d then 0 else 1 + IndexOf(s[1..], d)
  }

  function Without(s: seq<Dispatcher>, i: nat): seq<Dispatcher>
    requires i < |s|
  {
    s[..i] + s[i + 1..]
  }

  /** An iterator behind the removed position moves down with its dispatcher. */
  function Adjusted(it: nat, index: nat): nat { if index < it then it - 1 else it }

  function AllAdjusted(its: seq<nat>, index: nat): (r: seq<nat>)
    ensures |r| == |its|
  {
    seq(|its|, k requires 0 <= k < |its| => Adjusted(its[k], index))
  }

  function After(s: Server, e: Event): (r: Server)
    ensures |r.iterators| == |s.iterators|
  {
    match e
    case Added(d) => if d in s.list then s else s.(list := s.list + [d])
    case Removed(d) =>
      if d in s.list then Server(Without(s.list, IndexOf(s.list, d)), AllAdjusted(s.iterators, IndexOf(s.list, d))) else s
    case Took(_, _) => s
  }

  function Replay(s: Server, events: seq<Event>): (r: Server)
    ensures |r.iterators| == |s.iterators|
  {
    if events == [] then s else After(Replay(s, events[..|events| - 1]), events[|events| - 1])
  }

  lemma ReplaySnoc(s: Server, events: seq<Event>, e: Event)
    ensures Replay(s, events + [e]) == After(Replay(s, events), e)
  {
    assert (events + [e])[..|events|] == events;
  }

  lemma {:induction false} ReplayAppend(s: Server, a: seq<Event>, b: seq<Event>)
    ensures Replay(s, a + b) == Replay(Replay(s, a), b)
  {
    if b == [] {
      assert a + b == a;
    } else {
      assert (a + b)[..|a + b| - 1] == a + b[..|b| - 1];
      ReplayAppend(s, a, b[..|b| - 1]);
    }
  }

  lemma AfterParts(s: Server, a: seq<nat>, b: seq<nat>, e: Event)
    requires s.iterators == a + b
    ensures var r, ra, rb := After(s, e), After(Server(s.list, a), e), After(Server(s.list, b), e);
      r.list == ra.list == rb.list && r.iterators == ra.iterators + rb.iterators
  {
  }

  /** Events treat every iterator alike. */
  lemma {:induction false} ReplayParts(list: seq<Dispatcher>, a: seq<nat>, b: seq<nat>, events: seq<Event>)
    ensures var r, ra, rb := Replay(Server(list, a + b), events), Replay(Server(list, a), events), Replay(Server(list, b), events);
      r.list == ra.list == rb.list && r.iterators == ra.iterators + rb.iterators
  {
    if events != [] {
      var init := events[..|events| - 1];
      ReplayParts(list, a, b, init);
      AfterParts(Replay(Server(list, a + b), init), Replay(Server(list, a), init).iterators,
                 Replay(Server(list, b), init).iterators, events[|events| - 1]);
    }
  }

  // ---- what a pass keeps -------------------------------------------------------------------------

  /** The dispatchers of a list that have not been removed, in order. */
  function Remaining(s: seq<Dispatcher>, log: seq<Event>): seq<Dispatcher> {
    if s == [] then []
    else (if Removed(s[0]) in log then [] else [s[0]]) + Remaining(s[1..], log)
  }

  lemma {:induction false} RemainingElements(s: seq<Dispatcher>, log: seq<Event>, d: Dispatcher)
    ensures d in Remaining(s, log) <==> d in s && Removed(d) !in log
  {
    if s != [] {
      RemainingElements(s[1..], log, d);
    }
  }

  /** An event about a dispatcher that does not remain changes nothing. */
  lemma {:induction false} RemainingSame(s: seq<Dispatcher>, log: seq<Event>, e: Event)
    requires e.Removed? ==> e.d !in Remaining(s, log)
    ensures Remaining(s, log + [e]) == Remaining(s, log)
  {
    if s != [] {
      RemainingSame(s[1..], log, e);
    }
  }

  lemma WithoutHead(x: Dispatcher, s: seq<Dispatcher>, d: Dispatcher)
    requires x == d || d in s
    ensures Without([x] + s, IndexOf([x] + s, d)) == if x == d then s else [x] + Without(s, IndexOf(s, d))
  {
    assert ([x] + s)[1..] == s;
  }

  lemma RemainingCons(s: seq<Dispatcher>, log: seq<Event>, rest: seq<Dispatcher>)
    requires s != [] && rest == Remaining(s[1..], log)
    ensures Remaining(s, log) == if Removed(s[0]) in log then rest else [s[0]] + rest
  {
  }

  lemma {:induction false} RemainingLess(s: seq<Dispatcher>, log: seq<Event>, d: Dispatcher)
    requires Distinct(s) && d in Remaining(s, log)
    ensures Remaining(s, log + [Removed(d)]) == Without(Remaining(s, log), IndexOf(Remaining(s, log), d))
  {
    var rest, less := Remaining(s[1..], log), Remaining(s[1..], log + [Removed(d)]);
    RemainingCons(s, log, rest);
    RemainingCons(s, log + [Removed(d)], less);
    if s[0] == d {
      RemainingElements(s, log, d);
      RemainingElements(s[1..], log, d);
      RemainingSame(s[1..], log, Removed(d));
    } else {
      RemainingLess(s[1..], log, d);
    }
    if Removed(s[0]) !in log {
      WithoutHead(s[0], rest, d);
    }
  }

  lemma {:induction false} RemainingDistinct(s: seq<Dispatcher>, log: seq<Event>)
    requires Distinct(s)
    ensures Distinct(Remaining(s, log))
  {
    if s != [] {
      RemainingDistinct(s[1..], log);
      RemainingElements(s[1..], log, s[0]);
    }
  }

  /** Between its two iterators a pass finds the dispatchers of the start that it has not come to and that have
      not been removed. */
  ghost predicate Window(start: seq<Dispatcher>, k: nat, log: seq<Event>, s: Server) {
    && k <= |start| && Distinct(start) && Distinct(s.list) && |s.iterators| == 2
    && s.iterators[0] <= s.iterators[1] <= |s.list|
    && s.list[s.iterators[0]..s.iterators[1]] == Remaining(start[k..], log)
  }

  lemma WithoutDistinct(s: seq<Dispatcher>, i: nat)
    requires Distinct(s) && i < |s|
    ensures Distinct(Without(s, i)) && s[i] !in Without(s, i)
  {
  }

  lemma IndexIs(s: seq<Dispatcher>, i: nat)
    requires Distinct(s) && i < |s|
    ensures IndexOf(s, s[i]) == i
  {
    assert s[IndexOf(s, s[i])] == s[i];
  }

  lemma SliceDistinct(s: seq<Dispatcher>, i: nat, j: nat)
    requires Distinct(s) && i <= j <= |s|
    ensures Distinct(s[i..j])
  {
  }

  lemma SliceWithout(s: seq<Dispatcher>, i: nat, end: nat, index: nat)
    requires i <= end <= |s| && index < |s|
    ensures Adjusted(i, index) <= Adjusted(end, index) < |s|
    ensures Without(s, index)[Adjusted(i, index)..Adjusted(end, index)] ==
      if i <= index < end then Without(s[i..end], index - i) else s[i..end]
  {
  }

  lemma AfterRemoved(s: Server, d: Dispatcher, index: nat)
    requires d in s.list && index == IndexOf(s.list, d) && |s.iterators| == 2
    ensures var r := After(s, Removed(d));
      && r.list == Without(s.list, index) && |r.iterators| == 2
      && r.iterators[0] == Adjusted(s.iterators[0], index) && r.iterators[1] == Adjusted(s.iterators[1], index)
  {
  }

  /** Removing a dispatcher takes it out of what remains, if it is there. */
  lemma RemainingAfter(s: seq<Dispatcher>, log: seq<Event>, d: Dispatcher, window: seq<Dispatcher>)
    requires Distinct(s) && window == Remaining(s, log)
    ensures Remaining(s, log + [Removed(d)]) == if d in window then Without(window, IndexOf(window, d)) else window
  {
    if d in window {
      RemainingLess(s, log, d);
    } else {
      RemainingSame(s, log, Removed(d));
    }
  }

  /** The same in the part of the list between two iterators. */
  lemma SliceAfter(s: seq<Dispatcher>, i: nat, end: nat, index: nat, window: seq<Dispatcher>)
    requires Distinct(s) && i <= end <= |s| && index < |s| && window == s[i..end]
    ensures Adjusted(i, index) <= Adjusted(end, index) <= |Without(s, index)|
    ensures Without(s, index)[Adjusted(i, index)..Adjusted(end, index)] ==
      if s[index] in window then Without(window, IndexOf(window, s[index])) else window
  {
    SliceWithout(s, i, end, index);
    if i <= index < end {
      SliceDistinct(s, i, end);
      assert window[index - i] == s[index];
      IndexIs(window, index - i);
    } else {
      NotInSlice(s, i, end, index);
    }
  }

  lemma RemoveInWindow(start: seq<Dispatcher>, k: nat, log: seq<Event>, s: Server, d: Dispatcher, index: nat)
    requires Window(start, k, log, s) && d in s.list && index == IndexOf(s.list, d)
    ensures Window(start, k, log + [Removed(d)], After(s, Removed(d)))
  {
    var window := s.list[s.iterators[0]..s.iterators[1]];
    AfterRemoved(s, d, index);
    WithoutDistinct(s.list, index);
    SliceDistinct(start, k, |start|);
    RemainingAfter(start[k..], log, d, window);
    SliceAfter(s.list, s.iterators[0], s.iterators[1], index, window);
  }

  lemma NotInSlice(s: seq<Dispatcher>, i: nat, end: nat, index: nat)
    requires Distinct(s) && i <= end <= |s| && index < |s| && !(i <= index < end)
    ensures s[index] !in s[i..end]
  {
    assert forall j :: 0 <= j < end - i ==> s[i..end][j] == s[i + j];
  }

  /** Whatever happens, the window stays right. */
  lemma WindowKeeps(start: seq<Dispatcher>, k: nat, log: seq<Event>, s: Server, e: Event)
    requires Window(start, k, log, s)
    ensures Window(start, k, log + [e], After(s, e))
  {
    if e.Removed? && e.d in s.list {
      RemoveInWindow(start, k, log, s, e.d, IndexOf(s.list, e.d));
    } else {
      RemainingSame(start[k..], log, e);
      var i, end := s.iterators[0], s.iterators[1];
      assert After(s, e).list[i..end] == s.list[i..end];
    }
  }

  lemma {:induction false} WindowKeepsAll(start: seq<Dispatcher>, k: nat, log: seq<Event>, s: Server, events: seq<Event>)
    requires Window(start, k, log, s)
    ensures Window(start, k, log + events, Replay(s, events))
  {
    if events == [] {
      assert log + events == log;
    } else {
      var init := events[..|events| - 1];
      WindowKeepsAll(start, k, log, s, init);
      WindowKeeps(start, k, log + init, Replay(s, init), events[|events| - 1]);
      assert log + init + [events[|events| - 1]] == log + events;
    }
  }

  // ---- what a pass has done ----------------------------------------------------------------------

  /** Taken once, and not removed before. */
  ghost predicate TakenProperly(log: seq<Event>, pass: nat, d: Dispatcher) {
    exists p :: 0 <= p < |log| && TakenAt(log, pass, d, p)
  }

  ghost predicate TakenAt(log: seq<Event>, pass: nat, d: Dispatcher, p: nat)
    requires p < |log|
  {
    && log[p] == Took(pass, d) && Removed(d) !in log[..p]
    && forall q :: 0 <= q < |log| && log[q] == Took(pass, d) ==> q == p
  }

  /** Removed, and not taken. */
  ghost predicate Gone(log: seq<Event>, pass: nat, d: Dispatcher) {
    Took(pass, d) !in log && Removed(d) in log
  }

  ghost predicate Settled(log: seq<Event>, pass: nat, d: Dispatcher) {
    TakenProperly(log, pass, d) || Gone(log, pass, d)
  }

  /** The first k dispatchers of the start are settled, in order; no other one has been taken. */
  ghost predicate Progress(start: seq<Dispatcher>, k: nat, log: seq<Event>, pass: nat) {
    && k <= |start|
    && (forall j :: 0 <= j < k ==> Settled(log, pass, start[j]))
    && (forall q :: 0 <= q < |log| && log[q].Took? && log[q].pass == pass ==> log[q].d in start[..k])
    && InOrder(start, log, pass)
  }

  predicate Earlier(start: seq<Dispatcher>, pass: nat, x: Event, y: Event) {
    && x.Took? && y.Took? && x.pass == y.pass == pass && x.d in start && y.d in start
    ==> IndexOf(start, x.d) < IndexOf(start, y.d)
  }

  /** The pass takes in the order of the list. */
  ghost predicate InOrder(start: seq<Dispatcher>, log: seq<Event>, pass: nat) {
    forall p, q :: 0 <= p < q < |log| ==> Earlier(start, pass, log[p], log[q])
  }

  lemma SettledStays(log: seq<Event>, pass: nat, d: Dispatcher, e: Event)
    requires Settled(log, pass, d) && e != Took(pass, d)
    ensures Settled(log + [e], pass, d)
  {
    if TakenProperly(log, pass, d) {
      var p :| 0 <= p < |log| && TakenAt(log, pass, d, p);
      assert (log + [e])[..p] == log[..p];
      assert TakenAt(log + [e], pass, d, p);
    }
  }

  lemma ProgressStays(start: seq<Dispatcher>, k: nat, log: seq<Event>, pass: nat, e: Event)
    requires Progress(start, k, log, pass) && !(e.Took? && e.pass == pass)
    ensures Progress(start, k, log + [e], pass)
  {
    forall j | 0 <= j < k ensures Settled(log + [e], pass, start[j]) {
      SettledStays(log, pass, start[j], e);
    }
  }

  predicate Others(events: seq<Event>, pass: nat) {
    forall j :: 0 <= j < |events| ==> !(events[j].Took? && events[j].pass == pass)
  }

  lemma {:induction false} ProgressStaysAll(start: seq<Dispatcher>, k: nat, log: seq<Event>, pass: nat, events: seq<Event>)
    requires Progress(start, k, log, pass) && Others(events, pass)
    ensures Progress(start, k, log + events, pass)
  {
    if events == [] {
      assert log + events == log;
    } else {
      var init := events[..|events| - 1];
      ProgressStaysAll(start, k, log, pass, init);
      ProgressStays(start, k, log + init, pass, events[|events| - 1]);
      assert log + init + [events[|events| - 1]] == log + events;
    }
  }

  /** The first dispatcher that remains, and the removed ones before it. */
  lemma {:induction false} FirstRemaining(s: seq<Dispatcher>, log: seq<Event>) returns (m: nat)
    requires Remaining(s, log) != []
    ensures m < |s| && s[m] == Remaining(s, log)[0] && Removed(s[m]) !in log
    ensures forall j :: 0 <= j < m ==> Removed(s[j]) in log
    ensures Remaining(s[m + 1..], log) == Remaining(s, log)[1..]
  {
    if Removed(s[0]) in log {
      m := FirstRemaining(s[1..], log);
      assert s[m + 2..] == s[1..][m + 1..];
      m := m + 1;
    } else {
      m := 0;
      assert Remaining(s, log) == [s[0]] + Remaining(s[1..], log);
    }
  }

  /** Taking the dispatcher at the first iterator. */
  lemma Take(start: seq<Dispatcher>, k: nat, log: seq<Event>, pass: nat, s: Server) returns (k': nat)
    requires Window(start, k, log, s) && s.iterators[0] < s.iterators[1] && Progress(start, k, log, pass)
    ensures var i, end := s.iterators[0], s.iterators[1];
      && k < k' <= |start| && Window(start, k', log + [Took(pass, s.list[i])], Server(s.list, [i + 1, end]))
      && Progress(start, k', log + [Took(pass, s.list[i])], pass)
  {
    var i, end := s.iterators[0], s.iterators[1];
    var d := s.list[i];
    var m := FirstRemaining(start[k..], log);
    assert s.list[i..end][0] == d && s.list[i..end][1..] == s.list[i + 1..end];
    k' := k + m + 1;
    assert start[k..][m + 1..] == start[k'..] && start[k + m] == d;
    RemainingSame(start[k'..], log, Took(pass, d));
    TakeProgress(start, k, log, pass, d, k');
  }

  lemma TakeProgress(start: seq<Dispatcher>, k: nat, log: seq<Event>, pass: nat, d: Dispatcher, k': nat)
    requires Progress(start, k, log, pass) && Distinct(start) && k < k' <= |start| && start[k' - 1] == d
    requires Removed(d) !in log && forall j :: k <= j < k' - 1 ==> Removed(start[j]) in log
    ensures Progress(start, k', log + [Took(pass, d)], pass)
  {
    var more := log + [Took(pass, d)];
    assert d !in start[..k];
    forall j | 0 <= j < k' ensures Settled(more, pass, start[j]) {
      if j < k {
        SettledStays(log, pass, start[j], Took(pass, d));
      } else if j < k' - 1 {
        assert Took(pass, start[j]) !in log by {
          assert start[j] !in start[..k];
        }
        assert Gone(log, pass, start[j]);
        SettledStays(log, pass, start[j], Took(pass, d));
      } else {
        assert more[..|log|] == log;
        assert TakenAt(more, pass, d, |log|);
      }
    }
    IndexIs(start, k' - 1);
    forall p, q | 0 <= p < q < |more| ensures Earlier(start, pass, more[p], more[q]) {
      if q == |log| && log[p].Took? && log[p].pass == pass {
        var j :| 0 <= j < k && start[..k][j] == log[p].d;
        IndexIs(start, j);
      }
    }
  }

  /** A pass that has reached its end has settled every dispatcher of its start. */
  lemma AllSettled(start: seq<Dispatcher>, k: nat, log: seq<Event>, pass: nat, s: Server)
    requires Window(start, k, log, s) && s.iterators[0] == s.iterators[1] && Progress(start, k, log, pass)
    ensures Progress(start, |start|, log, pass)
  {
    forall j | k <= j < |start| ensures Settled(log, pass, start[j]) {
      RemainingElements(start[k..], log, start[j]);
      assert start[k..][j - k] == start[j];
      assert start[j] !in start[..k];
    }
    assert start[..k] <= start[..|start|];
  }

  // ---- additions ---------------------------------------------------------------------------------

  /** A dispatcher stays in the list until it is removed. */
  lemma {:induction false} StaysListed(s: Server, d: Dispatcher, events: seq<Event>)
    requires d in s.list && Removed(d) !in events
    ensures d in Replay(s, events).list
  {
    if events != [] {
      var init, e := events[..|events| - 1], events[|events| - 1];
      StaysListed(s, d, init);
      var r := Replay(s, init);
      if e.Removed? && e.d in r.list {
        var i :| 0 <= i < |r.list| && r.list[i] == d;
        var k := IndexOf(r.list, e.d);
        assert if i < k then Without(r.list, k)[i] == d else Without(r.list, k)[i - 1] == d;
      }
    }
  }

  lemma AddedIsListed(s: Server, d: Dispatcher, events: seq<Event>)
    requires Removed(d) !in events
    ensures d in Replay(After(s, Added(d)), events).list
  {
    assert d in After(s, Added(d)).list;
    StaysListed(After(s, Added(d)), d, events);
  }

  /** A finished pass has taken every dispatcher of its start that has not been removed. */
  lemma ListedIsTaken(start: seq<Dispatcher>, log: seq<Event>, pass: nat, d: Dispatcher)
    requires Progress(start, |start|, log, pass) && d in start && Removed(d) !in log
    ensures TakenProperly(log, pass, d)
  {
    var j :| 0 <= j < |start| && start[j] == d;
    assert Settled(log, pass, start[j]);
  }
}
