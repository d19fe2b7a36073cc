/** In which order a thread handles the Sends of the others: first come, first served. */
module ThreadSendOrder {
  import opened ThreadSend

  /** A send list holds its Sends in the order in which they were accepted. */
  predicate Ascends(l: seq<SendId>) {
    forall i, j :: 0 <= i < j < |l| ==> l[i] < l[j]
  }

  ghost predicate ListsAscend(st: State) {
    forall t {:trigger st.threads[t]} :: 0 <= t < |st.threads| ==> Ascends(st.threads[t].sends)
  }

  /** Two Sends to the same thread, the first of which still waits. */
  predicate WaitsBefore(st: State, i: SendId, j: SendId) {
    i < j < |st.calls| && st.calls[i].target == st.calls[j].target && IsQueued(st, i)
  }

  /** While a Send waits, no later one to the same thread has begun. */
  ghost predicate FirstComeAt(st: State, i: SendId, j: SendId) {
    WaitsBefore(st, i, j) ==> st.begun[j] == 0
  }

  ghost predicate InSequence(st: State) {
    ListsAscend(st) && forall i, j :: FirstComeAt(st, i, j)
  }

  lemma InListIff(st: State, t: Tid, id: SendId)
    requires Invariant(st) && t < |st.threads|
    ensures id in st.threads[t].sends <==> IsQueued(st, id) && st.calls[id].target == t
  {
    assert ListAt(st, t, id);
    assert id in multiset(st.threads[t].sends) <==> id in st.threads[t].sends;
  }

  lemma NewSendsAscend(st: State, a: Action)
    requires Enabled(st, a) && Invariant(st) && ListsAscend(st)
    ensures Ascends(NewSends(st, a))
  {
    var u := Touched(st, a);
    var l := st.threads[u].sends;
    assert Ascends(l);
    forall i | 0 <= i < |l| ensures l[i] < |st.calls| {
      InListIff(st, u, l[i]);
    }
  }

  lemma ListsStep(st: State, a: Action)
    requires Enabled(st, a) && Invariant(st) && ListsAscend(st)
    ensures ListsAscend(Apply(st, a))
  {
    NewSendsAscend(st, a);
    forall t | 0 <= t < |st.threads| ensures Ascends(Apply(st, a).threads[t].sends) {
      assert Ascends(st.threads[t].sends);
      assert t != Touched(st, a) ==> Apply(st, a).threads[t].sends == st.threads[t].sends;
    }
  }

  /** The Send that begins is the first of its list. */
  lemma BeginsFirst(st: State, a: Action, i: SendId, j: SendId)
    requires Enabled(st, a) && Invariant(st) && ListsAscend(st) && j in Begun(st, a)
    ensures !WaitsBefore(st, i, j)
  {
    var l := st.threads[a.t].sends;
    assert j == l[0] && Ascends(l);
    InListIff(st, a.t, j);
    InListIff(st, a.t, i);
  }

  lemma FirstComeStep(st: State, a: Action, st': State, i: SendId, j: SendId)
    requires Enabled(st, a) && Invariant(st) && ListsAscend(st) && FirstComeAt(st, i, j)
    requires Balanced(st, a, st', i) && Balanced(st, a, st', j)
    ensures FirstComeAt(st', i, j)
  {
    if WaitsBefore(st', i, j) {
      assert LedgerAt(st, i) && LedgerAt(st, j);
      if j < |st.calls| {
        assert WaitsBefore(st, i, j);
        if j in Begun(st, a) { BeginsFirst(st, a, i, j); }
      } else {
        NothingUnknownBegins(st, a, j);
      }
    }
  }

  lemma NothingUnknownBegins(st: State, a: Action, j: SendId)
    requires Enabled(st, a) && Invariant(st) && j >= |st.calls|
    ensures j !in Begun(st, a)
  {
    if a.step.ReceivePops? && st.threads[a.t].sends != [] {
      InListIff(st, a.t, st.threads[a.t].sends[0]);
    }
  }

  lemma SequenceStep(st: State, a: Action)
    requires Enabled(st, a) && Invariant(st) && InSequence(st)
    ensures InSequence(Apply(st, a))
  {
    ListsStep(st, a);
    forall i, j ensures FirstComeAt(Apply(st, a), i, j) {
      assert FirstComeAt(st, i, j);
      StepBalance(st, a, i);
      StepBalance(st, a, j);
      FirstComeStep(st, a, Apply(st, a), i, j);
    }
  }

  lemma {:induction false} RunInSequence(st: State, acts: seq<Action>, end: State)
    requires Invariant(st) && InSequence(st) && Runs(st, acts, end)
    ensures InSequence(end)
    decreases |acts|
  {
    if acts != [] {
      var init, last := acts[..|acts| - 1], acts[|acts| - 1];
      var mid :| Runs(st, init, mid) && Enabled(mid, last) && end == Apply(mid, last);
      RunInSequence(st, init, mid);
      RunInvariant(st, init, mid);
      SequenceStep(mid, last);
    }
  }

  lemma ReachableInSequence(n: nat, st: State)
    requires Reachable(n, st)
    ensures InSequence(st)
  {
    var acts :| Runs(Init(n), acts, st);
    InitInvariant(n);
    assert forall t {:trigger Init(n).threads[t]} :: 0 <= t < n ==> Init(n).threads[t] == Idle;
    RunInSequence(Init(n), acts, st);
  }

  /** In every reachable state every send list is in the order of the Sends. */
  lemma ListsAreQueues(n: nat, st: State, t: Tid, i: nat, j: nat)
    requires Reachable(n, st) && t < |st.threads| && i < j < |st.threads[t].sends|
    ensures st.threads[t].sends[i] < st.threads[t].sends[j]
  {
    ReachableInSequence(n, st);
    assert Ascends(st.threads[t].sends);
  }

  /** Of two Sends to the same thread the one that was accepted first is handled first: when the later one begins, the
      earlier one has begun or was cleared. */
  lemma FirstComeFirstServed(n: nat, st: State, i: SendId, j: SendId)
    requires Reachable(n, st) && i < j < |st.calls| && st.calls[i].target == st.calls[j].target
    ensures st.begun[j] == 1 ==> st.begun[i] + st.cleared[i] == 1
  {
    ReachableInSequence(n, st);
    ReachableInvariant(n, st);
    assert FirstComeAt(st, i, j) && LedgerAt(st, i);
  }
}
