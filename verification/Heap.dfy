/** std::priority_queue<DelayedMessage>: a heap in a sequence. The heap algorithms of the C++ library may
    arrange the elements in any way that their contracts allow; sorting is one of them. */
module Heaps {
  import opened MessageQueueSpec

  /** The heap order: no element comes out before its parent. */
  predicate IsHeap(c: seq<Item>) {
    forall i :: 0 < i < |c| ==> ParentFirst(c, i)
  }

  predicate ParentFirst(c: seq<Item>, i: nat)
    requires 0 < i < |c|
  {
    !Before(c[i], c[(i - 1) / 2])
  }

  /** The top is first among all. */
  lemma {:induction false} TopIsFirst(c: seq<Item>, i: nat)
    requires IsHeap(c) && i < |c|
    ensures !Before(c[i], c[0])
  {
    if i > 0 {
      assert ParentFirst(c, i);
      TopIsFirst(c, (i - 1) / 2);
    }
  }

  predicate Sorted(c: seq<Item>) {
    forall i, j :: 0 <= i < j < |c| ==> !Before(c[j], c[i])
  }

  function Sort(c: seq<Item>): seq<Item> {
    if c == [] then [] else Insert(Sort(c[..|c| - 1]), c[|c| - 1])
  }

  lemma {:induction false} InsertSorted(c: seq<Item>, x: Item)
    requires Sorted(c)
    ensures Sorted(Insert(c, x))
  {
    if c != [] && Before(x, c[|c| - 1]) {
      var last := c[|c| - 1];
      var r := Insert(c[..|c| - 1], x);
      InsertSorted(c[..|c| - 1], x);
      forall i | 0 <= i < |r| ensures !Before(last, r[i]) {
        InsertElements(c[..|c| - 1], x, r[i]);
      }
    }
  }

  lemma {:induction false} SortIsHeap(c: seq<Item>)
    ensures Sorted(Sort(c)) && IsHeap(Sort(c)) && forall y :: Count(Sort(c), y) == Count(c, y)
  {
    if c != [] {
      SortIsHeap(c[..|c| - 1]);
      InsertSorted(Sort(c[..|c| - 1]), c[|c| - 1]);
      forall y ensures Count(Sort(c), y) == Count(c, y) {
        InsertCount(Sort(c[..|c| - 1]), c[|c| - 1], y);
        LastCount(c, y);
      }
    }
  }

  /** make_heap. */
  method MakeHeap(c: seq<Item>) returns (h: seq<Item>)
    ensures IsHeap(h) && forall y :: Count(h, y) == Count(c, y)
  {
    SortIsHeap(c);
    h := Sort(c);
  }

  /** push. */
  method PushHeap(c: seq<Item>, x: Item) returns (h: seq<Item>)
    requires IsHeap(c)
    ensures IsHeap(h) && forall y :: Count(h, y) == Count(c, y) + Count([x], y)
  {
    h := MakeHeap(c + [x]);
    forall y ensures Count(h, y) == Count(c, y) + Count([x], y) {
      CountAppend(c, [x], y);
    }
  }

  /** pop. */
  method PopHeap(c: seq<Item>) returns (h: seq<Item>)
    requires IsHeap(c) && c != []
    ensures IsHeap(h) && forall y :: Count(h, y) + Count([c[0]], y) == Count(c, y)
  {
    h := MakeHeap(c[1..]);
    forall y ensures Count(h, y) + Count([c[0]], y) == Count(c, y) {
      HeadCount(c, y);
    }
  }
}
