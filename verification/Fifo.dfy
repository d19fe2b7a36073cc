/** What vzsdk::FifoBuffer (src/base/stream.cpp) promises: a bounded byte queue whose free slots can
    be filled in any order before they are appended. */
module Fifos {
  import opened Bytes

  datatype StreamResult = SR_SUCCESS | SR_BLOCK | SR_EOS | SR_ERROR

  datatype Event = SE_READ | SE_WRITE

  /** The readable bytes, and the bytes in the free slots in the order in which they will be appended. */
  datatype Fifo = Fifo(data: bytes, free: bytes, closed: bool)

  function Capacity(f: Fifo): nat { |f.data| + |f.free| }

  function Min(x: nat, y: nat): (r: nat)
    ensures r <= x && r <= y && (r == x || r == y)
  {
    if x < y then x else y
  }

  /** s with p written over it from an offset. */
  function Overlay(s: bytes, offset: nat, p: bytes): (r: bytes)
    requires offset + |p| <= |s|
    ensures |r| == |s|
  {
    s[..offset] + p + s[offset + |p|..]
  }

  // ---- results -----------------------------------------------------------------------------------

  function ReadResult(f: Fifo, offset: nat): StreamResult {
    if offset < |f.data| then SR_SUCCESS else if f.closed then SR_EOS else SR_BLOCK
  }

  /** The bytes a read of n bytes at an offset gets. */
  function ReadBytes(f: Fifo, n: nat, offset: nat): bytes
    requires offset <= |f.data|
  {
    f.data[offset..offset + Min(n, |f.data| - offset)]
  }

  function WriteResult(f: Fifo, offset: nat): StreamResult {
    if f.closed then SR_EOS else if offset < |f.free| then SR_SUCCESS else SR_BLOCK
  }

  /** The longest prefix that fits at an offset. */
  function Fitting(f: Fifo, p: bytes, offset: nat): bytes
    requires offset <= |f.free|
  {
    p[..Min(|p|, |f.free| - offset)]
  }

  // ---- operations --------------------------------------------------------------------------------

  datatype Op =
    | Read(n: nat)                       // Read, or GetReadData and ConsumeReadData
    | Write(p: bytes)
    | WriteAt(p: bytes, offset: nat)     // WriteOffset
    | Append(n: nat)                     // ConsumeWriteBuffer
    | Close
    | Renew(free: bytes)                 // SetCapacity, and GetWriteBuffer of an empty buffer: other free slots

  /** What the callers of the zero-copy operations must respect. */
  predicate Allowed(f: Fifo, op: Op) {
    op.Append? ==> op.n <= |f.free|
  }

  function Step(f: Fifo, op: Op): (r: Fifo)
    requires Allowed(f, op)
    ensures !op.Renew? ==> Capacity(r) == Capacity(f)
  {
    match op
    case Read(n) =>
      var k := Min(n, |f.data|);
      Fifo(f.data[k..], f.free + f.data[..k], f.closed)
    case Write(p) =>
      if WriteResult(f, 0) != SR_SUCCESS then f
      else Fifo(f.data + Fitting(f, p, 0), f.free[|Fitting(f, p, 0)|..], f.closed)
    case WriteAt(p, offset) =>
      if WriteResult(f, offset) != SR_SUCCESS then f
      else Fifo(f.data, Overlay(f.free, offset, Fitting(f, p, offset)), f.closed)
    case Append(n) => Fifo(f.data + f.free[..n], f.free[n..], f.closed)
    case Close => Fifo(f.data, f.free, true)
    case Renew(free) => Fifo(f.data, free, f.closed)
  }

  /** The bytes an operation hands out. */
  function Out(f: Fifo, op: Op): bytes {
    if op.Read? then ReadBytes(f, op.n, 0) else []
  }

  /** The bytes an operation takes in. */
  function In(f: Fifo, op: Op): bytes
    requires Allowed(f, op)
  {
    match op
    case Write(p) => if WriteResult(f, 0) == SR_SUCCESS then Fitting(f, p, 0) else []
    case Append(n) => f.free[..n]
    case _ => []
  }

  predicate RunAllowed(f: Fifo, ops: seq<Op>)
    decreases |ops|
  {
    ops == [] || (Allowed(f, ops[0]) && RunAllowed(Step(f, ops[0]), ops[1..]))
  }

  function Run(f: Fifo, ops: seq<Op>): Fifo
    requires RunAllowed(f, ops)
    decreases |ops|
  {
    if ops == [] then f else Run(Step(f, ops[0]), ops[1..])
  }

  function AllOut(f: Fifo, ops: seq<Op>): bytes
    requires RunAllowed(f, ops)
    decreases |ops|
  {
    if ops == [] then [] else Out(f, ops[0]) + AllOut(Step(f, ops[0]), ops[1..])
  }

  function AllIn(f: Fifo, ops: seq<Op>): bytes
    requires RunAllowed(f, ops)
    decreases |ops|
  {
    if ops == [] then [] else In(f, ops[0]) + AllIn(Step(f, ops[0]), ops[1..])
  }

  // ---- a queue -----------------------------------------------------------------------------------

  lemma StepConserves(f: Fifo, op: Op)
    requires Allowed(f, op)
    ensures f.data + In(f, op) == Out(f, op) + Step(f, op).data
  {
    match op
    case Read(n) => assert f.data + [] == f.data[..Min(n, |f.data|)] + f.data[Min(n, |f.data|)..];
    case _ =>
  }

  /** First in, first out, for every run: nothing is lost, repeated or reordered. */
  lemma {:induction false} RunConserves(f: Fifo, ops: seq<Op>)
    requires RunAllowed(f, ops)
    ensures f.data + AllIn(f, ops) == AllOut(f, ops) + Run(f, ops).data
    decreases |ops|
  {
    if ops != [] {
      var g := Step(f, ops[0]);
      StepConserves(f, ops[0]);
      RunConserves(g, ops[1..]);
      Assoc3(f.data, In(f, ops[0]), AllIn(g, ops[1..]));
      Assoc3(Out(f, ops[0]), g.data, AllIn(g, ops[1..]));
      Assoc3(Out(f, ops[0]), AllOut(g, ops[1..]), Run(g, ops[1..]).data);
    }
  }

  // ---- filling out of order ----------------------------------------------------------------------

  /** Only offset writes and reads. */
  predicate Filling(ops: seq<Op>) {
    forall i :: 0 <= i < |ops| ==> ops[i].WriteAt? || ops[i].Read?
  }

  /** Whether an operation writes the slot at offset k. */
  predicate Hits(f: Fifo, op: Op, k: nat) {
    && op.WriteAt? && WriteResult(f, op.offset) == SR_SUCCESS
    && op.offset <= k < op.offset + |Fitting(f, op.p, op.offset)|
  }

  /** The last byte a run writes at offset k. */
  function LastWritten(f: Fifo, ops: seq<Op>, k: nat): Option<byte>
    requires RunAllowed(f, ops)
    decreases |ops|
  {
    if ops == [] then None
    else
      var later := LastWritten(Step(f, ops[0]), ops[1..], k);
      if later.Some? then later
      else if Hits(f, ops[0], k) then Some(ops[0].p[k - ops[0].offset])
      else None
  }

  lemma FillStep(f: Fifo, op: Op, k: nat)
    requires op.WriteAt? || op.Read?
    ensures var g := Step(f, op);
      && f.data == Out(f, op) + g.data && |g.free| >= |f.free| && g.closed == f.closed
      && (Hits(f, op, k) ==> k < |g.free| && g.free[k] == op.p[k - op.offset])
      && (!Hits(f, op, k) && k < |f.free| ==> g.free[k] == f.free[k])
  {
  }

  /** A slot holds the last byte written to it, reads and other writes do not matter, and no filling
      disturbs the readable bytes. */
  lemma {:induction false} FillAt(f: Fifo, ops: seq<Op>, k: nat)
    requires Filling(ops) && RunAllowed(f, ops)
    ensures var g := Run(f, ops);
      && f.data == AllOut(f, ops) + g.data && |g.free| >= |f.free|
      && (LastWritten(f, ops, k).Some? ==> k < |g.free| && g.free[k] == LastWritten(f, ops, k).value)
      && (LastWritten(f, ops, k).None? && k < |f.free| ==> g.free[k] == f.free[k])
    decreases |ops|
  {
    if ops != [] {
      var g := Step(f, ops[0]);
      FillStep(f, ops[0], k);
      FillAt(g, ops[1..], k);
      Assoc3(Out(f, ops[0]), AllOut(g, ops[1..]), Run(g, ops[1..]).data);
    }
  }

  lemma AppendAt(g: Fifo, n: nat, k: nat)
    requires k < n <= |g.free|
    ensures var r := Step(g, Append(n)).data;
      |r| == |g.data| + n && g.data <= r && r[|g.data| + k] == g.free[k]
  {
  }

  /** Out-of-order filling: offset writes that cover the first n slots in any order, mixed with reads,
      append exactly the bytes last written there. */
  lemma FillThenAppend(f: Fifo, ops: seq<Op>, n: nat, g: Fifo, r: bytes)
    requires Filling(ops) && RunAllowed(f, ops) && g == Run(f, ops)
    requires forall k :: 0 <= k < n ==> LastWritten(f, ops, k).Some?
    requires n <= |g.free| && r == Step(g, Append(n)).data
    ensures f.data == AllOut(f, ops) + g.data
    ensures |r| == |g.data| + n && g.data <= r
    ensures forall k :: 0 <= k < n ==> r[|g.data| + k] == LastWritten(f, ops, k).value
  {
    FillAt(f, ops, 0);
    forall k | 0 <= k < n ensures r[|g.data| + k] == LastWritten(f, ops, k).value {
      FillAt(f, ops, k);
      AppendAt(g, n, k);
    }
  }

  /** Covering the first n slots already means that they exist. */
  lemma CoverFits(f: Fifo, ops: seq<Op>, n: nat)
    requires Filling(ops) && RunAllowed(f, ops) && n > 0 && LastWritten(f, ops, n - 1).Some?
    ensures Allowed(Run(f, ops), Append(n))
  {
    FillAt(f, ops, n - 1);
  }

  // ---- after Close -------------------------------------------------------------------------------

  predicate OnlyReads(ops: seq<Op>) {
    forall i :: 0 <= i < |ops| ==> ops[i].Read?
  }

  function TotalAsked(ops: seq<Op>): nat
    requires OnlyReads(ops)
  {
    if ops == [] then 0 else ops[0].n + TotalAsked(ops[1..])
  }

  /** A closed buffer hands out what is left, in order, and then only end of stream. */
  lemma {:induction false} ClosedDrains(f: Fifo, ops: seq<Op>)
    requires f.closed && OnlyReads(ops) && RunAllowed(f, ops)
    ensures AllOut(f, ops) == f.data[..Min(TotalAsked(ops), |f.data|)]
    ensures ReadResult(Run(f, ops), 0) == if TotalAsked(ops) < |f.data| then SR_SUCCESS else SR_EOS
    ensures forall offset :: WriteResult(Run(f, ops), offset) == SR_EOS
    decreases |ops|
  {
    if ops != [] {
      var g := Step(f, ops[0]);
      ClosedDrains(g, ops[1..]);
      TakeTwice(f.data, ops[0].n, TotalAsked(ops[1..]));
    }
  }

  lemma TakeTwice(s: bytes, n: nat, more: nat)
    ensures var k := Min(n, |s|);
      s[..Min(n + more, |s|)] == s[..k] + s[k..][..Min(more, |s| - k)]
  {
  }

  // ---- nothing is held back ----------------------------------------------------------------------

  /** A read hands out everything that is asked for, or everything there is. */
  lemma ReadsAll(f: Fifo, n: nat)
    ensures var out := Out(f, Op.Read(n));
      && out <= f.data && Step(f, Op.Read(n)).data == f.data[|out|..]
      && |out| <= n && (|out| == n || |out| == |f.data|)
  {
  }

  /** A successful write takes in everything, or fills the buffer. */
  lemma WritesAll(f: Fifo, p: bytes)
    requires !f.closed && f.free != []
    ensures var taken, g := In(f, Op.Write(p)), Step(f, Op.Write(p));
      && taken <= p && g.data == f.data + taken && |g.free| == |f.free| - |taken|
      && (taken == p || g.free == [])
  {
  }

  /** So does one at an offset, which changes nothing else. */
  lemma WritesAllAt(f: Fifo, p: bytes, offset: nat, k: nat)
    requires !f.closed && offset < |f.free| && k < |f.free|
    ensures var g := Step(f, WriteAt(p, offset));
      && g.data == f.data && |g.free| == |f.free|
      && g.free[k] == if offset <= k < offset + |p| then p[k - offset] else f.free[k]
  {
  }

  /** When a call succeeds, has to wait, or is over. */
  lemma ResultsAre(f: Fifo, offset: nat)
    ensures ReadResult(f, offset) == SR_SUCCESS <==> offset < |f.data|
    ensures ReadResult(f, offset) == SR_BLOCK <==> offset >= |f.data| && !f.closed
    ensures ReadResult(f, offset) == SR_EOS <==> offset >= |f.data| && f.closed
    ensures WriteResult(f, offset) == SR_SUCCESS <==> !f.closed && offset < |f.free|
    ensures WriteResult(f, offset) == SR_BLOCK <==> !f.closed && offset >= |f.free|
    ensures WriteResult(f, offset) == SR_EOS <==> f.closed
  {
  }
}
