/** vzsdk::FifoBuffer (src/base/stream.cpp): the queue of module Fifos in a ring of bytes. */
module FifoBuffers {
  import opened Bytes
  import opened Fifos
  import ByteBuffers

  // ---- rings -------------------------------------------------------------------------------------

  /** The slots of a ring from position p on. */
  function Rotated(a: bytes, p: nat): (r: bytes)
    requires p <= |a|
    ensures |r| == |a|
  {
    a[p..] + a[..p]
  }

  function ViewOf(a: bytes, p: nat, n: nat, closed: bool): (f: Fifo)
    requires p <= |a| && n <= |a|
    ensures |f.data| == n && |f.free| == |a| - n
  {
    Fifo(Rotated(a, p)[..n], Rotated(a, p)[n..], closed)
  }

  function Wrapped(x: nat, n: nat): nat { if x < n then x else x - n }

  /** Positions are at most one lap ahead. */
  method Slot(x: nat, n: nat) returns (i: nat)
    requires x < 2 * n
    ensures i == Wrapped(x, n) && i < n
  {
    i := x % n;
    ByteBuffers.ModUnique(x, n, if x < n then 0 else 1, Wrapped(x, n));
  }

  lemma RotatedAt(a: bytes, p: nat, k: nat)
    requires p < |a| && k < |a|
    ensures Wrapped(p + k, |a|) < |a| && Rotated(a, p)[k] == a[Wrapped(p + k, |a|)]
  {
  }

  /** memcpy out of a ring in two parts. */
  lemma RotatedSlice(a: bytes, p: nat, k: nat, n: nat, q: nat, tail: nat)
    requires p < |a| && k < |a| && k + n <= |a| && q == Wrapped(p + k, |a|) && tail == Min(n, |a| - q)
    ensures a[q..q + tail] + a[..n - tail] == Rotated(a, p)[k..k + n]
  {
    var copy := a[q..q + tail] + a[..n - tail];
    forall j | 0 <= j < n ensures copy[j] == Rotated(a, p)[k..k + n][j] {
      RotatedAt(a, p, k + j);
    }
  }

  /** memcpy into a ring in two parts. */
  lemma RotatedOverlay(a: bytes, b: bytes, p: nat, k: nat, s: bytes, q: nat, tail: nat)
    requires p < |a| == |b| && k < |a| && k + |s| <= |a| && q == Wrapped(p + k, |a|) && tail == Min(|s|, |a| - q)
    requires b == Overlay(Overlay(a, q, s[..tail]), 0, s[tail..])
    ensures Rotated(b, p) == Overlay(Rotated(a, p), k, s)
  {
    forall j | 0 <= j < |a| ensures Rotated(b, p)[j] == Overlay(Rotated(a, p), k, s)[j] {
      RotatedAt(a, p, j);
      RotatedAt(b, p, j);
    }
  }

  lemma RotateMore(a: bytes, p: nat, n: nat)
    requires p < |a| && n <= |a|
    ensures Wrapped(p + n, |a|) < |a| && Rotated(a, Wrapped(p + n, |a|)) == Rotated(a, p)[n..] + Rotated(a, p)[..n]
  {
  }

  lemma OverlayBehind(s: bytes, n: nat, k: nat, p: bytes)
    requires n + k + |p| <= |s|
    ensures Overlay(s, n + k, p)[..n] == s[..n] && Overlay(s, n + k, p)[n..] == Overlay(s[n..], k, p)
  {
  }

  lemma DropSplit(s: bytes, n: nat, k: nat)
    requires k <= n <= |s|
    ensures (s[k..] + s[..k])[..n - k] == s[..n][k..]
    ensures (s[k..] + s[..k])[n - k..] == s[n..] + s[..n][..k]
  {
  }

  lemma GrowSplit(s: bytes, n: nat, k: nat)
    requires n + k <= |s|
    ensures s[..n + k] == s[..n] + s[n..][..k] && s[n + k..] == s[n..][k..]
  {
  }

  /** How the fields hold a queue. */
  predicate Holds(a: bytes, p: nat, n: nat, closed: bool, f: Fifo) {
    n <= |a| && (p < |a| || |a| == p == 0) && f == ViewOf(a, p, n, closed)
  }

  lemma Lengths(a: bytes, p: nat, n: nat, closed: bool, f: Fifo)
    requires Holds(a, p, n, closed, f)
    ensures |f.data| == n && |f.free| == |a| - n && f.closed == closed && n <= |a| && (p < |a| || |a| == p == 0)
  {
  }

  // ---- the view ----------------------------------------------------------------------------------

  lemma ReadHolds(a: bytes, p: nat, n: nat, closed: bool, f: Fifo, k: nat, q: nat)
    requires Holds(a, p, n, closed, f) && 0 < |a| && k <= n && q == Wrapped(p + k, |a|)
    ensures Holds(a, q, n - k, closed, Step(f, Fifos.Op.Read(k)))
  {
    RotateMore(a, p, k);
    DropSplit(Rotated(a, p), n, k);
  }

  lemma AppendHolds(a: bytes, p: nat, n: nat, closed: bool, f: Fifo, k: nat)
    requires Holds(a, p, n, closed, f) && n + k <= |a|
    ensures Allowed(f, Append(k)) && Holds(a, p, n + k, closed, Step(f, Append(k)))
  {
    GrowSplit(Rotated(a, p), n, k);
  }

  lemma OverlayHolds(a: bytes, b: bytes, p: nat, n: nat, closed: bool, f: Fifo, k: nat, s: bytes, q: nat, tail: nat)
    requires Holds(a, p, n, closed, f) && |a| == |b| && n + k < |a| && n + k + |s| <= |a|
    requires q == Wrapped(p + n + k, |a|) && tail == Min(|s|, |a| - q)
    requires b == Overlay(Overlay(a, q, s[..tail]), 0, s[tail..])
    ensures k + |s| <= |f.free| && Holds(b, p, n, closed, f.(free := Overlay(f.free, k, s)))
  {
    RotatedOverlay(a, b, p, n + k, s, q, tail);
    OverlayBehind(Rotated(a, p), n, k, s);
  }

  /** A direct copy of bytes that do not wrap. */
  lemma WindowHolds(a: bytes, b: bytes, p: nat, n: nat, closed: bool, f: Fifo, s: bytes, q: nat)
    requires Holds(a, p, n, closed, f) && n < |a| && n + |s| <= |a| && q == Wrapped(p + n, |a|) && q + |s| <= |a|
    requires b == Overlay(a, q, s)
    ensures |s| <= |f.free| && Holds(b, p, n, closed, f.(free := Overlay(f.free, 0, s)))
  {
    assert s[..|s|] == s && Overlay(b, 0, s[|s|..]) == b;
    OverlayHolds(a, b, p, n, closed, f, 0, s, q, |s|);
  }

  lemma SliceHolds(a: bytes, p: nat, n: nat, closed: bool, f: Fifo, k: nat, count: nat, q: nat, tail: nat)
    requires Holds(a, p, n, closed, f) && k < n && count <= n - k && q == Wrapped(p + k, |a|)
    requires tail == Min(count, |a| - q)
    ensures a[q..q + tail] + a[..count - tail] == f.data[k..k + count]
  {
    RotatedSlice(a, p, k, count, q, tail);
    assert f.data[k..k + count] == Rotated(a, p)[k..k + count];
  }

  /** A copy of the readable bytes to the start of another ring. */
  lemma MovedHolds(a: bytes, b: bytes, p: nat, n: nat, closed: bool, f: Fifo, tail: nat)
    requires Holds(a, p, n, closed, f) && n <= |b| && tail == Min(n, |a| - p)
    requires b[..n] == a[p..p + tail] + a[..n - tail]
    ensures Holds(b, 0, n, closed, f.(free := b[n..]))
  {
    assert Rotated(b, 0) == b;
    assert a[p..p + tail] + a[..n - tail] == Rotated(a, p)[..n];
  }

  /** An empty ring may start anywhere. */
  lemma EmptyHolds(a: bytes, p: nat, closed: bool, f: Fifo)
    requires Holds(a, p, 0, closed, f)
    ensures Holds(a, 0, 0, closed, f.(free := a))
  {
    assert Rotated(a, 0) == a;
  }

  lemma OverlayThenTake(s: bytes, p: bytes)
    requires |p| <= |s|
    ensures Overlay(s, 0, p)[..|p|] == p && Overlay(s, 0, p)[|p|..] == s[|p|..]
  {
  }

  /** Read is a look at the bytes, and their removal. */
  lemma ReadSteps(f: Fifo, n: nat)
    ensures Step(f, Fifos.Op.Read(n)) == Step(f, Fifos.Op.Read(Min(n, |f.data|)))
    ensures f.data == [] ==> Step(f, Fifos.Op.Read(n)) == f && Out(f, Fifos.Op.Read(n)) == []
    ensures Out(f, Fifos.Op.Read(n)) == ReadBytes(f, n, 0) && |ReadBytes(f, n, 0)| == Min(n, |f.data|)
  {
  }

  /** Write is WriteOffset followed by ConsumeWriteBuffer. */
  lemma WriteSteps(f: Fifo, p: bytes, g: Fifo)
    requires g == Step(f, WriteAt(p, 0))
    ensures Allowed(g, Append(|In(f, Fifos.Op.Write(p))|))
    ensures Step(f, Fifos.Op.Write(p)) == Step(g, Append(|In(f, Fifos.Op.Write(p))|))
    ensures WriteResult(f, 0) == SR_SUCCESS ==> |In(f, Fifos.Op.Write(p))| == |Fitting(f, p, 0)|
    ensures WriteResult(f, 0) != SR_SUCCESS ==> In(f, Fifos.Op.Write(p)) == [] && Step(f, Fifos.Op.Write(p)) == f
  {
    if WriteResult(f, 0) == SR_SUCCESS {
      OverlayThenTake(f.free, Fitting(f, p, 0));
    } else {
      assert f.data + f.free[..0] == f.data;
    }
  }

  /** PostEvent under a condition. */
  function Posting(posted: seq<Event>, e: Event, condition: bool): seq<Event> {
    if condition then posted + [e] else posted
  }

  class FifoBuffer {
    var buffer: array<byte>
    var dataLength: nat
    var readPosition: nat
    var closed: bool
    var posted: seq<Event>
    ghost var view: Fifo

    ghost predicate Valid()
      reads this, buffer
    {
      Holds(buffer[..], readPosition, dataLength, closed, view)
    }

    constructor (size: nat)
      ensures Valid() && view.data == [] && Capacity(view) == size && !view.closed && posted == [] && fresh(buffer)
    {
      buffer := new byte[size];
      dataLength, readPosition, closed, posted := 0, 0, false, [];
      new;
      view := Fifo([], buffer[..], false);
      assert Rotated(buffer[..], 0) == buffer[..];
    }

    method SetCapacity(size: nat) returns (ok: bool)
      requires Valid()
      modifies this
      ensures Valid() && (buffer == old(buffer) || fresh(buffer)) && posted == old(posted)
      ensures ok == (|old(view).data| <= size)
      ensures !ok ==> view == old(view)
      ensures ok ==> view == Step(old(view), Renew(view.free)) && Capacity(view) == size
    {
      Lengths(buffer[..], readPosition, dataLength, closed, view);
      if dataLength > size {
        return false;
      }
      if size != buffer.Length {
        var newBuffer := Moved(size);
        MovedHolds(buffer[..], newBuffer[..], readPosition, dataLength, closed, view,
                   Min(dataLength, buffer.Length - readPosition));
        view := Step(view, Renew(newBuffer[dataLength..]));
        buffer := newBuffer;
        readPosition := 0;
      }
      ok := true;
    }

    /** The copy of the readable bytes into a new ring. */
    method Moved(size: nat) returns (newBuffer: array<byte>)
      requires readPosition <= buffer.Length && dataLength <= buffer.Length && dataLength <= size
      ensures fresh(newBuffer) && newBuffer.Length == size
      ensures var tail := Min(dataLength, buffer.Length - readPosition);
        newBuffer[..dataLength] == buffer[readPosition..readPosition + tail] + buffer[..dataLength - tail]
    {
      var copy := dataLength;
      var tailCopy := Min(copy, buffer.Length - readPosition);
      newBuffer := new byte[size];
      forall j | 0 <= j < tailCopy {
        newBuffer[j] := buffer[readPosition + j];
      }
      forall j | 0 <= j < copy - tailCopy {
        newBuffer[tailCopy + j] := buffer[j];
      }
      assert newBuffer[..tailCopy] == buffer[readPosition..readPosition + tailCopy];
      assert newBuffer[tailCopy..copy] == buffer[..copy - tailCopy];
      assert newBuffer[..copy] == newBuffer[..tailCopy] + newBuffer[tailCopy..copy];
    }

    method Read(n: nat) returns (result: StreamResult, out: bytes)
      requires Valid()
      modifies this`dataLength, this`readPosition, this`posted, this`view
      ensures Valid() && view == Step(old(view), Fifos.Op.Read(n))
      ensures result == ReadResult(old(view), 0) && out == Out(old(view), Fifos.Op.Read(n))
      ensures old(view).data == out + view.data && |out| <= n && (|out| == n || view.data == [])
      ensures posted == Posting(old(posted), SE_WRITE, old(view).free == [] && out != [])
    {
      var wasWritable := dataLength < buffer.Length;
      Lengths(buffer[..], readPosition, dataLength, closed, view);
      ReadSteps(view, n);
      ReadsAll(view, n);
      result, out := ReadOffsetLocked(n, 0);
      if result == SR_SUCCESS {
        Advance(|out|);
        if !wasWritable && |out| > 0 {
          posted := posted + [SE_WRITE];
        }
      }
    }

    method Advance(k: nat)
      requires Valid() && buffer.Length > 0 && k <= dataLength
      modifies this`dataLength, this`readPosition, this`view
      ensures Valid() && view == Step(old(view), Fifos.Op.Read(k))
    {
      Lengths(buffer[..], readPosition, dataLength, closed, view);
      var position := Slot(readPosition + k, buffer.Length);
      ReadHolds(buffer[..], readPosition, dataLength, closed, view, k, position);
      readPosition := position;
      dataLength := dataLength - k;
      view := Step(view, Fifos.Op.Read(k));
    }

    method Extend(k: nat)
      requires Valid() && dataLength + k <= buffer.Length
      modifies this`dataLength, this`view
      ensures Valid() && Allowed(old(view), Append(k)) && view == Step(old(view), Append(k))
    {
      AppendHolds(buffer[..], readPosition, dataLength, closed, view, k);
      dataLength := dataLength + k;
      view := Step(view, Append(k));
    }

    method Write(p: bytes) returns (result: StreamResult, written: nat)
      requires Valid()
      modifies this`dataLength, this`posted, this`view, buffer
      ensures Valid() && view == Step(old(view), Fifos.Op.Write(p))
      ensures result == WriteResult(old(view), 0) && written == |In(old(view), Fifos.Op.Write(p))|
      ensures written <= |p| && (result == SR_SUCCESS ==> written == |p| || view.free == [])
      ensures posted == Posting(old(posted), SE_READ, old(view).data == [] && written > 0)
    {
      var wasReadable := dataLength > 0;
      ghost var f := view;
      Lengths(buffer[..], readPosition, dataLength, closed, f);
      ResultsAre(f, 0);
      if WriteResult(f, 0) == SR_SUCCESS { WritesAll(f, p); }
      result, written := WriteOffsetLocked(p, 0);
      WriteSteps(f, p, view);
      if result == SR_SUCCESS {
        Extend(written);
        if !wasReadable && written > 0 {
          posted := posted + [SE_READ];
        }
      }
    }

    method Close()
      requires Valid()
      modifies this`closed, this`view
      ensures Valid() && view == Step(old(view), Fifos.Op.Close)
    {
      closed := true;
      view := Step(view, Fifos.Op.Close);
    }

    // ---- zero copy ---------------------------------------------------------------------------------

    /** A window of readable bytes, as large as the ring allows; it is empty only when nothing is readable. */
    method GetReadData() returns (at: nat, size: nat)
      requires Valid()
      ensures at + size <= buffer.Length && size <= |view.data| && buffer[at..at + size] == view.data[..size]
      ensures size == 0 <==> view.data == []
      ensures size == |view.data| || at + size == buffer.Length
    {
      Lengths(buffer[..], readPosition, dataLength, closed, view);
      size := if readPosition + dataLength <= buffer.Length then dataLength else buffer.Length - readPosition;
      at := readPosition;
      if size > 0 {
        SliceHolds(buffer[..], readPosition, dataLength, closed, view, 0, size, at, size);
      }
    }

    method ConsumeReadData(size: nat)
      requires Valid() && buffer.Length > 0 && size <= |view.data|
      modifies this`dataLength, this`readPosition, this`posted, this`view
      ensures Valid() && view == Step(old(view), Fifos.Op.Read(size))
      ensures posted == Posting(old(posted), SE_WRITE, old(view).free == [] && size > 0)
    {
      var wasWritable := dataLength < buffer.Length;
      Lengths(buffer[..], readPosition, dataLength, closed, view);
      Advance(size);
      if !wasWritable && size > 0 {
        posted := posted + [SE_WRITE];
      }
    }

    /** A window of free slots, the next ones to be appended, as large as the ring allows; it is empty only when no
        slot is free. */
    method GetWriteBuffer() returns (r: Option<(nat, nat)>)
      requires Valid() && buffer.Length > 0
      modifies this`readPosition, this`view
      ensures Valid() && r.None? == closed && (closed || dataLength > 0 ==> view == old(view))
      ensures view == Step(old(view), Renew(view.free)) && Capacity(view) == old(Capacity(view))
      ensures r.Some? ==>
        var (at, size) := r.value;
        && at == Wrapped(readPosition + dataLength, buffer.Length) && at + size <= buffer.Length
        && size <= |view.free| && (size == 0 <==> view.free == []) && (view.data == [] ==> size == buffer.Length)
        && (size == |view.free| || at + size == buffer.Length)
    {
      Lengths(buffer[..], readPosition, dataLength, closed, view);
      if closed {
        return None;
      }
      if dataLength == 0 {
        EmptyHolds(buffer[..], readPosition, closed, view);
        readPosition := 0;
        view := Step(view, Renew(buffer[..]));
      }
      var writePosition := Slot(readPosition + dataLength, buffer.Length);
      r := Some((writePosition, if writePosition > readPosition || dataLength == 0 then buffer.Length - writePosition
                                else readPosition - writePosition));
    }

    method ConsumeWriteBuffer(size: nat)
      requires Valid() && size <= |view.free|
      modifies this`dataLength, this`posted, this`view
      ensures Valid() && view == Step(old(view), Append(size))
      ensures posted == Posting(old(posted), SE_READ, old(view).data == [] && size > 0)
    {
      var wasReadable := dataLength > 0;
      Lengths(buffer[..], readPosition, dataLength, closed, view);
      Extend(size);
      if !wasReadable && size > 0 {
        posted := posted + [SE_READ];
      }
    }

    method GetBuffered() returns (size: nat)
      requires Valid()
      ensures size == |view.data|
    {
      size := dataLength;
    }

    method GetWriteRemaining() returns (size: nat)
      requires Valid()
      ensures size == |view.free|
    {
      size := buffer.Length - dataLength;
    }

    // ---- at an offset ------------------------------------------------------------------------------

    method ReadOffsetLocked(n: nat, offset: nat) returns (result: StreamResult, out: bytes)
      requires Valid()
      ensures result == ReadResult(view, offset)
      ensures out == if result == SR_SUCCESS then ReadBytes(view, n, offset) else []
    {
      Lengths(buffer[..], readPosition, dataLength, closed, view);
      if offset >= dataLength {
        return if !closed then SR_BLOCK else SR_EOS, [];
      }
      var available := dataLength - offset;
      var position := Slot(readPosition + offset, buffer.Length);
      var copy := Min(n, available);
      var tailCopy := Min(copy, buffer.Length - position);
      out := buffer[position..position + tailCopy] + buffer[..copy - tailCopy];
      SliceHolds(buffer[..], readPosition, dataLength, closed, view, offset, copy, position, tailCopy);
      result := SR_SUCCESS;
    }

    method WriteOffsetLocked(p: bytes, offset: nat) returns (result: StreamResult, written: nat)
      requires Valid()
      modifies buffer, this`view
      ensures Valid() && view == Step(old(view), WriteAt(p, offset))
      ensures result == WriteResult(old(view), offset)
      ensures written == if result == SR_SUCCESS then |Fitting(old(view), p, offset)| else 0
      ensures written <= |p| && (result == SR_SUCCESS ==> written == |p| || offset + written == |old(view).free|)
    {
      Lengths(buffer[..], readPosition, dataLength, closed, view);
      if closed {
        return SR_EOS, 0;
      }
      if dataLength + offset >= buffer.Length {
        return SR_BLOCK, 0;
      }
      var available := buffer.Length - dataLength - offset;
      var copy := Min(|p|, available);
      Put(p[..copy], offset);
      result, written := SR_SUCCESS, copy;
    }

    /** The two memcpys of WriteOffsetLocked. */
    method Put(s: bytes, offset: nat)
      requires Valid() && dataLength + offset < buffer.Length && |s| <= buffer.Length - dataLength - offset
      modifies buffer, this`view
      ensures offset + |s| <= |old(view).free|
      ensures Valid() && view == old(view).(free := Overlay(old(view).free, offset, s))
    {
      Lengths(buffer[..], readPosition, dataLength, closed, view);
      var position := Slot(readPosition + dataLength + offset, buffer.Length);
      var tailCopy := Min(|s|, buffer.Length - position);
      ghost var a := buffer[..];
      Copy(position, s[..tailCopy]);
      Copy(0, s[tailCopy..]);
      OverlayHolds(a, buffer[..], readPosition, dataLength, closed, view, offset, s, position, tailCopy);
      view := view.(free := Overlay(view.free, offset, s));
    }

    /** memcpy into the ring. */
    method Copy(at: nat, s: bytes)
      requires at + |s| <= buffer.Length
      modifies buffer
      ensures buffer[..] == Overlay(old(buffer[..]), at, s)
    {
      forall j | 0 <= j < |s| {
        buffer[at + j] := s[j];
      }
    }

    // ---- clients of the windows --------------------------------------------------------------------

    /** Reading through the window is Read of as many bytes. */
    method ReadInPlace(n: nat) returns (out: bytes)
      requires Valid() && buffer.Length > 0
      modifies this`dataLength, this`readPosition, this`posted, this`view
      ensures Valid() && view == Step(old(view), Fifos.Op.Read(|out|)) && out == Out(old(view), Fifos.Op.Read(|out|))
      ensures out == [] <==> n == 0 || old(view).data == []
    {
      var at, size := GetReadData();
      var k := Min(n, size);
      out := buffer[at..at + size][..k];
      ConsumeReadData(k);
    }

    /** The caller's copy into the window. */
    method FillWindow(at: nat, s: bytes)
      requires Valid() && 0 < |s| <= |view.free|
      requires at == Wrapped(readPosition + dataLength, buffer.Length) && at + |s| <= buffer.Length
      modifies buffer, this`view
      ensures Valid() && view == old(view).(free := Overlay(old(view).free, 0, s))
    {
      ghost var a := buffer[..];
      Lengths(a, readPosition, dataLength, closed, view);
      Copy(at, s);
      WindowHolds(a, buffer[..], readPosition, dataLength, closed, view, s, at);
      view := view.(free := Overlay(view.free, 0, s));
    }

    /** Writing through the window is Write of as many bytes, in other slots if the buffer was empty. */
    method WriteInPlace(p: bytes) returns (written: nat)
      requires Valid() && buffer.Length > 0
      modifies this`dataLength, this`readPosition, this`posted, this`view, buffer
      ensures Valid() && written <= |p| && view.data == old(view).data + p[..written]
      ensures view.closed == old(view).closed && Capacity(view) == old(Capacity(view))
      ensures written == 0 <==> p == [] || old(view).closed || old(view).free == []
    {
      written := 0;
      var window := GetWriteBuffer();
      if window.Some? {
        var (at, size) := window.value;
        written := Min(|p|, size);
        if written > 0 {
          FillAndAppend(at, p[..written]);
        }
      }
    }

    method FillAndAppend(at: nat, s: bytes)
      requires Valid() && 0 < |s| <= |view.free|
      requires at == Wrapped(readPosition + dataLength, buffer.Length) && at + |s| <= buffer.Length
      modifies this`dataLength, this`posted, this`view, buffer
      ensures Valid() && view == Fifo(old(view).data + s, old(view).free[|s|..], old(view).closed)
    {
      OverlayThenTake(view.free, s);
      FillWindow(at, s);
      ConsumeWriteBuffer(|s|);
    }
  }
}
