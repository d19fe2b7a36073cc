/** Flow of src/base/stream.cpp: a pump between two streams that can stop in the middle and be resumed.
    A stream is a parameter here: a script of what its next calls return. */
module Flows {
  import opened Bytes
  import opened Fifos

  datatype Outcome = Takes(n: nat) | Gives(p: bytes) | Fails(result: StreamResult)

  /** What is left of a script bounds the number of calls. */
  function Left(script: seq<Outcome>): nat {
    if script == [] then 0 else 1 + (if script[0].Gives? then |script[0].p| else 0) + Left(script[1..])
  }

  /** A source that returns chunks, BLOCK, EOS or errors in any order; a finished script blocks. */
  class Source {
    var script: seq<Outcome>
    ghost var taken: bytes                  // all bytes read so far
    ghost var results: seq<StreamResult>    // of all calls so far

    constructor (script: seq<Outcome>)
      ensures this.script == script && taken == [] && results == []
    {
      this.script, taken, results := script, [], [];
    }

    method Read(n: nat) returns (result: StreamResult, p: bytes)
      requires n > 0
      modifies this
      ensures results == old(results) + [result]
      ensures taken == old(taken) + p && |p| <= n && (result != SR_SUCCESS ==> p == [])
      ensures Left(script) <= old(Left(script)) && (result in {SR_SUCCESS, SR_EOS} ==> Left(script) < old(Left(script)))
    {
      if script == [] {
        results := results + [SR_BLOCK];
        return SR_BLOCK, [];
      }
      var next := script[0];
      if next.Gives? {
        var k := Min(n, |next.p|);
        result, p := SR_SUCCESS, next.p[..k];
        taken := taken + p;
        if k == |next.p| {
          script := script[1..];
        } else {
          script := [Gives(next.p[k..])] + script[1..];
        }
      } else {
        result, p := if next.Fails? && next.result != SR_SUCCESS then next.result else SR_BLOCK, [];
        script := script[1..];
        assert taken + [] == taken;
      }
      results := results + [result];
    }
  }

  /** A sink that accepts any part of what it is offered. */
  class Sink {
    var script: seq<Outcome>
    ghost var written: bytes                // all bytes accepted so far
    ghost var results: seq<StreamResult>    // of all calls so far

    constructor (script: seq<Outcome>)
      ensures this.script == script && written == [] && results == []
    {
      this.script, written, results := script, [], [];
    }

    method Write(p: bytes) returns (result: StreamResult, count: nat)
      requires p != []
      modifies this
      ensures results == old(results) + [result]
      ensures count <= |p| && written == old(written) + p[..count] && (result != SR_SUCCESS ==> count == 0)
      ensures |script| <= old(|script|) && (result == SR_SUCCESS ==> |script| < old(|script|))
    {
      result, count := SR_BLOCK, 0;
      if script != [] {
        var next := script[0];
        script := script[1..];
        if next.Takes? {
          result, count := SR_SUCCESS, Min(next.n, |p|);
        } else if next.Fails? && next.result != SR_SUCCESS {
          result := next.result;
        }
      }
      written := written + p[..count];
      results := results + [result];
    }
  }

  /** What a call of Flow conserves: the bytes it found and the bytes it read are the bytes it wrote
      and the bytes it leaves. */
  ghost predicate Conserved(found: bytes, read: bytes, written: bytes, left: bytes) {
    found + read == written + left
  }

  lemma ReadMore(found: bytes, read: bytes, written: bytes, left: bytes, p: bytes)
    requires Conserved(found, read, written, left)
    ensures Conserved(found, read + p, written, left + p)
  {
    Assoc3(found, read, p);
    Assoc3(written, left, p);
  }

  lemma WroteMore(found: bytes, read: bytes, written: bytes, left: bytes, k: nat)
    requires Conserved(found, read, written, left) && k <= |left|
    ensures Conserved(found, read, written + left[..k], left[k..])
  {
    Assoc3(written, left[..k], left[k..]);
    assert left[..k] + left[k..] == left;
  }

  /** Two calls in a row conserve together. */
  lemma Resumed(found: bytes, read: bytes, written: bytes, between: bytes, read': bytes, written': bytes, left: bytes)
    requires Conserved(found, read, written, between) && Conserved(between, read', written', left)
    ensures Conserved(found, read + read', written + written', left)
  {
    Assoc3(found, read, read');
    Assoc3(written, between, read');
    Assoc3(written, written', left);
  }

  /** The bytes added to a log. */
  function Since(log: bytes, before: bytes): bytes
    requires before <= log
  {
    log[|before|..]
  }

  lemma SinceMore(log: bytes, before: bytes, p: bytes)
    requires before <= log
    ensures before <= log + p && Since(log + p, before) == Since(log, before) + p
  {
  }

  /** Calls were made, and the last one returned a result. */
  ghost predicate Ended(before: seq<StreamResult>, after: seq<StreamResult>, result: StreamResult) {
    |before| < |after| && before <= after && after[|after| - 1] == result
  }

  /** Read until the buffer is full, end of stream, or error. */
  method Fill(source: Source, buffer: array<byte>, start: nat, ghost found: bytes, ghost before: bytes, ghost written: bytes)
    returns (result: StreamResult, readPos: nat)
    requires start <= buffer.Length && before <= source.taken
    requires Conserved(found, Since(source.taken, before), written, buffer[..start])
    modifies source, buffer
    ensures start <= readPos <= buffer.Length && before <= source.taken
    ensures Conserved(found, Since(source.taken, before), written, buffer[..readPos])
    ensures result == SR_SUCCESS ==> readPos == buffer.Length
    ensures old(source.results) <= source.results && (result != SR_SUCCESS ==> Ended(old(source.results), source.results, result))
    ensures Left(source.script) <= old(Left(source.script))
    ensures result in {SR_SUCCESS, SR_EOS} && readPos > start ==> Left(source.script) < old(Left(source.script))
  {
    readPos := start;
    while readPos < buffer.Length
      invariant start <= readPos <= buffer.Length && before <= source.taken
      invariant Conserved(found, Since(source.taken, before), written, buffer[..readPos])
      invariant old(source.results) <= source.results
      invariant Left(source.script) <= old(Left(source.script))
      invariant readPos > start ==> Left(source.script) < old(Left(source.script))
      decreases Left(source.script)
    {
      ghost var taken, left := source.taken, buffer[..readPos];
      var p;
      result, p := source.Read(buffer.Length - readPos);
      SinceMore(taken, before, p);
      ReadMore(found, Since(taken, before), written, left, p);
      if result != SR_SUCCESS {
        assert left + [] == left;
        return;
      }
      forall j | 0 <= j < |p| {
        buffer[readPos + j] := p[j];
      }
      assert buffer[..readPos + |p|] == left + p;
      readPos := readPos + |p|;
    }
    result := SR_SUCCESS;
  }

  /** Write until the buffer is empty, or error (including end of stream). What is held then is moved down if the
      caller keeps the length. */
  method Drain(sink: Sink, buffer: array<byte>, readPos: nat, keep: bool,
               ghost found: bytes, ghost read: bytes, ghost before: bytes)
    returns (result: StreamResult, left: nat, ghost held: bytes)
    requires readPos <= buffer.Length && before <= sink.written
    requires Conserved(found, read, Since(sink.written, before), buffer[..readPos])
    modifies sink, buffer
    ensures left == |held| <= readPos && before <= sink.written && (keep ==> buffer[..left] == held)
    ensures Conserved(found, read, Since(sink.written, before), held)
    ensures result == SR_SUCCESS <==> held == []
    ensures old(sink.results) <= sink.results && (result != SR_SUCCESS ==> Ended(old(sink.results), sink.results, result))
  {
    var writePos := 0;
    result := SR_SUCCESS;
    while writePos < readPos
      invariant writePos <= readPos && before <= sink.written && result == SR_SUCCESS
      invariant Conserved(found, read, Since(sink.written, before), buffer[writePos..readPos])
      invariant old(sink.results) <= sink.results
      decreases |sink.script|
      modifies sink
    {
      ghost var written, p := sink.written, buffer[writePos..readPos];
      var count;
      result, count := sink.Write(buffer[writePos..readPos]);
      SinceMore(written, before, p[..count]);
      WroteMore(found, read, Since(written, before), p, count);
      assert p[count..] == buffer[writePos + count..readPos];
      if result != SR_SUCCESS {
        break;
      }
      writePos := writePos + count;
    }
    left, held := readPos - writePos, buffer[writePos..readPos];
    if keep {
      MoveDown(buffer, writePos, left);
    }
  }

  /** memmove. */
  method MoveDown(buffer: array<byte>, from: nat, n: nat)
    requires from + n <= buffer.Length
    modifies buffer
    ensures buffer[..n] == old(buffer[from..from + n])
  {
    if from > 0 {
      forall j | 0 <= j < n {
        buffer[j] := buffer[from + j];
      }
    }
  }

  /** What Flow starts with: the buffered bytes of the caller who passes data_len, and nothing otherwise. */
  function Found(buffer: bytes, dataLen: Option<nat>): bytes
    requires dataLen.Some? ==> dataLen.value <= |buffer|
  {
    if dataLen.Some? then buffer[..dataLen.value] else []
  }

  /** Flow. It ends only at the end of the source, with everything written, or when a call fails; whatever way it
      ends, the bytes it found and read are those it wrote and those it still held. A caller who passes data_len
      gets the held bytes back; without it they are lost, and there always are some when the sink fails. */
  method Flow(source: Source, buffer: array<byte>, sink: Sink, dataLen: Option<nat>)
    returns (result: StreamResult, left: Option<nat>, ghost held: bytes)
    requires 0 < buffer.Length && (dataLen.Some? ==> dataLen.value <= buffer.Length)
    modifies source, sink, buffer
    ensures old(source.taken) <= source.taken && old(sink.written) <= sink.written
    ensures Conserved(Found(old(buffer[..]), dataLen), Since(source.taken, old(source.taken)),
                      Since(sink.written, old(sink.written)), held)
    ensures left.Some? == dataLen.Some? && (left.Some? ==> left.value <= buffer.Length && buffer[..left.value] == held)
    ensures result == SR_SUCCESS ==> held == [] && Ended(old(source.results), source.results, SR_EOS)
    ensures result != SR_SUCCESS ==>
      || Ended(old(source.results), source.results, result)
      || (Ended(old(sink.results), sink.results, result) && held != [])
  {
    ghost var found, taken0, written0 := Found(buffer[..], dataLen), source.taken, sink.written;
    var readPos := if dataLen.Some? then dataLen.value else 0;
    var endOfStream := false;
    left := dataLen;
    assert buffer[..readPos] == found;
    assert Since(taken0, taken0) == Since(written0, written0) == [] && found + [] == [] + found;
    while true
      invariant !endOfStream && readPos <= buffer.Length && taken0 <= source.taken && written0 <= sink.written
      invariant left.Some? == dataLen.Some?
      invariant Conserved(found, Since(source.taken, taken0), Since(sink.written, written0), buffer[..readPos])
      invariant old(source.results) <= source.results && old(sink.results) <= sink.results
      decreases Left(source.script), readPos
    {
      result, readPos := Fill(source, buffer, readPos, found, taken0, Since(sink.written, written0));
      if result == SR_EOS {
        endOfStream := true;
      } else if result != SR_SUCCESS {
        held := buffer[..readPos];
        if dataLen.Some? {
          left := Some(readPos);
        }
        return;
      }
      var kept;
      result, kept, held := Drain(sink, buffer, readPos, dataLen.Some?, found, Since(source.taken, taken0), written0);
      if result != SR_SUCCESS {
        if dataLen.Some? {
          left := Some(kept);
        }
        return;
      }
      readPos := 0;
      assert buffer[..0] == held;
      if endOfStream {
        if dataLen.Some? {
          left := Some(0);
        }
        result := SR_SUCCESS;
        return;
      }
    }
  }

  /** Calling Flow again after every interruption delivers the source's bytes in order; after a call that
      ends well the sink has everything. */
  method Pump(source: Source, buffer: array<byte>, sink: Sink, calls: nat) returns (result: StreamResult, left: nat)
    requires 0 < buffer.Length && source.taken == sink.written == []
    modifies source, sink, buffer
    ensures left <= buffer.Length && source.taken == sink.written + buffer[..left]
    ensures result == SR_SUCCESS ==> sink.written == source.taken
  {
    result, left := SR_BLOCK, 0;
    for i := 0 to calls
      invariant left <= buffer.Length && Conserved([], source.taken, sink.written, buffer[..left])
      invariant result == SR_SUCCESS ==> left == 0
    {
      ghost var taken, written, between := source.taken, sink.written, buffer[..left];
      var len;
      ghost var held;
      assert Found(buffer[..], Some(left)) == between;
      result, len, held := Flow(source, buffer, sink, Some(left));
      left := len.value;
      Resumed([], taken, written, between, Since(source.taken, taken), Since(sink.written, written), buffer[..left]);
      assert taken + Since(source.taken, taken) == source.taken && written + Since(sink.written, written) == sink.written;
      if result == SR_SUCCESS {
        break;
      }
    }
    assert [] + source.taken == source.taken;
    assert left == 0 ==> sink.written + buffer[..left] == sink.written;
  }
}
