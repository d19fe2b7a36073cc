/** vzsdk::Session (src/vzsdk/session.cpp): packets out of a socket and into it. The socket is a
    parameter: what each Recv returns and how much each Send accepts. */
module Sessions {
  import opened Bytes
  import opened ByteBuffers
  import opened Framing

  const DEFAULT_TEMP_BUFFER_SIZE := 1024

  /** The packets that are passed on; heartbeats and unknown types are not. */
  function Delivered(ps: seq<Packet>): seq<Packet> {
    if ps == [] then []
    else (if ps[0].kind in {PACKET_TYPE_JSON, PACKET_TYPE_BINARY} then [ps[0]] else []) + Delivered(ps[1..])
  }

  lemma {:induction false} DeliveredAppend(a: seq<Packet>, b: seq<Packet>)
    ensures Delivered(a + b) == Delivered(a) + Delivered(b)
  {
    if a == [] {
      assert a + b == b && Delivered([]) + Delivered(b) == Delivered(b);
    } else {
      assert (a + b)[1..] == a[1..] + b;
      DeliveredAppend(a[1..], b);
      Assoc3(if a[0].kind in {PACKET_TYPE_JSON, PACKET_TYPE_BINARY} then [a[0]] else [], Delivered(a[1..]), Delivered(b));
    }
  }

  /** JSON and binary packets are delivered as often as they are received, and no others. */
  lemma {:induction false} DeliveredCount(ps: seq<Packet>, p: Packet)
    ensures multiset(Delivered(ps))[p] == if p.kind == 0 || p.kind == 2 then multiset(ps)[p] else 0
  {
    if ps != [] {
      var rest := ps[1..];
      DeliveredCount(rest, p);
      assert ps == [ps[0]] + rest && multiset(ps) == multiset{ps[0]} + multiset(rest);
      if ps[0].kind == 0 || ps[0].kind == 2 {
        assert multiset([ps[0]] + Delivered(rest)) == multiset{ps[0]} + multiset(Delivered(rest));
      } else {
        assert [] + Delivered(rest) == Delivered(rest);
      }
    }
  }

  /** What was picked from a sequence, by increasing positions. */
  ghost predicate Picked(ps: seq<Packet>, ds: seq<Packet>, at: seq<nat>) {
    && |at| == |ds| && (forall i :: 0 <= i < |at| ==> at[i] < |ps| && ds[i] == ps[at[i]])
    && (forall i, j :: 0 <= i < j < |at| ==> at[i] < at[j])
  }

  lemma PickedMore(ps: seq<Packet>, ds: seq<Packet>, at: seq<nat>, p: Packet)
    requires Picked(ps, ds, at)
    ensures Picked(ps + [p], ds + [p], at + [|ps|]) && Picked(ps + [p], ds, at)
  {
  }

  /** They keep their order. */
  lemma {:induction false} DeliveredInOrder(ps: seq<Packet>) returns (at: seq<nat>)
    ensures Picked(ps, Delivered(ps), at)
  {
    if ps == [] {
      at := [];
    } else {
      var init, p := ps[..|ps| - 1], ps[|ps| - 1];
      var before := DeliveredInOrder(init);
      PickedMore(init, Delivered(init), before, p);
      assert ps == init + [p];
      DeliveredAppend(init, [p]);
      DeliveredOne(p);
      if p.kind == 0 || p.kind == 2 {
        at := before + [|init|];
      } else {
        at := before;
        assert Delivered(init) + [] == Delivered(init);
      }
    }
  }

  lemma DeliveredOne(p: Packet)
    ensures Delivered([p]) == if p.kind == 0 || p.kind == 2 then [p] else []
  {
    assert [p][1..] == [];
  }

  /** What a session must have delivered and kept after a byte stream. */
  ghost predicate Consumed(stream: bytes, delivered: seq<Packet>, unread: bytes) {
    delivered == Delivered(Parse(stream).packets) && unread == Parse(stream).rest
  }

  /** Packets found behind an interrupted stream are those of the whole stream. */
  lemma ConsumedMore(stream: bytes, delivered: seq<Packet>, unread: bytes, chunk: bytes)
    requires Consumed(stream, delivered, unread)
    ensures Consumed(stream + chunk, delivered + Delivered(Parse(unread + chunk).packets), Parse(unread + chunk).rest)
  {
    ParseResumes(stream, chunk);
    DeliveredAppend(Parse(stream).packets, Parse(unread + chunk).packets);
  }

  /** A packet at an offset, by its fields. */
  predicate PacketAt(data: bytes, offset: nat) {
    && offset + HEADER_SIZE <= |data| && data[offset] == HEADER_V && data[offset + 1] == HEADER_Z
    && offset + HEADER_SIZE + FromBig(data[offset + 4..offset + 8]) <= |data|
  }

  lemma PacketAtIsPacket(data: bytes, offset: nat)
    requires offset <= |data|
    ensures PacketAt(data, offset) <==> HasPacket(data[offset..])
    ensures PacketAt(data, offset) ==> PacketSize(data[offset..]) == FromBig(data[offset + 4..offset + 8])
  {
    if |data| - offset >= HEADER_SIZE {
      assert data[offset..][4..HEADER_SIZE] == data[offset + 4..offset + 8];
    }
  }

  /** The packets before an offset have been read. */
  ghost predicate ReadUpTo(data: bytes, offset: nat, done: seq<Packet>) {
    && offset <= |data|
    && Parse(data) == Parsed(done + Parse(data[offset..]).packets, Parse(data[offset..]).rest)
  }

  lemma StopAt(data: bytes, offset: nat, done: seq<Packet>)
    requires ReadUpTo(data, offset, done) && !PacketAt(data, offset)
    ensures Parse(data) == Parsed(done, data[offset..])
  {
    PacketAtIsPacket(data, offset);
    assert done + [] == done;
  }

  /** A complete packet at an offset belongs to the stream. */
  lemma NextPacket(data: bytes, offset: nat, done: seq<Packet>, p: Packet, next: nat)
    requires ReadUpTo(data, offset, done) && PacketAt(data, offset)
    requires var size := FromBig(data[offset + 4..offset + 8]);
      p == Packet(data[offset + 2], data[offset + 3], data[offset + HEADER_SIZE..offset + HEADER_SIZE + size])
    requires next == offset + HEADER_SIZE + |p.payload|
    ensures ReadUpTo(data, next, done + [p])
    ensures Delivered(done + [p]) == Delivered(done) + if p.kind == 0 || p.kind == 2 then [p] else []
  {
    PacketAtIsPacket(data, offset);
    var tail := data[offset..];
    assert FirstPacket(tail) == p && AfterPacket(tail) == data[next..];
    DeliveredAppend(done, [p]);
    DeliveredOne(p);
    Assoc3(done, [p], Parse(AfterPacket(tail)).packets);
  }

  class Session {
    const readBuffer: ByteBuffer
    const writeBuffer: ByteBuffer
    var connected: bool            // async_socket_->GetState() == CS_CONNECTED
    var msStart: int
    var delivered: seq<Packet>     // the SignalSessionPacketEvent calls so far
    var sent: bytes                // what the socket has accepted so far
    var received: bytes            // what the socket has returned so far

    ghost predicate Valid()
      reads this, readBuffer, readBuffer.memory, writeBuffer, writeBuffer.memory
    {
      && readBuffer != writeBuffer && readBuffer.memory != writeBuffer.memory
      && readBuffer.Valid() && writeBuffer.Valid() && writeBuffer.network
      && Consumed(received, delivered, readBuffer.Contents())
    }

    constructor (hostIsBigEndian: bool)
      ensures Valid() && received == [] && sent == [] && writeBuffer.Contents() == [] && delivered == []
      ensures fresh(readBuffer) && fresh(writeBuffer) && fresh(readBuffer.memory) && fresh(writeBuffer.memory)
    {
      readBuffer := new ByteBuffer(true, hostIsBigEndian);
      writeBuffer := new ByteBuffer(true, hostIsBigEndian);
      connected, msStart, delivered, sent, received := false, 0, [], [], [];
    }

    // ---- reading -----------------------------------------------------------------------------

    method OnHandleInputPacket(p: Packet, now: int)
      modifies this`delivered, this`msStart
      ensures delivered == old(delivered) + if p.kind == 0 || p.kind == 2 then [p] else []
      ensures msStart == if p.kind == PACKET_TYPE_HEARTBEAT then now else old(msStart)
    {
      if p.kind == PACKET_TYPE_HEARTBEAT {
        msStart := now;
      } else if p.kind == PACKET_TYPE_JSON || p.kind == PACKET_TYPE_BINARY {
        delivered := delivered + [p];
      }
    }

    /** Returns whether all data was used, and how much of it. */
    method ProcessPacketProtocol(data: bytes, now: int) returns (all: bool, readSize: nat)
      modifies this`delivered, this`msStart
      ensures delivered == old(delivered) + Delivered(Parse(data).packets)
      ensures readSize <= |data| && data[readSize..] == Parse(data).rest && (all <==> readSize == |data|)
    {
      readSize := 0;
      var offset := 0;
      ghost var done: seq<Packet> := [];
      while offset < |data|
        invariant readSize == offset <= |data|
        invariant delivered == old(delivered) + Delivered(done)
        invariant ReadUpTo(data, offset, done)
        decreases |data| - offset
      {
        if |data| - offset < HEADER_SIZE {
          StopAt(data, readSize, done);
          return false, readSize;
        }
        if data[offset] == HEADER_V && data[offset + 1] == HEADER_Z {
          offset := offset + 2;
        } else {
          StopAt(data, readSize, done);
          return false, readSize;
        }
        var packetType := data[offset];
        offset := offset + 1;
        var packetNumber := data[offset];
        offset := offset + 1;
        var packetSize := FromBig(data[offset..offset + 4]);
        offset := offset + 4;
        if |data| - offset >= packetSize {
          var p := Packet(packetType, packetNumber, data[offset..offset + packetSize]);
          OnHandleInputPacket(p, now);
          offset := offset + packetSize;
          NextPacket(data, readSize, done, p, offset);
          Assoc3(old(delivered), Delivered(done), if p.kind == 0 || p.kind == 2 then [p] else []);
          readSize := offset;
          done := done + [p];
        } else {
          StopAt(data, readSize, done);
          return false, readSize;
        }
      }
      StopAt(data, readSize, done);
      all := true;
    }

    method ProcessInput(now: int)
      requires readBuffer.Valid()
      modifies this`delivered, this`msStart, readBuffer
      ensures readBuffer.Valid() && readBuffer.memory == old(readBuffer.memory)
      ensures delivered == old(delivered) + Delivered(Parse(old(readBuffer.Contents())).packets)
      ensures readBuffer.Contents() == Parse(old(readBuffer.Contents())).rest
    {
      ghost var contents := readBuffer.Contents();
      while true
        invariant readBuffer.Valid() && readBuffer.memory == old(readBuffer.memory)
        invariant (readBuffer.Contents() == contents && delivered == old(delivered)) ||
                  (readBuffer.Contents() == [] == Parse(contents).rest &&
                   delivered == old(delivered) + Delivered(Parse(contents).packets))
        decreases readBuffer.Length()
      {
        if readBuffer.Length() == 0 { break; }
        var data := readBuffer.memory[readBuffer.start..readBuffer.end];
        var all, readSize := ProcessPacketProtocol(data, now);
        if readSize != 0 { var _ := readBuffer.Consume(readSize); }
        if !all { break; }
      }
    }

    /** One readable event: Recv returns each of `chunks`, then an error. */
    method OnReadEvent(chunks: seq<bytes>, now: int)
      requires Valid() && forall i :: 0 <= i < |chunks| ==> |chunks[i]| <= DEFAULT_TEMP_BUFFER_SIZE
      modifies this, readBuffer, readBuffer.memory
      ensures Valid() && received == old(received) + Flatten(chunks) && old(delivered) <= delivered
      ensures sent == old(sent) && connected == old(connected)
      ensures fresh(readBuffer.memory) || readBuffer.memory == old(readBuffer.memory)
    {
      var i := 0;
      assert Flatten(chunks[..0]) == [] && received + [] == received;
      while i < |chunks|
        invariant 0 <= i <= |chunks|
        invariant Valid() && received == old(received) + Flatten(chunks[..i]) && old(delivered) <= delivered
        invariant sent == old(sent) && connected == old(connected)
        invariant fresh(readBuffer.memory) || readBuffer.memory == old(readBuffer.memory)
      {
        FlattenSnoc(chunks[..i], chunks[i]);
        assert chunks[..i] + [chunks[i]] == chunks[..i + 1];
        Assoc3(old(received), Flatten(chunks[..i]), chunks[i]);
        ReadChunk(chunks[i], now);
        i := i + 1;
      }
      assert chunks[..i] == chunks;
    }

    /** What Recv has returned. */
    method ReadChunk(chunk: bytes, now: int)
      requires Valid()
      modifies this, readBuffer, readBuffer.memory
      ensures Valid() && received == old(received) + chunk && old(delivered) <= delivered
      ensures sent == old(sent) && connected == old(connected)
      ensures fresh(readBuffer.memory) || readBuffer.memory == old(readBuffer.memory)
    {
      ConsumedMore(received, delivered, readBuffer.Contents(), chunk);
      received := received + chunk;
      readBuffer.WriteBytes(chunk);
      ProcessInput(now);
    }

    // ---- writing -----------------------------------------------------------------------------

    /** Appends one packet and tries to send; `accept` is what the socket would take, None an error. */
    method AsyncWrite(data: bytes, packetType: byte, accept: Option<nat>)
      requires Valid() && |data| < Pow256(4)
      modifies this, writeBuffer, writeBuffer.memory
      ensures Valid() && received == old(received) && delivered == old(delivered) && connected == old(connected)
      ensures old(sent) <= sent
      ensures sent + writeBuffer.Contents() == old(sent + writeBuffer.Contents()) + Frame(Packet(packetType, 0, data))
      ensures !connected || accept.None? ==> sent == old(sent)
      ensures connected && accept.Some? && accept.value >= |old(writeBuffer.Contents())| + HEADER_SIZE + |data| ==>
        writeBuffer.Contents() == []
      ensures fresh(writeBuffer.memory) || writeBuffer.memory == old(writeBuffer.memory)
    {
      ghost var before := writeBuffer.Contents();
      WriteHeader(packetType, |data|);
      writeBuffer.WriteBytes(data);
      Assoc3(before, Header(packetType, 0, |data|), data);
      Assoc3(sent, before, Frame(Packet(packetType, 0, data)));
      TryToWriteData(accept);
    }

    method WriteHeartbeat(accept: Option<nat>)
      requires Valid()
      modifies this, writeBuffer, writeBuffer.memory
      ensures Valid() && received == old(received) && delivered == old(delivered) && connected == old(connected)
      ensures old(sent) <= sent
      ensures sent + writeBuffer.Contents() == old(sent + writeBuffer.Contents()) + Frame(Packet(PACKET_TYPE_HEARTBEAT, 0, []))
      ensures fresh(writeBuffer.memory) || writeBuffer.memory == old(writeBuffer.memory)
    {
      AsyncWrite([], PACKET_TYPE_HEARTBEAT, accept);
    }

    /** The five writes of AsyncWrite before the data. */
    method WriteHeader(packetType: byte, size: nat)
      requires writeBuffer.Valid() && writeBuffer.network && size < Pow256(4)
      modifies writeBuffer, writeBuffer.memory
      ensures writeBuffer.Valid() && writeBuffer.Contents() == old(writeBuffer.Contents()) + Header(packetType, 0, size)
      ensures fresh(writeBuffer.memory) || writeBuffer.memory == old(writeBuffer.memory)
    {
      ghost var before := writeBuffer.Contents();
      OneByte(HEADER_V);
      OneByte(HEADER_Z);
      OneByte(packetType);
      OneByte(0);
      writeBuffer.WriteUInt(HEADER_V, 1);
      writeBuffer.WriteUInt(HEADER_Z, 1);
      writeBuffer.WriteUInt(packetType, 1);
      writeBuffer.WriteUInt(0, 1);
      Four(before, HEADER_V, HEADER_Z, packetType, 0);
      writeBuffer.WriteUInt(size, 4);
      Assoc3(before, [HEADER_V, HEADER_Z, packetType, 0], BigEndian(size, 4));
    }

    method TryToWriteData(accept: Option<nat>)
      requires Valid()
      modifies this`sent, writeBuffer
      ensures Valid() && writeBuffer.memory == old(writeBuffer.memory)
      ensures sent + writeBuffer.Contents() == old(sent + writeBuffer.Contents()) && old(sent) <= sent
      ensures !connected || accept.None? ==> sent == old(sent)
      ensures connected && accept.Some? ==>
        |sent| == |old(sent)| + (if accept.value < |old(writeBuffer.Contents())| then accept.value
                                 else |old(writeBuffer.Contents())|)
    {
      if !connected || writeBuffer.Length() == 0 { return; }
      if accept.Some? {
        var size := if accept.value < writeBuffer.Length() then accept.value else writeBuffer.Length();
        ghost var contents := writeBuffer.Contents();
        sent := sent + writeBuffer.memory[writeBuffer.start..writeBuffer.start + size];
        var _ := writeBuffer.Consume(size);
        Split(old(sent), contents, size);
      }
    }
  }

  lemma OneByte(b: byte)
    ensures BigEndian(b, 1) == [b] && b < Pow256(1)
  {
    assert Pow256(1) == 256 * Pow256(0);
    assert BigEndian(b, 1) == BigEndian(b / 256, 0) + [b];
  }

  lemma Split<T>(a: seq<T>, s: seq<T>, n: nat)
    requires n <= |s|
    ensures a + s[..n] + s[n..] == a + s
  {
  }

  lemma Four<T>(s: seq<T>, a: T, b: T, c: T, d: T)
    ensures s + [a] + [b] + [c] + [d] == s + [a, b, c, d]
  {
  }

  lemma {:induction false} FlattenSnoc(chunks: seq<bytes>, chunk: bytes)
    ensures Flatten(chunks + [chunk]) == Flatten(chunks) + chunk
  {
    if chunks == [] {
      assert chunks + [chunk] == [chunk] && [chunk][1..] == [];
      assert chunk + [] == chunk == [] + chunk;
    } else {
      assert (chunks + [chunk])[1..] == chunks[1..] + [chunk];
      FlattenSnoc(chunks[1..], chunk);
      Assoc3(chunks[0], Flatten(chunks[1..]), chunk);
    }
  }
}
