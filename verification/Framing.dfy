/** The packet format of vzsdk::Session (src/vzsdk/session.cpp) and what a byte stream means. */
module Framing {
  import opened Bytes
  import opened ByteBuffers

  const HEADER_SIZE := 8
  const HEADER_V: byte := 86
  const HEADER_Z: byte := 90
  const PACKET_TYPE_JSON: byte := 0
  const PACKET_TYPE_HEARTBEAT: byte := 1
  const PACKET_TYPE_BINARY: byte := 2

  datatype Packet = Packet(kind: byte, number: byte, payload: bytes)

  /** What a stream contains: the packets at its start and the bytes behind them. */
  datatype Parsed = Parsed(packets: seq<Packet>, rest: bytes)

  function Header(kind: byte, number: byte, size: nat): bytes {
    [HEADER_V, HEADER_Z, kind, number] + BigEndian(size, 4)
  }

  /** A packet on the wire. */
  function Frame(p: Packet): bytes {
    Header(p.kind, p.number, |p.payload|) + p.payload
  }

  function Frames(ps: seq<Packet>): bytes {
    if ps == [] then [] else Frame(ps[0]) + Frames(ps[1..])
  }

  predicate HasHeader(s: bytes) {
    |s| >= HEADER_SIZE && s[0] == HEADER_V && s[1] == HEADER_Z
  }

  /** The packet size of a header: its last four bytes, in network order. */
  function PacketSize(s: bytes): nat
    requires |s| >= HEADER_SIZE
  {
    FromBig(s[4..HEADER_SIZE])
  }

  predicate HasPacket(s: bytes) {
    HasHeader(s) && |s| - HEADER_SIZE >= PacketSize(s)
  }

  function FirstPacket(s: bytes): Packet
    requires HasPacket(s)
  {
    Packet(s[2], s[3], s[HEADER_SIZE..HEADER_SIZE + PacketSize(s)])
  }

  function AfterPacket(s: bytes): (r: bytes)
    requires HasPacket(s)
    ensures |r| < |s|
  {
    s[HEADER_SIZE + PacketSize(s)..]
  }

  function Parse(s: bytes): (r: Parsed)
    ensures |r.rest| <= |s|
    decreases |s|
  {
    if HasPacket(s) then
      var r := Parse(AfterPacket(s));
      Parsed([FirstPacket(s)] + r.packets, r.rest)
    else Parsed([], s)
  }

  // ---- one frame -----------------------------------------------------------------------------

  /** The payload length fits the size field. */
  predicate Fits(p: Packet) { |p.payload| < Pow256(4) }

  /** A frame at the start of a stream is read as the packet it was made from. */
  lemma FrameReads(p: Packet, s: bytes)
    requires Fits(p)
    ensures var t := Frame(p) + s; HasPacket(t) && FirstPacket(t) == p && AfterPacket(t) == s
  {
    var t := Frame(p) + s;
    assert t[4..HEADER_SIZE] == BigEndian(|p.payload|, 4);
    MemoryRoundTrip(true, |p.payload|, 4);
    assert t[HEADER_SIZE..HEADER_SIZE + |p.payload|] == p.payload;
  }

  /** Four bytes hold a number below 256^4, and are its big-endian form. */
  lemma {:induction false} BigBytes(s: bytes)
    ensures FromBig(s) < Pow256(|s|) && BigEndian(FromBig(s), |s|) == s
  {
    if s != [] {
      BigBytes(s[..|s| - 1]);
      assert s == s[..|s| - 1] + [s[|s| - 1]];
    }
  }

  /** Whatever is read as a packet is a frame. */
  lemma PacketIsFrame(s: bytes)
    requires HasPacket(s)
    ensures Fits(FirstPacket(s)) && s == Frame(FirstPacket(s)) + AfterPacket(s)
  {
    BigBytes(s[4..HEADER_SIZE]);
    var n := PacketSize(s);
    assert s == s[..4] + s[4..HEADER_SIZE] + s[HEADER_SIZE..HEADER_SIZE + n] + s[HEADER_SIZE + n..];
    assert s[..4] == [HEADER_V, HEADER_Z, s[2], s[3]];
  }

  /** More input does not change a packet that is complete. */
  lemma PacketStays(s: bytes, t: bytes)
    requires HasPacket(s)
    ensures HasPacket(s + t) && FirstPacket(s + t) == FirstPacket(s) && AfterPacket(s + t) == AfterPacket(s) + t
  {
    assert (s + t)[4..HEADER_SIZE] == s[4..HEADER_SIZE];
    var n := PacketSize(s);
    assert (s + t)[HEADER_SIZE..HEADER_SIZE + n] == s[HEADER_SIZE..HEADER_SIZE + n];
    assert (s + t)[HEADER_SIZE + n..] == s[HEADER_SIZE + n..] + t;
  }

  // ---- whole streams ---------------------------------------------------------------------------

  /** Parsing can be interrupted anywhere: the packets of a + b are those of a, then those found when
      b arrives behind what a left unread. */
  lemma {:induction false} ParseResumes(a: bytes, b: bytes)
    ensures Parse(a + b) == Parsed(Parse(a).packets + Parse(Parse(a).rest + b).packets, Parse(Parse(a).rest + b).rest)
    decreases |a|
  {
    if HasPacket(a) {
      PacketStays(a, b);
      ParseResumes(AfterPacket(a), b);
      Assoc3([FirstPacket(a)], Parse(AfterPacket(a)).packets, Parse(Parse(a).rest + b).packets);
    } else {
      assert [] + Parse(a + b).packets == Parse(a + b).packets;
    }
  }

  predicate AllFit(ps: seq<Packet>) { forall i :: 0 <= i < |ps| ==> Fits(ps[i]) }

  /** The packets of a stream are the longest run of well-formed frames from its start: the stream
      is that run followed by something that does not begin with a frame ... */
  lemma {:induction false} ParseIsFrames(s: bytes)
    ensures AllFit(Parse(s).packets) && s == Frames(Parse(s).packets) + Parse(s).rest && !HasPacket(Parse(s).rest)
    decreases |s|
  {
    if HasPacket(s) {
      ParseIsFrames(AfterPacket(s));
      PacketIsFrame(s);
      var p, r := FirstPacket(s), Parse(AfterPacket(s));
      assert Parse(s).packets[1..] == r.packets;
      Assoc3(Frame(p), Frames(r.packets), r.rest);
    }
  }

  /** ... and every stream of that shape is read that way. */
  lemma {:induction false} FramesParse(ps: seq<Packet>, s: bytes)
    requires AllFit(ps)
    ensures Parse(Frames(ps) + s) == Parsed(ps + Parse(s).packets, Parse(s).rest)
  {
    if ps == [] {
      assert Frames(ps) + s == s;
    } else {
      var tail := Frames(ps[1..]) + s;
      Assoc3(Frame(ps[0]), Frames(ps[1..]), s);
      FrameReads(ps[0], tail);
      FramesParse(ps[1..], s);
      Assoc3([ps[0]], ps[1..], Parse(s).packets);
      assert [ps[0]] + ps[1..] == ps;
    }
  }

  /** The header at the start of s is already known to be wrong. */
  predicate BadHeader(s: bytes) {
    (|s| > 0 && s[0] != HEADER_V) || (|s| > 1 && s[1] != HEADER_Z)
  }

  /** Once a frame boundary shows a bad header, nothing that arrives later is delivered. */
  lemma BadHeaderIsFinal(s: bytes, later: bytes)
    requires BadHeader(Parse(s).rest)
    ensures Parse(s + later).packets == Parse(s).packets
  {
    ParseResumes(s, later);
    ParseIsFrames(s);
    assert !HasPacket(Parse(s).rest + later);
  }

  function Flatten(chunks: seq<bytes>): bytes {
    if chunks == [] then [] else chunks[0] + Flatten(chunks[1..])
  }
}
