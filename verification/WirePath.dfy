/** The whole wire path: requests printed and framed by one session manager, decoded from whatever
    part of the byte stream has arrived by another (src/vzsdk/sessionmanager.cpp). */
module WirePath {
  import opened Bytes
  import opened ByteBuffers
  import opened Framing
  import opened Sessions
  import J = Json
  import JsonReader
  import JsonWriter
  import JsonParser
  import JsonRoundTrip

  datatype Request = Request(value: J.Value) | Heartbeat

  function PacketOf(r: Request): Packet {
    match r
    case Request(v) => Packet(PACKET_TYPE_JSON, 0, J.Write(v))
    case Heartbeat => Packet(PACKET_TYPE_HEARTBEAT, 0, [])
  }

  /** A value the writer can print in less than 2^32 bytes. */
  predicate Sendable(r: Request) {
    r.Request? ==> J.Printable(r.value) && Fits(PacketOf(r))
  }

  predicate AllSendable(rs: seq<Request>) {
    forall i :: 0 <= i < |rs| ==> Sendable(rs[i])
  }

  function Packets(rs: seq<Request>): seq<Packet> {
    if rs == [] then [] else [PacketOf(rs[0])] + Packets(rs[1..])
  }

  /** The byte stream of a sequence of requests. */
  function Wire(rs: seq<Request>): bytes {
    Frames(Packets(rs))
  }

  /** The values that were sent, without the heartbeats. */
  function Values(rs: seq<Request>): seq<J.Value> {
    if rs == [] then []
    else (if rs[0].Request? then [rs[0].value] else []) + Values(rs[1..])
  }

  /** FindEndString, and the text the reader gets. */
  function ReaderText(payload: bytes): bytes { J.CString(payload) }

  /** What the reader makes of the i-th delivered packet. */
  type Decoder = (nat, Packet) -> Option<J.Value>

  /** The reader's answers when the i-th packet is parsed in env(i). */
  function Decode(env: nat -> JsonReader.Env): Decoder {
    (i: nat, p: Packet) => JsonReader.Parse(env(i), ReaderText(p.payload))
  }

  /** The values of the responses posted for delivered packets. */
  function Responses(decode: Decoder, i: nat, ps: seq<Packet>): seq<J.Value>
    decreases |ps|
  {
    if ps == [] then []
    else
      var v := decode(i, ps[0]);
      (if v.Some? then [v.value] else []) + Responses(decode, i + 1, ps[1..])
  }

  // ---- the session manager -------------------------------------------------------------------

  datatype Post =
    | PushSucceed(message: nat, session: nat)
    | SessionNotFound(message: nat, session: nat)
    | Response(session: nat, value: J.Value, raw: bytes)

  method FindEndString(data: bytes) returns (end: nat)
    ensures end <= |data| && data[..end] == ReaderText(data)
  {
    var i := 0;
    while i < |data|
      invariant 0 <= i <= |data| && 0 !in data[..i]
    {
      if data[i] == 0 {
        JsonWriter.CStringEnds(data, i);
        return i;
      }
      assert data[..i + 1] == data[..i] + [data[i]];
      i := i + 1;
    }
    JsonWriter.CStringEnds(data, |data|);
    end := |data|;
  }

  class SessionManager {
    var sessions: map<nat, Session>   // async_sessions_
    var posts: seq<Post>              // what queue_layer_ was given

    constructor ()
      ensures sessions == map[] && posts == []
    {
      sessions, posts := map[], [];
    }

    method OnRequestMessage(message: nat, id: nat, value: J.Value, isPush: bool, accept: Option<nat>)
      requires id in sessions ==> sessions[id].Valid() && Sendable(Request(value))
      modifies this`posts
      modifies if id in sessions then {sessions[id], sessions[id].writeBuffer, sessions[id].writeBuffer.memory} else {}
      ensures posts == old(posts) + (if id !in sessions then [SessionNotFound(message, id)]
                                     else if isPush then [PushSucceed(message, id)] else [])
      ensures id in sessions ==>
        var s := sessions[id];
        && s.Valid() && s.received == old(s.received) && s.delivered == old(s.delivered)
        && s.sent + s.writeBuffer.Contents() == old(s.sent + s.writeBuffer.Contents()) + Frame(PacketOf(Request(value)))
        && (fresh(s.writeBuffer.memory) || s.writeBuffer.memory == old(s.writeBuffer.memory))
        && s.connected == old(s.connected) && old(s.sent) <= s.sent
    {
      if id in sessions {
        var fw := new JsonWriter.FastWriter();
        var text := fw.WriteAll(value);
        sessions[id].AsyncWrite(text, PACKET_TYPE_JSON, accept);
        if isPush { posts := posts + [PushSucceed(message, id)]; }
      } else {
        posts := posts + [SessionNotFound(message, id)];
      }
    }

    /** One delivered packet; a payload that does not parse posts nothing. */
    method OnSessionPacketEvent(id: nat, p: Packet, env: JsonReader.Env)
      modifies this`posts
      ensures var v := JsonReader.Parse(env, ReaderText(p.payload));
        posts == old(posts) + if v.Some? then [Response(id, v.value, p.payload)] else []
    {
      var end := FindEndString(p.payload);
      var reader := new JsonParser.Reader(p.payload[..end], env);
      var ok, value := reader.ParseDocument();
      if ok { posts := posts + [Response(id, value, p.payload)]; }
    }
  }

  // ---- end to end ------------------------------------------------------------------------------

  /** The stream of one more request is the old stream and one more frame. */
  lemma {:induction false} WireSnoc(rs: seq<Request>, r: Request)
    ensures Wire(rs + [r]) == Wire(rs) + Frame(PacketOf(r))
  {
    if rs == [] {
      assert rs + [r] == [r] && Packets([r])[1..] == [] && Packets([r])[0] == PacketOf(r);
      assert Frame(PacketOf(r)) + [] == [] + Frame(PacketOf(r));
    } else {
      assert (rs + [r])[1..] == rs[1..] + [r];
      WireSnoc(rs[1..], r);
      WireCons(rs);
      WireCons(rs + [r]);
      Assoc3(Frame(PacketOf(rs[0])), Wire(rs[1..]), Frame(PacketOf(r)));
    }
  }

  lemma WireCons(rs: seq<Request>)
    requires rs != []
    ensures Wire(rs) == Frame(PacketOf(rs[0])) + Wire(rs[1..])
  {
    assert Packets(rs)[1..] == Packets(rs[1..]);
  }

  lemma {:induction false} PacketsFit(rs: seq<Request>)
    requires AllSendable(rs)
    ensures AllFit(Packets(rs))
  {
    if rs != [] { PacketsFit(rs[1..]); }
  }

  /** A packet made from a request yields the request's value. */
  lemma RequestDecodes(env: JsonReader.Env, v: J.Value)
    requires J.Printable(v)
    ensures JsonReader.Parse(env, ReaderText(J.Write(v))) == Some(v)
  {
    JsonRoundTrip.PrintHasNoNul(v);
    JsonRoundTrip.ParseUndoesWrite(env, v);
  }

  lemma {:induction false} AllResponses(env: nat -> JsonReader.Env, i: nat, rs: seq<Request>)
    requires AllSendable(rs)
    ensures Responses(Decode(env), i, Delivered(Packets(rs))) == Values(rs)
    decreases |rs|
  {
    if rs != [] {
      var rest := Delivered(Packets(rs[1..]));
      assert Packets(rs)[1..] == Packets(rs[1..]);
      if rs[0].Request? {
        var p := PacketOf(rs[0]);
        RequestDecodes(env(i), rs[0].value);
        AllResponses(env, i + 1, rs[1..]);
        assert ([p] + rest)[1..] == rest;
      } else {
        AllResponses(env, i, rs[1..]);
        assert [] + rest == rest && [] + Values(rs[1..]) == Values(rs[1..]);
      }
    }
  }

  lemma {:induction false} ResponsesOfPrefix(decode: Decoder, i: nat, a: seq<Packet>, b: seq<Packet>)
    ensures Responses(decode, i, a) <= Responses(decode, i, a + b)
    decreases |a|
  {
    if a != [] {
      assert (a + b)[1..] == a[1..] + b;
      ResponsesOfPrefix(decode, i + 1, a[1..], b);
    }
  }

  /** The values decoded from any part of the stream that has arrived are a prefix of the values
      sent, in order; once everything has arrived they are all of them. */
  lemma EndToEnd(env: nat -> JsonReader.Env, rs: seq<Request>, arrived: bytes)
    requires AllSendable(rs) && arrived <= Wire(rs)
    ensures Responses(Decode(env), 0, Delivered(Parse(arrived).packets)) <= Values(rs)
    ensures arrived == Wire(rs) ==> Responses(Decode(env), 0, Delivered(Parse(arrived).packets)) == Values(rs)
  {
    var ps, tail := Packets(rs), Wire(rs)[|arrived|..];
    PacketsFit(rs);
    FramesParse(ps, []);
    assert Wire(rs) + [] == Wire(rs) == arrived + tail;
    assert Parse(Wire(rs)).packets == ps + [] == ps;
    ParseResumes(arrived, tail);
    var early, late := Parse(arrived).packets, Parse(Parse(arrived).rest + tail).packets;
    assert ps == early + late;
    DeliveredAppend(early, late);
    ResponsesOfPrefix(Decode(env), 0, Delivered(early), Delivered(late));
    AllResponses(env, 0, rs);
  }

  /** The same for two sessions connected by a pipe: whatever the partial sends of a and the chunks
      received by b were, b has delivered a prefix of what a was asked to send. */
  lemma SessionsAgree(env: nat -> JsonReader.Env, rs: seq<Request>, a: Session, b: Session)
    requires a.Valid() && b.Valid() && AllSendable(rs)
    requires a.sent + a.writeBuffer.Contents() == Wire(rs) && b.received <= a.sent
    ensures Responses(Decode(env), 0, b.delivered) <= Values(rs)
    ensures a.writeBuffer.Contents() == [] && b.received == a.sent ==> Responses(Decode(env), 0, b.delivered) == Values(rs)
  {
    EndToEnd(env, rs, b.received);
    if a.writeBuffer.Contents() == [] { assert a.sent + [] == a.sent; }
  }
}
