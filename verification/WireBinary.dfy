/** Replies with a picture: packets of kind 2, whose text ends at the first NUL (src/vzsdk/session.cpp,
    src/vzsdk/sessionmanager.cpp). */
module WireBinary {
  import opened Bytes
  import opened Framing
  import opened Sessions
  import opened WirePath
  import opened WireRuns
  import J = Json
  import JsonReader
  import JsonRoundTrip
  import JsonText
  import JsonConformance

  function Shift(decode: Decoder, k: nat): Decoder {
    (i: nat, p: Packet) => decode(k + i, p)
  }

  lemma {:induction false} RepliesAppend(id: nat, decode: Decoder, a: seq<Packet>, b: seq<Packet>)
    ensures AllReplies(id, decode, a + b) == AllReplies(id, decode, a) + AllReplies(id, Shift(decode, |a|), b)
  {
    if b == [] {
      assert a + b == a && AllReplies(id, decode, a) + [] == AllReplies(id, decode, a);
    } else {
      var init, p := b[..|b| - 1], b[|b| - 1];
      RepliesAppend(id, decode, a, init);
      assert (a + b)[..|a + init|] == a + init && (a + b)[|a + init|] == p;
      Assoc3(AllReplies(id, decode, a), AllReplies(id, Shift(decode, |a|), init), Reply(id, decode(|a + init|, p), p));
    }
  }

  /** The payload of a reply: its text, and behind a NUL a picture or nothing. */
  predicate IsPayload(payload: bytes, text: bytes) {
    text <= payload && (|text| == |payload| || payload[|text|] == 0)
  }

  lemma {:induction false} TextEnds(payload: bytes, text: bytes)
    requires IsPayload(payload, text) && 0 !in text
    ensures ReaderText(payload) == text
  {
    if text != [] {
      assert payload[1..][..|text| - 1] == payload[..|text|][1..] == text[1..];
      TextEnds(payload[1..], text[1..]);
    }
  }

  /** The packets of a received stream, up to any point in it. */
  lemma ReceivedPackets(b: Session, ps: seq<Packet>, rest: bytes)
    requires b.Valid() && AllFit(ps) && b.received == Frames(ps) + rest
    ensures b.delivered == Delivered(ps + Parse(rest).packets)
  {
    FramesParse(ps, rest);
  }

  lemma AnswerInPlace(id: nat, decode: Decoder, front: seq<Packet>, p: Packet, back: seq<Packet>, v: J.Value)
    requires decode(|front|, p) == Some(v)
    ensures AllReplies(id, decode, front + [p] + back) ==
      AllReplies(id, decode, front) + ([Response(id, v, p.payload)] + AllReplies(id, Shift(decode, |front| + 1), back))
  {
    RepliesAppend(id, decode, front + [p], back);
    assert (front + [p])[..|front|] == front;
    Assoc3(AllReplies(id, decode, front), [Response(id, v, p.payload)], AllReplies(id, Shift(decode, |front| + 1), back));
  }

  lemma DeliveredAround(before: seq<Packet>, p: Packet, after: seq<Packet>)
    requires p.kind == 0 || p.kind == 2
    ensures Delivered(before + [p] + after) == Delivered(before) + [p] + Delivered(after)
  {
    DeliveredAppend(before + [p], after);
    DeliveredAppend(before, [p]);
    DeliveredOne(p);
  }

  lemma AnsweredInPlace(id: nat, decode: Decoder, b: Session, before: seq<Packet>, p: Packet, rest: bytes,
                        v: J.Value, front: seq<Packet>, back: seq<Packet>)
    requires (p.kind == 0 || p.kind == 2) && decode(|front|, p) == Some(v)
    requires b.Valid() && AllFit(before + [p]) && b.received == Frames(before + [p]) + rest
    requires front == Delivered(before) && back == Delivered(Parse(rest).packets)
    ensures AllReplies(id, decode, b.delivered) ==
      AllReplies(id, decode, front) + ([Response(id, v, p.payload)] + AllReplies(id, Shift(decode, |front| + 1), back))
  {
    ReceivedPackets(b, before + [p], rest);
    DeliveredAround(before, p, Parse(rest).packets);
    AnswerInPlace(id, decode, front, p, back, v);
  }

  /** A received frame of kind 0 or 2 whose text, up to the first NUL, denotes a value is answered with that value and
      the whole payload, once and in its place: behind the posts for the packets in front of it, and before those for the
      packets behind it. */
  lemma ReplyIsAnswered(id: nat, env: nat -> JsonReader.Env, b: Session, before: seq<Packet>, p: Packet, rest: bytes,
                        v: J.Value, text: bytes, decode: Decoder, front: seq<Packet>, back: seq<Packet>)
    requires (p.kind == 0 || p.kind == 2) && JsonText.Denotes(text, v) && IsPayload(p.payload, text)
    requires forall i :: JsonConformance.ScansNumbers(env(i))
    requires b.Valid() && AllFit(before + [p]) && b.received == Frames(before + [p]) + rest
    requires decode == Decode(env) && front == Delivered(before) && back == Delivered(Parse(rest).packets)
    ensures AllReplies(id, decode, b.delivered) ==
      AllReplies(id, decode, front) + ([Response(id, v, p.payload)] + AllReplies(id, Shift(decode, |front| + 1), back))
  {
    JsonConformance.DenotesHasNoNul(text, v);
    TextEnds(p.payload, text);
    JsonConformance.ParseReads(env(|front|), text, v, []);
    assert text + [] == text;
    AnsweredInPlace(id, decode, b, before, p, rest, v, front, back);
  }

  /** The same for what a FastWriter wrote, in front of a picture, whatever sscanf accepts. */
  lemma BinaryIsAnswered(id: nat, env: nat -> JsonReader.Env, b: Session, before: seq<Packet>, p: Packet, rest: bytes,
                         v: J.Value, picture: bytes, decode: Decoder, front: seq<Packet>, back: seq<Packet>)
    requires J.Printable(v) && p.kind == 2 && p.payload == J.Write(v) + [0] + picture
    requires b.Valid() && AllFit(before + [p]) && b.received == Frames(before + [p]) + rest
    requires decode == Decode(env) && front == Delivered(before) && back == Delivered(Parse(rest).packets)
    ensures AllReplies(id, decode, b.delivered) ==
      AllReplies(id, decode, front) + ([Response(id, v, p.payload)] + AllReplies(id, Shift(decode, |front| + 1), back))
  {
    JsonRoundTrip.PrintHasNoNul(v);
    TextEnds(p.payload, J.Write(v));
    JsonRoundTrip.ParseUndoesWrite(env(|front|), v);
    AnsweredInPlace(id, decode, b, before, p, rest, v, front, back);
  }
}
