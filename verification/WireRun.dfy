/** Two session managers joined by a pipe, over any script of requests, heartbeats, partial sends and
    arrivals: what the receiving side posts (src/vzsdk/sessionmanager.cpp, src/vzsdk/session.cpp). */
module WireRuns {
  import opened Bytes
  import opened ByteBuffers
  import opened Framing
  import opened Sessions
  import opened WirePath
  import J = Json
  import JsonReader

  /** `accept` is what the sending socket would take at that moment; `sizes` is how many of the bytes
      in the pipe each Recv is given. */
  datatype Event =
    | Ask(message: nat, to: nat, value: J.Value, isPush: bool, accept: Option<nat>)
    | Beat(accept: Option<nat>)
    | Writable(accept: Option<nat>)
    | Arrive(sizes: seq<nat>, now: int)
    | SetConnected(connected: bool)

  predicate Possible(e: Event) {
    e.Ask? ==> Sendable(Request(e.value))
  }

  /** What an event asks the session with this id to send. */
  function Asked(id: nat, e: Event): seq<Request> {
    match e
    case Ask(_, to, value, _, _) => if to == id then [Request(value)] else []
    case Beat(_) => [Heartbeat]
    case _ => []
  }

  function AllAsked(id: nat, script: seq<Event>): seq<Request> {
    if script == [] then [] else Asked(id, script[0]) + AllAsked(id, script[1..])
  }

  /** What an event makes the sending manager post. */
  function Noted(id: nat, e: Event): seq<Post> {
    match e
    case Ask(message, to, _, isPush, _) =>
      if to != id then [SessionNotFound(message, to)] else if isPush then [PushSucceed(message, to)] else []
    case _ => []
  }

  function AllNoted(id: nat, script: seq<Event>): seq<Post> {
    if script == [] then [] else Noted(id, script[0]) + AllNoted(id, script[1..])
  }

  // ---- what delivered packets make the receiving manager post ----------------------------------

  function Reply(id: nat, v: Option<J.Value>, p: Packet): seq<Post> {
    if v.Some? then [Response(id, v.value, p.payload)] else []
  }

  /** The posts for delivered packets. */
  function AllReplies(id: nat, decode: Decoder, ps: seq<Packet>): seq<Post> {
    if ps == [] then []
    else
      var n := |ps| - 1;
      AllReplies(id, decode, ps[..n]) + Reply(id, decode(n, ps[n]), ps[n])
  }

  /** The values among posts, in order. */
  function Answers(posts: seq<Post>): seq<J.Value> {
    if posts == [] then []
    else (if posts[0].Response? then [posts[0].value] else []) + Answers(posts[1..])
  }

  lemma {:induction false} AnswersAppend(a: seq<Post>, b: seq<Post>)
    ensures Answers(a + b) == Answers(a) + Answers(b)
  {
    if a == [] {
      assert a + b == b && [] + Answers(b) == Answers(b);
    } else {
      assert (a + b)[1..] == a[1..] + b;
      AnswersAppend(a[1..], b);
      Assoc3(if a[0].Response? then [a[0].value] else [], Answers(a[1..]), Answers(b));
    }
  }

  lemma AnswersOfReply(id: nat, v: Option<J.Value>, p: Packet)
    ensures Answers(Reply(id, v, p)) == if v.Some? then [v.value] else []
  {
    var r := Reply(id, v, p);
    if r != [] { assert r[1..] == []; }
  }

  lemma {:induction false} ResponsesSnoc(decode: Decoder, i: nat, ps: seq<Packet>, p: Packet)
    ensures var v := decode(i + |ps|, p);
      Responses(decode, i, ps + [p]) == Responses(decode, i, ps) + if v.Some? then [v.value] else []
    decreases |ps|
  {
    var v := decode(i + |ps|, p);
    var last := if v.Some? then [v.value] else [];
    if ps == [] {
      assert ps + [p] == [p] && [p][1..] == [] && last + [] == last == [] + last;
    } else {
      assert (ps + [p])[1..] == ps[1..] + [p];
      ResponsesSnoc(decode, i + 1, ps[1..], p);
      var first := decode(i, ps[0]);
      Assoc3(if first.Some? then [first.value] else [], Responses(decode, i + 1, ps[1..]), last);
    }
  }

  lemma {:induction false} AnswersOfReplies(id: nat, decode: Decoder, ps: seq<Packet>)
    ensures Answers(AllReplies(id, decode, ps)) == Responses(decode, 0, ps)
  {
    if ps != [] {
      var n := |ps| - 1;
      var front, p, v := ps[..n], ps[n], decode(n, ps[n]);
      AnswersOfReplies(id, decode, front);
      AnswersAppend(AllReplies(id, decode, front), Reply(id, v, p));
      AnswersOfReply(id, v, p);
      assert ps == front + [p];
      ResponsesSnoc(decode, 0, front, p);
    }
  }

  // ---- the pipe ----------------------------------------------------------------------------------

  /** What `sizes` cut from the bytes in the pipe. */
  function Cut(pipe: bytes, sizes: seq<nat>): (chunks: seq<bytes>)
    ensures Flatten(chunks) <= pipe
    ensures forall i :: 0 <= i < |chunks| ==> |chunks[i]| <= DEFAULT_TEMP_BUFFER_SIZE
    decreases |sizes|
  {
    if sizes == [] then []
    else
      var asked := if sizes[0] < DEFAULT_TEMP_BUFFER_SIZE then sizes[0] else DEFAULT_TEMP_BUFFER_SIZE;
      var n := if asked < |pipe| then asked else |pipe|;
      var chunk, rest := pipe[..n], Cut(pipe[n..], sizes[1..]);
      FlattenCut(chunk, rest, pipe);
      [chunk] + rest
  }

  lemma FlattenCut(chunk: bytes, rest: seq<bytes>, pipe: bytes)
    requires chunk <= pipe && Flatten(rest) <= pipe[|chunk|..]
    ensures Flatten([chunk] + rest) <= pipe
  {
    Cons(chunk, rest);
    assert pipe == chunk + pipe[|chunk|..];
  }

  /** Where the bytes of the requests are: those received have been sent, the others wait. */
  ghost predicate Flowing(sent: bytes, waiting: bytes, received: bytes, rs: seq<Request>) {
    AllSendable(rs) && sent + waiting == Wire(rs) && received <= sent
  }

  /** The sessions a and b are the two ends of the pipe, and share nothing. */
  ghost predicate Linked(a: Session, b: Session, rs: seq<Request>)
    reads a, a.readBuffer, a.readBuffer.memory, a.writeBuffer, a.writeBuffer.memory
    reads b, b.readBuffer, b.readBuffer.memory, b.writeBuffer, b.writeBuffer.memory
  {
    && a.Valid() && b.Valid() && a != b
    && a.readBuffer != b.readBuffer && a.readBuffer != b.writeBuffer
    && a.writeBuffer != b.readBuffer && a.writeBuffer != b.writeBuffer
    && a.readBuffer.memory != b.readBuffer.memory && a.readBuffer.memory != b.writeBuffer.memory
    && a.writeBuffer.memory != b.readBuffer.memory && a.writeBuffer.memory != b.writeBuffer.memory
    && Flowing(a.sent, a.writeBuffer.Contents(), b.received, rs)
  }

  /** Whatever the partial sends and the arrivals were, the values in the receiver's posts are a
      prefix of the values asked for, and all of them once every byte has been sent and received. */
  lemma LinkedAgree(a: Session, b: Session, rs: seq<Request>, id: nat, env: nat -> JsonReader.Env)
    requires Linked(a, b, rs)
    ensures Answers(AllReplies(id, Decode(env), b.delivered)) <= Values(rs)
    ensures a.writeBuffer.Contents() == [] && b.received == a.sent ==>
      Answers(AllReplies(id, Decode(env), b.delivered)) == Values(rs)
  {
    AnswersOfReplies(id, Decode(env), b.delivered);
    SessionsAgree(env, rs, a, b);
  }

  /** One more request: what is sent only grows. */
  lemma FlowingMore(was: bytes, before: bytes, sent: bytes, waiting: bytes, received: bytes, rs: seq<Request>, r: Request)
    requires Flowing(was, before, received, rs) && Sendable(r) && was <= sent
    requires sent + waiting == was + before + Frame(PacketOf(r))
    ensures Flowing(sent, waiting, received, rs + [r])
  {
    WireSnoc(rs, r);
  }

  method SendRequest(a: Session, b: Session, sender: SessionManager, id: nat, e: Event, ghost rs: seq<Request>)
    requires Linked(a, b, rs) && e.Ask? && Possible(e) && sender.sessions == map[id := a]
    modifies sender`posts, a, a.writeBuffer, a.writeBuffer.memory
    ensures Linked(a, b, rs + Asked(id, e)) && sender.posts == old(sender.posts) + Noted(id, e)
    ensures fresh(a.writeBuffer.memory) || a.writeBuffer.memory == old(a.writeBuffer.memory)
  {
    ghost var was, before := a.sent, a.writeBuffer.Contents();
    sender.OnRequestMessage(e.message, e.to, e.value, e.isPush, e.accept);
    if e.to == id {
      FlowingMore(was, before, a.sent, a.writeBuffer.Contents(), b.received, rs, Request(e.value));
    } else {
      assert rs + [] == rs;
    }
  }

  /** The events at the sending session itself. */
  method SendMore(a: Session, b: Session, id: nat, e: Event, ghost rs: seq<Request>)
    requires Linked(a, b, rs) && (e.Beat? || e.Writable? || e.SetConnected?)
    modifies a, a.writeBuffer, a.writeBuffer.memory
    ensures Linked(a, b, rs + Asked(id, e))
    ensures fresh(a.writeBuffer.memory) || a.writeBuffer.memory == old(a.writeBuffer.memory)
  {
    ghost var was, before := a.sent, a.writeBuffer.Contents();
    if e.Beat? {
      a.WriteHeartbeat(e.accept);
      FlowingMore(was, before, a.sent, a.writeBuffer.Contents(), b.received, rs, Heartbeat);
    } else {
      if e.Writable? { a.TryToWriteData(e.accept); } else { a.connected := e.connected; }
      assert rs + [] == rs;
    }
  }

  /** Some bytes of the pipe arrive, and the signals of b reach its manager. */
  method Receive(a: Session, b: Session, receiver: SessionManager, id: nat, env: nat -> JsonReader.Env,
                 sizes: seq<nat>, now: int, ghost rs: seq<Request>)
    requires Linked(a, b, rs) && receiver.posts == AllReplies(id, Decode(env), b.delivered)
    modifies receiver`posts, b, b.readBuffer, b.readBuffer.memory
    ensures Linked(a, b, rs) && receiver.posts == AllReplies(id, Decode(env), b.delivered)
    ensures old(b.received) <= b.received
    ensures fresh(b.readBuffer.memory) || b.readBuffer.memory == old(b.readBuffer.memory)
  {
    var done := b.delivered;
    var chunks := Cut(a.sent[|b.received|..], sizes);
    b.OnReadEvent(chunks, now);
    Report(receiver, id, env, done, b.delivered);
  }

  /** The session signals its manager once for every packet it delivers. */
  method Report(receiver: SessionManager, id: nat, env: nat -> JsonReader.Env, done: seq<Packet>, delivered: seq<Packet>)
    requires done <= delivered && receiver.posts == AllReplies(id, Decode(env), done)
    modifies receiver`posts
    ensures receiver.posts == AllReplies(id, Decode(env), delivered)
  {
    var ps := done;
    while ps != delivered
      invariant ps <= delivered && receiver.posts == AllReplies(id, Decode(env), ps)
      decreases |delivered| - |ps|
    {
      var p := delivered[|ps|];
      ReportOne(receiver, id, env, ps, |ps|, p);
      ps := ps + [p];
    }
  }

  method ReportOne(receiver: SessionManager, id: nat, env: nat -> JsonReader.Env, ghost ps: seq<Packet>, n: nat, p: Packet)
    requires n == |ps| && receiver.posts == AllReplies(id, Decode(env), ps)
    modifies receiver`posts
    ensures receiver.posts == AllReplies(id, Decode(env), ps + [p])
  {
    assert (ps + [p])[..|ps|] == ps;
    receiver.OnSessionPacketEvent(id, p, env(n));
  }

  /** Any one event. */
  method Occur(a: Session, b: Session, sender: SessionManager, receiver: SessionManager, id: nat, peer: nat,
               env: nat -> JsonReader.Env, e: Event, ghost rs: seq<Request>)
    requires Linked(a, b, rs) && Possible(e) && sender != receiver
    requires sender.sessions == map[id := a] && receiver.posts == AllReplies(peer, Decode(env), b.delivered)
    modifies sender`posts, a, a.writeBuffer, a.writeBuffer.memory
    modifies receiver`posts, b, b.readBuffer, b.readBuffer.memory
    ensures Linked(a, b, rs + Asked(id, e)) && sender.posts == old(sender.posts) + Noted(id, e)
    ensures receiver.posts == AllReplies(peer, Decode(env), b.delivered)
    ensures fresh(a.writeBuffer.memory) || a.writeBuffer.memory == old(a.writeBuffer.memory)
    ensures fresh(b.readBuffer.memory) || b.readBuffer.memory == old(b.readBuffer.memory)
  {
    if e.Ask? {
      SendRequest(a, b, sender, id, e, rs);
    } else if e.Arrive? {
      Receive(a, b, receiver, peer, env, e.sizes, e.now, rs);
      assert rs + [] == rs;
    } else {
      SendMore(a, b, id, e, rs);
    }
  }

  /** Any events, one after the other. */
  method OccurAll(a: Session, b: Session, sender: SessionManager, receiver: SessionManager, id: nat, peer: nat,
                  env: nat -> JsonReader.Env, script: seq<Event>, ghost rs: seq<Request>)
    requires forall i :: 0 <= i < |script| ==> Possible(script[i])
    requires Linked(a, b, rs) && sender != receiver
    requires sender.sessions == map[id := a] && receiver.posts == AllReplies(peer, Decode(env), b.delivered)
    modifies sender`posts, a, a.writeBuffer, a.writeBuffer.memory
    modifies receiver`posts, b, b.readBuffer, b.readBuffer.memory
    ensures Linked(a, b, rs + AllAsked(id, script)) && sender.posts == old(sender.posts) + AllNoted(id, script)
    ensures receiver.posts == AllReplies(peer, Decode(env), b.delivered)
    decreases |script|
  {
    if script == [] {
      assert rs + [] == rs && sender.posts + [] == sender.posts;
    } else {
      var e, rest := script[0], script[1..];
      Assoc3(rs, Asked(id, e), AllAsked(id, rest));
      Assoc3(sender.posts, Noted(id, e), AllNoted(id, rest));
      Occur(a, b, sender, receiver, id, peer, env, e, rs);
      OccurAll(a, b, sender, receiver, id, peer, env, rest, rs + Asked(id, e));
    }
  }

  /** Two managers, one pipe and any script of requests (to this or to unknown sessions), heartbeats,
      partial sends and arrivals. The values the receiver has posted are a prefix of those asked for,
      each posted once and in order, and all of them when nothing waits or is under way. */
  method Converse(script: seq<Event>, senderIsBigEndian: bool, receiverIsBigEndian: bool, id: nat, peer: nat,
                  env: nat -> JsonReader.Env)
    returns (a: Session, b: Session, sender: SessionManager, receiver: SessionManager)
    requires forall i :: 0 <= i < |script| ==> Possible(script[i])
    ensures Linked(a, b, AllAsked(id, script)) && sender.posts == AllNoted(id, script)
    ensures Answers(receiver.posts) <= Values(AllAsked(id, script))
    ensures a.writeBuffer.Contents() == [] && b.received == a.sent ==>
      Answers(receiver.posts) == Values(AllAsked(id, script))
  {
    a, b, sender, receiver := Connect(senderIsBigEndian, receiverIsBigEndian, id, peer, env);
    ghost var asked, noted := AllAsked(id, script), AllNoted(id, script);
    assert [] + asked == asked && [] + noted == noted;
    OccurAll(a, b, sender, receiver, id, peer, env, script, []);
    LinkedAgree(a, b, asked, peer, env);
  }

  /** Two new managers with a session each. */
  method Connect(senderIsBigEndian: bool, receiverIsBigEndian: bool, id: nat, peer: nat, env: nat -> JsonReader.Env)
    returns (a: Session, b: Session, sender: SessionManager, receiver: SessionManager)
    ensures fresh(a) && fresh(b) && fresh(sender) && fresh(receiver) && sender != receiver
    ensures fresh(a.writeBuffer) && fresh(b.readBuffer) && fresh(a.writeBuffer.memory) && fresh(b.readBuffer.memory)
    ensures sender.sessions == map[id := a] && sender.posts == []
    ensures Linked(a, b, []) && receiver.posts == AllReplies(peer, Decode(env), b.delivered)
  {
    a := new Session(senderIsBigEndian);
    b := new Session(receiverIsBigEndian);
    sender := new SessionManager();
    receiver := new SessionManager();
    sender.sessions := map[id := a];
  }
}
