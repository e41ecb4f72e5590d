/**
 * Server 2 (port 65432): the responder of the acknowledged handshake. It reads
 * the identifier with one raw `recv(1024)`, acknowledges it, receives the framed
 * context, acknowledges that, receives the framed probe share, and answers with
 * one framed vector `1000 * t2 - p2`, where t2 is its share of the subject's
 * enrolled template.
 */
module Server2 {
  import opened Wrappers
  import opened Transport
  import opened Shares
  import opened Storage
  import opened Session
  import opened Engine

  /** CHUNK_SIZE of its receive loop. */
  const ChunkSize: nat := 4096

  /** The factor the template share is scaled by before the subtraction. */
  const TemplateScale: int := 1000

  /** `Enc_t2 - Enc_p2`, with `t_2 = t_2 * 1000`. */
  function Difference(t2: Vector, p2: Vector): (d: Vector)
    requires |t2| == |p2|
    ensures |d| == |p2|
    ensures forall i :: 0 <= i < |d| ==> d[i] == TemplateScale * t2[i] - p2[i]
  {
    Sub(Scale(TemplateScale, t2), p2)
  }

  /**
   * What the server computes from the identifier and the received payload: it
   * succeeds exactly when the payload deserialises as a vector and the subject
   * has a stored share of that length, and the reply is then `1000 * t2 - p2`.
   */
  function Reply(id: string, payload: seq<byte>, store: map<Key, Vector>, codec: Codec): (r: Result<Vector, SessionError>)
    ensures r.Success? <==>
      && codec.deserialize(payload).Some?
      && TemplateKey(id) in store && |store[TemplateKey(id)]| == |codec.deserialize(payload).value|
    ensures r.Success? ==> r.value == Difference(store[TemplateKey(id)], codec.deserialize(payload).value)
  {
    match codec.deserialize(payload)
    case None => Failure(MalformedCiphertext)
    case Some(p2) =>
      var key := TemplateKey(id);
      if key !in store then Failure(UnknownSubject)
      else if |store[key]| != |p2| then Failure(ShapeMismatch)
      else Success(Difference(store[key], p2))
  }

  /**
   * The session as a function of the bytes the client sends, `waiting`, when the
   * raw identifier `recv` delivers its first `k` bytes and the `recv(4)` that
   * starts each of the two framed receives delivers `h1` and then `h2` bytes.
   * When the session succeeds the server has written exactly two
   * acknowledgements and one framed reply.
   */
  function Exchange(waiting: seq<byte>, k: nat, h1: nat, h2: nat, store: map<Key, Vector>, codec: Codec): (st: Step<Vector>)
    requires k <= |waiting| && h1 <= |waiting| - k
    requires h2 <= |ReceiveAsWritten(waiting[k..], h1).1|
    ensures st.result.Success? ==>
      && |codec.serialize(st.result.value)| < FrameLimit
      && st.sent == Ack + Ack + Frame(codec.serialize(st.result.value))
  {
    match DecodeAscii(waiting[..k])
    case None => Step(Failure(BadIdentifier), [], waiting[k..])
    case Some(id) =>
      var st := Acknowledged(waiting[k..], h1, h2, id, store, codec);
      Step(st.result, Ack + st.sent, st.rest)
  }

  /**
   * Whatever the client sends, a failed session has written nothing but
   * acknowledgements (none, one or two), so it never hands back part of a
   * vector.
   */
  lemma RepliesOnlyOnSuccess(waiting: seq<byte>, k: nat, h1: nat, h2: nat, store: map<Key, Vector>, codec: Codec)
    requires k <= |waiting| && h1 <= |waiting| - k
    requires h2 <= |ReceiveAsWritten(waiting[k..], h1).1|
    ensures var st := Exchange(waiting, k, h1, h2, store, codec);
      st.result.Failure? ==> st.sent == [] || st.sent == Ack || st.sent == Ack + Ack
  {
    if DecodeAscii(waiting[..k]).Some? {
      var st := Acknowledged(waiting[k..], h1, h2, DecodeAscii(waiting[..k]).value, store, codec);
      assert Ack + [] == Ack;
    }
  }

  /**
   * The session after the identifier has been acknowledged: the context frame,
   * whose `recv(4)` delivers `h1` bytes, is received and must parse as a
   * context before the second acknowledgement; then the share and the reply.
   */
  function Acknowledged(waiting: seq<byte>, h1: nat, h2: nat, id: string, store: map<Key, Vector>, codec: Codec): (st: Step<Vector>)
    requires h1 <= |waiting| && h2 <= |ReceiveAsWritten(waiting, h1).1|
    ensures st.result.Failure? ==> st.sent == [] || st.sent == Ack
    ensures st.result.Success? ==> |codec.serialize(st.result.value)| < FrameLimit && st.sent == Ack + Frame(codec.serialize(st.result.value))
  {
    var (context, afterContext) := ReceiveAsWritten(waiting, h1);
    if context.Failure? then Step(Failure(Net(context.error)), [], afterContext)
    else if !codec.isContext(context.value) then Step(Failure(MalformedContext), [], afterContext)
    else
      var st := Answer(afterContext, h2, id, store, codec);
      Step(st.result, Ack + st.sent, st.rest)
  }

  /**
   * The last part of a session, after the second acknowledgement: the share
   * frame, whose `recv(4)` delivers `h` bytes, and the reply frame, the only
   * thing this part writes, and only when it succeeds.
   */
  function Answer(waiting: seq<byte>, h: nat, id: string, store: map<Key, Vector>, codec: Codec): (st: Step<Vector>)
    requires h <= |waiting|
    ensures st.result.Failure? ==> st.sent == []
    ensures st.result.Success? ==> |codec.serialize(st.result.value)| < FrameLimit && st.sent == Frame(codec.serialize(st.result.value))
  {
    var (payload, rest) := ReceiveAsWritten(waiting, h);
    if payload.Failure? then Step(Failure(Net(payload.error)), [], rest)
    else match Reply(id, payload.value, store, codec)
      case Failure(e) => Step(Failure(e), [], rest)
      case Success(d) =>
        var bytes := codec.serialize(d);
        if FrameLimit <= |bytes| then Step(Failure(Net(FrameTooLarge)), [], rest)
        else Step(Success(d), Frame(bytes), rest)
  }

  /**
   * The sizes the reads of one session may deliver: the raw identifier read is a
   * `recv(1024)` on what the client sent; each prefix read is a `recv(4)` on
   * what is left, made only when the session gets that far.
   */
  predicate Reads(waiting: seq<byte>, k: nat, h1: nat, h2: nat, codec: Codec)
  {
    && IsChunk(waiting, RawRecvSize, k)
    && h1 <= |waiting| - k
    && h2 <= |ReceiveAsWritten(waiting[k..], h1).1|
    && (DecodeAscii(waiting[..k]).Some? ==> ContextReads(waiting[k..], h1, h2, codec))
  }

  /** The two prefix reads of the session after the identifier. */
  predicate ContextReads(waiting: seq<byte>, h1: nat, h2: nat, codec: Codec)
  {
    && IsChunk(waiting, HeaderSize, h1)
    && h2 <= |ReceiveAsWritten(waiting, h1).1|
    && (var (context, afterContext) := ReceiveAsWritten(waiting, h1);
        context.Success? && codec.isContext(context.value) ==> IsChunk(afterContext, HeaderSize, h2))
  }

  /**
   * Against a client that sends its identifier, its context frame and its share
   * frame, when the identifier is delivered by one `recv` and each prefix by one
   * whole `recv(4)`, the server answers `1000 * t2 - p2` for the stored share t2
   * of that subject, in one frame after the two acknowledgements, and leaves
   * what followed unread.
   */
  lemma {:induction false} HonestClient(id: string, context: seq<byte>, p2: Vector, rest: seq<byte>, store: map<Key, Vector>, codec: Codec)
    requires IsAscii(id) && 1 <= |id| <= RawRecvSize
    requires Lossless(codec)
    requires |context| < FrameLimit && codec.isContext(context) && |codec.serialize(p2)| < FrameLimit
    requires TemplateKey(id) in store && |store[TemplateKey(id)]| == |p2|
    requires |codec.serialize(Difference(store[TemplateKey(id)], p2))| < FrameLimit
    ensures var waiting := EncodeAscii(id) + Frame(context) + Frame(codec.serialize(p2)) + rest;
      var reply := Difference(store[TemplateKey(id)], p2);
      && Reads(waiting, |id|, HeaderSize, HeaderSize, codec)
      && Exchange(waiting, |id|, HeaderSize, HeaderSize, store, codec)
         == Step(Success(reply), Ack + Ack + Frame(codec.serialize(reply)), rest)
  {
    var payload := codec.serialize(p2);
    var afterContext := Frame(payload) + rest;
    var afterId := Frame(context) + afterContext;
    var waiting := EncodeAscii(id) + afterId;
    assert EncodeAscii(id) + Frame(context) + Frame(payload) + rest == waiting;
    assert DecodeAscii(waiting[..|id|]) == Some(id) by {
      assert waiting[..|id|] == EncodeAscii(id);
      AsciiRoundTrip(id);
    }
    assert waiting[|id|..] == afterId;
    assert ReceiveAsWritten(afterId, HeaderSize) == (Success(context), afterContext) by {
      ReceiveAsWrittenWholeHeader(afterId);
      ReceiveFrameRoundTrip(context, afterContext);
    }
    assert ReceiveAsWritten(afterContext, HeaderSize) == (Success(payload), rest) by {
      ReceiveAsWrittenWholeHeader(afterContext);
      ReceiveFrameRoundTrip(payload, rest);
    }
    AcknowledgedSession(waiting, |id|, HeaderSize, HeaderSize, id, store, codec);
  }

  /** The session on an accepted connection (the body of the `try`, before `finally`). */
  method Respond(conn: Conn, store: map<Key, Vector>, codec: Codec)
    returns (r: Result<Vector, SessionError>, ghost k: nat, ghost h1: nat, ghost h2: nat)
    requires conn.open
    modifies conn`inbox, conn`outbox
    ensures Reads(old(conn.inbox), k, h1, h2, codec)
    ensures var st := Exchange(old(conn.inbox), k, h1, h2, store, codec);
      r == st.result && conn.outbox == old(conn.outbox) + st.sent && conn.inbox == st.rest
  {
    ghost var waiting := conn.inbox;
    var idBytes := conn.Recv(RawRecvSize);
    k, h1, h2 := |idBytes|, 0, 0;
    ghost var afterId := conn.inbox;
    assert waiting[..k] == idBytes && waiting[k..] == afterId;
    var id := DecodeAscii(idBytes);
    if id.None? {
      RejectedSession(waiting, k, store, codec);
      return Failure(BadIdentifier), k, h1, h2;
    }
    r, h1, h2 := AcknowledgeIdentifier(conn, id.value, store, codec);
    AcknowledgedSession(waiting, k, h1, h2, id.value, store, codec);
  }

  /** The first acknowledgement, then the rest of the session. */
  method AcknowledgeIdentifier(conn: Conn, id: string, store: map<Key, Vector>, codec: Codec)
    returns (r: Result<Vector, SessionError>, ghost h1: nat, ghost h2: nat)
    requires conn.open
    modifies conn`inbox, conn`outbox
    ensures ContextReads(old(conn.inbox), h1, h2, codec)
    ensures var st := Acknowledged(old(conn.inbox), h1, h2, id, store, codec);
      r == st.result && conn.outbox == old(conn.outbox) + (Ack + st.sent) && conn.inbox == st.rest
  {
    conn.SendAll(Ack);
    ghost var acked := conn.outbox;
    r, h1, h2 := ReceiveContextAndShare(conn, id, store, codec);
    ghost var more := conn.outbox[|acked|..];
    assert conn.outbox == old(conn.outbox) + (Ack + more);
  }

  /** A session whose identifier decodes is the acknowledgement followed by the rest of the session. */
  lemma AcknowledgedSession(waiting: seq<byte>, k: nat, h1: nat, h2: nat, id: string, store: map<Key, Vector>, codec: Codec)
    requires IsChunk(waiting, RawRecvSize, k) && k <= |waiting| && DecodeAscii(waiting[..k]) == Some(id)
    requires ContextReads(waiting[k..], h1, h2, codec)
    ensures Reads(waiting, k, h1, h2, codec)
    ensures var st := Acknowledged(waiting[k..], h1, h2, id, store, codec);
      Exchange(waiting, k, h1, h2, store, codec) == Step(st.result, Ack + st.sent, st.rest)
  {
  }

  /** A session whose identifier does not decode writes nothing and reads nothing more. */
  lemma RejectedSession(waiting: seq<byte>, k: nat, store: map<Key, Vector>, codec: Codec)
    requires IsChunk(waiting, RawRecvSize, k) && k <= |waiting| && DecodeAscii(waiting[..k]).None?
    ensures Reads(waiting, k, 0, 0, codec)
    ensures Exchange(waiting, k, 0, 0, store, codec) == Step(Failure(BadIdentifier), [], waiting[k..])
  {
  }

  /** The session after the first acknowledgement: the part that `Acknowledged` describes. */
  method ReceiveContextAndShare(conn: Conn, id: string, store: map<Key, Vector>, codec: Codec)
    returns (r: Result<Vector, SessionError>, ghost h1: nat, ghost h2: nat)
    requires conn.open
    modifies conn`inbox, conn`outbox
    ensures ContextReads(old(conn.inbox), h1, h2, codec)
    ensures var st := Acknowledged(old(conn.inbox), h1, h2, id, store, codec);
      r == st.result && conn.outbox == old(conn.outbox) + st.sent && conn.inbox == st.rest
  {
    h2 := 0;
    var context;
    ghost var header;
    context, header := ReceiveLargeData(conn, ChunkSize);
    h1 := |header|;
    if context.Failure? {
      return Failure(Net(context.error)), h1, h2;
    }
    if !codec.isContext(context.value) {
      return Failure(MalformedContext), h1, h2;
    }
    conn.SendAll(Ack);
    ghost var acked := conn.outbox;
    ghost var afterContext := conn.inbox;
    r, h2 := ReceiveAndAnswer(conn, id, store, codec);
    ghost var st := Answer(afterContext, h2, id, store, codec);
    assert conn.outbox == acked + st.sent;
    assert acked + st.sent == old(conn.outbox) + (Ack + st.sent);
  }

  /** The share receive and the reply: the part of the session that `Answer` describes. */
  method ReceiveAndAnswer(conn: Conn, id: string, store: map<Key, Vector>, codec: Codec)
    returns (r: Result<Vector, SessionError>, ghost h: nat)
    requires conn.open
    modifies conn`inbox, conn`outbox
    ensures IsChunk(old(conn.inbox), HeaderSize, h)
    ensures var st := Answer(old(conn.inbox), h, id, store, codec);
      r == st.result && conn.outbox == old(conn.outbox) + st.sent && conn.inbox == st.rest
  {
    var payload;
    ghost var header;
    payload, header := ReceiveLargeData(conn, ChunkSize);
    h := |header|;
    if payload.Failure? {
      return Failure(Net(payload.error)), h;
    }
    var p2 := codec.deserialize(payload.value);
    if p2.None? {
      return Failure(MalformedCiphertext), h;
    }
    var key := TemplateKey(id);
    if key !in store {
      return Failure(UnknownSubject), h;
    }
    var t2 := store[key];
    if |t2| != |p2.value| {
      return Failure(ShapeMismatch), h;
    }
    var diff := Difference(t2, p2.value);
    var sent := SendLargeData(conn, codec.serialize(diff));
    if sent.Fail? {
      return Failure(Net(sent.error)), h;
    }
    r := Success(diff);
  }

  /**
   * The whole program: accept exactly one connection, run the session on it, and
   * close the connection and the listener whatever the outcome.
   */
  method Serve(listener: Listener, incoming: seq<byte>, store: map<Key, Vector>, codec: Codec)
    returns (r: Result<Vector, SessionError>, conn: Conn, ghost k: nat, ghost h1: nat, ghost h2: nat)
    requires listener.open
    modifies listener
    ensures fresh(conn) && !conn.open
    ensures !listener.open && listener.accepted == old(listener.accepted) + 1
    ensures Reads(incoming, k, h1, h2, codec)
    ensures var st := Exchange(incoming, k, h1, h2, store, codec);
      r == st.result && conn.outbox == st.sent && conn.inbox == st.rest
  {
    conn := listener.Accept(incoming);
    r, k, h1, h2 := Respond(conn, store, codec);
    conn.Close();
    listener.Close();
  }
}
