/**
 * Server 1 (port 65431): the streamlined responder. It receives three frames in
 * a row (identifier, context, probe share) without acknowledging any of them,
 * and answers with one framed vector `t1 - p1`, where t1 is its share of the
 * subject's enrolled template, unscaled.
 */
module Server1 {
  import opened Wrappers
  import opened Transport
  import opened Shares
  import opened Storage
  import opened Session
  import opened Engine

  /** The chunk bound of its receive loop (128 KiB). */
  const ChunkSize: nat := 131072

  /** `Enc_t1 - enc_p1`. */
  function Difference(t1: Vector, p1: Vector): (d: Vector)
    requires |t1| == |p1|
    ensures |d| == |p1|
    ensures forall i :: 0 <= i < |d| ==> d[i] == t1[i] - p1[i]
  {
    Sub(t1, p1)
  }

  /**
   * What the server computes from the identifier and the received payload: it
   * succeeds exactly when the payload deserialises as a vector and the subject
   * has a stored share of that length, and the reply is then `t1 - p1`.
   */
  function Reply(id: string, payload: seq<byte>, store: map<Key, Vector>, codec: Codec): (r: Result<Vector, SessionError>)
    ensures r.Success? <==>
      && codec.deserialize(payload).Some?
      && TemplateKey(id) in store && |store[TemplateKey(id)]| == |codec.deserialize(payload).value|
    ensures r.Success? ==> r.value == Difference(store[TemplateKey(id)], codec.deserialize(payload).value)
  {
    match codec.deserialize(payload)
    case None => Failure(MalformedCiphertext)
    case Some(p1) =>
      var key := TemplateKey(id);
      if key !in store then Failure(UnknownSubject)
      else if |store[key]| != |p1| then Failure(ShapeMismatch)
      else Success(Difference(store[key], p1))
  }

  /**
   * The session as a function of the bytes the client sends, when the `recv(4)`
   * that starts each of the three framed receives (identifier, context,
   * probe share) delivers `h1`, `h2` and then `h3` bytes. The server writes
   * nothing at all unless the session succeeds, and then exactly one frame
   * holding the serialised reply.
   */
  function Exchange(waiting: seq<byte>, h1: nat, h2: nat, h3: nat, store: map<Key, Vector>, codec: Codec): (st: Step<Vector>)
    requires h1 <= |waiting| && h2 <= |ReceiveAsWritten(waiting, h1).1|
    requires h3 <= |ReceiveAsWritten(ReceiveAsWritten(waiting, h1).1, h2).1|
    ensures st.result.Failure? ==> st.sent == []
    ensures st.result.Success? ==>
      && |codec.serialize(st.result.value)| < FrameLimit
      && st.sent == Frame(codec.serialize(st.result.value))
  {
    var (idBytes, afterId) := ReceiveAsWritten(waiting, h1);
    if idBytes.Failure? then Step(Failure(Net(idBytes.error)), [], afterId)
    else match DecodeAscii(idBytes.value)
      case None => Step(Failure(BadIdentifier), [], afterId)
      case Some(id) => Framed(afterId, h2, h3, id, store, codec)
  }

  /** The session after the identifier: the context frame, which must parse as a context, then the share and the reply. */
  function Framed(waiting: seq<byte>, h2: nat, h3: nat, id: string, store: map<Key, Vector>, codec: Codec): (st: Step<Vector>)
    requires h2 <= |waiting| && h3 <= |ReceiveAsWritten(waiting, h2).1|
    ensures st.result.Failure? ==> st.sent == []
    ensures st.result.Success? ==> |codec.serialize(st.result.value)| < FrameLimit && st.sent == Frame(codec.serialize(st.result.value))
  {
    var (context, afterContext) := ReceiveAsWritten(waiting, h2);
    if context.Failure? then Step(Failure(Net(context.error)), [], afterContext)
    else if !codec.isContext(context.value) then Step(Failure(MalformedContext), [], afterContext)
    else Answer(afterContext, h3, id, store, codec)
  }

  /**
   * The last part of a session: the share frame, whose `recv(4)` delivers `h`
   * bytes, and the reply frame, the only thing the server writes, and only
   * when it succeeds.
   */
  function Answer(waiting: seq<byte>, h: nat, id: string, store: map<Key, Vector>, codec: Codec): (st: Step<Vector>)
    requires h <= |waiting|
    ensures st.result.Failure? ==> st.sent == []
    ensures st.result.Success? ==> |codec.serialize(st.result.value)| < FrameLimit && st.sent == Frame(codec.serialize(st.result.value))
  {
    var (payload, rest) := ReceiveAsWritten(waiting, h);
    if payload.Failure? then Step(Failure(Net(payload.error)), [], rest)
    else match Reply(id, payload.value, store, codec)
      case Failure(e) => Step(Failure(e), [], rest)
      case Success(d) =>
        var bytes := codec.serialize(d);
        if FrameLimit <= |bytes| then Step(Failure(Net(FrameTooLarge)), [], rest)
        else Step(Success(d), Frame(bytes), rest)
  }

  /**
   * The sizes the three prefix reads may deliver: each is a `recv(4)` on what
   * is left, made only when the session gets that far.
   */
  predicate Reads(waiting: seq<byte>, h1: nat, h2: nat, h3: nat, codec: Codec)
  {
    && IsChunk(waiting, HeaderSize, h1)
    && h2 <= |ReceiveAsWritten(waiting, h1).1|
    && h3 <= |ReceiveAsWritten(ReceiveAsWritten(waiting, h1).1, h2).1|
    && (var (idBytes, afterId) := ReceiveAsWritten(waiting, h1);
        idBytes.Success? && DecodeAscii(idBytes.value).Some? ==> ContextReads(afterId, h2, h3, codec))
  }

  /** The two prefix reads of the session after the identifier. */
  predicate ContextReads(waiting: seq<byte>, h2: nat, h3: nat, codec: Codec)
  {
    && IsChunk(waiting, HeaderSize, h2)
    && h3 <= |ReceiveAsWritten(waiting, h2).1|
    && (var (context, afterContext) := ReceiveAsWritten(waiting, h2);
        context.Success? && codec.isContext(context.value) ==> IsChunk(afterContext, HeaderSize, h3))
  }

  /**
   * Against a client that sends the identifier, the context and its share as
   * three frames, when each prefix is delivered by one whole `recv(4)`, the
   * server answers `t1 - p1` for the stored share t1 of that subject in one
   * frame, and leaves what followed unread.
   */
  lemma {:induction false} HonestClient(id: string, context: seq<byte>, p1: Vector, rest: seq<byte>, store: map<Key, Vector>, codec: Codec)
    requires IsAscii(id) && |id| < FrameLimit
    requires Lossless(codec)
    requires |context| < FrameLimit && codec.isContext(context) && |codec.serialize(p1)| < FrameLimit
    requires TemplateKey(id) in store && |store[TemplateKey(id)]| == |p1|
    requires |codec.serialize(Difference(store[TemplateKey(id)], p1))| < FrameLimit
    ensures var waiting := Frame(EncodeAscii(id)) + Frame(context) + Frame(codec.serialize(p1)) + rest;
      var reply := Difference(store[TemplateKey(id)], p1);
      && Reads(waiting, HeaderSize, HeaderSize, HeaderSize, codec)
      && Exchange(waiting, HeaderSize, HeaderSize, HeaderSize, store, codec)
         == Step(Success(reply), Frame(codec.serialize(reply)), rest)
  {
    var payload := codec.serialize(p1);
    var waiting := Frame(EncodeAscii(id)) + Frame(context) + Frame(payload) + rest;
    assert waiting == Frame(EncodeAscii(id)) + (Frame(context) + (Frame(payload) + rest));
    ReceiveAsWrittenWholeHeader(waiting);
    ReceiveFrameRoundTrip(EncodeAscii(id), Frame(context) + (Frame(payload) + rest));
    AsciiRoundTrip(id);
    ReceiveAsWrittenWholeHeader(Frame(context) + (Frame(payload) + rest));
    ReceiveFrameRoundTrip(context, Frame(payload) + rest);
    ReceiveAsWrittenWholeHeader(Frame(payload) + rest);
    ReceiveFrameRoundTrip(payload, rest);
  }

  /** The session on an accepted connection (the body of the `try`, before `finally`). */
  method Respond(conn: Conn, store: map<Key, Vector>, codec: Codec)
    returns (r: Result<Vector, SessionError>, ghost h1: nat, ghost h2: nat, ghost h3: nat)
    requires conn.open
    modifies conn`inbox, conn`outbox
    ensures Reads(old(conn.inbox), h1, h2, h3, codec)
    ensures var st := Exchange(old(conn.inbox), h1, h2, h3, store, codec);
      r == st.result && conn.outbox == old(conn.outbox) + st.sent && conn.inbox == st.rest
  {
    h2, h3 := 0, 0;
    var idBytes;
    ghost var header;
    idBytes, header := ReceiveLargeData(conn, ChunkSize);
    h1 := |header|;
    if idBytes.Failure? {
      return Failure(Net(idBytes.error)), h1, h2, h3;
    }
    var id := DecodeAscii(idBytes.value);
    if id.None? {
      return Failure(BadIdentifier), h1, h2, h3;
    }
    r, h2, h3 := ReceiveContextAndShare(conn, id.value, store, codec);
  }

  /** The session after the identifier: the part that `Framed` describes. */
  method ReceiveContextAndShare(conn: Conn, id: string, store: map<Key, Vector>, codec: Codec)
    returns (r: Result<Vector, SessionError>, ghost h2: nat, ghost h3: nat)
    requires conn.open
    modifies conn`inbox, conn`outbox
    ensures ContextReads(old(conn.inbox), h2, h3, codec)
    ensures var st := Framed(old(conn.inbox), h2, h3, id, store, codec);
      r == st.result && conn.outbox == old(conn.outbox) + st.sent && conn.inbox == st.rest
  {
    h3 := 0;
    var context;
    ghost var header;
    context, header := ReceiveLargeData(conn, ChunkSize);
    h2 := |header|;
    if context.Failure? {
      return Failure(Net(context.error)), h2, h3;
    }
    if !codec.isContext(context.value) {
      return Failure(MalformedContext), h2, h3;
    }
    r, h3 := ReceiveAndAnswer(conn, id, store, codec);
  }

  /** The share receive and the reply: the part of the session that `Answer` describes. */
  method ReceiveAndAnswer(conn: Conn, id: string, store: map<Key, Vector>, codec: Codec)
    returns (r: Result<Vector, SessionError>, ghost h: nat)
    requires conn.open
    modifies conn`inbox, conn`outbox
    ensures IsChunk(old(conn.inbox), HeaderSize, h)
    ensures var st := Answer(old(conn.inbox), h, id, store, codec);
      r == st.result && conn.outbox == old(conn.outbox) + st.sent && conn.inbox == st.rest
  {
    var payload;
    ghost var header;
    payload, header := ReceiveLargeData(conn, ChunkSize);
    h := |header|;
    if payload.Failure? {
      return Failure(Net(payload.error)), h;
    }
    var p1 := codec.deserialize(payload.value);
    if p1.None? {
      return Failure(MalformedCiphertext), h;
    }
    var key := TemplateKey(id);
    if key !in store {
      return Failure(UnknownSubject), h;
    }
    var t1 := store[key];
    if |t1| != |p1.value| {
      return Failure(ShapeMismatch), h;
    }
    var diff := Difference(t1, p1.value);
    var sent := SendLargeData(conn, codec.serialize(diff));
    if sent.Fail? {
      return Failure(Net(sent.error)), h;
    }
    r := Success(diff);
  }

  /**
   * The whole program: accept exactly one connection, run the session on it, and
   * close the connection and the listener whatever the outcome.
   */
  method Serve(listener: Listener, incoming: seq<byte>, store: map<Key, Vector>, codec: Codec)
    returns (r: Result<Vector, SessionError>, conn: Conn, ghost h1: nat, ghost h2: nat, ghost h3: nat)
    requires listener.open
    modifies listener
    ensures fresh(conn) && !conn.open
    ensures !listener.open && listener.accepted == old(listener.accepted) + 1
    ensures Reads(incoming, h1, h2, h3, codec)
    ensures var st := Exchange(incoming, h1, h2, h3, store, codec);
      r == st.result && conn.outbox == st.sent && conn.inbox == st.rest
  {
    conn := listener.Accept(incoming);
    r, h1, h2, h3 := Respond(conn, store, codec);
    conn.Close();
    listener.Close();
  }
}
