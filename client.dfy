/**
 * The client: it splits the probe into two additive shares, scales both by 1000,
 * and runs the acknowledged handshake with server 1 and then with server 2, one
 * share each; it adds the two partial differences and classifies the squared
 * distance.
 */
module Client {
  import opened Wrappers
  import opened Transport
  import opened Shares
  import opened Storage
  import opened Session
  import opened Engine
  import opened Combiner
  import Server1
  import Server2

  /** The chunk bound of its receive loop. */
  const ChunkSize: nat := 4096

  /** The factor both probe shares are scaled by before encryption. */
  const ProbeScale: int := 1000

  /** The identifier the client sends to both servers. */
  const BiometricId: string := "3567"

  /**
   * One session as a function of the bytes the server sends, `waiting`, when the
   * two raw acknowledgement `recv`s deliver `k1` and then `k2` bytes and the
   * `recv(4)` that starts the reply's receive delivers `h` bytes. The client
   * sends the identifier raw, then the context frame once the first reply is
   * exactly ACK, then the share frame once the second is, and then receives the
   * framed reply with the receive as written.
   */
  function Exchange(waiting: seq<byte>, k1: nat, k2: nat, h: nat, id: string, context: seq<byte>, share: seq<byte>): (st: Step<seq<byte>>)
    requires IsAscii(id) && k1 + k2 + h <= |waiting|
    ensures Accepted(waiting, k1, k2, context, share) ==> st.sent == EncodeAscii(id) + Frame(context) + Frame(share)
    ensures !Accepted(waiting, k1, k2, context, share) ==>
      && st.result.Failure?
      && (st.sent == EncodeAscii(id) || (|context| < FrameLimit && st.sent == EncodeAscii(id) + Frame(context)))
    ensures st.result.Success? ==> |st.result.value| == FromBigEndian(waiting[k1 + k2..][..h])
  {
    var hello := EncodeAscii(id);
    if waiting[..k1] != Ack then Step(Failure(NotAcknowledged), hello, waiting[k1..])
    else
      var st := Acknowledged(waiting[k1..], k2, h, context, share);
      Step(st.result, hello + st.sent, st.rest)
  }

  /**
   * Both replies were exactly ACK and both payloads fit a frame: the only case in
   * which the client sends its share.
   */
  predicate Accepted(waiting: seq<byte>, k1: nat, k2: nat, context: seq<byte>, share: seq<byte>)
    requires k1 + k2 <= |waiting|
  {
    waiting[..k1] == Ack && |context| < FrameLimit && waiting[k1..][..k2] == Ack && |share| < FrameLimit
  }

  /** The session after the first ACK: the context frame, then the rest. */
  function Acknowledged(waiting: seq<byte>, k2: nat, h: nat, context: seq<byte>, share: seq<byte>): Step<seq<byte>>
    requires k2 + h <= |waiting|
  {
    if FrameLimit <= |context| then Step(Failure(Net(FrameTooLarge)), [], waiting)
    else
      var st := Submit(waiting, k2, h, share);
      Step(st.result, Frame(context) + st.sent, st.rest)
  }

  /** The session after the context frame: the second ACK, the share frame and the reply. */
  function Submit(waiting: seq<byte>, k2: nat, h: nat, share: seq<byte>): Step<seq<byte>>
    requires k2 + h <= |waiting|
  {
    if waiting[..k2] != Ack then Step(Failure(NotAcknowledged), [], waiting[k2..])
    else if FrameLimit <= |share| then Step(Failure(Net(FrameTooLarge)), [], waiting[k2..])
    else
      var (reply, rest) := ReceiveAsWritten(waiting[k2..], h);
      Step(Lift(reply), Frame(share), rest)
  }

  /**
   * The sizes the reads of one session may deliver: the first acknowledgement
   * read is a `recv(1024)` on what the server sent; the second is one on what
   * follows, made only when the first reply was ACK and the context could be
   * framed; the reply's prefix read is a `recv(4)` on what is left, made only
   * when the second reply was ACK and the share could be framed.
   */
  predicate AckReads(waiting: seq<byte>, k1: nat, k2: nat, h: nat, context: seq<byte>, share: seq<byte>)
  {
    && IsChunk(waiting, RawRecvSize, k1)
    && k1 + k2 + h <= |waiting|
    && (waiting[..k1] == Ack && |context| < FrameLimit ==> SubmitReads(waiting[k1..], k2, h, share))
  }

  /** The reads after the context frame: the second acknowledgement and the reply's prefix. */
  predicate SubmitReads(waiting: seq<byte>, k2: nat, h: nat, share: seq<byte>)
  {
    && IsChunk(waiting, RawRecvSize, k2)
    && k2 + h <= |waiting|
    && (waiting[..k2] == Ack && |share| < FrameLimit ==> IsChunk(waiting[k2..], HeaderSize, h))
  }

  /** A session followed by `bfv_vector_from` on the reply. */
  function Query(waiting: seq<byte>, k1: nat, k2: nat, h: nat, id: string, context: seq<byte>, share: Vector, codec: Codec): (q: Step<Vector>)
    requires IsAscii(id) && k1 + k2 + h <= |waiting|
    ensures var st := Exchange(waiting, k1, k2, h, id, context, codec.serialize(share));
      && q.sent == st.sent && q.rest == st.rest
      && (q.result.Success? <==> st.result.Success? && codec.deserialize(st.result.value).Some?)
      && (q.result.Success? ==> codec.deserialize(st.result.value) == Some(q.result.value))
  {
    var st := Exchange(waiting, k1, k2, h, id, context, codec.serialize(share));
    match st.result
    case Failure(e) => Step(Failure(e), st.sent, st.rest)
    case Success(bytes) =>
      match codec.deserialize(bytes)
      case None => Step(Failure(MalformedCiphertext), st.sent, st.rest)
      case Some(v) => Step(Success(v), st.sent, st.rest)
  }

  /** Adding the two partial differences needs vectors of one length. */
  function Conclude(r1: Vector, r2: Vector): (r: Result<Report, SessionError>)
    ensures r.Success? <==> |r1| == |r2|
    ensures r.Failure? ==> r.error == ShapeMismatch
    ensures r.Success? ==> r.value.squaredDistance == SquaredDistance(Add(r1, r2)) && r.value.verdict == ClassifySquared(r.value.squaredDistance)
  {
    if |r1| != |r2| then Failure(ShapeMismatch) else Success(Finalize(r1, r2))
  }

  /**
   * Without an exact ACK the client goes no further: after a wrong first reply
   * it has sent only the identifier, and after a wrong second reply only the
   * identifier and the context; the share is never sent.
   */
  lemma AbortsWithoutAck(waiting: seq<byte>, k1: nat, k2: nat, h: nat, id: string, context: seq<byte>, share: seq<byte>)
    requires IsAscii(id) && k1 + k2 + h <= |waiting|
    ensures var st := Exchange(waiting, k1, k2, h, id, context, share);
      && (waiting[..k1] != Ack ==> st.result == Failure(NotAcknowledged) && st.sent == EncodeAscii(id))
      && (waiting[..k1] == Ack && |context| < FrameLimit && waiting[k1..][..k2] != Ack ==>
            st.result == Failure(NotAcknowledged) && st.sent == EncodeAscii(id) + Frame(context))
  {
  }

  /**
   * Against a server that acknowledges twice and sends one reply frame, when each
   * ACK is read whole and the reply's prefix by one whole `recv(4)`, the client
   * sends the identifier, the context frame and the share frame, and receives
   * exactly the reply.
   */
  lemma HonestServer(reply: seq<byte>, rest: seq<byte>, id: string, context: seq<byte>, share: seq<byte>)
    requires IsAscii(id) && |reply| < FrameLimit && |context| < FrameLimit && |share| < FrameLimit
    ensures var waiting := Ack + Ack + Frame(reply) + rest;
      && AckReads(waiting, |Ack|, |Ack|, HeaderSize, context, share)
      && Exchange(waiting, |Ack|, |Ack|, HeaderSize, id, context, share)
         == Step(Success(reply), EncodeAscii(id) + Frame(context) + Frame(share), rest)
  {
    var waiting := Ack + Ack + Frame(reply) + rest;
    assert waiting[..3] == Ack;
    assert waiting[3..] == Ack + (Frame(reply) + rest);
    assert waiting[3..][..3] == Ack;
    assert waiting[3..][3..] == Frame(reply) + rest;
    ReceiveAsWrittenWholeHeader(Frame(reply) + rest);
    ReceiveFrameRoundTrip(reply, rest);
  }

  /**
   * A server that acknowledges twice and then closes without replying: the
   * client's single `recv(4)` comes back empty, is decoded as length 0, and the
   * session succeeds with an empty reply, which is then handed to
   * `bfv_vector_from`.
   */
  lemma ClosedReplyReadsAsEmpty(id: string, context: seq<byte>, share: seq<byte>)
    requires IsAscii(id) && |context| < FrameLimit && |share| < FrameLimit
    ensures AckReads(Ack + Ack, |Ack|, |Ack|, 0, context, share)
    ensures Exchange(Ack + Ack, |Ack|, |Ack|, 0, id, context, share)
      == Step(Success([]), EncodeAscii(id) + Frame(context) + Frame(share), [])
  {
    var waiting := Ack + Ack;
    assert waiting[..3] == Ack && waiting[3..] == Ack;
    assert waiting[3..][..3] == Ack && waiting[3..][3..] == [];
    ClosedStreamReadsAsEmpty();
  }

  /**
   * The client and server 2 agree: the bytes the client sends are the ones on
   * which server 2 computes its reply, and when server 2's bytes come back, the
   * client receives the vector `1000 * t2 - p2` that server 2 computed. This
   * holds when the identifier arrives in one read and every prefix is read by
   * one whole `recv(4)`, on both sides.
   */
  lemma ClientAndServer2Agree(id: string, context: seq<byte>, p2: Vector, store: map<Key, Vector>, codec: Codec)
    requires IsAscii(id) && 1 <= |id| <= RawRecvSize
    requires Lossless(codec)
    requires |context| < FrameLimit && codec.isContext(context) && |codec.serialize(p2)| < FrameLimit
    requires TemplateKey(id) in store && |store[TemplateKey(id)]| == |p2|
    requires |codec.serialize(Server2.Difference(store[TemplateKey(id)], p2))| < FrameLimit
    ensures var toServer := EncodeAscii(id) + Frame(context) + Frame(codec.serialize(p2));
      && Server2.Reads(toServer, |id|, HeaderSize, HeaderSize, codec)
      && var server := Server2.Exchange(toServer, |id|, HeaderSize, HeaderSize, store, codec);
      && AckReads(server.sent, |Ack|, |Ack|, HeaderSize, context, codec.serialize(p2))
      && Query(server.sent, |Ack|, |Ack|, HeaderSize, id, context, p2, codec)
         == Step(Success(Server2.Difference(store[TemplateKey(id)], p2)), toServer, [])
  {
    var toServer := EncodeAscii(id) + Frame(context) + Frame(codec.serialize(p2));
    assert toServer + [] == toServer;
    Server2.HonestClient(id, context, p2, [], store, codec);
    var reply := Server2.Difference(store[TemplateKey(id)], p2);
    HonestServer(codec.serialize(reply), [], id, context, codec.serialize(p2));
    assert Ack + Ack + Frame(codec.serialize(reply)) + [] == Ack + Ack + Frame(codec.serialize(reply));
  }

  /**
   * When both servers answer as server 2 does, each with its share of the
   * template, the sum of their replies is the scaled difference
   * `1000 * (t - probe)`, whatever the random share.
   */
  lemma HonestServersRecombine(t1: Vector, t2: Vector, probe: Vector, s2: Vector)
    requires |t1| == |t2| == |probe| == |s2|
    ensures var (p1, p2) := Split(probe, s2);
      Add(Server2.Difference(t1, Scale(ProbeScale, p1)), Server2.Difference(t2, Scale(ProbeScale, p2)))
        == Scale(ProbeScale, Sub(Add(t1, t2), probe))
  {
    var (p1, p2) := Split(probe, s2);
    var lhs := Add(Server2.Difference(t1, Scale(ProbeScale, p1)), Server2.Difference(t2, Scale(ProbeScale, p2)));
    var rhs := Scale(ProbeScale, Sub(Add(t1, t2), probe));
    forall i | 0 <= i < |probe| ensures lhs[i] == rhs[i] {
      assert Add(p1, p2)[i] == probe[i];
      calc {
        lhs[i];
        (1000 * t1[i] - 1000 * p1[i]) + (1000 * t2[i] - 1000 * p2[i]);
        1000 * ((t1[i] + t2[i]) - (p1[i] + p2[i]));
      }
    }
  }

  /**
   * Server 1 as written answers `t1 - p1` without scaling t1, so paired with
   * server 2 the sum is `t1 + 1000 * t2 - 1000 * probe`: the enrolled template is
   * not recovered unless server 1's share is zero.
   */
  lemma UnscaledServer1Skews(t1: Vector, t2: Vector, probe: Vector, s2: Vector)
    requires |t1| == |t2| == |probe| == |s2|
    ensures var (p1, p2) := Split(probe, s2);
      var total := Add(Server1.Difference(t1, Scale(ProbeScale, p1)), Server2.Difference(t2, Scale(ProbeScale, p2)));
      && total == Sub(Add(t1, Scale(ProbeScale, t2)), Scale(ProbeScale, probe))
      && (total == Scale(ProbeScale, Sub(Add(t1, t2), probe)) <==> forall i :: 0 <= i < |t1| ==> t1[i] == 0)
  {
    var (p1, p2) := Split(probe, s2);
    var total := Add(Server1.Difference(t1, Scale(ProbeScale, p1)), Server2.Difference(t2, Scale(ProbeScale, p2)));
    var scaled := Scale(ProbeScale, Sub(Add(t1, t2), probe));
    forall i | 0 <= i < |probe|
      ensures total[i] == Sub(Add(t1, Scale(ProbeScale, t2)), Scale(ProbeScale, probe))[i]
      ensures total[i] == scaled[i] <==> t1[i] == 0
    {
      assert Add(p1, p2)[i] == probe[i];
    }
    if total == scaled {
      forall i | 0 <= i < |t1| ensures t1[i] == 0 {
        assert total[i] == scaled[i];
      }
    }
  }

  /**
   * When both servers answer as server 2 does, each with its share of the
   * template (server 1 as written does not scale; see `UnscaledServer1Skews`):
   * when the enrolled shares add up to the probe, the report is a squared
   * distance of 0, a Manhattan figure of 0 and the label "Identical fingerprints";
   * in general the squared distance is the exact scaled one reduced by the
   * plaintext modulus.
   */
  lemma HonestReport(t1: Vector, t2: Vector, probe: Vector, s2: Vector)
    requires |t1| == |t2| == |probe| == |s2|
    ensures var (p1, p2) := Split(probe, s2);
      var r := Conclude(Server2.Difference(t1, Scale(ProbeScale, p1)), Server2.Difference(t2, Scale(ProbeScale, p2)));
      && r.Success?
      && r.value.squaredDistance == (ProbeScale * ProbeScale * SumSq(Sub(Add(t1, t2), probe))) % PlainModulus
      && (Add(t1, t2) == probe ==> r.value == Report(0, 0, Identical))
  {
    var (p1, p2) := Split(probe, s2);
    HonestServersRecombine(t1, t2, probe, s2);
    var d := Sub(Add(t1, t2), probe);
    SumSqScale(ProbeScale, d);
    if Add(t1, t2) == probe {
      SumSqZeroIff(d);
      var total := Scale(ProbeScale, d);
      assert forall i :: 0 <= i < |total| ==> total[i] == 0;
      SumOfZeros(total);
    }
  }

  /**
   * Server 1 does not speak the client's protocol: it reads the raw identifier
   * "3567" as a length prefix (859,125,303 bytes when its `recv(4)` gets all four
   * bytes, at least 51 whatever it gets), and the client sends nothing more
   * until it is acknowledged. So server 1 never has the frame it waits for and
   * sends nothing back, and the client has no ACK to read: in the program both
   * sides block in `recv`, which this model of a closing peer shows as server 1
   * failing at the end of the stream and the client finding no ACK.
   */
  lemma Server1MisreadsIdentifier(store: map<Key, Vector>, codec: Codec, context: seq<byte>, share: seq<byte>)
    ensures EncodeAscii(BiometricId) == [51, 53, 54, 55]
    ensures FromBigEndian(EncodeAscii(BiometricId)) == 859125303
    ensures forall h: nat :: IsChunk(EncodeAscii(BiometricId), HeaderSize, h) ==>
      && Server1.Reads(EncodeAscii(BiometricId), h, 0, 0, codec)
      && Server1.Exchange(EncodeAscii(BiometricId), h, 0, 0, store, codec) == Step(Failure(Net(ConnectionClosed)), [], [])
    ensures AckReads([], 0, 0, 0, context, share)
    ensures Exchange([], 0, 0, 0, BiometricId, context, share) == Step(Failure(NotAcknowledged), EncodeAscii(BiometricId), [])
  {
    var hello := EncodeAscii(BiometricId);
    IdentifierAsLength(HeaderSize);
    forall h: nat | IsChunk(hello, HeaderSize, h)
      ensures Server1.Reads(hello, h, 0, 0, codec)
      ensures Server1.Exchange(hello, h, 0, 0, store, codec) == Step(Failure(Net(ConnectionClosed)), [], [])
    {
      IdentifierAsLength(h);
    }
  }

  /** The first h bytes of "3567", read as a big-endian length, declare more bytes than the 4 - h that follow. */
  lemma IdentifierAsLength(h: nat)
    requires 1 <= h <= HeaderSize
    ensures EncodeAscii(BiometricId) == [51, 53, 54, 55]
    ensures FromBigEndian(EncodeAscii(BiometricId)[..h]) >= 51
    ensures h == HeaderSize ==> FromBigEndian(EncodeAscii(BiometricId)) == 859125303
  {
    var hello := EncodeAscii(BiometricId);
    assert hello == [51, 53, 54, 55];
    assert [51] == [] + [51];
    FromBigEndianAppend([], 51);
    assert [51, 53] == [51] + [53];
    FromBigEndianAppend([51], 53);
    assert [51, 53, 54] == [51, 53] + [54];
    FromBigEndianAppend([51, 53], 54);
    assert hello == [51, 53, 54] + [55];
    FromBigEndianAppend([51, 53, 54], 55);
    assert hello[..h] == [51] || hello[..h] == [51, 53] || hello[..h] == [51, 53, 54] || hello[..h] == hello;
  }

  /** The body of one `try` block: the session on one connection, before `finally`. */
  method Converse(conn: Conn, id: string, context: seq<byte>, share: Vector, codec: Codec)
    returns (r: Result<Vector, SessionError>, ghost k1: nat, ghost k2: nat, ghost h: nat)
    requires conn.open && IsAscii(id)
    modifies conn`inbox, conn`outbox
    ensures AckReads(old(conn.inbox), k1, k2, h, context, codec.serialize(share))
    ensures var q := Query(old(conn.inbox), k1, k2, h, id, context, share, codec);
      r == q.result && conn.outbox == old(conn.outbox) + q.sent && conn.inbox == q.rest
  {
    var reply;
    reply, k1, k2, h := Handshake(conn, id, context, codec.serialize(share));
    if reply.Failure? {
      return Failure(reply.error), k1, k2, h;
    }
    var v := codec.deserialize(reply.value);
    if v.None? {
      return Failure(MalformedCiphertext), k1, k2, h;
    }
    r := Success(v.value);
  }

  /** The handshake and the reply's receive: the part of a session that `Exchange` describes. */
  method Handshake(conn: Conn, id: string, context: seq<byte>, share: seq<byte>)
    returns (r: Result<seq<byte>, SessionError>, ghost k1: nat, ghost k2: nat, ghost h: nat)
    requires conn.open && IsAscii(id)
    modifies conn`inbox, conn`outbox
    ensures AckReads(old(conn.inbox), k1, k2, h, context, share)
    ensures var st := Exchange(old(conn.inbox), k1, k2, h, id, context, share);
      r == st.result && conn.outbox == old(conn.outbox) + st.sent && conn.inbox == st.rest
  {
    ghost var waiting := conn.inbox;
    conn.SendAll(EncodeAscii(id));
    ghost var greeted := conn.outbox;
    var ack := conn.Recv(RawRecvSize);
    k1, k2, h := |ack|, 0, 0;
    assert waiting[..k1] == ack && waiting[k1..] == conn.inbox;
    if ack != Ack {
      return Failure(NotAcknowledged), k1, k2, h;
    }
    r, k2, h := SendContext(conn, context, share);
    ghost var st := Acknowledged(waiting[k1..], k2, h, context, share);
    assert conn.outbox == greeted + st.sent;
    assert greeted + st.sent == old(conn.outbox) + (EncodeAscii(id) + st.sent);
  }

  /** The context frame and what follows it: the part of a session that `Acknowledged` describes. */
  method SendContext(conn: Conn, context: seq<byte>, share: seq<byte>)
    returns (r: Result<seq<byte>, SessionError>, ghost k2: nat, ghost h: nat)
    requires conn.open
    modifies conn`inbox, conn`outbox
    ensures k2 + h <= |old(conn.inbox)|
    ensures |context| < FrameLimit ==> SubmitReads(old(conn.inbox), k2, h, share)
    ensures var st := Acknowledged(old(conn.inbox), k2, h, context, share);
      r == st.result && conn.outbox == old(conn.outbox) + st.sent && conn.inbox == st.rest
  {
    k2, h := 0, 0;
    var sent := SendLargeData(conn, context);
    if sent.Fail? {
      return Failure(Net(sent.error)), k2, h;
    }
    ghost var framed := conn.outbox;
    r, k2, h := SubmitShare(conn, share);
    ghost var st := Submit(old(conn.inbox), k2, h, share);
    assert conn.outbox == framed + st.sent;
    assert framed + st.sent == old(conn.outbox) + (Frame(context) + st.sent);
  }

  /** The second acknowledgement, the share frame and the reply: the part of a session that `Submit` describes. */
  method SubmitShare(conn: Conn, share: seq<byte>)
    returns (r: Result<seq<byte>, SessionError>, ghost k2: nat, ghost h: nat)
    requires conn.open
    modifies conn`inbox, conn`outbox
    ensures SubmitReads(old(conn.inbox), k2, h, share)
    ensures var st := Submit(old(conn.inbox), k2, h, share);
      r == st.result && conn.outbox == old(conn.outbox) + st.sent && conn.inbox == st.rest
  {
    ghost var waiting := conn.inbox;
    var ack := conn.Recv(RawRecvSize);
    k2, h := |ack|, 0;
    assert waiting[..k2] == ack && waiting[k2..] == conn.inbox;
    if ack != Ack {
      return Failure(NotAcknowledged), k2, h;
    }
    var sent := SendLargeData(conn, share);
    if sent.Fail? {
      return Failure(Net(sent.error)), k2, h;
    }
    var reply;
    ghost var header;
    reply, header := ReceiveLargeData(conn, ChunkSize);
    h := |header|;
    r := Lift(reply);
  }

  /** One `try`/`finally` block: the session, then closing the socket whatever happened. */
  method ServerSession(conn: Conn, id: string, context: seq<byte>, share: Vector, codec: Codec)
    returns (r: Result<Vector, SessionError>, ghost k1: nat, ghost k2: nat, ghost h: nat)
    requires conn.open && IsAscii(id)
    modifies conn
    ensures !conn.open
    ensures AckReads(old(conn.inbox), k1, k2, h, context, codec.serialize(share))
    ensures var q := Query(old(conn.inbox), k1, k2, h, id, context, share, codec);
      r == q.result && conn.outbox == old(conn.outbox) + q.sent && conn.inbox == q.rest
  {
    r, k1, k2, h := Converse(conn, id, context, share, codec);
    conn.Close();
  }

  /** The sizes delivered by the three reads of one client session. */
  datatype Reads = Reads(ack1: nat, ack2: nat, header: nat)

  /**
   * The whole client on two connected sockets: server 1's session first, then
   * server 2's, which is never started when the first fails; then the report.
   * `reads1` and `reads2` are the sizes the reads of the two sessions delivered.
   */
  method Run(conn1: Conn, conn2: Conn, probe: Vector, s2: Vector, context: seq<byte>, codec: Codec)
    returns (report: Result<Report, SessionError>, ghost reads1: Reads, ghost reads2: Reads)
    requires conn1 != conn2 && conn1.open && conn2.open && |s2| == |probe|
    modifies conn1, conn2
    ensures var (p1, p2) := Split(probe, s2);
      && AckReads(old(conn1.inbox), reads1.ack1, reads1.ack2, reads1.header, context, codec.serialize(Scale(ProbeScale, p1)))
      && var q1 := Query(old(conn1.inbox), reads1.ack1, reads1.ack2, reads1.header, BiometricId, context, Scale(ProbeScale, p1), codec);
      && !conn1.open && conn1.outbox == old(conn1.outbox) + q1.sent && conn1.inbox == q1.rest
      && (q1.result.Failure? ==>
            && report == Failure(q1.result.error)
            && conn2.open && conn2.inbox == old(conn2.inbox) && conn2.outbox == old(conn2.outbox))
      && (q1.result.Success? ==>
            && AckReads(old(conn2.inbox), reads2.ack1, reads2.ack2, reads2.header, context, codec.serialize(Scale(ProbeScale, p2)))
            && var q2 := Query(old(conn2.inbox), reads2.ack1, reads2.ack2, reads2.header, BiometricId, context, Scale(ProbeScale, p2), codec);
            && !conn2.open && conn2.outbox == old(conn2.outbox) + q2.sent && conn2.inbox == q2.rest
            && report == (if q2.result.Failure? then Failure(q2.result.error) else Conclude(q1.result.value, q2.result.value)))
  {
    var shares := Split(probe, s2);
    reads2 := Reads(0, 0, 0);
    var r1;
    ghost var k1, k2, h;
    r1, k1, k2, h := ServerSession(conn1, BiometricId, context, Scale(ProbeScale, shares.0), codec);
    reads1 := Reads(k1, k2, h);
    if r1.Failure? {
      return Failure(r1.error), reads1, reads2;
    }
    var r2;
    r2, k1, k2, h := ServerSession(conn2, BiometricId, context, Scale(ProbeScale, shares.1), codec);
    reads2 := Reads(k1, k2, h);
    if r2.Failure? {
      return Failure(r2.error), reads1, reads2;
    }
    report := Conclude(r1.value, r2.value);
  }
}
