/**
 * The transport codec shared by the client and both servers: every message is a
 * 4-byte big-endian length followed by that many payload bytes, carried over a
 * stream socket that does not keep message boundaries.
 *
 * A socket is modelled by `Conn`: the bytes the peer has written and this end has
 * not yet read, and the bytes this end has written. `Recv(n)` is the socket's
 * `recv`: it is free to hand back any number of the waiting bytes from 1 to n,
 * and hands back nothing only once the peer has closed and every byte it sent
 * has been read.
 */
module Transport {
  import opened Wrappers

  type byte = b: int | 0 <= b < 256

  /** 2^32: the first length that `int.to_bytes(4, 'big')` cannot encode. */
  const FrameLimit: nat := 0x1_0000_0000

  /** The width of the length prefix. */
  const HeaderSize: nat := 4

  datatype NetError =
    | ConnectionClosed  // the peer closed before the declared length arrived
    | FrameTooLarge     // the payload length does not fit in 4 bytes (OverflowError)

  // ---------------------------------------------------------------------------
  // Integers and identifiers on the wire
  // ---------------------------------------------------------------------------

  /** 256^n: one more than the largest value n bytes can hold. */
  function Radix(n: nat): nat
  {
    if n == 0 then 1 else 256 * Radix(n - 1)
  }

  /**
   * `int.from_bytes(bs, 'big')`, for any number of bytes; no bytes give 0, and
   * n bytes never declare more than 256^n - 1 (at most 2^32 - 1 for a prefix).
   */
  function FromBigEndian(bs: seq<byte>): (r: nat)
    ensures r < Radix(|bs|)
  {
    if bs == [] then 0 else FromBigEndian(bs[..|bs| - 1]) * 256 + bs[|bs| - 1]
  }

  /** `n.to_bytes(4, 'big')`. */
  function Be32(n: nat): (r: seq<byte>)
    requires n < FrameLimit
    ensures |r| == HeaderSize
  {
    var q1 := n / 256;
    var q2 := q1 / 256;
    [q2 / 256, q2 % 256, q1 % 256, n % 256]
  }

  /** Decoding a 4-byte prefix gives back the length that was encoded. */
  lemma Be32Decodes(n: nat)
    requires n < FrameLimit
    ensures FromBigEndian(Be32(n)) == n
  {
    var q1 := n / 256;
    var q2 := q1 / 256;
    var a: byte, b: byte, c: byte, d: byte := q2 / 256, q2 % 256, q1 % 256, n % 256;
    FromBigEndianAppend([], a);
    assert [] + [a] == [a];
    FromBigEndianAppend([a], b);
    assert [a] + [b] == [a, b];
    assert FromBigEndian([a, b]) == q2;
    FromBigEndianAppend([a, b], c);
    assert [a, b] + [c] == [a, b, c];
    assert FromBigEndian([a, b, c]) == q1;
    FromBigEndianAppend([a, b, c], d);
    assert [a, b, c] + [d] == Be32(n);
  }

  /** Appending one byte shifts the value up by one byte. */
  lemma FromBigEndianAppend(bs: seq<byte>, b: byte)
    ensures FromBigEndian(bs + [b]) == FromBigEndian(bs) * 256 + b
  {
    assert (bs + [b])[..|bs|] == bs;
  }

  predicate IsAscii(s: string)
  {
    forall i :: 0 <= i < |s| ==> s[i] as int < 128
  }

  /** `str.encode()` of an identifier made of ASCII characters. */
  function EncodeAscii(s: string): (r: seq<byte>)
    requires IsAscii(s)
    ensures |r| == |s|
  {
    seq(|s|, i requires 0 <= i < |s| => s[i] as int)
  }

  /**
   * `bytes.decode()`, restricted to ASCII: it succeeds exactly when no byte is
   * 128 or more, and then gives the identifier whose encoding is `bs`.
   */
  function DecodeAscii(bs: seq<byte>): (r: Option<string>)
    ensures r.Some? <==> forall i :: 0 <= i < |bs| ==> bs[i] < 128
    ensures r.Some? ==> IsAscii(r.value) && EncodeAscii(r.value) == bs
  {
    if bs == [] then Some("")
    else if bs[0] >= 128 then None
    else match DecodeAscii(bs[1..])
      case None => None
      case Some(rest) => Some([bs[0] as char] + rest)
  }

  /** Decoding an encoded identifier gives the identifier back. */
  lemma {:induction false} AsciiRoundTrip(s: string)
    requires IsAscii(s)
    ensures DecodeAscii(EncodeAscii(s)) == Some(s)
  {
    if s != [] {
      assert IsAscii(s[1..]);
      assert EncodeAscii(s)[1..] == EncodeAscii(s[1..]);
      AsciiRoundTrip(s[1..]);
      assert [s[0]] + s[1..] == s;
    }
  }

  // ---------------------------------------------------------------------------
  // Frames
  // ---------------------------------------------------------------------------

  /** What `send_large_data` writes for one payload: a prefix that decodes to its length, then the payload. */
  function Frame(payload: seq<byte>): (r: seq<byte>)
    requires |payload| < FrameLimit
    ensures |r| == HeaderSize + |payload| && r[HeaderSize..] == payload
    ensures FromBigEndian(r[..HeaderSize]) == |payload|
  {
    Be32Decodes(|payload|);
    Be32(|payload|) + payload
  }

  /** `k` is a byte count that one `recv(n)` may deliver when `waiting` is unread. */
  predicate IsChunk(waiting: seq<byte>, n: nat, k: nat)
  {
    if waiting == [] then k == 0 else 1 <= k <= n && k <= |waiting|
  }

  /**
   * The loop of receive_large_data, read as a function of the waiting bytes: it
   * delivers exactly `n` bytes and leaves the rest unread, or, if the peer closes
   * first, consumes everything and raises.
   */
  function ReadExactly(waiting: seq<byte>, n: nat): (r: (Result<seq<byte>, NetError>, seq<byte>))
    ensures r.0.Success? <==> n <= |waiting|
    ensures r.0.Success? ==> |r.0.value| == n && |r.1| == |waiting| - n
    ensures r.0.Failure? ==> r.0.error == ConnectionClosed && r.1 == []
  {
    if n <= |waiting| then (Success(waiting[..n]), waiting[n..])
    else (Failure(ConnectionClosed), [])
  }

  /**
   * receive_large_data as written: the first `recv(4)` delivered `k` bytes, whose
   * big-endian value, whatever their number, is taken as the payload length.
   */
  function ReceiveAsWritten(waiting: seq<byte>, k: nat): (r: (Result<seq<byte>, NetError>, seq<byte>))
    requires k <= |waiting|
    ensures r.0.Success? <==> k + FromBigEndian(waiting[..k]) <= |waiting|
    ensures r.0.Success? ==> |r.0.value| == FromBigEndian(waiting[..k]) && |r.1| == |waiting| - k - |r.0.value|
    ensures r.0.Failure? ==> r.0.error == ConnectionClosed && r.1 == []
  {
    ReadExactly(waiting[k..], FromBigEndian(waiting[..k]))
  }

  /** The intended receive: read a whole 4-byte prefix, then the payload it declares. */
  function ReceiveFrameSpec(waiting: seq<byte>): (r: (Result<seq<byte>, NetError>, seq<byte>))
    ensures r.0.Success? <==> HeaderSize <= |waiting| && HeaderSize + FromBigEndian(waiting[..HeaderSize]) <= |waiting|
    ensures r.0.Success? ==> waiting == waiting[..HeaderSize] + r.0.value + r.1
    ensures r.0.Failure? ==> r.0.error == ConnectionClosed && r.1 == []
  {
    var (header, rest) := ReadExactly(waiting, HeaderSize);
    match header
    case Failure(e) => (Failure(e), rest)
    case Success(h) => ReadExactly(rest, FromBigEndian(h))
  }

  /** A stream that starts with a frame of `p` yields exactly `p` and leaves what follows unread. */
  lemma ReceiveFrameRoundTrip(p: seq<byte>, rest: seq<byte>)
    requires |p| < FrameLimit
    ensures ReceiveFrameSpec(Frame(p) + rest) == (Success(p), rest)
  {
    var s := Frame(p) + rest;
    assert s[..HeaderSize] == Be32(|p|);
    assert s[HeaderSize..] == p + rest;
    Be32Decodes(|p|);
    assert (p + rest)[..|p|] == p && (p + rest)[|p|..] == rest;
  }

  /** When the first `recv(4)` happens to deliver all four bytes, the code as written does the intended thing. */
  lemma ReceiveAsWrittenWholeHeader(waiting: seq<byte>)
    requires HeaderSize <= |waiting|
    ensures ReceiveAsWritten(waiting, HeaderSize) == ReceiveFrameSpec(waiting)
  {
  }

  /** A frame cut short anywhere, in its prefix or in its payload, is refused rather than returned short. */
  lemma ReceiveFrameTruncated(p: seq<byte>, cut: nat)
    requires |p| < FrameLimit && cut < |Frame(p)|
    ensures ReceiveFrameSpec(Frame(p)[..cut]) == (Failure(ConnectionClosed), [])
  {
    var t := Frame(p)[..cut];
    if HeaderSize <= cut {
      assert t[..HeaderSize] == Be32(|p|);
      Be32Decodes(|p|);
    }
  }

  /**
   * The code as written misreads a frame whose prefix arrives in pieces: the
   * frame of [7] is [0, 0, 0, 1, 7]; when the first `recv(4)` delivers only two
   * bytes, their value 0 is taken as the length, an empty payload is returned,
   * and [0, 1, 7] is left to be misread as the next message.
   */
  lemma ShortHeaderMisframes()
    ensures Frame([7]) == [0, 0, 0, 1, 7]
    ensures IsChunk(Frame([7]), HeaderSize, 2)
    ensures ReceiveAsWritten(Frame([7]), 2) == (Success([]), [0, 1, 7])
    ensures ReceiveFrameSpec(Frame([7])) == (Success([7]), [])
  {
    ReceiveFrameRoundTrip([7], []);
    assert Frame([7]) + [] == Frame([7]);
    var w: seq<byte> := [0, 0, 0, 1, 7];
    FromBigEndianAppend([], 0);
    assert [] + [0] == [0];
    FromBigEndianAppend([0], 0);
    assert [0] + [0] == [0, 0] == w[..2];
  }

  /**
   * The code as written takes a connection closed before any prefix byte as a
   * complete empty message, where the intended receive raises.
   */
  lemma ClosedStreamReadsAsEmpty()
    ensures IsChunk([], HeaderSize, 0)
    ensures ReceiveAsWritten([], 0) == (Success([]), [])
    ensures ReceiveFrameSpec([]) == (Failure(ConnectionClosed), [])
  {
  }

  // ---------------------------------------------------------------------------
  // Sockets
  // ---------------------------------------------------------------------------

  /** One end of a connected stream socket. */
  class Conn {
    /** Bytes the peer has written and this end has not read; the peer closes once they are all read. */
    var inbox: seq<byte>
    /** Every byte this end has written, in order. */
    var outbox: seq<byte>
    var open: bool

    constructor (incoming: seq<byte>)
      ensures inbox == incoming && outbox == [] && open
    {
      inbox, outbox, open := incoming, [], true;
    }

    /** `sock.recv(n)`: some of the waiting bytes, at most n, or none once the peer has closed. */
    method Recv(n: nat) returns (chunk: seq<byte>)
      requires open && 0 < n
      modifies this`inbox
      ensures IsChunk(old(inbox), n, |chunk|)
      ensures old(inbox) == chunk + inbox
    {
      if inbox == [] {
        chunk := [];
      } else {
        var k :| 1 <= k <= n && k <= |inbox|;
        chunk, inbox := inbox[..k], inbox[k..];
        assert chunk + inbox == old(inbox);
      }
    }

    /** `sock.sendall(data)`. */
    method SendAll(data: seq<byte>)
      requires open
      modifies this`outbox
      ensures outbox == old(outbox) + data
    {
      outbox := outbox + data;
    }

    /** `sock.close()`; closing twice is harmless. */
    method Close()
      modifies this`open
      ensures !open
    {
      open := false;
    }
  }

  /** A listening socket: `socket()`, `bind`, `listen(1)`, then `accept` and `close`. */
  class Listener {
    var open: bool
    /** The number of connections accepted so far. */
    var accepted: nat

    constructor ()
      ensures open && accepted == 0
    {
      open, accepted := true, 0;
    }

    /** `accept()`: a fresh connection on which the client will send `incoming`. */
    method Accept(incoming: seq<byte>) returns (c: Conn)
      requires open
      modifies this`accepted
      ensures fresh(c) && c.inbox == incoming && c.outbox == [] && c.open
      ensures accepted == old(accepted) + 1
    {
      c := new Conn(incoming);
      accepted := accepted + 1;
    }

    method Close()
      modifies this`open
      ensures !open
    {
      open := false;
    }
  }

  /** `send_large_data`: the 4-byte length, then the payload; a payload of 2^32 bytes or more raises before anything is written. */
  method SendLargeData(conn: Conn, data: seq<byte>) returns (sent: Outcome<NetError>)
    requires conn.open
    modifies conn`outbox
    ensures |data| < FrameLimit ==> sent == Pass && conn.outbox == old(conn.outbox) + Frame(data)
    ensures FrameLimit <= |data| ==> sent == Fail(FrameTooLarge) && conn.outbox == old(conn.outbox)
  {
    if |data| >= FrameLimit {
      return Fail(FrameTooLarge);
    }
    conn.SendAll(Be32(|data|));
    conn.SendAll(data);
    sent := Pass;
  }

  /**
   * The accumulation loop of receive_large_data: each request asks for at most
   * `min(chunkSize, size - len(data))` bytes, so the buffer never outgrows `size`;
   * an empty `recv` before it is full raises ConnectionError.
   */
  method ReceiveExactly(conn: Conn, size: nat, chunkSize: nat) returns (r: Result<seq<byte>, NetError>)
    requires conn.open && 0 < chunkSize
    modifies conn`inbox
    ensures (r, conn.inbox) == ReadExactly(old(conn.inbox), size)
  {
    var data: seq<byte> := [];
    while |data| < size
      invariant |data| <= size
      invariant old(conn.inbox) == data + conn.inbox
      decreases size - |data|
    {
      var chunk := conn.Recv(Min(chunkSize, size - |data|));
      if chunk == [] {
        return Failure(ConnectionClosed);
      }
      data := data + chunk;
    }
    assert old(conn.inbox)[..size] == data;
    r := Success(data);
  }

  /**
   * receive_large_data as written: a single `recv(4)` whose result, short or
   * empty, is decoded as the length, then the accumulation loop. `header` is what
   * that first `recv` delivered.
   */
  method ReceiveLargeData(conn: Conn, chunkSize: nat) returns (r: Result<seq<byte>, NetError>, ghost header: seq<byte>)
    requires conn.open && 0 < chunkSize
    modifies conn`inbox
    ensures IsChunk(old(conn.inbox), HeaderSize, |header|) && header == old(conn.inbox)[..|header|]
    ensures (r, conn.inbox) == ReceiveAsWritten(old(conn.inbox), |header|)
  {
    var prefix := conn.Recv(HeaderSize);
    header := prefix;
    assert old(conn.inbox)[|header|..] == conn.inbox;
    r := ReceiveExactly(conn, FromBigEndian(prefix), chunkSize);
  }

  /** The receive with the prefix read in full, by the same loop as the payload. */
  method ReceiveFrame(conn: Conn, chunkSize: nat) returns (r: Result<seq<byte>, NetError>)
    requires conn.open && 0 < chunkSize
    modifies conn`inbox
    ensures (r, conn.inbox) == ReceiveFrameSpec(old(conn.inbox))
  {
    var header := ReceiveExactly(conn, HeaderSize, chunkSize);
    if header.Failure? {
      return Failure(header.error);
    }
    r := ReceiveExactly(conn, FromBigEndian(header.value), chunkSize);
  }
}
