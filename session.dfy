/** What the three session programs (client, server 1, server 2) have in common. */
module Session {
  import opened Wrappers
  import opened Transport

  /** `b"ACK"`. */
  const Ack: seq<byte> := [65, 67, 75]

  /** The size of the single `recv` that reads a raw identifier or an acknowledgement. */
  const RawRecvSize: nat := 1024

  datatype SessionError =
    | Net(cause: NetError)  // a framing or connection error of the transport codec
    | NotAcknowledged       // the reply to a step was not exactly b"ACK"
    | BadIdentifier         // the identifier bytes do not decode
    | MalformedContext      // the context bytes are not a serialised context
    | MalformedCiphertext   // the payload does not deserialise as a vector
    | UnknownSubject        // no template file for the identifier
    | ShapeMismatch         // vectors of different lengths

  /**
   * The visible effect of one session on its connection: its outcome, the bytes it
   * wrote, and the received bytes it left unread.
   */
  datatype Step<T> = Step(result: Result<T, SessionError>, sent: seq<byte>, rest: seq<byte>)

  /** The transport error of a failed receive, as a session error. */
  function Lift(r: Result<seq<byte>, NetError>): Result<seq<byte>, SessionError>
  {
    match r
    case Success(v) => Success(v)
    case Failure(e) => Failure(Net(e))
  }
}
