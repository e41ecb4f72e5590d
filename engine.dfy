/**
 * The homomorphic library, seen from the protocol: ciphertexts and contexts are
 * opaque byte strings. Encryption is replaced by the identity on plaintext
 * integer vectors (the integer scheme's element-wise add, subtract and multiply
 * become those of Shares), and serialisation is whatever pair of functions the
 * library provides.
 */
module Engine {
  import opened Wrappers
  import Transport

  /**
   * `serialize()` and `bfv_vector_from(context, bytes)` of one vector, and which
   * byte strings `context_from` accepts as a serialised context.
   */
  datatype Codec = Codec(
    serialize: seq<int> -> seq<Transport.byte>,
    deserialize: seq<Transport.byte> -> Option<seq<int>>,
    isContext: seq<Transport.byte> -> bool)

  /** Deserialising what was serialised gives the vector back. */
  ghost predicate Lossless(c: Codec)
  {
    forall v :: c.deserialize(c.serialize(v)) == Some(v)
  }
}
