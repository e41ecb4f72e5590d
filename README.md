# MHE: a verified model of privacy-preserving biometric matching

The MHE scripts compare one biometric probe with an enrolled template. Neither
compute server ever sees the whole template or the whole probe.

- The database splitter stores each template as two additive shares. It saves
  `t1 = template - s2` for server 1 and the random share `t2 = s2` for server 2.
- The client splits the probe the same way and scales both shares by 1000. It
  sends one share to each server, each over a TCP connection that uses
  length-prefixed framing.
- Server 2 answers `1000 * t2 - p2`; server 1 answers `t1 - p1`.
- The client adds the two partial differences. It reduces the sum of squares
  modulo the plaintext modulus 1032193, computes an "absolute sum" figure, and
  classifies the distance against the thresholds 20, 500 and 800. Each threshold
  is an inclusive upper bound.
- A performance script chooses the comparisons for an evaluation:
  - mated pairs within a subject's first five files;
  - the same number of non-mated probes, drawn from other subjects.

The model has the following modules:

- `Wrappers`: `Option`, `Result` and `Outcome`.
- `Transport`: the length-prefixed codec. It covers the 4-byte big-endian prefix
  and the bounded-chunk receive loop.
  - A connection is a class `Conn`. It holds the bytes still to be read from the
    peer, the bytes written, and whether it is open.
  - `Conn.Recv(n)` is nondeterministic: it returns 1 to `n` bytes from the front
    of the input, or nothing once the peer has closed.
- `Engine`: the homomorphic library as seen from the protocol.
  - Encryption is the identity on integer vectors.
  - `serialize`, `bfv_vector_from` and `context_from` are a `Codec` given as a
    parameter.
- `Shares`: vector algebra, additive splitting and recombination.
- `Combiner`: the squared distance modulo the plaintext modulus, the absolute-sum
  figure and the four-way classification.
- `Storage`: subject folders and `.npy` files, and the class `ShareStore` for a
  share database.
- `Session`: what the three programs share: the `ACK` token, the session errors,
  and `Step`, the visible effect of one session.
- `Server2`: the acknowledged responder session, as a specification function
  `Exchange` on the received bytes. A method on a `Conn` is proved to follow it.
- `Server1`: the streamlined all-framed responder, built the same way.
- `Client`: both handshakes, the sequence of the two sessions and the final
  report. It also has lemmas that compose the client with server 2 and show that
  server 1 cannot talk to it.
- `Evaluation`: the selection logic of the performance script (the files
  dictionary, the global pool, mated pairs and non-mated picks).
- `Splitter`: the mirroring of a database into two share stores.

The model keeps the following behaviour of the code:

- **The length prefix is one unchecked read.** Every `receive_large_data` takes
  the length from a single `recv(4)` and does not check how many bytes came
  back. A prefix that arrives in pieces is decoded from the bytes that came.
  At end of stream the empty read decodes as length 0, so an empty message is
  returned instead of an error. Every session in the model (`Server2.Exchange`,
  `Server1.Exchange`, `Client.Exchange`) receives its frames this way, through
  `Transport.ReceiveAsWritten`. Each session takes, as a ghost value, the
  number of bytes each of its prefix reads delivered. The honest-peer lemmas
  are stated for prefix reads that deliver all four bytes. `Transport.ReceiveFrame`
  reads the whole prefix first; it is the corrected receive of "Findings".
- **Sequential sessions.** The client runs server 1's session first. It starts
  server 2's only if server 1's session succeeded (`Client.Run`); nothing runs
  concurrently.
- **Incompatible protocols.** Server 1 expects a framed identifier, but the
  client talks to port 65431 with the acknowledged protocol and a raw
  identifier. `Client.Server1MisreadsIdentifier` shows the consequence, and
  `Client.UnscaledServer1Skews` shows that server 1's unscaled template share
  would not recombine with server 2's.
- **The plaintext modulus is small for the scale.** The probe shares are scaled
  by 1000. When both servers answer as server 2 does (`Client.HonestReport`),
  the squared distance is therefore scaled by 10^6. The plaintext modulus 1032193
  is then exceeded by any unscaled squared distance above 1. Integer-scheme
  arithmetic is modulo the plaintext modulus, so the decrypted squared distance
  wraps, and the label can be wrong: `Combiner.ModulusWrapMisreports` gives an
  input. This is kept as written
  (`Combiner.SquaredDistance`). It is not listed under "Findings" because the code
  does not show which modulus or scale was intended.

## Model

| member | source | states |
|---|---|---|
| Transport.Be32 | client.py:33 | the length prefix is always exactly four bytes |
| Transport.Be32Decodes | client.py:33-39 | reading the four prefix bytes back as a big-endian integer gives the length that was written, for every length below 2^32 |
| Transport.FromBigEndian | client.py:39 | `int.from_bytes(bs, 'big')` of any number of bytes: no bytes give 0, and n bytes never declare more than 256^n - 1 |
| Transport.EncodeAscii | client.py:79 | encoding an identifier gives one byte per character |
| Transport.DecodeAscii | server2.py:44 | decoding succeeds exactly when every byte is below 128, and then gives the identifier whose encoding is the bytes |
| Transport.AsciiRoundTrip | server2.py:44 | decoding the bytes of an encoded identifier gives the identifier back |
| Transport.SendLargeData | client.py:30-34 | a payload below 2^32 bytes is written as exactly its be32 length followed by the payload; a larger one raises the overflow error and writes nothing |
| Transport.Frame | client.py:30-34 | the bytes `send_large_data` writes for a payload: four prefix bytes that decode to its length, then the payload |
| Transport.ReadExactly | client.py:43-50 | the accumulation loop as a function of the waiting bytes: it yields exactly `n` bytes and leaves the rest when `n` bytes are there, and otherwise fails with "connection closed" having consumed everything |
| Transport.ReceiveAsWritten | client.py:37-50 | the receive as written, for a first `recv(4)` that delivered `k` bytes: it succeeds exactly when the big-endian value of those `k` bytes, whatever their number, is at most what follows, and then yields that many bytes |
| Transport.Conn.Recv | client.py:45 | a receive of n bytes takes between 1 and n bytes from the front of the input, or none once the peer has closed; the bytes taken plus the bytes left are the bytes that were waiting |
| Transport.Conn.SendAll | client.py:79 | the written bytes grow by exactly the data |
| Transport.Conn.Close | client.py:105 | the connection is closed |
| Transport.Listener.Accept | server2.py:40 | a fresh open connection that delivers the peer's bytes and has written nothing; the listener counts one more accepted connection |
| Transport.Listener.Close | server2.py:72 | the listener is closed |
| Transport.ReceiveExactly | client.py:43-50 | the receive loop returns exactly the next `size` bytes and leaves the rest unread when they are all there; otherwise it fails with "connection closed" having consumed everything. Its chunk requests never exceed the remaining count, and the loop keeps the buffer within `size` as an invariant |
| Transport.ReceiveLargeData | client.py:37-50 | the receive as written: the prefix is whatever one `recv(4)` delivered (0 to 4 bytes), decoded big-endian, and the loop then reads that many bytes |
| Transport.ReceiveFrame | client.py:37-50 | the corrected receive: it reads the prefix with the same exact-read loop and then the payload, so its result and the bytes it leaves unread are those of the frame specification |
| Transport.ReceiveFrameSpec | client.py:37-50 | the corrected receive as a function of the waiting bytes: it succeeds exactly when a whole prefix and the payload it declares are there, and then splits the bytes into prefix, payload and the rest; otherwise it fails with "connection closed" having consumed everything |
| Transport.ReceiveFrameRoundTrip | client.py:37-50 | a stream that starts with the frame of p yields exactly p and leaves the following bytes unread, whatever sizes the receives return |
| Transport.ReceiveFrameTruncated | client.py:46-47 | every strict prefix of a frame fails with "connection closed" and never yields a short buffer |
| Transport.ReceiveAsWrittenWholeHeader | client.py:39 | when the first `recv(4)` delivers all four bytes, the receive as written and the corrected one agree |
| Transport.ShortHeaderMisframes | client.py:39 | the frame of [7] whose prefix read returns two bytes is received as an empty message, and the rest of the prefix is left to be misread as payload, while the corrected receive yields [7] |
| Transport.ClosedStreamReadsAsEmpty | client.py:39 | on a closed stream the receive as written returns an empty message; the corrected one fails with "connection closed" |
| Shares.SumSq | spit_db_test.py:26 | the squared distance is never negative |
| Shares.Split | client.py:21-25 | `s1` has the length of `v`, the second share is the random share, and `s1[i] + s2[i] == v[i]` for every i |
| Shares.RandomShare | database_splitter.py:15 | the random share has the template's length |
| Shares.Recombination | spit_db_test.py:19-23 | `(t1 - p1) + (t2 - p2) == (t1 + t2) - (p1 + p2)` element-wise |
| Shares.SharedSquaredDistance | spit_db_test.py:19-26 | the squared distance computed from the shares is the sum of squares of `(t1 + t2) - probe`, so it does not depend on the random share; `compare_samples` (comparison_performance.py:26-62) computes the same figure before its square root |
| Shares.SumSqZeroIff | spit_db_test.py:26 | a sum of squares is 0 exactly when every component is 0 |
| Shares.SumSqScale | client.py:64-65 | scaling a difference by k multiplies its sum of squares by k² |
| Shares.SharedDistanceZeroIff | spit_db_test.py:23-26 | the shared squared distance is 0 exactly when `t1 + t2` equals the probe |
| Combiner.Classify | client.py:167-174 | each of the four labels is given exactly on its band: up to 20, above 20 up to 500, above 500 up to 800, above 800 |
| Combiner.ClassifySquared | client.py:163-174 | the same four bands, stated on squared distances and squared thresholds |
| Combiner.ClassifyBySquare | client.py:155-174 | for a non-negative distance whose square is the squared distance, classifying the squared value gives the label the distance gets |
| Combiner.ClassifyMonotone | client.py:167-174 | a larger distance never gets a closer label |
| Combiner.SquaredDistance | client.py:151-154 | the decrypted squared distance lies in [0, 1032193) and equals the exact sum of squares whenever that is below the modulus |
| Combiner.Finalize | client.py:144-174 | the report on two partial differences: a squared distance in [0, 1032193), exact when the true one is below the modulus; a Manhattan figure at most the true Manhattan distance of their sum; the label of the squared distance |
| Combiner.SumOfZeros | client.py:147 | the sum of an all-zero difference is 0 |
| Combiner.SumWithinManhattan | client.py:147-148 | the absolute value of the sum of the components is at most the sum of their absolute values |
| Combiner.ManhattanFigure | client.py:147-148 | the "Manhattan" figure is non-negative and never more than the true Manhattan distance |
| Combiner.ModulusWrapMisreports | client.py:154 | a scaled difference of 1000 in each of 32 components has exact squared distance 32,000,000 (no match) but decrypts to 2017 and is classified as a match |
| Storage.ShareStore.constructor | database_splitter.py:9-11 | a new share database has no folders and no files |
| Storage.ShareStore.MakeFolder | database_splitter.py:28-29 | the subject folder is added to the share database |
| Storage.ShareStore.Save | database_splitter.py:44-45 | saving a share sets exactly that key and leaves every other file as it was |
| Storage.ShareStore.Load | database_splitter.py:48-49 | loading gives the vector saved under the key |
| Server2.Difference | server2.py:60-64 | the reply vector has the probe share's length and is `1000 * t2[i] - p2[i]` in every component |
| Server2.Reply | server2.py:58-64 | the reply succeeds exactly when the payload deserialises as a vector and the subject has a stored share of that length, and is then `1000 * t2 - p2` |
| Server2.Acknowledged | server2.py:50-67 | after the first ACK: a failed session writes nothing or one ACK; a successful one writes the second ACK and one reply frame |
| Server2.Answer | server2.py:57-67 | the share receive and the reply: nothing is written unless the session succeeds, and then exactly one reply frame |
| Server2.Exchange | server2.py:43-67 | the session as a function of the client's bytes and of the sizes its raw read and its two `recv(4)` prefix reads delivered: a successful session writes ACK, ACK and exactly one frame holding the serialised reply |
| Server2.RepliesOnlyOnSuccess | server2.py:43-67 | a failed session has written nothing, one ACK or two ACKs, and never any part of a reply |
| Server2.HonestClient | server2.py:43-67 | for a client that sends the raw identifier, the context frame and the share frame, when the identifier arrives in one read and each prefix read delivers all four bytes, the server sends ACK, ACK and one frame of `1000 * t2 - p2` for the stored share of that subject, and leaves the following bytes unread |
| Server2.Respond | server2.py:43-67 | the session's outcome, the bytes it writes and the bytes it leaves unread are those of `Server2.Exchange`, for the sizes the raw identifier read and the two prefix reads delivered |
| Server2.Serve | server2.py:39-72 | exactly one connection is accepted and the session of `Server2.Exchange` runs on it; afterwards the connection and the listener are both closed |
| Server1.Difference | server1.py:41-43 | the reply vector has the probe share's length and is `t1[i] - p1[i]` in every component, with no scaling |
| Server1.Reply | server1.py:37-43 | the reply succeeds exactly when the payload deserialises as a vector and the subject has a stored share of that length, and is then `t1 - p1` |
| Server1.Framed | server1.py:35-47 | after the identifier: nothing is written unless the session succeeds, and then exactly one reply frame |
| Server1.Answer | server1.py:37-47 | the share receive and the reply: nothing is written unless the session succeeds, and then exactly one reply frame |
| Server1.Exchange | server1.py:34-47 | the session as a function of the client's bytes and of the sizes its three `recv(4)` prefix reads delivered: a failed session writes nothing; a successful one writes exactly one frame holding the serialised reply |
| Server1.HonestClient | server1.py:34-47 | for a client that sends the identifier, the context and the share as three frames, when each prefix read delivers all four bytes, the server sends one frame of `t1 - p1` for the stored share and leaves the following bytes unread |
| Server1.Respond | server1.py:34-47 | the session's outcome, the bytes it writes and the bytes it leaves unread are those of `Server1.Exchange`, for the sizes the three prefix reads delivered |
| Server1.Serve | server1.py:30-57 | exactly one connection is accepted and the session of `Server1.Exchange` runs on it; afterwards both sockets are closed |
| Client.AbortsWithoutAck | client.py:82-96 | if the first acknowledgement read is not exactly ACK, only the identifier has been sent; if the second is not, only the identifier and the context; the share is never sent |
| Client.Exchange | client.py:79-102 | the session as a function of the server's bytes and of the sizes of the two ACK reads and the reply's prefix read: the share frame is sent exactly when both replies were exactly ACK (and both payloads fit a frame); otherwise the session fails having sent the identifier, or the identifier and the context frame. A received reply has the length its prefix read declared |
| Client.Query | client.py:99-102 | a session followed by `bfv_vector_from`: it succeeds exactly when the session did and the reply deserialises, and writes and leaves unread what the session did |
| Client.Conclude | client.py:144-174 | adding the two replies succeeds exactly when they have one length, and then reports the reduced squared distance of their sum and its label |
| Client.ClosedReplyReadsAsEmpty | client.py:102 | a server that acknowledges twice and then closes gives the client an empty reply and a successful session, not a connection error |
| Client.HonestServer | client.py:79-102 | against a server that sends ACK, ACK and a reply frame, when each ACK is read whole and the reply's prefix read delivers all four bytes, the client sends the identifier, the context frame and the share frame, and receives exactly the reply |
| Client.ClientAndServer2Agree | client.py:108-137 | the bytes the client sends to server 2 are those on which server 2 computes `1000 * t2 - p2`, and the client receives that vector from server 2's answer with nothing left over, when every read delivers a whole message or a whole prefix |
| Client.HonestServersRecombine | client.py:144 | when both servers answer as server 2 does, the sum of the two replies is `1000 * (t1 + t2 - probe)` element-wise, whatever the random share |
| Client.UnscaledServer1Skews | server1.py:41-43 | with server 1's unscaled difference, the sum is `t1 + 1000 * t2 - 1000 * probe`; it equals the scaled difference exactly when server 1's share is all zeros |
| Client.HonestReport | client.py:144-167 | when both servers answer as server 2 does, each with its share of the template: the reported squared distance is `10^6` times the exact one, reduced modulo 1032193, and when the template shares add up to the probe the report is distance 0, figure 0, "Identical fingerprints" |
| Client.Server1MisreadsIdentifier | server1.py:20-26 | the raw identifier "3567" read as a prefix declares 859,125,303 bytes (at least 51 whatever size the `recv(4)` gets), more than follow, and the client sends nothing more before an ACK. In the program both sides then block in `recv`; with a peer that closes, server 1 fails with "connection closed" having sent nothing, and the client finds no ACK |
| Client.IdentifierAsLength | client.py:56 | the first 1 to 4 bytes of "3567", read as a big-endian length, declare at least 51 bytes, and all four declare 859,125,303 |
| Client.Converse | client.py:74-102 | one session's outcome, bytes written and bytes left unread are those of `Client.Query`, for the sizes the two acknowledgement reads and the reply's prefix read delivered |
| Client.Handshake | client.py:79-102 | the identifier, the two ACK reads, the context and share frames and the reply's receive write, read and return what `Client.Exchange` says |
| Client.ServerSession | client.py:74-105 | the same as `Client.Converse`, and the socket is closed afterwards whatever happened |
| Client.Run | client.py:61-174 | server 1's session runs first with the share `1000 * (probe - s2)`. If it fails, the comparison fails with its error and server 2's socket is untouched. Otherwise server 2's session runs with `1000 * s2`, and the report combines both replies or carries server 2's error |
| Evaluation.NpyFilesMembers | comparison_performance.py:77 | a folder's glob keeps exactly its files whose names end in `.npy` and do not start with a dot |
| Evaluation.FilesDictLookup | comparison_performance.py:73-78 | the files dictionary has a key exactly for each subject folder (plain files are skipped) and maps it to that folder's `.npy` files |
| Evaluation.BuildFilesDict | comparison_performance.py:73-78 | the loop builds exactly the files dictionary |
| Evaluation.GlobalPoolMembers | comparison_performance.py:81 | the global pool holds exactly the (subject, file) pairs of the dictionary |
| Evaluation.OthersMembers | comparison_performance.py:108 | the other-files list holds exactly the pool entries of every other subject |
| Evaluation.Shuffle | comparison_performance.py:109 | the shuffled list is a permutation of the list |
| Evaluation.MatedPairs | comparison_performance.py:88-101 | a subject's mated comparisons are exactly the 10 index pairs `0 <= i < j < 5` of its first five files: template i, probe j |
| Evaluation.MatedComparisons | comparison_performance.py:91-101 | the two nested loops produce exactly the mated comparisons, in order |
| Evaluation.NonMatedComparisons | comparison_performance.py:112-118 | one comparison per chosen probe, in order, all against the same template |
| Evaluation.Totals | comparison_performance.py:103-130 | the mated total is 10 per subject with at least five files, and there are never more non-mated comparisons than mated ones |
| Evaluation.MatedOverMembers | comparison_performance.py:83-101 | every mated comparison belongs to a subject with at least five files and pairs two of its first five files, i < j, with its own file as the probe |
| Evaluation.SelectComparisons | comparison_performance.py:83-122 | the mated list is the concatenation of the subjects' mated pairs, 10 per subject with at least five files, and subjects with fewer contribute nothing. The non-mated count is `min(10, number of other files)` summed over those subjects. Every non-mated comparison uses the subject's first file as template and a pool entry of another subject as probe |
| Splitter.TemplateKeys | database_splitter.py:20-32 | every template key is a `.npy` file of a subject folder of the input, and every such file has a key |
| Splitter.FolderTemplateKeys | database_splitter.py:32 | the templates of a folder are keyed exactly by its `.npy` files, under its subject |
| Splitter.SplitFolder | database_splitter.py:32-54 | after one folder, both stores gained exactly that folder's template keys; the two shares under each key have the template's length and add up to it; every other entry is unchanged; no mismatch warning is raised |
| Splitter.SplitDatabase | database_splitter.py:20-54 | both stores gain a folder per subject and exactly the same set of new (subject, file) keys; server 1's and server 2's shares under each key add up to that template; other entries are unchanged; the mismatch warning is never printed |

## Left out

- Server2.HonestClient: stated for an identifier that arrives in one read and prefix reads that each deliver all four bytes. With a shorter prefix read the program misframes, as "Findings" shows.
- Server1.HonestClient: stated for prefix reads that each deliver all four bytes. With a shorter one the program misframes, as "Findings" shows.
- Client.HonestServer: stated for ACK reads that each get one whole ACK and a reply prefix read that delivers all four bytes. Other read sizes fail the handshake or misframe the reply.
- Client.ClientAndServer2Agree: stated for the read sizes of `Server2.HonestClient` and `Client.HonestServer`, for the same reasons.
- Sockets: creating, binding, listening and connecting are not modelled, nor ports or socket options.
  - `Transport.Conn.SendAll` never fails. In the program `sendall` can raise, for example when the peer has already closed the connection.
  - A connection is given the peer's whole byte stream up front, and the peer closes once that stream is drained.
  - So a peer that would wait forever, as server 1 does for a frame the client never sends, shows up as the end of the stream.
- Homomorphic encryption: context creation, key generation, encrypting and decrypting are foreign library code.
  - Ciphertexts are replaced by the integer vectors they encrypt, and the scheme's arithmetic by exact element-wise arithmetic.
  - Serialisation, deserialisation and context parsing are parameters (`Engine.Codec`). The context bytes the client sends are a parameter too.
  - The approximate CKKS scheme of server 1 is modelled as exact arithmetic. The performance script encrypts nothing (its encryption calls are commented out); it computes in float64, which the "Floating point" line covers.
- Combiner.ManhattanFigure: it is the absolute value of the exact sum of the combined difference. In the integer scheme the decrypted sum is already reduced modulo the plaintext modulus 1032193. So when the exact sum is large (600 entries of 1000 give 600000, more than half the modulus) the program prints a different residue. The model does not capture that wrap.
- Floating point: random float shares, float64 conversion, the `allclose` tolerance and `sqrt` are not modelled.
  - Vectors are integers.
  - Classification is on squared distances with squared thresholds; `Combiner.ClassifyBySquare` shows that this agrees with classifying the distance.
- Shares.RandomShare: states only the shape of the random share; its values are left unconstrained, as the random generator's are. The body returns one such vector.
- Evaluation.Shuffle: states only that the result is a permutation; the body returns the list in its original order, as one choice among the permutations.
- Evaluation.SelectComparisons: the non-mated comparisons are stated by their count and by properties of each one, not as the first K entries of one permutation of the other files per subject. The shuffle is nondeterministic.
- File system: loading and saving `.npy` files, paths and directory creation are not modelled.
  - A database is a list of directory entries, and a share database is a map from (subject, file) to a vector.
  - A missing template file is the error `UnknownSubject`.
  - Directory listing order (`sorted`, `iterdir`, `glob`) is taken as the order of the given list.
- Scoring in the performance script: loading each probe and computing its score are not modelled in `Evaluation.SelectComparisons`. So are writing the score files. A score is `Shares.SharedSquaredDistance` of the loaded vectors before the square root.
- The `K == 0` branch of the performance script (comparison_performance.py:104-105) cannot be taken, because K is always 10 (`Evaluation.MatedPairs`). It is not modelled.
- Text encoding: UTF-8 encoding and decoding of identifiers is modelled for ASCII only. A byte of 128 or above fails to decode.
- Timing, printing and `exit()` are not modelled. `exit()` after a missing acknowledgement is the session error `NotAcknowledged`, which stops the client.
- Concurrency: nothing runs concurrently in the code; the client's two sessions are sequential.

## Findings

| source | as written | input that shows it | evidently intended | confidence | as-written member | corrected member |
|---|---|---|---|---|---|---|
| client.py:39 | the length prefix is taken from a single `recv(4)` whose size is not checked, so a prefix that arrives in pieces is decoded from the bytes that came; server2.py:26 and server1.py:21 do the same | the frame `[0, 0, 0, 1, 7]` whose first read returns 2 bytes: the message is received as empty and `[0, 1, 7]` is left to be misread as the next frame | read all four prefix bytes before decoding the length, as the payload loop does | not executed | Transport.ReceiveLargeData, Transport.ShortHeaderMisframes | Transport.ReceiveFrame, Transport.ReceiveFrameRoundTrip |
| client.py:39 | when the peer closes before any prefix byte, the empty read decodes as length 0 and an empty message is returned | the empty stream: the receive as written returns an empty message | fail with "connection closed" rather than return a message | not executed | Transport.ReceiveLargeData, Transport.ClosedStreamReadsAsEmpty | Transport.ReceiveFrame, Transport.ReceiveFrameTruncated |
