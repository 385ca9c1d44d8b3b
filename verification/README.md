# Signal server in LPC: proofs of its protocol logic

A Dafny model of the server's own logic, and proofs about it. Hashes, the curve, ASN arithmetic, the
key-value store, TLS and HTTP are libraries of the platform; they appear as parameters with the laws
they are used for, or as plain maps. Each object whose methods change it is a class, proved against
functions on values; what the server promises is then proved about those functions, for every input,
every order of events and every run.

- **Zero-knowledge proofs** (`Statement`, `StatementObject`, `Sigma`, `StatementProofs`,
  `StatementLimits`, `TamperedProof`, `Proof`, `Sho`, `Scalar`, `Ristretto`). A statement compiles
  named linear equations to index bytes, proves them by Fiat-Shamir and verifies proofs (Boneh and
  Shoup, section 19.5.3; scalars as in section 4.4 of RFC 9496). What a verdict depends on is stated
  down to the strings that HMAC is given. Completeness is proved from named arguments to
  bytes and back, for whatever statement any calls of `add` leave behind; special soundness gives a
  witness for every added equation, and proofs are simulated without one. The point group is a
  record of operations; its laws are hypotheses, shown to hold together.
- **Credential issuance** (`KeyPair`, `Issuance`, `AuthCredential`, `ProfileKeyRequest`,
  `ProfileKeyResponse`). Algebraic MACs, one issued blind: issuing never fails, its proofs verify,
  and the client unblinds the MAC it asked for, read from the bytes it was sent.
- **RS256** (`Rs256`, `NumberTheory`). Padding and signing by Chinese remainders; a signature raised
  to the public exponent reads as the digest of the message. Fermat's theorem and the remainder
  theorem are proved from the definitions.
- **Codecs** (`StringBuffers`, `Proto`, `ProtoParse`, `WebSocketCodec`, `WebSocketReceive`,
  `WebSocketTransfer`). Varints, strings, WebSocket messages and their header lines round trip,
  and how a text is cut into chunks makes no difference.
- **Event-driven objects** (`Endpoint`, `EndpointRuns`, `EndpointResults`, `Mailboxes`,
  `MailboxRuns`, `FcmSender`, `FcmRuns`, `Discovery`, `DiscoveryRequest`). A run is any sequence of
  possible events; what is scheduled is a bag from which anything may run next.
- **Indexes** (`RestApi`, `Phone`, `Directory`, `Accounts`, `PreKeys`, `PreKeyRuns`). Each agrees
  with the simple thing it stands for: a list of patterns, the numbers themselves, a scan, the
  stored map.

## Where the code does less than one might expect

Where members are named, they state the exact condition or give an input or a run that shows it.

- A statement may hold 256 scalars, but the blob of a proof with 256 responses is refused
  (`Proofs.BlobRoundTrip`, `StatementProofs.ProverConvincesVerifier`,
  `StatementLimits.FullStatementRejected`).
- `rs256Sign` signs for any modulus of 54 bytes or more. Section 9.2 of RFC 8017 asks for at least
  eight bytes of padding, so for 62 (`Rs256.PaddingExactly`). The proofs follow the code.
- A delivery that the client answers with a code other than 200 stalls the endpoint for good
  (`EndpointResults.StalledExactly`, `EndpointResults.StalledForever`,
  `EndpointResults.RefusalReached`).
- When a delivery has to send while the WebSocket is closing, the continuation is stored before
  sending fails. The endpoint is then ready with a queue (`EndpointResults.InvariantUntilFailure`,
  `EndpointResults.FailureReached`). A client that answers requests it was never sent could have an
  envelope acknowledged out of turn, another one lost, and an empty queue indexed
  (`EndpointResults.InOrderExactly`, `EndpointResults.OutOfTurnReached`,
  `EndpointResults.OnlyEmptyDeliveryFaults`, `EndpointResults.FaultReached`); the contexts of these
  requests are eight random bytes each, so it would have to guess two of them.
- An envelope that `send` has handed out stays stored under its guid until it expires, so a
  closing endpoint that hands it back is refused, with its whole batch, until all of it has expired
  (`MailboxRuns.TakenBackExactly`, `MailboxRuns.NotTakenBack`). A mailbox that is emptied
  while one of its guids is stored with another envelope hands out that one instead
  (`MailboxRuns.HandedOutExactly`, `MailboxRuns.HandedOutTwice`). Guids are drawn by
  `uuid::generate` in `src/lib/Envelope.c`, so this takes a collision.
- When the service account is rejected or the token response cannot be read, the push sender
  stops with its queue full. When the response can be read and has no token in it, the sender
  connects, and again after every close, but the header of its request is an error: nil is added to
  a string (`FcmRuns.StuckExactly`, `FcmRuns.StoppedForever`, `FcmRuns.FatalReached`,
  `FcmRuns.TokenlessReached`).
- A request segment `{}` is a literal and is not captured (`RestApis.Captures`).
- In data from before version 1, adding an account looks for the key of its number alone, so a number
  that is on record only as it is written can be added again, and hides the older account
  (`AccountServers.OldDataAddedTwice`).
- Phone numbers that differ only in zeros at the front, or by a multiple of 2^64, share a key
  (`Phones.KeyIsNumber`); a key has nine bytes from 2^63 on (`Phones.KeyLength`).
- In `Discovery.c` line 152 the last tag is the decimal number 100; all others are octal. The
  greeting must be the whole first chunk of its message, so that one is not independent of
  chunking (`Discoveries.GreetingByCut`).

## Model

| member | source | states |
|---|---|---|
| `Scalars.BytesRoundTrip` | src/lib/zkp/Scalar.c:32-81 | a canonical scalar comes back from its 32 little-endian bytes |
| `Scalars.MinusValue` | src/lib/zkp/Scalar.c:49-58 | subtraction with its sign fix-up is the canonical difference modulo ELL |
| `Scalars.MinusUndoesPlus` | src/lib/zkp/Scalar.c:40-58 | (a + b) - b == a for all scalars |
| `Scalars.Distributes` | src/lib/zkp/Scalar.c:40-70 | multiplication distributes over addition, on canonical results |
| `Scalars.TimesAssociates` | src/lib/zkp/Scalar.c:67-70 | multiplication is associative, on canonical results |
| `Ristretto.MultMinus` | src/lib/zkp/RistrettoPoint.c:44-59 | from the group laws alone: p*(a - b) == p*a - p*b |
| `Ristretto.ScalarGroupIsGroup` | src/lib/zkp/RistrettoPoint.c:35-70 | the group laws the proofs assume hold together: the scalars satisfy them |
| `StatefulHash.Sho.constructor` | src/lib/Sho.c:84-89 | a new hash has absorbed and ratcheted its label from a zero key |
| `StatefulHash.Sho.Absorb` | src/lib/Sho.c:38-45 | input is collected in order and nothing else changes |
| `StatefulHash.Sho.Ratchet` | src/lib/Sho.c:50-56 | collected input becomes a new key; with no input nothing changes |
| `StatefulHash.Sho.Squeeze` | src/lib/Sho.c:61-79 | the block loop yields the first bytes of the numbered blocks and a new key, and is refused while input is collected |
| `StatefulHash.Sho.Clone` | src/lib/Sho.c:94-97 | an independent object in the same state |
| `StatefulHash.Sho.GetScalar` | src/lib/Sho.c:102-105 | the scalar of the next 64 bytes, and the state after 64 bytes; or the error, and no change, while input is collected |
| `StatefulHash.Sho.GetPoint` | src/lib/Sho.c:110-117 | the sum of the two points the next 64 bytes map to, and the state after them; or the error, and no change |
| `StatefulHash.RatchetedKey` | src/lib/Sho.c:50-56 | a ratchet is the HMAC of the input with 0 behind it, which no output block and no later key is made of |
| `StatefulHash.OutputAt` | src/lib/Sho.c:61-79 | block i of output of any length is the HMAC of i in eight bytes with 1 behind them |
| `StatefulHash.Drawn` | src/lib/Sho.c:61-79 | a draw of 64 bytes is the HMAC of 0 and that of 1, eight bytes each with 1 behind them, and leaves the HMAC of 64 with 2 behind it as the key |
| `StatefulHash.DrawnValues` | src/lib/Sho.c:102-117 | in terms of HMAC alone: the scalar of a draw is the number, least significant byte first, of the HMACs of the block numbers 0 and 1; the point is the sum of what the first and the second HMAC map to |
| `Statements.AddKeepsValid` | src/lib/zkp/Statement.c:92-117 | every call of add, failing or not, keeps name lists and indices mutually inverse, keeps earlier indices, and leaves all equations compiled from the same names |
| `Statements.AddFailsExactlyWhenFull` | src/lib/zkp/Statement.c:92-117 | while there is room for equations, a well-formed one is refused if and only if it would take the statement past 256 scalar names or 256 point names |
| `Statements.BuildsWithoutError` | src/lib/zkp/Statement.c:92-117 | a list of calls that mention at most 256 scalar names and 256 point names is accepted whole; the statement then has exactly those equations, and its tables hold exactly those names, in the order in which they are first mentioned, after G |
| `Statements.CompiledFaithfully` | src/lib/zkp/Statement.c:105-116 | the bytes of an equation name its left-hand point and each of its terms, in order |
| `Statements.CompiledInjective` | src/lib/zkp/Statement.c:105-116 | two equations with the same bytes are the same equation |
| `Statements.StateInRange` | src/lib/zkp/Statement.c:92-117 | after any calls every index byte of every equation is within the tables |
| `Statements.DescriptionReads` | src/lib/zkp/Statement.c:122-129 | a description is read back: the number of equations, then each in its order, as long as its second byte says; whatever follows is left |
| `Statements.DescriptionDecodable` | src/lib/zkp/Statement.c:122-129 | a description followed by anything determines the equations: no two systems hash alike |
| `StatementObjects.Statement.constructor` | src/lib/zkp/Statement.c:32-39 | a new statement has no equations and the single point name G |
| `StatementObjects.Statement.AddScalar` | src/lib/zkp/Statement.c:44-63 | the index of a scalar name, entered if new, or the error for a 257th |
| `StatementObjects.Statement.AddPoint` | src/lib/zkp/Statement.c:68-87 | the index of a point name, entered if new, or the error for a 257th |
| `StatementObjects.Statement.Add` | src/lib/zkp/Statement.c:92-117 | the object after add is the specification function of the object before, with the same error |
| `StatementObjects.Statement.GetScalars` | src/lib/zkp/Statement.c:134-153 | arguments in table order, or an error for a wrong count or a missing name |
| `StatementObjects.Statement.GetPoints` | src/lib/zkp/Statement.c:158-179 | the same for points, with the base point supplied; the mapping has it too, error or not |
| `StatementObjects.Statement.Homomorphism` | src/lib/zkp/Statement.c:185-203 | the double loop computes the image of the scalars under the compiled system |
| `StatementObjects.Statement.Prove` | src/lib/zkp/Statement.c:208-259 | the blob of the specified proof: nonces from an independent clone of the hash, commitments, challenge, responses |
| `StatementObjects.Statement.Verify` | src/lib/zkp/Statement.c:264-296 | the specified verdict: commitments recomputed from the responses and the challenge compared |
| `Proofs.Proof.Transport` | src/lib/zkp/Proof.c:37-49 | the challenge and the responses, 32 bytes each |
| `Proofs.RemoteProof` | src/lib/zkp/RemoteProof.c:27-44 | the loop reads the challenge and all responses, or the blob is refused |
| `Proofs.BlobRoundTrip` | src/lib/zkp/RemoteProof.c:27-44 | a printed proof is read back if and only if it has 1 to 255 responses |
| `SigmaProtocol.SumIsLinear` | src/lib/zkp/Statement.c:185-203 | a compiled equation is linear: at g*c + n it is the multiple by c at g plus the value at n |
| `SigmaProtocol.RecomputedCommitments` | src/lib/zkp/Statement.c:286-291 | when the equations hold, what the verifier recomputes from honest responses is what the prover committed to |
| `SigmaProtocol.Complete` | src/lib/zkp/Statement.c:208-296 | for every satisfying assignment the proof made is accepted |
| `SigmaProtocol.SpeciallySound` | src/lib/zkp/Statement.c:185-203 | two proofs with different challenges and the same recomputed commitments, and an inverse of the challenge difference, give scalars that satisfy every equation |
| `SigmaProtocol.NoncesAreResponses` | src/lib/zkp/Statement.c:252-257 | under any challenge, nonces and responses correspond one to one |
| `SigmaProtocol.Simulated` | src/lib/zkp/Statement.c:208-259 | every witness makes any given challenge and responses, from nonces of its own, with the commitments the verifier recomputes without a witness |
| `SigmaProtocol.OpeningBinds` | src/lib/zkp/Statement.c:221-226 | the hash before the nonces is that of one string, and two of these strings are equal if and only if both the equations and the points are |
| `SigmaProtocol.ChallengeBinds` | src/lib/zkp/Statement.c:245-250 | the challenge is read under the HMAC of one string, and for as many commitments two of these strings are equal if and only if both the commitments and the messages are |
| `SigmaProtocol.NoncesBind` | src/lib/zkp/Statement.c:230-233 | for random strings of one length and as many scalars, what is hashed for the nonces is equal if and only if both the random strings and the scalars are |
| `SigmaProtocol.NonceAt` | src/lib/zkp/Statement.c:228-242 | nonce i is read from output blocks 2i and 2i + 1 under the HMAC of the message, under that of the random string and the scalars |
| `SigmaProtocol.ProvedNonces` | src/lib/zkp/Statement.c:208-259 | the nonces that the responses of a proof give away to who knows the scalars are those, all the way from the label, the statement and its points |
| `SigmaProtocol.AcceptedInHmac` | src/lib/zkp/Statement.c:278-296 | in terms of HMAC alone: a proof is accepted if and only if its challenge is the one read under the hash of the recomputed commitments and the message, under that of the statement and its points |
| `StatementProofs.VerdictInHmac` | src/lib/zkp/Statement.c:264-296 | from the blob: false for a wrong number of responses, an error for points that are not those of the statement, and otherwise true if and only if the challenge is that one |
| `TamperedProofs.OneResponseAccepted` | src/lib/zkp/Statement.c:264-296 | for one HMAC and one statement with one scalar, of all proofs with challenge 0 just one is accepted: changing its response makes the verdict false |
| `StatementProofs.SatisfiedMeansHolds` | src/lib/zkp/Statement.c:185-203 | the compiled system is satisfied if and only if every equation, read by names, holds |
| `StatementProofs.ProverConvincesVerifier` | src/lib/zkp/Statement.c:208-296 | named arguments to bytes and back: proving succeeds, and verifying says true exactly when there are 1 to 255 scalars; otherwise the blob is refused |
| `StatementProofs.EveryStatementIsComplete` | src/lib/zkp/Statement.c:92-296 | the same for the statement left by any sequence of add calls, failed ones included |
| `StatementLimits.FullStatementRejected` | src/lib/zkp/Statement.c:92-117 | two calls of add, of 255 terms and of one, make a satisfiable statement with 256 scalars whose honest proof is refused |
| `StatementLimits.EmptyStatementRejected` | src/lib/zkp/RemoteProof.c:32-35 | so is the proof of a statement without equations |
| `StatementProofs.ProofsRevealWitness` | src/lib/zkp/Statement.c:264-296 | special soundness by names: the extracted scalars make every added equation hold |
| `KeyPairs.KeyPair.constructor` | src/lib/KeyPair.c:33-59 | the loops draw the secrets in order and publish C_W and I for the first nattr of them |
| `KeyPairs.KeyPair.Prepare` | src/lib/KeyPair.c:61-75 | the loop computes the MAC on all attributes with fresh t and U |
| `KeyPairs.IssuerEquation` | src/lib/KeyPair.c:54-58 | G_V - I is the sum that the issuing statements claim, for any number of attributes |
| `KeyPairs.MacEquation` | src/lib/KeyPair.c:67-72 | the MAC is the sum that the issuing statements claim |
| `AuthCredentials.AuthArgumentsMatch` | src/lib/protocol/AuthCredentialWithPniResponse.c:57-110 | the argument maps name exactly what the statement names, so proving cannot fail |
| `AuthCredentials.AuthEquationsHold` | src/lib/protocol/AuthCredentialWithPniResponse.c:57-112 | for every key, t, U and five attributes the C_W, G_V-I and V equations hold |
| `AuthCredentials.AuthProofVerifies` | src/lib/protocol/AuthCredentialWithPniResponse.c:57-112 | the issued proof always exists and verifies against the published points |
| `AuthCredentials.AuthCredentialWithPniResponse.constructor` | src/lib/protocol/AuthCredentialWithPniResponse.c:37-113 | the fields are the MAC on the five attributes and a proof that verifies, for every state of the hash; the proof is the one made with the next 32 bytes of the hash |
| `AuthCredentials.BlobAnnouncesProof` | src/lib/protocol/AuthCredentialWithPniResponse.c:118-122 | the length field of the exported blob is the length of the proof that follows |
| `AuthCredentials.BlobReadBack` | src/lib/protocol/AuthCredentialWithPniResponse.c:118-122 | t, and the points that have the bytes at 33 to 65 and 65 to 97, read from the blob, are U and V: a MAC on the five attributes |
| `ProfileKeyRequests.RequestMeansEncryption` | src/lib/protocol/ProfileKeyCredentialRequest.c:39-67 | for a commitment that opens to M3 and M4, the six equations hold if and only if the ciphertexts encrypt M3 and M4 under the public key |
| `ProfileKeyRequests.HonestRequestAccepted` | src/lib/protocol/ProfileKeyCredentialRequest.c:39-70 | a client that encrypts what it committed to is never turned away |
| `ProfileKeyRequests.RequestProofsRevealKeys` | src/lib/protocol/ProfileKeyCredentialRequest.c:39-70 | two proofs with shared commitments give scalars that make all six equations true |
| `ProfileKeyRequests.MakeRequest` | src/lib/protocol/ProfileKeyCredentialRequest.c:31-78 | a request object comes into being if and only if its proof verifies, and then carries what was sent |
| `ProfileKeyResponses.UnblindingYieldsMac` | src/lib/protocol/ProfileKeyCredentialResponse.c:60-69 | S2 - y*S1 is the plain MAC on all five attributes whenever the ciphertexts encrypt M3 and M4 under Y = y*G |
| `ProfileKeyResponses.ResponseEquationsHold` | src/lib/protocol/ProfileKeyCredentialResponse.c:71-134 | all four equations hold for the scalars and points handed to the prover |
| `ProfileKeyResponses.ResponseProofVerifies` | src/lib/protocol/ProfileKeyCredentialResponse.c:71-136 | the issued proof always exists and verifies |
| `ProfileKeyResponses.ClientObtainsCredential` | src/lib/protocol/ProfileKeyCredentialResponse.c:40-136 | the whole exchange: a client with a true request unblinds the response to the MAC on all five attributes |
| `ProfileKeyResponses.ProfileKeyCredentialResponse.constructor` | src/lib/protocol/ProfileKeyCredentialResponse.c:40-137 | the fields are an issue of the key for the request, with a proof that verifies |
| `ProfileKeyResponses.BlobAnnouncesProof` | src/lib/protocol/ProfileKeyCredentialResponse.c:142-147 | the length field of the exported blob is the length of the proof that follows |
| `ProfileKeyResponses.BlobReadBack` | src/lib/protocol/ProfileKeyCredentialResponse.c:142-147 | t is read back from the blob, and a point has the bytes at 33 to 65, 65 to 97 or 97 to 129 if and only if it is U, S1 or S2 |
| `ProfileKeyResponses.ClientReadsCredential` | src/lib/protocol/ProfileKeyCredentialResponse.c:142-147 | what a client computes from the bytes it was sent, the second point less y times the first, is the MAC on all five attributes |
| `Rs256.Ps` | src/lib/rs256.c:27-36 | doubling a string and cutting it gives exactly that many ff bytes |
| `Rs256.EmsaPkcs1v15` | src/lib/rs256.c:41-48 | the encoded message 00 01 ff..ff 00 DigestInfo, or an error when there is no room |
| `Rs256.EncodedReadsBack` | src/lib/rs256.c:41-48 | read as section 9.2 of RFC 8017 does, byte by byte, for every length of 54 or more: 00 01, ff up to 00, the DER header in literal bytes, and a digest, which is the one that was encoded and no other |
| `Rs256.PaddingExactly` | src/lib/rs256.c:41-48 | the encoded message has eight bytes of padding or more if and only if it has 62 bytes or more |
| `Rs256.EncodedFits` | src/lib/rs256.c:41-63 | the encoded message has the length of the modulus and is smaller than it |
| `Rs256.Recombined` | src/lib/rs256.c:65-74 | Garner recombination has both residues and is below p*q, whichever prime is larger |
| `Rs256.CrtIsPower` | src/lib/rs256.c:65-74 | for a consistent key the recombined value is c^d mod n |
| `Rs256.Rs256Sign` | src/lib/rs256.c:53-82 | the signature is exactly len bytes and denotes the recombined value; for a consistent key, raised to the public exponent it reads as the digest of the message |
| `Rs256.SignatureVerifies` | src/lib/rs256.c:65-74 | the value raised to the public exponent is the message, modulo n |
| `Rs256.SignedMessageVerifies` | src/lib/rs256.c:53-82 | from digest to signature and back: raised to e and written as long as the modulus, the signature reads as just that digest |
| `NumberTheory.Fermat` | src/lib/rs256.c:65-74 | x^p == x modulo a prime p, which the exponents by remainders rest on |
| `NumberTheory.Chinese` | src/lib/rs256.c:70-74 | numbers that agree modulo two distinct primes agree modulo their product |
| `Proto.ProtoInt` | src/lib/proto.c:29-43 | the loop prints the base-128 digits of every 32-bit pattern, negative ones included |
| `Proto.ProtoAsn` | src/lib/proto.c:48-66 | the loop prints the base-128 digits of a string of up to nine bytes, or an error |
| `Proto.IntRoundTrip` | src/lib/proto.c:29-43 | every 32-bit pattern is parsed back, with the rest of the text left over |
| `Proto.AsnRoundTrip` | src/lib/proto.c:48-66 | every string of eight bytes, leading zeros and top bit included, comes back once extended to eight bytes |
| `Proto.AsnDigitsExactly` | src/lib/proto.c:48-66 | the digits are parsed back to the number if and only if there are two bytes or more, or the one byte is below 128 |
| `Proto.StringRoundTrip` | src/lib/proto.c:110-113 | a length-delimited string is parsed back |
| `ProtoParse.ParseByte` | src/lib/proto.c:139-150 | for every chunking: the first byte and the rest, or -1 at the end |
| `ProtoParse.OrShiftedAdds` | src/lib/proto.c:164-173 | or-ing seven bits in at their place on 32 bits adds their weight modulo 2^32 |
| `ProtoParse.ParseInt` | src/lib/proto.c:155-176 | for every chunking: the value and the rest that the flat parser gives |
| `ProtoParse.ParseAsn` | src/lib/proto.c:181-209 | the same for integers of up to 64 bits |
| `ProtoParse.ParseBytes` | src/lib/proto.c:214-232 | the same for a number of bytes; with no chunk fetched and none to fetch, an error |
| `ProtoParse.ParseString` | src/lib/proto.c:284-290 | the same for a length-delimited string |
| `ProtoParse.ParseStrbuf` | src/lib/proto.c:295-311 | the same, into a new buffer |
| `ProtoParse.ParseDone` | src/lib/proto.c:324-327 | true if and only if nothing is left to read |
| `WebSocketCodec.WsRequest` | src/lib/websocket.c:114-146 | the buffer has the wrapped request message, in field order |
| `WebSocketCodec.WsResponse` | src/lib/websocket.c:151-181 | the buffer has the wrapped response message, in field order |
| `WebSocketCodec.RequestRoundTrip` | src/lib/websocket.c:122-141 | a request comes back with verb, path, body (absent and empty apart), 8-byte context and header lines |
| `WebSocketCodec.ResponseRoundTrip` | src/lib/websocket.c:159-176 | a response comes back with context, code, comment, body and header lines |
| `WebSocketCodec.WrappedRoundTrip` | src/lib/websocket.c:143-145 | type and length wrapper are taken off again |
| `WebSocketCodec.LinesReadBack` | src/lib/websocket.c:136-138 | header lines, cut at newlines and each at its first colon, give the names and the values, or the first of several values, that were sent, in order; for names without colon or newline and values without newline |
| `WebSocketReceive.WsReceiveRequest` | src/lib/websocket.c:186-230 | for every chunking: the fields the flat parser finds, or its failure |
| `WebSocketReceive.WsReceiveResponse` | src/lib/websocket.c:235-300 | the same for responses |
| `WebSocketReceive.Unwrap` | src/lib/rest/Server.c:460-488 | the same for the outer message |
| `WebSocketTransfers.TransferRequest` | src/lib/websocket.c:114-230 | from the sending end to the receiving one, for every message and every way of cutting the text into chunks: all fields arrive, and the header lines that arrive read as the names and values sent |
| `WebSocketTransfers.TransferResponse` | src/lib/websocket.c:151-300 | the same for responses |
| `Endpoints.Endpoint.SendChunk` | src/lib/websocket.c:91-97 | sent, unless the WebSocket is closing: then an error, and no change |
| `Endpoints.Endpoint.SendClose` | src/lib/websocket.c:102-109 | the closing message is sent, unless the WebSocket is closing already |
| `Endpoints.Endpoint.ReceiveCloseFrame` | src/lib/rest/Server.c:457-459 | the closing message of the client is answered in the same way |
| `RandomDraws.DrawFresh` | src/services/lib/chat/Websocket.c:141-143 | the loop ends at the first drawn key that is not taken; drawing identifiers ends in the same way |
| `Endpoints.Endpoint.SendEnvelope` | src/services/lib/chat/Messages.c:110-117 | the continuation is stored on a context that was not live; the request is sent and a response awaited, or, when closing, neither |
| `Endpoints.Endpoint.DeliverEnvelopes` | src/services/lib/chat/Messages.c:130-142 | the state after deliver, and whether it ended in an error: an empty queue, or a WebSocket that is closing |
| `Endpoints.Endpoint.EnvelopeDelivered` | src/services/lib/chat/Messages.c:147-178 | the state after delivered, and whether it ended in an error |
| `Endpoints.Endpoint.Close` | src/services/lib/chat/Messages.c:183-202 | the loop over call_outs hands over the queue and every pending delivery, if any |
| `Endpoints.Endpoint.ReceiveResponse` | src/services/lib/chat/Websocket.c:154-193 | the continuation of the context, if live, is set going and forgotten; after provisioning the connection is closed instead, once |
| `EndpointRuns.StepKeeps` | src/services/lib/chat/Messages.c:110-178 | every event, in any order, closing at either end included, keeps the invariants |
| `EndpointRuns.ReceiptKeeps` | src/services/lib/chat/Messages.c:155-169 | each acknowledged envelope that is no receipt is answered with one: source and destination swapped, with the identifier drawn then, to the endpoint it came from if that was still there, and otherwise to storage |
| `EndpointResults.EveryRunKeeps` | src/services/lib/chat/Messages.c:110-178 | in every reachable state: everything offered is accepted or pending; sent once in order, one swapped receipt per acknowledged non-receipt; contexts matched; closed at most once, last; and what remains of the queue invariants after a failure |
| `EndpointResults.InvariantUntilFailure` | src/services/lib/chat/Messages.c:110-178 | acknowledged then queued is accepted, in order; ready exactly when the queue is empty; at most the head outstanding; the client told well: all this holds if and only if no delivery had to send while closing |
| `EndpointResults.InOrderExactly` | src/services/lib/chat/Messages.c:130-178 | acknowledged then queued is accepted, in order, if and only if no envelope was acknowledged out of turn, for which a request never sent has to be answered |
| `EndpointResults.OnlyEmptyDeliveryFaults` | src/services/lib/chat/Messages.c:130-178 | a handler indexes an empty queue if and only if nothing is queued and an empty batch is delivered to a ready endpoint, or, once a request never sent has been answered, an envelope is acknowledged |
| `EndpointResults.StalledExactly` | src/services/lib/chat/Messages.c:147-178 | with envelopes queued, the answer for the head is awaited or waiting, if and only if no delivery got a code other than 200 and none failed to send |
| `EndpointResults.StalledForever` | src/services/lib/chat/Messages.c:147-178 | after that no envelope is sent again, whatever happens |
| `EndpointResults.NothingAfterClosing` | src/lib/websocket.c:91-109 | once closing, nothing at all is sent |
| `EndpointResults.CloseConserves` | src/services/lib/chat/Messages.c:183-202 | close hands over as many envelopes as were offered and not acknowledged, in order; and exactly those, each once, unless some envelope was acknowledged out of turn |
| `EndpointResults.ProvisionedOnce` | src/services/lib/chat/Websocket.c:161-164 | once provisioning is done, whatever happens in between, the next response closes the WebSocket and sets no continuation going |
| `EndpointResults.ProvisionedExactly` | src/services/lib/chat/Websocket.c:135-221 | over every run provisioning is done if and only if a provisioning message was sent, and what wants no response is sent on the context for that |
| `EndpointResults.EachAnsweredOnce` | src/services/lib/chat/Websocket.c:135-193 | over every run each continuation stored, its request sent or not, has been answered once, on its own context, or is live; until a failure at most one is |
| `EndpointResults.ContextsOnTheWire` | src/lib/websocket.c:212-213 | a client that echoes the context it read is matched to that request; the no-reply context coincides with exactly one 8-byte context |
| `EndpointResults.FailureReached` | src/services/lib/chat/Websocket.c:135-149 | a run with a failure: a ready endpoint with a queue, and a continuation for a request never sent |
| `EndpointResults.RefusalReached` | src/services/lib/chat/Messages.c:147-152 | a run that stalls on a code other than 200 |
| `EndpointResults.OutOfTurnReached` | src/services/lib/chat/Messages.c:147-178 | a run in which an envelope is lost, by answers to requests never sent |
| `EndpointResults.FaultReached` | src/services/lib/chat/Messages.c:147-178 | a run in which an acknowledgement then indexes an empty queue |
| `Mailboxes.IndexInjective` | src/sys/messages.c:59 | devices or accounts that differ never share a mailbox |
| `Mailboxes.MessageServer.Stack` | src/sys/messages.c:50-70 | the whole batch is stored and queued, or there is an error and nothing has changed |
| `Mailboxes.MessageServer.Send` | src/sys/messages.c:75-104 | the queue is emptied and what of it is still stored is handed out in order |
| `MailboxRuns.StepKeeps` | src/sys/messages.c:50-104 | stack, send and expiry, in any order and with any guids, keep the account of every mailbox |
| `MailboxRuns.LosslessUntilExpiry` | src/sys/messages.c:50-104 | while nothing stacked has expired, handed out then queued is what was stacked, in order |
| `MailboxRuns.HandedOutExactly` | src/sys/messages.c:50-104 | over all runs: each envelope is handed out at most once each time it is stacked, in order, from its own mailbox, if and only if the mailbox was never emptied while one of its guids was stored with another envelope; what is not handed out has expired in any case |
| `MailboxRuns.HandedOutOnce` | src/sys/messages.c:50-104 | so it is if no batch was taken with a guid that stood in the mailbox |
| `MailboxRuns.TakenBackExactly` | src/sys/messages.c:50-104 | over all runs, what a mailbox has handed out is taken back, after any expiries, if and only if all of it has expired and no guid is in it twice, which takes a guid used again while it stood there |
| `MailboxRuns.NotTakenBack` | src/sys/messages.c:50-104 | a run after which an envelope is handed out and not taken back |
| `MailboxRuns.HandedOutTwice` | src/sys/messages.c:50-104 | a run in which a guid is used again for another envelope after the first has expired, before it was handed out: the new envelope is handed out twice |
| `Oneshots.OneOutcome` | src/obj/oneshot.c:50-82 | over every run the callback is run exactly once, on failure, response or close |
| `Oneshots.OutcomeExpected` | src/obj/oneshot.c:50-82 | over every run from a new client the callback is run with the code of the attempt that failed, with the response, or with -1, by what came first |
| `Oneshots.OneshotClient.HandleClose` | src/obj/oneshot.c:76-82 | close runs the callback with -1 if it has not been run |
| `FcmSenders.FcmSender.DoSendMessage` | src/obj/fcm_sender.c:101-121 | a connection is started, or the head of the queue requested; or there is an error, because the queue is empty, or because there is no token, when it is noted already that there is a request |
| `FcmSenders.FcmSender.HandleResponse` | src/obj/fcm_sender.c:127-163 | the state after a response of any code |
| `FcmSenders.FcmSender.HandleClose` | src/obj/fcm_sender.c:168-175 | the state after a close, with or without a request out |
| `FcmSenders.FcmSender.StoreAccessToken` | src/obj/fcm_sender.c:213-229 | the state after a token request ended, and exactly when that is an error: rejected, not readable, or readable without a token on an open connection |
| `FcmSenders.FcmSender.DoEnqueue` | src/obj/fcm_sender.c:234-245 | the message is queued, and something is started exactly when it is the only one |
| `FcmRuns.StepDrives` | src/obj/fcm_sender.c:80-245 | every event keeps exactly one thing under way for a queue that is not empty, and none for an empty one |
| `FcmRuns.EveryRunKeeps` | src/obj/fcm_sender.c:80-245 | all invariants hold in every reachable state, whatever the order of events |
| `FcmRuns.NeverFaults` | src/obj/fcm_sender.c:110-144 | no handler ever indexes an empty queue |
| `FcmRuns.StuckExactly` | src/obj/fcm_sender.c:101-229 | messages are queued with nothing under way if and only if a token request ended in an error, or brought no token and it has since come to sending |
| `FcmRuns.StoppedForever` | src/obj/fcm_sender.c:101-229 | after such an outcome no message is sent again and none leaves the queue, whatever happens, a close of the connection included |
| `FcmRuns.FatalReached` | src/obj/fcm_sender.c:213-229 | a run that ends so, for every such end of a token request |
| `FcmRuns.TokenlessReached` | src/obj/fcm_sender.c:101-229 | a run with an answer without a token, after which the sender is stuck on an open connection |
| `FcmRuns.CallbacksInOrder` | src/obj/fcm_sender.c:127-155 | messages leave first in first out; each callback runs once, when its message leaves; a 404 is reported exactly after the third |
| `FcmRuns.RequestsForTheHead` | src/obj/fcm_sender.c:110-121 | a request is out only on a connection, with a token, for the oldest message |
| `FcmRuns.RefusedMeansRenewing` | src/obj/fcm_sender.c:127-163 | over every run, from a 401 until a token outcome with code 200 that can be read: no request is out, nothing leads to sending, and getting a token is the one thing under way, unless that has ended in an error |
| `FcmRuns.SentWithFreshToken` | src/obj/fcm_sender.c:101-229 | over every run what a step sends is one request, for the oldest message, with the token last brought, and that token has not been refused |
| `FcmRuns.TokenAskedExactly` | src/obj/fcm_sender.c:101-245 | a token is asked for after a 401, and for the first message of a sender that has none; by nothing else |
| `FcmRuns.ReconnectsExactly` | src/obj/fcm_sender.c:88-175 | another attempt to connect is scheduled after one that failed and when the connection closes before there was a response; by nothing else |
| `FcmRuns.LeavesExactly` | src/obj/fcm_sender.c:80-245 | from any reachable state with messages queued there is a run in which the oldest leaves, if and only if no token outcome that ends in an error or has no token has come or is on its way |
| `RestApis.SplitJoin` | src/sys/rest_api.c:39 | splitting a path at slashes loses nothing and leaves no slash in a segment |
| `RestApis.PatternInjective` | src/sys/rest_api.c:38-39 | two patterns are equal if and only if host, method and path are, but for a slash at the start of the path |
| `RestApis.RequestParts` | src/sys/rest_api.c:62-67 | host, method and path can be read from the segments of a request, query included |
| `RestApis.RegisteredAt` | src/sys/rest_api.c:38-47 | registering creates just the paths of its pattern and changes no other call |
| `RestApis.TreeAt` | src/sys/rest_api.c:38-47 | after any registrations a path exists if and only if some pattern starts with it, with the call registered last |
| `RestApis.WalkFollows` | src/sys/rest_api.c:68-84 | the walk finds the last call of a pattern that takes literals before wildcards without going back, with the captured segments in order, and finds nothing otherwise |
| `RestApis.RegisteredIsFound` | src/sys/rest_api.c:30-85 | after any registrations, a call just registered is found for its own host, method and path |
| `RestApis.FollowedFor` | src/sys/rest_api.c:62-84 | a call is found only for its own host and method, unless they are wildcards, and for as many segments |
| `RestApis.RestApi.Register` | src/sys/rest_api.c:30-48 | the tree is that of one registration more |
| `RestApis.RestApi.Lookup` | src/sys/rest_api.c:53-85 | the result is what the list of registrations means for the request |
| `RestApis.WalkDown` | src/sys/rest_api.c:68-84 | the loop is the walk |
| `Phones.PhoneToNum` | src/lib/phone.c:12-36 | the seven-digit loop gives the number modulo 2^64, extended to eight bytes; that is the number encoded at once if and only if it is below 2^64 |
| `Phones.KeyIsNumber` | src/lib/phone.c:12-36 | two phone numbers have one key if and only if they are equal modulo 2^64 |
| `Phones.KeyLength` | src/lib/phone.c:12-36 | a key has eight bytes, or nine from 2^63 on |
| `Phones.KeyInjective` | src/lib/phone.c:12-36 | below 2^64, numbers without needless zeros have different keys |
| `PniServers.PniServer.Add` | src/sys/pni.c:45-61 | both stores gain the number and a new identifier |
| `PniServers.PniServer.GetId` | src/sys/pni.c:66-75 | the identifier on record, or a new one |
| `PniServers.IdForKeeps` | src/sys/pni.c:45-75 | the two stores stay inverses of each other and nothing on record changes |
| `PniServers.OldDataKept` | src/sys/pni.c:45-75 | in data from before version 1, where a number may be entered as written, nothing is added for a number on record, and the identifier given is that of the number, or of one that has its key, is its key or has it for a key |
| `PniServers.OneIdPerNumber` | src/sys/pni.c:45-83 | over any run two questions get one identifier if and only if they are about one number modulo 2^64, and the number found is that one |
| `PniServers.FoundAsWritten` | src/sys/pni.c:66-83 | if all numbers are below 2^64 and without needless zeros, the number found for an identifier is the one asked about |
| `AccountServers.AccountServer.Add` | src/sys/accounts.c:47-71 | fails, with everything undone, if and only if the number or the user name is taken |
| `AccountServers.AccountServer.GetByNumber` | src/sys/accounts.c:84-93 | the account of the index entry, by key or, in old data, by the number as written |
| `AccountServers.WithAccountKeeps` | src/sys/accounts.c:47-71 | both indexes stay exact |
| `AccountServers.LookupIsScan` | src/sys/accounts.c:47-93 | after any attempts to add, failed ones included, looking up a number finds what a scan of all accounts for it, modulo 2^64, finds |
| `AccountServers.OldDataFound` | src/sys/accounts.c:84-93 | in data from before version 1 a number on record is found, whether entered as written or by its key; what is found has the number, or one that has its key, is its key or has it for a key |
| `AccountServers.OldDataAddedTwice` | src/sys/accounts.c:47-93 | in such data a number on record as written can be added again if and only if its key is not in the index; what is found then is the new account |
| `PreKeys.KeyServer.Store` | src/sys/keys.c:35-51 | the keys of the device are the stored ones, the first of equal numbers counting |
| `PreKeys.FirstCounts` | src/sys/keys.c:45-50 | of prekeys with equal numbers the first is stored, with its own public key |
| `PreKeys.OnlyThose` | src/sys/keys.c:45-50 | only numbers of the prekeys given are stored |
| `PreKeys.KeyServer.TakeKey` | src/sys/keys.c:56-72 | the key with the smallest number is returned and removed; nothing when none is left; errors for what is not there |
| `PreKeys.KeyServer.TakeKeys` | src/sys/keys.c:77-100 | the loop takes the first key of every device of the account |
| `PreKeys.KeyServer.Count` | src/sys/keys.c:105-108 | the number of keys left |
| `PreKeys.KeyServer.DeleteDevice` | src/sys/keys.c:121-124 | the device is gone and the others are as they were |
| `PreKeyRuns.OneForDevice` | src/sys/keys.c:77-100 | takeKeys returns exactly one key of a device that has any and none of one that has not |
| `PreKeyRuns.NoKeyTwice` | src/sys/keys.c:35-108 | between two stores no key is handed out twice, keys go in ascending order, and handed out plus left is stored |
| `PreKeyRuns.OthersUntouched` | src/sys/keys.c:35-124 | what is done for one device or account leaves the others alone |
| `DiscoveryRequests.ParsePhoneNumbers` | src/services/lib/cdsi/Discovery.c:94-112 | for every chunking: the list cut into eight bytes each, or an error for a ragged one |
| `DiscoveryRequests.ParseClientRequest` | src/services/lib/cdsi/Discovery.c:117-157 | for every chunking: what the flat parser makes of the request |
| `DiscoveryRequests.RequestReads` | src/services/lib/cdsi/Discovery.c:117-157 | a request with any of its fields, in order, is read as what it says: an acknowledgement, or the previous numbers and then the new ones, each in its place, unless a list is ragged |
| `Discoveries.Discovery.ReceiveChunk` | src/services/lib/cdsi/Discovery.c:218-267 | the state after a message from the client, in each state |
| `Discoveries.GreetingByCut` | src/services/lib/cdsi/Discovery.c:227-229 | whether a message is a greeting depends on how it is cut into chunks if and only if it starts with the word |
| `Discoveries.Discovery.FinishLookup` | src/services/lib/cdsi/Discovery.c:209-212 | the results are sent and the WebSocket closed; or, when closing, there is an error |
| `Discoveries.LookedUpWhenAsked` | src/services/lib/cdsi/Discovery.c:85-267 | over every run numbers are looked up at most once, and exactly after an attestation, a greeting, a request for these numbers, each answered, and an acknowledgement, in that order; what was sent is what that calls for |
| `Discoveries.ClosedForCause` | src/services/lib/cdsi/Discovery.c:218-267 | a message on an open WebSocket closes it exactly if it cannot be read, a failure, or is out of place, an illegal argument; a lookup starts exactly for an acknowledgement of a token |
| `Discoveries.OneChance` | src/services/lib/cdsi/Discovery.c:252-261 | if the message after the token is no acknowledgement, nothing is ever looked up |
| `Discoveries.AnsweredWhenAsked` | src/services/lib/cdsi/Discovery.c:85-267 | a client that does everything in order, however its messages are cut, is sent the results for the numbers it asked about, and then the WebSocket is closed |
| `Discoveries.NothingAfterClosing` | src/services/lib/cdsi/Discovery.c:85-267 | once closing, nothing is sent and no step is taken, but that the acknowledgement of what was asked before still starts the lookup |
| `Discoveries.SpokenTooSoon` | src/services/lib/cdsi/Discovery.c:218-224 | a client that speaks before the attestation gets a closing message, and nothing else ever |
| `DiscoveryBatches.CdsiBatch` | src/services/lib/cdsi/Discovery.c:190-213 | a batch fills in its results in place and says where the next one starts |
| `DiscoveryBatches.EveryNumberLookedUp` | src/services/lib/cdsi/Discovery.c:190-213 | after all batches every number has its result in its own place, as known in its own batch |
| `DiscoveryBatches.SendClientResponse` | src/services/lib/cdsi/Discovery.c:170-185 | putting triples together piece by piece gives the response with all of them in order |
| `DiscoveryBatches.ClientReadsEntries` | src/services/lib/cdsi/Discovery.c:170-213 | read back from the response, for every list of numbers: forty bytes for each in its place, with the number, then the identifier for the number and that of the account as known in its batch, or zeros; then the flag 0 |
| `DiscoveryBatches.PieceFits` | src/services/lib/cdsi/Discovery.c:176-178 | a piece of triples stays below 65536 bytes |

## Left out

- GetPoints: returns the mapping with the base point in it as a second result, which Prove and
  Verify drop; in the source it is the caller's own mapping that changes.
- The group of points, its maps from bytes and its primality, HMAC and SHA-256: parameters with
  stated laws. `getPointSingleElligator` is not modelled.
- Security in the cryptographic sense and the quality of randomness. Random strings are parameters;
  loops that draw until something is new require that something new is drawn.
- `CallLinkAuthCredentialResponse`: its equation about the issuer parameter lists three secrets
  and its key has seven, so its equations do not hold.
- `timeScalar`, identifiers as points and the time stamps of blobs are parameters.
- `comment` (reason phrases) is a parameter of `WsResponse`. HTTP header objects are the lines
  they are made from. A connection that is lost without a
  closing message makes sending fail too, until the pending close of the object runs; `closing`
  stands for that as well, with a closing message on the wire that nobody reads.
- protoFixed64, protoFixed32 and the time codecs.
- The message with the provisioning address, which is sent like a provisioning message.
- `putMessages` and `putMessages2`: envelopes start with a given destination. The server time stamp of an
  envelope and its transport form are not modelled.
- When a continuation runs: it is a pending event from the moment it is set going. Continuations
  other than that of a delivery, with arguments taken from response headers, are not modelled.
- Stores are maps; their trees, their persistence and the time at which messages expire (an event
  that may happen at any time) are not modelled. KVstore and KVstoreExp are not part of this model.
- The push sender's JSON, JWT and token texts, and delays of call_outs.
- REST arguments are strings, and the nested mappings of the registry are a tree of values: they
  are reachable from the registry alone. `explode` and `sscanf` are modelled as splitting at every
  slash but one at the start, and as cutting at the first question mark.
- numToPhone; phone numbers that have anything but digits after the first character.
- `Account` objects beyond phone number and user name; setId; getByName of an unknown name.
- CdsiBatch: what is known of a number is a parameter of each batch. numToPhone takes the bytes of
  asn_mod results apart, and how long these are is up to the platform; looking up a phone number
  is `AccountServers.LookupIsScan`.
- Opening the discovery WebSocket.
