# LostLoveProtocol: a verified model

LostLoveProtocol is a VPN protocol with a shared Rust core, a Rust server and
client, and a C# client. This project models the stateful core of it in Dafny and
proves what the parts promise each other:

| modules | what they model |
|---|---|
| `ReplayWindow`, `ReplayStream` | the sliding anti-replay window, its history specification, and the window of section 3.4.3 of RFC 4303 |
| `Crypto`, `Session`, `Channel` | the AEAD wrapper and its nonces, a session's two counters, and the one-way channel two sessions make |
| `Messages`, `Handshake`, `Agreement` | the four-message handshake: octets, both state machines, and agreement among any number of parties over a hostile network |
| `DotNet`, `CSharpHandshake`, `PacketEncryption` | the C# client's handshake and frames, with its array copies and unchecked integer arithmetic |
| `Packet`, `Connection` | the LLP packet codec and the Rust client's data path over it |
| `Frames` | the server's data frames: the send task, the receive filter |
| `SessionManager`, `Listener`, `Interleavings` | the UDP listener, as code and as interleaved atomic steps of any number of packet tasks |
| `Locks` | the server's locks, every path that takes them, absence of circular waits, and exactly when nothing moves |
| `Bytes`, `Wrappers`, `Primitives`, `Profiles`, `Buffers` | octets, results, the cryptographic primitives, profile ids, buffers |

Objects the source updates in place are classes. Where a property speaks of whole
runs, the method is proved equal to a step function or a history, and the property
is proved of that.

## What is assumed

No cryptographic primitive is an axiom. A `Suite` is any tuple of functions on
octets obeying four laws: Diffie-Hellman is symmetric (section 6.1 of RFC 7748), the
AEAD adds a 16-octet tag, opening undoes sealing, and whatever opens is 16 octets
longer than its plaintext (section 2.8 of RFC 8439). `Primitives.NullSuite` shows
the laws are consistent. Nothing is assumed injective. What only cryptography can
give is a hypothesis about the run at hand, named where it is used:

- `Channel.Unforged`: a delivered packet that opens was sealed by the sender, under
  that nonce and that additional data.
- `Channel.Binding`: among the pairs of nonce and additional data in use, a ciphertext
  opens only under the pair it was sealed under. It replaces `Unforged` for networks
  that only recombine.
- `Agreement.CollisionFree`: HMAC gives no client and server the same tag for different
  hellos; that their keys are equal is proved. The network of `Agreement`
  loses, repeats, reorders and redirects everything, appends octets, and invents any
  datagram but verify messages.
- `Agreement.DistinctDraws`: no two draws of a kind in a run gave the same random.
- `Handshake.Separates`: HKDF does not give two agreed values and salts the same key.
- `Interleavings.Unpredicted`: no packet that arrived before the server drew its
  random carries the tag of the transcript that random enters.

## Where the code falls short of what it suggests

Each of these is stated with the exact condition, or with a concrete input.

- The comments call the window "of size 256". It is narrower after a first packet
  other than 0 and after a jump of 256 or more (`ReplayStream.NarrowAfterLateStartOrJump`);
  `ReplayStream.PassesExactly` says by exactly which numbers, and
  `GaplessMatchesTextbook` that there is no difference without such a start or jump.
- `send_packet` seals under a header whose lengths are still 0, `receive_packet`
  rebuilds the header with the real lengths, so that no packet it sends opens at the
  other end (`Connection.SendPacketNeverOpens`). The two agree if and only if the
  lengths were filled in before sealing (`Connection.AadSurvivesTheWire`).
- The server's receive counter wraps after a frame numbered 2^64 - 1, as compiled for
  release (`Frames.FilterIsRunningMaxima`: the filter is right if and only if no number
  but the last is 2^64 - 1).
- `LlpPacket::deserialize` accepts packets longer than the 65536 octets `serialize`
  allows (`Packet.LongPacketsAreAccepted`, `Packet.PacketIsCanonical`).
- A version-1 packet with more than 1024 octets of padding serializes and is refused when
  parsed (`Packet.SerializedPacketsParse`, `Packet.LongPaddingIsLost`).
- A peer whose completed handshake the session manager refuses, or whose SERVER_VERIFY
  cannot be sent, keeps its parked state and never obtains a session
  (`Interleavings.StrandedExactly`, `Interleavings.StrandedNeverConnects`; a run that gets
  there is `Interleavings.StrandedIsReached`).
- A parked handshake is final: a peer whose SERVER_HELLO was lost cannot start over from
  the same address (`Interleavings.ParkedIsFinal`).
- The C# library refuses some public keys that the Rust one agrees with, after the C#
  client has stored the server's hello (`CSharpHandshake.RefusedKeysDivide`). In order,
  the two clients are alike if and only if no such key arrives
  (`CSharpHandshake.InOrderRunSimulation`). Out of order they differ unless C# turns the
  call down without a change: it starts over, takes a second hello and repeats messages
  where Rust refuses (`CSharpHandshake.StepSimulation`, `CSharpHandshake.RunSimulation`).
- The TUN reader holds the device lock while it waits for a packet. A frame on its way to
  the device then waits with the session table locked, and everything else behind it
  (`Locks.StuckStateIsReached`); `Locks.StuckExactly` says when nothing moves.

## Model

| member | source | states |
|---|---|---|
| `Crypto.NonceIsInjective` | crates/llp-core/src/crypto.rs:161-178 | equal nonce octets mean equal counters and equal low halves of the session id |
| `Crypto.NonceOctets` | crates/llp-core/src/crypto.rs:173-178 | each of the twelve octets, as a base-256 digit of the counter or of the low half of the session id |
| `Crypto.AeadCipher.constructor` | crates/llp-core/src/crypto.rs:203-207 | only the low 32 bits of the session id are kept, and no nonce is affected by that |
| `Crypto.AeadCipher.Encrypt` | crates/llp-core/src/crypto.rs:217-234 | seals under the current counter and advances it; at the last counter value fails and changes nothing |
| `Crypto.AeadCipher.Decrypt` | crates/llp-core/src/crypto.rs:245-266 | recovers whatever was sealed under the same key, nonce counter and additional data, independently of the cipher's own counter |
| `ReplayWindow.Slide` | crates/llp-core/src/session.rs:249-260 | the push-and-pop loop leaves the last `size` slots of the extended deque |
| `ReplayWindow.JumpTracks` | crates/llp-core/src/session.rs:234-247 | clearing the deque, on the first packet or a jump of the window size, matches a history whose floor is that packet |
| `ReplayWindow.SlideTracks` | crates/llp-core/src/session.rs:248-263 | sliding the deque matches a history whose floor is max(old floor, n - size + 1) |
| `ReplayWindow.FillTracks` | crates/llp-core/src/session.rs:267-284 | slot len - 1 - d is set exactly if highest - d was accepted; setting it matches recording the number |
| `ReplayWindow.ReplayWindow.CheckAndUpdate` | crates/llp-core/src/session.rs:232-285 | accepts n iff nothing has been accepted, or n > highest, or floor <= n and n was never accepted; the deque keeps standing for that history |
| `ReplayStream.EdgesNeverMoveBack` | crates/llp-core/src/session.rs:232-285 | over any run the accepted set only grows and neither highest nor floor decreases |
| `ReplayStream.OnlyFirstArrivalsPass` | crates/llp-core/src/session.rs:228-285 | over any run no number is accepted twice, and a refused number is refused for ever |
| `ReplayStream.SideBySide` | crates/llp-core/src/session.rs:234-285 | against the RFC 4303 window on the same run: same right edge, and the same accepted numbers from the floor up |
| `ReplayStream.DifferenceFromTextbook` | crates/llp-core/src/session.rs:234-285 | the code never accepts what the RFC 4303 window refuses, and refuses what that accepts iff the number is unseen, inside its window and below the floor |
| `ReplayStream.FloorExactly` | crates/llp-core/src/session.rs:234-263 | over any stream the floor is max(last reset, highest - w + 1), the last reset being the last arrival that came first or w or more ahead of all before it |
| `ReplayStream.TextbookPassesExactly` | crates/llp-core/src/session.rs:228-285 | the RFC 4303 window accepts an arrival iff its number is new and less than w below all arrivals before it |
| `ReplayStream.PassesExactly` | crates/llp-core/src/session.rs:232-285 | the code accepts an arrival iff, besides, it came first or is not below the last reset |
| `ReplayStream.GaplessFloor` | crates/llp-core/src/session.rs:234-263 | from number 0 and without jumps of the window size, the floor is max(0, highest - w + 1) |
| `ReplayStream.GaplessMatchesTextbook` | crates/llp-core/src/session.rs:234-285 | from number 0 and without jumps of the window size, both windows decide every packet alike |
| `ReplayStream.BoundedReorderingLosesNothing` | crates/llp-core/src/session.rs:228-285 | with forward jumps and lateness below the window size no new packet is refused |
| `ReplayStream.NarrowAfterLateStartOrJump` | crates/llp-core/src/session.rs:234-247 | two streams on which the code refuses an unseen number the RFC 4303 window of 256 accepts |
| `Session.Session.constructor` | crates/llp-core/src/session.rs:64-86 | a new session has made no calls and accepted nothing |
| `Session.Session.EncryptPayload` | crates/llp-core/src/session.rs:101-119 | call k (from 0) is sealed under nonce counter k and returns sequence k for k < 2^32 - 1, every later call fails; the two counters stay in lockstep and a rekey is required from the 2^31st call on |
| `Session.Session.DecryptPayload` | crates/llp-core/src/session.rs:122-145 | a duplicate is refused unopened; anything else is opened under its number, which is consumed even if opening fails |
| `Channel.SendAll` | crates/llp-core/src/session.rs:101-119 | a run of encryptions from a new session yields packets 0, 1, 2, ... under nonces 0, 1, 2, ..., at most 2^32 - 1 of them |
| `Channel.SentNoncesAreDistinct` | crates/llp-core/src/session.rs:101-111 | a session sends a packet for each of its first 2^32 - 1 requests and no more, no two under the same nonce |
| `Channel.ReceiveAll` | crates/llp-core/src/session.rs:122-145 | a run of decryptions answers each delivered packet by the window's history of the packets before it |
| `Channel.OutputsAreAuthentic` | crates/llp-core/src/session.rs:101-145 | over a network that loses, repeats, reorders and recombines but does not forge, an output at number n is the plaintext of the sender's n-th request, with its additional data |
| `Channel.RecombinedIsUnforged` | crates/llp-core/src/session.rs:101-145 | if the AEAD binds ciphertexts to nonce and additional data among the pairs in use, a sent ciphertext delivered with any number and additional data is not a forgery |
| `Channel.RecombinedOutputsAreAuthentic` | crates/llp-core/src/session.rs:101-145 | under that binding, outputs stay authentic for any recombination of sent ciphertexts, numbers and additional data |
| `Channel.BindingIsConsistent` | crates/llp-core/src/crypto.rs:217-266 | the binding hypothesis is met by some suite for any list of fewer than 256^16 pairs |
| `Channel.RepeatsAreDuplicates` | crates/llp-core/src/session.rs:128-135 | a number seen before is answered as a duplicate, so each number is output at most once |
| `Channel.AnswersExactly` | crates/llp-core/src/session.rs:122-145 | what any delivered packet is answered, told from the arrivals before it and from whether it opens, errors included |
| `Channel.DeliversExactly` | crates/llp-core/src/session.rs:101-145 | whatever else arrives, a sent packet yields its plaintext iff its number is new, less than 256 below all before it, and not below the last reset |
| `Channel.BoundedReorderingDelivers` | crates/llp-core/src/session.rs:101-145 | whatever else arrives, on a stream from number 0 without forward jumps of 256 a sent packet that is new and less than 256 late yields its plaintext |
| `Channel.DirectionsAreNotSeparated` | crates/llp-core/src/session.rs:69-70 | a session's receiving half accepts what its sending half sealed, since both directions share key and nonces |
| `Profiles.FromU16` | crates/llp-core/src/packet.rs:122-137 | parsing a profile id is exactly the inverse of encoding it |
| `Profiles.ProfileNumbers` | crates/llp-core/src/packet.rs:111-119 | the four profiles are numbered 0 to 3 in this order |
| `Packet.SerializeHeader` | crates/llp-core/src/packet.rs:196-205 | appends the 24 header octets, field by field in network order |
| `Packet.DeserializeHeader` | crates/llp-core/src/packet.rs:208-256 | the cursor-driven parser computes the header at its field offsets, with the same errors in the same order |
| `Packet.Serialize` | crates/llp-core/src/packet.rs:317-341 | refuses packets over 65536 octets, and otherwise writes header with filled-in lengths, payload, padding and tag |
| `Packet.Deserialize` | crates/llp-core/src/packet.rs:344-398 | accepts exactly inputs whose size is the one the header announces, and cuts them there |
| `Packet.ParsesExactly` | crates/llp-core/src/packet.rs:208-371 | for every input, told from its octets: accepted or not, and with which error |
| `Packet.HeaderLayout` | crates/llp-core/src/packet.rs:196-205 | which of the 24 octets hold which field |
| `Packet.PacketLayout` | crates/llp-core/src/packet.rs:329-338 | which octets hold the lengths, the payload, the padding and the tag |
| `Packet.NewExactly` | crates/llp-core/src/packet.rs:274-303 | a packet can be built iff its payload has at most 64472 and its padding at most 1024 octets, with the error for each |
| `Packet.Limits` | crates/llp-core/src/packet.rs:37-61 | the version, the flag and the sizes, as numbers |
| `Packet.HeaderRoundTrip` | crates/llp-core/src/packet.rs:196-256 | a serialized header parses back to itself, whatever follows, iff its version is 1 and its padding length at most 1024, and is refused otherwise |
| `Packet.HeaderIsCanonical` | crates/llp-core/src/packet.rs:196-256 | a parsed header serializes to the octets it came from |
| `Packet.NewPacketsFit` | crates/llp-core/src/packet.rs:274-333 | what `new` accepts always serializes, no u16 cast truncates, and 65536 octets are reached exactly at both maxima |
| `Packet.PacketRoundTrip` | crates/llp-core/src/packet.rs:317-398 | deserializing a packet's octets gives the packet with its lengths filled in, iff its version is 1, its payload length fits 16 bits and its padding is at most 1024 octets |
| `Packet.SerializedPacketsParse` | crates/llp-core/src/packet.rs:317-398 | of the packets `serialize` accepts, exactly those of version 1 with at most 1024 octets of padding come back, and the others are refused |
| `Packet.LongPaddingIsLost` | crates/llp-core/src/packet.rs:238-244 | a version-1 packet with 1025 octets of padding serializes and is refused when parsed |
| `Packet.PacketIsCanonical` | crates/llp-core/src/packet.rs:317-398 | serializing an accepted input gives that input back, and is refused exactly for inputs over 65536 octets |
| `Packet.LongPacketsAreAccepted` | crates/llp-core/src/packet.rs:359-371 | inputs over 65536 octets are accepted |
| `Connection.ServerConnection.SendPacket` | crates/llp-client/src/connection.rs:179-226 | the k-th packet carries sequence k, sealed under nonce k with its own header as additional data; a payload over the bound costs its number |
| `Connection.ServerConnection.ReceivePacket` | crates/llp-client/src/connection.rs:229-267 | oversized and malformed frames leave the window alone; any other is judged by the session under the header it carries |
| `Connection.AadSurvivesTheWire` | crates/llp-client/src/connection.rs:184-213 | the additional data rebuilt on receipt equals that used for sealing iff the header already held the real lengths |
| `Connection.ReceiveUndoesSend` | crates/llp-client/src/connection.rs:250-264 | with the real lengths in the header, receiving recovers the IP packet whenever the window takes the number |
| `Connection.SentHeaderIsRead` | crates/llp-client/src/connection.rs:188-213 | the receiver reads version 1, the DATA flag, the real length, and the session id, sequence, timestamp and profile the packet was sent with |
| `Connection.LengthKeepsShut` | crates/llp-client/src/connection.rs:195-202 | payloads under a header with a non-zero length do not open if everything was sealed with length 0 |
| `Connection.SendPacketNeverOpens` | crates/llp-client/src/connection.rs:184-213 | short of a forgery, no packet `send_packet` makes is opened by the receiver |
| `Connection.SentPacketNeverOpens` | crates/llp-client/src/connection.rs:184-213 | the same of any packet the session sent, from the binding hypothesis in place of unforgeability |
| `Messages.ClientHelloCodec` | crates/llp-core/src/handshake.rs:89-131 | the parser returns h iff the input starts with the serialization of h |
| `Messages.ServerHelloCodec` | crates/llp-core/src/handshake.rs:160-200 | the parser returns h iff the input starts with the serialization of h |
| `Messages.VerifyCodec` | crates/llp-core/src/handshake.rs:218-302 | the parser of either verify message returns a tag iff the input starts with that tag's serialization |
| `Messages.RefusesExactly` | crates/llp-core/src/handshake.rs:99-302 | which inputs each parser refuses and with which error, told from the octets |
| `Messages.HelloLayout` | crates/llp-core/src/handshake.rs:89-167 | which octets of the hellos hold what, and that the transcript is the client's and then the server's |
| `Messages.VerifyLayout` | crates/llp-core/src/handshake.rs:218-278 | verify messages are the octet 3 or 4 and the tag |
| `Messages.HkdfInfoText` | crates/llp-core/src/handshake.rs:38 | the HKDF context is the text llp-session-key-v1 |
| `Messages.TranscriptIsInjective` | crates/llp-core/src/handshake.rs:471-479 | the transcript determines both hellos |
| `Handshake.ClientStepClimbs` | crates/llp-core/src/handshake.rs:361-458 | whatever is called, a failure changes nothing, a success climbs one rank, stored values never change, and the key is available iff completed |
| `Handshake.ServerStepClimbs` | crates/llp-core/src/handshake.rs:506-593 | the same for the server |
| `Handshake.ClientHellosAreTrue` | crates/llp-core/src/handshake.rs:361-410 | CLIENT_HELLO carries the public key of the client's secret, the drawn random and its profile; the hello it takes it stores whole and returns the id of |
| `Handshake.ServerHellosAreTrue` | crates/llp-core/src/handshake.rs:506-545 | SERVER_HELLO carries the public key of the server's secret, the drawn random and the session id; the hello it takes it stores whole and returns the profile of |
| `Handshake.ClientKeyIsDerived` | crates/llp-core/src/handshake.rs:392-403 | the client's key is HKDF of the Diffie-Hellman value of its secret and the server's public key, salted with the client's and then the server's random |
| `Handshake.ServerKeyIsDerived` | crates/llp-core/src/handshake.rs:522-535 | the server's key is HKDF of the Diffie-Hellman value of its secret and the client's public key, with the same salt |
| `Handshake.ClientKeysSeparate` | crates/llp-core/src/handshake.rs:392-403 | where HKDF does not collide on them, two clients with equal keys agreed on equal values and saw equal randoms |
| `Handshake.ServerKeysSeparate` | crates/llp-core/src/handshake.rs:522-535 | the same for two servers |
| `Handshake.ClientVerifyTraffic` | crates/llp-core/src/handshake.rs:413-449 | a client sends only its own tag, and completes only on its own tag as SERVER_VERIFY |
| `Handshake.ServerVerifyTraffic` | crates/llp-core/src/handshake.rs:548-584 | a server sends only its own tag, and moves on only on its own tag as CLIENT_VERIFY |
| `Handshake.ClientVerifiesHellos` | crates/llp-core/src/handshake.rs:413-449 | a client sends, as 3 and a tag, and completes exactly on, as 4 and a tag, the HMAC under its key of the two hellos |
| `Handshake.ServerVerifiesHellos` | crates/llp-core/src/handshake.rs:548-584 | the same for the server, the other way round |
| `Handshake.ClientTellsWhy` | crates/llp-core/src/handshake.rs:361-449 | a call is refused for its state iff that is not the state it is for; what does not parse is refused with the parser's error |
| `Handshake.ServerTellsWhy` | crates/llp-core/src/handshake.rs:506-584 | the same for the server |
| `Handshake.ClientSuccessesAreBounded` | crates/llp-core/src/handshake.rs:361-449 | no sequence of calls succeeds more than four times |
| `Handshake.ServerSuccessesAreBounded` | crates/llp-core/src/handshake.rs:506-584 | no sequence of calls succeeds more than three times |
| `Handshake.ClientHandshake.constructor` | crates/llp-core/src/handshake.rs:346-358 | a new client is in the initial state with nothing stored |
| `Handshake.ClientHandshake.Start` | crates/llp-core/src/handshake.rs:361-377 | updates the object as the state machine does |
| `Handshake.ClientHandshake.ProcessServerHello` | crates/llp-core/src/handshake.rs:380-410 | updates the object as the state machine does; the stored hello is there when it is unwrapped |
| `Handshake.ClientHandshake.BuildTranscript` | crates/llp-core/src/handshake.rs:471-479 | both hellos are there when they are unwrapped, and the result is the transcript |
| `Handshake.ClientHandshake.SendClientVerify` | crates/llp-core/src/handshake.rs:413-429 | updates the object as the state machine does; the stored key is there when it is unwrapped |
| `Handshake.ClientHandshake.ProcessServerVerify` | crates/llp-core/src/handshake.rs:432-449 | updates the object as the state machine does, on malformed input and wrong tags too |
| `Handshake.ServerHandshake.constructor` | crates/llp-core/src/handshake.rs:494-503 | a new server is in the initial state with nothing stored |
| `Handshake.ServerHandshake.ProcessClientHello` | crates/llp-core/src/handshake.rs:506-545 | updates the object as the state machine does |
| `Handshake.ServerHandshake.BuildTranscript` | crates/llp-core/src/handshake.rs:606-614 | both hellos are there when they are unwrapped, and the result is the transcript |
| `Handshake.ServerHandshake.ProcessClientVerify` | crates/llp-core/src/handshake.rs:548-565 | updates the object as the state machine does, on malformed input and wrong tags too |
| `Handshake.ServerHandshake.SendVerify` | crates/llp-core/src/handshake.rs:568-584 | updates the object as the state machine does |
| `Agreement.StepKeepsInv` | crates/llp-core/src/handshake.rs:361-584 | one step of any party keeps: every verify message and every acceptance goes back to a party with that tag |
| `Agreement.RunKeepsInv` | crates/llp-core/src/handshake.rs:361-584 | that invariant holds in every reachable world of any number of clients and servers |
| `Agreement.ServerHasClient` | crates/llp-core/src/handshake.rs:548-584 | in every reachable world a server past CLIENT_VERIFY has a client past sending it, with the same hellos, session id, profile and, by Diffie-Hellman symmetry, key |
| `Agreement.ClientHasServer` | crates/llp-core/src/handshake.rs:432-449 | in every reachable world a completed client has a completed server with the same hellos, session id, profile and, by Diffie-Hellman symmetry, key |
| `Agreement.ClientRandomWasDrawn` | crates/llp-core/src/handshake.rs:370-374 | in every reachable world the random in a client's hello is one it drew at an earlier step |
| `Agreement.ServerRandomWasDrawn` | crates/llp-core/src/handshake.rs:519-528 | in every reachable world the random in a server's hello is one it drew at an earlier step, for a hello that parsed |
| `Agreement.RandomsAreFresh` | crates/llp-core/src/handshake.rs:152-155 | where the draws of a run are distinct, no two clients and no two servers have the same random |
| `Agreement.MatchingIsOneToOne` | crates/llp-core/src/handshake.rs:152-155 | in every reachable world of a run whose draws are distinct, the matching of agreeing parties is one-to-one |
| `Agreement.HonestExchangeCompletes` | crates/llp-core/src/handshake.rs:361-614 | the undisturbed exchange completes both sides, with one key, one session id and one profile |
| `DotNet.ReversedLittleEndian` | client-csharp/LLPClient/Crypto/Handshake.cs:63-69 | GetBytes followed by Reverse is the network-order encoding |
| `DotNet.FromReversed` | client-csharp/LLPClient/Crypto/Handshake.cs:99-104 | Reverse followed by ToUInt reads the network-order value |
| `CSharpHandshake.SerializeClientHello` | client-csharp/LLPClient/Crypto/Handshake.cs:52-72 | the buffer filled by offset equals the Rust serialization |
| `CSharpHandshake.DeserializeServerHello` | client-csharp/LLPClient/Crypto/Handshake.cs:83-106 | accepts what the Rust parser accepts, with the same value |
| `CSharpHandshake.BuildTranscript` | client-csharp/LLPClient/Crypto/Handshake.cs:249-271 | the transcript built by offset equals the two serialized hellos |
| `CSharpHandshake.ClientHandshake.constructor` | client-csharp/LLPClient/Crypto/Handshake.cs:178-190 | a new client has nothing stored |
| `CSharpHandshake.ClientHandshake.Start` | client-csharp/LLPClient/Crypto/Handshake.cs:192-196 | updates the fields as the C# state machine does, from any state |
| `CSharpHandshake.ClientHandshake.ProcessServerHello` | client-csharp/LLPClient/Crypto/Handshake.cs:198-225 | updates the fields as the C# state machine does, with the salt assembled by offset; a public key the library refuses is noticed only after the hello has been stored |
| `CSharpHandshake.ClientHandshake.SendClientVerify` | client-csharp/LLPClient/Crypto/Handshake.cs:227-235 | answers as the C# state machine does, and changes nothing |
| `CSharpHandshake.ClientHandshake.ProcessServerVerify` | client-csharp/LLPClient/Crypto/Handshake.cs:237-247 | answers as the C# state machine does, and changes nothing |
| `CSharpHandshake.TakenHelloGivesKey` | client-csharp/LLPClient/Crypto/Handshake.cs:198-225 | a SERVER_HELLO that is taken replaces hello and key, by HKDF of the Diffie-Hellman value and both randoms |
| `CSharpHandshake.RestartKeepsKey` | client-csharp/LLPClient/Crypto/Handshake.cs:192-235 | a restart keeps the old key and server hello, so that CLIENT_VERIFY then authenticates the new hello under the old key |
| `CSharpHandshake.ExceptionsTellWhy` | client-csharp/LLPClient/Crypto/Handshake.cs:198-247 | which exception a refused call throws |
| `CSharpHandshake.StepSimulation` | client-csharp/LLPClient/Crypto/Handshake.cs:192-247 | from related objects and on any call, reply and objects after agree iff the call is in order and no parsed hello with a refused key, or out of order and C# turns it down without a change, which is told from the state before |
| `CSharpHandshake.RunSimulation` | client-csharp/LLPClient/Crypto/Handshake.cs:192-271 | over any run of calls, in whatever order, replies and objects agree after every prefix iff every call is one of those |
| `CSharpHandshake.InOrderRunSimulation` | client-csharp/LLPClient/Crypto/Handshake.cs:192-271 | over any in-order run, malformed input included, all replies and the final objects agree iff no parsed hello of the run carries a refused key |
| `CSharpHandshake.RefusedKeysDivide` | client-csharp/LLPClient/Crypto/Handshake.cs:203-212 | on a hello with a refused key Rust succeeds, while C# has stored the hello and throws |
| `CSharpHandshake.OnlyCSharpRestarts` | client-csharp/LLPClient/Crypto/Handshake.cs:192-196 | an instance: from any related objects past the initial state, another start succeeds in C# and fails in Rust |
| `Frames.SealAt` | crates/llp-server/src/client_handler.rs:106-120 | a fresh cipher wound forward by n empty encryptions seals under counter n, and fails exactly when the counter is exhausted |
| `Frames.SendTask` | crates/llp-server/src/client_handler.rs:101-144 | a run's frames carry nonces 0, 1, 2, ..., each sealed under the nonce in front of it |
| `Frames.FrameLayout` | crates/llp-server/src/client_handler.rs:122-130 | each octet of a frame: the counter, the low half of the session id, and what is sealed under those twelve without additional data |
| `Frames.ClientSession.HandleIncomingPacket` | crates/llp-server/src/client_handler.rs:170-215 | short and old frames change nothing; any other moves the counter, wrapping, before it is opened |
| `Frames.FrameIsRecovered` | crates/llp-server/src/client_handler.rs:180-215 | a frame yields its IP packet iff the receive counter has not passed it |
| `Frames.RecoveredExactly` | crates/llp-server/src/client_handler.rs:180-215 | among any arrivals, garbage included, none numbered 2^64 - 1 before it, a sent frame yields its packet iff every earlier well-sized one has a smaller number |
| `Frames.InOrderRunIsRecovered` | crates/llp-server/src/client_handler.rs:101-215 | delivered in order, every frame of a send task yields its packet |
| `Frames.FilterIsMaximumPlusOne` | crates/llp-server/src/client_handler.rs:192-203 | short of 2^64 - 1, the receive counter is one more than the largest number that has arrived |
| `Frames.PassesIffStrictMaximum` | crates/llp-server/src/client_handler.rs:192-203 | short of 2^64 - 1, a frame passes iff its number exceeds all before it |
| `Frames.FilterIsRunningMaxima` | crates/llp-server/src/client_handler.rs:192-203 | on a stream the filter passes exactly the strict running maxima iff no number but the last is 2^64 - 1 |
| `Frames.FilterWithinWindow` | crates/llp-server/src/client_handler.rs:192-203 | on 32-bit numbers whatever the filter passes the sliding window passes too |
| `PacketEncryption.WraparoundIsHarmless` | client-csharp/LLPClient/Crypto/PacketEncryption.cs:82-108 | for every length field the wrapping checks let through exactly the lengths that fit, and for those nothing has wrapped |
| `PacketEncryption.PacketEncryption.BuildNonce` | client-csharp/LLPClient/Crypto/PacketEncryption.cs:132-145 | builds the same nonce octets as the Rust code |
| `PacketEncryption.PacketEncryption.Assemble` | client-csharp/LLPClient/Crypto/PacketEncryption.cs:46-66 | the buffer filled by offset is length, nonce, ciphertext and tag |
| `PacketEncryption.PacketEncryption.Encrypt` | client-csharp/LLPClient/Crypto/PacketEncryption.cs:32-69 | the packet is a length-prefixed frame under the counter's old value, and the counter moves on, wrapping |
| `PacketEncryption.PrefixLayout` | client-csharp/LLPClient/Crypto/PacketEncryption.cs:50-55 | the four length octets, most significant first, and the frame after them |
| `PacketEncryption.PacketEncryption.ReadLength` | client-csharp/LLPClient/Crypto/PacketEncryption.cs:81-86 | reads the big-endian length field |
| `PacketEncryption.PacketEncryption.Decrypt` | client-csharp/LLPClient/Crypto/PacketEncryption.cs:74-126 | total on every array: no copy leaves it; yields a plaintext iff the length field is between 28 and what follows it and the frame of that length opens |
| `PacketEncryption.OpensExactly` | client-csharp/LLPClient/Crypto/PacketEncryption.cs:74-126 | which arrays open, and to what, told from the octets |
| `PacketEncryption.DecryptUndoesEncrypt` | client-csharp/LLPClient/Crypto/PacketEncryption.cs:32-126 | decrypting any packet that encrypting can build gives the plaintext back, for every counter and whatever follows the packet |
| `PacketEncryption.ServerRecoversCSharpFrames` | client-csharp/LLPClient/Crypto/PacketEncryption.cs:32-69 | without its length prefix a C# packet is a frame the server recovers |
| `SessionManager.SessionManager.AddSession` | crates/llp-core/src/session.rs:314-338 | admits iff there are fewer than 1000 sessions and the id is new, and then adds just that entry, which a cleanup at that time keeps |
| `SessionManager.SessionManager.RemoveSession` | crates/llp-core/src/session.rs:355-360 | removes just that id, and fails iff it was absent |
| `SessionManager.SessionManager.CleanupExpired` | crates/llp-core/src/session.rs:363-372 | keeps, unchanged, exactly the sessions no older than the lifetime and heard from within 90 seconds, both, and returns how many it dropped |
| `SessionManager.CleanupsCompose` | crates/llp-core/src/session.rs:363-372 | a cleanup does not change what a later one leaves: a second one at the same time removes nothing, and none keeps what an earlier one would drop |
| `Listener.ProgressFacts` | crates/llp-server/src/listener.rs:148-188 | a hello is parked, with what was drawn for it, iff it parses and SERVER_HELLO goes out; a handshake completes exactly on an accepted CLIENT_VERIFY, and on no second one; it is then granted, with its own id, key and profile, or unanswered as the send succeeds or fails |
| `Listener.VerifiesExactly` | crates/llp-server/src/listener.rs:168-172 | a parked handshake accepts exactly packets that start with 3 and the HMAC of its hellos under its key |
| `Listener.AnswerHello` | crates/llp-server/src/listener.rs:149-167 | a new handshake object processes CLIENT_HELLO and is kept iff that parses and its answer could be sent |
| `Listener.AnswerVerify` | crates/llp-server/src/listener.rs:168-176 | the parked handshake object is worked on in place, and moves as its state machine does |
| `Listener.LlpListener.ProcessHandshake` | crates/llp-server/src/listener.rs:142-188 | the peer's parked handshake object advances, and no other peer's does, as far as the packet and the socket let it |
| `Listener.LlpListener.Settle` | crates/llp-server/src/listener.rs:191-239 | the session appears and the parked state goes exactly when a granted handshake is admitted |
| `Listener.LlpListener.HandleHandshakePacket` | crates/llp-server/src/listener.rs:142-244 | both parts together: the three tables after the call as a function of those before, of the packet and of chance |
| `Listener.LlpListener.HandleVpnPacket` | crates/llp-server/src/listener.rs:247-275 | a well-sized packet of a connected peer moves that peer's counter beyond its number (2^64 - 1 apart) and nothing else, and is opened under that peer's key |
| `Listener.CounterFollowsFrames` | crates/llp-server/src/listener.rs:247-275 | over any frames of one peer with a new session, its counter is that of the receive filter, and no other session changes |
| `Listener.NumbersDeliverOnce` | crates/llp-server/src/client_handler.rs:192-203 | over any frames of one peer with a new session, those that deliver have increasing numbers, so that each number delivers at most once, if none before the later is 2^64 - 1 |
| `Listener.NewSessionsDeliver` | crates/llp-server/src/listener.rs:208-216 | a session just registered delivers every frame sealed for it, the first one numbered 0 included |
| `Interleavings.PublishedKeepsCore` | crates/llp-server/src/listener.rs:207-216 | the insertion into `client_sessions` finds no entry to overwrite, in any state satisfying the invariant |
| `Interleavings.RunKeepsInv` | crates/llp-server/src/listener.rs:125-275 | every reachable state of any number of interleaved tasks satisfies the invariant, with stale checks of `client_sessions` and stale parked states |
| `Interleavings.OneSessionPerPeer` | crates/llp-server/src/listener.rs:125-244 | in every interleaving a peer, once bound to a session id and key, stays bound to them |
| `Interleavings.StrandedNeverConnects` | crates/llp-server/src/listener.rs:168-194 | a peer whose completed handshake stays parked stays so and never obtains a session |
| `Interleavings.StrandedIsReached` | crates/llp-server/src/listener.rs:168-176 | for every suite, peer, hello and chance there is a run that strands the peer |
| `Interleavings.StrandedExactly` | crates/llp-server/src/listener.rs:168-194 | a handshake is parked as completed outside any critical section iff at an earlier step `add_session` refused it, or its CLIENT_VERIFY was accepted and sending SERVER_VERIFY failed |
| `Interleavings.ParkedHandshakes` | crates/llp-server/src/listener.rs:148-194 | in any run whose sends succeed, a parked handshake awaits CLIENT_VERIFY, is being registered, or was refused by `add_session` at an earlier step |
| `Interleavings.SessionsWereGranted` | crates/llp-server/src/listener.rs:179-216 | every session carries the id and key of that peer's own completed handshake, and the manager admitted these and the profile at an earlier step |
| `Interleavings.SessionIsReached` | crates/llp-server/src/listener.rs:142-239 | for every suite, peer, hello and chance whose sends succeed there is a run that ends in the peer's session |
| `Interleavings.ParkedIsFinal` | crates/llp-server/src/listener.rs:146-172 | once a handshake is parked, in every later state without a session for the peer it is still the same hellos, key, id and profile |
| `Interleavings.ParkedWasAnswered` | crates/llp-server/src/listener.rs:146-167 | in every reachable state a handshake is parked only where an earlier CLIENT_HELLO of that peer parsed and its SERVER_HELLO went out, and it carries that hello and what was drawn for it |
| `Interleavings.NumbersDeliverOnce` | crates/llp-server/src/listener.rs:247-275 | in every interleaving, the VPN packets of a peer that deliver have increasing numbers, unless one numbered 2^64 - 1 comes before the later |
| `Interleavings.NewSessionsDeliver` | crates/llp-server/src/listener.rs:208-216 | right after its publication a session delivers every frame sealed for it |
| `Interleavings.CleanupIsAnExpiry` | crates/llp-server/src/main.rs:233-241 | the cleanup task's step leaves the manager the survivors of that time and everything else as it was |
| `Interleavings.UninterruptedIsTheMethod` | crates/llp-server/src/listener.rs:142-244 | run without interference, the atomic steps compute the very function that HandleHandshakePacket is proved to compute |
| `Locks.NestedIsOrdered` | crates/llp-server/src/listener.rs:142-274 | nested guards whose ranks increase inward acquire in increasing rank, release only what they hold, and end holding nothing |
| `Locks.EveryPathIsOrdered` | crates/llp-server/src/client_handler.rs:229-247 | that holds of every path: listener.rs:127-274, client_handler.rs:229-247, client_registry.rs:32-75, nat.rs:136-138, main.rs:197-240, router.rs:251-259 |
| `Locks.RunKeepsInv` | crates/llp-server/src/listener.rs:111-115 | every reachable state of any number of tasks keeps each task on an ordered rest of its path |
| `Locks.NoCircularWait` | crates/llp-server/src/listener.rs:143-249 | in no reachable state is there a cycle of tasks waiting for locks held by, or queued for earlier by, the next |
| `Locks.StuckExactly` | crates/llp-server/src/main.rs:197-207 | no task can move iff the device has nothing and every unfinished task is in its read or queued, through a chain of locks, behind one that is |
| `Locks.SomeTaskCanMove` | crates/llp-server/src/main.rs:197-207 | unless a task waits in the TUN device read for a packet, some task can move while any is unfinished |
| `Locks.StuckStateIsReached` | crates/llp-server/src/main.rs:197-207 | that state is reached: the reader in its read, a frame waiting for the device lock, and a packet waiting for the frame |

## Left out

- Sockets, the Tokio runtime, channels between tasks, TUN and Wintun devices, operating-system commands, configuration, logging and user interfaces; what arrives, whether a send succeeds, time and randomness are parameters.
- The internals of X25519, HKDF, HMAC and ChaCha20-Poly1305, and Ed25519 and BLAKE3, which no modelled path uses.
- Mimicry wrappers: `wrap` and `unwrap` are the identity, as they are for the profile without mimicry.
- A session's activity and keepalive clocks and its timestamp check; the manager's entries carry the two clocks that expiry reads.
- `Primitives.Suite`: sealing never fails, where the library refuses messages beyond 256 GiB. Which public keys BouncyCastle refuses is a parameter of the C# client.
- `ReplayWindow.ReplayWindow.constructor`: excludes a window of size 0; the struct is private and built with 256 only.
- `Connection.ServerConnection`: exists only with a session, so the errors for a missing session, wrapper or stream do not occur; the length prefix and the stream reads are left out.
- `Packet.DeserializeHeader`: stated for a cursor at its start, which is how it is called.
- `Packet.Deserialize`: the source's last length check cannot fail after the size check and has no counterpart; nor has the error for unknown flags, since all eight bits are named.
- `Frames.SendTask`: ends with its packets, where the source's loop also ends on a socket error.
- `Frames.NextCounter`: wraps as the release build does; a debug build panics there instead.
- `PacketEncryption.PacketEncryption.Decrypt`: the runtime's exceptions for a wrong tag are a missing result; any array length up to 2^31 - 1 is covered.
- `Listener.LlpListener.ProcessHandshake`: an entry that `or_insert` puts in and the call then replaces is written once; nothing reads it in between.
- `Channel.OutputsAreAuthentic`: speaks of one direction, so that a packet returned to its own sender counts as forged; `Channel.DirectionsAreNotSeparated` shows why it must.
- `Agreement`: parties keep their secrets to themselves and verify messages come from parties only; who a party is, and secrecy of keys, are not modelled.
- `Interleavings`: peers never leave `client_sessions`, as in the source; VPN addresses, shared modulo 253, are not modelled.
- `Locks`: the locks on the NAT table and on the bypassed addresses, which no live path takes together with another; waits other than for locks and for the TUN read, such as device writes and the pause after a failed read, are taken to end.
- NAT tables, the router's dead forwarding code, DPI bypass, C# stream framing, installers and scripts.
