/** The Rust client's data path (crates/llp-client/src/connection.rs): header as
    additional data outward, the header as received inward. */
module Connection {
  import opened Bytes
  import opened Wrappers
  import opened Primitives
  import opened Crypto
  import opened Profiles
  import opened Buffers
  import opened Packet
  import opened ReplayWindow
  import S = Session
  import C = Channel

  datatype ConnectionError = FrameTooLarge | PacketFailure(p: PacketError) | SessionFailure(s: S.SessionError)

  const NO_TAG: Block16 := seq(16, _ => 0)

  /** The header send_packet seals under and then hands to the packet. */
  function SendHeader(sessionId: u64, n: u32, timestamp: u32, profile: MimicryProfile): PacketHeader {
    PacketHeader(PROTOCOL_VERSION, FLAG_DATA, 0, sessionId, n, timestamp, profile, 0)
  }

  /** What send_packet puts on the wire for the n-th request of a session. */
  function SentPacket(suite: Suite, key: Block32, header: PacketHeader, ip: bytes): LlpPacket {
    LlpPacket(header, suite.seal(key, NonceBytes(header.sessionId, header.sequenceNumber), HeaderBytes(header), ip),
              [], NO_TAG)
  }

  class ServerConnection {
    const session: S.Session

    constructor (session: S.Session)
      ensures this.session == session
    {
      this.session := session;
    }

    method HeaderAad(header: PacketHeader) returns (aad: bytes)
      ensures aad == HeaderBytes(header)
    {
      var buf := new BytesMut();
      SerializeHeader(header, buf);
      aad := buf.data;
    }

    /** The k-th call seals under nonce k and writes k into the header; a payload
        beyond the bound is refused only after its number has been spent. */
    method SendPacket(ip: bytes, timestamp: u32) returns (r: Result<bytes, ConnectionError>)
      requires session.Sends()
      modifies session, session.txCipher
      ensures session.Sends() && session.calls == old(session.calls) + 1
      ensures old(session.calls) < U32_MAX && |ip| <= MAX_PAYLOAD_SIZE - AEAD_TAG_SIZE ==>
                r == Success(PacketBytes(SentPacket(session.suite, session.sessionKey,
                       SendHeader(session.sessionId, old(session.calls), timestamp, session.mimicryProfile), ip)))
      ensures old(session.calls) < U32_MAX && |ip| > MAX_PAYLOAD_SIZE - AEAD_TAG_SIZE ==>
                r == Failure(PacketFailure(PacketTooLarge(|ip| + AEAD_TAG_SIZE)))
      ensures old(session.calls) >= U32_MAX ==> r.Failure? && r.error.SessionFailure?
    {
      var header := PacketHeader(PROTOCOL_VERSION, FLAG_DATA, 0, session.sessionId, session.txSequence,
                                 timestamp, session.mimicryProfile, 0);
      var aad := HeaderAad(header);
      var encrypted := session.EncryptPayload(ip, aad);
      if encrypted.Failure? {
        return Failure(SessionFailure(encrypted.error));
      }
      var packet := New(header, encrypted.value.0, [], seq(16, _ => 0));
      if packet.Failure? {
        return Failure(PacketFailure(packet.error));
      }
      var serialized := Serialize(packet.value);
      if serialized.Failure? {
        return Failure(PacketFailure(serialized.error));
      }
      return Success(serialized.value);
    }

    method ReceivePacket(frame: bytes) returns (r: Result<bytes, ConnectionError>)
      requires session.Receives()
      modifies session.rxReplayWindow
      ensures session.Receives()
      ensures |frame| > MAX_PACKET_SIZE ==> r == Failure(FrameTooLarge) && session.Received() == old(session.Received())
      ensures |frame| <= MAX_PACKET_SIZE && ParsePacket(frame).Failure? ==>
                r == Failure(PacketFailure(ParsePacket(frame).error)) && session.Received() == old(session.Received())
      ensures |frame| <= MAX_PACKET_SIZE && ParsePacket(frame).Success? ==>
                var p := ParsePacket(frame).value;
                var n := p.header.sequenceNumber;
                && session.Received() == old(session.Received()).Record(S.REPLAY_WINDOW_SIZE, n)
                && r == match S.Verdict(session.suite, session.sessionKey, session.sessionId, old(session.Received()),
                                        p.payload, HeaderBytes(p.header), n)
                        case Success(ip) => Success(ip)
                        case Failure(e) => Failure(SessionFailure(e))
    {
      if |frame| > MAX_PACKET_SIZE {
        return Failure(FrameTooLarge);
      }
      var packet := Deserialize(frame);
      if packet.Failure? {
        return Failure(PacketFailure(packet.error));
      }
      var header := packet.value.header;
      var aad := HeaderAad(header);
      var plaintext := session.DecryptPayload(packet.value.payload, aad, header.sequenceNumber);
      match plaintext
      case Success(ip) => return Success(ip);
      case Failure(e) => return Failure(SessionFailure(e));
    }
  }

  lemma HeaderBytesInjective(h1: PacketHeader, h2: PacketHeader)
    requires HeaderBytes(h1) == HeaderBytes(h2)
    ensures h1.payloadLength == h2.payloadLength && h1.paddingLength == h2.paddingLength
  {
    SpanValues();
    assert HeaderBytes(h1)[2..4] == BigEndian(2, h1.payloadLength);
    assert HeaderBytes(h2)[2..4] == BigEndian(2, h2.payloadLength);
    assert HeaderBytes(h1)[22..24] == BigEndian(2, h1.paddingLength);
    assert HeaderBytes(h2)[22..24] == BigEndian(2, h2.paddingLength);
    BigEndianRoundTrip(2, h1.payloadLength);
    BigEndianRoundTrip(2, h2.payloadLength);
    BigEndianRoundTrip(2, h1.paddingLength);
    BigEndianRoundTrip(2, h2.paddingLength);
  }

  /** The data sealed under and the data rebuilt on receipt agree exactly when the
      header already held the real lengths at sealing time. */
  lemma AadSurvivesTheWire(p: LlpPacket)
    requires |p.payload| < 0x1_0000 && |p.padding| <= MAX_PADDING_SIZE && p.header.version == PROTOCOL_VERSION
    ensures ParsePacket(PacketBytes(p)).Success?
    ensures HeaderBytes(p.header) == HeaderBytes(ParsePacket(PacketBytes(p)).value.header)
            <==> p.header.payloadLength == |p.payload| && p.header.paddingLength == |p.padding|
  {
    PacketRoundTrip(p);
    if HeaderBytes(p.header) == HeaderBytes(p.FilledHeader()) {
      HeaderBytesInjective(p.header, p.FilledHeader());
    }
  }

  /** With the real lengths in the header before sealing, a receiver whose window
      takes the number recovers the IP packet. */
  lemma ReceiveUndoesSend(suite: Suite, key: Block32, header: PacketHeader, ip: bytes, h: History)
    requires header.version == PROTOCOL_VERSION && |ip| <= MAX_PAYLOAD_SIZE - AEAD_TAG_SIZE
    requires header.payloadLength == |ip| + AEAD_TAG_SIZE && header.paddingLength == 0
    requires h.Accepts(header.sequenceNumber)
    ensures var p := ParsePacket(PacketBytes(SentPacket(suite, key, header, ip)));
            && p.Success? && |PacketBytes(SentPacket(suite, key, header, ip))| <= MAX_PACKET_SIZE
            && S.Verdict(suite, key, header.sessionId, h, p.value.payload, HeaderBytes(p.value.header),
                         p.value.header.sequenceNumber) == Success(ip)
  {
    PacketRoundTrip(SentPacket(suite, key, header, ip));
  }

  /** What the receiver reads in the header of a sent packet. */
  lemma SentHeaderIsRead(suite: Suite, key: Block32, sessionId: u64, n: u32, timestamp: u32, profile: MimicryProfile,
                         ip: bytes)
    requires |ip| <= MAX_PAYLOAD_SIZE - AEAD_TAG_SIZE
    ensures var p := ParsePacket(PacketBytes(SentPacket(suite, key, SendHeader(sessionId, n, timestamp, profile), ip)));
            && p.Success?
            && p.value.header == PacketHeader(1, 1, |ip| + 16, sessionId, n, timestamp, profile, 0)
            && p.value.padding == [] && p.value.authTag == seq(16, _ => 0)
  {
    PacketRoundTrip(SentPacket(suite, key, SendHeader(sessionId, n, timestamp, profile), ip));
  }

  /** What a run of send_packet asks its session to seal: headers of length 0. */
  ghost predicate FromSendPacket(reqs: seq<C.Request>) {
    forall r <- reqs :: exists h: PacketHeader :: h.payloadLength == 0 && r.aad == HeaderBytes(h)
  }

  lemma LengthKeepsShut(suite: Suite, key: Block32, sessionId: u64, reqs: seq<C.Request>,
                        h: PacketHeader, payload: bytes)
    requires FromSendPacket(reqs) && h.payloadLength != 0
    requires C.Unforged(suite, key, sessionId, C.Sent(suite, key, sessionId, reqs),
                        C.Packet(payload, HeaderBytes(h), h.sequenceNumber))
    ensures suite.open(key, NonceBytes(sessionId, h.sequenceNumber), HeaderBytes(h), payload).None?
  {
    var sent := C.Sent(suite, key, sessionId, reqs);
    forall d <- sent ensures d.aad != HeaderBytes(h) {
      var r :| r in reqs && r.aad == d.aad;
      var h0: PacketHeader :| h0.payloadLength == 0 && r.aad == HeaderBytes(h0);
      if HeaderBytes(h0) == HeaderBytes(h) {
        HeaderBytesInjective(h0, h);
      }
    }
  }

  /** As send_packet is written the lengths are still 0 when it seals, while the
      receiver rebuilds them from at least 16 octets of payload: short of a forgery,
      no packet it sends is ever opened. */
  lemma SendPacketNeverOpens(suite: Suite, key: Block32, sessionId: u64, n: u32, timestamp: u32,
                             profile: MimicryProfile, ip: bytes, reqs: seq<C.Request>, h: History)
    requires |ip| <= MAX_PAYLOAD_SIZE - AEAD_TAG_SIZE && FromSendPacket(reqs)
    requires var p := SentPacket(suite, key, SendHeader(sessionId, n, timestamp, profile), ip);
             C.Unforged(suite, key, sessionId, C.Sent(suite, key, sessionId, reqs),
                        C.Packet(p.payload, HeaderBytes(p.FilledHeader()), n))
    ensures var p := ParsePacket(PacketBytes(SentPacket(suite, key, SendHeader(sessionId, n, timestamp, profile), ip)));
            && p.Success?
            && S.Verdict(suite, key, sessionId, h, p.value.payload, HeaderBytes(p.value.header), n).Failure?
  {
    var p := SentPacket(suite, key, SendHeader(sessionId, n, timestamp, profile), ip);
    PacketRoundTrip(p);
    LengthKeepsShut(suite, key, sessionId, reqs, p.FilledHeader(), p.payload);
  }

  /** The same of a packet the session did send, where the AEAD binds its ciphertexts to
      their nonces and headers. */
  lemma SentPacketNeverOpens(suite: Suite, key: Block32, sessionId: u64, n: u32, timestamp: u32,
                             profile: MimicryProfile, ip: bytes, reqs: seq<C.Request>, used: set<(Block12, bytes)>,
                             h: History)
    requires |ip| <= MAX_PAYLOAD_SIZE - AEAD_TAG_SIZE && FromSendPacket(reqs)
    requires n < |reqs| && n < U32_MAX
    requires reqs[n] == C.Request(ip, HeaderBytes(SendHeader(sessionId, n, timestamp, profile)))
    requires C.Binding(suite, key, used)
    requires forall d <- C.Sent(suite, key, sessionId, reqs) :: C.Label(sessionId, d) in used
    requires var p := SentPacket(suite, key, SendHeader(sessionId, n, timestamp, profile), ip);
             (NonceBytes(sessionId, n), HeaderBytes(p.FilledHeader())) in used
    ensures var p := ParsePacket(PacketBytes(SentPacket(suite, key, SendHeader(sessionId, n, timestamp, profile), ip)));
            && p.Success?
            && S.Verdict(suite, key, sessionId, h, p.value.payload, HeaderBytes(p.value.header), n).Failure?
  {
    var p := SentPacket(suite, key, SendHeader(sessionId, n, timestamp, profile), ip);
    var arrived := C.Packet(p.payload, HeaderBytes(p.FilledHeader()), n);
    assert C.Sent(suite, key, sessionId, reqs)[n].ciphertext == arrived.ciphertext;
    C.RecombinedIsUnforged(suite, key, sessionId, reqs, used, arrived);
    SendPacketNeverOpens(suite, key, sessionId, n, timestamp, profile, ip, reqs, h);
  }
}
