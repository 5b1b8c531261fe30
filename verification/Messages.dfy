/** Handshake messages (crates/llp-core/src/handshake.rs): their octets, what each
    parser accepts, and the transcript both sides authenticate. */
module Messages {
  import opened Bytes
  import opened Wrappers
  import opened Profiles

  const CLIENT_HELLO: byte := 1
  const SERVER_HELLO: byte := 2
  const CLIENT_VERIFY: byte := 3
  const SERVER_VERIFY: byte := 4

  const CLIENT_HELLO_SIZE := 67
  const SERVER_HELLO_SIZE := 73
  const VERIFY_SIZE := 33

  // "llp-session-key-v1"
  const HKDF_INFO: bytes :=
    [108, 108, 112, 45, 115, 101, 115, 115, 105, 111, 110, 45, 107, 101, 121, 45, 118, 49]

  datatype ClientHello = ClientHello(publicKey: Block32, random: Block32, profile: MimicryProfile)
  datatype ServerHello = ServerHello(publicKey: Block32, random: Block32, sessionId: u64)

  datatype State =
    | Initial | ClientHelloSent | ServerHelloReceived | ClientVerifySent | Completed
    | ClientHelloReceived | ServerHelloSent | ClientVerifyReceived

  datatype HandshakeError =
    | InvalidMessageFormat
    | UnexpectedMessage(expected: byte, actual: byte)
    | UnsupportedMimicryProfile(id: u16)
    | VerificationFailed
    | InvalidState(state: State)

  function ClientHelloBytes(h: ClientHello): (b: bytes)
    ensures |b| == CLIENT_HELLO_SIZE && b[0] == CLIENT_HELLO
  {
    [CLIENT_HELLO] + h.publicKey + h.random + BigEndian(2, h.profile.ToU16())
  }

  function ParseClientHello(d: bytes): Result<ClientHello, HandshakeError> {
    SpanValues();
    if |d| < CLIENT_HELLO_SIZE then Failure(InvalidMessageFormat)
    else if d[0] != CLIENT_HELLO then Failure(UnexpectedMessage(CLIENT_HELLO, d[0]))
    else match FromU16(FromBigEndian(d[65..67]))
      case None => Failure(UnsupportedMimicryProfile(FromBigEndian(d[65..67])))
      case Some(profile) => Success(ClientHello(d[1..33], d[33..65], profile))
  }

  function ServerHelloBytes(h: ServerHello): (b: bytes)
    ensures |b| == SERVER_HELLO_SIZE && b[0] == SERVER_HELLO
  {
    [SERVER_HELLO] + h.publicKey + h.random + BigEndian(8, h.sessionId)
  }

  function ParseServerHello(d: bytes): Result<ServerHello, HandshakeError> {
    SpanValues();
    if |d| < SERVER_HELLO_SIZE then Failure(InvalidMessageFormat)
    else if d[0] != SERVER_HELLO then Failure(UnexpectedMessage(SERVER_HELLO, d[0]))
    else Success(ServerHello(d[1..33], d[33..65], FromBigEndian(d[65..73])))
  }

  /** CLIENT_VERIFY and SERVER_VERIFY differ in their type octet only. */
  function VerifyBytes(kind: byte, tag: Block32): (b: bytes)
    ensures |b| == VERIFY_SIZE && b[0] == kind
  {
    [kind] + tag
  }

  function ParseVerify(kind: byte, d: bytes): Result<Block32, HandshakeError> {
    if |d| < VERIFY_SIZE then Failure(InvalidMessageFormat)
    else if d[0] != kind then Failure(UnexpectedMessage(kind, d[0]))
    else Success(d[1..33])
  }

  function Transcript(c: ClientHello, s: ServerHello): bytes {
    ClientHelloBytes(c) + ServerHelloBytes(s)
  }

  lemma HkdfInfoText()
    ensures HKDF_INFO == Ascii("llp-session-key-v1")
  {
  }

  /** Which octets of the messages and of the transcript hold what. */
  lemma HelloLayout(c: ClientHello, s: ServerHello)
    ensures var d := ClientHelloBytes(c);
            |d| == 67 && d[0] == 1 && d[1..33] == c.publicKey && d[33..65] == c.random
            && d[65] == 0 && d[66] == c.profile.ToU16()
    ensures var d := ServerHelloBytes(s);
            |d| == 73 && d[0] == 2 && d[1..33] == s.publicKey && d[33..65] == s.random
            && d[65..73] == BigEndian(8, s.sessionId)
    ensures Transcript(c, s)[..67] == ClientHelloBytes(c) && Transcript(c, s)[67..] == ServerHelloBytes(s)
  {
    assert ServerHelloBytes(s)[65..] == BigEndian(8, s.sessionId);
    BigEndianAt(2, c.profile.ToU16(), 0);
    BigEndianAt(2, c.profile.ToU16(), 1);
    SpanValues();
  }

  lemma VerifyLayout(tag: Block32)
    ensures VerifyBytes(CLIENT_VERIFY, tag) == [3] + tag && VerifyBytes(SERVER_VERIFY, tag) == [4] + tag
  {
  }

  /** Which inputs each parser refuses, and why. */
  lemma RefusesExactly(d: bytes)
    ensures |d| < 67 ==> ParseClientHello(d) == Failure(InvalidMessageFormat)
    ensures |d| >= 67 ==>
              var profile := 256 * d[65] as int + d[66];
              if d[0] != 1 then ParseClientHello(d) == Failure(UnexpectedMessage(1, d[0]))
              else if profile > 3 then ParseClientHello(d) == Failure(UnsupportedMimicryProfile(profile))
              else ParseClientHello(d).Success?
    ensures |d| < 73 ==> ParseServerHello(d) == Failure(InvalidMessageFormat)
    ensures |d| >= 73 ==>
              if d[0] != 2 then ParseServerHello(d) == Failure(UnexpectedMessage(2, d[0]))
              else ParseServerHello(d).Success?
    ensures forall kind :: |d| < 33 ==> ParseVerify(kind, d) == Failure(InvalidMessageFormat)
    ensures forall kind :: |d| >= 33 ==>
              if d[0] != kind then ParseVerify(kind, d) == Failure(UnexpectedMessage(kind, d[0]))
              else ParseVerify(kind, d).Success?
  {
    if |d| >= 67 {
      assert d[65..67] == [d[65], d[66]];
      TwoOctets(d[65], d[66]);
    }
  }

  lemma ClientHelloIsRead(d: bytes, h: ClientHello)
    requires ClientHelloBytes(h) <= d
    ensures ParseClientHello(d) == Success(h)
  {
    SpanValues();
    HelloLayout(h, ServerHello(h.publicKey, h.random, 0));
    var b := ClientHelloBytes(h);
    assert d[1..33] == b[1..33] && d[33..65] == b[33..65];
    assert d[65..67] == [b[65], b[66]];
    TwoOctets(b[65], b[66]);
  }

  lemma ClientHelloWasWritten(d: bytes)
    requires ParseClientHello(d).Success?
    ensures ClientHelloBytes(ParseClientHello(d).value) == d[..67]
  {
    BigEndianOfValue(d[65..67]);
    assert d[..67] == [d[0]] + d[1..33] + d[33..65] + d[65..67];
  }

  /** A parser accepts exactly the serialized messages, followed by anything. */
  lemma ClientHelloCodec(d: bytes, h: ClientHello)
    ensures ParseClientHello(d) == Success(h) <==> ClientHelloBytes(h) <= d
  {
    if ClientHelloBytes(h) <= d {
      ClientHelloIsRead(d, h);
    } else if ParseClientHello(d) == Success(h) {
      ClientHelloWasWritten(d);
    }
  }

  lemma ServerHelloIsRead(d: bytes, h: ServerHello)
    requires ServerHelloBytes(h) <= d
    ensures ParseServerHello(d) == Success(h)
  {
    SpanValues();
    HelloLayout(ClientHello(h.publicKey, h.random, Plain), h);
    var b := ServerHelloBytes(h);
    assert d[1..33] == b[1..33] && d[33..65] == b[33..65] && d[65..73] == b[65..73];
    BigEndianRoundTrip(8, h.sessionId);
  }

  lemma ServerHelloWasWritten(d: bytes)
    requires ParseServerHello(d).Success?
    ensures ServerHelloBytes(ParseServerHello(d).value) == d[..73]
  {
    BigEndianOfValue(d[65..73]);
    assert d[..73] == [d[0]] + d[1..33] + d[33..65] + d[65..73];
  }

  lemma ServerHelloCodec(d: bytes, h: ServerHello)
    ensures ParseServerHello(d) == Success(h) <==> ServerHelloBytes(h) <= d
  {
    if ServerHelloBytes(h) <= d {
      ServerHelloIsRead(d, h);
    } else if ParseServerHello(d) == Success(h) {
      ServerHelloWasWritten(d);
    }
  }

  lemma VerifyCodec(kind: byte, d: bytes, tag: Block32)
    ensures ParseVerify(kind, d) == Success(tag) <==> VerifyBytes(kind, tag) <= d
  {
    var b := VerifyBytes(kind, tag);
    assert b[1..33] == tag;
    if |d| >= VERIFY_SIZE {
      assert d[..33] == [d[0]] + d[1..33];
    }
    if b <= d {
      assert d[1..33] == b[1..33];
    }
  }

  /** The fixed-length transcript determines both hellos. */
  lemma TranscriptIsInjective(c1: ClientHello, s1: ServerHello, c2: ClientHello, s2: ServerHello)
    requires Transcript(c1, s1) == Transcript(c2, s2)
    ensures c1 == c2 && s1 == s2
  {
    assert Transcript(c1, s1)[67..] == ServerHelloBytes(s1) && Transcript(c2, s2)[67..] == ServerHelloBytes(s2);
    ClientHelloCodec(Transcript(c1, s1), c1);
    ClientHelloCodec(Transcript(c1, s1), c2);
    ServerHelloCodec(ServerHelloBytes(s1), s1);
    ServerHelloCodec(ServerHelloBytes(s1), s2);
  }
}
