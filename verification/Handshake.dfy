/** The two handshake contexts as state machines, and the objects that run them. */
module Handshake {
  import opened Bytes
  import opened Wrappers
  import opened Primitives
  import opened Profiles
  import opened Messages

  datatype Reply = Message(data: bytes) | Hello(message: bytes, profile: MimicryProfile) | SessionId(id: u64) | Done

  datatype ClientCall =
    | Start(random: Block32)
    | TakeServerHello(data: bytes)
    | SendVerify
    | TakeServerVerify(verify: bytes)

  datatype ServerCall =
    | TakeClientHello(random: Block32, data: bytes)
    | TakeClientVerify(verify: bytes)
    | SendServerVerify

  function DeriveKey(suite: Suite, secret: Block32, peer: Block32, clientRandom: Block32, serverRandom: Block32)
    : Block32
  {
    suite.derive(suite.agree(secret, peer), clientRandom + serverRandom, HKDF_INFO)
  }

  datatype ClientState = ClientState(
    state: State, secret: Block32, profile: MimicryProfile,
    hello: Option<ClientHello>, serverHello: Option<ServerHello>, key: Option<Block32>)
  {
    function Rank(): nat {
      match state
      case ClientHelloSent => 1
      case ServerHelloReceived => 2
      case ClientVerifySent => 3
      case Completed => 4
      case _ => 0
    }

    /** What is stored is exactly what the state calls for. */
    ghost predicate WellFormed(suite: Suite) {
      && (Rank() == 0 ==> state == Initial)
      && (if Rank() >= 1 then
            hello.Some? && hello.value.publicKey == suite.public(secret) && hello.value.profile == profile
          else hello.None?)
      && (if Rank() >= 2 then
            && serverHello.Some?
            && key == Some(DeriveKey(suite, secret, serverHello.value.publicKey,
                                     hello.value.random, serverHello.value.random))
          else serverHello.None? && key.None?)
    }

    /** The HMAC of this side's transcript under this side's key, once it has both. */
    function Tag(suite: Suite): Option<Block32> {
      if hello.Some? && serverHello.Some? && key.Some?
      then Some(suite.hmac(key.value, Transcript(hello.value, serverHello.value)))
      else None
    }

    function SessionKey(): Option<Block32> {
      if state == Completed then key else None
    }
  }

  function ClientStep(suite: Suite, c: ClientState, call: ClientCall): (ClientState, Result<Reply, HandshakeError>)
    requires c.WellFormed(suite)
  {
    match call
    case Start(random) =>
      if c.state != Initial then (c, Failure(InvalidState(c.state)))
      else
        var hello := ClientHello(suite.public(c.secret), random, c.profile);
        (c.(state := ClientHelloSent, hello := Some(hello)), Success(Message(ClientHelloBytes(hello))))
    case TakeServerHello(data) =>
      if c.state != ClientHelloSent then (c, Failure(InvalidState(c.state)))
      else (
        match ParseServerHello(data)
        case Failure(e) => (c, Failure(e))
        case Success(sh) =>
          var key := DeriveKey(suite, c.secret, sh.publicKey, c.hello.value.random, sh.random);
          (c.(state := ServerHelloReceived, serverHello := Some(sh), key := Some(key)),
           Success(SessionId(sh.sessionId))))
    case SendVerify =>
      if c.state != ServerHelloReceived then (c, Failure(InvalidState(c.state)))
      else (c.(state := ClientVerifySent), Success(Message(VerifyBytes(CLIENT_VERIFY, c.Tag(suite).value))))
    case TakeServerVerify(data) =>
      if c.state != ClientVerifySent then (c, Failure(InvalidState(c.state)))
      else match ParseVerify(SERVER_VERIFY, data)
        case Failure(e) => (c, Failure(e))
        case Success(tag) =>
          if Some(tag) != c.Tag(suite) then (c, Failure(VerificationFailed))
          else (c.(state := Completed), Success(Done))
  }

  datatype ServerState = ServerState(
    state: State, secret: Block32, sessionId: u64,
    clientHello: Option<ClientHello>, serverHello: Option<ServerHello>, key: Option<Block32>)
  {
    function Rank(): nat {
      match state
      case ServerHelloSent => 1
      case ClientVerifyReceived => 2
      case Completed => 3
      case _ => 0
    }

    ghost predicate WellFormed(suite: Suite) {
      && (Rank() == 0 ==> state == Initial)
      && (if Rank() >= 1 then
            && clientHello.Some? && serverHello.Some?
            && serverHello.value.publicKey == suite.public(secret) && serverHello.value.sessionId == sessionId
            && key == Some(DeriveKey(suite, secret, clientHello.value.publicKey,
                                     clientHello.value.random, serverHello.value.random))
          else clientHello.None? && serverHello.None? && key.None?)
    }

    function Tag(suite: Suite): Option<Block32> {
      if clientHello.Some? && serverHello.Some? && key.Some?
      then Some(suite.hmac(key.value, Transcript(clientHello.value, serverHello.value)))
      else None
    }

    function SessionKey(): Option<Block32> {
      if state == Completed then key else None
    }
  }

  function ServerStep(suite: Suite, s: ServerState, call: ServerCall): (ServerState, Result<Reply, HandshakeError>)
    requires s.WellFormed(suite)
  {
    match call
    case TakeClientHello(random, data) =>
      if s.state != Initial then (s, Failure(InvalidState(s.state)))
      else (
        match ParseClientHello(data)
        case Failure(e) => (s, Failure(e))
        case Success(ch) =>
          var sh := ServerHello(suite.public(s.secret), random, s.sessionId);
          var key := DeriveKey(suite, s.secret, ch.publicKey, ch.random, random);
          (s.(state := ServerHelloSent, clientHello := Some(ch), serverHello := Some(sh), key := Some(key)),
           Success(Hello(ServerHelloBytes(sh), ch.profile))))
    case TakeClientVerify(data) =>
      if s.state != ServerHelloSent then (s, Failure(InvalidState(s.state)))
      else (
        match ParseVerify(CLIENT_VERIFY, data)
        case Failure(e) => (s, Failure(e))
        case Success(tag) =>
          if Some(tag) != s.Tag(suite) then (s, Failure(VerificationFailed))
          else (s.(state := ClientVerifyReceived), Success(Done)))
    case SendServerVerify =>
      if s.state != ClientVerifyReceived then (s, Failure(InvalidState(s.state)))
      else (s.(state := Completed), Success(Message(VerifyBytes(SERVER_VERIFY, s.Tag(suite).value))))
  }

  /** The state a call is for. */
  function Awaited(call: ClientCall): State {
    match call
    case Start(_) => Initial
    case TakeServerHello(_) => ClientHelloSent
    case SendVerify => ServerHelloReceived
    case TakeServerVerify(_) => ClientVerifySent
  }

  function AwaitedByServer(call: ServerCall): State {
    match call
    case TakeClientHello(_, _) => Initial
    case TakeClientVerify(_) => ServerHelloSent
    case SendServerVerify => ClientVerifyReceived
  }

  function NewClient(secret: Block32, profile: MimicryProfile): ClientState {
    ClientState(Initial, secret, profile, None, None, None)
  }

  function NewServer(secret: Block32, sessionId: u64): ServerState {
    ServerState(Initial, secret, sessionId, None, None, None)
  }

  /** Whatever is called in whatever order, a failure changes nothing, a success
      climbs exactly one rank, and the object stays well-formed. */
  lemma ClientStepClimbs(suite: Suite, c: ClientState, call: ClientCall)
    requires c.WellFormed(suite)
    ensures var (c', r) := ClientStep(suite, c, call);
            && c'.WellFormed(suite)
            && (r.Failure? ==> c' == c)
            && (r.Success? ==> c'.Rank() == c.Rank() + 1)
            && c'.SessionKey() == (if c'.state == Completed then c'.key else None)
            && (c.Rank() >= 1 ==> c'.hello == c.hello)
            && (c.Rank() >= 2 ==> c'.serverHello == c.serverHello && c'.key == c.key)
  {
  }

  lemma ServerStepClimbs(suite: Suite, s: ServerState, call: ServerCall)
    requires s.WellFormed(suite)
    ensures var (s', r) := ServerStep(suite, s, call);
            && s'.WellFormed(suite)
            && (r.Failure? ==> s' == s)
            && (r.Success? ==> s'.Rank() == s.Rank() + 1)
            && s'.SessionKey() == (if s'.state == Completed then s'.key else None)
            && (s.Rank() >= 1 ==> s'.clientHello == s.clientHello && s'.serverHello == s.serverHello && s'.key == s.key)
  {
  }

  /** Verify messages: a client emits only its own tag and completes only on its own
      tag sent as SERVER_VERIFY; a server likewise, the other way round. */
  lemma ClientVerifyTraffic(suite: Suite, c: ClientState, call: ClientCall)
    requires c.WellFormed(suite)
    ensures var (c', r) := ClientStep(suite, c, call);
            && (r.Success? && r.value.Message? && r.value.data[0] != CLIENT_HELLO ==>
                  && c'.Rank() == 3 && c'.Tag(suite).Some?
                  && r.value.data == VerifyBytes(CLIENT_VERIFY, c'.Tag(suite).value))
            && (r.Success? && c'.Rank() == 4 ==>
                  && call.TakeServerVerify? && c'.Tag(suite).Some?
                  && VerifyBytes(SERVER_VERIFY, c'.Tag(suite).value) <= call.verify)
  {
  }

  lemma ServerVerifyTraffic(suite: Suite, s: ServerState, call: ServerCall)
    requires s.WellFormed(suite)
    ensures var (s', r) := ServerStep(suite, s, call);
            && (r.Success? && r.value.Message? ==>
                  && s'.Rank() == 3 && s'.Tag(suite).Some?
                  && r.value.data == VerifyBytes(SERVER_VERIFY, s'.Tag(suite).value))
            && (r.Success? && s'.Rank() == 2 ==>
                  && call.TakeClientVerify? && s'.Tag(suite).Some?
                  && VerifyBytes(CLIENT_VERIFY, s'.Tag(suite).value) <= call.verify)
  {
  }

  /** A CLIENT_HELLO carries the public key of the client's secret and the drawn random,
      which is also what the client remembers; the hello it accepts it remembers whole. */
  lemma ClientHellosAreTrue(suite: Suite, c: ClientState, call: ClientCall)
    requires c.WellFormed(suite)
    ensures var (c', r) := ClientStep(suite, c, call);
            && (call.Start? && r.Success? ==>
                  && r.value.Message? && c'.hello == Some(ClientHello(suite.public(c.secret), call.random, c.profile))
                  && ParseClientHello(r.value.data) == Success(c'.hello.value))
            && (call.TakeServerHello? && r.Success? ==>
                  && ParseServerHello(call.data).Success? && c'.serverHello == Some(ParseServerHello(call.data).value)
                  && r.value == SessionId(ParseServerHello(call.data).value.sessionId))
  {
    if call.Start? {
      var hello := ClientHello(suite.public(c.secret), call.random, c.profile);
      ClientHelloCodec(ClientHelloBytes(hello), hello);
    }
  }

  /** A SERVER_HELLO carries the public key of the server's secret, the drawn random and
      the session id, which is also what the server remembers; likewise what it accepts. */
  lemma ServerHellosAreTrue(suite: Suite, s: ServerState, call: ServerCall)
    requires s.WellFormed(suite)
    ensures var (s', r) := ServerStep(suite, s, call);
            call.TakeClientHello? && r.Success? ==>
              && r.value.Hello? && s'.serverHello == Some(ServerHello(suite.public(s.secret), call.random, s.sessionId))
              && ParseServerHello(r.value.message) == Success(s'.serverHello.value)
              && ParseClientHello(call.data).Success? && s'.clientHello == Some(ParseClientHello(call.data).value)
              && r.value.profile == s'.clientHello.value.profile
  {
    if call.TakeClientHello? {
      var hello := ServerHello(suite.public(s.secret), call.random, s.sessionId);
      ServerHelloCodec(ServerHelloBytes(hello), hello);
    }
  }

  /** Either side's key is HKDF of the Diffie-Hellman value of its own secret and the
      other's public key, salted with both randoms. */
  lemma ClientKeyIsDerived(suite: Suite, c: ClientState)
    requires c.WellFormed(suite) && c.Rank() >= 2
    ensures c.key == Some(suite.derive(suite.agree(c.secret, c.serverHello.value.publicKey),
                                       c.hello.value.random + c.serverHello.value.random, Ascii("llp-session-key-v1")))
  {
    HkdfInfoText();
  }

  lemma ServerKeyIsDerived(suite: Suite, s: ServerState)
    requires s.WellFormed(suite) && s.Rank() >= 1
    ensures s.key == Some(suite.derive(suite.agree(s.secret, s.clientHello.value.publicKey),
                                       s.clientHello.value.random + s.serverHello.value.random,
                                       Ascii("llp-session-key-v1")))
  {
    HkdfInfoText();
  }

  /** HKDF does not give these two agreed values and salts the same key. */
  ghost predicate Separates(suite: Suite, agreed1: Block32, salt1: bytes, agreed2: Block32, salt2: bytes) {
    var info := Ascii("llp-session-key-v1");
    suite.derive(agreed1, salt1, info) == suite.derive(agreed2, salt2, info) ==> agreed1 == agreed2 && salt1 == salt2
  }

  /** Two clients with the same key agreed on the same value and saw the same randoms ... */
  lemma ClientKeysSeparate(suite: Suite, c: ClientState, d: ClientState)
    requires c.WellFormed(suite) && d.WellFormed(suite) && c.Rank() >= 2 && d.Rank() >= 2 && c.key == d.key
    requires Separates(suite,
               suite.agree(c.secret, c.serverHello.value.publicKey), c.hello.value.random + c.serverHello.value.random,
               suite.agree(d.secret, d.serverHello.value.publicKey), d.hello.value.random + d.serverHello.value.random)
    ensures suite.agree(c.secret, c.serverHello.value.publicKey) == suite.agree(d.secret, d.serverHello.value.publicKey)
    ensures c.hello.value.random == d.hello.value.random && c.serverHello.value.random == d.serverHello.value.random
  {
    ClientKeyIsDerived(suite, c);
    ClientKeyIsDerived(suite, d);
    SameHalves(c.hello.value.random, c.serverHello.value.random, d.hello.value.random, d.serverHello.value.random);
  }

  /** ... and so did two servers. */
  lemma ServerKeysSeparate(suite: Suite, s: ServerState, t: ServerState)
    requires s.WellFormed(suite) && t.WellFormed(suite) && s.Rank() >= 1 && t.Rank() >= 1 && s.key == t.key
    requires Separates(suite,
               suite.agree(s.secret, s.clientHello.value.publicKey),
               s.clientHello.value.random + s.serverHello.value.random,
               suite.agree(t.secret, t.clientHello.value.publicKey),
               t.clientHello.value.random + t.serverHello.value.random)
    ensures suite.agree(s.secret, s.clientHello.value.publicKey) == suite.agree(t.secret, t.clientHello.value.publicKey)
    ensures s.clientHello.value.random == t.clientHello.value.random
    ensures s.serverHello.value.random == t.serverHello.value.random
  {
    ServerKeyIsDerived(suite, s);
    ServerKeyIsDerived(suite, t);
    SameHalves(s.clientHello.value.random, s.serverHello.value.random,
               t.clientHello.value.random, t.serverHello.value.random);
  }

  lemma SameHalves(a: Block32, b: Block32, c: Block32, d: Block32)
    ensures a + b == c + d ==> a == c && b == d
  {
    assert (a + b)[..32] == a && (a + b)[32..] == b && (c + d)[..32] == c && (c + d)[32..] == d;
  }

  /** What a client sends as CLIENT_VERIFY and completes on as SERVER_VERIFY is the HMAC,
      under its key, of the two hellos one after the other. */
  lemma ClientVerifiesHellos(suite: Suite, c: ClientState, call: ClientCall)
    requires c.WellFormed(suite) && c.Rank() >= 2
    ensures var (c', r) := ClientStep(suite, c, call);
            var tag := suite.hmac(c.key.value, ClientHelloBytes(c.hello.value) + ServerHelloBytes(c.serverHello.value));
            && (call.SendVerify? && r.Success? ==> r.value == Message([3] + tag))
            && (call.TakeServerVerify? ==> (r.Success? <==> c.state == ClientVerifySent && [4] + tag <= call.verify))
            && (call.TakeServerVerify? && c.state == ClientVerifySent && ParseVerify(4, call.verify).Success? ==>
                  r.Success? || r.error == VerificationFailed)
  {
    if call.TakeServerVerify? {
      VerifyCodec(SERVER_VERIFY, call.verify, c.Tag(suite).value);
    }
  }

  /** The same for the server, the other way round. */
  lemma ServerVerifiesHellos(suite: Suite, s: ServerState, call: ServerCall)
    requires s.WellFormed(suite) && s.Rank() >= 1
    ensures var (s', r) := ServerStep(suite, s, call);
            var hellos := ClientHelloBytes(s.clientHello.value) + ServerHelloBytes(s.serverHello.value);
            var tag := suite.hmac(s.key.value, hellos);
            && (call.SendServerVerify? && r.Success? ==> r.value == Message([4] + tag))
            && (call.TakeClientVerify? ==> (r.Success? <==> s.state == ServerHelloSent && [3] + tag <= call.verify))
            && (call.TakeClientVerify? && s.state == ServerHelloSent && ParseVerify(3, call.verify).Success? ==>
                  r.Success? || r.error == VerificationFailed)
  {
    if call.TakeClientVerify? {
      VerifyCodec(CLIENT_VERIFY, call.verify, s.Tag(suite).value);
    }
  }

  /** A call in any other state than its own is refused with that state, and only such
      calls are; what does not parse is refused with the parser's error. */
  lemma ClientTellsWhy(suite: Suite, c: ClientState, call: ClientCall)
    requires c.WellFormed(suite)
    ensures var r := ClientStep(suite, c, call).1;
            && (c.state != Awaited(call) <==> r == Failure(InvalidState(c.state)))
            && (c.state == Awaited(call) && call.TakeServerHello? && r.Failure? ==>
                  r.error == ParseServerHello(call.data).error)
            && (c.state == Awaited(call) && call.TakeServerVerify? && ParseVerify(4, call.verify).Failure? ==>
                  r == Failure(ParseVerify(4, call.verify).error))
  {
  }

  lemma ServerTellsWhy(suite: Suite, s: ServerState, call: ServerCall)
    requires s.WellFormed(suite)
    ensures var r := ServerStep(suite, s, call).1;
            && (s.state != AwaitedByServer(call) <==> r == Failure(InvalidState(s.state)))
            && (s.state == AwaitedByServer(call) && call.TakeClientHello? && r.Failure? ==>
                  r.error == ParseClientHello(call.data).error)
            && (s.state == AwaitedByServer(call) && call.TakeClientVerify? && ParseVerify(3, call.verify).Failure? ==>
                  r == Failure(ParseVerify(3, call.verify).error))
  {
  }

  function ClientSuccesses(suite: Suite, c: ClientState, calls: seq<ClientCall>): nat
    requires c.WellFormed(suite)
    decreases |calls|
  {
    if calls == [] then 0
    else
      ClientStepClimbs(suite, c, calls[0]);
      var (c', r) := ClientStep(suite, c, calls[0]);
      (if r.Success? then 1 else 0) + ClientSuccesses(suite, c', calls[1..])
  }

  function ServerSuccesses(suite: Suite, s: ServerState, calls: seq<ServerCall>): nat
    requires s.WellFormed(suite)
    decreases |calls|
  {
    if calls == [] then 0
    else
      ServerStepClimbs(suite, s, calls[0]);
      var (s', r) := ServerStep(suite, s, calls[0]);
      (if r.Success? then 1 else 0) + ServerSuccesses(suite, s', calls[1..])
  }

  /** No sequence of calls has more than four client successes or three server ones. */
  lemma {:induction false} ClientSuccessesAreBounded(suite: Suite, c: ClientState, calls: seq<ClientCall>)
    requires c.WellFormed(suite)
    ensures ClientSuccesses(suite, c, calls) <= 4 - c.Rank()
    decreases |calls|
  {
    if calls != [] {
      ClientStepClimbs(suite, c, calls[0]);
      ClientSuccessesAreBounded(suite, ClientStep(suite, c, calls[0]).0, calls[1..]);
    }
  }

  lemma {:induction false} ServerSuccessesAreBounded(suite: Suite, s: ServerState, calls: seq<ServerCall>)
    requires s.WellFormed(suite)
    ensures ServerSuccesses(suite, s, calls) <= 3 - s.Rank()
    decreases |calls|
  {
    if calls != [] {
      ServerStepClimbs(suite, s, calls[0]);
      ServerSuccessesAreBounded(suite, ServerStep(suite, s, calls[0]).0, calls[1..]);
    }
  }

  class ClientHandshake {
    const suite: Suite
    const clientKey: Block32
    const mimicryProfile: MimicryProfile
    var state: State
    var clientHello: Option<ClientHello>
    var serverHello: Option<ServerHello>
    var sessionKey: Option<Block32>

    function View(): ClientState
      reads this
    {
      ClientState(state, clientKey, mimicryProfile, clientHello, serverHello, sessionKey)
    }

    ghost predicate Valid()
      reads this
    {
      View().WellFormed(suite)
    }

    constructor (suite: Suite, secret: Block32, profile: MimicryProfile)
      ensures Valid() && this.suite == suite && View() == NewClient(secret, profile)
    {
      this.suite, clientKey, mimicryProfile := suite, secret, profile;
      state, clientHello, serverHello, sessionKey := Initial, None, None, None;
    }

    method Start(random: Block32) returns (r: Result<Reply, HandshakeError>)
      requires Valid()
      modifies this
      ensures Valid() && (View(), r) == ClientStep(suite, old(View()), ClientCall.Start(random))
    {
      if state != Initial {
        return Failure(InvalidState(state));
      }
      var hello := ClientHello(suite.public(clientKey), random, mimicryProfile);
      clientHello := Some(hello);
      state := ClientHelloSent;
      return Success(Message(ClientHelloBytes(hello)));
    }

    method ProcessServerHello(data: bytes) returns (r: Result<Reply, HandshakeError>)
      requires Valid()
      modifies this
      ensures Valid() && (View(), r) == ClientStep(suite, old(View()), TakeServerHello(data))
    {
      if state != ClientHelloSent {
        return Failure(InvalidState(state));
      }
      var parsed := ParseServerHello(data);
      if parsed.Failure? {
        return Failure(parsed.error);
      }
      var hello := parsed.value;
      var shared := suite.agree(clientKey, hello.publicKey);
      var salt := clientHello.value.random + hello.random;
      serverHello := Some(hello);
      sessionKey := Some(suite.derive(shared, salt, HKDF_INFO));
      state := ServerHelloReceived;
      return Success(SessionId(hello.sessionId));
    }

    method BuildTranscript() returns (t: bytes)
      requires Valid() && View().Rank() >= 2
      ensures t == Transcript(clientHello.value, serverHello.value)
    {
      t := ClientHelloBytes(clientHello.value);
      t := t + ServerHelloBytes(serverHello.value);
    }

    method SendClientVerify() returns (r: Result<Reply, HandshakeError>)
      requires Valid()
      modifies this
      ensures Valid() && (View(), r) == ClientStep(suite, old(View()), SendVerify)
    {
      if state != ServerHelloReceived {
        return Failure(InvalidState(state));
      }
      var transcript := BuildTranscript();
      var tag := suite.hmac(sessionKey.value, transcript);
      state := ClientVerifySent;
      return Success(Message(VerifyBytes(CLIENT_VERIFY, tag)));
    }

    method ProcessServerVerify(data: bytes) returns (r: Result<Reply, HandshakeError>)
      requires Valid()
      modifies this
      ensures Valid() && (View(), r) == ClientStep(suite, old(View()), TakeServerVerify(data))
    {
      if state != ClientVerifySent {
        return Failure(InvalidState(state));
      }
      var verify := ParseVerify(SERVER_VERIFY, data);
      if verify.Failure? {
        return Failure(verify.error);
      }
      var transcript := BuildTranscript();
      if suite.hmac(sessionKey.value, transcript) != verify.value {
        return Failure(VerificationFailed);
      }
      state := Completed;
      return Success(Done);
    }
  }

  class ServerHandshake {
    const suite: Suite
    const serverKey: Block32
    const sessionId: u64
    var state: State
    var clientHello: Option<ClientHello>
    var serverHello: Option<ServerHello>
    var sessionKey: Option<Block32>

    function View(): ServerState
      reads this
    {
      ServerState(state, serverKey, sessionId, clientHello, serverHello, sessionKey)
    }

    ghost predicate Valid()
      reads this
    {
      View().WellFormed(suite)
    }

    constructor (suite: Suite, secret: Block32, sessionId: u64)
      ensures Valid() && this.suite == suite && View() == NewServer(secret, sessionId)
    {
      this.suite, serverKey, this.sessionId := suite, secret, sessionId;
      state, clientHello, serverHello, sessionKey := Initial, None, None, None;
    }

    method ProcessClientHello(random: Block32, data: bytes) returns (r: Result<Reply, HandshakeError>)
      requires Valid()
      modifies this
      ensures Valid() && (View(), r) == ServerStep(suite, old(View()), TakeClientHello(random, data))
    {
      if state != Initial {
        return Failure(InvalidState(state));
      }
      var parsed := ParseClientHello(data);
      if parsed.Failure? {
        return Failure(parsed.error);
      }
      var shared := suite.agree(serverKey, parsed.value.publicKey);
      var hello := ServerHello(suite.public(serverKey), random, sessionId);
      var salt := parsed.value.random + hello.random;
      clientHello := Some(parsed.value);
      serverHello := Some(hello);
      sessionKey := Some(suite.derive(shared, salt, HKDF_INFO));
      state := ServerHelloSent;
      return Success(Hello(ServerHelloBytes(hello), parsed.value.profile));
    }

    method BuildTranscript() returns (t: bytes)
      requires Valid() && View().Rank() >= 1
      ensures t == Transcript(clientHello.value, serverHello.value)
    {
      t := ClientHelloBytes(clientHello.value);
      t := t + ServerHelloBytes(serverHello.value);
    }

    method ProcessClientVerify(data: bytes) returns (r: Result<Reply, HandshakeError>)
      requires Valid()
      modifies this
      ensures Valid() && (View(), r) == ServerStep(suite, old(View()), TakeClientVerify(data))
    {
      if state != ServerHelloSent {
        return Failure(InvalidState(state));
      }
      var verify := ParseVerify(CLIENT_VERIFY, data);
      if verify.Failure? {
        return Failure(verify.error);
      }
      var transcript := BuildTranscript();
      if suite.hmac(sessionKey.value, transcript) != verify.value {
        return Failure(VerificationFailed);
      }
      state := ClientVerifyReceived;
      return Success(Done);
    }

    method SendVerify() returns (r: Result<Reply, HandshakeError>)
      requires Valid()
      modifies this
      ensures Valid() && (View(), r) == ServerStep(suite, old(View()), SendServerVerify)
    {
      if state != ClientVerifyReceived {
        return Failure(InvalidState(state));
      }
      var transcript := BuildTranscript();
      var tag := suite.hmac(sessionKey.value, transcript);
      state := Completed;
      return Success(Message(VerifyBytes(SERVER_VERIFY, tag)));
    }
  }
}
