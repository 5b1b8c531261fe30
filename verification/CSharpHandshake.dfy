/** The C# client's handshake (client-csharp/LLPClient/Crypto/Handshake.cs) and its
    simulation of the Rust client's. */
module CSharpHandshake {
  import opened Bytes
  import opened Wrappers
  import opened Primitives
  import opened Profiles
  import opened Messages
  import opened DotNet
  import H = Handshake

  datatype Exception = InvalidOperation | InvalidData | Cryptographic

  /** The object's fields: there is no state besides what has been stored. */
  datatype CsState = CsState(
    secret: Block32, profile: MimicryProfile,
    hello: Option<ClientHello>, serverHello: Option<ServerHello>, key: Option<Block32>)

  /** `refuses` stands for the public keys BouncyCastle will not agree with. */
  function CsStep(suite: Suite, refuses: Block32 -> bool, m: CsState, call: H.ClientCall)
    : (CsState, Result<H.Reply, Exception>)
    requires m.key.Some? ==> m.hello.Some? && m.serverHello.Some?
  {
    match call
    case Start(random) =>
      var hello := ClientHello(suite.public(m.secret), random, m.profile);
      (m.(hello := Some(hello)), Success(H.Message(ClientHelloBytes(hello))))
    case TakeServerHello(data) =>
      if m.hello.None? then (m, Failure(InvalidOperation))
      else if ParseServerHello(data).Failure? then (m, Failure(InvalidData))
      else
        var sh := ParseServerHello(data).value;
        if refuses(sh.publicKey) then (m.(serverHello := Some(sh)), Failure(InvalidOperation))
        else
          var key := H.DeriveKey(suite, m.secret, sh.publicKey, m.hello.value.random, sh.random);
          (m.(serverHello := Some(sh), key := Some(key)), Success(H.SessionId(sh.sessionId)))
    case SendVerify =>
      if m.key.None? then (m, Failure(InvalidOperation))
      else
        var tag := suite.hmac(m.key.value, Transcript(m.hello.value, m.serverHello.value));
        (m, Success(H.Message(VerifyBytes(CLIENT_VERIFY, tag))))
    case TakeServerVerify(data) =>
      if m.key.None? then (m, Failure(InvalidOperation))
      else if ParseVerify(SERVER_VERIFY, data).Failure? then (m, Failure(InvalidData))
      else
        var tag := suite.hmac(m.key.value, Transcript(m.hello.value, m.serverHello.value));
        (m, if ParseVerify(SERVER_VERIFY, data).value != tag then Failure(Cryptographic) else Success(H.Done))
  }

  /** A SERVER_HELLO that is taken replaces hello and key, by HKDF of the Diffie-Hellman
      value and both randoms; the client's own hello stays. */
  lemma TakenHelloGivesKey(suite: Suite, refuses: Block32 -> bool, m: CsState, data: bytes)
    requires m.key.Some? ==> m.hello.Some? && m.serverHello.Some?
    ensures var (m', q) := CsStep(suite, refuses, m, H.TakeServerHello(data));
            q.Success? ==>
              && ParseServerHello(data).Success? && m.hello.Some?
              && var sh := ParseServerHello(data).value;
                 && m'.hello == m.hello && m'.serverHello == Some(sh) && q.value == H.SessionId(sh.sessionId)
                 && m'.key == Some(suite.derive(suite.agree(m.secret, sh.publicKey), m.hello.value.random + sh.random,
                                                Ascii("llp-session-key-v1")))
  {
    HkdfInfoText();
  }

  /** A restart keeps the old key and server hello: CLIENT_VERIFY then authenticates the
      new hello and the old one under the old key. */
  lemma RestartKeepsKey(suite: Suite, refuses: Block32 -> bool, m: CsState, random: Block32)
    requires m.key.Some? && m.hello.Some? && m.serverHello.Some?
    ensures var hello := ClientHello(suite.public(m.secret), random, m.profile);
            var restarted := CsStep(suite, refuses, m, H.Start(random)).0;
            var tag := suite.hmac(m.key.value, ClientHelloBytes(hello) + ServerHelloBytes(m.serverHello.value));
            CsStep(suite, refuses, restarted, H.SendVerify) == (restarted, Success(H.Message([3] + tag)))
  {
  }

  method SerializeClientHello(h: ClientHello) returns (message: bytes)
    ensures message == ClientHelloBytes(h)
  {
    var buffer := new byte[CLIENT_HELLO_SIZE];
    buffer[0] := CLIENT_HELLO;
    var offset := Fill(h.publicKey, buffer, 1);
    offset := Fill(h.random, buffer, offset);
    ReversedLittleEndian(2, h.profile.ToU16());
    var profileBytes := Reversed(LittleEndian(2, h.profile.ToU16()));
    offset := Fill(profileBytes, buffer, offset);
    message := buffer[..];
    assert message == buffer[..offset];
  }

  method DeserializeServerHello(data: bytes) returns (r: Result<ServerHello, Exception>)
    ensures r == match ParseServerHello(data) case Success(h) => Success(h) case Failure(_) => Failure(InvalidData)
  {
    SpanValues();
    if |data| < SERVER_HELLO_SIZE || data[0] != SERVER_HELLO {
      return Failure(InvalidData);
    }
    var publicKey, random, idBytes := data[1..33], data[33..65], data[65..73];
    FromReversed(idBytes);
    return Success(ServerHello(publicKey, random, FromLittleEndian(Reversed(idBytes))));
  }

  /** The second hello is not serialized again but written field by field. */
  method BuildTranscript(c: ClientHello, s: ServerHello) returns (t: bytes)
    ensures t == Transcript(c, s)
  {
    var transcript := new byte[CLIENT_HELLO_SIZE + SERVER_HELLO_SIZE];
    var hello := SerializeClientHello(c);
    var offset := Fill(hello, transcript, 0);
    transcript[offset] := SERVER_HELLO;
    offset := offset + 1;
    assert transcript[..offset] == hello + [SERVER_HELLO];
    offset := Fill(s.publicKey, transcript, offset);
    offset := Fill(s.random, transcript, offset);
    ReversedLittleEndian(8, s.sessionId);
    var idBytes := Reversed(LittleEndian(8, s.sessionId));
    offset := Fill(idBytes, transcript, offset);
    Regrouped(hello, [SERVER_HELLO], s.publicKey, s.random, idBytes);
    t := transcript[..];
    assert t == transcript[..offset];
  }

  class ClientHandshake {
    const suite: Suite
    const refuses: Block32 -> bool
    const privateKey: Block32
    const mimicryProfile: MimicryProfile
    var clientHello: Option<ClientHello>
    var serverHello: Option<ServerHello>
    var sessionKey: Option<Block32>

    function View(): CsState
      reads this
    {
      CsState(privateKey, mimicryProfile, clientHello, serverHello, sessionKey)
    }

    predicate Valid()
      reads this
    {
      sessionKey.Some? ==> clientHello.Some? && serverHello.Some?
    }

    constructor (suite: Suite, refuses: Block32 -> bool, secret: Block32, profile: MimicryProfile)
      ensures Valid() && this.suite == suite && this.refuses == refuses
      ensures View() == CsState(secret, profile, None, None, None)
    {
      this.suite, this.refuses, privateKey, mimicryProfile := suite, refuses, secret, profile;
      clientHello, serverHello, sessionKey := None, None, None;
    }

    method Start(random: Block32) returns (r: Result<H.Reply, Exception>)
      requires Valid()
      modifies this
      ensures Valid() && (View(), r) == CsStep(suite, refuses, old(View()), H.Start(random))
    {
      var hello := ClientHello(suite.public(privateKey), random, mimicryProfile);
      clientHello := Some(hello);
      var message := SerializeClientHello(hello);
      return Success(H.Message(message));
    }

    /** A refused key is noticed only after the hello has been stored. */
    method ProcessServerHello(data: bytes) returns (r: Result<H.Reply, Exception>)
      requires Valid()
      modifies this
      ensures Valid() && (View(), r) == CsStep(suite, refuses, old(View()), H.TakeServerHello(data))
    {
      if clientHello.None? {
        return Failure(InvalidOperation);
      }
      var parsed := DeserializeServerHello(data);
      if parsed.Failure? {
        return Failure(parsed.error);
      }
      serverHello := Some(parsed.value);
      if refuses(parsed.value.publicKey) {
        return Failure(InvalidOperation);
      }
      var sharedSecret := suite.agree(privateKey, parsed.value.publicKey);
      var salt := new byte[64];
      Copy(clientHello.value.random, 0, salt, 0, 32);
      Copy(parsed.value.random, 0, salt, 32, 32);
      sessionKey := Some(suite.derive(sharedSecret, salt[..], HKDF_INFO));
      assert salt[..] == clientHello.value.random + parsed.value.random;
      return Success(H.SessionId(parsed.value.sessionId));
    }

    method SendClientVerify() returns (r: Result<H.Reply, Exception>)
      requires Valid()
      ensures (View(), r) == CsStep(suite, refuses, View(), H.SendVerify)
    {
      if sessionKey.None? {
        return Failure(InvalidOperation);
      }
      var transcript := BuildTranscript(clientHello.value, serverHello.value);
      var tag := suite.hmac(sessionKey.value, transcript);
      var buffer := new byte[VERIFY_SIZE];
      buffer[0] := CLIENT_VERIFY;
      Copy(tag, 0, buffer, 1, 32);
      assert buffer[..] == VerifyBytes(CLIENT_VERIFY, tag);
      return Success(H.Message(buffer[..]));
    }

    method ProcessServerVerify(data: bytes) returns (r: Result<H.Reply, Exception>)
      requires Valid()
      ensures (View(), r) == CsStep(suite, refuses, View(), H.TakeServerVerify(data))
    {
      if sessionKey.None? {
        return Failure(InvalidOperation);
      }
      if |data| < VERIFY_SIZE || data[0] != SERVER_VERIFY {
        return Failure(InvalidData);
      }
      var hmacTag := data[1..33];
      var transcript := BuildTranscript(clientHello.value, serverHello.value);
      if suite.hmac(sessionKey.value, transcript) != hmacTag {
        return Failure(Cryptographic);
      }
      return Success(H.Done);
    }
  }

  /** The Rust client's stored values, without its state. */
  ghost predicate Simulates(c: H.ClientState, m: CsState) {
    m == CsState(c.secret, c.profile, c.hello, c.serverHello, c.key)
  }

  /** The call is the one the Rust client's state is waiting for. */
  predicate InOrder(c: H.ClientState, call: H.ClientCall) {
    c.state == H.Awaited(call)
  }

  /** Which exception a refused call throws. */
  lemma ExceptionsTellWhy(suite: Suite, refuses: Block32 -> bool, m: CsState, call: H.ClientCall)
    requires m.key.Some? ==> m.hello.Some? && m.serverHello.Some?
    ensures var q := CsStep(suite, refuses, m, call).1;
            q.Failure? ==>
              match call
              case Start(_) => false
              case SendVerify => q.error == InvalidOperation
              case TakeServerHello(data) =>
                q.error == if m.hello.Some? && ParseServerHello(data).Failure? then InvalidData else InvalidOperation
              case TakeServerVerify(data) =>
                q.error == if m.key.None? then InvalidOperation
                           else if ParseVerify(4, data).Failure? then InvalidData else Cryptographic
  {
  }

  /** A SERVER_HELLO that parses and carries a key BouncyCastle refuses. */
  predicate Refused(refuses: Block32 -> bool, call: H.ClientCall) {
    && call.TakeServerHello? && ParseServerHello(call.data).Success?
    && refuses(ParseServerHello(call.data).value.publicKey)
  }

  function Answer<E>(r: Result<H.Reply, E>): Option<H.Reply> {
    if r.Success? then Some(r.value) else None
  }

  /** Out of order, C# turns the call down without a change: these are all such calls. */
  predicate TurnsDown(suite: Suite, refuses: Block32 -> bool, m: CsState, call: H.ClientCall) {
    match call
    case Start(_) => false
    case TakeServerHello(data) =>
      || m.hello.None? || ParseServerHello(data).Failure?
      || (Refused(refuses, call) && m.serverHello == Some(ParseServerHello(data).value))
    case SendVerify => m.key.None?
    case TakeServerVerify(data) =>
      m.key.Some? && m.hello.Some? && m.serverHello.Some? ==>
        ParseVerify(SERVER_VERIFY, data)
        != Success(suite.hmac(m.key.value, Transcript(m.hello.value, m.serverHello.value)))
  }

  /** Whether the two will behave alike on the call, told from before it. */
  predicate Alike(suite: Suite, refuses: Block32 -> bool, c: H.ClientState, m: CsState, call: H.ClientCall) {
    if InOrder(c, call) then !Refused(refuses, call) else TurnsDown(suite, refuses, m, call)
  }

  /** Between related objects, Rust accepts exactly what C# accepts or refuses for its
      key alone, in order. On any call, reply and objects after agree exactly if it is
      in order and no refused key, or out of order and C# turns it down unchanged. */
  lemma StepSimulation(suite: Suite, refuses: Block32 -> bool, c: H.ClientState, m: CsState, call: H.ClientCall)
    requires c.WellFormed(suite) && Simulates(c, m)
    ensures var (c', r), (m', q) := H.ClientStep(suite, c, call), CsStep(suite, refuses, m, call);
            && (Simulates(c', m') && Answer(q) == Answer(r) <==> Alike(suite, refuses, c, m, call))
            && (r.Success? <==> InOrder(c, call) && (q.Success? || Refused(refuses, call)))
            && (r.Success? && q.Success? ==> q.value == r.value)
            && (InOrder(c, call) && Refused(refuses, call) ==> r.Success? && q.Failure? && m'.key == m.key)
  {
  }

  ghost predicate AllInOrder(suite: Suite, c: H.ClientState, calls: seq<H.ClientCall>)
    requires c.WellFormed(suite)
    decreases |calls|
  {
    if calls == [] then true
    else
      H.ClientStepClimbs(suite, c, calls[0]);
      InOrder(c, calls[0]) && AllInOrder(suite, H.ClientStep(suite, c, calls[0]).0, calls[1..])
  }

  /** The Rust client after a run of calls, and what it answered. */
  function Run(suite: Suite, c: H.ClientState, calls: seq<H.ClientCall>): (H.ClientState, seq<Option<H.Reply>>)
    requires c.WellFormed(suite)
    decreases |calls|
  {
    if calls == [] then (c, [])
    else
      H.ClientStepClimbs(suite, c, calls[0]);
      var (c', r) := H.ClientStep(suite, c, calls[0]);
      var (last, replies) := Run(suite, c', calls[1..]);
      (last, [Answer(r)] + replies)
  }

  function CsRun(suite: Suite, refuses: Block32 -> bool, m: CsState, calls: seq<H.ClientCall>)
    : (CsState, seq<Option<H.Reply>>)
    requires m.key.Some? ==> m.hello.Some? && m.serverHello.Some?
    decreases |calls|
  {
    if calls == [] then (m, [])
    else
      var (m', q) := CsStep(suite, refuses, m, calls[0]);
      var (last, replies) := CsRun(suite, refuses, m', calls[1..]);
      (last, [Answer(q)] + replies)
  }

  /** Over an in-order run, malformed input included, both clients answer alike and end
      with the same hellos and key if and only if no key they are sent is refused. */
  lemma {:induction false} InOrderRunSimulation(suite: Suite, refuses: Block32 -> bool, c: H.ClientState, m: CsState,
                                                calls: seq<H.ClientCall>)
    requires c.WellFormed(suite) && Simulates(c, m) && AllInOrder(suite, c, calls)
    ensures var (c', rs), (m', qs) := Run(suite, c, calls), CsRun(suite, refuses, m, calls);
            rs == qs && Simulates(c', m') <==> forall call <- calls :: !Refused(refuses, call)
    decreases |calls|
  {
    if calls != [] {
      StepSimulation(suite, refuses, c, m, calls[0]);
      H.ClientStepClimbs(suite, c, calls[0]);
      var c1, m1 := H.ClientStep(suite, c, calls[0]).0, CsStep(suite, refuses, m, calls[0]).0;
      var rs, qs := Run(suite, c, calls).1, CsRun(suite, refuses, m, calls).1;
      if Refused(refuses, calls[0]) {
        assert rs[0] != qs[0];
      } else {
        InOrderRunSimulation(suite, refuses, c1, m1, calls[1..]);
        assert rs[1..] == Run(suite, c1, calls[1..]).1 && qs[1..] == CsRun(suite, refuses, m1, calls[1..]).1;
        assert forall call <- calls :: call == calls[0] || call in calls[1..];
      }
    }
  }

  /** Every call of the run is one the two behave alike on. */
  ghost predicate AllAlike(suite: Suite, refuses: Block32 -> bool, c: H.ClientState, m: CsState,
                           calls: seq<H.ClientCall>)
    requires c.WellFormed(suite) && Simulates(c, m)
    decreases |calls|
  {
    if calls == [] then true
    else if !Alike(suite, refuses, c, m, calls[0]) then false
    else
      StepSimulation(suite, refuses, c, m, calls[0]);
      H.ClientStepClimbs(suite, c, calls[0]);
      var c1, m1 := H.ClientStep(suite, c, calls[0]).0, CsStep(suite, refuses, m, calls[0]).0;
      AllAlike(suite, refuses, c1, m1, calls[1..])
  }

  /** After this run the two have answered alike, and hold the same hellos and key. */
  ghost predicate SameRun(suite: Suite, refuses: Block32 -> bool, c: H.ClientState, m: CsState,
                          calls: seq<H.ClientCall>)
    requires c.WellFormed(suite) && Simulates(c, m)
  {
    var (c', rs), (m', qs) := Run(suite, c, calls), CsRun(suite, refuses, m, calls);
    rs == qs && Simulates(c', m')
  }

  /** Over any run of calls, in whatever order, the two agree all along if and only if
      every call is one they behave alike on. */
  lemma {:induction false} RunSimulation(suite: Suite, refuses: Block32 -> bool, c: H.ClientState, m: CsState,
                                         calls: seq<H.ClientCall>)
    requires c.WellFormed(suite) && Simulates(c, m)
    ensures (forall n :: 0 <= n <= |calls| ==> SameRun(suite, refuses, c, m, calls[..n]))
            <==> AllAlike(suite, refuses, c, m, calls)
    decreases |calls|
  {
    if calls != [] {
      StepSimulation(suite, refuses, c, m, calls[0]);
      H.ClientStepClimbs(suite, c, calls[0]);
      var c1, m1 := H.ClientStep(suite, c, calls[0]).0, CsStep(suite, refuses, m, calls[0]).0;
      if Alike(suite, refuses, c, m, calls[0]) {
        RunSimulation(suite, refuses, c1, m1, calls[1..]);
        if AllAlike(suite, refuses, c1, m1, calls[1..]) {
          forall n | 0 <= n <= |calls| ensures SameRun(suite, refuses, c, m, calls[..n]) {
            if n > 0 {
              PrefixUnfolds(suite, refuses, c, m, calls, n - 1);
            }
          }
        } else {
          var n :| 0 <= n <= |calls[1..]| && !SameRun(suite, refuses, c1, m1, calls[1..][..n]);
          PrefixUnfolds(suite, refuses, c, m, calls, n);
        }
      } else {
        FirstCallTells(suite, refuses, c, m, calls[..1]);
      }
    }
  }

  /** The first n + 1 calls, in terms of the n that follow the first. */
  lemma PrefixUnfolds(suite: Suite, refuses: Block32 -> bool, c: H.ClientState, m: CsState, calls: seq<H.ClientCall>,
                      n: nat)
    requires c.WellFormed(suite) && Simulates(c, m) && n < |calls| && Alike(suite, refuses, c, m, calls[0])
    ensures var c1, m1 := H.ClientStep(suite, c, calls[0]).0, CsStep(suite, refuses, m, calls[0]).0;
            && c1.WellFormed(suite) && Simulates(c1, m1)
            && (SameRun(suite, refuses, c, m, calls[..n + 1]) <==> SameRun(suite, refuses, c1, m1, calls[1..][..n]))
  {
    StepSimulation(suite, refuses, c, m, calls[0]);
    H.ClientStepClimbs(suite, c, calls[0]);
    var c1, m1 := H.ClientStep(suite, c, calls[0]).0, CsStep(suite, refuses, m, calls[0]).0;
    var first, rest := calls[..n + 1], calls[1..][..n];
    assert first[1..] == rest;
    assert Run(suite, c, first).1[1..] == Run(suite, c1, rest).1;
    assert CsRun(suite, refuses, m, first).1[1..] == CsRun(suite, refuses, m1, rest).1;
  }

  lemma FirstCallTells(suite: Suite, refuses: Block32 -> bool, c: H.ClientState, m: CsState, calls: seq<H.ClientCall>)
    requires c.WellFormed(suite) && Simulates(c, m) && |calls| == 1 && !Alike(suite, refuses, c, m, calls[0])
    ensures !SameRun(suite, refuses, c, m, calls)
  {
    StepSimulation(suite, refuses, c, m, calls[0]);
    H.ClientStepClimbs(suite, c, calls[0]);
    var (c1, r) := H.ClientStep(suite, c, calls[0]);
    var (m1, q) := CsStep(suite, refuses, m, calls[0]);
    assert Run(suite, c1, calls[1..]) == (c1, []) && CsRun(suite, refuses, m1, calls[1..]) == (m1, []);
    assert Run(suite, c, calls).1[0] == Answer(r) && CsRun(suite, refuses, m, calls).1[0] == Answer(q);
  }

  /** Any peer can send a refused key: Rust goes on, C# has stored the hello and throws. */
  lemma RefusedKeysDivide(suite: Suite, refuses: Block32 -> bool, secret: Block32, profile: MimicryProfile,
                          random: Block32, hello: ServerHello)
    requires refuses(hello.publicKey)
    ensures var start, answer := H.Start(random), H.TakeServerHello(ServerHelloBytes(hello));
            var c, m := H.ClientStep(suite, H.NewClient(secret, profile), start).0,
                        CsStep(suite, refuses, CsState(secret, profile, None, None, None), start).0;
            && Simulates(c, m) && H.ClientStep(suite, c, answer).1.Success?
            && CsStep(suite, refuses, m, answer) == (m.(serverHello := Some(hello)), Failure(InvalidOperation))
  {
    ServerHelloCodec(ServerHelloBytes(hello), hello);
  }

  /** One input on which they differ out of order: C# starts over, Rust refuses. */
  lemma OnlyCSharpRestarts(suite: Suite, refuses: Block32 -> bool, c: H.ClientState, m: CsState, random: Block32)
    requires c.WellFormed(suite) && Simulates(c, m) && c.state != Initial
    ensures !Alike(suite, refuses, c, m, H.Start(random))
    ensures CsStep(suite, refuses, m, H.Start(random)).1.Success?
    ensures H.ClientStep(suite, c, H.Start(random)).1.Failure?
  {
    StepSimulation(suite, refuses, c, m, H.Start(random));
  }
}
