/** The UDP listener (crates/llp-server/src/listener.rs): what one packet task does
    between lock acquisitions. */
module Listener {
  import opened Bytes
  import opened Wrappers
  import opened Primitives
  import opened Profiles
  import opened Messages
  import opened Handshake
  import opened SessionManager
  import Frames

  datatype Peer = Peer(ip: nat, port: u16)

  /** The listener's HandshakeState, as a value. */
  datatype Parked = WaitingClientHello | WaitingClientVerify(hs: ServerState, sessionId: u64, profile: MimicryProfile) {
    predicate Done() {
      WaitingClientVerify? && hs.state == Completed
    }

    predicate AwaitsVerify() {
      WaitingClientVerify? && hs.state == ServerHelloSent
    }
  }

  datatype ClientSession = ClientSession(sessionId: u64, key: Block32, receiveCounter: u64)

  /** What a completed handshake asks the session manager to admit. */
  datatype Grant = Grant(sessionId: u64, key: Block32, profile: MimicryProfile)

  /** How the handshake part of a critical section ends: not completed, completed with
      SERVER_VERIFY not sent, or completed and about to be registered. */
  datatype Outcome = Unfinished | Unanswered | Granted(grant: Grant)

  /** What the outside world decides while a task is in its critical section. */
  datatype Chance = Chance(secret: Block32, random: Block32, sessionId: u64, sendSucceeds: bool)

  ghost predicate ParkedOk(suite: Suite, p: Parked) {
    p.WaitingClientVerify? ==>
      && p.hs.WellFormed(suite)
      && (p.AwaitsVerify() || p.Done())
      && p.sessionId == p.hs.sessionId && p.profile == p.hs.clientHello.value.profile
  }

  /** The critical section up to registration: the state to park, and how it ends. */
  function Progress(suite: Suite, p: Parked, packet: bytes, x: Chance): (Parked, Outcome)
    requires ParkedOk(suite, p)
  {
    match p
    case WaitingClientHello =>
      var (hs, r) := ServerStep(suite, NewServer(x.secret, x.sessionId), TakeClientHello(x.random, packet));
      if r.Success? && x.sendSucceeds
      then (WaitingClientVerify(hs, x.sessionId, r.value.profile), Unfinished)
      else (p, Unfinished)
    case WaitingClientVerify(hs, id, profile) =>
      ServerStepClimbs(suite, hs, TakeClientVerify(packet));
      var (received, r) := ServerStep(suite, hs, TakeClientVerify(packet));
      if r.Failure? then (p, Unfinished)
      else
        var (completed, _) := ServerStep(suite, received, SendServerVerify);
        (WaitingClientVerify(completed, id, profile),
         if x.sendSucceeds then Granted(Grant(id, completed.SessionKey().value, profile)) else Unanswered)
  }

  /** The packet is a CLIENT_VERIFY this parked handshake accepts. */
  ghost predicate Verifies(suite: Suite, p: Parked, packet: bytes) {
    p.WaitingClientVerify? && p.hs.WellFormed(suite) && ServerStep(suite, p.hs, TakeClientVerify(packet)).1.Success?
  }

  ghost predicate Carries(p: Parked, g: Grant) {
    p.Done() && p.hs.SessionKey() == Some(g.key) && p.sessionId == g.sessionId && p.profile == g.profile
  }

  /** The same exchange of hellos, however far it has come. */
  predicate SameHandshake(p: Parked, q: Parked) {
    && p.WaitingClientVerify? && q.WaitingClientVerify?
    && p.sessionId == q.sessionId && p.profile == q.profile
    && p.hs.clientHello == q.hs.clientHello && p.hs.serverHello == q.hs.serverHello && p.hs.key == q.hs.key
  }

  /** The handshake parked for this hello, with these draws, before any CLIENT_VERIFY. */
  predicate Answers(suite: Suite, p: Parked, packet: bytes, x: Chance) {
    && p.AwaitsVerify() && ParseClientHello(packet).Success?
    && p.hs.clientHello == Some(ParseClientHello(packet).value)
    && p.hs.serverHello == Some(ServerHello(suite.public(x.secret), x.random, x.sessionId))
    && p.sessionId == x.sessionId && p.profile == ParseClientHello(packet).value.profile
  }

  /** What a parked handshake awaits is the HMAC of its two hellos under its key. */
  lemma VerifiesExactly(suite: Suite, p: Parked, packet: bytes)
    requires ParkedOk(suite, p) && p.WaitingClientVerify?
    ensures var hellos := ClientHelloBytes(p.hs.clientHello.value) + ServerHelloBytes(p.hs.serverHello.value);
            Verifies(suite, p, packet) <==> p.AwaitsVerify() && [3] + suite.hmac(p.hs.key.value, hellos) <= packet
  {
    ServerVerifiesHellos(suite, p.hs, TakeClientVerify(packet));
  }

  /** A hello is parked exactly if it parses and could be answered, with what was drawn.
      A handshake completes exactly when it accepts a CLIENT_VERIFY, and no second one;
      it is then granted or unanswered as SERVER_VERIFY is sent or not. */
  lemma ProgressFacts(suite: Suite, p: Parked, packet: bytes, x: Chance)
    requires ParkedOk(suite, p)
    ensures var (p', outcome) := Progress(suite, p, packet, x);
            && ParkedOk(suite, p')
            && (p.WaitingClientHello? ==>
                  (p'.WaitingClientVerify? <==> ParseClientHello(packet).Success? && x.sendSucceeds))
            && (p.WaitingClientHello? && p'.WaitingClientVerify? ==> Answers(suite, p', packet, x))
            && (p'.Done() <==> p.Done() || Verifies(suite, p, packet))
            && (outcome.Granted? <==> Verifies(suite, p, packet) && x.sendSucceeds)
            && (outcome.Unanswered? <==> Verifies(suite, p, packet) && !x.sendSucceeds)
            && (outcome.Granted? ==> Carries(p', outcome.grant))
            && (p.Done() ==> p' == p && !Verifies(suite, p, packet))
            && (p'.WaitingClientVerify? && !p'.Done() ==> p' == p || p.WaitingClientHello?)
            && (p.WaitingClientVerify? ==> SameHandshake(p, p'))
  {
  }

  /** The three tables a packet task works on. */
  datatype Tables = Tables(states: map<Peer, Parked>, sessions: map<Peer, ClientSession>, manager: Table) {
    function ParkedFor(peer: Peer): Parked {
      if peer in states then states[peer] else WaitingClientHello
    }

    function Park(peer: Peer, p: Parked): Tables {
      this.(states := states[peer := p])
    }
  }

  ghost predicate TablesOk(suite: Suite, b: Tables) {
    forall p <- b.states :: ParkedOk(suite, b.states[p])
  }

  /** The rest of the critical section: the session appears, and the parked state goes,
      exactly when a completed handshake is admitted. */
  function Settled(b: Tables, peer: Peer, outcome: Outcome, now: int): Tables {
    if outcome.Granted? && Admits(b.manager, outcome.grant.sessionId) then
      var g := outcome.grant;
      Tables(b.states - {peer}, b.sessions[peer := ClientSession(g.sessionId, g.key, 0)],
             b.manager[g.sessionId := Entry(g.key, g.profile, now, now)])
    else b
  }

  lemma TablesStayOk(suite: Suite, b: Tables, peer: Peer, p: Parked, outcome: Outcome, now: int)
    requires TablesOk(suite, b)
    ensures ParkedOk(suite, p) ==> TablesOk(suite, b.Park(peer, p))
    ensures TablesOk(suite, Settled(b, peer, outcome, now))
  {
  }

  /** The whole handshake path, without interference. */
  function Handshaken(suite: Suite, b: Tables, peer: Peer, packet: bytes, x: Chance, now: int): Tables
    requires ParkedOk(suite, b.ParkedFor(peer))
  {
    var (p, outcome) := Progress(suite, b.ParkedFor(peer), packet, x);
    Settled(b.Park(peer, p), peer, outcome, now)
  }

  /** The sessions after a frame from this peer: its own counter alone may have moved. */
  function AfterFrame(sessions: map<Peer, ClientSession>, peer: Peer, frame: bytes): map<Peer, ClientSession> {
    if peer in sessions && |frame| >= Frames.MIN_FRAME_SIZE then
      var s := sessions[peer];
      sessions[peer := s.(receiveCounter := Frames.NextCounter(s.receiveCounter, Frames.FrameNumber(frame)))]
    else sessions
  }

  /** What a packet from this peer delivers. */
  function VpnAnswer(suite: Suite, sessions: map<Peer, ClientSession>, peer: Peer, frame: bytes): Option<bytes> {
    if peer !in sessions then None
    else Frames.Delivered(suite, sessions[peer].key, sessions[peer].sessionId, sessions[peer].receiveCounter, frame)
  }

  /** The sessions after the first k of these frames from one peer. */
  function SessionsAfter(sessions: map<Peer, ClientSession>, peer: Peer, frames: seq<bytes>, k: nat)
    : map<Peer, ClientSession>
    requires k <= |frames|
  {
    if k == 0 then sessions else AfterFrame(SessionsAfter(sessions, peer, frames, k - 1), peer, frames[k - 1])
  }

  /** From a new session on, frames move the peer's counter as a receiver's, and nothing
      else. */
  lemma {:induction false} CounterFollowsFrames(sessions: map<Peer, ClientSession>, peer: Peer, frames: seq<bytes>,
                                                k: nat)
    requires k <= |frames| && peer in sessions && sessions[peer].receiveCounter == 0
    ensures SessionsAfter(sessions, peer, frames, k)
            == sessions[peer := sessions[peer].(receiveCounter := Frames.CounterAfter(frames, k))]
  {
    if k > 0 {
      CounterFollowsFrames(sessions, peer, frames, k - 1);
    }
  }

  /** From a new session on, with no frame numbered 2^64 - 1 before the second, the
      frames that deliver have increasing numbers: each number delivers at most once. */
  lemma NumbersDeliverOnce(suite: Suite, sessions: map<Peer, ClientSession>, peer: Peer, frames: seq<bytes>,
                           i: nat, j: nat)
    requires i < j < |frames| && peer in sessions && sessions[peer].receiveCounter == 0
    requires forall n :: 0 <= n < j && |frames[n]| >= Frames.MIN_FRAME_SIZE ==> Frames.FrameNumber(frames[n]) != U64_MAX
    requires VpnAnswer(suite, SessionsAfter(sessions, peer, frames, i), peer, frames[i]).Some?
    requires VpnAnswer(suite, SessionsAfter(sessions, peer, frames, j), peer, frames[j]).Some?
    ensures Frames.FrameNumber(frames[i]) < Frames.FrameNumber(frames[j])
  {
    CounterFollowsFrames(sessions, peer, frames, i);
    CounterFollowsFrames(sessions, peer, frames, j);
    Frames.CounterIsMaximumPlusOne(frames, j);
  }

  /** A session that a settled handshake brings delivers every frame sealed for it. */
  lemma NewSessionsDeliver(suite: Suite, b: Tables, peer: Peer, outcome: Outcome, now: int, counter: u64, ip: bytes)
    requires peer !in b.sessions && peer in Settled(b, peer, outcome, now).sessions
    ensures var after := Settled(b, peer, outcome, now).sessions;
            && after[peer].receiveCounter == 0
            && var frame := Frames.Frame(suite, after[peer].key, after[peer].sessionId, counter, ip);
               VpnAnswer(suite, after, peer, frame) == Some(ip)
  {
    var s := Settled(b, peer, outcome, now).sessions[peer];
    Frames.FrameIsRecovered(suite, s.key, s.sessionId, s.receiveCounter, counter, ip);
  }

  /** The listener's HandshakeState, holding the handshake object itself. */
  datatype HandshakeState =
    | AwaitingHello
    | AwaitingVerify(context: ServerHandshake, sessionId: u64, profile: MimicryProfile)
  {
    ghost function Value(): Parked
      reads if AwaitingVerify? then {context} else {}
    {
      if AwaitingVerify? then WaitingClientVerify(context.View(), sessionId, profile) else WaitingClientHello
    }
  }

  /** CLIENT_HELLO: a new handshake object is made, and kept if it could answer. */
  method AnswerHello(suite: Suite, packet: bytes, x: Chance) returns (state: HandshakeState)
    ensures state.AwaitingVerify? <==> ParseClientHello(packet).Success? && x.sendSucceeds
    ensures state.AwaitingVerify? ==> fresh(state.context) && state.context.suite == suite
    ensures ParkedOk(suite, state.Value())
    ensures (state.Value(), Unfinished) == Progress(suite, WaitingClientHello, packet, x)
  {
    var context := new ServerHandshake(suite, x.secret, x.sessionId);
    var hello := context.ProcessClientHello(x.random, packet);
    if hello.Failure? || !x.sendSucceeds {
      return AwaitingHello;
    }
    return AwaitingVerify(context, x.sessionId, hello.value.profile);
  }

  /** CLIENT_VERIFY: the parked handshake object is worked on in place. */
  method AnswerVerify(state: HandshakeState, packet: bytes, x: Chance) returns (outcome: Outcome)
    requires state.AwaitingVerify? && ParkedOk(state.context.suite, state.Value())
    modifies state.context
    ensures ParkedOk(state.context.suite, state.Value())
    ensures (state.Value(), outcome) == Progress(state.context.suite, old(state.Value()), packet, x)
  {
    var verified := state.context.ProcessClientVerify(packet);
    if verified.Failure? {
      return Unfinished;
    }
    var _ := state.context.SendVerify();
    if !x.sendSucceeds {
      return Unanswered;
    }
    return Granted(Grant(state.sessionId, state.context.sessionKey.value, state.profile));
  }

  class LlpListener {
    const suite: Suite
    var handshakeStates: map<Peer, HandshakeState>
    var clientSessions: map<Peer, ClientSession>
    const manager: SessionManager

    /** The handshake objects the table owns, one for each peer. */
    ghost function Contexts(): set<ServerHandshake>
      reads this
    {
      set p | p in handshakeStates && handshakeStates[p].AwaitingVerify? :: handshakeStates[p].context
    }

    ghost predicate Owned()
      reads this
    {
      && (forall c <- Contexts() :: c.suite == suite)
      && (forall p, q | p in handshakeStates && q in handshakeStates && p != q ::
            handshakeStates[p].AwaitingVerify? && handshakeStates[q].AwaitingVerify? ==>
              handshakeStates[p].context != handshakeStates[q].context)
    }

    ghost predicate Valid()
      reads this, manager, Contexts()
    {
      manager.Valid() && Owned() && TablesOk(suite, View())
    }

    ghost function View(): Tables
      reads this, manager, Contexts()
    {
      Tables(map p | p in handshakeStates :: handshakeStates[p].Value(), clientSessions, manager.sessions)
    }

    constructor (suite: Suite, manager: SessionManager)
      requires manager.Valid()
      ensures Valid() && this.suite == suite && this.manager == manager
      ensures View() == Tables(map[], map[], manager.sessions)
    {
      this.suite, this.manager := suite, manager;
      handshakeStates, clientSessions := map[], map[];
    }

    method Install(peer: Peer, state: HandshakeState)
      requires Owned()
      requires state.AwaitingVerify? ==> state.context.suite == suite && state.context !in Contexts()
      modifies this`handshakeStates
      ensures Owned() && Contexts() <= old(Contexts()) + if state.AwaitingVerify? then {state.context} else {}
      ensures View() == old(View()).Park(peer, state.Value())
    {
      handshakeStates := handshakeStates[peer := state];
    }

    /** An object's change shows at its own peer only. */
    twostate lemma OnlyThisPeer(peer: Peer)
      requires Owned() && peer in handshakeStates && handshakeStates[peer].AwaitingVerify?
      requires unchanged(this) && unchanged(manager) && unchanged(Contexts() - {handshakeStates[peer].context})
      ensures View() == old(View()).Park(peer, handshakeStates[peer].Value())
    {
    }

    /** From taking the lock to the end of the handshake. */
    method ProcessHandshake(packet: bytes, peer: Peer, x: Chance) returns (outcome: Outcome)
      requires Valid()
      modifies this`handshakeStates, Contexts()
      ensures Valid() && fresh(Contexts() - old(Contexts()))
      ensures var (p, end) := Progress(suite, old(View().ParkedFor(peer)), packet, x);
              View() == old(View()).Park(peer, p) && outcome == end
    {
      if peer in handshakeStates && handshakeStates[peer].AwaitingVerify? {
        assert View().states[peer] == handshakeStates[peer].Value();
        outcome := AnswerVerify(handshakeStates[peer], packet, x);
        OnlyThisPeer(peer);
      } else {
        var state := AnswerHello(suite, packet, x);
        Install(peer, state);
        outcome := Unfinished;
      }
    }

    /** Registration, publication and removal of the parked state. */
    method Settle(peer: Peer, outcome: Outcome, now: int)
      requires Valid()
      modifies this, manager
      ensures Valid() && Contexts() <= old(Contexts())
      ensures View() == Settled(old(View()), peer, outcome, now)
    {
      if !outcome.Granted? {
        return;
      }
      var grant := outcome.grant;
      var added := manager.AddSession(grant.sessionId, grant.key, grant.profile, now);
      if added.Failure? {
        return;
      }
      clientSessions := clientSessions[peer := ClientSession(grant.sessionId, grant.key, 0)];
      handshakeStates := handshakeStates - {peer};
      TablesStayOk(suite, old(View()), peer, WaitingClientHello, outcome, now);
      assert View().states == old(View()).states - {peer};
    }

    method HandleHandshakePacket(packet: bytes, peer: Peer, x: Chance, now: int)
      requires Valid()
      modifies this, manager, Contexts()
      ensures Valid() && fresh(Contexts() - old(Contexts()))
      ensures View() == Handshaken(suite, old(View()), peer, packet, x, now)
    {
      var outcome := ProcessHandshake(packet, peer, x);
      Settle(peer, outcome, now);
    }

    method HandleVpnPacket(packet: bytes, peer: Peer) returns (ip: Option<bytes>)
      modifies this`clientSessions
      ensures clientSessions == AfterFrame(old(clientSessions), peer, packet)
      ensures ip == VpnAnswer(suite, old(clientSessions), peer, packet)
      ensures clientSessions.Keys == old(clientSessions).Keys
      ensures forall p <- clientSessions :: p != peer ==> clientSessions[p] == old(clientSessions)[p]
      ensures peer in clientSessions && |packet| >= 28 && Frames.FrameNumber(packet) != U64_MAX ==>
                clientSessions[peer].receiveCounter > Frames.FrameNumber(packet)
    {
      if peer !in clientSessions {
        return None;
      }
      var s := clientSessions[peer];
      var session := new Frames.ClientSession(suite, s.sessionId, s.key);
      session.receiveCounter := s.receiveCounter;
      ip := session.HandleIncomingPacket(packet);
      clientSessions := clientSessions[peer := s.(receiveCounter := session.receiveCounter)];
    }
  }
}
