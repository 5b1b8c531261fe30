/** Every interleaving of any number of packet tasks, with expiry in between. The
    steps are those that other tasks can tell apart: `handshake_states` is held
    throughout a critical section, the other locks only for single accesses. */
module Interleavings {
  import opened Bytes
  import opened Wrappers
  import opened Primitives
  import opened Messages
  import opened SessionManager
  import opened Listener
  import Frames

  datatype Phase =
    | Arrived                  // client_sessions not yet consulted
    | ToVpn | ToHandshake      // consulted: the peer had a session, or had none
    | Registering(grant: Grant) | Publishing(grant: Grant) | Retiring  // inside the critical section
    | Finished
  {
    predicate Inside() {
      Registering? || Publishing? || Retiring?
    }
  }

  datatype Task = Task(peer: Peer, packet: bytes, phase: Phase)

  /** The last two fields only record what has happened: the peers whose completed
      handshake add_session refused, or SERVER_VERIFY did not reach. */
  datatype Server = Server(
    tasks: seq<Task>, lockedBy: Option<nat>,
    states: map<Peer, Parked>, sessions: map<Peer, ClientSession>, manager: Table,
    refused: set<Peer>, unanswered: set<Peer>)

  const IDLE := Server([], None, map[], map[], map[], {}, {})

  datatype Action =
    | Arrive(peer: Peer, packet: bytes)
    | Consult(t: nat)
    | HandleVpn(t: nat)
    | Enter(t: nat, chance: Chance)
    | Register(t: nat, now: int)
    | Publish(t: nat)
    | Retire(t: nat)
    | Expire(ids: set<u64>)

  function View(w: Server): Tables {
    Tables(w.states, w.sessions, w.manager)
  }

  function ParkedAt(w: Server, peer: Peer): Parked {
    View(w).ParkedFor(peer)
  }

  /** No packet received before the server drew its random carries the tag of the
      transcript that random enters. */
  ghost predicate Unpredicted(suite: Suite, w: Server, p: Parked) {
    forall u :: 0 <= u < |w.tasks| ==> !Verifies(suite, p, w.tasks[u].packet)
  }

  /** Task t may run the handshake with this chance. That the parked state is
      well-formed is OkInv below, so it excludes nothing reachable. */
  ghost predicate MayEnter(suite: Suite, w: Server, t: nat, x: Chance)
    requires t < |w.tasks|
  {
    var p, packet := ParkedAt(w, w.tasks[t].peer), w.tasks[t].packet;
    && w.tasks[t].phase == ToHandshake && w.lockedBy == None && ParkedOk(suite, p)
    && (p.WaitingClientHello? ==> Unpredicted(suite, w, Progress(suite, p, packet, x).0))
  }

  ghost predicate Ready(suite: Suite, w: Server, a: Action) {
    match a
    case Arrive(_, packet) => packet != []
    case Consult(t) => t < |w.tasks| && w.tasks[t].phase == Arrived
    case HandleVpn(t) => t < |w.tasks| && w.tasks[t].phase == ToVpn
    case Enter(t, x) => t < |w.tasks| && MayEnter(suite, w, t, x)
    case Register(t, _) => t < |w.tasks| && w.tasks[t].phase.Registering?
    case Publish(t) => t < |w.tasks| && w.tasks[t].phase.Publishing?
    case Retire(t) => t < |w.tasks| && w.tasks[t].phase.Retiring?
    case Expire(_) => true
  }

  function Moved(w: Server, t: nat, phase: Phase): seq<Task>
    requires t < |w.tasks|
  {
    w.tasks[t := w.tasks[t].(phase := phase)]
  }

  /** Task t has parked this state and ended the handshake with this outcome. */
  function Entered(w: Server, t: nat, parked: Parked, outcome: Outcome): Server
    requires t < |w.tasks|
  {
    var peer := w.tasks[t].peer;
    w.(states := w.states[peer := parked],
       unanswered := if outcome.Unanswered? then w.unanswered + {peer} else w.unanswered,
       tasks := Moved(w, t, if outcome.Granted? then Registering(outcome.grant) else Finished),
       lockedBy := if outcome.Granted? then Some(t) else None)
  }

  function Registered(w: Server, t: nat, now: int): Server
    requires t < |w.tasks| && w.tasks[t].phase.Registering?
  {
    var g := w.tasks[t].phase.grant;
    if Admits(w.manager, g.sessionId)
    then w.(manager := w.manager[g.sessionId := Entry(g.key, g.profile, now, now)],
            tasks := Moved(w, t, Publishing(g)))
    else w.(refused := w.refused + {w.tasks[t].peer}, tasks := Moved(w, t, Finished), lockedBy := None)
  }

  function Published(w: Server, t: nat): Server
    requires t < |w.tasks| && w.tasks[t].phase.Publishing?
  {
    var peer, g := w.tasks[t].peer, w.tasks[t].phase.grant;
    w.(sessions := w.sessions[peer := ClientSession(g.sessionId, g.key, 0)], tasks := Moved(w, t, Retiring))
  }

  function Retired(w: Server, t: nat): Server
    requires t < |w.tasks|
  {
    w.(states := w.states - {w.tasks[t].peer}, tasks := Moved(w, t, Finished), lockedBy := None)
  }

  ghost function Next(suite: Suite, w: Server, a: Action): Server
    requires Ready(suite, w, a)
  {
    match a
    case Arrive(peer, packet) => w.(tasks := w.tasks + [Task(peer, packet, Arrived)])
    case Consult(t) => w.(tasks := Moved(w, t, if w.tasks[t].peer in w.sessions then ToVpn else ToHandshake))
    case HandleVpn(t) =>
      w.(sessions := AfterFrame(w.sessions, w.tasks[t].peer, w.tasks[t].packet), tasks := Moved(w, t, Finished))
    case Enter(t, x) =>
      var (parked, outcome) := Progress(suite, ParkedAt(w, w.tasks[t].peer), w.tasks[t].packet, x);
      Entered(w, t, parked, outcome)
    case Register(t, now) => Registered(w, t, now)
    case Publish(t) => Published(w, t)
    case Retire(t) => Retired(w, t)
    case Expire(ids) => w.(manager := w.manager - ids)
  }

  ghost predicate Step(suite: Suite, w: Server, a: Action, w': Server) {
    Ready(suite, w, a) && w' == Next(suite, w, a)
  }

  /** A run is its successive states and the actions between them. */
  ghost predicate Run(suite: Suite, ws: seq<Server>, acts: seq<Action>) {
    |ws| == |acts| + 1 && ws[0] == IDLE && forall k :: 0 < k < |ws| ==> Step(suite, ws[k - 1], acts[k - 1], ws[k])
  }

  ghost predicate Holds(w: Server, p: Peer) {
    w.lockedBy.Some? && w.lockedBy.value < |w.tasks| && w.tasks[w.lockedBy.value].peer == p
  }

  /** The lock is held by exactly the task inside, which has a completed handshake
      parked; its peer has no session before publication, and one after. */
  ghost predicate LockInv(w: Server) {
    && (forall u :: 0 <= u < |w.tasks| ==> (w.tasks[u].phase.Inside() <==> w.lockedBy == Some(u)))
    && (w.lockedBy.Some? ==>
          && w.lockedBy.value < |w.tasks|
          && var t := w.tasks[w.lockedBy.value];
             && t.peer in w.states && w.states[t.peer].Done()
             && (t.phase.Retiring? <==> t.peer in w.sessions)
             && (!t.phase.Retiring? ==> Carries(w.states[t.peer], t.phase.grant)))
  }

  /** A peer whose handshake is parked as completed has no session, but for the
      moment between publication and removal. */
  ghost predicate DoneInv(w: Server) {
    forall p <- w.states :: w.states[p].Done() && p in w.sessions ==> Holds(w, p)
  }

  ghost predicate OkInv(suite: Suite, w: Server) {
    TablesOk(suite, View(w))
  }

  /** A task that found no session, for a peer that has one by now, carries nothing
      that the peer's parked handshake accepts. */
  ghost predicate StaleInv(suite: Suite, w: Server) {
    forall u :: 0 <= u < |w.tasks| && w.tasks[u].phase == ToHandshake && w.tasks[u].peer in w.sessions ==>
      !Verifies(suite, ParkedAt(w, w.tasks[u].peer), w.tasks[u].packet)
  }

  /** Parked as completed outside any critical section. */
  ghost predicate Stranded(w: Server, p: Peer) {
    p in w.states && w.states[p].Done() && !Holds(w, p)
  }

  /** The peers this happens to: add_session refused, or SERVER_VERIFY did not go out. */
  ghost predicate StrandInv(w: Server) {
    forall p :: Stranded(w, p) <==> p in w.refused || p in w.unanswered
  }

  ghost predicate Core(w: Server) {
    LockInv(w) && DoneInv(w) && StrandInv(w)
  }

  ghost predicate Inv(suite: Suite, w: Server) {
    Core(w) && OkInv(suite, w) && StaleInv(suite, w)
  }

  /** What the critical section guarantees, whatever it did in detail. */
  ghost predicate Orderly(w: Server, t: nat, parked: Parked, outcome: Outcome) {
    && t < |w.tasks| && w.tasks[t].phase == ToHandshake && w.lockedBy == None
    && var peer := w.tasks[t].peer;
       && (ParkedAt(w, peer).Done() ==> parked == ParkedAt(w, peer) && outcome.Unfinished?)
       && (parked.Done() ==> peer !in w.sessions)
       && (parked.Done() && outcome.Unfinished? ==> ParkedAt(w, peer).Done())
       && (outcome.Unanswered? ==> parked.Done())
       && (outcome.Granted? ==> Carries(parked, outcome.grant))
  }

  lemma EnterIsOrderly(suite: Suite, w: Server, a: Action)
    requires Inv(suite, w) && Ready(suite, w, a) && a.Enter?
    ensures var (parked, outcome) := Progress(suite, ParkedAt(w, w.tasks[a.t].peer), w.tasks[a.t].packet, a.chance);
            Orderly(w, a.t, parked, outcome) && ParkedOk(suite, parked)
  {
    ProgressFacts(suite, ParkedAt(w, w.tasks[a.t].peer), w.tasks[a.t].packet, a.chance);
  }

  lemma EnteredKeepsCore(w: Server, t: nat, parked: Parked, outcome: Outcome)
    requires Core(w) && Orderly(w, t, parked, outcome)
    ensures Core(Entered(w, t, parked, outcome))
  {
  }

  lemma RegisteredKeepsCore(w: Server, t: nat, now: int)
    requires Core(w) && t < |w.tasks| && w.tasks[t].phase.Registering?
    ensures Core(Registered(w, t, now))
  {
  }

  /** Publication never overwrites a session. */
  lemma PublishedKeepsCore(w: Server, t: nat)
    requires Core(w) && t < |w.tasks| && w.tasks[t].phase.Publishing?
    ensures w.tasks[t].peer !in w.sessions
    ensures Core(Published(w, t))
  {
  }

  lemma RetiredKeepsCore(w: Server, t: nat)
    requires Core(w) && t < |w.tasks| && w.tasks[t].phase.Retiring?
    ensures Core(Retired(w, t))
  {
  }

  lemma HandleVpnKeepsCore(suite: Suite, w: Server, a: Action)
    requires Core(w) && Ready(suite, w, a) && a.HandleVpn?
    ensures Core(Next(suite, w, a))
  {
  }

  lemma OtherStepsKeepCore(suite: Suite, w: Server, a: Action)
    requires Core(w) && Ready(suite, w, a) && (a.Arrive? || a.Consult? || a.Expire?)
    ensures Core(Next(suite, w, a))
  {
  }

  lemma StepKeepsCore(suite: Suite, w: Server, a: Action)
    requires Inv(suite, w) && Ready(suite, w, a)
    ensures Core(Next(suite, w, a))
  {
    match a
    case Enter(t, x) =>
      EnterIsOrderly(suite, w, a);
      var (parked, outcome) := Progress(suite, ParkedAt(w, w.tasks[t].peer), w.tasks[t].packet, x);
      EnteredKeepsCore(w, t, parked, outcome);
    case Register(t, now) => RegisteredKeepsCore(w, t, now);
    case Publish(t) => PublishedKeepsCore(w, t);
    case Retire(t) => RetiredKeepsCore(w, t);
    case HandleVpn(_) => HandleVpnKeepsCore(suite, w, a);
    case _ => OtherStepsKeepCore(suite, w, a);
  }

  lemma EnterKeepsStale(suite: Suite, w: Server, a: Action)
    requires Inv(suite, w) && Ready(suite, w, a) && a.Enter?
    ensures OkInv(suite, Next(suite, w, a)) && StaleInv(suite, Next(suite, w, a))
  {
    var p, packet, w' := ParkedAt(w, w.tasks[a.t].peer), w.tasks[a.t].packet, Next(suite, w, a);
    ProgressFacts(suite, p, packet, a.chance);
    forall u | 0 <= u < |w'.tasks| && w'.tasks[u].phase == ToHandshake && w'.tasks[u].peer in w'.sessions
      ensures !Verifies(suite, ParkedAt(w', w'.tasks[u].peer), w'.tasks[u].packet)
    {
      assert w'.tasks[u] == w.tasks[u];
    }
  }

  lemma PublishedKeepsStale(suite: Suite, w: Server, t: nat)
    requires Inv(suite, w) && t < |w.tasks| && w.tasks[t].phase.Publishing?
    ensures StaleInv(suite, Published(w, t))
  {
  }

  lemma ConsultKeepsStale(suite: Suite, w: Server, a: Action)
    requires Inv(suite, w) && Ready(suite, w, a) && a.Consult?
    ensures StaleInv(suite, Next(suite, w, a))
  {
  }

  lemma QuietStepsKeepStale(suite: Suite, w: Server, w': Server)
    requires StaleInv(suite, w) && w'.sessions.Keys == w.sessions.Keys
    requires forall p :: ParkedAt(w', p) == ParkedAt(w, p) || ParkedAt(w', p) == WaitingClientHello
    requires forall u :: 0 <= u < |w'.tasks| && w'.tasks[u].phase == ToHandshake ==>
               u < |w.tasks| && w'.tasks[u] == w.tasks[u]
    ensures StaleInv(suite, w')
  {
  }

  lemma OtherStepsKeepStale(suite: Suite, w: Server, a: Action)
    requires Inv(suite, w) && Ready(suite, w, a) && !a.Enter? && !a.Publish? && !a.Consult?
    ensures StaleInv(suite, Next(suite, w, a))
  {
    if a.Register? {
      QuietStepsKeepStale(suite, w, Registered(w, a.t, a.now));
    } else if a.Retire? {
      QuietStepsKeepStale(suite, w, Retired(w, a.t));
    } else {
      QuietStepsKeepStale(suite, w, Next(suite, w, a));
    }
  }

  lemma OtherStepsKeepOk(suite: Suite, w: Server, a: Action)
    requires OkInv(suite, w) && Ready(suite, w, a) && !a.Enter?
    ensures OkInv(suite, Next(suite, w, a))
  {
  }

  lemma StepKeepsInv(suite: Suite, w: Server, a: Action)
    requires Inv(suite, w) && Ready(suite, w, a)
    ensures Inv(suite, Next(suite, w, a))
  {
    StepKeepsCore(suite, w, a);
    if a.Enter? {
      EnterKeepsStale(suite, w, a);
    } else {
      OtherStepsKeepOk(suite, w, a);
      if a.Publish? {
        PublishedKeepsStale(suite, w, a.t);
      } else if a.Consult? {
        ConsultKeepsStale(suite, w, a);
      } else {
        OtherStepsKeepStale(suite, w, a);
      }
    }
  }

  lemma {:induction false} RunKeepsInv(suite: Suite, ws: seq<Server>, acts: seq<Action>, k: nat)
    requires Run(suite, ws, acts) && k < |ws|
    ensures Inv(suite, ws[k])
  {
    if k > 0 {
      RunKeepsInv(suite, ws, acts, k - 1);
      assert Step(suite, ws[k - 1], acts[k - 1], ws[k]);
      StepKeepsInv(suite, ws[k - 1], acts[k - 1]);
    }
  }

  /** A session the peer has it keeps, under the same id and key. */
  ghost predicate SameBinding(w: Server, w': Server, p: Peer) {
    p in w.sessions ==>
      p in w'.sessions && w'.sessions[p].sessionId == w.sessions[p].sessionId && w'.sessions[p].key == w.sessions[p].key
  }

  lemma StepKeepsBindings(suite: Suite, w: Server, a: Action, p: Peer)
    requires Core(w) && Ready(suite, w, a)
    ensures SameBinding(w, Next(suite, w, a), p)
  {
    if a.Publish? {
      PublishedKeepsCore(w, a.t);
    }
  }

  lemma RunStepKeepsBindings(suite: Suite, ws: seq<Server>, acts: seq<Action>, k: nat, p: Peer)
    requires Run(suite, ws, acts) && 0 < k < |ws|
    ensures SameBinding(ws[k - 1], ws[k], p)
  {
    RunKeepsInv(suite, ws, acts, k - 1);
    assert Step(suite, ws[k - 1], acts[k - 1], ws[k]);
    StepKeepsBindings(suite, ws[k - 1], acts[k - 1], p);
  }

  /** In every interleaving each peer address is bound to at most one session for
      the whole run: bindings are never overwritten. */
  lemma {:induction false} OneSessionPerPeer(suite: Suite, ws: seq<Server>, acts: seq<Action>, i: nat, j: nat, p: Peer)
    requires Run(suite, ws, acts) && i <= j < |ws|
    ensures SameBinding(ws[i], ws[j], p)
    decreases j
  {
    if i < j {
      OneSessionPerPeer(suite, ws, acts, i, j - 1, p);
      RunStepKeepsBindings(suite, ws, acts, j, p);
    }
  }

  /** p's CLIENT_VERIFY was accepted and SERVER_VERIFY could not be sent. */
  ghost predicate SendFails(suite: Suite, w: Server, a: Action, p: Peer) {
    && a.Enter? && a.t < |w.tasks| && w.tasks[a.t].peer == p
    && Verifies(suite, ParkedAt(w, p), w.tasks[a.t].packet) && !a.chance.sendSucceeds
  }

  /** add_session refused p's completed handshake. */
  ghost predicate Refuses(w: Server, a: Action, p: Peer) {
    && a.Register? && a.t < |w.tasks| && w.tasks[a.t].peer == p
    && w.tasks[a.t].phase.Registering? && !Admits(w.manager, w.tasks[a.t].phase.grant.sessionId)
  }

  lemma StepRecords(suite: Suite, w: Server, a: Action, p: Peer)
    requires Ready(suite, w, a)
    ensures var w' := Next(suite, w, a);
            && (p in w'.unanswered <==> p in w.unanswered || SendFails(suite, w, a, p))
            && (p in w'.refused <==> p in w.refused || Refuses(w, a, p))
  {
    if a.Enter? {
      ProgressFacts(suite, ParkedAt(w, w.tasks[a.t].peer), w.tasks[a.t].packet, a.chance);
    }
  }

  /** By step k add_session has refused p, or a SERVER_VERIFY to p was not sent. */
  ghost predicate InVain(suite: Suite, ws: seq<Server>, acts: seq<Action>, k: nat, p: Peer)
    requires k <= |ws| && k <= |acts|
  {
    exists i :: 0 <= i < k && (SendFails(suite, ws[i], acts[i], p) || Refuses(ws[i], acts[i], p))
  }

  lemma {:induction false} RecordsAreEvents(suite: Suite, ws: seq<Server>, acts: seq<Action>, k: nat, p: Peer)
    requires Run(suite, ws, acts) && k < |ws|
    ensures p in ws[k].refused || p in ws[k].unanswered <==> InVain(suite, ws, acts, k, p)
  {
    if k > 0 {
      RecordsAreEvents(suite, ws, acts, k - 1, p);
      assert Step(suite, ws[k - 1], acts[k - 1], ws[k]);
      StepRecords(suite, ws[k - 1], acts[k - 1], p);
    }
  }

  /** In every reachable state a handshake is parked as completed outside any critical
      section exactly when add_session refused it or SERVER_VERIFY was not sent ... */
  lemma StrandedExactly(suite: Suite, ws: seq<Server>, acts: seq<Action>, k: nat, p: Peer)
    requires Run(suite, ws, acts) && k < |ws|
    ensures Stranded(ws[k], p) <==> InVain(suite, ws, acts, k, p)
  {
    RunKeepsInv(suite, ws, acts, k);
    RecordsAreEvents(suite, ws, acts, k, p);
  }

  /** ... and then the peer stays stranded and never obtains a session. */
  lemma StrandedNeverConnects(suite: Suite, ws: seq<Server>, acts: seq<Action>, i: nat, j: nat, p: Peer)
    requires Run(suite, ws, acts) && i <= j < |ws| && Stranded(ws[i], p)
    ensures Stranded(ws[j], p) && p !in ws[j].sessions
  {
    StrandedExactly(suite, ws, acts, i, p);
    StrandedExactly(suite, ws, acts, j, p);
    RunKeepsInv(suite, ws, acts, j);
  }

  /** While sends succeed, a parked handshake awaits CLIENT_VERIFY, is being
      registered, or was refused by add_session ... */
  lemma ParkedHandshakes(suite: Suite, ws: seq<Server>, acts: seq<Action>, k: nat, p: Peer)
    requires Run(suite, ws, acts) && k < |ws| && p in ws[k].states && ws[k].states[p].WaitingClientVerify?
    requires forall i :: 0 <= i < k && acts[i].Enter? ==> acts[i].chance.sendSucceeds
    ensures ws[k].states[p].AwaitsVerify() || Holds(ws[k], p)
            || exists i :: 0 <= i < k && Refuses(ws[i], acts[i], p)
  {
    RunKeepsInv(suite, ws, acts, k);
    StrandedExactly(suite, ws, acts, k, p);
  }

  /** The manager admits the id, key and profile of p's own completed handshake. */
  ghost predicate Admitted(w: Server, a: Action, p: Peer, g: Grant) {
    && a.Register? && a.t < |w.tasks| && w.tasks[a.t].peer == p
    && w.tasks[a.t].phase == Registering(g) && Admits(w.manager, g.sessionId)
    && p in w.states && Carries(w.states[p], g)
  }

  lemma StepAdmits(suite: Suite, w: Server, a: Action, t: nat)
    requires Inv(suite, w) && Ready(suite, w, a)
    requires var w' := Next(suite, w, a); t < |w'.tasks| && w'.tasks[t].phase.Publishing?
    ensures var task := Next(suite, w, a).tasks[t];
            (t < |w.tasks| && w.tasks[t] == task) || Admitted(w, a, task.peer, task.phase.grant)
  {
  }

  lemma {:induction false} PublishingWasAdmitted(suite: Suite, ws: seq<Server>, acts: seq<Action>, k: nat, t: nat)
    requires Run(suite, ws, acts) && k < |ws| && t < |ws[k].tasks| && ws[k].tasks[t].phase.Publishing?
    ensures exists i :: 0 <= i < k && Admitted(ws[i], acts[i], ws[k].tasks[t].peer, ws[k].tasks[t].phase.grant)
  {
    if k > 0 {
      var w, a := ws[k - 1], acts[k - 1];
      RunKeepsInv(suite, ws, acts, k - 1);
      assert Step(suite, w, a, ws[k]);
      StepAdmits(suite, w, a, t);
      if t < |w.tasks| && ws[k].tasks[t] == w.tasks[t] {
        PublishingWasAdmitted(suite, ws, acts, k - 1, t);
      }
    }
  }

  ghost predicate CarriesGrant(w: Server, p: Peer, g: Grant) {
    p in w.sessions && w.sessions[p].sessionId == g.sessionId && w.sessions[p].key == g.key
  }

  /** ... and, sends succeeding or not, every session carries the id and key of that
      peer's completed handshake, which the manager admitted at an earlier step. */
  lemma {:induction false} SessionsWereGranted(suite: Suite, ws: seq<Server>, acts: seq<Action>, k: nat, p: Peer)
    requires Run(suite, ws, acts) && k < |ws| && p in ws[k].sessions
    ensures exists i, g :: 0 <= i < k && Admitted(ws[i], acts[i], p, g) && CarriesGrant(ws[k], p, g)
  {
    if k > 0 {
      var w, a := ws[k - 1], acts[k - 1];
      assert Step(suite, w, a, ws[k]);
      if p in w.sessions {
        RunStepKeepsBindings(suite, ws, acts, k, p);
        SessionsWereGranted(suite, ws, acts, k - 1, p);
        var i, g :| 0 <= i < k - 1 && Admitted(ws[i], acts[i], p, g) && CarriesGrant(w, p, g);
        assert CarriesGrant(ws[k], p, g);
      } else {
        assert a.Publish? && w.tasks[a.t].peer == p;
        PublishingWasAdmitted(suite, ws, acts, k - 1, a.t);
        assert CarriesGrant(ws[k], p, w.tasks[a.t].phase.grant);
      }
    }
  }

  lemma StepKeepsHandshake(suite: Suite, w: Server, a: Action, p: Peer)
    requires Inv(suite, w) && Ready(suite, w, a) && p in w.states && w.states[p].WaitingClientVerify?
    requires p !in w.sessions
    ensures var w' := Next(suite, w, a); p in w'.states && SameHandshake(w.states[p], w'.states[p])
  {
    if a.Enter? {
      ProgressFacts(suite, ParkedAt(w, w.tasks[a.t].peer), w.tasks[a.t].packet, a.chance);
    }
  }

  /** Unless p has a session after the step, it had none before and what was parked for
      it is still the same exchange. */
  ghost predicate KeepsParked(w: Server, w': Server, p: Peer) {
    p !in w'.sessions ==>
      && p !in w.sessions
      && (p in w.states && w.states[p].WaitingClientVerify? ==>
            p in w'.states && SameHandshake(w.states[p], w'.states[p]))
  }

  lemma RunStepKeepsParked(suite: Suite, ws: seq<Server>, acts: seq<Action>, k: nat, p: Peer)
    requires Run(suite, ws, acts) && 0 < k < |ws|
    ensures KeepsParked(ws[k - 1], ws[k], p)
  {
    RunStepKeepsBindings(suite, ws, acts, k, p);
    RunKeepsInv(suite, ws, acts, k - 1);
    assert Step(suite, ws[k - 1], acts[k - 1], ws[k]);
    if p !in ws[k - 1].sessions && p in ws[k - 1].states && ws[k - 1].states[p].WaitingClientVerify? {
      StepKeepsHandshake(suite, ws[k - 1], acts[k - 1], p);
    }
  }

  lemma {:induction false} KeptThroughout(ws: seq<Server>, i: nat, j: nat, p: Peer)
    requires i <= j < |ws| && forall k :: i < k <= j ==> KeepsParked(ws[k - 1], ws[k], p)
    ensures KeepsParked(ws[i], ws[j], p)
    decreases j
  {
    if i < j {
      KeptThroughout(ws, i, j - 1, p);
      assert KeepsParked(ws[j - 1], ws[j], p);
    }
  }

  /** A parked handshake is final: until the peer has a session, it stays the same
      exchange, so that no later CLIENT_HELLO from that address is answered. */
  lemma ParkedIsFinal(suite: Suite, ws: seq<Server>, acts: seq<Action>, i: nat, j: nat, p: Peer)
    requires Run(suite, ws, acts) && i <= j < |ws| && p !in ws[j].sessions
    requires p in ws[i].states && ws[i].states[p].WaitingClientVerify?
    ensures p in ws[j].states && SameHandshake(ws[i].states[p], ws[j].states[p])
  {
    forall k | i < k <= j ensures KeepsParked(ws[k - 1], ws[k], p) {
      RunStepKeepsParked(suite, ws, acts, k, p);
    }
    KeptThroughout(ws, i, j, p);
  }

  /** The cleanup task's step is one of the expiries: it leaves the manager the survivors
      of that time, and everything else as it was. */
  lemma CleanupIsAnExpiry(suite: Suite, w: Server, now: int, lifetime: int)
    ensures var ids := w.manager.Keys - Survivors(w.manager, now, lifetime).Keys;
            && Ready(suite, w, Expire(ids))
            && Next(suite, w, Expire(ids)) == w.(manager := Survivors(w.manager, now, lifetime))
  {
    var ids := w.manager.Keys - Survivors(w.manager, now, lifetime).Keys;
    assert w.manager - ids == Survivors(w.manager, now, lifetime);
  }

  /** p's CLIENT_HELLO parses, and SERVER_HELLO goes out: what is parked answers it. */
  ghost predicate HelloAnswered(suite: Suite, w: Server, a: Action, p: Peer, parked: Parked) {
    && a.Enter? && a.t < |w.tasks| && w.tasks[a.t].peer == p && a.chance.sendSucceeds
    && ParkedAt(w, p).WaitingClientHello? && Answers(suite, parked, w.tasks[a.t].packet, a.chance)
  }

  ghost predicate AnsweredBefore(suite: Suite, ws: seq<Server>, acts: seq<Action>, k: nat, p: Peer)
    requires k < |ws| && k <= |acts| && p in ws[k].states
  {
    exists i, parked ::
      0 <= i < k && HelloAnswered(suite, ws[i], acts[i], p, parked) && SameHandshake(parked, ws[k].states[p])
  }

  lemma StepParksAnswered(suite: Suite, w: Server, a: Action, p: Peer)
    requires Inv(suite, w) && Ready(suite, w, a)
    requires var w' := Next(suite, w, a); p in w'.states && w'.states[p].WaitingClientVerify?
    ensures var parked := Next(suite, w, a).states[p];
            || (p in w.states && SameHandshake(w.states[p], parked))
            || HelloAnswered(suite, w, a, p, parked)
  {
    if a.Enter? {
      ProgressFacts(suite, ParkedAt(w, w.tasks[a.t].peer), w.tasks[a.t].packet, a.chance);
    }
  }

  /** A handshake is parked only where an earlier CLIENT_HELLO of that peer parsed and
      its SERVER_HELLO went out, and it carries that hello and what was drawn for it. */
  lemma {:induction false} ParkedWasAnswered(suite: Suite, ws: seq<Server>, acts: seq<Action>, k: nat, p: Peer)
    requires Run(suite, ws, acts) && k < |ws| && p in ws[k].states && ws[k].states[p].WaitingClientVerify?
    ensures AnsweredBefore(suite, ws, acts, k, p)
  {
    if k > 0 {
      var w, a, parked := ws[k - 1], acts[k - 1], ws[k].states[p];
      RunKeepsInv(suite, ws, acts, k - 1);
      assert Step(suite, w, a, ws[k]);
      StepParksAnswered(suite, w, a, p);
      if p in w.states && SameHandshake(w.states[p], parked) {
        ParkedWasAnswered(suite, ws, acts, k - 1, p);
        var i, first :| && 0 <= i < k - 1 && HelloAnswered(suite, ws[i], acts[i], p, first)
                        && SameHandshake(first, w.states[p]);
        assert SameHandshake(first, parked);
      } else {
        assert HelloAnswered(suite, w, a, p, parked) && SameHandshake(parked, parked);
      }
    }
  }

  /** The step is a VPN packet of p, while p has a session. */
  ghost predicate IsVpn(w: Server, a: Action, p: Peer) {
    a.HandleVpn? && a.t < |w.tasks| && w.tasks[a.t].peer == p && p in w.sessions
  }

  /** A VPN packet of p numbered 2^64 - 1, which wraps the counter. */
  ghost predicate Wraps(w: Server, a: Action, p: Peer) {
    && IsVpn(w, a, p) && |w.tasks[a.t].packet| >= Frames.MIN_FRAME_SIZE
    && Frames.FrameNumber(w.tasks[a.t].packet) == U64_MAX
  }

  ghost predicate KeepsCounter(w: Server, w': Server, p: Peer) {
    p in w.sessions ==> p in w'.sessions && w.sessions[p].receiveCounter <= w'.sessions[p].receiveCounter
  }

  lemma StepKeepsCounter(suite: Suite, w: Server, a: Action, p: Peer)
    requires Core(w) && Ready(suite, w, a) && !Wraps(w, a, p)
    ensures KeepsCounter(w, Next(suite, w, a), p)
  {
    if a.Publish? {
      PublishedKeepsCore(w, a.t);
    }
  }

  lemma {:induction false} CounterKept(ws: seq<Server>, i: nat, j: nat, p: Peer)
    requires i <= j < |ws| && forall k :: i < k <= j ==> KeepsCounter(ws[k - 1], ws[k], p)
    ensures KeepsCounter(ws[i], ws[j], p)
    decreases j
  {
    if i < j {
      CounterKept(ws, i, j - 1, p);
      assert KeepsCounter(ws[j - 1], ws[j], p);
    }
  }

  lemma RunStepKeepsCounter(suite: Suite, ws: seq<Server>, acts: seq<Action>, k: nat, p: Peer)
    requires Run(suite, ws, acts) && 0 < k < |ws| && !Wraps(ws[k - 1], acts[k - 1], p)
    ensures KeepsCounter(ws[k - 1], ws[k], p)
  {
    RunKeepsInv(suite, ws, acts, k - 1);
    assert Step(suite, ws[k - 1], acts[k - 1], ws[k]);
    StepKeepsCounter(suite, ws[k - 1], acts[k - 1], p);
  }

  lemma RunKeepsCounter(suite: Suite, ws: seq<Server>, acts: seq<Action>, i: nat, j: nat, p: Peer)
    requires Run(suite, ws, acts) && i <= j < |ws|
    requires forall k :: i <= k < j ==> !Wraps(ws[k], acts[k], p)
    ensures KeepsCounter(ws[i], ws[j], p)
  {
    forall k | i < k <= j ensures KeepsCounter(ws[k - 1], ws[k], p) {
      RunStepKeepsCounter(suite, ws, acts, k, p);
    }
    CounterKept(ws, i, j, p);
  }

  /** The VPN packet of this step delivers. */
  ghost predicate Delivers(suite: Suite, w: Server, a: Action, p: Peer) {
    IsVpn(w, a, p) && VpnAnswer(suite, w.sessions, p, w.tasks[a.t].packet).Some?
  }

  lemma DeliveryMovesCounter(suite: Suite, w: Server, a: Action, p: Peer)
    requires Ready(suite, w, a) && Delivers(suite, w, a, p) && !Wraps(w, a, p)
    ensures var w' := Next(suite, w, a);
            p in w'.sessions && Frames.FrameNumber(w.tasks[a.t].packet) < w'.sessions[p].receiveCounter
  {
  }

  /** In every interleaving, the VPN packets of a peer that deliver have increasing
      numbers, unless one before the later numbered 2^64 - 1 wrapped the counter. */
  lemma NumbersDeliverOnce(suite: Suite, ws: seq<Server>, acts: seq<Action>, i: nat, j: nat, p: Peer)
    requires Run(suite, ws, acts) && i < j < |acts|
    requires Delivers(suite, ws[i], acts[i], p) && Delivers(suite, ws[j], acts[j], p)
    requires forall k :: i <= k < j ==> !Wraps(ws[k], acts[k], p)
    ensures Frames.FrameNumber(ws[i].tasks[acts[i].t].packet) < Frames.FrameNumber(ws[j].tasks[acts[j].t].packet)
  {
    assert Step(suite, ws[i + 1 - 1], acts[i + 1 - 1], ws[i + 1]);
    DeliveryMovesCounter(suite, ws[i], acts[i], p);
    RunKeepsCounter(suite, ws, acts, i + 1, j, p);
  }

  /** Right after its publication a session delivers every frame sealed for it. */
  lemma NewSessionsDeliver(suite: Suite, w: Server, t: nat, counter: u64, ip: bytes)
    requires t < |w.tasks| && w.tasks[t].phase.Publishing?
    ensures var peer, g, sessions := w.tasks[t].peer, w.tasks[t].phase.grant, Published(w, t).sessions;
            VpnAnswer(suite, sessions, peer, Frames.Frame(suite, g.key, g.sessionId, counter, ip)) == Some(ip)
  {
    var g := w.tasks[t].phase.grant;
    Frames.FrameIsRecovered(suite, g.key, g.sessionId, 0, counter, ip);
  }

  ghost predicate Reachable(suite: Suite, w: Server) {
    exists ws, acts :: Run(suite, ws, acts) && ws[|acts|] == w
  }

  lemma ReachNext(suite: Suite, w: Server, a: Action)
    requires Reachable(suite, w) && Ready(suite, w, a)
    ensures Reachable(suite, Next(suite, w, a))
  {
    var ws, acts :| Run(suite, ws, acts) && ws[|acts|] == w;
    var ws', acts' := ws + [Next(suite, w, a)], acts + [a];
    forall k | 0 < k < |ws'| ensures Step(suite, ws'[k - 1], acts'[k - 1], ws'[k]) {
      assert k < |ws| ==> Step(suite, ws[k - 1], acts[k - 1], ws[k]);
    }
    assert Run(suite, ws', acts');
  }

  /** What a server parks on this hello and this chance. */
  function ParkedOn(suite: Suite, hello: ClientHello, x: Chance): Parked {
    Progress(suite, WaitingClientHello, ClientHelloBytes(hello), x).0
  }

  lemma HelloIsParked(suite: Suite, hello: ClientHello, x: Chance)
    requires x.sendSucceeds
    ensures var p := ParkedOn(suite, hello, x);
            && Progress(suite, WaitingClientHello, ClientHelloBytes(hello), x) == (p, Unfinished)
            && p.AwaitsVerify() && ParkedOk(suite, p) && p.sessionId == x.sessionId && p.hs.Tag(suite).Some?
            && !Verifies(suite, p, ClientHelloBytes(hello))
            && Verifies(suite, p, VerifyBytes(CLIENT_VERIFY, p.hs.Tag(suite).value))
  {
    ClientHelloCodec(ClientHelloBytes(hello), hello);
    ProgressFacts(suite, WaitingClientHello, ClientHelloBytes(hello), x);
    var tag := ParkedOn(suite, hello, x).hs.Tag(suite).value;
    VerifyCodec(CLIENT_VERIFY, VerifyBytes(CLIENT_VERIFY, tag), tag);
  }

  lemma HelloArrives(suite: Suite, peer: Peer, packet: bytes)
    requires packet != []
    ensures Reachable(suite, IDLE.(tasks := [Task(peer, packet, ToHandshake)]))
  {
    assert Run(suite, [IDLE], []) && [IDLE][0] == IDLE;
    ReachNext(suite, IDLE, Arrive(peer, packet));
    var arrived := Task(peer, packet, Arrived);
    assert IDLE.tasks + [arrived] == [arrived];
    ReachNext(suite, IDLE.(tasks := [arrived]), Consult(0));
    assert [arrived][0 := arrived.(phase := ToHandshake)] == [Task(peer, packet, ToHandshake)];
  }

  /** The peer's hello is parked and its CLIENT_VERIFY about to be looked at. */
  function VerifyAhead(suite: Suite, peer: Peer, hello: ClientHello, x: Chance): Server
    requires ParkedOn(suite, hello, x).WaitingClientVerify? && ParkedOn(suite, hello, x).hs.Tag(suite).Some?
  {
    var p := ParkedOn(suite, hello, x);
    IDLE.(tasks := [Task(peer, ClientHelloBytes(hello), Finished),
                    Task(peer, VerifyBytes(CLIENT_VERIFY, p.hs.Tag(suite).value), ToHandshake)],
          states := map[peer := p])
  }

  lemma VerifyArrives(suite: Suite, peer: Peer, hello: ClientHello, x: Chance)
    requires x.sendSucceeds
    ensures ParkedOn(suite, hello, x).WaitingClientVerify? && ParkedOn(suite, hello, x).hs.Tag(suite).Some?
    ensures Reachable(suite, VerifyAhead(suite, peer, hello, x))
  {
    HelloIsParked(suite, hello, x);
    HelloArrives(suite, peer, ClientHelloBytes(hello));
    var p := ParkedOn(suite, hello, x);
    var start := IDLE.(tasks := [Task(peer, ClientHelloBytes(hello), ToHandshake)]);
    ReachNext(suite, start, Enter(0, x));
    var done := Task(peer, ClientHelloBytes(hello), Finished);
    var parked := IDLE.(tasks := [done], states := map[peer := p]);
    assert Next(suite, start, Enter(0, x)) == parked;
    var packet := VerifyBytes(CLIENT_VERIFY, p.hs.Tag(suite).value);
    ReachNext(suite, parked, Arrive(peer, packet));
    var arrived := Task(peer, packet, Arrived);
    assert [done] + [arrived] == [done, arrived];
    ReachNext(suite, parked.(tasks := [done, arrived]), Consult(1));
    assert [done, arrived][1 := arrived.(phase := ToHandshake)] == [done, Task(peer, packet, ToHandshake)];
  }

  /** Any peer is stranded by one failed send, whatever was drawn. */
  lemma StrandedIsReached(suite: Suite, peer: Peer, hello: ClientHello, x: Chance, y: Chance)
    requires x.sendSucceeds && !y.sendSucceeds
    ensures exists w :: Reachable(suite, w) && Stranded(w, peer)
  {
    VerifyArrives(suite, peer, hello, x);
    HelloIsParked(suite, hello, x);
    var w := VerifyAhead(suite, peer, hello, x);
    ProgressFacts(suite, ParkedOn(suite, hello, x), w.tasks[1].packet, y);
    ReachNext(suite, w, Enter(1, y));
    assert Stranded(Next(suite, w, Enter(1, y)), peer);
  }

  lemma GrantIsRegistered(suite: Suite, w: Server, now: int)
    requires Reachable(suite, w) && |w.tasks| == 2 && w.tasks[1].phase.Registering? && w.manager == map[]
    ensures var g, peer := w.tasks[1].phase.grant, w.tasks[1].peer;
            exists w' :: Reachable(suite, w') && CarriesGrant(w', peer, g) && w'.lockedBy == None && peer !in w'.states
  {
    ReachNext(suite, w, Register(1, now));
    var registered := Registered(w, 1, now);
    ReachNext(suite, registered, Publish(1));
    var published := Published(registered, 1);
    ReachNext(suite, published, Retire(1));
    assert Reachable(suite, Retired(published, 1));
  }

  /** With sends that succeed, any peer obtains its session. */
  lemma SessionIsReached(suite: Suite, peer: Peer, hello: ClientHello, x: Chance, y: Chance, now: int)
    requires x.sendSucceeds && y.sendSucceeds
    ensures var p := ParkedOn(suite, hello, x);
            && p.WaitingClientVerify? && p.hs.key.Some?
            && exists w :: && Reachable(suite, w) && w.lockedBy == None && peer !in w.states
                           && CarriesGrant(w, peer, Grant(x.sessionId, p.hs.key.value, hello.profile))
  {
    VerifyArrives(suite, peer, hello, x);
    HelloIsParked(suite, hello, x);
    var w := VerifyAhead(suite, peer, hello, x);
    ProgressFacts(suite, ParkedOn(suite, hello, x), w.tasks[1].packet, y);
    ReachNext(suite, w, Enter(1, y));
    GrantIsRegistered(suite, Next(suite, w, Enter(1, y)), now);
  }

  /** The rest of task t's critical section from registration on, with no other step
      in between. */
  function Finish(w: Server, t: nat, now: int): Server
    requires t < |w.tasks| && w.tasks[t].phase.Registering?
  {
    var registered := Registered(w, t, now);
    if registered.tasks[t].phase.Publishing? then Retired(Published(registered, t), t) else registered
  }

  lemma FinishIsSettled(w: Server, t: nat, now: int)
    requires t < |w.tasks| && w.tasks[t].phase.Registering?
    ensures View(Finish(w, t, now)) == Settled(View(w), w.tasks[t].peer, Granted(w.tasks[t].phase.grant), now)
  {
  }

  ghost function Uninterrupted(suite: Suite, w: Server, t: nat, x: Chance, now: int): Server
    requires Ready(suite, w, Enter(t, x))
  {
    var entered := Next(suite, w, Enter(t, x));
    if entered.tasks[t].phase.Registering? then Finish(entered, t, now) else entered
  }

  /** Run without interference, the steps have the effect that the listener's
      HandleHandshakePacket is proved to have. */
  lemma UninterruptedIsTheMethod(suite: Suite, w: Server, t: nat, x: Chance, now: int)
    requires Ready(suite, w, Enter(t, x))
    ensures View(Uninterrupted(suite, w, t, x, now))
            == Handshaken(suite, View(w), w.tasks[t].peer, w.tasks[t].packet, x, now)
  {
    var entered := Next(suite, w, Enter(t, x));
    if entered.tasks[t].phase.Registering? {
      FinishIsSettled(entered, t, now);
    }
  }
}
