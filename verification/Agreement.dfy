/** Any number of clients and servers run the handshake over a network that drops,
    duplicates, reorders and misdelivers datagrams, appends octets to them, and invents
    any it likes except verify messages: only a handshake party computes an HMAC tag. */
module Agreement {
  import opened Bytes
  import opened Wrappers
  import opened Primitives
  import opened Profiles
  import opened Messages
  import opened Handshake

  datatype World = World(clients: seq<ClientState>, servers: seq<ServerState>, pool: set<bytes>)

  const EMPTY := World([], [], {})

  datatype Action =
    | AddClient(secret: Block32, profile: MimicryProfile)
    | AddServer(secret: Block32, sessionId: u64)
    | ClientActs(i: nat, clientCall: ClientCall)
    | ServerActs(j: nat, serverCall: ServerCall)

  predicate IsVerify(data: bytes) {
    |data| >= VERIFY_SIZE && data[0] in [CLIENT_VERIFY, SERVER_VERIFY]
  }

  /** A verify message is one that was sent, with anything after it. */
  predicate Deliverable(pool: set<bytes>, data: bytes) {
    !IsVerify(data) || exists m <- pool :: IsVerify(m) && m <= data
  }

  predicate ClientHears(pool: set<bytes>, call: ClientCall) {
    match call
    case TakeServerHello(data) => Deliverable(pool, data)
    case TakeServerVerify(data) => Deliverable(pool, data)
    case _ => true
  }

  predicate ServerHears(pool: set<bytes>, call: ServerCall) {
    match call
    case TakeClientHello(_, data) => Deliverable(pool, data)
    case TakeClientVerify(data) => Deliverable(pool, data)
    case SendServerVerify => true
  }

  predicate Enabled(w: World, a: Action) {
    match a
    case ClientActs(i, call) => i < |w.clients| && ClientHears(w.pool, call)
    case ServerActs(j, call) => j < |w.servers| && ServerHears(w.pool, call)
    case _ => true
  }

  function Emitted(r: Result<Reply, HandshakeError>): set<bytes> {
    match r
    case Success(Message(data)) => {data}
    case Success(Hello(data, _)) => {data}
    case _ => {}
  }

  ghost predicate WellFormed(suite: Suite, w: World) {
    && (forall c <- w.clients :: c.WellFormed(suite))
    && (forall s <- w.servers :: s.WellFormed(suite))
  }

  function Next(suite: Suite, w: World, a: Action): World
    requires WellFormed(suite, w) && Enabled(w, a)
  {
    match a
    case AddClient(secret, profile) => w.(clients := w.clients + [NewClient(secret, profile)])
    case AddServer(secret, sessionId) => w.(servers := w.servers + [NewServer(secret, sessionId)])
    case ClientActs(i, call) =>
      var (c, r) := ClientStep(suite, w.clients[i], call);
      w.(clients := w.clients[i := c], pool := w.pool + Emitted(r))
    case ServerActs(j, call) =>
      var (s, r) := ServerStep(suite, w.servers[j], call);
      w.(servers := w.servers[j := s], pool := w.pool + Emitted(r))
  }

  /** What agreement is about: how far each party is, and its tag. */
  datatype Standing = Standing(rank: nat, tag: Option<Block32>)
  datatype Board = Board(clients: seq<Standing>, servers: seq<Standing>, pool: set<bytes>)

  function ClientStanding(suite: Suite, c: ClientState): Standing {
    Standing(c.Rank(), c.Tag(suite))
  }

  function ServerStanding(suite: Suite, s: ServerState): Standing {
    Standing(s.Rank(), s.Tag(suite))
  }

  function Summary(suite: Suite, w: World): Board {
    Board(seq(|w.clients|, i requires 0 <= i < |w.clients| => ClientStanding(suite, w.clients[i])),
          seq(|w.servers|, j requires 0 <= j < |w.servers| => ServerStanding(suite, w.servers[j])),
          w.pool)
  }

  /** A client (a completed server) put this tag into a verify message. */
  ghost predicate ClientSent(b: Board, tag: Option<Block32>) {
    exists i :: 0 <= i < |b.clients| && b.clients[i].rank >= 3 && b.clients[i].tag == tag
  }

  ghost predicate ServerSent(b: Board, tag: Option<Block32>) {
    exists j :: 0 <= j < |b.servers| && b.servers[j].rank == 3 && b.servers[j].tag == tag
  }

  ghost predicate Provenance(b: Board, m: bytes) {
    IsVerify(m) ==>
      && |m| == VERIFY_SIZE
      && if m[0] == CLIENT_VERIFY then ClientSent(b, Some(m[1..33])) else ServerSent(b, Some(m[1..33]))
  }

  /** Every verify message and every acceptance goes back to a party with that tag. */
  ghost predicate Sound(b: Board) {
    && (forall m <- b.pool :: Provenance(b, m))
    && (forall j :: 0 <= j < |b.servers| && b.servers[j].rank >= 2 ==> ClientSent(b, b.servers[j].tag))
    && (forall i :: 0 <= i < |b.clients| && b.clients[i].rank >= 4 ==> ServerSent(b, b.clients[i].tag))
  }

  /** All that soundness needs to know of a client's step ... */
  ghost predicate ClientMove(b: Board, c: Standing, c': Standing, out: set<bytes>) {
    && c'.rank >= c.rank
    && (c.rank >= 3 ==> c'.tag == c.tag)
    && (c'.rank == 4 ==> ServerSent(b, c'.tag))
    && c'.rank <= 4
    && (forall m <- out :: IsVerify(m) ==>
          |m| == VERIFY_SIZE && m[0] == CLIENT_VERIFY && c'.rank >= 3 && c'.tag == Some(m[1..33]))
  }

  lemma ClientMoveStaysSound(b: Board, i: nat, c': Standing, out: set<bytes>)
    requires Sound(b) && i < |b.clients| && ClientMove(b, b.clients[i], c', out)
    ensures Sound(b.(clients := b.clients[i := c'], pool := b.pool + out))
  {
    var b' := b.(clients := b.clients[i := c'], pool := b.pool + out);
    forall tag | ClientSent(b, tag) ensures ClientSent(b', tag) {
      var k :| 0 <= k < |b.clients| && b.clients[k].rank >= 3 && b.clients[k].tag == tag;
      assert b'.clients[k].rank >= 3 && b'.clients[k].tag == tag;
    }
    forall m <- b'.pool ensures Provenance(b', m) {
      assert m in b.pool ==> Provenance(b, m);
      assert b'.clients[i] == c';
    }
  }

  /** ... and of a server's. */
  ghost predicate ServerMove(b: Board, s: Standing, s': Standing, out: set<bytes>) {
    && s'.rank >= s.rank
    && (s.rank >= 2 ==> s'.tag == s.tag)
    && (s'.rank >= 2 ==> ClientSent(b, s'.tag))
    && s'.rank <= 3
    && (forall m <- out :: IsVerify(m) ==>
          |m| == VERIFY_SIZE && m[0] == SERVER_VERIFY && s'.rank == 3 && s'.tag == Some(m[1..33]))
  }

  lemma ServerMoveStaysSound(b: Board, j: nat, s': Standing, out: set<bytes>)
    requires Sound(b) && j < |b.servers| && ServerMove(b, b.servers[j], s', out)
    ensures Sound(b.(servers := b.servers[j := s'], pool := b.pool + out))
  {
    var b' := b.(servers := b.servers[j := s'], pool := b.pool + out);
    forall tag | ServerSent(b, tag) ensures ServerSent(b', tag) {
      var k :| 0 <= k < |b.servers| && b.servers[k].rank == 3 && b.servers[k].tag == tag;
      assert b'.servers[k].rank == 3 && b'.servers[k].tag == tag;
    }
    forall m <- b'.pool ensures Provenance(b', m) {
      assert m in b.pool ==> Provenance(b, m);
      assert b'.servers[j] == s';
    }
  }

  lemma AddStaysSound(b: Board, c: Standing, s: Standing)
    requires Sound(b) && c.rank == s.rank == 0
    ensures Sound(b.(clients := b.clients + [c])) && Sound(b.(servers := b.servers + [s]))
  {
    var bc, bs := b.(clients := b.clients + [c]), b.(servers := b.servers + [s]);
    forall tag | ClientSent(b, tag) ensures ClientSent(bc, tag) && ClientSent(bs, tag) {
      var k :| 0 <= k < |b.clients| && b.clients[k].rank >= 3 && b.clients[k].tag == tag;
      assert bc.clients[k] == b.clients[k];
    }
    forall tag | ServerSent(b, tag) ensures ServerSent(bc, tag) && ServerSent(bs, tag) {
      var k :| 0 <= k < |b.servers| && b.servers[k].rank == 3 && b.servers[k].tag == tag;
      assert bs.servers[k] == b.servers[k];
    }
    forall m <- b.pool ensures Provenance(bc, m) && Provenance(bs, m) {
      assert Provenance(b, m);
    }
  }

  lemma HeardVerifyWasSent(b: Board, m: bytes, kind: byte, tag: Block32)
    requires Sound(b) && Deliverable(b.pool, m) && kind in [CLIENT_VERIFY, SERVER_VERIFY] && VerifyBytes(kind, tag) <= m
    ensures if kind == CLIENT_VERIFY then ClientSent(b, Some(tag)) else ServerSent(b, Some(tag))
  {
    assert m[..VERIFY_SIZE] == VerifyBytes(kind, tag);
    var sent :| sent in b.pool && IsVerify(sent) && sent <= m;
    assert Provenance(b, sent);
    assert sent == m[..VERIFY_SIZE];
    assert sent[1..33] == tag;
  }

  lemma ClientStepMoves(suite: Suite, b: Board, c: ClientState, call: ClientCall)
    requires Sound(b) && ClientHears(b.pool, call) && c.WellFormed(suite)
    requires c.state == Completed ==> ServerSent(b, c.Tag(suite))
    ensures var (c', r) := ClientStep(suite, c, call);
            ClientMove(b, ClientStanding(suite, c), ClientStanding(suite, c'), Emitted(r))
  {
    var (c', r) := ClientStep(suite, c, call);
    ClientStepClimbs(suite, c, call);
    ClientVerifyTraffic(suite, c, call);
    if r.Success? && r.value.Message? && r.value.data[0] != CLIENT_HELLO {
      assert r.value.data[1..33] == c'.Tag(suite).value;
    }
    if r.Success? && c'.Rank() == 4 {
      HeardVerifyWasSent(b, call.verify, SERVER_VERIFY, c'.Tag(suite).value);
    }
  }

  lemma ServerStepMoves(suite: Suite, b: Board, s: ServerState, call: ServerCall)
    requires Sound(b) && ServerHears(b.pool, call) && s.WellFormed(suite)
    requires s.Rank() >= 2 ==> ClientSent(b, s.Tag(suite))
    ensures var (s', r) := ServerStep(suite, s, call);
            ServerMove(b, ServerStanding(suite, s), ServerStanding(suite, s'), Emitted(r))
  {
    var (s', r) := ServerStep(suite, s, call);
    ServerStepClimbs(suite, s, call);
    ServerVerifyTraffic(suite, s, call);
    if r.Success? && r.value.Message? {
      assert r.value.data[1..33] == s'.Tag(suite).value;
    }
    if r.Success? && s'.Rank() == 2 {
      HeardVerifyWasSent(b, call.verify, CLIENT_VERIFY, s'.Tag(suite).value);
    }
  }

  ghost predicate Inv(suite: Suite, w: World) {
    WellFormed(suite, w) && Sound(Summary(suite, w))
  }

  lemma StepKeepsWellFormed(suite: Suite, w: World, a: Action)
    requires WellFormed(suite, w) && Enabled(w, a)
    ensures WellFormed(suite, Next(suite, w, a))
  {
    if a.ClientActs? {
      ClientStepClimbs(suite, w.clients[a.i], a.clientCall);
    } else if a.ServerActs? {
      ServerStepClimbs(suite, w.servers[a.j], a.serverCall);
    }
  }

  lemma ClientActStaysSound(suite: Suite, w: World, i: nat, call: ClientCall)
    requires Inv(suite, w) && Enabled(w, ClientActs(i, call))
    ensures Sound(Summary(suite, Next(suite, w, ClientActs(i, call))))
  {
    var b := Summary(suite, w);
    var (c', r) := ClientStep(suite, w.clients[i], call);
    assert b.clients[i] == ClientStanding(suite, w.clients[i]);
    ClientStepMoves(suite, b, w.clients[i], call);
    ClientMoveStaysSound(b, i, ClientStanding(suite, c'), Emitted(r));
    assert Summary(suite, Next(suite, w, ClientActs(i, call))).clients == b.clients[i := ClientStanding(suite, c')];
  }

  lemma ServerActStaysSound(suite: Suite, w: World, j: nat, call: ServerCall)
    requires Inv(suite, w) && Enabled(w, ServerActs(j, call))
    ensures Sound(Summary(suite, Next(suite, w, ServerActs(j, call))))
  {
    var b := Summary(suite, w);
    var (s', r) := ServerStep(suite, w.servers[j], call);
    assert b.servers[j] == ServerStanding(suite, w.servers[j]);
    ServerStepMoves(suite, b, w.servers[j], call);
    ServerMoveStaysSound(b, j, ServerStanding(suite, s'), Emitted(r));
    assert Summary(suite, Next(suite, w, ServerActs(j, call))).servers == b.servers[j := ServerStanding(suite, s')];
  }

  lemma StepKeepsInv(suite: Suite, w: World, a: Action)
    requires Inv(suite, w) && Enabled(w, a)
    ensures Inv(suite, Next(suite, w, a))
  {
    StepKeepsWellFormed(suite, w, a);
    var b, w' := Summary(suite, w), Next(suite, w, a);
    match a
    case AddClient(secret, profile) =>
      var c := ClientStanding(suite, NewClient(secret, profile));
      AddStaysSound(b, c, c);
      assert Summary(suite, w').clients == b.clients + [c];
    case AddServer(secret, sessionId) =>
      var s := ServerStanding(suite, NewServer(secret, sessionId));
      AddStaysSound(b, s, s);
      assert Summary(suite, w').servers == b.servers + [s];
    case ClientActs(i, call) => ClientActStaysSound(suite, w, i, call);
    case ServerActs(j, call) => ServerActStaysSound(suite, w, j, call);
  }

  /** WellFormed is there for Next to apply; StepKeepsWellFormed shows that it never
      restricts a run. */
  ghost predicate Step(suite: Suite, w: World, a: Action, w': World) {
    WellFormed(suite, w) && Enabled(w, a) && w' == Next(suite, w, a)
  }

  /** A run from the empty world: its successive worlds and the actions between them. */
  ghost predicate Run(suite: Suite, ws: seq<World>, acts: seq<Action>) {
    |ws| == |acts| + 1 && ws[0] == EMPTY && forall k :: 0 < k < |ws| ==> Step(suite, ws[k - 1], acts[k - 1], ws[k])
  }

  lemma {:induction false} RunKeepsInv(suite: Suite, ws: seq<World>, acts: seq<Action>, k: nat)
    requires Run(suite, ws, acts) && k < |ws|
    ensures Inv(suite, ws[k])
  {
    if k > 0 {
      RunKeepsInv(suite, ws, acts, k - 1);
      assert Step(suite, ws[k - 1], acts[k - 1], ws[k]);
      StepKeepsInv(suite, ws[k - 1], acts[k - 1]);
    }
  }

  /** Both sides hold the same hellos, hence session id and profile, and the same key. */
  predicate Agree(c: ClientState, s: ServerState) {
    && c.hello.Some? && c.serverHello.Some? && c.key.Some?
    && c.hello == s.clientHello && c.serverHello == s.serverHello && c.key == s.key
    && c.serverHello.value.sessionId == s.sessionId && c.profile == s.clientHello.value.profile
  }

  /** HMAC gives no client and server of this world, past their hellos, the same tag for
      different octets. */
  ghost predicate CollisionFree(suite: Suite, w: World) {
    forall c <- w.clients, s <- w.servers ::
      c.Tag(suite).Some? && s.Tag(suite).Some? ==>
        var mine := ClientHelloBytes(c.hello.value) + ServerHelloBytes(c.serverHello.value);
        var theirs := ClientHelloBytes(s.clientHello.value) + ServerHelloBytes(s.serverHello.value);
        suite.hmac(c.key.value, mine) == suite.hmac(s.key.value, theirs) ==> mine == theirs
  }

  /** Equal hellos give equal keys, each side agreeing from its own secret. */
  lemma SameHellosSameKey(suite: Suite, c: ClientState, s: ServerState)
    requires c.WellFormed(suite) && s.WellFormed(suite) && c.Rank() >= 2 && s.Rank() >= 1
    requires c.hello == s.clientHello && c.serverHello == s.serverHello
    ensures c.key == s.key
  {
    assert suite.agree(c.secret, suite.public(s.secret)) == suite.agree(s.secret, suite.public(c.secret));
  }

  lemma SameTagAgrees(suite: Suite, w: World, c: ClientState, s: ServerState)
    requires WellFormed(suite, w) && CollisionFree(suite, w) && c in w.clients && s in w.servers
    requires c.Tag(suite).Some? && c.Tag(suite) == s.Tag(suite)
    ensures Agree(c, s)
  {
    TranscriptIsInjective(c.hello.value, c.serverHello.value, s.clientHello.value, s.serverHello.value);
    assert c.WellFormed(suite) && s.WellFormed(suite);
    SameHellosSameKey(suite, c, s);
  }

  /** In every reachable world, a server past CLIENT_VERIFY has a client that sent it
      and agrees on session id, profile and key ... */
  lemma ServerHasClient(suite: Suite, ws: seq<World>, acts: seq<Action>, k: nat, j: nat)
    requires Run(suite, ws, acts) && k < |ws| && CollisionFree(suite, ws[k])
    requires j < |ws[k].servers| && ws[k].servers[j].Rank() >= 2
    ensures exists i :: 0 <= i < |ws[k].clients| && ws[k].clients[i].Rank() >= 3
                        && Agree(ws[k].clients[i], ws[k].servers[j])
  {
    var w := ws[k];
    RunKeepsInv(suite, ws, acts, k);
    var b := Summary(suite, w);
    assert ClientSent(b, b.servers[j].tag);
    var i :| 0 <= i < |b.clients| && b.clients[i].rank >= 3 && b.clients[i].tag == b.servers[j].tag;
    assert w.clients[i].WellFormed(suite);
    SameTagAgrees(suite, w, w.clients[i], w.servers[j]);
  }

  /** ... and a completed client has a completed server that agrees with it. */
  lemma ClientHasServer(suite: Suite, ws: seq<World>, acts: seq<Action>, k: nat, i: nat)
    requires Run(suite, ws, acts) && k < |ws| && CollisionFree(suite, ws[k])
    requires i < |ws[k].clients| && ws[k].clients[i].state == Completed
    ensures exists j :: 0 <= j < |ws[k].servers| && ws[k].servers[j].state == Completed
                        && Agree(ws[k].clients[i], ws[k].servers[j])
  {
    var w := ws[k];
    RunKeepsInv(suite, ws, acts, k);
    var b := Summary(suite, w);
    assert ServerSent(b, b.clients[i].tag);
    var j :| 0 <= j < |b.servers| && b.servers[j].rank == 3 && b.servers[j].tag == b.clients[i].tag;
    assert w.clients[i].WellFormed(suite);
    SameTagAgrees(suite, w, w.clients[i], w.servers[j]);
  }

  /** A client in its initial state draws this random. */
  predicate ClientDraws(w: World, a: Action, i: nat, random: Block32) {
    a.ClientActs? && a.i == i && a.clientCall == Start(random) && i < |w.clients| && w.clients[i].state == Initial
  }

  /** A server in its initial state draws this random, for a hello that parses. */
  predicate ServerDraws(w: World, a: Action, j: nat, random: Block32) {
    && a.ServerActs? && a.j == j && a.serverCall.TakeClientHello? && a.serverCall.random == random
    && ParseClientHello(a.serverCall.data).Success? && j < |w.servers| && w.servers[j].state == Initial
  }

  /** No two draws of a kind in this run gave the same random. */
  ghost predicate DistinctDraws(ws: seq<World>, acts: seq<Action>)
    requires |ws| == |acts| + 1
  {
    && (forall k, k', i, i', random | 0 <= k < |acts| && 0 <= k' < |acts| ::
          ClientDraws(ws[k], acts[k], i, random) && ClientDraws(ws[k'], acts[k'], i', random) ==> k == k')
    && (forall k, k', j, j', random | 0 <= k < |acts| && 0 <= k' < |acts| ::
          ServerDraws(ws[k], acts[k], j, random) && ServerDraws(ws[k'], acts[k'], j', random) ==> k == k')
  }

  /** No two parties of a kind have the same random. */
  ghost predicate FreshRandoms(w: World) {
    && (forall i, i' :: 0 <= i < i' < |w.clients| && w.clients[i].hello.Some? && w.clients[i'].hello.Some? ==>
          w.clients[i].hello.value.random != w.clients[i'].hello.value.random)
    && (forall j, j' | 0 <= j < j' < |w.servers| ::
          w.servers[j].serverHello.Some? && w.servers[j'].serverHello.Some? ==>
          w.servers[j].serverHello.value.random != w.servers[j'].serverHello.value.random)
  }

  lemma StepDrawsHellos(suite: Suite, w: World, a: Action)
    requires WellFormed(suite, w) && Enabled(w, a)
    ensures var w' := Next(suite, w, a);
            && |w'.clients| >= |w.clients| && |w'.servers| >= |w.servers|
            && (forall i :: 0 <= i < |w'.clients| && w'.clients[i].hello.Some? ==>
                  || (i < |w.clients| && w.clients[i].hello == w'.clients[i].hello)
                  || ClientDraws(w, a, i, w'.clients[i].hello.value.random))
            && (forall j :: 0 <= j < |w'.servers| && w'.servers[j].serverHello.Some? ==>
                  || (j < |w.servers| && w.servers[j].serverHello == w'.servers[j].serverHello)
                  || ServerDraws(w, a, j, w'.servers[j].serverHello.value.random))
  {
    if a.ClientActs? {
      ClientStepClimbs(suite, w.clients[a.i], a.clientCall);
      ClientHellosAreTrue(suite, w.clients[a.i], a.clientCall);
    } else if a.ServerActs? {
      ServerStepClimbs(suite, w.servers[a.j], a.serverCall);
      ServerHellosAreTrue(suite, w.servers[a.j], a.serverCall);
    }
  }

  /** The random in a party's hello is one it drew earlier. */
  lemma {:induction false} ClientRandomWasDrawn(suite: Suite, ws: seq<World>, acts: seq<Action>, k: nat, i: nat)
    requires Run(suite, ws, acts) && k < |ws| && i < |ws[k].clients| && ws[k].clients[i].hello.Some?
    ensures exists n :: 0 <= n < k && ClientDraws(ws[n], acts[n], i, ws[k].clients[i].hello.value.random)
  {
    if k > 0 {
      assert Step(suite, ws[k - 1], acts[k - 1], ws[k]);
      StepDrawsHellos(suite, ws[k - 1], acts[k - 1]);
      if i < |ws[k - 1].clients| && ws[k - 1].clients[i].hello == ws[k].clients[i].hello {
        ClientRandomWasDrawn(suite, ws, acts, k - 1, i);
      }
    }
  }

  lemma {:induction false} ServerRandomWasDrawn(suite: Suite, ws: seq<World>, acts: seq<Action>, k: nat, j: nat)
    requires Run(suite, ws, acts) && k < |ws| && j < |ws[k].servers| && ws[k].servers[j].serverHello.Some?
    ensures exists n :: 0 <= n < k && ServerDraws(ws[n], acts[n], j, ws[k].servers[j].serverHello.value.random)
  {
    if k > 0 {
      assert Step(suite, ws[k - 1], acts[k - 1], ws[k]);
      StepDrawsHellos(suite, ws[k - 1], acts[k - 1]);
      if j < |ws[k - 1].servers| && ws[k - 1].servers[j].serverHello == ws[k].servers[j].serverHello {
        ServerRandomWasDrawn(suite, ws, acts, k - 1, j);
      }
    }
  }

  /** Where draws are distinct, the randoms of every reachable world are fresh. */
  lemma RandomsAreFresh(suite: Suite, ws: seq<World>, acts: seq<Action>, k: nat)
    requires Run(suite, ws, acts) && k < |ws| && DistinctDraws(ws, acts)
    ensures FreshRandoms(ws[k])
  {
    forall i | 0 <= i < |ws[k].clients| && ws[k].clients[i].hello.Some?
      ensures exists n :: 0 <= n < k && ClientDraws(ws[n], acts[n], i, ws[k].clients[i].hello.value.random)
    {
      ClientRandomWasDrawn(suite, ws, acts, k, i);
    }
    forall j | 0 <= j < |ws[k].servers| && ws[k].servers[j].serverHello.Some?
      ensures exists n :: 0 <= n < k && ServerDraws(ws[n], acts[n], j, ws[k].servers[j].serverHello.value.random)
    {
      ServerRandomWasDrawn(suite, ws, acts, k, j);
    }
  }

  /** Then, in every reachable world, the matching of agreeing parties is one-to-one. */
  lemma MatchingIsOneToOne(suite: Suite, ws: seq<World>, acts: seq<Action>, k: nat, i: nat, j: nat, i': nat, j': nat)
    requires Run(suite, ws, acts) && k < |ws| && DistinctDraws(ws, acts)
    requires i < |ws[k].clients| && i' < |ws[k].clients| && j < |ws[k].servers| && j' < |ws[k].servers|
    requires Agree(ws[k].clients[i], ws[k].servers[j]) && Agree(ws[k].clients[i'], ws[k].servers[j'])
    ensures i == i' <==> j == j'
  {
    RandomsAreFresh(suite, ws, acts, k);
  }

  function Data(r: Result<Reply, HandshakeError>): bytes {
    match r
    case Success(Message(data)) => data
    case Success(Hello(data, _)) => data
    case _ => []
  }

  /** The two hellos, each delivered once and unchanged ... */
  function ExchangeHellos(suite: Suite, c0: ClientState, s0: ServerState, clientRandom: Block32, serverRandom: Block32)
    : (ClientState, ServerState)
    requires c0.WellFormed(suite) && s0.WellFormed(suite)
  {
    var (c1, hello) := ClientStep(suite, c0, Start(clientRandom));
    var (s1, answer) := ServerStep(suite, s0, TakeClientHello(serverRandom, Data(hello)));
    ClientStepClimbs(suite, c0, Start(clientRandom));
    (ClientStep(suite, c1, TakeServerHello(Data(answer))).0, s1)
  }

  /** ... and the two verify messages. */
  function ExchangeVerifies(suite: Suite, c0: ClientState, s0: ServerState): (ClientState, ServerState)
    requires c0.WellFormed(suite) && s0.WellFormed(suite)
  {
    var (c1, clientVerify) := ClientStep(suite, c0, SendVerify);
    var (s1, ok) := ServerStep(suite, s0, TakeClientVerify(Data(clientVerify)));
    ClientStepClimbs(suite, c0, SendVerify);
    ServerStepClimbs(suite, s0, TakeClientVerify(Data(clientVerify)));
    var (s2, serverVerify) := ServerStep(suite, s1, SendServerVerify);
    (ClientStep(suite, c1, TakeServerVerify(Data(serverVerify))).0, s2)
  }

  lemma HonestHellosAgree(suite: Suite, clientSecret: Block32, serverSecret: Block32, profile: MimicryProfile, id: u64,
                          clientRandom: Block32, serverRandom: Block32)
    ensures var (c, s) := ExchangeHellos(suite, NewClient(clientSecret, profile), NewServer(serverSecret, id),
                                         clientRandom, serverRandom);
            && c.WellFormed(suite) && s.WellFormed(suite) && Agree(c, s)
            && c.state == ServerHelloReceived && s.state == ServerHelloSent && s.sessionId == id && c.profile == profile
  {
    var c0, s0 := NewClient(clientSecret, profile), NewServer(serverSecret, id);
    ClientStepClimbs(suite, c0, Start(clientRandom));
    ClientHellosAreTrue(suite, c0, Start(clientRandom));
    var (c1, hello) := ClientStep(suite, c0, Start(clientRandom));
    ServerStepClimbs(suite, s0, TakeClientHello(serverRandom, Data(hello)));
    ServerHellosAreTrue(suite, s0, TakeClientHello(serverRandom, Data(hello)));
    var (s1, answer) := ServerStep(suite, s0, TakeClientHello(serverRandom, Data(hello)));
    ClientStepClimbs(suite, c1, TakeServerHello(Data(answer)));
    ClientHellosAreTrue(suite, c1, TakeServerHello(Data(answer)));
    SameHellosSameKey(suite, ClientStep(suite, c1, TakeServerHello(Data(answer))).0, s1);
  }

  lemma AgreeingSidesComplete(suite: Suite, c0: ClientState, s0: ServerState)
    requires c0.WellFormed(suite) && s0.WellFormed(suite) && Agree(c0, s0)
    requires c0.state == ServerHelloReceived && s0.state == ServerHelloSent
    ensures var (c, s) := ExchangeVerifies(suite, c0, s0);
            && c.SessionKey() == c0.key && s.SessionKey() == c0.key && c0.key.Some?
            && Agree(c, s) && s.sessionId == s0.sessionId && c.profile == c0.profile
  {
    ClientVerifiesHellos(suite, c0, SendVerify);
    ClientStepClimbs(suite, c0, SendVerify);
    var (c1, clientVerify) := ClientStep(suite, c0, SendVerify);
    ServerVerifiesHellos(suite, s0, TakeClientVerify(Data(clientVerify)));
    ServerStepClimbs(suite, s0, TakeClientVerify(Data(clientVerify)));
    var (s1, _) := ServerStep(suite, s0, TakeClientVerify(Data(clientVerify)));
    ServerVerifiesHellos(suite, s1, SendServerVerify);
    var (_, serverVerify) := ServerStep(suite, s1, SendServerVerify);
    ClientVerifiesHellos(suite, c1, TakeServerVerify(Data(serverVerify)));
  }

  /** Undisturbed, the exchange completes both sides, in agreement. */
  lemma HonestExchangeCompletes(suite: Suite, clientSecret: Block32, serverSecret: Block32, profile: MimicryProfile,
                                id: u64, clientRandom: Block32, serverRandom: Block32)
    ensures var (c0, s0) := ExchangeHellos(suite, NewClient(clientSecret, profile), NewServer(serverSecret, id),
                                           clientRandom, serverRandom);
            && c0.WellFormed(suite) && s0.WellFormed(suite)
            && var (c, s) := ExchangeVerifies(suite, c0, s0);
               && c.SessionKey().Some? && c.SessionKey() == s.SessionKey()
               && Agree(c, s) && s.sessionId == id && c.profile == profile
  {
    HonestHellosAgree(suite, clientSecret, serverSecret, profile, id, clientRandom, serverRandom);
    var (c0, s0) := ExchangeHellos(suite, NewClient(clientSecret, profile), NewServer(serverSecret, id),
                                   clientRandom, serverRandom);
    AgreeingSidesComplete(suite, c0, s0);
  }
}
