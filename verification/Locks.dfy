/** The server's locks and the paths that take them. For any number of concurrent tasks
    under the fair queues of tokio's RwLock: no circular wait, and exactly when nothing
    moves, which is while the TUN reader waits for its device and the rest for it. */
module Locks {
  import opened Wrappers

  datatype Lock = HandshakeStates | Manager | ClientSessions | Clients | Nat | Tun {
    function Rank(): nat {
      match this
      case HandshakeStates => 0
      case Manager => 1
      case ClientSessions => 2
      case Clients => 3
      case Nat => 4
      case Tun => 5
    }
  }

  datatype Mode = Read | Write
  datatype Op = Acquire(lock: Lock, mode: Mode) | Release(lock: Lock) | Receive

  /** A lock guard's scope with what happens inside it, or a blocking device read. */
  datatype Scope = Scope(lock: Lock, mode: Mode, inner: seq<Scope>) | DeviceRead

  function Ops(scopes: seq<Scope>): seq<Op> {
    if scopes == [] then []
    else match scopes[0]
      case Scope(lock, mode, inner) => [Acquire(lock, mode)] + (Ops(inner) + ([Release(lock)] + Ops(scopes[1..])))
      case DeviceRead => [Receive] + Ops(scopes[1..])
  }

  /** The stretches of code between two moments at which a task holds nothing. */
  datatype Path =
    | ConsultSessions | HandshakeUnfinished | HandshakeRefused | HandshakeAdmitted
    | FrameRejected | FrameEchoed | FrameNotRouted | FrameRouted
    | RegistryUpdate | TunRead | RouteToClient | SessionTableUpdate

  function Scopes(p: Path): seq<Scope> {
    match p
    case ConsultSessions => [Scope(ClientSessions, Read, [])]
    case HandshakeUnfinished => [Scope(HandshakeStates, Write, [])]
    case HandshakeRefused => [Scope(HandshakeStates, Write, [Scope(Manager, Write, [])])]
    case HandshakeAdmitted =>
      [Scope(HandshakeStates, Write, [Scope(Manager, Write, []), Scope(ClientSessions, Write, [])])]
    case FrameRejected => [Scope(ClientSessions, Write, [])]
    case FrameEchoed => [Scope(ClientSessions, Write, [Scope(Clients, Read, [])])]
    case FrameNotRouted => [Scope(ClientSessions, Write, [Scope(Clients, Read, [Scope(Nat, Write, [])])])]
    case FrameRouted =>
      [Scope(ClientSessions, Write, [Scope(Clients, Read, [Scope(Nat, Write, [Scope(Tun, Write, [])])])])]
    case RegistryUpdate => [Scope(Clients, Write, [])]
    case TunRead => [Scope(Tun, Write, [DeviceRead])]
    case RouteToClient => [Scope(Clients, Read, [])]
    case SessionTableUpdate => [Scope(Manager, Write, [])]
  }

  /** Every scope's lock ranks above `floor`, and above that of the scope around it. */
  predicate Nested(scopes: seq<Scope>, floor: int) {
    scopes != [] ==>
      && (scopes[0].Scope? ==> floor < scopes[0].lock.Rank() && Nested(scopes[0].inner, scopes[0].lock.Rank()))
      && Nested(scopes[1..], floor)
  }

  /** From holding `held`, these operations acquire in increasing rank, release only
      what they hold, and end holding nothing. */
  ghost predicate Ordered(ops: seq<Op>, held: set<Lock>) {
    if ops == [] then held == {}
    else
      match ops[0]
      case Acquire(l, _) => (forall h <- held :: h.Rank() < l.Rank()) && Ordered(ops[1..], held + {l})
      case Release(l) => l in held && Ordered(ops[1..], held - {l})
      case Receive => Ordered(ops[1..], held)
  }

  lemma OpsUnfold(scopes: seq<Scope>, rest: seq<Op>)
    requires scopes != [] && scopes[0].Scope?
    ensures Ops(scopes) + rest
            == [Acquire(scopes[0].lock, scopes[0].mode)]
               + (Ops(scopes[0].inner) + ([Release(scopes[0].lock)] + (Ops(scopes[1..]) + rest)))
  {
  }

  lemma ReadUnfolds(scopes: seq<Scope>, rest: seq<Op>)
    requires scopes != [] && scopes[0].DeviceRead?
    ensures Ops(scopes) + rest == [Receive] + (Ops(scopes[1..]) + rest)
  {
  }

  lemma AroundIsOrdered(op: Op, ops: seq<Op>, held: set<Lock>)
    requires op.Acquire? ==> (forall h <- held :: h.Rank() < op.lock.Rank()) && Ordered(ops, held + {op.lock})
    requires op.Release? ==> op.lock in held && Ordered(ops, held - {op.lock})
    requires op.Receive? ==> Ordered(ops, held)
    ensures Ordered([op] + ops, held)
  {
  }

  lemma {:induction false} NestedIsOrdered(scopes: seq<Scope>, floor: int, held: set<Lock>, rest: seq<Op>)
    requires Nested(scopes, floor) && (forall h <- held :: h.Rank() <= floor) && Ordered(rest, held)
    ensures Ordered(Ops(scopes) + rest, held)
    decreases scopes
  {
    if scopes == [] {
      assert Ops(scopes) + rest == rest;
    } else if scopes[0].DeviceRead? {
      NestedIsOrdered(scopes[1..], floor, held, rest);
      AroundIsOrdered(Receive, Ops(scopes[1..]) + rest, held);
      ReadUnfolds(scopes, rest);
    } else {
      var l, inner := scopes[0].lock, Ops(scopes[0].inner);
      var acquire, release := Acquire(l, scopes[0].mode), Release(l);
      var after := Ops(scopes[1..]) + rest;
      NestedIsOrdered(scopes[1..], floor, held, rest);
      assert held + {l} - {l} == held;
      AroundIsOrdered(release, after, held + {l});
      NestedIsOrdered(scopes[0].inner, l.Rank(), held + {l}, [release] + after);
      AroundIsOrdered(acquire, inner + ([release] + after), held);
      OpsUnfold(scopes, rest);
    }
  }

  lemma Guarded(s: Scope, floor: int)
    requires s.Scope? && floor < s.lock.Rank() && Nested(s.inner, s.lock.Rank())
    ensures Nested([s], floor)
  {
  }

  lemma EveryPathIsOrdered(p: Path)
    ensures Ordered(Ops(Scopes(p)), {})
  {
    var tun := Scope(Tun, Write, []);
    var gateway, last := Scope(Nat, Write, [tun]), Scope(Nat, Write, []);
    var routed, notRouted := Scope(Clients, Read, [gateway]), Scope(Clients, Read, [last]);
    var echoed := Scope(Clients, Read, []);
    Guarded(tun, 4);
    Guarded(gateway, 3);
    Guarded(last, 3);
    Guarded(routed, 2);
    Guarded(notRouted, 2);
    Guarded(echoed, 2);
    Guarded(Scope(Manager, Write, []), 0);
    assert Nested([DeviceRead], 5);
    assert Nested([Scope(Manager, Write, []), Scope(ClientSessions, Write, [])], 0);
    Guarded(Scopes(p)[0], -1);
    NestedIsOrdered(Scopes(p), -1, {}, []);
    assert Ops(Scopes(p)) + [] == Ops(Scopes(p));
  }

  datatype Task = Task(rest: seq<Op>, held: map<Lock, Mode>, ticket: Option<nat>)

  /** `inbound` counts what the TUN device has for its reader. */
  datatype System = System(tasks: seq<Task>, clock: nat, inbound: nat)

  const QUIET := System([], 0, 0)

  predicate Waiting(s: System, i: nat, l: Lock) {
    && i < |s.tasks| && s.tasks[i].ticket.Some?
    && s.tasks[i].rest != [] && s.tasks[i].rest[0].Acquire? && s.tasks[i].rest[0].lock == l
  }

  /** i is in the device read. */
  predicate AtRead(s: System, i: nat) {
    i < |s.tasks| && s.tasks[i].rest != [] && s.tasks[i].rest[0].Receive?
  }

  /** i waits for a lock that j holds, or that j was queued for earlier. */
  predicate WaitsFor(s: System, i: nat, j: nat) {
    && i < |s.tasks| && j < |s.tasks|
    && exists l ::
         && Waiting(s, i, l)
         && (l in s.tasks[j].held || (Waiting(s, j, l) && s.tasks[j].ticket.value < s.tasks[i].ticket.value))
  }

  /** New tasks and packets on the device come from outside; the rest are a task's moves. */
  datatype Action = Spawn(path: Path) | Inbound | Request(i: nat) | Grant(i: nat) | Drop(i: nat) | Recv(i: nat)

  /** The queue is fair: nobody overtakes, and a lock is granted when no holder conflicts. */
  predicate Grantable(s: System, i: nat)
    requires i < |s.tasks| && s.tasks[i].rest != [] && s.tasks[i].rest[0].Acquire?
  {
    var op := s.tasks[i].rest[0];
    && s.tasks[i].ticket.Some?
    && (forall j :: 0 <= j < |s.tasks| && op.lock in s.tasks[j].held ==>
          op.mode == Read && s.tasks[j].held[op.lock] == Read)
    && (forall j :: 0 <= j < |s.tasks| && Waiting(s, j, op.lock) ==> s.tasks[j].ticket.value >= s.tasks[i].ticket.value)
  }

  predicate Enabled(s: System, a: Action) {
    match a
    case Spawn(_) => true
    case Inbound => true
    case Request(i) => i < |s.tasks| && s.tasks[i].rest != [] && s.tasks[i].rest[0].Acquire? && s.tasks[i].ticket.None?
    case Grant(i) => i < |s.tasks| && s.tasks[i].rest != [] && s.tasks[i].rest[0].Acquire? && Grantable(s, i)
    case Drop(i) => i < |s.tasks| && s.tasks[i].rest != [] && s.tasks[i].rest[0].Release?
    case Recv(i) => AtRead(s, i) && s.inbound > 0
  }

  function Next(s: System, a: Action): System
    requires Enabled(s, a)
  {
    match a
    case Spawn(p) => s.(tasks := s.tasks + [Task(Ops(Scopes(p)), map[], None)])
    case Inbound => s.(inbound := s.inbound + 1)
    case Request(i) => s.(tasks := s.tasks[i := s.tasks[i].(ticket := Some(s.clock))], clock := s.clock + 1)
    case Grant(i) =>
      var t := s.tasks[i];
      s.(tasks := s.tasks[i := Task(t.rest[1..], t.held[t.rest[0].lock := t.rest[0].mode], None)])
    case Drop(i) =>
      var t := s.tasks[i];
      s.(tasks := s.tasks[i := Task(t.rest[1..], t.held - {t.rest[0].lock}, None)])
    case Recv(i) =>
      var t := s.tasks[i];
      s.(tasks := s.tasks[i := Task(t.rest[1..], t.held, None)], inbound := s.inbound - 1)
  }

  ghost predicate TaskOk(t: Task) {
    Ordered(t.rest, t.held.Keys) && (t.ticket.Some? ==> t.rest != [] && t.rest[0].Acquire?)
  }

  ghost predicate Inv(s: System) {
    forall i :: 0 <= i < |s.tasks| ==> TaskOk(s.tasks[i])
  }

  lemma StepKeepsInv(s: System, a: Action)
    requires Inv(s) && Enabled(s, a)
    ensures Inv(Next(s, a))
  {
    if a.Spawn? {
      EveryPathIsOrdered(a.path);
      var nothing: map<Lock, Mode> := map[];
      assert nothing.Keys == {};
    } else if !a.Inbound? {
      var t := s.tasks[a.i];
      assert TaskOk(t);
      if a.Grant? {
        assert t.held[t.rest[0].lock := t.rest[0].mode].Keys == t.held.Keys + {t.rest[0].lock};
      } else if a.Drop? {
        assert (t.held - {t.rest[0].lock}).Keys == t.held.Keys - {t.rest[0].lock};
      }
    }
  }

  ghost predicate Step(s: System, s': System) {
    exists a :: Enabled(s, a) && s' == Next(s, a)
  }

  ghost predicate Run(ss: seq<System>) {
    ss != [] && ss[0] == QUIET && forall k :: 0 < k < |ss| ==> Step(ss[k - 1], ss[k])
  }

  lemma {:induction false} RunKeepsInv(ss: seq<System>, k: nat)
    requires Run(ss) && k < |ss|
    ensures Inv(ss[k])
  {
    if k > 0 {
      RunKeepsInv(ss, k - 1);
      var a :| Enabled(ss[k - 1], a) && ss[k] == Next(ss[k - 1], a);
      StepKeepsInv(ss[k - 1], a);
    }
  }

  /** j waits for a lock of higher rank than i does, or earlier for the same one. */
  predicate Ahead(s: System, i: nat, j: nat) {
    exists l, m :: Waiting(s, i, l) && Waiting(s, j, m) &&
      (l.Rank() < m.Rank() || (l == m && s.tasks[j].ticket.value < s.tasks[i].ticket.value))
  }

  lemma WaitingLooksAhead(s: System, i: nat, j: nat, m: Lock)
    requires Inv(s) && WaitsFor(s, i, j) && Waiting(s, j, m)
    ensures Ahead(s, i, j)
  {
  }

  /** The wait-for relation has no cycle in any reachable state. */
  lemma {:induction false} ChainLooksAhead(s: System, chain: seq<nat>, m: Lock)
    requires Inv(s) && |chain| >= 2
    requires forall k :: 0 < k < |chain| ==> WaitsFor(s, chain[k - 1], chain[k])
    requires Waiting(s, chain[|chain| - 1], m)
    ensures Ahead(s, chain[0], chain[|chain| - 1])
  {
    var n := |chain|;
    WaitingLooksAhead(s, chain[n - 2], chain[n - 1], m);
    if n > 2 {
      var l :| Waiting(s, chain[n - 2], l);
      ChainLooksAhead(s, chain[..n - 1], l);
    }
  }

  lemma NoCircularWait(ss: seq<System>, k: nat, chain: seq<nat>)
    requires Run(ss) && k < |ss| && |chain| >= 2
    requires forall i :: 0 < i < |chain| ==> WaitsFor(ss[k], chain[i - 1], chain[i])
    ensures chain[0] != chain[|chain| - 1]
  {
    RunKeepsInv(ss, k);
    if chain[0] == chain[|chain| - 1] {
      assert WaitsFor(ss[k], chain[0], chain[1]);
      var l :| Waiting(ss[k], chain[0], l);
      ChainLooksAhead(ss[k], chain, l);
    }
  }

  /** j keeps i from being granted: it holds the lock in a conflicting mode, or is
      before i in the queue. */
  predicate Blocks(s: System, i: nat, j: nat) {
    && i < |s.tasks| && j < |s.tasks|
    && exists l ::
         && Waiting(s, i, l)
         && ((l in s.tasks[j].held && !(s.tasks[i].rest[0].mode == Read && s.tasks[j].held[l] == Read))
             || (Waiting(s, j, l) && s.tasks[j].ticket.value < s.tasks[i].ticket.value))
  }

  lemma GrantableUnlessBlocked(s: System, i: nat)
    requires i < |s.tasks| && s.tasks[i].rest != [] && s.tasks[i].rest[0].Acquire? && s.tasks[i].ticket.Some?
    ensures Grantable(s, i) <==> forall j :: !Blocks(s, i, j)
  {
    var l := s.tasks[i].rest[0].lock;
    assert Waiting(s, i, l);
    if !Grantable(s, i) {
      var j :| && 0 <= j < |s.tasks|
               && ((l in s.tasks[j].held && !(s.tasks[i].rest[0].mode == Read && s.tasks[j].held[l] == Read))
                   || (Waiting(s, j, l) && s.tasks[j].ticket.value < s.tasks[i].ticket.value));
      assert Blocks(s, i, j);
    }
  }

  predicate Unfinished(s: System, i: nat) {
    i < |s.tasks| && s.tasks[i].rest != []
  }

  ghost predicate Stuck(s: System) {
    forall a :: Enabled(s, a) ==> a.Spawn? || a.Inbound?
  }

  /** From i, each task of the chain blocked by the next, to one in the device read. */
  ghost predicate LeadsToReader(s: System, i: nat, chain: seq<nat>) {
    && chain != [] && chain[0] == i && AtRead(s, chain[|chain| - 1])
    && forall k :: 0 < k < |chain| ==> Blocks(s, chain[k - 1], chain[k])
  }

  function RanksAbove(s: System, i: nat): nat {
    if Unfinished(s, i) && s.tasks[i].rest[0].Acquire? then 6 - s.tasks[i].rest[0].lock.Rank() else 0
  }

  function Queued(s: System, i: nat): nat {
    if Unfinished(s, i) && s.tasks[i].ticket.Some? then s.tasks[i].ticket.value else 0
  }

  /** In a stuck state, who is not in the device read is blocked by someone who is
      closer to it. */
  lemma Blocker(s: System, i: nat) returns (j: nat)
    requires Inv(s) && Stuck(s) && Unfinished(s, i) && !AtRead(s, i)
    ensures Blocks(s, i, j) && Unfinished(s, j)
    ensures RanksAbove(s, j) < RanksAbove(s, i) || (RanksAbove(s, j) == RanksAbove(s, i) && Queued(s, j) < Queued(s, i))
  {
    assert !Enabled(s, Drop(i)) && !Enabled(s, Request(i)) && !Enabled(s, Grant(i));
    GrantableUnlessBlocked(s, i);
    j :| Blocks(s, i, j);
    assert TaskOk(s.tasks[j]);
    if s.tasks[j].rest[0].Acquire? {
      assert !Enabled(s, Request(j));
      WaitingLooksAhead(s, i, j, s.tasks[j].rest[0].lock);
    } else {
      assert !Enabled(s, Drop(j));
    }
  }

  lemma {:induction false} StuckLeadsToReader(s: System, i: nat) returns (chain: seq<nat>)
    requires Inv(s) && Stuck(s) && Unfinished(s, i)
    ensures LeadsToReader(s, i, chain)
    decreases RanksAbove(s, i), Queued(s, i)
  {
    if AtRead(s, i) {
      chain := [i];
    } else {
      var j := Blocker(s, i);
      var rest := StuckLeadsToReader(s, j);
      chain := [i] + rest;
    }
  }

  /** With unfinished tasks about, nothing moves if and only if the device has nothing
      and every one of them is, or waits in line for, a task in the device read. */
  lemma StuckExactly(ss: seq<System>, k: nat)
    requires Run(ss) && k < |ss| && exists i :: Unfinished(ss[k], i)
    ensures Stuck(ss[k]) <==>
            ss[k].inbound == 0 && forall i :: Unfinished(ss[k], i) ==> exists chain :: LeadsToReader(ss[k], i, chain)
  {
    var s := ss[k];
    RunKeepsInv(ss, k);
    if Stuck(s) {
      forall i | Unfinished(s, i) ensures exists chain :: LeadsToReader(s, i, chain) {
        var chain := StuckLeadsToReader(s, i);
      }
      var i :| Unfinished(s, i);
      var chain :| LeadsToReader(s, i, chain);
      assert !Enabled(s, Recv(chain[|chain| - 1]));
    } else if s.inbound == 0 && forall i :: Unfinished(s, i) ==> exists chain :: LeadsToReader(s, i, chain) {
      var a :| Enabled(s, a) && !a.Spawn? && !a.Inbound?;
      assert Unfinished(s, a.i);
      var chain :| LeadsToReader(s, a.i, chain);
      assert |chain| > 1 ==> Blocks(s, chain[0], chain[1]);
      if a.Grant? {
        GrantableUnlessBlocked(s, a.i);
      }
    }
  }

  /** While the device has something, or no task is in its read, some task can move. */
  lemma SomeTaskCanMove(ss: seq<System>, k: nat)
    requires Run(ss) && k < |ss| && exists i :: Unfinished(ss[k], i)
    requires ss[k].inbound > 0 || forall i :: !AtRead(ss[k], i)
    ensures exists a: Action :: !a.Spawn? && !a.Inbound? && Enabled(ss[k], a)
  {
    StuckExactly(ss, k);
    var i :| Unfinished(ss[k], i);
    if chain :| LeadsToReader(ss[k], i, chain) {
      assert AtRead(ss[k], chain[|chain| - 1]);
    }
  }

  ghost predicate Reachable(s: System) {
    exists ss :: Run(ss) && ss[|ss| - 1] == s
  }

  lemma ReachNext(s: System, a: Action)
    requires Reachable(s) && Enabled(s, a)
    ensures Reachable(Next(s, a))
  {
    var ss :| Run(ss) && ss[|ss| - 1] == s;
    var longer := ss + [Next(s, a)];
    forall k | 0 < k < |longer| ensures Step(longer[k - 1], longer[k]) {
      assert k < |ss| ==> Step(ss[k - 1], ss[k]);
    }
    assert Run(longer);
  }

  lemma AcquireNow(s: System, i: nat)
    requires Reachable(s) && Unfinished(s, i) && s.tasks[i].rest[0].Acquire? && s.tasks[i].ticket.None?
    requires forall j :: 0 <= j < |s.tasks| ==>
               s.tasks[i].rest[0].lock !in s.tasks[j].held && !Waiting(s, j, s.tasks[i].rest[0].lock)
    ensures var t := s.tasks[i];
            Reachable(System(s.tasks[i := Task(t.rest[1..], t.held[t.rest[0].lock := t.rest[0].mode], None)],
                             s.clock + 1, s.inbound))
  {
    var asked := Next(s, Request(i));
    ReachNext(s, Request(i));
    forall j | 0 <= j < |s.tasks| ensures asked.tasks[j].held == s.tasks[j].held {
    }
    assert forall j :: 0 <= j < |s.tasks| && j != i ==> asked.tasks[j] == s.tasks[j];
    ReachNext(asked, Grant(i));
    assert asked.tasks[i := Next(asked, Grant(i)).tasks[i]] == s.tasks[i := Next(asked, Grant(i)).tasks[i]];
  }

  const READER := [Acquire(Tun, Write), Receive, Release(Tun)]
  const ROUTER :=
    [Acquire(ClientSessions, Write), Acquire(Clients, Read), Acquire(Nat, Write), Acquire(Tun, Write),
     Release(Tun), Release(Nat), Release(Clients), Release(ClientSessions)]
  const LOOKUP := [Acquire(ClientSessions, Read), Release(ClientSessions)]

  lemma OpsOfOne(lock: Lock, mode: Mode, inner: seq<Scope>)
    ensures Ops([Scope(lock, mode, inner)]) == [Acquire(lock, mode)] + Ops(inner) + [Release(lock)]
  {
  }

  lemma OpsOfReader()
    ensures Ops(Scopes(TunRead)) == READER
  {
    assert Ops([DeviceRead]) == [Receive];
    OpsOfOne(Tun, Write, [DeviceRead]);
  }

  lemma OpsOfRouter()
    ensures Ops(Scopes(FrameRouted)) == ROUTER
  {
    var tun := Scope(Tun, Write, []);
    var gateway := Scope(Nat, Write, [tun]);
    var registry := Scope(Clients, Read, [gateway]);
    OpsOfOne(Tun, Write, []);
    OpsOfOne(Nat, Write, [tun]);
    OpsOfOne(Clients, Read, [gateway]);
    OpsOfOne(ClientSessions, Write, [registry]);
  }

  lemma OpsOfLookup()
    ensures Ops(Scopes(ConsultSessions)) == LOOKUP
  {
    OpsOfOne(ClientSessions, Read, []);
  }

  const READING := Task(READER[1..], map[Tun := Write], None)

  lemma ReaderReads()
    ensures Reachable(System([READING], 1, 0))
  {
    OpsOfReader();
    assert Run([QUIET]) && [QUIET][|[QUIET]| - 1] == QUIET;
    ReachNext(QUIET, Spawn(TunRead));
    AcquireNow(System([Task(READER, map[], None)], 0, 0), 0);
    assert [Task(READER, map[], None)][0 := READING] == [READING];
  }

  /** The first n locks a routed frame takes. */
  function HeldAfter(n: nat): (held: map<Lock, Mode>)
    requires n <= 3
    ensures forall l <- held :: exists j :: 0 <= j < n && ROUTER[j].lock == l
  {
    if n == 0 then map[] else HeldAfter(n - 1)[ROUTER[n - 1].lock := ROUTER[n - 1].mode]
  }

  function Routing(n: nat): Task
    requires n <= 3
  {
    Task(ROUTER[n..], HeldAfter(n), None)
  }

  lemma NextToReader(t: Task, clock: nat)
    requires Reachable(System([READING, t], clock, 0)) && t.ticket.None? && t.rest != [] && t.rest[0].Acquire?
    requires t.rest[0].lock != Tun && t.rest[0].lock !in t.held
    ensures var next := Task(t.rest[1..], t.held[t.rest[0].lock := t.rest[0].mode], None);
            Reachable(System([READING, next], clock + 1, 0))
  {
    AcquireNow(System([READING, t], clock, 0), 1);
    var next := Task(t.rest[1..], t.held[t.rest[0].lock := t.rest[0].mode], None);
    assert [READING, t][1 := next] == [READING, next];
  }

  lemma FrameArrives()
    ensures Reachable(System([READING, Routing(0)], 1, 0))
  {
    OpsOfRouter();
    ReaderReads();
    ReachNext(System([READING], 1, 0), Spawn(FrameRouted));
    assert Routing(0) == Task(ROUTER, map[], None);
    assert [READING] + [Routing(0)] == [READING, Routing(0)];
  }

  lemma RoutingNext(n: nat)
    requires n < 3
    ensures var t := Routing(n);
            && t.rest != [] && t.rest[0] == ROUTER[n] && t.rest[0].Acquire?
            && t.rest[0].lock != Tun && t.rest[0].lock !in t.held
            && Routing(n + 1) == Task(t.rest[1..], t.held[t.rest[0].lock := t.rest[0].mode], None)
  {
  }

  lemma {:induction false} FrameRoutes(n: nat)
    requires n <= 3
    ensures Reachable(System([READING, Routing(n)], n + 1, 0))
  {
    if n == 0 {
      FrameArrives();
    } else {
      FrameRoutes(n - 1);
      RoutingNext(n - 1);
      NextToReader(Routing(n - 1), n);
    }
  }

  /** The reader in its read, a frame on its way to the device, a packet looking up its
      sender. */
  const STUCK := System([READING, Routing(3).(ticket := Some(4)), Task(LOOKUP, map[], Some(5))], 6, 0)

  /** Until the device has a packet, a frame on its way out keeps every other packet
      from being looked at. */
  lemma StuckStateIsReached()
    ensures Reachable(STUCK) && LeadsToReader(STUCK, 2, [2, 1, 0]) && Stuck(STUCK)
  {
    OpsOfLookup();
    FrameRoutes(3);
    var routing, waiting := Routing(3), Routing(3).(ticket := Some(4));
    ReachNext(System([READING, routing], 4, 0), Request(1));
    assert [READING, routing][1 := waiting] == [READING, waiting];
    ReachNext(System([READING, waiting], 5, 0), Spawn(ConsultSessions));
    var asking := Task(LOOKUP, map[], None);
    assert [READING, waiting] + [asking] == [READING, waiting, asking];
    ReachNext(System([READING, waiting, asking], 5, 0), Request(2));
    assert [READING, waiting, asking][2 := STUCK.tasks[2]] == STUCK.tasks;
    StuckAsReached();
  }

  lemma StuckAsReached()
    ensures LeadsToReader(STUCK, 2, [2, 1, 0]) && Stuck(STUCK)
  {
    assert HeldAfter(1)[ClientSessions] == Write;
    assert HeldAfter(2)[ClientSessions] == Write;
    assert Tun in STUCK.tasks[0].held && ClientSessions in STUCK.tasks[1].held;
    assert Waiting(STUCK, 1, Tun) && Waiting(STUCK, 2, ClientSessions);
    assert Blocks(STUCK, 1, 0) && Blocks(STUCK, 2, 1);
  }
}
