/** The server's table of sessions (crates/llp-core/src/session.rs). */
module SessionManager {
  import opened Bytes
  import opened Wrappers
  import opened Profiles

  const MAX_SESSIONS := 1000
  const KEEPALIVE_TIMEOUT := 90

  datatype Entry = Entry(key: Block32, profile: MimicryProfile, createdAt: int, lastKeepalive: int) {
    predicate Alive(now: int, lifetime: int) {
      now - createdAt <= lifetime && now - lastKeepalive <= KEEPALIVE_TIMEOUT
    }
  }

  type Table = map<u64, Entry>

  /** What a cleanup leaves. */
  function Survivors(sessions: Table, now: int, lifetime: int): Table {
    map id | id in sessions && sessions[id].Alive(now, lifetime) :: sessions[id]
  }

  /** An entry survives if it is no older than the lifetime and was heard from within
      the last 90 seconds, both. */
  lemma SurvivesExactly(sessions: Table, now: int, lifetime: int, id: u64)
    ensures id in Survivors(sessions, now, lifetime) <==>
            id in sessions && now - sessions[id].createdAt <= lifetime && now - sessions[id].lastKeepalive <= 90
  {
  }

  /** A cleanup leaves the outcome of every later one unchanged, so that a second one at
      the same time removes nothing, and none ever keeps what an earlier one would drop. */
  lemma CleanupsCompose(sessions: Table, now: int, later: int, lifetime: int)
    requires now <= later
    ensures Survivors(Survivors(sessions, now, lifetime), later, lifetime) == Survivors(sessions, later, lifetime)
    ensures Survivors(sessions, later, lifetime).Keys <= Survivors(sessions, now, lifetime).Keys
  {
    forall id | id in Survivors(sessions, later, lifetime) ensures id in Survivors(sessions, now, lifetime) {
      SurvivesExactly(sessions, later, lifetime, id);
      SurvivesExactly(sessions, now, lifetime, id);
    }
  }

  datatype ManagerError = TooManySessions(current: nat) | SessionAlreadyExists(id: u64) | SessionNotFound(id: u64)

  predicate Admits(sessions: Table, id: u64) {
    |sessions| < MAX_SESSIONS && id !in sessions
  }

  class SessionManager {
    var sessions: Table
    const lifetime: int

    ghost predicate Valid()
      reads this
    {
      |sessions| <= MAX_SESSIONS
    }

    constructor (lifetime: int)
      ensures Valid() && sessions == map[] && this.lifetime == lifetime
    {
      sessions, this.lifetime := map[], lifetime;
    }

    method AddSession(id: u64, key: Block32, profile: MimicryProfile, now: int) returns (r: Result<(), ManagerError>)
      requires Valid()
      modifies this
      ensures Valid() && (r.Success? <==> Admits(old(sessions), id))
      ensures r.Success? <==> |old(sessions)| < 1000 && id !in old(sessions)
      ensures r.Success? && lifetime >= 0 ==> id in Survivors(sessions, now, lifetime)
      ensures sessions == if r.Success? then old(sessions)[id := Entry(key, profile, now, now)] else old(sessions)
      ensures r.Failure? ==>
                r.error == if |sessions| >= MAX_SESSIONS then TooManySessions(|sessions|) else SessionAlreadyExists(id)
    {
      if |sessions| >= MAX_SESSIONS {
        return Failure(TooManySessions(|sessions|));
      }
      if id in sessions {
        return Failure(SessionAlreadyExists(id));
      }
      sessions := sessions[id := Entry(key, profile, now, now)];
      return Success(());
    }

    method RemoveSession(id: u64) returns (r: Result<(), ManagerError>)
      requires Valid()
      modifies this
      ensures Valid() && sessions == old(sessions) - {id}
      ensures r == if id in old(sessions) then Success(()) else Failure(SessionNotFound(id))
    {
      r := if id in sessions then Success(()) else Failure(SessionNotFound(id));
      sessions := sessions - {id};
      FewerKeys(old(sessions), sessions);
    }

    method CleanupExpired(now: int) returns (removed: nat)
      requires Valid()
      modifies this
      ensures Valid() && removed == |old(sessions)| - |sessions|
      ensures sessions == Survivors(old(sessions), now, lifetime)
      ensures forall id :: id in sessions <==>
                && id in old(sessions)
                && now - old(sessions)[id].createdAt <= lifetime && now - old(sessions)[id].lastKeepalive <= 90
      ensures forall id <- sessions :: sessions[id] == old(sessions)[id]
    {
      var initial := |sessions|;
      sessions := map id | id in sessions && sessions[id].Alive(now, lifetime) :: sessions[id];
      FewerKeys(old(sessions), sessions);
      removed := initial - |sessions|;
    }
  }

  lemma {:induction false} FewerKeys(big: Table, small: Table)
    requires small.Keys <= big.Keys
    ensures |small| <= |big|
  {
    if id :| id in small {
      FewerKeys(big - {id}, small - {id});
    }
  }
}
