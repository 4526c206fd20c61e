/**
 * The plugin test lock (agent/src/access/listings.ts, `#held`) of any number of replicas: a
 * session advisory lock taken on a connection of the replica's lock client. Postgres lets a
 * session take its own lock again, so the lock excludes another test of the same replica only
 * as long as no connection that may hold a lock is handed out again.
 */
module TestLock {
  import opened Wrappers
  import opened LockClients

  /** What a test locks: the 64-bit hash of its key. */
  type Hash = int

  type Session = int

  datatype Result = Value | Busy | FullUp | Unreachable

  /** Where one call of `#held` is. */
  datatype Point =
    | Reserving(lease: int)
    | Leased(lease: int, session: Session)
    | Running(lease: int, session: Session)
    | Unlocking(lease: int, session: Session)
    | Releasing(lease: int, session: Session, healthy: bool, result: Result)
    | Finished(result: Result)

  datatype Call = Call(replica: int, hash: Hash, at: Point)
  {
    predicate HasLease() {
      !at.Finished?
    }

    predicate HasSession() {
      !at.Finished? && !at.Reserving?
    }

    /** From the moment the lock was granted until its unlock was sent. */
    predicate Holds() {
      at.Running? || at.Unlocking?
    }
  }

  /** An open connection: its replica, its generation there, and whether it is idle in its pool. */
  datatype Connection = Connection(replica: int, generation: int, idle: bool)

  datatype Grant = Grant(session: Session, count: nat)

  /** `locks` is Postgres's: who holds each lock and how many times. */
  datatype State = State(
    clients: map<int, Client>, connections: map<Session, Connection>, nextSession: int,
    locks: map<Hash, Grant>, calls: map<int, Call>)

  datatype Step =
    | Join(replica: int)
    | Take(call: int, replica: int, hash: Hash)
    | Reserved(call: int, idle: Option<Session>)
    | ReserveFails(call: int)
    | LockAnswers(call: int)
    | LockFails(call: int, executed: bool)
    | TestEnds(call: int)
    | UnlockAnswers(call: int)
    | UnlockFails(call: int, executed: bool)
    | Release(call: int)
    | Dies(session: Session)

  /* ---- Postgres ---- */

  predicate Grants(locks: map<Hash, Grant>, hash: Hash, session: Session) {
    hash !in locks || locks[hash].session == session
  }

  /** `pg_try_advisory_lock` where it answers true: a session's own lock is taken once more. */
  function Locked(locks: map<Hash, Grant>, hash: Hash, session: Session): map<Hash, Grant> {
    locks[hash := Grant(session, if hash in locks then locks[hash].count + 1 else 1)]
  }

  /** `pg_advisory_unlock`: one level, and nothing where the session does not hold the lock. */
  function Unlocked(locks: map<Hash, Grant>, hash: Hash, session: Session): map<Hash, Grant> {
    if hash !in locks || locks[hash].session != session then locks
    else if locks[hash].count <= 1 then locks - {hash}
    else locks[hash := locks[hash].(count := locks[hash].count - 1)]
  }

  /** A session that ends holds nothing any more. */
  function WithoutSessions(locks: map<Hash, Grant>, gone: set<Session>): map<Hash, Grant> {
    map h | h in locks && locks[h].session !in gone :: locks[h]
  }

  /* ---- one step ---- */

  ghost function At(s: State, id: int, at: Point): State
    requires id in s.calls
  {
    s.(calls := s.calls[id := s.calls[id].(at := at)])
  }

  /** The open connections of a generation that its client ends. */
  ghost function Closed(s: State, replica: int, before: Client, after: Client): set<Session> {
    set x | x in s.connections && s.connections[x].replica == replica
      && s.connections[x].generation in before.all && s.connections[x].generation !in after.all
  }

  /** The client becomes `after`, and the connections of a generation it ended close with their locks. */
  ghost function WithClient(s: State, replica: int, after: Client): State
    requires replica in s.clients
  {
    var gone := Closed(s, replica, s.clients[replica], after);
    s.(clients := s.clients[replica := after],
       connections := s.connections - gone,
       locks := WithoutSessions(s.locks, gone))
  }

  ghost function AfterSettle(s: State, replica: int, lease: int, retire: bool): State
    requires replica in s.clients && Valid(s.clients[replica]) && lease in s.clients[replica].leases
  {
    WithClient(s, replica, Settled(s.clients[replica], lease, retire))
  }

  ghost predicate Usable(s: State, call: Call) {
    && call.replica in s.clients && Valid(s.clients[call.replica])
    && call.HasLease() && call.at.lease in s.clients[call.replica].leases
  }

  /** The state after `step`, or None where it cannot happen. */
  ghost function Apply(s: State, step: Step): Option<State> {
    match step
    case Join(replica) =>
      if replica in s.clients then None else Some(s.(clients := s.clients[replica := EMPTY]))
    case Take(id, replica, hash) =>
      if id in s.calls || replica !in s.clients then None
      else if LockClients.Full(s.clients[replica]) then
        Some(s.(calls := s.calls[id := Call(replica, hash, Finished(FullUp))]))
      else
        Some(s.(clients := s.clients[replica := Taken(s.clients[replica])],
                calls := s.calls[id := Call(replica, hash, Reserving(s.clients[replica].taken))]))
    case Reserved(id, idle) =>
      if !(id in s.calls && s.calls[id].at.Reserving? && Usable(s, s.calls[id])) then None
      else
        var call := s.calls[id];
        var generation := s.clients[call.replica].leases[call.at.lease];
        (match idle
        case None =>
          Some(At(s, id, Leased(call.at.lease, s.nextSession)).(
            nextSession := s.nextSession + 1,
            connections := s.connections[s.nextSession := Connection(call.replica, generation, false)]))
        case Some(x) =>
          if x in s.connections && s.connections[x] == Connection(call.replica, generation, true) then
            Some(At(s, id, Leased(call.at.lease, x)).(
              connections := s.connections[x := s.connections[x].(idle := false)]))
          else None)
    case ReserveFails(id) =>
      if !(id in s.calls && s.calls[id].at.Reserving? && Usable(s, s.calls[id])) then None
      else
        Some(At(AfterSettle(s, s.calls[id].replica, s.calls[id].at.lease, false), id, Finished(Unreachable)))
    case LockAnswers(id) =>
      if !(id in s.calls && s.calls[id].at.Leased? && s.calls[id].at.session in s.connections) then None
      else
        var call := s.calls[id];
        if Grants(s.locks, call.hash, call.at.session) then
          Some(At(s, id, Running(call.at.lease, call.at.session)).(
            locks := Locked(s.locks, call.hash, call.at.session)))
        else Some(At(s, id, Releasing(call.at.lease, call.at.session, true, Busy)))
    case LockFails(id, executed) =>
      if !(id in s.calls && s.calls[id].at.Leased?) then None
      else
        var call := s.calls[id];
        var granted := executed && call.at.session in s.connections
          && Grants(s.locks, call.hash, call.at.session);
        Some(At(s, id, Releasing(call.at.lease, call.at.session, false, Unreachable)).(
          locks := if granted then Locked(s.locks, call.hash, call.at.session) else s.locks))
    case TestEnds(id) =>
      if !(id in s.calls && s.calls[id].at.Running?) then None
      else Some(At(s, id, Unlocking(s.calls[id].at.lease, s.calls[id].at.session)))
    case UnlockAnswers(id) =>
      if !(id in s.calls && s.calls[id].at.Unlocking? && s.calls[id].at.session in s.connections) then None
      else
        var call := s.calls[id];
        Some(At(s, id, Releasing(call.at.lease, call.at.session, true, Value)).(
          locks := Unlocked(s.locks, call.hash, call.at.session)))
    case UnlockFails(id, executed) =>
      if !(id in s.calls && s.calls[id].at.Unlocking?) then None
      else
        var call := s.calls[id];
        Some(At(s, id, Releasing(call.at.lease, call.at.session, false, Value)).(
          locks := if executed then Unlocked(s.locks, call.hash, call.at.session) else s.locks))
    case Release(id) =>
      if !(id in s.calls && s.calls[id].at.Releasing? && Usable(s, s.calls[id])) then None
      else
        var call := s.calls[id];
        var pooled :=
          if call.at.healthy && call.at.session in s.connections then
            s.(connections := s.connections[call.at.session :=
              s.connections[call.at.session].(idle := true)])
          else s;
        Some(At(AfterSettle(pooled, call.replica, call.at.lease, !call.at.healthy), id, Finished(call.at.result)))
    case Dies(session) =>
      if session !in s.connections then None
      else
        Some(s.(connections := s.connections - {session}, locks := WithoutSessions(s.locks, {session})))
  }

  const START := State(map[], map[], 0, map[], map[])

  /** The state after `steps` from `s`, or None where one of them cannot happen. */
  ghost function Run(s: State, steps: seq<Step>): Option<State> {
    if steps == [] then Some(s)
    else
      match Run(s, steps[..|steps| - 1])
      case None => None
      case Some(t) => Apply(t, steps[|steps| - 1])
  }

  ghost predicate Reachable(s: State) {
    exists steps :: Run(START, steps) == Some(s)
  }

  /** The connections in `spared` do not drop. */
  ghost predicate Spares(steps: seq<Step>, spared: set<Session>) {
    forall i :: 0 <= i < |steps| && steps[i].Dies? ==> steps[i].session !in spared
  }

  /** `t` comes of `s` by steps that drop none of `spared`. */
  ghost predicate Continues(s: State, t: State, spared: set<Session>) {
    exists steps :: Spares(steps, spared) && Run(s, steps) == Some(t)
  }

  /* ---- the invariant ---- */

  /** A call's connection, while open, is its own: of its replica and lease, and not in a pool. */
  ghost predicate CallOk(s: State, id: int)
    requires id in s.calls
  {
    var call := s.calls[id];
    && (call.HasLease() ==>
      && call.replica in s.clients && call.at.lease in s.clients[call.replica].leases)
    && (call.HasSession() ==> call.at.session < s.nextSession)
    && (call.HasSession() && call.at.session in s.connections ==>
      && s.connections[call.at.session]
        == Connection(call.replica, s.clients[call.replica].leases[call.at.lease], false)
      && (call.Holds() ==>
        call.hash in s.locks && s.locks[call.hash] == Grant(call.at.session, 1)))
  }

  /** Two calls share neither a lease of one replica nor a connection. */
  ghost predicate Apart(s: State, a: int, b: int)
    requires a in s.calls && b in s.calls
  {
    && (s.calls[a].HasLease() && s.calls[b].HasLease() && s.calls[a].replica == s.calls[b].replica ==>
      s.calls[a].at.lease != s.calls[b].at.lease)
    && (s.calls[a].HasSession() && s.calls[b].HasSession() ==>
      s.calls[a].at.session != s.calls[b].at.session)
  }

  /** The holder of a lock is open and not idle; in a call's hands it is the call's own lock. */
  ghost predicate LockOk(s: State, hash: Hash)
    requires hash in s.locks
  {
    var x := s.locks[hash].session;
    && s.locks[hash].count == 1
    && x in s.connections && !s.connections[x].idle
    && forall id :: id in s.calls && s.calls[id].HasSession() && s.calls[id].at.session == x ==>
      (s.calls[id].Holds() && s.calls[id].hash == hash)
      || (s.calls[id].at.Releasing? && !s.calls[id].at.healthy)
  }

  ghost predicate ConnectionOk(s: State, x: Session)
    requires x in s.connections
  {
    var conn := s.connections[x];
    && x < s.nextSession && conn.replica in s.clients && conn.generation in s.clients[conn.replica].all
  }

  ghost predicate Inv(s: State) {
    && (forall r :: r in s.clients ==> Valid(s.clients[r]))
    && (forall x :: x in s.connections ==> ConnectionOk(s, x))
    && (forall id :: id in s.calls ==> CallOk(s, id))
    && (forall a, b :: a in s.calls && b in s.calls && a != b ==> Apart(s, a, b))
    && (forall h :: h in s.locks ==> LockOk(s, h))
  }

  lemma FullInv(s: State, id: int, replica: int, hash: Hash)
    requires Inv(s) && id !in s.calls
    ensures Inv(s.(calls := s.calls[id := Call(replica, hash, Finished(FullUp))]))
  {
    var s' := s.(calls := s.calls[id := Call(replica, hash, Finished(FullUp))]);
    hide Valid;
    forall other | other in s'.calls ensures CallOk(s', other) { assert other in s.calls ==> CallOk(s, other); }
    forall a, b | a in s'.calls && b in s'.calls && a != b ensures Apart(s', a, b) {
      assert a in s.calls && b in s.calls ==> Apart(s, a, b);
    }
    forall x | x in s'.connections ensures ConnectionOk(s', x) { assert ConnectionOk(s, x); }
    forall h | h in s'.locks ensures LockOk(s', h) { assert LockOk(s, h); }
  }

  /** A client with one more lease: every call keeps its own. */
  lemma MoreLeasesInv(s: State, replica: int, d: Client)
    requires Inv(s) && replica in s.clients && Valid(d)
    requires forall l :: l in s.clients[replica].leases ==> l in d.leases && d.leases[l] == s.clients[replica].leases[l]
    requires forall g :: g in s.clients[replica].all ==> g in d.all
    ensures Inv(s.(clients := s.clients[replica := d]))
  {
    hide Valid;
    var s' := s.(clients := s.clients[replica := d]);
    forall other | other in s'.calls ensures CallOk(s', other) { assert CallOk(s, other); }
    forall x | x in s'.connections ensures ConnectionOk(s', x) { assert ConnectionOk(s, x); }
    forall a, b | a in s'.calls && b in s'.calls && a != b ensures Apart(s', a, b) { assert Apart(s, a, b); }
    forall h | h in s'.locks ensures LockOk(s', h) { assert LockOk(s, h); }
  }

  /** A new call with a lease no other call has. */
  lemma NewCallInv(s: State, id: int, call: Call)
    requires Inv(s) && id !in s.calls && call.at.Reserving?
    requires call.replica in s.clients && call.at.lease in s.clients[call.replica].leases
    requires forall other :: other in s.calls && s.calls[other].HasLease() && s.calls[other].replica == call.replica ==>
               s.calls[other].at.lease != call.at.lease
    ensures Inv(s.(calls := s.calls[id := call]))
  {
    hide Valid;
    var s' := s.(calls := s.calls[id := call]);
    forall other | other in s'.calls ensures CallOk(s', other) { assert other in s.calls ==> CallOk(s, other); }
    forall x | x in s'.connections ensures ConnectionOk(s', x) { assert ConnectionOk(s, x); }
    forall a, b | a in s'.calls && b in s'.calls && a != b ensures Apart(s', a, b) {
      assert a in s.calls && b in s.calls ==> Apart(s, a, b);
    }
    forall h | h in s'.locks ensures LockOk(s', h) { assert LockOk(s, h); }
  }

  lemma TakenInv(s: State, id: int, replica: int, hash: Hash)
    requires Inv(s) && id !in s.calls && replica in s.clients && !LockClients.Full(s.clients[replica])
    ensures Inv(s.(clients := s.clients[replica := Taken(s.clients[replica])],
                   calls := s.calls[id := Call(replica, hash, Reserving(s.clients[replica].taken))]))
  {
    var c := s.clients[replica];
    TakenValid(c);
    hide Valid;
    MoreLeasesInv(s, replica, Taken(c));
    forall other | other in s.calls && s.calls[other].HasLease() && s.calls[other].replica == replica
      ensures s.calls[other].at.lease != c.taken
    {
      assert CallOk(s, other);
    }
    hide Inv;
    NewCallInv(s.(clients := s.clients[replica := Taken(c)]), id, Call(replica, hash, Reserving(c.taken)));
  }

  /** A lease gets a connection: a new one of its generation. */
  lemma ReservedNewInv(s: State, id: int)
    requires Inv(s) && Apply(s, Reserved(id, None)).Some?
    ensures Inv(Apply(s, Reserved(id, None)).value)
  {
    var s' := Apply(s, Reserved(id, None)).value;
    hide Valid;
    assert CallOk(s, id);
    forall h | h in s'.locks ensures LockOk(s', h) { assert LockOk(s, h); }
    forall y | y in s'.connections ensures ConnectionOk(s', y) {
      assert y in s.connections ==> ConnectionOk(s, y);
    }
    hide LockOk;
    forall other | other in s'.calls ensures CallOk(s', other) { assert CallOk(s, other); }
    forall a, b | a in s'.calls && b in s'.calls && a != b ensures Apart(s', a, b) {
      assert Apart(s, a, b) && CallOk(s, a) && CallOk(s, b);
    }
  }

  /** Or an idle one, which no call has. */
  lemma ReservedIdleInv(s: State, id: int, x: Session)
    requires Inv(s) && Apply(s, Reserved(id, Some(x))).Some?
    ensures Inv(Apply(s, Reserved(id, Some(x))).value)
  {
    var s' := Apply(s, Reserved(id, Some(x))).value;
    hide Valid;
    assert CallOk(s, id);
    forall h | h in s'.locks ensures LockOk(s', h) { assert LockOk(s, h); }
    forall y | y in s'.connections ensures ConnectionOk(s', y) { assert ConnectionOk(s, y); }
    hide LockOk;
    forall other | other in s'.calls ensures CallOk(s', other) { assert CallOk(s, other); }
    forall a, b | a in s'.calls && b in s'.calls && a != b ensures Apart(s', a, b) {
      assert Apart(s, a, b) && CallOk(s, a) && CallOk(s, b);
    }
  }

  /** A step that changes only one call and the locks. */
  lemma LocksInv(s: State, id: int, s': State)
    requires Inv(s) && id in s.calls && s.calls[id].HasSession()
    requires s' == s.(calls := s'.calls, locks := s'.locks) && id in s'.calls
    requires s'.calls == s.calls[id := s'.calls[id]]
    requires s'.calls[id].replica == s.calls[id].replica && s'.calls[id].hash == s.calls[id].hash
    requires s'.calls[id].HasSession()
    requires s'.calls[id].at.lease == s.calls[id].at.lease && s'.calls[id].at.session == s.calls[id].at.session
    requires s'.calls[id].at.session in s.connections && s'.calls[id].Holds() ==>
      s.calls[id].hash in s'.locks && s'.locks[s.calls[id].hash] == Grant(s.calls[id].at.session, 1)
    requires forall h :: h in s'.locks ==> LockOk(s', h)
    requires forall h :: h in s.locks && s.locks[h].session != s.calls[id].at.session ==>
      h in s'.locks && s'.locks[h] == s.locks[h]
    ensures Inv(s')
  {
    hide Valid, LockOk;
    forall x | x in s'.connections ensures ConnectionOk(s', x) { assert ConnectionOk(s, x); }
    forall other | other in s'.calls ensures CallOk(s', other) {
      assert CallOk(s, other);
      assert other != id ==> Apart(s, other, id);
    }
    forall a, b | a in s'.calls && b in s'.calls && a != b ensures Apart(s', a, b) { assert Apart(s, a, b); }
  }

  /** The session of a call that has not been granted its lock holds none. */
  lemma LeasedHoldsNothing(s: State, id: int)
    requires Inv(s) && id in s.calls && s.calls[id].at.Leased?
    ensures forall h :: h in s.locks ==> s.locks[h].session != s.calls[id].at.session
  {
    hide Valid, CallOk;
    forall h | h in s.locks
      ensures s.locks[h].session != s.calls[id].at.session
    {
      assert LockOk(s, h);
    }
  }

  /** A lock granted, whether its call hears of it or not. */
  lemma GrantedInv(s: State, id: int, at: Point)
    requires Inv(s) && id in s.calls && s.calls[id].at.Leased? && s.calls[id].at.session in s.connections
    requires var here := s.calls[id].at;
             at == Running(here.lease, here.session) || at == Releasing(here.lease, here.session, false, Unreachable)
    requires Grants(s.locks, s.calls[id].hash, s.calls[id].at.session)
    ensures Inv(At(s, id, at).(locks := Locked(s.locks, s.calls[id].hash, s.calls[id].at.session)))
  {
    var s' := At(s, id, at).(locks := Locked(s.locks, s.calls[id].hash, s.calls[id].at.session));
    LeasedHoldsNothing(s, id);
    hide Valid;
    assert CallOk(s, id);
    forall h | h in s'.locks
      ensures LockOk(s', h)
    {
      if h in s.locks {
        assert LockOk(s, h);
      } else {
        assert forall other :: other in s.calls && other != id ==> Apart(s, other, id);
      }
    }
    hide LockOk, CallOk;
    LocksInv(s, id, s');
  }

  /** A lock not granted. */
  lemma UngrantedInv(s: State, id: int, healthy: bool, result: Result)
    requires Inv(s) && id in s.calls && s.calls[id].at.Leased?
    ensures Inv(At(s, id, Releasing(s.calls[id].at.lease, s.calls[id].at.session, healthy, result)))
  {
    var s' := At(s, id, Releasing(s.calls[id].at.lease, s.calls[id].at.session, healthy, result));
    LeasedHoldsNothing(s, id);
    hide Valid, CallOk;
    forall h | h in s'.locks
      ensures LockOk(s', h)
    {
      assert LockOk(s, h);
    }
    hide LockOk;
    LocksInv(s, id, s');
  }

  /** The lock a call is granted, or finds taken, or may have been granted unheard. */
  lemma LockInv(s: State, step: Step)
    requires Inv(s) && Apply(s, step).Some?
    requires step.LockAnswers? || step.LockFails?
    ensures Inv(Apply(s, step).value)
  {
    hide Inv;
    var call := s.calls[step.call];
    var granted := call.at.session in s.connections && Grants(s.locks, call.hash, call.at.session);
    if step.LockAnswers? {
      if granted {
        GrantedInv(s, step.call, Running(call.at.lease, call.at.session));
      } else {
        UngrantedInv(s, step.call, true, Busy);
      }
    } else if step.executed && granted {
      GrantedInv(s, step.call, Releasing(call.at.lease, call.at.session, false, Unreachable));
    } else {
      UngrantedInv(s, step.call, false, Unreachable);
    }
  }

  /** A test that has ended keeps its lock until the unlock is sent, and perhaps then. */
  lemma StillHeldInv(s: State, id: int, at: Point)
    requires Inv(s) && id in s.calls && s.calls[id].Holds()
    requires var here := s.calls[id].at;
             at == Unlocking(here.lease, here.session) || at == Releasing(here.lease, here.session, false, Value)
    ensures Inv(At(s, id, at))
  {
    var s' := At(s, id, at);
    hide Valid;
    assert CallOk(s, id);
    forall h | h in s'.locks
      ensures LockOk(s', h)
    {
      assert LockOk(s, h);
    }
    hide LockOk;
    LocksInv(s, id, s');
  }

  /** The lock given up. */
  lemma UnlockedInv(s: State, id: int, healthy: bool)
    requires Inv(s) && id in s.calls && s.calls[id].at.Unlocking?
    ensures var here := s.calls[id].at;
            Inv(At(s, id, Releasing(here.lease, here.session, healthy, Value)).(
              locks := Unlocked(s.locks, s.calls[id].hash, here.session)))
  {
    var here := s.calls[id].at;
    var s' := At(s, id, Releasing(here.lease, here.session, healthy, Value)).(
      locks := Unlocked(s.locks, s.calls[id].hash, here.session));
    hide Valid;
    assert CallOk(s, id);
    forall h | h in s'.locks
      ensures LockOk(s', h)
    {
      assert LockOk(s, h);
    }
    assert forall h :: h in s.locks && s.locks[h].session != here.session ==>
             h in s'.locks && s'.locks[h] == s.locks[h];
    hide LockOk, CallOk;
    LocksInv(s, id, s');
  }

  /** The lock a call gives up, or may have given up unheard. */
  lemma UnlockInv(s: State, step: Step)
    requires Inv(s) && Apply(s, step).Some?
    requires step.TestEnds? || step.UnlockAnswers? || step.UnlockFails?
    ensures Inv(Apply(s, step).value)
  {
    hide Inv;
    var id := step.call;
    var here := s.calls[id].at;
    if step.TestEnds? {
      StillHeldInv(s, id, Unlocking(here.lease, here.session));
    } else if step.UnlockAnswers? || step.executed {
      UnlockedInv(s, id, step.UnlockAnswers?);
    } else {
      StillHeldInv(s, id, Releasing(here.lease, here.session, false, Value));
    }
  }

  /** Nothing of another call is closed when a lease is given back. */
  lemma WithClientInv(s: State, id: int, after: Client, result: Result)
    requires Inv(s) && id in s.calls && s.calls[id].HasLease() && s.calls[id].replica in s.clients
    requires Valid(after)
    requires after.leases == s.clients[s.calls[id].replica].leases - {s.calls[id].at.lease}
    requires forall l :: l in after.leases ==> after.leases[l] in after.all
    ensures Inv(At(WithClient(s, s.calls[id].replica, after), id, Finished(result)))
  {
    hide Valid;
    var s' := At(WithClient(s, s.calls[id].replica, after), id, Finished(result));
    forall other | other in s'.calls ensures CallOk(s', other) {
      assert CallOk(s, other);
      assert other != id ==> Apart(s, other, id);
    }
    forall x | x in s'.connections ensures ConnectionOk(s', x) { assert ConnectionOk(s, x); }
    forall a, b | a in s'.calls && b in s'.calls && a != b ensures Apart(s', a, b) { assert Apart(s, a, b); }
    forall h | h in s'.locks ensures LockOk(s', h) { assert LockOk(s, h); }
  }

  /** A lease is given back, its call over. */
  lemma SettleInv(s: State, id: int, retire: bool, result: Result)
    requires Inv(s) && id in s.calls && Usable(s, s.calls[id])
    ensures Inv(At(AfterSettle(s, s.calls[id].replica, s.calls[id].at.lease, retire), id, Finished(result)))
  {
    var c, lease := s.clients[s.calls[id].replica], s.calls[id].at.lease;
    var after := Settled(c, lease, retire);
    SettledValid(c, lease, retire);
    assert LeasesOk(after);
    hide Valid, Inv;
    WithClientInv(s, id, after, result);
  }

  /** A call over but for its lease, its healthy connection back in the pool. */
  ghost function Pooled(s: State, id: int): State
    requires id in s.calls && s.calls[id].at.Releasing? && s.calls[id].at.session in s.connections
  {
    var x := s.calls[id].at.session;
    At(s, id, Reserving(s.calls[id].at.lease)).(connections := s.connections[x := s.connections[x].(idle := true)])
  }

  /** A healthy release puts a connection that holds nothing back into its pool. */
  lemma PooledInv(s: State, id: int)
    requires Inv(s) && id in s.calls && s.calls[id].at.Releasing? && s.calls[id].at.healthy
    requires s.calls[id].at.session in s.connections
    ensures Inv(Pooled(s, id))
  {
    hide Valid;
    var pooled := Pooled(s, id);
    assert CallOk(s, id);
    forall h | h in s.locks ensures LockOk(pooled, h) { assert LockOk(s, h); }
    forall y | y in pooled.connections ensures ConnectionOk(pooled, y) { assert ConnectionOk(s, y); }
    forall other | other in pooled.calls ensures CallOk(pooled, other) {
      assert CallOk(s, other);
      assert other != id ==> Apart(s, other, id);
    }
    forall a, b | a in pooled.calls && b in pooled.calls && a != b ensures Apart(pooled, a, b) {
      assert Apart(s, a, b);
    }
  }

  lemma ReleaseInv(s: State, id: int)
    requires Inv(s) && Apply(s, Release(id)).Some?
    ensures Inv(Apply(s, Release(id)).value)
  {
    hide Inv, Valid;
    var call := s.calls[id];
    if call.at.healthy && call.at.session in s.connections {
      PooledInv(s, id);
      var pooled := Pooled(s, id);
      SettleInv(pooled, id, false, call.at.result);
      var settled := AfterSettle(pooled, call.replica, call.at.lease, false);
      assert settled.calls[id := Call(call.replica, call.hash, Finished(call.at.result))]
        == s.calls[id := Call(call.replica, call.hash, Finished(call.at.result))];
    } else {
      SettleInv(s, id, !call.at.healthy, call.at.result);
    }
  }

  lemma DiesInv(s: State, session: Session)
    requires Inv(s) && Apply(s, Dies(session)).Some?
    ensures Inv(Apply(s, Dies(session)).value)
  {
    var s' := Apply(s, Dies(session)).value;
    hide Valid;
    forall other | other in s'.calls ensures CallOk(s', other) { assert CallOk(s, other); }
    forall x | x in s'.connections ensures ConnectionOk(s', x) { assert ConnectionOk(s, x); }
    forall a, b | a in s'.calls && b in s'.calls && a != b ensures Apart(s', a, b) { assert Apart(s, a, b); }
    forall h | h in s'.locks ensures LockOk(s', h) { assert LockOk(s, h); }
  }

  lemma JoinInv(s: State, replica: int)
    requires Inv(s) && Apply(s, Join(replica)).Some?
    ensures Inv(Apply(s, Join(replica)).value)
  {
    var s' := Apply(s, Join(replica)).value;
    assert RetiredAlive(EMPTY) == {};
    assert Valid(EMPTY);
    hide Valid;
    forall other | other in s'.calls ensures CallOk(s', other) { assert CallOk(s, other); }
    forall x | x in s'.connections ensures ConnectionOk(s', x) { assert ConnectionOk(s, x); }
    forall a, b | a in s'.calls && b in s'.calls && a != b ensures Apart(s', a, b) { assert Apart(s, a, b); }
    forall h | h in s'.locks ensures LockOk(s', h) { assert LockOk(s, h); }
  }

  lemma StepInv(s: State, step: Step)
    requires Inv(s) && Apply(s, step).Some?
    ensures Inv(Apply(s, step).value)
  {
    hide Inv;
    match step
    case Join(replica) => JoinInv(s, replica);
    case Take(id, replica, hash) =>
      if LockClients.Full(s.clients[replica]) {
        FullInv(s, id, replica, hash);
      } else {
        TakenInv(s, id, replica, hash);
      }
    case Reserved(id, idle) =>
      if idle.None? {
        ReservedNewInv(s, id);
      } else {
        ReservedIdleInv(s, id, idle.value);
      }
    case ReserveFails(id) => SettleInv(s, id, false, Unreachable);
    case Release(id) => ReleaseInv(s, id);
    case Dies(session) => DiesInv(s, session);
    case LockAnswers(_) => LockInv(s, step);
    case LockFails(_, _) => LockInv(s, step);
    case _ => UnlockInv(s, step);
  }

  lemma {:induction false} RunInv(s: State, steps: seq<Step>)
    requires Inv(s) && Run(s, steps).Some?
    ensures Inv(Run(s, steps).value)
  {
    hide Inv, Apply;
    if steps != [] {
      RunInv(s, steps[..|steps| - 1]);
      StepInv(Run(s, steps[..|steps| - 1]).value, steps[|steps| - 1]);
    }
  }

  lemma ReachableInv(s: State)
    requires Reachable(s)
    ensures Inv(s)
  {
    var steps :| Run(START, steps) == Some(s);
    RunInv(START, steps);
  }

  /**
   * Of any two tests of one key, in whatever replicas and after whatever failures, at most one
   * runs on a connection that is still open.
   */
  lemma AtMostOneTest(s: State, a: int, b: int)
    requires Reachable(s) && a in s.calls && b in s.calls && a != b
    requires s.calls[a].at.Running? && s.calls[b].at.Running? && s.calls[a].hash == s.calls[b].hash
    ensures s.calls[a].at.session !in s.connections || s.calls[b].at.session !in s.connections
  {
    ReachableInv(s);
    assert CallOk(s, a) && CallOk(s, b) && Apart(s, a, b);
  }

  /** A connection idle in a pool holds no lock, so the next call it serves takes none over. */
  lemma IdleHoldsNothing(s: State, x: Session, hash: Hash)
    requires Reachable(s) && x in s.connections && s.connections[x].idle && hash in s.locks
    ensures s.locks[hash].session != x
  {
    ReachableInv(s);
    assert LockOk(s, hash);
  }

  /** In every replica the lease accounting of its lock client holds throughout. */
  lemma ClientsStayValid(s: State, replica: int)
    requires Reachable(s) && replica in s.clients
    ensures Valid(s.clients[replica])
  {
    ReachableInv(s);
  }

  /* ---- no lock is left behind ---- */

  /** Some call is under way with the lease. */
  ghost predicate Borrowed(s: State, replica: int, lease: int) {
    exists id :: id in s.calls && s.calls[id].HasLease()
                 && s.calls[id].replica == replica && s.calls[id].at.lease == lease
  }

  /** Some call is under way on the connection. */
  ghost predicate InUse(s: State, x: Session) {
    exists id :: id in s.calls && s.calls[id].HasSession() && s.calls[id].at.session == x
  }

  ghost predicate Doomed(s: State, x: Session)
    requires x in s.connections
  {
    var conn := s.connections[x];
    conn.replica in s.clients && conn.generation in s.clients[conn.replica].all
    && s.clients[conn.replica].all[conn.generation].retired
  }

  /** Each lease is some call's, and each connection idle, in a call's hands, or of a retired generation. */
  ghost predicate Orderly(s: State) {
    && (forall r, l :: r in s.clients && l in s.clients[r].leases ==> Borrowed(s, r, l))
    && (forall x :: x in s.connections ==> s.connections[x].idle || InUse(s, x) || Doomed(s, x))
  }

  /** A call goes on with what it has; no client changes, no connection comes or changes. */
  lemma CallGoesOn(s: State, s': State, id: int)
    requires Orderly(s) && s'.clients == s.clients && id in s.calls && s'.calls.Keys == s.calls.Keys
    requires forall other :: other in s.calls && other != id ==> s'.calls[other] == s.calls[other]
    requires s'.calls[id].replica == s.calls[id].replica && s'.calls[id].HasLease() == s.calls[id].HasLease()
    requires s.calls[id].HasLease() ==> s'.calls[id].at.lease == s.calls[id].at.lease
    requires s.calls[id].HasSession() ==> s'.calls[id].HasSession() && s'.calls[id].at.session == s.calls[id].at.session
    requires forall x :: x in s'.connections ==>
               || (x in s.connections && s'.connections[x] == s.connections[x])
               || (s'.calls[id].HasSession() && s'.calls[id].at.session == x)
    ensures Orderly(s')
  {
    forall r, l | r in s'.clients && l in s'.clients[r].leases
      ensures Borrowed(s', r, l)
    {
      assert Borrowed(s, r, l);
      var other :| other in s.calls && s.calls[other].HasLease()
                   && s.calls[other].replica == r && s.calls[other].at.lease == l;
      assert s'.calls[other].HasLease() && s'.calls[other].replica == r && s'.calls[other].at.lease == l;
    }
    forall x | x in s'.connections
      ensures s'.connections[x].idle || InUse(s', x) || Doomed(s', x)
    {
      if s'.calls[id].HasSession() && s'.calls[id].at.session == x {
        assert InUse(s', x);
      } else if InUse(s, x) {
        var other :| other in s.calls && s.calls[other].HasSession() && s.calls[other].at.session == x;
        assert s'.calls[other].HasSession() && s'.calls[other].at.session == x;
      }
    }
  }

  /** One more call, and a client with its lease; nothing else changes. */
  lemma NewCallOrderly(s: State, s': State, id: int)
    requires Orderly(s) && id !in s.calls && s'.connections == s.connections
    requires id in s'.calls && s'.calls == s.calls[id := s'.calls[id]]
    requires forall r :: r in s.clients ==> r in s'.clients
    requires forall r :: r in s'.clients ==>
               forall l :: l in s'.clients[r].leases ==>
                 || (r in s.clients && l in s.clients[r].leases)
                 || (s'.calls[id].HasLease() && s'.calls[id].replica == r && s'.calls[id].at.lease == l)
    requires forall r, g :: r in s.clients && g in s.clients[r].all && s.clients[r].all[g].retired ==>
               g in s'.clients[r].all && s'.clients[r].all[g].retired
    ensures Orderly(s')
  {
    forall r, l | r in s'.clients && l in s'.clients[r].leases
      ensures Borrowed(s', r, l)
    {
      if r in s.clients && l in s.clients[r].leases {
        assert Borrowed(s, r, l);
        var other :| other in s.calls && s.calls[other].HasLease()
                     && s.calls[other].replica == r && s.calls[other].at.lease == l;
        assert s'.calls[other] == s.calls[other];
      }
    }
    forall x | x in s'.connections
      ensures s'.connections[x].idle || InUse(s', x) || Doomed(s', x)
    {
      if InUse(s, x) {
        var other :| other in s.calls && s.calls[other].HasSession() && s.calls[other].at.session == x;
        assert s'.calls[other] == s.calls[other];
      }
    }
  }

  lemma JoinOrderly(s: State, replica: int)
    requires Orderly(s) && replica !in s.clients
    ensures Orderly(s.(clients := s.clients[replica := EMPTY]))
  {
    var s' := s.(clients := s.clients[replica := EMPTY]);
    forall r, l | r in s'.clients && l in s'.clients[r].leases
      ensures Borrowed(s', r, l)
    {
      assert Borrowed(s, r, l);
    }
    forall x | x in s'.connections
      ensures s'.connections[x].idle || InUse(s', x) || Doomed(s', x)
    {
      assert InUse(s, x) ==> InUse(s', x);
    }
  }

  lemma DiesOrderly(s: State, session: Session)
    requires Orderly(s)
    ensures Orderly(s.(connections := s.connections - {session}, locks := WithoutSessions(s.locks, {session})))
  {
    var s' := s.(connections := s.connections - {session}, locks := WithoutSessions(s.locks, {session}));
    forall r, l | r in s'.clients && l in s'.clients[r].leases
      ensures Borrowed(s', r, l)
    {
      assert Borrowed(s, r, l);
    }
    forall x | x in s'.connections
      ensures s'.connections[x].idle || InUse(s', x) || Doomed(s', x)
    {
      assert InUse(s, x) ==> InUse(s', x);
    }
  }

  /** The generations a settled lease leaves alone, and its own. */
  lemma SettledRetires(c: Client, lease: int, retire: bool)
    requires Valid(c) && lease in c.leases
    ensures var d := Settled(c, lease, retire);
            && d.leases == c.leases - {lease}
            && (forall g :: g in d.all && g in c.all && c.all[g].retired ==> d.all[g].retired)
            && (retire && c.leases[lease] in d.all ==> d.all[c.leases[lease]].retired)
  {
    LeasedAlive(c, lease);
  }

  /** A call over: its connection is idle, or its generation retired or gone. */
  lemma SettledOrderly(s: State, id: int, retire: bool, result: Result)
    requires Orderly(s) && id in s.calls && Usable(s, s.calls[id])
    requires forall other :: other in s.calls && other != id && s.calls[other].HasLease()
                             && s.calls[other].replica == s.calls[id].replica ==>
               s.calls[other].at.lease != s.calls[id].at.lease
    requires var call := s.calls[id];
             call.HasSession() && call.at.session in s.connections ==>
               var conn := s.connections[call.at.session];
               conn.idle || (retire && conn.replica == call.replica
                             && conn.generation == s.clients[call.replica].leases[call.at.lease]
                             && conn.generation in s.clients[call.replica].all)
    ensures Orderly(At(AfterSettle(s, s.calls[id].replica, s.calls[id].at.lease, retire), id, Finished(result)))
  {
    var call := s.calls[id];
    var c := s.clients[call.replica];
    var s' := At(AfterSettle(s, call.replica, call.at.lease, retire), id, Finished(result));
    SettledRetires(c, call.at.lease, retire);
    hide Valid, Settled;
    forall r, l | r in s'.clients && l in s'.clients[r].leases
      ensures Borrowed(s', r, l)
    {
      assert Borrowed(s, r, l);
      var other :| other in s.calls && s.calls[other].HasLease()
                   && s.calls[other].replica == r && s.calls[other].at.lease == l;
      assert s'.calls[other] == s.calls[other];
    }
    forall x | x in s'.connections
      ensures s'.connections[x].idle || InUse(s', x) || Doomed(s', x)
    {
      StaysOrDoomed(s, s', id, x);
    }
  }

  lemma StaysOrDoomed(s: State, s': State, id: int, x: Session)
    requires Orderly(s) && id in s.calls && s.calls[id].HasLease() && s.calls[id].replica in s.clients
    requires s'.calls.Keys == s.calls.Keys
    requires forall other :: other in s.calls && other != id ==> s'.calls[other] == s.calls[other]
    requires x in s'.connections && x in s.connections && s'.connections[x] == s.connections[x]
    requires s'.clients.Keys == s.clients.Keys
    requires forall r :: r in s.clients && r != s.calls[id].replica ==> s'.clients[r] == s.clients[r]
    requires var r := s.calls[id].replica;
             && (forall g :: g in s'.clients[r].all && g in s.clients[r].all && s.clients[r].all[g].retired ==>
                   s'.clients[r].all[g].retired)
             && (s.connections[x].replica == r && s.connections[x].generation in s.clients[r].all ==>
                   s.connections[x].generation in s'.clients[r].all)
             && (s.calls[id].HasSession() && s.calls[id].at.session == x && !s.connections[x].idle ==> Doomed(s', x))
    ensures s'.connections[x].idle || InUse(s', x) || Doomed(s', x)
  {
    if InUse(s, x) && !(s.calls[id].HasSession() && s.calls[id].at.session == x) {
      var other :| other in s.calls && s.calls[other].HasSession() && s.calls[other].at.session == x;
      assert s'.calls[other] == s.calls[other];
    }
  }

  lemma TakeOrderly(s: State, id: int, replica: int, hash: Hash)
    requires Inv(s) && Orderly(s) && Apply(s, Take(id, replica, hash)).Some?
    ensures Orderly(Apply(s, Take(id, replica, hash)).value)
  {
    var s' := Apply(s, Take(id, replica, hash)).value;
    assert Valid(s.clients[replica]);
    forall r, g | r in s.clients && g in s.clients[r].all && s.clients[r].all[g].retired
      ensures g in s'.clients[r].all && s'.clients[r].all[g].retired
    {
    }
    hide Valid, Orderly, CallOk, LockOk, ConnectionOk, Apart;
    NewCallOrderly(s, s', id);
  }

  lemma ReleaseOrderly(s: State, id: int)
    requires Inv(s) && Orderly(s) && Apply(s, Release(id)).Some?
    ensures Orderly(Apply(s, Release(id)).value)
  {
    hide Valid, Settled, LockOk;
    var call := s.calls[id];
    assert CallOk(s, id);
    assert forall other :: other in s.calls && other != id ==> Apart(s, other, id);
    var x := call.at.session;
    if x in s.connections {
      assert ConnectionOk(s, x);
    }
    hide Inv, CallOk, ConnectionOk, Apart;
    if call.at.healthy && x in s.connections {
      var pooled := s.(connections := s.connections[x := s.connections[x].(idle := true)]);
      CallGoesOn(s, pooled, id);
      hide Orderly;
      SettledOrderly(pooled, id, false, call.at.result);
    } else {
      hide Orderly;
      SettledOrderly(s, id, !call.at.healthy, call.at.result);
    }
  }

  lemma ReserveFailsOrderly(s: State, id: int)
    requires Inv(s) && Orderly(s) && Apply(s, ReserveFails(id)).Some?
    ensures Orderly(Apply(s, ReserveFails(id)).value)
  {
    assert forall other :: other in s.calls && other != id ==> Apart(s, other, id);
    hide Inv, Orderly, Valid, Settled, CallOk, ConnectionOk, LockOk;
    SettledOrderly(s, id, false, Unreachable);
  }

  lemma StepOrderly(s: State, step: Step)
    requires Inv(s) && Orderly(s) && Apply(s, step).Some?
    ensures Orderly(Apply(s, step).value)
  {
    hide Inv, Orderly, Valid;
    match step
    case Join(replica) => JoinOrderly(s, replica);
    case Take(id, replica, hash) => TakeOrderly(s, id, replica, hash);
    case ReserveFails(id) => ReserveFailsOrderly(s, id);
    case Release(id) => ReleaseOrderly(s, id);
    case Dies(session) => DiesOrderly(s, session);
    case _ => CallGoesOn(s, Apply(s, step).value, step.call);
  }

  lemma {:induction false} RunOrderly(s: State, steps: seq<Step>)
    requires Inv(s) && Orderly(s) && Run(s, steps).Some?
    ensures Orderly(Run(s, steps).value)
  {
    hide Inv, Orderly, Apply;
    if steps != [] {
      var before := steps[..|steps| - 1];
      RunInv(s, before);
      RunOrderly(s, before);
      StepOrderly(Run(s, before).value, steps[|steps| - 1]);
    }
  }

  /**
   * A lock is held by a connection in some call's hands, or of a generation that ends, and closes it, with
   * its last lease. So of a replica without a call under way no connection holds one.
   */
  lemma NoLockLeftBehind(s: State, replica: int)
    requires Reachable(s)
    requires forall id :: id in s.calls && s.calls[id].replica == replica ==> s.calls[id].at.Finished?
    ensures forall x :: x in s.connections && s.connections[x].replica == replica ==> s.connections[x].idle
    ensures forall h :: h in s.locks && s.locks[h].session in s.connections ==>
              s.connections[s.locks[h].session].replica != replica
  {
    ReachableInv(s);
    var steps :| Run(START, steps) == Some(s);
    RunOrderly(START, steps);
    forall x | x in s.connections && s.connections[x].replica == replica
      ensures s.connections[x].idle
    {
      assert ConnectionOk(s, x);
      NotInUse(s, x);
      NoneRetired(s, replica, s.connections[x].generation);
    }
    forall h | h in s.locks
      ensures s.locks[h].session in s.connections ==> s.connections[s.locks[h].session].replica != replica
    {
      assert LockOk(s, h);
    }
  }

  lemma NotInUse(s: State, x: Session)
    requires Inv(s) && x in s.connections
    requires forall id :: id in s.calls && s.calls[id].replica == s.connections[x].replica ==> s.calls[id].at.Finished?
    ensures !InUse(s, x)
  {
    hide Valid, LockOk;
    forall id | id in s.calls
      ensures !(s.calls[id].HasSession() && s.calls[id].at.session == x)
    {
      assert CallOk(s, id);
    }
  }

  lemma NoneRetired(s: State, replica: int, g: int)
    requires Inv(s) && Orderly(s) && replica in s.clients
    requires forall id :: id in s.calls && s.calls[id].replica == replica ==> s.calls[id].at.Finished?
    ensures g in s.clients[replica].all ==> !s.clients[replica].all[g].retired
  {
    var c := s.clients[replica];
    assert forall l :: !Borrowed(s, replica, l);
    assert forall l :: l in c.leases ==> Borrowed(s, replica, l);
    assert forall l :: l !in c.leases;
    NoLeases(c.leases, g);
    assert g in c.all ==> GenerationOk(c, g);
  }

  /** When every call is over, no lock is held at all. */
  lemma AllOverNoLock(s: State)
    requires Reachable(s) && forall id :: id in s.calls ==> s.calls[id].at.Finished?
    ensures s.locks == map[]
  {
    ReachableInv(s);
    forall h | h in s.locks
      ensures false
    {
      assert LockOk(s, h);
      NoLockLeftBehind(s, s.connections[s.locks[h].session].replica);
    }
  }

  /* ---- how a call ends ---- */

  /** `steps` can follow `s`, and leave the call over with `result`. */
  ghost predicate Ends(s: State, steps: seq<Step>, id: int, result: Result) {
    && Run(s, steps).Some? && id in Run(s, steps).value.calls
    && Run(s, steps).value.calls[id].at == Finished(result)
  }

  /** `steps` can follow `s`, and leave the call at `at`. */
  ghost predicate Comes(s: State, steps: seq<Step>, id: int, at: Point) {
    && Run(s, steps).Some? && Inv(Run(s, steps).value) && id in s.calls && id in Run(s, steps).value.calls
    && Run(s, steps).value.calls[id] == s.calls[id].(at := at)
  }

  lemma OneMore(s: State, steps: seq<Step>, step: Step)
    requires Run(s, steps).Some? && Inv(Run(s, steps).value) && Apply(Run(s, steps).value, step).Some?
    ensures Run(s, steps + [step]) == Apply(Run(s, steps).value, step) && Inv(Run(s, steps + [step]).value)
  {
    assert (steps + [step])[..|steps|] == steps;
    StepInv(Run(s, steps).value, step);
  }

  lemma ReleaseEnds(s: State, steps: seq<Step>, id: int, at: Point)
    requires at.Releasing? && Comes(s, steps, id, at)
    ensures Ends(s, steps + [Release(id)], id, at.result)
  {
    hide Run, Settled, LockOk, ConnectionOk, Apart;
    var t := Run(s, steps).value;
    assert CallOk(t, id);
    OneMore(s, steps, Release(id));
  }

  /** A call with a lease gets a connection of its own. */
  lemma NewConnection(s: State, id: int)
    requires Inv(s) && id in s.calls && s.calls[id].at.Reserving?
    ensures var at := Leased(s.calls[id].at.lease, s.nextSession);
            Comes(s, [Reserved(id, None)], id, at) && s.nextSession in Run(s, [Reserved(id, None)]).value.connections
    ensures Run(s, [Reserved(id, None)]).value.locks == s.locks
  {
    hide Apart, LockOk, ConnectionOk;
    assert CallOk(s, id);
    assert Run(s, []) == Some(s);
    OneMore(s, [], Reserved(id, None));
    assert [] + [Reserved(id, None)] == [Reserved(id, None)];
  }

  /** Or an idle one of its lease's generation. */
  lemma ReusesIdle(s: State, id: int, x: Session)
    requires Reachable(s) && id in s.calls && s.calls[id].at.Reserving? && x in s.connections
    requires s.connections[x].idle && s.connections[x].replica == s.calls[id].replica
    requires s.calls[id].replica in s.clients && s.calls[id].at.lease in s.clients[s.calls[id].replica].leases
    requires s.connections[x].generation == s.clients[s.calls[id].replica].leases[s.calls[id].at.lease]
    ensures Comes(s, [Reserved(id, Some(x))], id, Leased(s.calls[id].at.lease, x))
    ensures !Run(s, [Reserved(id, Some(x))]).value.connections[x].idle
  {
    ReachableInv(s);
    hide Apart, LockOk, ConnectionOk, Reachable;
    assert CallOk(s, id);
    assert Run(s, []) == Some(s);
    OneMore(s, [], Reserved(id, Some(x)));
    assert [] + [Reserved(id, Some(x))] == [Reserved(id, Some(x))];
  }

  /** The lock asked for: granted where nobody holds it, since no open connection but the new one is this call's. */
  lemma AsksForLock(s: State, id: int)
    requires Inv(s) && id in s.calls && s.calls[id].at.Reserving?
    ensures var lease, x := s.calls[id].at.lease, s.nextSession;
            var steps := [Reserved(id, None), LockAnswers(id)];
            if s.calls[id].hash in s.locks then Comes(s, steps, id, Releasing(lease, x, true, Busy))
            else Comes(s, steps, id, Running(lease, x)) && x in Run(s, steps).value.connections
  {
    NewConnection(s, id);
    assert s.calls[id].hash in s.locks ==>
      LockOk(s, s.calls[id].hash) && ConnectionOk(s, s.locks[s.calls[id].hash].session);
    hide Run, Inv, CallOk, Apart, LockOk;
    OneMore(s, [Reserved(id, None)], LockAnswers(id));
    assert [Reserved(id, None)] + [LockAnswers(id)] == [Reserved(id, None), LockAnswers(id)];
  }

  /** The test over and its unlock sent: done, or failed whether or not it took effect. */
  lemma Unlocks(s: State, steps: seq<Step>, id: int, lease: int, x: Session, executed: bool)
    requires Comes(s, steps, id, Running(lease, x)) && x in Run(s, steps).value.connections
    ensures Comes(s, steps + [TestEnds(id), UnlockAnswers(id)], id, Releasing(lease, x, true, Value))
    ensures Comes(s, steps + [TestEnds(id), UnlockFails(id, executed)], id, Releasing(lease, x, false, Value))
  {
    hide Run, Inv, CallOk, Apart, LockOk, ConnectionOk;
    OneMore(s, steps, TestEnds(id));
    OneMore(s, steps + [TestEnds(id)], UnlockAnswers(id));
    OneMore(s, steps + [TestEnds(id)], UnlockFails(id, executed));
    assert steps + [TestEnds(id), UnlockAnswers(id)] == steps + [TestEnds(id)] + [UnlockAnswers(id)];
    assert steps + [TestEnds(id), UnlockFails(id, executed)] == steps + [TestEnds(id)] + [UnlockFails(id, executed)];
  }

  /**
   * A call in any reachable state that has its lease can go its way to an end, and how it ends: the test's
   * value where nobody holds its lock, even where the unlock fails; busy where somebody does; unreachable
   * where no connection or no answer to the lock comes.
   */
  lemma CallEnds(s: State, id: int, executed: bool)
    requires Reachable(s) && id in s.calls && s.calls[id].at.Reserving?
    ensures Ends(s, [ReserveFails(id)], id, Unreachable)
    ensures Ends(s, [Reserved(id, None), LockFails(id, executed), Release(id)], id, Unreachable)
    ensures s.calls[id].hash in s.locks ==> Ends(s, [Reserved(id, None), LockAnswers(id), Release(id)], id, Busy)
    ensures s.calls[id].hash !in s.locks ==>
              var starts := [Reserved(id, None), LockAnswers(id)];
              && Ends(s, starts + [TestEnds(id), UnlockAnswers(id)] + [Release(id)], id, Value)
              && Ends(s, starts + [TestEnds(id), UnlockFails(id, executed)] + [Release(id)], id, Value)
  {
    ReachableInv(s);
    AsksForLock(s, id);
    LosesLock(s, id, executed);
    var lease, x := s.calls[id].at.lease, s.nextSession;
    var starts := [Reserved(id, None), LockAnswers(id)];
    hide Run, Inv, Comes, Ends;
    if s.calls[id].hash in s.locks {
      ReleaseEnds(s, starts, id, Releasing(lease, x, true, Busy));
      assert starts + [Release(id)] == [Reserved(id, None), LockAnswers(id), Release(id)];
    } else {
      Unlocks(s, starts, id, lease, x, executed);
      ReleaseEnds(s, starts + [TestEnds(id), UnlockAnswers(id)], id, Releasing(lease, x, true, Value));
      ReleaseEnds(s, starts + [TestEnds(id), UnlockFails(id, executed)], id, Releasing(lease, x, false, Value));
    }
  }

  lemma ReserveFailsEnds(s: State, id: int)
    requires Inv(s) && id in s.calls && s.calls[id].at.Reserving?
    ensures Ends(s, [ReserveFails(id)], id, Unreachable)
  {
    hide Settled, Apart, LockOk, ConnectionOk;
    assert CallOk(s, id) && Run(s, []) == Some(s);
    OneMore(s, [], ReserveFails(id));
    assert [] + [ReserveFails(id)] == [ReserveFails(id)];
  }

  lemma LosesLock(s: State, id: int, executed: bool)
    requires Inv(s) && id in s.calls && s.calls[id].at.Reserving?
    ensures Ends(s, [ReserveFails(id)], id, Unreachable)
    ensures Ends(s, [Reserved(id, None), LockFails(id, executed), Release(id)], id, Unreachable)
  {
    ReserveFailsEnds(s, id);
    NewConnection(s, id);
    hide Run, Inv, CallOk, Apart, LockOk, ConnectionOk;
    var steps := [Reserved(id, None)] + [LockFails(id, executed)];
    OneMore(s, [Reserved(id, None)], LockFails(id, executed));
    ReleaseEnds(s, steps, id, Releasing(s.calls[id].at.lease, s.nextSession, false, Unreachable));
    assert steps + [Release(id)] == [Reserved(id, None), LockFails(id, executed), Release(id)];
  }

  /* ---- when a second test starts ---- */

  /** A test of a's key, not running at `s`, runs at `t` beside a. */
  ghost predicate SecondBeside(s: State, t: State, a: int)
    requires a in s.calls
  {
    && a in t.calls && t.calls[a].at.Running?
    && exists b :: b in t.calls && b != a && Starts(s, t, b, s.calls[a].hash)
  }

  ghost predicate Starts(s: State, t: State, b: int, hash: Hash)
    requires b in t.calls
  {
    t.calls[b].at.Running? && t.calls[b].hash == hash && !(b in s.calls && s.calls[b].at.Running?)
  }

  ghost predicate Past(call: Call) {
    call.at.Unlocking? || call.at.Releasing? || call.at.Finished?
  }

  /** a is over, or runs as it did on its open connection with no test of its key started since `s`. */
  ghost predicate Alone(s: State, t: State, a: int)
    requires a in s.calls
  {
    && a in t.calls
    && (Past(t.calls[a])
        || (t.calls[a] == s.calls[a] && t.calls[a].at.Running? && t.calls[a].at.session in t.connections
            && forall b :: b in t.calls && b != a ==> !Starts(s, t, b, s.calls[a].hash)))
  }

  /** A call's connection stays open but for its own dropping. */
  lemma OpenStays(t: State, step: Step, a: int)
    requires Inv(t) && Apply(t, step).Some?
    requires a in t.calls && t.calls[a].at.Running? && t.calls[a].at.session in t.connections
    requires step != Dies(t.calls[a].at.session)
    ensures var u := Apply(t, step).value;
            a in u.calls && (u.calls[a] == t.calls[a] ==> t.calls[a].at.session in u.connections)
  {
    hide Valid, LockOk;
    assert CallOk(t, a);
    if step.ReserveFails? || step.Release? {
      var id := step.call;
      assert CallOk(t, id) && (id != a ==> Apart(t, a, id));
      SettledValid(t.clients[t.calls[id].replica], t.calls[id].at.lease, step.Release? && !t.calls[id].at.healthy);
      SettledLease(t.clients[t.calls[id].replica], t.calls[id].at.lease, step.Release? && !t.calls[id].at.healthy);
    }
  }

  /** The leases left keep their generations. */
  lemma SettledLease(c: Client, lease: int, retire: bool)
    requires Valid(c) && lease in c.leases
    ensures var after := Settled(c, lease, retire);
            forall l :: l in c.leases && l != lease ==>
              l in after.leases && after.leases[l] == c.leases[l] && c.leases[l] in after.all
  {
    SettledValid(c, lease, retire);
    var after := Settled(c, lease, retire);
    assert LeasesOk(after);
    forall l | l in c.leases && l != lease
      ensures l in after.leases && after.leases[l] == c.leases[l] && c.leases[l] in after.all
    {
      assert l in after.leases;
    }
  }

  lemma AloneStep(s: State, t: State, step: Step, a: int)
    requires Inv(t) && Apply(t, step).Some? && a in s.calls && s.calls[a].at.Running? && Alone(s, t, a)
    requires step != Dies(s.calls[a].at.session)
    ensures Alone(s, Apply(t, step).value, a)
  {
    hide Valid, LockOk;
    var u := Apply(t, step).value;
    if !Past(t.calls[a]) {
      OpenStays(t, step, a);
      hide Usable, AfterSettle, WithClient;
      assert CallOk(t, a);
      forall b | b in u.calls && b != a && u.calls[a] == s.calls[a]
        ensures !Starts(s, u, b, s.calls[a].hash)
      {
        if b in t.calls {
          assert Apart(t, a, b);
        }
      }
    }
  }

  lemma {:induction false} AloneRun(s: State, steps: seq<Step>, a: int)
    requires Inv(s) && Run(s, steps).Some? && a in s.calls && s.calls[a].at.Running?
    requires s.calls[a].at.session in s.connections && Spares(steps, {s.calls[a].at.session})
    ensures Alone(s, Run(s, steps).value, a)
  {
    hide Inv, Apply;
    if steps != [] {
      var n := |steps| - 1;
      assert Spares(steps[..n], {s.calls[a].at.session}) by {
        assert forall i :: 0 <= i < n ==> steps[..n][i] == steps[i];
      }
      AloneRun(s, steps[..n], a);
      RunInv(s, steps[..n]);
      assert steps[n].Dies? ==> steps[n].session !in {s.calls[a].at.session};
      AloneStep(s, Run(s, steps[..n]).value, steps[n], a);
    }
  }

  /**
   * Exactly when the lock fails: beside a running test whose own connection does not drop from here on,
   * another of its key can start if and only if that connection is closed already.
   */
  lemma SecondTestIff(s: State, a: int)
    requires Reachable(s) && a in s.calls && s.calls[a].at.Running?
    ensures (exists t :: Continues(s, t, {s.calls[a].at.session}) && SecondBeside(s, t, a))
       <==> s.calls[a].at.session !in s.connections
  {
    ReachableInv(s);
    var x := s.calls[a].at.session;
    if x in s.connections {
      forall t | Continues(s, t, {x})
        ensures !SecondBeside(s, t, a)
      {
        var steps :| Spares(steps, {x}) && Run(s, steps) == Some(t);
        AloneRun(s, steps, a);
      }
    } else {
      var t := SecondStarts(s, a);
    }
  }

  /** Where a's connection is closed: whoever holds the lock drops, and a new replica's test starts. */
  lemma SecondStarts(s: State, a: int) returns (t: State)
    requires Inv(s) && a in s.calls && s.calls[a].at.Running? && s.calls[a].at.session !in s.connections
    ensures Continues(s, t, {s.calls[a].at.session}) && SecondBeside(s, t, a)
  {
    hide Valid, Continues, Apply;
    var x, hash := s.calls[a].at.session, s.calls[a].hash;
    StaysPut(s, {x});
    var free := FreeLock(s, hash, {x});
    var r := Unused(free.clients.Keys);
    var id := Unused(free.calls.Keys);
    Joined(free, r);
    var joined := Fire(s, free, {x}, Join(r));
    t := FireTest(s, joined, {x}, id, r, hash);
    assert Starts(s, t, id, hash);
  }

  lemma Joined(s: State, r: int)
    requires r !in s.clients
    ensures Apply(s, Join(r)) == Some(s.(clients := s.clients[r := EMPTY]))
  {
  }

  /** Its holder's connection drops. */
  lemma FreeLock(s: State, hash: Hash, spared: set<Session>) returns (t: State)
    requires Inv(s) && spared !! s.connections.Keys
    ensures Continues(s, t, spared) && hash !in t.locks && t.calls == s.calls
  {
    hide Valid, Continues;
    StaysPut(s, spared);
    t := s;
    if hash in s.locks {
      assert LockOk(s, hash);
      t := Fire(s, s, spared, Dies(s.locks[hash].session));
    }
  }

  lemma {:induction false} Above(s: set<int>) returns (k: int)
    ensures forall x :: x in s ==> x < k
    decreases |s|
  {
    if |s| > 0 {
      var x := Member(s);
      var below := Above(s - {x});
      k := if below > x then below else x + 1;
      forall y | y in s
        ensures y < k
      {
        assert y == x || y in s - {x};
      }
    } else {
      k := 0;
      assert s == {};
    }
  }

  lemma Unused(s: set<int>) returns (k: int)
    ensures k !in s
  {
    k := Above(s);
  }

  lemma StaysPut(s: State, spared: set<Session>)
    ensures Continues(s, s, spared)
  {
    assert Spares([], spared) && Run(s, []) == Some(s);
  }

  lemma Fire(from: State, s: State, spared: set<Session>, step: Step) returns (t: State)
    requires Continues(from, s, spared) && Apply(s, step).Some?
    requires step.Dies? ==> step.session !in spared
    ensures Apply(s, step) == Some(t) && Continues(from, t, spared)
  {
    hide Apply;
    t := Apply(s, step).value;
    var steps :| Spares(steps, spared) && Run(from, steps) == Some(s);
    assert (steps + [step])[..|steps|] == steps;
    assert Spares(steps + [step], spared) && Run(from, steps + [step]) == Some(t);
  }

  /** A first call of a replica takes a lease and a new connection. */
  lemma FireLease(from: State, s: State, spared: set<Session>, id: int, replica: int, hash: Hash) returns (t: State)
    requires Continues(from, s, spared) && id !in s.calls && replica in s.clients && s.clients[replica] == EMPTY
    ensures Continues(from, t, spared) && t.locks == s.locks && t.nextSession == s.nextSession + 1
    ensures t.calls == s.calls[id := Call(replica, hash, Leased(0, s.nextSession))]
    ensures t.connections == s.connections[s.nextSession := Connection(replica, 0, false)]
    ensures t.clients == s.clients[replica := Taken(EMPTY)]
  {
    hide Continues, Valid;
    EmptyValid();
    TakenValid(EMPTY);
    var a := Fire(from, s, spared, Take(id, replica, hash));
    assert a == s.(clients := s.clients[replica := Taken(EMPTY)],
                   calls := s.calls[id := Call(replica, hash, Reserving(0))]);
    t := Fire(from, a, spared, Reserved(id, None));
  }

  /** And the lock, when it is free. */
  lemma FireTest(from: State, s: State, spared: set<Session>, id: int, replica: int, hash: Hash) returns (t: State)
    requires Continues(from, s, spared) && id !in s.calls && hash !in s.locks
    requires replica in s.clients && s.clients[replica] == EMPTY
    ensures Continues(from, t, spared) && t.nextSession == s.nextSession + 1
    ensures t.calls == s.calls[id := Call(replica, hash, Running(0, s.nextSession))]
    ensures t.connections == s.connections[s.nextSession := Connection(replica, 0, false)]
    ensures t.clients == s.clients[replica := Taken(EMPTY)]
    ensures t.locks == s.locks[hash := Grant(s.nextSession, 1)]
  {
    hide Continues, Valid, Taken;
    var a := FireLease(from, s, spared, id, replica, hash);
    t := Fire(from, a, spared, LockAnswers(id));
    assert t.calls == s.calls[id := Call(replica, hash, Running(0, s.nextSession))];
  }

  lemma EmptyValid()
    ensures Valid(EMPTY) && !Full(EMPTY)
  {
  }

  /**
   * The lock goes with its session: where a test's connection drops, Postgres frees the lock, and a
   * second test of the key starts while the first still runs.
   */
  lemma DroppedConnectionFreesTheLock(hash: Hash) returns (s: State)
    ensures Reachable(s) && 1 in s.calls && 2 in s.calls
    ensures s.calls[1].at.Running? && s.calls[2].at.Running? && s.calls[1].hash == s.calls[2].hash == hash
    ensures s.calls[1].at.session !in s.connections
  {
    hide Continues;
    StaysPut(START, {});
    var a := Fire(START, START, {}, Join(0));
    var b := Fire(START, a, {}, Join(1));
    var c := FireTest(START, b, {}, 1, 0, hash);
    var d := Fire(START, c, {}, Dies(0));
    assert hash !in d.locks;
    s := FireTest(START, d, {}, 2, 1, hash);
    ContinuesReachable(s);
  }

  lemma ContinuesReachable(s: State)
    requires Continues(START, s, {})
    ensures Reachable(s)
  {
  }
}
