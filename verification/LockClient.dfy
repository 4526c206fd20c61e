/** The lock connections of one replica: `createLockClient` of agent/src/db.ts. */
module LockClients {
  import opened Wrappers

  const TEST_LOCK_CONNECTIONS := 4

  /** A postgres.js client: its leases out, and whether a lease was done unhealthy. */
  datatype Generation = Generation(out: nat, retired: bool)

  /**
   * What the client holds: `leases` maps each lease not yet done to its generation, `ended` lists
   * the generations whose connections were closed, in order, and `made` counts those made.
   */
  datatype Client = Client(
    held: nat, current: Option<int>, all: map<int, Generation>, made: int,
    leases: map<int, int>, taken: int, ended: seq<int>)

  const EMPTY := Client(0, None, map[], 0, map[], 0, [])

  predicate Full(c: Client) {
    c.held >= TEST_LOCK_CONNECTIONS
  }

  /** `take` up to its `reserve`: lease `c.taken`, of the current generation or a new one. */
  function Taken(c: Client): Client {
    var gen := if c.current.Some? then c.current.value else c.made;
    var before := if gen in c.all then c.all[gen] else Generation(0, false);
    Client(c.held + 1, Some(gen), c.all[gen := before.(out := before.out + 1)],
           if c.current.Some? then c.made else c.made + 1,
           c.leases[c.taken := gen], c.taken + 1, c.ended)
  }

  /** A lease settled: its generation, when retired and without leases, ends. */
  ghost function Settled(c: Client, lease: int, retire: bool): Client
    requires Valid(c) && lease in c.leases
  {
    LeasedAlive(c, lease);
    var id := c.leases[lease];
    var gen := Generation(c.all[id].out - 1, c.all[id].retired || retire);
    var ends := gen.retired && gen.out == 0;
    c.(held := c.held - 1,
       current := if retire && c.current == Some(id) then None else c.current,
       all := if ends then c.all - {id} else c.all[id := gen],
       leases := c.leases - {lease},
       ended := if ends then c.ended + [id] else c.ended)
  }

  ghost function LeasesOf(leases: map<int, int>, gen: int): set<int> {
    set l | l in leases && leases[l] == gen
  }

  ghost function RetiredAlive(c: Client): set<int> {
    set g | g in c.all && c.all[g].retired
  }

  ghost predicate GenerationOk(c: Client, g: int)
    requires g in c.all
  {
    && g < c.made
    && c.all[g].out == |LeasesOf(c.leases, g)|
    && (c.all[g].retired ==> c.all[g].out > 0)
    && (!c.all[g].retired ==> c.current == Some(g))
  }

  ghost predicate LeasesOk(c: Client) {
    && c.held == |c.leases| <= TEST_LOCK_CONNECTIONS
    && forall l :: l in c.leases ==> l < c.taken && c.leases[l] in c.all
  }

  ghost predicate GenerationsOk(c: Client) {
    && (forall g :: g in c.all ==> GenerationOk(c, g))
    && (c.current.Some? ==> c.current.value in c.all && !c.all[c.current.value].retired)
  }

  ghost predicate EndedOk(c: Client) {
    && (forall i :: 0 <= i < |c.ended| ==> c.ended[i] < c.made && c.ended[i] !in c.all)
    && (forall i, j :: 0 <= i < j < |c.ended| ==> c.ended[i] != c.ended[j])
    && (forall g :: 0 <= g < c.made ==> g in c.all || g in c.ended)
  }

  /**
   * The accounting: the leases held are the generations' together and at most four, one
   * generation at most is unretired, each other one still alive has a lease out and there are
   * at most three of them, and each that ended did so once and is not used again.
   */
  ghost predicate Valid(c: Client) {
    && LeasesOk(c)
    && GenerationsOk(c)
    && EndedOk(c)
    && |RetiredAlive(c)| <= 3
  }

  lemma Member<T>(s: set<T>) returns (x: T)
    requires |s| > 0
    ensures x in s
  {
    x :| x in s;
  }

  lemma {:induction false} ImageBound<K, V>(leases: map<K, V>, image: set<V>)
    requires forall g :: g in image ==> exists l :: l in leases && leases[l] == g
    ensures |image| <= |leases|
    decreases |image|
  {
    if image != {} {
      var g :| g in image;
      var l :| l in leases && leases[l] == g;
      var rest := map k | k in leases && leases[k] != g :: leases[k];
      forall h | h in image - {g}
        ensures exists k :: k in rest && rest[k] == h
      {
        assert h in image;
        var k :| k in leases && leases[k] == h;
        assert k in rest;
      }
      ImageBound(rest, image - {g});
      Subset(rest.Keys, leases.Keys - {l});
    }
  }

  lemma LeasesAdded(leases: map<int, int>, lease: int, gen: int, g: int)
    requires lease !in leases
    ensures |LeasesOf(leases[lease := gen], g)| == |LeasesOf(leases, g)| + if g == gen then 1 else 0
  {
    assert LeasesOf(leases[lease := gen], g) == LeasesOf(leases, g) + if g == gen then {lease} else {};
  }

  lemma LeasesRemoved(leases: map<int, int>, lease: int, g: int)
    requires lease in leases
    ensures |LeasesOf(leases - {lease}, g)| == |LeasesOf(leases, g)| - if g == leases[lease] then 1 else 0
  {
    assert LeasesOf(leases - {lease}, g)
      == LeasesOf(leases, g) - if g == leases[lease] then {lease} else {};
  }

  lemma TakenGeneration(c: Client, g: int)
    requires LeasesOk(c) && GenerationsOk(c) && g in Taken(c).all
    ensures GenerationOk(Taken(c), g)
  {
    LeasesAdded(c.leases, c.taken, Taken(c).leases[c.taken], g);
    if g in c.all {
      assert GenerationOk(c, g);
    } else {
      assert forall l :: l in c.leases ==> c.leases[l] in c.all;
      assert LeasesOf(c.leases, g) == {};
    }
  }

  lemma TakenLeases(c: Client)
    requires LeasesOk(c) && !Full(c)
    ensures LeasesOk(Taken(c))
  {
  }

  lemma TakenEnded(c: Client)
    requires EndedOk(c) && GenerationsOk(c)
    ensures EndedOk(Taken(c))
  {
  }

  lemma TakenRetired(c: Client)
    requires GenerationsOk(c)
    ensures RetiredAlive(Taken(c)) == RetiredAlive(c)
  {
  }

  lemma TakenValid(c: Client)
    requires Valid(c) && !Full(c)
    ensures Valid(Taken(c))
    ensures c.taken !in c.leases && Taken(c).current == Some(Taken(c).leases[c.taken])
  {
    TakenLeases(c);
    TakenEnded(c);
    TakenRetired(c);
    forall g | g in Taken(c).all ensures GenerationOk(Taken(c), g) { TakenGeneration(c, g); }
    hide EndedOk, LeasesOk, RetiredAlive;
  }

  lemma LeasedAlive(c: Client, lease: int)
    requires Valid(c) && lease in c.leases
    ensures c.leases[lease] in c.all && c.all[c.leases[lease]].out > 0 && c.held > 0
  {
    assert GenerationOk(c, c.leases[lease]);
    Subset({lease}, LeasesOf(c.leases, c.leases[lease]));
    Subset({lease}, c.leases.Keys);
  }

  lemma SettledGenerations(c: Client, lease: int, retire: bool)
    requires Valid(c) && lease in c.leases
    ensures GenerationsOk(Settled(c, lease, retire))
  {
    var id, d := c.leases[lease], Settled(c, lease, retire);
    assert GenerationOk(c, id);
    forall g | g in d.all
      ensures GenerationOk(d, g)
    {
      assert GenerationOk(c, g);
      LeasesRemoved(c.leases, lease, g);
    }
  }

  lemma SettledLeases(c: Client, lease: int, retire: bool)
    requires Valid(c) && lease in c.leases
    ensures LeasesOk(Settled(c, lease, retire))
  {
    var id, d := c.leases[lease], Settled(c, lease, retire);
    assert GenerationOk(c, id);
    assert d.leases.Keys == c.leases.Keys - {lease};
    forall l | l in d.leases
      ensures d.leases[l] in d.all
    {
      if d.leases[l] == id {
        assert LeasesOf(c.leases, id) == {l} + (LeasesOf(c.leases, id) - {l});
        Subset({l, lease}, LeasesOf(c.leases, id));
      }
    }
  }

  lemma SettledValid(c: Client, lease: int, retire: bool)
    requires Valid(c) && lease in c.leases
    ensures Valid(Settled(c, lease, retire))
  {
    SettledGenerations(c, lease, retire);
    SettledLeases(c, lease, retire);
    LeasedAlive(c, lease);
    var d := Settled(c, lease, retire);
    assert GenerationOk(c, c.leases[lease]);
    forall g | g in RetiredAlive(d)
      ensures exists l :: l in d.leases && d.leases[l] == g
    {
      assert GenerationOk(d, g);
      var l := Member(LeasesOf(d.leases, g));
    }
    ImageBound(d.leases, RetiredAlive(d));
  }

  /* ---- over any sequence of calls ---- */

  datatype Op = TakeOne | FailReserve(lease: int) | Finish(lease: int, healthy: bool)

  ghost function AfterOp(c: Client, op: Op): (d: Client)
    requires Valid(c)
    ensures Valid(d)
  {
    match op
    case TakeOne => if Full(c) then c else (TakenValid(c); Taken(c))
    case FailReserve(lease) =>
      if lease in c.leases then (SettledValid(c, lease, false); Settled(c, lease, false)) else c
    case Finish(lease, healthy) =>
      if lease in c.leases then (SettledValid(c, lease, !healthy); Settled(c, lease, !healthy)) else c
  }

  ghost function AfterOps(c: Client, ops: seq<Op>): (d: Client)
    requires Valid(c)
    ensures Valid(d)
    decreases |ops|
  {
    if ops == [] then c else AfterOps(AfterOp(c, ops[0]), ops[1..])
  }

  /** A generation that is not the current one is given to no lease again. */
  lemma NotCurrentStep(c: Client, g: int, op: Op)
    requires Valid(c) && g < c.made && c.current != Some(g)
    ensures var d := AfterOp(c, op);
            && g < d.made && d.current != Some(g)
            && forall l :: l in d.leases && d.leases[l] == g ==> l in c.leases && c.leases[l] == g
  {
  }

  lemma {:induction false} NotCurrentAgain(c: Client, g: int, ops: seq<Op>)
    requires Valid(c) && g < c.made && c.current != Some(g)
    ensures var d := AfterOps(c, ops);
            && g < d.made && d.current != Some(g)
            && forall l :: l in d.leases && d.leases[l] == g ==> l in c.leases && c.leases[l] == g
    decreases |ops|
  {
    hide Valid, AfterOp;
    if ops != [] {
      NotCurrentStep(c, g, ops[0]);
      NotCurrentAgain(AfterOp(c, ops[0]), g, ops[1..]);
    }
  }

  /** Made and not current: while it has a lease it is there, and after its last it has ended. */
  lemma EndsWithLastLease(d: Client, g: int)
    requires Valid(d) && 0 <= g < d.made && d.current != Some(g)
    requires forall l :: l in d.leases ==> d.leases[l] != g
    ensures g in d.ended && g !in d.all
  {
    NoLeases(d.leases, g);
    assert g in d.all ==> GenerationOk(d, g);
  }

  lemma NoLeases(leases: map<int, int>, g: int)
    requires forall l :: l in leases ==> leases[l] != g
    ensures LeasesOf(leases, g) == {}
  {
    assert forall l :: l !in LeasesOf(leases, g);
  }

  lemma UnhealthyNotCurrent(c: Client, lease: int)
    requires Valid(c) && lease in c.leases
    ensures var g, d := c.leases[lease], AfterOp(c, Finish(lease, false));
            && g < d.made && d.current != Some(g) && lease !in d.leases
            && forall l :: l in d.leases ==> l in c.leases && d.leases[l] == c.leases[l]
  {
    assert GenerationOk(c, c.leases[lease]);
  }

  /**
   * Once a lease is done unhealthy, whatever follows: no later lease is given its generation, and that has
   * ended, its connections closed, as soon as none of its leases is out.
   */
  lemma RetiredForGood(c: Client, lease: int, ops: seq<Op>)
    requires Valid(c) && lease in c.leases && 0 <= c.leases[lease]
    ensures var g, d := c.leases[lease], AfterOps(AfterOp(c, Finish(lease, false)), ops);
            && (forall l :: l in d.leases && d.leases[l] == g ==> l in c.leases && l != lease && c.leases[l] == g)
            && ((forall l :: l in d.leases ==> d.leases[l] != g) ==> g in d.ended && g !in d.all)
  {
    hide Valid, AfterOp;
    var g, after := c.leases[lease], AfterOp(c, Finish(lease, false));
    var d := AfterOps(after, ops);
    UnhealthyNotCurrent(c, lease);
    NotCurrentAgain(after, g, ops);
    if forall l :: l in d.leases ==> d.leases[l] != g {
      EndsWithLastLease(d, g);
    }
  }

  lemma HealthyStep(c: Client, op: Op)
    requires Valid(c) && !(op.Finish? && !op.healthy)
    ensures var d := AfterOp(c, op);
            && (c.current.Some? ==> d.current == c.current && d.made == c.made)
            && (forall g :: g in d.ended ==> g in c.ended || (g in c.all && c.all[g].retired))
            && (forall g :: g in d.all && d.all[g].retired ==> g in c.all && c.all[g].retired)
  {
    if !op.TakeOne? && op.lease in c.leases {
      NotRetired(c, op.lease);
    }
    hide Valid, Settled;
  }

  lemma NotRetired(c: Client, lease: int)
    requires Valid(c) && lease in c.leases
    ensures var d := Settled(c, lease, false);
            && d.current == c.current && d.made == c.made
            && (forall g :: g in d.ended ==> g in c.ended || (g in c.all && c.all[g].retired))
            && (forall g :: g in d.all && d.all[g].retired ==> g in c.all && c.all[g].retired)
  {
    LeasedAlive(c, lease);
    hide Valid;
  }

  /** While every lease is done healthy, or only its reservation fails, one client serves and none is retired. */
  lemma {:induction false} HealthyKeeps(c: Client, ops: seq<Op>)
    requires Valid(c) && forall op :: op in ops ==> !(op.Finish? && !op.healthy)
    ensures var d := AfterOps(c, ops);
            && (c.current.Some? ==> d.current == c.current && d.made == c.made)
            && (forall g :: g in d.ended ==> g in c.ended || (g in c.all && c.all[g].retired))
            && (forall g :: g in d.all && d.all[g].retired ==> g in c.all && c.all[g].retired)
    decreases |ops|
  {
    hide Valid, AfterOp;
    if ops != [] {
      assert ops[0] in ops && forall op :: op in ops[1..] ==> op in ops;
      HealthyStep(c, ops[0]);
      HealthyKeeps(AfterOp(c, ops[0]), ops[1..]);
    }
  }

  class LockClient {
    var held: nat
    var current: Option<int>
    var all: map<int, Generation>
    var made: int
    var leases: map<int, int>
    var taken: int
    ghost var ended: seq<int>

    ghost function Value(): Client
      reads this
    {
      Client(held, current, all, made, leases, taken, ended)
    }

    constructor ()
      ensures Value() == EMPTY && Valid(Value())
    {
      held, current, all, made, leases, taken, ended := 0, None, map[], 0, map[], 0, [];
      new;
      assert RetiredAlive(Value()) == {};
    }

    /** `take` until its connection is reserved: None when every lease is out. */
    method Take() returns (lease: Option<int>)
      requires Valid(Value())
      modifies this
      ensures Valid(Value())
      ensures lease == if Full(old(Value())) then None else Some(old(taken))
      ensures Value() == if lease.None? then old(Value()) else Taken(old(Value()))
    {
      if held >= TEST_LOCK_CONNECTIONS {
        return None;
      }
      TakeOne();
      lease := Some(taken - 1);
    }

    method TakeOne()
      requires Valid(Value()) && !Full(Value())
      modifies this
      ensures Valid(Value()) && Value() == Taken(old(Value()))
    {
      ghost var was := Value();
      hide Valid, Full;
      var gen := if current.Some? then current.value else made;
      var state := if gen in all then all[gen] else Generation(0, false);
      held := held + 1;
      made := if current.Some? then made else made + 1;
      current := Some(gen);
      all := all[gen := state.(out := state.out + 1)];
      leases := leases[taken := gen];
      taken := taken + 1;
      assert Value() == Taken(was);
      hide Taken;
      TakenValid(was);
    }

    /** The reservation failed: the lease is given back and its generation stays. */
    method ReserveFailed(lease: int)
      requires Valid(Value()) && lease in leases
      modifies this
      ensures Valid(Value()) && lease !in leases
      ensures Value() == Settled(old(Value()), lease, false)
    {
      Settle(lease, false);
    }

    /** `done`: called again it does nothing; unhealthy, it retires the lease's generation. */
    method Done(lease: int, healthy: bool)
      requires Valid(Value())
      modifies this
      ensures Valid(Value()) && lease !in leases
      ensures Value() ==
        if lease in old(leases) then Settled(old(Value()), lease, !healthy) else old(Value())
    {
      if lease in leases {
        Settle(lease, !healthy);
      }
    }

    /** `settle` with what `done` did before it: a retired client ends with its last lease. */
    method Settle(lease: int, retire: bool)
      requires Valid(Value()) && lease in leases
      modifies this
      ensures Valid(Value()) && lease !in leases
      ensures Value() == Settled(old(Value()), lease, retire)
    {
      SettledValid(Value(), lease, retire);
      LeasedAlive(Value(), lease);
      ghost var next := Settled(Value(), lease, retire);
      hide Valid, LeasesOk, GenerationsOk, EndedOk, RetiredAlive, GenerationOk, LeasesOf;
      var id := leases[lease];
      var gen := Generation(all[id].out - 1, all[id].retired || retire);
      var ends := gen.retired && gen.out == 0;
      held := held - 1;
      current := if retire && current == Some(id) then None else current;
      all := if ends then all - {id} else all[id := gen];
      leases := leases - {lease};
      ended := if ends then ended + [id] else ended;
      assert Value() == next;
    }
  }
}
