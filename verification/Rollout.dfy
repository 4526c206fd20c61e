/**
 * Making a build current (backend/scadbuddy/worker.py): the retry loops of any number of
 * replicas over one deployment, whose conflict token changes with every change of its routing.
 */
module Rollout {
  import opened Wrappers

  type Build = string
  type Id = string

  /** What the loop compares later reads with: its first read that succeeded, and the token of it. */
  datatype Before = Unread | Read(build: Option<Build>, token: nat)

  datatype Point = Reading | Writing | Made | GaveUp | Cancelled

  /** One `make_current_until_polled`; `token` is `deployment_writes`'s, None before a read. */
  datatype Loop = Loop(build: Build, before: Before, token: Option<nat>, at: Point)

  /** A write that took effect, what it replaced, and what its loop had read first. */
  datatype Effect = Effect(build: Build, replaced: Option<Build>, before: Before)

  /** `routed` is every current build there was, the present one last; its length is the token. */
  datatype State = State(routed: seq<Option<Build>>, loops: map<Id, Loop>, effects: seq<Effect>)
  {
    ghost predicate Valid() {
      |routed| > 0
    }

    function Current(): Option<Build>
      requires |routed| > 0
    {
      routed[|routed| - 1]
    }
  }

  /** How a write fares: refused or lost on the way, or taken; `Unheard` is taken, the answer lost. */
  datatype Fate = Lost | Taken | Unheard

  datatype Step =
    | Launch(id: Id, build: Build)
    | ReadRouting(id: Id, answered: bool)
    | WriteRouting(id: Id, fate: Fate)
    | Cancel(id: Id)
    | Reroute(to: Option<Build>)

  /** A build that the loop does not take the deployment from. */
  predicate TakenOver(l: Loop, now: Option<Build>)
    requires l.before.Read?
  {
    now != None && now != Some(l.build) && now != l.before.build
  }

  /** The loop after a read, its decision included. */
  function AfterRead(s: State, l: Loop, answered: bool): Loop
    requires s.Valid()
  {
    if !answered then l.(at := Writing)
    else if l.before.Unread? then
      l.(before := Read(s.Current(), |s.routed|), token := Some(|s.routed|), at := Writing)
    else if TakenOver(l, s.Current()) then l.(token := Some(|s.routed|), at := GaveUp)
    else l.(token := Some(|s.routed|), at := Writing)
  }

  /** Temporal refuses a write whose token is not the present one; without one it takes any. */
  predicate Refused(s: State, l: Loop) {
    l.token.Some? && l.token.value != |s.routed|
  }

  function Apply(s: State, step: Step): (r: Option<State>)
    requires s.Valid()
    ensures r.Some? ==> r.value.Valid()
  {
    match step
    case Launch(id, build) =>
      if id in s.loops then None
      else Some(s.(loops := s.loops[id := Loop(build, Unread, None, Reading)]))
    case ReadRouting(id, answered) =>
      if id in s.loops && s.loops[id].at.Reading?
      then Some(s.(loops := s.loops[id := AfterRead(s, s.loops[id], answered)])) else None
    case WriteRouting(id, fate) =>
      if !(id in s.loops && s.loops[id].at.Writing?) then None
      else
        var l := s.loops[id];
        if Refused(s, l) || fate.Lost? then Some(s.(loops := s.loops[id := l.(at := Reading)]))
        else
          Some(s.(routed := s.routed + [Some(l.build)],
                  effects := s.effects + [Effect(l.build, s.Current(), l.before)],
                  loops := s.loops[id := l.(at := if fate.Taken? then Made else Reading)]))
    case Cancel(id) =>
      if id in s.loops then Some(s.(loops := s.loops[id := s.loops[id].(at := Cancelled)])) else None
    case Reroute(to) => Some(s.(routed := s.routed + [to]))
  }

  function Initial(current: Option<Build>): State {
    State([current], map[], [])
  }

  /** The state after `steps`, or None where one of them cannot happen. */
  ghost function Run(current: Option<Build>, steps: seq<Step>): (r: Option<State>)
    ensures r.Some? ==> r.value.Valid()
  {
    if steps == [] then Some(Initial(current))
    else
      match Run(current, steps[..|steps| - 1])
      case None => None
      case Some(s) => Apply(s, steps[|steps| - 1])
  }

  ghost predicate Reachable(s: State) {
    exists current, steps :: Run(current, steps) == Some(s)
  }

  /** What a loop that has read may still replace. */
  ghost predicate MayReplace(l: Loop, build: Option<Build>) {
    l.before.Read? ==> build == None || build == Some(l.build) || build == l.before.build
  }

  ghost predicate BeforeOk(s: State, before: Before) {
    before.Read? ==> 0 < before.token <= |s.routed| && s.routed[before.token - 1] == before.build
  }

  ghost predicate LoopOk(s: State, l: Loop) {
    && BeforeOk(s, l.before)
    && (l.token.Some? <==> l.before.Read?)
    && (l.token.Some? ==> 0 < l.token.value <= |s.routed|)
    && (l.token.Some? && !l.at.GaveUp? && !l.at.Cancelled? ==> MayReplace(l, s.routed[l.token.value - 1]))
  }

  ghost predicate EffectOk(s: State, e: Effect) {
    && BeforeOk(s, e.before)
    && (e.before.Read? ==>
      e.replaced == None || e.replaced == Some(e.build) || e.replaced == e.before.build)
  }

  ghost predicate Inv(s: State) {
    && s.Valid()
    && (forall id :: id in s.loops ==> LoopOk(s, s.loops[id]))
    && (forall i :: 0 <= i < |s.effects| ==> EffectOk(s, s.effects[i]))
  }

  lemma StepInv(s: State, step: Step, s': State)
    requires Inv(s) && Apply(s, step) == Some(s')
    ensures Inv(s')
  {
    forall id | id in s'.loops
      ensures LoopOk(s', s'.loops[id])
    {
      if id in s.loops {
        assert LoopOk(s, s.loops[id]);
      }
    }
    forall i | 0 <= i < |s'.effects|
      ensures EffectOk(s', s'.effects[i])
    {
      if i < |s.effects| {
        assert EffectOk(s, s.effects[i]);
      }
    }
  }

  lemma {:induction false} RunInv(current: Option<Build>, steps: seq<Step>)
    requires Run(current, steps).Some?
    ensures Inv(Run(current, steps).value)
  {
    if steps != [] {
      var before := steps[..|steps| - 1];
      RunInv(current, before);
      StepInv(Run(current, before).value, steps[|steps| - 1], Run(current, steps).value);
    }
  }

  /**
   * In every interleaving: a write that took effect after its loop had read the routing replaced
   * no build, its own, or the one that loop read first. So a replica whose first read came before
   * `newer` was ever current never takes the deployment back from it.
   */
  lemma NeverTakesBack(s: State, i: nat, newer: Build)
    requires Reachable(s) && i < |s.effects| && s.effects[i].before.Read?
    ensures var e := s.effects[i];
      && (e.replaced == None || e.replaced == Some(e.build) || e.replaced == e.before.build)
      && e.before.token <= |s.routed|
      && (newer != e.build && Some(newer) !in s.routed[..e.before.token] ==> e.replaced != Some(newer))
  {
    var current, steps :| Run(current, steps) == Some(s);
    RunInv(current, steps);
    assert EffectOk(s, s.effects[i]);
    var e := s.effects[i];
    assert s.routed[..e.before.token][e.before.token - 1] == e.before.build;
  }

  /* ---- over the steps of a run ---- */

  /** The state after the first `k` steps. */
  ghost function After(current: Option<Build>, steps: seq<Step>, k: nat): (r: State)
    requires Run(current, steps).Some? && k <= |steps|
    ensures r.Valid()
  {
    Prefix(current, steps, k);
    Run(current, steps[..k]).value
  }

  lemma {:induction false} Prefix(current: Option<Build>, steps: seq<Step>, k: nat)
    requires Run(current, steps).Some? && k <= |steps|
    ensures Run(current, steps[..k]).Some?
    ensures k > 0 ==> Run(current, steps[..k - 1]).Some?
    ensures k > 0 ==> Run(current, steps[..k]) == Apply(Run(current, steps[..k - 1]).value, steps[k - 1])
    decreases |steps|
  {
    hide Apply;
    if k == |steps| {
      assert steps[..k] == steps;
    } else {
      Prefix(current, steps[..|steps| - 1], k);
      assert steps[..|steps| - 1][..k] == steps[..k];
      assert k > 0 ==> steps[..|steps| - 1][..k - 1] == steps[..k - 1];
    }
  }

  /** The step at `j` is the first read of the loop `id` that is answered. */
  ghost predicate FirstRead(steps: seq<Step>, j: nat, id: Id) {
    && j < |steps| && steps[j] == ReadRouting(id, true)
    && forall i :: 0 <= i < j ==> steps[i] != ReadRouting(id, true)
  }

  /** Until then the loop has read nothing. */
  lemma {:induction false} NotYetRead(current: Option<Build>, steps: seq<Step>, id: Id)
    requires Run(current, steps).Some? && id in Run(current, steps).value.loops
    requires forall i :: 0 <= i < |steps| ==> steps[i] != ReadRouting(id, true)
    ensures Run(current, steps).value.loops[id].before.Unread?
  {
    if steps != [] {
      var before := steps[..|steps| - 1];
      if id in Run(current, before).value.loops {
        NotYetRead(current, before, id);
      }
    }
  }

  /** What its first read found is what the loop keeps comparing with. */
  lemma {:induction false} KeepsFirst(current: Option<Build>, steps: seq<Step>, j: nat, k: nat, id: Id)
    requires Run(current, steps).Some? && FirstRead(steps, j, id) && j < k <= |steps|
    ensures var found, s := After(current, steps, j), After(current, steps, k);
            id in s.loops && s.loops[id].before == Read(found.Current(), |found.routed|)
    decreases k
  {
    Prefix(current, steps, k);
    var s := After(current, steps, k - 1);
    assert Apply(s, steps[k - 1]) == Some(After(current, steps, k));
    if k == j + 1 {
      NotYetRead(current, steps[..j], id);
    } else {
      KeepsFirst(current, steps, j, k - 1, id);
    }
  }

  /** A write that takes effect had no token, or one that is still good. */
  lemma WriteReplaces(s: State, id: Id, fate: Fate, t: State)
    requires Inv(s) && Apply(s, WriteRouting(id, fate)) == Some(t) && t.routed != s.routed
    ensures id in s.loops && (s.loops[id].before.Read? ==> MayReplace(s.loops[id], s.Current()))
  {
    assert LoopOk(s, s.loops[id]);
  }

  /**
   * In every run: a write of a loop that has had an answer to a read replaces no build, its own, or the one
   * that was current at its first such read. So a build that became current only later is never replaced.
   */
  lemma NeverTakesOver(current: Option<Build>, steps: seq<Step>, j: nat, k: nat, id: Id, fate: Fate, newer: Build)
    requires Run(current, steps).Some? && FirstRead(steps, j, id)
    requires j < k < |steps| && steps[k] == WriteRouting(id, fate)
    requires After(current, steps, k + 1).routed != After(current, steps, k).routed
    ensures var found, s := After(current, steps, j), After(current, steps, k);
            && id in s.loops
            && (s.Current() == None || s.Current() == Some(s.loops[id].build) || s.Current() == found.Current())
            && (newer != s.loops[id].build && Some(newer) !in found.routed ==> s.Current() != Some(newer))
  {
    Prefix(current, steps, k + 1);
    KeepsFirst(current, steps, j, k, id);
    RunInv(current, steps[..k]);
    hide Apply, Inv;
    WriteReplaces(After(current, steps, k), id, fate, After(current, steps, k + 1));
  }

  /* ---- the loop itself ---- */

  /** What meets one RPC of the loop: the steps others take first, and how the RPC fares. */
  datatype Turn = Turn(others: seq<Step>, answered: bool, fate: Fate)

  predicate By(step: Step, id: Id) {
    !step.Reroute? && step.id == id
  }

  /** No other changes the routing meanwhile. */
  ghost predicate Quiet(id: Id, others: seq<Step>) {
    forall step :: step in others ==> By(step, id) || !(step.Reroute? || step.WriteRouting?)
  }

  /** A turn at reading that is answered, and then one at writing whose write is taken. */
  ghost predicate Succeeds(turns: seq<Turn>, read: nat) {
    read % 2 == 0 && read + 1 < |turns| && turns[read].answered && turns[read + 1].fate.Taken?
  }

  class World {
    var s: State

    ghost predicate Valid()
      reads this
    {
      s.Valid() && Reachable(s)
    }

    /** One step of the whole system. */
    method Take(step: Step)
      requires Valid() && Apply(s, step).Some?
      modifies this
      ensures Valid() && Some(s) == Apply(old(s), step)
    {
      ghost var current, steps :| Run(current, steps) == Some(s);
      assert (steps + [step])[..|steps|] == steps;
      assert Run(current, steps + [step]) == Apply(s, step);
      s := Apply(s, step).value;
    }

    /** Whatever the other replicas and operators do meanwhile. */
    method Interfere(id: Id, others: seq<Step>)
      requires Valid() && id in s.loops
      modifies this
      ensures Valid() && id in s.loops && s.loops[id] == old(s.loops[id])
      ensures old(s.routed) <= s.routed
      ensures Quiet(id, others) ==> s.routed == old(s.routed)
    {
      for i := 0 to |others|
        invariant Valid() && id in s.loops && s.loops[id] == old(s.loops[id])
        invariant old(s.routed) <= s.routed
        invariant Quiet(id, others) ==> s.routed == old(s.routed)
      {
        assert others[i] in others;
        if !By(others[i], id) && Apply(s, others[i]).Some? {
          Take(others[i]);
        }
      }
    }
  }

  /** What quiet turns leave: the build routed to is the one at the start or the loop's own. */
  ghost predicate Settled(s: State, l: Loop, first: Option<Build>)
    requires s.Valid()
  {
    && (s.Current() == first || s.Current() == Some(l.build))
    && (l.before.Read? && l.before.build != first ==> s.Current() == Some(l.build))
  }

  lemma QuietRead(s: State, id: Id, answered: bool, first: Option<Build>)
    requires s.Valid() && id in s.loops && s.loops[id].at.Reading? && Settled(s, s.loops[id], first)
    ensures var s' := Apply(s, ReadRouting(id, answered)).value;
            && s'.routed == s.routed && s'.loops[id].at.Writing? && Settled(s', s'.loops[id], first)
            && (answered ==> s'.loops[id].token == Some(|s'.routed|))
  {
  }

  lemma QuietWrite(s: State, id: Id, fate: Fate, first: Option<Build>)
    requires s.Valid() && id in s.loops && s.loops[id].at.Writing? && Settled(s, s.loops[id], first)
    ensures var s' := Apply(s, WriteRouting(id, fate)).value;
            && (s'.loops[id].at.Reading? || s'.loops[id].at.Made?) && Settled(s', s'.loops[id], first)
            && (s.loops[id].token == Some(|s.routed|) && fate.Taken? ==> s'.loops[id].at.Made?)
  {
  }

  method Begin(w: World, id: Id, build: Build)
    requires w.Valid() && id !in w.s.loops
    modifies w
    ensures w.Valid() && w.s == old(w.s).(loops := w.s.loops)
    ensures id in w.s.loops && w.s.loops[id] == Loop(build, Unread, None, Reading)
    ensures Settled(w.s, w.s.loops[id], old(w.s.Current()))
  {
    hide Reachable;
    w.Take(Launch(id, build));
  }

  method End(w: World, id: Id)
    requires w.Valid() && id in w.s.loops
    modifies w
    ensures w.Valid() && w.s == old(w.s).(loops := w.s.loops)
    ensures id in w.s.loops && w.s.loops[id] == old(w.s.loops[id]).(at := Cancelled)
  {
    hide Reachable;
    w.Take(Cancel(id));
  }

  /** One RPC of the loop: a read with the take-over check, or a write. */
  method TakeTurn(w: World, id: Id, turn: Turn, ghost first: Option<Build>)
    requires w.Valid() && id in w.s.loops && (w.s.loops[id].at.Reading? || w.s.loops[id].at.Writing?)
    modifies w
    ensures w.Valid() && id in w.s.loops && w.s.loops[id].build == old(w.s.loops[id].build)
    ensures old(w.s.routed) <= w.s.routed
    ensures var before, after := old(w.s.loops[id]), w.s.loops[id];
            && (before.at.Reading? ==> after.at.Writing? || after.at.GaveUp?)
            && (before.at.Writing? ==> after.at.Reading? || after.at.Made?)
            && (after.at.GaveUp? ==> after.before.Read? && TakenOver(after, w.s.Current()))
            && (after.at.Made? ==> turn.fate.Taken? && |old(w.s.routed)| < |w.s.routed|)
            && (after.at.Made? ==> w.s.Current() == Some(after.build))
    ensures var before, after := old(w.s.loops[id]), w.s.loops[id];
            Quiet(id, turn.others) && old(Settled(w.s, w.s.loops[id], first)) ==>
              && Settled(w.s, after, first) && !after.at.GaveUp?
              && (before.at.Reading? && turn.answered ==> after.token == Some(|w.s.routed|))
              && (before.at.Writing? && before.token == Some(|old(w.s.routed)|) && turn.fate.Taken? ==> after.at.Made?)
  {
    w.Interfere(id, turn.others);
    ghost var s := w.s;
    hide Reachable;
    if w.s.loops[id].at.Reading? {
      w.Take(ReadRouting(id, turn.answered));
      if Settled(s, s.loops[id], first) {
        QuietRead(s, id, turn.answered, first);
      }
    } else {
      w.Take(WriteRouting(id, turn.fate));
      if Settled(s, s.loops[id], first) {
        QuietWrite(s, id, turn.fate, first);
      }
    }
  }

  /**
   * `make_current_until_polled` with `deployment_writes`: a read, then a write and, while it is
   * refused or lost, a read, the take-over check and a write again. Every state it passes through
   * is one of the system's, so `NeverTakesBack` holds of its writes, and it returns only once its
   * write was taken or another build was; `turns` runs out where it is cancelled. Left alone, it makes
   * its build current with the first write that is taken after a read that was answered, however many
   * were lost or refused before.
   */
  method MakeCurrentUntilPolled(w: World, id: Id, build: Build, turns: seq<Turn>)
    returns (outcome: Point)
    requires w.Valid() && id !in w.s.loops
    modifies w
    ensures w.Valid() && id in w.s.loops && w.s.loops[id].build == build
    ensures outcome == w.s.loops[id].at
    ensures outcome.Made? || outcome.GaveUp? || outcome.Cancelled?
    ensures old(w.s.routed) <= w.s.routed
    ensures outcome.Made? ==> Some(build) in w.s.routed[|old(w.s.routed)|..]
    ensures outcome.Made? ==> exists turn :: turn in turns && turn.fate.Taken?
    ensures outcome.GaveUp? ==> w.s.loops[id].before.Read? && exists newer ::
      newer in w.s.routed && TakenOver(w.s.loops[id], newer)
    ensures (forall turn :: turn in turns ==> Quiet(id, turn.others)) && (exists read :: Succeeds(turns, read)) ==>
              outcome.Made?
  {
    ghost var first := w.s.Current();
    ghost var quiet := forall turn :: turn in turns ==> Quiet(id, turn.others);
    hide Quiet, Reachable, TakenOver, Apply, Settled;
    Begin(w, id, build);
    var k := 0;
    while k < |turns|
      invariant 0 <= k <= |turns|
      invariant w.Valid() && id in w.s.loops && w.s.loops[id].build == build
      invariant if k % 2 == 0 then w.s.loops[id].at.Reading? else w.s.loops[id].at.Writing?
      invariant old(w.s.routed) <= w.s.routed
      invariant quiet ==> Settled(w.s, w.s.loops[id], first)
      invariant quiet && k % 2 == 1 && turns[k - 1].answered ==> w.s.loops[id].token == Some(|w.s.routed|)
      invariant quiet ==> forall read :: 0 <= read < k - 1 ==> !Succeeds(turns, read)
    {
      assert turns[k] in turns;
      TakeTurn(w, id, turns[k], first);
      if w.s.loops[id].at.GaveUp? {
        assert w.s.Current() in w.s.routed;
        return GaveUp;
      } else if w.s.loops[id].at.Made? {
        assert w.s.routed[|old(w.s.routed)|..][|w.s.routed| - 1 - |old(w.s.routed)|] == Some(build);
        return Made;
      }
      k := k + 1;
    }
    End(w, id);
    return Cancelled;
  }
}
