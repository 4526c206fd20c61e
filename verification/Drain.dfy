/**
 * The early exit of a draining worker (backend/scadbuddy/worker.py, with the marks and pollers
 * of backend/scadbuddy/workflows/client.py), as the steps of the pods of one build over the
 * version's drain marks and the queue's pollers. A step is what one RPC does at the server, or
 * what one pod does on its own; every pod reads its own clock.
 */
module Drain {
  import opened Wrappers

  type Id = string

  /** Time is in microseconds, the resolution of the datetimes compared. */
  const SECOND := 1_000_000
  const POLLER_SEEN_WITHIN := 90 * SECOND
  const DRAIN_MARK_SLACK := 60 * SECOND
  const DRAIN_CURRENT_GRACE := 30 * SECOND

  /**
   * `offset(p)`: how far pod p's clock is ahead of true time; `server`: the same of Temporal's.
   * `lag`: how long a mark may take, from its read to its landing, and a check from its read of the
   * pollers to its last look at the clock.
   */
  datatype Config = Config(
    pods: set<Id>, drainTimeout: nat, offset: Id -> int, server: int, lag: nat)
  {
    function Grace(): nat {
      if DRAIN_CURRENT_GRACE < drainTimeout then DRAIN_CURRENT_GRACE else drainTimeout
    }

    /** `marked_within`: the age from which a mark is ignored and pruned. */
    function MarkedWithin(): nat {
      drainTimeout + POLLER_SEEN_WITHIN + DRAIN_MARK_SLACK
    }
  }

  /** A mark being written: the marks it read, to prune by, and when. */
  datatype Write = Write(read: map<Id, int>, at: int)

  /** A check in progress: the pollers it read, and when. */
  datatype Seen = Seen(polled: map<Id, int>, at: int)

  datatype Pod =
    | Absent
    | Serving
    | Draining(stopped: int, began: int, marked: bool, writes: set<Write>, asked: bool, seen: Option<Seen>)
    | Left(stopped: int, began: int, early: bool, decided: nat)

  /**
   * `marks` holds each marked identity's drain start by its owner's clock; `polled` each
   * poller's last access by the server's. `events` counts the early exits so far.
   */
  datatype State = State(
    now: int, current: bool, marks: map<Id, int>, polled: map<Id, int>, pods: map<Id, Pod>, events: nat)

  datatype Step =
    | Tick(elapsed: nat)
    | SetCurrent(current: bool)
    | Start(p: Id)
    | Clear(p: Id)
    | Poll(p: Id)
    | Stop(p: Id)
    | ReadMarks(p: Id, failed: bool)
    | LandMark(p: Id, write: Write, judged: int)
    | AskCurrent(p: Id)
    | SeePollers(p: Id)
    | Decide(p: Id, judgedPollers: int, judgedMarks: int)
    | Leave(p: Id)

  /* ---- what client.py computes from what it read ---- */

  /** `pollers_elsewhere`: the others that polled within `POLLER_SEEN_WITHIN` of `now`. */
  function PollersElsewhere(polled: map<Id, int>, self: Id, now: int): set<Id> {
    set q | q in polled && q != self && polled[q] >= now - POLLER_SEEN_WITHIN
  }

  /** `any_serving`: one of `others` holds no mark from the last `within`. */
  predicate AnyServing(others: set<Id>, marks: map<Id, int>, now: int, within: int) {
    exists q :: q in others && (q !in marks || marks[q] < now - within)
  }

  /** The marks that `mark_draining` removes with its own write. */
  function Stale(read: map<Id, int>, self: Id, now: int, within: int): set<Id> {
    set q | q in read && q != self && read[q] < now - within
  }

  /* ---- one step ---- */

  ghost function Initial(c: Config): State {
    State(0, true, map[], map[], map p | p in c.pods :: Absent, 0)
  }

  /** A pod polls from its start until its drain's bound at most. */
  predicate MayPoll(c: Config, s: State, p: Id)
    requires p in s.pods
  {
    s.pods[p].Serving? || (!s.pods[p].Absent? && s.now <= s.pods[p].stopped + c.drainTimeout)
  }

  /** The state after `step`, or None where it cannot happen. */
  ghost function Apply(c: Config, s: State, step: Step): Option<State> {
    match step
    case Tick(elapsed) => Some(s.(now := s.now + elapsed))
    case SetCurrent(current) => Some(s.(current := current))
    case Start(p) =>
      // The first time, or again: after its drain, or killed at any moment.
      if p in s.pods then Some(s.(pods := s.pods[p := Serving])) else None
    case Clear(p) =>
      if p in s.pods && s.pods[p].Serving? then Some(s.(marks := s.marks - {p})) else None
    case Poll(p) =>
      if p in s.pods && MayPoll(c, s, p)
      then Some(s.(polled := s.polled[p := s.now + c.server])) else None
    case Stop(p) =>
      // The life's clear has landed by now.
      if p in s.pods && s.pods[p].Serving? && p !in s.marks
      then Some(s.(pods := s.pods[p := Draining(s.now, s.now + c.offset(p), false, {}, false, None)]))
      else None
    case ReadMarks(p, failed) =>
      if p in s.pods && s.pods[p].Draining? then
        var write := Write(if failed then map[] else s.marks, s.now);
        Some(s.(pods := s.pods[p := s.pods[p].(writes := s.pods[p].writes + {write})]))
      else None
    case LandMark(p, write, judged) =>
      if && p in s.pods && s.pods[p].Draining? && write in s.pods[p].writes
         && write.at <= judged <= s.now <= write.at + c.lag
      then
        var stale := Stale(write.read, p, judged + c.offset(p), c.MarkedWithin());
        Some(s.(marks := (s.marks - stale)[p := s.pods[p].began],
                pods := s.pods[p := s.pods[p].(marked := true)]))
      else None
    case AskCurrent(p) =>
      if && p in s.pods && s.pods[p].Draining? && s.pods[p].marked && s.current
         && s.pods[p].stopped + c.Grace() <= s.now
      then Some(s.(pods := s.pods[p := s.pods[p].(asked := true)])) else None
    case SeePollers(p) =>
      if p in s.pods && s.pods[p].Draining? && s.pods[p].asked
      then Some(s.(pods := s.pods[p := s.pods[p].(asked := false, seen := Some(Seen(s.polled, s.now)))]))
      else None
    case Decide(p, judgedPollers, judgedMarks) =>
      if && p in s.pods && s.pods[p].Draining? && s.pods[p].seen.Some?
         && s.now <= s.pods[p].stopped + c.drainTimeout
         && s.pods[p].seen.value.at <= judgedPollers <= s.now <= judgedMarks
         && judgedMarks <= s.pods[p].seen.value.at + c.lag
         && p in s.marks
         && AnyServing(
              PollersElsewhere(s.pods[p].seen.value.polled, p, judgedPollers + c.offset(p)),
              s.marks, judgedMarks + c.offset(p), c.MarkedWithin())
      then
        Some(s.(pods := s.pods[p := Left(s.pods[p].stopped, s.pods[p].began, true, s.events)],
                events := s.events + 1))
      else None
    case Leave(p) =>
      if p in s.pods && s.pods[p].Draining?
      then Some(s.(pods := s.pods[p := Left(s.pods[p].stopped, s.pods[p].began, false, 0)]))
      else None
  }

  ghost function Run(c: Config, steps: seq<Step>): Option<State> {
    if steps == [] then Some(Initial(c))
    else
      match Run(c, steps[..|steps| - 1])
      case None => None
      case Some(s) => Apply(c, s, steps[|steps| - 1])
  }

  ghost predicate Reachable(c: Config, s: State) {
    exists steps :: Run(c, steps) == Some(s)
  }

  /** Some pod left its pinned runs to another, and no pod that ever ran still serves or drained. */
  ghost predicate AllLeftEarly(s: State) {
    && (exists p :: p in s.pods && s.pods[p].Left? && s.pods[p].early)
    && (forall q :: q in s.pods ==> s.pods[q].Absent? || (s.pods[q].Left? && s.pods[q].early))
  }

  /**
   * How far the clocks may differ: for every pod q that marks, every pod p that prunes q's mark
   * and every pod r that lists q as a poller.
   */
  ghost predicate ClocksAgree(c: Config) {
    forall p, q, r :: p in c.pods && q in c.pods && r in c.pods && p != q && r != q ==>
      (c.offset(p) - c.offset(q)) + (c.server - c.offset(r)) + c.lag <= 60_000_000
  }

  /* ---- the invariant ---- */

  ghost predicate LeftEarly(s: State, p: Id) {
    p in s.pods && s.pods[p].Left? && s.pods[p].early
  }

  /** p has a pod to rely on: one that has not left early, or left early after p did. */
  ghost predicate Relied(s: State, p: Id, q: Id)
    requires LeftEarly(s, p)
  {
    && q in s.pods && !s.pods[q].Absent?
    && (LeftEarly(s, q) ==> s.pods[q].decided > s.pods[p].decided)
  }

  ghost predicate Stopped(s: State, q: Id) {
    q in s.pods && (s.pods[q].Draining? || s.pods[q].Left?)
  }

  /** q's mark was pruned by p, when it was too old by p's clock. */
  ghost predicate Pruned(c: Config, s: State, q: Id, p: Id, at: int)
    requires Stopped(s, q)
  {
    p in c.pods && p != q && at <= s.now && s.pods[q].began < at + c.offset(p) - c.MarkedWithin()
  }

  ghost predicate PodOk(c: Config, s: State, q: Id) {
    && (q in s.polled ==> q in s.pods && !s.pods[q].Absent? && s.polled[q] <= s.now + c.server)
    && (Stopped(s, q) ==>
      && s.pods[q].stopped <= s.now
      && s.pods[q].began == s.pods[q].stopped + c.offset(q)
      && (q in s.polled ==> s.polled[q] <= s.pods[q].stopped + c.drainTimeout + c.server)
      && (q in s.marks ==> s.marks[q] == s.pods[q].began))
    && (LeftEarly(s, q) ==>
      && s.pods[q].decided < s.events
      && s.pods[q].stopped + c.Grace() <= s.now
      && (q !in s.marks ==> exists p, at :: Pruned(c, s, q, p, at)))
  }

  /** What p read is no newer than what is there, and a stopped pod's mark read is its own life's. */
  ghost predicate ReadsOk(c: Config, s: State, p: Id) {
    p in s.pods && s.pods[p].Draining? ==>
      && (forall w :: w in s.pods[p].writes ==> WriteOk(s, w))
      && (s.pods[p].asked ==> s.pods[p].stopped + c.Grace() <= s.now)
      && (s.pods[p].seen.Some? ==>
        && s.pods[p].seen.value.at <= s.now
        && s.pods[p].stopped + c.Grace() <= s.pods[p].seen.value.at
        && forall q :: q in s.pods[p].seen.value.polled ==>
          q in s.polled && s.pods[p].seen.value.polled[q] <= s.polled[q])
  }

  ghost predicate WriteOk(s: State, w: Write) {
    && w.at <= s.now
    && forall q :: q in w.read && Stopped(s, q) && s.pods[q].stopped < w.at ==>
      w.read[q] == s.pods[q].began
  }

  ghost predicate Inv(c: Config, s: State) {
    && s.pods.Keys == c.pods
    && (forall q :: PodOk(c, s, q))
    && (forall p :: ReadsOk(c, s, p))
    && (forall p :: LeftEarly(s, p) ==> exists q :: Relied(s, p, q))
  }

  /**
   * The heart of the protocol: no check trusts a pod that has left early. Its mark, while it is
   * there, is not ignored as long as the pod may be listed, and was not pruned before then.
   */
  lemma TrustsOnlyThePresent(c: Config, s: State, p: Id, q: Id, judgedPollers: int, judgedMarks: int)
    requires Inv(c, s) && ClocksAgree(c)
    requires Apply(c, s, Decide(p, judgedPollers, judgedMarks)).Some?
    requires q in PollersElsewhere(s.pods[p].seen.value.polled, p, judgedPollers + c.offset(p))
    requires q !in s.marks || s.marks[q] < judgedMarks + c.offset(p) - c.MarkedWithin()
    ensures q in s.pods && q != p && !s.pods[q].Absent? && !LeftEarly(s, q)
  {
    assert ReadsOk(c, s, p);
    assert PodOk(c, s, q);
    assert (c.offset(p) - c.offset(q)) + (c.server - c.offset(p)) + c.lag <= DRAIN_MARK_SLACK;
    if LeftEarly(s, q) {
      assert false;
    }
  }

  lemma InitialInv(c: Config)
    ensures Inv(c, Initial(c))
  {
  }

  /** A landing mark prunes only marks of a pod's present life, once it left early. */
  lemma PrunesOwnLife(c: Config, s: State, p: Id, w: Write, judged: int, q: Id)
    requires Inv(c, s) && c.lag < c.Grace()
    requires Apply(c, s, LandMark(p, w, judged)).Some?
    requires LeftEarly(s, q) && q in Stale(w.read, p, judged + c.offset(p), c.MarkedWithin())
    ensures Pruned(c, s, q, p, judged)
  {
    assert ReadsOk(c, s, p);
    assert WriteOk(s, w);
    assert PodOk(c, s, q);
  }

  /** Nothing of q's moves. */
  ghost predicate Untouched(s: State, s': State, q: Id) {
    && s.now <= s'.now && s.events <= s'.events
    && (q in s.pods <==> q in s'.pods) && (q in s.pods ==> s'.pods[q] == s.pods[q])
    && (q in s.marks <==> q in s'.marks) && (q in s.marks ==> s'.marks[q] == s.marks[q])
    && (q in s.polled <==> q in s'.polled) && (q in s.polled ==> s'.polled[q] == s.polled[q])
  }

  lemma UntouchedPod(c: Config, s: State, s': State, q: Id)
    requires PodOk(c, s, q) && Untouched(s, s', q)
    ensures PodOk(c, s', q)
  {
    if LeftEarly(s, q) && q !in s.marks {
      var p, at :| Pruned(c, s, q, p, at);
      assert Pruned(c, s', q, p, at);
    }
  }

  lemma LandedPod(c: Config, s: State, p: Id, w: Write, judged: int, s': State, q: Id)
    requires Inv(c, s) && c.lag < c.Grace()
    requires Apply(c, s, LandMark(p, w, judged)) == Some(s')
    ensures PodOk(c, s', q)
  {
    assert PodOk(c, s, q);
    if q != p && q in s.marks && q !in s'.marks {
      if LeftEarly(s, q) {
        PrunesOwnLife(c, s, p, w, judged, q);
        assert Pruned(c, s', q, p, judged);
      }
    } else if q != p {
      UntouchedPod(c, s, s', q);
    }
  }

  /** A step of q's own that lands no mark. */
  lemma OwnPod(c: Config, s: State, step: Step, s': State, q: Id)
    requires Inv(c, s) && c.lag < c.Grace()
    requires !step.Tick? && !step.SetCurrent? && !step.LandMark? && step.p == q
    requires Apply(c, s, step) == Some(s')
    ensures PodOk(c, s', q)
  {
    assert PodOk(c, s, q) && ReadsOk(c, s, q);
    if step.Poll? && LeftEarly(s, q) && q !in s.marks {
      var p, at :| Pruned(c, s, q, p, at);
      assert Pruned(c, s', q, p, at);
    }
  }

  lemma StepPods(c: Config, s: State, step: Step, s': State, q: Id)
    requires Inv(c, s) && c.lag < c.Grace()
    requires Apply(c, s, step) == Some(s')
    ensures PodOk(c, s', q)
  {
    hide PodOk;
    assert PodOk(c, s, q);
    match step {
      case LandMark(p, w, judged) => LandedPod(c, s, p, w, judged, s', q);
      case Tick(_) => UntouchedPod(c, s, s', q);
      case SetCurrent(_) => UntouchedPod(c, s, s', q);
      case _ =>
        if step.p == q {
          OwnPod(c, s, step, s', q);
        } else {
          UntouchedPod(c, s, s', q);
        }
    }
  }

  /** What a mark's write read stays right as pods stop. */
  lemma StepWrite(c: Config, s: State, step: Step, s': State, w: Write)
    requires Inv(c, s) && WriteOk(s, w) && Apply(c, s, step) == Some(s')
    ensures WriteOk(s', w)
  {
    hide ReadsOk;
    forall q | q in w.read && Stopped(s', q) && s'.pods[q].stopped < w.at
      ensures w.read[q] == s'.pods[q].began
    {
      assert PodOk(c, s, q);
    }
  }

  lemma StepReads(c: Config, s: State, step: Step, s': State, p: Id)
    requires Inv(c, s)
    requires Apply(c, s, step) == Some(s')
    ensures ReadsOk(c, s', p)
  {
    assert ReadsOk(c, s, p);
    if p in s'.pods && s'.pods[p].Draining? {
      forall w | w in s'.pods[p].writes
        ensures WriteOk(s', w)
      {
        if p in s.pods && s.pods[p].Draining? && w in s.pods[p].writes {
          StepWrite(c, s, step, s', w);
        } else {
          ReadWrite(c, s, step, s', p, w);
        }
      }
      hide WriteOk;
      if s'.pods[p].seen.Some? {
        forall q | q in s'.pods[p].seen.value.polled
          ensures q in s'.polled && s'.pods[p].seen.value.polled[q] <= s'.polled[q]
        {
          assert PodOk(c, s, q);
        }
      }
    }
  }

  lemma ReadWrite(c: Config, s: State, step: Step, s': State, p: Id, w: Write)
    requires Inv(c, s) && Apply(c, s, step) == Some(s')
    requires p in s'.pods && s'.pods[p].Draining? && w in s'.pods[p].writes
    requires !(p in s.pods && s.pods[p].Draining? && w in s.pods[p].writes)
    ensures WriteOk(s', w)
  {
    hide ReadsOk;
    forall q | q in w.read && Stopped(s', q) && s'.pods[q].stopped < w.at
      ensures w.read[q] == s'.pods[q].began
    {
      assert PodOk(c, s, q);
    }
  }

  lemma StepRelied(c: Config, s: State, step: Step, s': State, p: Id)
    requires Inv(c, s) && ClocksAgree(c)
    requires Apply(c, s, step) == Some(s') && LeftEarly(s', p)
    ensures exists q :: Relied(s', p, q)
  {
    assert PodOk(c, s, p);
    if step.Decide? && step.p == p {
      var others := PollersElsewhere(s.pods[p].seen.value.polled, p, step.judgedPollers + c.offset(p));
      var q :| q in others
        && (q !in s.marks || s.marks[q] < step.judgedMarks + c.offset(p) - c.MarkedWithin());
      TrustsOnlyThePresent(c, s, p, q, step.judgedPollers, step.judgedMarks);
      assert Relied(s', p, q);
    } else {
      assert LeftEarly(s, p) && s'.pods[p] == s.pods[p];
      hide PollersElsewhere;
      var q :| Relied(s, p, q);
      assert PodOk(c, s, q);
      assert Relied(s', p, q);
    }
  }

  lemma StepInv(c: Config, s: State, step: Step, s': State)
    requires Inv(c, s) && ClocksAgree(c) && c.lag < c.Grace()
    requires Apply(c, s, step) == Some(s')
    ensures Inv(c, s')
  {
    forall q ensures PodOk(c, s', q) { StepPods(c, s, step, s', q); }
    forall p ensures ReadsOk(c, s', p) { StepReads(c, s, step, s', p); }
    forall p | LeftEarly(s', p) ensures exists q :: Relied(s', p, q) { StepRelied(c, s, step, s', p); }
  }

  lemma {:induction false} RunInv(c: Config, steps: seq<Step>)
    requires ClocksAgree(c) && c.lag < c.Grace() && Run(c, steps).Some?
    ensures Inv(c, Run(c, steps).value)
  {
    if steps == [] {
      InitialInv(c);
    } else {
      var before := steps[..|steps| - 1];
      RunInv(c, before);
      StepInv(c, Run(c, before).value, steps[|steps| - 1], Run(c, steps).value);
    }
  }

  lemma {:induction false} LaterExit(c: Config, s: State, p: Id)
    requires Inv(c, s) && LeftEarly(s, p)
    ensures exists q :: q in s.pods && !s.pods[q].Absent? && !LeftEarly(s, q)
    decreases s.events - s.pods[p].decided
  {
    assert PodOk(c, s, p);
    var q :| Relied(s, p, q);
    if LeftEarly(s, q) {
      assert PodOk(c, s, q);
      LaterExit(c, s, q);
    }
  }

  /**
   * However the pods of one build start, stop and interleave, they never all leave their pinned
   * runs to one another: when one has left early, some pod serves, drains or drained in full.
   */
  lemma NeverAllLeaveEarly(c: Config, s: State)
    requires ClocksAgree(c) && c.lag < c.Grace()
    requires Reachable(c, s)
    ensures !AllLeftEarly(s)
  {
    var steps :| Run(c, steps) == Some(s);
    RunInv(c, steps);
    if AllLeftEarly(s) {
      var p :| p in s.pods && s.pods[p].Left? && s.pods[p].early;
      LaterExit(c, s, p);
    }
  }

  /* ---- what leaving early takes ---- */

  lemma {:induction false} PrefixRuns(c: Config, steps: seq<Step>, k: nat)
    requires Run(c, steps).Some? && k <= |steps|
    ensures Run(c, steps[..k]).Some?
    decreases |steps|
  {
    if k == |steps| {
      assert steps[..k] == steps;
    } else {
      var rest := steps[..|steps| - 1];
      PrefixRuns(c, rest, k);
      assert rest[..k] == steps[..k];
    }
  }

  /** The state of a run after its first `k` steps. */
  ghost function After(c: Config, steps: seq<Step>, k: nat): State
    requires Run(c, steps).Some? && k <= |steps|
  {
    PrefixRuns(c, steps, k);
    Run(c, steps[..k]).value
  }

  /** After `k` steps p drains, its drain begun at `stopped`. */
  ghost predicate DrainsAt(c: Config, steps: seq<Step>, p: Id, stopped: int, k: nat)
    requires Run(c, steps).Some? && k <= |steps|
  {
    var s := After(c, steps, k);
    p in s.pods && s.pods[p].Draining? && s.pods[p].stopped == stopped
  }

  /** From `i` to `m` steps p is in one drain. */
  ghost predicate OneDrain(c: Config, steps: seq<Step>, p: Id, stopped: int, i: nat, m: nat)
    requires Run(c, steps).Some?
  {
    i <= m <= |steps| && forall j :: i <= j <= m ==> DrainsAt(c, steps, p, stopped, j)
  }

  /** Microseconds: the least a drain takes that is to end early, 30 s or its whole bound. */
  function LeastDrain(drainTimeout: nat): nat {
    if drainTimeout < 30_000_000 then drainTimeout else 30_000_000
  }

  /** In the one drain, in this order: p's mark was there; its build was current, the grace over. */
  ghost predicate CurrentThen(c: Config, steps: seq<Step>, p: Id, stopped: int, i: nat, k: nat, m: nat)
    requires Run(c, steps).Some?
  {
    && OneDrain(c, steps, p, stopped, i, m) && i <= k <= m
    && p in After(c, steps, i).marks
    && After(c, steps, k).current && stopped + LeastDrain(c.drainTimeout) <= After(c, steps, k).now
  }

  lemma AfterPrefix(c: Config, steps: seq<Step>, k: nat)
    requires Run(c, steps).Some? && steps != [] && k < |steps|
    ensures Run(c, steps[..|steps| - 1]).Some?
    ensures After(c, steps[..|steps| - 1], k) == After(c, steps, k)
  {
    assert steps[..|steps| - 1][..k] == steps[..k];
  }

  lemma AfterAll(c: Config, steps: seq<Step>)
    requires Run(c, steps).Some?
    ensures After(c, steps, |steps|) == Run(c, steps).value
  {
    assert steps[..|steps|] == steps;
  }

  /** A drain goes on with the run. */
  lemma DrainGoesOn(c: Config, steps: seq<Step>, p: Id, stopped: int, i: nat)
    requires Run(c, steps).Some? && steps != [] && Run(c, steps[..|steps| - 1]).Some?
    requires OneDrain(c, steps[..|steps| - 1], p, stopped, i, |steps| - 1)
    ensures OneDrain(c, steps, p, stopped, i, |steps| - 1)
    ensures DrainsAt(c, steps, p, stopped, |steps|) ==> OneDrain(c, steps, p, stopped, i, |steps|)
  {
    hide Run, After;
    forall j | i <= j <= |steps| - 1
      ensures DrainsAt(c, steps, p, stopped, j)
    {
      AfterPrefix(c, steps, j);
      assert DrainsAt(c, steps[..|steps| - 1], p, stopped, j);
    }
  }

  /** What a step tells a pod that goes on draining. */
  lemma CheckMade(c: Config, s: State, step: Step, s': State, p: Id)
    requires Apply(c, s, step) == Some(s') && p in s'.pods && s'.pods[p].Draining?
    requires s'.pods[p].marked || s'.pods[p].asked || s'.pods[p].seen.Some?
    ensures p in s.pods && s.pods[p].Draining? && s.pods[p].stopped == s'.pods[p].stopped
    ensures s'.pods[p].marked && !s.pods[p].marked ==> p in s'.marks
    ensures s'.pods[p].asked && !s.pods[p].asked ==>
              s.pods[p].marked && s.current && s.pods[p].stopped + c.Grace() <= s.now
    ensures s'.pods[p].seen != s.pods[p].seen ==> s.pods[p].asked && s'.pods[p].seen == Some(Seen(s.polled, s.now))
  {
  }

  /** The run without its last step, of a pod that drains on with a check made. */
  lemma Before(c: Config, steps: seq<Step>, p: Id)
    requires Run(c, steps).Some?
    requires var s := Run(c, steps).value;
             && p in s.pods && s.pods[p].Draining? && (s.pods[p].marked || s.pods[p].asked || s.pods[p].seen.Some?)
    ensures steps != [] && Run(c, steps[..|steps| - 1]).Some?
    ensures var n, s, s' := |steps| - 1, Run(c, steps[..|steps| - 1]).value, Run(c, steps).value;
            && After(c, steps, n) == s && After(c, steps, |steps|) == s' && Apply(c, s, steps[n]) == Some(s')
            && DrainsAt(c, steps, p, s'.pods[p].stopped, n) && DrainsAt(c, steps, p, s'.pods[p].stopped, |steps|)
  {
    hide Apply;
    if steps != [] {
      AfterAll(c, steps);
      AfterPrefix(c, steps, |steps| - 1);
      AfterAll(c, steps[..|steps| - 1]);
      CheckMade(c, Run(c, steps[..|steps| - 1]).value, steps[|steps| - 1], Run(c, steps).value, p);
    }
  }

  lemma {:induction false} MarkedSince(c: Config, steps: seq<Step>, p: Id) returns (i: nat)
    requires Run(c, steps).Some?
    requires var s := Run(c, steps).value; p in s.pods && s.pods[p].Draining? && s.pods[p].marked
    ensures OneDrain(c, steps, p, Run(c, steps).value.pods[p].stopped, i, |steps|) && p in After(c, steps, i).marks
    decreases |steps|
  {
    var n, before, stopped := |steps| - 1, steps[..|steps| - 1], Run(c, steps).value.pods[p].stopped;
    Before(c, steps, p);
    CheckMade(c, Run(c, before).value, steps[n], Run(c, steps).value, p);
    hide Run, Apply, After;
    if Run(c, before).value.pods[p].marked {
      i := MarkedSince(c, before, p);
      DrainGoesOn(c, steps, p, stopped, i);
      AfterPrefix(c, steps, i);
    } else {
      i := |steps|;
    }
  }

  lemma {:induction false} CurrentSince(c: Config, steps: seq<Step>, p: Id) returns (i: nat, k: nat)
    requires Run(c, steps).Some?
    requires var s := Run(c, steps).value; p in s.pods && s.pods[p].Draining? && s.pods[p].asked
    ensures CurrentThen(c, steps, p, Run(c, steps).value.pods[p].stopped, i, k, |steps|) && k < |steps|
    decreases |steps|
  {
    var n, before, stopped := |steps| - 1, steps[..|steps| - 1], Run(c, steps).value.pods[p].stopped;
    Before(c, steps, p);
    CheckMade(c, Run(c, before).value, steps[n], Run(c, steps).value, p);
    hide Run, Apply, After;
    if Run(c, before).value.pods[p].asked {
      i, k := CurrentSince(c, before, p);
    } else {
      i := MarkedSince(c, before, p);
      k := n;
    }
    DrainGoesOn(c, steps, p, stopped, i);
    AfterPrefix(c, steps, i);
    AfterPrefix(c, steps, k);
  }

  /** What p saw, it saw after all that. */
  lemma {:induction false} SeenSince(c: Config, steps: seq<Step>, p: Id) returns (i: nat, k: nat, l: nat)
    requires Run(c, steps).Some?
    requires var s := Run(c, steps).value; p in s.pods && s.pods[p].Draining? && s.pods[p].seen.Some?
    ensures CurrentThen(c, steps, p, Run(c, steps).value.pods[p].stopped, i, k, |steps|) && k <= l < |steps|
    ensures Run(c, steps).value.pods[p].seen.value == Seen(After(c, steps, l).polled, After(c, steps, l).now)
    decreases |steps|
  {
    var n, before, stopped := |steps| - 1, steps[..|steps| - 1], Run(c, steps).value.pods[p].stopped;
    Before(c, steps, p);
    CheckMade(c, Run(c, before).value, steps[n], Run(c, steps).value, p);
    hide Run, Apply, After;
    if Run(c, before).value.pods[p].seen == Run(c, steps).value.pods[p].seen {
      i, k, l := SeenSince(c, before, p);
    } else {
      i, k := CurrentSince(c, before, p);
      l := n;
    }
    DrainGoesOn(c, steps, p, stopped, i);
    AfterPrefix(c, steps, i);
    AfterPrefix(c, steps, k);
    AfterPrefix(c, steps, l);
  }

  /** q serves, as p judges by its clock: it has no mark of the last drain bound, 90 s and 60 s. */
  ghost predicate Unmarked(c: Config, s: State, p: Id, q: Id, judged: int) {
    q !in s.marks || s.marks[q] < judged + c.offset(p) - (c.drainTimeout + 150_000_000)
  }

  /** q polled within 90 s, as p judges by its clock. */
  ghost predicate Polled(c: Config, polled: map<Id, int>, p: Id, q: Id, judged: int) {
    q in polled && polled[q] >= judged + c.offset(p) - 90_000_000
  }

  /**
   * Of p's early exit at step `m`, out of one drain in which, in this order: its mark was in the metadata;
   * its build was current, the grace over; it could see another pod that polled of late; and, its own mark
   * there and its bound not over, the other had no mark in force.
   */
  ghost predicate LeftProperly(c: Config, steps: seq<Step>, p: Id, q: Id, stopped: int, i: nat, k: nat, l: nat, m: nat)
    requires Run(c, steps).Some?
  {
    && m < |steps| && CurrentThen(c, steps, p, stopped, i, k, m) && k <= l <= m
    && var seen, left := After(c, steps, l), After(c, steps, m);
       && q != p && Polled(c, seen.polled, p, q, seen.now)
       && p in left.marks && Unmarked(c, left, p, q, seen.now + c.lag)
       && left.now <= seen.now + c.lag && left.now <= stopped + c.drainTimeout
  }

  lemma DecidedThen(c: Config, s: State, p: Id, judgedPollers: int, judgedMarks: int) returns (q: Id)
    requires Apply(c, s, Decide(p, judgedPollers, judgedMarks)).Some?
    ensures p in s.pods && s.pods[p].Draining? && s.pods[p].seen.Some?
    ensures var seen := s.pods[p].seen.value;
            && q != p && Polled(c, seen.polled, p, q, seen.at)
            && p in s.marks && Unmarked(c, s, p, q, seen.at + c.lag)
            && s.now <= seen.at + c.lag && s.now <= s.pods[p].stopped + c.drainTimeout
  {
    var others := PollersElsewhere(s.pods[p].seen.value.polled, p, judgedPollers + c.offset(p));
    q :| q in others && (q !in s.marks || s.marks[q] < judgedMarks + c.offset(p) - c.MarkedWithin());
  }

  lemma LeavingThen(c: Config, steps: seq<Step>, p: Id) returns (q: Id, stopped: int, i: nat, k: nat, l: nat)
    requires Run(c, steps).Some? && steps != [] && steps[|steps| - 1].Decide? && steps[|steps| - 1].p == p
    ensures LeftProperly(c, steps, p, q, stopped, i, k, l, |steps| - 1)
    ensures var s := Run(c, steps).value; LeftEarly(s, p) && s.pods[p].stopped == stopped
  {
    var n, step := |steps| - 1, steps[|steps| - 1];
    var before := steps[..n];
    var s := Run(c, before).value;
    q := DecidedThen(c, s, p, step.judgedPollers, step.judgedMarks);
    i, k, l := SeenSince(c, before, p);
    stopped := s.pods[p].stopped;
    AfterPrefix(c, steps, n);
    AfterAll(c, before);
    hide Run, Apply, After;
    DrainGoesOn(c, steps, p, stopped, i);
    AfterPrefix(c, steps, i);
    AfterPrefix(c, steps, k);
    AfterPrefix(c, steps, l);
  }

  /** Who has left early left so, its build current then. */
  lemma {:induction false} LeavesEarlyOnlyIf(c: Config, steps: seq<Step>, p: Id)
    returns (q: Id, stopped: int, i: nat, k: nat, l: nat, m: nat)
    requires Run(c, steps).Some? && LeftEarly(Run(c, steps).value, p)
    ensures LeftProperly(c, steps, p, q, stopped, i, k, l, m) && Run(c, steps).value.pods[p].stopped == stopped
    ensures forall j :: m < j <= |steps| ==> LeftEarly(After(c, steps, j), p)
    decreases |steps|
  {
    var n, s' := |steps| - 1, Run(c, steps).value;
    AfterAll(c, steps);
    if steps[n].Decide? && steps[n].p == p {
      m := n;
      q, stopped, i, k, l := LeavingThen(c, steps, p);
    } else {
      var before := steps[..n];
      assert LeftEarly(Run(c, before).value, p);
      q, stopped, i, k, l, m := LeavesEarlyOnlyIf(c, before, p);
      hide Run, Apply, After;
      LeftProperlyThen(c, steps, p, q, stopped, i, k, l, m);
      forall j | m < j <= n
        ensures LeftEarly(After(c, steps, j), p)
      {
        AfterPrefix(c, steps, j);
      }
    }
  }

  lemma LeftProperlyThen(
    c: Config, steps: seq<Step>, p: Id, q: Id, stopped: int, i: nat, k: nat, l: nat, m: nat)
    requires Run(c, steps).Some? && steps != [] && Run(c, steps[..|steps| - 1]).Some?
    requires LeftProperly(c, steps[..|steps| - 1], p, q, stopped, i, k, l, m)
    ensures LeftProperly(c, steps, p, q, stopped, i, k, l, m)
  {
    hide Run, After;
    forall j | i <= j <= m
      ensures After(c, steps[..|steps| - 1], j) == After(c, steps, j)
    {
      AfterPrefix(c, steps, j);
    }
    forall j | i <= j <= m
      ensures DrainsAt(c, steps, p, stopped, j)
    {
      assert DrainsAt(c, steps[..|steps| - 1], p, stopped, j);
    }
  }

  /** From step `j` on the build is not current again. */
  ghost predicate Superseded(steps: seq<Step>, j: nat) {
    && j < |steps| && steps[j] == SetCurrent(false)
    && forall k :: j < k < |steps| ==> steps[k] != SetCurrent(true)
  }

  lemma {:induction false} StaysSuperseded(c: Config, steps: seq<Step>, j: nat, k: nat)
    requires Run(c, steps).Some? && Superseded(steps, j) && j < k <= |steps|
    ensures !After(c, steps, k).current
    decreases k
  {
    PrefixRuns(c, steps, k);
    PrefixRuns(c, steps, k - 1);
    assert steps[..k][..k - 1] == steps[..k - 1];
    if k > j + 1 {
      StaysSuperseded(c, steps, j, k - 1);
    }
  }

  /**
   * Once its build is not current any more, and not made current again, a pod whose grace is not over by
   * then drains in full: the usual rollout.
   */
  lemma SupersededDrainInFull(c: Config, steps: seq<Step>, p: Id, j: nat)
    requires Run(c, steps).Some? && LeftEarly(Run(c, steps).value, p) && Superseded(steps, j)
    ensures Run(c, steps).value.pods[p].stopped + LeastDrain(c.drainTimeout) <= After(c, steps, j).now
  {
    var q, stopped, i, k, l, m := LeavesEarlyOnlyIf(c, steps, p);
    hide Run, Apply;
    if k > j {
      StaysSuperseded(c, steps, j, k);
    }
    TimeGoesOn(c, steps, k, j);
  }

  lemma {:induction false} TimeGoesOn(c: Config, steps: seq<Step>, k: nat, j: nat)
    requires Run(c, steps).Some? && k <= j <= |steps|
    ensures After(c, steps, k).now <= After(c, steps, j).now
    decreases j
  {
    hide Apply;
    if k < j {
      TimeGoesOn(c, steps, k, j - 1);
      PrefixRuns(c, steps, j);
      PrefixRuns(c, steps, j - 1);
      assert steps[..j][..j - 1] == steps[..j - 1];
      StepTime(c, After(c, steps, j - 1), steps[j - 1]);
    }
  }

  lemma StepTime(c: Config, s: State, step: Step)
    requires Apply(c, s, step).Some?
    ensures s.now <= Apply(c, s, step).value.now
  {
  }

  /* ---- how far the clocks may differ, exactly ---- */

  lemma Fire(c: Config, s: State, step: Step) returns (s': State)
    requires Reachable(c, s) && Apply(c, s, step).Some?
    ensures Apply(c, s, step) == Some(s') && Reachable(c, s')
  {
    s' := Apply(c, s, step).value;
    var steps :| Run(c, steps) == Some(s);
    assert (steps + [step])[..|steps|] == steps;
    assert Run(c, steps + [step]) == Some(s');
  }

  /** A pod of this build drains long enough, and every clock is near enough for live pollers to be listed. */
  ghost predicate Ordinary(c: Config) {
    && c.drainTimeout >= 240 * SECOND
    && forall p :: p in c.pods ==> -POLLER_SEEN_WITHIN <= c.offset(p) - c.server <= POLLER_SEEN_WITHIN
  }

  /** The last moment at which r lists q as a poller, q's drain having begun at 0. */
  function LastListed(c: Config, r: Id): int {
    c.drainTimeout + POLLER_SEEN_WITHIN + c.server - c.offset(r)
  }

  /** The first moment, after q's drain, at which p finds q's mark too old. */
  function TooOld(c: Config, p: Id, q: Id): int {
    var at := c.drainTimeout + POLLER_SEEN_WITHIN + DRAIN_MARK_SLACK + c.offset(q) - c.offset(p) + 1;
    if at > c.drainTimeout then at else c.drainTimeout
  }

  /** When the second life of a bad run of three begins: the marks of the first have become too old for all. */
  function Again(c: Config): int {
    c.MarkedWithin() + 181 * SECOND
  }

  /** The first half of a bad run of two: q left early, at the end of its drain, relying on p. */
  ghost predicate QLeft(c: Config, s: State, p: Id, q: Id) {
    && s.now == c.drainTimeout && s.current && s.events == 1
    && s.pods.Keys == c.pods
    && s.marks == map[q := c.offset(q)]
    && q in s.polled && s.polled[q] == c.drainTimeout + c.server
    && q in s.pods && LeftEarly(s, q)
    && p in s.pods && s.pods[p].Draining? && s.pods[p].stopped == LastListed(c, p) - c.drainTimeout
    && OthersAbsent(s, {p, q})
  }

  ghost predicate OthersAbsent(s: State, but: set<Id>) {
    forall other :: other in s.pods && other !in but ==> s.pods[other].Absent?
  }

  lemma InitialReachable(c: Config)
    ensures Reachable(c, Initial(c))
  {
    assert Run(c, []) == Some(Initial(c));
  }

  lemma FireTick(c: Config, s: State, until: int) returns (s': State)
    requires Reachable(c, s) && s.now <= until
    ensures Reachable(c, s') && s' == s.(now := until)
  {
    s' := Fire(c, s, Tick(until - s.now));
  }

  lemma FireStart(c: Config, s: State, p: Id) returns (s': State)
    requires Reachable(c, s) && p in s.pods
    ensures Reachable(c, s') && s' == s.(pods := s.pods[p := Serving])
  {
    s' := Fire(c, s, Start(p));
  }

  lemma FirePoll(c: Config, s: State, p: Id) returns (s': State)
    requires Reachable(c, s) && p in s.pods && MayPoll(c, s, p)
    ensures Reachable(c, s') && s' == s.(polled := s.polled[p := s.now + c.server])
  {
    s' := Fire(c, s, Poll(p));
  }

  lemma FireStop(c: Config, s: State, p: Id) returns (s': State)
    requires Reachable(c, s) && p in s.pods && s.pods[p].Serving? && p !in s.marks
    ensures Reachable(c, s')
    ensures s' == s.(pods := s.pods[p := Draining(s.now, s.now + c.offset(p), false, {}, false, None)])
  {
    s' := Fire(c, s, Stop(p));
  }

  /** p reads the marks, or fails to. */
  lemma FireRead(c: Config, s: State, p: Id, failed: bool) returns (s': State)
    requires Reachable(c, s) && p in s.pods && s.pods[p].Draining?
    ensures Reachable(c, s')
    ensures s' == s.(pods := s.pods[p := s.pods[p].(
                       writes := s.pods[p].writes + {Write(if failed then map[] else s.marks, s.now)})])
  {
    s' := Fire(c, s, ReadMarks(p, failed));
  }

  /** A mark that was being written lands. */
  lemma FireLand(c: Config, s: State, p: Id, write: Write) returns (s': State)
    requires Reachable(c, s) && p in s.pods && s.pods[p].Draining? && write in s.pods[p].writes
    requires write.at <= s.now <= write.at + c.lag
    ensures Reachable(c, s')
    ensures s' == s.(
      marks := (s.marks - Stale(write.read, p, s.now + c.offset(p), c.MarkedWithin()))[p := s.pods[p].began],
      pods := s.pods[p := s.pods[p].(marked := true)])
  {
    s' := Fire(c, s, LandMark(p, write, s.now));
  }

  /** p reads the marks and its own lands at once. */
  lemma FireMark(c: Config, s: State, p: Id) returns (s': State)
    requires Reachable(c, s) && p in s.pods && s.pods[p].Draining?
    ensures Reachable(c, s')
    ensures s' == s.(
      marks := (s.marks - Stale(s.marks, p, s.now + c.offset(p), c.MarkedWithin()))[p := s.pods[p].began],
      pods := s.pods[p := s.pods[p].(marked := true, writes := s.pods[p].writes + {Write(s.marks, s.now)})])
  {
    var read := FireRead(c, s, p, false);
    s' := FireLand(c, read, p, Write(s.marks, s.now));
  }

  /** p asks whether its build is current and reads the pollers. */
  lemma FireSee(c: Config, s: State, p: Id) returns (s': State)
    requires Reachable(c, s) && p in s.pods && s.pods[p].Draining? && s.pods[p].marked && s.current
    requires s.pods[p].stopped + c.Grace() <= s.now
    ensures Reachable(c, s')
    ensures s' == s.(pods := s.pods[p := s.pods[p].(asked := false, seen := Some(Seen(s.polled, s.now)))])
  {
    var asked := Fire(c, s, AskCurrent(p));
    s' := Fire(c, asked, SeePollers(p));
  }

  /** p leaves early, relying on the poller `on` it has seen; its last look at the clock is at `judged`. */
  lemma FireDecide(c: Config, s: State, p: Id, on: Id, judged: int) returns (s': State)
    requires Reachable(c, s) && p in s.pods && s.pods[p].Draining? && s.pods[p].seen.Some?
    requires s.now <= s.pods[p].stopped + c.drainTimeout
    requires s.pods[p].seen.value.at <= s.now <= judged <= s.pods[p].seen.value.at + c.lag
    requires p in s.marks && on != p
    requires var seen := s.pods[p].seen.value;
             on in seen.polled && seen.polled[on] >= seen.at + c.offset(p) - POLLER_SEEN_WITHIN
    requires on !in s.marks || s.marks[on] < judged + c.offset(p) - c.MarkedWithin()
    ensures Reachable(c, s')
    ensures s' == s.(
      pods := s.pods[p := Left(s.pods[p].stopped, s.pods[p].began, true, s.events)], events := s.events + 1)
  {
    var seen := s.pods[p].seen.value;
    assert on in PollersElsewhere(seen.polled, p, seen.at + c.offset(p));
    s' := Fire(c, s, Decide(p, seen.at, judged));
  }

  /**
   * p sees the pollers and leaves early at once, relying on `on`. Nothing more is asked of it than what
   * every early exit shows.
   */
  lemma FireExit(c: Config, s: State, p: Id, on: Id) returns (s': State)
    requires Reachable(c, s) && p in s.pods && s.pods[p].Draining? && s.pods[p].marked && s.current
    requires s.pods[p].stopped + LeastDrain(c.drainTimeout) <= s.now <= s.pods[p].stopped + c.drainTimeout
    requires p in s.marks && on != p && Polled(c, s.polled, p, on, s.now) && Unmarked(c, s, p, on, s.now)
    ensures Reachable(c, s')
    ensures s' == s.(
      pods := s.pods[p := Left(s.pods[p].stopped, s.pods[p].began, true, s.events)], events := s.events + 1)
  {
    hide Apply, Reachable;
    var seen := FireSee(c, s, p);
    s' := FireDecide(c, seen, p, on, s.now);
  }

  /* ---- two pods ---- */

  /** q drains and leaves early at its drain's bound, relying on p, which has not marked yet. */
  lemma QLeavesFirst(c: Config, p: Id, q: Id) returns (s: State)
    requires Ordinary(c) && p in c.pods && q in c.pods && p != q
    ensures Reachable(c, s) && QLeft(c, s, p, q)
  {
    hide Apply, Reachable;
    InitialReachable(c);
    s := FireStart(c, Initial(c), q);
    s := FireStart(c, s, p);
    s := FireStop(c, s, q);
    s := FireMark(c, s, q);
    s := FireTick(c, s, LastListed(c, p) - c.drainTimeout);
    s := FireStop(c, s, p);
    s := FireTick(c, s, c.drainTimeout);
    s := FirePoll(c, s, p);
    s := FirePoll(c, s, q);
    s := FireExit(c, s, q, p);
  }

  /** q has left early and p, the only other, still lists q when it looks at the marks `lag` later. */
  lemma BadPair(c: Config, p: Id, q: Id) returns (s: State)
    requires Ordinary(c) && p in c.pods && q in c.pods && p != q
    requires (c.offset(p) - c.offset(q)) + (c.server - c.offset(p)) + c.lag > DRAIN_MARK_SLACK
    ensures Reachable(c, s) && AllLeftEarly(s)
  {
    s := QLeavesFirst(c, p, q);
    hide Apply, Reachable;
    s := FireTick(c, s, LastListed(c, p));
    s := FireMark(c, s, p);
    s := FireSee(c, s, p);
    s := FireDecide(c, s, p, q, s.now + c.lag);
    assert LeftEarly(s, p);
  }

  /* ---- three pods ---- */

  /** When p and r stop, for their drains to end `delay` after r last lists q. */
  function StopsAt(c: Config, r: Id, delay: nat): int {
    Again(c) + LastListed(c, r) + delay - c.drainTimeout
  }

  /** When p prunes q's mark: as soon as it is too old, and not before r has seen the pollers. */
  function PrunesAt(c: Config, p: Id, q: Id, r: Id): int {
    var listed, tooOld := LastListed(c, r), TooOld(c, p, q);
    Again(c) + if listed < tooOld then tooOld else listed
  }

  /** The three are different pods, and of their clocks and the delay the slack is not enough. */
  ghost predicate Astray(c: Config, p: Id, q: Id, r: Id, delay: nat) {
    && Ordinary(c) && delay <= c.lag && delay < c.Grace()
    && p in c.pods && q in c.pods && r in c.pods && p != q && r != q && p != r
    && (c.offset(p) - c.offset(q)) + (c.server - c.offset(r)) + delay > DRAIN_MARK_SLACK
  }

  lemma TimesInOrder(c: Config, p: Id, q: Id, r: Id, delay: nat)
    requires Astray(c, p, q, r, delay)
    ensures Again(c) <= StopsAt(c, r, delay) < Again(c) + c.drainTimeout <= Again(c) + LastListed(c, r)
    ensures StopsAt(c, r, delay) + c.Grace() <= Again(c) + LastListed(c, r) <= PrunesAt(c, p, q, r)
    ensures PrunesAt(c, p, q, r) <= Again(c) + LastListed(c, r) + delay == StopsAt(c, r, delay) + c.drainTimeout
    ensures Again(c) + c.offset(q) < PrunesAt(c, p, q, r) + c.offset(p) - c.MarkedWithin()
    ensures forall other :: other in c.pods ==> c.offset(r) < StopsAt(c, r, delay) + c.offset(other) - c.MarkedWithin()
    ensures forall other :: other in c.pods ==>
              Again(c) + c.offset(q) >= StopsAt(c, r, delay) + c.offset(other) - c.MarkedWithin()
  {
  }

  /** r has drained once and serves again, its clear not landed; q drains, its mark written without a read. */
  ghost predicate RServesAgain(c: Config, s: State, p: Id, q: Id, r: Id) {
    && s.now == Again(c) && s.current && s.events == 0 && s.pods.Keys == c.pods
    && s.marks == map[r := c.offset(r), q := Again(c) + c.offset(q)]
    && q in s.pods && s.pods[q].Draining? && s.pods[q].marked && s.pods[q].stopped == Again(c)
    && p in s.pods && s.pods[p] == Serving && r in s.pods && s.pods[r] == Serving
    && OthersAbsent(s, {p, q, r})
  }

  lemma RDrainsOnce(c: Config, r: Id) returns (s: State)
    requires Ordinary(c) && r in c.pods
    ensures Reachable(c, s)
    ensures s.now == Again(c) && s.current && s.events == 0 && s.marks == map[r := c.offset(r)]
    ensures s.pods == Initial(c).pods[r := Serving]
  {
    hide Apply, Reachable;
    InitialReachable(c);
    s := FireStart(c, Initial(c), r);
    s := FireStop(c, s, r);
    s := FireMark(c, s, r);
    s := FireLeave(c, s, r);
    s := FireTick(c, s, Again(c));
    s := FireStart(c, s, r);
  }

  lemma FireLeave(c: Config, s: State, p: Id) returns (s': State)
    requires Reachable(c, s) && p in s.pods && s.pods[p].Draining?
    ensures Reachable(c, s')
    ensures s' == s.(pods := s.pods[p := Left(s.pods[p].stopped, s.pods[p].began, false, 0)])
  {
    s' := Fire(c, s, Leave(p));
  }

  lemma FireClear(c: Config, s: State, p: Id) returns (s': State)
    requires Reachable(c, s) && p in s.pods && s.pods[p].Serving?
    ensures Reachable(c, s') && s' == s.(marks := s.marks - {p})
  {
    s' := Fire(c, s, Clear(p));
  }

  lemma AllServe(c: Config, p: Id, q: Id, r: Id) returns (s: State)
    requires Ordinary(c) && p in c.pods && q in c.pods && r in c.pods && p != q && r != q && p != r
    ensures Reachable(c, s)
    ensures s.now == Again(c) && s.current && s.events == 0 && s.marks == map[r := c.offset(r)]
    ensures s.pods == Initial(c).pods[r := Serving][p := Serving][q := Serving]
  {
    s := RDrainsOnce(c, r);
    hide Apply, Reachable, Again;
    s := FireStart(c, s, p);
    s := FireStart(c, s, q);
  }

  lemma QDrains(c: Config, p: Id, q: Id, r: Id) returns (s: State)
    requires Ordinary(c) && p in c.pods && q in c.pods && r in c.pods && p != q && r != q && p != r
    ensures Reachable(c, s) && RServesAgain(c, s, p, q, r)
  {
    s := AllServe(c, p, q, r);
    hide Apply, Reachable, Again, Ordinary, Stale;
    s := FireStop(c, s, q);
    s := FireBlindMark(c, s, q);
  }

  /** A mark whose read failed, and which prunes nothing. */
  lemma FireBlindMark(c: Config, s: State, p: Id) returns (s': State)
    requires Reachable(c, s) && p in s.pods && s.pods[p].Draining?
    ensures Reachable(c, s')
    ensures s' == s.(
      marks := s.marks[p := s.pods[p].began],
      pods := s.pods[p := s.pods[p].(marked := true, writes := s.pods[p].writes + {Write(map[], s.now)})])
  {
    hide Apply, Reachable;
    s' := FireRead(c, s, p, true);
    s' := FireLand(c, s', p, Write(map[], s.now));
    assert s.marks - {} == s.marks;
  }

  /** p and r drain, and r's mark of this drain is pruned by p's late write, for one of its first. */
  ghost predicate RPruned(c: Config, s: State, p: Id, q: Id, r: Id, delay: nat) {
    && s.now == StopsAt(c, r, delay) && s.current && s.events == 0 && s.pods.Keys == c.pods
    && s.marks.Keys == {p, q}
    && q in s.pods && s.pods[q].Draining? && s.pods[q].marked && s.pods[q].stopped == Again(c)
    && s.marks[q] == Again(c) + c.offset(q)
    && BothDrain(c, s, p, r, delay)
    && OthersAbsent(s, {p, q, r})
  }

  ghost predicate BothDrain(c: Config, s: State, p: Id, r: Id, delay: nat) {
    && p in s.pods && s.pods[p].Draining? && s.pods[p].marked && s.pods[p].stopped == StopsAt(c, r, delay)
    && r in s.pods && s.pods[r].Draining? && s.pods[r].marked && s.pods[r].stopped == StopsAt(c, r, delay)
  }

  /** p has stopped and read the marks, r's first among them, which goes then. */
  ghost predicate PRead(c: Config, s: State, p: Id, q: Id, r: Id, delay: nat) {
    && s.now == StopsAt(c, r, delay) && s.current && s.events == 0 && s.pods.Keys == c.pods
    && s.marks == map[q := Again(c) + c.offset(q)]
    && q in s.pods && s.pods[q].Draining? && s.pods[q].marked && s.pods[q].stopped == Again(c)
    && p in s.pods && s.pods[p].Draining? && s.pods[p].stopped == s.now
    && Write(map[r := c.offset(r), q := Again(c) + c.offset(q)], s.now) in s.pods[p].writes
    && r in s.pods && s.pods[r] == Serving
    && OthersAbsent(s, {p, q, r})
  }

  lemma PReadsOld(c: Config, p: Id, q: Id, r: Id, delay: nat) returns (s: State)
    requires Astray(c, p, q, r, delay)
    ensures Reachable(c, s) && PRead(c, s, p, q, r, delay)
  {
    s := QDrains(c, p, q, r);
    TimesInOrder(c, p, q, r, delay);
    hide Apply, Reachable, Astray, Again, StopsAt;
    s := FireTick(c, s, StopsAt(c, r, delay));
    s := FireStop(c, s, p);
    s := FireRead(c, s, p, false);
    s := FireClear(c, s, r);
  }

  /** By the time p and r stop, only r's mark of its first drain is too old, for p and for r. */
  lemma OldThen(c: Config, p: Id, q: Id, r: Id, delay: nat, marks: map<Id, int>)
    requires Astray(c, p, q, r, delay)
    requires marks == map[r := c.offset(r), q := Again(c) + c.offset(q)] || marks == map[q := Again(c) + c.offset(q)]
    ensures Stale(marks, p, StopsAt(c, r, delay) + c.offset(p), c.MarkedWithin()) == marks.Keys - {q}
    ensures Stale(marks, r, StopsAt(c, r, delay) + c.offset(r), c.MarkedWithin()) == {}
  {
    TimesInOrder(c, p, q, r, delay);
    hide Again, StopsAt, Ordinary, c.MarkedWithin;
  }

  /** r drains too and its mark is in place; p's write has not landed. */
  ghost predicate RMarked(c: Config, s: State, p: Id, q: Id, r: Id, delay: nat) {
    && s.now == StopsAt(c, r, delay) && s.current && s.events == 0 && s.pods.Keys == c.pods
    && s.marks.Keys == {q, r} && s.marks[q] == Again(c) + c.offset(q)
    && q in s.pods && s.pods[q].Draining? && s.pods[q].marked && s.pods[q].stopped == Again(c)
    && p in s.pods && s.pods[p].Draining? && s.pods[p].stopped == s.now
    && Write(map[r := c.offset(r), q := Again(c) + c.offset(q)], s.now) in s.pods[p].writes
    && r in s.pods && s.pods[r].Draining? && s.pods[r].marked && s.pods[r].stopped == s.now
    && OthersAbsent(s, {p, q, r})
  }

  lemma RMarks(c: Config, p: Id, q: Id, r: Id, delay: nat) returns (s: State)
    requires Astray(c, p, q, r, delay)
    ensures Reachable(c, s) && RMarked(c, s, p, q, r, delay)
  {
    s := PReadsOld(c, p, q, r, delay);
    OldThen(c, p, q, r, delay, s.marks);
    hide Apply, Reachable, Again, StopsAt, Ordinary, Stale;
    s := FireStop(c, s, r);
    s := FireMark(c, s, r);
  }

  lemma MarkForMark(marks: map<Id, int>, p: Id, q: Id, r: Id, began: int)
    requires marks.Keys == {q, r} && p != q && r != q && p != r
    ensures var now := (marks - {r})[p := began]; now.Keys == {p, q} && now[q] == marks[q]
  {
  }

  lemma PPrunesR(c: Config, p: Id, q: Id, r: Id, delay: nat) returns (s: State)
    requires Astray(c, p, q, r, delay)
    ensures Reachable(c, s) && RPruned(c, s, p, q, r, delay)
  {
    s := RMarks(c, p, q, r, delay);
    var read := map[r := c.offset(r), q := Again(c) + c.offset(q)];
    OldThen(c, p, q, r, delay, read);
    assert read.Keys - {q} == {r};
    MarkForMark(s.marks, p, q, r, s.pods[p].began);
    hide Apply, Reachable, Again, StopsAt, Ordinary, Stale;
    s := FireLand(c, s, p, Write(read, s.now));
  }

  /** q has left early at the end of its drain, relying on r. */
  ghost predicate QGone(c: Config, s: State, p: Id, q: Id, r: Id, delay: nat) {
    && s.now == Again(c) + c.drainTimeout && s.current && s.pods.Keys == c.pods
    && s.marks.Keys == {p, q} && s.marks[q] == Again(c) + c.offset(q)
    && q in s.polled && s.polled[q] == s.now + c.server
    && LeftEarly(s, q) && BothDrain(c, s, p, r, delay)
    && OthersAbsent(s, {p, q, r})
  }

  /** q's drain is at its end, q and r have just polled, and r has no mark. */
  ghost predicate QAtEnd(c: Config, s: State, p: Id, q: Id, r: Id, delay: nat) {
    && s.now == Again(c) + c.drainTimeout && s.current && s.pods.Keys == c.pods
    && s.marks.Keys == {p, q} && s.marks[q] == Again(c) + c.offset(q)
    && q in s.polled && s.polled[q] == s.now + c.server && r in s.polled && s.polled[r] == s.now + c.server
    && q in s.pods && s.pods[q].Draining? && s.pods[q].marked && s.pods[q].stopped == Again(c)
    && BothDrain(c, s, p, r, delay)
    && OthersAbsent(s, {p, q, r})
  }

  lemma QEnds(c: Config, p: Id, q: Id, r: Id, delay: nat) returns (s: State)
    requires Astray(c, p, q, r, delay)
    ensures Reachable(c, s) && QAtEnd(c, s, p, q, r, delay)
  {
    s := PPrunesR(c, p, q, r, delay);
    TimesInOrder(c, p, q, r, delay);
    hide Apply, Reachable, Again, StopsAt, LastListed;
    s := FireTick(c, s, Again(c) + c.drainTimeout);
    s := FirePoll(c, s, q);
    s := FirePoll(c, s, r);
  }

  lemma QLeavesOnR(c: Config, p: Id, q: Id, r: Id, delay: nat) returns (s: State)
    requires Astray(c, p, q, r, delay)
    ensures Reachable(c, s) && QGone(c, s, p, q, r, delay)
  {
    s := QEnds(c, p, q, r, delay);
    hide Apply, Reachable, Again, StopsAt, LastListed;
    s := FireExit(c, s, q, r);
  }

  /** q has left early, relying on r, whose mark is gone; r has read the pollers, which list q. */
  ghost predicate RSaw(c: Config, s: State, p: Id, q: Id, r: Id, delay: nat) {
    && s.now == Again(c) + LastListed(c, r) && s.current && s.pods.Keys == c.pods
    && s.marks.Keys == {p, q} && s.marks[q] == Again(c) + c.offset(q)
    && LeftEarly(s, q) && BothDrain(c, s, p, r, delay)
    && s.pods[r].seen.Some? && s.pods[r].seen.value.at == s.now
    && q in s.pods[r].seen.value.polled
    && s.pods[r].seen.value.polled[q] == Again(c) + c.drainTimeout + c.server
    && OthersAbsent(s, {p, q, r})
  }

  lemma RSees(c: Config, p: Id, q: Id, r: Id, delay: nat) returns (s: State)
    requires Astray(c, p, q, r, delay)
    ensures Reachable(c, s) && RSaw(c, s, p, q, r, delay)
  {
    s := QLeavesOnR(c, p, q, r, delay);
    TimesInOrder(c, p, q, r, delay);
    hide Apply, Reachable, Again, StopsAt;
    s := FireTick(c, s, Again(c) + LastListed(c, r));
    s := FireSee(c, s, r);
  }

  /** p has pruned q's mark and left early, relying on r; r still holds the pollers it read. */
  ghost predicate PLeft(c: Config, s: State, p: Id, q: Id, r: Id, delay: nat) {
    && s.now == PrunesAt(c, p, q, r) && s.pods.Keys == c.pods
    && q !in s.marks && LeftEarly(s, q) && LeftEarly(s, p)
    && r in s.pods && s.pods[r].Draining? && s.pods[r].stopped == StopsAt(c, r, delay)
    && s.pods[r].seen.Some? && s.pods[r].seen.value.at == Again(c) + LastListed(c, r)
    && q in s.pods[r].seen.value.polled
    && s.pods[r].seen.value.polled[q] == Again(c) + c.drainTimeout + c.server
    && OthersAbsent(s, {p, q, r})
  }

  /** The same before p left, its mark and r's poll in place. */
  ghost predicate QPruned(c: Config, s: State, p: Id, q: Id, r: Id, delay: nat) {
    && s.now == PrunesAt(c, p, q, r) && s.current && s.pods.Keys == c.pods
    && q !in s.marks && r !in s.marks && p in s.marks && LeftEarly(s, q)
    && r in s.polled && s.polled[r] == s.now + c.server
    && BothDrain(c, s, p, r, delay)
    && s.pods[r].seen.Some? && s.pods[r].seen.value.at == Again(c) + LastListed(c, r)
    && q in s.pods[r].seen.value.polled
    && s.pods[r].seen.value.polled[q] == Again(c) + c.drainTimeout + c.server
    && OthersAbsent(s, {p, q, r})
  }

  lemma PPrunesQ(c: Config, p: Id, q: Id, r: Id, delay: nat) returns (s: State)
    requires Astray(c, p, q, r, delay)
    ensures Reachable(c, s) && QPruned(c, s, p, q, r, delay)
  {
    s := RSees(c, p, q, r, delay);
    TimesInOrder(c, p, q, r, delay);
    hide Apply, Reachable, Again, StopsAt, PrunesAt, LastListed;
    s := FireTick(c, s, PrunesAt(c, p, q, r));
    s := FireMark(c, s, p);
    s := FirePoll(c, s, r);
  }

  lemma PLeavesOnR(c: Config, p: Id, q: Id, r: Id, delay: nat) returns (s: State)
    requires Astray(c, p, q, r, delay)
    ensures Reachable(c, s) && PLeft(c, s, p, q, r, delay)
  {
    s := PPrunesQ(c, p, q, r, delay);
    TimesInOrder(c, p, q, r, delay);
    hide Apply, Reachable, Again, StopsAt, PrunesAt, LastListed;
    s := FireExit(c, s, p, r);
  }

  /**
   * q and p have left early, both relying on r: its mark was pruned by p's late write, and q's by p's
   * clock. r marks again, and relies on q, which its view of the pollers still lists.
   */
  lemma BadThree(c: Config, p: Id, q: Id, r: Id, delay: nat) returns (s: State)
    requires Astray(c, p, q, r, delay)
    ensures Reachable(c, s) && AllLeftEarly(s)
  {
    s := PLeavesOnR(c, p, q, r, delay);
    TimesInOrder(c, p, q, r, delay);
    hide Apply, Reachable;
    s := FireMark(c, s, r);
    s := FireDecide(c, s, r, q, s.now);
    assert LeftEarly(s, p);
  }

  /* ---- the bound ---- */

  /** `delay` is what checks and marks do take: three pods need no more than the grace. */
  lemma BadRun(c: Config, p: Id, q: Id, r: Id, delay: nat) returns (s: State)
    requires Ordinary(c) && p in c.pods && q in c.pods && r in c.pods && p != q && r != q
    requires delay <= c.lag && (p == r || delay < c.Grace())
    requires (c.offset(p) - c.offset(q)) + (c.server - c.offset(r)) + delay > DRAIN_MARK_SLACK
    ensures Reachable(c, s) && AllLeftEarly(s)
  {
    hide Reachable;
    if r == p {
      s := BadPair(c, p, q);
    } else {
      s := BadThree(c, p, q, r, delay);
    }
  }

  lemma AtMostTwo(c: Config, p: Id, q: Id, r: Id)
    requires |c.pods| <= 2 && p in c.pods && q in c.pods && r in c.pods && p != q && r != q
    ensures p == r
  {
    if p != r {
      assert {p, q, r} <= c.pods;
      Subset({p, q, r}, c.pods);
    }
  }

  /**
   * Exactly how far the clocks may differ, with the time a check or a mark may take. The slack covers
   * that and one difference between two clocks, but three pods can add two of them up: q's mark, pruned
   * by p's clock, is missed by r, which still lists q by its own.
   */
  lemma SafeExactly(c: Config)
    requires Ordinary(c) && c.lag < c.Grace()
    ensures (forall s :: Reachable(c, s) ==> !AllLeftEarly(s)) <==> ClocksAgree(c)
  {
    if ClocksAgree(c) {
      forall s | Reachable(c, s)
        ensures !AllLeftEarly(s)
      {
        NeverAllLeaveEarly(c, s);
      }
    } else {
      var p, q, r :| p in c.pods && q in c.pods && r in c.pods && p != q && r != q
        && (c.offset(p) - c.offset(q)) + (c.server - c.offset(r)) + c.lag > DRAIN_MARK_SLACK;
      var s := BadRun(c, p, q, r, c.lag);
    }
  }

  /**
   * Whatever checks and marks may take, safety needs the bound with every delay they can have: any within
   * the lag where one pod prunes and lists, any shorter than the grace too where two do.
   */
  lemma SafeNeeds(c: Config, p: Id, q: Id, r: Id, delay: nat)
    requires Ordinary(c) && p in c.pods && q in c.pods && r in c.pods && p != q && r != q
    requires delay <= c.lag && (p == r || delay < c.Grace())
    requires forall s :: Reachable(c, s) ==> !AllLeftEarly(s)
    ensures (c.offset(p) - c.offset(q)) + (c.server - c.offset(r)) + delay <= DRAIN_MARK_SLACK
  {
    if (c.offset(p) - c.offset(q)) + (c.server - c.offset(r)) + delay > DRAIN_MARK_SLACK {
      var s := BadRun(c, p, q, r, delay);
      assert false;
    }
  }

  /** Every two clocks, Temporal's included, are within `bound`. */
  ghost predicate Within(c: Config, bound: int) {
    forall p, q :: p in c.pods && q in c.pods ==>
      && -bound <= c.offset(p) - c.offset(q) <= bound
      && -bound <= c.offset(p) - c.server <= bound
  }

  /** The slack has to hold one clock difference and the lag with two pods, and two of them with more. */
  lemma SlackIsEnough(c: Config, bound: nat)
    requires Within(c, bound)
    requires 2 * bound + c.lag <= DRAIN_MARK_SLACK || (bound + c.lag <= DRAIN_MARK_SLACK && |c.pods| <= 2)
    ensures ClocksAgree(c)
  {
    if |c.pods| <= 2 {
      forall p, q, r | p in c.pods && q in c.pods && r in c.pods && p != q && r != q
        ensures p == r
      {
        AtMostTwo(c, p, q, r);
      }
    }
  }

  /** Clocks within the slack of one another are not enough for three pods. */
  lemma SlackIsNotEnough()
    ensures exists c: Config, s ::
      Ordinary(c) && c.lag == 0 && Within(c, DRAIN_MARK_SLACK) && Reachable(c, s) && AllLeftEarly(s)
  {
    var c := Config({"p", "q", "r"}, 360 * SECOND,
                    (id: Id) => if id == "p" then 40 * SECOND else 0, 40 * SECOND, 0);
    var s := BadRun(c, "p", "q", "r", 0);
  }

  /* ---- the drain loop itself ---- */

  /** What one turn of the loop learned, `at` microseconds after the drain began. */
  datatype Answer = Answer(at: nat, drained: bool, current: bool)

  datatype Outcome = Drained | Current | TimedOut | StoppedNow

  /** The loop had this answer before its bound and before the second signal. */
  ghost predicate InTime(a: Answer, timeout: nat, stopNow: Option<nat>) {
    a.at < timeout && (stopNow.Some? ==> a.at < stopNow.value)
  }

  /** The first answer in time to say that nothing is left to drain, or past the grace that a peer serves. */
  ghost predicate EndsAt(answers: seq<Answer>, timeout: nat, grace: nat, stopNow: Option<nat>, k: nat) {
    && k < |answers| && (answers[k].drained || (answers[k].current && grace <= answers[k].at))
    && (forall j :: 0 <= j <= k ==> InTime(answers[j], timeout, stopNow))
    && forall j :: 0 <= j < k ==> !answers[j].drained && (answers[j].current ==> answers[j].at < grace)
  }

  /**
   * `_drain`: the first answer that ends the drain before it is cut short decides, and "drained"
   * comes before "current"; otherwise the cut itself does, by whichever comes first.
   */
  method DrainLoop(answers: seq<Answer>, timeout: nat, grace: nat, stopNow: Option<nat>)
    returns (outcome: Outcome)
    ensures outcome.Drained? <==>
      exists k: nat :: EndsAt(answers, timeout, grace, stopNow, k) && answers[k].drained
    ensures outcome.Current? <==>
      exists k: nat :: EndsAt(answers, timeout, grace, stopNow, k) && !answers[k].drained
    ensures outcome.StoppedNow? ==> stopNow.Some? && stopNow.value < timeout
    ensures outcome.TimedOut? ==> stopNow.None? || timeout <= stopNow.value
  {
    var cut := if stopNow.Some? && stopNow.value < timeout then stopNow.value else timeout;
    var k: nat := 0;
    while k < |answers| && answers[k].at < cut
      invariant k <= |answers|
      invariant forall j :: 0 <= j < k ==> InTime(answers[j], timeout, stopNow)
      invariant forall j :: 0 <= j < k ==> !answers[j].drained && (answers[j].current ==> answers[j].at < grace)
    {
      if answers[k].drained {
        assert EndsAt(answers, timeout, grace, stopNow, k);
        return Drained;
      }
      if answers[k].at >= grace && answers[k].current {
        assert EndsAt(answers, timeout, grace, stopNow, k);
        return Current;
      }
      k := k + 1;
    }
    outcome := if stopNow.Some? && stopNow.value < timeout then StoppedNow else TimedOut;
  }
}
