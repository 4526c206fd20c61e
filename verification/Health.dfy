/**
 * A credential's health: the row's columns, what reads back, and each conditional UPDATE of
 * agent/src/credentials.ts (agent-durable/src/scadbuddy_durable/credentials.py writes the same).
 * Instants are microseconds of the database's clock.
 */
module Health {
  import opened Wrappers
  import opened Json

  datatype Status = Active | CoolingDown | Disabled

  datatype Row = Row(
    status: Status, until: Option<int>, epoch: int,
    lastError: Option<Text>, lastErrorAt: Option<int>, lastUsedAt: Option<int>)

  datatype Event =
    | Used
    | Refused(reason: Text)
    | RateLimited(reason: Text, until: int, replacing: Option<int>)
    | Transient(reason: Text)

  datatype Transition = Transition(before: Status, after: Status, recovered: bool)

  datatype Recorded = Recorded(row: Row, transition: Option<Transition>)

  /** What `rows` shows: an expired cooldown as `active`. */
  datatype View = View(status: Status, until: Option<int>)

  /** The table's check: a time exactly while cooling down. */
  predicate Valid(r: Row) {
    r.status == CoolingDown <==> r.until.Some?
  }

  function StatusAt(r: Row, now: int): Status {
    if r.status == CoolingDown && r.until.Some? && r.until.value <= now then Active else r.status
  }

  function ViewAt(r: Row, now: int): View {
    View(StatusAt(r, now),
         if r.status == CoolingDown && r.until.Some? && r.until.value > now then r.until else None)
  }

  /** GREATEST, which ignores NULL. */
  function Greatest(a: int, b: Option<int>): int {
    if b.Some? && b.value > a then b.value else a
  }

  function RecordEvent(r: Row, e: Event, now: int): Row {
    match e
    case Used =>
      r.(lastUsedAt := Some(now),
         status := if StatusAt(r, now) == Active then Active else r.status,
         until := if StatusAt(r, now) == Active then None else r.until)
    case Refused(reason) =>
      r.(status := Disabled, until := None, lastError := Some(reason), lastErrorAt := Some(now))
    case RateLimited(reason, until, replacing) =>
      r.(status := if r.status == Disabled then Disabled else CoolingDown,
         until :=
           if r.status == Disabled then None
           else if replacing.Some? && r.until == replacing then Some(until)
           else Some(Greatest(until, if StatusAt(r, now) == CoolingDown then r.until else None)),
         lastError := Some(reason), lastErrorAt := Some(now))
    case Transient(reason) =>
      r.(lastError := Some(reason), lastErrorAt := Some(now))
  }

  /** `record`: of an event from another epoch than the row is in, nothing. */
  function Record(r: Row, epoch: int, e: Event, now: int): Recorded {
    if r.epoch != epoch then Recorded(r, None)
    else
      var after := RecordEvent(r, e, now);
      Recorded(after, Some(Transition(StatusAt(r, now), after.status,
                                      r.status == CoolingDown && after.status == Active)))
  }

  /** `reset`, and what a new secret does to the health. */
  function Fresh(r: Row): Row {
    r.(status := Active, until := None, lastError := None, lastErrorAt := None, epoch := r.epoch + 1)
  }

  /* ---- one step ---- */

  datatype Op = Report(epoch: int, event: Event) | Renew

  function Do(r: Row, op: Op, now: int): Row {
    match op
    case Report(epoch, event) => Record(r, epoch, event, now).row
    case Renew => Fresh(r)
  }

  /** Every step keeps the table's check, and only a reset or a new secret moves the epoch. */
  lemma DoValid(r: Row, op: Op, now: int)
    requires Valid(r)
    ensures Valid(Do(r, op, now))
    ensures Do(r, op, now).epoch == r.epoch + if op.Renew? then 1 else 0
  {
  }

  /** A disabled row leaves that state exactly by a reset or a new secret. */
  lemma DisabledLeaves(r: Row, op: Op, now: int)
    requires Valid(r) && r.status == Disabled
    ensures ViewAt(Do(r, op, now), now).status != Disabled <==> op.Renew?
  {
  }

  /**
   * Within its epoch, a cooldown still ahead gets earlier exactly when the report replaces the very
   * time it holds with a sooner one; it ends before its time only by being disabled.
   */
  lemma CooldownShortens(r: Row, epoch: int, e: Event, now: int)
    requires Valid(r) && r.status == CoolingDown && r.until.value > now
    ensures var after := Record(r, epoch, e, now).row;
            && (after.status == CoolingDown || (after.status == Disabled && epoch == r.epoch && e.Refused?))
            && (after.status == CoolingDown ==>
                  (after.until.value < r.until.value <==>
                     epoch == r.epoch && e.RateLimited? && e.replacing == r.until && e.until < r.until.value))
  {
  }

  /** `recovered` is reported exactly when a success clears a cooldown that had passed. */
  lemma RecoveredIff(r: Row, epoch: int, e: Event, now: int)
    requires Valid(r)
    ensures var t := Record(r, epoch, e, now).transition;
            t.Some? && t.value.recovered <==>
              epoch == r.epoch && e.Used? && r.status == CoolingDown && r.until.value <= now
  {
  }

  /* ---- the durable port ---- */

  /** What a durable segment reports of the key it ran on. */
  datatype Reported = Answered | Limited(until: int) | Failed

  /** `_UPDATES` over `_BEFORE`, of record_health. */
  function RecordHealth(r: Row, epoch: int, h: Reported, reason: Text, now: int): Recorded {
    if r.epoch != epoch then Recorded(r, None)
    else
      var before := StatusAt(r, now);
      var after :=
        match h
        case Answered =>
          if before == Active then r.(lastUsedAt := Some(now), status := Active, until := None)
          else r.(lastUsedAt := Some(now))
        case Limited(until) =>
          if r.status == Disabled then r.(until := None, lastError := Some(reason), lastErrorAt := Some(now))
          else
            r.(status := CoolingDown,
               until := Some(Greatest(until, if before == CoolingDown then r.until else None)),
               lastError := Some(reason), lastErrorAt := Some(now))
        case Failed => r.(lastError := Some(reason), lastErrorAt := Some(now));
      Recorded(after, Some(Transition(before, after.status, r.status == CoolingDown && after.status == Active)))
  }

  /** The event of the agent's that a report is; none of them disables. */
  function EventOf(h: Reported, reason: Text): Event {
    match h
    case Answered => Used
    case Limited(until) => RateLimited(reason, until, None)
    case Failed => Transient(reason)
  }

  /** Classic and durable turns agree on a key's state: both write the same, so both are in every run below. */
  lemma PortRecordsTheSame(r: Row, epoch: int, h: Reported, reason: Text, now: int)
    ensures RecordHealth(r, epoch, h, reason, now) == Record(r, epoch, EventOf(h, reason), now)
    ensures RecordHealth(r, epoch, h, reason, now).row.status == Disabled ==> r.status == Disabled
  {
  }

  /** The rows a durable segment may use are those the agent shows as active. */
  lemma UsableIff(r: Row, now: int)
    requires Valid(r)
    ensures ViewAt(r, now).status == Active <==>
            r.status == Active || (r.status == CoolingDown && r.until.value <= now)
  {
  }

  /* ---- any interleaving ---- */

  datatype Timed = Timed(at: int, op: Op)

  predicate Monotone(ops: seq<Timed>, from: int)
    decreases |ops|
  {
    if ops == [] then true else ops[0].at >= from && Monotone(ops[1..], ops[0].at)
  }

  function Last(ops: seq<Timed>, from: int): int
    decreases |ops|
  {
    if ops == [] then from else Last(ops[1..], ops[0].at)
  }

  function Run(r: Row, ops: seq<Timed>): Row
    decreases |ops|
  {
    if ops == [] then r else Run(Do(r, ops[0].op, ops[0].at), ops[1..])
  }

  /** The events recorded in the row's last epoch; `so` are those recorded before `ops`. */
  function Heard(epoch: int, so: set<Event>, ops: seq<Timed>): set<Event>
    decreases |ops|
  {
    if ops == [] then so
    else match ops[0].op
      case Renew => Heard(epoch + 1, {}, ops[1..])
      case Report(e, event) => Heard(epoch, if e == epoch then so + {event} else so, ops[1..])
  }

  /** No report replaces a provisional time. */
  predicate Plain(ops: seq<Timed>) {
    forall t :: t in ops && t.op.Report? && t.op.event.RateLimited? ==> t.op.event.replacing.None?
  }

  /** The view that a set of events alone decides: disabled, else the latest time while it is ahead. */
  ghost predicate Decides(heard: set<Event>, now: int, v: View) {
    if exists e :: e in heard && e.Refused? then
      v == View(Disabled, None)
    else if exists e :: e in heard && e.RateLimited? && e.until > now then
      && v.status == CoolingDown && v.until.Some?
      && (exists e :: e in heard && e.RateLimited? && e.until == v.until.value)
      && (forall e :: e in heard && e.RateLimited? ==> e.until <= v.until.value)
    else
      v == View(Active, None)
  }

  /** What the row holds of the events heard by `now`. */
  ghost predicate Holds(r: Row, heard: set<Event>, now: int) {
    match r.status
    case Disabled => r.until.None? && exists e :: e in heard && e.Refused?
    case CoolingDown =>
      && r.until.Some?
      && (forall e :: e in heard ==> !e.Refused?)
      && (exists e :: e in heard && e.RateLimited? && e.until == r.until.value)
      && (forall e :: e in heard && e.RateLimited? ==> e.until <= r.until.value || e.until <= now)
    case Active =>
      && r.until.None?
      && (forall e :: e in heard ==> !e.Refused?)
      && (forall e :: e in heard && e.RateLimited? ==> e.until <= now)
  }

  lemma HoldsStep(r: Row, heard: set<Event>, now: int, e: Event, at: int)
    requires Holds(r, heard, now) && at >= now
    requires e.RateLimited? ==> e.replacing.None?
    ensures Holds(RecordEvent(r, e, at), heard + {e}, at)
  {
  }

  lemma {:induction false} RunHolds(r: Row, heard: set<Event>, ops: seq<Timed>, now: int)
    requires Holds(r, heard, now) && Monotone(ops, now) && Plain(ops)
    ensures Holds(Run(r, ops), Heard(r.epoch, heard, ops), Last(ops, now))
    decreases |ops|
  {
    hide Holds, RecordEvent;
    if ops != [] {
      var at, op := ops[0].at, ops[0].op;
      assert ops[0] in ops;
      assert Plain(ops[1..]) by {
        assert forall t :: t in ops[1..] ==> t in ops;
      }
      match op {
        case Renew =>
          FreshHolds(r, at);
          RunHolds(Fresh(r), {}, ops[1..], at);
        case Report(epoch, event) =>
          if epoch == r.epoch {
            HoldsStep(r, heard, now, event, at);
            KeepsEpoch(r, event, at);
            RunHolds(RecordEvent(r, event, at), heard + {event}, ops[1..], at);
          } else {
            HoldsLater(r, heard, now, at);
            RunHolds(r, heard, ops[1..], at);
          }
      }
    }
  }

  lemma FreshHolds(r: Row, now: int)
    ensures Holds(Fresh(r), {}, now)
  {
  }

  lemma KeepsEpoch(r: Row, e: Event, now: int)
    ensures RecordEvent(r, e, now).epoch == r.epoch
  {
  }

  lemma HoldsLater(r: Row, heard: set<Event>, now: int, later: int)
    requires Holds(r, heard, now) && later >= now
    ensures Holds(r, heard, later)
  {
  }

  lemma HeldDecides(r: Row, heard: set<Event>, now: int)
    requires Holds(r, heard, now)
    ensures Decides(heard, now, ViewAt(r, now))
  {
  }

  /**
   * On a monotone clock the view is decided by the set of events of the last epoch: by no order
   * among pods, by no event of an older epoch, by no `used` or `transient`.
   */
  lemma ViewIsTheEvents(r: Row, start: int, ops: seq<Timed>, now: int)
    requires r.status == Active && r.until.None?
    requires Monotone(ops, start) && Plain(ops) && now >= Last(ops, start)
    ensures Decides(Heard(r.epoch, {}, ops), now, ViewAt(Run(r, ops), now))
  {
    RunHolds(r, {}, ops, start);
    HoldsLater(Run(r, ops), Heard(r.epoch, {}, ops), Last(ops, start), now);
    HeldDecides(Run(r, ops), Heard(r.epoch, {}, ops), now);
  }

  /** Only refusals and rate limits weigh. */
  function Weighing(heard: set<Event>): set<Event> {
    set e | e in heard && (e.Refused? || e.RateLimited?)
  }

  /** Two runs whose last epochs heard the same refusals and rate limits show the same. */
  lemma OrderIsIrrelevant(r: Row, start: int, ops: seq<Timed>, r2: Row, start2: int, ops2: seq<Timed>, now: int)
    requires r.status == Active && r.until.None? && r2.status == Active && r2.until.None?
    requires Monotone(ops, start) && Plain(ops) && now >= Last(ops, start)
    requires Monotone(ops2, start2) && Plain(ops2) && now >= Last(ops2, start2)
    requires Weighing(Heard(r.epoch, {}, ops)) == Weighing(Heard(r2.epoch, {}, ops2))
    ensures ViewAt(Run(r, ops), now) == ViewAt(Run(r2, ops2), now)
  {
    hide Run, ViewAt, Heard, Monotone, Last, Plain;
    ViewIsTheEvents(r, start, ops, now);
    ViewIsTheEvents(r2, start2, ops2, now);
    SameView(Heard(r.epoch, {}, ops), Heard(r2.epoch, {}, ops2), now,
             ViewAt(Run(r, ops), now), ViewAt(Run(r2, ops2), now));
  }

  lemma SameView(a: set<Event>, b: set<Event>, now: int, v: View, w: View)
    requires Weighing(a) == Weighing(b) && Decides(a, now, v) && Decides(b, now, w)
    ensures v == w
  {
    forall e: Event | e.Refused? || e.RateLimited?
      ensures e in a <==> e in b
    {
      assert e in a <==> e in Weighing(a);
      assert e in b <==> e in Weighing(b);
    }
    if v.status == CoolingDown && w.status == CoolingDown {
      var x :| x in a && x.RateLimited? && x.until == v.until.value;
      var y :| y in b && y.RateLimited? && y.until == w.until.value;
      assert x in b && y in a;
    }
  }

  /* ---- the last error and the last use ---- */

  /** What an event says went wrong. */
  function ReasonOf(e: Event): Option<Text> {
    match e
    case Used => None
    case Refused(reason) => Some(reason)
    case RateLimited(reason, _, _) => Some(reason)
    case Transient(reason) => Some(reason)
  }

  /** No renewal, and of the row's epoch no event that says something went wrong. */
  predicate Quiet(ops: seq<Timed>, epoch: int) {
    forall t :: t in ops ==> t.op.Report? && (t.op.epoch != epoch || t.op.event.Used?)
  }

  lemma {:induction false} QuietKeeps(r: Row, ops: seq<Timed>)
    requires Quiet(ops, r.epoch)
    ensures var after := Run(r, ops);
            after.lastError == r.lastError && after.lastErrorAt == r.lastErrorAt && after.epoch == r.epoch
    decreases |ops|
  {
    if ops != [] {
      assert ops[0] in ops && forall t :: t in ops[1..] ==> t in ops;
      QuietKeeps(Do(r, ops[0].op, ops[0].at), ops[1..]);
    }
  }

  /** The row shows the last thing that went wrong in its epoch, and when; since a renewal, nothing. */
  lemma LastErrorShown(r: Row, t: Timed, later: seq<Timed>)
    requires var epoch := if t.op.Renew? then r.epoch + 1 else r.epoch; Quiet(later, epoch)
    requires t.op.Report? ==> t.op.epoch == r.epoch && !t.op.event.Used?
    ensures var after := Run(r, [t] + later);
            && after.lastError == (if t.op.Renew? then None else ReasonOf(t.op.event))
            && after.lastErrorAt == if t.op.Renew? then None else Some(t.at)
  {
    assert ([t] + later)[1..] == later;
    QuietKeeps(Do(r, t.op, t.at), later);
  }

  predicate Unused(ops: seq<Timed>) {
    forall t :: t in ops ==> t.op.Report? ==> !t.op.event.Used?
  }

  lemma {:induction false} UnusedKeeps(r: Row, ops: seq<Timed>)
    requires Unused(ops)
    ensures Run(r, ops).lastUsedAt == r.lastUsedAt
    decreases |ops|
  {
    if ops != [] {
      assert ops[0] in ops && forall t :: t in ops[1..] ==> t in ops;
      UnusedKeeps(Do(r, ops[0].op, ops[0].at), ops[1..]);
    }
  }

  /** And its last use, whatever went wrong or was renewed since. */
  lemma LastUseShown(r: Row, at: int, later: seq<Timed>)
    requires Unused(later)
    ensures Run(r, [Timed(at, Report(r.epoch, Used))] + later).lastUsedAt == Some(at)
  {
    var use := Timed(at, Report(r.epoch, Used));
    assert ([use] + later)[1..] == later;
    UnusedKeeps(Do(r, use.op, at), later);
  }
}
