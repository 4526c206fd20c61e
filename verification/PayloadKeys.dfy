/**
 * The data keys of durable subjects, shared by any number of processes: `PgPayloadKeys` and `create_key`
 * of agent-durable/src/scadbuddy_durable/codec.py, `rewrapPayloadKeys` of
 * agent/src/temporal/payloadCodec.ts, and the tombstone of agent/src/sessions/forget.ts.
 * Every statement or transaction is one step, and so is what a process does between two of them.
 * Each process's cache is that of KeyCache.dfy.
 */
module PayloadKeys {
  import opened Wrappers
  import opened Bytes
  import opened Json
  import opened KeyCaches
  import opened Secrets

  /** `cacheS` is how long a process keeps a key, `cacheMax` how many it keeps. */
  datatype Config = Config(aead: Aead, keks: set<Kek>, cacheS: int, cacheMax: nat) {
    /** No two keys in use anywhere share an id. */
    ghost predicate Ok() {
      && aead.Lawful()
      && cacheS > 0
      && forall k, l :: k in keks && l in keks && k.id == l.id ==> k == l
    }
  }

  /** A row of `ai_payload_keys`. */
  datatype Row = Row(dekSealed: seq<byte>, kekId: Text)

  /** A process's memory: its cache, and when the row of each key in it was read. */
  datatype Process = Process(cache: seq<Entry>, readTimes: map<Text, int>)

  /** Where a `key_for` stands that was not answered from the cache. */
  datatype Phase = Reading | Creating | Rereading | Got(row: Option<Row>, readAt: int)

  datatype Call = Call(process: int, subject: Text, create: bool, phase: Phase)

  /** A key given: when, from a row read when, and until when the cache that gave it held it. */
  datatype Answer = Answer(subject: Text, key: seq<byte>, at: int, readAt: int, until: Option<int>)

  datatype Snap = Snap(subject: Text, row: Row)

  /** `deks` remembers the first key inserted for each subject; `forgotten` when its tombstone was written. */
  datatype State = State(
    now: int, rows: map<Text, Row>, forgotten: map<Text, int>, calls: map<int, Call>,
    processes: map<int, Process>, rewraps: map<int, Snap>, deks: map<Text, seq<byte>>, answers: set<Answer>)

  datatype Step =
    | Begin(call: int, process: int, subject: Text, create: bool)
    | Read(call: int)
    | Insert(call: int, kek: Kek, dek: seq<byte>, iv: seq<byte>)
    | Reread(call: int)
    | Finish(call: int, mounted: Option<Kek>)
    | Fail(call: int)
    | Restart(process: int)
    | Forget(subject: Text)
    | RewrapRead(rewrap: int, subject: Text)
    | RewrapWrite(rewrap: int, previous: Kek, current: Kek, iv: seq<byte>)
    | Tick(now: int)

  /** `payload_key_context`. */
  function KeyContext(subject: Text): Text {
    Ascii("dek:ai_payload_keys:") + subject
  }

  function RowOf(rows: map<Text, Row>, subject: Text): Option<Row> {
    if subject in rows then Some(rows[subject]) else None
  }

  function Memory(s: State, process: int): Process {
    if process in s.processes then s.processes[process] else Process([], map[])
  }

  ghost predicate Enabled(c: Config, s: State, step: Step) {
    match step
    case Begin(call, _, _, _) => call !in s.calls
    case Read(call) => call in s.calls && s.calls[call].phase == Reading
    case Insert(call, kek, dek, iv) =>
      && call in s.calls && s.calls[call].phase == Creating
      && kek in c.keks && |dek| == 32 && |iv| == IV_BYTES
    case Reread(call) => call in s.calls && s.calls[call].phase == Rereading
    case Finish(call, kek) => call in s.calls && s.calls[call].phase.Got? && (kek.Some? ==> kek.value in c.keks)
    case Fail(_) => true
    case Restart(_) => true
    case Forget(_) => true
    case RewrapRead(_, subject) => subject in s.rows
    case RewrapWrite(rewrap, previous, current, iv) =>
      rewrap in s.rewraps && previous in c.keks && current in c.keks && |iv| == IV_BYTES
    case Tick(now) => now >= s.now
  }

  /** What `key_for` makes of the row it read: the key, or its error. `kek` is the mounted key of that id. */
  function Opened(c: Config, subject: Text, row: Option<Row>, kek: Option<Kek>): Option<seq<byte>> {
    if row.None? || kek.None? || kek.value.id != row.value.kekId then None
    else
      match Open(c.aead, kek.value.key, row.value.dekSealed, KeyContext(subject))
      case Ok(key) => Some(key)
      case Err(_) => None
  }

  function Rewrapped(c: Config, snap: Snap, previous: Kek, current: Kek, iv: seq<byte>): Option<Row> {
    if snap.row.kekId != previous.id then None
    else
      match Open(c.aead, previous.key, snap.row.dekSealed, KeyContext(snap.subject))
      case Ok(dek) => Some(Row(Seal(c.aead, current.key, dek, KeyContext(snap.subject), iv), current.id))
      case Err(_) => None
  }

  /** Answered from the cache, or a call begins. */
  function Begun(s: State, id: int, process: int, subject: Text, create: bool): State {
    var memory := Memory(s, process);
    match Given(memory.cache, subject, s.now)
    case Some(held) =>
      var readAt := if subject in memory.readTimes then memory.readTimes[subject] else s.now;
      s.(answers := s.answers + {Answer(subject, held.key, s.now, readAt, Some(held.until))})
    case None =>
      s.(processes := s.processes[process := memory.(cache := Without(memory.cache, subject))],
         calls := s.calls[id := Call(process, subject, create, Reading)])
  }

  function Advanced(s: State, id: int, phase: Phase): State
    requires id in s.calls
  {
    s.(calls := s.calls[id := s.calls[id].(phase := phase)])
  }

  /** `create_key` under the subject's lock: unless it has a key, or a tombstone. */
  function Inserted(s: State, subject: Text, row: Row, dek: seq<byte>): State {
    if subject in s.forgotten || subject in s.rows then s
    else s.(rows := s.rows[subject := row], deks := s.deks[subject := dek])
  }

  /** The key is kept and given; without one, or in a cache for none, the call throws. */
  function Finished(c: Config, s: State, id: int, key: Option<seq<byte>>): State
    requires id in s.calls && s.calls[id].phase.Got?
  {
    var call := s.calls[id];
    var memory := Memory(s, call.process);
    if key.None? then s.(calls := s.calls - {id})
    else
      match Kept(memory.cache, Entry(call.subject, key.value, s.now + c.cacheS), s.now, c.cacheMax)
      case Err(_) => s.(calls := s.calls - {id})
      case Ok(cache) =>
        s.(calls := s.calls - {id},
           processes := s.processes[call.process :=
                          Process(cache, memory.readTimes[call.subject := call.phase.readAt])],
           answers := s.answers + {Answer(call.subject, key.value, s.now, call.phase.readAt, None)})
  }

  /** A process starts anew: its calls end, its cache is empty. */
  function Restarted(s: State, process: int): State {
    s.(processes := s.processes - {process},
       calls := map id | id in s.calls && s.calls[id].process != process :: s.calls[id])
  }

  function Written(s: State, subject: Text, previous: Text, next: Option<Row>): State {
    if next.Some? && subject in s.rows && s.rows[subject].kekId == previous then
      s.(rows := s.rows[subject := next.value])
    else s
  }

  function Tombstoned(s: State, subject: Text): State {
    s.(rows := s.rows - {subject},
       forgotten := if subject in s.forgotten then s.forgotten else s.forgotten[subject := s.now])
  }

  ghost function Apply(c: Config, s: State, step: Step): State
    requires Enabled(c, s, step)
  {
    match step
    case Begin(id, process, subject, create) => Begun(s, id, process, subject, create)
    case Read(id) =>
      var row := RowOf(s.rows, s.calls[id].subject);
      Advanced(s, id, if row.None? && s.calls[id].create then Creating else Got(row, s.now))
    case Insert(id, kek, dek, iv) =>
      var subject := s.calls[id].subject;
      var row := Row(Seal(c.aead, kek.key, dek, KeyContext(subject), iv), kek.id);
      Advanced(Inserted(s, subject, row, dek), id, Rereading)
    case Reread(id) => Advanced(s, id, Got(RowOf(s.rows, s.calls[id].subject), s.now))
    case Finish(id, mounted) =>
      Finished(c, s, id, Opened(c, s.calls[id].subject, s.calls[id].phase.row, mounted))
    case Fail(id) => s.(calls := s.calls - {id})
    case Restart(process) => Restarted(s, process)
    case Forget(subject) => Tombstoned(s, subject)
    case RewrapRead(rewrap, subject) => s.(rewraps := s.rewraps[rewrap := Snap(subject, s.rows[subject])])
    case RewrapWrite(rewrap, previous, current, iv) =>
      var snap := s.rewraps[rewrap];
      Written(s, snap.subject, previous.id, Rewrapped(c, snap, previous, current, iv))
    case Tick(now) => s.(now := now)
  }

  ghost predicate IsRun(c: Config, s: State, steps: seq<Step>)
    decreases |steps|
  {
    if steps == [] then true
    else Enabled(c, s, steps[0]) && IsRun(c, Apply(c, s, steps[0]), steps[1..])
  }

  ghost function Run(c: Config, s: State, steps: seq<Step>): State
    requires IsRun(c, s, steps)
    decreases |steps|
  {
    if steps == [] then s else Run(c, Apply(c, s, steps[0]), steps[1..])
  }

  const EMPTY := State(0, map[], map[], map[], map[], map[], map[], {})

  /* ---- the invariant ---- */

  /** The row opens, under the key it names, to the subject's one data key. */
  ghost predicate RowOk(c: Config, s: State, subject: Text, row: Row) {
    && subject in s.deks
    && forall kek :: kek in c.keks && kek.id == row.kekId ==>
         Open(c.aead, kek.key, row.dekSealed, KeyContext(subject)) == Ok(s.deks[subject])
  }

  /** Read at a time that has been, and before any tombstone. */
  ghost predicate ReadOk(s: State, subject: Text, readAt: int) {
    readAt <= s.now && (subject in s.forgotten ==> readAt <= s.forgotten[subject])
  }

  ghost predicate RowsOk(c: Config, s: State) {
    && (forall subject :: subject in s.rows ==> RowOk(c, s, subject, s.rows[subject]) && subject !in s.forgotten)
    && (forall subject :: subject in s.deks ==> subject in s.rows || subject in s.forgotten)
    && (forall subject :: subject in s.forgotten ==> s.forgotten[subject] <= s.now)
  }

  ghost predicate CallOk(c: Config, s: State, call: Call) {
    call.phase.Got? && call.phase.row.Some? ==>
      RowOk(c, s, call.subject, call.phase.row.value) && ReadOk(s, call.subject, call.phase.readAt)
  }

  ghost predicate EntryOk(c: Config, s: State, readTimes: map<Text, int>, e: Entry) {
    && e.subject in s.deks && e.key == s.deks[e.subject]
    && e.subject in readTimes && ReadOk(s, e.subject, readTimes[e.subject])
    && e.until <= s.now + c.cacheS
  }

  ghost predicate MemoryOk(c: Config, s: State, memory: Process) {
    && Distinct(memory.cache) && |memory.cache| <= c.cacheMax
    && forall e :: e in memory.cache ==> EntryOk(c, s, memory.readTimes, e)
  }

  ghost predicate AnswerOk(c: Config, s: State, a: Answer) {
    && a.subject in s.deks && a.key == s.deks[a.subject]
    && a.at <= s.now && ReadOk(s, a.subject, a.readAt)
    && (a.until.Some? ==> a.at < a.until.value <= a.at + c.cacheS)
  }

  ghost predicate HeldOk(c: Config, s: State) {
    && (forall id :: id in s.calls ==> CallOk(c, s, s.calls[id]))
    && (forall process :: process in s.processes ==> MemoryOk(c, s, s.processes[process]))
    && (forall id :: id in s.rewraps ==> RowOk(c, s, s.rewraps[id].subject, s.rewraps[id].row))
    && (forall a :: a in s.answers ==> AnswerOk(c, s, a))
  }

  ghost predicate Inv(c: Config, s: State) {
    RowsOk(c, s) && HeldOk(c, s)
  }

  /** What every step keeps: the keys there are, the tombstones, the clock. */
  ghost predicate Grows(s: State, t: State) {
    && s.now <= t.now
    && (forall subject :: subject in s.deks ==> subject in t.deks && t.deks[subject] == s.deks[subject])
    && (forall subject :: subject in s.forgotten ==>
          subject in t.forgotten && t.forgotten[subject] == s.forgotten[subject])
    && (forall subject :: subject in t.forgotten && subject !in s.forgotten ==> t.forgotten[subject] >= s.now)
  }

  lemma RowGrows(c: Config, s: State, t: State, subject: Text, row: Row)
    requires Grows(s, t) && RowOk(c, s, subject, row)
    ensures RowOk(c, t, subject, row)
  {
  }

  /** What was held stays right, and what is new is. */
  lemma HeldStep(c: Config, s: State, t: State)
    requires Grows(s, t) && HeldOk(c, s)
    requires forall id :: id in t.calls ==> (id in s.calls && t.calls[id] == s.calls[id]) || CallOk(c, t, t.calls[id])
    requires forall process :: process in t.processes ==>
               || (process in s.processes && t.processes[process] == s.processes[process])
               || MemoryOk(c, t, t.processes[process])
    requires forall id :: id in t.rewraps ==>
               || (id in s.rewraps && t.rewraps[id] == s.rewraps[id])
               || RowOk(c, t, t.rewraps[id].subject, t.rewraps[id].row)
    requires forall a :: a in t.answers ==> a in s.answers || AnswerOk(c, t, a)
    ensures HeldOk(c, t)
  {
  }

  lemma RowsStay(c: Config, s: State, t: State)
    requires RowsOk(c, s) && t.rows == s.rows && t.deks == s.deks && t.forgotten == s.forgotten && t.now >= s.now
    ensures RowsOk(c, t) && Grows(s, t)
  {
  }

  lemma SealedRowOk(c: Config, t: State, subject: Text, kek: Kek, dek: seq<byte>, iv: seq<byte>)
    requires c.Ok() && kek in c.keks && |iv| == IV_BYTES
    requires subject in t.deks && t.deks[subject] == dek
    ensures RowOk(c, t, subject, Row(Seal(c.aead, kek.key, dek, KeyContext(subject), iv), kek.id))
  {
    SealOpens(c.aead, kek.key, dek, KeyContext(subject), iv);
    hide Open, Seal, KeyContext;
  }

  /** A rewrap keeps the key, sealed under the current one from then on. */
  lemma RewrapKeepsKey(c: Config, s: State, snap: Snap, previous: Kek, current: Kek, iv: seq<byte>)
    requires c.Ok() && RowOk(c, s, snap.subject, snap.row)
    requires previous in c.keks && current in c.keks && |iv| == IV_BYTES
    ensures var next := Rewrapped(c, snap, previous, current, iv);
            && (next.Some? <==> snap.row.kekId == previous.id)
            && (next.Some? ==> RowOk(c, s, snap.subject, next.value) && next.value.kekId == current.id)
  {
    hide Open, Seal, KeyContext;
    if snap.row.kekId == previous.id {
      SealedRowOk(c, s, snap.subject, current, s.deks[snap.subject], iv);
    }
  }

  lemma OpenedKey(c: Config, s: State, subject: Text, row: Option<Row>, kek: Option<Kek>)
    requires row.Some? ==> RowOk(c, s, subject, row.value)
    requires kek.Some? ==> kek.value in c.keks
    ensures Opened(c, subject, row, kek).Some? <==> row.Some? && kek.Some? && kek.value.id == row.value.kekId
    ensures Opened(c, subject, row, kek).Some? ==>
              subject in s.deks && Opened(c, subject, row, kek).value == s.deks[subject]
  {
  }

  lemma MemoryGrows(c: Config, s: State, t: State, memory: Process)
    requires Grows(s, t) && MemoryOk(c, s, memory)
    ensures MemoryOk(c, t, memory)
  {
  }

  lemma NoMemory(c: Config, s: State, process: int)
    requires HeldOk(c, s)
    ensures MemoryOk(c, s, Memory(s, process))
  {
  }

  lemma BegunInv(c: Config, s: State, id: int, process: int, subject: Text, create: bool)
    requires c.Ok() && Inv(c, s)
    ensures Inv(c, Begun(s, id, process, subject, create)) && Grows(s, Begun(s, id, process, subject, create))
  {
    hide RowsOk, HeldOk, Grows, MemoryOk, Given, Begun;
    if Given(Memory(s, process).cache, subject, s.now).Some? {
      GivenInv(c, s, id, process, subject, create);
    } else {
      MissedInv(c, s, id, process, subject, create);
    }
  }

  lemma GivenInv(c: Config, s: State, id: int, process: int, subject: Text, create: bool)
    requires c.Ok() && Inv(c, s) && Given(Memory(s, process).cache, subject, s.now).Some?
    ensures var t := Begun(s, id, process, subject, create); Inv(c, t) && Grows(s, t)
  {
    hide RowOk, Given, Distinct;
    var t := Begun(s, id, process, subject, create);
    RowsStay(c, s, t);
    NoMemory(c, s, process);
    GivenIs(Memory(s, process).cache, subject, s.now);
    assert EntryOk(c, s, Memory(s, process).readTimes, Given(Memory(s, process).cache, subject, s.now).value);
    hide RowsOk;
    HeldStep(c, s, t);
  }

  lemma MissedInv(c: Config, s: State, id: int, process: int, subject: Text, create: bool)
    requires c.Ok() && Inv(c, s) && Given(Memory(s, process).cache, subject, s.now).None?
    ensures var t := Begun(s, id, process, subject, create); Inv(c, t) && Grows(s, t)
  {
    hide RowOk, Given, Distinct;
    var t := Begun(s, id, process, subject, create);
    RowsStay(c, s, t);
    NoMemory(c, s, process);
    MemoryGrows(c, s, t, Memory(s, process));
    WithoutIs(Memory(s, process).cache, subject);
    hide RowsOk;
    HeldStep(c, s, t);
  }

  lemma AdvancedInv(c: Config, s: State, id: int, phase: Phase)
    requires c.Ok() && Inv(c, s) && id in s.calls
    requires phase.Got? ==> phase.row == RowOf(s.rows, s.calls[id].subject) && phase.readAt == s.now
    ensures Inv(c, Advanced(s, id, phase)) && Grows(s, Advanced(s, id, phase))
  {
    hide RowOk;
    var t := Advanced(s, id, phase);
    RowsStay(c, s, t);
    assert CallOk(c, t, t.calls[id]);
    hide RowsOk;
    HeldStep(c, s, t);
  }

  lemma InsertedRows(c: Config, s: State, subject: Text, kek: Kek, dek: seq<byte>, iv: seq<byte>)
    requires c.Ok() && RowsOk(c, s) && kek in c.keks && |iv| == IV_BYTES
    ensures var t := Inserted(s, subject, Row(Seal(c.aead, kek.key, dek, KeyContext(subject), iv), kek.id), dek);
            RowsOk(c, t) && Grows(s, t)
  {
    hide Open, Seal, KeyContext, RowOk;
    var t := Inserted(s, subject, Row(Seal(c.aead, kek.key, dek, KeyContext(subject), iv), kek.id), dek);
    forall other | other in t.rows
      ensures RowOk(c, t, other, t.rows[other])
    {
      if other in s.rows {
        RowGrows(c, s, t, other, s.rows[other]);
      } else {
        SealedRowOk(c, t, subject, kek, dek, iv);
      }
    }
  }

  lemma InsertedInv(c: Config, s: State, subject: Text, kek: Kek, dek: seq<byte>, iv: seq<byte>)
    requires c.Ok() && Inv(c, s) && kek in c.keks && |iv| == IV_BYTES
    ensures var t := Inserted(s, subject, Row(Seal(c.aead, kek.key, dek, KeyContext(subject), iv), kek.id), dek);
            Inv(c, t) && Grows(s, t) && t.calls == s.calls
  {
    hide Open, Seal, KeyContext, RowsOk, HeldOk, Grows;
    InsertedRows(c, s, subject, kek, dek, iv);
    HeldStep(c, s, Inserted(s, subject, Row(Seal(c.aead, kek.key, dek, KeyContext(subject), iv), kek.id), dek));
  }

  lemma KeptMemory(c: Config, s: State, t: State, memory: Process, e: Entry, readAt: int)
    requires Grows(s, t) && s.now == t.now && MemoryOk(c, s, memory)
    requires e.subject in t.deks && e.key == t.deks[e.subject]
    requires ReadOk(t, e.subject, readAt) && e.until <= t.now + c.cacheS
    ensures var kept := Kept(memory.cache, e, s.now, c.cacheMax);
            kept.Ok? ==> MemoryOk(c, t, Process(kept.value, memory.readTimes[e.subject := readAt]))
  {
    hide Kept, Distinct;
    KeptIs(memory.cache, e, s.now, c.cacheMax);
    MemoryGrows(c, s, t, memory);
  }

  lemma GaveInv(c: Config, s: State, id: int, key: seq<byte>)
    requires c.Ok() && Inv(c, s) && id in s.calls && s.calls[id].phase.Got? && s.calls[id].phase.row.Some?
    requires s.calls[id].subject in s.deks && key == s.deks[s.calls[id].subject]
    ensures Inv(c, Finished(c, s, id, Some(key))) && Grows(s, Finished(c, s, id, Some(key)))
  {
    hide RowOk, Kept, Distinct, MemoryOk;
    var t := Finished(c, s, id, Some(key));
    var call := s.calls[id];
    RowsStay(c, s, t);
    assert CallOk(c, s, call);
    NoMemory(c, s, call.process);
    KeptMemory(c, s, t, Memory(s, call.process), Entry(call.subject, key, s.now + c.cacheS), call.phase.readAt);
    hide RowsOk, Grows;
    HeldStep(c, s, t);
  }

  lemma FinishedInv(c: Config, s: State, id: int, mounted: Option<Kek>)
    requires c.Ok() && Inv(c, s) && Enabled(c, s, Finish(id, mounted))
    ensures Inv(c, Apply(c, s, Finish(id, mounted))) && Grows(s, Apply(c, s, Finish(id, mounted)))
  {
    hide RowsOk, RowOk, Opened, Kept, MemoryOk, Grows;
    var call := s.calls[id];
    assert CallOk(c, s, call);
    OpenedKey(c, s, call.subject, call.phase.row, mounted);
    var key := Opened(c, call.subject, call.phase.row, mounted);
    if key.Some? {
      GaveInv(c, s, id, key.value);
    } else {
      QuietInv(c, s, Finished(c, s, id, key));
    }
  }

  lemma WrittenRows(c: Config, s: State, rewrap: int, previous: Kek, current: Kek, iv: seq<byte>)
    requires c.Ok() && Inv(c, s) && Enabled(c, s, RewrapWrite(rewrap, previous, current, iv))
    ensures var t := Apply(c, s, RewrapWrite(rewrap, previous, current, iv)); RowsOk(c, t) && Grows(s, t)
  {
    hide RowOk, Rewrapped;
    var t := Apply(c, s, RewrapWrite(rewrap, previous, current, iv));
    RewrapKeepsKey(c, s, s.rewraps[rewrap], previous, current, iv);
    forall subject | subject in t.rows
      ensures RowOk(c, t, subject, t.rows[subject])
    {
      assert RowOk(c, s, subject, t.rows[subject]);
      RowGrows(c, s, t, subject, t.rows[subject]);
    }
  }

  lemma WrittenInv(c: Config, s: State, rewrap: int, previous: Kek, current: Kek, iv: seq<byte>)
    requires c.Ok() && Inv(c, s) && Enabled(c, s, RewrapWrite(rewrap, previous, current, iv))
    ensures var t := Apply(c, s, RewrapWrite(rewrap, previous, current, iv)); Inv(c, t) && Grows(s, t)
  {
    hide RowsOk, HeldOk, Rewrapped, Grows;
    WrittenRows(c, s, rewrap, previous, current, iv);
    HeldStep(c, s, Apply(c, s, RewrapWrite(rewrap, previous, current, iv)));
  }

  lemma TombstonedInv(c: Config, s: State, subject: Text)
    requires Inv(c, s)
    ensures Inv(c, Tombstoned(s, subject)) && Grows(s, Tombstoned(s, subject))
  {
    hide RowOk;
    var t := Tombstoned(s, subject);
    forall other | other in t.rows
      ensures RowOk(c, t, other, t.rows[other])
    {
      RowGrows(c, s, t, other, s.rows[other]);
    }
    assert RowsOk(c, t) && Grows(s, t);
    hide RowsOk;
    HeldStep(c, s, t);
  }

  /** A step that leaves the tables' keys alone and begins nothing. */
  lemma QuietInv(c: Config, s: State, t: State)
    requires c.Ok() && Inv(c, s)
    requires t.rows == s.rows && t.deks == s.deks && t.forgotten == s.forgotten && t.now >= s.now
    requires t.answers == s.answers
    requires forall id :: id in t.calls ==> id in s.calls && t.calls[id] == s.calls[id]
    requires forall process :: process in t.processes ==>
               process in s.processes && t.processes[process] == s.processes[process]
    requires forall id :: id in t.rewraps ==>
               || (id in s.rewraps && t.rewraps[id] == s.rewraps[id])
               || RowOf(s.rows, t.rewraps[id].subject) == Some(t.rewraps[id].row)
    ensures Inv(c, t) && Grows(s, t)
  {
    hide RowOk;
    RowsStay(c, s, t);
    forall id | id in t.rewraps && !(id in s.rewraps && t.rewraps[id] == s.rewraps[id])
      ensures RowOk(c, t, t.rewraps[id].subject, t.rewraps[id].row)
    {
      RowGrows(c, s, t, t.rewraps[id].subject, t.rewraps[id].row);
    }
    hide RowsOk;
    HeldStep(c, s, t);
  }

  lemma StepInv(c: Config, s: State, step: Step)
    requires c.Ok() && Inv(c, s) && Enabled(c, s, step)
    ensures Inv(c, Apply(c, s, step)) && Grows(s, Apply(c, s, step))
  {
    hide RowsOk, HeldOk, Begun, Advanced, Inserted, Finished, Written, Tombstoned, Grows;
    match step {
      case Begin(id, process, subject, create) => BegunInv(c, s, id, process, subject, create);
      case Read(id) =>
        var row := RowOf(s.rows, s.calls[id].subject);
        AdvancedInv(c, s, id, if row.None? && s.calls[id].create then Creating else Got(row, s.now));
      case Insert(id, kek, dek, iv) =>
        var subject := s.calls[id].subject;
        InsertedInv(c, s, subject, kek, dek, iv);
        var t := Inserted(s, subject, Row(Seal(c.aead, kek.key, dek, KeyContext(subject), iv), kek.id), dek);
        AdvancedInv(c, t, id, Rereading);
        GrowsTwice(s, t, Apply(c, s, step));
      case Reread(id) => AdvancedInv(c, s, id, Got(RowOf(s.rows, s.calls[id].subject), s.now));
      case Finish(id, mounted) => FinishedInv(c, s, id, mounted);
      case Fail(id) => QuietInv(c, s, Apply(c, s, step));
      case Restart(process) => QuietInv(c, s, Apply(c, s, step));
      case Forget(subject) => TombstonedInv(c, s, subject);
      case RewrapRead(rewrap, subject) => QuietInv(c, s, Apply(c, s, step));
      case RewrapWrite(rewrap, previous, current, iv) => WrittenInv(c, s, rewrap, previous, current, iv);
      case Tick(now) =>
        QuietInv(c, s, Apply(c, s, step));
    }
  }

  lemma GrowsSelf(s: State)
    ensures Grows(s, s)
  {
  }

  lemma GrowsTwice(s: State, t: State, u: State)
    requires Grows(s, t) && Grows(t, u)
    ensures Grows(s, u)
  {
  }

  lemma {:induction false} RunInv(c: Config, s: State, steps: seq<Step>)
    requires c.Ok() && Inv(c, s) && IsRun(c, s, steps)
    ensures Inv(c, Run(c, s, steps)) && Grows(s, Run(c, s, steps))
    decreases |steps|
  {
    hide RowsOk, HeldOk, Apply, Enabled, Grows;
    if steps == [] {
      GrowsSelf(s);
    } else {
      var t := Apply(c, s, steps[0]);
      StepInv(c, s, steps[0]);
      RunInv(c, t, steps[1..]);
      GrowsTwice(s, t, Run(c, s, steps));
    }
  }

  /* ---- the promises ---- */

  /** In any interleaving, every `key_for` that succeeds for a subject gives the same key. */
  lemma OneKeyPerSubject(c: Config, steps: seq<Step>, a: Answer, b: Answer)
    requires c.Ok() && IsRun(c, EMPTY, steps)
    requires a in Run(c, EMPTY, steps).answers && b in Run(c, EMPTY, steps).answers && a.subject == b.subject
    ensures a.key == b.key
  {
    RunInv(c, EMPTY, steps);
    var s := Run(c, EMPTY, steps);
    assert AnswerOk(c, s, a) && AnswerOk(c, s, b);
  }

  /** After the tombstone no encode makes a key again. */
  lemma NeverRecreated(c: Config, steps: seq<Step>, more: seq<Step>, subject: Text)
    requires c.Ok() && IsRun(c, EMPTY, steps) && IsRun(c, Run(c, EMPTY, steps), more)
    requires subject in Run(c, EMPTY, steps).forgotten
    ensures subject !in Run(c, Run(c, EMPTY, steps), more).rows
    ensures forall a :: a in Run(c, Run(c, EMPTY, steps), more).answers && a.subject == subject ==>
              a.readAt <= Run(c, EMPTY, steps).forgotten[subject]
  {
    RunInv(c, EMPTY, steps);
    var s := Run(c, EMPTY, steps);
    RunInv(c, s, more);
    var t := Run(c, s, more);
    forall a | a in t.answers && a.subject == subject
      ensures a.readAt <= s.forgotten[subject]
    {
      assert AnswerOk(c, t, a);
    }
  }

  /* ---- the end of a rotation ---- */

  /** No row comes to be under the key: nothing is made under it, nor rewrapped to it. */
  predicate Retired(step: Step, id: Text) {
    (step.Insert? ==> step.kek.id != id) && (step.RewrapWrite? ==> step.current.id != id)
  }

  /** Somewhere in the run the subject's row, as it was read under the key, is written back. */
  ghost predicate RewrittenIn(c: Config, s: State, steps: seq<Step>, previous: Kek, subject: Text)
    requires IsRun(c, s, steps)
    decreases |steps|
  {
    && steps != []
    && (WritesBack(s, steps[0], previous, subject)
        || RewrittenIn(c, Apply(c, s, steps[0]), steps[1..], previous, subject))
  }

  ghost predicate WritesBack(s: State, step: Step, previous: Kek, subject: Text) {
    && step.RewrapWrite? && step.previous == previous && step.rewrap in s.rewraps
    && s.rewraps[step.rewrap].subject == subject && s.rewraps[step.rewrap].row.kekId == previous.id
  }

  lemma RetiredStep(c: Config, s: State, step: Step, previous: Kek, subject: Text)
    requires c.Ok() && Inv(c, s) && Enabled(c, s, step) && previous in c.keks && Retired(step, previous.id)
    requires subject in Apply(c, s, step).rows && Apply(c, s, step).rows[subject].kekId == previous.id
    ensures subject in s.rows && s.rows[subject].kekId == previous.id && !WritesBack(s, step, previous, subject)
  {
    if step.RewrapWrite? {
      RetiredRewrap(c, s, step, previous, subject);
    } else {
      OtherRows(c, s, step, previous, subject);
    }
  }

  lemma OtherRows(c: Config, s: State, step: Step, previous: Kek, subject: Text)
    requires Enabled(c, s, step) && Retired(step, previous.id) && !step.RewrapWrite?
    requires subject in Apply(c, s, step).rows && Apply(c, s, step).rows[subject].kekId == previous.id
    ensures subject in s.rows && s.rows[subject].kekId == previous.id
  {
    hide Seal, Given, Kept, Opened, Memory;
  }

  lemma RetiredRewrap(c: Config, s: State, step: Step, previous: Kek, subject: Text)
    requires c.Ok() && Inv(c, s) && Enabled(c, s, step) && previous in c.keks && Retired(step, previous.id)
    requires step.RewrapWrite?
    requires subject in Apply(c, s, step).rows && Apply(c, s, step).rows[subject].kekId == previous.id
    ensures subject in s.rows && s.rows[subject].kekId == previous.id && !WritesBack(s, step, previous, subject)
  {
    hide Open, Seal, KeyContext, Rewrapped, RowOk;
    var snap := s.rewraps[step.rewrap];
    RewrapKeepsKey(c, s, snap, step.previous, step.current, step.iv);
  }

  lemma {:induction false} RotationEndsFrom(c: Config, s: State, steps: seq<Step>, previous: Kek)
    requires c.Ok() && Inv(c, s) && IsRun(c, s, steps) && previous in c.keks
    requires forall step :: step in steps ==> Retired(step, previous.id)
    requires forall subject :: subject in s.rows && s.rows[subject].kekId == previous.id ==>
               RewrittenIn(c, s, steps, previous, subject)
    ensures forall subject :: subject in Run(c, s, steps).rows ==>
              Run(c, s, steps).rows[subject].kekId != previous.id
    decreases |steps|
  {
    hide Inv, Apply, Enabled, Retired, WritesBack;
    if steps != [] {
      var t := Apply(c, s, steps[0]);
      assert steps[0] in steps && forall step :: step in steps[1..] ==> step in steps;
      StepInv(c, s, steps[0]);
      forall subject | subject in t.rows && t.rows[subject].kekId == previous.id
        ensures RewrittenIn(c, t, steps[1..], previous, subject)
      {
        RetiredStep(c, s, steps[0], previous, subject);
      }
      RotationEndsFrom(c, t, steps[1..], previous);
    }
  }

  /** A cached key is never given past its deadline, nor held for more than the cache's time. */
  lemma CacheDeadline(c: Config, steps: seq<Step>, a: Answer)
    requires c.Ok() && IsRun(c, EMPTY, steps) && a in Run(c, EMPTY, steps).answers
    ensures a.until.Some? ==> a.at < a.until.value <= a.at + c.cacheS
  {
    RunInv(c, EMPTY, steps);
    assert AnswerOk(c, Run(c, EMPTY, steps), a);
  }

  /** Whatever the interleaving, no process holds more keys than its limit, or two for one subject. */
  lemma CacheBounded(c: Config, steps: seq<Step>, process: int)
    requires c.Ok() && IsRun(c, EMPTY, steps) && process in Run(c, EMPTY, steps).processes
    ensures var cache := Run(c, EMPTY, steps).processes[process].cache; |cache| <= c.cacheMax && Distinct(cache)
  {
    RunInv(c, EMPTY, steps);
    assert MemoryOk(c, Run(c, EMPTY, steps), Run(c, EMPTY, steps).processes[process]);
  }

  /* ---- how long a forgotten subject still opens ---- */

  ghost predicate Reaches(c: Config, s: State, t: State) {
    exists steps :: IsRun(c, s, steps) && Run(c, s, steps) == t
  }

  lemma ReachesSelf(c: Config, s: State)
    ensures Reaches(c, s, s)
  {
    assert IsRun(c, s, []) && Run(c, s, []) == s;
  }

  lemma ReachesStep(c: Config, s: State, step: Step, t: State)
    requires Enabled(c, s, step) && Reaches(c, Apply(c, s, step), t)
    ensures Reaches(c, s, t)
  {
    hide Enabled, Apply;
    var rest :| IsRun(c, Apply(c, s, step), rest) && Run(c, Apply(c, s, step), rest) == t;
    var steps := [step] + rest;
    assert steps[1..] == rest;
    assert IsRun(c, s, steps) && Run(c, s, steps) == t;
  }

  /** The call holds the subject's row, under a key that some process has mounted. */
  ghost predicate Holds(c: Config, call: Call, subject: Text) {
    && call.subject == subject && call.phase.Got? && call.phase.row.Some?
    && exists kek :: kek in c.keks && kek.id == call.phase.row.value.kekId
  }

  ghost predicate Pending(c: Config, s: State, subject: Text) {
    exists id :: id in s.calls && Holds(c, s.calls[id], subject)
  }

  /** From here on the subject's key is given before `bound` only. */
  ghost predicate Closing(c: Config, s: State, subject: Text, bound: int) {
    && subject in s.forgotten
    && (c.cacheMax > 0 ==> !Pending(c, s, subject))
    && (forall process, e :: process in s.processes && e in s.processes[process].cache && e.subject == subject ==>
          e.until <= bound)
    && (forall a :: a in s.answers && a.subject == subject ==> a.at < bound)
  }

  lemma ClosingBegin(c: Config, s: State, id: int, process: int, other: Text, create: bool, subject: Text, bound: int)
    requires c.Ok() && Inv(c, s) && Closing(c, s, subject, bound)
    ensures Closing(c, Begun(s, id, process, other, create), subject, bound)
  {
    hide RowsOk, RowOk, Given, Distinct;
    NoMemory(c, s, process);
    GivenIs(Memory(s, process).cache, other, s.now);
    WithoutIs(Memory(s, process).cache, other);
  }

  lemma ClosingFinish(c: Config, s: State, id: int, mounted: Option<Kek>, subject: Text, bound: int)
    requires c.Ok() && Inv(c, s) && Closing(c, s, subject, bound) && Enabled(c, s, Finish(id, mounted))
    ensures Closing(c, Apply(c, s, Finish(id, mounted)), subject, bound)
  {
    hide RowsOk, RowOk, Opened, Kept, Distinct;
    var call := s.calls[id];
    assert CallOk(c, s, call);
    OpenedKey(c, s, call.subject, call.phase.row, mounted);
    NoMemory(c, s, call.process);
    var key := Opened(c, call.subject, call.phase.row, mounted);
    if key.Some? {
      assert Holds(c, call, call.subject);
      KeptIs(Memory(s, call.process).cache, Entry(call.subject, key.value, s.now + c.cacheS), s.now, c.cacheMax);
    }
  }

  /** No row is left to read. */
  lemma ClosingAdvance(c: Config, s: State, id: int, phase: Phase, subject: Text, bound: int)
    requires Inv(c, s) && Closing(c, s, subject, bound) && id in s.calls
    requires phase.Got? ==> phase.row == RowOf(s.rows, s.calls[id].subject)
    ensures Closing(c, Advanced(s, id, phase), subject, bound)
  {
    hide HeldOk, RowOk;
  }

  lemma ClosingStep(c: Config, s: State, step: Step, subject: Text, bound: int)
    requires c.Ok() && Inv(c, s) && Enabled(c, s, step) && Closing(c, s, subject, bound)
    ensures Closing(c, Apply(c, s, step), subject, bound)
  {
    hide Inv, Begun, Advanced, Finished, Opened, Rewrapped;
    match step {
      case Begin(id, process, other, create) => ClosingBegin(c, s, id, process, other, create, subject, bound);
      case Read(id) =>
        var row := RowOf(s.rows, s.calls[id].subject);
        ClosingAdvance(c, s, id, if row.None? && s.calls[id].create then Creating else Got(row, s.now), subject, bound);
      case Insert(id, kek, dek, iv) => ClosingInsert(c, s, id, kek, dek, iv, subject, bound);
      case Reread(id) => ClosingAdvance(c, s, id, Got(RowOf(s.rows, s.calls[id].subject), s.now), subject, bound);
      case Finish(id, mounted) => ClosingFinish(c, s, id, mounted, subject, bound);
      case _ =>
    }
  }

  lemma ClosingInsert(c: Config, s: State, id: int, kek: Kek, dek: seq<byte>, iv: seq<byte>,
                      subject: Text, bound: int)
    requires c.Ok() && Inv(c, s) && Enabled(c, s, Insert(id, kek, dek, iv)) && Closing(c, s, subject, bound)
    ensures Closing(c, Apply(c, s, Insert(id, kek, dek, iv)), subject, bound)
  {
    hide RowsOk, HeldOk, Seal, KeyContext;
    var other := s.calls[id].subject;
    InsertedInv(c, s, other, kek, dek, iv);
    var t := Inserted(s, other, Row(Seal(c.aead, kek.key, dek, KeyContext(other), iv), kek.id), dek);
    ClosingAdvance(c, t, id, Rereading, subject, bound);
  }

  lemma {:induction false} ClosingRun(c: Config, s: State, steps: seq<Step>, subject: Text, bound: int)
    requires c.Ok() && Inv(c, s) && IsRun(c, s, steps) && Closing(c, s, subject, bound)
    ensures Closing(c, Run(c, s, steps), subject, bound)
    decreases |steps|
  {
    hide Inv, Apply, Enabled, Closing, Grows;
    if steps != [] {
      StepInv(c, s, steps[0]);
      ClosingStep(c, s, steps[0], subject, bound);
      ClosingRun(c, Apply(c, s, steps[0]), steps[1..], subject, bound);
    }
  }

  /** Its row in hand, a call gives the key however late it ends. */
  lemma PendingGives(c: Config, s: State, subject: Text, delay: nat) returns (t: State, a: Answer)
    requires c.Ok() && c.cacheMax > 0 && Inv(c, s) && Pending(c, s, subject)
    ensures Reaches(c, s, t) && Grows(s, t)
    ensures a in t.answers && a.subject == subject && a.at == s.now + delay
  {
    hide RowsOk, RowOk, Kept, Distinct, Opened, Grows, Reaches;
    var id :| id in s.calls && Holds(c, s.calls[id], subject);
    var call := s.calls[id];
    var kek :| kek in c.keks && kek.id == call.phase.row.value.kekId;
    var u := Apply(c, s, Tick(s.now + delay));
    StepInv(c, s, Tick(s.now + delay));
    StepInv(c, u, Finish(id, Some(kek)));
    t := Apply(c, u, Finish(id, Some(kek)));
    GrowsTwice(s, u, t);
    assert CallOk(c, u, call);
    OpenedKey(c, u, subject, call.phase.row, Some(kek));
    NoMemory(c, u, call.process);
    var key := Opened(c, subject, call.phase.row, Some(kek)).value;
    KeptIs(Memory(u, call.process).cache, Entry(subject, key, u.now + c.cacheS), u.now, c.cacheMax);
    a := Answer(subject, key, u.now, call.phase.readAt, None);
    ReachesSelf(c, t);
    ReachesStep(c, u, Finish(id, Some(kek)), t);
    ReachesStep(c, s, Tick(s.now + delay), t);
  }

  /**
   * Of a forgotten subject, whatever runs on from here, the key is given within the cache's time only,
   * if and only if no call holds its row now. At the tombstone this is the promised 30 s.
   */
  lemma OpensAfterForget(c: Config, s: State, subject: Text)
    requires c.Ok() && Reaches(c, EMPTY, s) && subject in s.forgotten
    ensures (forall t, a :: Reaches(c, s, t) && a in t.answers && a.subject == subject ==> a.at < s.now + c.cacheS)
       <==> c.cacheMax == 0 || !Pending(c, s, subject)
  {
    hide Inv, Pending, Reaches;
    ReachableInv(c, s);
    if c.cacheMax == 0 || !Pending(c, s, subject) {
      ClosesNow(c, s, subject);
      forall t, a | Reaches(c, s, t) && a in t.answers && a.subject == subject
        ensures a.at < s.now + c.cacheS
      {
        ClosingReaches(c, s, t, subject, s.now + c.cacheS);
      }
    } else {
      var t, a := PendingGives(c, s, subject, c.cacheS);
      assert Reaches(c, s, t) && a in t.answers && a.subject == subject && a.at >= s.now + c.cacheS;
    }
  }

  lemma ReachableInv(c: Config, s: State)
    requires c.Ok() && Reaches(c, EMPTY, s)
    ensures Inv(c, s)
  {
    hide IsRun, Run;
    var steps :| IsRun(c, EMPTY, steps) && Run(c, EMPTY, steps) == s;
    RunInv(c, EMPTY, steps);
  }

  /**
   * A pass that comes to its end leaves no row under the previous key: once each such row was read and
   * written back, whatever came between but rows made under that key. Each opens, under the key it is
   * under then, to the one data key of its subject.
   */
  lemma RotationEnds(c: Config, s: State, steps: seq<Step>, previous: Kek)
    requires c.Ok() && Reaches(c, EMPTY, s) && IsRun(c, s, steps) && previous in c.keks
    requires forall step :: step in steps ==> Retired(step, previous.id)
    requires forall subject :: subject in s.rows && s.rows[subject].kekId == previous.id ==>
               RewrittenIn(c, s, steps, previous, subject)
    ensures var t := Run(c, s, steps);
            forall subject :: subject in t.rows ==>
              t.rows[subject].kekId != previous.id && RowOk(c, t, subject, t.rows[subject])
  {
    ReachableInv(c, s);
    RunInv(c, s, steps);
    RotationEndsFrom(c, s, steps, previous);
    hide Run, IsRun, HeldOk, RowOk;
  }

  /** A rewrite touches one row at most, and that only if it is under the previous key then. */
  lemma OnlyPreviousMoves(c: Config, s: State, rewrap: int, previous: Kek, current: Kek, iv: seq<byte>, subject: Text)
    requires c.Ok() && Reaches(c, EMPTY, s) && Enabled(c, s, RewrapWrite(rewrap, previous, current, iv))
    requires subject in s.rows
    ensures var t := Apply(c, s, RewrapWrite(rewrap, previous, current, iv));
            && t == s.(rows := t.rows) && t.rows.Keys == s.rows.Keys
            && (t.rows[subject] != s.rows[subject] ==>
                  subject == s.rewraps[rewrap].subject
                  && s.rows[subject].kekId == previous.id && t.rows[subject].kekId == current.id)
  {
    ReachableInv(c, s);
    hide RowOk, Seal;
  }

  /** And a row read and rewritten under the previous key is under the current one. */
  lemma RewrapMoves(c: Config, s: State, rewrap: int, previous: Kek, current: Kek, iv: seq<byte>, subject: Text)
    requires c.Ok() && Reaches(c, EMPTY, s) && previous in c.keks && current in c.keks && |iv| == IV_BYTES
    requires subject in s.rows && s.rows[subject].kekId == previous.id
    ensures var t := Apply(c, s, RewrapRead(rewrap, subject));
            && Enabled(c, t, RewrapWrite(rewrap, previous, current, iv))
            && Apply(c, t, RewrapWrite(rewrap, previous, current, iv)).rows[subject].kekId == current.id
  {
    ReachableInv(c, s);
    assert RowOk(c, s, subject, s.rows[subject]);
    hide Seal, Open;
  }

  /* ---- what a call gives ---- */

  lemma FinishGives(c: Config, s: State, id: int, key: seq<byte>)
    requires c.cacheMax > 0 && id in s.calls && s.calls[id].phase.Got?
    requires Distinct(Memory(s, s.calls[id].process).cache) && |Memory(s, s.calls[id].process).cache| <= c.cacheMax
    ensures var call, t := s.calls[id], Finished(c, s, id, Some(key));
            && t == s.(processes := t.processes, answers := t.answers, calls := s.calls - {id})
            && t.answers == s.answers + {Answer(call.subject, key, s.now, call.phase.readAt, None)}
    ensures var call, t := s.calls[id], Finished(c, s, id, Some(key));
            && call.process in t.processes && Distinct(t.processes[call.process].cache)
            && Entry(call.subject, key, s.now + c.cacheS) in t.processes[call.process].cache
            && call.subject in t.processes[call.process].readTimes
            && t.processes[call.process].readTimes[call.subject] == call.phase.readAt
  {
    var call := s.calls[id];
    KeptIs(Memory(s, call.process).cache, Entry(call.subject, key, s.now + c.cacheS), s.now, c.cacheMax);
    hide Kept, Distinct;
  }

  /** A cached key is given until its time is over, without a call; then a call begins. */
  lemma BeginsCached(s: State, id: int, process: int, subject: Text, create: bool, e: Entry)
    requires process in s.processes && e in s.processes[process].cache && e.subject == subject
    requires Distinct(s.processes[process].cache) && subject in s.processes[process].readTimes
    ensures var t, readAt := Begun(s, id, process, subject, create), s.processes[process].readTimes[subject];
            if s.now < e.until then
              t == s.(answers := s.answers + {Answer(subject, e.key, s.now, readAt, Some(e.until))})
            else t == s.(processes := t.processes, calls := s.calls[id := Call(process, subject, create, Reading)])
  {
    var cache := s.processes[process].cache;
    GivenIs(cache, subject, s.now);
    Once(cache);
    hide Distinct, Given;
  }

  /** A call that finishes with a key gives it, and its process has it at hand until its time is over. */
  lemma GivenThenCached(c: Config, s: State, id: int, mounted: Option<Kek>, now: int, id2: int, create: bool)
    requires c.Ok() && c.cacheMax > 0 && Reaches(c, EMPTY, s) && Enabled(c, s, Finish(id, mounted)) && now >= s.now
    requires Opened(c, s.calls[id].subject, s.calls[id].phase.row, mounted).Some? && id2 !in s.calls
    ensures var call, t := s.calls[id], Apply(c, s, Finish(id, mounted));
            var key := Opened(c, call.subject, call.phase.row, mounted).value;
            var u := Begun(t.(now := now), id2, call.process, call.subject, create);
            && t.calls == s.calls - {id}
            && t.answers == s.answers + {Answer(call.subject, key, s.now, call.phase.readAt, None)}
            && if now < s.now + c.cacheS then
                 && u.calls == t.calls
                 && u.answers
                    == t.answers + {Answer(call.subject, key, now, call.phase.readAt, Some(s.now + c.cacheS))}
               else
                 && u.answers == t.answers
                 && u.calls == t.calls[id2 := Call(call.process, call.subject, create, Reading)]
  {
    ReachableInv(c, s);
    var call := s.calls[id];
    NoMemory(c, s, call.process);
    hide Opened, Inv, Distinct, Begun, Finished, Reaches;
    var key := Opened(c, call.subject, call.phase.row, mounted).value;
    FinishGives(c, s, id, key);
    var t := Apply(c, s, Finish(id, mounted));
    BeginsCached(t.(now := now), id2, call.process, call.subject, create,
                 Entry(call.subject, key, s.now + c.cacheS));
  }

  /** No cache holds a subject without a row or a tombstone. */
  lemma BeginsUnknown(c: Config, s: State, id: int, process: int, subject: Text) returns (t: State)
    requires Inv(c, s) && id !in s.calls && subject !in s.rows && subject !in s.forgotten
    ensures t == Apply(c, s, Begin(id, process, subject, true))
    ensures t == s.(processes := t.processes, calls := s.calls[id := Call(process, subject, true, Reading)])
    ensures MemoryOk(c, s, Memory(t, process))
  {
    hide RowOk, Given, Distinct, CallOk, AnswerOk;
    t := Apply(c, s, Begin(id, process, subject, true));
    NoMemory(c, s, process);
    var memory := Memory(s, process);
    GivenIs(memory.cache, subject, s.now);
    assert forall e :: e in memory.cache ==> EntryOk(c, s, memory.readTimes, e);
    WithoutIs(memory.cache, subject);
  }

  /** It reads no row, inserts one, and reads that. */
  lemma InsertsKey(c: Config, s: State, id: int, kek: Kek, dek: seq<byte>, iv: seq<byte>, t: State)
    requires id in s.calls && s.calls[id].phase == Reading && s.calls[id].create
    requires kek in c.keks && |dek| == 32 && |iv| == IV_BYTES
    requires s.calls[id].subject !in s.rows && s.calls[id].subject !in s.forgotten
    requires var subject := s.calls[id].subject;
             var row := Row(Seal(c.aead, kek.key, dek, KeyContext(subject), iv), kek.id);
             t == s.(calls := s.calls[id := s.calls[id].(phase := Got(Some(row), s.now))],
                     rows := s.rows[subject := row], deks := s.deks[subject := dek])
    ensures Reaches(c, s, t)
  {
    hide Seal, KeyContext, Reaches;
    var s2 := Apply(c, s, Read(id));
    var s3 := Apply(c, s2, Insert(id, kek, dek, iv));
    assert Apply(c, s3, Reread(id)) == t;
    ReachesSelf(c, t);
    ReachesStep(c, s3, Reread(id), t);
    ReachesStep(c, s2, Insert(id, kek, dek, iv), t);
    ReachesStep(c, s, Read(id), t);
  }

  /** A subject's first call can make its key, and gives what it made. */
  lemma MakesKey(
    c: Config, s: State, id: int, process: int, subject: Text, kek: Kek, dek: seq<byte>, iv: seq<byte>)
    returns (t: State)
    requires c.Ok() && c.cacheMax > 0 && Reaches(c, EMPTY, s) && id !in s.calls
    requires kek in c.keks && |dek| == 32 && |iv| == IV_BYTES
    requires subject !in s.rows && subject !in s.forgotten
    ensures Reaches(c, s, t) && t.now == s.now
    ensures subject in t.rows && t.rows[subject].kekId == kek.id && RowOk(c, t, subject, t.rows[subject])
    ensures t.answers == s.answers + {Answer(subject, dek, s.now, s.now, None)} && t.calls == s.calls
  {
    ReachableInv(c, s);
    var s1 := BeginsUnknown(c, s, id, process, subject);
    hide Inv, Begun, Opened, Seal, Open, KeyContext, Reaches, Distinct, EntryOk, Finished;
    var row := Row(Seal(c.aead, kek.key, dek, KeyContext(subject), iv), kek.id);
    var s4 := s1.(calls := s1.calls[id := Call(process, subject, true, Got(Some(row), s.now))],
                  rows := s.rows[subject := row], deks := s.deks[subject := dek]);
    InsertsKey(c, s1, id, kek, dek, iv, s4);
    SealedRowOk(c, s4, subject, kek, dek, iv);
    OpenedKey(c, s4, subject, Some(row), Some(kek));
    t := Apply(c, s4, Finish(id, Some(kek)));
    FinishGives(c, s4, id, dek);
    assert t.calls == s.calls;
    ReachesSelf(c, t);
    ReachesStep(c, s4, Finish(id, Some(kek)), t);
    ReachesTwice(c, s1, s4, t);
    ReachesStep(c, s, Begin(id, process, subject, true), t);
  }

  lemma ClosesNow(c: Config, s: State, subject: Text)
    requires c.Ok() && Inv(c, s) && subject in s.forgotten && (c.cacheMax == 0 || !Pending(c, s, subject))
    ensures Closing(c, s, subject, s.now + c.cacheS)
  {
    hide RowsOk, RowOk, Distinct;
    forall process, e | process in s.processes && e in s.processes[process].cache
      ensures e.until <= s.now + c.cacheS
    {
      assert MemoryOk(c, s, s.processes[process]) && EntryOk(c, s, s.processes[process].readTimes, e);
    }
    forall a | a in s.answers
      ensures a.at < s.now + c.cacheS
    {
      assert AnswerOk(c, s, a);
    }
  }

  lemma ClosingReaches(c: Config, s: State, t: State, subject: Text, bound: int)
    requires c.Ok() && Inv(c, s) && Reaches(c, s, t) && Closing(c, s, subject, bound)
    ensures Closing(c, t, subject, bound)
  {
    hide Inv, Closing;
    var steps :| IsRun(c, s, steps) && Run(c, s, steps) == t;
    ClosingRun(c, s, steps, subject, bound);
  }

  /** A call reads its row, and the tombstone comes. */
  lemma ForgottenMeanwhile(c: Config, kek: Kek, subject: Text, dek: seq<byte>, iv: seq<byte>) returns (s: State)
    requires c.Ok() && kek in c.keks && |dek| == 32 && |iv| == IV_BYTES
    ensures Reaches(c, EMPTY, s) && s.now == 0
    ensures subject in s.forgotten && s.forgotten[subject] == 0 && Pending(c, s, subject)
  {
    hide Open, Seal, KeyContext, Reaches;
    var row := Row(Seal(c.aead, kek.key, dek, KeyContext(subject), iv), kek.id);
    var s1 := Apply(c, EMPTY, Begin(1, 0, subject, true));
    var s2 := Apply(c, s1, Read(1));
    var s3 := Apply(c, s2, Insert(1, kek, dek, iv));
    var s4 := Apply(c, s3, Reread(1));
    assert s4.calls[1] == Call(0, subject, true, Got(Some(row), 0));
    s := Apply(c, s4, Forget(subject));
    assert s.forgotten == map[subject := 0] && Holds(c, s.calls[1], subject);
    ReachesSelf(c, s);
    ReachesStep(c, s4, Forget(subject), s);
    ReachesStep(c, s3, Reread(1), s);
    ReachesStep(c, s2, Insert(1, kek, dek, iv), s);
    ReachesStep(c, s1, Read(1), s);
    ReachesStep(c, EMPTY, Begin(1, 0, subject, true), s);
  }

  /** No time bounds it: for every delay there is a run in which a forgotten subject's key is given that late. */
  lemma ForgottenStillOpens(c: Config, kek: Kek, subject: Text, dek: seq<byte>, iv: seq<byte>, delay: nat)
    returns (t: State, a: Answer)
    requires c.Ok() && c.cacheMax > 0 && kek in c.keks && |dek| == 32 && |iv| == IV_BYTES
    ensures Reaches(c, EMPTY, t)
    ensures subject in t.forgotten && t.forgotten[subject] == 0
    ensures a in t.answers && a.subject == subject && a.at == delay
  {
    hide Reaches, Inv, Pending;
    var s := ForgottenMeanwhile(c, kek, subject, dek, iv);
    ReachableInv(c, s);
    t, a := PendingGives(c, s, subject, delay);
    ReachesTwice(c, EMPTY, s, t);
  }

  lemma {:induction false} RunsTwice(c: Config, s: State, steps: seq<Step>, more: seq<Step>)
    requires IsRun(c, s, steps) && IsRun(c, Run(c, s, steps), more)
    ensures IsRun(c, s, steps + more) && Run(c, s, steps + more) == Run(c, Run(c, s, steps), more)
    decreases |steps|
  {
    hide Apply, Enabled;
    if steps == [] {
      assert steps + more == more;
    } else {
      RunsTwice(c, Apply(c, s, steps[0]), steps[1..], more);
      assert (steps + more)[1..] == steps[1..] + more;
    }
  }

  lemma ReachesTwice(c: Config, s: State, t: State, u: State)
    requires Reaches(c, s, t) && Reaches(c, t, u)
    ensures Reaches(c, s, u)
  {
    var steps :| IsRun(c, s, steps) && Run(c, s, steps) == t;
    var more :| IsRun(c, t, more) && Run(c, t, more) == u;
    RunsTwice(c, s, steps, more);
    assert IsRun(c, s, steps + more) && Run(c, s, steps + more) == u;
  }
}
