/**
 * Key rotation over the credential table: `rewrapFrom` of agent/src/credentials.ts, run by any number
 * of pods among saves, creates and deletes. Every statement is one atomic step.
 */
module Rotation {
  import opened Wrappers
  import opened Bytes
  import opened Json
  import opened Secrets
  import opened CredentialAads

  /** `entered` is the secret last entered through the store; none for a row altered behind it. */
  datatype Row = Row(kind: Kind, baseUrl: Option<Text>, envelope: Envelope, entered: Option<seq<byte>>)

  /** The keys of the rotation: every pass is from `previous` to `current`. */
  datatype Config = Config(aead: Aead, previous: Kek, current: Kek) {
    ghost predicate Ok() {
      aead.Lawful() && previous.id != current.id
    }
  }

  datatype Snap = Snap(id: Text, row: Row)

  /** A pod's pass: the rows read and not yet tried, and its counts. */
  datatype Pass = Pass(todo: seq<Snap>, rewrapped: nat, failed: nat)

  datatype State = State(rows: map<Text, Row>, passes: map<int, Pass>)

  datatype Step =
    | Enter(id: Text, kind: Kind, baseUrl: Option<Text>, secret: seq<byte>, random: Random)
    | Remove(id: Text)
    | Start(pod: int, todo: seq<Snap>)
    | Next(pod: int, iv: seq<byte>)

  function Aad(id: Text, row: Row): Text {
    CredentialAad(id, row.kind, row.baseUrl)
  }

  function Entered(
    c: Config, id: Text, kind: Kind, baseUrl: Option<Text>, secret: seq<byte>, kek: Kek, random: Random): Row
  {
    Row(kind, baseUrl, SealSecret(c.aead, kek, secret, CredentialAad(id, kind, baseUrl), random), Some(secret))
  }

  /** `WHERE kek_id = previous`: each such row once. */
  ghost predicate Reads(c: Config, rows: map<Text, Row>, todo: seq<Snap>) {
    && (forall i :: 0 <= i < |todo| ==> IsRow(c, rows, todo[i]))
    && (forall id :: id in rows && rows[id].envelope.kekId == c.previous.id ==> Snap(id, rows[id]) in todo)
    && (forall i, j :: 0 <= i < j < |todo| ==> todo[i].id != todo[j].id)
  }

  predicate IsRow(c: Config, rows: map<Text, Row>, snap: Snap) {
    snap.id in rows && rows[snap.id] == snap.row && snap.row.envelope.kekId == c.previous.id
  }

  /** What the pass makes of a row it read: its new envelope, or nothing. */
  function Tried(c: Config, snap: Snap, iv: seq<byte>): Result<Envelope, SealError> {
    if Legacy(snap.row.envelope) then Err(Malformed)
    else Rewrap(c.aead, c.previous, c.current, snap.row.envelope, Aad(snap.id, snap.row), iv)
  }

  /** `WHERE id = ... AND kek_id = previous`. */
  predicate Hits(c: Config, rows: map<Text, Row>, id: Text) {
    id in rows && rows[id].envelope.kekId == c.previous.id
  }

  /** The conditional UPDATE. */
  function Updated(c: Config, rows: map<Text, Row>, id: Text, next: Envelope): map<Text, Row> {
    if Hits(c, rows, id) then
      rows[id := rows[id].(envelope := rows[id].envelope.(dekSealed := next.dekSealed, kekId := next.kekId))]
    else rows
  }

  ghost predicate Enabled(c: Config, s: State, step: Step) {
    match step
    case Enter(_, _, _, _, random) => random.Sized()
    case Remove(_) => true
    case Start(_, todo) => Reads(c, s.rows, todo)
    case Next(pod, iv) => pod in s.passes && s.passes[pod].todo != [] && |iv| == IV_BYTES
  }

  function Apply(c: Config, s: State, step: Step): State
    requires step.Next? ==> step.pod in s.passes && s.passes[step.pod].todo != []
  {
    match step
    case Enter(id, kind, baseUrl, secret, random) =>
      s.(rows := s.rows[id := Entered(c, id, kind, baseUrl, secret, c.current, random)])
    case Remove(id) => s.(rows := s.rows - {id})
    case Start(pod, todo) => s.(passes := s.passes[pod := Pass(todo, 0, 0)])
    case Next(pod, iv) =>
      var pass := s.passes[pod];
      var snap, rest := pass.todo[0], pass.todo[1..];
      var tried := Tried(c, snap, iv);
      if tried.Err? then s.(passes := s.passes[pod := pass.(todo := rest, failed := pass.failed + 1)])
      else
        var count := if Hits(c, s.rows, snap.id) then 1 else 0;
        s.(rows := Updated(c, s.rows, snap.id, tried.value),
           passes := s.passes[pod := pass.(todo := rest, rewrapped := pass.rewrapped + count)])
  }

  /** The state after `steps` from a table without passes, or None where one of them cannot happen. */
  ghost function Run(c: Config, rows: map<Text, Row>, steps: seq<Step>): Option<State> {
    if steps == [] then Some(State(rows, map[]))
    else
      match Run(c, rows, steps[..|steps| - 1])
      case None => None
      case Some(s) => if Enabled(c, s, steps[|steps| - 1]) then Some(Apply(c, s, steps[|steps| - 1])) else None
  }

  /* ---- the invariant ---- */

  /** Sealed under a key still held, a secret entered opens to what was entered. */
  ghost predicate RowSound(c: Config, id: Text, row: Row) {
    row.entered.Some? && !Legacy(row.envelope) ==>
      forall kek :: kek in {c.previous, c.current} && row.envelope.kekId == kek.id ==>
        OpenSecret(c.aead, kek, row.envelope, Aad(id, row)) == Ok(row.entered.value)
  }

  ghost predicate RowsSound(c: Config, rows: map<Text, Row>) {
    forall id :: id in rows ==> RowSound(c, id, rows[id])
  }

  /** The pass can rewrap the row. */
  predicate Rewrappable(c: Config, id: Text, row: Row) {
    && !Legacy(row.envelope) && row.envelope.kekId == c.previous.id
    && Open(c.aead, c.previous.key, row.envelope.dekSealed, DekContext(Aad(id, row))).Ok?
  }

  /** A row read is as it was read for as long as it is under the previous key. */
  ghost predicate SnapOk(c: Config, rows: map<Text, Row>, snap: Snap) {
    && snap.row.envelope.kekId == c.previous.id
    && (snap.id in rows && rows[snap.id].envelope.kekId == c.previous.id ==> rows[snap.id] == snap.row)
  }

  ghost predicate PassOk(c: Config, rows: map<Text, Row>, pass: Pass) {
    && (forall snap :: snap in pass.todo ==> SnapOk(c, rows, snap))
    && (forall id :: id in rows && Rewrappable(c, id, rows[id]) ==> Snap(id, rows[id]) in pass.todo)
  }

  ghost predicate Stuck(c: Config, rows: map<Text, Row>) {
    forall id :: id in rows ==> !Rewrappable(c, id, rows[id])
  }

  ghost predicate Inv(c: Config, s: State) {
    && RowsSound(c, s.rows)
    && forall pod :: pod in s.passes ==> PassOk(c, s.rows, s.passes[pod])
  }

  lemma EnterSound(c: Config, id: Text, kind: Kind, baseUrl: Option<Text>, secret: seq<byte>, random: Random)
    requires c.Ok() && random.Sized()
    ensures var row := Entered(c, id, kind, baseUrl, secret, c.current, random);
            RowSound(c, id, row) && row.envelope.kekId == c.current.id
  {
    hide c.aead.Lawful;
    SecretRoundTrip(c.aead, c.current, secret, CredentialAad(id, kind, baseUrl), random);
    var row := Entered(c, id, kind, baseUrl, secret, c.current, random);
    forall kek | kek in {c.previous, c.current} && row.envelope.kekId == kek.id
      ensures kek == c.current
    {
    }
  }

  /** No row comes to be under the previous key. */
  ghost predicate NoneComesUnder(c: Config, rows: map<Text, Row>, rows2: map<Text, Row>) {
    forall id :: id in rows2 && rows2[id].envelope.kekId == c.previous.id ==> id in rows && rows[id] == rows2[id]
  }

  /** Nothing comes to be under the previous key: what a pass read stays so until it is dealt with. */
  lemma OthersKeep(c: Config, rows: map<Text, Row>, rows2: map<Text, Row>, pass: Pass)
    requires PassOk(c, rows, pass)
    requires NoneComesUnder(c, rows, rows2)
    ensures PassOk(c, rows2, pass)
  {
  }

  /** A try: the row keeps its meaning, and is no longer the pass's to do. */
  lemma UpdateSound(c: Config, rows: map<Text, Row>, snap: Snap, iv: seq<byte>)
    requires c.Ok() && |iv| == IV_BYTES && RowsSound(c, rows) && SnapOk(c, rows, snap)
    requires Tried(c, snap, iv).Ok?
    ensures RowsSound(c, Updated(c, rows, snap.id, Tried(c, snap, iv).value))
  {
    hide c.aead.Lawful;
    var next := Tried(c, snap, iv).value;
    RewrapKeeps(c.aead, c.previous, c.current, snap.row.envelope, Aad(snap.id, snap.row), iv);
    var rows2 := Updated(c, rows, snap.id, next);
    if snap.id in rows && rows[snap.id].envelope.kekId == c.previous.id {
      assert RowSound(c, snap.id, rows[snap.id]);
      assert rows2[snap.id].envelope == next;
      assert RowSound(c, snap.id, rows2[snap.id]) by {
        hide OpenSecret, Rewrap;
        assert c.previous in {c.previous, c.current};
        UnderCurrent(c, snap.id, rows2[snap.id]);
      }
    }
    forall id | id in rows2
      ensures RowSound(c, id, rows2[id])
    {
      if id != snap.id {
        assert RowSound(c, id, rows[id]);
      }
    }
  }

  lemma UnderCurrent(c: Config, id: Text, row: Row)
    requires c.Ok() && row.envelope.kekId == c.current.id
    requires row.entered.Some? && !Legacy(row.envelope) ==>
               OpenSecret(c.aead, c.current, row.envelope, Aad(id, row)) == Ok(row.entered.value)
    ensures RowSound(c, id, row)
  {
  }

  lemma TriedIff(c: Config, snap: Snap, iv: seq<byte>)
    requires c.Ok() && |iv| == IV_BYTES
    ensures Tried(c, snap, iv).Ok? <==> Rewrappable(c, snap.id, snap.row)
    ensures Tried(c, snap, iv).Ok? ==> Tried(c, snap, iv).value.kekId == c.current.id
  {
  }

  /** After a try, a row still under the previous key was not the one tried, or could not be opened. */
  lemma NextPass(c: Config, s: State, pod: int, iv: seq<byte>)
    requires c.Ok() && Inv(c, s) && Enabled(c, s, Next(pod, iv))
    ensures var t := Apply(c, s, Next(pod, iv));
            PassOk(c, t.rows, t.passes[pod]) && RowsSound(c, t.rows)
    ensures var t := Apply(c, s, Next(pod, iv));
            NoneComesUnder(c, s.rows, t.rows)
  {
    hide Rewrap, Open, Tried, c.aead.Lawful;
    var pass := s.passes[pod];
    var snap, rest := pass.todo[0], pass.todo[1..];
    assert pass.todo == [snap] + rest;
    var t := Apply(c, s, Next(pod, iv));
    TriedIff(c, snap, iv);
    assert SnapOk(c, s.rows, snap);
    if Tried(c, snap, iv).Ok? {
      UpdateSound(c, s.rows, snap, iv);
    }
    hide RowsSound;
    OthersKeep(c, s.rows, t.rows, pass);
    forall id | id in t.rows && Rewrappable(c, id, t.rows[id])
      ensures Snap(id, t.rows[id]) in rest
    {
      assert Snap(id, t.rows[id]) in pass.todo;
      assert Snap(id, t.rows[id]) != snap;
    }
  }

  lemma StartPass(c: Config, s: State, todo: seq<Snap>)
    requires Inv(c, s) && Reads(c, s.rows, todo)
    ensures PassOk(c, s.rows, Pass(todo, 0, 0))
  {
  }

  lemma NoneLeft(c: Config, rows: map<Text, Row>, pass: Pass)
    requires PassOk(c, rows, pass) && pass.todo == []
    ensures Stuck(c, rows)
  {
  }

  lemma StepInv(c: Config, s: State, step: Step)
    requires c.Ok() && Inv(c, s) && Enabled(c, s, step)
    ensures Inv(c, Apply(c, s, step))
  {
    hide Rewrappable, RowSound, Tried, Reads, SnapOk;
    var t := Apply(c, s, step);
    match step {
      case Enter(id, kind, baseUrl, secret, random) => EnterSound(c, id, kind, baseUrl, secret, random);
      case Remove(id) =>
      case Start(pod, todo) => StartPass(c, s, todo);
      case Next(pod, iv) => NextPass(c, s, pod, iv);
    }
    assert RowsSound(c, t.rows);
    hide RowsSound, PassOk, Stuck;
    NothingUnderPrevious(c, s, step);
    forall pod | pod in t.passes
      ensures PassOk(c, t.rows, t.passes[pod])
    {
      if pod in s.passes && t.passes[pod] == s.passes[pod] {
        OthersKeep(c, s.rows, t.rows, s.passes[pod]);
      }
    }
  }

  lemma StuckStays(c: Config, rows: map<Text, Row>, rows2: map<Text, Row>)
    requires Stuck(c, rows)
    requires NoneComesUnder(c, rows, rows2)
    ensures Stuck(c, rows2)
  {
  }

  lemma NothingUnderPrevious(c: Config, s: State, step: Step)
    requires c.Ok() && Inv(c, s) && Enabled(c, s, step)
    ensures var t := Apply(c, s, step);
            NoneComesUnder(c, s.rows, t.rows)
  {
    hide Inv, Reads, Tried, PassOk, RowsSound, Stuck;
    if step.Next? {
      NextPass(c, s, step.pod, step.iv);
    }
  }

  lemma {:induction false} RunInv(c: Config, rows: map<Text, Row>, steps: seq<Step>)
    requires c.Ok() && RowsSound(c, rows) && Run(c, rows, steps).Some?
    ensures Inv(c, Run(c, rows, steps).value)
  {
    if steps != [] {
      var before, step := steps[..|steps| - 1], steps[|steps| - 1];
      RunInv(c, rows, before);
      var s := Run(c, rows, before).value;
      hide Inv, Apply, Enabled;
      StepInv(c, s, step);
    }
  }

  /* ---- what every run keeps ---- */

  /** What a row is a credential for, and the secret entered for it. */
  datatype Meaning = Meaning(kind: Kind, baseUrl: Option<Text>, entered: Option<seq<byte>>)

  /** What was last entered as `id` in a run, if it was not removed since. */
  ghost function LastEntered(rows: map<Text, Row>, steps: seq<Step>, id: Text): Option<Meaning> {
    if steps == [] then
      if id in rows then Some(Meaning(rows[id].kind, rows[id].baseUrl, rows[id].entered)) else None
    else
      match steps[|steps| - 1]
      case Enter(id2, kind, baseUrl, secret, _) =>
        if id2 == id then Some(Meaning(kind, baseUrl, Some(secret))) else LastEntered(rows, steps[..|steps| - 1], id)
      case Remove(id2) => if id2 == id then None else LastEntered(rows, steps[..|steps| - 1], id)
      case _ => LastEntered(rows, steps[..|steps| - 1], id)
  }

  /** Of a row that stays, only entering a secret changes anything but the data key's seal. */
  lemma OnlyEnterChanges(c: Config, s: State, step: Step, id: Text)
    requires Enabled(c, s, step) && id in s.rows && id in Apply(c, s, step).rows
    requires !(step.Enter? && step.id == id)
    ensures var was, now := s.rows[id], Apply(c, s, step).rows[id];
            && now.kind == was.kind && now.baseUrl == was.baseUrl && now.entered == was.entered
            && now.envelope.secretSealed == was.envelope.secretSealed
  {
    hide Tried;
  }

  lemma {:induction false} RowsAreEntered(c: Config, rows: map<Text, Row>, steps: seq<Step>, id: Text)
    requires Run(c, rows, steps).Some?
    ensures var now := Run(c, rows, steps).value.rows;
            LastEntered(rows, steps, id)
            == if id in now then Some(Meaning(now[id].kind, now[id].baseUrl, now[id].entered)) else None
  {
    if steps != [] {
      var before, step := steps[..|steps| - 1], steps[|steps| - 1];
      RowsAreEntered(c, rows, before, id);
      var s := Run(c, rows, before).value;
      hide Tried, Entered;
      if id in s.rows && !(step.Enter? && step.id == id) && !(step.Remove? && step.id == id) {
        OnlyEnterChanges(c, s, step, id);
      }
      if step.Enter? && step.id == id {
        EnteredIs(c, id, step.kind, step.baseUrl, step.secret, step.random);
      }
    }
  }

  lemma EnteredIs(c: Config, id: Text, kind: Kind, baseUrl: Option<Text>, secret: seq<byte>, random: Random)
    ensures var row := Entered(c, id, kind, baseUrl, secret, c.current, random);
            row.kind == kind && row.baseUrl == baseUrl && row.entered == Some(secret)
  {
  }

  /**
   * Through any interleaving, the rows are those last entered and not removed, each of the kind and base
   * URL it was entered with; and a secret entered, sealed under a key still held, opens to what was last
   * entered, in the context of the row's own id, kind and base URL.
   */
  lemma RotationKeepsMeaning(c: Config, rows: map<Text, Row>, steps: seq<Step>, id: Text)
    requires c.Ok() && RowsSound(c, rows) && Run(c, rows, steps).Some?
    ensures var now := Run(c, rows, steps).value.rows;
            && (id in now <==> LastEntered(rows, steps, id).Some?)
            && (id in now ==>
              var last := LastEntered(rows, steps, id).value;
              && now[id].kind == last.kind && now[id].baseUrl == last.baseUrl
              && (last.entered.Some? && !Legacy(now[id].envelope) ==> forall kek ::
                kek in {c.previous, c.current} && now[id].envelope.kekId == kek.id ==>
                  OpenSecret(c.aead, kek, now[id].envelope, CredentialAad(id, last.kind, last.baseUrl))
                  == Ok(last.entered.value)))
  {
    RunInv(c, rows, steps);
    RowsAreEntered(c, rows, steps, id);
    hide OpenSecret, CredentialAad;
    var s := Run(c, rows, steps).value;
    assert id in s.rows ==> RowSound(c, id, s.rows[id]);
  }

  /** A try by any pass: the row it changes was under the previous key, openable, and is under the current one. */
  lemma NextChanges(c: Config, s: State, pod: int, iv: seq<byte>)
    requires c.Ok() && Inv(c, s) && Enabled(c, s, Next(pod, iv))
    ensures var t, id := Apply(c, s, Next(pod, iv)), s.passes[pod].todo[0].id;
            && t.rows.Keys == s.rows.Keys
            && (forall other :: other in s.rows && other != id ==> t.rows[other] == s.rows[other])
            && (if id in s.rows && Rewrappable(c, id, s.rows[id]) then t.rows[id].envelope.kekId == c.current.id
                else t.rows == s.rows)
  {
    hide Rewrap, Tried, RowsSound, c.aead.Lawful;
    var snap := s.passes[pod].todo[0];
    assert snap in s.passes[pod].todo && SnapOk(c, s.rows, snap);
    TriedIff(c, snap, iv);
  }

  /** The state after the first `k` steps of a run. */
  ghost function After(c: Config, rows: map<Text, Row>, steps: seq<Step>, k: nat): State
    requires Run(c, rows, steps).Some? && k <= |steps|
  {
    Before(c, rows, steps, k);
    Run(c, rows, steps[..k]).value
  }

  lemma {:induction false} Before(c: Config, rows: map<Text, Row>, steps: seq<Step>, k: nat)
    requires Run(c, rows, steps).Some? && k <= |steps|
    ensures Run(c, rows, steps[..k]).Some?
    ensures k > 0 ==> Run(c, rows, steps[..k - 1]).Some?
    ensures k > 0 ==> var s := Run(c, rows, steps[..k - 1]).value;
              Enabled(c, s, steps[k - 1]) && Run(c, rows, steps[..k]) == Some(Apply(c, s, steps[k - 1]))
    decreases |steps|
  {
    hide Apply, Enabled;
    if k == |steps| {
      assert steps[..k] == steps;
    } else {
      Before(c, rows, steps[..|steps| - 1], k);
      assert steps[..|steps| - 1][..k] == steps[..k];
      assert k > 0 ==> steps[..|steps| - 1][..k - 1] == steps[..k - 1];
    }
  }

  /**
   * From the moment any pod's pass has tried all it read, no row is left that a pass could rewrap, and no
   * pass changes a row again: a second rotation finds nothing to do.
   */
  lemma {:induction false} OnePassIsEnough(
    c: Config, rows: map<Text, Row>, steps: seq<Step>, first: nat, pod: int, k: nat)
    requires c.Ok() && RowsSound(c, rows) && Run(c, rows, steps).Some? && first <= k <= |steps|
    requires pod in After(c, rows, steps, first).passes && After(c, rows, steps, first).passes[pod].todo == []
    ensures Stuck(c, After(c, rows, steps, k).rows)
    ensures k < |steps| && steps[k].Next? ==>
              After(c, rows, steps, k + 1).rows == After(c, rows, steps, k).rows
    decreases k
  {
    hide Apply, Rewrappable, RowsSound, PassOk;
    if k == first {
      Before(c, rows, steps, k);
      RunInv(c, rows, steps[..k]);
      var s := After(c, rows, steps, k);
      NoneLeft(c, s.rows, s.passes[pod]);
    } else {
      OnePassIsEnough(c, rows, steps, first, pod, k - 1);
      Before(c, rows, steps, k);
      RunInv(c, rows, steps[..k - 1]);
      var s := After(c, rows, steps, k - 1);
      NothingUnderPrevious(c, s, steps[k - 1]);
      StuckStays(c, s.rows, After(c, rows, steps, k).rows);
    }
    if k < |steps| && steps[k].Next? {
      Before(c, rows, steps, k + 1);
      RunInv(c, rows, steps[..k]);
      NextChanges(c, After(c, rows, steps, k), steps[k].pod, steps[k].iv);
    }
  }

  /** How many tries of `pod`'s last pass changed a row. */
  ghost function Changed(c: Config, rows: map<Text, Row>, steps: seq<Step>, pod: int): nat
    requires Run(c, rows, steps).Some?
    decreases |steps|
  {
    if steps == [] then 0
    else
      var before := steps[..|steps| - 1];
      match steps[|steps| - 1]
      case Start(pod2, _) => if pod2 == pod then 0 else Changed(c, rows, before, pod)
      case Next(pod2, _) =>
        Changed(c, rows, before, pod)
        + if pod2 == pod && Run(c, rows, steps).value.rows != Run(c, rows, before).value.rows then 1 else 0
      case _ => Changed(c, rows, before, pod)
  }

  /** How many of its rows were, as read, none that can be rewrapped. */
  ghost function Unopened(c: Config, rows: map<Text, Row>, steps: seq<Step>, pod: int): nat
    requires Run(c, rows, steps).Some?
    decreases |steps|
  {
    if steps == [] then 0
    else
      var before := steps[..|steps| - 1];
      match steps[|steps| - 1]
      case Start(pod2, _) => if pod2 == pod then 0 else Unopened(c, rows, before, pod)
      case Next(pod2, _) =>
        var read := Run(c, rows, before).value.passes[pod2].todo[0];
        Unopened(c, rows, before, pod) + if pod2 == pod && !Rewrappable(c, read.id, read.row) then 1 else 0
      case _ => Unopened(c, rows, before, pod)
  }

  /** What a pass reports: the rows it moved to the current key, and those it could not open. */
  lemma {:induction false} CountsAre(c: Config, rows: map<Text, Row>, steps: seq<Step>, pod: int)
    requires c.Ok() && RowsSound(c, rows) && Run(c, rows, steps).Some? && pod in Run(c, rows, steps).value.passes
    ensures var pass := Run(c, rows, steps).value.passes[pod];
            pass.rewrapped == Changed(c, rows, steps, pod) && pass.failed == Unopened(c, rows, steps, pod)
  {
    if steps != [] {
      var before, step := steps[..|steps| - 1], steps[|steps| - 1];
      var s := Run(c, rows, before).value;
      hide Tried, Updated, Rewrappable, RowsSound, PassOk, Reads;
      if pod in s.passes {
        CountsAre(c, rows, before, pod);
      }
      if step.Next? && step.pod == pod {
        RunInv(c, rows, before);
        NextCounts(c, s, pod, step.iv);
      }
    }
  }

  lemma NextCounts(c: Config, s: State, pod: int, iv: seq<byte>)
    requires c.Ok() && Inv(c, s) && Enabled(c, s, Next(pod, iv))
    ensures var t, pass, read := Apply(c, s, Next(pod, iv)), s.passes[pod], s.passes[pod].todo[0];
            && t.passes[pod].rewrapped == pass.rewrapped + (if t.rows != s.rows then 1 else 0)
            && t.passes[pod].failed == pass.failed + (if Rewrappable(c, read.id, read.row) then 0 else 1)
  {
    hide Rewrap, Tried, Rewrappable, RowsSound, c.aead.Lawful;
    var snap := s.passes[pod].todo[0];
    TriedIff(c, snap, iv);
    if Tried(c, snap, iv).Ok? && Hits(c, s.rows, snap.id) {
      assert Apply(c, s, Next(pod, iv)).rows[snap.id].envelope.kekId == c.current.id;
    }
  }

  function Tries(pod: int, n: nat, iv: seq<byte>): (r: seq<Step>)
    ensures |r| == n
  {
    seq(n, _ => Next(pod, iv))
  }

  /** A pass ends with as many tries as it has rows to do, whatever meets them. */
  lemma {:induction false} PassEnds(
    c: Config, rows: map<Text, Row>, steps: seq<Step>, pod: int, n: nat, iv: seq<byte>)
    requires Run(c, rows, steps).Some? && pod in Run(c, rows, steps).value.passes && |iv| == IV_BYTES
    requires n <= |Run(c, rows, steps).value.passes[pod].todo|
    ensures Run(c, rows, steps + Tries(pod, n, iv)).Some?
    ensures pod in Run(c, rows, steps + Tries(pod, n, iv)).value.passes
    ensures Run(c, rows, steps + Tries(pod, n, iv)).value.passes[pod].todo
         == Run(c, rows, steps).value.passes[pod].todo[n..]
  {
    hide Tried, Reads;
    var tried := steps + Tries(pod, n, iv);
    if n == 0 {
      assert tried == steps;
    } else {
      PassEnds(c, rows, steps, pod, n - 1, iv);
      assert tried[..|tried| - 1] == steps + Tries(pod, n - 1, iv);
    }
  }

  /* ---- why saves must not seal under the previous key ---- */

  /** What a save under `previous` does to a row a pass has read: a pod not yet restarted can make one. */
  function EnterPrevious(
    c: Config, s: State, id: Text, kind: Kind, baseUrl: Option<Text>, secret: seq<byte>, random: Random): State
  {
    s.(rows := s.rows[id := Entered(c, id, kind, baseUrl, secret, c.previous, random)])
  }

  /** The data key in a row that was read. */
  function ReadKey(c: Config, snap: Snap): (key: seq<byte>)
    requires Rewrappable(c, snap.id, snap.row)
  {
    Open(c.aead, c.previous.key, snap.row.envelope.dekSealed, DekContext(Aad(snap.id, snap.row))).value
  }

  /** No two texts sealed for the row as it was read, and as it is now, open for one another. */
  ghost predicate Authentic(c: Config, snap: Snap, now: Row, random: Random)
    requires Rewrappable(c, snap.id, snap.row)
  {
    var read, aad := Aad(snap.id, snap.row), Aad(snap.id, now);
    && c.aead.Authenticates({ReadKey(c, snap), random.dek}, {AadFor(SEAL_V2, aad)})
    && c.aead.Authenticates({c.current.key}, {AadFor(SEAL_V2, DekContext(aad)), AadFor(SEAL_V2, DekContext(read))})
  }

  /**
   * The conditional UPDATE looks at the key's id only: it puts the data key that was read beside the
   * secret that is there now. A secret saved under the previous key still opens if and only if the save
   * left the row's kind and base URL, and its data key is the one that was read: it came before the read.
   */
  lemma UpdateOpensIff(
    c: Config, rows: map<Text, Row>, snap: Snap, iv: seq<byte>,
    kind: Kind, baseUrl: Option<Text>, secret: seq<byte>, random: Random)
    requires c.Ok() && |iv| == IV_BYTES && random.Sized() && Rewrappable(c, snap.id, snap.row)
    requires snap.id in rows && rows[snap.id] == Entered(c, snap.id, kind, baseUrl, secret, c.previous, random)
    requires Authentic(c, snap, rows[snap.id], random)
    ensures Tried(c, snap, iv).Ok?
    ensures var row := Updated(c, rows, snap.id, Tried(c, snap, iv).value)[snap.id];
            && OpenSecret(c.aead, c.previous, row.envelope, Aad(snap.id, row)) == Err(WrongKey)
            && OpenSecret(c.aead, c.current, row.envelope, Aad(snap.id, row))
            == if kind == snap.row.kind && baseUrl == snap.row.baseUrl && ReadKey(c, snap) == random.dek
               then Ok(secret) else Err(Unauthentic)
  {
    hide c.aead.Lawful, c.aead.Authenticates, Seal, Open, CredentialAad;
    TriedIff(c, snap, iv);
    var read, aad, readKey := Aad(snap.id, snap.row), CredentialAad(snap.id, kind, baseUrl), ReadKey(c, snap);
    assert {c.current.key, c.current.key} == {c.current.key};
    assert {AadFor(SEAL_V2, aad), AadFor(SEAL_V2, aad)} == {AadFor(SEAL_V2, aad)};
    OpensOnlyAsSealed(c.aead, c.current.key, c.current.key, readKey, DekContext(aad), DekContext(read), iv);
    OpensOnlyAsSealed(c.aead, readKey, random.dek, secret, aad, aad, random.secretIv);
    SameContextIff(snap.id, kind, baseUrl, snap.row.kind, snap.row.baseUrl);
  }

  /** Of one row, kind and base URL make the context. */
  lemma SameContextIff(id: Text, kind: Kind, baseUrl: Option<Text>, kind2: Kind, baseUrl2: Option<Text>)
    ensures DekContext(CredentialAad(id, kind, baseUrl)) == DekContext(CredentialAad(id, kind2, baseUrl2))
       <==> kind == kind2 && baseUrl == baseUrl2
  {
    hide Bound, Ascii;
    var aad, aad2 := CredentialAad(id, kind, baseUrl), CredentialAad(id, kind2, baseUrl2);
    if DekContext(aad) == DekContext(aad2) {
      assert DekContext(aad)[4..] == aad && DekContext(aad2)[4..] == aad2;
      var n := |Ascii("ai_credentials:") + id + COLON|;
      assert aad[n..] == Bound(kind, baseUrl) && aad2[n..] == Bound(kind2, baseUrl2);
      BoundInjective(kind, baseUrl, kind2, baseUrl2);
    }
  }

  /** A cipher that only checks its key: lawful, and enough to show the loss. */
  function KeyTag(key: seq<byte>): seq<byte> {
    if |key| >= TAG_BYTES then key[..TAG_BYTES] else seq(TAG_BYTES, _ => 0)
  }

  function KeyCheck(): Aead {
    Aead((k, iv, p, aad) => Ciphered(KeyTag(k), p),
         (k, iv, c: Ciphered, aad) => if c.tag == KeyTag(k) then Some(c.text) else None)
  }

  lemma KeyCheckLawful()
    ensures KeyCheck().Lawful()
  {
  }

  lemma KeyCheckAuthenticates(key: seq<byte>, key2: seq<byte>, context: Text)
    requires key == key2 || KeyTag(key) != KeyTag(key2)
    ensures KeyCheck().Authenticates({key, key2}, {context})
  {
  }

  function Repeated(b: byte, n: nat): (r: seq<byte>)
    ensures |r| == n
  {
    seq(n, _ => b)
  }

  /** Read, saved under the previous key, updated: the new secret opens under no key any more. */
  lemma SaveUnderPreviousLoses(id: Text, kind: Kind, baseUrl: Option<Text>, first: seq<byte>, second: seq<byte>)
    ensures var c := Config(KeyCheck(), Kek([1], Repeated(1, 32)), Kek([2], Repeated(2, 32)));
            var random := Random(Repeated(3, 32), Repeated(0, 12), Repeated(0, 12));
            var random2 := Random(Repeated(4, 32), Repeated(0, 12), Repeated(0, 12));
            var before := Entered(c, id, kind, baseUrl, first, c.previous, random);
            var snap, s := Snap(id, before), State(map[id := before], map[]);
            var saved := EnterPrevious(c, s, id, kind, baseUrl, second, random2);
            && c.Ok() && RowSound(c, id, before) && RowSound(c, id, saved.rows[id])
            && Tried(c, snap, Repeated(0, 12)).Ok?
            && var row := Updated(c, saved.rows, id, Tried(c, snap, Repeated(0, 12)).value)[id];
               && row.entered == Some(second)
               && OpenSecret(c.aead, c.current, row.envelope, Aad(id, row)).Err?
               && OpenSecret(c.aead, c.previous, row.envelope, Aad(id, row)).Err?
  {
    var c := Config(KeyCheck(), Kek([1], Repeated(1, 32)), Kek([2], Repeated(2, 32)));
    var random := Random(Repeated(3, 32), Repeated(0, 12), Repeated(0, 12));
    var random2 := Random(Repeated(4, 32), Repeated(0, 12), Repeated(0, 12));
    var before := Entered(c, id, kind, baseUrl, first, c.previous, random);
    var after := Entered(c, id, kind, baseUrl, second, c.previous, random2);
    var aad := CredentialAad(id, kind, baseUrl);
    assert c.previous.id[0] != c.current.id[0];
    KeyCheckLawful();
    hide c.aead.Lawful, c.aead.Authenticates, KeyCheck, OpenSecret, CredentialAad;
    PreviousSound(c, id, kind, baseUrl, first, random);
    PreviousSound(c, id, kind, baseUrl, second, random2);
    SealOpens(c.aead, c.previous.key, random.dek, DekContext(aad), random.dekIv);
    var snap := Snap(id, before);
    assert ReadKey(c, snap) == random.dek && random2.dek[0] != random.dek[0];
    assert KeyTag(random2.dek)[0] != KeyTag(random.dek)[0];
    KeyCheckAuthenticates(random.dek, random2.dek, AadFor(SEAL_V2, aad));
    KeyCheckAuthenticates(c.current.key, c.current.key, AadFor(SEAL_V2, DekContext(aad)));
    assert {c.current.key, c.current.key} == {c.current.key};
    var dekContext := AadFor(SEAL_V2, DekContext(aad));
    assert {dekContext, dekContext} == {dekContext};
    assert Authentic(c, snap, after, random2);
    UpdateOpensIff(c, map[id := after], snap, Repeated(0, 12), kind, baseUrl, second, random2);
  }

  lemma PreviousSound(c: Config, id: Text, kind: Kind, baseUrl: Option<Text>, secret: seq<byte>, random: Random)
    requires c.Ok() && random.Sized()
    ensures var row := Entered(c, id, kind, baseUrl, secret, c.previous, random);
            RowSound(c, id, row) && !Legacy(row.envelope) && row.envelope.kekId == c.previous.id
  {
    hide c.aead.Lawful;
    var aad := CredentialAad(id, kind, baseUrl);
    SecretRoundTrip(c.aead, c.previous, secret, aad, random);
    SealOpens(c.aead, random.dek, secret, aad, random.secretIv);
    var row := Entered(c, id, kind, baseUrl, secret, c.previous, random);
    forall kek | kek in {c.previous, c.current} && row.envelope.kekId == kek.id
      ensures kek == c.previous
    {
    }
  }
}
