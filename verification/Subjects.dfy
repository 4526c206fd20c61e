/** Which subject a workflow's payloads are sealed for: `subject_of` of agent-durable/src/scadbuddy_durable/codec.py. */
module Subjects {
  import opened Wrappers
  import opened Json

  const DASH: Unit := 0x2D
  const NEWLINE: Unit := 0x0A

  predicate HexDigit(u: Unit) {
    0x30 <= u <= 0x39 || 0x61 <= u <= 0x66
  }

  predicate AllHex(s: Text) {
    forall u :: u in s ==> HexDigit(u)
  }

  predicate WordOrDash(s: Text) {
    forall u :: u in s ==> 0x30 <= u <= 0x39 || 0x41 <= u <= 0x5A || 0x61 <= u <= 0x7A || u == 0x5F || u == DASH
  }

  /** Hex digits in groups of 8, 4, 4, 4 and 12. */
  predicate Uuid(s: Text) {
    && |s| == 36
    && s[8] == DASH && s[13] == DASH && s[18] == DASH && s[23] == DASH
    && AllHex(s[..8]) && AllHex(s[9..13]) && AllHex(s[14..18]) && AllHex(s[19..23]) && AllHex(s[24..])
  }

  const SESSION: Text := Ascii("session-")
  const FLOW: Text := Ascii("flow-")
  const BGTASK: Text := Ascii("bgtask-")

  function Prefix(s: Text): Text {
    if SESSION <= s then SESSION else FLOW
  }

  /** `(session|flow)-<uuid>`, and nothing after. */
  predicate SubjectId(s: Text) {
    (SESSION <= s && Uuid(s[|SESSION|..])) || (FLOW <= s && Uuid(s[|FLOW|..]))
  }

  /** Where a subject at the start of `s` ends. */
  function SubjectEnd(s: Text): nat {
    |Prefix(s)| + 36
  }

  /** Python's `$` also matches before a newline that ends the text. */
  function Body(s: Text): Text {
    if s != [] && s[|s| - 1] == NEWLINE then s[..|s| - 1] else s
  }

  /** `_SUBJECT.match`. */
  predicate IsSubject(s: Text) {
    SubjectId(Body(s))
  }

  /** `_CHILD.match`: a subject, a dash and a suffix of letters, digits, `_` and `-`. */
  predicate IsChild(s: Text) {
    var b := Body(s);
    && SubjectEnd(b) + 1 < |b|
    && SubjectId(b[..SubjectEnd(b)]) && b[SubjectEnd(b)] == DASH
    && WordOrDash(b[SubjectEnd(b) + 1..])
  }

  /** `_BACKGROUND_TASK.match`: `bgtask-<uuid>-<8 hex>`. */
  predicate IsTask(s: Text) {
    var b := Body(s);
    && |b| == |BGTASK| + 45 && BGTASK <= b
    && Uuid(b[|BGTASK|..|BGTASK| + 36]) && b[|BGTASK| + 36] == DASH && AllHex(b[|BGTASK| + 37..])
  }

  function SubjectOf(workflowId: Option<Text>): Option<Text> {
    match workflowId
    case None => None
    case Some(id) =>
      if IsSubject(id) then Some(id)
      else if IsChild(id) then Some(id[..SubjectEnd(Body(id))])
      else if IsTask(id) then Some(SESSION + id[|BGTASK|..|BGTASK| + 36])
      else None
  }

  lemma NoNewline(s: Text)
    requires SubjectId(s)
    ensures Body(s) == s
  {
    var n := if SESSION <= s && Uuid(s[|SESSION|..]) then |SESSION| else |FLOW|;
    assert s[|s| - 1] == s[n..][24..][11];
    assert s[n..][24..][11] in s[n..][24..];
  }

  lemma FlowIsNoSession(s: Text)
    requires FLOW <= s
    ensures !(SESSION <= s)
  {
    assert FLOW[0] == 0x66 && SESSION[0] == 0x73;
    assert s[0] == FLOW[0];
  }

  /** What a payload is sealed for is a subject that decoding accepts, and a subject's subject is itself. */
  lemma SubjectOfSubject(workflowId: Option<Text>)
    requires SubjectOf(workflowId).Some?
    ensures var subject := SubjectOf(workflowId).value;
            IsSubject(subject) && SubjectOf(Some(subject)) == Some(subject)
  {
    var id := workflowId.value;
    if IsSubject(id) {
    } else if IsChild(id) {
      var subject := id[..SubjectEnd(Body(id))];
      assert Body(id)[..SubjectEnd(Body(id))] == subject;
      NoNewline(subject);
    } else {
      var subject := SESSION + id[|BGTASK|..|BGTASK| + 36];
      var uuid := Body(id)[|BGTASK|..|BGTASK| + 36];
      assert subject[|SESSION|..] == uuid && subject[..|SESSION|] == SESSION;
      NoNewline(subject);
    }
  }

  lemma SubjectLength(s: Text)
    ensures SubjectId(s) ==> |s| == SubjectEnd(s)
  {
    if FLOW <= s {
      FlowIsNoSession(s);
    }
  }

  lemma SamePrefix(subject: Text, id: Text)
    requires SubjectId(subject) && subject <= id
    ensures Prefix(id) == Prefix(subject)
  {
  }

  /** A child workflow's payloads are its parent's subject's. */
  lemma ChildOfSubject(subject: Text, suffix: Text)
    requires SubjectId(subject) && suffix != [] && WordOrDash(suffix)
    ensures SubjectOf(Some(subject + [DASH] + suffix)) == Some(subject)
  {
    var id := subject + [DASH] + suffix;
    assert id[|id| - 1] == suffix[|suffix| - 1];
    assert suffix[|suffix| - 1] in suffix;
    assert Body(id) == id;
    SubjectLength(subject);
    assert subject <= id;
    assert Prefix(id) == Prefix(subject) by {
      SamePrefix(subject, id);
    }
    SubjectLength(id);
    assert id[..|subject|] == subject && id[|subject| + 1..] == suffix;
  }

  /** A background task's are its session's. */
  lemma TaskOfSession(uuid: Text, task: Text)
    requires Uuid(uuid) && |task| == 8 && AllHex(task)
    ensures SubjectOf(Some(BGTASK + uuid + [DASH] + task)) == Some(SESSION + uuid)
  {
    var id := BGTASK + uuid + [DASH] + task;
    assert id[|id| - 1] == task[7] && task[7] in task;
    assert Body(id) == id;
    assert BGTASK[0] == 0x62 && FLOW[0] == 0x66 && SESSION[0] == 0x73;
    assert id[0] == 0x62;
    assert !(SESSION <= id) && !(FLOW <= id);
    assert id[|BGTASK|..|BGTASK| + 36] == uuid && id[|BGTASK| + 37..] == task;
    NotSubject(id);
  }

  lemma NotSubject(id: Text)
    requires !(SESSION <= id) && !(FLOW <= id) && Body(id) == id && |id| == |BGTASK| + 45
    ensures !IsSubject(id) && !IsChild(id)
  {
  }

  /* ---- exactly which ids, and which subjects ---- */

  lemma HexDigitsAre(u: Unit)
    ensures HexDigit(u) <==> u in Ascii("0123456789abcdef")
  {
    var t := Ascii("0123456789abcdef");
    if HexDigit(u) {
      assert t[if u <= 0x39 then u - 0x30 else u - 0x61 + 10] == u;
    }
  }

  lemma WordUnitsAre(u: Unit)
    ensures WordOrDash([u]) <==>
            || u in Ascii("0123456789") || u in Ascii("_-")
            || u in Ascii("ABCDEFGHIJKLMNOPQRSTUVWXYZ") || u in Ascii("abcdefghijklmnopqrstuvwxyz")
  {
    assert u in [u];
    Digits(u);
    Capitals(u);
    SmallLetters(u);
    assert Ascii("_-") == [0x5F, 0x2D];
    hide Ascii;
  }

  lemma Digits(u: Unit)
    ensures u in Ascii("0123456789") <==> 0x30 <= u <= 0x39
  {
    assert 0x30 <= u <= 0x39 ==> Ascii("0123456789")[u - 0x30] == u;
  }

  lemma Capitals(u: Unit)
    ensures u in Ascii("ABCDEFGHIJKLMNOPQRSTUVWXYZ") <==> 0x41 <= u <= 0x5A
  {
    assert 0x41 <= u <= 0x5A ==> Ascii("ABCDEFGHIJKLMNOPQRSTUVWXYZ")[u - 0x41] == u;
  }

  lemma SmallLetters(u: Unit)
    ensures u in Ascii("abcdefghijklmnopqrstuvwxyz") <==> 0x61 <= u <= 0x7A
  {
    assert 0x61 <= u <= 0x7A ==> Ascii("abcdefghijklmnopqrstuvwxyz")[u - 0x61] == u;
  }

  /** Groups of hex digits with a dash between. */
  ghost predicate Grouped(s: Text, a: Text, b: Text, c: Text, d: Text, e: Text) {
    && |a| == 8 && |b| == 4 && |c| == 4 && |d| == 4 && |e| == 12
    && AllHex(a) && AllHex(b) && AllHex(c) && AllHex(d) && AllHex(e)
    && s == a + [0x2D] + b + [0x2D] + c + [0x2D] + d + [0x2D] + e
  }

  lemma UuidIff(s: Text)
    ensures Uuid(s) <==> exists a, b, c, d, e :: Grouped(s, a, b, c, d, e)
  {
    hide AllHex;
    if Uuid(s) {
      assert s == s[..8] + [0x2D] + s[9..13] + [0x2D] + s[14..18] + [0x2D] + s[19..23] + [0x2D] + s[24..];
      assert Grouped(s, s[..8], s[9..13], s[14..18], s[19..23], s[24..]);
    }
    forall a, b, c, d, e | Grouped(s, a, b, c, d, e)
      ensures Uuid(s)
    {
      assert s[..8] == a && s[9..13] == b && s[14..18] == c && s[19..23] == d && s[24..] == e;
    }
  }

  /** `(session|flow)-<uuid>`. */
  lemma SubjectIdIff(s: Text)
    ensures SubjectId(s) <==>
            exists uuid :: Uuid(uuid) && (s == Ascii("session-") + uuid || s == Ascii("flow-") + uuid)
  {
    hide Uuid, Ascii;
    if SESSION <= s {
      assert s == SESSION + s[|SESSION|..];
    }
    if FLOW <= s {
      assert s == FLOW + s[|FLOW|..];
    }
    forall uuid | Uuid(uuid) && (s == SESSION + uuid || s == FLOW + uuid)
      ensures SubjectId(s)
    {
      assert s == SESSION + uuid ==> s[|SESSION|..] == uuid;
      assert s == FLOW + uuid ==> s[|FLOW|..] == uuid;
    }
  }

  ghost predicate ChildOf(id: Text, subject: Text) {
    exists suffix :: suffix != [] && WordOrDash(suffix) && Body(id) == subject + ([0x2D] + suffix)
  }

  ghost predicate TaskOf(id: Text, subject: Text) {
    exists uuid, task ::
      && Uuid(uuid) && |task| == 8 && AllHex(task) && subject == Ascii("session-") + uuid
      && Body(id) == Ascii("bgtask-") + uuid + ([0x2D] + task)
  }

  /** The one subject of an id that has one: its own, its parent's, or its task's session. */
  lemma SubjectOfIff(id: Text, subject: Text)
    ensures SubjectOf(Some(id)) == Some(subject) <==>
            || (id == subject && SubjectId(Body(id)))
            || (SubjectId(subject) && ChildOf(id, subject))
            || TaskOf(id, subject)
  {
    hide Uuid, AllHex, WordOrDash, Ascii;
    ChildIff(id, subject);
    TaskIff(id, subject);
    OneShape(id);
  }

  lemma ChildIff(id: Text, subject: Text)
    ensures IsChild(id) && id[..SubjectEnd(Body(id))] == subject <==> SubjectId(subject) && ChildOf(id, subject)
  {
    hide Uuid, AllHex, WordOrDash;
    var b := Body(id);
    var end := SubjectEnd(b);
    if IsChild(id) && id[..end] == subject {
      assert b[..end] == subject;
      assert b == subject + ([0x2D] + b[end + 1..]);
    }
    if SubjectId(subject) && ChildOf(id, subject) {
      ChildIs(id, subject);
    }
  }

  lemma ChildIs(id: Text, subject: Text)
    requires SubjectId(subject) && ChildOf(id, subject)
    ensures IsChild(id) && id[..SubjectEnd(Body(id))] == subject
  {
    hide Uuid, WordOrDash;
    var b := Body(id);
    var suffix :| suffix != [] && WordOrDash(suffix) && b == subject + ([0x2D] + suffix);
    SubjectLength(subject);
    assert subject <= b && b[..|subject|] == subject && b[|subject| + 1..] == suffix;
    SamePrefix(subject, b);
    assert id[..SubjectEnd(b)] == subject;
  }

  lemma TaskIff(id: Text, subject: Text)
    ensures IsTask(id) && SESSION + id[|BGTASK|..|BGTASK| + 36] == subject <==> TaskOf(id, subject)
  {
    hide Uuid, AllHex;
    var b := Body(id);
    if IsTask(id) && SESSION + id[|BGTASK|..|BGTASK| + 36] == subject {
      var uuid, task := b[|BGTASK|..|BGTASK| + 36], b[|BGTASK| + 37..];
      assert id[|BGTASK|..|BGTASK| + 36] == uuid;
      assert b == Ascii("bgtask-") + uuid + ([0x2D] + task);
      assert TaskOf(id, subject);
    }
    forall uuid, task | Uuid(uuid) && |task| == 8 && AllHex(task) && b == Ascii("bgtask-") + uuid + ([0x2D] + task)
      ensures IsTask(id) && id[|BGTASK|..|BGTASK| + 36] == uuid
    {
      UuidLength(uuid);
      assert b[..|BGTASK|] == BGTASK;
      assert b[|BGTASK|..|BGTASK| + 36] == uuid && b[|BGTASK| + 37..] == task;
      assert id[|BGTASK|..|BGTASK| + 36] == uuid;
    }
  }

  lemma UuidLength(s: Text)
    requires Uuid(s)
    ensures |s| == 36
  {
  }

  /** No id has two of the shapes. */
  lemma OneShape(id: Text)
    ensures IsChild(id) ==> !IsSubject(id)
    ensures IsTask(id) ==> !IsSubject(id) && !IsChild(id)
  {
    var b := Body(id);
    SubjectLength(b);
    if IsTask(id) {
      assert BGTASK[0] == 0x62 && FLOW[0] == 0x66 && SESSION[0] == 0x73;
      assert b[0] == 0x62;
      assert !(SESSION <= b) && !(FLOW <= b);
    }
  }
}
