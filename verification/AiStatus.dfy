/** Whether the AI can be used and when it recovers: agent/src/aiStatus.ts over the credential list. */
module AiStatuses {
  import opened Wrappers
  import opened Json
  import H = Health

  datatype KekStatus = Mounted(id: Text) | Missing

  /** A listed credential, as of the database's clock. */
  datatype Stored = Stored(view: H.View, kekId: Text, legacyFormat: bool)

  datatype Ai =
    | Enabled
    | NoDatabase
    | Unreachable
    | MigrationsFailed
    | TimedOut
    | NoKey
    | NoCredential
    | OtherKey
    | OutdatedFormat
    | AllRateLimited
    | AllDisabled
    | NoneUsable

  datatype Answer = Answer(ai: Ai, recoversAt: Option<int>)

  /** What a bounded step came to. */
  datatype Bounded<T> = Late | Threw | Done(value: T)

  predicate OpensWith(c: Stored, kek: KekStatus) {
    kek.Mounted? && !c.legacyFormat && c.kekId == kek.id
  }

  predicate Cooling(c: Stored, kek: KekStatus) {
    c.view.status == H.CoolingDown && c.view.until.Some? && OpensWith(c, kek)
  }

  /** The soonest a cooling-down credential that the key opens is usable again. */
  function SoonestRecovery(list: seq<Stored>, kek: KekStatus): Option<int> {
    if list == [] then None
    else
      var rest := SoonestRecovery(list[1..], kek);
      if !Cooling(list[0], kek) then rest
      else if rest.Some? && rest.value < list[0].view.until.value then rest
      else list[0].view.until
  }

  /** The decision over a list already read. */
  function Decision(list: seq<Stored>, kek: KekStatus): Answer {
    if kek.Missing? then Answer(NoKey, None)
    else if list == [] then Answer(NoCredential, None)
    else if forall c :: c in list ==> !OpensWith(c, kek) then
      if exists c :: c in list && c.kekId != kek.id then Answer(OtherKey, None) else Answer(OutdatedFormat, None)
    else if exists c :: c in list && OpensWith(c, kek) && c.view.status == H.Active then Answer(Enabled, None)
    else
      var soonest := SoonestRecovery(list, kek);
      if soonest.None? then
        if forall c :: c in list ==> c.view.status == H.Disabled && OpensWith(c, kek) then Answer(AllDisabled, None)
        else Answer(NoneUsable, None)
      else if forall c :: c in list ==> c.view.status == H.CoolingDown && OpensWith(c, kek) then
        Answer(AllRateLimited, soonest)
      else Answer(NoneUsable, soonest)
  }

  /** `aiStatus`: each prerequisite in the order an operator has to fix them. */
  function AiStatus(
    wired: bool, dbOk: Option<bool>, ready: Bounded<bool>, list: Bounded<seq<Stored>>, kek: KekStatus
  ): Answer {
    if dbOk.None? || !wired then Answer(NoDatabase, None)
    else if !dbOk.value then Answer(Unreachable, None)
    else if !ready.Done? then Answer(TimedOut, None)
    else if !ready.value then Answer(MigrationsFailed, None)
    else if list.Threw? then Answer(Unreachable, None)
    else if list.Late? then Answer(TimedOut, None)
    else Decision(list.value, kek)
  }

  /** Enabled exactly when everything answered and some credential the key opens is active. */
  lemma EnabledIff(wired: bool, dbOk: Option<bool>, ready: Bounded<bool>, list: Bounded<seq<Stored>>, kek: KekStatus)
    ensures AiStatus(wired, dbOk, ready, list, kek).ai == Enabled <==>
            && wired && dbOk == Some(true) && ready == Done(true) && list.Done?
            && exists c :: c in list.value && c.view.status == H.Active
                           && kek.Mounted? && c.kekId == kek.id && !c.legacyFormat
  {
  }

  /**
   * What an operator is told of a list without a credential the key opens: another key's, when one is and
   * none of this key's would open, and the old format, when each is this key's and in it.
   */
  lemma NoneOpensIff(list: seq<Stored>, kek: KekStatus)
    ensures Decision(list, kek).ai == NoKey <==> kek == Missing
    ensures Decision(list, kek).ai == NoCredential <==> kek.Mounted? && list == []
    ensures Decision(list, kek).ai == OtherKey <==>
            && kek.Mounted? && (exists c :: c in list && c.kekId != kek.id)
            && forall c :: c in list ==> c.kekId != kek.id || c.legacyFormat
    ensures Decision(list, kek).ai == OutdatedFormat <==>
            kek.Mounted? && list != [] && forall c :: c in list ==> c.kekId == kek.id && c.legacyFormat
  {
    hide SoonestRecovery;
    if list != [] {
      assert list[0] in list;
    }
  }

  function WithReset(c: Stored): Stored {
    c.(view := H.View(H.Active, None))
  }

  /** A list as the table shows it: a time exactly while cooling down. */
  predicate Shown(list: seq<Stored>) {
    forall c :: c in list ==> (c.view.status == H.CoolingDown <==> c.view.until.Some?)
  }

  lemma {:induction false} SoonestIs(list: seq<Stored>, kek: KekStatus)
    ensures SoonestRecovery(list, kek).None? <==> forall c :: c in list ==> !Cooling(c, kek)
    ensures SoonestRecovery(list, kek).Some? ==>
              && (exists c :: c in list && Cooling(c, kek) && c.view.until == SoonestRecovery(list, kek))
              && (forall c :: c in list && Cooling(c, kek) ==> SoonestRecovery(list, kek).value <= c.view.until.value)
  {
    hide Cooling;
    if list != [] {
      SoonestIs(list[1..], kek);
      assert list == [list[0]] + list[1..];
      forall c
        ensures c in list <==> c == list[0] || c in list[1..]
      {
      }
      CoolingHasTime(list[0], kek);
    }
  }

  lemma CoolingHasTime(c: Stored, kek: KekStatus)
    ensures Cooling(c, kek) ==> c.view.until.Some?
  {
  }

  lemma AllDisabledMeans(list: seq<Stored>, kek: KekStatus)
    requires Shown(list)
    ensures Decision(list, kek).ai == AllDisabled <==>
            list != [] && forall c :: c in list ==> c.view.status == H.Disabled && OpensWith(c, kek)
  {
    hide SoonestRecovery;
    SoonestIs(list, kek);
    if list != [] {
      assert list[0] in list;
    }
  }

  /** "Every credential is disabled" is said exactly when all are, and a reset of any one would do. */
  lemma AllDisabledIff(list: seq<Stored>, kek: KekStatus)
    requires Shown(list)
    ensures Decision(list, kek).ai == AllDisabled <==>
            && list != [] && (forall c :: c in list ==> c.view.status == H.Disabled)
            && forall i :: 0 <= i < |list| ==> Decision(list[i := WithReset(list[i])], kek).ai == Enabled
  {
    hide Decision;
    AllDisabledMeans(list, kek);
    if list != [] && forall c :: c in list ==> c.view.status == H.Disabled {
      forall i | 0 <= i < |list|
        ensures Decision(list[i := WithReset(list[i])], kek).ai == Enabled <==> OpensWith(list[i], kek)
      {
        ResetOne(list, i, kek);
      }
      assert list[0] in list;
    }
  }

  lemma ResetOne(list: seq<Stored>, i: nat, kek: KekStatus)
    requires i < |list| && forall c :: c in list ==> c.view.status == H.Disabled
    ensures Decision(list[i := WithReset(list[i])], kek).ai == Enabled <==> OpensWith(list[i], kek)
  {
    hide SoonestRecovery;
    var after := list[i := WithReset(list[i])];
    assert after[i] in after;
    forall c | c in after
      ensures c == after[i] || c.view.status == H.Disabled
    {
      var j :| 0 <= j < |after| && after[j] == c;
      if j != i {
        assert list[j] in list;
      }
    }
  }

  /** "Every credential is rate limited" is said exactly when all are and the key opens them all. */
  lemma AllRateLimitedIff(list: seq<Stored>, kek: KekStatus)
    requires Shown(list)
    ensures Decision(list, kek).ai == AllRateLimited <==>
            list != [] && forall c :: c in list ==> c.view.status == H.CoolingDown && OpensWith(c, kek)
  {
    hide SoonestRecovery;
    SoonestIs(list, kek);
    if list != [] {
      assert list[0] in list;
    }
  }

  /* ---- recovery ---- */

  /** A row of the table with what `opensWith` reads. */
  datatype Row = Row(health: H.Row, kekId: Text, legacyFormat: bool)

  function Listed(rows: seq<Row>, now: int): (list: seq<Stored>)
    ensures |list| == |rows|
  {
    seq(|rows|, i requires 0 <= i < |rows| =>
      Stored(H.ViewAt(rows[i].health, now), rows[i].kekId, rows[i].legacyFormat))
  }

  predicate EnabledAt(rows: seq<Row>, kek: KekStatus, now: int) {
    Decision(Listed(rows, now), kek).ai == Enabled
  }

  lemma EnabledAtIff(rows: seq<Row>, kek: KekStatus, now: int)
    ensures EnabledAt(rows, kek, now) <==>
            exists i :: 0 <= i < |rows| && OpensWith(Listed(rows, now)[i], kek)
                        && Listed(rows, now)[i].view.status == H.Active
  {
  }

  /**
   * The time answered is when it recovers: nothing is recorded meanwhile, and the status is not
   * enabled at any instant before it and is at it. Without one, and not enabled, waiting never helps.
   */
  lemma RecoversExactlyThen(rows: seq<Row>, kek: KekStatus, now: int, later: int)
    requires forall i :: 0 <= i < |rows| ==> H.Valid(rows[i].health)
    requires later >= now && !EnabledAt(rows, kek, now)
    ensures var at := Decision(Listed(rows, now), kek).recoversAt;
            && (at.Some? ==> at.value > now)
            && (EnabledAt(rows, kek, later) <==> at.Some? && later >= at.value)
  {
    var list := Listed(rows, now);
    var at := SoonestRecovery(list, kek);
    SoonestIs(list, kek);
    RecoversAtIs(rows, kek, now);
    EnabledAtIff(rows, kek, now);
    EnabledAtIff(rows, kek, later);
    hide SoonestRecovery, EnabledAt, Decision;
    forall i | 0 <= i < |rows| && Cooling(list[i], kek)
      ensures at.Some? && at.value <= list[i].view.until.value && rows[i].health.until == list[i].view.until
    {
      assert list[i] in list;
    }
    if at.Some? {
      var c :| c in list && Cooling(c, kek) && c.view.until == at;
      var i :| 0 <= i < |list| && list[i] == c;
      assert later >= at.value ==>
               Listed(rows, later)[i].view.status == H.Active && OpensWith(Listed(rows, later)[i], kek);
    }
  }

  lemma RecoversAtIs(rows: seq<Row>, kek: KekStatus, now: int)
    requires !EnabledAt(rows, kek, now)
    ensures Decision(Listed(rows, now), kek).recoversAt == SoonestRecovery(Listed(rows, now), kek)
  {
    SoonestIs(Listed(rows, now), kek);
  }
}
