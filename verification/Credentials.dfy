/** The credential table: `CredentialStore`, `planPut` and `openCredential` of agent/src/credentials.ts. */
module Credentials {
  import opened Wrappers
  import opened Bytes
  import opened Json
  import opened JsText
  import opened Secrets
  import opened CredentialAads
  import H = Health

  const MAX_CREDENTIALS := 100

  datatype Row = Row(priority: int, kind: Kind, baseUrl: Option<Text>, envelope: Envelope, health: H.Row)

  /** The status a `CredentialError` carries: 400, 404, 409 or 503. */
  datatype Refusal = BadRequest | NotFound | Conflict | NoKey

  datatype Update = Update(kind: Kind, baseUrl: Option<Text>, secret: Option<Text>)

  /** What the store calls and this model does not look into. */
  datatype Rules = Rules(
    aead: Aead, utf8: Text -> seq<byte>, normaliseBaseUrl: Text -> Result<Text, Refusal>)

  datatype Plan = Keep | Write(kind: Kind, baseUrl: Option<Text>, envelope: Envelope)

  /* ---- planPut ---- */

  predicate Given(baseUrl: Option<Text>) {
    baseUrl.Some? && baseUrl.value != []
  }

  function PlannedUrl(rules: Rules, update: Update): Result<Option<Text>, Refusal> {
    if update.kind == Gateway then
      if !Given(update.baseUrl) then Err(BadRequest)
      else
        var url :- rules.normaliseBaseUrl(update.baseUrl.value);
        Ok(Some(url))
    else if Given(update.baseUrl) then Err(BadRequest)
    else Ok(None)
  }

  function PlanPut(
    rules: Rules, update: Update, current: Option<Row>, kek: Option<Kek>, id: Text, random: Random
  ): Result<Plan, Refusal> {
    var baseUrl :- PlannedUrl(rules, update);
    if update.secret.None? then
      if current.None? then Err(BadRequest)
      else if current.value.kind != update.kind || current.value.baseUrl != baseUrl then Err(Conflict)
      else if Legacy(current.value.envelope) then Err(Conflict)
      else Ok(Keep)
    else
      var secret := Trim(update.secret.value);
      if secret == [] then Err(BadRequest)
      else if exists u :: u in secret && Space(u) then Err(BadRequest)
      else if kek.None? then Err(NoKey)
      else
        Ok(Write(update.kind, baseUrl,
                 SealSecret(rules.aead, kek.value, rules.utf8(secret),
                            CredentialAad(id, update.kind, baseUrl), random)))
  }

  /** What opening a row gives. */
  datatype Credential = Credential(kind: Kind, baseUrl: Option<Text>, secret: seq<byte>)

  datatype Unopened = Old | Sealing(error: SealError) | NoBaseUrl

  function OpenCredential(a: Aead, kek: Kek, id: Text, row: Row): Result<Credential, Unopened> {
    if Legacy(row.envelope) then Err(Old)
    else
      match OpenSecret(a, kek, row.envelope, CredentialAad(id, row.kind, row.baseUrl))
      case Err(e) => Err(Sealing(e))
      case Ok(secret) =>
        if row.kind == Gateway && row.baseUrl.None? then Err(NoBaseUrl)
        else Ok(Credential(row.kind, row.baseUrl, secret))
  }

  /** A secret is kept only where it was entered for: same kind, same base URL, current format. */
  lemma KeepsOnlyInPlace(rules: Rules, update: Update, current: Option<Row>, kek: Option<Kek>, id: Text, random: Random)
    ensures PlanPut(rules, update, current, kek, id, random) == Ok(Keep) <==>
            && update.secret.None? && current.Some? && !Legacy(current.value.envelope)
            && current.value.kind == update.kind && PlannedUrl(rules, update) == Ok(current.value.baseUrl)
  {
  }

  /** What is written opens, with its key, to the secret as entered, for the kind and base URL given. */
  lemma WrittenOpens(rules: Rules, update: Update, current: Option<Row>, kek: Kek, id: Text, random: Random, row: Row)
    requires rules.aead.Lawful() && random.Sized()
    requires var plan := PlanPut(rules, update, current, Some(kek), id, random);
             plan.Ok? && plan.value.Write? && row.kind == plan.value.kind && row.baseUrl == plan.value.baseUrl
             && row.envelope == plan.value.envelope
    ensures OpenCredential(rules.aead, kek, id, row)
         == Ok(Credential(update.kind, PlannedUrl(rules, update).value, rules.utf8(Trim(update.secret.value))))
    ensures row.envelope.kekId == kek.id && !Legacy(row.envelope)
  {
    hide rules.aead.Lawful;
    var aad := CredentialAad(id, row.kind, row.baseUrl);
    var secret := rules.utf8(Trim(update.secret.value));
    SecretRoundTrip(rules.aead, kek, secret, aad, random);
    SealOpens(rules.aead, random.dek, secret, aad, random.secretIv);
  }

  /** The base URL a save is for: a gateway's, normalised. */
  function Destination(rules: Rules, update: Update): Option<Text> {
    if update.kind == Gateway && update.baseUrl.Some? then
      match rules.normaliseBaseUrl(update.baseUrl.value) case Ok(url) => Some(url) case Err(_) => None
    else None
  }

  /** A gateway has a base URL, and one that can be normalised; nothing else has one. */
  predicate DestinationFits(rules: Rules, update: Update) {
    var entered := update.baseUrl.Some? && |update.baseUrl.value| > 0;
    if update.kind == Gateway then entered && Destination(rules, update).Some? else !entered
  }

  /**
   * What a save needs: a destination that fits its kind, and either one word to seal and a key, or a stored
   * secret in the current format that was entered for that very destination.
   */
  lemma SavedIff(rules: Rules, update: Update, current: Option<Row>, kek: Option<Kek>, id: Text, random: Random)
    ensures PlanPut(rules, update, current, kek, id, random).Ok? <==>
            && DestinationFits(rules, update)
            && match update.secret
               case Some(text) => |Trim(text)| > 0 && (forall u :: u in Trim(text) ==> !Space(u)) && kek.Some?
               case None =>
                 && current.Some? && current.value.kind == update.kind
                 && current.value.baseUrl == Destination(rules, update)
                 && (|current.value.envelope.secretSealed| > 0 ==> current.value.envelope.secretSealed[0] != 1)
    ensures PlanPut(rules, update, current, kek, id, random) == Err(NoKey) ==>
              kek.None? || !DestinationFits(rules, update)
    ensures DestinationFits(rules, update) && update.secret.None? && current.Some?
            && PlanPut(rules, update, current, kek, id, random).Err? ==>
              PlanPut(rules, update, current, kek, id, random) == Err(Conflict)
  {
  }

  /**
   * A row opens to its secret, for its own kind and base URL, exactly in the current format, under its own
   * key, and, where it is a gateway's, with a base URL.
   */
  lemma OpensIff(a: Aead, kek: Kek, id: Text, row: Row, c: Credential)
    ensures OpenCredential(a, kek, id, row) == Ok(c) <==>
            && (|row.envelope.secretSealed| > 0 ==> row.envelope.secretSealed[0] != 1)
            && row.envelope.kekId == kek.id
            && OpenSecret(a, kek, row.envelope, CredentialAad(id, row.kind, row.baseUrl)) == Ok(c.secret)
            && c.kind == row.kind && c.baseUrl == row.baseUrl && (c.kind == Gateway ==> c.baseUrl.Some?)
  {
  }

  /* ---- the order ---- */

  /** `order[k]` is the row of priority `k`, and there is no other. */
  ghost predicate OrderedAs(rows: map<Text, Row>, order: seq<Text>) {
    && NoDup(order)
    && (forall id :: id in rows <==> id in order)
    && (forall k :: 0 <= k < |order| ==> rows[order[k]].priority == k)
  }

  /** Rows in `order` by priority, with gaps: what a DELETE leaves. */
  ghost predicate Increasing(rows: map<Text, Row>, order: seq<Text>) {
    && NoDup(order)
    && (forall id :: id in rows <==> id in order)
    && (forall i, j :: 0 <= i < j < |order| ==> rows[order[i]].priority < rows[order[j]].priority)
  }

  function Before(rows: map<Text, Row>, id: Text): set<Text>
    requires id in rows
  {
    set other | other in rows && rows[other].priority < rows[id].priority
  }

  /** `row_number() OVER (ORDER BY priority) - 1` for every row. */
  function Renumbered(rows: map<Text, Row>): map<Text, Row> {
    map id | id in rows :: rows[id].(priority := |Before(rows, id)|)
  }

  lemma {:induction false} PrefixSize(order: seq<Text>, k: nat)
    requires NoDup(order) && k <= |order|
    ensures |set i | 0 <= i < k :: order[i]| == k
  {
    var s := set i | 0 <= i < k :: order[i];
    if k == 0 {
      assert s == {};
    } else {
      PrefixSize(order, k - 1);
      var shorter := set i | 0 <= i < k - 1 :: order[i];
      assert s == shorter + {order[k - 1]};
      assert order[k - 1] !in shorter;
    }
  }

  /** Renumbering closes the gaps and keeps the order. */
  lemma RenumberedOrder(rows: map<Text, Row>, order: seq<Text>)
    requires Increasing(rows, order)
    ensures OrderedAs(Renumbered(rows), order)
  {
    forall k | 0 <= k < |order|
      ensures |Before(rows, order[k])| == k
    {
      BeforeSize(rows, order, k);
    }
  }

  lemma BeforeSize(rows: map<Text, Row>, order: seq<Text>, k: nat)
    requires Increasing(rows, order) && k < |order|
    ensures order[k] in rows && |Before(rows, order[k])| == k
  {
    PrefixSize(order, k);
    var prefix := set i | 0 <= i < k :: order[i];
    forall id
      ensures id in Before(rows, order[k]) <==> id in prefix
    {
      if id in rows {
        var i :| 0 <= i < |order| && order[i] == id;
      }
    }
    assert Before(rows, order[k]) == prefix;
  }

  function Removed(order: seq<Text>, k: nat): seq<Text>
    requires k < |order|
  {
    order[..k] + order[k + 1..]
  }

  lemma RemovedIncreasing(rows: map<Text, Row>, order: seq<Text>, k: nat)
    requires OrderedAs(rows, order) && k < |order|
    ensures Increasing(rows - {order[k]}, Removed(order, k))
  {
  }

  /** What `reorder` checks of the ids it is given. */
  predicate NamesEach(rows: map<Text, Row>, ids: seq<Text>) {
    var wanted := set id | id in ids;
    |wanted| == |ids| && |wanted| == |rows| && forall id :: id in rows ==> id in wanted
  }

  lemma NoDupCons(s: seq<Text>)
    requires s != []
    ensures NoDup(s) <==> s[0] !in s[1..] && NoDup(s[1..])
  {
  }

  lemma {:induction false} DistinctSize(ids: seq<Text>)
    ensures |set id | id in ids| <= |ids|
    ensures |set id | id in ids| == |ids| <==> NoDup(ids)
  {
    hide NoDup;
    var s := set id | id in ids;
    if ids == [] {
      assert s == {} && NoDup(ids) by { NoneNoDup(); }
    } else {
      var rest := ids[1..];
      NoDupCons(ids);
      DistinctSize(rest);
      var t := set id | id in rest;
      assert s == t + {ids[0]} by {
        assert ids == [ids[0]] + rest;
      }
      assert |s| == if ids[0] in rest then |t| else |t| + 1 by {
        assert ids[0] in rest ==> s == t;
      }
    }
  }

  lemma NoneNoDup()
    ensures NoDup<Text>([])
  {
  }

  lemma SubsetSame<T>(a: set<T>, b: set<T>)
    requires a <= b && |a| == |b|
    ensures a == b
  {
    assert b == a + (b - a);
    assert |b - a| == 0;
  }

  /** The check passes exactly for the permutations of the stored ids. */
  lemma NamesEachIff(rows: map<Text, Row>, ids: seq<Text>)
    ensures NamesEach(rows, ids) <==> NoDup(ids) && forall id :: id in rows <==> id in ids
  {
    var wanted := set id | id in ids;
    DistinctSize(ids);
    assert rows.Keys == set id | id in rows;
    if NamesEach(rows, ids) {
      SubsetSame(rows.Keys, wanted);
      forall id
        ensures id in rows <==> id in ids
      {
        assert id in rows.Keys <==> id in wanted;
      }
    }
    if NoDup(ids) && forall id :: id in rows <==> id in ids {
      assert rows.Keys == wanted;
    }
  }

  function IndexOf(ids: seq<Text>, id: Text): (r: nat)
    requires id in ids
    ensures r < |ids| && ids[r] == id
  {
    if ids[0] == id then 0 else 1 + IndexOf(ids[1..], id)
  }

  function Reordered(rows: map<Text, Row>, ids: seq<Text>): map<Text, Row>
    requires forall id :: id in rows ==> id in ids
  {
    map id | id in rows :: rows[id].(priority := IndexOf(ids, id))
  }

  lemma ReorderedOrder(rows: map<Text, Row>, ids: seq<Text>)
    requires NoDup(ids) && forall id :: id in rows <==> id in ids
    ensures OrderedAs(Reordered(rows, ids), ids)
  {
  }

  /** The row but for its place. */
  function Content(r: Row): Row {
    r.(priority := 0)
  }

  /* ---- the store ---- */

  /** `ai_credentials`; each method is one transaction, or one statement, on it. */
  class CredentialStore {
    var rows: map<Text, Row>
    ghost var order: seq<Text>
    const rules: Rules

    ghost predicate Valid()
      reads this
    {
      && OrderedAs(rows, order)
      && |order| <= MAX_CREDENTIALS
      && forall id :: id in rows ==> H.Valid(rows[id].health)
    }

    constructor (rules: Rules)
      ensures Valid() && rows == map[] && order == [] && this.rules == rules
    {
      this.rules := rules;
      rows := map[];
      order := [];
    }

    /** `ORDER BY priority LIMIT 1`. */
    method First() returns (id: Option<Text>)
      requires Valid()
      ensures id == if order == [] then None else Some(order[0])
    {
      if rows == map[] {
        SizeIs(rows, order);
        return None;
      }
      assert exists f :: f in rows && forall other :: other in rows ==> rows[f].priority <= rows[other].priority by {
        var any :| any in rows;
        assert any in order;
        Lowest(rows, order);
      }
      var first :| first in rows && forall other :: other in rows ==> rows[first].priority <= rows[other].priority;
      assert order[0] in rows;
      id := Some(first);
    }

    method Create(update: Update, kek: Option<Kek>, id: Text, random: Random) returns (r: Result<Text, Refusal>)
      requires Valid() && id !in rows
      modifies this
      ensures Valid()
      ensures update.secret.None? ==> r == Err(BadRequest)
      ensures r.Ok? <==> update.secret.Some? && |old(order)| < 100 && PlanPut(rules, update, None, kek, id, random).Ok?
      ensures update.secret.Some? && |old(order)| >= 100 ==> r == Err(Conflict)
      ensures update.secret.Some? ==> r == Inserted(rules, old(order), update, kek, id, random)
      ensures r.Err? ==> rows == old(rows) && order == old(order)
      ensures r.Ok? ==> order == old(order) + [id]
      ensures r.Ok? ==> rows == old(rows)[id := NewRow(rules, |old(order)|, update, kek, id, random)]
    {
      if update.secret.None? {
        return Err(BadRequest);
      }
      r := Insert(update, kek, id, random);
    }

    method Insert(update: Update, kek: Option<Kek>, id: Text, random: Random) returns (r: Result<Text, Refusal>)
      requires Valid() && id !in rows
      modifies this
      ensures Valid()
      ensures r == Inserted(rules, old(order), update, kek, id, random)
      ensures r.Err? ==> rows == old(rows) && order == old(order)
      ensures r.Ok? ==> order == old(order) + [id]
      ensures r.Ok? ==> rows == old(rows)[id := NewRow(rules, |old(order)|, update, kek, id, random)]
    {
      hide SealSecret;
      SizeIs(rows, order);
      if |rows| >= MAX_CREDENTIALS {
        return Err(Conflict);
      }
      var plan :- PlanPut(rules, update, None, kek, id, random);
      var next := NextPriority();
      rows := rows[id := Row(next, plan.kind, plan.baseUrl, plan.envelope, NEW_HEALTH)];
      order := order + [id];
      r := Ok(id);
    }

    /** `COALESCE(MAX(priority) + 1, 0)`. */
    method NextPriority() returns (next: int)
      requires Valid()
      ensures next == |order|
    {
      if rows == map[] {
        SizeIs(rows, order);
        return 0;
      }
      assert exists t :: t in rows && forall other :: other in rows ==> rows[other].priority <= rows[t].priority by {
        var any :| any in rows;
        assert any in order;
        Highest(rows, order);
      }
      var top :| top in rows && forall other :: other in rows ==> rows[other].priority <= rows[top].priority;
      assert order[|order| - 1] in rows;
      next := rows[top].priority + 1;
    }

    /** A save: over the credential named, or the first, or a new one when there is none. */
    method Put(update: Update, kek: Option<Kek>, id: Option<Text>, newId: Text, random: Random)
      returns (r: Result<Text, Refusal>)
      requires Valid() && newId !in rows
      modifies this
      ensures Valid()
      ensures var target := if id.Some? then id else if old(order) == [] then None else Some(old(order)[0]);
              if target.None? then
                && r == Inserted(rules, [], update, kek, newId, random)
                && order == (if r.Ok? then [newId] else [])
                && rows == if r.Ok? then map[newId := NewRow(rules, 0, update, kek, newId, random)] else map[]
              else if target.value !in old(rows) then
                r == Err(NotFound) && rows == old(rows) && order == old(order)
              else
                var before := old(rows)[target.value];
                var plan := PlanPut(rules, update, Some(before), kek, target.value, random);
                && order == old(order)
                && r == (if plan.Ok? then Ok(target.value) else Err(plan.error))
                && rows == if plan.Ok? then old(rows)[target.value := Saved(before, plan.value)] else old(rows)
    {
      hide PlanPut;
      var first := First();
      var target := if id.Some? then id else first;
      if target.None? {
        assert rows == map[];
        r := Insert(update, kek, newId, random);
        return;
      }
      if target.value !in rows {
        return Err(NotFound);
      }
      var before := rows[target.value];
      var plan :- PlanPut(rules, update, Some(before), kek, target.value, random);
      rows := rows[target.value := Saved(before, plan)];
      r := Ok(target.value);
    }

    /** Deletes the credential named, or the first; the rest close up in their order. */
    method Delete(id: Option<Text>) returns (deleted: bool)
      requires Valid()
      modifies this
      ensures Valid()
      ensures var target := if id.Some? then id else if old(order) == [] then None else Some(old(order)[0]);
              && (deleted <==> target.Some? && target.value in old(rows))
              && rows.Keys == old(rows).Keys - (if target.Some? then {target.value} else {})
              && order == Filtered(old(order), target)
      ensures forall other :: other in rows ==> Content(rows[other]) == Content(old(rows)[other])
    {
      hide OrderedAs, Increasing, Renumbered;
      var first := First();
      var target := if id.Some? then id else first;
      ghost var was := order;
      if target.None? || target.value !in rows {
        FilteredNone(rows, order, target);
        return false;
      }
      ghost var k := FilteredAt(rows, order, target.value);
      RemovedIncreasing(rows, order, k);
      rows := rows - {target.value};
      RenumberedOrder(rows, Removed(order, k));
      RenumberedContent(rows);
      rows := Renumbered(rows);
      order := Removed(order, k);
      deleted := true;
    }

    /** The ids in the order asked for, when they name every credential exactly once. */
    method Reorder(ids: seq<Text>) returns (r: Result<(), Refusal>)
      requires Valid()
      modifies this
      ensures Valid()
      ensures r == if multiset(ids) == multiset(old(order)) then Ok(()) else Err(Conflict)
      ensures order == if r.Ok? then ids else old(order)
      ensures r.Err? ==> rows == old(rows)
      ensures rows.Keys == old(rows).Keys
      ensures forall id :: id in rows ==> Content(rows[id]) == Content(old(rows)[id])
    {
      NamesEachIff(rows, ids);
      PermutationIff(rows, order, ids);
      if !NamesEach(rows, ids) {
        return Err(Conflict);
      }
      ReorderedOrder(rows, ids);
      SameSize(rows, order, ids);
      rows := Reordered(rows, ids);
      order := ids;
      r := Ok(());
    }

    method Reset(id: Text) returns (found: bool)
      requires Valid()
      modifies this
      ensures Valid() && order == old(order)
      ensures found <==> id in old(rows)
      ensures rows == if !found then old(rows)
                      else old(rows)[id := old(rows)[id].(health := H.Fresh(old(rows)[id].health))]
    {
      if id !in rows {
        return false;
      }
      rows := rows[id := rows[id].(health := H.Fresh(rows[id].health))];
      found := true;
    }

    method Record(id: Text, epoch: int, event: H.Event, now: int) returns (t: Option<H.Transition>)
      requires Valid()
      modifies this
      ensures Valid() && order == old(order)
      ensures id !in old(rows) ==> t == None && rows == old(rows)
      ensures id in old(rows) ==>
                var done := H.Record(old(rows)[id].health, epoch, event, now);
                t == done.transition && rows == old(rows)[id := old(rows)[id].(health := done.row)]
    {
      if id !in rows {
        return None;
      }
      H.DoValid(rows[id].health, H.Report(epoch, event), now);
      var done := H.Record(rows[id].health, epoch, event, now);
      rows := rows[id := rows[id].(health := done.row)];
      t := done.transition;
    }

    /** The credential named, or the first, decrypted. */
    method Reveal(kek: Kek, id: Option<Text>) returns (r: Option<Result<Credential, Unopened>>)
      requires Valid()
      ensures var target := if id.Some? then id else if order == [] then None else Some(order[0]);
              r == if target.Some? && target.value in rows
                   then Some(OpenCredential(rules.aead, kek, target.value, rows[target.value])) else None
    {
      hide OpenCredential;
      var first := First();
      var target := if id.Some? then id else first;
      if target.Some? && target.value in rows {
        r := Some(OpenCredential(rules.aead, kek, target.value, rows[target.value]));
      } else {
        r := None;
      }
    }
  }

  /**
   * What a save comes to: a new secret is what the row it saved then reveals, for the kind and base URL
   * given, active, without an error, in a new epoch; a save without one changes nothing.
   */
  method SaveThenReveal(
    store: CredentialStore, update: Update, kek: Kek, id: Option<Text>, newId: Text, random: Random)
    returns (saved: Result<Text, Refusal>, revealed: Option<Result<Credential, Unopened>>)
    requires store.Valid() && newId !in store.rows && store.rules.aead.Lawful() && random.Sized()
    modifies store
    ensures store.Valid() && old(store.rows).Keys <= store.rows.Keys
    ensures saved.Err? || update.secret.None? ==> store.rows == old(store.rows) && store.order == old(store.order)
    ensures saved.Ok? ==> saved.value in store.rows && revealed.Some?
    ensures saved.Ok? && update.secret.Some? ==>
              var row := store.rows[saved.value];
              && revealed == Some(Ok(Credential(update.kind, Destination(store.rules, update),
                                                store.rules.utf8(Trim(update.secret.value)))))
              && row.health.status == H.Active && row.health.until == None
              && row.health.lastError == None && row.health.lastErrorAt == None
              && row.health.epoch == (if saved.value in old(store.rows)
                                      then old(store.rows)[saved.value].health.epoch + 1
                                      else 0)
              && row.priority == (if saved.value in old(store.rows) then old(store.rows)[saved.value].priority
                                  else |old(store.order)|)
    ensures forall other :: other in old(store.rows) && saved != Ok(other) ==>
              store.rows[other] == old(store.rows)[other]
  {
    hide SealSecret, OpenSecret, store.rules.aead.Lawful;
    ghost var was := store.rows;
    saved := store.Put(update, Some(kek), id, newId, random);
    if saved.Err? {
      return saved, None;
    }
    if update.secret.Some? {
      ghost var current := if saved.value in was then Some(was[saved.value]) else None;
      WrittenOpens(store.rules, update, current, kek, saved.value, random, store.rows[saved.value]);
    }
    revealed := store.Reveal(kek, Some(saved.value));
  }

  /** The columns' defaults. */
  const NEW_HEALTH := H.Row(H.Active, None, 0, None, None, None)

  /** The outcome of an insert into a table in `order`. */
  function Inserted(
    rules: Rules, order: seq<Text>, update: Update, kek: Option<Kek>, id: Text, random: Random
  ): Result<Text, Refusal> {
    if |order| >= MAX_CREDENTIALS then Err(Conflict)
    else
      var _ :- PlanPut(rules, update, None, kek, id, random);
      Ok(id)
  }

  function NewRow(rules: Rules, priority: int, update: Update, kek: Option<Kek>, id: Text, random: Random): Row
    requires PlanPut(rules, update, None, kek, id, random).Ok?
  {
    var plan := PlanPut(rules, update, None, kek, id, random).value;
    Row(priority, plan.kind, plan.baseUrl, plan.envelope, NEW_HEALTH)
  }

  /** A row after a save: a new secret makes it active and moves its epoch. */
  function Saved(row: Row, plan: Plan): Row {
    match plan
    case Keep => row
    case Write(kind, baseUrl, envelope) => Row(row.priority, kind, baseUrl, envelope, H.Fresh(row.health))
  }

  function Filtered(order: seq<Text>, target: Option<Text>): seq<Text> {
    if order == [] then []
    else (if target == Some(order[0]) then [] else [order[0]]) + Filtered(order[1..], target)
  }

  lemma {:induction false} FilteredAbsent(order: seq<Text>, target: Option<Text>)
    requires target.Some? ==> target.value !in order
    ensures Filtered(order, target) == order
  {
    if order != [] {
      assert order[0] in order;
      assert forall id :: id in order[1..] ==> id in order;
      FilteredAbsent(order[1..], target);
      assert order == [order[0]] + order[1..];
    }
  }

  lemma FilteredNone(rows: map<Text, Row>, order: seq<Text>, target: Option<Text>)
    requires OrderedAs(rows, order) && (target.Some? ==> target.value !in rows)
    ensures Filtered(order, target) == order
  {
    FilteredAbsent(order, target);
  }

  lemma {:induction false} FilteredRemoved(order: seq<Text>, k: nat)
    requires NoDup(order) && k < |order|
    ensures Filtered(order, Some(order[k])) == Removed(order, k)
  {
    if k == 0 {
      FilteredAbsent(order[1..], Some(order[0]));
    } else {
      FilteredRemoved(order[1..], k - 1);
      assert Removed(order, k) == [order[0]] + Removed(order[1..], k - 1);
    }
  }

  lemma FilteredAt(rows: map<Text, Row>, order: seq<Text>, id: Text) returns (k: nat)
    requires OrderedAs(rows, order) && id in rows
    ensures k < |order| && order[k] == id && Filtered(order, Some(id)) == Removed(order, k)
  {
    k :| k < |order| && order[k] == id;
    FilteredRemoved(order, k);
  }

  lemma RenumberedContent(rows: map<Text, Row>)
    ensures Renumbered(rows).Keys == rows.Keys
    ensures forall id :: id in rows ==>
              Content(Renumbered(rows)[id]) == Content(rows[id]) && Renumbered(rows)[id].health == rows[id].health
  {
  }

  lemma Lowest(rows: map<Text, Row>, order: seq<Text>)
    requires OrderedAs(rows, order) && order != []
    ensures order[0] in rows && forall other :: other in rows ==> rows[order[0]].priority <= rows[other].priority
  {
  }

  lemma Highest(rows: map<Text, Row>, order: seq<Text>)
    requires OrderedAs(rows, order) && order != []
    ensures var last := order[|order| - 1];
            last in rows && forall other :: other in rows ==> rows[other].priority <= rows[last].priority
  {
  }

  lemma SizeIs(rows: map<Text, Row>, order: seq<Text>)
    requires OrderedAs(rows, order)
    ensures |rows| == |order|
  {
    DistinctSize(order);
    assert rows.Keys == set id | id in order;
  }

  lemma SameSize(rows: map<Text, Row>, order: seq<Text>, ids: seq<Text>)
    requires OrderedAs(rows, order) && NamesEach(rows, ids)
    ensures |ids| == |order|
  {
    SizeIs(rows, order);
  }

  lemma {:induction false} DistinctCount(s: seq<Text>, id: Text)
    requires NoDup(s)
    ensures multiset(s)[id] == if id in s then 1 else 0
  {
    if s != [] {
      DistinctCount(s[1..], id);
      assert s == [s[0]] + s[1..];
      assert s[0] !in s[1..];
    }
  }

  lemma {:induction false} CountsApart(s: seq<Text>)
    requires forall id :: multiset(s)[id] <= 1
    ensures NoDup(s)
  {
    if s != [] {
      assert s == [s[0]] + s[1..];
      assert multiset(s) == multiset{s[0]} + multiset(s[1..]);
      forall id
        ensures multiset(s[1..])[id] <= 1
      {
        assert multiset(s)[id] <= 1;
      }
      CountsApart(s[1..]);
      assert multiset(s)[s[0]] <= 1;
      assert s[0] !in multiset(s[1..]);
      assert s[0] !in s[1..];
      assert forall i :: 0 < i < |s| ==> s[i] in s[1..];
    }
  }

  lemma SameCounts(a: seq<Text>, b: seq<Text>)
    requires NoDup(a) && NoDup(b) && forall id :: id in a <==> id in b
    ensures multiset(a) == multiset(b)
  {
    forall id
      ensures multiset(a)[id] == multiset(b)[id]
    {
      DistinctCount(a, id);
      DistinctCount(b, id);
    }
  }

  lemma SameMembers(a: seq<Text>, b: seq<Text>)
    requires NoDup(b) && multiset(a) == multiset(b)
    ensures NoDup(a) && forall id :: id in a <==> id in b
  {
    forall id
      ensures multiset(a)[id] <= 1
      ensures id in a <==> id in b
    {
      DistinctCount(b, id);
      assert id in a <==> id in multiset(a);
      assert id in b <==> id in multiset(b);
    }
    CountsApart(a);
  }

  lemma PermutationIff(rows: map<Text, Row>, order: seq<Text>, ids: seq<Text>)
    requires OrderedAs(rows, order)
    ensures (NoDup(ids) && forall id :: id in rows <==> id in ids) <==> multiset(ids) == multiset(order)
  {
    hide NoDup;
    if NoDup(ids) && forall id :: id in rows <==> id in ids {
      SameCounts(ids, order);
    }
    if multiset(ids) == multiset(order) {
      SameMembers(ids, order);
    }
  }
}
