/**
 * Tool loadings: `setLoading` of agent/src/access/capabilities.ts against the settings store, and the
 * functions of agent/src/harness/toolSearch.ts it uses.
 */
module Loadings {
  import opened Wrappers
  import opened Json

  datatype Loading = Base | Searchable

  /** What is stored: only the tools whose loading differs from its default. */
  type Stored = map<Text, Loading>

  datatype Change = Change(tool: Text, loading: Option<Loading>)

  const LOADING_ATTEMPTS := 3

  /** What a tool loads as with nothing stored. */
  function DefaultLoading(upfront: set<Text>, tool: Text): Loading {
    if tool in upfront then Base else Searchable
  }

  function LoadingOf(upfront: set<Text>, tool: Text, stored: Stored): Loading {
    if tool in stored then stored[tool] else DefaultLoading(upfront, tool)
  }

  function WithLoading(upfront: set<Text>, stored: Stored, c: Change): Stored {
    var rest := stored - {c.tool};
    if c.loading.None? || c.loading.value == DefaultLoading(upfront, c.tool) then rest
    else rest[c.tool := c.loading.value]
  }

  predicate SameLoadings(a: Stored, b: Stored) {
    |a| == |b| && forall k :: k in a ==> k in b && a[k] == b[k]
  }

  /** Counting the keys and looking each of one side's up is enough to compare. */
  lemma SameLoadingsIff(a: Stored, b: Stored)
    ensures SameLoadings(a, b) <==> a == b
  {
    if SameLoadings(a, b) {
      assert a.Keys <= b.Keys;
      assert b.Keys == a.Keys + (b.Keys - a.Keys);
      assert |b.Keys| == |a.Keys| + |b.Keys - a.Keys|;
      assert a.Keys == b.Keys;
    }
  }

  /** The change is what the tool then loads as, and no other tool's loading moves. */
  lemma WithLoadingIs(upfront: set<Text>, stored: Stored, c: Change, tool: Text)
    ensures LoadingOf(upfront, tool, WithLoading(upfront, stored, c))
         == if tool != c.tool then LoadingOf(upfront, tool, stored)
            else if c.loading.Some? then c.loading.value else if tool in upfront then Base else Searchable
  {
  }

  /** Nothing is stored that says what a tool loads as anyway. */
  predicate Minimal(upfront: set<Text>, stored: Stored) {
    forall tool :: tool in stored ==> stored[tool] != (if tool in upfront then Base else Searchable)
  }

  lemma {:induction false} ReplayMinimal(upfront: set<Text>, start: Stored, log: seq<Entry>)
    requires Minimal(upfront, start)
    ensures Minimal(upfront, Replay(upfront, start, log))
    decreases |log|
  {
    if log != [] {
      ReplayMinimal(upfront, start, log[..|log| - 1]);
    }
  }

  /** A change made, and whose. */
  datatype Entry = Entry(caller: int, change: Change)

  function Replay(upfront: set<Text>, start: Stored, log: seq<Entry>): Stored {
    if log == [] then start
    else WithLoading(upfront, Replay(upfront, start, log[..|log| - 1]), log[|log| - 1].change)
  }

  /** The last change made to a tool. */
  function LastChange(log: seq<Entry>, tool: Text): Option<Change> {
    if log == [] then None
    else if log[|log| - 1].change.tool == tool then Some(log[|log| - 1].change)
    else LastChange(log[..|log| - 1], tool)
  }

  /** No update is lost: a tool loads as the last change made to it says, or as it did at the start. */
  lemma {:induction false} LastChangeHolds(upfront: set<Text>, start: Stored, log: seq<Entry>, tool: Text)
    ensures LoadingOf(upfront, tool, Replay(upfront, start, log))
         == match LastChange(log, tool)
            case None => LoadingOf(upfront, tool, start)
            case Some(c) => if c.loading.Some? then c.loading.value else if tool in upfront then Base else Searchable
    decreases |log|
  {
    hide LoadingOf, WithLoading;
    if log != [] {
      var n := |log| - 1;
      LastChangeHolds(upfront, start, log[..n], tool);
      WithLoadingIs(upfront, Replay(upfront, start, log[..n]), log[n].change, tool);
    }
  }

  function Mine(log: seq<Entry>, caller: int): nat {
    if log == [] then 0 else Mine(log[..|log| - 1], caller) + if log[|log| - 1].caller == caller then 1 else 0
  }

  lemma MineSnoc(log: seq<Entry>, e: Entry, caller: int)
    ensures Mine(log + [e], caller) == Mine(log, caller) + if e.caller == caller then 1 else 0
  {
  }

  lemma ReplaySnoc(upfront: set<Text>, start: Stored, log: seq<Entry>, e: Entry)
    ensures Replay(upfront, start, log + [e]) == WithLoading(upfront, Replay(upfront, start, log), e.change)
  {
  }

  class LoadingStore {
    const upfront: set<Text>
    /** What the settings held when the log began. */
    const start: Stored
    var stored: Stored
    /** The changes made, each in the order it took effect. */
    ghost var log: seq<Entry>

    /** The stored loadings are the changes made one after another. */
    ghost predicate Valid()
      reads this
    {
      stored == Replay(upfront, start, log)
    }

    constructor (upfront: set<Text>, start: Stored)
      ensures Valid() && log == [] && stored == start && this.start == start && this.upfront == upfront
    {
      this.upfront := upfront;
      this.start := start;
      stored := start;
      log := [];
    }

    /** The other callers, between two statements of `me`: any number of changes, each one of theirs. */
    method Interfere(others: seq<Entry>, me: int)
      requires Valid() && forall e :: e in others ==> e.caller != me
      modifies this
      ensures Valid() && old(log) <= log && Mine(log, me) == old(Mine(log, me))
    {
      for i := 0 to |others|
        invariant Valid() && old(log) <= log && Mine(log, me) == old(Mine(log, me))
      {
        ReplaySnoc(upfront, start, log, others[i]);
        MineSnoc(log, others[i], me);
        stored := WithLoading(upfront, stored, others[i].change);
        log := log + [others[i]];
      }
    }

    method Read() returns (seen: Stored)
      ensures seen == stored
    {
      seen := stored;
    }

    /** `setMany` with its check: one transaction, under the table's lock. */
    method Write(next: Stored, seen: Stored, ghost e: Entry) returns (wrote: bool)
      requires Valid() && next == WithLoading(upfront, seen, e.change)
      modifies this
      ensures Valid() && wrote == (old(stored) == seen)
      ensures if wrote then stored == next && log == old(log) + [e] else stored == old(stored) && log == old(log)
    {
      SameLoadingsIff(stored, seen);
      wrote := SameLoadings(stored, seen);
      if wrote {
        ReplaySnoc(upfront, start, log, e);
        stored := next;
        log := log + [e];
      }
    }

    /** One attempt of `setLoading`, other callers writing before its read and before its write. */
    method Attempt(c: Change, me: int, before: seq<Entry>, between: seq<Entry>) returns (ok: bool)
      requires Valid()
      requires (forall e :: e in before ==> e.caller != me) && (forall e :: e in between ==> e.caller != me)
      modifies this
      ensures Valid() && old(log) <= log
      ensures Mine(log, me) == old(Mine(log, me)) + if ok then 1 else 0
      ensures ok ==> |old(log)| < |log| && log[|log| - 1] == Entry(me, c)
    {
      hide Replay, WithLoading, Mine;
      Interfere(before, me);
      var seen := Read();
      var next := WithLoading(upfront, seen, c);
      SameLoadingsIff(next, seen);
      if SameLoadings(next, seen) {
        ReplaySnoc(upfront, start, log, Entry(me, c));
        MineSnoc(log, Entry(me, c), me);
        log := log + [Entry(me, c)];
        return true;
      }
      Interfere(between, me);
      MineSnoc(log, Entry(me, c), me);
      ok := Write(next, seen, Entry(me, c));
    }

    /**
     * Three attempts, `between` holding what others do before each one's read and before its write: they
     * succeed by taking effect once, at one instant of the call; else nothing changes.
     */
    method Save(c: Change, me: int, between: seq<seq<Entry>>) returns (ok: bool)
      requires Valid() && |between| == 6
      requires forall i, e :: 0 <= i < |between| && e in between[i] ==> e.caller != me
      modifies this
      ensures Valid() && old(log) <= log
      ensures Mine(log, me) == old(Mine(log, me)) + if ok then 1 else 0
      ensures ok ==> exists k :: |old(log)| <= k < |log| && log[k] == Entry(me, c)
    {
      hide Replay, Mine;
      for attempt := 0 to LOADING_ATTEMPTS
        invariant Valid() && old(log) <= log && Mine(log, me) == old(Mine(log, me))
      {
        ok := Attempt(c, me, between[2 * attempt], between[2 * attempt + 1]);
        if ok {
          return;
        }
      }
      ok := false;
    }
  }

  /** Only of these can a tool be given a loading. */
  const LOADING_SOURCES: set<Text> := {Ascii("builtin:scadbuddy"), Ascii("builtin:browser")}

  /** 409 for an item that takes none, 503 without a database, 409 when the loadings kept changing. */
  datatype Refusal = NoLoading | NoDatabase | Changed

  /** `setLoading`, of an item that is there: what it refuses changes nothing of its own making. */
  method SetLoading(
    loadings: LoadingStore?, source: Text, tool: bool, c: Change, me: int, between: seq<seq<Entry>>)
    returns (r: Result<(), Refusal>)
    requires |between| == 6
    requires forall i, e :: 0 <= i < |between| && e in between[i] ==> e.caller != me
    requires loadings != null ==> loadings.Valid()
    modifies loadings
    ensures r == Err(NoLoading) <==> source !in LOADING_SOURCES || !tool
    ensures r == Err(NoDatabase) <==> source in LOADING_SOURCES && tool && loadings == null
    ensures loadings != null ==>
              && loadings.Valid() && old(loadings.log) <= loadings.log
              && Mine(loadings.log, me) == old(Mine(loadings.log, me)) + (if r.Ok? then 1 else 0)
              && (r == Err(NoLoading) ==> loadings.log == old(loadings.log))
              && (r.Ok? ==> exists k :: |old(loadings.log)| <= k < |loadings.log| && loadings.log[k] == Entry(me, c))
  {
    if source !in LOADING_SOURCES || !tool {
      return Err(NoLoading);
    }
    if loadings == null {
      return Err(NoDatabase);
    }
    var ok := loadings.Save(c, me, between);
    r := if ok then Ok(()) else Err(Changed);
  }
}
