/** A process's data keys in memory: the cache of `CachedPayloadKeys`, agent-durable/src/scadbuddy_durable/codec.py. */
module KeyCaches {
  import opened Wrappers
  import opened Bytes
  import opened Json

  datatype Entry = Entry(subject: Text, key: seq<byte>, until: int)

  /** `popitem` of an empty dictionary. */
  datatype CacheError = KeyError

  predicate Distinct(entries: seq<Entry>) {
    forall i, j :: 0 <= i < j < |entries| ==> entries[i].subject != entries[j].subject
  }

  function Find(entries: seq<Entry>, subject: Text): Option<Entry> {
    if entries == [] then None
    else if entries[0].subject == subject then Some(entries[0])
    else Find(entries[1..], subject)
  }

  function Without(entries: seq<Entry>, subject: Text): seq<Entry> {
    if entries == [] then []
    else (if entries[0].subject == subject then [] else [entries[0]]) + Without(entries[1..], subject)
  }

  function Unexpired(entries: seq<Entry>, now: int): seq<Entry> {
    if entries == [] then []
    else (if entries[0].until <= now then [] else [entries[0]]) + Unexpired(entries[1..], now)
  }

  /** An OrderedDict's assignment: in its place, or last. */
  function Assigned(entries: seq<Entry>, e: Entry): (r: seq<Entry>)
    ensures |entries| <= |r| <= |entries| + 1
  {
    if entries == [] then [e]
    else if entries[0].subject == e.subject then [e] + entries[1..]
    else [entries[0]] + Assigned(entries[1..], e)
  }

  function Subjects(entries: seq<Entry>): set<Text> {
    set e | e in entries :: e.subject
  }

  lemma DistinctTail(entries: seq<Entry>)
    requires entries != []
    ensures Distinct(entries) <==> entries[0].subject !in Subjects(entries[1..]) && Distinct(entries[1..])
    ensures Subjects(entries) == {entries[0].subject} + Subjects(entries[1..])
  {
  }

  lemma {:induction false} WithoutIs(entries: seq<Entry>, subject: Text)
    requires Distinct(entries)
    ensures Distinct(Without(entries, subject)) && |Without(entries, subject)| <= |entries|
    ensures Subjects(Without(entries, subject)) == Subjects(entries) - {subject}
    ensures forall e :: e in Without(entries, subject) <==> e in entries && e.subject != subject
  {
    hide Distinct, Subjects;
    if entries == [] {
      assert Subjects([]) == {} by { NoSubjects(); }
    } else {
      DistinctTail(entries);
      var rest := entries[1..];
      WithoutIs(rest, subject);
      assert entries == [entries[0]] + rest;
      if entries[0].subject == subject {
        assert Without(entries, subject) == Without(rest, subject);
      } else {
        assert Without(entries, subject)[1..] == Without(rest, subject);
        DistinctTail(Without(entries, subject));
      }
    }
  }

  lemma NoSubjects()
    ensures Subjects([]) == {}
  {
  }

  lemma {:induction false} UnexpiredIs(entries: seq<Entry>, now: int)
    requires Distinct(entries)
    ensures Distinct(Unexpired(entries, now)) && |Unexpired(entries, now)| <= |entries|
    ensures Subjects(Unexpired(entries, now)) <= Subjects(entries)
    ensures forall e :: e in Unexpired(entries, now) <==> e in entries && e.until > now
  {
    hide Distinct, Subjects;
    if entries == [] {
      assert Unexpired(entries, now) == entries;
    } else {
      DistinctTail(entries);
      var rest := entries[1..];
      UnexpiredIs(rest, now);
      assert entries == [entries[0]] + rest;
      if entries[0].until <= now {
        assert Unexpired(entries, now) == Unexpired(rest, now);
      } else {
        assert Unexpired(entries, now)[1..] == Unexpired(rest, now);
        DistinctTail(Unexpired(entries, now));
      }
    }
  }

  lemma {:induction false} AssignedIs(entries: seq<Entry>, e: Entry)
    requires Distinct(entries)
    ensures Distinct(Assigned(entries, e))
    ensures Subjects(Assigned(entries, e)) == Subjects(entries) + {e.subject}
    ensures forall x :: x in Assigned(entries, e) <==> x == e || (x in entries && x.subject != e.subject)
  {
    hide Distinct, Subjects;
    var r := Assigned(entries, e);
    if entries == [] {
      assert r[1..] == [] && entries == [];
      NoSubjects();
      NoneDistinct();
      DistinctTail(r);
    } else {
      DistinctTail(entries);
      DistinctTail(r);
      var rest := entries[1..];
      assert entries == [entries[0]] + rest;
      if entries[0].subject == e.subject {
        assert r[1..] == rest;
        SubjectOf(rest);
      } else {
        AssignedIs(rest, e);
        assert r[1..] == Assigned(rest, e);
      }
    }
  }

  lemma NoneDistinct()
    ensures Distinct([])
  {
  }

  lemma SubjectOf(entries: seq<Entry>)
    ensures forall x :: x in entries ==> x.subject in Subjects(entries)
  {
  }

  lemma {:induction false} FindIs(entries: seq<Entry>, subject: Text)
    requires Distinct(entries)
    ensures Find(entries, subject).Some? <==> subject in Subjects(entries)
    ensures var found := Find(entries, subject);
            found.Some? ==> found.value in entries && found.value.subject == subject
  {
    hide Distinct, Subjects;
    if entries == [] {
      NoSubjects();
    } else {
      DistinctTail(entries);
      FindIs(entries[1..], subject);
      assert entries == [entries[0]] + entries[1..];
    }
  }

  lemma Once(entries: seq<Entry>)
    requires Distinct(entries)
    ensures forall a, b :: a in entries && b in entries && a.subject == b.subject ==> a == b
  {
  }

  /* ---- what `key_for` asks of the cache, and leaves in it ---- */

  /** The entry it answers from: the subject's, while it has not expired. */
  function Given(entries: seq<Entry>, subject: Text, now: int): Option<Entry> {
    var found := Find(entries, subject);
    if found.Some? && found.value.until > now then found else None
  }

  /** Expired keys go, then the oldest when the cache is full; with room for none there is no oldest. */
  function Kept(entries: seq<Entry>, e: Entry, now: int, cacheMax: nat): Result<seq<Entry>, CacheError> {
    var held := Unexpired(entries, now);
    if |held| < cacheMax then Ok(Assigned(held, e))
    else if held == [] then Err(KeyError)
    else Ok(Assigned(held[1..], e))
  }

  lemma GivenIs(entries: seq<Entry>, subject: Text, now: int)
    requires Distinct(entries)
    ensures var given := Given(entries, subject, now);
            && (given.Some? <==> exists e :: e in entries && e.subject == subject && e.until > now)
            && (given.Some? ==> given.value in entries && given.value.subject == subject && given.value.until > now)
  {
    FindIs(entries, subject);
    SubjectOf(entries);
    Once(entries);
  }

  /** Every place is taken by a key that has not expired. */
  ghost predicate FullAt(entries: seq<Entry>, now: int, cacheMax: nat) {
    |entries| == cacheMax && forall e :: e in entries ==> e.until > now
  }

  lemma {:induction false} UnexpiredAll(entries: seq<Entry>, now: int)
    ensures (forall e :: e in entries ==> e.until > now) <==> Unexpired(entries, now) == entries
    ensures |Unexpired(entries, now)| == |entries| <==> Unexpired(entries, now) == entries
    ensures |Unexpired(entries, now)| <= |entries|
  {
    if entries != [] {
      assert entries == [entries[0]] + entries[1..];
      UnexpiredAll(entries[1..], now);
      if entries[0].until > now {
        assert Unexpired(entries, now)[1..] == Unexpired(entries[1..], now);
      }
    }
  }

  lemma {:induction false} NewGoesLast(entries: seq<Entry>, e: Entry)
    requires Find(entries, e.subject).None?
    ensures Assigned(entries, e) == entries + [e]
  {
    if entries != [] {
      NewGoesLast(entries[1..], e);
      assert entries == [entries[0]] + entries[1..];
    }
  }

  lemma TailMembers(entries: seq<Entry>)
    requires Distinct(entries) && entries != []
    ensures forall x :: x in entries[1..] <==> x in entries && x != entries[0]
  {
    assert entries == [entries[0]] + entries[1..];
    forall x | x in entries[1..]
      ensures x != entries[0]
    {
      var i :| 0 <= i < |entries[1..]| && entries[1..][i] == x;
      assert entries[i + 1] == x;
    }
  }

  /**
   * The cache never outgrows its limit and holds the new key, last when its subject is new; of the old keys
   * exactly the expired ones go, and, where it was full of others, the oldest.
   */
  lemma KeptIs(entries: seq<Entry>, e: Entry, now: int, cacheMax: nat)
    requires Distinct(entries) && |entries| <= cacheMax
    ensures var kept := Kept(entries, e, now, cacheMax);
            && (kept.Err? <==> cacheMax == 0)
            && (kept.Ok? ==>
                  && Distinct(kept.value) && |kept.value| <= cacheMax && e in kept.value
                  && (forall x :: x in kept.value <==>
                        || x == e
                        || (x in entries && x.subject != e.subject && x.until > now
                            && !(FullAt(entries, now, cacheMax) && x == entries[0])))
                  && (Find(entries, e.subject).None? ==> kept.value[|kept.value| - 1] == e))
  {
    hide Distinct, Subjects;
    UnexpiredIs(entries, now);
    UnexpiredAll(entries, now);
    FindIs(entries, e.subject);
    var held := Unexpired(entries, now);
    FindIs(held, e.subject);
    if |held| < cacheMax {
      AssignedIs(held, e);
      if Find(held, e.subject).None? {
        NewGoesLast(held, e);
      }
    } else if held != [] {
      DistinctTail(held);
      TailMembers(held);
      AssignedIs(held[1..], e);
      FindIs(held[1..], e.subject);
      if Find(held[1..], e.subject).None? {
        NewGoesLast(held[1..], e);
      }
    }
  }

  class KeyCache {
    var entries: seq<Entry>
    const cacheS: int
    const cacheMax: nat

    ghost predicate Valid()
      reads this
    {
      Distinct(entries) && |entries| <= cacheMax
    }

    constructor (cacheS: int, cacheMax: nat)
      ensures Valid() && entries == [] && this.cacheS == cacheS && this.cacheMax == cacheMax
    {
      this.cacheS := cacheS;
      this.cacheMax := cacheMax;
      entries := [];
    }

    /** The start of `key_for`: the key while it has not expired; an expired one is dropped. */
    method Lookup(subject: Text, now: int) returns (given: Option<Entry>)
      requires Valid()
      modifies this
      ensures Valid()
      ensures given == Given(old(entries), subject, now)
      ensures given.Some? <==> exists e :: e in old(entries) && e.subject == subject && e.until > now
      ensures entries == if given.Some? then old(entries) else Without(old(entries), subject)
      ensures given.None? ==> forall e :: e in entries <==> e in old(entries) && e.subject != subject
    {
      GivenIs(entries, subject, now);
      WithoutIs(entries, subject);
      var cached := Find(entries, subject);
      if cached.Some? && cached.value.until > now {
        return cached;
      }
      entries := Without(entries, subject);
      given := None;
    }

    /**
     * The end of `key_for`: expired keys go, then the oldest when the cache is full, and the key is kept
     * for `cacheS`. With room for none the empty cache has nothing to evict, which throws.
     */
    method Keep(subject: Text, key: seq<byte>, now: int, later: int) returns (r: Result<(), CacheError>)
      requires Valid()
      modifies this
      ensures Valid()
      ensures r.Err? <==> cacheMax == 0
      ensures r.Ok? ==> Kept(old(entries), Entry(subject, key, later + cacheS), now, cacheMax) == Ok(entries)
      ensures r.Ok? ==> Entry(subject, key, later + cacheS) in entries
      ensures r.Ok? ==> forall x :: x in entries ==>
                          || x == Entry(subject, key, later + cacheS)
                          || (x in old(entries) && x.subject != subject && x.until > now)
    {
      ghost var was := entries;
      KeptIs(was, Entry(subject, key, later + cacheS), now, cacheMax);
      Purge(now);
      if |entries| >= cacheMax {
        if entries == [] {
          return Err(KeyError);
        }
        entries := entries[1..];
      }
      entries := Assigned(entries, Entry(subject, key, later + cacheS));
      r := Ok(());
    }

    /** The keys that have expired, deleted one by one. */
    method Purge(now: int)
      requires Valid()
      modifies this
      ensures Valid() && entries == Unexpired(old(entries), now)
    {
      ghost var was := entries;
      UnexpiredIs(was, now);
      var kept := [];
      for i := 0 to |entries|
        invariant entries == was
        invariant kept == Unexpired(was[..i], now)
      {
        UnexpiredSnoc(was, i, now);
        if entries[i].until > now {
          kept := kept + [entries[i]];
        }
      }
      assert was[..|was|] == was;
      entries := kept;
    }
  }

  lemma {:induction false} UnexpiredSnoc(entries: seq<Entry>, i: nat, now: int)
    requires i < |entries|
    ensures Unexpired(entries[..i + 1], now)
         == Unexpired(entries[..i], now) + if entries[i].until <= now then [] else [entries[i]]
  {
    if i > 0 {
      UnexpiredSnoc(entries[1..], i - 1, now);
      assert entries[1..][..i] == entries[..i + 1][1..];
      assert entries[1..][..i - 1] == entries[..i][1..];
    }
  }
}
