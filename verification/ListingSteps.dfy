/**
 * What the whole listing's cap takes, and in which order: `toStoredTools` of agent/src/access/listings.ts
 * removes one key from all tools at a time, and stops where the listing fits.
 */
module ListingSteps {
  import opened Wrappers
  import opened Json
  import opened Listings
  import opened ListingFields
  import opened ListingLosses
  import opened ListingCaps
  import opened ListingTotal

  /** The tool holds one of these keys whose loss has that name. */
  predicate Takes(t: Stored, gone: set<Text>, o: Omitted) {
    exists k :: k in gone * KeysOf(t.raw) && k != NAME && NamedAs(k) == o
  }

  /** The names of the losses that are new. */
  function NewNames(t: Stored, gone: set<Text>, names: seq<Omitted>): seq<Omitted> {
    if names == [] then []
    else
      (if names[0] !in t.omitted && Takes(t, gone, names[0]) then [names[0]] else []) + NewNames(t, gone, names[1..])
  }

  /** The tool without these keys, each loss named. */
  function Lighter(t: Stored, gone: set<Text>): Stored {
    Stored(Without(t.raw, gone), t.omitted + NewNames(t, gone, OMITTED))
  }

  /** These keys of the tool, and with `others` every one that is not known. */
  function Among(t: Stored, others: bool, keys: set<Text>): set<Text> {
    keys + if others then KeysOf(Others(t.raw)) else {}
  }

  function LighterAll(tools: seq<Stored>, others: bool, keys: set<Text>): (r: seq<Stored>)
    ensures |r| == |tools|
  {
    seq(|tools|, i requires 0 <= i < |tools| => Lighter(tools[i], Among(tools[i], others, keys)))
  }

  /** The listing's JSON is within two mebi-characters without these keys. */
  ghost predicate FitsWithout(tools: seq<Stored>, others: bool, keys: set<Text>) {
    Length(ListingJson(LighterAll(tools, others, keys))) <= 2_097_152
  }

  /** The same but for the order of the names. */
  ghost predicate Alike(u: Stored, v: Stored) {
    u.raw == v.raw && NoDup(u.omitted) && NoDup(v.omitted) && forall o :: o in u.omitted <==> o in v.omitted
  }

  lemma AlikeLength(u: Stored, v: Stored)
    requires Alike(u, v)
    ensures ToolLength(u) == ToolLength(v)
  {
    hide ToolLength, Labels, Costs, Weight;
    ToolLengthIs(u);
    ToolLengthIs(v);
    LabelsLength(u.omitted);
    LabelsLength(v.omitted);
    CostsAreWeight(u.omitted);
    CostsAreWeight(v.omitted);
    assert (set o | o in u.omitted) == (set o | o in v.omitted);
    assert u.omitted == [] <==> v.omitted == [] by {
      assert u.omitted != [] ==> u.omitted[0] in v.omitted;
      assert v.omitted != [] ==> v.omitted[0] in u.omitted;
    }
  }

  lemma {:induction false} AlikeSum(a: seq<Stored>, b: seq<Stored>)
    requires |a| == |b| && forall i :: 0 <= i < |a| ==> Alike(a[i], b[i])
    ensures Sum(a) == Sum(b)
  {
    hide ToolLength, Alike;
    if a != [] {
      AlikeLength(a[0], b[0]);
      AlikeSum(a[1..], b[1..]);
    }
  }

  lemma {:induction false} NewNamesAre(t: Stored, gone: set<Text>, names: seq<Omitted>)
    requires NoDup(names)
    ensures NoDup(NewNames(t, gone, names))
    ensures forall o :: o in NewNames(t, gone, names) <==> o in names && o !in t.omitted && Takes(t, gone, o)
  {
    hide Takes;
    if names != [] {
      assert names == [names[0]] + names[1..];
      assert names[0] !in names[1..];
      NewNamesAre(t, gone, names[1..]);
    }
  }

  lemma NamesOfLighter(t: Stored, gone: set<Text>)
    requires NoDup(t.omitted)
    ensures NoDup(Lighter(t, gone).omitted)
    ensures forall o :: o in Lighter(t, gone).omitted <==> o in t.omitted || Takes(t, gone, o)
  {
    assert NoDup(OMITTED);
    forall o: Omitted
      ensures o in OMITTED
    {
      NameThere(o);
    }
    NewNamesAre(t, gone, OMITTED);
    hide Takes, NewNames;
    BothNoDup(t.omitted, NewNames(t, gone, OMITTED));
  }

  lemma NameThere(o: Omitted)
    ensures o in OMITTED
  {
    match o
    case Description => assert OMITTED[0] == o;
    case InputSchema => assert OMITTED[1] == o;
    case OutputSchema => assert OMITTED[2] == o;
    case Other => assert OMITTED[3] == o;
    case Title => assert OMITTED[4] == o;
    case Annotations => assert OMITTED[5] == o;
    case Keys => assert OMITTED[6] == o;
  }

  lemma BothNoDup(a: seq<Omitted>, b: seq<Omitted>)
    requires NoDup(a) && NoDup(b) && forall o :: o in b ==> o !in a
    ensures NoDup(a + b)
  {
    var both := a + b;
    forall i, j | 0 <= i < j < |both|
      ensures both[i] != both[j]
    {
      assert i < |a| ==> both[i] in a;
      assert j >= |a| ==> both[j] in b;
    }
  }

  /** Of keys with one name, the name is new where one of them was there. */
  lemma TakesMore(t: Stored, gone: set<Text>, keys: set<Text>, step: Omitted, left: set<Text>, o: Omitted)
    requires forall k :: k in keys ==> k != NAME && NamedAs(k) == step
    requires left == KeysOf(t.raw) - gone
    ensures Takes(t, gone + keys, o) <==> Takes(t, gone, o) || (o == step && keys * left != {})
  {
    hide NamedAs, KeysOf;
    if o == step && keys * left != {} {
      var k :| k in keys * left;
      assert k in (gone + keys) * KeysOf(t.raw);
    }
    if Takes(t, gone + keys, o) {
      var k :| k in (gone + keys) * KeysOf(t.raw) && k != NAME && NamedAs(k) == o;
      assert k !in gone ==> k in keys * left;
    }
  }

  lemma OmitNamed(u: Stored, keys: set<Text>, step: Omitted)
    requires NoDup(u.omitted)
    ensures NoDup(Omit(u, keys, step).omitted)
    ensures forall o :: o in Omit(u, keys, step).omitted <==>
              o in u.omitted || (o == step && keys * KeysOf(u.raw) != {})
  {
  }

  /** A step takes its keys from a tool that has lost others. */
  lemma OmitAlike(t: Stored, gone: set<Text>, u: Stored, step: Omitted)
    requires NoDup(t.omitted) && Alike(u, Lighter(t, gone))
    ensures Alike(Omit(u, StepKeys(u, step), step), Lighter(t, gone + StepKeys(u, step)))
  {
    hide StepKeys, Takes, NewNames, NamedAs, KeysOf, NoDup;
    var keys := StepKeys(u, step);
    NamesOfLighter(t, gone);
    NamesOfLighter(t, gone + keys);
    OmitRaw(u, keys, step);
    OmitNamed(u, keys, step);
    WithoutTwice(t.raw, gone, keys);
    WithoutKeys(t.raw, gone);
    StepRemoves(u, step);
    hide Omit, Without;
    forall o
      ensures Takes(t, gone + keys, o) <==> Takes(t, gone, o) || (o == step && keys * KeysOf(u.raw) != {})
    {
      TakesMore(t, gone, keys, step, KeysOf(u.raw), o);
    }
    hide Lighter;
  }

  /* ---- all tools at once ---- */

  /** The tools are the capped ones without these keys. */
  ghost predicate AlikeAll(tools: seq<Stored>, capped: seq<Stored>, others: bool, keys: set<Text>) {
    && |tools| == |capped|
    && forall i :: 0 <= i < |tools| ==> Alike(tools[i], LighterAll(capped, others, keys)[i])
  }

  lemma FitsIff(tools: seq<Stored>, capped: seq<Stored>, others: bool, keys: set<Text>)
    requires AlikeAll(tools, capped, others, keys)
    ensures ListingLength(tools) <= TOTAL_CAP <==> FitsWithout(capped, others, keys)
  {
    hide Alike, Sum, Length, ListingJson, LighterAll;
    AlikeSum(tools, LighterAll(capped, others, keys));
    ListingLengthIs(LighterAll(capped, others, keys));
  }

  ghost predicate NamedOnce(capped: seq<Stored>) {
    forall t :: t in capped ==> NoDup(t.omitted)
  }

  lemma NothingGone(capped: seq<Stored>)
    requires NamedOnce(capped)
    ensures AlikeAll(capped, capped, false, {})
  {
    forall i | 0 <= i < |capped|
      ensures Alike(capped[i], LighterAll(capped, false, {})[i])
    {
      var t := capped[i];
      assert t in capped;
      WithoutNothing(t.raw, {});
      NamesOfLighter(t, {});
      assert Among(t, false, {}) == {};
    }
  }

  lemma OthersGone(capped: seq<Stored>)
    requires NamedOnce(capped)
    ensures AlikeAll(OmitAll(capped, Other), capped, true, {})
  {
    hide Alike, Lighter, Omit;
    NothingGone(capped);
    forall i | 0 <= i < |capped|
      ensures Alike(OmitAll(capped, Other)[i], LighterAll(capped, true, {})[i])
    {
      var t := capped[i];
      assert t in capped;
      assert Among(t, false, {}) == {};
      assert Alike(t, LighterAll(capped, false, {})[i]);
      OmitAlike(t, {}, t, Other);
      assert {} + StepKeys(t, Other) == Among(t, true, {});
    }
  }

  lemma KeyGone(tools: seq<Stored>, capped: seq<Stored>, keys: set<Text>, step: Omitted, key: Text)
    requires NamedOnce(capped) && AlikeAll(tools, capped, true, keys)
    requires forall t :: StepKeys(t, step) == {key}
    ensures AlikeAll(OmitAll(tools, step), capped, true, keys + {key})
  {
    hide Alike, Lighter, Omit, StepKeys;
    forall i | 0 <= i < |capped|
      ensures Alike(OmitAll(tools, step)[i], LighterAll(capped, true, keys + {key})[i])
    {
      var t := capped[i];
      assert t in capped;
      assert Alike(tools[i], LighterAll(capped, true, keys)[i]);
      OmitAlike(t, Among(t, true, keys), tools[i], step);
      assert Among(t, true, keys) + {key} == Among(t, true, keys + {key});
    }
  }

  /* ---- the order ---- */

  /** The listing after each step, until it fits. */
  lemma Steps(capped: seq<Stored>)
    requires NamedOnce(capped)
    ensures var fits := FitsWithout(capped, false, {});
            var fits1 := fits || FitsWithout(capped, true, {});
            var fits2 := fits1 || FitsWithout(capped, true, {OUTPUT_SCHEMA});
            var fits3 := fits2 || FitsWithout(capped, true, {OUTPUT_SCHEMA, INPUT_SCHEMA});
            var fits4 := fits3 || FitsWithout(capped, true, {OUTPUT_SCHEMA, INPUT_SCHEMA, ANNOTATIONS});
            var (tools, enough) := Stepped(capped, STEPS);
            && (enough <==> fits4)
            && (fits ==> tools == capped)
            && (!fits && fits1 ==> AlikeAll(tools, capped, true, {}))
            && (!fits1 && fits2 ==> AlikeAll(tools, capped, true, {OUTPUT_SCHEMA}))
            && (!fits2 && fits3 ==> AlikeAll(tools, capped, true, {OUTPUT_SCHEMA, INPUT_SCHEMA}))
            && (!fits3 && fits4 ==> AlikeAll(tools, capped, true, {OUTPUT_SCHEMA, INPUT_SCHEMA, ANNOTATIONS}))
            && (!fits4 ==> AlikeAll(tools, capped, true, {OUTPUT_SCHEMA, INPUT_SCHEMA, ANNOTATIONS, DESCRIPTION}))
  {
    hide AlikeAll, FitsWithout, NamedOnce, OmitAll, ListingLength;
    var t1 := OmitAll(capped, Other);
    var t2 := OmitAll(t1, OutputSchema);
    var t3 := OmitAll(t2, InputSchema);
    var t4 := OmitAll(t3, Annotations);
    var t5 := OmitAll(t4, Description);
    NothingGone(capped);
    OthersGone(capped);
    KeyGone(t1, capped, {}, OutputSchema, OUTPUT_SCHEMA);
    assert {} + {OUTPUT_SCHEMA} == {OUTPUT_SCHEMA};
    KeyGone(t2, capped, {OUTPUT_SCHEMA}, InputSchema, INPUT_SCHEMA);
    assert {OUTPUT_SCHEMA} + {INPUT_SCHEMA} == {OUTPUT_SCHEMA, INPUT_SCHEMA};
    KeyGone(t3, capped, {OUTPUT_SCHEMA, INPUT_SCHEMA}, Annotations, ANNOTATIONS);
    assert {OUTPUT_SCHEMA, INPUT_SCHEMA} + {ANNOTATIONS} == {OUTPUT_SCHEMA, INPUT_SCHEMA, ANNOTATIONS};
    KeyGone(t4, capped, {OUTPUT_SCHEMA, INPUT_SCHEMA, ANNOTATIONS}, Description, DESCRIPTION);
    assert {OUTPUT_SCHEMA, INPUT_SCHEMA, ANNOTATIONS} + {DESCRIPTION}
        == {OUTPUT_SCHEMA, INPUT_SCHEMA, ANNOTATIONS, DESCRIPTION};
    FitsIff(capped, capped, false, {});
    FitsIff(t1, capped, true, {});
    FitsIff(t2, capped, true, {OUTPUT_SCHEMA});
    FitsIff(t3, capped, true, {OUTPUT_SCHEMA, INPUT_SCHEMA});
    FitsIff(t4, capped, true, {OUTPUT_SCHEMA, INPUT_SCHEMA, ANNOTATIONS});
    SteppedFive(capped, t1, t2, t3, t4, t5);
  }

  lemma SteppedFive(
    t0: seq<Stored>, t1: seq<Stored>, t2: seq<Stored>, t3: seq<Stored>, t4: seq<Stored>, t5: seq<Stored>)
    requires t1 == OmitAll(t0, Other) && t2 == OmitAll(t1, OutputSchema) && t3 == OmitAll(t2, InputSchema)
    requires t4 == OmitAll(t3, Annotations) && t5 == OmitAll(t4, Description)
    ensures Stepped(t0, STEPS)
         == if ListingLength(t0) <= TOTAL_CAP then (t0, true)
            else if ListingLength(t1) <= TOTAL_CAP then (t1, true)
            else if ListingLength(t2) <= TOTAL_CAP then (t2, true)
            else if ListingLength(t3) <= TOTAL_CAP then (t3, true)
            else if ListingLength(t4) <= TOTAL_CAP then (t4, true)
            else (t5, false)
  {
    hide OmitAll, ListingLength;
    assert STEPS[1..] == [OutputSchema, InputSchema, Annotations, Description];
    assert STEPS[1..][1..] == [InputSchema, Annotations, Description];
    assert STEPS[1..][1..][1..] == [Annotations, Description];
    assert STEPS[1..][1..][1..][1..] == [Description];
    assert STEPS[1..][1..][1..][1..][1..] == [];
  }

  lemma LeftOf(tools: seq<Stored>, capped: seq<Stored>, others: bool, keys: set<Text>, i: nat, key: Text)
    requires AlikeAll(tools, capped, others, keys) && i < |capped|
    ensures Get(tools[i].raw, key)
         == if key in keys || (others && !Known(key)) then None else Get(capped[i].raw, key)
  {
    var t := capped[i];
    assert Alike(tools[i], LighterAll(capped, others, keys)[i]);
    GetWithout(t.raw, Among(t, others, keys), key);
    OthersKeys(t.raw);
    GetIsKey(t.raw, key);
    hide Without, Get, KeysOf, NewNames;
  }

  lemma TitlesOnly(tools: seq<Stored>, i: nat, key: Text)
    requires i < |tools|
    ensures key != TITLE ==> Get(CutTitles(tools)[i].raw, key) == Get(tools[i].raw, key)
  {
    OmitRaw(tools[i], {TITLE}, Title);
    GetWithout(tools[i].raw, {TITLE}, key);
    hide Without, Get, Omit, FirstOver;
  }

  lemma CappedNamedOnce(entries: seq<Value>)
    ensures NamedOnce(Capped(entries))
  {
    hide Accepted, CapEntry, Good;
    CappedGood(entries);
    forall t | t in Capped(entries)
      ensures NoDup(t.omitted)
    {
      var i :| 0 <= i < |Kept(entries)| && Capped(entries)[i] == t;
      StaysApart(Kept(entries)[i].fields, t);
    }
  }

  /**
   * Of the capped tools the whole listing's cap takes one kind of key at a time, each from every tool, and
   * each exactly when the listing without those before it is still over: the keys that are not known, the
   * output schemas, the input schemas, the annotations, the descriptions. Titles stay unless all of these
   * had to go, names always; and what stays keeps its value.
   */
  lemma WhatGoes(entries: seq<Value>, i: nat, key: Text)
    requires i < |Kept(entries)|
    ensures var capped, stored := Capped(entries), ToStored(entries);
            var was, now := Get(capped[i].raw, key), Get(stored[i].raw, key);
            var fits := FitsWithout(capped, false, {});
            var fits1 := fits || FitsWithout(capped, true, {});
            var fits2 := fits1 || FitsWithout(capped, true, {OUTPUT_SCHEMA});
            var fits3 := fits2 || FitsWithout(capped, true, {OUTPUT_SCHEMA, INPUT_SCHEMA});
            var fits4 := fits3 || FitsWithout(capped, true, {OUTPUT_SCHEMA, INPUT_SCHEMA, ANNOTATIONS});
            && (fits ==> stored == capped)
            && (!Known(key) ==> now == if fits then was else None)
            && (key == OUTPUT_SCHEMA ==> now == if fits1 then was else None)
            && (key == INPUT_SCHEMA ==> now == if fits2 then was else None)
            && (key == ANNOTATIONS ==> now == if fits3 then was else None)
            && (key == DESCRIPTION ==> now == if fits4 then was else None)
            && (key == TITLE && fits4 ==> now == was)
            && (key == NAME ==> now == was)
  {
    hide Get, AlikeAll, FitsWithout, Stepped, CutTitles, Capped, NamedOnce;
    var capped := Capped(entries);
    CappedNamedOnce(entries);
    Steps(capped);
    var (tools, enough) := Stepped(capped, STEPS);
    TitlesOnly(tools, i, key);
    KeysApart();
    NothingGone(capped);
    if FitsWithout(capped, false, {}) {
    } else if FitsWithout(capped, true, {}) {
      LeftOf(tools, capped, true, {}, i, key);
    } else if FitsWithout(capped, true, {OUTPUT_SCHEMA}) {
      LeftOf(tools, capped, true, {OUTPUT_SCHEMA}, i, key);
    } else if FitsWithout(capped, true, {OUTPUT_SCHEMA, INPUT_SCHEMA}) {
      LeftOf(tools, capped, true, {OUTPUT_SCHEMA, INPUT_SCHEMA}, i, key);
    } else if FitsWithout(capped, true, {OUTPUT_SCHEMA, INPUT_SCHEMA, ANNOTATIONS}) {
      LeftOf(tools, capped, true, {OUTPUT_SCHEMA, INPUT_SCHEMA, ANNOTATIONS}, i, key);
    } else {
      LeftOf(tools, capped, true, {OUTPUT_SCHEMA, INPUT_SCHEMA, ANNOTATIONS, DESCRIPTION}, i, key);
    }
  }

  lemma KeysApart()
    ensures NoDup([NAME, TITLE, DESCRIPTION, INPUT_SCHEMA, OUTPUT_SCHEMA, ANNOTATIONS])
    ensures forall key :: Known(key) <==> key in [NAME, TITLE, DESCRIPTION, INPUT_SCHEMA, OUTPUT_SCHEMA, ANNOTATIONS]
  {
    assert |NAME| == 4 && |TITLE| == 5 && |DESCRIPTION| == 11 && |INPUT_SCHEMA| == 11 && |OUTPUT_SCHEMA| == 12
           && |ANNOTATIONS| == 11;
    assert DESCRIPTION[0] != INPUT_SCHEMA[0] && DESCRIPTION[0] != ANNOTATIONS[0] && INPUT_SCHEMA[0] != ANNOTATIONS[0];
  }
}
