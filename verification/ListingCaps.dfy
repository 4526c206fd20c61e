/** The caps of one tool and of the whole listing, step by step (agent/src/access/listings.ts). */
module ListingCaps {
  import opened Wrappers
  import opened Json
  import opened Listings
  import opened ListingFields
  import opened ListingClean
  import opened ListingLosses

  /* ---- one tool ---- */

  ghost predicate TextWithin(raw: seq<Field>, key: Text, max: nat) {
    match Get(raw, key)
    case None => true
    case Some(Str(text)) => |text| <= max
    case Some(value) => Length(value) <= max
  }

  ghost predicate ValueWithin(raw: seq<Field>, key: Text, max: nat) {
    Get(raw, key).Some? ==> Length(Get(raw, key).value) <= max
  }

  ghost predicate OthersWithin(raw: seq<Field>) {
    Others(raw) == [] || Length(Obj(Others(raw))) <= 16_384
  }

  /** Nothing of the entry is over its cap. */
  ghost predicate Within(raw: seq<Field>) {
    && TextWithin(raw, DESCRIPTION, 8_192) && TextWithin(raw, TITLE, 1_024)
    && ValueWithin(raw, INPUT_SCHEMA, 65_536) && ValueWithin(raw, OUTPUT_SCHEMA, 65_536)
    && OthersWithin(raw) && ValueWithin(raw, ANNOTATIONS, 16_384)
  }

  /** Of the known properties only `key` may differ, and the others do not. */
  ghost predicate OnlyChanges(raw: seq<Field>, raw2: seq<Field>, key: Text) {
    (forall k :: k != key ==> Get(raw2, k) == Get(raw, k)) && Others(raw2) == Others(raw)
  }

  lemma {:induction false} DropNothing(keys: seq<Text>)
    ensures Drop(keys, {}) == keys
  {
    if keys != [] {
      DropNothing(keys[1..]);
      assert keys == [keys[0]] + keys[1..];
    }
  }

  lemma CleanSound(entry: seq<Field>)
    ensures var c := CleanFields(entry, {}); Sound(entry, Stored(c.fields, if c.lost then [Keys] else []))
  {
    var c := CleanFields(entry, {});
    DropNothing(KeySeq(c.fields));
    FieldsLostIff(entry, {});
    CleanFieldsTwice(entry, {}, {});
    assert KeysOf(c.fields) - KeysOf(c.fields) == {};
  }

  lemma OmitKey(t: Stored, key: Text, name: Omitted)
    requires Known(key)
    ensures OnlyChanges(t.raw, Omit(t, {key}, name).raw, key)
    ensures Get(Omit(t, {key}, name).raw, key) == None
  {
    OmitRaw(t, {key}, name);
    OthersWithout(t.raw, {key});
    GetWithout(t.raw, {key}, key);
    forall k | k != key
      ensures Get(Without(t.raw, {key}), k) == Get(t.raw, k)
    {
      GetWithout(t.raw, {key}, k);
    }
  }

  lemma CapTextSound(entry: seq<Field>, t: Stored, key: Text, name: Omitted)
    requires Sound(entry, t) && TextKey(key) && NamedAs(key) == name
    requires Get(t.raw, key) == Get(CleanFields(entry, {}).fields, key)
    ensures var t2 := CapText(t, key, name, TextCap(key));
            Sound(entry, t2) && TextWithin(t2.raw, key, TextCap(key)) && OnlyChanges(t.raw, t2.raw, key)
  {
    hide Sound, Get, With, Without, Others;
    match Get(t.raw, key) {
      case None =>
      case Some(Str(text)) =>
        if |text| > TextCap(key) {
          CutSound(entry, t, key, name);
          var cut := Str(Cut(text, TextCap(key)));
          WithKeys(t.raw, key, cut);
          OthersWith(t.raw, key, cut);
          CutShorter(text, TextCap(key));
        }
      case Some(value) =>
        if Length(value) > TextCap(key) {
          OmitSound(entry, t, {key}, name);
          OmitKey(t, key, name);
        }
    }
  }

  lemma CapValueSound(entry: seq<Field>, t: Stored, key: Text, name: Omitted, max: nat)
    requires Sound(entry, t) && Known(key) && key != NAME && NamedAs(key) == name
    ensures var t2 := CapValue(t, key, name, max);
            Sound(entry, t2) && ValueWithin(t2.raw, key, max) && OnlyChanges(t.raw, t2.raw, key)
  {
    hide Sound;
    OmitSound(entry, t, {key}, name);
    OmitKey(t, key, name);
  }

  lemma CapOthersSound(entry: seq<Field>, t: Stored)
    requires Sound(entry, t)
    ensures var t2 := CapOthers(t);
            && Sound(entry, t2) && OthersWithin(t2.raw)
            && forall k :: Known(k) ==> Get(t2.raw, k) == Get(t.raw, k)
  {
    hide Sound;
    var keys := KeysOf(Others(t.raw));
    StepRemoves(t, Other);
    OmitSound(entry, t, keys, Other);
    OmitRaw(t, keys, Other);
    OthersWithout(t.raw, keys);
    OthersKeys(t.raw);
    forall k | Known(k)
      ensures Get(Without(t.raw, keys), k) == Get(t.raw, k)
    {
      GetWithout(t.raw, keys, k);
    }
  }

  /** A capped entry accounts for what it lost and holds nothing over a cap. */
  lemma CapEntrySound(entry: seq<Field>)
    ensures Sound(entry, CapEntry(entry)) && Within(CapEntry(entry).raw)
  {
    hide Sound, Get, Others, CapText, CapValue, CapOthers;
    var c := CleanFields(entry, {});
    CleanSound(entry);
    var t0 := Stored(c.fields, if c.lost then [Keys] else []);
    CapTextSound(entry, t0, DESCRIPTION, Description);
    var t1 := CapText(t0, DESCRIPTION, Description, DESCRIPTION_CAP);
    CapTextSound(entry, t1, TITLE, Title);
    var t2 := CapText(t1, TITLE, Title, TITLE_CAP);
    CapValueSound(entry, t2, INPUT_SCHEMA, InputSchema, SCHEMA_CAP);
    var t3 := CapValue(t2, INPUT_SCHEMA, InputSchema, SCHEMA_CAP);
    CapValueSound(entry, t3, OUTPUT_SCHEMA, OutputSchema, SCHEMA_CAP);
    var t4 := CapValue(t3, OUTPUT_SCHEMA, OutputSchema, SCHEMA_CAP);
    CapOthersSound(entry, t4);
    CapValueSound(entry, CapOthers(t4), ANNOTATIONS, Annotations, OTHER_CAP);
  }

  /** What a text property keeps: a string cut at `max`, any other value whole or not at all. */
  ghost predicate TextLeft(before: Option<Value>, after: Option<Value>, max: nat) {
    match before
    case Some(Str(text)) => after == Some(Str(if |text| <= max then text else Cut(text, max)))
    case _ => after == ValueLeft(before, max)
  }

  /** What any other property keeps: its value where the JSON is within `max`, nothing where it is not. */
  ghost function ValueLeft(before: Option<Value>, max: nat): Option<Value> {
    if before.Some? && Length(before.value) <= max then before else None
  }

  /** The capped entry property by property: nothing goes that its own cap does not take. */
  ghost predicate CappedFrom(c: seq<Field>, raw: seq<Field>) {
    && Get(raw, NAME) == Get(c, NAME)
    && TextLeft(Get(c, TITLE), Get(raw, TITLE), 1_024)
    && TextLeft(Get(c, DESCRIPTION), Get(raw, DESCRIPTION), 8_192)
    && Get(raw, INPUT_SCHEMA) == ValueLeft(Get(c, INPUT_SCHEMA), 65_536)
    && Get(raw, OUTPUT_SCHEMA) == ValueLeft(Get(c, OUTPUT_SCHEMA), 65_536)
    && Get(raw, ANNOTATIONS) == ValueLeft(Get(c, ANNOTATIONS), 16_384)
    && forall k :: !Known(k) ==> Get(raw, k) == if Length(Obj(Others(c))) <= 16_384 then Get(c, k) else None
  }

  lemma CapTextIs(t: Stored, key: Text, name: Omitted, max: nat)
    requires Known(key)
    ensures var t2 := CapText(t, key, name, max);
            TextLeft(Get(t.raw, key), Get(t2.raw, key), max) && OnlyChanges(t.raw, t2.raw, key)
  {
    hide Get, With, Without, Others;
    OmitKey(t, key, name);
    match Get(t.raw, key) {
      case Some(Str(text)) =>
        var cut := Str(Cut(text, max));
        WithKeys(t.raw, key, cut);
        OthersWith(t.raw, key, cut);
      case _ =>
    }
  }

  lemma CapValueIs(t: Stored, key: Text, name: Omitted, max: nat)
    requires Known(key)
    ensures var t2 := CapValue(t, key, name, max);
            Get(t2.raw, key) == ValueLeft(Get(t.raw, key), max) && OnlyChanges(t.raw, t2.raw, key)
  {
    OmitKey(t, key, name);
  }

  lemma CapOthersIs(t: Stored)
    ensures forall k :: Get(CapOthers(t).raw, k)
              == if Known(k) || Length(Obj(Others(t.raw))) <= 16_384 then Get(t.raw, k) else None
  {
    var keys := KeysOf(Others(t.raw));
    OmitRaw(t, keys, Other);
    OthersKeys(t.raw);
    forall k
      ensures Get(Without(t.raw, keys), k) == if Known(k) then Get(t.raw, k) else None
    {
      GetWithout(t.raw, keys, k);
      GetIsKey(t.raw, k);
    }
    assert Others(t.raw) == [] ==> keys == {};
  }

  lemma CapEntryIs(entry: seq<Field>)
    ensures CappedFrom(CleanFields(entry, {}).fields, CapEntry(entry).raw)
  {
    hide Get, Others, CapText, CapValue, CapOthers, TextLeft, ValueLeft;
    var c := CleanFields(entry, {});
    var t0 := Stored(c.fields, if c.lost then [Keys] else []);
    CapTextIs(t0, DESCRIPTION, Description, 8_192);
    var t1 := CapText(t0, DESCRIPTION, Description, DESCRIPTION_CAP);
    CapTextIs(t1, TITLE, Title, 1_024);
    var t2 := CapText(t1, TITLE, Title, TITLE_CAP);
    CapValueIs(t2, INPUT_SCHEMA, InputSchema, 65_536);
    var t3 := CapValue(t2, INPUT_SCHEMA, InputSchema, SCHEMA_CAP);
    CapValueIs(t3, OUTPUT_SCHEMA, OutputSchema, 65_536);
    var t4 := CapValue(t3, OUTPUT_SCHEMA, OutputSchema, SCHEMA_CAP);
    CapOthersIs(t4);
    CapValueIs(CapOthers(t4), ANNOTATIONS, Annotations, 16_384);
  }

  /** An entry that can be given an access by name: an object whose name is a text of at most 128 units. */
  lemma AcceptedIff(entry: Value)
    ensures Accepted(entry) <==>
            entry.Obj? && exists name: Text :: |name| <= 128 && Get(entry.fields, NAME) == Some(Str(name))
  {
  }

  /** Such entries in their order, the first 512 where there are more. */
  lemma {:induction false} KeptAre(entries: seq<Value>, entry: Value)
    ensures AcceptedEntries(entries + [entry]) == AcceptedEntries(entries) + if Accepted(entry) then [entry] else []
    ensures Kept(entries + [entry])
         == if |Kept(entries)| == 512 || !Accepted(entry) then Kept(entries) else Kept(entries) + [entry]
    ensures Kept([]) == []
  {
    hide Accepted;
    if entries == [] {
      assert [] + [entry] == [entry];
      assert AcceptedEntries([entry][1..]) == [];
    } else {
      assert (entries + [entry])[1..] == entries[1..] + [entry];
      KeptAre(entries[1..], entry);
    }
  }

  /** A cut text is the prefix, but that a pair cut in two leaves U+FFFD for its first half. */
  lemma {:induction false} CutIs(text: Text, max: nat)
    requires WellFormed(text) && 0 < max < |text|
    ensures Cut(text, max) == text[..max - 1] + [if High(text[max - 1]) then 0xFFFD else text[max - 1]]
  {
    var cut := text[..max];
    WellFormedPairs(text);
    forall i | 0 <= i < max
      ensures Cut(text, max)[i] == if i == max - 1 && High(text[i]) then 0xFFFD else text[i]
    {
      ToWellFormedAt(cut, i);
      assert !Lone(text, i);
    }
  }

  /** No unit of a well-formed text is alone. */
  lemma WellFormedPairs(text: Text)
    requires WellFormed(text)
    ensures forall i :: 0 <= i < |text| ==> !Lone(text, i)
  {
    WellFormedIs(text);
    forall i | 0 <= i < |text|
      ensures !Lone(text, i)
    {
      ToWellFormedAt(text, i);
    }
  }

  /* ---- the steps of the listing ---- */

  /** A removal takes nothing over its cap. */
  lemma OmitWithin(t: Stored, keys: set<Text>, name: Omitted)
    requires Within(t.raw) && Removes(t, keys, name)
    ensures Within(Omit(t, keys, name).raw)
  {
    OmitRaw(t, keys, name);
    OthersWithout(t.raw, keys);
    forall k
      ensures Get(Without(t.raw, keys), k) == if k in keys then None else Get(t.raw, k)
    {
      GetWithout(t.raw, keys, k);
    }
  }

  /** What holds of every tool from the first cap to the last. */
  ghost predicate Good(entry: seq<Field>, t: Stored) {
    Sound(entry, t) && Within(t.raw)
  }

  ghost predicate AllGood(kept: seq<Value>, tools: seq<Stored>) {
    && |tools| == |kept|
    && forall i :: 0 <= i < |kept| ==> kept[i].Obj? && Good(kept[i].fields, tools[i])
  }

  lemma OmitGood(entry: seq<Field>, t: Stored, keys: set<Text>, name: Omitted)
    requires Good(entry, t) && Removes(t, keys, name)
    ensures Good(entry, Omit(t, keys, name))
  {
    OmitSound(entry, t, keys, name);
    OmitWithin(t, keys, name);
  }

  lemma {:induction false} SteppedGood(kept: seq<Value>, tools: seq<Stored>, steps: seq<Omitted>)
    requires AllGood(kept, tools)
    ensures AllGood(kept, Stepped(tools, steps).0)
    decreases |steps|
  {
    hide Good, Removes, Omit, StepKeys;
    if steps != [] && ListingLength(tools) > TOTAL_CAP {
      forall i | 0 <= i < |kept|
        ensures Good(kept[i].fields, OmitAll(tools, steps[0])[i])
      {
        StepRemoves(tools[i], steps[0]);
        OmitGood(kept[i].fields, tools[i], StepKeys(tools[i], steps[0]), steps[0]);
      }
      SteppedGood(kept, OmitAll(tools, steps[0]), steps[1..]);
    }
  }

  lemma CappedGood(entries: seq<Value>)
    ensures AllGood(Kept(entries), Capped(entries))
  {
    hide Good, CapEntry;
    forall i | 0 <= i < |Kept(entries)|
      ensures Kept(entries)[i].Obj? && Good(Kept(entries)[i].fields, Capped(entries)[i])
    {
      assert Kept(entries)[i] in Kept(entries);
      CapEntryGood(Kept(entries)[i].fields);
    }
  }

  lemma CapEntryGood(entry: seq<Field>)
    ensures Good(entry, CapEntry(entry))
  {
    CapEntrySound(entry);
  }

  lemma CutTitlesGood(kept: seq<Value>, tools: seq<Stored>)
    requires AllGood(kept, tools)
    ensures AllGood(kept, CutTitles(tools))
  {
    hide Good, Omit;
    forall i | 0 <= i < |kept|
      ensures Good(kept[i].fields, CutTitles(tools)[i])
    {
      OmitGood(kept[i].fields, tools[i], {TITLE}, Title);
    }
  }

  lemma ToStoredGood(entries: seq<Value>)
    ensures AllGood(Kept(entries), ToStored(entries))
  {
    hide AllGood;
    CappedGood(entries);
    SteppedGood(Kept(entries), Capped(entries), STEPS);
    CutTitlesGood(Kept(entries), Stepped(Capped(entries), STEPS).0);
  }
}
