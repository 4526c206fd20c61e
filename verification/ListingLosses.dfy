/** Every loss of a stored listing is accounted for (agent/src/access/listings.ts). */
module ListingLosses {
  import opened Wrappers
  import opened Json
  import opened Listings
  import opened ListingFields
  import opened ListingClean

  predicate TextKey(key: Text) {
    key == TITLE || key == DESCRIPTION
  }

  function TextCap(key: Text): nat {
    if key == TITLE then TITLE_CAP else DESCRIPTION_CAP
  }

  /** A value of the stored tool is the cleaned entry's own, or a text over its cap cut to it. */
  ghost predicate SameOrCut(c: seq<Field>, raw: seq<Field>, key: Text) {
    || Get(raw, key) == Get(c, key)
    || (&& TextKey(key) && Get(c, key).Some? && Get(c, key).value.Str?
        && |Get(c, key).value.text| > TextCap(key)
        && Get(raw, key) == Some(Str(Cut(Get(c, key).value.text, TextCap(key)))))
  }

  /** Some property named `o` was removed or cut. */
  ghost predicate Touched(c: seq<Field>, raw: seq<Field>, o: Omitted) {
    exists k :: k in KeysOf(c) && k != NAME && NamedAs(k) == o && Get(raw, k) != Get(c, k)
  }

  /**
   * What `t` stores of the entry: the keys it keeps are the entry's in their order, each value the
   * cleaned one or a text cut, the name always there; and `omitted` names, once each, exactly what
   * was removed, cut or merged.
   */
  ghost predicate Accounted(entry: seq<Field>, t: Stored) {
    var c := CleanFields(entry, {}).fields;
    && KeySeq(t.raw) == Drop(KeySeq(c), KeysOf(c) - KeysOf(t.raw))
    && (forall k :: k in KeysOf(t.raw) ==> SameOrCut(c, t.raw, k))
    && Get(t.raw, NAME) == Get(c, NAME)
    && NoDup(t.omitted)
    && forall o :: o in t.omitted <==> (o == Keys && c != StorableFields(entry)) || Touched(c, t.raw, o)
  }

  ghost predicate Sound(entry: seq<Field>, t: Stored) {
    Accounted(entry, t) && FixedFields(t.raw, {})
  }

  /** Keys that one removal takes together, none of them the name. */
  ghost predicate Removes(t: Stored, keys: set<Text>, name: Omitted) {
    && (forall k :: k in keys ==> k != NAME && NamedAs(k) == name)
    && ((forall k :: k in keys ==> Known(k)) || KeysOf(Others(t.raw)) <= keys)
  }

  lemma StepRemoves(t: Stored, step: Omitted)
    ensures Removes(t, StepKeys(t, step), step)
  {
    OthersKeys(t.raw);
  }

  lemma {:induction false} WithoutNothing(fields: seq<Field>, gone: set<Text>)
    requires forall k :: k in gone ==> k !in KeysOf(fields)
    ensures Without(fields, gone) == fields
  {
    if fields != [] {
      hide KeysOf;
      KeySeqTail(fields);
      WithoutNothing(fields[1..], gone);
      assert [fields[0]] + fields[1..] == fields;
    }
  }

  lemma OmitRaw(t: Stored, keys: set<Text>, name: Omitted)
    ensures Omit(t, keys, name).raw == Without(t.raw, keys)
  {
    if keys * KeysOf(t.raw) == {} {
      assert forall k :: k in keys && k in KeysOf(t.raw) ==> k in keys * KeysOf(t.raw);
      WithoutNothing(t.raw, keys);
    }
  }

  lemma WithoutKeys(fields: seq<Field>, gone: set<Text>)
    ensures KeysOf(Without(fields, gone)) == KeysOf(fields) - gone
  {
    forall k
      ensures k in KeysOf(Without(fields, gone)) <==> k in KeysOf(fields) - gone
    {
      GetWithout(fields, gone, k);
      GetIsKey(fields, k);
      GetIsKey(Without(fields, gone), k);
    }
  }

  lemma MemberKeys(fields: seq<Field>)
    ensures forall k :: k in KeySeq(fields) <==> k in KeysOf(fields)
  {
    forall k
      ensures k in KeySeq(fields) <==> k in KeysOf(fields)
    {
      GetIsKey(fields, k);
    }
  }

  /** A key a stored tool holds is one of the entry's. */
  lemma KeptKeys(entry: seq<Field>, t: Stored)
    requires Accounted(entry, t)
    ensures KeysOf(t.raw) <= KeysOf(CleanFields(entry, {}).fields)
  {
    var c := CleanFields(entry, {}).fields;
    DropMembers(KeySeq(c), KeysOf(c) - KeysOf(t.raw));
    MemberKeys(t.raw);
    MemberKeys(c);
  }

  lemma OmitOrder(entry: seq<Field>, t: Stored, keys: set<Text>)
    requires Accounted(entry, t)
    ensures var c, raw := CleanFields(entry, {}).fields, Without(t.raw, keys);
            KeySeq(raw) == Drop(KeySeq(c), KeysOf(c) - KeysOf(raw))
  {
    var c := CleanFields(entry, {}).fields;
    var raw := Without(t.raw, keys);
    var gone := KeysOf(c) - KeysOf(t.raw);
    KeysWithout(t.raw, keys);
    DropTwice(KeySeq(c), gone, keys);
    MemberKeys(c);
    DropPresent(KeySeq(c), gone + keys, KeysOf(c));
    WithoutKeys(t.raw, keys);
    assert (gone + keys) * KeysOf(c) == KeysOf(c) - KeysOf(raw);
  }

  /** Properties named `name` are removed or cut, and no others. */
  lemma TouchedMore(c: seq<Field>, raw: seq<Field>, raw2: seq<Field>, keys: set<Text>, there: Text, name: Omitted)
    requires forall k :: k in keys ==> k != NAME && NamedAs(k) == name
    requires forall k :: k !in keys ==> Get(raw2, k) == Get(raw, k)
    requires there in keys && there in KeysOf(c) && Get(raw2, there) != Get(c, there)
    ensures forall o :: Touched(c, raw2, o) <==> o == name || Touched(c, raw, o)
  {
  }

  lemma OmitNames(entry: seq<Field>, t: Stored, keys: set<Text>, name: Omitted)
    requires Accounted(entry, t) && Removes(t, keys, name)
    ensures var c, t2 := CleanFields(entry, {}).fields, Omit(t, keys, name);
            forall o :: o in t2.omitted <==> (o == Keys && c != StorableFields(entry)) || Touched(c, t2.raw, o)
  {
    var c, t2 := CleanFields(entry, {}).fields, Omit(t, keys, name);
    OmitRaw(t, keys, name);
    KeptKeys(entry, t);
    if keys * KeysOf(t.raw) != {} {
      forall k
        ensures Get(t2.raw, k) == if k in keys then None else Get(t.raw, k)
      {
        GetWithout(t.raw, keys, k);
      }
      var there :| there in keys * KeysOf(t.raw);
      GetIsKey(c, there);
      TouchedMore(c, t.raw, t2.raw, keys, there, name);
    }
  }

  /** A removal keeps the account. */
  lemma OmitSound(entry: seq<Field>, t: Stored, keys: set<Text>, name: Omitted)
    requires Sound(entry, t) && Removes(t, keys, name)
    ensures Sound(entry, Omit(t, keys, name))
  {
    var c, t2 := CleanFields(entry, {}).fields, Omit(t, keys, name);
    OmitRaw(t, keys, name);
    OmitOrder(entry, t, keys);
    OmitNames(entry, t, keys, name);
    FixedWithout(t.raw, keys, {}, {});
    GetWithout(t.raw, keys, NAME);
    WithoutKeys(t.raw, keys);
    forall k | k in KeysOf(t2.raw)
      ensures SameOrCut(c, t2.raw, k)
    {
      GetWithout(t.raw, keys, k);
      assert SameOrCut(c, t.raw, k);
    }
  }

  lemma WithKeys(fields: seq<Field>, key: Text, value: Value)
    requires Get(fields, key).Some?
    ensures forall k :: Get(With(fields, key, value), k) == if k == key then Some(value) else Get(fields, k)
    ensures KeysOf(With(fields, key, value)) == KeysOf(fields)
    ensures KeySeq(With(fields, key, value)) == KeySeq(fields)
  {
    GetWith(fields, key, value, key);
    forall k
      ensures Get(With(fields, key, value), k) == if k == key then Some(value) else Get(fields, k)
      ensures k in KeysOf(With(fields, key, value)) <==> k in KeysOf(fields)
    {
      GetWith(fields, key, value, k);
      GetIsKey(fields, k);
      GetIsKey(With(fields, key, value), k);
    }
  }

  lemma CutSame(c: seq<Field>, raw: seq<Field>, raw2: seq<Field>, key: Text)
    requires TextKey(key) && Get(c, key).Some? && Get(c, key).value.Str?
    requires |Get(c, key).value.text| > TextCap(key)
    requires forall k :: k in KeysOf(raw) ==> SameOrCut(c, raw, k)
    requires KeysOf(raw2) == KeysOf(raw)
    requires Get(raw2, key) == Some(Str(Cut(Get(c, key).value.text, TextCap(key))))
    requires forall k :: k != key ==> Get(raw2, k) == Get(raw, k)
    ensures forall k :: k in KeysOf(raw2) ==> SameOrCut(c, raw2, k)
  {
  }

  /** A text over its cap cut, and named. */
  lemma CutSound(entry: seq<Field>, t: Stored, key: Text, name: Omitted)
    requires Sound(entry, t) && TextKey(key) && NamedAs(key) == name
    requires Get(t.raw, key) == Get(CleanFields(entry, {}).fields, key)
    requires Get(t.raw, key).Some? && Get(t.raw, key).value.Str?
    requires |Get(t.raw, key).value.text| > TextCap(key)
    ensures Sound(entry, CapText(t, key, name, TextCap(key)))
  {
    hide Get, With, KeysOf, CleanFields, StorableFields, Drop, Cut, TextCap;
    var c := CleanFields(entry, {}).fields;
    var text := Get(t.raw, key).value.text;
    var cut := Str(Cut(text, TextCap(key)));
    var raw := With(t.raw, key, cut);
    FixedGet(t.raw, {}, key);
    CutStorable(text, TextCap(key));
    assert Fixed(cut);
    FixedWith(t.raw, key, cut, {});
    KeptKeys(entry, t);
    WithKeys(t.raw, key, cut);
    CutSame(c, t.raw, raw, key);
    GetIsKey(t.raw, key);
    assert !Touched(c, t.raw, name);
    assert name !in t.omitted;
    assert Get(raw, key) != Get(c, key) by { CutShorter(text, TextCap(key)); }
    TouchedMore(c, t.raw, raw, {key}, key, name);
    assert CapText(t, key, name, TextCap(key)) == Stored(raw, t.omitted + [name]);
  }

  lemma CutShorter(text: Text, max: nat)
    requires |text| > max
    ensures |Cut(text, max)| == max
  {
  }
}
