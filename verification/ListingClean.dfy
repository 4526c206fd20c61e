/** What `clean` of agent/src/access/listings.ts keeps, loses and leaves alone. */
module ListingClean {
  import opened Wrappers
  import opened Json
  import opened Listings
  import opened ListingFields

  /* ---- storable ---- */

  lemma StorableTwice(s: Text)
    ensures Storable(Storable(s)) == Storable(s)
    ensures 0 !in Storable(s)
  {
    WellFormedIs(s);
    ReplaceNulKeepsForm(ToWellFormed(s));
    WellFormedIs(Storable(s));
  }

  /** Nothing replaced, nothing changed: a key never becomes one without U+FFFD. */
  lemma StorableUnchanged(s: Text)
    requires 0xFFFD !in Storable(s)
    ensures Storable(s) == s
  {
    var w := ToWellFormed(s);
    forall i | 0 <= i < |w|
      ensures w[i] == Storable(s)[i]
    {
      assert Storable(s)[i] in Storable(s);
    }
    assert w == Storable(s);
    ToWellFormedUnchanged(s);
  }

  lemma {:induction false} StorablePlain(s: Text)
    requires forall u :: u in s ==> 0 < u < 0x80
    ensures Storable(s) == s
  {
    if s != [] {
      assert s[0] in s;
      assert forall u :: u in s[1..] ==> u in s;
      StorablePlain(s[1..]);
      if |s| >= 2 { assert s[1] in s; }
      assert ToWellFormed(s) == [s[0]] + ToWellFormed(s[1..]);
      assert Storable(s)[1..] == Storable(s[1..]);
      assert s == [s[0]] + s[1..];
    }
  }

  lemma CutStorable(text: Text, max: nat)
    requires Storable(text) == text
    ensures Storable(Cut(text, max)) == Cut(text, max)
  {
    StorableTwice(text);
    var head := if |text| <= max then text else text[..max];
    assert forall u :: u in head ==> u in text;
    ToWellFormedKeepsNonZero(head);
    WellFormedIs(head);
    WellFormedIs(Cut(text, max));
  }

  /* ---- a value already clean ---- */

  ghost predicate Fixed(v: Value) {
    Clean(v) == Cleaned(v, false)
  }

  ghost predicate FixedFields(fields: seq<Field>, seen: set<Text>) {
    CleanFields(fields, seen) == CleanedFields(fields, false)
  }

  lemma {:induction false} CleanTwice(v: Value)
    ensures Fixed(Clean(v).value)
    decreases v, 1
  {
    match v
    case Str(text) => StorableTwice(text);
    case Arr(items) => CleanItemsTwice(items);
    case Obj(fields) => CleanFieldsTwice(fields, {}, {});
    case _ =>
  }

  lemma {:induction false} CleanItemsTwice(items: seq<Value>)
    ensures CleanItems(CleanItems(items).items) == CleanedItems(CleanItems(items).items, false)
    decreases items, 0
  {
    if items != [] {
      CleanTwice(items[0]);
      CleanItemsTwice(items[1..]);
      var r := CleanItems(items).items;
      assert r[1..] == CleanItems(items[1..]).items;
    }
  }

  lemma {:induction false} CleanFieldsTwice(fields: seq<Field>, seen: set<Text>, fewer: set<Text>)
    requires fewer <= seen
    ensures FixedFields(CleanFields(fields, seen).fields, fewer)
    decreases fields, 0
  {
    if fields != [] {
      var key := Storable(fields[0].key);
      StorableTwice(fields[0].key);
      if key in seen {
        CleanFieldsTwice(fields[1..], seen, fewer);
      } else {
        CleanTwice(fields[0].value);
        CleanFieldsTwice(fields[1..], seen + {key}, fewer + {key});
        var r := CleanFields(fields, seen).fields;
        assert r[1..] == CleanFields(fields[1..], seen + {key}).fields;
      }
    }
  }

  lemma FixedTail(fields: seq<Field>, seen: set<Text>)
    requires fields != [] && FixedFields(fields, seen)
    ensures fields[0].key !in seen && Storable(fields[0].key) == fields[0].key
    ensures Fixed(fields[0].value)
    ensures FixedFields(fields[1..], seen + {fields[0].key})
  {
  }

  lemma FixedCons(first: Field, rest: seq<Field>, seen: set<Text>)
    requires first.key !in seen && Storable(first.key) == first.key
    requires Fixed(first.value)
    requires FixedFields(rest, seen + {first.key})
    ensures FixedFields([first] + rest, seen)
  {
  }

  lemma {:induction false} FixedWithout(fields: seq<Field>, gone: set<Text>, seen: set<Text>, fewer: set<Text>)
    requires fewer <= seen && FixedFields(fields, seen)
    ensures FixedFields(Without(fields, gone), fewer)
  {
    if fields != [] {
      FixedTail(fields, seen);
      var first := fields[0];
      if first.key in gone {
        FixedWithout(fields[1..], gone, seen + {first.key}, fewer);
        assert Without(fields, gone) == Without(fields[1..], gone);
      } else {
        FixedWithout(fields[1..], gone, seen + {first.key}, fewer + {first.key});
        FixedCons(first, Without(fields[1..], gone), fewer);
        assert Without(fields, gone) == [first] + Without(fields[1..], gone);
      }
    }
  }

  lemma {:induction false} FixedWith(fields: seq<Field>, key: Text, value: Value, seen: set<Text>)
    requires FixedFields(fields, seen) && Fixed(value)
    ensures FixedFields(With(fields, key, value), seen)
  {
    if fields != [] {
      FixedTail(fields, seen);
      FixedWith(fields[1..], key, value, seen + {fields[0].key});
      var first := if fields[0].key == key then Field(key, value) else fields[0];
      FixedCons(first, With(fields[1..], key, value), seen);
    }
  }

  lemma {:induction false} FixedNoDup(fields: seq<Field>, seen: set<Text>)
    requires FixedFields(fields, seen)
    ensures NoDup(KeySeq(fields)) && KeysOf(fields) !! seen
  {
    if fields != [] {
      FixedTail(fields, seen);
      FixedNoDup(fields[1..], seen + {fields[0].key});
      KeySeqTail(fields);
      GetIsKey(fields[1..], fields[0].key);
      assert fields[0].key !in KeySeq(fields[1..]);
    }
  }

  lemma {:induction false} FixedGet(fields: seq<Field>, seen: set<Text>, key: Text)
    requires FixedFields(fields, seen) && Get(fields, key).Some?
    ensures Fixed(Get(fields, key).value)
  {
    FixedTail(fields, seen);
    if fields[0].key != key {
      FixedGet(fields[1..], seen + {fields[0].key}, key);
    }
  }

  /* ---- what is lost ---- */

  /** The value with every string and key made storable and no key merged. */
  function StorableValue(v: Value): Value
    decreases v, 1
  {
    match v
    case Str(text) => Str(Storable(text))
    case Arr(items) => Arr(StorableItems(items))
    case Obj(fields) => Obj(StorableFields(fields))
    case _ => v
  }

  function StorableItems(items: seq<Value>): seq<Value>
    decreases items, 0
  {
    if items == [] then [] else [StorableValue(items[0])] + StorableItems(items[1..])
  }

  function StorableFields(fields: seq<Field>): (r: seq<Field>)
    ensures |r| == |fields|
    decreases fields, 0
  {
    if fields == [] then []
    else [Field(Storable(fields[0].key), StorableValue(fields[0].value))] + StorableFields(fields[1..])
  }

  /** `keys` is lost exactly when a key was merged away, at any depth. */
  lemma {:induction false} LostIff(v: Value)
    ensures Clean(v).lost <==> Clean(v).value != StorableValue(v)
    decreases v, 1
  {
    match v
    case Arr(items) => ItemsLostIff(items);
    case Obj(fields) => FieldsLostIff(fields, {});
    case _ =>
  }

  lemma {:induction false} ItemsLostIff(items: seq<Value>)
    ensures CleanItems(items).lost <==> CleanItems(items).items != StorableItems(items)
    decreases items, 0
  {
    if items != [] {
      LostIff(items[0]);
      ItemsLostIff(items[1..]);
      var r, s := CleanItems(items).items, StorableItems(items);
      assert r[0] == Clean(items[0]).value && s[0] == StorableValue(items[0]);
      assert r[1..] == CleanItems(items[1..]).items && s[1..] == StorableItems(items[1..]);
    }
  }

  lemma {:induction false} FieldsLostIff(fields: seq<Field>, seen: set<Text>)
    ensures |CleanFields(fields, seen).fields| <= |fields|
    ensures CleanFields(fields, seen).lost <==> CleanFields(fields, seen).fields != StorableFields(fields)
    decreases fields, 0
  {
    if fields != [] {
      var key := Storable(fields[0].key);
      if key in seen {
        FieldsLostIff(fields[1..], seen);
      } else {
        LostIff(fields[0].value);
        FieldsLostIff(fields[1..], seen + {key});
        var r, s := CleanFields(fields, seen).fields, StorableFields(fields);
        assert r[0] == Field(key, Clean(fields[0].value).value);
        assert s[0] == Field(key, StorableValue(fields[0].value));
        assert r[1..] == CleanFields(fields[1..], seen + {key}).fields;
        assert s[1..] == StorableFields(fields[1..]);
      }
    }
  }

  /** A plain key keeps its own value: no other key becomes it. */
  lemma {:induction false} CleanGet(fields: seq<Field>, seen: set<Text>, key: Text)
    requires Storable(key) == key && 0xFFFD !in key && key !in seen
    ensures Get(CleanFields(fields, seen).fields, key)
      == if Get(fields, key).Some? then Some(Clean(Get(fields, key).value).value) else None
  {
    if fields != [] {
      var stored := Storable(fields[0].key);
      if stored == key {
        StorableUnchanged(fields[0].key);
      } else if stored in seen {
        CleanGet(fields[1..], seen, key);
      } else {
        CleanGet(fields[1..], seen + {stored}, key);
        var r := CleanFields(fields, seen).fields;
        assert r[1..] == CleanFields(fields[1..], seen + {stored}).fields;
      }
    }
  }
}
