/** How reading, removing and replacing properties of a JSON object's fields fit together. */
module ListingFields {
  import opened Wrappers
  import opened Json
  import opened Listings

  function Drop(keys: seq<Text>, gone: set<Text>): seq<Text> {
    if keys == [] then []
    else (if keys[0] in gone then [] else [keys[0]]) + Drop(keys[1..], gone)
  }

  lemma KeySeqTail(fields: seq<Field>)
    requires fields != []
    ensures KeySeq(fields) == [fields[0].key] + KeySeq(fields[1..])
    ensures KeysOf(fields) == {fields[0].key} + KeysOf(fields[1..])
  {
  }

  lemma {:induction false} GetIsKey(fields: seq<Field>, key: Text)
    ensures Get(fields, key).Some? <==> key in KeysOf(fields)
    ensures key in KeysOf(fields) <==> key in KeySeq(fields)
  {
    if fields != [] {
      KeySeqTail(fields);
      GetIsKey(fields[1..], key);
    }
  }

  lemma {:induction false} GetWithout(fields: seq<Field>, gone: set<Text>, key: Text)
    ensures Get(Without(fields, gone), key) == if key in gone then None else Get(fields, key)
  {
    if fields != [] {
      GetWithout(fields[1..], gone, key);
      var rest := Without(fields[1..], gone);
      if fields[0].key in gone {
        assert Without(fields, gone) == rest;
      } else {
        assert Without(fields, gone)[1..] == rest;
      }
    }
  }

  lemma {:induction false} KeysWithout(fields: seq<Field>, gone: set<Text>)
    ensures KeySeq(Without(fields, gone)) == Drop(KeySeq(fields), gone)
  {
    if fields != [] {
      KeysWithout(fields[1..], gone);
      KeySeqTail(fields);
      var rest := Without(fields[1..], gone);
      if fields[0].key !in gone {
        assert Without(fields, gone)[1..] == rest;
        KeySeqTail(Without(fields, gone));
      } else {
        assert Without(fields, gone) == rest;
      }
      assert KeySeq(fields)[1..] == KeySeq(fields[1..]);
    }
  }

  lemma {:induction false} DropTwice(keys: seq<Text>, a: set<Text>, b: set<Text>)
    ensures Drop(Drop(keys, a), b) == Drop(keys, a + b)
  {
    if keys != [] {
      DropTwice(keys[1..], a, b);
      if keys[0] !in a {
        assert Drop(keys, a)[1..] == Drop(keys[1..], a);
      } else {
        assert Drop(keys, a) == Drop(keys[1..], a);
      }
    }
  }

  lemma {:induction false} WithoutTwice(fields: seq<Field>, a: set<Text>, b: set<Text>)
    ensures Without(Without(fields, a), b) == Without(fields, a + b)
  {
    if fields != [] {
      WithoutTwice(fields[1..], a, b);
      var rest := Without(fields[1..], a);
      if fields[0].key in a {
        assert Without(fields, a) == rest;
      } else {
        assert Without(fields, a)[1..] == rest;
      }
    }
  }

  /** Only what is there is dropped. */
  lemma {:induction false} DropPresent(keys: seq<Text>, gone: set<Text>, present: set<Text>)
    requires forall k :: k in keys ==> k in present
    ensures Drop(keys, gone) == Drop(keys, gone * present)
  {
    if keys != [] {
      assert keys[0] in keys;
      assert forall k :: k in keys[1..] ==> k in keys;
      DropPresent(keys[1..], gone, present);
    }
  }

  lemma {:induction false} DropMembers(keys: seq<Text>, gone: set<Text>)
    ensures forall k :: k in Drop(keys, gone) <==> k in keys && k !in gone
    ensures NoDup(keys) ==> NoDup(Drop(keys, gone))
  {
    if keys != [] {
      DropMembers(keys[1..], gone);
      assert keys == [keys[0]] + keys[1..];
      var rest := Drop(keys[1..], gone);
      if NoDup(keys) {
        assert NoDup(keys[1..]) && keys[0] !in keys[1..];
        assert keys[0] !in rest;
      }
      if keys[0] in gone {
        assert Drop(keys, gone) == rest;
      } else {
        assert Drop(keys, gone) == [keys[0]] + rest;
      }
    }
  }

  lemma {:induction false} GetWith(fields: seq<Field>, key: Text, value: Value, other: Text)
    ensures Get(With(fields, key, value), other)
      == if other == key && Get(fields, key).Some? then Some(value) else Get(fields, other)
    ensures KeySeq(With(fields, key, value)) == KeySeq(fields)
  {
    if fields != [] {
      GetWith(fields[1..], key, value, other);
      KeySeqTail(fields);
      KeySeqTail(With(fields, key, value));
      assert With(fields, key, value)[1..] == With(fields[1..], key, value);
    }
  }

  lemma {:induction false} OthersWithout(fields: seq<Field>, gone: set<Text>)
    ensures (forall k :: k in gone ==> Known(k)) ==> Others(Without(fields, gone)) == Others(fields)
    ensures KeysOf(Others(fields)) <= gone ==> Others(Without(fields, gone)) == []
  {
    if fields != [] {
      var rest := Without(fields[1..], gone);
      OthersWithout(fields[1..], gone);
      if !Known(fields[0].key) {
        assert Others(fields)[1..] == Others(fields[1..]);
        KeySeqTail(Others(fields));
      } else {
        assert Others(fields) == Others(fields[1..]);
      }
      if fields[0].key in gone {
        assert Without(fields, gone) == rest;
      } else {
        assert Without(fields, gone)[1..] == rest;
      }
    }
  }

  lemma {:induction false} OthersKeys(fields: seq<Field>)
    ensures forall k :: k in KeysOf(Others(fields)) <==> k in KeysOf(fields) && !Known(k)
  {
    if fields != [] {
      OthersKeys(fields[1..]);
      KeySeqTail(fields);
      if !Known(fields[0].key) {
        assert Others(fields)[1..] == Others(fields[1..]);
        KeySeqTail(Others(fields));
      } else {
        assert Others(fields) == Others(fields[1..]);
      }
    }
  }

  lemma {:induction false} OthersWith(fields: seq<Field>, key: Text, value: Value)
    requires Known(key)
    ensures Others(With(fields, key, value)) == Others(fields)
  {
    if fields != [] {
      OthersWith(fields[1..], key, value);
      assert With(fields, key, value)[1..] == With(fields[1..], key, value);
    }
  }
}
