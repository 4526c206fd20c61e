/** JavaScript's `<` on strings, and `sort` by it. */
module TextOrder {
  import opened Json

  predicate Less(a: Text, b: Text) {
    b != [] && (a == [] || a[0] < b[0] || (a[0] == b[0] && Less(a[1..], b[1..])))
  }

  /** It is a strict order in which any two texts compare. */
  lemma {:induction false} LessTotal(a: Text, b: Text)
    ensures !Less(a, a)
    ensures a != b ==> (Less(a, b) <==> !Less(b, a))
  {
    if a != [] {
      LessTotal(a[1..], if b == [] then [] else b[1..]);
    }
    if a != [] && b != [] {
      assert a == [a[0]] + a[1..] && b == [b[0]] + b[1..];
    }
  }

  lemma {:induction false} LessTwice(a: Text, b: Text, c: Text)
    requires Less(a, b) && Less(b, c)
    ensures Less(a, c)
  {
    if a != [] && a[0] == b[0] == c[0] {
      LessTwice(a[1..], b[1..], c[1..]);
    }
  }

  predicate Ordered<T>(xs: seq<T>, name: T -> Text) {
    forall i, j :: 0 <= i < j < |xs| ==> Less(name(xs[i]), name(xs[j]))
  }

  /** Before the first that is no less. */
  function Put<T>(x: T, xs: seq<T>, name: T -> Text): seq<T> {
    if xs == [] || !Less(name(xs[0]), name(x)) then [x] + xs else [xs[0]] + Put(x, xs[1..], name)
  }

  function Sorted<T>(xs: seq<T>, name: T -> Text): seq<T> {
    if xs == [] then [] else Put(xs[0], Sorted(xs[1..], name), name)
  }

  lemma OrderedCons<T(!new)>(x: T, xs: seq<T>, name: T -> Text)
    ensures Ordered([x] + xs, name) <==> Ordered(xs, name) && forall y :: y in xs ==> Less(name(x), name(y))
  {
    hide Less;
    var r := [x] + xs;
    assert forall j :: 0 <= j < |xs| ==> r[j + 1] == xs[j];
    if Ordered(r, name) {
      forall i, j | 0 <= i < j < |xs|
        ensures Less(name(xs[i]), name(xs[j]))
      {
        assert r[i + 1] == xs[i] && r[j + 1] == xs[j];
      }
      forall y | y in xs
        ensures Less(name(x), name(y))
      {
        var j :| 0 <= j < |xs| && xs[j] == y;
        assert r[0] == x && r[j + 1] == y;
      }
    }
  }

  lemma {:induction false} PutIs<T(!new)>(x: T, xs: seq<T>, name: T -> Text)
    requires Ordered(xs, name) && forall y :: y in xs ==> name(y) != name(x)
    ensures Ordered(Put(x, xs, name), name)
    ensures forall y :: y in Put(x, xs, name) <==> y == x || y in xs
  {
    hide Less, Ordered;
    if xs == [] {
      OrderedCons(x, xs, name);
    } else {
      var first, rest := xs[0], xs[1..];
      assert xs == [first] + rest;
      OrderedCons(first, rest, name);
      LessTotal(name(x), name(first));
      if Less(name(first), name(x)) {
        PutIs(x, rest, name);
        OrderedCons(first, Put(x, rest, name), name);
      } else {
        forall y | y in xs
          ensures Less(name(x), name(y))
        {
          if y != first {
            LessTwice(name(x), name(first), name(y));
          }
        }
        OrderedCons(x, xs, name);
      }
    }
  }

  predicate Distinct<T>(xs: seq<T>, name: T -> Text) {
    forall i, j :: 0 <= i < j < |xs| ==> name(xs[i]) != name(xs[j])
  }

  lemma DistinctCons<T(!new)>(x: T, xs: seq<T>, name: T -> Text)
    requires Distinct([x] + xs, name)
    ensures Distinct(xs, name) && forall y :: y in xs ==> name(y) != name(x)
  {
    var r := [x] + xs;
    forall i, j | 0 <= i < j < |xs|
      ensures name(xs[i]) != name(xs[j])
    {
      assert r[i + 1] == xs[i] && r[j + 1] == xs[j];
    }
    forall y | y in xs
      ensures name(y) != name(x)
    {
      var j :| 0 <= j < |xs| && xs[j] == y;
      assert r[0] == x && r[j + 1] == y;
    }
  }

  /** What has no name twice is put in order, each once. */
  lemma {:induction false} SortedIs<T(!new)>(xs: seq<T>, name: T -> Text)
    requires Distinct(xs, name)
    ensures Ordered(Sorted(xs, name), name)
    ensures forall y :: y in Sorted(xs, name) <==> y in xs
  {
    hide Less, Ordered, Distinct, Put;
    if xs == [] {
      assert Ordered<T>([], name) by { NoneOrdered(name); }
    } else {
      var first, rest := xs[0], xs[1..];
      assert xs == [first] + rest;
      DistinctCons(first, rest, name);
      SortedIs(rest, name);
      PutIs(first, Sorted(rest, name), name);
    }
  }

  lemma NoneOrdered<T>(name: T -> Text)
    ensures Ordered<T>([], name)
  {
  }
}
