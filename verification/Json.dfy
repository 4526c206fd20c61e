/** JSON values as JavaScript holds them, and the text JSON.stringify gives (RFC 8259 section 7). */
module Json {
  import opened Wrappers

  /** A UTF-16 code unit. */
  type Unit = u: int | 0 <= u < 0x1_0000

  type Text = seq<Unit>

  /** A number is kept as the text it is written as; `fields` are in insertion order. */
  datatype Value =
    | Null
    | Bool(bool)
    | Num(digits: Text)
    | Str(text: Text)
    | Arr(items: seq<Value>)
    | Obj(fields: seq<Field>)

  datatype Field = Field(key: Text, value: Value)

  /** The value of `key`, as a property read gives it. */
  function Get(fields: seq<Field>, key: Text): Option<Value> {
    if fields == [] then None
    else if fields[0].key == key then Some(fields[0].value)
    else Get(fields[1..], key)
  }

  function Ascii(s: string): (t: Text)
    ensures |t| == |s|
  {
    seq(|s|, i requires 0 <= i < |s| => if s[i] < 128 as char then s[i] as int else 0)
  }

  /* ---- surrogates ---- */

  predicate High(u: Unit) {
    0xD800 <= u < 0xDC00
  }

  predicate Low(u: Unit) {
    0xDC00 <= u < 0xE000
  }

  predicate PairFirst(s: Text) {
    |s| >= 2 && High(s[0]) && Low(s[1])
  }

  predicate WellFormed(s: Text) {
    if s == [] then true
    else if PairFirst(s) then WellFormed(s[2..])
    else !High(s[0]) && !Low(s[0]) && WellFormed(s[1..])
  }

  /** `toWellFormed`: each lone surrogate becomes U+FFFD. */
  function ToWellFormed(s: Text): (t: Text)
    ensures |t| == |s|
  {
    if s == [] then []
    else if PairFirst(s) then s[..2] + ToWellFormed(s[2..])
    else [if High(s[0]) || Low(s[0]) then 0xFFFD else s[0]] + ToWellFormed(s[1..])
  }

  /** `replaceAll('\u0000', '\uFFFD')`. */
  function ReplaceNul(s: Text): (t: Text)
    ensures |t| == |s|
  {
    seq(|s|, i requires 0 <= i < |s| => if s[i] == 0 then 0xFFFD else s[i])
  }

  /* ---- text ---- */

  const QUOTE: Unit := 0x22
  const BACKSLASH: Unit := 0x5C
  const COMMA: Text := [0x2C]
  const COLON: Text := [0x3A]

  function Hex(digit: int): Unit
    requires 0 <= digit < 16
  {
    if digit < 10 then 0x30 + digit else 0x61 + digit - 10
  }

  /** A character that has a two-character escape. */
  function Short(u: Unit): Text {
    if u == QUOTE || u == BACKSLASH then [BACKSLASH, u]
    else if u == 0x08 then [BACKSLASH, 0x62]
    else if u == 0x09 then [BACKSLASH, 0x74]
    else if u == 0x0A then [BACKSLASH, 0x6E]
    else if u == 0x0C then [BACKSLASH, 0x66]
    else if u == 0x0D then [BACKSLASH, 0x72]
    else []
  }

  function EscapedUnit(u: Unit): (t: Text)
    ensures 1 <= |t| <= 6
  {
    if Short(u) != [] then Short(u)
    else if u < 0x20 || High(u) || Low(u) then
      [BACKSLASH, 0x75, Hex(u / 0x1000), Hex(u / 0x100 % 0x10), Hex(u / 0x10 % 0x10), Hex(u % 0x10)]
    else [u]
  }

  /** A string's text between its quotes: a pair as it is, a lone surrogate escaped. */
  function Escaped(s: Text): (t: Text)
    ensures |t| <= 6 * |s|
  {
    if s == [] then []
    else if PairFirst(s) then s[..2] + Escaped(s[2..])
    else EscapedUnit(s[0]) + Escaped(s[1..])
  }

  function Quoted(s: Text): (t: Text)
    ensures 2 <= |t| <= 6 * |s| + 2
  {
    [QUOTE] + Escaped(s) + [QUOTE]
  }

  function Stringify(v: Value): Text
    decreases v, 1
  {
    match v
    case Null => Ascii("null")
    case Bool(b) => if b then Ascii("true") else Ascii("false")
    case Num(digits) => digits
    case Str(text) => Quoted(text)
    case Arr(items) => [0x5B] + Items(items) + [0x5D]
    case Obj(fields) => [0x7B] + Fields(fields) + [0x7D]
  }

  function Items(items: seq<Value>): Text
    decreases items, 0
  {
    if items == [] then []
    else Stringify(items[0]) + (if |items| == 1 then [] else COMMA) + Items(items[1..])
  }

  function Fields(fields: seq<Field>): Text
    decreases fields, 0
  {
    if fields == [] then []
    else
      Quoted(fields[0].key) + COLON + Stringify(fields[0].value)
      + (if |fields| == 1 then [] else COMMA) + Fields(fields[1..])
  }

  function Length(v: Value): nat {
    |Stringify(v)|
  }

  /* ---- properties ---- */

  lemma {:induction false} WellFormedIs(s: Text)
    ensures WellFormed(ToWellFormed(s))
    ensures WellFormed(s) ==> ToWellFormed(s) == s
  {
    if s != [] {
      var t := ToWellFormed(s);
      if PairFirst(s) {
        WellFormedIs(s[2..]);
        assert t[..2] == s[..2] && t[2..] == ToWellFormed(s[2..]);
        assert t[0] == t[..2][0] && t[1] == t[..2][1];
      } else {
        WellFormedIs(s[1..]);
        assert t[1..] == ToWellFormed(s[1..]);
        if WellFormed(s) {
          assert s == [s[0]] + s[1..];
        }
      }
    }
  }

  /** The unit at `i` is half of a pair whose other half is not beside it. */
  predicate Lone(s: Text, i: nat)
    requires i < |s|
  {
    || (High(s[i]) && !(i + 1 < |s| && Low(s[i + 1])))
    || (Low(s[i]) && !(i > 0 && High(s[i - 1])))
  }

  /** Each unit by itself: a lone surrogate replaced, any other unit kept. */
  lemma {:induction false} ToWellFormedAt(s: Text, i: nat)
    requires i < |s|
    ensures ToWellFormed(s)[i] == if Lone(s, i) then 0xFFFD else s[i]
  {
    var n := if PairFirst(s) then 2 else 1;
    if i >= n {
      ToWellFormedAt(s[n..], i - n);
    }
  }

  lemma {:induction false} ReplaceNulKeepsForm(s: Text)
    requires WellFormed(s)
    ensures WellFormed(ReplaceNul(s))
  {
    if s != [] {
      var t := ReplaceNul(s);
      if PairFirst(s) {
        ReplaceNulKeepsForm(s[2..]);
        assert t[2..] == ReplaceNul(s[2..]);
      } else {
        ReplaceNulKeepsForm(s[1..]);
        assert t[1..] == ReplaceNul(s[1..]);
      }
    }
  }

  /** Where nothing was replaced, nothing was changed. */
  lemma {:induction false} ToWellFormedUnchanged(s: Text)
    requires 0xFFFD !in ToWellFormed(s)
    ensures ToWellFormed(s) == s
  {
    if s != [] {
      var t := ToWellFormed(s);
      if PairFirst(s) {
        assert t[2..] == ToWellFormed(s[2..]);
        forall u | u in ToWellFormed(s[2..]) ensures u in t { assert u in t[2..]; }
        ToWellFormedUnchanged(s[2..]);
        assert s == s[..2] + s[2..];
      } else {
        assert t[0] in t;
        assert t[1..] == ToWellFormed(s[1..]);
        forall u | u in ToWellFormed(s[1..]) ensures u in t { assert u in t[1..]; }
        ToWellFormedUnchanged(s[1..]);
        assert s == [s[0]] + s[1..];
      }
    }
  }

  lemma {:induction false} ToWellFormedKeepsNonZero(s: Text)
    requires 0 !in s
    ensures 0 !in ToWellFormed(s)
  {
    if s != [] {
      var n := if PairFirst(s) then 2 else 1;
      assert forall u :: u in s[n..] ==> u in s;
      assert s[0] in s;
      if n == 2 { assert s[1] in s; }
      ToWellFormedKeepsNonZero(s[n..]);
    }
  }

  lemma PlainUnit(u: Unit)
    requires 0x20 <= u < 0x80 && u != QUOTE && u != BACKSLASH
    ensures EscapedUnit(u) == [u]
  {
  }

  /** A plain text, as the known keys are, is written as it is. */
  lemma {:induction false} EscapedPlain(s: Text)
    requires forall u :: u in s ==> 0x20 <= u < 0x80 && u != QUOTE && u != BACKSLASH
    ensures Escaped(s) == s
  {
    if s != [] {
      assert s[0] in s;
      assert forall u :: u in s[1..] ==> u in s;
      EscapedPlain(s[1..]);
      assert Escaped(s) == [s[0]] + s[1..] by {
        PlainUnit(s[0]);
        hide EscapedUnit;
      }
      assert s == [s[0]] + s[1..];
    }
  }

  /** What a unit costs: two for the seven with a short escape, six for other controls and lone surrogates. */
  lemma UnitLength(u: Unit)
    ensures |EscapedUnit(u)| ==
            if u in {0x08, 0x09, 0x0A, 0x0C, 0x0D, 0x22, 0x5C} then 2
            else if u < 0x20 || 0xD800 <= u < 0xE000 then 6
            else 1
  {
  }

  lemma HexIs(digit: int)
    requires 0 <= digit < 16
    ensures Hex(digit) == Ascii("0123456789abcdef")[digit]
  {
  }

  /** The punctuation of a text, between and around what it holds. */
  lemma Punctuation(key: Text, x: Value, y: Value)
    ensures Stringify(Arr([x, y])) == [0x5B] + Stringify(x) + [0x2C] + Stringify(y) + [0x5D]
    ensures Stringify(Obj([Field(key, x)])) == [0x7B] + Quoted(key) + [0x3A] + Stringify(x) + [0x7D]
    ensures Quoted(key) == [0x22] + Escaped(key) + [0x22]
  {
    TwoItems(x, y);
    OneField(Field(key, x));
    hide Items, Fields, Escaped;
  }

  lemma TwoItems(x: Value, y: Value)
    ensures Items([x, y]) == Stringify(x) + [0x2C] + Stringify(y)
  {
    hide Stringify;
    assert [x, y][1..] == [y] && [y][1..] == [];
    assert Items([y]) == Stringify(y) + [] + Items([]);
  }

  lemma ObjText(fields: seq<Field>)
    ensures Stringify(Obj(fields)) == [0x7B] + Fields(fields) + [0x7D]
  {
  }

  lemma OneField(f: Field)
    ensures Fields([f]) == Quoted(f.key) + COLON + Stringify(f.value)
  {
  }
}
