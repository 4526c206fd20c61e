/** The context a credential is sealed in: `credentialAad` of agent/src/credentials.ts. */
module CredentialAads {
  import opened Wrappers
  import opened Json

  datatype Kind = ApiKey | OauthToken | Gateway

  function KindText(kind: Kind): Text {
    match kind
    case ApiKey => Ascii("anthropic_api_key")
    case OauthToken => Ascii("claude_oauth_token")
    case Gateway => Ascii("gateway")
  }

  const KIND_KEY: Text := Ascii("kind")
  const BASE_URL_KEY: Text := Ascii("base_url")

  function UrlValue(baseUrl: Option<Text>): Value {
    if baseUrl.Some? then Str(baseUrl.value) else Null
  }

  /** `{ kind, base_url }` as JSON. */
  function Bound(kind: Kind, baseUrl: Option<Text>): Text {
    Stringify(Obj([Field(KIND_KEY, Str(KindText(kind))), Field(BASE_URL_KEY, UrlValue(baseUrl))]))
  }

  function CredentialAad(id: Text, kind: Kind, baseUrl: Option<Text>): Text {
    Ascii("ai_credentials:") + id + COLON + Bound(kind, baseUrl)
  }

  /* ---- JSON strings are read back one way only ---- */

  function HexValue(u: Unit): int {
    if u < 0x61 then u - 0x30 else u - 0x61 + 10
  }

  lemma HexBack(digit: int)
    requires 0 <= digit < 16
    ensures HexValue(Hex(digit)) == digit
  {
  }

  lemma HexSplit(u: Unit)
    ensures u == u / 0x1000 * 0x1000 + u / 0x100 % 0x10 * 0x100 + u / 0x10 % 0x10 * 0x10 + u % 0x10
  {
    var high, low := u / 0x100, u % 0x100;
    ByteSplit(high);
    ByteSplit(low);
    assert u == 0x100 * high + low && u / 0x1000 == high / 0x10 && u % 0x10 == low % 0x10;
    assert u / 0x10 % 0x10 == low / 0x10;
  }

  lemma ByteSplit(n: int)
    requires 0 <= n < 0x100
    ensures n == n / 0x10 * 0x10 + n % 0x10 && 0 <= n / 0x10 < 0x10 && n / 0x10 % 0x10 == n / 0x10
  {
  }

  /** The unit that an escape's characters stand for. */
  function Unescaped(t: Text): int {
    if |t| == 1 then t[0]
    else if |t| == 2 then
      var c := t[1];
      if c == 0x62 then 0x08 else if c == 0x74 then 0x09 else if c == 0x6E then 0x0A
      else if c == 0x66 then 0x0C else if c == 0x72 then 0x0D else c
    else if |t| == 6 then
      HexValue(t[2]) * 0x1000 + HexValue(t[3]) * 0x100 + HexValue(t[4]) * 0x10 + HexValue(t[5])
    else 0
  }

  lemma UnescapedBack(u: Unit)
    ensures Unescaped(EscapedUnit(u)) == u
  {
    hide HexValue, Hex;
    HexBack(u / 0x1000);
    HexBack(u / 0x100 % 0x10);
    HexBack(u / 0x10 % 0x10);
    HexBack(u % 0x10);
    HexSplit(u);
  }

  /** How long an escape is, from its first two characters. */
  function EscapeLength(t: Text): nat {
    if |t| < 2 || t[0] != BACKSLASH then 1 else if t[1] == 0x75 then 6 else 2
  }

  lemma EscapeShape(u: Unit, rest: Text)
    ensures EscapeLength(EscapedUnit(u) + rest) == |EscapedUnit(u)|
    ensures !High(EscapedUnit(u)[0])
  {
  }

  lemma {:induction false} EscapedInjective(s: Text, t: Text)
    requires Escaped(s) == Escaped(t)
    ensures s == t
  {
    hide EscapedUnit, Unescaped, EscapeLength;
    if s == [] || t == [] {
    } else if PairFirst(s) || PairFirst(t) {
      EscapeShape(s[0], Escaped(s[1..]));
      EscapeShape(t[0], Escaped(t[1..]));
      assert Escaped(s)[0] == Escaped(t)[0];
      assert PairFirst(s) && PairFirst(t);
      assert Escaped(s)[..2] == s[..2] && Escaped(t)[..2] == t[..2];
      assert Escaped(s)[2..] == Escaped(s[2..]) && Escaped(t)[2..] == Escaped(t[2..]);
      EscapedInjective(s[2..], t[2..]);
      assert s == s[..2] + s[2..] && t == t[..2] + t[2..];
    } else {
      var a, b := EscapedUnit(s[0]), EscapedUnit(t[0]);
      EscapeShape(s[0], Escaped(s[1..]));
      EscapeShape(t[0], Escaped(t[1..]));
      assert |a| == |b|;
      assert a == Escaped(s)[..|a|] && b == Escaped(t)[..|a|];
      UnescapedBack(s[0]);
      UnescapedBack(t[0]);
      assert Escaped(s)[|a|..] == Escaped(s[1..]) && Escaped(t)[|a|..] == Escaped(t[1..]);
      EscapedInjective(s[1..], t[1..]);
      assert s == [s[0]] + s[1..] && t == [t[0]] + t[1..];
    }
  }

  /* ---- the context names its credential ---- */

  /** Up to the first mark, equal texts are equal part by part. */
  lemma FirstMark(a: Text, b: Text, x: Text, y: Text, mark: Unit)
    requires mark !in a && mark !in b
    requires a + [mark] + x == b + [mark] + y
    ensures a == b && x == y
  {
    var whole := a + [mark] + x;
    assert whole[|a|] == mark && whole[|b|] == mark;
    assert forall i :: 0 <= i < |a| ==> whole[i] == a[i] && a[i] in a;
    assert forall i :: 0 <= i < |b| ==> whole[i] == b[i] && b[i] in b;
    assert whole[..|a|] == a && whole[..|b|] == b;
    assert whole[|a| + 1..] == x && whole[|b| + 1..] == y;
  }

  lemma KindPlain(kind: Kind)
    ensures forall u :: u in KindText(kind) ==> 0x20 <= u < 0x80 && u != QUOTE && u != BACKSLASH
  {
  }

  lemma KindsDiffer(kind: Kind, other: Kind)
    requires KindText(kind) == KindText(other)
    ensures kind == other
  {
  }

  /** What stands between the quotes of the kind and the base URL. */
  function Between(): Text {
    COMMA + Quoted(BASE_URL_KEY) + COLON
  }

  function Before(): Text {
    [0x7B] + Quoted(KIND_KEY) + COLON + [QUOTE]
  }

  lemma BoundText(kind: Kind, baseUrl: Option<Text>)
    ensures Bound(kind, baseUrl)
      == Before() + (KindText(kind) + [QUOTE] + (Between() + Stringify(UrlValue(baseUrl)) + [0x7D]))
  {
    hide KindText, Stringify, Quoted, Escaped, UrlValue, Fields;
    KindPlain(kind);
    EscapedPlain(KindText(kind));
    QuotedIs(KindText(kind));
    var second := Field(BASE_URL_KEY, UrlValue(baseUrl));
    var fields := [Field(KIND_KEY, Str(KindText(kind))), second];
    assert fields[1..] == [second];
    OneField(second);
    TwoFields(fields);
    StringifyStr(KindText(kind));
    ObjText(fields);
  }

  lemma QuotedIs(s: Text)
    ensures Quoted(s) == [QUOTE] + Escaped(s) + [QUOTE]
  {
  }

  lemma StringifyStr(s: Text)
    ensures Stringify(Str(s)) == Quoted(s)
  {
  }

  lemma TwoFields(fields: seq<Field>)
    requires |fields| == 2
    ensures Fields(fields) == Quoted(fields[0].key) + COLON + Stringify(fields[0].value) + COMMA + Fields(fields[1..])
  {
  }

  lemma BoundInjective(kind: Kind, baseUrl: Option<Text>, kind2: Kind, baseUrl2: Option<Text>)
    requires Bound(kind, baseUrl) == Bound(kind2, baseUrl2)
    ensures kind == kind2 && baseUrl == baseUrl2
  {
    hide Bound, KindText, Stringify, UrlValue, Quoted, Before, Between;
    BoundText(kind, baseUrl);
    BoundText(kind2, baseUrl2);
    var n, m := |Before()|, |Between()|;
    var u, u2 := Stringify(UrlValue(baseUrl)), Stringify(UrlValue(baseUrl2));
    var tail, tail2 := Between() + u + [0x7D], Between() + u2 + [0x7D];
    assert Bound(kind, baseUrl)[n..] == KindText(kind) + [QUOTE] + tail;
    assert Bound(kind2, baseUrl2)[n..] == KindText(kind2) + [QUOTE] + tail2;
    KindPlain(kind);
    KindPlain(kind2);
    FirstMark(KindText(kind), KindText(kind2), tail, tail2, QUOTE);
    KindsDiffer(kind, kind2);
    assert u == tail[m..|tail| - 1] && u2 == tail2[m..|tail2| - 1];
    UrlInjective(baseUrl, baseUrl2);
  }

  lemma UrlStart(baseUrl: Option<Text>)
    ensures |Stringify(UrlValue(baseUrl))| > 0
    ensures Stringify(UrlValue(baseUrl))[0] == if baseUrl.Some? then QUOTE else 0x6E
  {
  }

  lemma UrlInjective(baseUrl: Option<Text>, other: Option<Text>)
    requires Stringify(UrlValue(baseUrl)) == Stringify(UrlValue(other))
    ensures baseUrl == other
  {
    UrlStart(baseUrl);
    UrlStart(other);
    hide Escaped;
    if baseUrl.Some? && other.Some? {
      var t, t2 := Quoted(baseUrl.value), Quoted(other.value);
      assert Escaped(baseUrl.value) == t[1..|t| - 1] && Escaped(other.value) == t2[1..|t2| - 1];
      EscapedInjective(baseUrl.value, other.value);
    }
  }

  /** No base URL can forge a field boundary: a context names one row, kind and base URL. */
  lemma AadInjective(id: Text, kind: Kind, baseUrl: Option<Text>, id2: Text, kind2: Kind, baseUrl2: Option<Text>)
    requires COLON[0] !in id && COLON[0] !in id2
    requires CredentialAad(id, kind, baseUrl) == CredentialAad(id2, kind2, baseUrl2)
    ensures id == id2 && kind == kind2 && baseUrl == baseUrl2
  {
    hide Bound, Ascii;
    var head := Ascii("ai_credentials:");
    var bound, bound2 := Bound(kind, baseUrl), Bound(kind2, baseUrl2);
    assert CredentialAad(id, kind, baseUrl)[|head|..] == id + COLON + bound;
    assert CredentialAad(id2, kind2, baseUrl2)[|head|..] == id2 + COLON + bound2;
    FirstMark(id, id2, bound, bound2, COLON[0]);
    BoundInjective(kind, baseUrl, kind2, baseUrl2);
  }
}
