/** JavaScript's `trim`, `\s` and `indexOf`. */
module JsText {
  import opened Json

  /** White space as `trim` and `\s` have it. */
  predicate Space(u: Unit) {
    || 0x09 <= u <= 0x0D || u == 0x20 || u == 0xA0 || u == 0x1680 || 0x2000 <= u <= 0x200A
    || u == 0x2028 || u == 0x2029 || u == 0x202F || u == 0x205F || u == 0x3000 || u == 0xFEFF
  }

  function TrimStart(s: Text): Text {
    if s != [] && Space(s[0]) then TrimStart(s[1..]) else s
  }

  function Trim(s: Text): Text {
    TrimEnd(TrimStart(s))
  }

  function TrimEnd(s: Text): Text {
    if s != [] && Space(s[|s| - 1]) then TrimEnd(s[..|s| - 1]) else s
  }

  predicate Blank(s: Text) {
    forall u :: u in s ==> Space(u)
  }

  /** Neither begins nor ends with white space. */
  predicate Trimmed(s: Text) {
    s == [] || (!Space(s[0]) && !Space(s[|s| - 1]))
  }

  /** White space at the ends is what `trim` takes off, and no more. */
  lemma {:induction false} TrimOff(before: Text, s: Text, after: Text)
    requires Blank(before) && Trimmed(s) && Blank(after)
    ensures Trim(before + s + after) == s
    decreases |before|
  {
    hide Space;
    var whole := before + s + after;
    if before != [] {
      assert whole[0] == before[0] && before[0] in before;
      assert whole[1..] == before[1..] + s + after;
      TrimOff(before[1..], s, after);
    } else if s != [] {
      assert whole[0] == s[0];
      TrimEndOff(s, after);
      assert whole == s + after;
    } else {
      assert whole == after;
      AllBlank(after);
    }
  }

  lemma {:induction false} TrimEndOff(s: Text, after: Text)
    requires s != [] && !Space(s[|s| - 1]) && Blank(after)
    ensures TrimEnd(s + after) == s
    decreases |after|
  {
    hide Space;
    if after == [] {
      assert s + after == s;
    } else {
      var n := |after| - 1;
      assert after[n] in after;
      assert (s + after)[..|s| + n] == s + after[..n];
      TrimEndOff(s, after[..n]);
    }
  }

  lemma {:induction false} AllBlank(s: Text)
    requires Blank(s)
    ensures TrimStart(s) == []
  {
    hide Space;
    if s != [] {
      assert s[0] in s;
      AllBlank(s[1..]);
    }
  }

  /** `indexOf`. */
  function IndexOf(s: Text, u: Unit): (r: int)
    ensures -1 <= r < |s|
    ensures r >= 0 ==> s[r] == u && u !in s[..r]
    ensures r < 0 ==> u !in s
  {
    if s == [] then -1
    else if s[0] == u then 0
    else
      var rest := IndexOf(s[1..], u);
      assert s == [s[0]] + s[1..];
      if rest < 0 then -1
      else
        assert s[..rest + 1] == [s[0]] + s[1..][..rest];
        rest + 1
  }

  lemma IndexIs(s: Text, u: Unit, at: nat)
    requires at < |s| && s[at] == u && u !in s[..at]
    ensures IndexOf(s, u) == at
  {
  }

  lemma IndexNone(s: Text, u: Unit)
    requires u !in s
    ensures IndexOf(s, u) == -1
  {
  }
}
