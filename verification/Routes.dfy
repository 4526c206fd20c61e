/** Matching logged requests to known routes: `routePattern`, `parts` and `isParam` of agent/evals/backend.ts. */
module Routes {
  import opened Wrappers
  import opened Json
  import opened JsText

  const SPACE: Unit := 0x20
  const SLASH: Unit := 0x2F
  const OPEN: Unit := 0x7B
  const CLOSE: Unit := 0x7D

  /** A segment of a pattern: a literal, or a parameter that is none of some literals. */
  datatype Segment = Exactly(text: Text) | AnyBut(literals: set<Text>)

  datatype Pattern = Pattern(verb: Text, segments: seq<Segment>)

  /** `METHOD /a/b` as its method and its path's segments. */
  datatype Parts = Parts(verb: Text, segments: seq<Text>)

  /** `split('/')`. */
  function Split(s: Text): (r: seq<Text>)
    ensures r != []
    ensures forall part :: part in r ==> SLASH !in part
    decreases |s|
  {
    var at := IndexOf(s, SLASH);
    if at < 0 then [s] else [s[..at]] + Split(s[at + 1..])
  }

  function PartsOf(route: Text): (r: Parts)
    ensures SPACE !in r.verb
  {
    var at := IndexOf(route, SPACE);
    if at >= 0 then Parts(route[..at], Split(route[at + 1..]))
    else Parts(if route == [] then [] else route[..|route| - 1], Split(route))
  }

  predicate IsParam(segment: Text) {
    && |segment| >= 3 && segment[0] == OPEN && segment[|segment| - 1] == CLOSE
    && var name := segment[1..|segment| - 1];
       SLASH !in name && CLOSE !in name
  }

  /** The routes' segments agree, or one is a parameter, before `at`. */
  predicate SameBefore(mine: seq<Text>, other: seq<Text>, at: nat)
    requires |other| == |mine| && at <= |mine|
  {
    forall i :: 0 <= i < at ==> other[i] == mine[i] || IsParam(other[i]) || IsParam(mine[i])
  }

  predicate Sibling(mine: Parts, other: Parts) {
    other.verb == mine.verb && |other.segments| == |mine.segments|
  }

  /** `other` has a literal where `mine` has its segment `at`. */
  predicate HasLiteral(mine: Parts, other: Parts, at: nat)
    requires at < |mine.segments|
  {
    Sibling(mine, other) && SameBefore(mine.segments, other.segments, at) && !IsParam(other.segments[at])
  }

  /** The known routes' parts, once for all segments. */
  function PartsAll(known: seq<Text>): (r: seq<Parts>)
    ensures |r| == |known|
  {
    seq(|known|, i requires 0 <= i < |known| => PartsOf(known[i]))
  }

  function Literals(mine: Parts, others: seq<Parts>, at: nat): set<Text>
    requires at < |mine.segments|
  {
    set other | other in others && HasLiteral(mine, other, at) :: other.segments[at]
  }

  function SegmentOf(mine: Parts, others: seq<Parts>, at: nat): Segment
    requires at < |mine.segments|
  {
    if IsParam(mine.segments[at]) then AnyBut(Literals(mine, others, at)) else Exactly(mine.segments[at])
  }

  function PatternOf(mine: Parts, others: seq<Parts>): Pattern {
    Pattern(mine.verb, seq(|mine.segments|, i requires 0 <= i < |mine.segments| => SegmentOf(mine, others, i)))
  }

  /** `routePattern`. */
  method RoutePattern(route: Text, known: seq<Text>) returns (p: Pattern)
    ensures p == PatternOf(PartsOf(route), PartsAll(known))
  {
    hide IsParam, HasLiteral, PartsOf;
    var mine, others := PartsOf(route), PartsAll(known);
    var segments := [];
    for at := 0 to |mine.segments|
      invariant |segments| == at
      invariant forall i :: 0 <= i < at ==> segments[i] == SegmentOf(mine, others, i)
    {
      if !IsParam(mine.segments[at]) {
        segments := segments + [Exactly(mine.segments[at])];
      } else {
        var literals := LiteralsAt(mine, others, at);
        segments := segments + [AnyBut(literals)];
      }
    }
    p := Pattern(mine.verb, segments);
  }

  method LiteralsAt(mine: Parts, others: seq<Parts>, at: nat) returns (literals: set<Text>)
    requires at < |mine.segments|
    ensures literals == Literals(mine, others, at)
  {
    hide IsParam, SameBefore;
    literals := {};
    for k := 0 to |others|
      invariant literals == Literals(mine, others[..k], at)
    {
      LiteralsSnoc(mine, others, at, k);
      var other := others[k];
      if Sibling(mine, other) {
        var here := other.segments[at];
        if SameBefore(mine.segments, other.segments, at) && !IsParam(here) {
          literals := literals + {here};
        }
      }
    }
    assert others[..|others|] == others;
  }

  lemma LiteralsSnoc(mine: Parts, others: seq<Parts>, at: nat, k: nat)
    requires at < |mine.segments| && k < |others|
    ensures Literals(mine, others[..k + 1], at) == Literals(mine, others[..k], at)
         + if HasLiteral(mine, others[k], at) then {others[k].segments[at]} else {}
  {
  }

  /* ---- how a route is read ---- */

  function Joined(parts: seq<Text>): Text
    requires parts != []
  {
    if |parts| == 1 then parts[0] else parts[0] + [0x2F] + Joined(parts[1..])
  }

  lemma {:induction false} SplitsJoined(parts: seq<Text>)
    requires parts != [] && forall part :: part in parts ==> 0x2F !in part
    ensures Split(Joined(parts)) == parts
  {
    var path := Joined(parts);
    assert parts[0] in parts;
    if |parts| == 1 {
      IndexNone(path, SLASH);
    } else {
      var rest := parts[1..];
      assert forall part :: part in rest ==> part in parts;
      SplitsJoined(rest);
      assert path[..|parts[0]|] == parts[0] && path[|parts[0]| + 1..] == Joined(rest);
      IndexIs(path, SLASH, |parts[0]|);
    }
  }

  /** `METHOD a/b` gives the method and the segments. */
  lemma PartsAre(verb: Text, segments: seq<Text>)
    requires segments != [] && forall segment :: segment in segments ==> 0x2F !in segment
    requires 0x20 !in verb
    ensures PartsOf(verb + ([0x20] + Joined(segments))) == Parts(verb, segments)
  {
    hide Split, Joined;
    var path := Joined(segments);
    SplitsJoined(segments);
    var whole := verb + ([0x20] + path);
    assert whole[..|verb|] == verb && whole[|verb| + 1..] == path;
    IndexIs(whole, SPACE, |verb|);
  }

  /** Without a space the last unit is no method's. */
  lemma NoSpace(route: Text)
    requires 0x20 !in route && route != []
    ensures PartsOf(route).verb + [route[|route| - 1]] == route
  {
    hide Split;
    IndexNone(route, SPACE);
  }

  /** A parameter is a name in braces. */
  lemma ParamIff(segment: Text)
    ensures IsParam(segment) <==>
            exists name :: name != [] && 0x2F !in name && 0x7D !in name && segment == [0x7B] + (name + [0x7D])
  {
    if IsParam(segment) {
      var name := segment[1..|segment| - 1];
      assert segment == [0x7B] + (name + [0x7D]);
    }
    forall name | name != [] && segment == [0x7B] + (name + [0x7D])
      ensures segment[1..|segment| - 1] == name
    {
    }
  }

  /* ---- matching ---- */

  predicate Takes(s: Segment, value: Text) {
    match s
    case Exactly(text) => value == text
    case AnyBut(literals) => value != [] && value !in literals
  }

  /** The regular expression on `METHOD /path/value`, anchored at both ends. */
  predicate Accepts(p: Pattern, request: Text) {
    && |request| > |p.verb| && request[..|p.verb|] == p.verb && request[|p.verb|] == SPACE
    && var values := Split(request[|p.verb| + 1..]);
       |values| == |p.segments| && forall i :: 0 <= i < |values| ==> Takes(p.segments[i], values[i])
  }

  /** Two routes that differ in their parameters' names at most. */
  predicate Alike(a: Parts, b: Parts) {
    && a.verb == b.verb && |a.segments| == |b.segments|
    && forall i :: 0 <= i < |a.segments| ==>
         a.segments[i] == b.segments[i] || (IsParam(a.segments[i]) && IsParam(b.segments[i]))
  }

  lemma SameVerb(a: Pattern, b: Pattern, request: Text)
    requires SPACE !in a.verb && SPACE !in b.verb && Accepts(a, request) && Accepts(b, request)
    ensures a.verb == b.verb
  {
  }

  /** No request is taken by two known routes, but for those that differ in parameter names only. */
  lemma Unambiguous(known: seq<Text>, a: Text, b: Text, request: Text)
    requires a in known && b in known
    requires Accepts(PatternOf(PartsOf(a), PartsAll(known)), request)
    requires Accepts(PatternOf(PartsOf(b), PartsAll(known)), request)
    ensures Alike(PartsOf(a), PartsOf(b))
  {
    hide IsParam, PartsOf, Split;
    var mine, other, others := PartsOf(a), PartsOf(b), PartsAll(known);
    assert mine in others && other in others by {
      var i, j :| 0 <= i < |known| && 0 <= j < |known| && known[i] == a && known[j] == b;
      assert others[i] == mine && others[j] == other;
    }
    SameVerb(PatternOf(mine, others), PatternOf(other, others), request);
    var values := Split(request[|mine.verb| + 1..]);
    assert |mine.segments| == |other.segments| == |values|;
    BothTake(others, mine, other, values);
  }

  lemma BothTake(others: seq<Parts>, mine: Parts, other: Parts, values: seq<Text>)
    requires mine in others && other in others && mine.verb == other.verb
    requires |mine.segments| == |other.segments| == |values|
    requires forall i :: 0 <= i < |values| ==> Takes(SegmentOf(mine, others, i), values[i])
    requires forall i :: 0 <= i < |values| ==> Takes(SegmentOf(other, others, i), values[i])
    ensures Alike(mine, other)
  {
    hide IsParam;
    forall i | 0 <= i < |values|
      ensures mine.segments[i] == other.segments[i] || (IsParam(mine.segments[i]) && IsParam(other.segments[i]))
    {
      assert Takes(SegmentOf(mine, others, i), values[i]) && Takes(SegmentOf(other, others, i), values[i]);
      AgreeBefore(others, mine, other, values, i);
      AgreeBefore(others, other, mine, values, i);
      LiteralIn(others, mine, other, i);
      LiteralIn(others, other, mine, i);
    }
  }

  lemma AgreeBefore(others: seq<Parts>, mine: Parts, other: Parts, values: seq<Text>, at: nat)
    requires |mine.segments| == |other.segments| == |values| && at <= |values|
    requires forall i :: 0 <= i < |values| ==> Takes(SegmentOf(mine, others, i), values[i])
    requires forall i :: 0 <= i < |values| ==> Takes(SegmentOf(other, others, i), values[i])
    ensures SameBefore(mine.segments, other.segments, at)
  {
    hide IsParam, Literals;
    forall i | 0 <= i < at
      ensures other.segments[i] == mine.segments[i] || IsParam(other.segments[i]) || IsParam(mine.segments[i])
    {
      assert Takes(SegmentOf(mine, others, i), values[i]) && Takes(SegmentOf(other, others, i), values[i]);
    }
  }

  lemma LiteralIn(others: seq<Parts>, mine: Parts, other: Parts, at: nat)
    requires other in others && at < |mine.segments|
    ensures HasLiteral(mine, other, at) ==> other.segments[at] in Literals(mine, others, at)
  {
  }

  /** Alike routes take the same requests. */
  lemma AlikeTakesTheSame(others: seq<Parts>, mine: Parts, other: Parts, request: Text)
    requires Alike(mine, other) && Accepts(PatternOf(mine, others), request)
    ensures Accepts(PatternOf(other, others), request)
  {
  }

  /* ---- what no route takes ---- */

  /** The route's shape fits, whatever its siblings are: what the backend's own router asks. */
  predicate Fits(route: Parts, verb: Text, values: seq<Text>) {
    && route.verb == verb && |route.segments| == |values|
    && forall i :: 0 <= i < |values| ==>
         if IsParam(route.segments[i]) then values[i] != [] else values[i] == route.segments[i]
  }

  /**
   * Some known route of the method and the length has this very literal there, and before it nothing but
   * what is equal or a parameter of either.
   */
  ghost predicate Shadowed(others: seq<Parts>, mine: Parts, at: nat, value: Text)
    requires at < |mine.segments|
  {
    exists other :: other in others
      && other.verb == mine.verb && |other.segments| == |mine.segments|
      && other.segments[at] == value && !IsParam(value)
      && forall i :: 0 <= i < at ==>
           other.segments[i] == mine.segments[i] || IsParam(other.segments[i]) || IsParam(mine.segments[i])
  }

  /** A route takes a request of its shape exactly when no sibling has a literal where it has a parameter. */
  lemma TakesIff(others: seq<Parts>, mine: Parts, values: seq<Text>)
    requires |values| == |mine.segments|
    ensures (forall i :: 0 <= i < |values| ==> Takes(SegmentOf(mine, others, i), values[i])) <==>
            && Fits(mine, mine.verb, values)
            && forall i :: 0 <= i < |values| && IsParam(mine.segments[i]) ==> !Shadowed(others, mine, i, values[i])
  {
  }

  /** The request is of the route's method and shape. */
  predicate FitsRequest(route: Parts, request: Text) {
    && |request| > |route.verb| && request[..|route.verb|] == route.verb && request[|route.verb|] == SPACE
    && Fits(route, route.verb, Split(request[|route.verb| + 1..]))
  }

  /** Some sibling has, where the route has a parameter, the very literal the request has there. */
  ghost predicate ShadowedAnywhere(others: seq<Parts>, mine: Parts, request: Text)
    requires FitsRequest(mine, request)
  {
    var values := Split(request[|mine.verb| + 1..]);
    exists i :: 0 <= i < |values| && IsParam(mine.segments[i]) && Shadowed(others, mine, i, values[i])
  }

  /** One route, of a table it need not be in. */
  lemma AcceptsIff(others: seq<Parts>, mine: Parts, request: Text)
    ensures Accepts(PatternOf(mine, others), request) <==>
            FitsRequest(mine, request) && !ShadowedAnywhere(others, mine, request)
  {
    hide IsParam, Split, Shadowed, Fits, SegmentOf, Takes;
    var pattern := PatternOf(mine, others);
    if |request| > |mine.verb| && request[..|mine.verb|] == mine.verb && request[|mine.verb|] == SPACE {
      var values := Split(request[|mine.verb| + 1..]);
      if |values| == |mine.segments| {
        TakesIff(others, mine, values);
        assert forall i :: 0 <= i < |values| ==> pattern.segments[i] == SegmentOf(mine, others, i);
      } else {
        assert !FitsRequest(mine, request) by { FitsLength(mine, mine.verb, values); }
      }
    }
  }

  lemma FitsLength(route: Parts, verb: Text, values: seq<Text>)
    ensures Fits(route, verb, values) ==> |values| == |route.segments|
  {
  }

  /**
   * Exactly when the table fails a request: no known route takes it if and only if each one whose shape it
   * has is refused it by a sibling's literal. What the backend routes by shape is then logged as unknown.
   */
  lemma TakenByNoneIff(known: seq<Text>, request: Text)
    ensures (forall route :: route in known ==> !Accepts(PatternOf(PartsOf(route), PartsAll(known)), request)) <==>
            (forall route :: route in known && FitsRequest(PartsOf(route), request) ==>
               ShadowedAnywhere(PartsAll(known), PartsOf(route), request))
  {
    hide Accepts, FitsRequest, ShadowedAnywhere, PatternOf, PartsOf, PartsAll;
    forall route | route in known
      ensures Accepts(PatternOf(PartsOf(route), PartsAll(known)), request) <==>
              FitsRequest(PartsOf(route), request) && !ShadowedAnywhere(PartsAll(known), PartsOf(route), request)
    {
      AcceptsIff(PartsAll(known), PartsOf(route), request);
    }
  }

  const GET: Text := [0x47, 0x45, 0x54]
  const PARAM: Text := [OPEN, 0x70, CLOSE]
  const LIT: Text := [0x6C]
  const C: Text := [0x63]
  const D: Text := [0x64]

  /** `METHOD first/second`. */
  function TwoSegments(verb: Text, first: Text, second: Text): Text {
    verb + [SPACE] + (first + [SLASH] + second)
  }

  lemma TwoParts(verb: Text, first: Text, second: Text)
    requires SPACE !in verb && SLASH !in first && SLASH !in second
    ensures PartsOf(TwoSegments(verb, first, second)) == Parts(verb, [first, second])
  {
    var path := first + [SLASH] + second;
    var route := TwoSegments(verb, first, second);
    assert route[..|verb|] == verb && route[|verb| + 1..] == path;
    IndexIs(route, SPACE, |verb|);
    assert path[..|first|] == first && path[|first| + 1..] == second;
    IndexIs(path, SLASH, |first|);
    IndexNone(second, SLASH);
    assert Split(second) == [second];
  }

  /** Two routes of one method, one with a parameter where the other has a literal, that then part. */
  lemma PartedRoutes(verb: Text, param: Text, literal: Text, c: Text, d: Text)
    requires IsParam(param) && !IsParam(literal) && !IsParam(c) && !IsParam(d) && c != d
    ensures var a, b := Parts(verb, [param, c]), Parts(verb, [literal, d]);
            && (Fits(a, verb, [literal, c]) <==> literal != []) && !Fits(b, verb, [literal, c])
            && !Takes(SegmentOf(a, [a, b], 0), literal) && !Takes(SegmentOf(b, [a, b], 1), c)
  {
    hide IsParam;
    var a, b := Parts(verb, [param, c]), Parts(verb, [literal, d]);
    assert [a, b][1] == b && b in [a, b];
    LiteralIn([a, b], a, b, 0);
    var values := [literal, c];
    assert values[0] == literal && values[1] == c;
  }

  /**
   * A sibling's literal is refused even where that sibling does not fit the rest: of `GET {p}/c` and
   * `GET l/d`, the request `GET l/c` is of the first's shape only, and neither takes it.
   */
  lemma FitsButTakenByNone()
    ensures var a, b := PartsOf(TwoSegments(GET, PARAM, C)), PartsOf(TwoSegments(GET, LIT, D));
            && a == Parts(GET, [PARAM, C]) && b == Parts(GET, [LIT, D])
            && Fits(a, GET, [LIT, C]) && !Fits(b, GET, [LIT, C])
            && !Takes(SegmentOf(a, [a, b], 0), LIT) && !Takes(SegmentOf(b, [a, b], 1), C)
  {
    assert PARAM[1..2] == [0x70];
    assert IsParam(PARAM) && !IsParam(LIT) && !IsParam(C) && !IsParam(D);
    assert C[0] != D[0];
    TwoParts(GET, PARAM, C);
    TwoParts(GET, LIT, D);
    hide IsParam, PartsOf, Fits, SegmentOf, Takes, TwoSegments;
    PartedRoutes(GET, PARAM, LIT, C, D);
  }
}
