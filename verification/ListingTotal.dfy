/**
 * What `toStoredTools` of agent/src/access/listings.ts promises of a whole listing: its size,
 * its account of what was lost, and that its own output goes through unchanged.
 */
module ListingTotal {
  import opened Wrappers
  import opened Json
  import opened Listings
  import opened ListingFields
  import opened ListingClean
  import opened ListingLosses
  import opened ListingCaps

  /* ---- lengths ---- */

  lemma ToolLengthIs(t: Stored)
    ensures ToolLength(t) == 19 + Length(Obj(t.raw)) + Length(Arr(Labels(t.omitted)))
  {
    hide Quoted, Labels;
    var raw, names := Field(RAW, Obj(t.raw)), Field(OMITTED_KEY, Arr(Labels(t.omitted)));
    assert [raw, names][1..] == [names];
    PlainKeys();
    OneField(names);
    assert Fields([raw, names])
      == Quoted(RAW) + COLON + Stringify(raw.value) + COMMA + Fields([names]);
  }

  lemma PlainQuoted(s: Text)
    requires forall u :: u in s ==> 0x20 <= u < 0x80 && u != QUOTE && u != BACKSLASH
    ensures |Quoted(s)| == |s| + 2
  {
    EscapedPlain(s);
    hide Escaped;
  }

  lemma PlainKeys()
    ensures |Quoted(RAW)| == 5 && |Quoted(OMITTED_KEY)| == 9 && |Quoted(NAME)| == 6
    ensures forall o :: |Quoted(Label(o))| == |Label(o)| + 2
  {
    hide Quoted;
    PlainQuoted(RAW);
    PlainQuoted(OMITTED_KEY);
    PlainQuoted(NAME);
    forall o
      ensures |Quoted(Label(o))| == |Label(o)| + 2
    {
      PlainLabel(o);
      hide Label;
      PlainQuoted(Label(o));
    }
  }

  lemma PlainLabel(o: Omitted)
    ensures forall u :: u in Label(o) ==> 0x20 <= u < 0x80 && u != QUOTE && u != BACKSLASH
  {
  }

  /** A label's text with its quotes and a comma. */
  function Cost(o: Omitted): nat {
    |Label(o)| + 3
  }

  function Costs(omitted: seq<Omitted>): nat {
    if omitted == [] then 0 else Cost(omitted[0]) + Costs(omitted[1..])
  }

  function CostIn(s: set<Omitted>, o: Omitted): nat {
    if o in s then Cost(o) else 0
  }

  function Weight(s: set<Omitted>): nat {
    CostIn(s, Description) + CostIn(s, InputSchema) + CostIn(s, OutputSchema) + CostIn(s, Other)
    + CostIn(s, Title) + CostIn(s, Annotations) + CostIn(s, Keys)
  }

  lemma {:induction false} LabelsLength(omitted: seq<Omitted>)
    ensures omitted != [] ==> |Items(Labels(omitted))| == Costs(omitted) - 1
    ensures omitted == [] ==> Items(Labels(omitted)) == []
  {
    hide Quoted, Label;
    if omitted != [] {
      LabelsLength(omitted[1..]);
      PlainKeys();
      assert Labels(omitted)[1..] == Labels(omitted[1..]);
      assert |Stringify(Labels(omitted)[0])| == |Label(omitted[0])| + 2;
    }
  }

  lemma CostInMore(s: set<Omitted>, o: Omitted, x: Omitted)
    requires o !in s
    ensures CostIn(s + {o}, x) == CostIn(s, x) + if x == o then Cost(o) else 0
  {
  }

  lemma WeightMore(s: set<Omitted>, o: Omitted)
    requires o !in s
    ensures Weight(s + {o}) == Weight(s) + Cost(o)
  {
    hide Cost, CostIn;
    CostInMore(s, o, Description);
    CostInMore(s, o, InputSchema);
    CostInMore(s, o, OutputSchema);
    CostInMore(s, o, Other);
    CostInMore(s, o, Title);
    CostInMore(s, o, Annotations);
    CostInMore(s, o, Keys);
  }

  lemma {:induction false} CostsAreWeight(omitted: seq<Omitted>)
    requires NoDup(omitted)
    ensures Costs(omitted) == Weight(set o | o in omitted)
  {
    hide Cost, Weight;
    var all := set o | o in omitted;
    if omitted == [] {
      assert all == {};
      assert Weight({}) == 0 by { NoWeight(); }
    } else {
      var rest := omitted[1..];
      CostsAreWeight(rest);
      var s := set o | o in rest;
      assert omitted[0] !in s;
      assert all == s + {omitted[0]} by {
        assert omitted == [omitted[0]] + rest;
      }
      WeightMore(s, omitted[0]);
    }
  }

  lemma NoWeight()
    ensures Weight({}) == 0
  {
  }

  /** The most names a tool can carry take 80 characters with their commas. */
  lemma WeightBound(s: set<Omitted>)
    ensures Weight(s) <= 80
  {
  }

  /** A tool's `omitted`, each name once, is never longer than all seven. */
  lemma OmittedBound(omitted: seq<Omitted>)
    requires NoDup(omitted)
    ensures 2 == Length(Arr([])) <= Length(Arr(Labels(omitted))) <= 81
    ensures Length(Arr(Labels(OMITTED))) == 81
  {
    hide Weight, Cost, Label;
    LabelsLength(omitted);
    LabelsLength([]);
    CostsAreWeight(omitted);
    WeightBound(set o | o in omitted);
    AllCosts();
    LabelsLength(OMITTED);
  }

  lemma AllCosts()
    ensures Costs(OMITTED) == 80
  {
  }

  /* ---- the stubs ---- */

  const BARE_MOST := 879

  lemma NameOnly(name: Value)
    ensures Length(Obj([Field(NAME, name)])) == 9 + Length(name)
  {
    hide Quoted, Stringify;
    OneField(Field(NAME, name));
    PlainKeys();
    assert Stringify(Obj([Field(NAME, name)])) == [0x7B] + Fields([Field(NAME, name)]) + [0x7D] by {
      ObjText([Field(NAME, name)]);
    }
  }

  /** 128 code units at the worst six characters each, and every name of a loss. */
  lemma BareBound(t: Stored)
    requires Accepted(Obj(t.raw))
    ensures ToolLength(Bare(t)) <= BARE_MOST
  {
    hide Quoted, Labels, ToolLength;
    ToolLengthIs(Bare(t));
    NameOnly(Get(t.raw, NAME).value);
    assert NoDup(OMITTED);
    OmittedBound(OMITTED);
    assert Length(Get(t.raw, NAME).value) <= 6 * NAME_CAP + 2;
  }

  /** A tool left with its name only is no longer than its stub. */
  lemma StubBound(t: Stored, stub: Stored)
    requires KeysOf(stub.raw) <= {NAME} && NoDup(KeySeq(stub.raw)) && NoDup(stub.omitted)
    requires Get(stub.raw, NAME) == Get(t.raw, NAME) && Get(t.raw, NAME).Some?
    ensures ToolLength(stub) <= ToolLength(Bare(t))
  {
    hide Labels, ToolLength, Length;
    ToolLengthIs(stub);
    ToolLengthIs(Bare(t));
    OmittedBound(stub.omitted);
    OnlyName(stub.raw);
  }

  lemma OnlyName(raw: seq<Field>)
    requires KeysOf(raw) <= {NAME} && NoDup(KeySeq(raw)) && Get(raw, NAME).Some?
    ensures raw == [Field(NAME, Get(raw, NAME).value)]
  {
    forall i | 0 <= i < |raw|
      ensures raw[i].key == NAME
    {
      assert raw[i] in raw;
      assert raw[i].key in KeysOf(raw);
    }
    var last := |raw| - 1;
    assert KeySeq(raw)[0] == KeySeq(raw)[last];
  }

  /* ---- the steps leave names and titles ---- */

  /** The step has nothing left to remove. */
  ghost predicate Gone(t: Stored, step: Omitted) {
    forall k :: k in KeysOf(t.raw) ==> k !in StepKeys(t, step)
  }

  ghost predicate AllGone(tools: seq<Stored>, steps: set<Omitted>) {
    forall i, step :: 0 <= i < |tools| && step in steps ==> Gone(tools[i], step)
  }

  lemma OmitGone(t: Stored, step: Omitted, before: Omitted)
    ensures Gone(Omit(t, StepKeys(t, step), step), step)
    ensures Gone(t, before) ==> Gone(Omit(t, StepKeys(t, step), step), before)
  {
    var t2 := Omit(t, StepKeys(t, step), step);
    OmitRaw(t, StepKeys(t, step), step);
    WithoutKeys(t.raw, StepKeys(t, step));
    OthersKeys(t.raw);
    OthersKeys(t2.raw);
  }

  lemma {:induction false} SteppedGone(tools: seq<Stored>, steps: seq<Omitted>, before: set<Omitted>)
    requires AllGone(tools, before)
    requires !Stepped(tools, steps).1
    ensures AllGone(Stepped(tools, steps).0, before + (set s | s in steps))
    decreases |steps|
  {
    hide Gone, Omit, StepKeys;
    if steps == [] {
      assert before + (set s | s in steps) == before;
    } else {
      var next := OmitAll(tools, steps[0]);
      forall i, step | 0 <= i < |next| && step in before + {steps[0]}
        ensures Gone(next[i], step)
      {
        OmitGone(tools[i], steps[0], step);
      }
      SteppedGone(next, steps[1..], before + {steps[0]});
      assert before + (set s | s in steps) == before + {steps[0]} + (set s | s in steps[1..]) by {
        assert steps == [steps[0]] + steps[1..];
      }
    }
  }

  lemma NamesAndTitles(t: Stored)
    requires forall step :: step in STEPS ==> Gone(t, step)
    ensures KeysOf(t.raw) <= {NAME, TITLE}
  {
    OthersKeys(t.raw);
    assert STEPS[0] in STEPS && STEPS[1] in STEPS && STEPS[2] in STEPS && STEPS[3] in STEPS && STEPS[4] in STEPS;
    assert Gone(t, Other) && Gone(t, OutputSchema) && Gone(t, InputSchema) && Gone(t, Annotations)
           && Gone(t, Description);
  }

  /* ---- sums ---- */

  lemma {:induction false} SumAppend(a: seq<Stored>, b: seq<Stored>)
    ensures Sum(a + b) == Sum(a) + Sum(b)
  {
    if a == [] {
      assert a + b == b;
    } else {
      SumAppend(a[1..], b);
      assert (a + b)[1..] == a[1..] + b;
    }
  }

  lemma {:induction false} SumOrder(a: seq<Stored>, b: seq<Stored>)
    requires |a| == |b|
    requires forall i :: 0 <= i < |a| ==> ToolLength(a[i]) <= ToolLength(b[i])
    ensures Sum(a) <= Sum(b)
  {
    hide ToolLength;
    if a != [] {
      SumOrder(a[1..], b[1..]);
    }
  }

  lemma {:induction false} SumAtMost(tools: seq<Stored>, most: nat)
    requires forall i :: 0 <= i < |tools| ==> ToolLength(tools[i]) <= most
    ensures Sum(tools) <= most * |tools|
  {
    hide ToolLength;
    if tools != [] {
      SumAtMost(tools[1..], most);
      assert most * |tools| == most + most * |tools[1..]|;
    }
  }

  /* ---- titles ---- */

  /** The tools before `i` as they are, and stubs from there on. */
  ghost predicate Fits(full: seq<Stored>, bare: seq<Stored>, i: nat)
    requires |full| == |bare| && i <= |full|
  {
    Sum(full[..i]) + Frame(|full|) + Sum(bare[i..]) <= TOTAL_CAP
  }

  lemma {:induction false} FirstOverFits(full: seq<Stored>, bare: seq<Stored>, i: nat)
    requires |full| == |bare| && i <= |full|
    requires Fits(full, bare, i)
    ensures Fits(full, bare, FirstOver(full, bare, i))
    ensures var r := FirstOver(full, bare, i); r < |full| ==> !Fits(full, bare, r + 1)
    decreases |full| - i
  {
    hide Sum;
    if i < |full| && Fits(full, bare, i + 1) {
      FirstOverFits(full, bare, i + 1);
    }
  }

  /** 512 names of 128 code units fit, whatever they hold. */
  lemma BaresFit(tools: seq<Stored>)
    requires |tools| <= TOOLS_CAP
    requires forall i :: 0 <= i < |tools| ==> Accepted(Obj(tools[i].raw))
    ensures Fits(tools, Bares(tools), 0)
  {
    hide Bare, Accepted, ToolLength;
    var bares := Bares(tools);
    forall i | 0 <= i < |bares|
      ensures ToolLength(bares[i]) <= BARE_MOST
    {
      BareBound(tools[i]);
    }
    SumAtMost(bares, BARE_MOST);
    assert bares[0..] == bares;
    assert Sum(tools[..0]) == 0;
  }

  lemma CutTitlesFits(tools: seq<Stored>)
    requires |tools| <= TOOLS_CAP
    requires forall i :: 0 <= i < |tools| ==> Accepted(Obj(tools[i].raw))
    requires forall i :: 0 <= i < |tools| ==> KeysOf(tools[i].raw) <= {NAME, TITLE}
    requires forall i :: 0 <= i < |tools| ==> NoDup(KeySeq(tools[i].raw))
    requires forall i :: 0 <= i < |tools| ==> NoDup(Omit(tools[i], {TITLE}, Title).omitted)
    ensures ListingLength(CutTitles(tools)) <= TOTAL_CAP
  {
    hide ToolLength, Sum, Omit, Accepted, Bare, NoDup, KeySeq;
    var bares := Bares(tools);
    BaresFit(tools);
    FirstOverFits(tools, bares, 0);
    var first := FirstOver(tools, bares, 0);
    var cut := CutTitles(tools);
    forall i | first <= i < |tools|
      ensures ToolLength(cut[i]) <= ToolLength(bares[i])
    {
      TitleCut(tools[i]);
    }
    SumOrder(cut[first..], bares[first..]);
    SumAppend(cut[..first], cut[first..]);
    assert cut == cut[..first] + cut[first..];
    assert cut[..first] == tools[..first];
  }

  lemma TitleCut(t: Stored)
    requires Accepted(Obj(t.raw)) && KeysOf(t.raw) <= {NAME, TITLE} && NoDup(KeySeq(t.raw))
    requires NoDup(Omit(t, {TITLE}, Title).omitted)
    ensures ToolLength(Omit(t, {TITLE}, Title)) <= ToolLength(Bare(t))
  {
    hide ToolLength, Bare;
    var stub := Omit(t, {TITLE}, Title);
    OmitRaw(t, {TITLE}, Title);
    WithoutKeys(t.raw, {TITLE});
    GetWithout(t.raw, {TITLE}, NAME);
    KeysWithout(t.raw, {TITLE});
    DropMembers(KeySeq(t.raw), {TITLE});
    StubBound(t, stub);
  }

  /* ---- the promises ---- */

  /** The listing as it is stored: the array of its tools. */
  function ListingJson(tools: seq<Stored>): Value {
    Arr(seq(|tools|, i requires 0 <= i < |tools| => ToolJson(tools[i])))
  }

  lemma {:induction false} ItemsLength(tools: seq<Stored>)
    ensures |Items(ListingJson(tools).items)| == Sum(tools) + Frame(|tools|) - 2
  {
    hide ToolJson;
    if tools != [] {
      ItemsLength(tools[1..]);
      assert ListingJson(tools).items[1..] == ListingJson(tools[1..]).items;
      assert |Stringify(ToolJson(tools[0]))| == ToolLength(tools[0]);
    }
  }

  /** Summing the tools once each gives the length of the whole array's JSON. */
  lemma ListingLengthIs(tools: seq<Stored>)
    ensures ListingLength(tools) == Length(ListingJson(tools))
  {
    ItemsLength(tools);
  }

  /** A kept entry's name is stored, in code units as many as it had. */
  lemma StaysAccepted(entry: Value, t: Stored)
    requires Accepted(entry) && Good(entry.fields, t)
    ensures Accepted(Obj(t.raw))
    ensures Get(t.raw, NAME) == Some(Str(Storable(Get(entry.fields, NAME).value.text)))
  {
    hide Within, Get, Drop;
    StorablePlain(NAME);
    CleanGet(entry.fields, {}, NAME);
  }

  lemma StaysApart(entry: seq<Field>, t: Stored)
    requires Good(entry, t)
    ensures NoDup(KeySeq(t.raw)) && NoDup(t.omitted) && NoDup(Omit(t, {TITLE}, Title).omitted)
  {
    FixedNoDup(t.raw, {});
  }

  lemma {:induction false} SteppedFits(tools: seq<Stored>, steps: seq<Omitted>)
    ensures Stepped(tools, steps).1 ==> ListingLength(Stepped(tools, steps).0) <= TOTAL_CAP
    decreases |steps|
  {
    hide ListingLength, OmitAll;
    if steps != [] && ListingLength(tools) > TOTAL_CAP {
      SteppedFits(OmitAll(tools, steps[0]), steps[1..]);
    }
  }

  /** After every step a tool holds no more than a name and a title. */
  lemma NotEnough(entries: seq<Value>)
    requires !Stepped(Capped(entries), STEPS).1
    ensures var tools := Stepped(Capped(entries), STEPS).0;
            forall i :: 0 <= i < |tools| ==>
              && Accepted(Obj(tools[i].raw)) && KeysOf(tools[i].raw) <= {NAME, TITLE}
              && NoDup(KeySeq(tools[i].raw)) && NoDup(Omit(tools[i], {TITLE}, Title).omitted)
  {
    hide Good, Accepted, NoDup, KeySeq, Omit, Capped, Stepped, Gone, KeysOf;
    var kept, tools := Kept(entries), Stepped(Capped(entries), STEPS).0;
    CappedGood(entries);
    SteppedGood(kept, Capped(entries), STEPS);
    SteppedGone(Capped(entries), STEPS, {});
    forall i | 0 <= i < |tools|
      ensures Accepted(Obj(tools[i].raw)) && KeysOf(tools[i].raw) <= {NAME, TITLE}
      ensures NoDup(KeySeq(tools[i].raw)) && NoDup(Omit(tools[i], {TITLE}, Title).omitted)
    {
      assert kept[i] in kept;
      StaysAccepted(kept[i], tools[i]);
      StaysApart(kept[i].fields, tools[i]);
      forall step | step in STEPS
        ensures Gone(tools[i], step)
      {
        assert step in {} + (set s | s in STEPS);
      }
      NamesAndTitles(tools[i]);
    }
  }

  /** However large and however hostile the entries, the stored listing's JSON is within the total. */
  lemma TotalBound(entries: seq<Value>)
    ensures Length(ListingJson(ToStored(entries))) <= TOTAL_CAP
  {
    hide ListingLength, Length, Accepted, KeysOf, NoDup, KeySeq, Omit, CutTitles, Capped, Stepped;
    ListingLengthIs(ToStored(entries));
    var (tools, enough) := Stepped(Capped(entries), STEPS);
    if enough {
      SteppedFits(Capped(entries), STEPS);
    } else {
      NotEnough(entries);
      CutTitlesFits(tools);
    }
  }

  /**
   * The tools are the accepted entries in their order, and each accounts for every difference
   * from its entry.
   */
  lemma EveryLossIsNamed(entries: seq<Value>)
    ensures |ToStored(entries)| == |Kept(entries)|
    ensures forall i {:trigger ToStored(entries)[i]} :: 0 <= i < |Kept(entries)| ==>
              && Kept(entries)[i].Obj?
              && Accounted(Kept(entries)[i].fields, ToStored(entries)[i])
              && Accepted(Obj(ToStored(entries)[i].raw))
  {
    hide Accounted, ToStored;
    ToStoredGood(entries);
    forall i | 0 <= i < |Kept(entries)|
      ensures Accounted(Kept(entries)[i].fields, ToStored(entries)[i]) && Accepted(Obj(ToStored(entries)[i].raw))
    {
      assert Kept(entries)[i] in Kept(entries);
      StaysAccepted(Kept(entries)[i], ToStored(entries)[i]);
    }
  }

  /* ---- its own output ---- */

  function Raws(tools: seq<Stored>): (r: seq<Value>)
    ensures |r| == |tools|
  {
    seq(|tools|, i requires 0 <= i < |tools| => Obj(tools[i].raw))
  }

  lemma {:induction false} AllAccepted(entries: seq<Value>)
    requires forall e :: e in entries ==> Accepted(e)
    ensures AcceptedEntries(entries) == entries
  {
    hide Accepted;
    if entries != [] {
      assert entries[0] in entries;
      AllAccepted(entries[1..]);
      assert entries == [entries[0]] + entries[1..];
    }
  }

  /** The stored raw entries, listed again, are stored as they are and nothing is named. */
  lemma Idempotent(entries: seq<Value>)
    ensures var stored := ToStored(entries);
            ToStored(Raws(stored)) == seq(|stored|, i requires 0 <= i < |stored| => Stored(stored[i].raw, []))
  {
    hide ToolLength, Accepted, Good, CapEntry, Labels, Sum;
    var stored, kept := ToStored(entries), Kept(entries);
    var again := seq(|stored|, i requires 0 <= i < |stored| => Stored(stored[i].raw, []));
    ToStoredGood(entries);
    forall i | 0 <= i < |stored|
      ensures Accepted(Raws(stored)[i])
      ensures CapEntry(Raws(stored)[i].fields) == again[i]
      ensures ToolLength(again[i]) <= ToolLength(stored[i])
    {
      assert kept[i] in kept;
      StaysAccepted(kept[i], stored[i]);
      ShorterWithoutNames(kept[i].fields, stored[i]);
      GoodStays(kept[i].fields, stored[i]);
    }
    AllAccepted(Raws(stored));
    assert Capped(Raws(stored)) == again;
    SumOrder(again, stored);
    TotalBound(entries);
    ListingLengthIs(stored);
    assert ListingLength(again) <= TOTAL_CAP;
  }

  lemma GoodStays(entry: seq<Field>, t: Stored)
    requires Good(entry, t)
    ensures CapEntry(t.raw) == Stored(t.raw, [])
  {
  }

  lemma ShorterWithoutNames(entry: seq<Field>, t: Stored)
    requires Good(entry, t)
    ensures ToolLength(Stored(t.raw, [])) <= ToolLength(t)
  {
    hide ToolLength, Length, Within, Labels;
    ToolLengthIs(t);
    ToolLengthIs(Stored(t.raw, []));
    assert Labels([]) == [];
    OmittedBound(t.omitted);
  }
}
