/** `toStoredTools` of agent/src/access/listings.ts as it runs: tools trimmed in place, sums kept as it goes. */
module ListingTools {
  import opened Wrappers
  import opened Json
  import Spec = Listings
  import opened ListingFields
  import opened ListingLosses

  function KeySet(keys: seq<Text>): set<Text> {
    set k | k in keys
  }

  lemma KeySetOf(fields: seq<Field>)
    ensures KeySet(Spec.KeySeq(fields)) == Spec.KeysOf(fields)
  {
    MemberKeys(fields);
  }

  class StoredTool {
    var raw: seq<Field>
    var omitted: seq<Spec.Omitted>

    function Value(): Spec.Stored
      reads this
    {
      Spec.Stored(raw, omitted)
    }

    constructor (raw: seq<Field>, omitted: seq<Spec.Omitted>)
      ensures Value() == Spec.Stored(raw, omitted)
    {
      this.raw := raw;
      this.omitted := omitted;
    }

    /** `omit`: the keys deleted one by one. */
    method Omit(keys: seq<Text>, name: Spec.Omitted)
      modifies this
      ensures Value() == Spec.Omit(old(Value()), KeySet(keys), name)
    {
      if !exists k :: k in keys && k in Spec.KeysOf(raw) {
        assert KeySet(keys) * Spec.KeysOf(raw) == {};
        return;
      }
      assert KeySet(keys) * Spec.KeysOf(raw) != {} by {
        var k :| k in keys && k in Spec.KeysOf(raw);
        assert k in KeySet(keys) * Spec.KeysOf(raw);
      }
      WithoutNothing(raw, {});
      assert KeySet(keys[..0]) == {};
      for i := 0 to |keys|
        invariant raw == Spec.Without(old(raw), KeySet(keys[..i]))
        invariant omitted == old(omitted)
      {
        raw := Spec.Without(raw, {keys[i]});
        WithoutTwice(old(raw), KeySet(keys[..i]), {keys[i]});
        assert KeySet(keys[..i + 1]) == KeySet(keys[..i]) + {keys[i]};
      }
      assert keys[..|keys|] == keys;
      if name !in omitted {
        omitted := omitted + [name];
      }
    }

    method CapText(key: Text, name: Spec.Omitted, max: nat)
      modifies this
      ensures Value() == Spec.CapText(old(Value()), key, name, max)
    {
      var value := Get(raw, key);
      if value.None? {
        return;
      }
      assert KeySet([key]) == {key};
      if !value.value.Str? {
        if Length(value.value) > max {
          Omit([key], name);
        }
      } else if |value.value.text| > max {
        raw := Spec.With(raw, key, Str(Spec.Cut(value.value.text, max)));
        omitted := omitted + [name];
      }
    }

    method CapValue(key: Text, name: Spec.Omitted, max: nat)
      modifies this
      ensures Value() == Spec.CapValue(old(Value()), key, name, max)
    {
      var value := Get(raw, key);
      assert KeySet([key]) == {key};
      if value.Some? && Length(value.value) > max {
        Omit([key], name);
      }
    }

    method CapOthers()
      modifies this
      ensures Value() == Spec.CapOthers(old(Value()))
    {
      var others := Spec.Others(raw);
      KeySetOf(others);
      if others != [] && Length(Obj(others)) > Spec.OTHER_CAP {
        Omit(Spec.KeySeq(others), Spec.Other);
      }
    }
  }

  method CapEntry(entry: seq<Field>) returns (tool: StoredTool)
    ensures fresh(tool) && tool.Value() == Spec.CapEntry(entry)
  {
    hide Spec.CapText, Spec.CapValue, Spec.CapOthers, Spec.CleanFields;
    var cleaned := Spec.CleanFields(entry, {});
    tool := new StoredTool(cleaned.fields, if cleaned.lost then [Spec.Keys] else []);
    tool.CapText(Spec.DESCRIPTION, Spec.Description, Spec.DESCRIPTION_CAP);
    tool.CapText(Spec.TITLE, Spec.Title, Spec.TITLE_CAP);
    tool.CapValue(Spec.INPUT_SCHEMA, Spec.InputSchema, Spec.SCHEMA_CAP);
    tool.CapValue(Spec.OUTPUT_SCHEMA, Spec.OutputSchema, Spec.SCHEMA_CAP);
    tool.CapOthers();
    tool.CapValue(Spec.ANNOTATIONS, Spec.Annotations, Spec.OTHER_CAP);
  }

  /* ---- the listing ---- */

  function Values(tools: seq<StoredTool>): (r: seq<Spec.Stored>)
    reads tools
    ensures |r| == |tools|
  {
    seq(|tools|, i requires 0 <= i < |tools| reads tools => tools[i].Value())
  }

  predicate Distinct(tools: seq<StoredTool>) {
    forall i, j :: 0 <= i < j < |tools| ==> tools[i] != tools[j]
  }

  lemma SumSnoc(tools: seq<Spec.Stored>, i: nat)
    requires i < |tools|
    ensures Spec.Sum(tools[..i + 1]) == Spec.Sum(tools[..i]) + Spec.ToolLength(tools[i])
    ensures Spec.Sum(tools[i..]) == Spec.ToolLength(tools[i]) + Spec.Sum(tools[i + 1..])
  {
    hide Spec.ToolLength;
    if i > 0 {
      SumSnoc(tools[1..], i - 1);
      assert tools[1..][..i] == tools[..i + 1][1..];
      assert tools[1..][..i - 1] == tools[..i][1..];
    }
    assert tools[i..][1..] == tools[i + 1..];
  }

  method ListingLength(tools: seq<StoredTool>) returns (total: nat)
    ensures total == Spec.ListingLength(Values(tools))
  {
    hide Spec.ToolLength, Spec.Sum;
    ghost var values := Values(tools);
    total := Spec.Frame(|tools|);
    assert Spec.Sum([]) == 0 by { NoSum(); }
    for i := 0 to |tools|
      invariant total == Spec.Frame(|tools|) + Spec.Sum(values[..i])
    {
      SumSnoc(values, i);
      total := total + Spec.ToolLength(tools[i].Value());
    }
    assert values[..|tools|] == values;
  }

  lemma NoSum()
    ensures Spec.Sum([]) == 0
  {
  }

  function StepSeq(t: Spec.Stored, step: Spec.Omitted): seq<Text> {
    match step
    case Other => Spec.KeySeq(Spec.Others(t.raw))
    case OutputSchema => [Spec.OUTPUT_SCHEMA]
    case InputSchema => [Spec.INPUT_SCHEMA]
    case Annotations => [Spec.ANNOTATIONS]
    case Description => [Spec.DESCRIPTION]
    case _ => []
  }

  lemma StepSeqIs(t: Spec.Stored, step: Spec.Omitted)
    ensures KeySet(StepSeq(t, step)) == Spec.StepKeys(t, step)
  {
    KeySetOf(Spec.Others(t.raw));
  }

  method OmitAll(tools: seq<StoredTool>, step: Spec.Omitted)
    requires Distinct(tools)
    modifies tools
    ensures Values(tools) == Spec.OmitAll(old(Values(tools)), step)
  {
    hide Spec.Omit, Spec.StepKeys, StepSeq;
    ghost var was := Values(tools);
    for i := 0 to |tools|
      invariant forall j :: i <= j < |tools| ==> tools[j].Value() == was[j]
      invariant forall j :: 0 <= j < i ==> tools[j].Value() == Spec.Omit(was[j], Spec.StepKeys(was[j], step), step)
    {
      StepSeqIs(tools[i].Value(), step);
      tools[i].Omit(StepSeq(tools[i].Value(), step), step);
    }
  }

  /** From the first tool whose title does not fit, each keeps only its name. */
  method CutTitles(tools: seq<StoredTool>)
    requires Distinct(tools)
    modifies tools
    ensures Values(tools) == Spec.CutTitles(old(Values(tools)))
  {
    hide Spec.Omit, Spec.Bare, Spec.Sum, Spec.ToolLength, Spec.FirstOver;
    ghost var full := Values(tools);
    ghost var bare := Spec.Bares(full);
    assert forall j :: 0 <= j < |tools| ==> full[j] == tools[j].Value() && bare[j] == Spec.Bare(full[j]);
    var rest, kept := Spec.Frame(|tools|), 0;
    NoSum();
    for i := 0 to |tools|
      invariant Values(tools) == full
      invariant rest == Spec.Frame(|tools|) + Spec.Sum(bare[..i])
    {
      SumSnoc(bare, i);
      assert bare[i] == Spec.Bare(tools[i].Value());
      rest := rest + Spec.ToolLength(Spec.Bare(tools[i].Value()));
    }
    assert bare[..|tools|] == bare && bare[0..] == bare;
    var first := 0;
    assert full[..0] == [];
    while first < |tools|
      invariant 0 <= first <= |tools| && Values(tools) == full
      invariant rest == Spec.Frame(|tools|) + Spec.Sum(bare[first..])
      invariant kept == Spec.Sum(full[..first])
      invariant Spec.FirstOver(full, bare, 0) == Spec.FirstOver(full, bare, first)
    {
      SumSnoc(full, first);
      SumSnoc(bare, first);
      assert full[first] == tools[first].Value() && bare[first] == Spec.Bare(full[first]);
      rest := rest - Spec.ToolLength(Spec.Bare(tools[first].Value()));
      kept := kept + Spec.ToolLength(tools[first].Value());
      NextOver(full, bare, first);
      if kept + rest > Spec.TOTAL_CAP {
        break;
      }
      first := first + 1;
    }
    LastOver(full, bare);
    assert first == Spec.FirstOver(full, bare, 0);
    for i := first to |tools|
      invariant forall j :: 0 <= j < first || i <= j < |tools| ==> tools[j].Value() == full[j]
      invariant forall j :: first <= j < i ==> tools[j].Value() == Spec.Omit(full[j], {Spec.TITLE}, Spec.Title)
    {
      assert KeySet([Spec.TITLE]) == {Spec.TITLE};
      tools[i].Omit([Spec.TITLE], Spec.Title);
    }
  }

  lemma NextOver(full: seq<Spec.Stored>, bare: seq<Spec.Stored>, i: nat)
    requires |full| == |bare| && i < |full|
    ensures Spec.FirstOver(full, bare, i)
      == if Spec.Sum(full[..i + 1]) + Spec.Frame(|full|) + Spec.Sum(bare[i + 1..]) > Spec.TOTAL_CAP then i
         else Spec.FirstOver(full, bare, i + 1)
  {
  }

  lemma LastOver(full: seq<Spec.Stored>, bare: seq<Spec.Stored>)
    requires |full| == |bare|
    ensures Spec.FirstOver(full, bare, |full|) == |full|
  {
  }

  method ToStoredTools(entries: seq<Value>) returns (tools: seq<StoredTool>)
    ensures fresh(tools) && Distinct(tools)
    ensures Values(tools) == Spec.ToStored(entries)
  {
    hide Spec.CapEntry, Spec.CutTitles, Spec.OmitAll, Spec.ListingLength;
    var kept := Spec.Kept(entries);
    tools := [];
    for i := 0 to |kept|
      invariant |tools| == i && fresh(tools) && Distinct(tools)
      invariant forall j :: 0 <= j < i ==> kept[j].Obj? && tools[j].Value() == Spec.CapEntry(kept[j].fields)
    {
      assert kept[i] in kept;
      var tool := CapEntry(kept[i].fields);
      tools := tools + [tool];
    }
    ghost var capped := Spec.Capped(entries);
    assert Values(tools) == capped;
    for s := 0 to |Spec.STEPS|
      invariant Spec.Stepped(capped, Spec.STEPS) == Spec.Stepped(Values(tools), Spec.STEPS[s..])
    {
      var length := ListingLength(tools);
      if length <= Spec.TOTAL_CAP {
        return;
      }
      assert Spec.STEPS[s..][1..] == Spec.STEPS[s + 1..];
      OmitAll(tools, Spec.STEPS[s]);
    }
    CutTitles(tools);
  }
}
