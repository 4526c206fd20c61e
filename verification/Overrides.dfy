/**
 * The registry tools' access: `toolAccess`, `sourceEnabled`, `itemOverrides` and `registryOverrides` of
 * agent/src/access/resolve.ts.
 */
module Overrides {
  import opened Wrappers
  import opened Json
  import opened TextOrder

  datatype Tier = Read | Write | Outward

  datatype ToolAccess = Off | At(tier: Tier)

  /** What a row holds: a tool's access, `on`, or text that is neither. */
  datatype RowAccess = Tool(access: ToolAccess) | On | Unknown

  /** `migrated`: written by the migration that copied the old overrides. */
  datatype Row = Row(source: Text, item: Text, access: RowAccess, migrated: bool)

  datatype Registered = Registered(name: Text, risk: Tier)

  /** The stored overrides: tiers that differ from the tool's own, and tools that are off. */
  datatype Stored = Stored(tiers: map<Text, Tier>, disabled: seq<Text>)

  const SOURCE_ITEM: Text := [0x2A]
  const BROWSER: Text := Ascii("builtin:browser")
  const SCADBUDDY: Text := Ascii("builtin:scadbuddy")
  const BROWSER_PREFIX: Text := Ascii("browser_")

  function Rank(t: Tier): int {
    match t
    case Read => 0
    case Write => 1
    case Outward => 2
  }

  function RegistrySource(tool: Text): Text {
    if BROWSER_PREFIX <= tool then BROWSER else SCADBUDDY
  }

  function Find(rows: seq<Row>, source: Text, item: Text): Option<Row> {
    if rows == [] then None
    else if rows[0].source == source && rows[0].item == item then Some(rows[0])
    else Find(rows[1..], source, item)
  }

  function Access(declared: Tier, row: Option<Row>, migratedRaisesOnly: bool): ToolAccess {
    if row.None? || !row.value.access.Tool? then At(declared)
    else
      var access := row.value.access.access;
      if migratedRaisesOnly && row.value.migrated && access != Off then
        if Rank(access.tier) > Rank(declared) then access else At(declared)
      else access
  }

  /** `enabledByDefault` of a built-in source is true. */
  predicate BrowserEnabled(rows: seq<Row>) {
    var row := Find(rows, BROWSER, SOURCE_ITEM);
    !(row.Some? && row.value.access == Tool(Off))
  }

  function OwnAccess(tool: Registered, rows: seq<Row>): ToolAccess {
    Access(tool.risk, Find(rows, RegistrySource(tool.name), tool.name), true)
  }

  /** A tool's access with its source's switch folded in. */
  function Folded(tool: Registered, rows: seq<Row>): ToolAccess {
    if RegistrySource(tool.name) == BROWSER && !BrowserEnabled(rows) then Off else OwnAccess(tool, rows)
  }

  /** An access as the gates read it back from the overrides. */
  function ReadBack(o: Stored, tool: Registered): ToolAccess {
    if tool.name in o.disabled then Off
    else if tool.name in o.tiers then At(o.tiers[tool.name])
    else At(tool.risk)
  }

  function NameOf(tool: Registered): Text {
    tool.name
  }

  function Itself(name: Text): Text {
    name
  }

  predicate DistinctNames(tools: seq<Registered>) {
    Distinct(tools, NameOf)
  }

  /** What the overrides store for the tools: the tiers that differ from the tool's own, and each `off`. */
  ghost predicate Stores(o: Stored, tools: seq<Registered>, access: Registered -> ToolAccess) {
    && (forall tool :: tool in tools ==> ReadBack(o, tool) == access(tool))
    && (forall name :: name in o.disabled ==> exists tool :: tool in tools && tool.name == name && access(tool) == Off)
    && (forall name :: name in o.tiers ==>
          exists tool ::
            tool in tools && tool.name == name && access(tool) == At(o.tiers[name]) && o.tiers[name] != tool.risk)
  }

  /** The overrides with one more tool's access stored, where it is not the tool's own tier. */
  function Storing(o: Stored, tool: Registered, access: ToolAccess): Stored {
    if access == Off then o.(disabled := o.disabled + [tool.name])
    else if access != At(tool.risk) then o.(tiers := o.tiers[tool.name := access.tier])
    else o
  }

  /** `itemOverrides`: each tool's own access, no switch folded in; the tools off in order of name. */
  method ItemOverrides(tools: seq<Registered>, rows: seq<Row>) returns (o: Stored)
    requires DistinctNames(tools)
    ensures Stores(o, tools, tool => OwnAccess(tool, rows)) && Ordered(o.disabled, Itself)
  {
    hide Access, Find, RegistrySource, Less, Sorted, Stores;
    ghost var own := (tool: Registered) => OwnAccess(tool, rows);
    var sorted := Sorted(tools, NameOf);
    SortedTools(tools, sorted);
    o := Stored(map[], []);
    NoneStored(own);
    for i := 0 to |sorted|
      invariant Stores(o, sorted[..i], own) && Ordered(o.disabled, Itself)
    {
      var tool := sorted[i];
      var access := OwnAccess(tool, rows);
      ghost var before := o;
      DisabledBelow(o, sorted, i, own);
      if access == Off {
        o := o.(disabled := o.disabled + [tool.name]);
      } else if access != At(tool.risk) {
        o := o.(tiers := o.tiers[tool.name := access.tier]);
      }
      StoresSnoc(before, o, sorted, i, own);
    }
    assert sorted[..|sorted|] == sorted;
    StoresSame(o, sorted, tools, own);
  }

  lemma SortedTools(tools: seq<Registered>, sorted: seq<Registered>)
    requires DistinctNames(tools) && sorted == Sorted(tools, NameOf)
    ensures Ordered(sorted, NameOf) && DistinctNames(sorted)
    ensures forall tool :: tool in sorted <==> tool in tools
  {
    hide Less, Sorted;
    SortedIs(tools, NameOf);
    forall i, j | 0 <= i < j < |sorted|
      ensures NameOf(sorted[i]) != NameOf(sorted[j])
    {
      LessTotal(sorted[i].name, sorted[j].name);
      assert Less(NameOf(sorted[i]), NameOf(sorted[j]));
    }
  }

  lemma NoneStored(access: Registered -> ToolAccess)
    ensures Stores(Stored(map[], []), [], access) && Ordered<Text>([], Itself)
  {
  }

  lemma StoresSame(o: Stored, tools: seq<Registered>, same: seq<Registered>, access: Registered -> ToolAccess)
    requires Stores(o, tools, access) && forall tool :: tool in tools <==> tool in same
    ensures Stores(o, same, access)
  {
  }

  /** What is stored so far comes before the next tool. */
  lemma DisabledBelow(o: Stored, sorted: seq<Registered>, i: nat, access: Registered -> ToolAccess)
    requires i < |sorted| && Ordered(sorted, NameOf) && Stores(o, sorted[..i], access) && Ordered(o.disabled, Itself)
    ensures Ordered(o.disabled + [sorted[i].name], Itself)
  {
    hide Less, ReadBack;
    forall k | 0 <= k < |o.disabled|
      ensures Less(o.disabled[k], sorted[i].name)
    {
      assert o.disabled[k] in o.disabled;
      var tool :| tool in sorted[..i] && tool.name == o.disabled[k];
      var j :| 0 <= j < i && sorted[j] == tool;
      assert Less(NameOf(sorted[j]), NameOf(sorted[i]));
    }
  }

  lemma StoresSnoc(before: Stored, o: Stored, tools: seq<Registered>, i: nat, access: Registered -> ToolAccess)
    requires i < |tools| && DistinctNames(tools) && Stores(before, tools[..i], access)
    requires o == Storing(before, tools[i], access(tools[i]))
    ensures Stores(o, tools[..i + 1], access)
  {
    var shorter, longer, tool := tools[..i], tools[..i + 1], tools[i];
    assert longer == shorter + [tool];
    assert forall t :: t in shorter ==> t in longer;
    assert tool in longer;
    forall t | t in shorter
      ensures t.name != tool.name
    {
      var j :| 0 <= j < i && tools[j] == t;
    }
    ReadsNext(before, o, shorter, longer, tool, access);
    StoredFrom(before, o, shorter, longer, tool, access);
  }

  lemma ReadsNext(
    before: Stored, o: Stored, shorter: seq<Registered>, longer: seq<Registered>, tool: Registered,
    access: Registered -> ToolAccess)
    requires Stores(before, shorter, access) && longer == shorter + [tool]
    requires forall t :: t in shorter ==> t.name != tool.name
    requires o == Storing(before, tool, access(tool))
    ensures forall t :: t in longer ==> ReadBack(o, t) == access(t)
  {
  }

  /** What is stored is some tool's, of those before or of this one. */
  lemma StoredFrom(
    before: Stored, o: Stored, shorter: seq<Registered>, longer: seq<Registered>, tool: Registered,
    access: Registered -> ToolAccess)
    requires Stores(before, shorter, access) && tool in longer && forall t :: t in shorter ==> t in longer
    requires o == Storing(before, tool, access(tool))
    ensures forall name :: name in o.disabled ==> exists t :: t in longer && t.name == name && access(t) == Off
    ensures forall name :: name in o.tiers ==>
              exists t :: t in longer && t.name == name && access(t) == At(o.tiers[name]) && o.tiers[name] != t.risk
  {
  }

  /** `registryOverrides`: read back, each tool's access with the browser's switch folded in. */
  method RegistryOverrides(tools: seq<Registered>, rows: seq<Row>) returns (o: Stored)
    requires DistinctNames(tools)
    ensures Stores(o, tools, tool => Folded(tool, rows)) && Ordered(o.disabled, Itself)
  {
    hide OwnAccess, Folded, ReadBack, Less, Sorted;
    var own := ItemOverrides(tools, rows);
    if BrowserEnabled(rows) {
      EnabledFolded(own, tools, rows);
      return own;
    }
    var tiers := map name | name in own.tiers && RegistrySource(name) != BROWSER :: own.tiers[name];
    OrderedDistinct(own.disabled);
    var disabled := WithBrowsers(own.disabled, tools);
    SortedIs(disabled, Itself);
    o := Stored(tiers, Sorted(disabled, Itself));
    BrowserFolded(own, o, tools, rows);
  }

  lemma OrderedDistinct(names: seq<Text>)
    requires Ordered(names, Itself)
    ensures Distinct(names, Itself)
  {
    forall i, j | 0 <= i < j < |names|
      ensures Itself(names[i]) != Itself(names[j])
    {
      LessTotal(names[i], names[j]);
      assert Less(Itself(names[i]), Itself(names[j]));
    }
  }

  ghost predicate BrowserTool(tools: seq<Registered>, name: Text) {
    exists tool :: tool in tools && RegistrySource(tool.name) == BROWSER && tool.name == name
  }

  /** A set: the names, and each browser tool's that is not among them. */
  method WithBrowsers(names: seq<Text>, tools: seq<Registered>) returns (r: seq<Text>)
    requires Distinct(names, Itself)
    ensures Distinct(r, Itself) && forall name :: name in r <==> name in names || BrowserTool(tools, name)
  {
    hide RegistrySource;
    r := names;
    for i := 0 to |tools|
      invariant Distinct(r, Itself)
      invariant forall name :: name in r <==> name in names || BrowserTool(tools[..i], name)
    {
      assert tools[..i + 1] == tools[..i] + [tools[i]];
      if RegistrySource(tools[i].name) == BROWSER && tools[i].name !in r {
        r := r + [tools[i].name];
      }
    }
    assert tools[..|tools|] == tools;
  }

  lemma EnabledFolded(own: Stored, tools: seq<Registered>, rows: seq<Row>)
    requires Stores(own, tools, tool => OwnAccess(tool, rows)) && BrowserEnabled(rows)
    ensures Stores(own, tools, tool => Folded(tool, rows))
  {
  }

  lemma BrowserFolded(own: Stored, o: Stored, tools: seq<Registered>, rows: seq<Row>)
    requires Stores(own, tools, tool => OwnAccess(tool, rows)) && !BrowserEnabled(rows)
    requires o.tiers == map name | name in own.tiers && RegistrySource(name) != BROWSER :: own.tiers[name]
    requires forall name :: name in o.disabled <==> name in own.disabled || BrowserTool(tools, name)
    ensures Stores(o, tools, tool => Folded(tool, rows))
  {
    hide OwnAccess, RegistrySource, BrowserEnabled;
    var folded := (tool: Registered) => Folded(tool, rows);
    forall tool | tool in tools
      ensures ReadBack(o, tool) == folded(tool)
    {
      assert ReadBack(own, tool) == OwnAccess(tool, rows);
      if BrowserTool(tools, tool.name) {
        var other :| other in tools && RegistrySource(other.name) == BROWSER && other.name == tool.name;
      }
    }
    forall name | name in o.disabled
      ensures exists tool :: tool in tools && tool.name == name && folded(tool) == Off
    {
      if name in own.disabled {
        var tool :| tool in tools && tool.name == name && OwnAccess(tool, rows) == Off;
        assert folded(tool) == Off;
      } else {
        var tool :| tool in tools && RegistrySource(tool.name) == BROWSER && tool.name == name;
        assert folded(tool) == Off;
      }
    }
    forall name | name in o.tiers
      ensures exists tool ::
                tool in tools && tool.name == name && folded(tool) == At(o.tiers[name]) && o.tiers[name] != tool.risk
    {
      var tool :| tool in tools && tool.name == name
                  && OwnAccess(tool, rows) == At(own.tiers[name]) && own.tiers[name] != tool.risk;
      assert folded(tool) == At(o.tiers[name]);
    }
  }

  /**
   * A tool's access: off with the browser's switch where it is the browser's, else what its row says, or its
   * declared tier where it has no row, or one that says neither; a copied row's tier counts only above that.
   */
  lemma FoldedIs(tool: Registered, rows: seq<Row>)
    ensures var browser := Ascii("browser_") <= tool.name;
            var row := Find(rows, if browser then Ascii("builtin:browser") else Ascii("builtin:scadbuddy"), tool.name);
            var switch := Find(rows, Ascii("builtin:browser"), [0x2A]);
            Folded(tool, rows)
            == if browser && switch.Some? && switch.value.access == Tool(Off) then Off
               else if row.None? || !row.value.access.Tool? then At(tool.risk)
               else if row.value.access == Tool(Off) || !row.value.migrated then row.value.access.access
               else if tool.risk == Read || row.value.access == Tool(At(Outward)) then row.value.access.access
               else At(tool.risk)
  {
    SourcesDiffer();
  }

  lemma SourcesDiffer()
    ensures Ascii("builtin:browser") != Ascii("builtin:scadbuddy")
  {
    assert Ascii("builtin:browser")[8] != Ascii("builtin:scadbuddy")[8];
  }

  /** The row of a tool in a source, where there is one. */
  lemma {:induction false} FindIs(rows: seq<Row>, source: Text, item: Text)
    ensures Find(rows, source, item).None? <==>
            forall row :: row in rows ==> row.source != source || row.item != item
    ensures Find(rows, source, item).Some? ==>
              var row := Find(rows, source, item).value; row in rows && row.source == source && row.item == item
  {
    if rows != [] {
      assert rows == [rows[0]] + rows[1..];
      FindIs(rows[1..], source, item);
    }
  }

  /** A copied row never lowers a tool's gate below its declared tier; any other row decides outright. */
  lemma MigratedOnlyRaises(declared: Tier, row: Row)
    ensures var access := Access(declared, Some(row), true);
            && (row.migrated && access.At? ==> Rank(access.tier) >= Rank(declared))
            && (!row.migrated && row.access.Tool? ==> access == row.access.access)
            && (row.access == Tool(Off) ==> access == Off)
  {
  }
}
