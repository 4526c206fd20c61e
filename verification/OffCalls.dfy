/** Calls that name a switched-off item: `offCallItem`, `reaches` and `calledName` of agent/src/access/items.ts. */
module OffCalls {
  import opened Wrappers
  import opened Json
  import opened JsText

  datatype Kind = Skill | Subagent

  /** `on`, `off` or a tier; only `off` weighs here. */
  datatype Row = Row(source: Text, item: Text, off: bool)

  datatype Alias = Alias(key: Text, targets: seq<Text>)

  /** A plugin a turn loads: its name, its access source, its items and its aliases in order. */
  datatype Plugin = Plugin(name: Text, source: Text, items: seq<Text>, aliases: seq<Alias>)

  datatype OffItem = OffItem(source: Text, item: Text)

  /** Unicode's part: the form two agent types are compared in, and whether it is in doubt. */
  datatype Unicode = Unicode(form: Text -> Text, unsure: Text -> bool)

  const SOURCE_ITEM: Text := Ascii("*")
  const COLON_UNIT: Unit := 0x3A
  const SLASH: Unit := 0x2F

  function PrefixOf(kind: Kind): Text {
    if kind == Skill then Ascii("skill:") else Ascii("subagent:")
  }

  /** The calls that name an item: the field that names it, and its kind. */
  function CallOf(tool: Text): Option<(Text, Kind)> {
    if tool == Ascii("Skill") then Some((Ascii("skill"), Skill))
    else if tool == Ascii("Agent") || tool == Ascii("Task") then Some((Ascii("subagent_type"), Subagent))
    else None
  }

  /** The name in a call's input, when it names one. */
  function Named(tool: Text, input: Value): Option<(Kind, Text)> {
    match CallOf(tool)
    case None => None
    case Some(call) =>
      if !input.Obj? then None
      else
        match Get(input.fields, call.0)
        case Some(Str(raw)) => if CalledName(call.1, raw) == [] then None else Some((call.1, CalledName(call.1, raw)))
        case _ => None
  }

  function CalledName(kind: Kind, raw: Text): Text {
    if kind == Subagent then raw
    else
      var trimmed := Trim(raw);
      if trimmed != [] && trimmed[0] == SLASH then trimmed[1..] else trimmed
  }

  predicate Reaches(u: Unicode, kind: Kind, called: Text, name: Text) {
    called == name || (kind == Subagent && u.form(called) == u.form(name))
  }

  /** The name called, and what follows its first colon where this plugin is named before that. */
  function Spellings(u: Unicode, kind: Kind, called: Text, plugin: Text): seq<Text> {
    var at := IndexOf(called, COLON_UNIT);
    [called] + if at > 0 && Reaches(u, kind, called[..at], plugin) then [called[at + 1..]] else []
  }

  predicate AliasNamed(u: Unicode, kind: Kind, called: Text, plugin: Text, key: Text) {
    exists spelling :: spelling in Spellings(u, kind, called, plugin) && Reaches(u, kind, spelling, key)
  }

  predicate ItemNamed(u: Unicode, kind: Kind, called: Text, plugin: Text, name: Text) {
    || (kind == Subagent && u.unsure(called))
    || AliasNamed(u, kind, called, plugin, name)
    || AliasNamed(u, kind, called, plugin, plugin + [COLON_UNIT] + name)
  }

  predicate IsDirect(u: Unicode, kind: Kind, called: Text, plugin: Plugin, item: Text) {
    PrefixOf(kind) <= item && ItemNamed(u, kind, called, plugin.name, item[|PrefixOf(kind)|..])
  }

  predicate IsAlias(u: Unicode, kind: Kind, called: Text, plugin: Plugin, alias: Alias) {
    PrefixOf(kind) <= alias.key && AliasNamed(u, kind, called, plugin.name, alias.key[|PrefixOf(kind)|..])
  }

  /** What the call reaches of a plugin: an item it names, or the target of an alias it names. */
  ghost predicate ReachesItem(u: Unicode, kind: Kind, called: Text, plugin: Plugin, item: Text) {
    && item in plugin.items
    && (IsDirect(u, kind, called, plugin, item)
        || exists alias :: alias in plugin.aliases && IsAlias(u, kind, called, plugin, alias) && item in alias.targets)
  }

  predicate IsOff(rows: seq<Row>, source: Text, item: Text): (off: bool)
    ensures off <==> Row(source, item, true) in rows
  {
    exists row :: row in rows && row.source == source && row.item == item && row.off
  }

  /** Some item the call reaches of the plugin is off, or the plugin is. */
  ghost predicate RefusedBy(u: Unicode, kind: Kind, called: Text, plugin: Plugin, rows: seq<Row>) {
    exists item :: ReachesItem(u, kind, called, plugin, item)
                   && (Row(plugin.source, Ascii("*"), true) in rows || Row(plugin.source, item, true) in rows)
  }

  /** The targets that are the plugin's items. */
  function Held(items: seq<Text>, targets: seq<Text>): (held: seq<Text>)
    ensures forall t :: t in held <==> t in targets && t in items
  {
    if targets == [] then []
    else (if targets[0] in items then [targets[0]] else []) + Held(items, targets[1..])
  }

  /** The items a call names, in the plugin's order. */
  function Directs(u: Unicode, kind: Kind, called: Text, plugin: Plugin, items: seq<Text>): (r: seq<Text>)
    ensures forall item :: item in r <==> item in items && IsDirect(u, kind, called, plugin, item)
    decreases |items|
  {
    if items == [] then []
    else
      var n := |items| - 1;
      assert items == items[..n] + [items[n]];
      Directs(u, kind, called, plugin, items[..n])
      + if IsDirect(u, kind, called, plugin, items[n]) then [items[n]] else []
  }

  /** The plugin's items among the targets of the aliases a call names, in their order. */
  function Targets(u: Unicode, kind: Kind, called: Text, plugin: Plugin, aliases: seq<Alias>): (r: seq<Text>)
    ensures forall item :: item in r <==> item in plugin.items && TargetOf(u, kind, called, plugin, aliases, item)
    decreases |aliases|
  {
    if aliases == [] then []
    else
      var n := |aliases| - 1;
      assert aliases == aliases[..n] + [aliases[n]];
      Targets(u, kind, called, plugin, aliases[..n])
      + if IsAlias(u, kind, called, plugin, aliases[n]) then Held(plugin.items, aliases[n].targets) else []
  }

  ghost predicate TargetOf(u: Unicode, kind: Kind, called: Text, plugin: Plugin, aliases: seq<Alias>, item: Text) {
    exists alias :: alias in aliases && IsAlias(u, kind, called, plugin, alias) && item in alias.targets
  }

  /** What a call reaches of a plugin, in the order it is looked at. */
  function ReachedItems(u: Unicode, kind: Kind, called: Text, plugin: Plugin): (r: seq<Text>)
    ensures forall item :: item in r <==> ReachesItem(u, kind, called, plugin, item)
  {
    Directs(u, kind, called, plugin, plugin.items) + Targets(u, kind, called, plugin, plugin.aliases)
  }

  predicate FirstOff(rows: seq<Row>, source: Text, items: seq<Text>, item: Text) {
    exists k :: 0 <= k < |items| && items[k] == item && Row(source, item, true) in rows
                && forall j :: 0 <= j < k ==> Row(source, items[j], true) !in rows
  }

  /** An answer names the plugin's source, and `*` when it is off or else the first item reached that is. */
  ghost predicate Answers(u: Unicode, kind: Kind, called: Text, plugin: Plugin, rows: seq<Row>, off: OffItem) {
    var reached := ReachedItems(u, kind, called, plugin);
    && off.source == plugin.source && reached != []
    && if Row(plugin.source, Ascii("*"), true) in rows then off.item == Ascii("*")
       else FirstOff(rows, plugin.source, reached, off.item)
  }

  /** The items of one plugin that the call reaches, the direct ones first. */
  method Reached(u: Unicode, kind: Kind, called: Text, plugin: Plugin) returns (reached: seq<Text>)
    ensures reached == ReachedItems(u, kind, called, plugin)
    ensures forall item :: item in reached <==> ReachesItem(u, kind, called, plugin, item)
  {
    hide IsDirect, IsAlias, ReachesItem, Held, TargetOf;
    reached := [];
    for i := 0 to |plugin.items|
      invariant reached == Directs(u, kind, called, plugin, plugin.items[..i])
    {
      assert plugin.items[..i + 1][..i] == plugin.items[..i];
      if IsDirect(u, kind, called, plugin, plugin.items[i]) {
        reached := reached + [plugin.items[i]];
      }
    }
    assert plugin.items[..|plugin.items|] == plugin.items;
    var aliased: seq<Text> := [];
    for i := 0 to |plugin.aliases|
      invariant aliased == Targets(u, kind, called, plugin, plugin.aliases[..i])
    {
      assert plugin.aliases[..i + 1][..i] == plugin.aliases[..i];
      if IsAlias(u, kind, called, plugin, plugin.aliases[i]) {
        aliased := aliased + Held(plugin.items, plugin.aliases[i].targets);
      }
    }
    assert plugin.aliases[..|plugin.aliases|] == plugin.aliases;
    reached := reached + aliased;
  }

  /** One plugin's answer. */
  method OffOf(u: Unicode, kind: Kind, called: Text, plugin: Plugin, rows: seq<Row>) returns (off: Option<OffItem>)
    ensures off.Some? <==> RefusedBy(u, kind, called, plugin, rows)
    ensures off.Some? ==> Answers(u, kind, called, plugin, rows, off.value)
  {
    hide ReachesItem, IsOff, ReachedItems;
    var reached := Reached(u, kind, called, plugin);
    if reached == [] {
      assert forall item :: !ReachesItem(u, kind, called, plugin, item);
      return None;
    }
    assert reached[0] in reached;
    if IsOff(rows, plugin.source, SOURCE_ITEM) {
      return Some(OffItem(plugin.source, SOURCE_ITEM));
    }
    for k := 0 to |reached|
      invariant forall j :: 0 <= j < k ==> !IsOff(rows, plugin.source, reached[j])
    {
      if IsOff(rows, plugin.source, reached[k]) {
        assert reached[k] in reached;
        return Some(OffItem(plugin.source, reached[k]));
      }
    }
    off := None;
  }

  /** `offCallItem`, of the first plugin that refuses. */
  method OffCallItem(u: Unicode, tool: Text, input: Value, plugins: seq<Plugin>, rows: seq<Row>)
    returns (off: Option<OffItem>)
    ensures off.Some? <==> Refused(u, tool, input, plugins, rows)
    ensures off.Some? ==>
              var (kind, called) := Named(tool, input).value;
              exists i :: 0 <= i < |plugins|
                && Answers(u, kind, called, plugins[i], rows, off.value)
                && forall j :: 0 <= j < i ==> !RefusedBy(u, kind, called, plugins[j], rows)
  {
    hide Named, RefusedBy, Answers;
    var named := Named(tool, input);
    if named.None? {
      return None;
    }
    var (kind, called) := named.value;
    for i := 0 to |plugins|
      invariant forall j :: 0 <= j < i ==> !RefusedBy(u, kind, called, plugins[j], rows)
    {
      off := OffOf(u, kind, called, plugins[i], rows);
      if off.Some? {
        return;
      }
    }
    off := None;
  }

  /** The call names an item, and some plugin has one it reaches that is off, or is off itself. */
  ghost predicate Refused(u: Unicode, tool: Text, input: Value, plugins: seq<Plugin>, rows: seq<Row>) {
    && Named(tool, input).Some?
    && var (kind, called) := Named(tool, input).value;
       exists i :: 0 <= i < |plugins| && RefusedBy(u, kind, called, plugins[i], rows)
  }

  /** A skill is named with white space around it and one slash before it; a subagent as it is. */
  lemma SpacesAndSlashDrop(before: Text, name: Text, after: Text)
    requires Blank(before) && Blank(after) && Trimmed(name) && name != []
    ensures name[0] != SLASH ==> CalledName(Skill, before + name + after) == name
    ensures CalledName(Skill, before + ([SLASH] + name) + after) == name
    ensures CalledName(Subagent, before + name + after) == before + name + after
  {
    TrimOff(before, name, after);
    TrimOff(before, [SLASH] + name, after);
  }

  /** The calls judged, and what they name: of a skill its trimmed name without its slash, of an agent its type. */
  lemma NamedIs(tool: Text, input: Value, kind: Kind, called: Text)
    ensures Named(tool, input) == Some((kind, called)) <==>
            && called != [] && input.Obj?
            && if kind == Skill then
                 && tool == Ascii("Skill")
                 && exists raw :: Get(input.fields, Ascii("skill")) == Some(Str(raw))
                                  && (called == Trim(raw) || [0x2F] + called == Trim(raw))
                                  && (called == Trim(raw) ==> called[0] != 0x2F)
               else
                 && (tool == Ascii("Agent") || tool == Ascii("Task"))
                 && Get(input.fields, Ascii("subagent_type")) == Some(Str(called))
  {
    CallNames();
    if input.Obj? && kind == Skill && called != [] {
      match Get(input.fields, Ascii("skill"))
      case Some(Str(raw)) => SkillName(raw, called);
      case _ =>
    }
  }

  lemma CallNames()
    ensures Ascii("Skill") != Ascii("Agent") && Ascii("Skill") != Ascii("Task")
  {
    assert |Ascii("Skill")| == 5 && |Ascii("Task")| == 4;
    assert Ascii("Skill")[0] != Ascii("Agent")[0];
  }

  lemma SkillName(raw: Text, called: Text)
    requires called != []
    ensures CalledName(Skill, raw) == called <==>
            (called == Trim(raw) || [0x2F] + called == Trim(raw)) && (called == Trim(raw) ==> called[0] != 0x2F)
  {
    var trimmed := Trim(raw);
    if trimmed != [] && trimmed[0] == 0x2F {
      assert trimmed == [0x2F] + trimmed[1..];
    }
  }

  /* ---- which items a call names ---- */

  /** Skills are compared as they are, agent types by their form. */
  ghost predicate Same(u: Unicode, kind: Kind, a: Text, b: Text) {
    match kind
    case Skill => a == b
    case Subagent => u.form(a) == u.form(b)
  }

  /** A name the call gives: all of it, or what follows `<plugin>:`. */
  ghost predicate Spelled(u: Unicode, kind: Kind, called: Text, plugin: Text, spelling: Text) {
    || spelling == called
    || exists head ::
         head != [] && 0x3A !in head && called == head + ([0x3A] + spelling) && Same(u, kind, head, plugin)
  }

  /** `id` is of the kind, and `name` follows that. */
  ghost predicate IdOf(kind: Kind, id: Text, name: Text) {
    match kind
    case Skill => id == Ascii("skill:") + name
    case Subagent => id == Ascii("subagent:") + name
  }

  ghost predicate NamesKey(u: Unicode, kind: Kind, called: Text, plugin: Text, key: Text) {
    exists name, spelling ::
      IdOf(kind, key, name) && Spelled(u, kind, called, plugin, spelling) && Same(u, kind, spelling, name)
  }

  ghost predicate NamesItem(u: Unicode, kind: Kind, called: Text, plugin: Text, item: Text) {
    exists name, spelling ::
      && IdOf(kind, item, name) && Spelled(u, kind, called, plugin, spelling)
      && (Same(u, kind, spelling, name) || Same(u, kind, spelling, plugin + ([0x3A] + name)))
  }

  lemma SpellingsAre(u: Unicode, kind: Kind, called: Text, plugin: Text, spelling: Text)
    ensures spelling in Spellings(u, kind, called, plugin) <==> Spelled(u, kind, called, plugin, spelling)
  {
    var at := IndexOf(called, COLON_UNIT);
    if at > 0 && called[at + 1..] == spelling {
      assert called == called[..at] + ([0x3A] + spelling);
    }
    forall head | head != [] && 0x3A !in head && called == head + ([0x3A] + spelling)
      ensures at == |head| && called[..at] == head && called[at + 1..] == spelling
    {
      assert called[..|head|] == head;
      IndexIs(called, COLON_UNIT, |head|);
    }
  }

  /** The names an id holds, of which there is one at most. */
  lemma IdIs(kind: Kind, id: Text)
    ensures forall name :: IdOf(kind, id, name) <==> PrefixOf(kind) <= id && name == id[|PrefixOf(kind)|..]
  {
    var prefix := PrefixOf(kind);
    forall name
      ensures id == prefix + name <==> prefix <= id && name == id[|prefix|..]
    {
    }
  }

  lemma KeyIff(u: Unicode, kind: Kind, called: Text, plugin: Text, key: Text)
    ensures NamesKey(u, kind, called, plugin, key) <==>
            PrefixOf(kind) <= key && AliasNamed(u, kind, called, plugin, key[|PrefixOf(kind)|..])
  {
    hide Spellings, Spelled, PrefixOf, IdOf;
    IdIs(kind, key);
    forall spelling
      ensures spelling in Spellings(u, kind, called, plugin) <==> Spelled(u, kind, called, plugin, spelling)
    {
      SpellingsAre(u, kind, called, plugin, spelling);
    }
    if PrefixOf(kind) <= key {
      assert IdOf(kind, key, key[|PrefixOf(kind)|..]);
    }
  }

  lemma ItemIff(u: Unicode, kind: Kind, called: Text, plugin: Text, item: Text)
    ensures NamesItem(u, kind, called, plugin, item) <==>
            && PrefixOf(kind) <= item
            && var name := item[|PrefixOf(kind)|..];
               || AliasNamed(u, kind, called, plugin, name)
               || AliasNamed(u, kind, called, plugin, plugin + ([0x3A] + name))
  {
    hide Spellings, Spelled, PrefixOf, IdOf;
    IdIs(kind, item);
    forall spelling
      ensures spelling in Spellings(u, kind, called, plugin) <==> Spelled(u, kind, called, plugin, spelling)
    {
      SpellingsAre(u, kind, called, plugin, spelling);
    }
    if PrefixOf(kind) <= item {
      assert IdOf(kind, item, item[|PrefixOf(kind)|..]);
    }
  }

  /** Exactly the items and the aliases a call names; one whose type is in doubt names every subagent. */
  lemma NamesIff(u: Unicode, kind: Kind, called: Text, plugin: Plugin, alias: Alias, item: Text)
    ensures IsAlias(u, kind, called, plugin, alias) <==> NamesKey(u, kind, called, plugin.name, alias.key)
    ensures IsDirect(u, kind, called, plugin, item) <==>
            || (kind == Subagent && u.unsure(called) && Ascii("subagent:") <= item)
            || NamesItem(u, kind, called, plugin.name, item)
  {
    hide NamesKey, NamesItem, AliasNamed, Ascii;
    KeyIff(u, kind, called, plugin.name, alias.key);
    ItemIff(u, kind, called, plugin.name, item);
    if PrefixOf(kind) <= item {
      var name := item[|PrefixOf(kind)|..];
      assert plugin.name + [COLON_UNIT] + name == plugin.name + ([0x3A] + name);
    }
  }

  /* ---- it fails closed ---- */

  /** More off rows, or more plugins, never allow a refused call. */
  lemma MoreOffRefusesMore(
    u: Unicode, tool: Text, input: Value, plugins: seq<Plugin>, rows: seq<Row>,
    plugins2: seq<Plugin>, rows2: seq<Row>)
    requires Refused(u, tool, input, plugins, rows)
    requires forall row :: row in rows && row.off ==> row in rows2
    requires forall plugin :: plugin in plugins ==> plugin in plugins2
    ensures Refused(u, tool, input, plugins2, rows2)
  {
    hide Named, ReachesItem;
    var (kind, called) := Named(tool, input).value;
    var i :| 0 <= i < |plugins| && RefusedBy(u, kind, called, plugins[i], rows);
    assert plugins[i] in plugins2;
    var j :| 0 <= j < |plugins2| && plugins2[j] == plugins[i];
    assert RefusedBy(u, kind, called, plugins2[j], rows2);
  }

  /** Rows that are not off change nothing. */
  lemma OnlyOffRowsWeigh(u: Unicode, tool: Text, input: Value, plugins: seq<Plugin>, rows: seq<Row>, rows2: seq<Row>)
    requires forall row: Row :: row.off ==> (row in rows <==> row in rows2)
    ensures Refused(u, tool, input, plugins, rows) <==> Refused(u, tool, input, plugins, rows2)
  {
  }

  /** An agent type the runtimes might fold apart reaches every subagent the plugin has. */
  lemma UnsureReachesEvery(u: Unicode, called: Text, plugin: Plugin, item: Text)
    requires u.unsure(called) && item in plugin.items && PrefixOf(Subagent) <= item
    ensures ReachesItem(u, Subagent, called, plugin, item)
  {
  }

  /** An item that is off is refused by its own name, by `<plugin>:<name>`, and by either in another form. */
  lemma OffByAnySpelling(u: Unicode, kind: Kind, plugin: Plugin, name: Text, called: Text, rows: seq<Row>)
    requires PrefixOf(kind) + name in plugin.items
    requires IsOff(rows, plugin.source, PrefixOf(kind) + name) || IsOff(rows, plugin.source, SOURCE_ITEM)
    requires Reaches(u, kind, called, name) || Reaches(u, kind, called, plugin.name + [COLON_UNIT] + name)
    ensures RefusedBy(u, kind, called, plugin, rows)
  {
    var item := PrefixOf(kind) + name;
    assert item[|PrefixOf(kind)|..] == name;
    assert called in Spellings(u, kind, called, plugin.name);
    assert IsDirect(u, kind, called, plugin, item) by {
      hide PrefixOf, Spellings, IsOff;
    }
    assert ReachesItem(u, kind, called, plugin, item);
  }

  /** A subagent `<form of the plugin>:<name in its form>` reaches the item too. */
  lemma QualifiedReaches(u: Unicode, kind: Kind, plugin: Plugin, name: Text, head: Text, rest: Text)
    requires PrefixOf(kind) + name in plugin.items
    requires head != [] && COLON_UNIT !in head && Reaches(u, kind, head, plugin.name) && Reaches(u, kind, rest, name)
    ensures ReachesItem(u, kind, head + [COLON_UNIT] + rest, plugin, PrefixOf(kind) + name)
  {
    var called := head + [COLON_UNIT] + rest;
    var item := PrefixOf(kind) + name;
    assert item[|PrefixOf(kind)|..] == name;
    assert called[..|head|] == head && called[|head| + 1..] == rest;
    IndexIs(called, COLON_UNIT, |head|);
    assert Spellings(u, kind, called, plugin.name)[1] == rest;
    assert rest in Spellings(u, kind, called, plugin.name);
    assert IsDirect(u, kind, called, plugin, item) by {
      hide PrefixOf, Spellings;
    }
  }
}
