/** The stored tool listings of agent/src/access/listings.ts: `toStoredTools` and what it calls. */
module Listings {
  import opened Wrappers
  import opened Json

  const TOOLS_CAP := 512
  const NAME_CAP := 128
  const TITLE_CAP := 1_024
  const DESCRIPTION_CAP := 8_192
  const SCHEMA_CAP := 65_536
  const OTHER_CAP := 16_384
  const TOTAL_CAP := 2_097_152

  const NAME: Text := [0x6E, 0x61, 0x6D, 0x65]
  const TITLE: Text := [0x74, 0x69, 0x74, 0x6C, 0x65]
  const DESCRIPTION: Text := [0x64, 0x65, 0x73, 0x63, 0x72, 0x69, 0x70, 0x74, 0x69, 0x6F, 0x6E]
  const INPUT_SCHEMA: Text := [0x69, 0x6E, 0x70, 0x75, 0x74, 0x53, 0x63, 0x68, 0x65, 0x6D, 0x61]
  const OUTPUT_SCHEMA: Text := [0x6F, 0x75, 0x74, 0x70, 0x75, 0x74, 0x53, 0x63, 0x68, 0x65, 0x6D, 0x61]
  const ANNOTATIONS: Text := [0x61, 0x6E, 0x6E, 0x6F, 0x74, 0x61, 0x74, 0x69, 0x6F, 0x6E, 0x73]

  const RAW: Text := [0x72, 0x61, 0x77]
  const OMITTED_KEY: Text := [0x6F, 0x6D, 0x69, 0x74, 0x74, 0x65, 0x64]

  datatype Omitted = Description | InputSchema | OutputSchema | Other | Title | Annotations | Keys

  const OMITTED: seq<Omitted> := [Description, InputSchema, OutputSchema, Other, Title, Annotations, Keys]

  function Label(o: Omitted): Text {
    match o
    case Description => DESCRIPTION
    case InputSchema => INPUT_SCHEMA
    case OutputSchema => OUTPUT_SCHEMA
    case Other => [0x6F, 0x74, 0x68, 0x65, 0x72]
    case Title => TITLE
    case Annotations => ANNOTATIONS
    case Keys => [0x6B, 0x65, 0x79, 0x73]
  }

  predicate Known(key: Text) {
    key == NAME || key == TITLE || key == DESCRIPTION || key == INPUT_SCHEMA
    || key == OUTPUT_SCHEMA || key == ANNOTATIONS
  }

  /** What the removal of `key` is named as; a name is never removed. */
  function NamedAs(key: Text): Omitted
    requires key != NAME
  {
    if key == TITLE then Title
    else if key == DESCRIPTION then Description
    else if key == INPUT_SCHEMA then InputSchema
    else if key == OUTPUT_SCHEMA then OutputSchema
    else if key == ANNOTATIONS then Annotations
    else Other
  }

  /* ---- objects ---- */

  function KeysOf(fields: seq<Field>): set<Text> {
    set f | f in fields :: f.key
  }

  function KeySeq(fields: seq<Field>): (r: seq<Text>)
    ensures |r| == |fields|
  {
    seq(|fields|, i requires 0 <= i < |fields| => fields[i].key)
  }

  function Without(fields: seq<Field>, gone: set<Text>): seq<Field> {
    if fields == [] then []
    else (if fields[0].key in gone then [] else [fields[0]]) + Without(fields[1..], gone)
  }

  /** `value` assigned to the property `key`, which keeps its place. */
  function With(fields: seq<Field>, key: Text, value: Value): seq<Field> {
    if fields == [] then []
    else [if fields[0].key == key then Field(key, value) else fields[0]] + With(fields[1..], key, value)
  }

  function Others(fields: seq<Field>): seq<Field> {
    if fields == [] then []
    else (if Known(fields[0].key) then [] else [fields[0]]) + Others(fields[1..])
  }

  /* ---- clean ---- */

  /** What jsonb accepts: no lone surrogate, no NUL. */
  function Storable(text: Text): (t: Text)
    ensures |t| == |text|
  {
    ReplaceNul(ToWellFormed(text))
  }

  datatype Cleaned = Cleaned(value: Value, lost: bool)
  datatype CleanedItems = CleanedItems(items: seq<Value>, lost: bool)
  datatype CleanedFields = CleanedFields(fields: seq<Field>, lost: bool)

  function Clean(v: Value): Cleaned
    decreases v, 1
  {
    match v
    case Str(text) => Cleaned(Str(Storable(text)), false)
    case Arr(items) => var c := CleanItems(items); Cleaned(Arr(c.items), c.lost)
    case Obj(fields) => var c := CleanFields(fields, {}); Cleaned(Obj(c.fields), c.lost)
    case _ => Cleaned(v, false)
  }

  function CleanItems(items: seq<Value>): CleanedItems
    decreases items, 0
  {
    if items == [] then CleanedItems([], false)
    else
      var first, rest := Clean(items[0]), CleanItems(items[1..]);
      CleanedItems([first.value] + rest.items, first.lost || rest.lost)
  }

  /** Of keys that become equal the first is kept; `seen` holds those kept so far. */
  function CleanFields(fields: seq<Field>, seen: set<Text>): CleanedFields
    decreases fields, 0
  {
    if fields == [] then CleanedFields([], false)
    else
      var key := Storable(fields[0].key);
      if key in seen then CleanedFields(CleanFields(fields[1..], seen).fields, true)
      else
        var first, rest := Clean(fields[0].value), CleanFields(fields[1..], seen + {key});
        CleanedFields([Field(key, first.value)] + rest.fields, first.lost || rest.lost)
  }

  /** `cut`: a prefix of at most `max` units; where it would end between the halves of a pair, the half is replaced. */
  function Cut(text: Text, max: nat): Text {
    ToWellFormed(if |text| <= max then text else text[..max])
  }

  /* ---- one tool ---- */

  datatype Stored = Stored(raw: seq<Field>, omitted: seq<Omitted>)

  /** `omit`: the keys removed, and named once. */
  function Omit(t: Stored, keys: set<Text>, name: Omitted): Stored {
    if keys * KeysOf(t.raw) == {} then t
    else
      Stored(Without(t.raw, keys), if name in t.omitted then t.omitted else t.omitted + [name])
  }

  /** `capText`: a string over `max` cut, a value that is no string removed when its JSON is over it. */
  function CapText(t: Stored, key: Text, name: Omitted, max: nat): Stored {
    match Get(t.raw, key)
    case None => t
    case Some(Str(text)) =>
      if |text| > max then Stored(With(t.raw, key, Str(Cut(text, max))), t.omitted + [name]) else t
    case Some(value) => if Length(value) > max then Omit(t, {key}, name) else t
  }

  function CapValue(t: Stored, key: Text, name: Omitted, max: nat): Stored {
    var value := Get(t.raw, key);
    if value.Some? && Length(value.value) > max then Omit(t, {key}, name) else t
  }

  function CapOthers(t: Stored): Stored {
    var others := Others(t.raw);
    if others != [] && Length(Obj(others)) > OTHER_CAP then Omit(t, KeysOf(others), Other) else t
  }

  function CapEntry(entry: seq<Field>): Stored {
    var c := CleanFields(entry, {});
    var t0 := Stored(c.fields, if c.lost then [Keys] else []);
    var t1 := CapText(t0, DESCRIPTION, Description, DESCRIPTION_CAP);
    var t2 := CapText(t1, TITLE, Title, TITLE_CAP);
    var t3 := CapValue(t2, INPUT_SCHEMA, InputSchema, SCHEMA_CAP);
    var t4 := CapValue(t3, OUTPUT_SCHEMA, OutputSchema, SCHEMA_CAP);
    CapValue(CapOthers(t4), ANNOTATIONS, Annotations, OTHER_CAP)
  }

  /* ---- the listing ---- */

  /** The name the entry can be given an access by. */
  predicate Accepted(entry: Value) {
    && entry.Obj?
    && Get(entry.fields, NAME).Some? && Get(entry.fields, NAME).value.Str?
    && |Get(entry.fields, NAME).value.text| <= NAME_CAP
  }

  function AcceptedEntries(entries: seq<Value>): (r: seq<Value>)
    ensures |r| <= |entries|
    ensures forall e :: e in r ==> Accepted(e)
  {
    if entries == [] then []
    else (if Accepted(entries[0]) then [entries[0]] else []) + AcceptedEntries(entries[1..])
  }

  function Kept(entries: seq<Value>): (r: seq<Value>)
    ensures |r| <= TOOLS_CAP
    ensures forall e :: e in r ==> Accepted(e)
  {
    var accepted := AcceptedEntries(entries);
    if |accepted| <= TOOLS_CAP then accepted else accepted[..TOOLS_CAP]
  }

  function Labels(omitted: seq<Omitted>): (r: seq<Value>)
    ensures |r| == |omitted|
  {
    seq(|omitted|, i requires 0 <= i < |omitted| => Str(Label(omitted[i])))
  }

  function ToolJson(t: Stored): Value {
    Obj([Field(RAW, Obj(t.raw)), Field(OMITTED_KEY, Arr(Labels(t.omitted)))])
  }

  function ToolLength(t: Stored): nat {
    Length(ToolJson(t))
  }

  function Sum(tools: seq<Stored>): nat {
    if tools == [] then 0 else ToolLength(tools[0]) + Sum(tools[1..])
  }

  /** The brackets and the commas of a listing of `n` tools. */
  function Frame(n: nat): nat {
    2 + if n == 0 then 0 else n - 1
  }

  function ListingLength(tools: seq<Stored>): nat {
    Frame(|tools|) + Sum(tools)
  }

  /** The tool with its name only, everything named as omitted: the most a stub can take. */
  function Bare(t: Stored): Stored {
    Stored(if Get(t.raw, NAME).Some? then [Field(NAME, Get(t.raw, NAME).value)] else [], OMITTED)
  }

  function Bares(tools: seq<Stored>): seq<Stored> {
    seq(|tools|, i requires 0 <= i < |tools| => Bare(tools[i]))
  }

  /** A step of the whole listing's cap: which keys it removes from a tool, and as what. */
  function StepKeys(t: Stored, step: Omitted): set<Text> {
    match step
    case Other => KeysOf(Others(t.raw))
    case OutputSchema => {OUTPUT_SCHEMA}
    case InputSchema => {INPUT_SCHEMA}
    case Annotations => {ANNOTATIONS}
    case Description => {DESCRIPTION}
    case _ => {}
  }

  const STEPS: seq<Omitted> := [Other, OutputSchema, InputSchema, Annotations, Description]

  function OmitAll(tools: seq<Stored>, step: Omitted): seq<Stored> {
    seq(|tools|, i requires 0 <= i < |tools| => Omit(tools[i], StepKeys(tools[i], step), step))
  }

  /** The listing after the steps it needs, and whether they were enough. */
  function Stepped(tools: seq<Stored>, steps: seq<Omitted>): (r: (seq<Stored>, bool))
    ensures |r.0| == |tools|
    decreases |steps|
  {
    if steps == [] then (tools, false)
    else if ListingLength(tools) <= TOTAL_CAP then (tools, true)
    else Stepped(OmitAll(tools, steps[0]), steps[1..])
  }

  /** From the first tool whose title does not fit beside the names after it, titles go. */
  function FirstOver(full: seq<Stored>, bare: seq<Stored>, i: nat): (r: nat)
    requires |full| == |bare| && i <= |full|
    ensures i <= r <= |full|
    decreases |full| - i
  {
    if i == |full| then i
    else if Sum(full[..i + 1]) + Frame(|full|) + Sum(bare[i + 1..]) > TOTAL_CAP then i
    else FirstOver(full, bare, i + 1)
  }

  function CutTitles(tools: seq<Stored>): (r: seq<Stored>)
    ensures |r| == |tools|
  {
    var first := FirstOver(tools, Bares(tools), 0);
    seq(|tools|, i requires 0 <= i < |tools| =>
      if i < first then tools[i] else Omit(tools[i], {TITLE}, Title))
  }

  function Capped(entries: seq<Value>): (r: seq<Stored>)
    ensures |r| == |Kept(entries)|
  {
    var kept := Kept(entries);
    seq(|kept|, i requires 0 <= i < |kept| =>
      assert kept[i] in kept; CapEntry(kept[i].fields))
  }

  function ToStored(entries: seq<Value>): (r: seq<Stored>)
    ensures |r| == |Kept(entries)|
  {
    var (tools, enough) := Stepped(Capped(entries), STEPS);
    if enough then tools else CutTitles(tools)
  }
}
