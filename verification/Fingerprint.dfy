/** The agent-version fingerprint: what is hashed, and the key under which the hash is remembered. */
module Fingerprint {
  import opened Base
  import opened JsonValues
  import opened JsOrder
  import opened CanonicalJson
  import Words

  /** An argument given as text, as a value, or not at all. */
  datatype Given = Absent | Plain(text: string) | Structured(value: Json)

  /** The runtime configuration; a number that is missing or not finite is None. */
  datatype Settings = Settings(temperature: Option<real>, topP: Option<real>, maxTokens: Option<real>, provider: string)

  datatype Args = Args(instructions: Given, tools: Given, model: string, config: Option<Settings>,
                       providers: seq<string>)

  /** JSON.stringify, JSON.parse (None where it throws), and JSON.stringify of a configuration. */
  datatype Codec = Codec(stringify: Json -> string, parse: string -> Option<Json>, settingsText: Settings -> string)

  /** \s of a regular expression, which is also what trim() removes. */
  predicate JsSpace(c: char) {
    || '\U{9}' <= c <= '\U{D}' || c == ' ' || c == '\U{A0}' || c == '\U{1680}' || '\U{2000}' <= c <= '\U{200A}'
    || c == '\U{2028}' || c == '\U{2029}' || c == '\U{202F}' || c == '\U{205F}' || c == '\U{3000}' || c == '\U{FEFF}'
  }

  // ---------------------------------------------------------------- what goes into the fingerprint

  function TextOf(g: Given, c: Codec): string {
    match g
    case Absent => ""
    case Plain(t) => t
    case Structured(j) => (c.stringify)(j)
  }

  /** The listed tool definitions: none unless they are an array. */
  function ToolList(g: Given, c: Codec): seq<Json> {
    match g
    case Absent => []
    case Plain(t) =>
      var parsed := (c.parse)(t);
      if parsed.Some? && parsed.value.JArr? then parsed.value.items else []
    case Structured(j) => if j.JArr? then j.items else []
  }

  function FieldOf(fields: seq<Field>, key: string): (v: Option<Json>)
    ensures v.Some? ==> Field(key, v.value) in fields
  {
    if fields == [] then None else if fields[0].key == key then Some(fields[0].value) else FieldOf(fields[1..], key)
  }

  function Schema(fields: seq<Field>): Json {
    var p, i, s := FieldOf(fields, "parameters"), FieldOf(fields, "input_schema"), FieldOf(fields, "schema");
    if p.Some? then p.value else if i.Some? then i.value else if s.Some? then s.value else JNull
  }

  /** A definition that is an object with a name, as that name and its schema. */
  function ToolOf(j: Json): Option<Field> {
    if !j.JObj? then None
    else
      var name := FieldOf(j.fields, "name");
      if name.Some? && name.value.JStr? && name.value.s != "" then Some(Field(name.value.s, Schema(j.fields)))
      else None
  }

  function ToolsOf(list: seq<Json>): seq<Field> {
    if list == [] then []
    else
      var t := ToolOf(list[0]);
      (if t.Some? then [t.value] else []) + ToolsOf(list[1..])
  }

  /** The named tools, in the order given. */
  function Tools(a: Args, c: Codec): seq<Field> {
    ToolsOf(ToolList(a.tools, c))
  }

  function Named(names: seq<string>): (fs: seq<Field>)
    ensures |fs| == |names| && forall i | 0 <= i < |names| :: fs[i] == Field(names[i], JNull)
  {
    seq(|names|, i requires 0 <= i < |names| => Field(names[i], JNull))
  }

  function NamesOf(fs: seq<Field>): (names: seq<string>)
    ensures |names| == |fs| && forall i | 0 <= i < |fs| :: names[i] == fs[i].key
  {
    seq(|fs|, i requires 0 <= i < |fs| => fs[i].key)
  }

  function NonEmpty(names: seq<string>): (kept: seq<string>)
    ensures forall n | n in kept :: n in names && n != ""
  {
    if names == [] then [] else (if names[0] == "" then [] else [names[0]]) + NonEmpty(names[1..])
  }

  function SortedProviders(providers: seq<string>): seq<string> {
    NamesOf(SortBy(Named(NonEmpty(providers)), Less))
  }

  function SettingsOf(a: Args): Settings {
    if a.config.Some? then a.config.value else Settings(None, None, None, "")
  }

  /** The configured provider, or else the first provider. */
  function Provider(a: Args): string {
    var sorted := SortedProviders(a.providers);
    if SettingsOf(a).provider != "" then SettingsOf(a).provider else if sorted != [] then sorted[0] else ""
  }

  /** To three decimals, halves up. */
  function RoundTo3(n: real): (r: real)
    ensures -0.0005 < r - n <= 0.0005
  {
    (n * 1000.0 + 0.5).Floor as real / 1000.0
  }

  /** To an integer, toward zero. */
  function Truncate(n: real): real {
    if n >= 0.0 then n.Floor as real else -((-n).Floor as real)
  }

  function Rounded(n: Option<real>): Option<real> {
    if n.Some? then Some(RoundTo3(n.value)) else None
  }

  function Truncated(n: Option<real>): Option<real> {
    if n.Some? then Some(Truncate(n.value)) else None
  }

  /** Everything the fingerprint sees. */
  datatype Parts = Parts(prompt: string, tools: seq<Field>, model: string, temperature: Option<real>,
                         topP: Option<real>, maxTokens: Option<real>, provider: string)

  function PartsOf(a: Args, c: Codec): Parts {
    var rc := SettingsOf(a);
    Parts(Words.Normalize(TextOf(a.instructions, c), JsSpace), SortBy(CanonicalFields(Tools(a, c)), Less), a.model,
          Rounded(rc.temperature), Rounded(rc.topP), Truncated(rc.maxTokens), Provider(a))
  }

  function Number(n: Option<real>): Json {
    if n.Some? then JNum(n.value) else JNull
  }

  function ToolObject(f: Field): Json {
    JObj([Field("n", JStr(f.key)), Field("s", f.value)])
  }

  function ToolArray(tools: seq<Field>): Json {
    JArr(seq(|tools|, i requires 0 <= i < |tools| => ToolObject(tools[i])))
  }

  function Keyed(k: seq<string>, v: seq<Json>): (fs: seq<Field>)
    requires |k| == |v|
    ensures |fs| == |k| && forall i | 0 <= i < |k| :: fs[i] == Field(k[i], v[i])
  {
    seq(|k|, i requires 0 <= i < |k| => Field(k[i], v[i]))
  }

  const CONFIG_KEYS := ["temperature", "top_p", "max_tokens", "provider"]
  const PAYLOAD_KEYS := ["sp", "tools", "model", "cfg"]

  function ConfigValues(p: Parts): seq<Json> {
    [Number(p.temperature), Number(p.topP), Number(p.maxTokens), JStr(p.provider)]
  }

  function ConfigObject(p: Parts): Json {
    JObj(Keyed(CONFIG_KEYS, ConfigValues(p)))
  }

  function PayloadValues(p: Parts): seq<Json> {
    [JStr(p.prompt), ToolArray(p.tools), JStr(p.model), ConfigObject(p)]
  }

  function PayloadOf(p: Parts): Json {
    Canonical(JObj(Keyed(PAYLOAD_KEYS, PayloadValues(p))))
  }

  /** The value whose text is hashed. */
  function Payload(a: Args, c: Codec): Json {
    PayloadOf(PartsOf(a, c))
  }

  // ---------------------------------------------------------------- the payload loses nothing

  /** Objects with the same keys in the same places have the same canonical form only field by field. */
  lemma FieldsInjective(fs: seq<Field>, gs: seq<Field>, i: nat)
    requires |fs| == |gs| && i < |fs| && DistinctFields(fs) && (forall k | 0 <= k < |fs| :: fs[k].key == gs[k].key)
    requires fs[i].key != PROTO
    requires Canonical(JObj(fs)) == Canonical(JObj(gs))
    ensures Canonical(fs[i].value) == Canonical(gs[i].value)
  {
    CanonicalObjects(fs, gs);
    assert HasTwin(fs[i], gs);
    var j :| 0 <= j < |gs| && fs[i].key == gs[j].key && Canonical(fs[i].value) == Canonical(gs[j].value);
    assert fs[j].key == fs[i].key;
  }

  lemma KeyedInjective(k: seq<string>, v: seq<Json>, w: seq<Json>, i: nat)
    requires |k| == |v| == |w| && Distinct(k) && PROTO !in k && i < |k|
    requires Canonical(JObj(Keyed(k, v))) == Canonical(JObj(Keyed(k, w)))
    ensures Canonical(v[i]) == Canonical(w[i])
  {
    FieldsInjective(Keyed(k, v), Keyed(k, w), i);
  }

  lemma ConfigKeys()
    ensures |CONFIG_KEYS| == 4 && Distinct(CONFIG_KEYS) && PROTO !in CONFIG_KEYS
  {
  }

  lemma PayloadKeys()
    ensures |PAYLOAD_KEYS| == 4 && Distinct(PAYLOAD_KEYS) && PROTO !in PAYLOAD_KEYS
  {
  }

  lemma ToolObjectInjective(f: Field, g: Field)
    requires Canonical(ToolObject(f)) == Canonical(ToolObject(g))
    ensures f.key == g.key && Canonical(f.value) == Canonical(g.value)
  {
    var fs, gs := ToolObject(f).fields, ToolObject(g).fields;
    FieldsInjective(fs, gs, 0);
    FieldsInjective(fs, gs, 1);
  }

  lemma ToolArrayInjective(ts: seq<Field>, us: seq<Field>)
    requires Canonical(ToolArray(ts)) == Canonical(ToolArray(us))
    requires forall i | 0 <= i < |ts| :: Canonical(ts[i].value) == ts[i].value
    requires forall i | 0 <= i < |us| :: Canonical(us[i].value) == us[i].value
    ensures ts == us
  {
    CanonicalArrays(ToolArray(ts).items, ToolArray(us).items);
    forall i | 0 <= i < |ts| ensures ts[i] == us[i] {
      assert ToolArray(ts).items[i] == ToolObject(ts[i]) && ToolArray(us).items[i] == ToolObject(us[i]);
      ToolObjectInjective(ts[i], us[i]);
    }
  }

  lemma ConfigInjective(p: Parts, q: Parts)
    requires Canonical(ConfigObject(p)) == Canonical(ConfigObject(q))
    ensures p.temperature == q.temperature && p.topP == q.topP && p.maxTokens == q.maxTokens && p.provider == q.provider
  {
    ConfigKeys();
    KeyedInjective(CONFIG_KEYS, ConfigValues(p), ConfigValues(q), 0);
    KeyedInjective(CONFIG_KEYS, ConfigValues(p), ConfigValues(q), 1);
    KeyedInjective(CONFIG_KEYS, ConfigValues(p), ConfigValues(q), 2);
    KeyedInjective(CONFIG_KEYS, ConfigValues(p), ConfigValues(q), 3);
  }

  ghost predicate CanonicalTools(p: Parts) {
    forall i | 0 <= i < |p.tools| :: Canonical(p.tools[i].value) == p.tools[i].value
  }

  lemma PayloadInjective(p: Parts, q: Parts)
    requires PayloadOf(p) == PayloadOf(q) && CanonicalTools(p) && CanonicalTools(q)
    ensures p == q
  {
    PromptShows(p, q);
    PayloadKeys();
    KeyedInjective(PAYLOAD_KEYS, PayloadValues(p), PayloadValues(q), 1);
    ToolArrayInjective(p.tools, q.tools);
    KeyedInjective(PAYLOAD_KEYS, PayloadValues(p), PayloadValues(q), 2);
    KeyedInjective(PAYLOAD_KEYS, PayloadValues(p), PayloadValues(q), 3);
    ConfigInjective(p, q);
  }

  lemma PromptShows(p: Parts, q: Parts)
    requires PayloadOf(p) == PayloadOf(q)
    ensures p.prompt == q.prompt
  {
    PayloadKeys();
    KeyedInjective(PAYLOAD_KEYS, PayloadValues(p), PayloadValues(q), 0);
  }

  /** Which schema of a tool counts: its parameters, or else its input_schema, or else its schema, or else null. */
  lemma SchemaIs(fields: seq<Field>, name: string)
    requires FieldOf(fields, "name") == Some(JStr(name)) && name != ""
    ensures ToolOf(JObj(fields)).Some? && ToolOf(JObj(fields)).value.key == name
    ensures var schema := ToolOf(JObj(fields)).value.value;
            && (FieldOf(fields, "parameters").Some? ==> FieldOf(fields, "parameters") == Some(schema))
            && (FieldOf(fields, "parameters").None? && FieldOf(fields, "input_schema").Some? ==>
                  FieldOf(fields, "input_schema") == Some(schema))
            && (FieldOf(fields, "parameters").None? && FieldOf(fields, "input_schema").None? ==>
                  schema == if FieldOf(fields, "schema").Some? then FieldOf(fields, "schema").value else JNull)
  {
  }

  /** The value of the first field of a name. */
  lemma {:induction false} FieldOfIsFirst(fields: seq<Field>, i: nat)
    requires i < |fields| && forall k | 0 <= k < i :: fields[k].key != fields[i].key
    ensures FieldOf(fields, fields[i].key) == Some(fields[i].value)
  {
    if i > 0 {
      assert forall k | 0 <= k < i - 1 :: fields[1..][k].key == fields[k + 1].key;
      FieldOfIsFirst(fields[1..], i - 1);
    }
  }

  /** A definition without a name that is a text, and not empty, counts for nothing. */
  lemma NamelessIff(j: Json)
    ensures ToolOf(j).None? <==>
            !j.JObj? || !(exists name: string :: name != "" && FieldOf(j.fields, "name") == Some(JStr(name)))
  {
  }

  /** A rounded number is a number of thousandths, and the nearest one. */
  lemma RoundedToThousandths(n: real)
    ensures (RoundTo3(n) * 1000.0).Floor as real == RoundTo3(n) * 1000.0 && -0.0005 < RoundTo3(n) - n <= 0.0005
  {
    var k := (n * 1000.0 + 0.5).Floor;
    Thousandths(k, RoundTo3(n));
  }

  lemma Thousandths(k: int, r: real)
    requires r == k as real / 1000.0
    ensures (r * 1000.0).Floor as real == r * 1000.0
  {
    assert r * 1000.0 == k as real;
  }

  /** A token limit is cut off toward zero. */
  lemma TruncatedTowardZero(n: real)
    ensures Truncate(n).Floor as real == Truncate(n)
    ensures n >= 0.0 ==> 0.0 <= Truncate(n) <= n < Truncate(n) + 1.0
    ensures n < 0.0 ==> Truncate(n) - 1.0 < n <= Truncate(n) <= 0.0
  {
    if n >= 0.0 {
      WholeNumber(n.Floor, Truncate(n));
    } else {
      WholeNumber(0 - (-n).Floor, Truncate(n));
    }
  }

  lemma WholeNumber(k: int, r: real)
    requires r == k as real
    ensures r.Floor as real == r
  {
  }

  lemma ProviderShows(p: Parts, q: Parts)
    requires PayloadOf(p) == PayloadOf(q)
    ensures p.provider == q.provider
  {
    PayloadKeys();
    KeyedInjective(PAYLOAD_KEYS, PayloadValues(p), PayloadValues(q), 3);
    ConfigInjective(p, q);
  }

  // ---------------------------------------------------------------- where everything is found in the payload

  lemma CanonicalField(fs: seq<Field>, i: nat)
    requires i < |fs| && DistinctFields(fs) && fs[i].key != PROTO
    ensures Field(fs[i].key, Canonical(fs[i].value)) in Canonical(JObj(fs)).fields
  {
    var cs := CanonicalFields(fs);
    KeptFacts(cs);
    KeyLessIsStrict();
    SortFacts(Kept(cs), KeyLess);
    assert cs[i] in cs && cs[i] in Kept(cs);
  }

  lemma KeyedField(k: seq<string>, v: seq<Json>, i: nat)
    requires |k| == |v| && Distinct(k) && PROTO !in k && i < |k|
    ensures Field(k[i], Canonical(v[i])) in Canonical(JObj(Keyed(k, v))).fields
  {
    CanonicalField(Keyed(k, v), i);
  }

  predicate IsFieldOf(j: Json, key: string, value: Json) {
    j.JObj? && Field(key, value) in j.fields
  }

  /** The payload is an object: the normal form of the prompt under "sp", the model, the tools as pairs of name and
      schema, and the numbers and the provider in "cfg". */
  lemma PayloadHolds(a: Args, c: Codec) returns (cfg: Json, tools: Json)
    ensures IsFieldOf(Payload(a, c), "sp", JStr(Words.Normalize(TextOf(a.instructions, c), JsSpace)))
    ensures IsFieldOf(Payload(a, c), "model", JStr(a.model))
    ensures IsFieldOf(Payload(a, c), "cfg", cfg) && IsFieldOf(Payload(a, c), "tools", tools)
    ensures var s := SettingsOf(a);
            && IsFieldOf(cfg, "temperature", if s.temperature.Some? then JNum(RoundTo3(s.temperature.value)) else JNull)
            && IsFieldOf(cfg, "top_p", if s.topP.Some? then JNum(RoundTo3(s.topP.value)) else JNull)
            && IsFieldOf(cfg, "max_tokens", if s.maxTokens.Some? then JNum(Truncate(s.maxTokens.value)) else JNull)
            && IsFieldOf(cfg, "provider", JStr(Provider(a)))
    ensures var ts := PartsOf(a, c).tools;
            && tools.JArr? && |tools.items| == |ts|
            && forall i | 0 <= i < |ts| ::
                 IsFieldOf(tools.items[i], "n", JStr(ts[i].key)) &&
                 IsFieldOf(tools.items[i], "s", Canonical(ts[i].value))
  {
    var p := PartsOf(a, c);
    PayloadKeys();
    KeyedField(PAYLOAD_KEYS, PayloadValues(p), 0);
    KeyedField(PAYLOAD_KEYS, PayloadValues(p), 1);
    KeyedField(PAYLOAD_KEYS, PayloadValues(p), 2);
    KeyedField(PAYLOAD_KEYS, PayloadValues(p), 3);
    cfg, tools := Canonical(ConfigObject(p)), Canonical(ToolArray(p.tools));
    ConfigHolds(p);
    forall i | 0 <= i < |p.tools|
      ensures IsFieldOf(tools.items[i], "n", JStr(p.tools[i].key))
      ensures IsFieldOf(tools.items[i], "s", Canonical(p.tools[i].value))
    {
      ToolHolds(p.tools[i]);
    }
  }

  lemma ConfigHolds(p: Parts)
    ensures var cfg := Canonical(ConfigObject(p));
            && IsFieldOf(cfg, "temperature", Number(p.temperature)) && IsFieldOf(cfg, "top_p", Number(p.topP))
            && IsFieldOf(cfg, "max_tokens", Number(p.maxTokens)) && IsFieldOf(cfg, "provider", JStr(p.provider))
  {
    ConfigKeys();
    KeyedField(CONFIG_KEYS, ConfigValues(p), 0);
    KeyedField(CONFIG_KEYS, ConfigValues(p), 1);
    KeyedField(CONFIG_KEYS, ConfigValues(p), 2);
    KeyedField(CONFIG_KEYS, ConfigValues(p), 3);
  }

  lemma ToolHolds(f: Field)
    ensures var t := Canonical(ToolObject(f));
            IsFieldOf(t, "n", JStr(f.key)) && IsFieldOf(t, "s", Canonical(f.value))
  {
    CanonicalField(ToolObject(f).fields, 0);
    CanonicalField(ToolObject(f).fields, 1);
  }
}
