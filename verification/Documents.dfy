/** Pipeline definitions as they are submitted, stored and returned, and what is assumed of the config
    models (pydantic's part) that read and write their `config` objects. */
module Documents {
  import opened Common
  import opened Json
  import opened Catalog
  import opened PageActions

  /** A submitted definition; `Shaped` is what its top-level models ask: at least one block, a budget of
      at least 1, block ids that are not empty. */
  datatype Definition = Definition(inputs: set<string>, budget: Option<int>, blocks: seq<Block>)

  datatype Block = Block(id: string, kind: string, input: Option<string>, version: Option<int>, config: Fields)

  type Fields = map<string, Json>

  predicate Shaped(d: Definition) {
    && d.blocks != [] && (d.budget.Some? ==> d.budget.value >= 1)
    && forall i | 0 <= i < |d.blocks| :: d.blocks[i].id != ""
  }

  /** One row of `pipeline_versions.definition`; secrets are ciphertexts. */
  datatype StoredBlock = StoredBlock(id: string, kind: string, input: Option<string>, version: int,
                                     config: Fields, secrets: map<string, string>)

  datatype StoredDefinition = StoredDefinition(inputs: set<string>, budget: Option<int>, blocks: seq<StoredBlock>)

  predicate IsBinding(j: Json) {
    j.Obj? && "$input" in j.fields
  }

  function Bindings(config: Fields): set<string> {
    set f | f in config && IsBinding(config[f])
  }

  function BindingName(j: Json): Json
    requires IsBinding(j)
  {
    j.fields["$input"]
  }

  function Nulled(config: Fields, names: set<string>): Fields {
    map f | f in config.Keys + names :: if f in names then Null else config[f]
  }

  /** No infinite number, which a JSONB column does not hold. */
  predicate FiniteFields(config: Fields) {
    forall f | f in config :: Finite(config[f])
  }

  predicate Storable(d: Definition) {
    forall i | 0 <= i < |d.blocks| :: FiniteFields(d.blocks[i].config)
  }

  /** The value a config holds in a secret field. */
  function Secret(c: Config, name: string): Json {
    match c
    case ScrapeConfig(_, _, _, _, proxyUrl, cookies, _) =>
      if name == "proxy_url" then proxyUrl else if name == "cookies" then cookies else Null
    case WebhookConfig(_, secret) => if name == "secret" then secret else Null
    case _ => Null
  }

  /** Each name its own field's value; and these fields alone are erased. */
  lemma SecretsAreFields(c: Config)
    ensures c.ScrapeConfig? ==> Secret(c, "proxy_url") == c.proxyUrl && Secret(c, "cookies") == c.cookies
    ensures c.ScrapeConfig? ==> Erase(c) == ScrapeConfig(c.url, c.format, c.engine, c.renderSeconds, Null, Null, c.rest)
    ensures c.WebhookConfig? ==> Secret(c, "secret") == c.secret && Erase(c) == WebhookConfig(c.target, Null)
    ensures !c.ScrapeConfig? && !c.WebhookConfig? ==> Erase(c) == c
  {
  }

  function Erase(c: Config): Config {
    match c
    case ScrapeConfig(_, _, _, _, _, _, _) => c.(proxyUrl := Null, cookies := Null)
    case WebhookConfig(_, _) => c.(secret := Null)
    case _ => c
  }

  /** The JSON Schemas a config carries. */
  function Schemas(c: Config): seq<Json> {
    match c
    case LlmExtractConfig(_, _, schema) => [schema]
    case ValidateConfig(rules) => RuleSchemas(rules)
    case _ => []
  }

  function RuleSchemas(rules: seq<Rule>): seq<Json> {
    if rules == [] then []
    else (if rules[0].kind.JsonSchema? then [rules[0].body] else []) + RuleSchemas(rules[1..])
  }

  /** The catalog's config models: reading a config object, writing one, and judging a JSON Schema; and
      Python's `int` of a string. */
  datatype Codec = Codec(
    parse: (BlockType, Fields) -> Reading,
    dump: Config -> Fields,
    judge: Json -> SchemaVerdict,
    numeral: Numeral)

  /** A model reads a config, refuses it with ValidationError, or lets another exception of one of its
      validators pass. */
  datatype Reading = Read(config: Config) | Unreadable | ModelRaises

  /** `check_schema` raises SchemaError on an invalid schema, and the library whatever it likes on one it
      cannot handle, such as one whose "$schema" it cannot look up. */
  datatype SchemaVerdict = SchemaFine | SchemaInvalid | SchemaRaises

  /** What the models promise. One raises exactly when the actions of a scrape do, whatever else is wrong.
      A config it has read is of the type asked for; written and read again it is itself, its secrets
      nulled or left out alike; and, where no field is bound that cannot be (a binding elsewhere may be
      dropped as an unknown key), it binds the fields the submitted object bound, to the same names. */
  ghost predicate FaithfulAt(k: Codec, t: BlockType, raw: Fields) {
    && (k.parse(t, raw).ModelRaises? <==> t.Scrape? && ActionsRaise(raw, k.numeral))
    && (k.parse(t, raw).Read? ==> ReadFaithfully(k, t, raw, k.parse(t, raw).config))
  }

  ghost predicate ReadFaithfully(k: Codec, t: BlockType, raw: Fields, c: Config) {
    && TypeOf(c) == t
    && k.dump(Erase(c)) == Nulled(k.dump(c), SecretFields(t))
    && (FiniteFields(raw) ==> ReadsBack(k, t, c))
    && (Bindings(raw) <= BindableFields(t) ==> SameBindings(k.dump(c), raw))
    && (c.ScrapeConfig? && c.url.Bound? ==>
          "url" in raw && IsBinding(raw["url"]) && BindingName(raw["url"]) == Str(c.url.input))
  }

  ghost predicate ReadsBack(k: Codec, t: BlockType, c: Config) {
    && k.parse(t, k.dump(Erase(c))) == Read(Erase(c))
    && k.parse(t, k.dump(Erase(c)) - SecretFields(t)) == Read(Erase(c))
  }

  ghost predicate SameBindings(a: Fields, b: Fields) {
    && (forall f :: f in a && IsBinding(a[f]) ==> f in b && IsBinding(b[f]) && BindingName(a[f]) == BindingName(b[f]))
    && (forall f :: f in b && IsBinding(b[f]) ==> f in a && IsBinding(a[f]))
  }

  ghost predicate Faithful(k: Codec) {
    forall t, raw :: FaithfulAt(k, t, raw)
  }
}
