/** A definition, its models and its world, small enough to write down: what the pipeline theorems assume
    can be met. */
module SmallPipeline {
  import opened Common
  import opened Json
  import opened Catalog
  import opened Documents
  import opened PageActions
  import opened Validator
  import opened Definitions
  import opened PipelineRun
  import opened PipelineSoundness

  // ----- models like the catalog's ---------------------------------------------------------------------

  const SCRAPE_FIELDS: set<string> := {"url", "engine", "playwright_options", "proxy_url", "cookies", "actions"}

  function ReadUrl(j: Json): Option<Url> {
    match j
    case Str(s) => Some(Literal(s))
    case Obj(fields) =>
      if fields.Keys == {"$input"} && fields["$input"].Str? then Some(Bound(fields["$input"].s)) else None
    case _ => None
  }

  function Field(raw: Fields, name: string): Json {
    if name in raw then raw[name] else Null
  }

  /** `int` of a string of ASCII digits, and of no other. */
  function Decimal(s: string): Option<int> {
    if s == "" || !('0' <= s[|s| - 1] <= '9') then None
    else
      var digit := (s[|s| - 1] - '0') as int;
      if |s| == 1 then Some(digit)
      else match Decimal(s[..|s| - 1])
           case None => None
           case Some(n) => Some(10 * n + digit)
  }

  predicate ActionsOk(raw: Fields) {
    var actions := Field(raw, "actions");
    || actions.Null?
    || (GivenActions(raw).Some? && AllPass(GivenActions(raw).value, Decimal))
  }

  predicate SecretsOk(raw: Fields) {
    var proxy, cookies := Field(raw, "proxy_url"), Field(raw, "cookies");
    (proxy.Null? || proxy.Str?) && (cookies.Null? || cookies.Arr?)
  }

  /** Options and actions need the playwright engine. */
  predicate EngineOk(raw: Fields) {
    var engine, options, actions := Field(raw, "engine"), Field(raw, "playwright_options"), Field(raw, "actions");
    && (engine == Null || engine == Str("http") || engine == Str("playwright"))
    && (options.Null? || options.Obj?)
    && (engine == Str("playwright") || (options.Null? && !Truthy(actions)))
  }

  /** Unknown fields are refused; unknown keys of the playwright options are dropped, a "$input" among
      them; and page actions that raise raise. */
  function ReadScrape(raw: Fields): Reading {
    if ActionsRaise(raw, Decimal) then ModelRaises
    else if !(raw.Keys <= SCRAPE_FIELDS) || "url" !in raw || ReadUrl(raw["url"]).None? then Unreadable
    else if !ActionsOk(raw) || !SecretsOk(raw) || !EngineOk(raw) then Unreadable
    else
      var options := if Field(raw, "playwright_options").Obj? then Obj(map[]) else Null;
      Read(ScrapeConfig(ReadUrl(raw["url"]).value, Html,
                        if Field(raw, "engine") == Str("playwright") then Playwright else Http, None,
                        Field(raw, "proxy_url"), Field(raw, "cookies"), Arr([options, Field(raw, "actions")])))
  }

  function ReadExtract(raw: Fields): Reading {
    if raw.Keys == {"llm_key_id", "model", "output_schema"} && raw["llm_key_id"].Str? && raw["model"].Str?
       && raw["output_schema"].Obj? then Read(LlmExtractConfig(raw["llm_key_id"].s, raw["model"].s, raw["output_schema"]))
    else Unreadable
  }

  function ReadConfig(t: BlockType, raw: Fields): Reading {
    match t
    case Scrape => ReadScrape(raw)
    case Clean => if raw == map[] then Read(CleanConfig) else Unreadable
    case LlmExtract => ReadExtract(raw)
    case _ => Unreadable
  }

  function WriteUrl(url: Url): Json {
    match url case Literal(s) => Str(s) case Bound(name) => Obj(map["$input" := Str(name)])
  }

  function Item(j: Json, i: nat): Json {
    if j.Arr? && i < |j.items| then j.items[i] else Null
  }

  function WriteConfig(c: Config): Fields {
    match c
    case ScrapeConfig(url, _, engine, _, proxyUrl, cookies, rest) =>
      map["url" := WriteUrl(url), "engine" := Str(if engine.Playwright? then "playwright" else "http"),
          "playwright_options" := Item(rest, 0), "actions" := Item(rest, 1),
          "proxy_url" := proxyUrl, "cookies" := cookies]
    case LlmExtractConfig(keyId, model, schema) =>
      map["llm_key_id" := Str(keyId), "model" := Str(model), "output_schema" := schema]
    case _ => map[]
  }

  /** A dialect that is no string cannot be looked up. */
  function Judge(schema: Json): SchemaVerdict {
    if schema.Obj? && "$schema" in schema.fields && !schema.fields["$schema"].Str? then SchemaRaises else SchemaFine
  }

  function Models(): Codec {
    Codec(ReadConfig, WriteConfig, Judge, Decimal)
  }

  /** What is written back, secrets nulled or left out, is read as before. */
  lemma ScrapeReadsBack(raw: Fields, c: Config, d: Fields)
    requires ReadScrape(raw) == Read(c)
    requires d == WriteConfig(Erase(c)) || d == WriteConfig(Erase(c)) - SecretFields(Scrape)
    ensures ReadScrape(d) == Read(Erase(c))
  {
    hide SomeRaises, AllPass;
    assert ReadUrl(WriteUrl(c.url)) == Some(c.url);
    assert "http" != "playwright";
    assert Field(d, "actions") == Field(raw, "actions") && Field(d, "proxy_url") == Null == Field(d, "cookies");
    SameActions(raw, d);
  }

  lemma SameActions(raw: Fields, d: Fields)
    requires Field(d, "actions") == Field(raw, "actions")
    ensures GivenActions(d) == GivenActions(raw)
  {
  }

  lemma ScrapeIsFaithful(raw: Fields)
    ensures FaithfulAt(Models(), Scrape, raw)
  {
    hide ReadScrape, ActionsRaise;
    var k := Models();
    assert k.parse(Scrape, raw) == ReadScrape(raw);
    ScrapeRaises(raw);
    if k.parse(Scrape, raw).Read? {
      var c := k.parse(Scrape, raw).config;
      ScrapeIsScrape(raw, c);
      var d := k.dump(Erase(c));
      assert d == Nulled(k.dump(c), SecretFields(Scrape));
      ScrapeReadsBack(raw, c, d);
      ScrapeReadsBack(raw, c, d - SecretFields(Scrape));
      if Bindings(raw) <= BindableFields(Scrape) {
        UrlAloneIsBound(raw, c);
      }
    }
  }

  lemma ScrapeRaises(raw: Fields)
    ensures ReadScrape(raw).ModelRaises? <==> ActionsRaise(raw, Decimal)
  {
    hide ActionsRaise;
  }

  lemma ScrapeIsScrape(raw: Fields, c: Config)
    requires ReadScrape(raw) == Read(c)
    ensures c.ScrapeConfig?
    ensures c.url.Bound? ==> "url" in raw && IsBinding(raw["url"]) && BindingName(raw["url"]) == Str(c.url.input)
  {
    hide ActionsRaise, ActionsOk, SecretsOk, EngineOk;
  }

  lemma UrlAloneIsBound(raw: Fields, c: Config)
    requires ReadScrape(raw) == Read(c) && Bindings(raw) <= {"url"}
    ensures SameBindings(WriteConfig(c), raw)
  {
    ScrapeIsScrape(raw, c);
    OnlyUrlIsWrittenBound(raw, c);
    BoundStaysBound(raw, c);
    hide ReadScrape;
    forall f | f in raw && IsBinding(raw[f]) ensures f == "url" {
      assert f in Bindings(raw);
    }
  }

  lemma OnlyUrlIsWrittenBound(raw: Fields, c: Config)
    requires ReadScrape(raw) == Read(c)
    ensures forall f :: f in WriteConfig(c) && IsBinding(WriteConfig(c)[f]) ==> f == "url" && c.url.Bound?
  {
    hide ActionsRaise, AllPass, EngineOk;
    var w := WriteConfig(c);
    assert w.Keys == SCRAPE_FIELDS;
    assert !IsBinding(w["actions"]) && !IsBinding(w["playwright_options"]);
  }

  lemma BoundStaysBound(raw: Fields, c: Config)
    requires ReadScrape(raw) == Read(c)
    ensures "url" in raw && (IsBinding(raw["url"]) ==> WriteConfig(c)["url"] == raw["url"])
  {
    hide ActionsRaise, ActionsOk, EngineOk, SecretsOk;
  }

  lemma ExtractIsFaithful(raw: Fields)
    ensures FaithfulAt(Models(), LlmExtract, raw)
  {
    var k := Models();
    if k.parse(LlmExtract, raw).Read? {
      var c := k.parse(LlmExtract, raw).config;
      assert k.dump(c) == raw;
      assert k.dump(c) == Nulled(k.dump(c), {}) && raw - {} == raw;
    }
  }

  lemma ModelsAreFaithful()
    ensures Faithful(Models())
  {
    var k := Models();
    forall t, raw ensures FaithfulAt(k, t, raw) {
      match t {
        case Scrape => ScrapeIsFaithful(raw);
        case LlmExtract => ExtractIsFaithful(raw);
        case Clean =>
          if k.parse(t, raw).Read? {
            assert k.dump(CleanConfig) == Nulled(k.dump(CleanConfig), {}) && map[] - {} == k.dump(CleanConfig);
          }
        case _ =>
      }
    }
  }

  /** A binding no field may hold: the models read it and drop it, so the validator must refuse it before
      they see it. */
  lemma MisplacedBindingIsDropped()
    ensures var raw := map["url" := Str("https://example.com/"), "engine" := Str("playwright"),
                           "playwright_options" := Obj(map["$input" := Str("site")])];
            && ReadConfig(Scrape, raw).Read? && !SameBindings(WriteConfig(ReadConfig(Scrape, raw).config), raw)
            && !BlockOk(Models(), Block("page", "scrape", None, None, raw), {"site"})
  {
    var raw := map["url" := Str("https://example.com/"), "engine" := Str("playwright"),
                   "playwright_options" := Obj(map["$input" := Str("site")])];
    assert IsBinding(raw["playwright_options"]) && "playwright_options" in Bindings(raw);
    assert "playwright_options" !in BindableFields(Scrape);
  }

  /** An output schema whose dialect is a list makes the validator raise. */
  lemma ListedDialectRaises()
    ensures var schema := Obj(map["type" := Str("object"), "$schema" := Arr([Str("x")])]);
            var raw := map["llm_key_id" := Str("k"), "model" := Str("m"), "output_schema" := schema];
            SomeCrash(Models(), Definition({}, None, [Block("page", "llm_extract", None, None, raw)]))
  {
    var schema := Obj(map["type" := Str("object"), "$schema" := Arr([Str("x")])]);
    var raw := map["llm_key_id" := Str("k"), "model" := Str("m"), "output_schema" := schema];
    var b := Block("page", "llm_extract", None, None, raw);
    assert Bindings(raw) == {};
    assert ReadExtract(raw) == Read(LlmExtractConfig("k", "m", schema));
    assert Schemas(LlmExtractConfig("k", "m", schema))[0] == schema;
    assert Crashes(Models(), b, {});
    assert Definition({}, None, [b]).blocks[0] == b;
  }

  /** So do a click whose type is a list and a wait without end. */
  lemma ListedActionRaises()
    ensures SomeCrash(Models(), Acting(map["type" := Arr([Str("click")])]))
    ensures SomeCrash(Models(), Acting(map["type" := Str("wait"), "milliseconds" := Infinite(false)]))
  {
    ModelsAreFaithful();
    ListedTypeRaises(Models());
    EndlessWaitRaises(Models());
  }

  // ----- a definition they accept ---------------------------------------------------------------------------

  const CLICK: Action := map["type" := Str("click"), "selector" := Str("#more")]

  const PAGE := ScrapeConfig(Bound("site"), Html, Playwright, None, Null, Null,
                            Arr([Obj(map[]), Arr([Obj(CLICK)])]))

  const SCRAPE := Block("page", "scrape", None, None,
                        map["url" := Obj(map["$input" := Str("site")]), "engine" := Str("playwright"),
                            "playwright_options" := Obj(map["colour" := Str("blue")]), "actions" := Arr([Obj(CLICK)])])
  const CLEAN := Block("text", "clean", Some("page"), None, map[])

  function Submitted(): Definition {
    Definition({"site"}, None, [SCRAPE, CLEAN])
  }

  lemma PageParses()
    ensures ParsedBlock(Models(), SCRAPE, {"site"}) == Some(ValidatedBlock("page", Scrape, PAGE, TimingOf(PAGE)))
    ensures UsesInput(SCRAPE, "site")
  {
    assert Bindings(SCRAPE.config) == {"url"};
    assert "url" in Bindings(SCRAPE.config) && BindingName(SCRAPE.config["url"]) == Str("site");
    assert ReadScrape(SCRAPE.config) == Read(PAGE);
  }

  lemma TextParses()
    ensures ParsedBlock(Models(), CLEAN, {"site"}) == Some(ValidatedBlock("text", Clean, CleanConfig, TimingOf(CleanConfig)))
  {
    assert Bindings(map[]) == {};
  }

  lemma SiteIsAName()
    ensures NameOk("site")
  {
    var s := "site";
    assert |s| == 4 && s[0] == 's' && s[1] == 'i' && s[2] == 't' && s[3] == 'e';
    forall i | 1 <= i < 4 ensures Lower(s[i]) {
      assert i == 1 || i == 2 || i == 3;
    }
  }

  lemma SubmittedIsAcceptable() returns (st: Settings)
    ensures Shaped(Submitted()) && Acceptable(Models(), st, Submitted())
  {
    hide ReadConfig, WriteConfig, Judge, ParsedBlock, UsesInput;
    var k, d := Models(), Submitted();
    PageParses();
    TextParses();
    assert d.blocks[0] == SCRAPE && d.blocks[1] == CLEAN;
    assert Used(d.blocks, "site");
    var cs := Configs(k, d);
    assert cs == [PAGE, CleanConfig];
    st := Settings(2, RunNeedSeconds(Timings(cs)));
    assert RefAfter(cs, 1) == PageHtml;
    assert Typed(cs);
    SiteIsAName();
    assert BlockOk(k, SCRAPE, d.inputs) && BlockOk(k, CLEAN, d.inputs);
    assert BlocksOk(k, d) && AllUsed(d) && OneChain(d.blocks) && OneWebhook(d.blocks);
    assert IdsDistinct(d.blocks);
  }

  /** Every await is instant; the blocks write "p" and "t". */
  function Quiet(work: Work): BlockWorld {
    BlockWorld(Running, 0, false, 0, false, work, 0, false, 0, false, true, false, 0, false, 0, false, false)
  }

  function Day(i: nat): BlockWorld {
    Quiet(if i == 0 then Produced(Stored("p", PageHtml), []) else Produced(Stored("t", PageMarkdown), []))
  }

  function ReadBack(): Parsed {
    Parsed({"site"}, None, [RunBlock("page", None, PAGE), RunBlock("text", Some("page"), CleanConfig)])
  }

  function Given(): Input {
    Input(ReadBack().blocks, RunBudgetSeconds(ReadBack()), map["site" := "https://example.com/"], map["page" := "1", "text" := "2"], {})
  }

  lemma AcceptedBlocks(k: Codec, d: Definition, st: Settings)
    requires d.blocks != [] && Acceptable(k, st, d)
    ensures forall i :: 0 <= i < |d.blocks| ==> BlockOk(k, d.blocks[i], d.inputs)
    ensures AllParse(k, d)
  {
    hide BlockOk, ParsedBlock;
    assert BlocksOk(k, d);
    forall i | 0 <= i < |d.blocks| ensures ParsedBlock(k, d.blocks[i], d.inputs).Some? {
      OkParses(k, d.blocks[i], d.inputs);
    }
  }

  lemma OkParses(k: Codec, b: Block, declared: set<string>)
    requires BlockOk(k, b, declared)
    ensures ParsedBlock(k, b, declared).Some?
  {
  }

  lemma StoredIsReadBack(e: Cipher, st: Settings)
    requires Acceptable(Models(), st, Submitted())
    ensures var s, p := Prepared(Models(), Submitted(), None, e), ReadBack();
            && p.inputs == s.inputs && p.budget == s.budget && |p.blocks| == |s.blocks|
            && forall i :: 0 <= i < |s.blocks| ==> Some(p.blocks[i]) == ReadBlock(Models(), s.blocks[i])
  {
    hide ReadBlock, PreparedBlock, BlockOk, ParsedBlock, Faithful, Acceptable, Models, UsesInput, FiniteFields;
    var k, d := Models(), Submitted();
    ModelsAreFaithful();
    SubmittedIsStorable();
    PageParses();
    TextParses();
    assert d.blocks[0] == SCRAPE && d.blocks[1] == CLEAN;
    AcceptedBlocks(k, d, st);
    assert FiniteFields(SCRAPE.config) && FiniteFields(CLEAN.config);
    assert Erase(PAGE) == PAGE && Erase(CleanConfig) == CleanConfig;
    BlockReadsBack(k, SCRAPE, d.inputs, None, e);
    BlockReadsBack(k, CLEAN, d.inputs, None, e);
  }

  lemma DayKeepsContract()
    ensures Contract(Given(), Day)
  {
    BudgetIsPositive(PAGE);
    BudgetIsPositive(CleanConfig);
    assert Given().blocks[0].config == PAGE && Given().blocks[1].config == CleanConfig;
  }

  lemma SubmittedIsStorable()
    ensures Storable(Submitted())
  {
    assert Finite(Obj(CLICK)) && Finite(Arr([Obj(CLICK)]));
    assert FiniteFields(SCRAPE.config) && FiniteFields(CLEAN.config);
  }

  /** Everything the soundness theorem supposes, at once: so it speaks of some run. */
  lemma AssumptionsCanBeMet(e: Cipher) returns (st: Settings)
    ensures Faithful(Models()) && Shaped(Submitted()) && Acceptable(Models(), st, Submitted()) && Storable(Submitted())
    ensures var s, p := Prepared(Models(), Submitted(), None, e), ReadBack();
            && p.inputs == s.inputs && p.budget == s.budget && |p.blocks| == |s.blocks|
            && forall i :: 0 <= i < |s.blocks| ==> Some(p.blocks[i]) == ReadBlock(Models(), s.blocks[i])
    ensures Triggered(ReadBack(), Given()) && Contract(Given(), Day)
  {
    ModelsAreFaithful();
    st := SubmittedIsAcceptable();
    SubmittedIsStorable();
    hide Storable, Acceptable, Faithful, Contract, ReadBlock, Prepared;
    StoredIsReadBack(e, st);
    DayKeepsContract();
  }
}
