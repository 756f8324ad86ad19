/** Save-time validation of a submitted definition (api/app/pipelines/validator.py). */
module Validator {
  import opened Common
  import opened Json
  import opened Catalog
  import opened Documents
  import opened PageActions

  datatype Settings = Settings(maxBlocks: nat, maxRunSeconds: int)

  datatype Reason =
    | BadInputName(name: string) | TooManyBlocks | DuplicateId
    | UnknownType | UnknownVersion | CannotBind(field: string) | UndeclaredInput(field: string)
    | BadConfig | BadSchema | UnusedInput(name: string)
    | MustStartWithScrape | StartTakesNoInput | SecondScrape | NoInput
    | UnknownBlock | NotBefore | NotPrevious | SecondWebhook
    | DoesNotConsume | RuleDoesNotFit(rule: nat)
    | NoBlocks
    | BudgetTooShort | OverLimit | DeclaredOverLimit

  datatype Problem = Problem(blockId: Option<string>, reason: Reason)

  datatype ValidatedBlock = ValidatedBlock(id: string, blockType: BlockType, config: Config, timing: Timing)

  datatype ValidatedPipeline = ValidatedPipeline(definition: StoredDefinition, blocks: seq<ValidatedBlock>, runBudget: int)

  /** `Raised`: an exception that is no list of problems. A run-input name that is a list or an object
      cannot be put in a Python set, so `used.add` raises; and so may a config model, or the JSON Schema
      library. */
  datatype Verdict = Accepted(pipeline: ValidatedPipeline) | Refused(problems: seq<Problem>) | Raised

  // ----- what a definition must satisfy ------------------------------------------------------

  predicate Lower(c: char) { 'a' <= c <= 'z' }

  function Stem(s: string): string {
    if s != "" && s[|s| - 1] == '\n' then s[..|s| - 1] else s
  }

  /** `re.match(_NAME, name)`: `$` also matches before a final newline. */
  predicate NameOk(s: string) {
    var t := Stem(s);
    && 1 <= |t| <= 63 && Lower(t[0])
    && forall i :: 1 <= i < |t| ==> Lower(t[i]) || '0' <= t[i] <= '9' || t[i] == '_'
  }

  function Version(b: Block): int {
    if b.version.Some? && b.version.value != 0 then b.version.value else CURRENT_VERSION
  }

  /** The block's type, when it and its config version are known. */
  function KnownType(b: Block): Option<BlockType> {
    if Version(b) == CURRENT_VERSION then Lookup(b.kind) else None
  }

  predicate BindingFits(t: BlockType, f: string, value: Json, declared: set<string>)
    requires IsBinding(value)
  {
    f in BindableFields(t) && BindingName(value).Str? && BindingName(value).s in declared
  }

  predicate BindingsFit(t: BlockType, config: Fields, declared: set<string>) {
    forall f | f in Bindings(config) :: BindingFits(t, f, config[f], declared)
  }

  function ParsedBlock(k: Codec, b: Block, declared: set<string>): Option<ValidatedBlock> {
    match KnownType(b)
    case None => None
    case Some(t) =>
      if !BindingsFit(t, b.config, declared) then None
      else match k.parse(t, b.config)
           case Read(c) => Some(ValidatedBlock(b.id, t, c, TimingOf(c)))
           case _ => None
  }

  predicate SchemasOk(k: Codec, c: Config) {
    forall i | 0 <= i < |Schemas(c)| :: k.judge(Schemas(c)[i]).SchemaFine?
  }

  predicate BlockOk(k: Codec, b: Block, declared: set<string>) {
    ParsedBlock(k, b, declared).Some? && SchemasOk(k, ParsedBlock(k, b, declared).value.config)
  }

  predicate BadName(b: Block) {
    KnownType(b).Some? && exists f | f in Bindings(b.config) :: Unhashable(BindingName(b.config[f]))
  }

  predicate BadDialect(k: Codec, c: Config) {
    exists i | 0 <= i < |Schemas(c)| :: k.judge(Schemas(c)[i]).SchemaRaises?
  }

  /** The block's bindings fit and reading its config raises. */
  predicate BadReading(k: Codec, b: Block, declared: set<string>) {
    match KnownType(b)
    case None => false
    case Some(t) => BindingsFit(t, b.config, declared) && k.parse(t, b.config).ModelRaises?
  }

  /** Its actions raise, to the letter of `validate_page_actions`. */
  predicate BadActions(k: Codec, b: Block, declared: set<string>) {
    KnownType(b) == Some(Scrape) && BindingsFit(Scrape, b.config, declared) && ActionsRaise(b.config, k.numeral)
  }

  /** Reading the block raises something else than a problem. */
  predicate Crashes(k: Codec, b: Block, declared: set<string>) {
    || BadName(b)
    || BadReading(k, b, declared)
    || (ParsedBlock(k, b, declared).Some? && BadDialect(k, ParsedBlock(k, b, declared).value.config))
  }

  /** When that happens, as a caller can tell from the definition: a run input is named by a list or an
      object; or the bindings fit and the page actions raise; or the config is read and the JSON Schema
      library raises. */
  predicate RaisesOn(k: Codec, b: Block, declared: set<string>) {
    || BadName(b)
    || BadActions(k, b, declared)
    || (ParsedBlock(k, b, declared).Some? && BadDialect(k, ParsedBlock(k, b, declared).value.config))
  }

  predicate UsesInput(b: Block, name: string) {
    KnownType(b).Some? && exists f | f in Bindings(b.config) :: BindingName(b.config[f]) == Str(name)
  }

  predicate StartsAt(blocks: seq<Block>, i: nat)
    requires i < |blocks|
  {
    if i == 0 then blocks[0].kind == "scrape" && blocks[0].input.None?
    else blocks[i].kind != "scrape" && blocks[i].input.Some?
  }

  predicate Chained(blocks: seq<Block>, i: nat)
    requires 1 <= i < |blocks|
  {
    blocks[i].input.None? || blocks[i].kind == "scrape" || blocks[i].input.value == blocks[i - 1].id
  }

  /** The type of reference block `k - 1` hands on; the first block is a source. */
  function RefAfter(cs: seq<Config>, k: nat): RefType
    requires 1 <= k <= |cs|
  {
    Produces(cs[k - 1], if k == 1 then PageHtml else RefAfter(cs, k - 1))
  }

  predicate RulesFit(c: Config, ref: RefType) {
    c.ValidateConfig? ==> forall i | 0 <= i < |c.rules| :: RuleFits(c.rules[i], ref)
  }

  /** Block `i` consumes what its predecessor produces. */
  predicate TypedAt(cs: seq<Config>, i: nat)
    requires 1 <= i < |cs|
  {
    RefAfter(cs, i) in Consumes(TypeOf(cs[i])) && RulesFit(cs[i], RefAfter(cs, i))
  }

  function Timings(cs: seq<Config>): seq<Timing> {
    seq(|cs|, i requires 0 <= i < |cs| => TimingOf(cs[i]))
  }

  predicate BudgetOk(declared: Option<int>, needed: int, ceiling: int) {
    && needed <= ceiling
    && (declared.Some? ==> needed <= declared.value <= ceiling)
  }

  ghost predicate AllParse(k: Codec, d: Definition) {
    forall i :: 0 <= i < |d.blocks| ==> ParsedBlock(k, d.blocks[i], d.inputs).Some?
  }

  ghost function Configs(k: Codec, d: Definition): seq<Config>
    requires AllParse(k, d)
  {
    seq(|d.blocks|, i requires 0 <= i < |d.blocks| => ParsedBlock(k, d.blocks[i], d.inputs).value.config)
  }

  ghost predicate NamesOk(inputs: set<string>) {
    forall name :: name in inputs ==> NameOk(name)
  }

  ghost predicate IdsDistinct(blocks: seq<Block>) {
    forall i, j :: 0 <= i < j < |blocks| ==> blocks[i].id != blocks[j].id
  }

  ghost predicate BlocksOk(k: Codec, d: Definition) {
    forall i :: 0 <= i < |d.blocks| ==> BlockOk(k, d.blocks[i], d.inputs)
  }

  ghost predicate Used(blocks: seq<Block>, name: string) {
    exists i :: 0 <= i < |blocks| && UsesInput(blocks[i], name)
  }

  ghost predicate AllUsed(d: Definition) {
    forall name :: name in d.inputs ==> Used(d.blocks, name)
  }

  /** One starting block, a scrape; every other block consumes the block before it. */
  ghost predicate OneChain(blocks: seq<Block>)
    requires blocks != []
  {
    && blocks[0].kind == "scrape" && blocks[0].input.None?
    && forall i :: 1 <= i < |blocks| ==> blocks[i].kind != "scrape" && blocks[i].input == Some(blocks[i - 1].id)
  }

  ghost predicate OneWebhook(blocks: seq<Block>) {
    forall i, j :: 0 <= i < j < |blocks| ==> blocks[i].kind != "webhook" || blocks[j].kind != "webhook"
  }

  ghost predicate Typed(cs: seq<Config>) {
    forall i :: 1 <= i < |cs| ==> TypedAt(cs, i)
  }

  ghost predicate SomeCrash(k: Codec, d: Definition) {
    exists i :: 0 <= i < |d.blocks| && Crashes(k, d.blocks[i], d.inputs)
  }

  /** Everything but types and budget, which are judged once every block has parsed into one chain. */
  ghost predicate Structured(k: Codec, st: Settings, d: Definition)
    requires d.blocks != []
  {
    && NamesOk(d.inputs)
    && |d.blocks| <= st.maxBlocks
    && IdsDistinct(d.blocks)
    && BlocksOk(k, d)
    && AllUsed(d)
    && OneChain(d.blocks)
    && OneWebhook(d.blocks)
  }

  /** The definitions a pipeline may be made of: one chain of known, well-configured blocks from a
      scrape, each consuming what its predecessor produces, within the time a run may take. */
  ghost predicate Acceptable(k: Codec, st: Settings, d: Definition)
    requires d.blocks != []
  {
    && Structured(k, st, d)
    && Typed(Configs(k, d))
    && BudgetOk(d.budget, RunNeedSeconds(Timings(Configs(k, d))), st.maxRunSeconds)
  }

  /** What an accepted definition is stored as, secrets still in place. */
  ghost function Normalized(k: Codec, d: Definition): StoredDefinition
    requires AllParse(k, d)
  {
    StoredDefinition(d.inputs, d.budget,
      seq(|d.blocks|, i requires 0 <= i < |d.blocks| =>
        var b := d.blocks[i];
        StoredBlock(b.id, b.kind, b.input, Version(b), k.dump(ParsedBlock(k, b, d.inputs).value.config), map[])))
  }

  function RunBudget(declared: Option<int>, cs: seq<Config>): int {
    if declared.Some? then declared.value else RunNeedSeconds(Timings(cs))
  }

  // ----- the checks, as the validator makes them -----------------------------------------------

  /** `_parse_block`. `used'` is the caller's set after the call. */
  method ParseBlock(k: Codec, b: Block, declared: set<string>, used: set<Json>)
    returns (validated: Option<ValidatedBlock>, problems: seq<Problem>, used': set<Json>, raised: bool)
    ensures raised <==> Crashes(k, b, declared)
    ensures !raised ==> validated == ParsedBlock(k, b, declared)
    ensures !raised ==> (problems == [] <==> BlockOk(k, b, declared))
    ensures !raised ==> forall n :: Str(n) in used' <==> Str(n) in used || UsesInput(b, n)
  {
    problems, used', raised := [], used, false;
    var blockType := Lookup(b.kind);
    if blockType.None? {
      return None, [Problem(Some(b.id), UnknownType)], used, false;
    }
    var t := blockType.value;
    if Version(b) != CURRENT_VERSION {
      return None, [Problem(Some(b.id), UnknownVersion)], used, false;
    }
    var todo := Bindings(b.config);
    while todo != {}
      invariant todo <= Bindings(b.config)
      invariant forall f :: f in Bindings(b.config) - todo ==> !Unhashable(BindingName(b.config[f]))
      invariant problems == [] <==> forall f :: f in Bindings(b.config) - todo ==> BindingFits(t, f, b.config[f], declared)
      invariant forall n :: Str(n) in used' <==>
                  Str(n) in used || exists f :: f in Bindings(b.config) - todo && BindingName(b.config[f]) == Str(n)
      decreases todo
    {
      var f :| f in todo;
      var name := BindingName(b.config[f]);
      if Unhashable(name) {
        return None, [], used', true;
      }
      used' := used' + {name};
      if f !in BindableFields(t) {
        problems := problems + [Problem(Some(b.id), CannotBind(f))];
      } else if !(name.Str? && name.s in declared) {
        problems := problems + [Problem(Some(b.id), UndeclaredInput(f))];
      }
      ghost var before := todo;
      todo := todo - {f};
      assert Bindings(b.config) - todo == (Bindings(b.config) - before) + {f};
    }
    assert Bindings(b.config) - todo == Bindings(b.config);
    if problems != [] {
      return None, problems, used', false;
    }
    var reading := k.parse(t, b.config);
    if reading.ModelRaises? {
      return None, [], used', true;
    }
    if reading.Unreadable? {
      return None, [Problem(Some(b.id), BadConfig)], used', false;
    }
    var c := reading.config;
    problems, raised := SchemaProblems(k, b.id, c);
    if raised {
      return None, [], used', true;
    }
    return Some(ValidatedBlock(b.id, t, c, TimingOf(c))), problems, used', false;
  }

  /** `_json_schema_problems`. */
  method SchemaProblems(k: Codec, id: string, c: Config) returns (problems: seq<Problem>, raised: bool)
    ensures raised <==> BadDialect(k, c)
    ensures !raised ==> (problems == [] <==> SchemasOk(k, c))
  {
    problems, raised := [], false;
    for i := 0 to |Schemas(c)|
      invariant forall j :: 0 <= j < i ==> !k.judge(Schemas(c)[j]).SchemaRaises?
      invariant problems == [] <==> forall j :: 0 <= j < i ==> k.judge(Schemas(c)[j]).SchemaFine?
    {
      var verdict := k.judge(Schemas(c)[i]);
      if verdict.SchemaRaises? {
        return [], true;
      }
      if verdict.SchemaInvalid? {
        problems := problems + [Problem(Some(id), BadSchema)];
      }
    }
  }

  /** `_starting_block_problems`. */
  method StartingBlockProblems(blocks: seq<Block>) returns (problems: seq<Problem>)
    requires blocks != []
    ensures problems == [] <==> forall i :: 0 <= i < |blocks| ==> StartsAt(blocks, i)
    ensures problems == [] <==>
              && blocks[0].kind == "scrape" && blocks[0].input.None?
              && forall i :: 1 <= i < |blocks| ==> blocks[i].kind != "scrape" && blocks[i].input.Some?
  {
    AllStartRightly(blocks);
    problems := [];
    var first := blocks[0];
    if first.kind != "scrape" {
      problems := [Problem(Some(first.id), MustStartWithScrape)];
    } else if first.input.Some? {
      problems := [Problem(Some(first.id), StartTakesNoInput)];
    }
    assert problems == [] <==> StartsAt(blocks, 0);
    for i := 1 to |blocks|
      invariant problems == [] <==> forall j :: 0 <= j < i ==> StartsAt(blocks, j)
    {
      ghost var before := problems;
      if blocks[i].kind == "scrape" {
        problems := problems + [Problem(Some(blocks[i].id), SecondScrape)];
      } else if blocks[i].input.None? {
        problems := problems + [Problem(Some(blocks[i].id), NoInput)];
      }
      assert problems == before <==> StartsAt(blocks, i);
    }
  }

  lemma AllStartRightly(blocks: seq<Block>)
    requires blocks != []
    ensures (forall i :: 0 <= i < |blocks| ==> StartsAt(blocks, i)) <==>
              && blocks[0].kind == "scrape" && blocks[0].input.None?
              && forall i :: 1 <= i < |blocks| ==> blocks[i].kind != "scrape" && blocks[i].input.Some?
  {
    assert StartsAt(blocks, 0) <==> blocks[0].kind == "scrape" && blocks[0].input.None?;
    assert forall i :: 1 <= i < |blocks| ==> (StartsAt(blocks, i) <==> blocks[i].kind != "scrape" && blocks[i].input.Some?);
  }

  /** `_chain_problems`; `position` holds the last position of each id. */
  method ChainProblems(blocks: seq<Block>) returns (problems: seq<Problem>)
    requires blocks != []
    ensures problems == [] <==> forall i :: 1 <= i < |blocks| ==> Chained(blocks, i)
  {
    var position: map<string, nat> := map[];
    for i := 0 to |blocks| {
      position := position[blocks[i].id := i];
    }
    problems := [];
    for i := 1 to |blocks|
      invariant problems == [] <==> forall j :: 1 <= j < i ==> Chained(blocks, j)
    {
      var b := blocks[i];
      ghost var before := problems;
      if b.input.Some? && b.kind != "scrape" && b.input.value != blocks[i - 1].id {
        var reason :=
          if b.input.value !in position then UnknownBlock
          else if position[b.input.value] >= i then NotBefore
          else NotPrevious;
        problems := problems + [Problem(Some(b.id), reason)];
      }
      assert problems == before <==> Chained(blocks, i);
    }
  }

  /** `_type_problems`: stops at the first mismatch, since every later reference type is unknown. */
  method TypeProblems(parsed: seq<ValidatedBlock>) returns (problems: seq<Problem>)
    requires parsed != [] && parsed[0].blockType.Scrape?
    requires forall i :: 0 <= i < |parsed| ==> parsed[i].blockType == TypeOf(parsed[i].config)
    requires forall i :: 1 <= i < |parsed| ==> !parsed[i].blockType.Scrape?
    ensures var cs := seq(|parsed|, i requires 0 <= i < |parsed| => parsed[i].config);
            problems == [] <==> Typed(cs)
  {
    ghost var cs := seq(|parsed|, i requires 0 <= i < |parsed| => parsed[i].config);
    problems := [];
    var ref := Produces(parsed[0].config, PageHtml);
    for i := 1 to |parsed|
      invariant ref == RefAfter(cs, i)
      invariant problems == [] <==> forall j :: 1 <= j < i ==> TypedAt(cs, j)
    {
      var block := parsed[i];
      if ref !in Consumes(block.blockType) {
        problems := problems + [Problem(Some(block.id), DoesNotConsume)];
        assert !TypedAt(cs, i);
        return;
      }
      var checks := CheckInput(block.id, block.config, ref);
      problems := problems + checks;
      assert checks == [] <==> TypedAt(cs, i);
      ref := Produces(block.config, ref);
    }
  }

  /** `check_input` of the block's type. */
  method CheckInput(id: string, config: Config, ref: RefType) returns (problems: seq<Problem>)
    ensures problems == [] <==> RulesFit(config, ref)
    ensures problems == [] <==>
              config.ValidateConfig? ==> forall i :: 0 <= i < |config.rules| ==>
                var kind := config.rules[i].kind;
                if kind.Contains? || kind.MinLength? then ref != Extraction else ref == PageJson || ref == Extraction
  {
    problems := [];
    if config.ValidateConfig? {
      for i := 0 to |config.rules|
        invariant problems == [] <==> forall j :: 0 <= j < i ==> RuleFits(config.rules[j], ref)
      {
        var rule := config.rules[i];
        if rule.kind in JSON_RULES && ref !in JSON_DOCUMENTS {
          problems := problems + [Problem(Some(id), RuleDoesNotFit(i))];
        } else if rule.kind in TEXT_RULES && ref !in PAGES {
          problems := problems + [Problem(Some(id), RuleDoesNotFit(i))];
        }
      }
    }
  }

  method WebhookProblems(blocks: seq<Block>) returns (problems: seq<Problem>)
    ensures problems == [] <==> OneWebhook(blocks)
    ensures problems == [] <==>
              forall i, j :: 0 <= i < j < |blocks| ==> !(blocks[i].kind == "webhook" && blocks[j].kind == "webhook")
  {
    problems := [];
    var seen := false;
    for i := 0 to |blocks|
      invariant seen <==> exists a :: 0 <= a < i && blocks[a].kind == "webhook"
      invariant problems == [] <==>
                  forall a, b :: 0 <= a < b < i ==> blocks[a].kind != "webhook" || blocks[b].kind != "webhook"
    {
      if blocks[i].kind == "webhook" {
        if seen {
          problems := problems + [Problem(Some(blocks[i].id), SecondWebhook)];
        }
        seen := true;
      }
    }
  }

  /** `_budget_problems`. */
  method BudgetProblems(declared: Option<int>, parsed: seq<ValidatedBlock>, ceiling: int)
    returns (budget: int, problems: seq<Problem>)
    requires forall i :: 0 <= i < |parsed| ==> parsed[i].timing == TimingOf(parsed[i].config)
    ensures var cs := seq(|parsed|, i requires 0 <= i < |parsed| => parsed[i].config);
            && budget == RunBudget(declared, cs)
            && (problems == [] <==> BudgetOk(declared, RunNeedSeconds(Timings(cs)), ceiling))
            && (problems == [] <==>
                  && RunNeedSeconds(Timings(cs)) <= ceiling
                  && (declared.Some? ==> RunNeedSeconds(Timings(cs)) <= declared.value <= ceiling))
            && budget == (if declared.Some? then declared.value else RunNeedSeconds(Timings(cs)))
  {
    ghost var cs := seq(|parsed|, i requires 0 <= i < |parsed| => parsed[i].config);
    var needed := 0;
    for i := 0 to |parsed|
      invariant needed == RunNeedSeconds(Timings(cs)[..i])
    {
      assert Timings(cs)[..i + 1][..i] == Timings(cs)[..i];
      needed := needed + parsed[i].timing.Need();
    }
    assert Timings(cs)[..|parsed|] == Timings(cs);
    problems := [];
    if declared.Some? && declared.value < needed {
      problems := problems + [Problem(None, BudgetTooShort)];
    }
    if needed > ceiling {
      problems := problems + [Problem(None, OverLimit)];
    } else if declared.Some? && declared.value > ceiling {
      problems := problems + [Problem(None, DeclaredOverLimit)];
    }
    budget := if declared.Some? then declared.value else needed;
  }

  method NameProblems(inputs: set<string>) returns (problems: seq<Problem>)
    ensures problems == [] <==> NamesOk(inputs)
  {
    problems := [];
    var todo := inputs;
    while todo != {}
      invariant todo <= inputs
      invariant problems == [] <==> forall name :: name in inputs - todo ==> NameOk(name)
    {
      var name :| name in todo;
      if !NameOk(name) {
        problems := problems + [Problem(None, BadInputName(name))];
      }
      ghost var before := todo;
      todo := todo - {name};
      assert inputs - todo == (inputs - before) + {name};
    }
    assert inputs - todo == inputs;
  }

  method DuplicateProblems(blocks: seq<Block>) returns (problems: seq<Problem>)
    ensures problems == [] <==> IdsDistinct(blocks)
  {
    problems := [];
    var seen: set<string> := {};
    for i := 0 to |blocks|
      invariant forall id :: id in seen <==> exists a :: 0 <= a < i && blocks[a].id == id
      invariant problems == [] <==> forall a, b :: 0 <= a < b < i ==> blocks[a].id != blocks[b].id
    {
      if blocks[i].id in seen {
        problems := problems + [Problem(Some(blocks[i].id), DuplicateId)];
      }
      seen := seen + {blocks[i].id};
    }
  }

  /** The block loop of `validate`. `parsed` has a gap for no block that failed to parse. */
  method ParseBlocks(k: Codec, d: Definition)
    returns (parsed: seq<ValidatedBlock>, problems: seq<Problem>, used: set<Json>, raised: bool)
    ensures raised <==> SomeCrash(k, d)
    ensures !raised ==> (problems == [] <==> BlocksOk(k, d))
    ensures !raised ==> forall n :: Str(n) in used <==> Used(d.blocks, n)
    ensures !raised ==> |parsed| <= |d.blocks|
    ensures !raised && |parsed| == |d.blocks| ==>
              forall i :: 0 <= i < |d.blocks| ==> ParsedBlock(k, d.blocks[i], d.inputs) == Some(parsed[i])
    ensures !raised && problems == [] ==> |parsed| == |d.blocks|
  {
    hide Crashes, SchemasOk, ParsedBlock, UsesInput;
    parsed, problems, used, raised := [], [], {}, false;
    for i := 0 to |d.blocks|
      invariant forall j :: 0 <= j < i ==> !Crashes(k, d.blocks[j], d.inputs)
      invariant |parsed| <= i
      invariant problems == [] <==> forall j :: 0 <= j < i ==> BlockOk(k, d.blocks[j], d.inputs)
      invariant problems == [] ==> |parsed| == i
      invariant |parsed| == i ==> forall j :: 0 <= j < i ==> ParsedBlock(k, d.blocks[j], d.inputs) == Some(parsed[j])
      invariant forall n :: Str(n) in used <==> exists j :: 0 <= j < i && UsesInput(d.blocks[j], n)
    {
      var validated, found, used', crashed := ParseBlock(k, d.blocks[i], d.inputs, used);
      if crashed {
        raised := true;
        return;
      }
      used := used';
      problems := problems + found;
      if validated.Some? {
        parsed := parsed + [validated.value];
      }
    }
  }

  method UnusedProblems(inputs: set<string>, used: set<Json>) returns (problems: seq<Problem>)
    ensures problems == [] <==> forall name :: name in inputs ==> Str(name) in used
  {
    problems := [];
    var todo := inputs;
    while todo != {}
      invariant todo <= inputs
      invariant problems == [] <==> forall name :: name in inputs - todo ==> Str(name) in used
    {
      var name :| name in todo;
      if Str(name) !in used {
        problems := problems + [Problem(None, UnusedInput(name))];
      }
      ghost var before := todo;
      todo := todo - {name};
      assert inputs - todo == (inputs - before) + {name};
    }
    assert inputs - todo == inputs;
  }

  /** The checks of `validate` that need no reference types, and the blocks as far as they parse. */
  method StructureProblems(k: Codec, st: Settings, d: Definition)
    returns (problems: seq<Problem>, parsed: seq<ValidatedBlock>, oneChain: bool, raised: bool)
    requires d.blocks != []
    ensures raised <==> SomeCrash(k, d)
    ensures !raised ==> (oneChain <==> OneChain(d.blocks))
    ensures !raised ==> (problems == [] <==> Structured(k, st, d))
    ensures !raised && problems == [] ==> |parsed| == |d.blocks|
    ensures !raised && |parsed| == |d.blocks| ==>
              forall i :: 0 <= i < |d.blocks| ==> ParsedBlock(k, d.blocks[i], d.inputs) == Some(parsed[i])
  {
    var blocks := d.blocks;
    var names := NameProblems(d.inputs);
    var size := if |blocks| > st.maxBlocks then [Problem(None, TooManyBlocks)] else [];
    var duplicates := DuplicateProblems(blocks);
    var parseProblems, used;
    parsed, parseProblems, used, raised := ParseBlocks(k, d);
    if raised {
      problems, oneChain := [], false;
      return;
    }
    var unused := UnusedProblems(d.inputs, used);
    var starting := StartingBlockProblems(blocks);
    var chain := ChainProblems(blocks);
    var webhooks := WebhookProblems(blocks);
    ChainMeansPrevious(blocks);
    assert unused == [] <==> AllUsed(d);
    oneChain := starting == [] && chain == [];
    problems := names + size + duplicates + parseProblems + unused + starting + chain + webhooks;
  }

  /** `validate`, from a shaped definition on: it accepts exactly the acceptable definitions. */
  method ValidateDefinition(k: Codec, st: Settings, d: Definition) returns (v: Verdict)
    requires Shaped(d) && Faithful(k)
    ensures v.Raised? <==> exists i :: 0 <= i < |d.blocks| && RaisesOn(k, d.blocks[i], d.inputs)
    ensures v.Accepted? <==> Acceptable(k, st, d)
    ensures v.Refused? ==> v.problems != []
    ensures v.Accepted? ==>
              && v.pipeline.definition == Normalized(k, d)
              && v.pipeline.runBudget == RunBudget(d.budget, Configs(k, d))
              && |v.pipeline.blocks| == |d.blocks|
              && forall i :: 0 <= i < |d.blocks| ==> Some(v.pipeline.blocks[i]) == ParsedBlock(k, d.blocks[i], d.inputs)
  {
    hide RaisesOn, SomeCrash, BlockOk, ParsedBlock, UsesInput, NameOk, Faithful, TimingOf, TypedAt;
    var problems, parsed, oneChain, raised := StructureProblems(k, st, d);
    RaisesExactly(k, d);
    if raised {
      CrashingIsNotOk(k, d);
      return Raised;
    }
    var runBudget := 0;
    if |parsed| == |d.blocks| && oneChain {
      KindsFollow(k, d, parsed);
      var types := TypeProblems(parsed);
      var budget, budgets := BudgetProblems(d.budget, parsed, st.maxRunSeconds);
      runBudget := budget;
      assert Configs(k, d) == seq(|parsed|, i requires 0 <= i < |parsed| => parsed[i].config);
      problems := problems + types + budgets;
    }
    if problems != [] {
      return Refused(problems);
    }
    var stored := seq(|d.blocks|, i requires 0 <= i < |d.blocks| && |parsed| == |d.blocks| =>
      var b := d.blocks[i];
      StoredBlock(b.id, b.kind, b.input, Version(b), k.dump(parsed[i].config), map[]));
    v := Accepted(ValidatedPipeline(StoredDefinition(d.inputs, d.budget, stored), parsed, runBudget));
  }

  lemma RaisesExactly(k: Codec, d: Definition)
    requires Faithful(k)
    ensures SomeCrash(k, d) <==> exists i :: 0 <= i < |d.blocks| && RaisesOn(k, d.blocks[i], d.inputs)
  {
    forall i | 0 <= i < |d.blocks|
      ensures Crashes(k, d.blocks[i], d.inputs) <==> RaisesOn(k, d.blocks[i], d.inputs)
    {
      var b := d.blocks[i];
      if KnownType(b).Some? {
        assert FaithfulAt(k, KnownType(b).value, b.config);
      }
    }
  }

  lemma CrashingIsNotOk(k: Codec, d: Definition)
    requires SomeCrash(k, d)
    ensures !BlocksOk(k, d)
  {
    var i :| 0 <= i < |d.blocks| && Crashes(k, d.blocks[i], d.inputs);
    assert !BlockOk(k, d.blocks[i], d.inputs);
  }

  lemma KindsFollow(k: Codec, d: Definition, parsed: seq<ValidatedBlock>)
    requires Faithful(k) && d.blocks != [] && |parsed| == |d.blocks|
    requires forall i :: 0 <= i < |d.blocks| ==> ParsedBlock(k, d.blocks[i], d.inputs) == Some(parsed[i])
    requires OneChain(d.blocks)
    ensures forall i :: 0 <= i < |parsed| ==>
              parsed[i].blockType == TypeOf(parsed[i].config) && parsed[i].timing == TimingOf(parsed[i].config)
    ensures forall i :: 0 <= i < |parsed| ==> (parsed[i].blockType.Scrape? <==> i == 0)
  {
    forall i | 0 <= i < |parsed|
      ensures parsed[i].blockType == TypeOf(parsed[i].config) && parsed[i].timing == TimingOf(parsed[i].config)
      ensures parsed[i].blockType.Scrape? <==> i == 0
    {
      assert FaithfulAt(k, parsed[i].blockType, d.blocks[i].config);
    }
  }

  lemma ChainMeansPrevious(blocks: seq<Block>)
    requires blocks != []
    ensures (forall i :: 0 <= i < |blocks| ==> StartsAt(blocks, i)) && (forall i :: 1 <= i < |blocks| ==> Chained(blocks, i))
       <==> OneChain(blocks)
  {
    assert StartsAt(blocks, 0) <==> blocks[0].kind == "scrape" && blocks[0].input.None?;
    if OneChain(blocks) {
      forall i | 0 <= i < |blocks|
        ensures StartsAt(blocks, i) && (i >= 1 ==> Chained(blocks, i))
      {
        if i >= 1 {
          assert blocks[i].input == Some(blocks[i - 1].id);
        }
      }
    } else if forall i :: 0 <= i < |blocks| ==> StartsAt(blocks, i) {
      var i :| 1 <= i < |blocks| && !(blocks[i].kind != "scrape" && blocks[i].input == Some(blocks[i - 1].id));
      assert StartsAt(blocks, i) && !Chained(blocks, i);
    }
  }

  // ----- what is acceptable, in full --------------------------------------------------------------

  /** A block is in order when its type is known, its version absent, 0 or 1, nothing but a scrape's url is bound,
      and that to a declared name, its model reads it, and its JSON Schemas are fine. */
  lemma BlockOkInFull(k: Codec, b: Block, declared: set<string>)
    ensures BlockOk(k, b, declared) <==>
              && Lookup(b.kind).Some? && (b.version.Some? ==> b.version.value == 0 || b.version.value == 1)
              && (forall f :: f in b.config && b.config[f].Obj? && "$input" in b.config[f].fields ==>
                    && b.kind == "scrape" && f == "url"
                    && b.config[f].fields["$input"].Str? && b.config[f].fields["$input"].s in declared)
              && k.parse(Lookup(b.kind).value, b.config).Read?
              && forall i :: 0 <= i < |Schemas(k.parse(Lookup(b.kind).value, b.config).config)| ==>
                   k.judge(Schemas(k.parse(Lookup(b.kind).value, b.config).config)[i]).SchemaFine?
    ensures Lookup(b.kind) == match b.kind case "scrape" => Some(Scrape) case "clean" => Some(Clean)
                              case "llm_extract" => Some(LlmExtract) case "validate" => Some(Validate)
                              case "webhook" => Some(Webhook) case _ => None
  {
    if Lookup(b.kind).Some? {
      BindingsInFull(Lookup(b.kind).value, b, declared);
    }
  }

  lemma BindingsInFull(t: BlockType, b: Block, declared: set<string>)
    requires Lookup(b.kind) == Some(t)
    ensures BindingsFit(t, b.config, declared) <==>
              forall f :: f in b.config && b.config[f].Obj? && "$input" in b.config[f].fields ==>
                && b.kind == "scrape" && f == "url"
                && b.config[f].fields["$input"].Str? && b.config[f].fields["$input"].s in declared
  {
    assert t.Scrape? <==> b.kind == "scrape";
    forall f | f in b.config && IsBinding(b.config[f])
      ensures BindingFits(t, f, b.config[f], declared) <==>
                && b.kind == "scrape" && f == "url"
                && b.config[f].fields["$input"].Str? && b.config[f].fields["$input"].s in declared
    {
    }
    assert forall f :: f in Bindings(b.config) <==> f in b.config && b.config[f].Obj? && "$input" in b.config[f].fields;
  }

  /** Reading a block raises when its type is known, its version current, and either a binding of it, wherever it
      stands, names a list or an object, or its bindings fit and the actions of the scrape raise, or its config
      is read and the JSON Schema library raises on one of its schemas. */
  lemma RaisesInFull(k: Codec, b: Block, declared: set<string>)
    ensures RaisesOn(k, b, declared) <==>
              && Lookup(b.kind).Some? && (b.version.Some? ==> b.version.value == 0 || b.version.value == 1)
              && (|| (exists f :: f in b.config && b.config[f].Obj? && "$input" in b.config[f].fields
                                  && (b.config[f].fields["$input"].Arr? || b.config[f].fields["$input"].Obj?))
                  || (b.kind == "scrape" && BindingsFit(Scrape, b.config, declared) && ActionsRaise(b.config, k.numeral))
                  || (&& BindingsFit(Lookup(b.kind).value, b.config, declared)
                      && k.parse(Lookup(b.kind).value, b.config).Read?
                      && exists i :: 0 <= i < |Schemas(k.parse(Lookup(b.kind).value, b.config).config)|
                           && k.judge(Schemas(k.parse(Lookup(b.kind).value, b.config).config)[i]).SchemaRaises?))
    ensures forall name :: UsesInput(b, name) <==>
              && Lookup(b.kind).Some? && (b.version.Some? ==> b.version.value == 0 || b.version.value == 1)
              && exists f :: f in b.config && b.config[f].Obj? && "$input" in b.config[f].fields
                             && b.config[f].fields["$input"] == Str(name)
  {
    assert Lookup(b.kind) == Some(Scrape) <==> b.kind == "scrape";
    assert forall f :: f in Bindings(b.config) <==> f in b.config && b.config[f].Obj? && "$input" in b.config[f].fields;
  }

  /** What a block is given, and what may stand there: a clean block needs an HTML page, an extraction a page;
      a JSON rule needs JSON and a text rule a page; a webhook takes anything. */
  lemma WhatMayFollow(cs: seq<Config>, i: nat)
    requires 1 <= i < |cs|
    ensures var ref := RefAfter(cs, i);
            && (cs[i - 1].ScrapeConfig? ==>
                  ref == match cs[i - 1].format case Html => PageHtml case Markdown => PageMarkdown case JsonFormat => PageJson)
            && (cs[i - 1].CleanConfig? ==> ref == PageMarkdown)
            && (cs[i - 1].LlmExtractConfig? ==> ref == Extraction)
            && (i > 1 && (cs[i - 1].ValidateConfig? || cs[i - 1].WebhookConfig?) ==> ref == RefAfter(cs, i - 1))
            && (TypedAt(cs, i) <==>
                  match cs[i]
                  case ScrapeConfig(_, _, _, _, _, _, _) => false
                  case CleanConfig => ref == PageHtml
                  case LlmExtractConfig(_, _, _) => ref != Extraction
                  case WebhookConfig(_, _) => true
                  case ValidateConfig(rules) => forall j :: 0 <= j < |rules| ==>
                    if rules[j].kind.Contains? || rules[j].kind.MinLength? then ref != Extraction
                    else ref == PageJson || ref == Extraction)
  {
    var ref := RefAfter(cs, i);
    assert ref == PageHtml || ref == PageMarkdown || ref == PageJson || ref == Extraction;
  }

  /** A run input's name is a small letter, then up to 62 small letters, digits and underscores; and one newline
      may follow. */
  lemma NamesInFull(t: string)
    ensures var word := && 1 <= |t| <= 63 && 'a' <= t[0] <= 'z'
                        && forall i :: 1 <= i < |t| ==> 'a' <= t[i] <= 'z' || '0' <= t[i] <= '9' || t[i] == '_';
            && (NameOk(t + "\n") <==> word)
            && (t == "" || t[|t| - 1] != '\n' ==> (NameOk(t) <==> word))
  {
    var s := t + "\n";
    assert s[|s| - 1] == '\n' && s[..|s| - 1] == t;
    assert Stem(s) == t;
  }

  /** What a pipeline may be made of: at most so many blocks in order, of distinct ids, the first alone a scrape
      and each other fed by the one before it, at most one of them a webhook; well-named inputs, each used; types
      that fit; and a need within what is declared and what is allowed. */
  lemma AcceptableInFull(k: Codec, st: Settings, d: Definition)
    requires d.blocks != []
    ensures Acceptable(k, st, d) <==>
              && (forall name :: name in d.inputs ==> NameOk(name))
              && |d.blocks| <= st.maxBlocks
              && (forall i, j :: 0 <= i < j < |d.blocks| ==> d.blocks[i].id != d.blocks[j].id)
              && (forall i :: 0 <= i < |d.blocks| ==> BlockOk(k, d.blocks[i], d.inputs))
              && (forall name :: name in d.inputs ==> exists i :: 0 <= i < |d.blocks| && UsesInput(d.blocks[i], name))
              && d.blocks[0].kind == "scrape" && d.blocks[0].input.None?
              && (forall i :: 1 <= i < |d.blocks| ==>
                    d.blocks[i].kind != "scrape" && d.blocks[i].input == Some(d.blocks[i - 1].id))
              && (forall i, j :: 0 <= i < j < |d.blocks| ==> d.blocks[i].kind != "webhook" || d.blocks[j].kind != "webhook")
              && AllParse(k, d)
              && (forall i :: 1 <= i < |d.blocks| ==> TypedAt(Configs(k, d), i))
              && var need := RunNeedSeconds(Timings(Configs(k, d)));
                 need <= st.maxRunSeconds && (d.budget.Some? ==> need <= d.budget.value <= st.maxRunSeconds)
  {
    hide UsesInput, TypedAt, NameOk, ParsedBlock, SchemasOk;
  }

  // ----- definitions on which the validator raises ------------------------------------------------

  function Alone(config: Fields): Definition {
    Definition({}, None, [Block("page", "scrape", None, None, config)])
  }

  /** A url bound to a list: well shaped, and not a problem but a TypeError, whatever the models. */
  lemma ListedNameRaises(k: Codec)
    ensures var d := Alone(map["url" := Obj(map["$input" := Arr([])])]);
            Shaped(d) && SomeCrash(k, d)
  {
    var d := Alone(map["url" := Obj(map["$input" := Arr([])])]);
    assert "url" in Bindings(d.blocks[0].config);
    assert Lookup("scrape") == Some(Scrape);
    assert BadName(d.blocks[0]);
  }

  function Acting(action: Action): Definition {
    Alone(map["url" := Str("https://x/"), "engine" := Str("playwright"), "actions" := Arr([Obj(action)])])
  }

  /** A page action that raises makes the validator raise: a click whose type is a list, a wait without end. */
  lemma RaisingActionRaises(k: Codec, action: Action)
    requires Faithful(k) && Raising(action)
    ensures Shaped(Acting(action)) && SomeCrash(k, Acting(action))
  {
    var d := Acting(action);
    var b := d.blocks[0];
    assert Lookup("scrape") == Some(Scrape);
    assert Bindings(b.config) == {};
    var items := b.config["actions"].items;
    assert items[0] == Obj(action);
    assert GivenActions(b.config).value == [action];
    assert Raising([action][0]);
    assert FaithfulAt(k, Scrape, b.config);
  }

  lemma ListedTypeRaises(k: Codec)
    requires Faithful(k)
    ensures SomeCrash(k, Acting(map["type" := Arr([Str("click")])]))
  {
    RaisingActionRaises(k, map["type" := Arr([Str("click")])]);
  }

  lemma EndlessWaitRaises(k: Codec)
    requires Faithful(k)
    ensures SomeCrash(k, Acting(map["type" := Str("wait"), "milliseconds" := Infinite(false)]))
  {
    RaisingActionRaises(k, map["type" := Str("wait"), "milliseconds" := Infinite(false)]);
  }
}
