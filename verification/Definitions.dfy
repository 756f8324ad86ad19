/** Stored definitions: what saving one writes (api/app/routers/pipelines.py), what the API returns, and
    what a run reads back (api/app/pipelines/definition.py). */
module Definitions {
  import opened Common
  import opened Json
  import opened Catalog
  import opened Documents
  import opened PageActions
  import opened Validator

  /** What encrypting a block's secret field yields on this save. */
  type Cipher = (string, string, Json) -> string

  // ----- moving secrets out of the config --------------------------------------------------------

  /** Secret fields present in each block's submitted config: present means set or clear. */
  function GivenIn(b: Block): set<string> {
    match Lookup(b.kind)
    case None => {}
    case Some(t) => SecretFields(t) * b.config.Keys
  }

  /** A block's secrets after a save: a submitted field replaces or clears, the rest is kept. */
  function NewSecrets(t: BlockType, id: string, c: Config, given: set<string>, kept: map<string, string>, e: Cipher)
    : map<string, string>
  {
    map n | n in SecretFields(t) && (if n in given then Truthy(Secret(c, n)) else n in kept) ::
      if n in given then e(id, n, Secret(c, n)) else kept[n]
  }

  function KeptSecrets(previous: Option<StoredDefinition>, id: string): map<string, string> {
    match previous
    case None => map[]
    case Some(p) => LastSecrets(p.blocks, id)
  }

  function LastSecrets(blocks: seq<StoredBlock>, id: string): map<string, string> {
    if blocks == [] then map[]
    else if blocks[|blocks| - 1].id == id then blocks[|blocks| - 1].secrets
    else LastSecrets(blocks[..|blocks| - 1], id)
  }

  ghost function PreparedBlock(k: Codec, b: Block, v: ValidatedBlock, previous: Option<StoredDefinition>, e: Cipher): StoredBlock {
    StoredBlock(b.id, b.kind, b.input, Version(b), Nulled(k.dump(v.config), SecretFields(v.blockType)),
                NewSecrets(v.blockType, b.id, v.config, GivenIn(b), KeptSecrets(previous, b.id), e))
  }

  /** What saving an acceptable definition over `previous` stores. */
  ghost function Prepared(k: Codec, d: Definition, previous: Option<StoredDefinition>, e: Cipher): StoredDefinition
    requires AllParse(k, d)
  {
    StoredDefinition(d.inputs, d.budget,
      seq(|d.blocks|, i requires 0 <= i < |d.blocks| =>
        PreparedBlock(k, d.blocks[i], ParsedBlock(k, d.blocks[i], d.inputs).value, previous, e)))
  }

  /** `_given_secrets`, by block id. */
  method GivenSecrets(blocks: seq<Block>) returns (given: map<string, set<string>>)
    ensures IdsDistinct(blocks) ==> forall i :: 0 <= i < |blocks| ==>
              (if blocks[i].id in given then given[blocks[i].id] else {}) == GivenIn(blocks[i])
  {
    given := map[];
    for i := 0 to |blocks|
      invariant forall id :: id in given ==> exists j :: 0 <= j < i && blocks[j].id == id
      invariant IdsDistinct(blocks) ==> forall j :: 0 <= j < i ==>
                  (if blocks[j].id in given then given[blocks[j].id] else {}) == GivenIn(blocks[j])
    {
      var t := Lookup(blocks[i].kind);
      if t.Some? {
        given := given[blocks[i].id := set n | n in SecretFields(t.value) && n in blocks[i].config];
      }
      assert IdsDistinct(blocks) ==> forall j :: 0 <= j < i ==> blocks[j].id != blocks[i].id;
    }
  }

  /** The inner loop of `_store_secrets`: one block's secret fields. */
  method StoreBlockSecrets(v: ValidatedBlock, config: Fields, given: set<string>, kept: map<string, string>, e: Cipher)
    returns (config': Fields, secrets: map<string, string>)
    ensures config' == Nulled(config, SecretFields(v.blockType))
    ensures secrets == NewSecrets(v.blockType, v.id, v.config, given, kept, e)
  {
    config', secrets := config, map[];
    var all := SecretFields(v.blockType);
    ghost var target := NewSecrets(v.blockType, v.id, v.config, given, kept, e);
    var todo := all;
    while todo != {}
      invariant todo <= all
      invariant config'.Keys == config.Keys + (all - todo)
      invariant forall f :: f in config' ==> config'[f] == if f in all - todo then Null else config[f]
      invariant forall n :: n in secrets <==> n in target && n !in todo
      invariant forall n :: n in secrets ==> secrets[n] == target[n]
      decreases todo
    {
      var name :| name in todo;
      if name in given {
        var value := Secret(v.config, name);
        if Truthy(value) {
          secrets := secrets[name := e(v.id, name, value)];
        }
      } else if name in kept {
        secrets := secrets[name := kept[name]];
      }
      config' := config'[name := Null];
      todo := todo - {name};
    }
  }

  /** `_store_secrets`. */
  method StoreSecrets(p: ValidatedPipeline, given: map<string, set<string>>, previous: Option<StoredDefinition>, e: Cipher)
    returns (stored: StoredDefinition)
    requires |p.definition.blocks| == |p.blocks|
    requires forall i :: 0 <= i < |p.blocks| ==> p.definition.blocks[i].id == p.blocks[i].id
    ensures stored.inputs == p.definition.inputs && stored.budget == p.definition.budget
    ensures |stored.blocks| == |p.blocks|
    ensures forall i :: 0 <= i < |p.blocks| ==>
              var v := p.blocks[i];
              stored.blocks[i] == p.definition.blocks[i].(
                config := Nulled(p.definition.blocks[i].config, SecretFields(v.blockType)),
                secrets := NewSecrets(v.blockType, v.id, v.config, if v.id in given then given[v.id] else {},
                                      KeptSecrets(previous, v.id), e))
  {
    var blocks: seq<StoredBlock> := [];
    for i := 0 to |p.blocks|
      invariant |blocks| == i
      invariant forall j :: 0 <= j < i ==>
                  var v := p.blocks[j];
                  blocks[j] == p.definition.blocks[j].(
                    config := Nulled(p.definition.blocks[j].config, SecretFields(v.blockType)),
                    secrets := NewSecrets(v.blockType, v.id, v.config, if v.id in given then given[v.id] else {},
                                          KeptSecrets(previous, v.id), e))
    {
      var v, b := p.blocks[i], p.definition.blocks[i];
      var config, secrets := StoreBlockSecrets(v, b.config, if v.id in given then given[v.id] else {},
                                               KeptSecrets(previous, v.id), e);
      blocks := blocks + [b.(config := config, secrets := secrets)];
    }
    stored := StoredDefinition(p.definition.inputs, p.definition.budget, blocks);
  }

  /** `_prepare_definition`, key ownership and SSRF checks aside: nothing is stored unless acceptable. */
  method PrepareDefinition(k: Codec, st: Settings, d: Definition, previous: Option<StoredDefinition>, e: Cipher)
    returns (r: Result<StoredDefinition, Verdict>)
    requires Shaped(d) && Faithful(k)
    ensures r.Ok? <==> Acceptable(k, st, d)
    ensures r.Ok? ==> r.value == Prepared(k, d, previous, e)
  {
    var given := GivenSecrets(d.blocks);
    var v := ValidateDefinition(k, st, d);
    if !v.Accepted? {
      return Err(v);
    }
    var stored := StoreSecrets(v.pipeline, given, previous, e);
    assert stored.blocks == Prepared(k, d, previous, e).blocks;
    return Ok(stored);
  }

  // ----- what the API returns ---------------------------------------------------------------------

  /** A stored definition as the API shows it: secrets named, never their values. */
  datatype Public = Public(inputs: set<string>, budget: Option<int>, blocks: seq<PublicBlock>)

  datatype PublicBlock = PublicBlock(id: string, kind: string, input: Option<string>, version: int,
                                     config: Fields, secretNames: set<string>)

  function Shown(b: StoredBlock): PublicBlock {
    var hidden := match Lookup(b.kind) case None => {} case Some(t) => SecretFields(t);
    PublicBlock(b.id, b.kind, b.input, b.version, b.config - hidden, b.secrets.Keys)
  }

  /** `_public_definition`. */
  method PublicDefinition(s: StoredDefinition) returns (p: Public)
    ensures p == ShownDefinition(s)
    ensures p.inputs == s.inputs && p.budget == s.budget && |p.blocks| == |s.blocks|
    ensures forall i :: 0 <= i < |s.blocks| ==>
              var b, q := s.blocks[i], p.blocks[i];
              && q.id == b.id && q.kind == b.kind && q.input == b.input && q.version == b.version
              && q.secretNames == b.secrets.Keys
    // A scrape's proxy and cookies and a webhook's secret are left out of the config, and nothing else.
    ensures forall i, f :: 0 <= i < |s.blocks| ==>
              var b, q := s.blocks[i], p.blocks[i];
              && (f in q.config <==>
                    && f in b.config && !(b.kind == "scrape" && (f == "proxy_url" || f == "cookies"))
                    && !(b.kind == "webhook" && f == "secret"))
              && (f in q.config ==> q.config[f] == b.config[f])
  {
    forall i | 0 <= i < |s.blocks| ensures LeavesOutSecrets(s.blocks[i], Shown(s.blocks[i])) {
      ShownLeavesOutSecrets(s.blocks[i]);
    }
    var blocks: seq<PublicBlock> := [];
    for i := 0 to |s.blocks|
      invariant |blocks| == i && forall j :: 0 <= j < i ==> blocks[j] == Shown(s.blocks[j])
    {
      var b := s.blocks[i];
      var config := b.config;
      var t := Lookup(b.kind);
      var todo := if t.Some? then SecretFields(t.value) else {};
      ghost var hidden := todo;
      while todo != {}
        invariant todo <= hidden
        invariant config == b.config - (hidden - todo)
        decreases todo
      {
        var name :| name in todo;
        config := config - {name};
        todo := todo - {name};
      }
      blocks := blocks + [PublicBlock(b.id, b.kind, b.input, b.version, config, b.secrets.Keys)];
    }
    assert blocks == ShownDefinition(s).blocks;
    p := Public(s.inputs, s.budget, blocks);
  }

  predicate LeavesOutSecrets(b: StoredBlock, q: PublicBlock) {
    && q.config.Keys <= b.config.Keys
    && forall f | f in b.config ::
         && (f in q.config <==>
               && !(b.kind == "scrape" && (f == "proxy_url" || f == "cookies"))
               && !(b.kind == "webhook" && f == "secret"))
         && (f in q.config ==> q.config[f] == b.config[f])
  }

  lemma ShownLeavesOutSecrets(b: StoredBlock)
    ensures LeavesOutSecrets(b, Shown(b))
  {
  }

  /** What is saved of a block: its config as the model writes it, but for its write-only fields, which are
      null; and of those, and no others, a ciphertext. */
  lemma SavedWithoutSecrets(k: Codec, b: Block, declared: set<string>, previous: Option<StoredDefinition>, e: Cipher, f: string)
    requires Faithful(k) && ParsedBlock(k, b, declared).Some?
    ensures var v := ParsedBlock(k, b, declared).value;
            var s, config := PreparedBlock(k, b, v, previous, e), k.dump(v.config);
            var writeOnly := (b.kind == "scrape" && (f == "proxy_url" || f == "cookies"))
                             || (b.kind == "webhook" && f == "secret");
            && s.id == b.id && s.kind == b.kind && s.input == b.input && s.version == 1
            && (if writeOnly then f in s.config && s.config[f] == Null
                else f !in s.secrets && (f in s.config <==> f in config) && (f in config ==> s.config[f] == config[f]))
  {
    TypesKnown(k, b, declared);
    assert Lookup(b.kind) == Some(Scrape) <==> b.kind == "scrape";
    assert Lookup(b.kind) == Some(Webhook) <==> b.kind == "webhook";
  }

  function ShownDefinition(s: StoredDefinition): Public {
    Public(s.inputs, s.budget, seq(|s.blocks|, i requires 0 <= i < |s.blocks| => Shown(s.blocks[i])))
  }

  /** A returned definition submitted as it is: the list of secret names is dropped on the way in. */
  function Resubmitted(p: Public): Definition {
    Definition(p.inputs, p.budget,
      seq(|p.blocks|, i requires 0 <= i < |p.blocks| =>
        var b := p.blocks[i];
        Block(b.id, b.kind, b.input, Some(b.version), b.config)))
  }

  // ----- the round trip ------------------------------------------------------------------------------

  lemma TypesKnown(k: Codec, b: Block, declared: set<string>)
    requires Faithful(k) && ParsedBlock(k, b, declared).Some?
    ensures var v := ParsedBlock(k, b, declared).value;
            && KnownType(b) == Lookup(b.kind) == Some(v.blockType) && Version(b) == CURRENT_VERSION
            && v.blockType == TypeOf(v.config) && v.id == b.id
            && k.parse(v.blockType, b.config) == Read(v.config)
            && ReadFaithfully(k, v.blockType, b.config, v.config)
  {
    assert FaithfulAt(k, KnownType(b).value, b.config);
  }

  /** One block, stored, returned and submitted again, parses to its config without the secrets and is
      still acceptable where it was. */
  lemma BlockAgain(k: Codec, b: Block, declared: set<string>, previous: Option<StoredDefinition>, e: Cipher, b': Block)
    requires Faithful(k) && BlockOk(k, b, declared) && FiniteFields(b.config)
    requires var s := PreparedBlock(k, b, ParsedBlock(k, b, declared).value, previous, e);
             b' == Block(s.id, s.kind, s.input, Some(s.version), Shown(s).config)
    ensures BlockOk(k, b', declared)
    ensures ParsedBlock(k, b', declared).value.config == Erase(ParsedBlock(k, b, declared).value.config)
    ensures ParsedBlock(k, b', declared).value.blockType == ParsedBlock(k, b, declared).value.blockType
    ensures forall name :: UsesInput(b, name) ==> UsesInput(b', name)
    ensures GivenIn(b') == {}
  {
    TypesKnown(k, b, declared);
    var v := ParsedBlock(k, b, declared).value;
    var t, c := v.blockType, v.config;
    assert b'.config == k.dump(Erase(c)) - SecretFields(t);
    assert SameBindings(k.dump(c), b.config);
    forall f | f in Bindings(b'.config)
      ensures BindingFits(t, f, b'.config[f], declared)
    {
      assert f in Bindings(b.config);
    }
    forall f | f in Bindings(b.config)
      ensures f in Bindings(b'.config) && BindingName(b'.config[f]) == BindingName(b.config[f])
    {
      assert BindingFits(t, f, b.config[f], declared);
    }
  }

  lemma {:induction false} ErasedTypes(cs: seq<Config>, es: seq<Config>, i: nat)
    requires 1 <= i <= |cs| == |es|
    requires forall j :: 0 <= j < |cs| ==> es[j] == Erase(cs[j])
    ensures RefAfter(es, i) == RefAfter(cs, i)
  {
    if i > 1 {
      ErasedTypes(cs, es, i - 1);
    }
  }

  lemma ErasedChain(cs: seq<Config>, es: seq<Config>)
    requires |cs| == |es| && forall j :: 0 <= j < |cs| ==> es[j] == Erase(cs[j])
    ensures Typed(cs) ==> Typed(es)
    ensures Timings(es) == Timings(cs)
  {
    if Typed(cs) {
      forall i | 1 <= i < |es|
        ensures TypedAt(es, i)
      {
        assert TypedAt(cs, i);
        ErasedTypes(cs, es, i);
      }
    }
  }

  lemma {:induction false} SecretsOfPrepared(s: seq<StoredBlock>, i: nat)
    requires i < |s| && forall a, b :: 0 <= a < b < |s| ==> s[a].id != s[b].id
    ensures LastSecrets(s, s[i].id) == s[i].secrets
  {
    if i < |s| - 1 {
      SecretsOfPrepared(s[..|s| - 1], i);
    }
  }

  /** Block by block, what is submitted back is what was there. */
  lemma BlocksAgain(k: Codec, d: Definition, previous: Option<StoredDefinition>, e: Cipher)
    requires Faithful(k) && BlocksOk(k, d) && Storable(d)
    ensures var again := Resubmitted(ShownDefinition(Prepared(k, d, previous, e)));
            && BlocksOk(k, again)
            && Configs(k, again) == seq(|d.blocks|, i requires 0 <= i < |d.blocks| => Erase(Configs(k, d)[i]))
            && forall name :: Used(d.blocks, name) ==> Used(again.blocks, name)
  {
    hide ParsedBlock, UsesInput, Erase, Faithful;
    var again := Resubmitted(ShownDefinition(Prepared(k, d, previous, e)));
    forall i | 0 <= i < |d.blocks|
      ensures BlockOk(k, again.blocks[i], d.inputs)
      ensures ParsedBlock(k, again.blocks[i], d.inputs).value.config == Erase(Configs(k, d)[i])
      ensures forall name :: UsesInput(d.blocks[i], name) ==> UsesInput(again.blocks[i], name)
    {
      BlockAgain(k, d.blocks[i], d.inputs, previous, e, again.blocks[i]);
    }
    forall name | Used(d.blocks, name) ensures Used(again.blocks, name) {
      var i :| 0 <= i < |d.blocks| && UsesInput(d.blocks[i], name);
      assert UsesInput(again.blocks[i], name);
    }
  }

  lemma NamesAgain(k: Codec, d: Definition, previous: Option<StoredDefinition>, e: Cipher)
    requires AllParse(k, d)
    ensures var again := Resubmitted(ShownDefinition(Prepared(k, d, previous, e)));
            forall i :: 0 <= i < |d.blocks| ==>
              && again.blocks[i].id == d.blocks[i].id && again.blocks[i].kind == d.blocks[i].kind
              && again.blocks[i].input == d.blocks[i].input
  {
    hide ParsedBlock;
  }

  lemma AgainAcceptable(k: Codec, st: Settings, d: Definition, previous: Option<StoredDefinition>, e: Cipher)
    requires Faithful(k) && Shaped(d) && Acceptable(k, st, d) && Storable(d)
    ensures var again := Resubmitted(ShownDefinition(Prepared(k, d, previous, e)));
            Shaped(again) && Acceptable(k, st, again)
  {
    hide Used, ParsedBlock, PreparedBlock, SchemasOk, Faithful;
    var again := Resubmitted(ShownDefinition(Prepared(k, d, previous, e)));
    BlocksAgain(k, d, previous, e);
    NamesAgain(k, d, previous, e);
    ErasedChain(Configs(k, d), Configs(k, again));
    OneChainAgain(d.blocks, again.blocks);
  }

  /** Submitting back what the API returned stores an equal definition, ciphertexts included, whatever
      encryption would yield now; so an update that sends it makes no new version. */
  lemma RoundTrip(k: Codec, st: Settings, d: Definition, previous: Option<StoredDefinition>, e: Cipher, e': Cipher)
    requires Faithful(k) && Shaped(d) && Acceptable(k, st, d) && Storable(d)
    ensures var s := Prepared(k, d, previous, e);
            var again := Resubmitted(ShownDefinition(s));
            && Shaped(again) && Acceptable(k, st, again)
            && Prepared(k, again, Some(s), e') == s
  {
    hide PreparedBlock, ParsedBlock, Shown, Faithful;
    var s := Prepared(k, d, previous, e);
    var again := Resubmitted(ShownDefinition(s));
    AgainAcceptable(k, st, d, previous, e);
    forall i | 0 <= i < |s.blocks|
      ensures Prepared(k, again, Some(s), e').blocks[i] == s.blocks[i]
    {
      assert BlockOk(k, again.blocks[i], d.inputs);
      SameBlock(k, d, i, previous, e, e');
    }
    assert Prepared(k, again, Some(s), e').blocks == s.blocks;
  }

  lemma OneChainAgain(blocks: seq<Block>, again: seq<Block>)
    requires blocks != [] && |blocks| == |again|
    requires forall i :: 0 <= i < |blocks| ==>
               again[i].id == blocks[i].id && again[i].kind == blocks[i].kind && again[i].input == blocks[i].input
    ensures OneChain(again) == OneChain(blocks) && IdsDistinct(again) == IdsDistinct(blocks)
    ensures OneWebhook(again) == OneWebhook(blocks)
  {
    forall i | 1 <= i < |blocks|
      ensures (again[i].input == Some(again[i - 1].id)) == (blocks[i].input == Some(blocks[i - 1].id))
    {
    }
  }

  lemma SameBlock(k: Codec, d: Definition, i: nat, previous: Option<StoredDefinition>, e: Cipher, e': Cipher)
    requires Faithful(k) && BlocksOk(k, d) && IdsDistinct(d.blocks) && i < |d.blocks| && Storable(d)
    requires var s := Prepared(k, d, previous, e);
             ParsedBlock(k, Resubmitted(ShownDefinition(s)).blocks[i], d.inputs).Some?
    ensures var s := Prepared(k, d, previous, e);
            var b := Resubmitted(ShownDefinition(s)).blocks[i];
            PreparedBlock(k, b, ParsedBlock(k, b, d.inputs).value, Some(s), e') == s.blocks[i]
  {
    var s := Prepared(k, d, previous, e);
    var b := Resubmitted(ShownDefinition(s)).blocks[i];
    hide ParsedBlock, PreparedBlock, BlockOk, Faithful, LastSecrets, Erase, GivenIn, UsesInput;
    assert BlockOk(k, d.blocks[i], d.inputs);
    assert FiniteFields(d.blocks[i].config);
    PreparedKeeps(k, d, previous, e);
    BlockAgain(k, d.blocks[i], d.inputs, previous, e, b);
    SecretsOfPrepared(s.blocks, i);
    SameSecrets(k, d.blocks[i], d.inputs, b, previous, e, Some(s), e');
  }

  lemma PreparedKeeps(k: Codec, d: Definition, previous: Option<StoredDefinition>, e: Cipher)
    requires AllParse(k, d)
    ensures forall i :: 0 <= i < |d.blocks| ==> Prepared(k, d, previous, e).blocks[i].id == d.blocks[i].id
  {
  }

  lemma SameSecrets(k: Codec, b: Block, declared: set<string>, b': Block, previous: Option<StoredDefinition>, e: Cipher,
                    s: Option<StoredDefinition>, e': Cipher)
    requires Faithful(k) && BlockOk(k, b, declared) && ParsedBlock(k, b', declared).Some?
    requires ParsedBlock(k, b', declared).value.blockType == ParsedBlock(k, b, declared).value.blockType
    requires ParsedBlock(k, b', declared).value.config == Erase(ParsedBlock(k, b, declared).value.config)
    requires var stored := PreparedBlock(k, b, ParsedBlock(k, b, declared).value, previous, e);
             && b' == Block(stored.id, stored.kind, stored.input, Some(stored.version), Shown(stored).config)
             && GivenIn(b') == {} && KeptSecrets(s, b.id) == stored.secrets
    ensures PreparedBlock(k, b', ParsedBlock(k, b', declared).value, s, e')
         == PreparedBlock(k, b, ParsedBlock(k, b, declared).value, previous, e)
  {
    TypesKnown(k, b, declared);
    hide ParsedBlock, Faithful, BlockOk, Erase, ReadsBack, SameBindings, GivenIn, KeptSecrets;
    var v := ParsedBlock(k, b, declared).value;
    var t := v.blockType;
    var stored := PreparedBlock(k, b, v, previous, e);
    assert Nulled(k.dump(Erase(v.config)), SecretFields(t)) == Nulled(k.dump(v.config), SecretFields(t));
    assert NewSecrets(t, b.id, Erase(v.config), {}, stored.secrets, e') == stored.secrets;
  }

  /** For any edit of a stored definition, a kept block's secret is replaced, cleared or kept exactly as
      the field was sent non-empty, sent empty, or not sent; a new block has only what it sent. */
  lemma EditedSecrets(k: Codec, st: Settings, d: Definition, s: StoredDefinition, e: Cipher, i: nat, name: string)
    requires Faithful(k) && Shaped(d) && Acceptable(k, st, d) && i < |d.blocks|
    requires forall a, b :: 0 <= a < b < |s.blocks| ==> s.blocks[a].id != s.blocks[b].id
    requires Lookup(d.blocks[i].kind).Some? && name in SecretFields(Lookup(d.blocks[i].kind).value)
    ensures var b, stored := d.blocks[i], Prepared(k, d, Some(s), e).blocks[i];
            var value := Secret(ParsedBlock(k, b, d.inputs).value.config, name);
            && stored.config[name] == Null
            && (name in b.config && Truthy(value) ==> stored.secrets[name] == e(b.id, name, value))
            && (name in b.config && !Truthy(value) ==> name !in stored.secrets)
            && (name !in b.config ==>
                  forall j :: 0 <= j < |s.blocks| && s.blocks[j].id == b.id ==>
                    (name in stored.secrets <==> name in s.blocks[j].secrets)
                    && (name in stored.secrets ==> stored.secrets[name] == s.blocks[j].secrets[name]))
            && (name !in b.config && (forall j :: 0 <= j < |s.blocks| ==> s.blocks[j].id != b.id) ==>
                  name !in stored.secrets)
  {
    var b := d.blocks[i];
    assert BlockOk(k, b, d.inputs);
    TypesKnown(k, b, d.inputs);
    forall j | 0 <= j < |s.blocks| && s.blocks[j].id == b.id
      ensures KeptSecrets(Some(s), b.id) == s.blocks[j].secrets
    {
      SecretsOfPrepared(s.blocks, j);
    }
    if forall j :: 0 <= j < |s.blocks| ==> s.blocks[j].id != b.id {
      NoSecrets(s.blocks, b.id);
    }
  }

  lemma {:induction false} NoSecrets(blocks: seq<StoredBlock>, id: string)
    requires forall j :: 0 <= j < |blocks| ==> blocks[j].id != id
    ensures LastSecrets(blocks, id) == map[]
  {
    if blocks != [] {
      NoSecrets(blocks[..|blocks| - 1], id);
    }
  }

  // ----- reading a stored definition back ---------------------------------------------------------------

  datatype RunBlock = RunBlock(id: string, input: Option<string>, config: Config)

  datatype Parsed = Parsed(inputs: set<string>, budget: Option<int>, blocks: seq<RunBlock>)

  function RunConfigs(blocks: seq<RunBlock>): seq<Config> {
    seq(|blocks|, i requires 0 <= i < |blocks| => blocks[i].config)
  }

  /** `ParsedDefinition.run_budget_seconds`. */
  function RunBudgetSeconds(p: Parsed): int {
    if p.budget.Some? then p.budget.value else RunNeedSeconds(Timings(RunConfigs(p.blocks)))
  }

  function ReadBlock(k: Codec, b: StoredBlock): Option<RunBlock> {
    match Lookup(b.kind)
    case None => None
    case Some(t) =>
      if b.version != CURRENT_VERSION then None
      else match k.parse(t, b.config)
           case Read(c) => Some(RunBlock(b.id, b.input, c))
           case _ => None
  }

  /** Reading the stored block raises something else than ValidationError. */
  predicate RaisesRead(k: Codec, b: StoredBlock) {
    Lookup(b.kind) == Some(Scrape) && b.version == CURRENT_VERSION && ActionsRaise(b.config, k.numeral)
  }

  /** `parse_definition`: typed blocks and stored secrets by block id, or a problem for every block that
      cannot be read, or for there being none; unless the page actions of one raise. */
  method ParseDefinition(k: Codec, s: StoredDefinition)
    returns (r: Result<Parsed, seq<(string, Reason)>>, secrets: map<string, map<string, string>>, raised: bool)
    requires Faithful(k)
    ensures raised <==> exists i :: 0 <= i < |s.blocks| && RaisesRead(k, s.blocks[i])
    ensures r.Ok? <==> s.blocks != [] && forall i :: 0 <= i < |s.blocks| ==> ReadBlock(k, s.blocks[i]).Some?
    ensures r.Ok? ==> r.value.inputs == s.inputs && r.value.budget == s.budget && |r.value.blocks| == |s.blocks|
    ensures r.Ok? ==> forall i :: 0 <= i < |s.blocks| ==> Some(r.value.blocks[i]) == ReadBlock(k, s.blocks[i])
    ensures r.Ok? ==> forall id :: (if id in secrets then secrets[id] else map[]) == LastNonEmpty(s.blocks, id)
    ensures r.Ok? && (forall a, b :: 0 <= a < b < |s.blocks| ==> s.blocks[a].id != s.blocks[b].id) ==>
              forall i :: 0 <= i < |s.blocks| ==>
                (if s.blocks[i].id in secrets then secrets[s.blocks[i].id] else map[]) == s.blocks[i].secrets
  {
    hide ReadBlock, LastNonEmpty, RaisesRead, Faithful;
    raised := false;
    if s.blocks == [] {
      return Err([("", NoBlocks)]), map[], false;
    }
    secrets := SecretsById(s.blocks);
    var problems: seq<(string, Reason)> := [];
    var blocks: seq<RunBlock> := [];
    for i := 0 to |s.blocks|
      invariant forall j :: 0 <= j < i ==> !RaisesRead(k, s.blocks[j])
      invariant problems == [] <==> forall j :: 0 <= j < i ==> ReadBlock(k, s.blocks[j]).Some?
      invariant problems == [] ==> |blocks| == i
      invariant problems == [] ==> forall j :: 0 <= j < i ==> Some(blocks[j]) == ReadBlock(k, s.blocks[j])
    {
      var block, reason, crashed := ReadOne(k, s.blocks[i]);
      if crashed {
        return Err([]), map[], true;
      }
      if block.None? {
        problems := problems + [(s.blocks[i].id, reason)];
      } else {
        blocks := blocks + [block.value];
      }
    }
    if problems != [] {
      r := Err(problems);
    } else {
      r := Ok(Parsed(s.inputs, s.budget, blocks));
      if forall a, b :: 0 <= a < b < |s.blocks| ==> s.blocks[a].id != s.blocks[b].id {
        forall i | 0 <= i < |s.blocks| ensures LastNonEmpty(s.blocks, s.blocks[i].id) == s.blocks[i].secrets {
          OwnSecrets(s.blocks, i);
        }
      }
    }
  }

  method ReadOne(k: Codec, b: StoredBlock) returns (block: Option<RunBlock>, reason: Reason, raised: bool)
    requires Faithful(k)
    ensures raised <==> RaisesRead(k, b)
    ensures block == ReadBlock(k, b) && (raised ==> block.None?)
    ensures block.Some? <==> Lookup(b.kind).Some? && b.version == 1 && k.parse(Lookup(b.kind).value, b.config).Read?
    ensures block.Some? ==> block.value == RunBlock(b.id, b.input, k.parse(Lookup(b.kind).value, b.config).config)
  {
    var t := Lookup(b.kind);
    if t.None? {
      return None, UnknownType, false;
    }
    if b.version != CURRENT_VERSION {
      return None, UnknownVersion, false;
    }
    var reading := k.parse(t.value, b.config);
    assert FaithfulAt(k, t.value, b.config);
    match reading {
      case Read(c) => return Some(RunBlock(b.id, b.input, c)), BadConfig, false;
      case Unreadable => return None, BadConfig, false;
      case ModelRaises => return None, BadConfig, true;
    }
  }

  method SecretsById(blocks: seq<StoredBlock>) returns (secrets: map<string, map<string, string>>)
    ensures forall id :: (if id in secrets then secrets[id] else map[]) == LastNonEmpty(blocks, id)
  {
    secrets := map[];
    for i := 0 to |blocks|
      invariant forall id :: (if id in secrets then secrets[id] else map[]) == LastNonEmpty(blocks[..i], id)
    {
      var b := blocks[i];
      assert blocks[..i + 1][..i] == blocks[..i];
      if b.secrets != map[] {
        secrets := secrets[b.id := b.secrets];
      }
    }
    assert blocks[..|blocks|] == blocks;
  }

  lemma {:induction false} NobodysSecrets(blocks: seq<StoredBlock>, id: string)
    requires forall j :: 0 <= j < |blocks| ==> blocks[j].id != id || blocks[j].secrets == map[]
    ensures LastNonEmpty(blocks, id) == map[]
  {
    if blocks != [] {
      NobodysSecrets(blocks[..|blocks| - 1], id);
    }
  }

  /** Where ids do not repeat, each block's secrets are its own. */
  lemma {:induction false} OwnSecrets(blocks: seq<StoredBlock>, i: nat)
    requires i < |blocks| && forall a, b :: 0 <= a < b < |blocks| ==> blocks[a].id != blocks[b].id
    ensures LastNonEmpty(blocks, blocks[i].id) == blocks[i].secrets
  {
    var front := blocks[..|blocks| - 1];
    if i < |front| {
      OwnSecrets(front, i);
    } else {
      NobodysSecrets(front, blocks[i].id);
    }
  }

  function LastNonEmpty(blocks: seq<StoredBlock>, id: string): map<string, string> {
    if blocks == [] then map[]
    else
      var b := blocks[|blocks| - 1];
      if b.id == id && b.secrets != map[] then b.secrets else LastNonEmpty(blocks[..|blocks| - 1], id)
  }

  // ----- what a run may rely on ---------------------------------------------------------------------------

  /** A definition a run can interpret without going wrong. */
  ghost predicate Runnable(p: Parsed) {
    && p.blocks != []
    && (forall i :: 0 <= i < |p.blocks| ==> p.blocks[i].id != "")
    && (forall i, j :: 0 <= i < j < |p.blocks| ==> p.blocks[i].id != p.blocks[j].id)
    && (forall i :: 0 <= i < |p.blocks| ==> (p.blocks[i].config.ScrapeConfig? <==> i == 0))
    && p.blocks[0].input.None?
    && (forall i :: 1 <= i < |p.blocks| ==> p.blocks[i].input == Some(p.blocks[i - 1].id))
    && (forall i :: 0 <= i < |p.blocks| && p.blocks[i].config.ScrapeConfig? && p.blocks[i].config.url.Bound? ==>
          p.blocks[i].config.url.input in p.inputs)
    && Typed(RunConfigs(p.blocks))
    && RunNeedSeconds(Timings(RunConfigs(p.blocks))) <= RunBudgetSeconds(p)
  }

  lemma BlockReadsBack(k: Codec, b: Block, declared: set<string>, previous: Option<StoredDefinition>, e: Cipher)
    requires Faithful(k) && BlockOk(k, b, declared) && FiniteFields(b.config)
    ensures var v := ParsedBlock(k, b, declared).value;
            && ReadBlock(k, PreparedBlock(k, b, v, previous, e)) == Some(RunBlock(b.id, b.input, Erase(v.config)))
            && (v.config.ScrapeConfig? <==> b.kind == "scrape")
            && (v.config.ScrapeConfig? && v.config.url.Bound? ==> v.config.url.input in declared)
  {
    TypesKnown(k, b, declared);
    var v := ParsedBlock(k, b, declared).value;
    assert PreparedBlock(k, b, v, previous, e).config == k.dump(Erase(v.config));
    if v.config.ScrapeConfig? && v.config.url.Bound? {
      assert "url" in Bindings(b.config);
    }
  }

  /** What is read back from storage is the accepted chain: every block parses, with its id, its input
      and its config but for the secrets; the run budget is the one validated; and it can be run. */
  lemma StoredReadsBack(k: Codec, st: Settings, d: Definition, previous: Option<StoredDefinition>, e: Cipher, p: Parsed)
    requires Faithful(k) && Shaped(d) && Acceptable(k, st, d) && Storable(d)
    requires var s := Prepared(k, d, previous, e);
             && p.inputs == s.inputs && p.budget == s.budget && |p.blocks| == |s.blocks|
             && forall i :: 0 <= i < |s.blocks| ==> ReadBlock(k, s.blocks[i]).Some? ==> Some(p.blocks[i]) == ReadBlock(k, s.blocks[i])
    ensures forall i :: 0 <= i < |d.blocks| ==>
              && ReadBlock(k, Prepared(k, d, previous, e).blocks[i]).Some?
              && p.blocks[i] == RunBlock(d.blocks[i].id, d.blocks[i].input, Erase(Configs(k, d)[i]))
    ensures RunBudgetSeconds(p) == RunBudget(d.budget, Configs(k, d))
    ensures Runnable(p)
  {
    hide ReadBlock, PreparedBlock, ParsedBlock, Faithful;
    var s := Prepared(k, d, previous, e);
    forall i | 0 <= i < |d.blocks|
      ensures ReadBlock(k, s.blocks[i]).Some?
      ensures p.blocks[i] == RunBlock(d.blocks[i].id, d.blocks[i].input, Erase(Configs(k, d)[i]))
      ensures p.blocks[i].config.ScrapeConfig? <==> d.blocks[i].kind == "scrape"
      ensures p.blocks[i].config.ScrapeConfig? && p.blocks[i].config.url.Bound? ==> p.blocks[i].config.url.input in d.inputs
    {
      assert BlockOk(k, d.blocks[i], d.inputs);
      BlockReadsBack(k, d.blocks[i], d.inputs, previous, e);
    }
    ErasedChain(Configs(k, d), RunConfigs(p.blocks));
    ChainReadsBack(d.blocks, p.blocks);
  }

  lemma ChainReadsBack(blocks: seq<Block>, run: seq<RunBlock>)
    requires blocks != [] && OneChain(blocks) && IdsDistinct(blocks) && |run| == |blocks|
    requires forall i :: 0 <= i < |run| ==>
               && run[i].id == blocks[i].id && run[i].input == blocks[i].input
               && (run[i].config.ScrapeConfig? <==> blocks[i].kind == "scrape")
    ensures run[0].input.None?
    ensures forall i, j :: 0 <= i < j < |run| ==> run[i].id != run[j].id
    ensures forall i :: 0 <= i < |run| ==> (run[i].config.ScrapeConfig? <==> i == 0)
    ensures forall i :: 1 <= i < |run| ==> run[i].input == Some(run[i - 1].id)
  {
    forall i | 1 <= i < |run|
      ensures run[i].input == Some(run[i - 1].id) && !run[i].config.ScrapeConfig?
    {
      assert blocks[i].input == Some(blocks[i - 1].id);
    }
  }
}
