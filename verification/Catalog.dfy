/** The pipeline block catalog (api/app/pipelines/catalog.py): what each block consumes, produces and
    how long it may take. */
module Catalog {
  import opened Common
  import opened Json

  // ----- reference types ------------------------------------------------------------------

  datatype RefType = PageHtml | PageMarkdown | PageJson | Extraction

  const PAGES: set<RefType> := {PageHtml, PageMarkdown, PageJson}
  const JSON_DOCUMENTS: set<RefType> := {PageJson, Extraction}
  const ALL_REFS: set<RefType> := PAGES + {Extraction}

  // ----- timing ---------------------------------------------------------------------------

  const SCHEDULE_TO_START_SECONDS: nat := 60
  const SCRAPE_SCHEDULE_TO_START_SECONDS: nat := 300
  const HOST_SLOT_SECONDS: nat := 660
  const BLOCK_OVERHEAD_SECONDS: nat := 60

  datatype Timing = Timing(
    startToClose: nat,
    maximumAttempts: nat,
    initialInterval: nat,
    backoffCoefficient: real,
    maximumInterval: nat,
    heartbeat: Option<nat>,
    scheduleToStart: nat,
    hostSlot: nat)
  {
    /** The backoff after attempt `n` (from 0), as the retry policy computes it. */
    function Wait(n: nat): real {
      var grown := initialInterval as real * Power(backoffCoefficient, n);
      if grown <= maximumInterval as real then grown else maximumInterval as real
    }

    function Waits(count: nat): real {
      if count == 0 then 0.0 else Waits(count - 1) + Wait(count - 1)
    }

    function PerAttempt(): nat { scheduleToStart + startToClose }

    function Budget(): int {
      maximumAttempts * PerAttempt() + Ceiling(Waits(if maximumAttempts == 0 then 0 else maximumAttempts - 1))
    }

    function Need(): int {
      Budget() + hostSlot + BLOCK_OVERHEAD_SECONDS
    }
  }

  function Power(base: real, n: nat): real {
    if n == 0 then 1.0 else base * Power(base, n - 1)
  }

  function Ceiling(x: real): int {
    -((-x).Floor)
  }

  lemma CeilingIsLeast(x: real, c: int)
    ensures x <= c as real <==> Ceiling(x) <= c
  {
    if x <= c as real {
      assert -(c as real) <= -x;
    }
  }

  function RunNeedSeconds(timings: seq<Timing>): int {
    if timings == [] then 0 else RunNeedSeconds(timings[..|timings| - 1]) + timings[|timings| - 1].Need()
  }

  lemma NeedAddsUp(timings: seq<Timing>, t: Timing)
    ensures RunNeedSeconds([]) == 0
    ensures RunNeedSeconds(timings + [t]) == RunNeedSeconds(timings) + t.Budget() + t.hostSlot + 60
  {
    assert (timings + [t])[..|timings|] == timings;
  }

  // ----- what the engine may do with a timing ----------------------------------------------

  /** One attempt: its wait in the queue, its run, and the backoff before the next attempt. */
  datatype Attempt = Attempt(queued: real, ran: real, backoff: real)

  /** A retry history the policy allows. The last attempt has no backoff after it. */
  ghost predicate Allowed(t: Timing, s: seq<Attempt>) {
    && 1 <= |s| <= t.maximumAttempts
    && (forall i :: 0 <= i < |s| ==>
          && 0.0 <= s[i].queued <= t.scheduleToStart as real
          && 0.0 <= s[i].ran <= t.startToClose as real
          && s[i].backoff == if i < |s| - 1 then t.Wait(i) else 0.0)
  }

  function Duration(s: seq<Attempt>): real {
    if s == [] then 0.0
    else Duration(s[..|s| - 1]) + s[|s| - 1].queued + s[|s| - 1].ran + s[|s| - 1].backoff
  }

  ghost predicate Policy(t: Timing) {
    t.maximumAttempts >= 1 && t.backoffCoefficient >= 1.0
  }

  lemma {:induction false} PowerIsPositive(base: real, n: nat)
    requires base >= 1.0
    ensures Power(base, n) >= 1.0
  {
    if n > 0 {
      PowerIsPositive(base, n - 1);
      assert base * Power(base, n - 1) >= base * 1.0;
    }
  }

  lemma WaitIsNonNegative(t: Timing, n: nat)
    requires Policy(t)
    ensures t.Wait(n) >= 0.0
  {
    PowerIsPositive(t.backoffCoefficient, n);
    assert t.initialInterval as real * Power(t.backoffCoefficient, n) >= 0.0;
  }

  lemma {:induction false} WaitsGrow(t: Timing, a: nat, b: nat)
    requires Policy(t) && a <= b
    ensures 0.0 <= t.Waits(a) <= t.Waits(b)
    decreases b
  {
    if b > 0 {
      WaitIsNonNegative(t, b - 1);
      if a < b {
        WaitsGrow(t, a, b - 1);
      } else {
        WaitsGrow(t, a - 1, b - 1);
      }
    }
  }

  /** `k` attempts at their limits, without backoffs. */
  function AtLimit(t: Timing, k: nat): int {
    if k == 0 then 0 else AtLimit(t, k - 1) + t.PerAttempt()
  }

  lemma {:induction false} AtLimitIsProduct(t: Timing, k: nat)
    ensures AtLimit(t, k) == k * t.PerAttempt()
  {
    if k > 0 {
      AtLimitIsProduct(t, k - 1);
    }
  }

  lemma {:induction false} AtLimitGrows(t: Timing, a: nat, b: nat)
    requires a <= b
    ensures AtLimit(t, a) <= AtLimit(t, b)
  {
    if a < b {
      AtLimitGrows(t, a, b - 1);
    }
  }

  /** The first `k` attempts take no longer than `k` attempts at their limits plus their backoffs. */
  lemma {:induction false} PrefixWithinLimits(t: Timing, s: seq<Attempt>, k: nat)
    requires Policy(t) && Allowed(t, s) && k <= |s|
    ensures Duration(s[..k]) <= AtLimit(t, k) as real + t.Waits(if k == 0 || k < |s| then k else k - 1)
  {
    if k > 0 {
      PrefixWithinLimits(t, s, k - 1);
      assert s[..k][..k - 1] == s[..k - 1];
    }
  }

  /** The slowest history: every attempt the policy grants, each at its limits. */
  function Slowest(t: Timing): seq<Attempt> {
    seq(t.maximumAttempts, i requires 0 <= i =>
      Attempt(t.scheduleToStart as real, t.startToClose as real, if i < t.maximumAttempts - 1 then t.Wait(i) else 0.0))
  }

  lemma {:induction false} SlowestIsAtLimit(t: Timing, k: nat)
    requires k <= t.maximumAttempts
    ensures Duration(Slowest(t)[..k])
         == AtLimit(t, k) as real + t.Waits(if k < t.maximumAttempts || k == 0 then k else k - 1)
  {
    if k > 0 {
      SlowestIsAtLimit(t, k - 1);
      assert Slowest(t)[..k][..k - 1] == Slowest(t)[..k - 1];
    }
  }

  lemma AllowedWithinBudget(t: Timing, s: seq<Attempt>)
    requires Policy(t) && Allowed(t, s)
    ensures Duration(s) <= t.Budget() as real
  {
    var n := t.maximumAttempts;
    PrefixWithinLimits(t, s, |s|);
    assert s[..|s|] == s;
    WaitsGrow(t, |s| - 1, n - 1);
    AtLimitGrows(t, |s|, n);
    AtLimitIsProduct(t, n);
    CeilingIsLeast(t.Waits(n - 1), Ceiling(t.Waits(n - 1)));
  }

  lemma SlowestNeedsBudget(t: Timing, c: int)
    requires Policy(t) && c < t.Budget()
    ensures Allowed(t, Slowest(t)) && Duration(Slowest(t)) > c as real
  {
    var n := t.maximumAttempts;
    SlowestIsAtLimit(t, n);
    assert Slowest(t)[..n] == Slowest(t);
    AtLimitIsProduct(t, n);
    CeilingIsLeast(t.Waits(n - 1), c - AtLimit(t, n));
  }

  /** The budget is exactly what the retry policy needs: a whole number of seconds lets every allowed
      history finish if and only if it is at least the budget, so a shorter `schedule_to_close` would
      cut some history off. */
  lemma BudgetIsLeastCover(t: Timing, c: int)
    requires Policy(t)
    ensures (forall s | Allowed(t, s) :: Duration(s) <= c as real) <==> t.Budget() <= c
  {
    if t.Budget() <= c {
      forall s | Allowed(t, s)
        ensures Duration(s) <= c as real
      {
        AllowedWithinBudget(t, s);
      }
    } else {
      SlowestNeedsBudget(t, c);
      assert Allowed(t, Slowest(t));
    }
  }

  // ----- configs --------------------------------------------------------------------------

  datatype Engine = Http | Playwright

  datatype OutputFormat = Html | Markdown | JsonFormat

  datatype Url = Literal(url: string) | Bound(input: string)

  datatype RuleKind = JsonSchema | Present | Type | Compare | Contains | MinLength

  const JSON_RULES: set<RuleKind> := {JsonSchema, Present, Type, Compare}
  const TEXT_RULES: set<RuleKind> := {Contains, MinLength}

  datatype Rule = Rule(kind: RuleKind, body: Json)

  /** A config a catalog model has accepted. Secret fields hold what was submitted; `rest` is every
      field nothing here reads. */
  datatype Config =
    | ScrapeConfig(url: Url, format: OutputFormat, engine: Engine, renderSeconds: Option<nat>,
                   proxyUrl: Json, cookies: Json, rest: Json)
    | CleanConfig
    | LlmExtractConfig(keyId: string, model: string, schema: Json)
    | ValidateConfig(rules: seq<Rule>)
    | WebhookConfig(target: string, secret: Json)

  // ----- block types ----------------------------------------------------------------------

  datatype BlockType = Scrape | Clean | LlmExtract | Validate | Webhook

  function TypeOf(c: Config): BlockType {
    match c
    case ScrapeConfig(_, _, _, _, _, _, _) => Scrape
    case CleanConfig => Clean
    case LlmExtractConfig(_, _, _) => LlmExtract
    case ValidateConfig(_) => Validate
    case WebhookConfig(_, _) => Webhook
  }

  function Lookup(name: string): Option<BlockType> {
    if name == "scrape" then Some(Scrape)
    else if name == "clean" then Some(Clean)
    else if name == "llm_extract" then Some(LlmExtract)
    else if name == "validate" then Some(Validate)
    else if name == "webhook" then Some(Webhook)
    else None
  }

  /** Every type has one config schema version today. */
  const CURRENT_VERSION: int := 1

  predicate IsContent(t: BlockType) {
    t.Scrape? || t.Clean? || t.LlmExtract?
  }

  function Consumes(t: BlockType): set<RefType> {
    match t
    case Scrape => {}
    case Clean => {PageHtml}
    case LlmExtract => PAGES
    case Validate | Webhook => ALL_REFS
  }

  function Produces(c: Config, input: RefType): RefType {
    match c
    case ScrapeConfig(_, format, _, _, _, _, _) =>
      (match format case Html => PageHtml case Markdown => PageMarkdown case JsonFormat => PageJson)
    case CleanConfig => PageMarkdown
    case LlmExtractConfig(_, _, _) => Extraction
    case ValidateConfig(_) | WebhookConfig(_, _) => input
  }

  function BindableFields(t: BlockType): set<string> {
    if t.Scrape? then {"url"} else {}
  }

  function SecretFields(t: BlockType): set<string> {
    match t
    case Scrape => {"proxy_url", "cookies"}
    case Webhook => {"secret"}
    case _ => {}
  }

  /** Indices of the rules a Validate block's input type cannot satisfy. */
  predicate RuleFits(r: Rule, ref: RefType) {
    && (r.kind in JSON_RULES ==> ref in JSON_DOCUMENTS)
    && (r.kind in TEXT_RULES ==> ref in PAGES)
  }

  function WorkerRetry(startToClose: nat, heartbeat: Option<nat>, scheduleToStart: nat, hostSlot: nat): Timing {
    Timing(startToClose, 3, 5, 2.0, 60, heartbeat, scheduleToStart, hostSlot)
  }

  const DEFAULT_RENDER_SECONDS: nat := 60

  function TimingOf(c: Config): (t: Timing)
    ensures Policy(t)
  {
    match c
    case ScrapeConfig(_, _, engine, renderSeconds, _, _, _) =>
      if engine.Playwright? then
        var render := if renderSeconds.Some? then renderSeconds.value else DEFAULT_RENDER_SECONDS;
        WorkerRetry(2 * render + 60, Some(90), SCRAPE_SCHEDULE_TO_START_SECONDS, HOST_SLOT_SECONDS)
      else WorkerRetry(90, None, SCRAPE_SCHEDULE_TO_START_SECONDS, HOST_SLOT_SECONDS)
    case CleanConfig | ValidateConfig(_) => WorkerRetry(60, None, SCHEDULE_TO_START_SECONDS, 0)
    case LlmExtractConfig(_, _, _) => WorkerRetry(400, Some(90), SCHEDULE_TO_START_SECONDS, 0)
    case WebhookConfig(_, _) => Timing(20, 5, 30, 10.0, 7200, None, SCHEDULE_TO_START_SECONDS, 0)
  }

  /** What a block of each type adds to a run's need, in seconds: its attempts queued and run to their limits, the
      backoffs between them, the wait for a host, and a minute. */
  lemma NeedInSeconds(c: Config)
    ensures c.ScrapeConfig? && c.engine.Http? ==> TimingOf(c).Budget() == 1185 && TimingOf(c).Need() == 1905
    ensures c.ScrapeConfig? && c.engine.Playwright? ==>
              var render := if c.renderSeconds.Some? then c.renderSeconds.value else 60;
              TimingOf(c).Budget() == 1095 + 6 * render && TimingOf(c).Need() == 1815 + 6 * render
    ensures c.CleanConfig? || c.ValidateConfig? ==> TimingOf(c).Budget() == 375 && TimingOf(c).Need() == 435
    ensures c.LlmExtractConfig? ==> TimingOf(c).Budget() == 1395 && TimingOf(c).Need() == 1455
    ensures c.WebhookConfig? ==> TimingOf(c).Budget() == 10_930 && TimingOf(c).Need() == 10_990
  {
    var t := TimingOf(c);
    assert Power(t.backoffCoefficient, 0) == 1.0 && Power(t.backoffCoefficient, 1) == t.backoffCoefficient;
    if c.WebhookConfig? {
      assert Power(10.0, 2) == 100.0 && Power(10.0, 3) == 1000.0;
      assert t.Wait(0) == 30.0 && t.Wait(1) == 300.0 && t.Wait(2) == 3000.0 && t.Wait(3) == 7200.0;
      assert t.Waits(0) == 0.0 && t.Waits(1) == 30.0 && t.Waits(2) == 330.0 && t.Waits(3) == 3330.0;
      assert t.Waits(4) == 10_530.0;
    } else {
      assert t.Wait(0) == 5.0 && t.Wait(1) == 10.0;
      assert t.Waits(0) == 0.0 && t.Waits(1) == 5.0 && t.Waits(2) == 15.0;
    }
  }
}
