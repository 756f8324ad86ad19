# Verification of the workflow core

This project models the part of ScrapeFlow that runs scrapes as durable workflows over a metered,
multi-tenant store, and proves properties of it in Dafny 4.11. `dafny verify dfyconfig.toml` checks all of it.

Code that works step by step is modelled step by step: classes with the source's fields, loops with the
source's loops, each method proved against a specification. Where tasks interleave, the specification is a
state machine whose steps are the stretches between two awaits; a theorem about it is a statement about every
interleaving, and the class is proved to run only as the machine allows. What the code cannot decide (answers
of activities, deletes that fail, cancels, durations, the order of a set) is left open, so that every result
holds for all of it.

| File | What it covers |
|---|---|
| `HostLimiter.dfy` | the Redis lease script, against the plain history of its calls |
| `HostSlot.dfy`, `HostSlotSafety.dfy` | lease lifetimes, the polling loop, and the whole lease protocol in time |
| `Catalog.dfy`, `PageActions.dfy`, `Documents.dfy`, `Validator.dfy`, `Definitions.dfy` | pipeline timing and typing, page actions, save-time validation, storing, showing and reading a definition |
| `PipelineRun.dfy`, `PipelineSoundness.dfy`, `SmallPipeline.dfy` | the interpreter of a pipeline, what holds of all its runs, and a run that meets every assumption |
| `CrawlProtocol.dfy`, `Crawl.dfy`, `Sitemaps.dfy` | the crawl loop under interleaved pages, and the sitemap expansion |
| `Batch.dfy`, `ScheduledJob.dfy`, `JobRun.dfy` | batch fan-out, a scheduled tick's wait, one job run against the API's cancel |
| `Ledger.dfy`, `Cleanup.dfy`, `Reconcile.dfy` | the storage ledger, the nightly cleanup, the auditor and its dry run |
| `Admission.dfy`, `RateLimit.dfy` | the count meters under concurrency, the sliding-window limiter |
| `JsonPointer.dfy`, `Robots.dfy` | JSON Pointer evaluation (RFC 6901), the robots.txt decision (RFC 9309) |

What is supposed of code outside the model is written down as a predicate: `Documents.Faithful` (the config
models keep the type asked for, read back what they write of a config without infinite numbers, bind what was bound
unless something is bound that cannot be, and let through no exception but that of `validate_page_actions`),
`PipelineSoundness.Contract` and `HostSlot.WithinTimeouts` (activities end within their timeouts, and a content
block's object is of its block's type), `CrawlProtocol.ClaimContract` (a claim brings at most `limit` pages, none
of those the run said it is fetching), `ScheduledJob.LastChanceIsLast`, `Sitemaps.Contract`, `JsonPointer.Python`
(the ASCII digits are digits). `SmallPipeline.AssumptionsCanBeMet` shows that those of the pipeline theorem can
all hold at once, of models that take a bound URL and page
actions and drop the unknown keys of a nested object.

## Where the code does less than it says

Each is stated with the exact condition under which the code does what is promised, and an input that shows it
does not always.

- A crawl can forget a page's failure. The loop looks at `_failure` only at its top and at its end; a page that
  fails while the next claim is awaited, as the last one in flight, is lost if that claim is empty and the run is
  full: the run continues as new (`CrawlProtocol.FailureLostExactly`, `CrawlProtocol.FailureCanBeLost`).
- A terminal row can be rewritten. Every writer of `job_runs.status` tests the row but `fail_unstarted_run` and
  `fail_unstarted_batch`: a run cancelled while its start is being refused, or one the engine took and completed
  before its start was reported failed, becomes failed. Rows absorb if and only if no failing start finds its run
  cancelled or completed (`JobRun.TerminalRowsAbsorb`, `JobRun.NeverRelabelled`, `JobRun.FailedStartRelabels`).
  Even so no terminal row is active again, nor a cancelled run completed (`JobRun.NeverRevived`).
- A job run whose `read_llm_settings` fails for good is mirrored failed without a discard list: what the scrape
  stored stays in the bucket, uncharged (`JobRun.JobWorkflow.Run`, `JobRun.UnreadSettingsLeak`).
- `Retry-After` is rounded down, so a client that obeys it is refused again unless the remaining time was a whole
  number of seconds or less than one (`RateLimit.RetryAfterSufficesExactly`, `RateLimit.RetryAfterTooShort`). For a
  batch it is the oldest unit's time: a batch that lacks k places is refused again unless the k-th oldest unit
  has left by then, and one larger than the limit always
  (`RateLimit.BatchRetryExactly`, `RateLimit.BatchRetryTooShort`, `RateLimit.OversizedBatchNeverFits`).
- `_resolve` asks `str.isdigit`, which accepts digits that are not ASCII: an Arabic-Indic three is read as an
  index, a superscript two makes `int` raise (`JsonPointer.ConformsExactly`, `JsonPointer.ForeignDigits`).
- `validate` raises, and gives no list of problems, if and only if some block's binding names a list or an object;
  or its bindings fit and its page actions raise; or its config is read and the JSON Schema library raises. The page
  actions raise if and only if they are a list of at most 20 objects, one of which has a list or an object for its
  type or waits for an infinite number of milliseconds, and all before it pass: `int` and the lookup of the type
  raise OverflowError and TypeError, and the config models turn only ValueError into a problem
  (`Validator.ValidateDefinition`, `PageActions.ValidatePageActions`; `Validator.ListedNameRaises`,
  `Validator.ListedTypeRaises`, `Validator.EndlessWaitRaises`, `SmallPipeline.ListedDialectRaises`).
- The auditor's dry run foretells the repair if and only if the moves of the objects removed between listing and
  stat come to nothing for every user (`Reconcile.DryRunForetellsExactly`, `Reconcile.VanishingObjectMisleads`).
- A robots.txt disallow that ties with a later allow wins; section 2.2.2 of RFC 9309 lets the allow win
  (`Robots.FollowsRfcExactly`, `Robots.TieGoesToTheFirst`).

## Model

| member | source | states |
|---|---|---|
| HostLimiter.LiveWithinLimit | api/app/core/host_limiter.py:14-41 | after any history of acquires and releases the script can produce, live leases number at most the limit, at every instant from its last call on |
| HostLimiter.LiveWithinLimitThroughout | api/app/core/host_limiter.py:14-41 | the same bound between any two calls of a longer history |
| HostLimiter.GrantsApart | api/app/core/host_limiter.py:29-40 | two distinct grants are at least the interval apart, whatever was released in between |
| HostLimiter.RepeatedAcquireChangesNothing | api/app/core/host_limiter.py:22-25 | an acquire that repeats a live lease answers 0 and changes neither a lease nor the rate window |
| HostLimiter.ExpiryKeepsLiveLeases | api/app/core/host_limiter.py:34-36 | the key's own expiry never takes a live lease with it: what the set still shows above any later instant is exactly the live leases |
| HostLimiter.LiveExactly | api/app/core/host_limiter.py:21-41 | a lease is live exactly when one call of the history granted it, for long enough, and neither a release nor another grant of it came after |
| HostLimiter.DecisionIsOwed | api/app/core/host_limiter.py:21-41 | after any legal history a caller gets a slot if and only if it holds one, or fewer than the limit are held and every grant is at least the interval old; -1 means the limit is held by others; n > 0 that the latest grant is the interval old in n milliseconds; a slot newly got is held until its time is up, and nothing else changes |
| HostLimiter.HostKeys.AcquireScript | api/app/core/host_limiter.py:14-41 | from the sorted set and the marker key alone, the script answers what the caller is owed by the whole history, as just said, leaves the leases that follow from it, and the keys go on mirroring the history |
| HostLimiter.HostKeys.Acquire | api/app/core/host_limiter.py:14-41 | every acquire is answered as owed and keeps the history legal |
| HostLimiter.HostKeys.Release | api/app/core/host_limiter.py:78-79 | a release ends that lease for every instant and no other |
| HostLimiter.AcquireAnswer | api/app/core/host_limiter.py:51-75 | a caller is told to wait exactly when the script did not grant: until the window reopens, or a second, and at most the jitter more |
| HostSlot.DirectLeaseIsBudgetAndMargin | api/app/workflows/steps.py:99-112 | the lease of a direct scrape is the least whole number of seconds covering its retry policy, plus the margin: the rule a pipeline's Scrape block follows |
| HostSlot.LeaseInSeconds | api/app/workflows/steps.py:42-53 | the same in seconds: 1233 over HTTP, 1143 and six render times in the browser |
| HostSlot.AsksAreSpaced | api/app/workflows/steps.py:147-189 | the k-th ask of a busy host starts no earlier than the doubling delays allow and no later than the cap |
| HostSlot.WaitsAsTold | api/app/workflows/steps.py:147-153 | after a busy answer the next ask comes no sooner than the limiter said nor, after the first, the backoff; but at the cap in any case |
| HostSlot.LastAskDecides | api/app/workflows/steps.py:166-189 | an ask is followed by another exactly when it was answered busy before the cap and no cancel came; else the wait ends held, failed open, past the cap or cancelled as answer, instant and cancel say |
| HostSlot.TwentyFiveAsksAtMost | api/app/workflows/steps.py:156-189 | no wait survives its 25th ask, whatever the answers and delays |
| HostSlot.WaitForHostSlot | api/app/workflows/steps.py:156-189 | at most 25 acquires, at most the cap plus one acquire timeout; the outcome is that of the first ask not followed by another; a lease it was told of is returned to be released, or released before a cancel is raised again |
| HostSlot.BusyHost | api/app/workflows/steps.py:147-189 | the bounds are reached: a host that always answers busy at once is asked until the cap, 24 waits long |
| HostSlotSafety.InvThroughout | api/app/workflows/steps.py:54-63 | along every interleaving of workflows, scripts, late ones included, and engine within their timeouts, the time since a lease was learned is covered by the attempts and backoffs so far, and the lease's expiry lies beyond what is still to come |
| HostSlotSafety.OnLeaseIsLive | api/app/workflows/pipeline.py:340-360 | a scrape queued, running or backing off under a lease still holds it |
| HostSlotSafety.SlottedWithinLimit | api/app/workflows/steps.py:156-189 | at every instant of every interleaving, for any limit and interval, the scrapes going on under a lease number at most the limit, and each still holds its lease; also when the script of an acquire attempt that timed out lands at any later time, given that sleeps end when they should |
| HostSlotSafety.LeaseIsReached | api/app/workflows/steps.py:156-189 | a scrape does come to run under a lease |
| Catalog.AllowedWithinBudget | api/app/pipelines/catalog.py:108-119 | every retry history the policy allows, queueing and backoffs included, fits in the budget |
| Catalog.SlowestNeedsBudget | api/app/pipelines/catalog.py:108-119 | one allowed history needs more than any whole number of seconds below the budget |
| Catalog.BudgetIsLeastCover | api/app/pipelines/catalog.py:94-124 | a number of seconds lets every allowed history finish if and only if it is at least the budget |
| Catalog.NeedInSeconds | api/app/pipelines/catalog.py:287-388 | the budget and the need of each block type in seconds |
| Validator.ParseBlock | api/app/pipelines/validator.py:133-175 | no problem exactly when type, version, bindings, config and JSON Schemas are in order; the inputs it uses are added to the caller's set; raises exactly when a binding names a list or an object, the config model raises or the JSON Schema library does |
| PageActions.ValidatePageActions | api/app/schemas/jobs.py:28-51 | passes exactly when there are at most 20 actions, each in order; lets an exception other than ValueError through exactly when an action with a list or an object for its type, or an infinite wait, follows only actions in order |
| PageActions.CheckAction | api/app/schemas/jobs.py:34-50 | one action: in order exactly when its type is known, its wait an integer from 1 to 10000 and its selector a non-empty string, where it needs them; raises exactly as above |
| Validator.SchemaProblems | api/app/pipelines/validator.py:178-195 | no problem exactly when every JSON Schema of the config is valid; an invalid one is a problem, one the library cannot look up raises |
| Validator.StartingBlockProblems | api/app/pipelines/validator.py:198-228 | no problem exactly when the first block is a scrape without input and every other is no scrape and has one |
| Validator.ChainProblems | api/app/pipelines/validator.py:231-251 | no problem exactly when every input named is the block just before |
| Validator.TypeProblems | api/app/pipelines/validator.py:254-273 | no problem exactly when each block consumes the reference its predecessor produces and its rules fit it |
| Validator.WebhookProblems | api/app/pipelines/validator.py:276-285 | no problem exactly when at most one block is a webhook |
| Validator.BudgetProblems | api/app/pipelines/validator.py:288-312 | no problem exactly when what the run needs is within the ceiling and within the declared budget, and that within the ceiling; returns the declared budget, or the need |
| Validator.CheckInput | api/app/pipelines/catalog.py:314-322 | no problem exactly when every rule of a Validate block can be met by its input's type |
| Validator.ChainMeansPrevious | api/app/pipelines/validator.py:198-251 | the two checks together mean one chain: a scrape first, every later block fed by the one before it |
| Validator.StructureProblems | api/app/pipelines/validator.py:315-361 | no problem exactly when names, size, ids, blocks, used inputs, chain and webhook are all in order; raises exactly when reading some block does |
| Validator.ValidateDefinition | api/app/pipelines/validator.py:315-379 | accepts exactly the acceptable definitions; raises exactly when some block's binding names a list or an object, its bindings fit and its page actions raise, or its config is read and the JSON Schema library raises; otherwise gives at least one problem; an accepted one keeps its blocks and gets its run budget |
| Validator.AcceptableInFull | api/app/pipelines/validator.py:315-379 | what an acceptable definition is, condition by condition |
| Validator.BlockOkInFull | api/app/pipelines/validator.py:133-195 | what a block in order is: known type, version absent or current, only a scrape's url bound and to a declared input, config read, schemas fine |
| Validator.WhatMayFollow | api/app/pipelines/catalog.py:323-380 | which reference each block hands on, and which block may stand where it arrives |
| Validator.NamesInFull | api/app/pipelines/validator.py:29 | which names a run input may have |
| Validator.RaisesExactly | api/app/pipelines/validator.py:145-175 | reading some block raises if and only if that condition holds of some block, which the definition itself tells |
| Validator.RaisesInFull | api/app/pipelines/validator.py:145-195 | when reading one block raises, and which inputs it uses, in terms of the submitted object |
| Validator.ListedNameRaises | api/app/pipelines/validator.py:148-151 | a definition that raises whatever the models: a URL bound to a list |
| Validator.RaisingActionRaises | api/app/pipelines/catalog.py:158-161 | a playwright scrape with any action that raises makes validation raise |
| Validator.ListedTypeRaises | api/app/schemas/jobs.py:34-36 | so does one whose action has the list `["click"]` for its type |
| Validator.EndlessWaitRaises | api/app/schemas/jobs.py:38-46 | and one that waits `1e999` milliseconds |
| Definitions.GivenSecrets | api/app/routers/pipelines.py:113-121 | by block id, the secret fields its submitted config holds |
| Definitions.StoreSecrets | api/app/routers/pipelines.py:129-152 | secret fields become null in the config; each secret is the encrypted new value, gone, or the previous ciphertext |
| Definitions.SavedWithoutSecrets | api/app/routers/pipelines.py:129-152 | of a saved block, a scrape's proxy and cookies and a webhook's secret are null, they alone may have a ciphertext, and every other field is as the model writes it |
| Documents.SecretsAreFields | api/app/pipelines/catalog.py:149-156 | which value each write-only field stands for, and that these alone are taken out |
| Definitions.PrepareDefinition | api/app/routers/pipelines.py:181-212 | something is stored exactly when the definition is acceptable, and then that |
| Definitions.PublicDefinition | api/app/routers/pipelines.py:155-163 | the definition as stored but for its secret fields; of the secrets only the names |
| Definitions.RoundTrip | api/app/routers/pipelines.py:339-362 | submitting back what the API returned is accepted and stores an equal definition, ciphertexts included, whatever encryption would yield now: no new version |
| Definitions.EditedSecrets | api/app/routers/pipelines.py:129-152 | in any edit, a secret of a kept block is replaced, cleared or kept exactly as its field was sent non-empty, sent empty or not sent; a new block has only what it sent |
| Definitions.ParseDefinition | api/app/pipelines/definition.py:93-157 | reads exactly the definitions that have blocks, all of them readable, block by block, with the stored secrets by block id; raises exactly when the page actions of a stored scrape do; where ids do not repeat, each block's secrets are those read under its id |
| Definitions.StoredReadsBack | api/app/pipelines/definition.py:93-157 | what is read back is the accepted chain: every block with its id, input and config but for secrets, the validated run budget, and fit to run |
| PipelineRun.PipelineWorkflow.Run | api/app/workflows/pipeline.py:218-288 | for every input and world the workflow does, block by block, what the step functions add up to, of which the theorems below are proved: same clock, log, objects, cancel flag and end |
| PipelineRun.PipelineWorkflow.ExecuteActivity | api/app/workflows/pipeline.py:362-470 | an activity is sent if and only if the run has time left, an artifact id, the input its URL is bound to, its predecessor's reference and its LLM key; then under the lesser of its budget and the time left, with that reference; otherwise nothing is sent, nothing changes and it fails, on a spent budget before all else |
| PipelineRun.PipelineWorkflow.ScrapeInSlot | api/app/workflows/pipeline.py:340-360 | a cancel during the wait ends the block with nothing sent; otherwise what is ready once the wait is over is sent, once, and the release is the last event, sent or not |
| PipelineRun.EndedStays | api/app/workflows/pipeline.py:218-288 | once a run has ended, no later block changes anything |
| PipelineSoundness.RunIsDisciplined | api/app/workflows/pipeline.py:218-288 | in every run executed blocks are a prefix of the definition, each mirrored completed before the next executes, and exactly one run mirror is sent, last; none only when the output assertion fails |
| PipelineSoundness.CancelledStartsNothing | api/app/workflows/pipeline.py:333-338 | a run that has noted a cancel executes nothing from there on |
| PipelineSoundness.CancelStopsTheRun | api/app/workflows/pipeline.py:223-283 | a cancel noted in any await of block i, the host wait, the release, the recording and both mirrors included, lets no block after i start |
| PipelineSoundness.RefusalStopsTheRun | api/app/workflows/pipeline.py:223-231 | a running-mirror that is refused lets its block and all after it not execute |
| PipelineSoundness.RowIsToldTheEnd | api/app/workflows/pipeline.py:223-288 | in every run the last event tells the row how the workflow ends: completed exactly when every block is mirrored completed, then with the last object written as the result returned and the wall exactly if a recording was over the limit; failed without a result exactly when a failure is raised; cancelled otherwise; and nothing if the output assertion fails |
| PipelineSoundness.AcceptedPipelinesGoRight | api/app/workflows/pipeline.py:178-288 | a definition accepted at save time, stored, read back and triggered never goes wrong in any world that keeps its contract: every activity has its whole budget and its predecessor's output of a type it consumes; no lookup, missing input, spent budget or assertion can end the run |
| PipelineSoundness.CalmRunCompletes | api/app/workflows/pipeline.py:218-470 | a runnable definition, rightly triggered, in a world that disturbs nothing, completes: the exact sequence of everything it sends, block by block, and the result it returns |
| PipelineSoundness.Interpret | api/app/workflows/pipeline.py:178-288 | all of this of the workflow object itself: discipline, cancels, refusals, the end told to the row, soundness, and completion undisturbed |
| PipelineSoundness.ResultIsLastContent | api/app/routers/pipelines.py:806-818 | on a completed run the result is the last content block's object, and the first block row holding it is that block's |
| PipelineSoundness.FirstHolder | api/app/routers/pipelines.py:806-818 | without a block id, the result is read from the first row, by position, that holds its path |
| SmallPipeline.AssumptionsCanBeMet | api/app/pipelines/validator.py:315-379 | a scrape of a bound URL with a page action and a clean block, models that read bound URLs, check actions and drop unknown nested keys, and a concrete world meet everything the soundness theorem supposes |
| SmallPipeline.MisplacedBindingIsDropped | api/app/pipelines/validator.py:145-163 | playwright options holding only a "$input" are read and the binding dropped by the model, and validation refuses the block before that |
| SmallPipeline.ListedDialectRaises | api/app/pipelines/validator.py:178-195 | with a library that looks the dialect up, an extraction schema whose "$schema" is a list makes validation raise |
| SmallPipeline.ListedActionRaises | api/app/schemas/jobs.py:34-46 | both inputs, with concrete models |
| CrawlProtocol.CrawlInvariant | api/app/workflows/crawl.py:206-239 | under every interleaving of page completions with the claim: pages started are those finished and in flight, at most the bound are in flight, a run starts at most pages_per_run + max_in_flight - 1, the wait never begins with nothing in flight, and the run ends or continues as new only with nothing in flight |
| CrawlProtocol.TopGoes | api/app/workflows/crawl.py:206-233 | where the loop goes from its top in every state: drained by a cancel, then by a failure; with nothing in flight cancelled if stopped, completed with the note at the storage limit, as new if the run is full, else to a claim; otherwise to a claim for the free places or to wait |
| CrawlProtocol.ClaimGoes | api/app/workflows/crawl.py:211-233 | what a returned claim puts in flight, what it does to the reason to stop, and exactly when the crawl then waits, continues as new, completes, with the note or without, or is cancelled |
| CrawlProtocol.ClaimsWhenItCan | api/app/workflows/crawl.py:211-219 | with room, time and no reason not to, it claims for every free place |
| CrawlProtocol.CompletedMeansDone | api/app/workflows/crawl.py:227-239 | a crawl is completed without a note only when its run was not full and its last claim, of a running crawl with nothing in flight, brought no page |
| CrawlProtocol.SeenFailureDooms | api/app/workflows/crawl.py:206-209 | a failure seen at the top of the loop lets the crawl end failed or cancelled only |
| CrawlProtocol.FailureLostExactly | api/app/workflows/crawl.py:206-239 | a recorded failure can be forgotten by a continue-as-new exactly in the states where a claim is awaited, nothing is left in flight and neither a cancel nor a reason to stop has come |
| CrawlProtocol.FailureCanBeLost | api/app/workflows/crawl.py:206-239 | a run of two pages in which that happens |
| Crawl.CrawlWorkflow.Run | api/app/workflows/crawl.py:165-239 | a whole run, whatever claims, pages and cancels do: it ends, with nothing in flight, within its bound of pages, and every state it went through is one the protocol allows; it ends completed, cancelled or failed only for the reasons above; and a full run that no cancel, failure or stop befell continues as new |
| Crawl.CrawlWorkflow.Begin | api/app/workflows/crawl.py:193-204 | before its loop: a crawl no longer running is cancelled, a refused seed fails it, and the loop begins in no other case |
| Crawl.CrawlWorkflow.Turn | api/app/workflows/crawl.py:206-233 | one turn of the loop leaves for good or has seen a page finish |
| Crawl.CrawlWorkflow.Take | api/app/workflows/crawl.py:220-226 | a task is started for every claimed page not in flight already, and for no other; the reason to stop is taken from the claim; a crawl no longer running is stopped, one over its storage noted |
| Crawl.CrawlWorkflow.Drain | api/app/workflows/crawl.py:403-408 | draining leaves nothing in flight; a second cancel meanwhile drops finish_crawl |
| Crawl.CrawlWorkflow.PageEndsHere | api/app/workflows/crawl.py:268-272 | a page that ends leaves the pages in flight and is counted, and the crawl has a failure from then on exactly if it had one or the page raised |
| Sitemaps.FollowSitemaps | api/app/workflows/crawl.py:340-379 | it ends; at most 20 files are fetched, first come first served: those fetched and those left are exactly the sitemaps discovered and vetted and then, file by file, where each one leads; each is asked for no more entries than are still wanted; the URLs admitted are those the files list, at most max_pages; a file stays unread only if the crawl halted or files or pages ran out |
| Sitemaps.Children | api/app/workflows/crawl.py:371-374 | a redirect leads to the vetted target one hop further, at most three; an index to its vetted entries one level further, at most two, with no hops; nothing else leads on |
| Batch.BatchInvariant | api/app/workflows/batch.py:49-89 | under every interleaving: runs start in order and at most once, unfinished children never outnumber the bound, and finish_batch begins only when every started child has ended, all having started unless it is told of a cancel |
| Batch.CancelStartsNoMore | api/app/workflows/batch.py:59-71 | once a cancel has reached the fan-out no further run starts, and finish_batch is told of it |
| Batch.RoomIsUsed | api/app/workflows/batch.py:62-65 | while there is room and a run left, the next may start, before any child has ended |
| Batch.BatchWorkflow.Run | api/app/workflows/batch.py:49-93 | a whole run ends, all its states being the protocol's; finish_batch is told of a cancel exactly when one came during the fan-out, and otherwise every run was started; it raises exactly when the batch came out cancelled and a cancel was noted |
| Batch.BatchWorkflow.FanOut | api/app/workflows/batch.py:59-71 | left by itself exactly when no cancel comes, then with every run started; either way every child started has ended |
| ScheduledJob.CapIsPassed | api/app/workflows/scheduled_job.py:18-22 | the doubling waits are past the cap from the 293rd ask on, and not before |
| ScheduledJob.Waits | api/app/workflows/scheduled_job.py:18-22 | the waits: 15 seconds, doubling to 240, then five minutes each |
| ScheduledJob.Tick | api/app/workflows/scheduled_job.py:63-97 | at most 293 asks, however slow; every ask but the last was answered "waiting"; the result is the verdict, or, for an admitted tick, completed, failed or cancelled as its child ended |
| ScheduledJob.FullMeter | api/app/workflows/scheduled_job.py:63-80 | the bound is reached by a meter that stays full |
| JobRun.TerminalRowsAbsorb | api/app/core/dispatch.py:66-101 | over every history of writes a terminal row never changes again, except to be deleted, if and only if no failing start finds its run cancelled or completed |
| JobRun.NeverRelabelled | api/app/core/dispatch.py:66-101 | a run has one outcome at most if and only if the same holds |
| JobRun.NeverRevived | api/app/core/dispatch.py:66-101 | over every history, failing starts included: a terminal row is never active again, only failed or a deletion takes its place, and a cancelled run is never completed |
| JobRun.FailedStartRelabels | api/app/core/dispatch.py:66-76 | two such histories: a cancelled and a completed run, both rewritten to failed |
| JobRun.JobWorkflow.RecordJobObjects | api/app/workflows/activities/job_runs.py:171-203 | if it returns, every object is charged or discarded; on an active run all are charged, or over the limit none is and the run is failed; what is not charged is deleted if it can be |
| JobRun.JobWorkflow.FinishJobRun | api/app/workflows/activities/job_runs.py:206-245 | the discard list is dealt with whatever the outcome; only an active run moves; a completed run's result is charged; undisturbed, exactly that outcome and result |
| JobRun.JobWorkflow.Record | api/app/workflows/job.py:182-195 | objects are handed to recording, and to one discard list only when that failed; the run goes on only in the state expected, whose answer, over the limit or already out of its hands, ends it as it should |
| JobRun.JobWorkflow.Complete | api/app/workflows/job.py:202-208 | undisturbed, an active run is completed with that result, which is returned |
| JobRun.JobWorkflow.Charge | api/app/workflows/job.py:107-136 | after the scrape its objects are handed over once, unless reading the LLM settings failed, when they are not at all |
| JobRun.JobWorkflow.Run | api/app/workflows/job.py:90-165 | for any failures, cancels and deletions: a returned result is an object of the run and its row was completed; every object stored is handed to recording or to one discard list, and to both only when recording failed, exactly when read_llm_settings did not fail for good; and then, if every finish with a discard list returned, each is charged, deleted or given up to a failed delete; and an undisturbed run ends as it should: completed, everything charged and the first object of its last step returned, or failed if a step brought nothing, the settings are unusable or a recording is over the limit |
| JobRun.UnreadSettingsLeak | api/app/workflows/job.py:124-127 | a run in which the settings cannot be read: the scrape's object is left in the bucket, uncharged and on no discard list |
| Ledger.Conserved | api/app/core/ledger.py:47-158 | after any sequence of charges, releases, commits and rollbacks every counter is the sum of its user's rows, in the transaction and in what is committed, and no decrement is clamped |
| Ledger.ChargesItsUser | api/app/core/ledger.py:47-88 | a new object gets its row and its bytes go to the row's user and nobody else; a known one changes nothing |
| Ledger.ReleaseCreditsItsUser | api/app/core/ledger.py:138-159 | a released row's bytes come off its own user and nobody else |
| Ledger.ClampIdle | api/app/core/quota.py:297-311 | in balanced books the clamp at 0 has nothing to do |
| Ledger.RecordTwice | api/app/core/ledger.py:57-88 | recording an object again charges nothing and changes nothing |
| Ledger.ReleaseUndoesRecord | api/app/core/ledger.py:138-159 | a release brings rows and counters back to what they were before the charge |
| Ledger.Session.RecordObject | api/app/core/ledger.py:47-88 | a new key gets a row of that user, size and run, and that user's counter, no other, rises by the size; a known key changes nothing; the answer says which; the books stay balanced |
| Ledger.Session.ReleaseObjects | api/app/core/ledger.py:138-159 | with any deletes failing and in any order: the rows and objects that go are exactly those whose delete does not fail, the counters follow, and the outcome reports both sides, failed runs included |
| Cleanup.OldestExpired | api/scripts/cleanup_old_runs.py:30-40 | a page is the oldest expired runs, as many as fit, 500 at most, none left out older than one taken |
| Cleanup.Pass | api/scripts/cleanup_old_runs.py:45-77 | a pass releases every object of its page whose delete does not fail, and deletes exactly the runs that hold none that does; it commits unless there is none |
| Cleanup.CleanupLoop | api/scripts/cleanup_old_runs.py:23-88 | it ends; counters stay balanced; only expired runs go, none with a row left, so the cascade drops nothing; no row goes without its object; expired runs are left only when the oldest page of them holds, run by run, an object that would not go; and with no delete failing, every expired run is gone with all its objects |
| Reconcile.Auditor.WalkBucket | api/scripts/reconcile_storage_ledger.py:135-206 | an apply gives every listed object's row its listed size, every attributable one a row, and deletes the orphans it can; a dry run changes nothing and defers, user by user, exactly what that would move |
| Reconcile.Auditor.DropDanglingRows | api/scripts/reconcile_storage_ledger.py:209-231 | exactly the rows whose object is missing, not those whose stat failed, are dropped or deducted |
| Reconcile.Auditor.SumByUser | api/scripts/reconcile_storage_ledger.py:244-256 | the totals per user are the sums of their rows |
| Reconcile.Auditor.RecomputeCounters | api/scripts/reconcile_storage_ledger.py:234-284 | the decisions are exactly the counters that are off, with before and after; an apply leaves every counter the sum of its rows |
| Reconcile.Auditor.Reconcile | api/scripts/reconcile_storage_ledger.py:287-295 | the three passes together: an apply reaches the target rows and balanced counters; a dry run changes nothing and foresees the totals |
| Reconcile.RepairExactly | api/scripts/reconcile_storage_ledger.py:135-231 | what a repair makes of any one key, whatever fails meanwhile: whether it has a row, whose, of what run and size, and whether its object stays |
| Reconcile.TotalsAgreeExactly | api/scripts/reconcile_storage_ledger.py:209-264 | how far the dry run's total for a user is from the repair's: what the walk moves for the listed objects that are gone by their stat |
| Reconcile.DryRunForetellsExactly | api/scripts/reconcile_storage_ledger.py:234-284 | under the same answers from storage, the dry run's (user, before, after) are the repair's if and only if, for every user, the moves of the listed objects that vanish before their stat come to nothing |
| Reconcile.UnmovedIfInOrder | api/scripts/reconcile_storage_ledger.py:144-195 | listed objects whose rows already have their size, and unattributable or empty ones without a row, move nobody's total |
| Reconcile.QuietWeighsTheSame | api/scripts/reconcile_storage_ledger.py:135-231 | so a dry run foretells the repair when every object that vanishes was in order, whatever stats and deletes fail |
| Reconcile.VanishingObjectMisleads | api/scripts/reconcile_storage_ledger.py:209-231 | an unrecorded object removed after it was listed: the dry run announces (0, 5) for its owner, the repair makes no decision |
| Reconcile.RepairAgrees | api/scripts/reconcile_storage_ledger.py:135-231 | after a repair of a quiet bucket with no failing call every row names an object that is there, of its listed size, every object under the prefixes has a row, and only unattributable ones were deleted |
| Reconcile.SecondRepairIsIdle | api/scripts/reconcile_storage_ledger.py:3-6 | a second repair under the same answers from a quiet bucket changes no row, deletes nothing and finds no counter to correct |
| Reconcile.RepairTwice | api/scripts/reconcile_storage_ledger.py:287-295 | of the script itself, run twice over a quiet bucket: the second run decides nothing, the counters balance, and rows and bucket are what one repair makes of them |
| Admission.AdmissionsWithinLimits | api/app/core/quota.py:50-75 | however admissions, ends of runs and the lanes charged elsewhere interleave, the units and slots admission let in never pass the limits |
| Admission.OneAtATime | api/app/core/quota.py:50-58 | at most one request of a user is between its lock and its commit |
| Admission.AloneAdmittedExactly | api/app/core/quota.py:121-165 | a request left to itself can commit exactly when both meters have room, and then adds its own units and slot only; what each kind of request asks for and costs, a batch a unit an item |
| Admission.LockIsNeeded | api/app/core/quota.py:50-58 | without the lock the same steps let two requests into the last place |
| RateLimit.EveryWindowWithinLimit | api/app/core/rate_limit.py:21-66 | for any mix of single and batch calls, every window of the given length over the whole history holds at most the limit of admitted units |
| RateLimit.ExpiryDropsNothing | api/app/core/rate_limit.py:36-39 | the key's expiry drops no unit that still counts |
| RateLimit.CountsWhileYoung | api/app/core/rate_limit.py:21-40 | a unit counts at an instant exactly when the one call that admitted it came within the window before |
| RateLimit.UserWindow.SingleScript | api/app/core/rate_limit.py:21-40 | admits exactly when the window of the whole history has room for one, and adds that unit only; else gives the oldest unit's time |
| RateLimit.UserWindow.BatchScript | api/app/core/rate_limit.py:44-66 | admits all of the units exactly when the window has room for all, and else none |
| RateLimit.UserWindow.IncrementAndCheck | api/app/core/rate_limit.py:77-111 | refuses exactly when the window is full, with the remaining time of its oldest unit, rounded down, at least a second |
| RateLimit.UserWindow.CheckRateLimitN | api/app/core/rate_limit.py:114-141 | refuses a batch exactly when the window has no room for all of it, with the oldest unit's remaining time rounded likewise |
| RateLimit.BatchOfOne | api/app/core/rate_limit.py:21-66 | the batch script given one unit decides, records and answers as the single one |
| RateLimit.RetryAfterSufficesExactly | api/app/core/rate_limit.py:103-111 | a client refused one unit that waits its Retry-After, alone, is admitted if and only if the remaining time was whole seconds or less than one |
| RateLimit.RetryAfterTooShort | api/app/core/rate_limit.py:103-111 | a client that waits 59 seconds as told and is refused again |
| RateLimit.BatchRetryExactly | api/app/core/rate_limit.py:131-141 | a refused batch that lacks k places and waits its Retry-After, alone, is admitted if and only if it is no larger than the limit and the k-th oldest unit of the window has left by then |
| RateLimit.BatchRetryTooShort | api/app/core/rate_limit.py:131-141 | two units thirty seconds apart and a batch of two: told to wait 20 seconds, refused again |
| RateLimit.OversizedBatchNeverFits | api/app/core/rate_limit.py:44-66 | a batch larger than the limit is refused whenever it comes |
| RateLimit.KthOldestExists | api/app/core/rate_limit.py:44-66 | a window of at least k units has a k-th oldest |
| JsonPointer.TwoPassIsDecode | llm-worker/worker/rules.py:30 | on every token the catalog's pattern allows, the two replacements are the one-pass decoding of section 4 of RFC 6901 |
| JsonPointer.OrderMatters | llm-worker/worker/rules.py:30 | the two replacements in the other order would decode `~01` to a slash |
| JsonPointer.TokensOfSpelling | llm-worker/worker/rules.py:29-30 | splitting and decoding a path's spelling gives back its names, and the spelling matches the pattern |
| JsonPointer.SpellingOfTokens | api/app/pipelines/catalog.py:195-196 | spelling the tokens of a pointer the pattern allows gives the pointer back |
| JsonPointer.Resolve | llm-worker/worker/rules.py:24-42 | the loop walks the document token by token |
| JsonPointer.SpellingResolves | llm-worker/worker/rules.py:24-42 | for every document and every path in it, the path's spelling resolves to exactly its node |
| JsonPointer.UnmisreadConforms | llm-worker/worker/rules.py:24-42 | when no token is misread: a node found is that of a path so spelt, and missing means no path so spelt is in the document |
| JsonPointer.ConformsExactly | llm-worker/worker/rules.py:33-39 | a pointer gets the standard's answer on every document if and only if none of its tokens is all digits to isdigit yet not all ASCII |
| JsonPointer.MisreadStrays | llm-worker/worker/rules.py:33-39 | for any pointer with a misread token, a document on which the answer is wrong |
| JsonPointer.ForeignDigits | llm-worker/worker/rules.py:33-39 | two such pointers: one reads an index, one raises |
| Robots.RulesAreTheGoverning | playwright-worker/worker/robots.py:58-89 | an agent is given exactly the rules of the lines below a line naming it with no blank line between |
| Robots.LineReads | playwright-worker/worker/robots.py:58-86 | however a line is spaced and whatever comment follows, its field, in any case, and its value are read: a disallow, an allow, an agent, or nothing |
| Robots.DisallowExample | playwright-worker/worker/robots.py:58-86 | such a line |
| Robots.BlankReads | playwright-worker/worker/robots.py:59-63 | a line of space and a comment is blank |
| Robots.ApplyRules | playwright-worker/worker/robots.py:92-104 | disallowed exactly when the first of the longest non-empty matching prefixes is a disallow |
| Robots.IsPathDisallowed | playwright-worker/worker/robots.py:41-89 | on the whole text: ScrapeFlow's rules decide if there are any, or else everybody's |
| Robots.OrderDoesNotMatter | playwright-worker/worker/robots.py:92-104 | if no prefix is both allowed and disallowed, the verdict depends only on which rules there are |
| Robots.FollowsRfcExactly | playwright-worker/worker/robots.py:92-104 | the verdict is that of section 2.2.2 of RFC 9309 for literal paths if and only if the deciding rule is not a disallow tied with an allow |
| Robots.TieGoesToTheFirst | playwright-worker/worker/robots.py:92-104 | such a tie |
| Robots.WildcardIsIgnored | playwright-worker/worker/robots.py:88-89 | once a rule governs ScrapeFlow, the verdict is the same with every `User-agent: *` line struck out |

## Left out

- The shapes pydantic checks (fields, types, lengths, `model_validate`), which problem `validate` reports and in what order or words, and `_assign_block_ids`: `Documents.Shaped` stands for a definition of the right shape.
- Key ownership and the SSRF checks of the pipeline routes, and the trigger's own checks.
- Definitions.RoundTrip, Definitions.StoredReadsBack and PipelineSoundness.AcceptedPipelinesGoRight: of definitions without infinite numbers (`Documents.Storable`), as the JSONB column they are stored in holds none. NaN is not modelled, nor nesting so deep that a library gives up, nor what else JSONB refuses.
- `Documents.Faithful` is an assumption about the config models, not a proof about pydantic; what the JSON Schema library makes of a schema is a parameter, `Codec.judge`.
- Database mirrors of a pipeline run that fail for good, and activities that outlive their timeouts as zombies: the run theorems suppose DB activities return.
- The pipeline's history of a deploy before host slots (`HOST_SLOT_PATCH`), and the same branch of a job.
- HostSlot.WaitForHostSlot: timers are exact and clocks do not run backwards; a worker's late timer would lengthen the wait by as much.
- HostSlotSafety.SlottedWithinLimit: counts scrapes under a lease; those that failed open or passed the cap run without one, by design.
- Scheduling inside the event loop: a task cancelled before its first step (its `finally` would not run) is modelled for a batch's children only, and a cancel that arrives in the very step in which an awaited task finishes is not modelled.
- What a crawl does with the state `finish_crawl` answers.
- CrawlProtocol.CrawlInvariant: says nothing of an empty frontier at the end, which depends on the claim and admission activities.
- What a crawl page does inside its task (host slot, scrape, record, links) is any step it may take on the shared fields; its own order is not followed.
- The three-attempt retries of claim, record and finish activities, and their bodies, beyond the contracts named above.
- Batch cancel and the recount of a batch (`cancel_batch`, `finish_batch`), webhooks, notifications and the status stream.
- JobRun.JobWorkflow.Run: the storage an activity's failed attempts may have left, and the `storage_accounted_at` of pre-ledger runs, are not modelled.
- Ledger and cleanup: the pre-ledger branch (`_release_legacy_result`), the grouping by owner (any order of rows is allowed instead), the other lanes' producer columns, and transactions that overlap, such as two releases of one row at once: one session at a time.
- Cleanup.CleanupLoop: a row written for an expired run between the query and the DELETE would fall to the cascade; the loop is taken to be alone.
- Reconcile.Auditor.Reconcile: one bucket, so that a row's key is its object's; of the report only the orphans and the pending deltas, not its counts; finding the owner of a key (`_attribute`) is a table.
- Reconcile.RepairAgrees: rows of keys under neither prefix are only checked to exist, as in the code.
- Admission.AdmissionsWithinLimits: limits are fixed; pages a crawl finds and pipelines whose blocks start count in the meters but are charged outside admission, so they are bounded by nothing here, and the storage meter only refuses.
- RateLimit.EveryWindowWithinLimit: a clock that does not run backwards across API processes and members that do not repeat are preconditions; the script draws the member at random.
- JSON Schema, text and comparison rules of a Validate block (`_check`), and numbers wider than `int` accepts: only the pointers are evaluated.
- Robots.IsPathDisallowed: whitespace and upper case outside ASCII, and how the text is fetched, cut and split into lines; wildcards in paths, which the code takes literally; groups end at a blank line, as in the code, not as in section 2.2.1 of RFC 9309.
- Regex wall detection, HTML cleaning, LLM calls, cron evaluation and diffs: heuristics and libraries.
