/** The workflow half of the per-host lease protocol (api/app/workflows/steps.py): how long a lease is
    asked for, and the polling loop that waits for one. Milliseconds, unless a name says seconds. */
module HostSlot {
  import opened Common
  import opened Catalog

  // ----- how long a direct scrape may hold a slot -------------------------------------------

  const HOST_LEASE_MARGIN_SECONDS: nat := 60
  const SCRAPE_ATTEMPTS: nat := 3
  const SCRAPE_INITIAL_INTERVAL: nat := 1
  const SCRAPE_BACKOFF: real := 2.0

  function ScrapeStartToClose(engine: Engine, renderSeconds: Option<nat>): nat {
    if engine.Playwright? then
      2 * (if renderSeconds.Some? then renderSeconds.value else DEFAULT_RENDER_SECONDS) + 60
    else 90
  }

  /** `host_lease_ttl`, in seconds. */
  function HostLeaseTtl(engine: Engine, renderSeconds: Option<nat>): real {
    var perAttempt := SCRAPE_SCHEDULE_TO_START_SECONDS + ScrapeStartToClose(engine, renderSeconds);
    (SCRAPE_ATTEMPTS * perAttempt) as real + Backoffs(SCRAPE_ATTEMPTS - 1) + HOST_LEASE_MARGIN_SECONDS as real
  }

  function Backoffs(count: nat): real {
    if count == 0 then 0.0
    else Backoffs(count - 1) + SCRAPE_INITIAL_INTERVAL as real * Power(SCRAPE_BACKOFF, count - 1)
  }

  /** What `scrape()` hands the engine, a retry policy's unset maximum interval being 100 initial ones. */
  function DirectScrape(engine: Engine, renderSeconds: Option<nat>): (t: Timing)
    ensures Policy(t)
  {
    Timing(ScrapeStartToClose(engine, renderSeconds), SCRAPE_ATTEMPTS, SCRAPE_INITIAL_INTERVAL, SCRAPE_BACKOFF,
           100 * SCRAPE_INITIAL_INTERVAL, if engine.Playwright? then Some(90) else None,
           SCRAPE_SCHEDULE_TO_START_SECONDS, 0)
  }

  /** The lease of a direct scrape and that of a pipeline's Scrape block are the same rule: the retry
      policy's budget, and the margin. */
  lemma DirectLeaseIsBudgetAndMargin(engine: Engine, renderSeconds: Option<nat>)
    ensures HostLeaseTtl(engine, renderSeconds)
         == (DirectScrape(engine, renderSeconds).Budget() + HOST_LEASE_MARGIN_SECONDS) as real
  {
    var t := DirectScrape(engine, renderSeconds);
    assert Power(2.0, 0) == 1.0 && Power(2.0, 1) == 2.0;
    assert t.Wait(0) == 1.0 && t.Wait(1) == 2.0;
    assert t.Waits(0) == 0.0 && t.Waits(1) == 1.0 && t.Waits(2) == 3.0;
    assert Backoffs(0) == 0.0 && Backoffs(1) == 1.0 && Backoffs(2) == 3.0;
    CeilingIsLeast(3.0, 3);
    CeilingIsLeast(3.0, 2);
  }

  /** In seconds: three attempts, each queued for up to 300 and run for up to 90, or twice its render time and
      a minute; 1 and 2 between them; and the margin. A Scrape block's attempts are as long. */
  lemma LeaseInSeconds(c: Config)
    requires c.ScrapeConfig?
    ensures c.engine.Http? ==> HostLeaseTtl(c.engine, c.renderSeconds) == 1233.0
    ensures c.engine.Playwright? ==>
              HostLeaseTtl(c.engine, c.renderSeconds) ==
              (1143 + 6 * (if c.renderSeconds.Some? then c.renderSeconds.value else 60)) as real
    ensures ScrapeStartToClose(c.engine, c.renderSeconds) == TimingOf(c).startToClose
  {
    assert Power(2.0, 0) == 1.0 && Power(2.0, 1) == 2.0;
    assert Backoffs(0) == 0.0 && Backoffs(1) == 1.0 && Backoffs(2) == 3.0;
  }

  // ----- waiting for a slot ------------------------------------------------------------------

  const HOST_WAIT_CAP: int := 600_000
  const HOST_POLL_FIRST: int := 1000
  const HOST_POLL_MAX: int := 30_000
  const HOST_POLL_JITTER: int := 250
  const HOST_SLOT_ACTIVITY_TIMEOUT: int := 15_000

  /** The acquire activity's answer. No domain: no limiter for this scrape (failed open). */
  datatype Slot = Slot(domain: Option<string>, waitMs: nat)

  /** What the environment does around ask number `k`: the answer and how long it took, whether a
      cancel arrived meanwhile, the jitter drawn, and whether a cancel ends the sleep after it. */
  datatype Ask = Ask(slot: Slot, took: nat, cancelled: bool, jitter: nat, sleepCancelledAfter: Option<nat>)

  type World = nat -> Ask

  ghost predicate WithinTimeouts(w: World) {
    forall k :: w(k).took <= HOST_SLOT_ACTIVITY_TIMEOUT && w(k).jitter <= HOST_POLL_JITTER
  }

  datatype Outcome =
    | Held(domain: string)
    | FailedOpen
    | PassedCap
    | Cancelled(released: Option<string>)

  function Doubled(asks: nat): int {
    if asks == 0 then HOST_POLL_FIRST else 2 * Doubled(asks - 1)
  }

  function PollDelay(asks: nat, a: Ask): int {
    if asks == 0 then a.slot.waitMs
    else Max(a.slot.waitMs, Min(Doubled(asks), HOST_POLL_MAX) + a.jitter)
  }

  /** When ask `k` starts, from the first, and when its answer is in; timers exact. */
  function AskedAt(w: World, k: nat): int
    decreases k, 0
  {
    if k == 0 then 0
    else AnsweredAt(w, k - 1) + Min(PollDelay(k - 1, w(k - 1)), HOST_WAIT_CAP - AnsweredAt(w, k - 1))
  }

  function AnsweredAt(w: World, k: nat): int
    decreases k, 1
  {
    AskedAt(w, k) + w(k).took
  }

  function Granted(s: Slot): Option<string> {
    if s.domain.Some? && s.waitMs == 0 then s.domain else None
  }

  /** Ask `k` is answered busy with the cap not reached, and nothing ends the sleep after it. */
  predicate AsksAgain(w: World, k: nat) {
    var a := w(k);
    && !a.cancelled && a.slot.domain.Some? && a.slot.waitMs != 0
    && AnsweredAt(w, k) < HOST_WAIT_CAP
    && a.sleepCancelledAfter.None?
  }

  /** How the wait ends at the first ask that is not followed by another. */
  function OutcomeAt(w: World, k: nat): Outcome {
    var a := w(k);
    if a.cancelled then Cancelled(Granted(a.slot))
    else if a.slot.domain.None? then FailedOpen
    else if a.slot.waitMs == 0 then Held(a.slot.domain.value)
    else if AnsweredAt(w, k) >= HOST_WAIT_CAP then PassedCap
    else Cancelled(None)
  }

  /** An ask is followed by another exactly when it was answered busy before the cap and no cancel came; and if
      it is the last, the answer and the instant decide how the wait ends. */
  lemma LastAskDecides(w: World, k: nat)
    ensures var a := w(k);
            var busy := a.slot.domain.Some? && a.slot.waitMs != 0;
            && (AsksAgain(w, k) <==>
                  busy && !a.cancelled && AnsweredAt(w, k) < HOST_WAIT_CAP && a.sleepCancelledAfter.None?)
            && (!AsksAgain(w, k) ==>
                  && (OutcomeAt(w, k).FailedOpen? <==> !a.cancelled && a.slot.domain.None?)
                  && (OutcomeAt(w, k).Held? <==> !a.cancelled && a.slot.domain.Some? && a.slot.waitMs == 0)
                  && (OutcomeAt(w, k).PassedCap? <==> !a.cancelled && busy && AnsweredAt(w, k) >= HOST_WAIT_CAP)
                  && (OutcomeAt(w, k).Cancelled? <==>
                        a.cancelled || (busy && AnsweredAt(w, k) < HOST_WAIT_CAP && a.sleepCancelledAfter.Some?)))
  {
  }

  /** The earliest ask `k` can start when every ask before it was answered busy. */
  function Earliest(k: nat): int {
    if k <= 1 then 0
    else if k <= 5 then Doubled(k) - 2 * HOST_POLL_FIRST
    else HOST_POLL_MAX * (k - 4)
  }

  lemma {:induction false} AsksAreSpaced(w: World, k: nat)
    requires forall j :: 0 <= j < k ==> AsksAgain(w, j)
    ensures Min(Earliest(k), HOST_WAIT_CAP) <= AskedAt(w, k) <= HOST_WAIT_CAP
  {
    if k > 0 {
      AsksAreSpaced(w, k - 1);
      var d := PollDelay(k - 1, w(k - 1));
      assert AnsweredAt(w, k - 1) >= AskedAt(w, k - 1);
      assert Doubled(1) == 2000 && Doubled(2) == 4000 && Doubled(3) == 8000;
      assert Doubled(4) == 16_000 && Doubled(5) == 32_000;
      if k >= 6 {
        DoubledGrows(k - 1);
        assert d >= HOST_POLL_MAX;
      }
    }
  }

  lemma {:induction false} DoubledGrows(k: nat)
    requires k >= 5
    ensures Doubled(k) >= HOST_POLL_MAX
  {
    if k == 5 {
      assert Doubled(1) == 2000 && Doubled(3) == 8000 && Doubled(5) == 32_000;
    } else {
      DoubledGrows(k - 1);
    }
  }

  /** No wait survives its 25th ask: the delays alone have used up the cap. */
  lemma TwentyFiveAsksAtMost(w: World)
    ensures exists k :: 0 <= k < 25 && !AsksAgain(w, k)
  {
    if forall k :: 0 <= k < 24 ==> AsksAgain(w, k) {
      AsksAreSpaced(w, 24);
      assert Earliest(24) == HOST_WAIT_CAP;
      assert !AsksAgain(w, 24);
    }
  }

  /** After a busy answer the next ask comes when the limiter's own wait is over, and the backoff if it is longer;
      but at the cap in any case. After the first answer the limiter's wait is all. */
  lemma WaitsAsTold(w: World, k: nat)
    requires AsksAgain(w, k)
    ensures AskedAt(w, k + 1) <= HOST_WAIT_CAP
    ensures AskedAt(w, k + 1) < HOST_WAIT_CAP ==>
              && AskedAt(w, k + 1) >= AnsweredAt(w, k) + w(k).slot.waitMs
              && AskedAt(w, k + 1) <= AnsweredAt(w, k) + Max(w(k).slot.waitMs, HOST_POLL_MAX + w(k).jitter)
              && (k == 0 ==> AskedAt(w, k + 1) == AnsweredAt(w, k) + w(k).slot.waitMs)
  {
  }

  /** `wait_for_host_slot`. `took` is the whole wait, the release on a cancel excluded. */
  method WaitForHostSlot(w: World) returns (outcome: Outcome, acquires: nat, took: int)
    requires WithinTimeouts(w)
    ensures 1 <= acquires <= 25
    ensures took <= HOST_WAIT_CAP + HOST_SLOT_ACTIVITY_TIMEOUT
    ensures forall k :: 0 <= k < acquires - 1 ==> AsksAgain(w, k)
    ensures !AsksAgain(w, acquires - 1) && outcome == OutcomeAt(w, acquires - 1)
    ensures took >= AnsweredAt(w, acquires - 1) && (!outcome.Cancelled? ==> took == AnsweredAt(w, acquires - 1))
    // A lease the workflow was told of is returned for release, or released before the cancel is raised again.
    ensures var told := Granted(w(acquires - 1).slot);
            if told.Some? then outcome == Held(told.value) || outcome == Cancelled(told)
            else !outcome.Held? && (outcome.Cancelled? ==> outcome.released.None?)
  {
    TwentyFiveAsksAtMost(w);
    var now := 0;
    var asks := 0;
    while true
      invariant now == AskedAt(w, asks)
      invariant forall k :: 0 <= k < asks ==> AsksAgain(w, k)
      invariant asks < 25
      decreases 25 - asks
    {
      AsksAreSpaced(w, asks);
      var a := w(asks);
      now := now + a.took;
      var held := Granted(a.slot);
      if a.cancelled {
        return Cancelled(held), asks + 1, now;
      }
      if a.slot.domain.None? || a.slot.waitMs == 0 {
        return if held.Some? then Held(held.value) else FailedOpen, asks + 1, now;
      }
      if now >= HOST_WAIT_CAP {
        return PassedCap, asks + 1, now;
      }
      var sleep := Min(PollDelay(asks, a), HOST_WAIT_CAP - now);
      if a.sleepCancelledAfter.Some? {
        return Cancelled(None), asks + 1, now + Min(a.sleepCancelledAfter.value, sleep);
      }
      now := now + sleep;
      asks := asks + 1;
    }
  }

  /** Never fewer than 24 sleeps for a host that always answers busy at once: the bound is reached. */
  lemma {:induction false} BusyHost(k: nat)
    requires 1 <= k <= 24
    ensures AskedAt(BUSY_HOST, k) == Min(Earliest(k) + 1, HOST_WAIT_CAP)
    ensures forall j :: 0 <= j < k ==> AsksAgain(BUSY_HOST, j)
  {
    assert Doubled(1) == 2000 && Doubled(2) == 4000 && Doubled(3) == 8000;
    assert Doubled(4) == 16_000 && Doubled(5) == 32_000;
    if k > 1 {
      BusyHost(k - 1);
      if k >= 6 {
        DoubledGrows(k - 1);
      }
    }
  }

  const BUSY_HOST: World := (k: nat) => Ask(Slot(Some("example.com"), 1), 0, false, 0, None)
}
