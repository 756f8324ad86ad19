/** The whole lease protocol on one domain: the limiter's keys, every workflow that asks for a slot,
    and the engine that queues, runs and retries their scrapes. Each step below is one event; between
    events the clock may move to any instant at which no timeout has been overrun. A script of an acquire
    attempt that timed out may still land, at any later time, if `late`; then sleeps end when they should.
    Milliseconds. */
module HostSlotSafety {
  import opened Common
  import opened Catalog
  import opened HostLimiter
  import HostSlot

  datatype Setting = Setting(limit: int, interval: int, late: bool)

  datatype Phase =
    | Thinking(busy: Option<Told>)        // not started, or between asks: what the last one was told
    | Asking(since: int, told: Option<Told>, busy: Option<Told>) // the acquire activity is open
    | Queued(attempt: nat, since: int)    // the scrape waits for a worker
    | Scraping(attempt: nat, since: int)  // a worker runs it
    | BackingOff(attempt: nat, since: int) // an attempt failed, the next is not queued yet
    | Releasing
    | Unslotted                           // scrapes without a lease: failed open, or waited past the cap
    | Ended

  /** The script's answer to the activity's latest attempt. */
  datatype Told = Told(answer: int, at: int)

  /** A workflow's scrape: its retry policy, and when it learned that it holds the lease. */
  datatype Run = Run(timing: Timing, phase: Phase, learned: int)

  datatype State = State(now: int, history: History, runs: map<LeaseId, Run>)

  /** One attempt of the acquire activity. */
  const ATTEMPT: int := 5000

  /** The longest sleep after an answer: the backoff's, or the limiter's own answer, with jitter. */
  function Sleep(answer: int): int {
    Max(HostSlot.HOST_POLL_MAX, if answer < 0 then BUSY_POLL_MS else answer) + HostSlot.HOST_POLL_JITTER
  }

  function WakesBy(t: Told): int {
    t.at + ATTEMPT + Sleep(t.answer)
  }

  /** When the rate window that made it wait reopens: until then nobody is granted a lease. */
  function Reopens(t: Told): int {
    t.at + Max(t.answer, 0)
  }

  function LeaseTtl(t: Timing): int {
    1000 * (t.Budget() + HostSlot.HOST_LEASE_MARGIN_SECONDS)
  }

  predicate OnLease(p: Phase) {
    p.Queued? || p.Scraping? || p.BackingOff?
  }

  /** No activity of the run, nor its sleep if that matters, has outlived its timeout at `t`. */
  predicate InTime(st: Setting, r: Run, t: int) {
    match r.phase
    case Thinking(busy) => st.late && busy.Some? ==> t <= WakesBy(busy.value)
    case Asking(since, _, _) => t <= since + HostSlot.HOST_SLOT_ACTIVITY_TIMEOUT
    case Queued(_, since) => t <= since + 1000 * r.timing.scheduleToStart
    case Scraping(_, since) => t <= since + 1000 * r.timing.startToClose
    case BackingOff(n, since) => (t - since) as real <= 1000.0 * r.timing.Wait(n)
    case _ => true
  }

  ghost predicate Init(s: State) {
    && s.history == []
    && forall id :: id in s.runs ==> s.runs[id].phase == Thinking(None) && Policy(s.runs[id].timing)
  }

  ghost predicate Tick(st: Setting, s: State, s': State) {
    && s.now <= s'.now && s' == s.(now := s'.now)
    && forall id :: id in s.runs ==> InTime(st, s.runs[id], s'.now)
  }

  /** A step of the workflow, or of the engine on its behalf. An answer reaches the workflow before its
      attempt times out. */
  predicate WorkflowStep(st: Setting, r: Run, r': Run, now: int) {
    match r.phase
    case Thinking(busy) => r' == r.(phase := Asking(now, None, busy))
    case Asking(_, told, _) =>
      || (told.Some? && told.value.answer == 0 && r' == r.(phase := Queued(0, now), learned := now))
      || (told.Some? && told.value.answer != 0 && (st.late ==> now <= told.value.at + ATTEMPT)
          && r' == r.(phase := Thinking(told)))
      || r' == r.(phase := Unslotted)
      || r' == r.(phase := Releasing)
    case Queued(n, _) =>
      r' == r.(phase := Scraping(n, now)) || r' == r.(phase := Releasing)
    case Scraping(n, _) =>
      || r' == r.(phase := Releasing)
      || (n + 1 < r.timing.maximumAttempts && r' == r.(phase := BackingOff(n, now)))
    case BackingOff(n, _) =>
      r' == r.(phase := Queued(n + 1, now)) || r' == r.(phase := Releasing)
    case Releasing => r' == r.(phase := Ended)  // a release that failed: the lease expires on its own
    case _ => false
  }

  function Answered(st: Setting, s: State, id: LeaseId): Decision {
    Decide(s.history, s.now, id, st.limit, st.interval)
  }

  /** The acquire script runs: what it leaves in Redis. */
  function Grown(st: Setting, s: State, id: LeaseId): History
    requires id in s.runs
  {
    s.history + [Asked(s.now, id, LeaseTtl(s.runs[id].timing), Answered(st, s, id))]
  }

  /** A step in Redis: the acquire script, run while the activity is open, as often as it is retried;
      or the release. */
  predicate ScriptStep(st: Setting, s: State, s': State, id: LeaseId)
    requires id in s.runs
  {
    var r := s.runs[id];
    match r.phase
    case Asking(since, _, busy) =>
      var told := Told(ScriptAnswer(Answered(st, s, id)), s.now);
      s' == State(s.now, Grown(st, s, id), s.runs[id := r.(phase := Asking(since, Some(told), busy))])
    case Releasing =>
      s' == State(s.now, s.history + [Freed(s.now, id)], s.runs[id := r.(phase := Ended)])
    case _ => false
  }

  /** The script of an attempt the workflow gave up on: nobody is told. */
  predicate LateScript(st: Setting, s: State, s': State, id: LeaseId)
    requires id in s.runs
  {
    st.late && s.runs[id].phase != Thinking(None) && s' == s.(history := Grown(st, s, id))
  }

  ghost predicate Next(st: Setting, s: State, s': State) {
    || Tick(st, s, s')
    || (exists id :: id in s.runs && (ScriptStep(st, s, s', id) || LateScript(st, s, s', id)))
    || (exists id, r' :: id in s.runs && WorkflowStep(st, s.runs[id], r', s.now) && s' == s.(runs := s.runs[id := r']))
  }

  ghost predicate Behaviour(b: seq<State>, st: Setting) {
    && b != [] && Init(b[0])
    && forall i :: 0 <= i < |b| - 1 ==> Next(st, b[i], b[i + 1])
  }

  // ----- the invariant -------------------------------------------------------------------------

  /** What a run on a lease can have spent since it learned of the lease when its phase began. */
  function SpentBefore(r: Run): real {
    match r.phase
    case Queued(n, _) => 1000.0 * (AtLimit(r.timing, n) as real + r.timing.Waits(n))
    case Scraping(n, _) => 1000.0 * ((AtLimit(r.timing, n) + r.timing.scheduleToStart) as real + r.timing.Waits(n))
    case BackingOff(n, _) => 1000.0 * (AtLimit(r.timing, n + 1) as real + r.timing.Waits(n))
    case _ => 0.0
  }

  predicate Holds(h: History, id: LeaseId, until: int) {
    id in Expiries(h) && Expiries(h)[id] >= until
  }

  /** A lease of the run's, if there is one, was granted at `from` or later, by a late script. */
  predicate GrantedLate(st: Setting, h: History, id: LeaseId, r: Run, from: int) {
    id in Expiries(h) ==> st.late && Expiries(h)[id] >= from + LeaseTtl(r.timing)
  }

  /** The instant an open ask's lease cannot be older than. */
  function NotBefore(since: int, busy: Option<Told>): int {
    if busy.Some? then Min(since, Reopens(busy.value)) else since
  }

  /** The rate window that made it wait is still what it was, or has been moved on by a later grant. */
  predicate Blocked(st: Setting, h: History, t: Told) {
    t.answer > 0 ==>
      st.interval > 0 && LastGrant(h).Some? && LastGrant(h).value + st.interval >= Reopens(t)
  }

  predicate BusyInv(st: Setting, id: LeaseId, r: Run, h: History, now: int, t: Told) {
    t.at <= now && GrantedLate(st, h, id, r, Reopens(t)) && Blocked(st, h, t)
  }

  predicate AskInv(st: Setting, id: LeaseId, r: Run, h: History, now: int)
    requires r.phase.Asking?
  {
    var since, told, busy := r.phase.since, r.phase.told, r.phase.busy;
    && since <= now
    && (busy.Some? && st.late ==> since <= WakesBy(busy.value))
    && match told
       case None => GrantedLate(st, h, id, r, NotBefore(since, busy))
       case Some(t) =>
         && since <= t.at <= now
         && if t.answer == 0 then
              Holds(h, id, (if st.late then NotBefore(since, busy) else since) + LeaseTtl(r.timing))
            else BusyInv(st, id, r, h, now, t)
  }

  predicate RunInv(st: Setting, id: LeaseId, r: Run, h: History, now: int) {
    && InTime(st, r, now)
    && (match r.phase
        case Thinking(None) => id !in Expiries(h)
        case Thinking(Some(t)) => BusyInv(st, id, r, h, now, t)
        case Asking(_, _, _) => AskInv(st, id, r, h, now)
        case Queued(n, since) => LeaseInv(id, r, h, n, since)
        case Scraping(n, since) => LeaseInv(id, r, h, n, since)
        case BackingOff(n, since) => LeaseInv(id, r, h, n, since) && n + 1 < r.timing.maximumAttempts
        case _ => true)
  }

  /** The lease lives past the margin's last instant before the budget, counted from when it was learned. */
  predicate LeaseInv(id: LeaseId, r: Run, h: History, n: nat, since: int) {
    && n < r.timing.maximumAttempts
    && (since - r.learned) as real <= SpentBefore(r)
    && Holds(h, id, r.learned + 1000 * r.timing.Budget() + 1)
  }

  ghost predicate Inv(st: Setting, s: State) {
    && Legal(s.history, st.limit, st.interval) && NotAfter(s.history, s.now)
    && forall id :: id in s.runs ==> Policy(s.runs[id].timing) && RunInv(st, id, s.runs[id], s.history, s.now)
  }

  /** A budget is at least what its policy can have spent when a phase of attempt `n` ends. */
  lemma SpentWithinBudget(st: Setting, r: Run, n: nat, t: int)
    requires Policy(r.timing) && OnLease(r.phase) && r.phase.attempt == n < r.timing.maximumAttempts
    requires r.phase.BackingOff? ==> n + 1 < r.timing.maximumAttempts
    requires (r.phase.since - r.learned) as real <= SpentBefore(r) && InTime(st, r, t)
    ensures t - r.learned <= 1000 * r.timing.Budget()
  {
    var tm := r.timing;
    var last := tm.maximumAttempts - 1;
    AtLimitGrows(tm, n + 1, tm.maximumAttempts);
    AtLimitIsProduct(tm, tm.maximumAttempts);
    WaitsGrow(tm, if r.phase.BackingOff? then n + 1 else n, last);
    CeilingIsLeast(tm.Waits(last), Ceiling(tm.Waits(last)));
    assert AtLimit(tm, n + 1) == AtLimit(tm, n) + tm.PerAttempt();
    assert tm.Budget() as real >= AtLimit(tm, tm.maximumAttempts) as real + tm.Waits(last);
  }

  /** Every run on a lease holds it for as long as it may still run. */
  lemma OnLeaseIsLive(st: Setting, s: State, id: LeaseId)
    requires Inv(st, s) && id in s.runs && OnLease(s.runs[id].phase)
    ensures id in Live(s.history, s.now)
  {
    assert RunInv(st, id, s.runs[id], s.history, s.now);
    SpentWithinBudget(st, s.runs[id], s.runs[id].phase.attempt, s.now);
  }

  lemma TickKeeps(st: Setting, s: State, s': State)
    requires Inv(st, s) && Tick(st, s, s')
    ensures Inv(st, s')
  {
    forall id | id in s'.runs
      ensures RunInv(st, id, s'.runs[id], s'.history, s'.now)
    {
      assert RunInv(st, id, s.runs[id], s.history, s.now);
    }
  }

  lemma WorkflowStepKeeps(st: Setting, s: State, id: LeaseId, r': Run)
    requires Inv(st, s) && id in s.runs && WorkflowStep(st, s.runs[id], r', s.now)
    ensures Inv(st, s.(runs := s.runs[id := r']))
  {
    var r := s.runs[id];
    assert RunInv(st, id, r, s.history, s.now);
    match r.phase {
      case BackingOff(n, since) =>
        assert r.timing.Waits(n + 1) == r.timing.Waits(n) + r.timing.Wait(n);
      case Scraping(n, since) =>
        WaitIsNonNegative(r.timing, n);
        assert AtLimit(r.timing, n + 1) == AtLimit(r.timing, n) + r.timing.PerAttempt();
      case Asking(_, _, _) =>
        assert AtLimit(r.timing, 0) == 0 && r.timing.Waits(0) == 0.0;
      case _ =>
    }
    assert RunInv(st, id, r', s.history, s.now);
  }

  lemma BudgetIsNonNegative(t: Timing)
    requires Policy(t)
    ensures t.Budget() >= 0
  {
    WaitsGrow(t, 0, t.maximumAttempts - 1);
    AtLimitIsProduct(t, t.maximumAttempts);
    AtLimitGrows(t, 0, t.maximumAttempts);
    CeilingIsLeast(t.Waits(t.maximumAttempts - 1), -1);
  }

  /** What the script does to the caller's own lease. */
  lemma GrownExpiries(st: Setting, s: State, id: LeaseId)
    requires id in s.runs
    ensures var h := Grown(st, s, id);
            Expiries(h) == if Answered(st, s, id) == Granted then Expiries(s.history)[id := s.now + LeaseTtl(s.runs[id].timing)]
                           else Expiries(s.history)
  {
    assert Front(Grown(st, s, id)) == s.history;
  }

  ghost predicate SameButFor(m: map<LeaseId, int>, m': map<LeaseId, int>, id: LeaseId) {
    forall k :: k != id ==> (k in m <==> k in m') && (k in m ==> m[k] == m'[k])
  }

  /** The last grant is never taken back. */
  predicate GrantsOn(h: History, h': History) {
    LastGrant(h).Some? ==> LastGrant(h').Some? && LastGrant(h').value >= LastGrant(h).value
  }

  lemma {:induction false} LastGrantIsPast(h: History, t: int)
    requires NotAfter(h, t)
    ensures LastGrant(h).Some? ==> LastGrant(h).value <= t
  {
    if h != [] && !IsGrant(Last(h)) {
      LastGrantIsPast(Front(h), t);
    }
  }

  lemma LastGrantStays(h: History, e: Event)
    requires NotAfter(h, e.now)
    ensures GrantsOn(h, h + [e])
  {
    LastGrantIsPast(h, e.now);
    assert Front(h + [e]) == h;
  }

  /** Others' leases are theirs: a step of one run's script leaves the rest where they were. */
  lemma OthersKeep(st: Setting, s: State, h: History, id: LeaseId, other: LeaseId)
    requires Inv(st, s) && other in s.runs && other != id
    requires SameButFor(Expiries(h), Expiries(s.history), id) && GrantsOn(s.history, h)
    ensures RunInv(st, other, s.runs[other], h, s.now)
  {
    assert RunInv(st, other, s.runs[other], s.history, s.now);
  }

  /** No lease can have lapsed unnoticed before the ask is answered. */
  lemma AskedIsLive(st: Setting, s: State, id: LeaseId)
    requires Inv(st, s) && id in s.runs && s.runs[id].phase.Asking? && id in Expiries(s.history)
    ensures id in Live(s.history, s.now)
  {
    assert RunInv(st, id, s.runs[id], s.history, s.now);
    BudgetIsNonNegative(s.runs[id].timing);
  }

  /** What the caller is told agrees with its lease: 0 when it holds one, else that it holds none. */
  lemma AnswerAgrees(st: Setting, s: State, id: LeaseId)
    requires Inv(st, s) && id in s.runs && s.runs[id].phase.Asking?
    ensures var r := s.runs[id]; var h := Grown(st, s, id); var since := r.phase.since;
            var told := Told(ScriptAnswer(Answered(st, s, id)), s.now);
            if told.answer == 0 then
              Holds(h, id, (if st.late then NotBefore(since, r.phase.busy) else since) + LeaseTtl(r.timing))
            else BusyInv(st, id, r, h, s.now, told)
  {
    hide Inv;
    GrownExpiries(st, s, id);
    AskedAtLeast(st, s, id);
    assert Front(Grown(st, s, id)) == s.history;
    if id in Expiries(s.history) {
      AskedIsLive(st, s, id);
    }
  }

  /** A lease the caller already holds was granted when the window of its last busy answer reopened, or later. */
  lemma AskedAtLeast(st: Setting, s: State, id: LeaseId)
    requires Inv(st, s) && id in s.runs && s.runs[id].phase.Asking?
    ensures var since, busy := s.runs[id].phase.since, s.runs[id].phase.busy;
            && since <= s.now && NotBefore(since, busy) <= since
            && (id in Expiries(s.history) ==>
                  Holds(s.history, id, (if st.late then NotBefore(since, busy) else since) + LeaseTtl(s.runs[id].timing)))
  {
    assert RunInv(st, id, s.runs[id], s.history, s.now);
  }

  lemma AnswerKeeps(st: Setting, s: State, s': State, id: LeaseId)
    requires Inv(st, s) && id in s.runs && s.runs[id].phase.Asking? && ScriptStep(st, s, s', id)
    ensures RunInv(st, id, s'.runs[id], s'.history, s'.now)
  {
    assert RunInv(st, id, s.runs[id], s.history, s.now);
    hide Inv, BusyInv, Holds, Grown, Answered, LeaseTtl, WakesBy, NotBefore, SpentBefore;
    AnswerAgrees(st, s, id);
  }

  lemma ScriptStepKeeps(st: Setting, s: State, s': State, id: LeaseId)
    requires Inv(st, s) && id in s.runs && ScriptStep(st, s, s', id)
    ensures Inv(st, s')
  {
    hide RunInv;
    if s.runs[id].phase.Asking? {
      AnswerKeeps(st, s, s', id);
    } else {
      EndedIsWell(st, id, s'.runs[id], s'.history, s'.now);
    }
    ScriptGrows(st, s, s', id);
    forall other | other in s'.runs
      ensures Policy(s'.runs[other].timing) && RunInv(st, other, s'.runs[other], s'.history, s'.now)
    {
      if other != id {
        OthersKeep(st, s, s'.history, id, other);
      }
    }
  }

  /** The event a script leaves: an ask answered as the history calls for, or a release. */
  lemma ScriptEvent(st: Setting, s: State, s': State, id: LeaseId) returns (e: Event)
    requires id in s.runs && (ScriptStep(st, s, s', id) || LateScript(st, s, s', id))
    ensures s'.history == s.history + [e] && s'.now == s.now == e.now && e.id == id
    ensures e.Asked? ==> e.decision == Decide(s.history, e.now, e.id, st.limit, st.interval)
  {
    e := s'.history[|s.history|];
  }

  lemma OthersUntouched(h: History, e: Event)
    ensures SameButFor(Expiries(h + [e]), Expiries(h), e.id)
  {
    assert Front(h + [e]) == h;
  }

  /** The history stays legal, and only the caller's lease moves. */
  lemma ScriptGrows(st: Setting, s: State, s': State, id: LeaseId)
    requires Inv(st, s) && id in s.runs && (ScriptStep(st, s, s', id) || LateScript(st, s, s', id))
    ensures s'.now == s.now && Legal(s'.history, st.limit, st.interval) && NotAfter(s'.history, s'.now)
    ensures SameButFor(Expiries(s'.history), Expiries(s.history), id) && GrantsOn(s.history, s'.history)
  {
    hide RunInv, ScriptStep, LateScript, Legal, NotAfter, Expiries, SameButFor, Decide, GrantsOn;
    var e := ScriptEvent(st, s, s', id);
    LegalExtend(s.history, e, st.limit, st.interval);
    OthersUntouched(s.history, e);
    LastGrantStays(s.history, e);
  }

  lemma EndedIsWell(st: Setting, id: LeaseId, r: Run, h: History, now: int)
    requires r.phase.Ended?
    ensures RunInv(st, id, r, h, now)
  {
  }

  /** A late script finds the lease it asks for held, or grants one nobody relies on yet. */
  lemma LateScriptKeeps(st: Setting, s: State, s': State, id: LeaseId)
    requires Inv(st, s) && id in s.runs && LateScript(st, s, s', id)
    ensures Inv(st, s')
  {
    ScriptGrows(st, s, s', id);
    LateIsHarmless(st, s, id);
    forall other | other in s'.runs
      ensures Policy(s'.runs[other].timing) && RunInv(st, other, s'.runs[other], s'.history, s'.now)
    {
      hide RunInv;
      if other != id {
        OthersKeep(st, s, s'.history, id, other);
      }
    }
  }

  lemma LateIsHarmless(st: Setting, s: State, id: LeaseId)
    requires Inv(st, s) && id in s.runs && st.late && s.runs[id].phase != Thinking(None)
    ensures RunInv(st, id, s.runs[id], Grown(st, s, id), s.now)
  {
    assert RunInv(st, id, s.runs[id], s.history, s.now);
    GrownExpiries(st, s, id);
    LastGrantIsPast(s.history, s.now);
    assert Front(Grown(st, s, id)) == s.history;
    if OnLease(s.runs[id].phase) {
      OnLeaseIsLive(st, s, id);
    } else if s.runs[id].phase.Asking? && id in Expiries(s.history) {
      AskedIsLive(st, s, id);
    }
  }

  lemma NextKeeps(st: Setting, s: State, s': State)
    requires Inv(st, s) && Next(st, s, s')
    ensures Inv(st, s')
  {
    hide Inv, Tick, ScriptStep, LateScript, WorkflowStep;
    if Tick(st, s, s') {
      TickKeeps(st, s, s');
    } else if id :| id in s.runs && (ScriptStep(st, s, s', id) || LateScript(st, s, s', id)) {
      if ScriptStep(st, s, s', id) {
        ScriptStepKeeps(st, s, s', id);
      } else {
        LateScriptKeeps(st, s, s', id);
      }
    } else {
      var id, r' :| id in s.runs && WorkflowStep(st, s.runs[id], r', s.now) && s' == s.(runs := s.runs[id := r']);
      WorkflowStepKeeps(st, s, id, r');
    }
  }

  lemma {:induction false} InvThroughout(b: seq<State>, i: nat, st: Setting)
    requires Behaviour(b, st) && i < |b|
    ensures Inv(st, b[i])
  {
    if i > 0 {
      hide Next, Inv;
      InvThroughout(b, i - 1, st);
      NextKeeps(st, b[i - 1], b[i]);
    }
  }

  // ----- the theorem ---------------------------------------------------------------------------

  /** Runs whose scrape is queued, running or backing off under a lease they waited for. */
  function Slotted(s: State): set<LeaseId> {
    set id | id in s.runs && OnLease(s.runs[id].phase)
  }

  /** And a scrape does come to run under a lease. */
  lemma LeaseIsReached(st: Setting, t: Timing) returns (b: seq<State>)
    requires st.limit >= 1 && Policy(t)
    ensures Behaviour(b, st) && Slotted(b[|b| - 1]) == {"a"} && b[|b| - 1].runs["a"].phase.Scraping?
  {
    var r0 := Run(t, Thinking(None), 0);
    var r1 := r0.(phase := Asking(0, None, None));
    var r2 := r0.(phase := Asking(0, Some(Told(0, 0)), None));
    var r3 := r0.(phase := Queued(0, 0), learned := 0);
    var r4 := r3.(phase := Scraping(0, 0));
    var h: History := [Asked(0, "a", LeaseTtl(t), Granted)];
    var s0 := State(0, [], map["a" := r0]);
    var s1, s2 := s0.(runs := s0.runs["a" := r1]), State(0, h, s0.runs["a" := r1]["a" := r2]);
    var s3 := s2.(runs := s2.runs["a" := r3]);
    var s4 := s3.(runs := s3.runs["a" := r4]);
    b := [s0, s1, s2, s3, s4];
    assert Live([], 0) == {};
    assert Grown(st, s1, "a") == h;
    assert WorkflowStep(st, r0, r1, 0) && ScriptStep(st, s1, s2, "a");
    assert WorkflowStep(st, r2, r3, 0) && WorkflowStep(st, r3, r4, 0);
    assert Next(st, s0, s1) && Next(st, s1, s2) && Next(st, s2, s3) && Next(st, s3, s4);
  }

  /** At every instant of every interleaving, the scrapes going on under a lease number at most the
      limit, and each of them still holds its lease. Scripts of attempts that timed out may land at any later
      time: a wait for the rate window is one for everybody, so whatever the interval such a lease is at most
      an attempt, a backoff and an acquire old when it is learned of, which the margin covers. */
  lemma SlottedWithinLimit(b: seq<State>, i: nat, st: Setting)
    requires Behaviour(b, st) && i < |b|
    ensures |Slotted(b[i])| <= Max(st.limit, 0)
    ensures Slotted(b[i]) <= Live(b[i].history, b[i].now)
  {
    InvThroughout(b, i, st);
    var s := b[i];
    forall id | id in Slotted(s)
      ensures id in Live(s.history, s.now)
    {
      OnLeaseIsLive(st, s, id);
    }
    SubsetSize(Slotted(s), Live(s.history, s.now));
    LiveWithinLimit(s.history, s.now, st.limit, st.interval);
  }
}
