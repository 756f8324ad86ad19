/** Admission against the two count meters (api/app/core/quota.py, its callers in api/app/routers/ and
    api/app/workflows/activities/schedules.py): lock the user, count, count, insert, commit. Every step may
    be followed by a step of any other request of the same user, of a run that ends, or of the lanes that
    are charged outside admission. Counts read what is committed. */
module Admission {
  import opened Common

  type ReqId = nat

  datatype Limits = Limits(monthlyRuns: int, concurrentJobs: int)

  /** What a request asks the monthly meter for, and what its rows add to each meter once committed. */
  datatype Ask =
    | JobAsk               // POST /jobs, or a schedule's tick
    | BatchAsk(items: nat)
    | CrawlAsk(maxPages: nat) // asks for all its pages; each is charged when it is found, outside admission
    | PipelineAsk          // holds no slot until a block runs
    | FailedTick           // a tick over the storage limit: a failed run, which costs a unit

  function Asked(a: Ask): nat {
    match a
    case BatchAsk(items) => items
    case CrawlAsk(maxPages) => maxPages
    case _ => 1
  }

  function Units(a: Ask): nat {
    if a.CrawlAsk? then 0 else Asked(a)
  }

  function Slots(a: Ask): nat {
    if a.PipelineAsk? || a.FailedTick? then 0 else 1
  }

  datatype Phase = Arrived | Holding | MonthCounted | SlotsCounted | Admitted | Refused

  datatype Request = Request(ask: Ask, phase: Phase)

  /** `units` and `slots`: this month's units and the slots held by what admission let in; the other two
      are the crawl pages and the running pipelines, which the views count as well. */
  datatype State = State(units: nat, slots: nat, crawlPages: nat, runningPipelines: nat,
                         lock: Option<ReqId>, requests: map<ReqId, Request>)

  /** `_quota_check`. */
  predicate Exceeded(used: int, count: int, limit: int) {
    used + count > limit
  }

  function Moved(s: State, r: ReqId, phase: Phase): State
    requires r in s.requests
  {
    s.(requests := s.requests[r := s.requests[r].(phase := phase)])
  }

  /** `lock_user`: waits until no one holds the row. Without the lock it would be no wait at all. */
  predicate Locks(locking: bool, s: State, s': State, r: ReqId) {
    && r in s.requests && s.requests[r].phase.Arrived? && (locking ==> s.lock.None?)
    && s' == Moved(s, r, Holding).(lock := Some(r))
  }

  predicate CountsMonth(l: Limits, s: State, s': State, r: ReqId) {
    && r in s.requests && s.requests[r].phase.Holding?
    && s' == if Exceeded(s.units + s.crawlPages, Asked(s.requests[r].ask), l.monthlyRuns)
             then Moved(s, r, Refused).(lock := None) else Moved(s, r, MonthCounted)
  }

  /** A pipeline's trigger is counted against the slots too. A failed tick never gets so far. */
  predicate CountsSlots(l: Limits, s: State, s': State, r: ReqId) {
    && r in s.requests && s.requests[r].phase.MonthCounted?
    && s' == if !s.requests[r].ask.FailedTick? && Exceeded(s.slots + s.runningPipelines, 1, l.concurrentJobs)
             then Moved(s, r, Refused).(lock := None) else Moved(s, r, SlotsCounted)
  }

  /** Insert and commit; the commit makes the rows count and releases the lock. */
  predicate Commits(s: State, s': State, r: ReqId) {
    && r in s.requests && s.requests[r].phase.SlotsCounted?
    && s' == Moved(s, r, Admitted).(lock := None, units := s.units + Units(s.requests[r].ask),
                                   slots := s.slots + Slots(s.requests[r].ask))
  }

  /** The storage meter, a second crawl of one site, an error: the transaction is rolled back. */
  predicate GivesUp(s: State, s': State, r: ReqId) {
    && r in s.requests && (s.requests[r].phase.Holding? || s.requests[r].phase.MonthCounted? || s.requests[r].phase.SlotsCounted?)
    && s' == Moved(s, r, Refused).(lock := None)
  }

  predicate Arrives(s: State, s': State, r: ReqId, a: Ask) {
    r !in s.requests && s' == s.(requests := s.requests[r := Request(a, Arrived)])
  }

  /** Runs end and are deleted, a month begins, pages are found, blocks start and stop. */
  predicate Elsewhere(s: State, s': State) {
    && s'.units <= s.units && s'.slots <= s.slots
    && s' == s.(units := s'.units, slots := s'.slots, crawlPages := s'.crawlPages, runningPipelines := s'.runningPipelines)
  }

  predicate RequestStep(l: Limits, locking: bool, s: State, s': State, r: ReqId) {
    Locks(locking, s, s', r) || CountsMonth(l, s, s', r) || CountsSlots(l, s, s', r) || Commits(s, s', r) || GivesUp(s, s', r)
  }

  ghost predicate Next(l: Limits, locking: bool, s: State, s': State) {
    || Elsewhere(s, s')
    || (exists r :: RequestStep(l, locking, s, s', r))
    || (exists r, a :: Arrives(s, s', r, a))
  }

  ghost predicate Trace(l: Limits, locking: bool, t: seq<State>) {
    && t != [] && t[0].lock == None && t[0].requests == map[]
    && forall i :: 0 <= i < |t| - 1 ==> Next(l, locking, t[i], t[i + 1])
  }

  predicate Within(l: Limits, s: State) {
    s.units <= l.monthlyRuns && s.slots <= l.concurrentJobs
  }

  predicate Held(p: Phase) {
    p.Holding? || p.MonthCounted? || p.SlotsCounted?
  }

  /** The lock is the holder's alone, and what it has counted stays true until it commits. */
  ghost predicate Inv(l: Limits, s: State) {
    && Within(l, s)
    && (forall r :: r in s.requests && Held(s.requests[r].phase) ==> s.lock == Some(r))
    && (forall r :: r in s.requests && (s.requests[r].phase.MonthCounted? || s.requests[r].phase.SlotsCounted?) ==>
          s.units + Asked(s.requests[r].ask) <= l.monthlyRuns)
    && (forall r :: r in s.requests && s.requests[r].phase.SlotsCounted? && !s.requests[r].ask.FailedTick? ==>
          s.slots + 1 <= l.concurrentJobs)
  }

  lemma StepKeeps(l: Limits, s: State, s': State, r: ReqId)
    requires Inv(l, s) && RequestStep(l, true, s, s', r)
    ensures Inv(l, s')
  {
  }

  lemma NextKeeps(l: Limits, s: State, s': State)
    requires Inv(l, s) && Next(l, true, s, s')
    ensures Inv(l, s')
  {
    if r :| RequestStep(l, true, s, s', r) {
      StepKeeps(l, s, s', r);
    }
  }

  /** However requests, ends of runs and the other lanes interleave: what admission lets in stays within
      both limits, at every instant. */
  lemma {:induction false} AdmissionsWithinLimits(l: Limits, t: seq<State>, i: nat)
    requires Trace(l, true, t) && Within(l, t[0]) && i < |t|
    ensures Within(l, t[i]) && Inv(l, t[i])
  {
    hide Next;
    if i > 0 {
      AdmissionsWithinLimits(l, t, i - 1);
      NextKeeps(l, t[i - 1], t[i]);
    }
  }

  /** At most one request is between its lock and its commit. */
  lemma OneAtATime(l: Limits, t: seq<State>, i: nat, q: ReqId, r: ReqId)
    requires Trace(l, true, t) && Within(l, t[0]) && i < |t|
    requires q in t[i].requests && r in t[i].requests && Held(t[i].requests[q].phase) && Held(t[i].requests[r].phase)
    ensures q == r
  {
    AdmissionsWithinLimits(l, t, i);
  }

  /** Both meters, as one reading of the state: what a request may be admitted on. */
  predicate Room(l: Limits, s: State, a: Ask) {
    && s.units + s.crawlPages + Asked(a) <= l.monthlyRuns
    && (a.FailedTick? || s.slots + s.runningPipelines + 1 <= l.concurrentJobs)
  }

  function LetIn(s: State, r: ReqId): State
    requires r in s.requests
  {
    Moved(s, r, Admitted).(units := s.units + Units(s.requests[r].ask), slots := s.slots + Slots(s.requests[r].ask))
  }

  /** Left to itself with the lock free, a request can commit exactly when there is room, and then adds its
      own units and slot and nothing else. */
  lemma AloneAdmittedExactly(l: Limits, s: State, r: ReqId, s1: State, s2: State)
    requires Locks(true, s, s1, r) && CountsMonth(l, s1, s2, r)
    ensures (exists s3, s4 :: CountsSlots(l, s2, s3, r) && Commits(s3, s4, r)) <==> Room(l, s, s.requests[r].ask)
    ensures forall s3, s4 :: CountsSlots(l, s2, s3, r) && Commits(s3, s4, r) ==> s4 == LetIn(s, r)
    // A batch asks for and costs a unit an item and holds one slot; a crawl asks for all its pages and costs
    // none yet; a failed tick and a pipeline cost a unit and hold no slot.
    ensures var ask := s.requests[r].ask;
            var asked := match ask case BatchAsk(items) => items case CrawlAsk(pages) => pages case _ => 1;
            && (Room(l, s, ask) <==>
                  && s.units + s.crawlPages + asked <= l.monthlyRuns
                  && (ask.FailedTick? || s.slots + s.runningPipelines < l.concurrentJobs))
            && LetIn(s, r).units == s.units + (if ask.CrawlAsk? then 0 else asked)
            && LetIn(s, r).slots == s.slots + (if ask.PipelineAsk? || ask.FailedTick? then 0 else 1)
            && LetIn(s, r).crawlPages == s.crawlPages && LetIn(s, r).runningPipelines == s.runningPipelines
  {
    forall s3, s4 | CountsSlots(l, s2, s3, r) && Commits(s3, s4, r) ensures s4 == LetIn(s, r) {
      assert s4.requests == s.requests[r := s4.requests[r]];
    }
    if Room(l, s, s.requests[r].ask) {
      var s3 := Moved(s2, r, SlotsCounted);
      assert CountsSlots(l, s2, s3, r) && Commits(s3, LetIn(s3, r).(lock := None), r);
    }
  }

  /** Without the lock the same steps admit two requests to the last place. */
  lemma LockIsNeeded() returns (l: Limits, t: seq<State>)
    ensures Trace(l, false, t) && Within(l, t[0]) && !Within(l, t[|t| - 1])
  {
    l := Limits(1, 1);
    var a := Request(JobAsk, Arrived);
    var s0 := State(0, 0, 0, 0, None, map[]);
    var s1 := s0.(requests := map[0 := a]);
    var s2 := s0.(requests := map[0 := a, 1 := a]);
    var s3 := Moved(s2, 0, Holding).(lock := Some(0));
    var s4 := Moved(s3, 1, Holding).(lock := Some(1));
    var s5 := Moved(s4, 0, MonthCounted);
    var s6 := Moved(s5, 1, MonthCounted);
    var s7 := Moved(s6, 0, SlotsCounted);
    var s8 := Moved(s7, 1, SlotsCounted);
    var s9 := Moved(s8, 0, Admitted).(lock := None, units := 1, slots := 1);
    var s10 := Moved(s9, 1, Admitted).(lock := None, units := 2, slots := 2);
    t := [s0, s1, s2, s3, s4, s5, s6, s7, s8, s9, s10];
    assert Arrives(s0, s1, 0, JobAsk) && Arrives(s1, s2, 1, JobAsk);
    assert RequestStep(l, false, s2, s3, 0) && RequestStep(l, false, s3, s4, 1);
    assert RequestStep(l, false, s4, s5, 0) && RequestStep(l, false, s5, s6, 1);
    assert RequestStep(l, false, s6, s7, 0) && RequestStep(l, false, s7, s8, 1);
    assert RequestStep(l, false, s8, s9, 0) && RequestStep(l, false, s9, s10, 1);
  }
}
