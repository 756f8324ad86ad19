/** `CrawlWorkflow` itself: its fields and its loop, proved to run only as the protocol lets it and to
    end. Every await hands the object to the page tasks, which take whatever steps they like. */
module Crawl {
  import opened Common
  import opened CrawlProtocol

  datatype Left = Returned(outcome: Outcome) | AsNew | Raised(outcome: Outcome)

  /** What a fresh crawl is told before its loop: whether it is still running; whether the seed's admission
      failed for good, or let no page in; and whether it was still running after that. */
  datatype Greeting = Greeting(running: bool, admissionFails: bool, seedRefused: bool, still: bool)

  predicate Welcome(g: Greeting) {
    g.running && !g.admissionFails && !g.seedRefused
  }

  datatype Ending = Finish(outcome: Outcome) | ContinueAsNew | Dropped

  lemma Extended(p: Params, t: seq<State>, s: State)
    requires Trace(p, t) && Next(p, t[|t| - 1], s)
    ensures Trace(p, t + [s])
  {
    hide Next;
    var u := t + [s];
    forall i | 0 <= i < |u| - 1 ensures Next(p, u[i], u[i + 1]) {
      if i < |t| - 1 {
        assert Next(p, t[i], t[i + 1]);
      }
    }
  }

  lemma InvNow(p: Params, t: seq<State>)
    requires p.maxInFlight >= 1 && p.pagesPerRun >= 1 && Trace(p, t)
    ensures forall i :: 0 <= i < |t| ==> Inv(p, t[i])
  {
    hide Trace, Inv;
    forall i | 0 <= i < |t| ensures Inv(p, t[i]) {
      CrawlInvariant(p, t, i);
    }
  }

  lemma NoIds()
    ensures Ids([]) == {}
  {
  }

  lemma IdsSnoc(pages: seq<PageId>, i: nat)
    requires i < |pages|
    ensures Ids(pages[..i + 1]) == Ids(pages[..i]) + {pages[i]}
  {
  }

  class CrawlWorkflow {
    const p: Params
    var inFlight: set<PageId>
    var finished: nat
    var cancelRequested: bool
    var stop: Option<Stop>
    var failure: bool
    ghost var pc: Pc
    ghost var started: nat
    ghost var claimLost: bool   // a claim failed for good
    ghost var trace: seq<State>

    ghost function Now(): State
      reads this
    {
      State(pc, inFlight, finished, cancelRequested, stop, failure, started)
    }

    /** The trace is a run of the protocol and ends here. */
    ghost predicate Valid()
      reads this
    {
      p.maxInFlight >= 1 && p.pagesPerRun >= 1 && Trace(p, trace) && trace[|trace| - 1] == Now()
    }

    constructor (p: Params, continued: bool)
      requires p.maxInFlight >= 1 && p.pagesPerRun >= 1
      ensures Valid() && this.p == p && |trace| == 1
      ensures pc == if continued then AtTop else Starting
      ensures !cancelRequested && !claimLost
    {
      this.p := p;
      claimLost := false;
      inFlight, finished, cancelRequested, stop, failure := {}, 0, false, None, false;
      pc := if continued then AtTop else Starting;
      started := 0;
      trace := [State(if continued then AtTop else Starting, {}, 0, false, None, false, 0)];
    }

    ghost method Log()
      requires p.maxInFlight >= 1 && p.pagesPerRun >= 1
      requires Trace(p, trace) && Next(p, trace[|trace| - 1], Now())
      modifies `trace
      ensures Valid() && trace == old(trace) + [Now()]
    {
      Extended(p, trace, Now());
      trace := trace + [Now()];
    }

    /** The `finally` of `_page`. */
    method PageEndsHere(page: PageId, fails: bool)
      requires Valid() && AtAwait(pc) && page in inFlight
      modifies `inFlight, `finished, `failure, `trace
      ensures Valid() && old(trace) <= trace
      ensures inFlight == old(inFlight) - {page} && finished == old(finished) + 1
      ensures failure == (old(failure) || fails)
    {
      hide Next;
      ghost var s := Now();
      failure := failure || fails;
      inFlight := inFlight - {page};
      finished := finished + 1;
      PageEndIsNext(p, s, Now(), page, fails);
      Log();
    }

    method PageTalksHere(heard: Option<Stop>)
      requires Valid() && AtAwait(pc) && inFlight != {}
      modifies `stop, `trace
      ensures Valid() && old(trace) <= trace
    {
      ghost var s := Now();
      if heard == Some(Stopped) || (stop.None? && heard == Some(StorageLimit)) {
        stop := heard;
      }
      assert PageTalks(s, Now());
      Log();
    }

    /** Any steps of any page tasks, while the loop awaits. */
    method PagesRun()
      requires Valid() && AtAwait(pc)
      modifies `inFlight, `finished, `failure, `stop, `trace
      ensures Valid() && old(trace) <= trace
      ensures inFlight <= old(inFlight) && finished >= old(finished)
    {
      var steps: nat := *;
      while steps > 0 && inFlight != {}
        invariant Valid() && old(trace) <= trace
        invariant inFlight <= old(inFlight) && finished >= old(finished)
        decreases steps
      {
        var page :| page in inFlight;
        var ends: bool, fails: bool, heard: Option<Stop> := *, *, *;
        if ends {
          PageEndsHere(page, fails);
        } else {
          PageTalksHere(heard);
        }
        steps := steps - 1;
      }
    }

    /** `claim_crawl_pages` through `_db`; None when it fails for good. */
    method AwaitClaim(limit: nat, known: set<PageId>) returns (claim: Option<Claim>)
      requires Valid() && pc.Claiming? && pc.limit == limit && pc.snapshot == known
      modifies `inFlight, `finished, `failure, `stop, `cancelRequested, `trace, `pc, `claimLost
      ensures Valid() && old(trace) <= trace && finished >= old(finished)
      ensures claimLost == (old(claimLost) || claim.None?)
      ensures claim.Some? ==> pc == old(pc) && ClaimContract(claim.value, limit, known)
      ensures claim.None? ==> pc == Draining(CrawlFailed)
    {
      hide Next;
      PagesRun();
      var cancelled: bool, lost: bool, answer: Claim := *, *, *;
      ghost var s := Now();
      if cancelled {
        cancelRequested := true;
        DisturbedIsNext(p, s, Now());
        Log();
        PagesRun();
        s := Now();
      }
      if lost {
        claimLost := true;
        pc := Draining(CrawlFailed);
        DisturbedIsNext(p, s, Now());
        Log();
        return None;
      }
      claim := Some(if ClaimContract(answer, limit, known) then answer else Claim(true, false, []));
    }

    /** `wait_condition`: wakes once a page has finished since `done`; a cancel breaks it. Every page
        task ends some day. */
    method AwaitPage(done: nat) returns (cancelled: bool)
      requires Valid() && pc == Waiting(done)
      modifies `inFlight, `finished, `failure, `stop, `cancelRequested, `trace, `pc
      ensures Valid() && old(trace) <= trace
      ensures cancelled ==> pc == Draining(CrawlCancelled) && cancelRequested
      ensures !cancelled ==> pc == AtTop && finished > done
    {
      hide Next;
      PagesRun();
      cancelled := *;
      if !cancelled && finished == done {
        InvNow(p, trace);
        var page :| page in inFlight;
        var fails: bool := *;
        PageEndsHere(page, fails);
      }
      if !cancelled {
        InvNow(p, trace);
      }
      ghost var s := Now();
      if cancelled {
        cancelRequested := true;
        pc := Draining(CrawlCancelled);
      } else {
        pc := AtTop;
      }
      WakeIsNext(p, s, Now());
      Log();
    }

    /** `_drain`: cancels every page task and awaits them all. */
    method Drain() returns (dropped: bool)
      requires Valid() && pc.Draining?
      modifies `inFlight, `finished, `failure, `stop, `trace, `pc
      ensures Valid() && old(trace) <= trace
      ensures inFlight == {} && (old(failure) ==> failure)
      ensures pc == if dropped then Abandoned else Finishing(old(pc).outcome)
    {
      hide Next;
      while inFlight != {}
        invariant Valid() && old(trace) <= trace && pc == old(pc) && (old(failure) ==> failure)
        decreases |inFlight|
      {
        var page :| page in inFlight;
        var fails: bool, heard: Option<Stop> := *, *;
        PageTalksHere(heard);
        PageEndsHere(page, fails);
      }
      dropped := *;
      ghost var s := Now();
      pc := if dropped then Abandoned else Finishing(pc.outcome);
      DrainedIsNext(p, s, Now());
      Log();
    }

    /** crawl_started and the seed's admission, before the loop. */
    method Begin(g: Greeting) returns (left: Option<Left>)
      requires Valid() && pc.Starting?
      modifies `cancelRequested, `stop, `trace, `pc
      ensures Valid() && old(trace) <= trace
      ensures left.None? <==> Welcome(g)
      ensures left.None? ==> pc == AtTop && stop == if g.still then old(stop) else Some(Stopped)
      // No longer running: finish_crawl leaves the row as it is. A seed refused, or not admitted, fails it.
      ensures !g.running ==> left == Some(Returned(CrawlCancelled)) && pc == Finishing(CrawlCancelled)
      ensures g.running && g.admissionFails ==> left == Some(Raised(CrawlFailed)) && pc == Draining(CrawlFailed)
      ensures g.running && !g.admissionFails && g.seedRefused ==>
                left == Some(Returned(CrawlFailed)) && pc == Finishing(CrawlFailed)
    {
      hide Next;
      InvNow(p, trace);
      ghost var s := Now();
      var cancelled: bool := *;
      cancelRequested := cancelRequested || cancelled;
      if !g.running {
        pc := Finishing(CrawlCancelled);
        left := Some(Returned(CrawlCancelled));
      } else if g.admissionFails {
        pc := Draining(CrawlFailed);
        left := Some(Raised(CrawlFailed));
      } else if g.seedRefused {
        stop := if g.still then stop else Some(Stopped);
        pc := Finishing(CrawlFailed);
        left := Some(Returned(CrawlFailed));
      } else {
        if !g.still {
          stop := Some(Stopped);
        }
        pc := AtTop;
        left := None;
      }
      StartIsNext(p, s, Now());
      Log();
    }

    /** The loop of `_crawl`. Each turn that comes back has seen a page finish, so it ends. */
    method Loop() returns (left: Left)
      requires Valid() && pc == AtTop
      modifies `inFlight, `finished, `failure, `stop, `cancelRequested, `started, `trace, `pc, `claimLost
      ensures Valid() && old(trace) <= trace && Landed(left)
    {
      hide Next;
      InvNow(p, trace);
      while true
        invariant Valid() && old(trace) <= trace && pc == AtTop
        invariant finished <= p.pagesPerRun + p.maxInFlight - 1
        decreases p.pagesPerRun + p.maxInFlight - finished
      {
        var turn := Turn();
        if turn.Some? {
          return turn.value;
        }
        InvNow(p, trace);
      }
    }

    /** One turn: claim when there is room, then wait for a page, or leave. None = go round again. */
    method Turn() returns (left: Option<Left>)
      requires Valid() && pc == AtTop
      modifies `inFlight, `finished, `failure, `stop, `cancelRequested, `started, `trace, `pc, `claimLost
      ensures Valid() && old(trace) <= trace
      ensures left.Some? ==> Landed(left.value)
      ensures left.None? ==> pc == AtTop && finished > old(finished)
    {
      hide Next;
      var suggested: bool := *;
      ghost var s := Now();
      if cancelRequested {
        left := Some(Raised(CrawlCancelled));
        pc := Draining(CrawlCancelled);
        TopIsNext(p, s, Now(), suggested);
        Log();
        return;
      }
      if failure {
        left := Some(Raised(CrawlFailed));
        pc := Draining(CrawlFailed);
        TopIsNext(p, s, Now(), suggested);
        Log();
        return;
      }
      var free := p.maxInFlight - |inFlight|;
      if stop.None? && !(finished >= p.pagesPerRun || suggested) && free > 0 {
        left := ClaimAndDecide(free, suggested);
      } else {
        left := WaitOrLeave(suggested);
        TopIsNext(p, s, Now(), suggested);
        Log();
      }
      if left.None? {
        var cancelled := AwaitPage(finished);
        if cancelled {
          left := Some(Raised(CrawlCancelled));
        }
      }
    }

    method ClaimAndDecide(free: nat, ghost suggested: bool) returns (left: Option<Left>)
      requires Valid() && pc == AtTop && !cancelRequested && !failure
      requires stop.None? && !(finished >= p.pagesPerRun || suggested) && free == p.maxInFlight - |inFlight| > 0
      modifies `inFlight, `finished, `failure, `stop, `cancelRequested, `started, `trace, `pc, `claimLost
      ensures Valid() && old(trace) <= trace && finished >= old(finished)
      ensures left.Some? ==> Landed(left.value)
      ensures left.None? ==> pc == Waiting(finished)
    {
      hide Next;
      ghost var s := Now();
      var known := inFlight;
      pc := Claiming(free, known, finished);
      TopIsNext(p, s, Now(), suggested);
      Log();
      var answer := AwaitClaim(free, known);
      if answer.None? {
        return Some(Raised(CrawlFailed));
      }
      left := AfterClaim(answer.value);
    }

    method AfterClaim(claim: Claim) returns (left: Option<Left>)
      requires Valid() && pc.Claiming? && ClaimContract(claim, pc.limit, pc.snapshot)
      modifies `inFlight, `stop, `started, `trace, `pc
      ensures Valid() && old(trace) <= trace
      ensures left.Some? ==> Landed(left.value)
      ensures left.None? ==> pc == Waiting(finished)
    {
      hide Next, Taken, Decide, ClaimContract;
      var hint: bool := *;
      ghost var s := Now();
      if cancelRequested {
        left := Some(Raised(CrawlCancelled));
        pc := Draining(CrawlCancelled);
      } else {
        Take(claim);
        left := WaitOrLeave(hint);
      }
      ClaimIsNext(p, s, Now(), claim, hint);
      Log();
    }

    method Take(claim: Claim)
      modifies `stop, `inFlight, `started
      ensures Now() == Taken(old(Now()), claim)
      ensures inFlight == old(inFlight) + Ids(claim.pages)
      ensures !claim.running ==> stop == Some(Stopped)
      ensures claim.running ==> stop == if claim.storageFull then Some(StorageLimit) else old(stop)
    {
      if !claim.running {
        stop := Some(Stopped);
      } else if claim.storageFull {
        stop := Some(StorageLimit);
      }
      StartTasks(claim.pages);
    }

    /** Starts a task for every claimed page that has none. */
    method StartTasks(pages: seq<PageId>)
      modifies `inFlight, `started
      ensures inFlight == old(inFlight) + (Ids(pages) - old(inFlight))
      ensures started == old(started) + |Ids(pages) - old(inFlight)|
    {
      hide Ids;
      NoIds();
      ghost var before, mine: set<PageId> := inFlight, {};
      for i := 0 to |pages|
        invariant mine == Ids(pages[..i]) - before
        invariant inFlight == before + mine
        invariant started == old(started) + |mine|
      {
        IdsSnoc(pages, i);
        if pages[i] !in inFlight {
          mine := mine + {pages[i]};
          inFlight := inFlight + {pages[i]};
          started := started + 1;
        }
      }
      assert pages[..|pages|] == pages;
    }

    /** Nothing in flight: as new, or the outcome. Otherwise wait. */
    method WaitOrLeave(suggested: bool) returns (left: Option<Left>)
      modifies `pc
      ensures Now() == Decide(p, old(Now()), suggested)
      ensures left.Some? ==> Landed(left.value)
      ensures left.None? ==> pc == Waiting(finished)
    {
      if inFlight != {} {
        pc := Waiting(finished);
        return None;
      }
      if stop.None? && (finished >= p.pagesPerRun || suggested) {
        pc := ContinuedAsNew;
        return Some(AsNew);
      }
      if failure {
        pc := Draining(CrawlFailed);
        return Some(Raised(CrawlFailed));
      }
      var outcome := if stop == Some(Stopped) then CrawlCancelled else CrawlCompleted(stop.Some?);
      pc := Finishing(outcome);
      left := Some(Returned(outcome));
    }

    /** A whole run, from either start, whatever the pages, claims and cancels do: it ends, with nothing
        in flight, having started no page past its bound; and the states it went through are a trace of
        the protocol, so all that is proved of traces is proved of it. It ends as what happened asks: turned
        away at the start; cancelled by a cancel or because the crawl was stopped; failed by a page or a
        claim; completed when its last claim found nothing, or at the storage limit; and a full run that
        none of these befell continues as new. */
    method Run(continued: bool, g: Greeting) returns (ending: Ending)
      requires Valid() && |trace| == 1 && pc == if continued then AtTop else Starting
      requires !claimLost
      modifies this
      ensures Valid() && forall i :: 0 <= i < |trace| ==> Inv(p, trace[i])
      ensures inFlight == {} && started == finished <= p.pagesPerRun + p.maxInFlight - 1
      ensures match ending
              case Finish(outcome) => pc == Finishing(outcome)
              case ContinueAsNew => pc == ContinuedAsNew && stop.None?
              case Dropped => pc == Abandoned
      ensures ending.Finish? && ending.outcome.CrawlCompleted? ==>
                !failure && stop != Some(Stopped) && (ending.outcome.note <==> stop.Some?)
      ensures ending == Finish(CrawlCompleted(false)) ==>
                finished < p.pagesPerRun && |trace| >= 2 && EmptyHanded(p, trace[|trace| - 2], Now())
      ensures !continued && !g.running ==> ending == Finish(CrawlCancelled)
      ensures !continued && g.running && g.admissionFails ==> ending == Finish(CrawlFailed) || ending == Dropped
      ensures !continued && g.running && !g.admissionFails && g.seedRefused ==> ending == Finish(CrawlFailed)
      ensures continued || Welcome(g) ==>
                && (ending == Finish(CrawlCancelled) ==> cancelRequested || stop == Some(Stopped))
                && (ending == Finish(CrawlFailed) ==> failure || claimLost)
                && (ending.Dropped? ==> cancelRequested || failure || claimLost)
                && (!cancelRequested && !failure && !claimLost && stop.None? && finished >= p.pagesPerRun ==>
                      ending.ContinueAsNew?)
    {
      hide Next, EmptyHanded;
      var left: Option<Left> := None;
      if !continued {
        left := Begin(g);
      }
      if left.None? {
        var l := Loop();
        left := Some(l);
      }
      match left.value {
        case Returned(outcome) =>
          ending := Finish(outcome);
          DoneWhenCompleted();
        case AsNew =>
          ending := ContinueAsNew;
        case Raised(outcome) =>
          InvNow(p, trace);
          var dropped := Drain();
          ending := if dropped then Dropped else Finish(outcome);
      }
      InvNow(p, trace);
    }

    lemma DoneWhenCompleted()
      requires Valid()
      ensures pc == Finishing(CrawlCompleted(false)) ==>
                finished < p.pagesPerRun && |trace| >= 2 && EmptyHanded(p, trace[|trace| - 2], Now())
    {
      hide Next, EmptyHanded;
      InvNow(p, trace);
      if pc == Finishing(CrawlCompleted(false)) {
        CompletedMeansDone(p, trace[|trace| - 2], trace[|trace| - 1]);
      }
    }

    ghost predicate Landed(left: Left)
      reads this
    {
      match left
      case Returned(outcome) =>
        pc == Finishing(outcome) && !outcome.CrawlFailed? && (outcome.CrawlCancelled? ==> stop == Some(Stopped))
      case Raised(outcome) =>
        && pc == Draining(outcome)
        && (if outcome.CrawlFailed? then failure || claimLost else outcome.CrawlCancelled? && cancelRequested)
      case AsNew => pc == ContinuedAsNew
    }
  }
}
