/** A crawl's cooperative loop (api/app/workflows/crawl.py) as a state machine. The loop gives way only
    at its awaits: while it claims pages, while it waits for one to finish, and while it drains. There
    any page task may take a step; everywhere else the loop runs alone. */
module CrawlProtocol {
  import opened Common

  type PageId = string

  datatype Params = Params(maxInFlight: nat, pagesPerRun: nat)

  /** Why no more pages are claimed. */
  datatype Stop = StorageLimit | Stopped

  datatype Outcome = CrawlCompleted(note: bool) | CrawlCancelled | CrawlFailed

  datatype Pc =
    | Starting
    | AtTop
    | Claiming(limit: nat, snapshot: set<PageId>, finishedThen: nat)
    | Waiting(done: nat)
    | Draining(outcome: Outcome)
    | Finishing(outcome: Outcome)   // finish_crawl is called
    | ContinuedAsNew
    | Abandoned                     // cancelled while draining: the workflow ends without finish_crawl

  datatype State = State(
    pc: Pc, inFlight: set<PageId>, finished: nat, cancelRequested: bool, stop: Option<Stop>, failure: bool,
    started: nat)

  datatype Claim = Claim(running: bool, storageFull: bool, pages: seq<PageId>)

  ghost predicate Init(s: State) {
    s == State(Starting, {}, 0, false, None, false, 0) || s == State(AtTop, {}, 0, false, None, false, 0)
  }

  /** `_run_full`; `suggested` is the engine's hint that the history is long. */
  predicate RunFull(p: Params, s: State, suggested: bool) {
    s.finished >= p.pagesPerRun || suggested
  }

  // ----- the loop's own steps --------------------------------------------------------------------------

  /** crawl_started, then the seed's admission: both awaits, with nothing in flight. */
  predicate Start(s: State, s': State) {
    && s.pc.Starting?
    && (|| s' == s.(pc := Finishing(CrawlCancelled), cancelRequested := s'.cancelRequested)
        || s' == s.(pc := Finishing(CrawlFailed), cancelRequested := s'.cancelRequested)
        || s' == s.(pc := Finishing(CrawlFailed), cancelRequested := s'.cancelRequested, stop := Some(Stopped))
        || s' == s.(pc := AtTop, cancelRequested := s'.cancelRequested)
        || s' == s.(pc := AtTop, cancelRequested := s'.cancelRequested, stop := Some(Stopped))
        || s' == s.(pc := Draining(CrawlFailed), cancelRequested := s'.cancelRequested))
  }

  /** From the top of the loop to its next await. */
  predicate Top(p: Params, s: State, s': State, suggested: bool) {
    && s.pc.AtTop?
    && if s.cancelRequested then s' == s.(pc := Draining(CrawlCancelled))
       else if s.failure then s' == s.(pc := Draining(CrawlFailed))
       else if s.stop.None? && !RunFull(p, s, suggested) && p.maxInFlight > |s.inFlight| then
         s' == s.(pc := Claiming(p.maxInFlight - |s.inFlight|, s.inFlight, s.finished))
       else s' == Decide(p, s, suggested)
  }

  /** After the claim, or in its place. */
  function Decide(p: Params, s: State, suggested: bool): State {
    if s.inFlight != {} then s.(pc := Waiting(s.finished))
    else if s.stop.None? && RunFull(p, s, suggested) then s.(pc := ContinuedAsNew)
    else if s.failure then s.(pc := Draining(CrawlFailed))
    else if s.stop == Some(Stopped) then s.(pc := Finishing(CrawlCancelled))
    else s.(pc := Finishing(CrawlCompleted(s.stop.Some?)))
  }

  /** `claim_crawl_pages`: at most `limit` pages, none of those the workflow said it is fetching. */
  predicate ClaimContract(c: Claim, limit: nat, snapshot: set<PageId>) {
    |c.pages| <= limit && forall q :: q in c.pages ==> q !in snapshot
  }

  function Ids(pages: seq<PageId>): set<PageId> {
    set q | q in pages
  }

  function Taken(s: State, c: Claim): State {
    var unseen := Ids(c.pages) - s.inFlight;
    s.(stop := if !c.running then Some(Stopped) else if c.storageFull then Some(StorageLimit) else s.stop,
       inFlight := s.inFlight + unseen,
       started := s.started + |unseen|)
  }

  ghost predicate ClaimReturns(p: Params, s: State, s': State, c: Claim, suggested: bool) {
    && s.pc.Claiming? && ClaimContract(c, s.pc.limit, s.pc.snapshot)
    && s' == if s.cancelRequested then s.(pc := Draining(CrawlCancelled))
             else Decide(p, Taken(s, c), suggested)
  }

  /** A cancel that `_db` notes while the claim is awaited; or the claim fails for good. */
  predicate ClaimDisturbed(s: State, s': State) {
    s.pc.Claiming? && (s' == s.(cancelRequested := true) || s' == s.(pc := Draining(CrawlFailed)))
  }

  predicate Wake(s: State, s': State) {
    && s.pc.Waiting?
    && (|| (s.finished > s.pc.done && s' == s.(pc := AtTop))
        || s' == s.(pc := Draining(CrawlCancelled), cancelRequested := true))
  }

  predicate Drained(s: State, s': State) {
    && s.pc.Draining? && s.inFlight == {}
    && (s' == s.(pc := Finishing(s.pc.outcome)) || s' == s.(pc := Abandoned))
  }

  // ----- the page tasks' steps ---------------------------------------------------------------------------

  predicate AtAwait(pc: Pc) {
    pc.Claiming? || pc.Waiting? || pc.Draining?
  }

  /** What a page's records and admissions do to the reason to stop. */
  predicate Stops(a: Option<Stop>, b: Option<Stop>) {
    b == a || b == Some(Stopped) || (a.None? && b == Some(StorageLimit))
  }

  predicate PageTalks(s: State, s': State) {
    AtAwait(s.pc) && s.inFlight != {} && Stops(s.stop, s'.stop) && s' == s.(stop := s'.stop)
  }

  /** A page task ends, in its `finally`; an error of its own is kept as the crawl's, if the first. */
  predicate PageEnds(s: State, s': State, page: PageId, fails: bool) {
    && AtAwait(s.pc) && page in s.inFlight
    && s' == s.(inFlight := s.inFlight - {page}, finished := s.finished + 1, failure := s.failure || fails)
  }

  ghost predicate Next(p: Params, s: State, s': State) {
    || Start(s, s')
    || (exists suggested :: Top(p, s, s', suggested))
    || (exists c, suggested :: ClaimReturns(p, s, s', c, suggested))
    || ClaimDisturbed(s, s')
    || Wake(s, s')
    || Drained(s, s')
    || PageTalks(s, s')
    || (exists page, fails :: PageEnds(s, s', page, fails))
  }

  ghost predicate Trace(p: Params, t: seq<State>) {
    && t != [] && Init(t[0])
    && forall i :: 0 <= i < |t| - 1 ==> Next(p, t[i], t[i + 1])
  }

  // ----- what holds throughout ----------------------------------------------------------------------------

  ghost predicate Inv(p: Params, s: State) {
    && s.started == s.finished + |s.inFlight|
    && |s.inFlight| <= p.maxInFlight
    && s.started <= p.pagesPerRun + p.maxInFlight - 1
    && (s.pc.Claiming? ==>
          && 1 <= s.pc.limit == p.maxInFlight - |s.pc.snapshot|
          && s.inFlight <= s.pc.snapshot
          && s.started == s.pc.finishedThen + |s.pc.snapshot| && s.pc.finishedThen < p.pagesPerRun)
    && (s.pc.Waiting? ==> s.pc.done <= s.finished && (s.finished > s.pc.done || s.inFlight != {}))
    && (s.pc.Starting? || s.pc.Finishing? || s.pc.ContinuedAsNew? || s.pc.Abandoned? ==> s.inFlight == {})
    && (s.pc.ContinuedAsNew? ==> s.stop.None?)
    && (s.pc.Draining? ==> !s.pc.outcome.CrawlCompleted?)
    && (s.pc.Finishing? && s.pc.outcome.CrawlCompleted? ==>
          !s.failure && s.stop != Some(Stopped) && (s.pc.outcome.note <==> s.stop.Some?))
  }

  lemma DistinctPages(pages: seq<PageId>)
    ensures |Ids(pages)| <= |pages|
  {
    if pages != [] {
      var rest := pages[..|pages| - 1];
      DistinctPages(rest);
      assert Ids(pages) == Ids(rest) + {pages[|pages| - 1]};
    }
  }

  lemma TakenKeeps(p: Params, s: State, c: Claim)
    requires Inv(p, s) && s.pc.Claiming? && ClaimContract(c, s.pc.limit, s.pc.snapshot)
    ensures var t := Taken(s, c);
            && t.started == t.finished + |t.inFlight| <= p.pagesPerRun + p.maxInFlight - 1
            && |t.inFlight| <= p.maxInFlight
  {
    var claimed := Ids(c.pages);
    DistinctPages(c.pages);
    SubsetSize(claimed - s.inFlight, claimed);
    SubsetSize(s.inFlight, s.pc.snapshot);
  }

  lemma DecideKeeps(p: Params, s: State, suggested: bool)
    requires s.started == s.finished + |s.inFlight| <= p.pagesPerRun + p.maxInFlight - 1
    requires |s.inFlight| <= p.maxInFlight
    ensures Inv(p, Decide(p, s, suggested))
  {
  }

  lemma LoopStepKeeps(p: Params, s: State, s': State)
    requires p.maxInFlight >= 1 && p.pagesPerRun >= 1 && Inv(p, s)
    requires Start(s, s') || ClaimDisturbed(s, s') || Wake(s, s') || Drained(s, s')
    ensures Inv(p, s')
  {
  }

  lemma TopKeeps(p: Params, s: State, s': State, suggested: bool)
    requires p.maxInFlight >= 1 && p.pagesPerRun >= 1 && Inv(p, s) && Top(p, s, s', suggested)
    ensures Inv(p, s')
  {
    DecideKeeps(p, s, suggested);
  }

  lemma ClaimKeeps(p: Params, s: State, s': State, c: Claim, suggested: bool)
    requires p.maxInFlight >= 1 && p.pagesPerRun >= 1 && Inv(p, s) && ClaimReturns(p, s, s', c, suggested)
    ensures Inv(p, s')
  {
    TakenKeeps(p, s, c);
    DecideKeeps(p, Taken(s, c), suggested);
  }

  lemma PageEndKeeps(p: Params, s: State, s': State, page: PageId, fails: bool)
    requires p.maxInFlight >= 1 && p.pagesPerRun >= 1 && Inv(p, s) && PageEnds(s, s', page, fails)
    ensures Inv(p, s')
  {
    assert s.inFlight == s'.inFlight + {page};
  }

  lemma NextKeeps(p: Params, s: State, s': State)
    requires p.maxInFlight >= 1 && p.pagesPerRun >= 1
    requires Inv(p, s) && Next(p, s, s')
    ensures Inv(p, s')
  {
    hide Inv, Top, ClaimReturns, PageEnds, Start, ClaimDisturbed, Wake, Drained;
    if c, suggested :| ClaimReturns(p, s, s', c, suggested) {
      ClaimKeeps(p, s, s', c, suggested);
    } else if page, fails :| PageEnds(s, s', page, fails) {
      PageEndKeeps(p, s, s', page, fails);
    } else if suggested :| Top(p, s, s', suggested) {
      TopKeeps(p, s, s', suggested);
    } else if PageTalks(s, s') {
      TalkKeeps(p, s, s');
    } else {
      LoopStepKeeps(p, s, s');
    }
  }

  lemma TalkKeeps(p: Params, s: State, s': State)
    requires Inv(p, s) && PageTalks(s, s')
    ensures Inv(p, s')
  {
  }

  /** Under every interleaving of page completions with the claim, and at every instant: pages started
      are those finished and those in flight; never more than `maxInFlight` are in flight; a run starts
      at most `pagesPerRun + maxInFlight - 1` pages; the loop never waits with nothing to wait for; and
      it finishes or continues as new only with nothing in flight. */
  lemma {:induction false} CrawlInvariant(p: Params, t: seq<State>, i: nat)
    requires p.maxInFlight >= 1 && p.pagesPerRun >= 1
    requires Trace(p, t) && i < |t|
    ensures Inv(p, t[i])
  {
    hide Next;
    if i > 0 {
      hide Inv;
      CrawlInvariant(p, t, i - 1);
      NextKeeps(p, t[i - 1], t[i]);
    }
  }

  // ----- where the loop goes ----------------------------------------------------------------------------------

  /** From the top. A cancel, then a failure, drains. With nothing in flight a crawl that was stopped is
      cancelled, one at the storage limit completed with the note, and a full run continues as new. Otherwise
      it claims for the free places, or waits: it claims unless the engine hints or there is a reason not
      to. */
  lemma TopGoes(p: Params, s: State, s': State)
    requires Next(p, s, s') && s.pc.AtTop? && p.maxInFlight >= 1
    ensures s' == s.(pc := s'.pc)
    ensures s.cancelRequested ==> s'.pc == Draining(CrawlCancelled)
    ensures !s.cancelRequested && s.failure ==> s'.pc == Draining(CrawlFailed)
    ensures !s.cancelRequested && !s.failure && s.inFlight == {} ==>
              && (s.stop == Some(Stopped) ==> s'.pc == Finishing(CrawlCancelled))
              && (s.stop == Some(StorageLimit) ==> s'.pc == Finishing(CrawlCompleted(true)))
              && (s.stop.None? && s.finished >= p.pagesPerRun ==> s'.pc == ContinuedAsNew)
              && (s.stop.None? && s.finished < p.pagesPerRun ==>
                    s'.pc == Claiming(p.maxInFlight, {}, s.finished) || s'.pc == ContinuedAsNew)
    ensures !s.cancelRequested && !s.failure && s.inFlight != {} ==>
              || s'.pc == Waiting(s.finished)
              || (&& s.stop.None? && s.finished < p.pagesPerRun && |s.inFlight| < p.maxInFlight
                  && s'.pc == Claiming(p.maxInFlight - |s.inFlight|, s.inFlight, s.finished))
  {
  }

  /** And that way it claims unless the engine hints. */
  lemma ClaimsWhenItCan(p: Params, s: State, s': State)
    requires Top(p, s, s', false) && !s.cancelRequested && !s.failure
    requires s.stop.None? && s.finished < p.pagesPerRun && |s.inFlight| < p.maxInFlight
    ensures s'.pc == Claiming(p.maxInFlight - |s.inFlight|, s.inFlight, s.finished)
  {
  }

  /** Once a claim has returned: what it brought is in flight, each page once, and it waits for a page if any
      is; or else goes where its reason to stop and the pages finished send it. */
  lemma ClaimGoes(p: Params, s: State, s': State, c: Claim, suggested: bool)
    requires ClaimReturns(p, s, s', c, suggested)
    ensures s.cancelRequested ==> s' == s.(pc := Draining(CrawlCancelled))
    ensures !s.cancelRequested ==>
              && s'.inFlight == s.inFlight + Ids(c.pages)
              && s'.started == s.started + |Ids(c.pages) - s.inFlight|
              && s'.finished == s.finished && s'.failure == s.failure && !s'.cancelRequested
              && (!c.running ==> s'.stop == Some(Stopped))
              && (c.running && c.storageFull ==> s'.stop == Some(StorageLimit))
              && (c.running && !c.storageFull ==> s'.stop == s.stop)
              && (s'.pc.Waiting? <==> s'.inFlight != {})
              && (s'.pc.ContinuedAsNew? <==>
                    s'.inFlight == {} && s'.stop.None? && (s.finished >= p.pagesPerRun || suggested))
              && (s'.pc == Finishing(CrawlCompleted(false)) <==>
                    s'.inFlight == {} && s'.stop.None? && s.finished < p.pagesPerRun && !suggested && !s.failure)
              && (s'.pc == Finishing(CrawlCompleted(true)) <==>
                    s'.inFlight == {} && s'.stop == Some(StorageLimit) && !s.failure)
              && (s'.pc == Finishing(CrawlCancelled) <==>
                    s'.inFlight == {} && s'.stop == Some(Stopped) && !s.failure)
  {
    assert s.inFlight + (Ids(c.pages) - s.inFlight) == s.inFlight + Ids(c.pages);
    assert s'.stop.Some? ==> s'.stop.value.Stopped? || s'.stop.value.StorageLimit?;
  }

  /** A claim the crawl ended on: of a running crawl below its storage limit, without a page. */
  ghost predicate EmptyHanded(p: Params, s: State, s': State) {
    && s.pc.Claiming? && s.inFlight == {} && !s.cancelRequested && !s.failure && s.stop.None?
    && s' == s.(pc := s'.pc)
    && ClaimReturns(p, s, s', Claim(true, false, []), false)
  }

  /** A crawl calls itself completed without a note only when its run was not full and its last claim, with
      nothing in flight, brought no page. */
  lemma CompletedMeansDone(p: Params, s: State, s': State)
    requires p.maxInFlight >= 1 && Inv(p, s) && Next(p, s, s') && s'.pc == Finishing(CrawlCompleted(false))
    ensures s'.finished < p.pagesPerRun && EmptyHanded(p, s, s')
  {
    hide Taken;
    assert s'.stop.None? by { OnlyClaimsComplete(p, s, s'); }
    OnlyClaimsComplete(p, s, s');
    var c, suggested :| ClaimReturns(p, s, s', c, suggested);
    ClaimGoes(p, s, s', c, suggested);
    NothingTaken(s, c);
    NoPages(c.pages);
    EmptyClaim(s, Claim(true, false, []));
  }

  lemma NoPages(pages: seq<PageId>)
    ensures Ids(pages) == {} <==> pages == []
  {
    if pages != [] {
      assert pages[0] in Ids(pages);
    }
  }

  lemma OnlyClaimsComplete(p: Params, s: State, s': State)
    requires p.maxInFlight >= 1 && Inv(p, s) && Next(p, s, s') && s'.pc == Finishing(CrawlCompleted(false))
    ensures exists c, suggested :: ClaimReturns(p, s, s', c, suggested)
    ensures s'.stop.None?
  {
    hide Taken, ClaimContract;
  }

  // ----- a page's failure ------------------------------------------------------------------------------------

  /** The crawl can only end failed or cancelled from here. */
  predicate Doomed(s: State) {
    match s.pc
    case AtTop => s.failure || s.cancelRequested
    case Draining(o) => !o.CrawlCompleted?
    case Finishing(o) => !o.CrawlCompleted?
    case Abandoned => true
    case _ => false
  }

  lemma DoomStays(p: Params, s: State, s': State)
    requires Doomed(s) && Next(p, s, s')
    ensures Doomed(s')
  {
    hide Taken, Decide;
  }

  /** A failure the loop sees at its top fails the crawl (or a cancel overtakes it): no run after that
      point completes or continues as new. */
  lemma {:induction false} SeenFailureDooms(p: Params, t: seq<State>, i: nat, j: nat)
    requires Trace(p, t) && i <= j < |t|
    requires t[i].pc.AtTop? && t[i].failure
    ensures Doomed(t[j])
  {
    hide Next;
    if i < j {
      SeenFailureDooms(p, t, i, j - 1);
      DoomStays(p, t[j - 1], t[j]);
    }
  }

  /** A claim that brings nothing new takes nothing. */
  lemma NothingTaken(s: State, c: Claim)
    requires Taken(s, c).inFlight == {}
    ensures s.inFlight == {} && Taken(s, c).started == s.started
  {
    var unseen := Ids(c.pages) - s.inFlight;
    assert s.inFlight + unseen == {};
    assert s.inFlight == {} && unseen == {};
  }

  /** But only there does the loop ask. A recorded failure can be forgotten, the run continuing as new,
      in exactly these states: the claim is being awaited, the failing page was the last in flight, and
      neither a cancel nor a reason to stop has come. */
  lemma FailureLostExactly(p: Params, s: State)
    requires s.failure && !s.pc.ContinuedAsNew?
    ensures (exists s' :: Next(p, s, s') && s'.pc.ContinuedAsNew?)
       <==> s.pc.Claiming? && !s.cancelRequested && s.stop.None? && s.inFlight == {}
  {
    if s' :| Next(p, s, s') && s'.pc.ContinuedAsNew? {
      OnlyAClaimCan(p, s, s');
      var c, suggested :| ClaimReturns(p, s, s', c, suggested);
      hide Taken;
      assert Taken(s, c).inFlight == {} && Taken(s, c).stop.None?;
      NothingTaken(s, c);
      StopStays(s, c);
    }
    if s.pc.Claiming? && !s.cancelRequested && s.stop.None? && s.inFlight == {} {
      var none := Claim(true, false, []);
      EmptyClaim(s, none);
      hide Taken;
      assert ClaimReturns(p, s, s.(pc := ContinuedAsNew), none, true);
      assert Next(p, s, s.(pc := ContinuedAsNew));
    }
  }

  lemma OnlyAClaimCan(p: Params, s: State, s': State)
    requires s.failure && !s.pc.ContinuedAsNew? && Next(p, s, s') && s'.pc.ContinuedAsNew?
    ensures exists c, suggested :: ClaimReturns(p, s, s', c, suggested)
  {
    hide Taken, ClaimReturns;
  }

  lemma StopStays(s: State, c: Claim)
    ensures Taken(s, c).stop.None? ==> s.stop.None?
  {
  }

  lemma EmptyClaim(s: State, c: Claim)
    requires c == Claim(true, false, [])
    ensures Taken(s, c) == s
  {
    assert Ids(c.pages) - s.inFlight == {};
  }

  lemma TopIsNext(p: Params, s: State, s': State, suggested: bool)
    requires Top(p, s, s', suggested)
    ensures Next(p, s, s')
  {
  }

  lemma ClaimIsNext(p: Params, s: State, s': State, c: Claim, suggested: bool)
    requires ClaimReturns(p, s, s', c, suggested)
    ensures Next(p, s, s')
  {
  }

  lemma PageEndIsNext(p: Params, s: State, s': State, page: PageId, fails: bool)
    requires PageEnds(s, s', page, fails)
    ensures Next(p, s, s')
  {
  }

  lemma WakeIsNext(p: Params, s: State, s': State)
    requires Wake(s, s')
    ensures Next(p, s, s')
  {
  }

  lemma DisturbedIsNext(p: Params, s: State, s': State)
    requires ClaimDisturbed(s, s')
    ensures Next(p, s, s')
  {
  }

  lemma DrainedIsNext(p: Params, s: State, s': State)
    requires Drained(s, s')
    ensures Next(p, s, s')
  {
  }

  lemma StartIsNext(p: Params, s: State, s': State)
    requires Start(s, s')
    ensures Next(p, s, s')
  {
  }

  /** Two pages, two at a time; the second fails its accounting while the next claim is awaited. */
  lemma FailureCanBeLost() returns (p: Params, t: seq<State>)
    ensures Trace(p, t) && t[|t| - 1].pc.ContinuedAsNew? && t[|t| - 1].failure
  {
    hide Next;
    p := Params(2, 2);
    var s0 := State(AtTop, {}, 0, false, None, false, 0);
    var s1 := s0.(pc := Claiming(2, {}, 0));
    var two := Claim(true, false, ["a", "b"]);
    var s2 := s0.(pc := Waiting(0), inFlight := {"a", "b"}, started := 2);
    var s3 := s2.(inFlight := {"b"}, finished := 1);
    var s4 := s3.(pc := AtTop);
    var s5 := s4.(pc := Claiming(1, {"b"}, 1));
    var s6 := s5.(inFlight := {}, finished := 2, failure := true);
    var s7 := s6.(pc := ContinuedAsNew);
    t := [s0, s1, s2, s3, s4, s5, s6, s7];
    TopIsNext(p, s0, s1, false);
    assert Ids(two.pages) - {} == {"a", "b"};
    ClaimIsNext(p, s1, s2, two, false);
    assert {"a", "b"} - {"a"} == {"b"};
    PageEndIsNext(p, s2, s3, "a", false);
    WakeIsNext(p, s3, s4);
    TopIsNext(p, s4, s5, false);
    assert {"b"} - {"b"} == {};
    PageEndIsNext(p, s5, s6, "b", true);
    EmptyClaim(s6, Claim(true, false, []));
    ClaimIsNext(p, s6, s7, Claim(true, false, []), false);
  }
}
