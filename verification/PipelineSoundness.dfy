/** What holds of every pipeline run: the discipline of its log for any definition and any world, and,
    for a definition that was accepted at save time, that it cannot go wrong. */
module PipelineSoundness {
  import opened Common
  import opened Catalog
  import opened Documents
  import opened Validator
  import opened Definitions
  import opened PipelineRun
  import HostSlot

  // ----- discipline: any definition, any world ----------------------------------------------------------

  /** A reader of the log, in order: blocks executed, blocks mirrored completed, run mirrors sent.
      `ok` as long as nothing follows the run's own mirror, block `executed` is the next one to
      execute and only after all before it are mirrored completed, under their own ids, and the run is
      mirrored completed only when every block is. */
  datatype Tally = Tally(executed: nat, completed: nat, closed: nat, ok: bool)

  function Read(t: Tally, e: Event, blocks: seq<RunBlock>): Tally {
    match e
    case MirrorRun(outcome, _, _) =>
      t.(closed := t.closed + 1, ok := t.ok && t.closed == 0 && (outcome.Completed? ==> t.completed == |blocks|))
    case Execute(i, _, _, _) =>
      t.(executed := t.executed + 1, ok := t.ok && t.closed == 0 && i == t.executed == t.completed && i < |blocks|)
    case MirrorBlock(id, status, _) =>
      if status.BlockCompleted? then
        t.(completed := t.completed + 1,
           ok := t.ok && t.closed == 0 && t.completed < t.executed && t.completed < |blocks| && id == blocks[t.completed].id)
      else t.(ok := t.ok && t.closed == 0)
    case Record(_) | ReleaseSlot => t.(ok := t.ok && t.closed == 0)
  }

  function Scan(log: seq<Event>, blocks: seq<RunBlock>): Tally {
    if log == [] then Tally(0, 0, 0, true)
    else Read(Scan(log[..|log| - 1], blocks), log[|log| - 1], blocks)
  }

  lemma ScanLogged(s: RunState, e: Event, blocks: seq<RunBlock>)
    ensures Scan(Logged(s, e).log, blocks) == Read(Scan(s.log, blocks), e, blocks)
  {
    assert (s.log + [e])[..|s.log|] == s.log;
  }

  lemma ScanCancel(s: RunState, w: BlockWorld, blocks: seq<RunBlock>)
    requires Scan(s.log, blocks).ok && Scan(s.log, blocks).closed == 0
    ensures var t := Scan(CancelRun(s, w).log, blocks);
            t == Scan(s.log, blocks).(closed := 1) && CancelRun(s, w).end.Some? && CancelRun(s, w).end.value != Stuck
  {
    ScanLogged(s, MirrorRun(Cancelled, None, false), blocks);
  }

  lemma ScanStart(s: RunState, b: RunBlock, w: BlockWorld, blocks: seq<RunBlock>)
    requires s.end == None && Scan(s.log, blocks).ok && Scan(s.log, blocks).closed == 0
    ensures var t := StartBlock(s, b, w);
            && Scan(t.log, blocks) == Scan(s.log, blocks).(closed := if t.end.Some? then 1 else 0)
            && (t.end == None ==>
                  && SameBooks(s, t) && t.objects == s.objects && !s.cancelRequested
                  && t.now == s.now + w.startTook && t.cancelRequested == w.startCancel)
            && t.end != Some(Stuck)
  {
    hide CancelRun;
    var e := MirrorBlock(b.id, BlockRunning, InputRef(s, b));
    ScanLogged(s, e, blocks);
    var t := Awaited(Logged(s, e), w.startTook, w.startCancel);
    ScanCancel(t, w, blocks);
    ScanCancel(s, w, blocks);
  }

  lemma ScanExecute(input: Input, deadline: int, s: RunState, i: nat, w: BlockWorld)
    requires i < |input.blocks| && Scan(s.log, input.blocks) == Tally(i, i, 0, true)
    ensures var (t, r) := ExecuteBlock(input, deadline, s, i, w);
            && (Scan(t.log, input.blocks) == Tally(i + 1, i, 0, true) || (r.Failure? && t.log == s.log))
            && (t.log != s.log ==> t.cancelRequested == (s.cancelRequested || w.workCancel))
            && (s.cancelRequested ==> t.cancelRequested)
            && (r.Got? && Writes(input.blocks[i], w) ==> r.objects != [])
  {
    hide Scan, TimingOf, InputRef, UrlMissing, KeyMissing, IsContent;
    var b := input.blocks[i];
    var ref := InputRef(s, b);
    var found := if ref.Some? && ref.value in s.objects then Some(s.objects[ref.value]) else None;
    var e := Execute(i, ref, found, Min(1000 * TimingOf(b.config).Budget(), deadline - s.now));
    ScanLogged(s, e, input.blocks);
  }

  /** A cancel arrives in one of the awaits between the running-mirror and the completed-mirror of a block
      that goes well. */
  predicate NotedAtWork(b: RunBlock, w: BlockWorld) {
    || w.workCancel
    || (b.config.ScrapeConfig? && (w.slotCancelled || w.releaseCancel))
    || (Writes(b, w) && w.recordCancel)
  }

  /** Or in either mirror. */
  predicate Noted(b: RunBlock, w: BlockWorld) {
    w.startCancel || NotedAtWork(b, w) || w.endCancel
  }

  /** Working on block `i` executes it at most once, or fails or stops before it does. */
  lemma ScanWork(input: Input, deadline: int, s: RunState, i: nat, w: BlockWorld)
    requires i < |input.blocks| && Scan(s.log, input.blocks) == Tally(i, i, 0, true)
    ensures var (t, r) := WorkOn(input, deadline, s, i, w);
            && (|| Scan(t.log, input.blocks) == Tally(i + 1, i, 0, true)
                || (!r.Got? && Scan(t.log, input.blocks) == Tally(i, i, 0, true)))
            && (r.Got? && (s.cancelRequested || NotedAtWork(input.blocks[i], w)) ==> t.cancelRequested)
  {
    hide Scan, ExecuteBlock, UrlMissing;
    ScanExecute(input, deadline, s, i, w);
    var waited := Awaited(s, w.slotTook, w.slotCancelled);
    ScanExecute(input, deadline, waited, i, w);
    ScanLogged(ExecuteBlock(input, deadline, waited, i, w).0, ReleaseSlot, input.blocks);
    var b := input.blocks[i];
    var (t, r) := if b.config.ScrapeConfig? then ScrapeInHostSlot(input, deadline, s, i, w)
                  else ExecuteBlock(input, deadline, s, i, w);
    ScanLogged(t, Record(b.id), input.blocks);
  }

  lemma ScanEnd(s: RunState, b: RunBlock, ref: Option<string>, r: Worked, w: BlockWorld, blocks: seq<RunBlock>, i: nat)
    requires i < |blocks| && b == blocks[i] && s.end == None
    requires Scan(s.log, blocks) == Tally(i + 1, i, 0, true) || (!r.Got? && Scan(s.log, blocks) == Tally(i, i, 0, true))
    ensures var t := EndBlock(s, b, ref, r, w);
            && Scan(t.log, blocks).ok && Scan(t.log, blocks).executed == Scan(s.log, blocks).executed
            && (t.end == None ==>
                  && r.Got? && Scan(t.log, blocks) == Tally(i + 1, i + 1, 0, true)
                  && t.cancelRequested == (s.cancelRequested || w.endCancel))
            && (t.end.Some? ==>
                  && Scan(t.log, blocks).completed == i
                  && Scan(t.log, blocks).closed == if t.end.value == Stuck then 0 else 1)
  {
    hide Scan, CancelRun, IsContent;
    var failed := MirrorBlock(b.id, BlockFailed, None);
    ScanLogged(s, failed, blocks);
    ScanCancel(Logged(s, failed), w, blocks);
    ScanLogged(Logged(s, failed), MirrorRun(Failed, None, false), blocks);
    if r.Got? {
      var content := IsContent(TypeOf(b.config));
      var output := if content then (if r.objects == [] then None else Some(r.objects[0])) else ref;
      ScanLogged(s, MirrorBlock(b.id, BlockCompleted, output), blocks);
    }
  }

  lemma ScanStep(input: Input, deadline: int, s: RunState, i: nat, w: BlockWorld)
    requires i < |input.blocks| && s.end == None && Scan(s.log, input.blocks) == Tally(i, i, 0, true)
    ensures var t := StepBlock(input, deadline, s, i, w);
            var read := Scan(t.log, input.blocks);
            && read.ok
            && (t.end == None ==> read == Tally(i + 1, i + 1, 0, true))
            && (t.end.Some? ==>
                  && i <= read.executed <= i + 1 && read.completed == i
                  && read.closed == if t.end.value == Stuck then 0 else 1)
            && (s.cancelRequested ==> t.end.Some? && read.executed == i)
            && (Noted(input.blocks[i], w) && t.end == None ==> t.cancelRequested)
  {
    hide CancelRun, InputRef;
    hide StartBlock, WorkOn, EndBlock, Scan;
    var b := input.blocks[i];
    ScanStart(s, b, w, input.blocks);
    var started := StartBlock(s, b, w);
    if s.cancelRequested {
      StartedCancelled(s, b, w);
    }
    if started.end == None {
      ScanWork(input, deadline, started, i, w);
      var (worked, r) := WorkOn(input, deadline, started, i, w);
      ScanEnd(worked, b, InputRef(s, b), r, w, input.blocks, i);
    }
  }

  lemma StartedCancelled(s: RunState, b: RunBlock, w: BlockWorld)
    requires s.cancelRequested
    ensures StartBlock(s, b, w).end.Some?
  {
  }

  lemma {:induction false} ScanBefore(input: Input, start: int, w: World, i: nat)
    requires i <= |input.blocks|
    ensures var s := Before(input, start, w, i);
            var read := Scan(s.log, input.blocks);
            && read.ok
            && (s.end == None ==> read == Tally(i, i, 0, true))
            && (s.end.Some? ==>
                  && read.completed <= read.executed <= read.completed + 1 <= i
                  && read.closed == if s.end.value == Stuck then 0 else 1)
  {
    hide StepBlock;
    if i > 0 {
      ScanBefore(input, start, w, i - 1);
      var s := Before(input, start, w, i - 1);
      if s.end == None {
        ScanStep(input, Deadline(input, start), s, i - 1, w(i - 1));
      }
    }
  }

  /** Every run, of any definition in any world: the executed blocks are a prefix of the definition, in
      order; each is mirrored completed before the next executes; and the run's own mirror is sent
      exactly once, last, unless the run is stuck, when it is never sent. */
  lemma RunIsDisciplined(input: Input, start: int, w: World)
    ensures var f := Final(input, start, w);
            var read := Scan(f.log, input.blocks);
            && f.end.Some? && read.ok
            && read.completed <= read.executed <= read.completed + 1
            && read.closed == (if f.end.value == Stuck then 0 else 1)
  {
    hide StepBlock;
    ScanBefore(input, start, w, |input.blocks|);
    var s := Before(input, start, w, |input.blocks|);
    ScanLogged(s, MirrorRun(Completed, s.resultPath, s.wall), input.blocks);
  }

  /** A run that has noted a cancel before block `i` executes nothing from there on. */
  lemma CancelledStartsNothing(input: Input, start: int, w: World, i: nat)
    requires i <= |input.blocks| && Before(input, start, w, i).end == None
    requires Before(input, start, w, i).cancelRequested
    ensures Scan(Final(input, start, w).log, input.blocks).executed == i
  {
    hide StepBlock, Scan;
    var s := Before(input, start, w, i);
    ScanBefore(input, start, w, i);
    if i < |input.blocks| {
      ScanStep(input, Deadline(input, start), s, i, w(i));
      EndedStays(input, start, w, i + 1);
    } else {
      ScanLogged(s, MirrorRun(Completed, s.resultPath, s.wall), input.blocks);
    }
  }

  /** A cancel noted in any await of block `i`, from its running-mirror and host wait to its recording and
      completed-mirror, lets no later block start. */
  lemma CancelStopsTheRun(input: Input, start: int, w: World, i: nat)
    requires i < |input.blocks|
    requires Noted(input.blocks[i], w(i))
    ensures Scan(Final(input, start, w).log, input.blocks).executed <= i + 1
  {
    hide StepBlock, Scan, Final;
    var s, t := Before(input, start, w, i), Before(input, start, w, i + 1);
    ScanBefore(input, start, w, i);
    if s.end.Some? {
      EndedStays(input, start, w, i);
    } else {
      ScanStep(input, Deadline(input, start), s, i, w(i));
      if t.end.Some? {
        EndedStays(input, start, w, i + 1);
      } else {
        CancelledStartsNothing(input, start, w, i + 1);
      }
    }
  }

  /** A running-mirror that is refused, the run having been cancelled in its row or closed, lets its block
      and all after it not execute. */
  lemma RefusalStopsTheRun(input: Input, start: int, w: World, i: nat)
    requires i < |input.blocks| && w(i).status != Running
    ensures Scan(Final(input, start, w).log, input.blocks).executed <= i
  {
    hide StepBlock, Scan, Final;
    var s := Before(input, start, w, i);
    ScanBefore(input, start, w, i);
    if s.end.Some? {
      EndedStays(input, start, w, i);
    } else {
      RefusedStep(input, Deadline(input, start), s, i, w(i));
      EndedStays(input, start, w, i + 1);
    }
  }

  lemma RefusedStep(input: Input, deadline: int, s: RunState, i: nat, w: BlockWorld)
    requires i < |input.blocks| && s.end == None && Scan(s.log, input.blocks) == Tally(i, i, 0, true)
    requires w.status != Running
    ensures var t := StepBlock(input, deadline, s, i, w);
            t.end.Some? && Scan(t.log, input.blocks).executed == i
  {
    hide Scan;
    ScanStart(s, input.blocks[i], w, input.blocks);
    assert CancelRun(s, w).end.Some? by { ScanCancel(s, w, input.blocks); }
  }

  // ----- soundness: a definition accepted at save time ------------------------------------------------------

  /** What the trigger hands a run of a stored definition: its blocks and budget, a value for exactly the
      declared inputs, an artifact id per block and every LLM key its blocks name. */
  ghost predicate Triggered(p: Parsed, input: Input) {
    && input.blocks == p.blocks
    && input.timeBudgetSeconds == RunBudgetSeconds(p)
    && input.inputs.Keys == p.inputs
    && (forall i :: 0 <= i < |p.blocks| ==> p.blocks[i].id in input.artifactIds && !KeyMissing(input, p.blocks[i]))
  }

  /** The activities' side: a content block's object is of the type its block type produces, no two
      blocks write the same object, and every await ends within its timeouts. */
  ghost predicate Contract(input: Input, w: World) {
    && (forall i :: 0 <= i < |input.blocks| ==> Typely(input.blocks[i], w(i)) && Timely(input.blocks[i], w(i)))
    && (forall i, j :: 0 <= i < j < |input.blocks| && Writes(input.blocks[i], w(i)) && Writes(input.blocks[j], w(j)) ==>
          w(i).work.result.path != w(j).work.result.path)
  }

  predicate Writes(b: RunBlock, w: BlockWorld) {
    IsContent(TypeOf(b.config)) && w.work.Produced?
  }

  predicate Typely(b: RunBlock, w: BlockWorld) {
    Writes(b, w) ==> w.work.result.ref == Produces(b.config, PageHtml)
  }

  predicate Timely(b: RunBlock, w: BlockWorld) {
    && w.startTook <= DB_ACTIVITY && w.recordTook <= DB_ACTIVITY && w.endTook <= DB_ACTIVITY
    && w.slotTook <= HostSlot.HOST_WAIT_CAP + HostSlot.HOST_SLOT_ACTIVITY_TIMEOUT
    && w.releaseTook <= HostSlot.HOST_SLOT_ACTIVITY_TIMEOUT
    && w.workTook <= 1000 * TimingOf(b.config).Budget()
  }

  /** The block whose object block `i`'s predecessor hands on: the last content block before `i`. */
  function LastContent(blocks: seq<RunBlock>, i: nat): nat
    requires 1 <= i <= |blocks| && IsContent(TypeOf(blocks[0].config))
    ensures LastContent(blocks, i) < i && IsContent(TypeOf(blocks[LastContent(blocks, i)].config))
  {
    if IsContent(TypeOf(blocks[i - 1].config)) then i - 1 else LastContent(blocks, i - 1)
  }

  /** The reference block `i` receives. */
  function HandedOn(blocks: seq<RunBlock>, w: World, i: nat): Option<string>
    requires 1 <= i <= |blocks| && IsContent(TypeOf(blocks[0].config))
  {
    var work := w(LastContent(blocks, i)).work;
    if work.Produced? then Some(work.result.path) else None
  }

  /** A log entry of a run that goes right: an activity starts with its whole budget before it, and with
      the reference its predecessor output, naming an object of a type the block consumes. */
  ghost predicate GoesRight(input: Input, w: World, e: Event)
    requires input.blocks != [] && IsContent(TypeOf(input.blocks[0].config))
  {
    match e
    case Execute(i, ref, found, scheduleToClose) =>
      && i < |input.blocks|
      && scheduleToClose == 1000 * TimingOf(input.blocks[i].config).Budget()
      && (i == 0 ==> ref == None)
      && (i > 0 ==>
            && ref.Some? && ref == HandedOn(input.blocks, w, i)
            && found.Some? && found.value in Consumes(TypeOf(input.blocks[i].config)))
    case MirrorBlock(id, status, ref) =>
      status.BlockCompleted? ==>
        forall i :: 0 <= i < |input.blocks| && input.blocks[i].id == id ==>
          ref.Some? && ref == HandedOn(input.blocks, w, i + 1)
    case _ => true
  }

  ghost predicate LogGoesRight(input: Input, w: World, log: seq<Event>)
    requires input.blocks != [] && IsContent(TypeOf(input.blocks[0].config))
  {
    forall k :: 0 <= k < |log| ==> GoesRight(input, w, log[k])
  }

  function NeedBefore(blocks: seq<RunBlock>, i: nat): int
    requires i <= |blocks|
  {
    RunNeedSeconds(Timings(RunConfigs(blocks))[..i])
  }

  /** Where a sound run stands before block `i`. */
  ghost predicate OnCourse(input: Input, start: int, w: World, i: nat, s: RunState)
    requires i <= |input.blocks| && input.blocks != [] && IsContent(TypeOf(input.blocks[0].config))
  {
    && s.now <= start + 1000 * NeedBefore(input.blocks, i)
    && (i > 0 ==>
          var id := input.blocks[i - 1].id;
          && id in s.refs && HandedOn(input.blocks, w, i) == Some(s.refs[id])
          && s.resultPath == Some(s.refs[id]))
    && (forall j :: 0 <= j < i && Writes(input.blocks[j], w(j)) ==>
          var o := w(j).work.result; o.path in s.objects && s.objects[o.path] == o.ref)
  }

  lemma BudgetIsPositive(c: Config)
    ensures TimingOf(c).Budget() >= 1
  {
    var t := TimingOf(c);
    WaitsGrow(t, 0, t.maximumAttempts - 1);
    CeilingIsLeast(t.Waits(t.maximumAttempts - 1), -1);
    AtLimitIsProduct(t, t.maximumAttempts);
    assert AtLimit(t, 1) == AtLimit(t, 0) + t.PerAttempt();
    AtLimitGrows(t, 1, t.maximumAttempts);
  }

  lemma {:induction false} NeedGrows(blocks: seq<RunBlock>, i: nat, j: nat)
    requires i <= j <= |blocks|
    ensures NeedBefore(blocks, i) <= NeedBefore(blocks, j)
    ensures i < j ==> NeedBefore(blocks, i) + TimingOf(blocks[i].config).Need() <= NeedBefore(blocks, j)
    decreases j
  {
    if i < j {
      var ts := Timings(RunConfigs(blocks));
      assert ts[..j][..j - 1] == ts[..j - 1];
      BudgetIsPositive(blocks[j - 1].config);
      NeedGrows(blocks, i, j - 1);
    }
  }

  lemma {:induction false} TypeHandedOn(blocks: seq<RunBlock>, i: nat)
    requires 1 <= i <= |blocks| && IsContent(TypeOf(blocks[0].config))
    ensures RefAfter(RunConfigs(blocks), i) == Produces(blocks[LastContent(blocks, i)].config, PageHtml)
  {
    if !IsContent(TypeOf(blocks[i - 1].config)) {
      TypeHandedOn(blocks, i - 1);
    }
  }

  /** With time, keys and input there, an activity starts with its full budget and only it can fail. */
  lemma ExecuteGoesRight(input: Input, deadline: int, s: RunState, i: nat, w: BlockWorld)
    requires i < |input.blocks|
    requires var b := input.blocks[i];
             && b.id in input.artifactIds && !UrlMissing(input, b) && !KeyMissing(input, b)
             && (b.config.ScrapeConfig? || InputRef(s, b).Some?)
             && deadline - s.now >= 1000 * TimingOf(b.config).Budget()
    ensures var (t, r) := ExecuteBlock(input, deadline, s, i, w);
            var b, ref := input.blocks[i], InputRef(s, input.blocks[i]);
            && t.log == s.log + [Execute(i, ref, if ref.Some? && ref.value in s.objects then Some(s.objects[ref.value]) else None,
                                         1000 * TimingOf(b.config).Budget())]
            && t.now == s.now + w.workTook
            && (r.Failure? ==> r.reason == ActivityError)
            && (r.Got? <==> w.work.Produced?)
            && (r.Got? && Writes(b, w) ==> r.objects != [] && r.objects[0] == w.work.result.path)
            && (r.Got? && !Writes(b, w) ==> r.objects == [])
            && t.objects == if Writes(b, w) then s.objects[w.work.result.path := w.work.result.ref] else s.objects
  {
    hide TimingOf, InputRef, UrlMissing, KeyMissing, IsContent;
    BudgetIsPositive(input.blocks[i].config);
  }

  /** The activity is sent, and after it only the release and the recording are logged. */
  ghost predicate ExtendsBy(before: seq<Event>, after: seq<Event>, e: Event) {
    && |before| < |after| && after[..|before|] == before && after[|before|] == e
    && forall j :: |before| < j < |after| ==> after[j].Record? || after[j].ReleaseSlot?
  }

  lemma WorkGoesRight(input: Input, deadline: int, s: RunState, i: nat, w: BlockWorld)
    requires i < |input.blocks| && Timely(input.blocks[i], w)
    requires var b := input.blocks[i];
             && b.id in input.artifactIds && !UrlMissing(input, b) && !KeyMissing(input, b)
             && (b.config.ScrapeConfig? || InputRef(s, b).Some?)
             && deadline - s.now >= 1000 * TimingOf(b.config).Budget() + (if b.config.ScrapeConfig? then 615_000 else 0)
    ensures var (t, r) := WorkOn(input, deadline, s, i, w);
            var b, ref := input.blocks[i], InputRef(s, input.blocks[i]);
            var e := Execute(i, ref, if ref.Some? && ref.value in s.objects then Some(s.objects[ref.value]) else None,
                             1000 * TimingOf(b.config).Budget());
            && (ExtendsBy(s.log, t.log, e) || (t.log == s.log && r.Cancellation?))
            && t.now <= s.now + 1000 * TimingOf(b.config).Budget() + 20_000 + (if b.config.ScrapeConfig? then 630_000 else 0)
            && (r.Failure? ==> r.reason == ActivityError || r.reason == RecordError)
            && (r.Got? ==> w.work.Produced?)
            && (r.Got? && Writes(b, w) ==> r.objects != [] && r.objects[0] == w.work.result.path)
            && (r.Got? && !Writes(b, w) ==> r.objects == [])
            && (r.Got? ==> t.objects == if Writes(b, w) then s.objects[w.work.result.path := w.work.result.ref] else s.objects)
  {
    hide TimingOf, ExecuteBlock, UrlMissing, KeyMissing, Writes;
    var b := input.blocks[i];
    if b.config.ScrapeConfig? {
      ExecuteGoesRight(input, deadline, Awaited(s, w.slotTook, w.slotCancelled), i, w);
    } else {
      ExecuteGoesRight(input, deadline, s, i, w);
    }
  }

  lemma HostSlotOf(c: Config)
    ensures TimingOf(c).hostSlot == if c.ScrapeConfig? then HOST_SLOT_SECONDS else 0
  {
  }

  lemma LogGrowsRight(input: Input, w: World, s: RunState, e: Event)
    requires input.blocks != [] && IsContent(TypeOf(input.blocks[0].config))
    requires LogGoesRight(input, w, s.log) && GoesRight(input, w, e)
    ensures LogGoesRight(input, w, Logged(s, e).log)
  {
  }

  /** Block `i` receives its predecessor's output, of a type it consumes. */
  lemma InputIsHandedOn(p: Parsed, input: Input, start: int, w: World, i: nat, s: RunState)
    requires Runnable(p) && Triggered(p, input) && Contract(input, w) && i < |input.blocks|
    requires OnCourse(input, start, w, i, s)
    ensures var b, ref := input.blocks[i], InputRef(s, input.blocks[i]);
            var found := if ref.Some? && ref.value in s.objects then Some(s.objects[ref.value]) else None;
            && (i == 0 <==> b.config.ScrapeConfig?)
            && (i == 0 ==> ref == None)
            && (i > 0 ==> ref.Some? && ref == HandedOn(input.blocks, w, i))
            && GoesRight(input, w, Execute(i, ref, found, 1000 * TimingOf(b.config).Budget()))
  {
    hide TimingOf, Contract, RunNeedSeconds;
    if i > 0 {
      var k := LastContent(input.blocks, i);
      TypeHandedOn(input.blocks, i);
      assert input.blocks[i].input == Some(input.blocks[i - 1].id);
      assert TypedAt(RunConfigs(p.blocks), i);
      assert Writes(input.blocks[k], w(k));
      WritesRightType(input, w, k);
    }
  }

  lemma WritesRightType(input: Input, w: World, k: nat)
    requires Contract(input, w) && k < |input.blocks| && Writes(input.blocks[k], w(k))
    ensures w(k).work.result.ref == Produces(input.blocks[k].config, PageHtml)
  {
    assert Typely(input.blocks[k], w(k));
  }

  /** The output of block `i`: its own object, or what it was handed. */
  function OutputOf(b: RunBlock, ref: Option<string>, w: BlockWorld): Option<string> {
    if !IsContent(TypeOf(b.config)) then ref
    else if w.work.Produced? then Some(w.work.result.path) else None
  }

  lemma FinishedState(u: RunState, b: RunBlock, ref: Option<string>, r: Worked, w: BlockWorld)
    requires r.Got? && w.work.Produced? && u.end == None && OutputOf(b, ref, w).Some?
    requires Writes(b, w) ==> r.objects != [] && r.objects[0] == w.work.result.path
    requires !Writes(b, w) ==> r.objects == []
    ensures var t := EndBlock(u, b, ref, r, w);
            && t.end == None && t.objects == u.objects && t.now == u.now + w.endTook
            && t.log == u.log + [MirrorBlock(b.id, BlockCompleted, OutputOf(b, ref, w))]
            && t.refs == u.refs[b.id := OutputOf(b, ref, w).value]
            && t.resultPath == if IsContent(TypeOf(b.config)) then OutputOf(b, ref, w) else u.resultPath
  {
  }

  lemma MirrorGoesRight(input: Input, w: World, i: nat, output: Option<string>)
    requires input.blocks != [] && IsContent(TypeOf(input.blocks[0].config)) && i < |input.blocks|
    requires forall j :: 0 <= j < |input.blocks| && input.blocks[j].id == input.blocks[i].id ==> j == i
    requires output.Some? && output == HandedOn(input.blocks, w, i + 1)
    ensures GoesRight(input, w, MirrorBlock(input.blocks[i].id, BlockCompleted, output))
  {
    hide HandedOn, LastContent;
  }

  /** Objects written before are not overwritten: no two blocks write one path. */
  lemma ObjectsStay(input: Input, w: World, i: nat, before: map<string, RefType>, after: map<string, RefType>)
    requires Contract(input, w) && i < |input.blocks|
    requires forall j :: 0 <= j < i && Writes(input.blocks[j], w(j)) ==>
               w(j).work.result.path in before && before[w(j).work.result.path] == w(j).work.result.ref
    requires after == if Writes(input.blocks[i], w(i)) then before[w(i).work.result.path := w(i).work.result.ref] else before
    ensures forall j :: 0 <= j < i + 1 && Writes(input.blocks[j], w(j)) ==>
              w(j).work.result.path in after && after[w(j).work.result.path] == w(j).work.result.ref
  {
    hide Typely, Timely, IsContent, TypeOf;
  }

  /** What ends block `i` well: its output is handed on, and earlier objects are still there. */
  lemma FinishGoesRight(p: Parsed, input: Input, start: int, w: World, i: nat, s: RunState, u: RunState, r: Worked)
    requires Runnable(p) && Triggered(p, input) && Contract(input, w) && i < |input.blocks|
    requires OnCourse(input, start, w, i, s) && SameBooks(s, u) && u.end == None
    requires r.Got? && w(i).work.Produced? && LogGoesRight(input, w, u.log)
    requires Writes(input.blocks[i], w(i)) ==> r.objects != [] && r.objects[0] == w(i).work.result.path
    requires !Writes(input.blocks[i], w(i)) ==> r.objects == []
    requires u.objects == if Writes(input.blocks[i], w(i)) then s.objects[w(i).work.result.path := w(i).work.result.ref] else s.objects
    requires u.now + w(i).endTook <= start + 1000 * NeedBefore(input.blocks, i + 1)
    ensures var t := EndBlock(u, input.blocks[i], InputRef(s, input.blocks[i]), r, w(i));
            t.end == None && OnCourse(input, start, w, i + 1, t) && LogGoesRight(input, w, t.log)
  {
    hide TimingOf, RunNeedSeconds, NeedBefore, GoesRight, EndBlock, Contract, Typed, InputRef;
    var b, ref := input.blocks[i], InputRef(s, input.blocks[i]);
    InputIsHandedOn(p, input, start, w, i, s);
    var output := OutputOf(b, ref, w(i));
    assert output.Some? && output == HandedOn(input.blocks, w, i + 1);
    FinishedState(u, b, ref, r, w(i));
    MirrorGoesRight(input, w, i, output);
    LogGrowsRight(input, w, u, MirrorBlock(b.id, BlockCompleted, output));
    ObjectsStay(input, w, i, s.objects, u.objects);
  }

  lemma SameInput(s: RunState, t: RunState, b: RunBlock)
    requires s.refs == t.refs
    ensures InputRef(s, b) == InputRef(t, b)
  {
  }

  lemma ExtensionGoesRight(input: Input, w: World, before: seq<Event>, after: seq<Event>, e: Event)
    requires input.blocks != [] && IsContent(TypeOf(input.blocks[0].config))
    requires LogGoesRight(input, w, before) && GoesRight(input, w, e) && ExtendsBy(before, after, e)
    ensures LogGoesRight(input, w, after)
  {
    forall k | 0 <= k < |after| ensures GoesRight(input, w, after[k]) {
      if k < |before| {
        assert after[k] == before[k];
      }
    }
  }

  lemma CancelGoesRight(input: Input, w: World, s: RunState, bw: BlockWorld)
    requires input.blocks != [] && IsContent(TypeOf(input.blocks[0].config)) && LogGoesRight(input, w, s.log)
    ensures LogGoesRight(input, w, CancelRun(s, bw).log) && CancelRun(s, bw).end.Some?
    ensures CancelRun(s, bw).end.value.Returned? || CancelRun(s, bw).end.value.RaisedCancel?
  {
    LogGrowsRight(input, w, s, MirrorRun(Cancelled, None, false));
  }

  lemma StartGoesRight(input: Input, w: World, s: RunState, i: nat)
    requires input.blocks != [] && IsContent(TypeOf(input.blocks[0].config)) && LogGoesRight(input, w, s.log)
    requires i < |input.blocks| && s.end == None
    ensures var t := StartBlock(s, input.blocks[i], w(i));
            && LogGoesRight(input, w, t.log)
            && (t.end.Some? ==> t.end.value.Returned? || t.end.value.RaisedCancel?)
            && (t.end == None ==> SameBooks(s, t) && t.objects == s.objects && t.now == s.now + w(i).startTook)
  {
    hide CancelRun, InputRef, LogGoesRight;
    var b := input.blocks[i];
    var e := MirrorBlock(b.id, BlockRunning, InputRef(s, b));
    LogGrowsRight(input, w, s, e);
    CancelGoesRight(input, w, s, w(i));
    CancelGoesRight(input, w, Awaited(Logged(s, e), w(i).startTook, w(i).startCancel), w(i));
  }

  lemma EndsBadly(input: Input, w: World, u: RunState, i: nat, ref: Option<string>, r: Worked)
    requires input.blocks != [] && IsContent(TypeOf(input.blocks[0].config)) && LogGoesRight(input, w, u.log)
    requires i < |input.blocks| && !r.Got?
    ensures var t := EndBlock(u, input.blocks[i], ref, r, w(i));
            && LogGoesRight(input, w, t.log) && t.end.Some? && t.end.value != Stuck
            && (t.end.value.RaisedFailure? ==> r.Failure? && t.end.value.reason == r.reason)
  {
    hide CancelRun, LogGoesRight;
    var e := MirrorBlock(input.blocks[i].id, BlockFailed, None);
    LogGrowsRight(input, w, u, e);
    LogGrowsRight(input, w, Logged(u, e), MirrorRun(Failed, None, false));
    CancelGoesRight(input, w, Logged(u, e), w(i));
  }

  /** What is left of the run's budget at block `i` covers its host-slot wait and its own budget. */
  lemma EnoughLeft(p: Parsed, input: Input, i: nat)
    requires Runnable(p) && Triggered(p, input) && i < |input.blocks|
    ensures NeedBefore(input.blocks, i) + TimingOf(input.blocks[i].config).Need() <= input.timeBudgetSeconds
    ensures NeedBefore(input.blocks, i + 1) == NeedBefore(input.blocks, i) + TimingOf(input.blocks[i].config).Need()
  {
    hide TimingOf;
    NeedGrows(input.blocks, i, |input.blocks|);
    var ts := Timings(RunConfigs(input.blocks));
    assert ts[..i + 1][..i] == ts[..i];
    assert ts[..|ts|] == ts;
  }

  lemma StepGoesRight(p: Parsed, input: Input, start: int, w: World, i: nat, s: RunState)
    requires Runnable(p) && Triggered(p, input) && Contract(input, w) && i < |input.blocks|
    requires s.end == None && OnCourse(input, start, w, i, s) && LogGoesRight(input, w, s.log)
    ensures var t := StepBlock(input, Deadline(input, start), s, i, w(i));
            && LogGoesRight(input, w, t.log)
            && (t.end == None ==> OnCourse(input, start, w, i + 1, t))
            && t.end != Some(Stuck)
            && (t.end.Some? && t.end.value.RaisedFailure? ==>
                  t.end.value.reason == ActivityError || t.end.value.reason == RecordError)
  {
    hide TimingOf, RunNeedSeconds, NeedBefore, WorkOn, EndBlock, StartBlock, InputRef, Typed, KeyMissing, GoesRight;
    var b := input.blocks[i];
    var deadline := Deadline(input, start);
    StartGoesRight(input, w, s, i);
    var started := StartBlock(s, b, w(i));
    if started.end == None {
      assert Timely(b, w(i));
      InputIsHandedOn(p, input, start, w, i, s);
      assert InputRef(started, b) == InputRef(s, b) by { SameInput(s, started, b); }
      EnoughLeft(p, input, i);
      HostSlotOf(b.config);
      WorkGoesRight(input, deadline, started, i, w(i));
      var (u, r) := WorkOn(input, deadline, started, i, w(i));
      if u.log != started.log {
        var ref := InputRef(s, b);
        var found := if ref.Some? && ref.value in s.objects then Some(s.objects[ref.value]) else None;
        ExtensionGoesRight(input, w, started.log, u.log, Execute(i, ref, found, 1000 * TimingOf(b.config).Budget()));
      }
      if r.Got? {
        FinishGoesRight(p, input, start, w, i, s, u, r);
      } else {
        EndsBadly(input, w, u, i, InputRef(s, b), r);
      }
    }
  }

  lemma {:induction false} StaysOnCourse(p: Parsed, input: Input, start: int, w: World, i: nat)
    requires Runnable(p) && Triggered(p, input) && Contract(input, w) && i <= |input.blocks|
    ensures var s := Before(input, start, w, i);
            && LogGoesRight(input, w, s.log)
            && (s.end == None ==> OnCourse(input, start, w, i, s))
            && s.end != Some(Stuck)
            && (s.end.Some? && s.end.value.RaisedFailure? ==>
                  s.end.value.reason == ActivityError || s.end.value.reason == RecordError)
  {
    hide StepBlock, Runnable, Triggered, Contract;
    if i > 0 {
      StaysOnCourse(p, input, start, w, i - 1);
      var s := Before(input, start, w, i - 1);
      if s.end == None {
        StepGoesRight(p, input, start, w, i - 1, s);
      }
    }
  }

  lemma RunnableGoesRight(p: Parsed, input: Input, start: int, w: World)
    requires Runnable(p) && Triggered(p, input) && Contract(input, w)
    ensures var f := Final(input, start, w);
            && LogGoesRight(input, w, f.log)
            && f.end.Some? && f.end.value != Stuck
            && (f.end.value.RaisedFailure? ==> f.end.value.reason == ActivityError || f.end.value.reason == RecordError)
  {
    hide StepBlock, Contract, Before, Typed, RunNeedSeconds;
    StaysOnCourse(p, input, start, w, |input.blocks|);
    var s := Before(input, start, w, |input.blocks|);
    LogGrowsRight(input, w, s, MirrorRun(Completed, s.resultPath, s.wall));
  }

  // ----- how a run ends, and what its row is told ---------------------------------------------------------

  /** The run's row is told how the workflow ends, last and truly: completed with the result returned;
      failed after the block that failed, without a result; or cancelled. */
  ghost predicate MirrorsItsEnd(log: seq<Event>, end: End, cancelRequested: bool, completed: bool) {
    match end
    case Stuck => !completed && forall k :: 0 <= k < |log| ==> !log[k].MirrorRun?
    case RaisedFailure(_) => !completed && log != [] && log[|log| - 1] == MirrorRun(Failed, None, false)
    case RaisedCancel =>
      !completed && cancelRequested && log != [] && log[|log| - 1] == MirrorRun(Cancelled, None, false)
    case Returned(result) =>
      && log != []
      && if completed then exists wall :: log[|log| - 1] == MirrorRun(Completed, result, wall)
         else result == None && !cancelRequested && log[|log| - 1] == MirrorRun(Cancelled, None, false)
  }

  /** Block `i`'s object is the last any block wrote. */
  ghost predicate LastWritten(blocks: seq<RunBlock>, n: nat, w: World, i: nat)
    requires n <= |blocks|
  {
    i < n && Writes(blocks[i], w(i)) && forall j :: i < j < n ==> !Writes(blocks[j], w(j))
  }

  ghost predicate ResultIs(blocks: seq<RunBlock>, n: nat, w: World, result: Option<string>)
    requires n <= |blocks|
  {
    match result
    case Some(path) => exists i :: LastWritten(blocks, n, w, i) && path == w(i).work.result.path
    case None => forall i :: 0 <= i < n ==> !Writes(blocks[i], w(i))
  }

  /** Some object of a finished block was found over the storage limit when it was recorded. */
  ghost predicate HitsWall(blocks: seq<RunBlock>, n: nat, w: World)
    requires n <= |blocks|
  {
    exists i :: 0 <= i < n && Writes(blocks[i], w(i)) && w(i).overLimit
  }

  /** Completed with the last object written, returned as well, and the wall if one was hit. */
  ghost predicate CompletesWithAll(input: Input, w: World, log: seq<Event>, end: End) {
    && end.Returned? && ResultIs(input.blocks, |input.blocks|, w, end.result)
    && exists wall :: (wall <==> HitsWall(input.blocks, |input.blocks|, w))
         && log != [] && log[|log| - 1] == MirrorRun(Completed, end.result, wall)
  }

  ghost predicate NoRunMirror(log: seq<Event>) {
    forall k :: 0 <= k < |log| ==> !log[k].MirrorRun?
  }

  /** What a step logged before the run's end is no mirror of the run. */
  lemma StillNoRunMirror(s: RunState, e: Event)
    requires NoRunMirror(s.log) && !e.MirrorRun?
    ensures NoRunMirror(Logged(s, e).log)
  {
  }

  lemma ExecuteGives(input: Input, deadline: int, s: RunState, i: nat, w: BlockWorld)
    requires i < |input.blocks| && NoRunMirror(s.log)
    ensures var (t, r) := ExecuteBlock(input, deadline, s, i, w);
            && NoRunMirror(t.log)
            && (r.Got? ==> w.work.Produced? && (r.objects != [] <==> Writes(input.blocks[i], w)))
            && (r.Got? && r.objects != [] ==> r.objects[0] == w.work.result.path)
  {
    hide TimingOf, InputRef, UrlMissing, KeyMissing, IsContent, NoRunMirror;
    var b := input.blocks[i];
    var ref := InputRef(s, b);
    var found := if ref.Some? && ref.value in s.objects then Some(s.objects[ref.value]) else None;
    StillNoRunMirror(s, Execute(i, ref, found, Min(1000 * TimingOf(b.config).Budget(), deadline - s.now)));
  }

  /** Working on a block gives objects exactly when the block wrote one, its own first. */
  lemma WorkGives(input: Input, deadline: int, s: RunState, i: nat, w: BlockWorld)
    requires i < |input.blocks| && NoRunMirror(s.log)
    ensures var (t, r) := WorkOn(input, deadline, s, i, w);
            && NoRunMirror(t.log)
            && (r.Got? ==> w.work.Produced? && (r.objects != [] <==> Writes(input.blocks[i], w)))
            && (r.Got? && r.objects != [] ==> r.objects[0] == w.work.result.path)
  {
    hide ExecuteBlock, UrlMissing, IsContent, NoRunMirror, Writes;
    var waited := Awaited(s, w.slotTook, w.slotCancelled);
    ExecuteGives(input, deadline, s, i, w);
    ExecuteGives(input, deadline, waited, i, w);
    StillNoRunMirror(ExecuteBlock(input, deadline, waited, i, w).0, ReleaseSlot);
    var b := input.blocks[i];
    var (t, r) := if b.config.ScrapeConfig? then ScrapeInHostSlot(input, deadline, s, i, w)
                  else ExecuteBlock(input, deadline, s, i, w);
    StillNoRunMirror(t, Record(b.id));
  }

  lemma CancelTells(s: RunState, w: BlockWorld)
    ensures var t := CancelRun(s, w); t.end.Some? && MirrorsItsEnd(t.log, t.end.value, t.cancelRequested, false)
  {
  }

  lemma FailTells(s: RunState, b: RunBlock, reason: Cause)
    ensures var t := FailRun(s, b, reason); t.end.Some? && MirrorsItsEnd(t.log, t.end.value, t.cancelRequested, false)
  {
  }

  lemma StartTells(s: RunState, b: RunBlock, w: BlockWorld)
    requires s.end == None && NoRunMirror(s.log)
    ensures var t := StartBlock(s, b, w);
            && (t.end == None ==> NoRunMirror(t.log) && SameBooks(s, t))
            && (t.end.Some? ==> MirrorsItsEnd(t.log, t.end.value, t.cancelRequested, false))
  {
    hide CancelRun, MirrorsItsEnd, NoRunMirror, InputRef;
    var e := MirrorBlock(b.id, BlockRunning, InputRef(s, b));
    StillNoRunMirror(s, e);
    CancelTells(s, w);
    CancelTells(Awaited(Logged(s, e), w.startTook, w.startCancel), w);
  }

  lemma EndTells(s: RunState, b: RunBlock, ref: Option<string>, r: Worked, w: BlockWorld)
    requires s.end == None && NoRunMirror(s.log)
    requires r.Got? ==> w.work.Produced? && (r.objects != [] <==> Writes(b, w))
    requires r.Got? && r.objects != [] ==> r.objects[0] == w.work.result.path
    ensures var t := EndBlock(s, b, ref, r, w);
            && (t.end == None ==>
                  && NoRunMirror(t.log)
                  && t.resultPath == (if Writes(b, w) then Some(w.work.result.path) else s.resultPath)
                  && t.wall == (s.wall || (Writes(b, w) && w.overLimit)))
            && (t.end.Some? ==> MirrorsItsEnd(t.log, t.end.value, t.cancelRequested, false))
  {
    hide CancelRun, FailRun, IsContent;
    CancelTells(Logged(s, MirrorBlock(b.id, BlockFailed, None)), w);
    if r.Failure? {
      FailTells(s, b, r.reason);
    }
  }

  /** One block: the books follow what it wrote; or the run ends, mirrored as it ends. */
  lemma StepTellsItsEnd(input: Input, deadline: int, s: RunState, i: nat, w: BlockWorld)
    requires i < |input.blocks| && s.end == None && NoRunMirror(s.log)
    ensures var t := StepBlock(input, deadline, s, i, w);
            && (t.end == None ==>
                  && NoRunMirror(t.log)
                  && t.resultPath == (if Writes(input.blocks[i], w) then Some(w.work.result.path) else s.resultPath)
                  && t.wall == (s.wall || (Writes(input.blocks[i], w) && w.overLimit)))
            && (t.end.Some? ==> MirrorsItsEnd(t.log, t.end.value, t.cancelRequested, false))
  {
    hide WorkOn, StartBlock, EndBlock, InputRef, Writes, NoRunMirror, MirrorsItsEnd;
    var b := input.blocks[i];
    var started := StartBlock(s, b, w);
    StartTells(s, b, w);
    if started.end == None {
      WorkGives(input, deadline, started, i, w);
      var (worked, r) := WorkOn(input, deadline, started, i, w);
      EndTells(worked, b, InputRef(s, b), r, w);
    }
  }

  lemma LaterResult(blocks: seq<RunBlock>, n: nat, w: World, before: Option<string>, after: Option<string>)
    requires n < |blocks| && ResultIs(blocks, n, w, before)
    requires after == if Writes(blocks[n], w(n)) then Some(w(n).work.result.path) else before
    ensures ResultIs(blocks, n + 1, w, after)
  {
    if Writes(blocks[n], w(n)) {
      assert LastWritten(blocks, n + 1, w, n);
    } else if before.Some? {
      var i :| LastWritten(blocks, n, w, i) && before.value == w(i).work.result.path;
      assert LastWritten(blocks, n + 1, w, i);
    }
  }

  lemma {:induction false} BooksFollow(input: Input, start: int, w: World, i: nat)
    requires i <= |input.blocks|
    ensures var s := Before(input, start, w, i);
            && (s.end == None ==>
                  && NoRunMirror(s.log) && ResultIs(input.blocks, i, w, s.resultPath)
                  && (s.wall <==> HitsWall(input.blocks, i, w)))
            && (s.end.Some? ==> MirrorsItsEnd(s.log, s.end.value, s.cancelRequested, false))
  {
    hide StepBlock, Writes, MirrorsItsEnd;
    if i == 0 {
      assert NoRunMirror([]);
    } else {
      BooksFollow(input, start, w, i - 1);
      var s := Before(input, start, w, i - 1);
      if s.end == None {
        StepTellsItsEnd(input, Deadline(input, start), s, i - 1, w(i - 1));
        var t := Before(input, start, w, i);
        if t.end == None {
          LaterResult(input.blocks, i - 1, w, s.resultPath, t.resultPath);
        }
      }
    }
  }

  /** Every run of any definition: its row is told completed exactly when every block was mirrored
      completed, and then with the last object written and the wall if one was hit; else failed or
      cancelled, as the workflow itself ends. */
  lemma RowIsToldTheEnd(input: Input, start: int, w: World)
    ensures var f := Final(input, start, w);
            var all := Scan(f.log, input.blocks).completed == |input.blocks|;
            && f.end.Some? && MirrorsItsEnd(f.log, f.end.value, f.cancelRequested, all)
            && (all ==> CompletesWithAll(input, w, f.log, f.end.value))
  {
    hide StepBlock, ResultIs, HitsWall, Before;
    var n := |input.blocks|;
    var s := Before(input, start, w, n);
    BooksFollow(input, start, w, n);
    ScanBefore(input, start, w, n);
    if s.end == None {
      ScanLogged(s, MirrorRun(Completed, s.resultPath, s.wall), input.blocks);
    }
  }

  /** A definition accepted at save time, stored, read back and triggered never goes wrong, whatever the
      activities answer and whenever a cancel comes: every activity starts with its whole budget before
      it and with its predecessor's output, of a type it consumes; no lookup, missing input, spent
      budget or assertion can end the run. Only an activity's own failure, or a cancel, can. */
  lemma AcceptedPipelinesGoRight(k: Codec, st: Settings, d: Definition, previous: Option<StoredDefinition>, e: Cipher,
                                 p: Parsed, input: Input, start: int, w: World)
    requires Faithful(k) && Shaped(d) && Acceptable(k, st, d) && Storable(d)
    requires var s := Prepared(k, d, previous, e);
             && p.inputs == s.inputs && p.budget == s.budget && |p.blocks| == |s.blocks|
             && forall i :: 0 <= i < |s.blocks| ==> ReadBlock(k, s.blocks[i]).Some? ==> Some(p.blocks[i]) == ReadBlock(k, s.blocks[i])
    requires Triggered(p, input) && Contract(input, w)
    ensures Runnable(p)
    ensures var f := Final(input, start, w);
            && LogGoesRight(input, w, f.log)
            && f.end.Some? && f.end.value != Stuck
            && (f.end.value.RaisedFailure? ==> f.end.value.reason == ActivityError || f.end.value.reason == RecordError)
  {
    hide StepBlock, Contract, Triggered, Final, LogGoesRight;
    StoredReadsBack(k, st, d, previous, e, p);
    RunnableGoesRight(p, input, start, w);
  }

  // ----- a run nothing disturbs -----------------------------------------------------------------------------

  /** Every activity of the block succeeds and no cancel comes. */
  predicate Peaceful(w: BlockWorld) {
    && w.status == Running && w.work.Produced? && w.recorded
    && !w.startCancel && !w.slotCancelled && !w.workCancel && !w.releaseCancel && !w.recordCancel && !w.endCancel
  }

  /** What is sent for block `i`: its running-mirror, its activity, the release of a scrape's slot, the
      recording of a content block's object, its completed-mirror. */
  function BlockLog(input: Input, w: World, i: nat): seq<Event>
    requires i < |input.blocks| && IsContent(TypeOf(input.blocks[0].config))
  {
    var b := input.blocks[i];
    var ref := if i == 0 then None else HandedOn(input.blocks, w, i);
    var found := if ref.None? then None else Some(w(LastContent(input.blocks, i)).work.result.ref);
    [MirrorBlock(b.id, BlockRunning, ref), Execute(i, ref, found, 1000 * TimingOf(b.config).Budget())]
    + (if b.config.ScrapeConfig? then [ReleaseSlot] else [])
    + (if IsContent(TypeOf(b.config)) then [Record(b.id)] else [])
    + [MirrorBlock(b.id, BlockCompleted, HandedOn(input.blocks, w, i + 1))]
  }

  function CalmLog(input: Input, w: World, n: nat): seq<Event>
    requires n <= |input.blocks| && input.blocks != [] && IsContent(TypeOf(input.blocks[0].config))
  {
    if n == 0 then [] else CalmLog(input, w, n - 1) + BlockLog(input, w, n - 1)
  }

  lemma CalmWork(input: Input, deadline: int, s: RunState, i: nat, w: BlockWorld)
    requires i < |input.blocks| && Timely(input.blocks[i], w) && Peaceful(w) && !s.cancelRequested
    requires var b := input.blocks[i];
             && b.id in input.artifactIds && !UrlMissing(input, b) && !KeyMissing(input, b)
             && (b.config.ScrapeConfig? || InputRef(s, b).Some?)
             && deadline - s.now >= 1000 * TimingOf(b.config).Budget() + (if b.config.ScrapeConfig? then 615_000 else 0)
    ensures var (t, r) := WorkOn(input, deadline, s, i, w);
            var b, ref := input.blocks[i], InputRef(s, input.blocks[i]);
            var found := if ref.Some? && ref.value in s.objects then Some(s.objects[ref.value]) else None;
            && r.Got? && !t.cancelRequested
            && t.log == s.log + [Execute(i, ref, found, 1000 * TimingOf(b.config).Budget())]
                       + (if b.config.ScrapeConfig? then [ReleaseSlot] else [])
                       + (if IsContent(TypeOf(b.config)) then [Record(b.id)] else [])
  {
    hide TimingOf, ExecuteBlock, UrlMissing, KeyMissing, IsContent;
    var b := input.blocks[i];
    if b.config.ScrapeConfig? {
      ExecuteGoesRight(input, deadline, Awaited(s, w.slotTook, w.slotCancelled), i, w);
      ExecuteIsCalm(input, deadline, Awaited(s, w.slotTook, w.slotCancelled), i, w);
    } else {
      ExecuteGoesRight(input, deadline, s, i, w);
      ExecuteIsCalm(input, deadline, s, i, w);
    }
  }

  lemma ExecuteIsCalm(input: Input, deadline: int, s: RunState, i: nat, w: BlockWorld)
    requires i < |input.blocks| && !s.cancelRequested && !w.workCancel
    ensures !ExecuteBlock(input, deadline, s, i, w).0.cancelRequested
  {
    hide TimingOf, InputRef, UrlMissing, KeyMissing, IsContent;
  }

  lemma OutputIsHandedOn(blocks: seq<RunBlock>, w: World, i: nat, ref: Option<string>)
    requires i < |blocks| && IsContent(TypeOf(blocks[0].config)) && w(i).work.Produced?
    requires i > 0 ==> ref.Some? && ref == HandedOn(blocks, w, i)
    ensures OutputOf(blocks[i], ref, w(i)) == HandedOn(blocks, w, i + 1)
    ensures OutputOf(blocks[i], ref, w(i)).Some?
  {
  }

  lemma StartIsCalm(s: RunState, b: RunBlock, w: BlockWorld)
    requires s.end == None && !s.cancelRequested && Peaceful(w)
    ensures var t := StartBlock(s, b, w);
            && t == s.(now := s.now + w.startTook, log := s.log + [MirrorBlock(b.id, BlockRunning, InputRef(s, b))])
  {
  }

  lemma TimelyAt(input: Input, w: World, i: nat)
    requires Contract(input, w) && i < |input.blocks|
    ensures Timely(input.blocks[i], w(i))
  {
  }

  lemma FinishIsCalm(u: RunState, b: RunBlock, ref: Option<string>, r: Worked, w: BlockWorld)
    requires r.Got? && !u.cancelRequested && !w.endCancel
    ensures !EndBlock(u, b, ref, r, w).cancelRequested
  {
  }

  lemma CalmStep(p: Parsed, input: Input, start: int, w: World, i: nat, s: RunState)
    requires Runnable(p) && Triggered(p, input) && Contract(input, w) && i < |input.blocks|
    requires forall j :: 0 <= j <= i ==> Peaceful(w(j))
    requires s.end == None && OnCourse(input, start, w, i, s) && !s.cancelRequested
    ensures var t := StepBlock(input, Deadline(input, start), s, i, w(i));
            t.end == None && !t.cancelRequested && t.log == s.log + BlockLog(input, w, i)
  {
    hide TimingOf, RunNeedSeconds, NeedBefore, WorkOn, EndBlock, InputRef, Typed, KeyMissing, GoesRight, Contract, HandedOn,
         StartBlock;
    var b := input.blocks[i];
    var deadline := Deadline(input, start);
    var started := StartBlock(s, b, w(i));
    StartIsCalm(s, b, w(i));
    TimelyAt(input, w, i);
    assert Timely(b, w(i));
    InputIsHandedOn(p, input, start, w, i, s);
    assert InputRef(started, b) == InputRef(s, b) by { SameInput(s, started, b); }
    EnoughLeft(p, input, i);
    HostSlotOf(b.config);
    WorkGoesRight(input, deadline, started, i, w(i));
    CalmWork(input, deadline, started, i, w(i));
    var (u, r) := WorkOn(input, deadline, started, i, w(i));
    OutputIsHandedOn(input.blocks, w, i, InputRef(s, b));
    FinishedState(u, b, InputRef(s, b), r, w(i));
    FinishIsCalm(u, b, InputRef(s, b), r, w(i));
    if i > 0 {
      FoundIsWritten(input, start, w, i, s);
    }
  }

  lemma FoundIsWritten(input: Input, start: int, w: World, i: nat, s: RunState)
    requires 0 < i < |input.blocks| && IsContent(TypeOf(input.blocks[0].config))
    requires OnCourse(input, start, w, i, s) && forall j :: 0 <= j < i ==> Peaceful(w(j))
    ensures var ref := HandedOn(input.blocks, w, i);
            ref.Some? && ref.value in s.objects && s.objects[ref.value] == w(LastContent(input.blocks, i)).work.result.ref
  {
    var k := LastContent(input.blocks, i);
    assert Writes(input.blocks[k], w(k));
  }

  /** A definition that may be run, rightly triggered, in a world that keeps its contract and disturbs
      nothing, completes: this is all it sends, in this order, and this is what it returns. */
  lemma CalmRunCompletes(p: Parsed, input: Input, start: int, w: World)
    requires Runnable(p) && Triggered(p, input) && Contract(input, w)
    requires forall i :: 0 <= i < |input.blocks| ==> Peaceful(w(i))
    ensures var f, n := Final(input, start, w), |input.blocks|;
            var result := HandedOn(input.blocks, w, n);
            && f.end == Some(Returned(result)) && result.Some? && !f.cancelRequested
            && exists wall :: (wall <==> HitsWall(input.blocks, n, w))
                 && f.log == CalmLog(input, w, n) + [MirrorRun(Completed, result, wall)]
  {
    hide StepBlock, Contract, BlockLog, Triggered, Runnable;
    CalmBefore(p, input, start, w, |input.blocks|);
    BooksFollow(input, start, w, |input.blocks|);
    StaysOnCourse(p, input, start, w, |input.blocks|);
  }

  lemma {:induction false} CalmBefore(p: Parsed, input: Input, start: int, w: World, i: nat)
    requires Runnable(p) && Triggered(p, input) && Contract(input, w) && i <= |input.blocks|
    requires forall i :: 0 <= i < |input.blocks| ==> Peaceful(w(i))
    ensures var s := Before(input, start, w, i);
            s.end == None && !s.cancelRequested && s.log == CalmLog(input, w, i)
  {
    hide StepBlock, Contract, BlockLog, Triggered, Runnable, Peaceful;
    if i > 0 {
      CalmBefore(p, input, start, w, i - 1);
      StaysOnCourse(p, input, start, w, i - 1);
      CalmStep(p, input, start, w, i - 1, Before(input, start, w, i - 1));
    }
  }

  // ----- the workflow itself --------------------------------------------------------------------------------

  /** The workflow itself, run. Whatever the definition and the world: its log is disciplined; a cancel noted
      or a mirror refused stops it; and its row is told how it ends. If the definition is one that may be run
      and the world keeps its contract, it goes right; and if nothing disturbs it besides, it completes. */
  method Interpret(input: Input, start: int, w: World, ghost p: Parsed) returns (workflow: PipelineWorkflow, end: End)
    ensures var read := Scan(workflow.log, input.blocks);
            && read.ok && read.completed <= read.executed <= read.completed + 1
            && read.closed == (if end == Stuck then 0 else 1)
            && MirrorsItsEnd(workflow.log, end, workflow.cancelRequested, read.completed == |input.blocks|)
            && (read.completed == |input.blocks| ==> CompletesWithAll(input, w, workflow.log, end))
    ensures forall i :: 0 <= i < |input.blocks| && Noted(input.blocks[i], w(i)) ==>
              Scan(workflow.log, input.blocks).executed <= i + 1
    ensures forall i :: 0 <= i < |input.blocks| && w(i).status != Running ==>
              Scan(workflow.log, input.blocks).executed <= i
    ensures Runnable(p) && Triggered(p, input) && Contract(input, w) ==>
              && LogGoesRight(input, w, workflow.log) && end != Stuck
              && (end.RaisedFailure? ==> end.reason == ActivityError || end.reason == RecordError)
    ensures Runnable(p) && Triggered(p, input) && Contract(input, w)
            && (forall i :: 0 <= i < |input.blocks| ==> Peaceful(w(i))) ==>
              && end.Returned? && end.result == HandedOn(input.blocks, w, |input.blocks|)
              && exists e :: workflow.log == CalmLog(input, w, |input.blocks|) + [e]
  {
    hide StepBlock, Scan, Contract, LogGoesRight, Noted, Before, Final, MirrorsItsEnd, CompletesWithAll, CalmLog, Peaceful;
    hide Runnable, Triggered;
    workflow := new PipelineWorkflow(start);
    end := workflow.Run(input, w);
    RunIsDisciplined(input, start, w);
    RowIsToldTheEnd(input, start, w);
    forall i | 0 <= i < |input.blocks| && Noted(input.blocks[i], w(i))
      ensures Scan(workflow.log, input.blocks).executed <= i + 1
    {
      CancelStopsTheRun(input, start, w, i);
    }
    forall i | 0 <= i < |input.blocks| && w(i).status != Running
      ensures Scan(workflow.log, input.blocks).executed <= i
    {
      RefusalStopsTheRun(input, start, w, i);
    }
    if Runnable(p) && Triggered(p, input) && Contract(input, w) {
      RunnableGoesRight(p, input, start, w);
      if forall i :: 0 <= i < |input.blocks| ==> Peaceful(w(i)) {
        CalmRunCompletes(p, input, start, w);
      }
    }
  }

  // ----- the result of a completed run ----------------------------------------------------------------------

  /** A block row's `output_ref`: what its last completed-mirror wrote. */
  function OutputRow(log: seq<Event>, id: string): Option<string> {
    if log == [] then None
    else
      var e := log[|log| - 1];
      if e.MirrorBlock? && e.block == id && e.status.BlockCompleted? then e.ref else OutputRow(log[..|log| - 1], id)
  }

  /** `load_run_result` without a block id: the first row, by position, that holds the result path. */
  method FirstHolder(rows: seq<Option<string>>, path: string) returns (i: nat)
    requires Some(path) in rows
    ensures i < |rows| && rows[i] == Some(path)
    ensures forall j :: 0 <= j < i ==> rows[j] != Some(path)
  {
    i := 0;
    while rows[i] != Some(path)
      invariant i < |rows|
      invariant forall j :: 0 <= j < i ==> rows[j] != Some(path)
      decreases |rows| - i
    {
      i := i + 1;
    }
  }

  lemma {:induction false} MirroredHasRow(input: Input, w: World, log: seq<Event>, i: nat)
    requires input.blocks != [] && IsContent(TypeOf(input.blocks[0].config))
    requires LogGoesRight(input, w, log) && Scan(log, input.blocks).ok && i < Scan(log, input.blocks).completed
    requires i < |input.blocks|
    ensures OutputRow(log, input.blocks[i].id).Some?
    ensures OutputRow(log, input.blocks[i].id) == HandedOn(input.blocks, w, i + 1)
  {
    if log != [] {
      var front, e := log[..|log| - 1], log[|log| - 1];
      if e.MirrorBlock? && e.block == input.blocks[i].id && e.status.BlockCompleted? {
        assert GoesRight(input, w, e);
      } else {
        hide HandedOn, LastContent;
        MirroredHasRow(input, w, front, i);
      }
    }
  }

  lemma {:induction false} LastContentGrows(blocks: seq<RunBlock>, i: nat, j: nat)
    requires 1 <= i <= j <= |blocks| && IsContent(TypeOf(blocks[0].config))
    ensures LastContent(blocks, i) <= LastContent(blocks, j)
    ensures LastContent(blocks, j) < i ==> LastContent(blocks, i) == LastContent(blocks, j)
    decreases j
  {
    if i < j {
      LastContentGrows(blocks, i, j - 1);
    }
  }

  /** On a completed run the result path is the last content block's object, and the first block row that
      holds it, which is where `load_run_result` looks, is that block's. */
  lemma ResultIsLastContent(p: Parsed, input: Input, start: int, w: World, i: nat)
    requires Runnable(p) && Triggered(p, input) && Contract(input, w) && i < |input.blocks|
    requires Before(input, start, w, |input.blocks|).end == None
    ensures var f, last := Final(input, start, w), LastContent(input.blocks, |input.blocks|);
            && f.end == Some(Returned(HandedOn(input.blocks, w, |input.blocks|)))
            && f.end.value.result.Some?
            && OutputRow(f.log, input.blocks[last].id) == f.end.value.result
            && (i < last ==> OutputRow(f.log, input.blocks[i].id) != f.end.value.result)
  {
    hide StepBlock, GoesRight;
    var n := |input.blocks|;
    var s, f, last := Before(input, start, w, n), Final(input, start, w), LastContent(input.blocks, n);
    StaysOnCourse(p, input, start, w, n);
    var e := MirrorRun(Completed, s.resultPath, s.wall);
    assert GoesRight(input, w, e) by { RunMirrorGoesRight(input, w, e); }
    LogGrowsRight(input, w, s, e);
    ScanBefore(input, start, w, n);
    ScanLogged(s, e, input.blocks);
    MirroredHasRow(input, w, f.log, last);
    MirroredHasRow(input, w, f.log, i);
    LastContentGrows(input.blocks, last + 1, n);
    if i < last {
      assert LastContent(input.blocks, i + 1) < last;
    }
  }

  lemma RunMirrorGoesRight(input: Input, w: World, e: Event)
    requires input.blocks != [] && IsContent(TypeOf(input.blocks[0].config)) && e.MirrorRun?
    ensures GoesRight(input, w, e)
  {
  }
}
