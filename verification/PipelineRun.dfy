/** The interpreter of a pipeline (api/app/workflows/pipeline.py): it runs a pinned definition block by
    block, mirrors each status, honours a cancel at block boundaries and keeps to a deadline. The
    environment (activities, cancels, durations) is a parameter, so a statement about every world is a
    statement about every run. Milliseconds. */
module PipelineRun {
  import opened Common
  import opened Catalog
  import opened Definitions

  // ----- what a run is given, and what may happen to it ---------------------------------------------

  datatype Input = Input(
    blocks: seq<RunBlock>,
    timeBudgetSeconds: int,
    inputs: map<string, string>,
    artifactIds: map<string, string>,
    llmKeys: set<string>)

  datatype RunStatus = Running | Completed | Failed | Cancelled

  /** An object an activity wrote: its path, and the type of reference it is. */
  datatype Stored = Stored(path: string, ref: RefType)

  datatype Work = Produced(result: Stored, screenshots: seq<string>) | ActivityFailed | Stopped

  /** Around one block: the answer to the running-mirror, the wait for a host slot, the activity, the
      release, the recording and the completed-mirror; each with its duration and whether a cancel
      arrives meanwhile. `closingCancel`: one arrives while the run's own mirror is sent. */
  datatype BlockWorld = BlockWorld(
    status: RunStatus, startTook: nat, startCancel: bool,
    slotTook: nat, slotCancelled: bool,
    work: Work, workTook: nat, workCancel: bool,
    releaseTook: nat, releaseCancel: bool,
    recorded: bool, overLimit: bool, recordTook: nat, recordCancel: bool,
    endTook: nat, endCancel: bool,
    closingCancel: bool)

  type World = nat -> BlockWorld

  datatype Cause = BudgetSpent | HasNoInput | MissingKey | ActivityError | RecordError

  datatype BlockStatus = BlockRunning | BlockCompleted | BlockFailed

  datatype Event =
    | MirrorBlock(block: string, status: BlockStatus, ref: Option<string>)
    // `found` is the type of the object the reference names when the activity starts.
    | Execute(index: nat, ref: Option<string>, found: Option<RefType>, scheduleToClose: int)
    | ReleaseSlot
    | Record(block: string)
    | MirrorRun(outcome: RunStatus, result: Option<string>, wall: bool)

  /** How the workflow ends. `Stuck`: the assertion on the output reference fails, and with it the
      workflow task, for ever. */
  datatype End = Returned(result: Option<string>) | RaisedFailure(reason: Cause) | RaisedCancel | Stuck

  datatype RunState = RunState(
    now: int, cancelRequested: bool, refs: map<string, string>, resultPath: Option<string>, wall: bool,
    objects: map<string, RefType>, log: seq<Event>, end: Option<End>)

  const DB_ACTIVITY: int := 20_000

  // ----- one block, step by step -----------------------------------------------------------------------

  function InputRef(s: RunState, b: RunBlock): Option<string> {
    if b.input.Some? && b.input.value != "" && b.input.value in s.refs then Some(s.refs[b.input.value]) else None
  }

  /** `_finish`: an await that completes; a cancel meanwhile is noted. */
  function Awaited(s: RunState, took: nat, cancel: bool): RunState {
    s.(now := s.now + took, cancelRequested := s.cancelRequested || cancel)
  }

  function Logged(s: RunState, e: Event): RunState {
    s.(log := s.log + [e])
  }

  function CancelRun(s: RunState, w: BlockWorld): RunState {
    var t := Awaited(Logged(s, MirrorRun(Cancelled, None, false)), 0, w.closingCancel);
    t.(end := Some(if t.cancelRequested then RaisedCancel else Returned(None)))
  }

  function FailRun(s: RunState, b: RunBlock, reason: Cause): RunState {
    Logged(Logged(s, MirrorBlock(b.id, BlockFailed, None)), MirrorRun(Failed, None, false)).(end := Some(RaisedFailure(reason)))
  }

  datatype Worked = Got(objects: seq<string>) | Failure(reason: Cause) | Cancellation

  /** The url of a Scrape block is bound to a run input that was not given. */
  predicate UrlMissing(input: Input, b: RunBlock) {
    b.config.ScrapeConfig? && b.config.url.Bound? && b.config.url.input !in input.inputs
  }

  predicate KeyMissing(input: Input, b: RunBlock) {
    b.config.LlmExtractConfig? && b.config.keyId !in input.llmKeys
  }

  /** `_execute`: the activity under what is left of the run's budget. */
  function ExecuteBlock(input: Input, deadline: int, s: RunState, i: nat, w: BlockWorld): (r: (RunState, Worked))
    requires i < |input.blocks|
    ensures SameBooks(s, r.0)
  {
    var b := input.blocks[i];
    var ref := InputRef(s, b);
    var remaining := deadline - s.now;
    if remaining <= 0 then (s, Failure(BudgetSpent))
    else if b.id !in input.artifactIds || UrlMissing(input, b) then (s, Failure(MissingKey))
    else if !b.config.ScrapeConfig? && ref.None? then (s, Failure(HasNoInput))
    else if KeyMissing(input, b) then (s, Failure(MissingKey))
    else
      var found := if ref.Some? && ref.value in s.objects then Some(s.objects[ref.value]) else None;
      var t := Awaited(Logged(s, Execute(i, ref, found, Min(1000 * TimingOf(b.config).Budget(), remaining))),
                       w.workTook, w.workCancel);
      match w.work
      case ActivityFailed => (t, Failure(ActivityError))
      case Stopped => (t, Cancellation)
      case Produced(result, screenshots) =>
        if !IsContent(TypeOf(b.config)) then (t, Got([]))
        else (t.(objects := t.objects[result.path := result.ref]),
              Got([result.path] + if b.config.ScrapeConfig? then screenshots else []))
  }

  /** `_scrape_in_host_slot`: a cancel during the wait ends the block before anything is scraped. */
  function ScrapeInHostSlot(input: Input, deadline: int, s: RunState, i: nat, w: BlockWorld): (r: (RunState, Worked))
    requires i < |input.blocks|
    ensures SameBooks(s, r.0)
  {
    var b := input.blocks[i];
    if UrlMissing(input, b) then (s, Failure(MissingKey))
    else
      var t := Awaited(s, w.slotTook, w.slotCancelled);
      if w.slotCancelled then (t, Cancellation)
      else
        var (u, r) := ExecuteBlock(input, deadline, t, i, w);
        (Awaited(Logged(u, ReleaseSlot), w.releaseTook, w.releaseCancel), r)
  }

  function RecordObjects(s: RunState, b: RunBlock, r: Worked, w: BlockWorld): (RunState, Worked) {
    if r.Got? && r.objects != [] then
      (Awaited(Logged(s, Record(b.id)), w.recordTook, w.recordCancel),
       if w.recorded then r else Failure(RecordError))
    else (s, r)
  }

  function FinishBlock(s: RunState, b: RunBlock, ref: Option<string>, objects: seq<string>, w: BlockWorld): RunState {
    var content := IsContent(TypeOf(b.config));
    var output := if content then (if objects == [] then None else Some(objects[0])) else ref;
    if output.None? then s.(end := Some(Stuck))
    else
      var t := s.(refs := s.refs[b.id := output.value],
                  resultPath := if content then output else s.resultPath,
                  wall := s.wall || (objects != [] && w.overLimit));
      Awaited(Logged(t, MirrorBlock(b.id, BlockCompleted, output)), w.endTook, w.endCancel)
  }

  /** The running-mirror; a run already cancelled, or refused by the mirror, ends here. */
  function StartBlock(s: RunState, b: RunBlock, w: BlockWorld): RunState {
    if s.cancelRequested then CancelRun(s, w)
    else
      var t := Awaited(Logged(s, MirrorBlock(b.id, BlockRunning, InputRef(s, b))), w.startTook, w.startCancel);
      if w.status != Running then CancelRun(t, w) else t
  }

  function WorkOn(input: Input, deadline: int, s: RunState, i: nat, w: BlockWorld): (r: (RunState, Worked))
    requires i < |input.blocks|
    ensures SameBooks(s, r.0)
  {
    var (t, r) := if input.blocks[i].config.ScrapeConfig? then ScrapeInHostSlot(input, deadline, s, i, w)
                  else ExecuteBlock(input, deadline, s, i, w);
    RecordObjects(t, input.blocks[i], r, w)
  }

  function EndBlock(s: RunState, b: RunBlock, ref: Option<string>, r: Worked, w: BlockWorld): RunState {
    match r
    case Cancellation => CancelRun(Logged(s, MirrorBlock(b.id, BlockFailed, None)), w)
    case Failure(cause) => FailRun(s, b, cause)
    case Got(objects) => FinishBlock(s, b, ref, objects, w)
  }

  function StepBlock(input: Input, deadline: int, s: RunState, i: nat, w: BlockWorld): RunState
    requires i < |input.blocks|
  {
    var started := StartBlock(s, input.blocks[i], w);
    if started.end.Some? then started
    else
      var (worked, r) := WorkOn(input, deadline, started, i, w);
      EndBlock(worked, input.blocks[i], InputRef(s, input.blocks[i]), r, w)
  }

  // ----- a run ---------------------------------------------------------------------------------------------

  function Begin(start: int): RunState {
    RunState(start, false, map[], None, false, map[], [], None)
  }

  function Deadline(input: Input, start: int): int {
    start + 1000 * input.timeBudgetSeconds
  }

  /** The state before block `i`, or where the run ended before it. */
  function Before(input: Input, start: int, w: World, i: nat): RunState
    requires i <= |input.blocks|
  {
    if i == 0 then Begin(start)
    else
      var s := Before(input, start, w, i - 1);
      if s.end.Some? then s else StepBlock(input, Deadline(input, start), s, i - 1, w(i - 1))
  }

  function Final(input: Input, start: int, w: World): RunState {
    var s := Before(input, start, w, |input.blocks|);
    if s.end.Some? then s
    else Logged(s, MirrorRun(Completed, s.resultPath, s.wall)).(end := Some(Returned(s.resultPath)))
  }

  /** The workflow object: its one field, and the world it acts on. */
  class PipelineWorkflow {
    var cancelRequested: bool
    var now: int
    var objects: map<string, RefType>
    var log: seq<Event>

    constructor (start: int)
      ensures !cancelRequested && now == start && objects == map[] && log == []
    {
      cancelRequested, now, objects, log := false, start, map[], [];
    }

    /** The workflow is where `s` says; refs, result path and wall are the caller's. */
    ghost predicate At(s: RunState)
      reads this
    {
      s.now == now && s.cancelRequested == cancelRequested && s.objects == objects && s.log == log
    }

    method Finish(took: nat, cancel: bool, ghost s: RunState)
      requires At(s)
      modifies `now, `cancelRequested
      ensures At(Awaited(s, took, cancel))
    {
      now := now + took;
      if cancel {
        cancelRequested := true;
      }
    }

    method Send(e: Event, ghost s: RunState)
      requires At(s)
      modifies `log
      ensures At(Logged(s, e))
    {
      log := log + [e];
    }

    method Cancel(w: BlockWorld, ghost s: RunState) returns (end: End)
      requires At(s)
      modifies this
      ensures At(CancelRun(s, w)) && CancelRun(s, w).end == Some(end)
      ensures log == old(log) + [MirrorRun(Cancelled, None, false)]
      ensures end == if cancelRequested then RaisedCancel else Returned(None)
    {
      Send(MirrorRun(Cancelled, None, false), s);
      Finish(0, w.closingCancel, Logged(s, MirrorRun(Cancelled, None, false)));
      end := if cancelRequested then RaisedCancel else Returned(None);
    }

    method Fail(b: RunBlock, cause: Cause, ghost s: RunState) returns (end: End)
      requires At(s)
      modifies this
      ensures At(FailRun(s, b, cause)) && FailRun(s, b, cause).end == Some(end)
      ensures log == old(log) + [MirrorBlock(b.id, BlockFailed, None), MirrorRun(Failed, None, false)]
      ensures end == RaisedFailure(cause)
    {
      Send(MirrorBlock(b.id, BlockFailed, None), s);
      Send(MirrorRun(Failed, None, false), Logged(s, MirrorBlock(b.id, BlockFailed, None)));
      end := RaisedFailure(cause);
    }

    /** Everything the block's activity needs is there. */
    ghost predicate Ready(input: Input, deadline: int, i: nat, ref: Option<string>, at: int)
      requires i < |input.blocks|
    {
      var b := input.blocks[i];
      && at < deadline && b.id in input.artifactIds && !UrlMissing(input, b) && !KeyMissing(input, b)
      && (b.config.ScrapeConfig? || ref.Some?)
    }

    /** What is sent for it at that instant: under the lesser of its budget and what the run has left. */
    ghost function Sent(input: Input, deadline: int, i: nat, ref: Option<string>, at: int, stored: map<string, RefType>): Event
      requires i < |input.blocks|
    {
      Execute(i, ref, if ref.Some? && ref.value in stored then Some(stored[ref.value]) else None,
              Min(1000 * TimingOf(input.blocks[i].config).Budget(), deadline - at))
    }

    /** `_execute`: sends the activity if and only if all it needs is there; otherwise it fails at once,
        on a spent budget before anything else. */
    method ExecuteActivity(input: Input, deadline: int, i: nat, ref: Option<string>, w: BlockWorld, ghost s: RunState)
      returns (r: Worked)
      requires i < |input.blocks| && At(s) && ref == InputRef(s, input.blocks[i])
      modifies this
      ensures At(ExecuteBlock(input, deadline, s, i, w).0) && r == ExecuteBlock(input, deadline, s, i, w).1
      ensures log == if Ready(input, deadline, i, ref, old(now))
                     then old(log) + [Sent(input, deadline, i, ref, old(now), old(objects))] else old(log)
      ensures !Ready(input, deadline, i, ref, old(now)) ==> r.Failure? && now == old(now) && objects == old(objects)
      ensures deadline <= old(now) ==> r == Failure(BudgetSpent)
      ensures Ready(input, deadline, i, ref, old(now)) && r.Failure? ==> r.reason == ActivityError
      ensures r.Got? && r.objects != [] ==> r.objects[0] in objects
    {
      hide TimingOf, IsContent, UrlMissing, KeyMissing, SameBooks;
      var b := input.blocks[i];
      var remaining := deadline - now;
      if remaining <= 0 {
        return Failure(BudgetSpent);
      }
      if b.id !in input.artifactIds || UrlMissing(input, b) {
        return Failure(MissingKey);
      }
      if !b.config.ScrapeConfig? && ref.None? {
        return Failure(HasNoInput);
      }
      if KeyMissing(input, b) {
        return Failure(MissingKey);
      }
      var found := if ref.Some? && ref.value in objects then Some(objects[ref.value]) else None;
      var e := Execute(i, ref, found, Min(1000 * TimingOf(b.config).Budget(), remaining));
      Send(e, s);
      Finish(w.workTook, w.workCancel, Logged(s, e));
      match w.work {
        case ActivityFailed => r := Failure(ActivityError);
        case Stopped => r := Cancellation;
        case Produced(result, screenshots) =>
          if !IsContent(TypeOf(b.config)) {
            r := Got([]);
          } else {
            objects := objects[result.path := result.ref];
            r := Got([result.path] + if b.config.ScrapeConfig? then screenshots else []);
          }
      }
    }

    /** `_scrape_in_host_slot`: nothing is sent unless the wait ends uncancelled; then the slot is released
        last, whether the activity was sent or not. */
    method ScrapeInSlot(input: Input, deadline: int, i: nat, ref: Option<string>, w: BlockWorld, ghost s: RunState)
      returns (r: Worked)
      requires i < |input.blocks| && At(s) && ref == InputRef(s, input.blocks[i])
      modifies this
      ensures At(ScrapeInHostSlot(input, deadline, s, i, w).0) && r == ScrapeInHostSlot(input, deadline, s, i, w).1
      ensures UrlMissing(input, input.blocks[i]) ==> log == old(log) && r == Failure(MissingKey)
      ensures !UrlMissing(input, input.blocks[i]) && w.slotCancelled ==> log == old(log) && r == Cancellation && cancelRequested
      ensures !UrlMissing(input, input.blocks[i]) && !w.slotCancelled ==>
                var at := old(now) + w.slotTook;
                log == old(log) + (if Ready(input, deadline, i, ref, at) then [Sent(input, deadline, i, ref, at, old(objects))] else [])
                       + [ReleaseSlot]
    {
      hide TimingOf, UrlMissing, KeyMissing, Ready, SameBooks;
      if UrlMissing(input, input.blocks[i]) {
        return Failure(MissingKey);
      }
      Finish(w.slotTook, w.slotCancelled, s);
      if w.slotCancelled {
        return Cancellation;
      }
      ghost var t := Awaited(s, w.slotTook, w.slotCancelled);
      r := ExecuteActivity(input, deadline, i, ref, w, t);
      Send(ReleaseSlot, ExecuteBlock(input, deadline, t, i, w).0);
      Finish(w.releaseTook, w.releaseCancel, Logged(ExecuteBlock(input, deadline, t, i, w).0, ReleaseSlot));
    }

    method Start(b: RunBlock, ref: Option<string>, w: BlockWorld, ghost s: RunState) returns (end: Option<End>)
      requires At(s) && s.end == None && ref == InputRef(s, b)
      modifies this
      ensures At(StartBlock(s, b, w)) && StartBlock(s, b, w).end == end
      ensures end.Some? <==> old(cancelRequested) || w.status != Running
      ensures old(cancelRequested) ==> log == old(log) + [MirrorRun(Cancelled, None, false)]
      ensures end.None? ==> log == old(log) + [MirrorBlock(b.id, BlockRunning, ref)] && cancelRequested == w.startCancel
    {
      if cancelRequested {
        var ended := Cancel(w, s);
        return Some(ended);
      }
      ghost var e := MirrorBlock(b.id, BlockRunning, ref);
      Send(MirrorBlock(b.id, BlockRunning, ref), s);
      Finish(w.startTook, w.startCancel, Logged(s, e));
      if w.status != Running {
        var ended := Cancel(w, Awaited(Logged(s, e), w.startTook, w.startCancel));
        return Some(ended);
      }
      return None;
    }

    method Work(input: Input, deadline: int, i: nat, ref: Option<string>, w: BlockWorld, ghost s: RunState)
      returns (r: Worked)
      requires i < |input.blocks| && At(s) && ref == InputRef(s, input.blocks[i])
      modifies this
      ensures At(WorkOn(input, deadline, s, i, w).0) && r == WorkOn(input, deadline, s, i, w).1
      ensures old(log) <= log
      ensures r.Got? && r.objects != [] ==> w.recorded && log[|log| - 1] == Record(input.blocks[i].id)
      ensures !input.blocks[i].config.ScrapeConfig? && !Ready(input, deadline, i, ref, old(now)) ==> log == old(log) && r.Failure?
    {
      var b := input.blocks[i];
      ghost var t;
      if b.config.ScrapeConfig? {
        t := ScrapeInHostSlot(input, deadline, s, i, w).0;
        r := ScrapeInSlot(input, deadline, i, ref, w, s);
      } else {
        t := ExecuteBlock(input, deadline, s, i, w).0;
        r := ExecuteActivity(input, deadline, i, ref, w, s);
      }
      if r.Got? && r.objects != [] {
        Send(Record(b.id), t);
        Finish(w.recordTook, w.recordCancel, Logged(t, Record(b.id)));
        if !w.recorded {
          r := Failure(RecordError);
        }
      }
    }

    method Conclude(b: RunBlock, ref: Option<string>, r: Worked, w: BlockWorld, ghost s: RunState,
                    refs: map<string, string>, resultPath: Option<string>, wall: bool)
      returns (end: Option<End>, refs': map<string, string>, resultPath': Option<string>, wall': bool)
      requires At(s) && s.end == None && s.refs == refs && s.resultPath == resultPath && s.wall == wall
      modifies this
      ensures var s' := EndBlock(s, b, ref, r, w);
              && At(s') && s'.end == end
              && (end == None ==> s'.refs == refs' && s'.resultPath == resultPath' && s'.wall == wall')
      ensures r.Failure? ==> end == Some(RaisedFailure(r.reason))
      ensures end == None ==>
                && r.Got? && b.id in refs' && refs' == refs[b.id := refs'[b.id]]
                && log == old(log) + [MirrorBlock(b.id, BlockCompleted, Some(refs'[b.id]))]
                && (if IsContent(TypeOf(b.config)) then r.objects != [] && refs'[b.id] == r.objects[0] && resultPath' == Some(refs'[b.id])
                    else ref == Some(refs'[b.id]) && resultPath' == resultPath)
    {
      refs', resultPath', wall', end := refs, resultPath, wall, None;
      match r {
        case Cancellation =>
          Send(MirrorBlock(b.id, BlockFailed, None), s);
          var ended := Cancel(w, Logged(s, MirrorBlock(b.id, BlockFailed, None)));
          end := Some(ended);
        case Failure(cause) =>
          var ended := Fail(b, cause, s);
          end := Some(ended);
        case Got(objects) =>
          var content := IsContent(TypeOf(b.config));
          var output := if content then (if objects == [] then None else Some(objects[0])) else ref;
          if output.None? {
            end := Some(Stuck);
            return;
          }
          refs' := refs[b.id := output.value];
          if content {
            resultPath' := output;
          }
          if !wall && objects != [] && w.overLimit {
            wall' := true;
          }
          ghost var t := s.(refs := refs', resultPath := resultPath', wall := wall');
          Send(MirrorBlock(b.id, BlockCompleted, output), t);
          Finish(w.endTook, w.endCancel, Logged(t, MirrorBlock(b.id, BlockCompleted, output)));
      }
    }

    /** One turn of the loop in `run`. */
    method RunBlock(input: Input, deadline: int, i: nat, w: BlockWorld, ghost s: RunState,
                    refs: map<string, string>, resultPath: Option<string>, wall: bool)
      returns (end: Option<End>, refs': map<string, string>, resultPath': Option<string>, wall': bool)
      requires i < |input.blocks| && At(s) && s.end == None
      requires s.refs == refs && s.resultPath == resultPath && s.wall == wall
      modifies this
      ensures var s' := StepBlock(input, deadline, s, i, w);
              && At(s') && s'.end == end
              && (end == None ==> s'.refs == refs' && s'.resultPath == resultPath' && s'.wall == wall')
    {
      hide Ready, WorkOn, EndBlock, StartBlock, IsContent;
      refs', resultPath', wall' := refs, resultPath, wall;
      var b := input.blocks[i];
      var ref := if b.input.Some? && b.input.value != "" && b.input.value in refs then Some(refs[b.input.value]) else None;
      end := Start(b, ref, w, s);
      if end.Some? {
        return;
      }
      ghost var started := StartBlock(s, b, w);
      StartKeepsBooks(s, b, w);
      var r := Work(input, deadline, i, ref, w, started);
      end, refs', resultPath', wall' :=
        Conclude(b, ref, r, w, WorkOn(input, deadline, started, i, w).0, refs, resultPath, wall);
    }

    /** `run`: what it does is what the steps above add up to. */
    method Run(input: Input, w: World) returns (end: End)
      requires log == [] && objects == map[] && !cancelRequested
      modifies this
      ensures At(Final(input, old(now), w)) && Final(input, old(now), w).end == Some(end)
    {
      hide StepBlock;
      var deadline := now + 1000 * input.timeBudgetSeconds;
      ghost var start := now;
      var refs: map<string, string> := map[];
      var resultPath: Option<string> := None;
      var wall := false;
      for i := 0 to |input.blocks|
        invariant var s := Before(input, start, w, i);
                  At(s) && s.end == None && s.refs == refs && s.resultPath == resultPath && s.wall == wall
      {
        var ended;
        ended, refs, resultPath, wall :=
          RunBlock(input, deadline, i, w(i), Before(input, start, w, i), refs, resultPath, wall);
        if ended.Some? {
          EndedStays(input, start, w, i + 1);
          return ended.value;
        }
      }
      Send(MirrorRun(Completed, resultPath, wall), Before(input, start, w, |input.blocks|));
      end := Returned(resultPath);
    }
  }

  /** What a step inside a block leaves to its end. */
  predicate SameBooks(s: RunState, t: RunState) {
    t.refs == s.refs && t.resultPath == s.resultPath && t.wall == s.wall && t.end == s.end
  }

  lemma StartKeepsBooks(s: RunState, b: RunBlock, w: BlockWorld)
    requires s.end == None && StartBlock(s, b, w).end == None
    ensures SameBooks(s, StartBlock(s, b, w))
  {
  }

  lemma {:induction false} EndedStays(input: Input, start: int, w: World, i: nat)
    requires i <= |input.blocks| && Before(input, start, w, i).end.Some?
    ensures Before(input, start, w, |input.blocks|) == Before(input, start, w, i)
    ensures Final(input, start, w) == Before(input, start, w, i)
    decreases |input.blocks| - i
  {
    hide StepBlock;
    if i < |input.blocks| {
      EndedStays(input, start, w, i + 1);
    }
  }
}
