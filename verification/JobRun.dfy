/** One run of a job (api/app/workflows/job.py) with the database activities it calls
    (api/app/workflows/activities/job_runs.py), while the API may cancel or delete the run at any await
    (api/app/core/dispatch.py, api/app/routers/jobs.py). */
module JobRun {
  import opened Common

  type Path = string

  datatype Status = Pending | Running | Processing | Completed | Failed | Cancelled

  /** `job_runs.status`; None once the row is deleted. */
  type Row = Option<Status>

  predicate Active(r: Row) {
    r.Some? && (r.value.Pending? || r.value.Running? || r.value.Processing?)
  }

  type Terminal = s: Status | s.Completed? || s.Failed? || s.Cancelled? witness Failed

  /** Everything that writes `job_runs.status` of an inserted run. */
  datatype Write =
    | ApiCancels                       // cancel_active_runs, cancel_batch
    | ApiDeletes
    | StartFails                       // fail_unstarted_run, fail_unstarted_batch
    | BatchCloses(cancelled: bool)     // finish_batch, for a run that never got an outcome
    | MirrorsRunning | MirrorsProcessing
    | OverLimit                        // record_job_objects at the storage wall
    | Finishes(to: Terminal)           // finish_job_run

  /** Every writer looks at the row first, but for the one whose workflow did not start. */
  function Written(r: Row, w: Write): Row {
    match w
    case ApiCancels => if Active(r) then Some(Cancelled) else r
    case ApiDeletes => None
    case StartFails => if r.Some? then Some(Failed) else None
    case BatchCloses(cancelled) => if Active(r) then Some(if cancelled then Cancelled else Failed) else r
    case MirrorsRunning => if r == Some(Pending) then Some(Running) else r
    case MirrorsProcessing => if r == Some(Running) then Some(Processing) else r
    case OverLimit => if Active(r) then Some(Failed) else r
    case Finishes(to) => if Active(r) then Some(to) else r
  }

  /** The row from its insert on, a write at a time. */
  ghost predicate History(writes: seq<Write>, rows: seq<Row>) {
    && |rows| == |writes| + 1 && rows[0] == Some(Pending)
    && forall i :: 0 <= i < |writes| ==> rows[i + 1] == Written(rows[i], writes[i])
  }

  /** Once terminal a row never changes again, except that it may be deleted. */
  predicate Absorbed(before: Row, after: Row) {
    if before.None? then after.None?
    else Active(before) || after.None? || after == before
  }

  ghost predicate Absorbs(rows: seq<Row>) {
    forall i, j :: 0 <= i <= j < |rows| ==> Absorbed(rows[i], rows[j])
  }

  predicate Outcome(r: Row) {
    r.Some? && !Active(r)
  }

  /** No run is failed for want of a workflow once it has been cancelled or has completed. */
  ghost predicate StartsFailInTime(writes: seq<Write>, rows: seq<Row>)
    requires |rows| == |writes| + 1
  {
    forall i :: 0 <= i < |writes| && writes[i].StartFails? ==> rows[i] != Some(Cancelled) && rows[i] != Some(Completed)
  }

  lemma {:induction false} GuardedWritesAbsorb(writes: seq<Write>, rows: seq<Row>, i: nat, j: nat)
    requires History(writes, rows) && StartsFailInTime(writes, rows) && i <= j < |rows|
    ensures Absorbed(rows[i], rows[j])
  {
    if i < j {
      GuardedWritesAbsorb(writes, rows, i, j - 1);
      assert rows[j] == Written(rows[j - 1], writes[j - 1]);
    }
  }

  /** Terminal rows absorb exactly when no failing start comes after a cancel or a completion: the test
      `fail_unstarted_run` does not make. */
  lemma TerminalRowsAbsorb(writes: seq<Write>, rows: seq<Row>)
    requires History(writes, rows)
    ensures Absorbs(rows) <==> StartsFailInTime(writes, rows)
  {
    if StartsFailInTime(writes, rows) {
      forall i, j | 0 <= i <= j < |rows| ensures Absorbed(rows[i], rows[j]) {
        GuardedWritesAbsorb(writes, rows, i, j);
      }
    } else {
      var i :| 0 <= i < |writes| && writes[i].StartFails? && (rows[i] == Some(Cancelled) || rows[i] == Some(Completed));
      assert !Absorbed(rows[i], rows[i + 1]);
    }
  }

  /** And exactly then a run has one outcome at most: one that was cancelled or failed is never completed,
      a completed or cancelled one never failed. */
  lemma NeverRelabelled(writes: seq<Write>, rows: seq<Row>)
    requires History(writes, rows)
    ensures (forall i, j :: 0 <= i < |rows| && 0 <= j < |rows| && Outcome(rows[i]) && Outcome(rows[j]) ==> rows[i] == rows[j])
       <==> StartsFailInTime(writes, rows)
  {
    TerminalRowsAbsorb(writes, rows);
    if StartsFailInTime(writes, rows) {
      forall i, j | 0 <= i < |rows| && 0 <= j < |rows| && Outcome(rows[i]) && Outcome(rows[j]) ensures rows[i] == rows[j] {
        assert Absorbed(rows[if i <= j then i else j], rows[if i <= j then j else i]);
      }
    } else {
      var i :| 0 <= i < |writes| && writes[i].StartFails? && (rows[i] == Some(Cancelled) || rows[i] == Some(Completed));
      assert Outcome(rows[i]) && Outcome(rows[i + 1]) && rows[i] != rows[i + 1];
    }
  }

  /** Whatever starts fail, and when: a terminal row is never active again, and nothing takes its place but
      failed or its deletion. So a run once cancelled is never completed. */
  lemma {:induction false} NeverRevived(writes: seq<Write>, rows: seq<Row>, i: nat, j: nat)
    requires History(writes, rows) && i <= j < |rows| && !Active(rows[i])
    ensures !Active(rows[j])
    ensures rows[j] == rows[i] || rows[j] == None || (rows[j] == Some(Failed) && rows[i].Some?)
    ensures rows[i] == Some(Cancelled) ==> rows[j] != Some(Completed)
  {
    if i < j {
      NeverRevived(writes, rows, i, j - 1);
      assert rows[j] == Written(rows[j - 1], writes[j - 1]);
    }
  }

  /** The engine refuses a run only after the API has cancelled it; and it answers with an error a run it
      has nevertheless taken, which completes. */
  lemma FailedStartRelabels()
    ensures History([ApiCancels, StartFails], [Some(Pending), Some(Cancelled), Some(Failed)])
    ensures History([MirrorsRunning, Finishes(Completed), StartFails],
                    [Some(Pending), Some(Running), Some(Completed), Some(Failed)])
    ensures !Absorbs([Some(Pending), Some(Cancelled), Some(Failed)])
    ensures !Absorbs([Some(Pending), Some(Running), Some(Completed), Some(Failed)])
  {
    var cancelled := [Some(Pending), Some(Cancelled), Some(Failed)];
    var completed := [Some(Pending), Some(Running), Some(Completed), Some(Failed)];
    assert !Absorbed(cancelled[1], cancelled[2]) && !Absorbed(completed[2], completed[3]);
  }

  // ----- what a run meets ---------------------------------------------------------------------------------

  /** What the API may do to the run at any await. */
  datatype ApiAct = CancelsRun | DeletesRun | FailsStart | ClosesBatch(cancelled: bool)

  function AsWrite(a: ApiAct): Write {
    match a
    case CancelsRun => ApiCancels
    case DeletesRun => ApiDeletes
    case FailsStart => StartFails
    case ClosesBatch(cancelled) => BatchCloses(cancelled)
  }

  /** One await of the workflow: what the API does before and after the activity's transaction, whether a
      cancel of the workflow arrives, whether the activity does its work and whether its answer is lost
      (either way it has failed for good), the deletes that fail, and what a step would bring. */
  datatype Moment = Moment(before: seq<ApiAct>, after: seq<ApiAct>, cancel: bool, done: bool, lost: bool,
                           overLimit: bool, stuck: set<Path>, interrupted: bool, brings: seq<Path>, llm: LlmStep)

  type World = nat -> Moment

  /** The activity of that await fails for good. */
  predicate Fails(m: Moment) {
    !m.done || m.lost
  }

  predicate Calm(m: Moment) {
    m.before == [] && m.after == [] && !m.cancel && m.done && !m.lost && !m.interrupted
  }

  ghost predicate CalmFrom(w: World, a: nat) {
    forall i :: a <= i ==> Calm(w(i))
  }

  /** The end of a run nothing disturbs, its scrape being await `a`. It fails if a step brings nothing, the LLM
      settings are unusable, or a recording is over the storage limit; else it is completed, everything is
      charged, and its result, in the row and returned, is the first object of its last step. */
  ghost predicate EndsAsItShould(w: World, a: nat, end: End, row: Row, result: Option<Path>, ledger: set<Path>) {
    var scrape, llm, extract := w(a), w(a + 1).llm, w(a + 4);
    if scrape.brings == [] || llm.LlmUnusable? || w(a + 2).overLimit then end == RaisedFailure && row == Some(Failed)
    else if llm.NoLlm? then
      && end == Returned(Some(scrape.brings[0])) && row == Some(Completed) && result == Some(scrape.brings[0])
      && ledger == PathSet(scrape.brings)
    else if extract.brings == [] || !(PathSet(extract.brings) !! PathSet(scrape.brings)) || w(a + 5).overLimit then
      end == RaisedFailure && row == Some(Failed)
    else
      && end == Returned(Some(extract.brings[0])) && row == Some(Completed) && result == Some(extract.brings[0])
      && ledger == PathSet(scrape.brings) + PathSet(extract.brings)
  }

  /** A run whose scrape goes well and whose LLM settings then cannot be read. */
  predicate LosesSettings(w: World) {
    Calm(w(0)) && Calm(w(1)) && w(1).brings != [] && Fails(w(2))
  }

  datatype Answer<T> = Answered(value: T) | ActivityError

  datatype LlmStep = NoLlm | HasLlm | LlmUnusable

  datatype Step = Stored(paths: seq<Path>) | StepFailed | StepCancelled

  datatype End = Returned(result: Option<Path>) | RaisedCancel | RaisedFailure

  /** How `_run` is left: for good, or by an exception `run` turns into a failure. */
  datatype Left = Ended(end: End) | Raised

  predicate NoResult(left: Left) {
    left.Ended? ==> !(left.end.Returned? && left.end.result.Some?)
  }

  datatype Recorded = Continue | Out(left: Left)

  /** What the workflow does with objects: a list for record_job_objects, which may fail for good, or a
      discard list of finish_job_run. */
  datatype Handover = ToRecord(paths: set<Path>, failed: bool) | ToDiscard(paths: set<Path>)

  /** One stage's objects, handed over once: to recording or to one discard list, or to both, in that
      order, when recording failed. */
  predicate HandedOnce(h: seq<Handover>, paths: set<Path>) {
    h == [ToDiscard(paths)] || h == [ToRecord(paths, false)] || h == [ToRecord(paths, true), ToDiscard(paths)]
  }

  /** All that was stored, stage by stage. */
  ghost predicate Disposed(h: seq<Handover>, stored: set<Path>) {
    || (h == [] && stored == {})
    || HandedOnce(h, stored)
    || (exists k, first :: 0 <= k <= |h| && first <= stored && HandedOnce(h[..k], first) && HandedOnce(h[k..], stored - first))
  }

  lemma NothingHanded(stored: set<Path>)
    ensures Disposed([], stored) <==> stored == {}
  {
  }

  lemma StagesHanded(before: seq<Handover>, after: seq<Handover>, first: set<Path>, stored: set<Path>)
    requires HandedOnce(before, first) && before <= after && first <= stored
    requires if stored == first then after == before else HandedOnce(after[|before|..], stored - first)
    ensures Disposed(after, stored)
  {
    assert after[..|before|] == before;
  }

  function Discarding(discard: seq<Path>): seq<Handover> {
    if discard == [] then [] else [ToDiscard(PathSet(discard))]
  }

  function PathSet(paths: seq<Path>): set<Path> {
    set p | p in paths
  }

  /** A run's state as `_stopped` reads it: out of the workflow's hands. */
  function StoppedBy(state: Row, cancelRequested: bool): End {
    if state == Some(Cancelled) && cancelRequested then RaisedCancel
    else if state == Some(Failed) then RaisedFailure
    else Returned(None)
  }

  /** How a run ends whose row is out of its hands: a failed row is a failure, a cancelled one a cancel if the
      workflow was told of one; else it ends quietly, without a result. */
  predicate Stopped(left: Left, row: Row, cancelRequested: bool) {
    && left.Ended?
    && (row == Some(Failed) <==> left.end.RaisedFailure?)
    && (row == Some(Cancelled) && cancelRequested <==> left.end.RaisedCancel?)
    && (left.end.Returned? ==> left.end.result.None?)
  }

  class JobWorkflow {
    const world: World
    var awaits: nat
    var cancelRequested: bool
    // What the activities and the API share: the run's row, its rows in the ledger, the bucket.
    var row: Row
    var resultPath: Option<Path>
    var ledger: set<Path>
    var bucket: set<Path>
    var stored: set<Path>          // by the scrape and the extraction
    // What happened, for the record.
    ghost var writes: seq<Write>
    ghost var rows: seq<Row>
    ghost var undeleted: set<Path> // deletes that failed
    ghost var handed: seq<Handover>
    ghost var unread: bool         // read_llm_settings failed for good
    ghost var unfinished: bool     // a finish_job_run with objects to discard failed for good

    /** The row is where its writes have brought it, and a completed run's result is charged. */
    ghost predicate Valid()
      reads this
    {
      && History(writes, rows) && rows[|rows| - 1] == row
      && (row == Some(Completed) ==> resultPath.Some? && resultPath.value in ledger)
      && (forall p :: p in undeleted ==> Stuck(p))
    }

    /** Some delete of it fails. */
    ghost predicate Stuck(p: Path) {
      exists i :: p in world(i).stuck
    }

    lemma StuckThen(i: nat)
      ensures forall p :: p in world(i).stuck ==> Stuck(p)
    {
    }

    /** Charged, or gone, or at least given up to a delete that failed. */
    ghost predicate Accounted(paths: set<Path>)
      reads this
    {
      forall p :: p in paths ==> p in ledger || p !in bucket || p in undeleted
    }

    ghost predicate NothingYet()
      reads this
    {
      ledger == {} && stored == {} && undeleted == {} && handed == [] && !unread && !unfinished
    }

    /** What no await undoes. */
    twostate predicate Kept()
      reads this
    {
      && old(rows) <= rows && (old(unread) ==> unread) && (old(unfinished) ==> unfinished) && old(stored) <= stored
      && (forall p :: old(p in stored && (p in ledger || p !in bucket || p in undeleted)) ==>
            p in ledger || p !in bucket || p in undeleted)
      && (forall p :: old(p in ledger) ==> p in ledger || row.None?)
      && (old(row.None?) ==> row.None?)
    }

    /** Nothing charged yet, and what is in the bucket stays. */
    twostate predicate Untouched()
      reads this
    {
      old(ledger) == {} ==> ledger == {} && bucket == old(bucket) && undeleted == old(undeleted)
    }

    constructor (world: World)
      ensures this.world == world && awaits == 0 && !cancelRequested
      ensures Valid() && row == Some(Pending) && NothingYet()
    {
      this.world := world;
      awaits, cancelRequested, row, resultPath, ledger, bucket, stored := 0, false, Some(Pending), None, {}, {}, {};
      writes, rows, undeleted, handed, unread, unfinished := [], [Some(Pending)], {}, [], false, false;
    }

    method Put(w: Write)
      requires Valid()
      requires Written(row, w) == Some(Completed) ==> resultPath.Some? && resultPath.value in ledger
      modifies `row, `rows, `writes
      ensures Valid() && row == Written(old(row), w) && rows == old(rows) + [row]
    {
      row := Written(row, w);
      rows := rows + [row];
      writes := writes + [w];
    }

    /** The API meanwhile. A run is deleted with everything the ledger holds of it. */
    method Elsewhere(acts: seq<ApiAct>)
      requires Valid()
      modifies `row, `rows, `writes, `ledger, `bucket
      ensures Valid() && Kept() && Untouched()
      ensures ledger <= old(ledger)
      ensures acts == [] ==> row == old(row) && ledger == old(ledger) && bucket == old(bucket)
    {
      hide History, Written;
      for i := 0 to |acts|
        invariant Valid() && Kept() && Untouched() && ledger <= old(ledger)
        invariant i == 0 ==> row == old(row) && ledger == old(ledger) && bucket == old(bucket)
      {
        Act(acts[i]);
      }
    }

    method Act(a: ApiAct)
      requires Valid()
      modifies `row, `rows, `writes, `ledger, `bucket
      ensures Valid() && Kept() && Untouched() && ledger <= old(ledger)
    {
      Put(AsWrite(a));
      if a.DeletesRun? {
        bucket := bucket - ledger;
        ledger := {};
      }
    }

    /** `discard_unrecorded`. */
    method Discard(paths: seq<Path>, stuck: set<Path>)
      requires Valid() && forall p :: p in stuck ==> Stuck(p)
      modifies `bucket, `undeleted
      ensures Valid() && Kept() && Accounted(PathSet(paths))
      ensures bucket == old(bucket) - (PathSet(paths) - ledger - stuck)
      ensures paths == [] ==> bucket == old(bucket) && undeleted == old(undeleted)
    {
      for i := 0 to |paths|
        invariant Kept() && Accounted(PathSet(paths[..i])) && forall p :: p in undeleted ==> Stuck(p)
        invariant bucket == old(bucket) - (PathSet(paths[..i]) - ledger - stuck)
        invariant i == 0 ==> bucket == old(bucket) && undeleted == old(undeleted)
      {
        assert PathSet(paths[..i + 1]) == PathSet(paths[..i]) + {paths[i]};
        if paths[i] !in ledger {
          if paths[i] in stuck {
            undeleted := undeleted + {paths[i]};
          } else {
            bucket := bucket - {paths[i]};
          }
        }
      }
      assert paths[..|paths|] == paths;
    }

    /** A cancel of the workflow while something is awaited is noted. */
    method Await() returns (m: Moment)
      modifies `awaits, `cancelRequested
      ensures m == world(old(awaits)) && awaits == old(awaits) + 1 && cancelRequested == (old(cancelRequested) || m.cancel)
    {
      m := world(awaits);
      awaits := awaits + 1;
      cancelRequested := cancelRequested || m.cancel;
    }

    // ----- the activities: each may fail for good, having done its work or not ----------------------------

    /** job_run_started and job_run_processing: from one active state to the next. */
    method Mirror(w: Write) returns (answer: Answer<Row>)
      requires Valid() && (w.MirrorsRunning? || w.MirrorsProcessing?)
      modifies `row, `rows, `writes, `ledger, `bucket, `awaits, `cancelRequested
      ensures Valid() && Kept() && Untouched() && awaits == old(awaits) + 1
      ensures Calm(world(old(awaits))) ==>
                && answer == Answered(row) && row == Written(old(row), w) && ledger == old(ledger)
                && cancelRequested == old(cancelRequested)
    {
      var m := Await();
      Elsewhere(m.before);
      if m.done {
        Put(w);
      }
      answer := if !m.done || m.lost then ActivityError else Answered(row);
      Elsewhere(m.after);
    }

    method ReadLlmSettings() returns (answer: Answer<LlmStep>)
      requires Valid()
      modifies `row, `rows, `writes, `ledger, `bucket, `awaits, `cancelRequested, `unread
      ensures Valid() && Kept() && Untouched() && awaits == old(awaits) + 1
      ensures unread == (old(unread) || answer.ActivityError?)
      ensures var m := world(old(awaits)); answer == if !m.done || m.lost then ActivityError else Answered(m.llm)
      ensures Calm(world(old(awaits))) ==>
                row == old(row) && ledger == old(ledger) && bucket == old(bucket) && cancelRequested == old(cancelRequested)
    {
      var m := Await();
      Elsewhere(m.before);
      answer := if !m.done || m.lost then ActivityError else Answered(m.llm);
      unread := unread || answer.ActivityError?;
    }

    /** The transaction of record_job_objects: all of them charged; or, over the limit, all discarded and
        the run failed; or, on a run no longer active, discarded. */
    method ChargeAll(paths: seq<Path>, m: Moment)
      requires Valid() && PathSet(paths) <= stored && forall p :: p in m.stuck ==> Stuck(p)
      modifies `row, `rows, `writes, `ledger, `bucket, `undeleted
      ensures Valid() && Kept() && Accounted(PathSet(paths))
      ensures ledger == if Active(old(row)) && !m.overLimit then old(ledger) + PathSet(paths) else old(ledger)
      ensures row == if m.overLimit then Written(old(row), OverLimit) else old(row)
      ensures m.overLimit || !Active(old(row)) ==> bucket == old(bucket) - (PathSet(paths) - old(ledger) - m.stuck)
    {
      hide PathSet;
      if !Active(row) {
        Discard(paths, m.stuck);
      } else if m.overLimit {
        Discard(paths, m.stuck);
        Put(OverLimit);
      } else {
        ledger := ledger + PathSet(paths);
      }
    }

    /** record_job_objects. */
    method RecordJobObjects(paths: seq<Path>) returns (answer: Answer<Row>)
      requires Valid() && PathSet(paths) <= stored
      modifies `row, `rows, `writes, `ledger, `bucket, `undeleted, `awaits, `cancelRequested, `handed
      ensures Valid() && Kept() && awaits == old(awaits) + 1
      ensures handed == old(handed) + [ToRecord(PathSet(paths), answer.ActivityError?)]
      ensures answer.Answered? ==> Accounted(PathSet(paths))
      ensures answer.Answered? && Active(answer.value) ==> PathSet(paths) <= ledger || row.None?
      // Over the limit an active run fails and nothing is charged; and what is not charged is deleted if it can be.
      ensures Calm(world(old(awaits))) && (world(old(awaits)).overLimit || !Active(old(row))) ==>
                bucket == old(bucket) - (PathSet(paths) - old(ledger) - world(old(awaits)).stuck)
      ensures var m := world(old(awaits));
              && (m.overLimit ==> ledger <= old(ledger) && (answer.Answered? ==> !Active(answer.value)))
              && (m.overLimit && Calm(m) && Active(old(row)) ==> answer == Answered(Some(Failed)) && row == Some(Failed))
      // Undisturbed below it, an active run is charged for them and goes on; any other is found as it is.
      ensures var m := world(old(awaits));
              && (Calm(m) ==> cancelRequested == old(cancelRequested))
              && (Calm(m) && Active(old(row)) && !m.overLimit ==>
                    answer == Answered(old(row)) && row == old(row) && ledger == old(ledger) + PathSet(paths))
              && (Calm(m) && !Active(old(row)) ==> answer == Answered(old(row)) && row == old(row) && ledger == old(ledger))
    {
      hide History, PathSet, Stuck;
      StuckThen(awaits);
      var m := Await();
      Elsewhere(m.before);
      handed := handed + [ToRecord(PathSet(paths), !m.done || m.lost)];
      if !m.done {
        return ActivityError;
      }
      ChargeAll(paths, m);
      answer := if m.lost then ActivityError else Answered(row);
      Elsewhere(m.after);
    }

    /** Its transaction: the discard list first, whatever the outcome; then an active run to its outcome. */
    method Finish(to: Terminal, result: Option<Path>, discard: seq<Path>, stuck: set<Path>)
      requires Valid() && PathSet(discard) <= stored && forall p :: p in stuck ==> Stuck(p)
      requires to.Completed? ==> result.Some? && (result.value in ledger || row.None?)
      modifies `row, `rows, `writes, `resultPath, `bucket, `undeleted
      ensures Valid() && Kept() && Accounted(PathSet(discard))
      ensures discard == [] ==> bucket == old(bucket) && undeleted == old(undeleted)
      ensures row == Written(old(row), Finishes(to)) && row in rows
      ensures row == if Active(old(row)) then Some(to) else old(row)
      ensures resultPath == if Active(old(row)) && to.Completed? then result else old(resultPath)
      ensures bucket == old(bucket) - (PathSet(discard) - ledger - stuck)
    {
      Discard(discard, stuck);
      if Active(row) {
        if to.Completed? {
          resultPath := result;
        }
        Put(Finishes(to));
      }
    }

    method FinishMeanwhile(to: Terminal, result: Option<Path>, discard: seq<Path>, m: Moment) returns (found: Row)
      requires Valid() && PathSet(discard) <= stored && forall p :: p in m.stuck ==> Stuck(p)
      requires to.Completed? ==> result.Some? && (result.value in ledger || row.None?)
      modifies `row, `rows, `writes, `resultPath, `ledger, `bucket, `undeleted
      ensures Valid() && Kept() && Accounted(PathSet(discard)) && found in rows
      ensures discard == [] ==> Untouched()
      ensures m.before == [] == m.after ==>
                && found == row == (if Active(old(row)) then Some(to) else old(row)) && ledger == old(ledger)
                && resultPath == (if Active(old(row)) && to.Completed? then result else old(resultPath))
                && bucket == old(bucket) - (PathSet(discard) - ledger - m.stuck)
    {
      hide History, PathSet, Written, Stuck;
      Elsewhere(m.before);
      Finish(to, result, discard, m.stuck);
      found := row;
      Elsewhere(m.after);
    }

    /** finish_job_run. */
    method FinishJobRun(to: Terminal, result: Option<Path>, discard: seq<Path>) returns (answer: Answer<Row>)
      requires Valid() && PathSet(discard) <= stored
      requires to.Completed? ==> result.Some? && (result.value in ledger || row.None?)
      modifies `row, `rows, `writes, `resultPath, `ledger, `bucket, `undeleted
      modifies `awaits, `cancelRequested, `unfinished, `handed
      ensures Valid() && Kept() && awaits == old(awaits) + 1
      ensures discard == [] ==> Untouched()
      ensures unfinished == (old(unfinished) || (answer.ActivityError? && discard != []))
      ensures handed == old(handed) + Discarding(discard)
      ensures answer.Answered? ==> Accounted(PathSet(discard))
      ensures answer == Answered(Some(Completed)) ==> Some(Completed) in rows
      // Undisturbed, it takes an active run to the outcome, with its result, and finds any other as it is.
      ensures Calm(world(old(awaits))) ==>
                && answer == Answered(row) && row == (if Active(old(row)) then Some(to) else old(row))
                && cancelRequested == old(cancelRequested) && ledger == old(ledger)
                && resultPath == (if Active(old(row)) && to.Completed? then result else old(resultPath))
                && bucket == old(bucket) - (PathSet(discard) - ledger - world(old(awaits)).stuck)
    {
      hide History, Discarding, PathSet, Stuck;
      StuckThen(awaits);
      var m := Await();
      handed := handed + Discarding(discard);
      unfinished := unfinished || (Fails(m) && discard != []);
      if !m.done {
        Elsewhere(m.before);
        return ActivityError;
      }
      var found := FinishMeanwhile(to, result, discard, m);
      answer := if m.lost then ActivityError else Answered(found);
    }

    /** A scrape, its wait for the host included, or an extraction. What it stores it names afresh. */
    method Work(mayCancel: bool) returns (step: Step)
      requires Valid()
      modifies `row, `rows, `writes, `ledger, `bucket, `awaits, `cancelRequested, `stored
      ensures Valid() && Kept() && awaits == old(awaits) + 1
      ensures step.Stored? ==> step.paths != [] && PathSet(step.paths) !! old(stored) && PathSet(step.paths) <= bucket
      ensures step.Stored? ==> stored == old(stored) + PathSet(step.paths)
      ensures !step.Stored? ==> stored == old(stored)
      ensures step.StepCancelled? ==> cancelRequested && mayCancel
      ensures old(ledger) == {} ==> ledger == {}
      ensures var m := world(old(awaits));
              Calm(m) && m.brings != [] && PathSet(m.brings) !! old(stored) ==>
                step == Stored(m.brings) && cancelRequested == old(cancelRequested)
      ensures var m := world(old(awaits));
              && (Calm(m) ==> row == old(row) && ledger == old(ledger) && cancelRequested == old(cancelRequested))
              && (Calm(m) && (m.brings == [] || !(PathSet(m.brings) !! old(stored))) ==> step.StepFailed?)
              && (mayCancel && m.interrupted && m.before == [] ==> step.StepCancelled? && row == old(row))
    {
      var m := Await();
      Elsewhere(m.before);
      if mayCancel && m.interrupted {
        cancelRequested := true;
        return StepCancelled;
      }
      if !m.done || m.brings == [] || !(PathSet(m.brings) !! stored) {
        return StepFailed;
      }
      bucket := bucket + PathSet(m.brings);
      stored := stored + PathSet(m.brings);
      step := Stored(m.brings);
    }

    // ----- the workflow --------------------------------------------------------------------------------------

    /** `_fail`. */
    method Fail(discard: seq<Path>) returns (left: Left)
      requires Valid() && PathSet(discard) <= stored
      modifies `row, `rows, `writes, `resultPath, `ledger, `bucket, `undeleted
      modifies `awaits, `cancelRequested, `unfinished, `handed
      ensures Valid() && Kept()
      ensures discard == [] ==> Untouched() && unfinished == old(unfinished)
      ensures handed == old(handed) + Discarding(discard)
      ensures unfinished || Accounted(PathSet(discard))
      ensures NoResult(left)
      ensures Calm(world(old(awaits))) && Active(old(row)) ==> left == Ended(RaisedFailure) && row == Some(Failed)
      ensures Calm(world(old(awaits))) && !Active(old(row)) ==> row == old(row) && Stopped(left, old(row), old(cancelRequested))
      ensures Calm(world(old(awaits))) ==> ledger == old(ledger)
    {
      var answer := FinishJobRun(Failed, None, discard);
      if answer.ActivityError? {
        NoneIsEmpty(discard);
        return Raised;
      }
      left := Ended(if answer.value == Some(Failed) then RaisedFailure else StoppedBy(answer.value, cancelRequested));
    }

    /** `_cancel`. */
    method Cancel(discard: seq<Path>) returns (left: Left)
      requires Valid() && PathSet(discard) <= stored
      modifies `row, `rows, `writes, `resultPath, `ledger, `bucket, `undeleted
      modifies `awaits, `cancelRequested, `unfinished, `handed
      ensures Valid() && Kept()
      ensures discard == [] ==> Untouched() && unfinished == old(unfinished)
      ensures handed == old(handed) + Discarding(discard)
      ensures unfinished || Accounted(PathSet(discard))
      ensures NoResult(left)
      ensures Calm(world(old(awaits))) && Active(old(row)) ==>
                row == Some(Cancelled) && left == Ended(if old(cancelRequested) then RaisedCancel else Returned(None))
      ensures Calm(world(old(awaits))) && !Active(old(row)) ==> row == old(row) && Stopped(left, old(row), old(cancelRequested))
      ensures Calm(world(old(awaits))) ==> ledger == old(ledger)
    {
      var answer := FinishJobRun(Cancelled, None, discard);
      if answer.ActivityError? {
        NoneIsEmpty(discard);
        return Raised;
      }
      left := Ended(StoppedBy(answer.value, cancelRequested));
    }

    lemma NoneIsEmpty(paths: seq<Path>)
      ensures paths == [] ==> PathSet(paths) == {}
    {
    }

    /** `_record`, and the check of the state every caller makes on what it returns. */
    method Record(paths: seq<Path>, expected: Status) returns (recorded: Recorded)
      requires Valid() && paths != [] && Active(Some(expected)) && PathSet(paths) <= stored
      modifies `row, `rows, `writes, `resultPath, `ledger, `bucket, `undeleted
      modifies `awaits, `cancelRequested, `unfinished, `handed
      ensures Valid() && Kept()
      ensures old(handed) <= handed && HandedOnce(handed[|old(handed)|..], PathSet(paths))
      ensures unfinished || Accounted(PathSet(paths))
      ensures recorded.Continue? ==> PathSet(paths) <= ledger || row.None?
      ensures recorded.Out? ==> NoResult(recorded.left)
      ensures var m := world(old(awaits));
              && (Calm(m) && old(row) == Some(expected) && !m.overLimit ==>
                    && recorded.Continue? && row == old(row) && cancelRequested == old(cancelRequested)
                    && ledger == old(ledger) + PathSet(paths) && awaits == old(awaits) + 1)
              && (Calm(m) && Active(old(row)) && m.overLimit ==> recorded == Out(Ended(RaisedFailure)) && row == Some(Failed))
              && (Calm(m) && !Active(old(row)) ==>
                    recorded.Out? && Stopped(recorded.left, old(row), old(cancelRequested)) && row == old(row)
                    && ledger == old(ledger))
    {
      var answer := RecordJobObjects(paths);
      if answer.ActivityError? {
        var left := Fail(paths);
        // A `_fail` that returns leaves "gone", on which the caller stops.
        return Out(if left.Ended? && left.end.Returned? then Ended(Returned(None)) else left);
      }
      var stop := Out(Ended(StoppedBy(answer.value, cancelRequested)));
      recorded := if answer.value == Some(expected) then Continue else stop;
    }

    /** `_complete`. */
    method Complete(path: Path) returns (left: Left)
      requires Valid() && (path in ledger || row.None?)
      modifies `row, `rows, `writes, `resultPath, `ledger, `bucket, `undeleted
      modifies `awaits, `cancelRequested, `unfinished, `handed
      ensures Valid() && Kept() && unfinished == old(unfinished) && handed == old(handed)
      ensures NoResult(left) || (left.end.result.value == path && Some(Completed) in rows)
      ensures Calm(world(old(awaits))) && Active(old(row)) ==>
                left == Ended(Returned(Some(path))) && row == Some(Completed) && resultPath == Some(path) && ledger == old(ledger)
      ensures Calm(world(old(awaits))) && !Active(old(row)) && old(row) != Some(Completed) ==>
                row == old(row) && Stopped(left, old(row), old(cancelRequested))
    {
      var answer := FinishJobRun(Completed, Some(path), []);
      if answer.ActivityError? {
        return Raised;
      }
      var end := if answer.value == Some(Completed) then Returned(Some(path)) else StoppedBy(answer.value, cancelRequested);
      left := Ended(end);
    }

    /** `_run` up to the scrape's objects: None of them yet, or an end. */
    method Scrape() returns (scraped: Option<seq<Path>>, left: Left)
      requires Valid() && ledger == {} && stored == {}
      modifies `row, `rows, `writes, `resultPath, `ledger, `bucket, `undeleted
      modifies `awaits, `cancelRequested, `unfinished, `handed, `stored
      ensures Valid() && old(rows) <= rows && ledger == {}
      ensures unread == old(unread) && unfinished == old(unfinished) && handed == old(handed)
      ensures scraped.None? ==> stored == {} && NoResult(left)
      ensures scraped.Some? ==> scraped.value != [] && stored == PathSet(scraped.value) <= bucket && undeleted == old(undeleted)
      ensures var m := world(old(awaits));
              !old(cancelRequested) && Calm(m) && m.brings == [] && Calm(world(old(awaits) + 1)) && !Active(old(row)) ==>
                scraped.None? && Stopped(left, old(row), false) && row == old(row)
      ensures var m := world(old(awaits));
              !old(cancelRequested) && Calm(m) && m.brings != [] ==>
                scraped == Some(m.brings) && !cancelRequested && awaits == old(awaits) + 1 && row == old(row)
      ensures var m := world(old(awaits));
              !old(cancelRequested) && Calm(m) && m.brings == [] && Calm(world(old(awaits) + 1)) && Active(old(row)) ==>
                scraped.None? && left == Ended(RaisedFailure) && row == Some(Failed)
      // A cancel in the wait for the host, when nothing has been scraped.
      ensures var m := world(old(awaits));
              !old(cancelRequested) && m.interrupted && m.before == [] && Calm(world(old(awaits) + 1)) && Active(old(row)) ==>
                scraped.None? && left == Ended(RaisedCancel) && row == Some(Cancelled)
    {
      scraped, left := None, Raised;
      if cancelRequested {
        left := Cancel([]);
        return;
      }
      var step := Work(true);
      match step {
        case StepFailed => left := Fail([]);
        case StepCancelled => left := Cancel([]);
        case Stored(paths) => scraped := Some(paths);
      }
    }

    /** From the scrape to its charge. */
    method Charge(paths: seq<Path>) returns (charged: Recorded, llm: LlmStep)
      requires Valid() && ledger == {} && stored == PathSet(paths) <= bucket && paths != [] && !unread && handed == []
      modifies `row, `rows, `writes, `resultPath, `ledger, `bucket, `undeleted
      modifies `awaits, `cancelRequested, `unfinished, `handed, `unread
      ensures Valid() && old(rows) <= rows && stored == old(stored)
      ensures unread ==> charged == Out(Raised) && ledger == {} && bucket == old(bucket)
                         && undeleted == old(undeleted) && unfinished == old(unfinished)
      ensures unread <==> !old(cancelRequested) && Fails(world(old(awaits)))
      ensures if unread then handed == [] else HandedOnce(handed, stored)
      ensures unread || unfinished || Accounted(stored)
      ensures charged.Continue? ==> stored <= ledger || row.None?
      ensures charged.Out? ==> NoResult(charged.left)
      ensures var m, n := world(old(awaits)), world(old(awaits) + 1);
              !old(cancelRequested) && Calm(m) && Calm(n) && old(row) == Some(Running) ==>
                && (m.llm.LlmUnusable? || n.overLimit ==> charged == Out(Ended(RaisedFailure)) && row == Some(Failed))
                && (!m.llm.LlmUnusable? && !n.overLimit ==>
                      && charged.Continue? && llm == m.llm && row == Some(Running) && !cancelRequested
                      && ledger == stored && awaits == old(awaits) + 2)
      ensures !old(cancelRequested) && Calm(world(old(awaits))) && Calm(world(old(awaits) + 1)) && !Active(old(row)) ==>
                charged.Out? && Stopped(charged.left, old(row), false) && row == old(row) && ledger == {}
      ensures old(cancelRequested) && Calm(world(old(awaits))) && Active(old(row)) ==>
                charged == Out(Ended(RaisedCancel)) && row == Some(Cancelled)
    {
      llm := NoLlm;
      if cancelRequested {
        var left := Cancel(paths);
        return Out(left), llm;
      }
      var settings := ReadLlmSettings();
      if settings.ActivityError? {
        return Out(Raised), llm;
      }
      llm := settings.value;
      if llm.LlmUnusable? {
        var left := Fail(paths);
        return Out(left), llm;
      }
      charged := Record(paths, Running);
    }

    /** The LLM step. */
    method Extract() returns (left: Left)
      requires Valid()
      modifies `row, `rows, `writes, `resultPath, `ledger, `bucket, `undeleted
      modifies `awaits, `cancelRequested, `unfinished, `handed, `stored
      ensures Valid() && Kept()
      ensures old(handed) <= handed
      ensures if stored == old(stored) then handed == old(handed) else HandedOnce(handed[|old(handed)|..], stored - old(stored))
      ensures unfinished || Accounted(stored - old(stored))
      ensures ResultIsOurs(left)
      ensures !old(cancelRequested) && old(row) == Some(Running) && CalmFrom(world, old(awaits)) ==>
                var m := world(old(awaits) + 1);
                if m.brings == [] || !(PathSet(m.brings) !! old(stored)) || world(old(awaits) + 2).overLimit then
                  left == Ended(RaisedFailure) && row == Some(Failed)
                else
                  && left == Ended(Returned(Some(m.brings[0]))) && row == Some(Completed)
                  && resultPath == Some(m.brings[0]) && ledger == old(ledger) + PathSet(m.brings)
    {
      if cancelRequested {
        left := Cancel([]);
        return;
      }
      var state := Mirror(MirrorsProcessing);
      if state.ActivityError? {
        return Raised;
      }
      if state.value != Some(Processing) {
        return Ended(StoppedBy(state.value, cancelRequested));
      }
      var step := Work(false);
      if !step.Stored? {
        left := Fail([]);
        return;
      }
      assert stored - old(stored) == PathSet(step.paths);
      assert step.paths[0] in PathSet(step.paths);
      left := ChargeExtracted(step.paths);
    }

    method ChargeExtracted(paths: seq<Path>) returns (left: Left)
      requires Valid() && paths != [] && PathSet(paths) <= stored
      modifies `row, `rows, `writes, `resultPath, `ledger, `bucket, `undeleted
      modifies `awaits, `cancelRequested, `unfinished, `handed
      ensures Valid() && Kept()
      ensures old(handed) <= handed && HandedOnce(handed[|old(handed)|..], PathSet(paths))
      ensures unfinished || Accounted(PathSet(paths))
      ensures ResultIsOurs(left)
      ensures var m := world(old(awaits));
              !old(cancelRequested) && old(row) == Some(Processing) && Calm(m) && Calm(world(old(awaits) + 1)) ==>
                if m.overLimit then left == Ended(RaisedFailure) && row == Some(Failed)
                else
                  && left == Ended(Returned(Some(paths[0]))) && row == Some(Completed) && resultPath == Some(paths[0])
                  && ledger == old(ledger) + PathSet(paths)
      ensures old(cancelRequested) && Calm(world(old(awaits))) && Active(old(row)) ==>
                left == Ended(RaisedCancel) && row == Some(Cancelled)
    {
      if cancelRequested {
        left := Cancel(paths);
        return;
      }
      var recorded := Record(paths, Processing);
      if recorded.Out? {
        return recorded.left;
      }
      assert paths[0] in PathSet(paths);
      left := Complete(paths[0]);
    }

    /** A returned result is an object of this run, and the row was completed. */
    ghost predicate ResultIsOurs(left: Left)
      reads this
    {
      NoResult(left) || (left.end.result.value in stored && Some(Completed) in rows)
    }

    /** `_run` from there on: complete, or the LLM step. */
    method AfterCharge(paths: seq<Path>, llm: LlmStep) returns (left: Left)
      requires Valid() && paths != [] && stored == PathSet(paths) && (PathSet(paths) <= ledger || row.None?)
      modifies `row, `rows, `writes, `resultPath, `ledger, `bucket, `undeleted
      modifies `awaits, `cancelRequested, `unfinished, `handed, `stored
      ensures Valid() && Kept() && old(handed) <= handed && ResultIsOurs(left)
      ensures if stored == old(stored) then handed == old(handed) else HandedOnce(handed[|old(handed)|..], stored - old(stored))
      ensures unfinished || Accounted(stored - old(stored))
      ensures !old(cancelRequested) && old(row) == Some(Running) && CalmFrom(world, old(awaits)) ==>
                var m := world(old(awaits) + 1);
                if llm.NoLlm? then
                  && left == Ended(Returned(Some(paths[0]))) && row == Some(Completed) && resultPath == Some(paths[0])
                  && ledger == old(ledger)
                else if m.brings == [] || !(PathSet(m.brings) !! PathSet(paths)) || world(old(awaits) + 2).overLimit then
                  left == Ended(RaisedFailure) && row == Some(Failed)
                else
                  && left == Ended(Returned(Some(m.brings[0]))) && row == Some(Completed)
                  && resultPath == Some(m.brings[0]) && ledger == old(ledger) + PathSet(m.brings)
    {
      hide History, HandedOnce, Stopped;
      assert paths[0] in PathSet(paths);
      if llm.NoLlm? {
        left := Complete(paths[0]);
      } else {
        left := Extract();
      }
    }

    /** `_run`. */
    method Inner() returns (left: Left)
      requires Valid() && NothingYet()
      modifies this
      ensures !old(cancelRequested) && old(row) == Some(Running) && CalmFrom(world, old(awaits)) ==>
                left.Ended? && EndsAsItShould(world, old(awaits), left.end, row, resultPath, ledger)
      // A run the API has cancelled or deleted meanwhile stays as it is and is charged nothing.
      ensures !old(cancelRequested) && !Active(old(row)) && CalmFrom(world, old(awaits)) ==>
                Stopped(left, old(row), false) && row == old(row) && ledger == {}
      ensures Valid() && old(rows) <= rows && ResultIsOurs(left)
      ensures unread ==> left.Raised? && !unfinished
      ensures unread ==> ledger == {} && stored != {} && stored <= bucket && undeleted == {}
      ensures unread || unfinished || Accounted(stored)
      ensures if unread then handed == [] else Disposed(handed, stored)
      ensures var a := old(awaits);
              !old(cancelRequested) && Calm(world(a)) && world(a).brings != [] && Fails(world(a + 1)) ==> unread
    {
      hide History, Stopped, Disposed, HandedOnce;
      NothingHanded({});
      var scraped, end := Scrape();
      if scraped.None? {
        return end;
      }
      var paths := scraped.value;
      assert paths[0] in PathSet(paths);
      var charged, llm := Charge(paths);
      ghost var first, h := stored, handed;
      if !unread {
        StagesHanded(h, h, first, first);
      }
      if charged.Out? {
        return charged.left;
      }
      left := AfterCharge(paths, llm);
      if !unread {
        StagesHanded(h, handed, first, stored);
      }
    }

    /** `run`, for any failures, cancels and deletions. The row's history is in order throughout; a result
        is returned only of a completed row, and is one of the run's objects. Every object stored is handed
        to recording or to one discard list, and to both only when recording failed, exactly when
        read_llm_settings did not fail for good; and then, if every finish_job_run with objects to discard
        returned, each is charged, deleted or given up to a failed delete. When it did fail, the failure is
        mirrored without a discard list and all the scrape stored stays behind, uncharged. */
    method Run() returns (end: End)
      requires Valid() && row == Some(Pending) && NothingYet()
      modifies this
      ensures Valid()
      ensures !old(cancelRequested) && CalmFrom(world, old(awaits)) ==>
                EndsAsItShould(world, old(awaits) + 1, end, row, resultPath, ledger)
      ensures LosesSettings(world) && !old(cancelRequested) && old(awaits) == 0 ==> unread
      ensures end.Returned? && end.result.Some? ==> end.result.value in stored && Some(Completed) in rows
      ensures Disposed(handed, stored) <==> !unread
      ensures forall p :: p in undeleted ==> exists i :: p in world(i).stuck
      ensures !unfinished ==> (Accounted(stored) <==> !unread)
      ensures unread ==> handed == [] && stored != {} && stored <= bucket && stored !! ledger
    {
      hide Disposed;
      NothingHanded({});
      var state := Mirror(MirrorsRunning);
      if state.ActivityError? {
        return RaisedFailure;
      }
      if state.value != Some(Running) {
        return StoppedBy(state.value, cancelRequested);
      }
      var left := Inner();
      if left.Raised? {
        ghost var before := handed;
        left := Fail([]);
        assert handed == before;
      }
      NothingHanded(stored);
      end := if left.Raised? then RaisedFailure else left.end;
    }
  }

  const PEACE := Moment([], [], false, true, false, false, {}, false, ["scrape.html"], NoLlm)

  const UNLUCKY: World := n => if n == 2 then PEACE.(done := false) else PEACE

  /** Such a run: the scrape's object is left in the bucket, uncharged and on no discard list. */
  method UnreadSettingsLeak() returns (run: JobWorkflow, end: End)
    ensures run.world == UNLUCKY && run.handed == []
    ensures run.stored != {} && run.stored <= run.bucket && run.stored !! run.ledger
  {
    run := new JobWorkflow(UNLUCKY);
    end := run.Run();
  }
}
