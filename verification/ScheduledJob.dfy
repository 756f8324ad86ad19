/** One tick of a scheduled job (api/app/workflows/scheduled_job.py): it asks for a concurrency slot on a
    doubling timer until the answer is not "waiting". Seconds. */
module ScheduledJob {
  import opened Common

  const WAIT_FIRST := 15
  const WAIT_MAX := 300
  const WAIT_CAP := 24 * 3600

  datatype Verdict = Admitted | Waiting | Skipped | Failed | Stopped

  datatype RunEnd = ChildCompleted | ChildFailed | ChildCancelled

  datatype Result = RunCompleted | RunFailed | RunCancelled | NoRun(verdict: Verdict)

  /** What admission answers the n-th ask of this tick, told or not that it is the last chance. */
  type Meter = (nat, bool) -> Verdict

  /** A full meter skips the tick on its last chance instead of letting it wait on. */
  ghost predicate LastChanceIsLast(meter: Meter) {
    forall n :: meter(n, true) != Waiting
  }

  /** The timer after the n-th wait: 15 s, doubling, at most 5 minutes. */
  function Delay(n: nat): nat {
    if n == 0 then WAIT_FIRST else Min(2 * Delay(n - 1), WAIT_MAX)
  }

  /** How long after the tick its n-th ask comes at the earliest. */
  function AskedAfter(n: nat): nat {
    if n == 0 then 0 else AskedAfter(n - 1) + Delay(n - 1)
  }

  /** 15 s, doubling, then five minutes each time. */
  lemma Waits(n: nat)
    ensures Delay(0) == 15 && Delay(1) == 30 && Delay(2) == 60 && Delay(3) == 120 && Delay(4) == 240
    ensures n >= 5 ==> Delay(n) == 300
    ensures AskedAfter(n + 1) == AskedAfter(n) + Delay(n)
  {
    if n >= 5 {
      LongRun(n);
    }
  }

  lemma {:induction false} LongRun(n: nat)
    requires n >= 5
    ensures Delay(n) == 300 && AskedAfter(n) == 465 + 300 * (n - 5)
  {
    if n == 5 {
      assert Delay(0) == 15 && Delay(1) == 30 && Delay(2) == 60 && Delay(3) == 120 && Delay(4) == 240;
      assert AskedAfter(1) == 15 && AskedAfter(2) == 45 && AskedAfter(3) == 105 && AskedAfter(4) == 225;
    } else {
      LongRun(n - 1);
    }
  }

  lemma {:induction false} LaterAsksComeLater(m: nat, n: nat)
    requires m <= n
    ensures AskedAfter(m) <= AskedAfter(n)
  {
    if m < n {
      LaterAsksComeLater(m, n - 1);
    }
  }

  /** The 293rd ask, and none before it, is certain to be past the cap. */
  lemma CapIsPassed(n: nat)
    ensures AskedAfter(n) >= WAIT_CAP <==> n >= 292
  {
    LongRun(292);
    LongRun(291);
    if n >= 292 {
      LaterAsksComeLater(292, n);
    } else {
      LaterAsksComeLater(n, 291);
    }
  }

  /** Only an admitted tick has a run, and then its result is the child's. */
  function Outcome(verdict: Verdict, end: RunEnd): Result {
    if verdict != Admitted then NoRun(verdict)
    else match end case ChildCompleted => RunCompleted case ChildFailed => RunFailed case ChildCancelled => RunCancelled
  }

  function Overrun(took: nat -> nat, n: nat): nat {
    if n == 0 then 0 else Overrun(took, n - 1) + took(n - 1)
  }

  lemma First(took: nat -> nat)
    ensures Delay(0) == WAIT_FIRST && AskedAfter(0) == 0 && Overrun(took, 0) == 0
  {
  }

  lemma Later(took: nat -> nat, n: nat)
    ensures Delay(n + 1) == Min(2 * Delay(n), WAIT_MAX)
    ensures AskedAfter(n + 1) == AskedAfter(n) + Delay(n) && Overrun(took, n + 1) == Overrun(took, n) + took(n)
  {
  }

  /** `ScheduledJobWorkflow.run`. `took`: how long the n-th ask and its timer run over; `end`: how the
      child workflow ends. At most 293 asks, however slow; every ask but the last was answered "waiting";
      the last one told so (`last`) came at the cap or after it. */
  method Tick(meter: Meter, took: nat -> nat, end: RunEnd) returns (result: Result, asks: nat, last: bool, at: nat)
    requires LastChanceIsLast(meter)
    ensures 1 <= asks <= 293
    ensures last <==> at >= WAIT_CAP
    ensures at == AskedAfter(asks - 1) + Overrun(took, asks - 1)
    ensures meter(asks - 1, last) != Waiting && forall n :: 0 <= n < asks - 1 ==> meter(n, false) == Waiting
    ensures result == Outcome(meter(asks - 1, last), end)
    ensures meter(asks - 1, last) != Admitted ==> result == NoRun(meter(asks - 1, last))
    ensures meter(asks - 1, last) == Admitted ==>
              && (result == RunCompleted <==> end == ChildCompleted) && (result == RunFailed <==> end == ChildFailed)
              && (result == RunCancelled <==> end == ChildCancelled)
  {
    hide AskedAfter, Delay, Overrun;
    First(took);
    var delay, now := WAIT_FIRST, 0;
    asks := 0;
    var verdict := Waiting;
    last, at := false, 0;
    while verdict == Waiting
      invariant verdict == Waiting ==> delay == Delay(asks) && asks <= 292
      invariant verdict == Waiting ==> now == AskedAfter(asks) + Overrun(took, asks)
      invariant verdict != Waiting ==> 1 <= asks <= 293 && at == AskedAfter(asks - 1) + Overrun(took, asks - 1)
      invariant verdict != Waiting ==> verdict == meter(asks - 1, last) && (last <==> at >= WAIT_CAP)
      invariant forall n :: 0 <= n < asks && (verdict == Waiting || n < asks - 1) ==> meter(n, false) == Waiting
      decreases verdict == Waiting, 293 - asks
    {
      CapIsPassed(asks);
      Later(took, asks);
      last, at := now >= WAIT_CAP, now;
      verdict := meter(asks, last);
      if verdict == Waiting {
        now := now + delay + took(asks);
        delay := Min(delay * 2, WAIT_MAX);
      }
      asks := asks + 1;
    }
    if verdict != Admitted {
      return NoRun(verdict), asks, last, at;
    }
    match end {
      case ChildCompleted => result := RunCompleted;
      case ChildFailed => result := RunFailed;
      case ChildCancelled => result := RunCancelled;
    }
  }

  const PROMPT: nat -> nat := n => 0

  lemma {:induction false} NoOverrun(n: nat)
    ensures Overrun(PROMPT, n) == 0
  {
    if n > 0 {
      NoOverrun(n - 1);
    }
  }

  /** The bound is reached: a meter that stays full and costs no time is asked 293 times. */
  method FullMeter() returns (asks: nat)
    ensures asks == 293
  {
    var meter: Meter := (n, last) => if last then Skipped else Waiting;
    var result, n, last, at := Tick(meter, PROMPT, ChildCompleted);
    NoOverrun(n - 1);
    CapIsPassed(n - 1);
    asks := n;
  }
}
