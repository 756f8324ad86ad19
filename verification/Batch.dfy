/** `BatchWorkflow` (api/app/workflows/batch.py): bounded fan-out of one child per run. The workflow gives
    way at its awaits only; there children end and cancels arrive in any order. */
module Batch {
  type RunId = string

  datatype Pc =
    | AtGate                     // waiting for room, between two starts
    | Gathering
    | Draining                   // a cancel came: the children are cancelled and awaited
    | Finishing(cancelled: bool) // finish_batch is called, told whether the fan-out was cancelled

  /** `started`: the runs started so far, in order; `open`: the positions in it whose child has not ended. */
  datatype State = State(pc: Pc, started: seq<RunId>, open: set<nat>, inFlight: int, cancelRequested: bool)

  datatype Params = Params(runs: seq<RunId>, maxInFlight: int)

  ghost predicate Init(s: State) {
    s == State(AtGate, [], {}, 0, false)
  }

  predicate Starts(p: Params, s: State, s': State) {
    && s.pc.AtGate? && s.inFlight < p.maxInFlight && |s.started| < |p.runs|
    && s' == s.(started := s.started + [p.runs[|s.started|]], open := s.open + {|s.started|}, inFlight := s.inFlight + 1)
  }

  /** A child ends, whatever its outcome, and its `finally` counts it out. A task that is cancelled
      before it first ran has no `finally` to run. */
  predicate ChildEnds(s: State, s': State, child: nat, counted: bool) {
    && !s.pc.Finishing? && child in s.open && (counted || s.pc.Draining?)
    && s' == s.(open := s.open - {child}, inFlight := if counted then s.inFlight - 1 else s.inFlight)
  }

  predicate Moves(p: Params, s: State, s': State) {
    || (s.pc.AtGate? && s.started == p.runs && s' == s.(pc := Gathering))
    || ((s.pc.AtGate? || s.pc.Gathering?) && s' == s.(pc := Draining))
    || (s.pc.Gathering? && s.open == {} && s' == s.(pc := Finishing(false)))
    || (s.pc.Draining? && s.open == {} && s' == s.(pc := Finishing(true), cancelRequested := true))
    || (s.pc.Finishing? && s' == s.(cancelRequested := true))
  }

  ghost predicate Next(p: Params, s: State, s': State) {
    Starts(p, s, s') || Moves(p, s, s') || exists child, counted :: ChildEnds(s, s', child, counted)
  }

  ghost predicate Trace(p: Params, t: seq<State>) {
    && t != [] && Init(t[0])
    && forall i :: 0 <= i < |t| - 1 ==> Next(p, t[i], t[i + 1])
  }

  /** What holds at every instant. */
  ghost predicate Inv(p: Params, s: State) {
    && s.started <= p.runs
    && (forall c :: c in s.open ==> c < |s.started|)
    && |s.open| <= s.inFlight <= p.maxInFlight
    && (s.pc.AtGate? || s.pc.Gathering? ==> s.inFlight == |s.open|)
    && (s.pc.Gathering? ==> s.started == p.runs)
    && (s.pc.Finishing? ==> s.open == {})
    && (s.pc.Finishing? && !s.pc.cancelled ==> s.started == p.runs)
  }

  lemma NextKeeps(p: Params, s: State, s': State)
    requires p.maxInFlight >= 1 && Inv(p, s) && Next(p, s, s')
    ensures Inv(p, s')
  {
    hide Inv, Starts, Moves, ChildEnds;
    if child, counted :| ChildEnds(s, s', child, counted) {
      EndKeeps(p, s, s', child, counted);
    } else {
      OwnStepKeeps(p, s, s');
    }
  }

  lemma EndKeeps(p: Params, s: State, s': State, child: nat, counted: bool)
    requires Inv(p, s) && ChildEnds(s, s', child, counted)
    ensures Inv(p, s')
  {
    assert s.open == s'.open + {child};
  }

  lemma OwnStepKeeps(p: Params, s: State, s': State)
    requires Inv(p, s) && (Starts(p, s, s') || Moves(p, s, s'))
    ensures Inv(p, s')
  {
  }

  /** Under every interleaving of starts, endings and cancels: runs start in order and at most once,
      unfinished children never outnumber the bound, and `finish_batch` begins only when every child
      started has ended, all runs having started unless the fan-out was cancelled. */
  lemma {:induction false} BatchInvariant(p: Params, t: seq<State>, i: nat)
    requires p.maxInFlight >= 1 && Trace(p, t) && i < |t|
    ensures Inv(p, t[i])
  {
    if i > 0 {
      hide Next, Inv;
      BatchInvariant(p, t, i - 1);
      NextKeeps(p, t[i - 1], t[i]);
    }
  }

  /** Once a cancel has reached the fan-out no further run starts. */
  lemma {:induction false} CancelStartsNoMore(p: Params, t: seq<State>, i: nat, j: nat)
    requires Trace(p, t) && i <= j < |t| && t[i].pc.Draining?
    ensures t[j].started == t[i].started && !t[j].pc.AtGate? && !t[j].pc.Gathering?
    ensures t[j].pc.Finishing? ==> t[j].pc.cancelled
  {
    if i < j {
      CancelStartsNoMore(p, t, i, j - 1);
      assert Next(p, t[j - 1], t[j]);
    }
  }

  /** While there is room and a run left, the next one may start: nothing has to end first. */
  lemma RoomIsUsed(p: Params, s: State)
    requires s.pc.AtGate? && s.inFlight < p.maxInFlight && |s.started| < |p.runs|
    ensures Next(p, s, s.(started := s.started + [p.runs[|s.started|]], open := s.open + {|s.started|},
                          inFlight := s.inFlight + 1))
  {
  }

  /** One look of the workflow at what it waits for: whether a cancel has come, and whether another child ends
      before it goes on although it could. */
  datatype Turn = Turn(cancel: bool, more: bool)

  type World = nat -> Turn

  /** A cancel came in one of these turns. */
  ghost predicate CancelComes(w: World, from: nat, to: nat) {
    exists i :: from <= i < to && w(i).cancel
  }

  lemma StartIsNext(p: Params, s: State, s': State)
    requires Starts(p, s, s')
    ensures Next(p, s, s')
  {
  }

  lemma MoveIsNext(p: Params, s: State, s': State)
    requires Moves(p, s, s')
    ensures Next(p, s, s')
  {
  }

  lemma EndIsNext(p: Params, s: State, s': State, child: nat, counted: bool)
    requires ChildEnds(s, s', child, counted)
    ensures Next(p, s, s')
  {
  }

  lemma Extended(p: Params, t: seq<State>, s: State)
    requires Trace(p, t) && Next(p, t[|t| - 1], s)
    ensures Trace(p, t + [s])
  {
    hide Next;
    var u := t + [s];
    forall i | 0 <= i < |u| - 1 ensures Next(p, u[i], u[i + 1]) {
      if i < |t| - 1 {
        assert Next(p, t[i], t[i + 1]);
      }
    }
  }

  class BatchWorkflow {
    const p: Params
    const world: World
    var turn: nat
    var inFlight: int
    var cancelRequested: bool
    var started: seq<RunId>     // the inputs of the tasks in `children`
    var open: set<nat>          // those not done
    ghost var pc: Pc
    ghost var trace: seq<State>

    ghost function Now(): State
      reads this
    {
      State(pc, started, open, inFlight, cancelRequested)
    }

    ghost predicate Valid()
      reads this
    {
      p.maxInFlight >= 1 && Trace(p, trace) && trace[|trace| - 1] == Now()
    }

    constructor (p: Params, world: World)
      requires p.maxInFlight >= 1
      ensures Valid() && this.p == p && this.world == world && pc == AtGate && |trace| == 1
      ensures started == [] && turn == 0 && !cancelRequested
    {
      this.p, this.world, turn := p, world, 0;
      inFlight, cancelRequested, started, open, pc := 0, false, [], {}, AtGate;
      trace := [State(AtGate, [], {}, 0, false)];
    }

    ghost method Log()
      requires p.maxInFlight >= 1 && Trace(p, trace) && Next(p, trace[|trace| - 1], Now())
      modifies `trace
      ensures Valid() && old(trace) <= trace
    {
      Extended(p, trace, Now());
      trace := trace + [Now()];
    }

    lemma Bounds()
      requires Valid()
      ensures Inv(p, Now())
    {
      BatchInvariant(p, trace, |trace| - 1);
    }

    method EndChild(child: nat, counted: bool)
      requires Valid() && !pc.Finishing? && child in open && (counted || pc.Draining?)
      modifies `open, `inFlight, `trace
      ensures Valid() && old(trace) <= trace && open == old(open) - {child}
      ensures counted ==> inFlight == old(inFlight) - 1
    {
      hide Next;
      ghost var s := Now();
      open := open - {child};
      if counted {
        inFlight := inFlight - 1;
      }
      EndIsNext(p, s, Now(), child, counted);
      Log();
    }

    /** Children end while the workflow awaits: at least until there is room, if `room`. A cancel may come
        first. */
    method Await(room: bool) returns (cancelled: bool)
      requires Valid() && (pc.AtGate? || pc.Gathering?)
      modifies `open, `inFlight, `trace, `turn
      ensures Valid() && old(trace) <= trace && old(turn) < turn && old(|open|) >= |open|
      ensures !cancelled ==> if room then inFlight < p.maxInFlight else open == {}
      ensures cancelled <==> CancelComes(world, old(turn), turn)
      // With room, and no child ending of itself, it goes straight on.
      ensures var t := world(old(turn));
              room && old(inFlight) < p.maxInFlight && !t.cancel && !t.more ==> turn == old(turn) + 1 && open == old(open)
    {
      hide Next;
      while true
        invariant Valid() && old(trace) <= trace && old(turn) <= turn && old(|open|) >= |open|
        invariant turn == old(turn) ==> inFlight == old(inFlight) && open == old(open)
        invariant !CancelComes(world, old(turn), turn)
        invariant room && old(inFlight) < p.maxInFlight && !world(old(turn)).cancel && !world(old(turn)).more
                  ==> turn == old(turn)
        decreases |open|
      {
        Bounds();
        cancelled := world(turn).cancel;
        var more := world(turn).more;
        turn := turn + 1;
        if cancelled || open == {} || (room && !more && inFlight < p.maxInFlight) {
          return;
        }
        var child :| child in open;
        EndChild(child, true);
      }
    }

    ghost method Move(s: State)
      requires p.maxInFlight >= 1 && Trace(p, trace) && trace[|trace| - 1] == s && Moves(p, s, Now())
      modifies `trace
      ensures Valid() && old(trace) <= trace
    {
      MoveIsNext(p, s, Now());
      hide Next;
      Log();
    }

    /** `_fan_out`; it raises when a cancel comes. */
    method FanOut() returns (cancelled: bool)
      requires Valid() && pc.AtGate? && started == []
      modifies `open, `inFlight, `started, `pc, `trace, `turn
      ensures Valid() && old(trace) <= trace && open == {} && old(turn) <= turn
      ensures pc == if cancelled then Draining else Gathering
      ensures cancelled <==> CancelComes(world, old(turn), turn)
      ensures started <= p.runs && (!cancelled ==> started == p.runs)
    {
      hide Next;
      cancelled := false;
      while |started| < |p.runs| && !cancelled
        invariant Valid() && old(trace) <= trace && pc.AtGate?
        invariant started <= p.runs && old(turn) <= turn
        invariant cancelled <==> CancelComes(world, old(turn), turn)
        decreases |p.runs| - |started|, !cancelled
      {
        cancelled := Await(true);
        if !cancelled {
          StartOne();
        }
      }
      ghost var s := Now();
      if !cancelled {
        assert started == p.runs;
        pc := Gathering;
        Move(s);
        cancelled := Await(false);
        s := Now();
      }
      if cancelled {
        pc := Draining;
        Move(s);
        Drain();
      }
    }

    method StartOne()
      requires Valid() && pc.AtGate? && inFlight < p.maxInFlight && started < p.runs
      modifies `open, `inFlight, `started, `trace
      ensures Valid() && old(trace) <= trace
      ensures started <= p.runs && |started| == |old(started)| + 1
      ensures inFlight == old(inFlight) + 1 && open == old(open) + {|old(started)|}
    {
      hide Next;
      ghost var s := Now();
      inFlight := inFlight + 1;
      open := open + {|started|};
      started := started + [p.runs[|started|]];
      StartIsNext(p, s, Now());
      Log();
    }

    method Drain()
      requires Valid() && pc.Draining?
      modifies `open, `inFlight, `trace
      ensures Valid() && old(trace) <= trace && open == {}
    {
      while open != {}
        invariant Valid() && old(trace) <= trace
        decreases |open|
      {
        var child :| child in open;
        var counted: bool := *;
        EndChild(child, counted);
      }
    }

    /** A whole run, whatever the children and the cancels do: it ends; each prefix of what happened is a
        trace of the protocol; nothing is open when `finish_batch` is called; it is told of a cancel exactly
        when one came during the fan-out, and otherwise every run was started. `raises`: the workflow itself
        ends cancelled. */
    method Run(answer: string, late: bool) returns (told: bool, raises: bool)
      requires Valid() && |trace| == 1 && pc == AtGate && started == [] && !cancelRequested
      modifies this
      ensures Valid() && forall i :: 0 <= i < |trace| ==> Inv(p, trace[i])
      ensures pc == Finishing(told) && open == {} && started <= p.runs
      ensures !told ==> started == p.runs
      ensures raises <==> answer == "cancelled" && cancelRequested
      ensures told <==> CancelComes(world, old(turn), turn)
      ensures cancelRequested <==> told || late
    {
      hide Next;
      told := FanOut();
      ghost var s := Now();
      cancelRequested := cancelRequested || told;
      pc := Finishing(told);
      Move(s);
      if late {
        s := Now();
        cancelRequested := true;
        Move(s);
      }
      raises := answer == "cancelled" && cancelRequested;
      AllKept(p, trace);
    }
  }

  lemma AllKept(p: Params, t: seq<State>)
    requires p.maxInFlight >= 1 && Trace(p, t)
    ensures forall i :: 0 <= i < |t| ==> Inv(p, t[i])
  {
    hide Trace, Inv;
    forall i | 0 <= i < |t| ensures Inv(p, t[i]) {
      BatchInvariant(p, t, i);
    }
  }
}
