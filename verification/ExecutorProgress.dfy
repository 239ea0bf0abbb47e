/** The executor cannot hang: some program step is enabled until every call has
    returned and Close is through, and only finitely many program steps fit in
    between new calls and cancellations. */
module ExecutorProgress {
  import opened Options
  import opened Executor
  import opened ExecutorInvariant
  import ET = ExecutorTheorems

  function CallerRank(pc: CallPc): nat {
    match pc
    case CheckingCtx => 30
    case TakingCompletion => 29
    case WantReadLock => 28
    case ReadLocked => 27
    case Selecting => 26
    case Submitted => 8
    case Awaiting => 7
    case Took(_) => 6
    case Leaving => 6
    case RefusedLocked(_) => 6
    case LeaveDraining => 5
    case Storing(_) => 4
    case Putting(_) => 3
    case RecyclingJob(_) => 2
    case Returned(_) => 0
  }

  function TaskRank(t: TaskPc): nat {
    match t
    case Unsent => 0
    case Queued => 10
    case Taken => 9
    case Ran => 8
    case Recycled => 7
    case Posted => 6
    case WorkerDraining => 5
    case WorkerStoring => 4
    case WorkerPutting => 3
    case Done => 0
  }

  function CallRank(call: Call): nat {
    CallerRank(call.pc) + TaskRank(call.task)
  }

  function CallsRank(calls: seq<Call>): nat {
    if calls == [] then 0 else CallRank(calls[0]) + CallsRank(calls[1..])
  }

  function WorkerRank(w: Worker): nat {
    match w
    case Polling => 5
    case Working(_, draining) => if draining then 4 else 5
    case Draining => 4
    case Finishing => 3
    case Signalling => 2
    case Exited => 0
  }

  function CloserRank(c: Closer): nat {
    match c
    case Open => 0
    case WantWriteLock => 6
    case WriteLocked => 5
    case FlagSet => 4
    case QuitClosed => 3
    case AwaitingDone => 2
    case CloseReturned => 0
  }

  // How many program steps are left at most.
  function Rank(s: State): nat {
    CallsRank(s.calls) + WorkerRank(s.work.worker) + CloserRank(s.shut.closer)
  }

  lemma {:induction false} CallsRankUpdate(calls: seq<Call>, i: nat, call: Call)
    requires i < |calls|
    ensures CallsRank(calls[i := call]) + CallRank(calls[i]) == CallsRank(calls) + CallRank(call)
  {
    if i == 0 {
      assert calls[0 := call][1..] == calls[1..];
    } else {
      assert calls[i := call][1..] == calls[1..][i - 1 := call];
      CallsRankUpdate(calls[1..], i - 1, call);
    }
  }

  lemma SubmitDescends(call: Call, shut: Shutdown, op: SubmitOp, call': Call)
    requires SubmitMove(call, shut, op) == Some(call')
    ensures CallRank(call') < CallRank(call)
  {}

  lemma WaitDescends(p: Side, op: WaitOp, q: Side)
    requires WaitMove(p, op) == Some(q)
    ensures CallRank(q.call) < CallRank(p.call)
  {}

  lemma TaskDescends(i: nat, p: Side, op: TaskOp, q: Side)
    requires TaskMove(i, p, op) == Some(q)
    ensures CallRank(q.call) < CallRank(p.call)
  {}

  lemma CallerDescends(s: State, step: Step, t: State)
    requires step.Submits? || step.TakesPooled? || step.TakesFresh? || step.Sends?
    requires Next(s, step) == Some(t)
    ensures Rank(t) < Rank(s)
  {
    var i := step.i;
    if step.Submits? { SubmitDescends(s.calls[i], s.shut, step.sop, t.calls[i]); }
    CallsRankUpdate(s.calls, i, t.calls[i]);
  }

  lemma WaiterDescends(s: State, i: nat, op: WaitOp, t: State)
    requires WaitStep(s, i, op) == Some(t)
    ensures Rank(t) < Rank(s)
  {
    var q := WaitMove(SideOf(s, i), op).value;
    WaitDescends(SideOf(s, i), op, q);
    CallsRankUpdate(s.calls, i, q.call);
  }

  lemma WorkerDescends(s: State, step: Step, t: State)
    requires QueueOk(s.calls, s.work) && (step.TakesTask? || step.Works?) && Next(s, step) == Some(t)
    ensures Rank(t) < Rank(s)
  {
    if step.TakesTask? {
      assert s.work.queue == [s.work.queue[0]];
      CallsRankUpdate(s.calls, s.work.queue[0], t.calls[s.work.queue[0]]);
    } else {
      var i := s.work.worker.call;
      var q := TaskMove(i, SideOf(s, i), step.top).value;
      TaskDescends(i, SideOf(s, i), step.top, q);
      CallsRankUpdate(s.calls, i, q.call);
    }
  }

  lemma LoopDescends(s: State, op: LoopOp, t: State)
    requires LoopStep(s, op) == Some(t)
    ensures Rank(t) < Rank(s)
  {
    assert t.calls == s.calls;
  }

  lemma CloserDescends(s: State, op: CloserOp, t: State)
    requires CloserStep(s, op) == Some(t)
    ensures Rank(t) < Rank(s)
  {
    assert t.calls == s.calls;
  }

  // Every program step uses one up.
  lemma StepDescends(s: State, step: Step, t: State)
    requires QueueOk(s.calls, s.work) && !step.Env? && Next(s, step) == Some(t)
    ensures Rank(t) < Rank(s)
  {
    match step
    case Waits(i, op) => WaiterDescends(s, i, op, t);
    case TakesTask => WorkerDescends(s, step, t);
    case Works(op) => WorkerDescends(s, step, t);
    case Loops(op) => LoopDescends(s, op, t);
    case Closes(op) => CloserDescends(s, op, t);
    case _ => CallerDescends(s, step, t);
  }

  predicate ProgramSteps(steps: seq<Step>) {
    forall k :: 0 <= k < |steps| ==> !steps[k].Env?
  }

  // So a run of program steps is no longer than the rank it starts from.
  lemma {:induction false} RunsAreBounded(s: State, steps: seq<Step>, t: State)
    requires Inv(s) && ProgramSteps(steps) && Exec(s, steps) == Some(t)
    ensures |steps| + Rank(t) <= Rank(s)
    decreases |steps|
  {
    if steps != [] {
      var u := Next(s, steps[0]).value;
      StepKeepsInv(s, steps[0], u);
      StepDescends(s, steps[0], u);
      assert ProgramSteps(steps[1..]);
      RunsAreBounded(u, steps[1..], t);
    }
  }

  // Every call has returned, the worker is through with its task, and no Close is under way.
  predicate Quiescent(s: State) {
    && (forall i :: 0 <= i < |s.calls| ==> s.calls[i].pc.Returned? && s.calls[i].task in {Unsent, Done})
    && s.shut.closer in {Open, CloseReturned}
  }

  lemma TaskCanMove(s: State)
    requires Inv(s) && s.work.worker.Working?
    ensures exists op: TaskOp :: Next(s, Works(op)).Some?
  {
    var i := s.work.worker.call;
    assert CallOk(s, i);
    UsesValid(s, i);
    var op := match s.calls[i].task
      case Taken => OpRunJob
      case Ran => OpRecycleRan
      case Recycled => OpPostResult
      case Posted => OpSwapDelivered
      case WorkerDraining => OpDrainResult
      case WorkerStoring => OpStoreWaiting
      case _ => OpPutBack;
    assert TaskMove(i, SideOf(s, i), op).Some?;
    assert Next(s, Works(op)).Some?;
  }

  function LoopMove(w: Worker): LoopOp {
    match w
    case Polling => OpSeeQuit
    case Draining => OpDrainEmpty
    case Finishing => OpFinishThread
    case _ => OpCloseDone
  }

  // The worker has a step unless it is idle or gone, with an empty channel.
  lemma WorkerCanMove(s: State)
    requires Inv(s)
    requires s.work.queue != [] || s.work.worker.Working? || s.work.worker.Draining? || s.work.worker.Finishing?
             || s.work.worker.Signalling? || (s.work.worker.Polling? && s.shut.quit)
    ensures exists step: Step :: !step.Env? && Next(s, step).Some?
  {
    if s.work.worker.Working? {
      TaskCanMove(s);
      var op :| Next(s, Works(op)).Some?;
      assert !Works(op).Env?;
    } else if s.work.queue != [] {
      assert Next(s, TakesTask).Some? && !TakesTask.Env?;
    } else {
      var step := Loops(LoopMove(s.work.worker));
      assert Next(s, step).Some? && !step.Env?;
    }
  }

  // The step a caller that has not returned takes next, if it may.
  function CallerMove(i: nat, pc: CallPc): Step
  {
    match pc
    case CheckingCtx => Submits(i, OpCheckCtx)
    case TakingCompletion => TakesFresh(i)
    case WantReadLock => Submits(i, OpReadLock)
    case ReadLocked => Submits(i, OpCheckClosed)
    case Selecting => Sends(i)
    case Submitted => Submits(i, OpReadUnlock)
    case RefusedLocked(_) => Submits(i, OpReadUnlock)
    case RecyclingJob(_) => Submits(i, OpRecycleRefused)
    case Awaiting => Waits(i, OpReceive)
    case Took(_) => Waits(i, OpSwapReceived)
    case Leaving => Waits(i, OpSwapAbandoned)
    case LeaveDraining => Waits(i, OpDrain)
    case Storing(_) => Waits(i, OpStore)
    case Putting(_) => Waits(i, OpPut)
    case Returned(_) => Waits(i, OpPut)
  }

  lemma WaiterCanMove(i: nat, p: Side)
    requires SideOk(i, p) && p.call.task in {Unsent, Done} && !p.call.pc.Returned?
    requires CallerMove(i, p.call.pc).Waits?
    ensures WaitMove(p, CallerMove(i, p.call.pc).wop).Some?
  {
  }

  lemma SubmitterCanMove(s: State, i: nat)
    requires i < |s.calls| && CallerMove(i, s.calls[i].pc).Submits?
    requires s.calls[i].pc == WantReadLock ==> s.shut.closer != WantWriteLock && !HoldsWriteLock(s.shut.closer)
    ensures Next(s, CallerMove(i, s.calls[i].pc)).Some?
  {
  }

  // With the worker idle or gone, a caller that has not returned can move, unless Close
  // keeps it out of the read lock.
  lemma CallerCanMove(s: State, i: nat)
    requires CallsOk(s) && QueueOk(s.calls, s.work) && i < |s.calls| && !s.calls[i].pc.Returned?
    requires s.work.queue == [] && !s.work.worker.Working?
    requires s.calls[i].pc == WantReadLock ==> s.shut.closer != WantWriteLock && !HoldsWriteLock(s.shut.closer)
    ensures !CallerMove(i, s.calls[i].pc).Env? && Next(s, CallerMove(i, s.calls[i].pc)).Some?
  {
    assert CallOk(s, i);
    var step := CallerMove(i, s.calls[i].pc);
    if step.Waits? {
      UsesValid(s, i);
      WaiterCanMove(i, SideOf(s, i));
    } else if step.Submits? {
      SubmitterCanMove(s, i);
    }
  }

  // ---- A canceled caller needs nobody else

  predicate Owns(step: Step, i: nat) {
    (step.Submits? || step.TakesPooled? || step.TakesFresh? || step.Sends? || step.Waits?) && step.i == i
  }

  lemma GivenUpWaitMoves(i: nat, p: Side)
    requires SideOk(i, p) && GivesUp(p.call.pc) && !p.call.pc.Returned? && CallerMove(i, p.call.pc).Waits?
    ensures var q := WaitMove(p, CallerMove(i, p.call.pc).wop);
            q.Some? && GivesUp(q.value.call.pc) && CallerRank(q.value.call.pc) < CallerRank(p.call.pc)
  {
  }

  lemma GivenUpCanMove(s: State, i: nat)
    requires CallsOk(s) && i < |s.calls| && GivesUp(s.calls[i].pc) && !s.calls[i].pc.Returned?
    ensures Next(s, CallerMove(i, s.calls[i].pc)).Some?
    ensures var t := Next(s, CallerMove(i, s.calls[i].pc)).value;
            && i < |t.calls| && GivesUp(t.calls[i].pc)
            && CallerRank(t.calls[i].pc) < CallerRank(s.calls[i].pc)
  {
    assert CallOk(s, i);
    var step := CallerMove(i, s.calls[i].pc);
    if step.Waits? {
      UsesValid(s, i);
      GivenUpWaitMoves(i, SideOf(s, i));
    }
  }

  lemma {:induction false} GivenUpReturns(s: State, i: nat) returns (steps: seq<Step>, t: State)
    requires Inv(s) && i < |s.calls| && GivesUp(s.calls[i].pc)
    ensures forall k :: 0 <= k < |steps| ==> Owns(steps[k], i)
    ensures Exec(s, steps) == Some(t) && i < |t.calls| && t.calls[i].pc == Returned(Cancelled)
    decreases CallerRank(s.calls[i].pc)
  {
    if s.calls[i].pc.Returned? {
      steps, t := [], s;
    } else {
      var step := CallerMove(i, s.calls[i].pc);
      GivenUpCanMove(s, i);
      var u := Next(s, step).value;
      StepKeepsInv(s, step, u);
      var rest;
      rest, t := GivenUpReturns(u, i);
      steps := [step] + rest;
      assert steps[1..] == rest;
    }
  }

  // How a canceled caller turns away: before it submits, from a full queue, and, unless it is
  // strict, while it waits.
  function TurnsAway(i: nat, pc: CallPc): Step {
    match pc
    case CheckingCtx => Submits(i, OpCheckCtx)
    case Selecting => Submits(i, OpSelectCancelled)
    case _ => Waits(i, OpAbandon)
  }

  predicate MayTurnAway(call: Call) {
    call.cancelled && (call.pc in {CheckingCtx, Selecting} || (call.pc == Awaiting && !call.strict))
  }

  lemma CanceledTurnsAway(s: State, i: nat)
    requires CallsOk(s) && i < |s.calls| && MayTurnAway(s.calls[i])
    ensures Next(s, TurnsAway(i, s.calls[i].pc)).Some?
    ensures var t := Next(s, TurnsAway(i, s.calls[i].pc)).value; i < |t.calls| && GivesUp(t.calls[i].pc)
  {
    assert CallOk(s, i);
    if s.calls[i].pc == Awaiting { UsesValid(s, i); }
  }

  // A canceled caller is told so by its own steps alone, whatever the worker is doing.
  lemma CanceledCallerLeaves(s: State, i: nat) returns (steps: seq<Step>, t: State)
    requires Reachable(s) && i < |s.calls| && MayTurnAway(s.calls[i])
    ensures forall k :: 0 <= k < |steps| ==> Owns(steps[k], i)
    ensures Exec(s, steps) == Some(t) && i < |t.calls| && t.calls[i].pc == Returned(Cancelled)
  {
    ReachableInv(s);
    var step := TurnsAway(i, s.calls[i].pc);
    CanceledTurnsAway(s, i);
    var u := Next(s, step).value;
    StepKeepsInv(s, step, u);
    var rest;
    rest, t := GivenUpReturns(u, i);
    steps := [step] + rest;
    assert steps[1..] == rest;
  }

  predicate SomebodyReads(s: State) {
    exists i :: 0 <= i < |s.calls| && HoldsReadLock(s.calls[i].pc)
  }

  // Close can move unless it waits for readers or for the worker.
  lemma CloserCanMove(s: State)
    requires Inv(s) && s.shut.closer !in {Open, CloseReturned}
    requires s.shut.closer == WantWriteLock ==> !SomebodyReads(s)
    requires s.shut.closer == AwaitingDone ==> s.shut.done
    ensures exists step: Step :: !step.Env? && Next(s, step).Some?
  {
    var step := Closes(match s.shut.closer
                       case WantWriteLock => OpWriteLock
                       case WriteLocked => OpSetClosed
                       case FlagSet => OpCloseQuit
                       case QuitClosed => OpWriteUnlock
                       case _ => OpSeeDone);
    assert Next(s, step).Some? && !step.Env?;
  }

  // No reachable state is stuck: until everything is settled, somebody can move.
  lemma Progress(s: State)
    requires Inv(s) && !Quiescent(s)
    ensures exists step: Step :: !step.Env? && Next(s, step).Some?
  {
    var w := s.work.worker;
    if s.work.queue != [] || w.Working? || w.Draining? || w.Finishing? || w.Signalling? || (w.Polling? && s.shut.quit) {
      WorkerCanMove(s);
    } else if SomebodyReads(s) {
      var i :| 0 <= i < |s.calls| && HoldsReadLock(s.calls[i].pc);
      CallerCanMove(s, i);
    } else if s.shut.closer !in {Open, CloseReturned} {
      CloserCanMove(s);
    } else {
      var i :| 0 <= i < |s.calls| && (!s.calls[i].pc.Returned? || s.calls[i].task !in {Unsent, Done});
      CallerCanMove(s, i);
    }
  }

  // From every reachable state the program reaches a quiescent one by itself, so no
  // accepted caller and no Close waits for ever once the environment lets it be.
  lemma Drains(s: State) returns (steps: seq<Step>, t: State)
    requires Inv(s)
    ensures ProgramSteps(steps) && Exec(s, steps) == Some(t)
    ensures Quiescent(t) && Inv(t)
    decreases Rank(s)
  {
    if Quiescent(s) {
      steps, t := [], s;
    } else {
      Progress(s);
      var step: Step :| !step.Env? && Next(s, step).Some?;
      var u := Next(s, step).value;
      StepKeepsInv(s, step, u);
      StepDescends(s, step, u);
      var rest;
      rest, t := Drains(u);
      steps := [step] + rest;
      assert steps[1..] == rest;
    }
  }

  // A run of program steps that cannot be continued has settled everything.
  lemma MaximalRunsSettle(s: State, steps: seq<Step>, t: State)
    requires Reachable(s) && ProgramSteps(steps) && Exec(s, steps) == Some(t)
    requires forall step: Step :: Next(t, step).Some? ==> step.Env?
    ensures Quiescent(t) && |steps| <= Rank(s)
    ensures t.shut.closer == CloseReturned ==> t.work.ran == t.work.accepted
  {
    ReachableInv(s);
    RunsAreBounded(s, steps, t);
    RunKeepsInv(s, steps, t);
    if !Quiescent(t) { Progress(t); }
  }

  // When a run of an executor that is not closed cannot go on, every caller that was not canceled
  // has the result of its own job, which has run once and been recycled.
  lemma EveryCallerIsServed(s: State, i: nat)
    requires Reachable(s) && (forall step: Step :: Next(s, step).Some? ==> step.Env?)
    requires i < |s.calls| && !s.shut.closed && !s.calls[i].cancelled
    ensures s.calls[i].pc == Returned(Result(i)) && s.calls[i].runs == 1 && s.calls[i].recycles == 1
  {
    assert Exec(s, []) == Some(s);
    MaximalRunsSettle(s, [], s);
    ET.OpenExecutorServes(s, i);
    ET.RunsInAcceptanceOrder(s);
    ET.JobRecycledOnce(s, i);
  }
}
