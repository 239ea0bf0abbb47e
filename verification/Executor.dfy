/** The pinned-thread executor as a step relation.

    Any number of callers, one worker, one closer and the completion pool
    interleave freely; one step is one atomic swap, channel operation, lock
    operation or store of the Go program. Call number i submits job number i,
    so a result on a channel is identified with the job that produced it.
    Fields marked "history" are not read by any step's guard. */
module Executor {
  import opened Options

  // The handshake word of a completion.
  datatype Handshake = Waiting | Abandoned | Received | Delivered

  // history: the call that drew the completion from the pool.
  datatype Holder = Unused | HeldBy(call: nat)

  datatype Completion = Completion(state: Handshake, chan: seq<nat>, holder: Holder)

  datatype Outcome = Result(job: nat) | Cancelled | ErrClosed

  // Program counter of a caller inside submit, DoJobCtx or DoJob.
  datatype CallPc =
    | CheckingCtx
    | TakingCompletion
    | WantReadLock
    | ReadLocked
    | Selecting
    | Submitted
    | RefusedLocked(why: Outcome)
    | Awaiting
    | Took(job: nat)
    | Leaving
    | LeaveDraining
    | Storing(outcome: Outcome)
    | Putting(outcome: Outcome)
    | RecyclingJob(why: Outcome)
    | Returned(outcome: Outcome)

  // How far the worker is with a call's task.
  datatype TaskPc =
    | Unsent
    | Queued
    | Taken
    | Ran
    | Recycled
    | Posted
    | WorkerDraining
    | WorkerStoring
    | WorkerPutting
    | Done

  // strict: DoJob (waits once accepted) rather than DoJobCtx.
  // runs, recycles, drawn and restored are history.
  datatype Call = Call(strict: bool, cancelled: bool, comp: nat, pc: CallPc, task: TaskPc,
                       runs: nat, recycles: nat, drawn: nat, restored: nat)

  datatype Worker =
    | Polling
    | Working(call: nat, draining: bool)
    | Draining
    | Finishing
    | Signalling
    | Exited

  // queue is the tasks channel. accepted and ran are history.
  datatype Work = Work(queue: seq<nat>, worker: Worker, accepted: seq<nat>, ran: seq<nat>)

  datatype Closer = Open | WantWriteLock | WriteLocked | FlagSet | QuitClosed | AwaitingDone | CloseReturned

  datatype Thread = Pinned | Unpinned | Quarantined

  // retireFirst (Retire was called before Close) is history.
  datatype Shutdown = Shutdown(closer: Closer, closed: bool, quit: bool, done: bool,
                               retire: bool, thread: Thread, retireFirst: bool)

  datatype State = State(calls: seq<Call>, comps: seq<Completion>, pool: set<nat>, work: Work, shut: Shutdown)

  const INITIAL: State :=
    State([], [], {}, Work([], Polling, [], []), Shutdown(Open, false, false, false, false, Pinned, false))

  const TASK_CAPACITY := 1
  const RESULT_CAPACITY := 1

  predicate HoldsReadLock(pc: CallPc) {
    pc.ReadLocked? || pc.Selecting? || pc.Submitted? || pc.RefusedLocked?
  }

  predicate HoldsWriteLock(c: Closer) {
    c.WriteLocked? || c.FlagSet? || c.QuitClosed?
  }

  predicate ValidComp(s: State, i: nat) {
    i < |s.calls| && s.calls[i].comp < |s.comps|
  }

  // ---- submit

  datatype SubmitOp =
    | OpCheckCtx | OpReadLock | OpCheckClosed | OpSelectCancelled | OpSelectDone | OpReadUnlock | OpRecycleRefused

  // The steps of submit that only read shared state.
  // A pending writer keeps new readers out, as sync.RWMutex does.
  function SubmitMove(call: Call, shut: Shutdown, op: SubmitOp): Option<Call> {
    match (op, call.pc)
    case (OpCheckCtx, CheckingCtx) =>
      Some(call.(pc := if call.cancelled then RecyclingJob(Cancelled) else TakingCompletion))
    case (OpReadLock, WantReadLock) =>
      if shut.closer == WantWriteLock || HoldsWriteLock(shut.closer) then None else Some(call.(pc := ReadLocked))
    case (OpCheckClosed, ReadLocked) =>
      Some(call.(pc := if shut.closed then RefusedLocked(ErrClosed) else Selecting))
    case (OpSelectCancelled, Selecting) =>
      if call.cancelled then Some(call.(pc := RefusedLocked(Cancelled))) else None
    case (OpSelectDone, Selecting) =>
      if shut.done then Some(call.(pc := RefusedLocked(ErrClosed))) else None
    case (OpReadUnlock, Submitted) => Some(call.(pc := Awaiting))
    case (OpReadUnlock, RefusedLocked(why)) => Some(call.(pc := Storing(why)))
    case (OpRecycleRefused, RecyclingJob(why)) =>
      Some(call.(recycles := call.recycles + 1, pc := Returned(why)))
    case _ => None
  }

  function SubmitStep(s: State, i: nat, op: SubmitOp): Option<State> {
    if i < |s.calls| then
      match SubmitMove(s.calls[i], s.shut, op)
      case None => None
      case Some(call) => Some(s.(calls := s.calls[i := call]))
    else None
  }

  // resultPool.Get handing out a pooled completion
  function TakePooled(s: State, i: nat, c: nat): Option<State> {
    if i < |s.calls| && s.calls[i].pc == TakingCompletion && c in s.pool && c < |s.comps| then
      Some(s.(pool := s.pool - {c},
              comps := s.comps[c := s.comps[c].(holder := HeldBy(i))],
              calls := s.calls[i := s.calls[i].(comp := c, drawn := s.calls[i].drawn + 1, pc := WantReadLock)]))
    else None
  }

  // resultPool.Get making a new one
  function TakeFresh(s: State, i: nat): Option<State> {
    if i < |s.calls| && s.calls[i].pc == TakingCompletion then
      Some(s.(comps := s.comps + [Completion(Waiting, [], HeldBy(i))],
              calls := s.calls[i := s.calls[i].(comp := |s.comps|, drawn := s.calls[i].drawn + 1, pc := WantReadLock)]))
    else None
  }

  function Send(s: State, i: nat): Option<State> {
    if i < |s.calls| && s.calls[i].pc == Selecting && |s.work.queue| < TASK_CAPACITY then
      Some(s.(calls := s.calls[i := s.calls[i].(pc := Submitted, task := Queued)],
              work := s.work.(queue := s.work.queue + [i], accepted := s.work.accepted + [i])))
    else None
  }

  // ---- The handshake, on a call and its completion

  datatype Side = Side(call: Call, comp: Completion)

  datatype WaitOp = OpReceive | OpAbandon | OpSwapReceived | OpSwapAbandoned | OpDrain | OpStore | OpPut

  // DoJobCtx and DoJob after submit: receive or leave, then received, abandon and recycleCompletion.
  function WaitMove(p: Side, op: WaitOp): Option<Side> {
    match (op, p.call.pc)
    case (OpReceive, Awaiting) =>
      if p.comp.chan == [] then None
      else Some(Side(p.call.(pc := Took(p.comp.chan[0])), p.comp.(chan := p.comp.chan[1..])))
    case (OpAbandon, Awaiting) =>
      if p.call.cancelled && !p.call.strict then Some(p.(call := p.call.(pc := Leaving))) else None
    case (OpSwapReceived, Took(job)) =>
      Some(Side(p.call.(pc := if p.comp.state == Delivered then Storing(Result(job)) else Returned(Result(job))),
                p.comp.(state := Received)))
    case (OpSwapAbandoned, Leaving) =>
      Some(Side(p.call.(pc := if p.comp.state == Delivered then LeaveDraining else Returned(Cancelled)),
                p.comp.(state := Abandoned)))
    case (OpDrain, LeaveDraining) =>
      if p.comp.chan == [] then None
      else Some(Side(p.call.(pc := Storing(Cancelled)), p.comp.(chan := p.comp.chan[1..])))
    case (OpStore, Storing(o)) =>
      Some(Side(p.call.(pc := Putting(o)), p.comp.(state := Waiting)))
    case (OpPut, Putting(o)) =>
      Some(Side(p.call.(restored := p.call.restored + 1,
                        pc := if p.call.task == Unsent then RecyclingJob(o) else Returned(o)),
                p.comp.(holder := Unused)))
    case _ => None
  }

  datatype TaskOp =
    | OpRunJob | OpRecycleRan | OpPostResult | OpSwapDelivered | OpDrainResult | OpStoreWaiting | OpPutBack

  // runTask on the task of call i: run, recycle the job, post, delivered, recycleCompletion.
  function TaskMove(i: nat, p: Side, op: TaskOp): Option<Side> {
    match (op, p.call.task)
    case (OpRunJob, Taken) => Some(p.(call := p.call.(task := Ran, runs := p.call.runs + 1)))
    case (OpRecycleRan, Ran) => Some(p.(call := p.call.(task := Recycled, recycles := p.call.recycles + 1)))
    case (OpPostResult, Recycled) =>
      if |p.comp.chan| < RESULT_CAPACITY
      then Some(Side(p.call.(task := Posted), p.comp.(chan := p.comp.chan + [i]))) else None
    case (OpSwapDelivered, Posted) =>
      Some(Side(p.call.(task := match p.comp.state
                                case Abandoned => WorkerDraining
                                case Waiting => Done
                                case _ => WorkerStoring),
                p.comp.(state := Delivered)))
    case (OpDrainResult, WorkerDraining) =>
      if p.comp.chan == [] then None
      else Some(Side(p.call.(task := WorkerStoring), p.comp.(chan := p.comp.chan[1..])))
    case (OpStoreWaiting, WorkerStoring) =>
      Some(Side(p.call.(task := WorkerPutting), p.comp.(state := Waiting)))
    case (OpPutBack, WorkerPutting) =>
      Some(Side(p.call.(task := Done, restored := p.call.restored + 1), p.comp.(holder := Unused)))
    case _ => None
  }

  function SideOf(s: State, i: nat): Side
    requires ValidComp(s, i)
  {
    Side(s.calls[i], s.comps[s.calls[i].comp])
  }

  function WithSide(s: State, i: nat, p: Side): State
    requires ValidComp(s, i)
  {
    s.(calls := s.calls[i := p.call], comps := s.comps[s.calls[i].comp := p.comp])
  }

  function WaitStep(s: State, i: nat, op: WaitOp): Option<State> {
    if ValidComp(s, i) then
      match WaitMove(SideOf(s, i), op)
      case None => None
      case Some(p) =>
        Some(WithSide(s, i, p).(pool := if op.OpPut? then s.pool + {s.calls[i].comp} else s.pool))
    else None
  }

  function NextTask(w: Worker): Worker {
    if w.Working? && w.draining then Draining else Polling
  }

  function TaskStep(s: State, op: TaskOp): Option<State> {
    if s.work.worker.Working? && ValidComp(s, s.work.worker.call) then
      var i := s.work.worker.call;
      match TaskMove(i, SideOf(s, i), op)
      case None => None
      case Some(p) =>
        Some(WithSide(s, i, p)
             .(pool := if op.OpPutBack? then s.pool + {s.calls[i].comp} else s.pool,
               work := s.work.(ran := if op.OpRunJob? then s.work.ran + [i] else s.work.ran,
                               worker := if p.call.task == Done then NextTask(s.work.worker) else s.work.worker)))
    else None
  }

  // ---- The worker's loop: run, drain and finishThread

  datatype LoopOp = OpSeeQuit | OpDrainEmpty | OpFinishThread | OpCloseDone

  function TakeTask(s: State): Option<State> {
    if (s.work.worker.Polling? || s.work.worker.Draining?) && s.work.queue != [] && s.work.queue[0] < |s.calls| then
      var i := s.work.queue[0];
      Some(s.(calls := s.calls[i := s.calls[i].(task := Taken)],
              work := s.work.(queue := s.work.queue[1..], worker := Working(i, s.work.worker.Draining?))))
    else None
  }

  function LoopStep(s: State, op: LoopOp): Option<State> {
    match (op, s.work.worker)
    case (OpSeeQuit, Polling) => if s.shut.quit then Some(s.(work := s.work.(worker := Draining))) else None
    case (OpDrainEmpty, Draining) =>
      if s.work.queue == [] then Some(s.(work := s.work.(worker := Finishing))) else None
    case (OpFinishThread, Finishing) =>
      Some(s.(work := s.work.(worker := Signalling),
              shut := s.shut.(thread := if s.shut.retire then Quarantined else Unpinned)))
    case (OpCloseDone, Signalling) =>
      Some(s.(work := s.work.(worker := Exited), shut := s.shut.(done := true)))
    case _ => None
  }

  // ---- Close

  datatype CloserOp = OpWriteLock | OpSetClosed | OpCloseQuit | OpWriteUnlock | OpSeeDone

  function CloserStep(s: State, op: CloserOp): Option<State> {
    match (op, s.shut.closer)
    case (OpWriteLock, WantWriteLock) =>
      if forall i :: 0 <= i < |s.calls| ==> !HoldsReadLock(s.calls[i].pc)
      then Some(s.(shut := s.shut.(closer := WriteLocked))) else None
    case (OpSetClosed, WriteLocked) => Some(s.(shut := s.shut.(closer := FlagSet, closed := true)))
    case (OpCloseQuit, FlagSet) => Some(s.(shut := s.shut.(closer := QuitClosed, quit := true)))
    case (OpWriteUnlock, QuitClosed) => Some(s.(shut := s.shut.(closer := AwaitingDone)))
    case (OpSeeDone, AwaitingDone) =>
      if s.shut.done then Some(s.(shut := s.shut.(closer := CloseReturned))) else None
    case _ => None
  }

  // ---- What the program does not decide: new calls, cancellation, a pool that drops
  // elements, and the moments Retire and Close are called

  datatype EnvOp = OpNewCall(strict: bool) | OpCancelCtx(i: nat) | OpDropPooled(c: nat) | OpRetire | OpStartClose

  function EnvStep(s: State, op: EnvOp): Option<State> {
    match op
    case OpNewCall(strict) =>
      Some(s.(calls := s.calls + [Call(strict, false, 0, CheckingCtx, Unsent, 0, 0, 0, 0)]))
    case OpCancelCtx(i) =>
      if i < |s.calls| then Some(s.(calls := s.calls[i := s.calls[i].(cancelled := true)])) else None
    case OpDropPooled(c) => Some(s.(pool := s.pool - {c}))
    case OpRetire =>
      Some(s.(shut := s.shut.(retire := true, retireFirst := s.shut.retireFirst || s.shut.closer == Open)))
    case OpStartClose =>
      if s.shut.closer == Open then Some(s.(shut := s.shut.(closer := WantWriteLock))) else None
  }

  // ---- The step relation and its runs

  datatype Step =
    | Submits(i: nat, sop: SubmitOp)
    | TakesPooled(i: nat, c: nat)
    | TakesFresh(i: nat)
    | Sends(i: nat)
    | Waits(i: nat, wop: WaitOp)
    | TakesTask
    | Works(top: TaskOp)
    | Loops(lop: LoopOp)
    | Closes(xop: CloserOp)
    | Env(eop: EnvOp)

  function Next(s: State, step: Step): Option<State> {
    match step
    case Submits(i, op) => SubmitStep(s, i, op)
    case TakesPooled(i, c) => TakePooled(s, i, c)
    case TakesFresh(i) => TakeFresh(s, i)
    case Sends(i) => Send(s, i)
    case Waits(i, op) => WaitStep(s, i, op)
    case TakesTask => TakeTask(s)
    case Works(op) => TaskStep(s, op)
    case Loops(op) => LoopStep(s, op)
    case Closes(op) => CloserStep(s, op)
    case Env(op) => EnvStep(s, op)
  }

  // The state after every step of the list, None if one of them was not enabled.
  function Exec(s: State, steps: seq<Step>): Option<State>
    decreases |steps|
  {
    if steps == [] then Some(s)
    else match Next(s, steps[0])
      case None => None
      case Some(t) => Exec(t, steps[1..])
  }

  ghost predicate Reachable(s: State) {
    exists steps :: Exec(INITIAL, steps) == Some(s)
  }
}
