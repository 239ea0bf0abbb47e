/** Synchronize calls, resource Close calls and Context.Close over one open context,
    as a step relation.

    A wait is a call of Stream.Synchronize or Event.Synchronize on a handle, or of
    Context.Synchronize (no handle). A wait lane is a pinned executor: its jobs run
    in acceptance order, one at a time, and only the head of the list is in progress.
    Fields marked "history" are not read by any step's guard. */
module ContextWaits {
  import opened Options
  import opened WaitLanes

  // ---- State

  datatype WaitPc =
    | WantHandle        // opMu.RLock of the stream or event
    | HandleLocked      // about to read closed
    | WantContext       // c.opMu.RLock
    | ContextLocked     // about to check closed, ctx and commandErr
    | Choosing          // reuseWaitLane
    | WantCreate        // laneCreateMu.Lock
    | Rechoosing        // reuseWaitLane under laneCreateMu
    | Binding           // newExecutor under laneCreateMu
    | Acquired          // lane claimed, about to count the wait in syncActive
    | Tracked           // about to submit to the lane
    | Rejected          // submit refused: recycle the job and release the lane
    | Released          // about to take the wait out of syncActive
    | Refused           // recycle the job, no lane claimed
    | Waiting
    | LeavingContext    // about to release c.opMu
    | LeavingHandle     // about to release the handle's opMu
    | Returned

  // How far the lane is with the job of a wait.
  datatype JobPc = NotSubmitted | Queued | Running | Ran | LaneReleased | Untracked | Delivered

  // What a call returns: Done is the driver's own answer to a synchronize, or a destroyed handle;
  // DriverFailed a failed bind, or a failed destroy.
  datatype Answer = Unanswered | Done | HandleIsClosed | ContextIsClosed | Canceled | Quarantined | DriverFailed

  // made (the job was taken from its pool) and recycles are history.
  datatype Wait = Wait(handle: Option<nat>, cancelled: bool, pc: WaitPc, lane: nat, job: JobPc,
                       made: bool, recycles: nat, answer: Answer)

  datatype LaneJob = WaitJob(wait: nat) | FenceJob(close: nat)

  datatype Lane = Lane(pending: int, jobs: seq<LaneJob>)

  // destroys is history.
  datatype Handle = Handle(closed: bool, destroys: nat)

  datatype ClosePc =
    | WantWrite              // opMu.Lock of the handle
    | WriteLocked            // about to read closed
    | CloseWantContext       // c.opMu.RLock
    | CloseContextLocked     // about to check closed and commandErr
    | ReadingActive          // syncBarrier: load syncActive
    | Snapshotting           // copy the lane list
    | Fencing(lane: nat, end: nat)
    | FenceSent(lane: nat, end: nat)
    | Destroying             // the destroy call on the command executor
    | CloseLeavingContext(destroyed: bool)
    | Settling(destroyed: bool)
    | CloseReturned

  datatype Close = Close(handle: nat, pc: ClosePc, fenced: bool, answer: Answer)

  datatype CtxPc = CtxIdle | CtxLocked | CtxTaking | CtxDraining | CtxReleasing | CtxUnlocking

  // waitLanes is lanes[base..]; lanes below drained have been closed.
  // releases (of the primary context) is history.
  datatype Shared = Shared(base: nat, drained: nat, syncActive: int, creating: Option<nat>,
                           ctx: CtxPc, closed: bool, commandErr: bool, releases: nat)

  datatype State = State(waits: seq<Wait>, closes: seq<Close>, lanes: seq<Lane>, handles: seq<Handle>, shared: Shared)

  const INITIAL: State := State([], [], [], [], Shared(0, 0, 0, None, CtxIdle, false, false, 0))

  // ---- Locks

  predicate WaitHoldsHandle(w: Wait) {
    w.handle.Some? && w.pc != WantHandle && w.pc != Returned
  }

  predicate WaitHoldsContext(pc: WaitPc) {
    pc !in {WantHandle, HandleLocked, WantContext, LeavingHandle, Returned}
  }

  predicate CloseHoldsHandle(pc: ClosePc) {
    pc != WantWrite && pc != CloseReturned
  }

  predicate CloseHoldsContext(pc: ClosePc) {
    CloseHoldsHandle(pc) && pc != WriteLocked && pc != CloseWantContext && !pc.Settling?
  }

  predicate NoWriter(s: State, h: nat) {
    forall t :: 0 <= t < |s.closes| && s.closes[t].handle == h ==> !CloseHoldsHandle(s.closes[t].pc)
  }

  predicate NoReader(s: State, h: nat) {
    forall i :: 0 <= i < |s.waits| && s.waits[i].handle == Some(h) ==> !WaitHoldsHandle(s.waits[i])
  }

  predicate ContextUnused(s: State) {
    && (forall i :: 0 <= i < |s.waits| ==> !WaitHoldsContext(s.waits[i].pc))
    && (forall t :: 0 <= t < |s.closes| ==> !CloseHoldsContext(s.closes[t].pc))
  }

  // ---- A wait

  datatype WaitOp =
    | OpReadHandle | OpLockContext | OpCheckContext | OpReject | OpRecycleRefused | OpReceive | OpAbandon
    | OpUnlockContext | OpUnlockHandle

  // The steps of a wait that only read shared state.
  function WaitMove(w: Wait, handleClosed: bool, sh: Shared, op: WaitOp): Option<Wait> {
    match (op, w.pc)
    case (OpReadHandle, HandleLocked) =>
      Some(if handleClosed then w.(pc := LeavingHandle, answer := HandleIsClosed)
           else w.(pc := WantContext, made := true))
    case (OpLockContext, WantContext) =>
      if sh.ctx == CtxIdle then Some(w.(pc := ContextLocked)) else None
    case (OpCheckContext, ContextLocked) =>
      Some(if sh.closed then w.(pc := Refused, answer := ContextIsClosed)
           else if w.cancelled then w.(pc := Refused, answer := Canceled)
           else if sh.commandErr then w.(pc := Refused, answer := Quarantined)
           else w.(pc := Choosing))
    case (OpReject, Tracked) =>
      if w.cancelled then Some(w.(pc := Rejected, answer := Canceled)) else None
    case (OpRecycleRefused, Refused) =>
      Some(w.(recycles := w.recycles + 1, pc := LeavingContext))
    case (OpReceive, Waiting) =>
      if w.job == Delivered then Some(w.(pc := LeavingContext, answer := Done)) else None
    case (OpAbandon, Waiting) =>
      if w.cancelled then Some(w.(pc := LeavingContext, answer := Canceled)) else None
    case (OpUnlockContext, LeavingContext) =>
      Some(w.(pc := if w.handle.Some? then LeavingHandle else Returned))
    case (OpUnlockHandle, LeavingHandle) => Some(w.(pc := Returned))
    case _ => None
  }

  predicate HandleClosed(s: State, w: Wait) {
    w.handle.Some? && w.handle.value < |s.handles| && s.handles[w.handle.value].closed
  }

  function WaitStep(s: State, i: nat, op: WaitOp): Option<State> {
    if i < |s.waits| then
      match WaitMove(s.waits[i], HandleClosed(s, s.waits[i]), s.shared, op)
      case None => None
      case Some(w) => Some(s.(waits := s.waits[i := w]))
    else None
  }

  function LockHandle(s: State, i: nat): Option<State> {
    if i < |s.waits| && s.waits[i].pc == WantHandle && s.waits[i].handle.Some? && NoWriter(s, s.waits[i].handle.value)
    then Some(s.(waits := s.waits[i := s.waits[i].(pc := HandleLocked)])) else None
  }

  // The pending counts of the lanes on the list.
  function LivePending(s: State): seq<int>
    requires s.shared.base <= |s.lanes|
  {
    seq(|s.lanes| - s.shared.base, k requires 0 <= k < |s.lanes| - s.shared.base => s.lanes[s.shared.base + k].pending)
  }

  function Claim(s: State, i: nat, l: nat): State
    requires i < |s.waits| && l < |s.lanes|
  {
    s.(waits := s.waits[i := s.waits[i].(lane := l, pc := Acquired)],
       lanes := s.lanes[l := s.lanes[l].(pending := s.lanes[l].pending + 1)])
  }

  // reuseWaitLane before laneCreateMu
  function Choose(s: State, i: nat): Option<State> {
    if i < |s.waits| && s.waits[i].pc == Choosing && s.shared.base <= |s.lanes| then
      match Pick(LivePending(s))
      case Some(k) => Some(Claim(s, i, s.shared.base + k))
      case None => Some(s.(waits := s.waits[i := s.waits[i].(pc := WantCreate)]))
    else None
  }

  function LockCreate(s: State, i: nat): Option<State> {
    if i < |s.waits| && s.waits[i].pc == WantCreate && s.shared.creating == None
    then Some(s.(waits := s.waits[i := s.waits[i].(pc := Rechoosing)], shared := s.shared.(creating := Some(i))))
    else None
  }

  // reuseWaitLane again under laneCreateMu
  function Rechoose(s: State, i: nat): Option<State> {
    if i < |s.waits| && s.waits[i].pc == Rechoosing && s.shared.base <= |s.lanes| then
      match Pick(LivePending(s))
      case Some(k) => Some(Claim(s, i, s.shared.base + k).(shared := s.shared.(creating := None)))
      case None => Some(s.(waits := s.waits[i := s.waits[i].(pc := Binding)]))
    else None
  }

  // newExecutor binds the context on the new thread, then the lane is appended
  function Bind(s: State, i: nat, ok: bool): Option<State> {
    if i < |s.waits| && s.waits[i].pc == Binding then
      var sh := s.shared.(creating := None);
      if ok then
        Some(s.(waits := s.waits[i := s.waits[i].(lane := |s.lanes|, pc := Acquired)],
                lanes := s.lanes + [Lane(1, [])], shared := sh))
      else Some(s.(waits := s.waits[i := s.waits[i].(pc := Refused, answer := DriverFailed)], shared := sh))
    else None
  }

  function Track(s: State, i: nat): Option<State> {
    if i < |s.waits| && s.waits[i].pc == Acquired
    then Some(s.(waits := s.waits[i := s.waits[i].(pc := Tracked)],
                 shared := s.shared.(syncActive := s.shared.syncActive + 1)))
    else None
  }

  function Submit(s: State, i: nat): Option<State> {
    if i < |s.waits| && s.waits[i].pc == Tracked && s.waits[i].lane < |s.lanes| then
      var l := s.waits[i].lane;
      Some(s.(waits := s.waits[i := s.waits[i].(pc := Waiting, job := Queued)],
              lanes := s.lanes[l := s.lanes[l].(jobs := s.lanes[l].jobs + [WaitJob(i)])]))
    else None
  }

  // trackedSyncJob.Recycle by the rejected caller: first the job and the lane ...
  function ReleaseRejected(s: State, i: nat): Option<State> {
    if i < |s.waits| && s.waits[i].pc == Rejected && s.waits[i].lane < |s.lanes| then
      var l := s.waits[i].lane;
      Some(s.(waits := s.waits[i := s.waits[i].(pc := Released, recycles := s.waits[i].recycles + 1)],
              lanes := s.lanes[l := s.lanes[l].(pending := s.lanes[l].pending - 1)]))
    else None
  }

  // ... then syncActive
  function UntrackRejected(s: State, i: nat): Option<State> {
    if i < |s.waits| && s.waits[i].pc == Released
    then Some(s.(waits := s.waits[i := s.waits[i].(pc := LeavingContext)],
                 shared := s.shared.(syncActive := s.shared.syncActive - 1)))
    else None
  }

  // ---- A lane

  predicate HeadIs(s: State, l: nat, job: JobPc) {
    && l < |s.lanes| && s.lanes[l].jobs != [] && s.lanes[l].jobs[0].WaitJob?
    && s.lanes[l].jobs[0].wait < |s.waits| && s.waits[s.lanes[l].jobs[0].wait].job == job
  }

  function SetJob(s: State, i: nat, job: JobPc): State
    requires i < |s.waits|
  {
    s.(waits := s.waits[i := s.waits[i].(job := job)])
  }

  datatype LaneOp = OpStart | OpEnd

  // The driver call of the head job starts and ends.
  function LaneStep(s: State, l: nat, op: LaneOp): Option<State> {
    match op
    case OpStart => if HeadIs(s, l, Queued) then Some(SetJob(s, s.lanes[l].jobs[0].wait, Running)) else None
    case OpEnd => if HeadIs(s, l, Running) then Some(SetJob(s, s.lanes[l].jobs[0].wait, Ran)) else None
  }

  // trackedSyncJob.Recycle by the lane: first the job and the lane ...
  function ReleaseLane(s: State, l: nat): Option<State> {
    if HeadIs(s, l, Ran) then
      var i := s.lanes[l].jobs[0].wait;
      Some(s.(waits := s.waits[i := s.waits[i].(job := LaneReleased, recycles := s.waits[i].recycles + 1)],
              lanes := s.lanes[l := s.lanes[l].(pending := s.lanes[l].pending - 1)]))
    else None
  }

  // ... then syncActive
  function UntrackLane(s: State, l: nat): Option<State> {
    if HeadIs(s, l, LaneReleased) then
      Some(SetJob(s, s.lanes[l].jobs[0].wait, Untracked).(shared := s.shared.(syncActive := s.shared.syncActive - 1)))
    else None
  }

  // The result reaches the completion and the lane takes its next job.
  function Deliver(s: State, l: nat): Option<State> {
    if HeadIs(s, l, Untracked) then
      Some(SetJob(s, s.lanes[l].jobs[0].wait, Delivered)
           .(lanes := s.lanes[l := s.lanes[l].(jobs := s.lanes[l].jobs[1..])]))
    else None
  }

  function RunFence(s: State, l: nat): Option<State> {
    if l < |s.lanes| && s.lanes[l].jobs != [] && s.lanes[l].jobs[0].FenceJob?
       && s.lanes[l].jobs[0].close < |s.closes| then
      var t := s.lanes[l].jobs[0].close;
      Some(s.(closes := s.closes[t := s.closes[t].(fenced := true)],
              lanes := s.lanes[l := s.lanes[l].(jobs := s.lanes[l].jobs[1..])]))
    else None
  }

  // ---- Close of a stream or event: doBarrier around the destroy call

  datatype CloseOp =
    | OpReadClosed | OpCloseLockContext | OpCloseCheck | OpReadActive | OpSnapshot | OpFenceDone | OpCloseUnlockContext

  // The steps of Close that change only its own position.
  function CloseMove(c: Close, handleClosed: bool, laneCount: nat, sh: Shared, op: CloseOp): Option<Close> {
    match (op, c.pc)
    case (OpReadClosed, WriteLocked) =>
      Some(if handleClosed then c.(pc := CloseReturned, answer := HandleIsClosed) else c.(pc := CloseWantContext))
    case (OpCloseLockContext, CloseWantContext) =>
      if sh.ctx == CtxIdle then Some(c.(pc := CloseContextLocked)) else None
    case (OpCloseCheck, CloseContextLocked) =>
      Some(if sh.closed then c.(pc := CloseLeavingContext(false), answer := ContextIsClosed)
           else if sh.commandErr then c.(pc := CloseLeavingContext(false), answer := Quarantined)
           else c.(pc := ReadingActive))
    case (OpReadActive, ReadingActive) =>
      Some(c.(pc := if sh.syncActive == 0 then Destroying else Snapshotting))
    case (OpSnapshot, Snapshotting) => Some(c.(pc := Fencing(sh.base, laneCount)))
    case (OpFenceDone, FenceSent(k, n)) =>
      if c.fenced then Some(c.(pc := Fencing(k + 1, n))) else None
    case (OpFenceDone, Fencing(k, n)) =>
      if k == n then Some(c.(pc := Destroying)) else None
    case (OpCloseUnlockContext, CloseLeavingContext(d)) => Some(c.(pc := Settling(d)))
    case _ => None
  }

  function CloseStep(s: State, t: nat, op: CloseOp): Option<State> {
    if t < |s.closes| && s.closes[t].handle < |s.handles| then
      match CloseMove(s.closes[t], s.handles[s.closes[t].handle].closed, |s.lanes|, s.shared, op)
      case None => None
      case Some(c) => Some(s.(closes := s.closes[t := c]))
    else None
  }

  function LockWrite(s: State, t: nat): Option<State> {
    if t < |s.closes| && s.closes[t].pc == WantWrite
       && NoWriter(s, s.closes[t].handle) && NoReader(s, s.closes[t].handle)
    then Some(s.(closes := s.closes[t := s.closes[t].(pc := WriteLocked)])) else None
  }

  function SendFence(s: State, t: nat): Option<State> {
    if t < |s.closes| && s.closes[t].pc.Fencing? && s.closes[t].pc.lane < s.closes[t].pc.end <= |s.lanes| then
      var k, n := s.closes[t].pc.lane, s.closes[t].pc.end;
      Some(s.(closes := s.closes[t := s.closes[t].(pc := FenceSent(k, n), fenced := false)],
              lanes := s.lanes[k := s.lanes[k].(jobs := s.lanes[k].jobs + [FenceJob(t)])]))
    else None
  }

  function Destroy(s: State, t: nat, ok: bool): Option<State> {
    if t < |s.closes| && s.closes[t].pc == Destroying && s.closes[t].handle < |s.handles| then
      var h := s.closes[t].handle;
      Some(s.(closes := s.closes[t := s.closes[t].(pc := CloseLeavingContext(ok),
                                                       answer := if ok then Done else DriverFailed)],
              handles := if ok then s.handles[h := s.handles[h].(destroys := s.handles[h].destroys + 1)]
                         else s.handles))
    else None
  }

  function Settle(s: State, t: nat): Option<State> {
    if t < |s.closes| && s.closes[t].pc.Settling? && s.closes[t].handle < |s.handles| then
      var h := s.closes[t].handle;
      Some(s.(closes := s.closes[t := s.closes[t].(pc := CloseReturned)],
              handles := if s.closes[t].pc.destroyed then s.handles[h := s.handles[h].(closed := true)] else s.handles))
    else None
  }

  // ---- Context.Close, retried as often as the caller likes

  datatype CtxOp =
    | OpCtxLock | OpCtxRecover(ok: bool) | OpCtxTake | OpCtxCloseLane | OpCtxDrained
    | OpCtxRelease(ok: bool, restored: bool) | OpCtxUnlock

  function CtxStep(s: State, op: CtxOp): Option<State> {
    var sh := s.shared;
    match (op, sh.ctx)
    case (OpCtxLock, CtxIdle) => if ContextUnused(s) then Some(s.(shared := sh.(ctx := CtxLocked))) else None
    case (OpCtxRecover(ok), CtxLocked) =>
      if sh.closed then Some(s.(shared := sh.(ctx := CtxUnlocking)))
      else if !sh.commandErr then Some(s.(shared := sh.(ctx := CtxTaking)))
      else Some(s.(shared := sh.(commandErr := !ok, ctx := if ok then CtxTaking else CtxUnlocking)))
    case (OpCtxTake, CtxTaking) => Some(s.(shared := sh.(base := |s.lanes|, ctx := CtxDraining)))
    case (OpCtxCloseLane, CtxDraining) =>
      if sh.drained < sh.base <= |s.lanes| && s.lanes[sh.drained].jobs == []
      then Some(s.(shared := sh.(drained := sh.drained + 1))) else None
    case (OpCtxDrained, CtxDraining) =>
      if sh.drained == sh.base then Some(s.(shared := sh.(ctx := CtxReleasing))) else None
    case (OpCtxRelease(ok, restored), CtxReleasing) =>
      Some(s.(shared := if ok then sh.(closed := true, releases := sh.releases + 1, ctx := CtxUnlocking)
                        else sh.(commandErr := !restored, ctx := CtxUnlocking)))
    case (OpCtxUnlock, CtxUnlocking) => Some(s.(shared := sh.(ctx := CtxIdle)))
    case _ => None
  }

  // ---- New calls, new handles and cancellation

  datatype EnvOp = OpNewHandle | OpNewWait(handle: Option<nat>) | OpNewClose(h: nat) | OpCancel(i: nat)

  function EnvStep(s: State, op: EnvOp): Option<State> {
    match op
    case OpNewHandle => Some(s.(handles := s.handles + [Handle(false, 0)]))
    case OpNewWait(handle) =>
      if handle.None? then
        Some(s.(waits := s.waits + [Wait(None, false, WantContext, 0, NotSubmitted, true, 0, Unanswered)]))
      else if handle.value < |s.handles| then
        Some(s.(waits := s.waits + [Wait(handle, false, WantHandle, 0, NotSubmitted, false, 0, Unanswered)]))
      else None
    case OpNewClose(h) =>
      if h < |s.handles| then Some(s.(closes := s.closes + [Close(h, WantWrite, false, Unanswered)])) else None
    case OpCancel(i) =>
      if i < |s.waits| then Some(s.(waits := s.waits[i := s.waits[i].(cancelled := true)])) else None
  }

  // ---- The step relation and its runs

  datatype Step =
    | Waits(i: nat, wop: WaitOp)
    | LocksHandle(i: nat)
    | Chooses(i: nat)
    | LocksCreate(i: nat)
    | Rechooses(i: nat)
    | Binds(i: nat, ok: bool)
    | Tracks(i: nat)
    | Submits(i: nat)
    | ReleasesRejected(i: nat)
    | UntracksRejected(i: nat)
    | LaneRuns(l: nat, lop: LaneOp)
    | LaneReleases(l: nat)
    | LaneUntracks(l: nat)
    | LaneDelivers(l: nat)
    | LaneFences(l: nat)
    | Closes(t: nat, cop: CloseOp)
    | LocksWrite(t: nat)
    | SendsFence(t: nat)
    | Destroys(t: nat, ok: bool)
    | Settles(t: nat)
    | ClosesContext(xop: CtxOp)
    | Env(eop: EnvOp)

  function Next(s: State, step: Step): Option<State> {
    match step
    case Waits(i, op) => WaitStep(s, i, op)
    case LocksHandle(i) => LockHandle(s, i)
    case Chooses(i) => Choose(s, i)
    case LocksCreate(i) => LockCreate(s, i)
    case Rechooses(i) => Rechoose(s, i)
    case Binds(i, ok) => Bind(s, i, ok)
    case Tracks(i) => Track(s, i)
    case Submits(i) => Submit(s, i)
    case ReleasesRejected(i) => ReleaseRejected(s, i)
    case UntracksRejected(i) => UntrackRejected(s, i)
    case LaneRuns(l, op) => LaneStep(s, l, op)
    case LaneReleases(l) => ReleaseLane(s, l)
    case LaneUntracks(l) => UntrackLane(s, l)
    case LaneDelivers(l) => Deliver(s, l)
    case LaneFences(l) => RunFence(s, l)
    case Closes(t, op) => CloseStep(s, t, op)
    case LocksWrite(t) => LockWrite(s, t)
    case SendsFence(t) => SendFence(s, t)
    case Destroys(t, ok) => Destroy(s, t, ok)
    case Settles(t) => Settle(s, t)
    case ClosesContext(op) => CtxStep(s, op)
    case Env(op) => EnvStep(s, op)
  }

  function Exec(s: State, steps: seq<Step>): Option<State>
    decreases |steps|
  {
    if steps == [] then Some(s)
    else match Next(s, steps[0])
      case None => None
      case Some(t) => Exec(t, steps[1..])
  }

  ghost predicate Reachable(s: State) {
    exists steps :: Exec(INITIAL, steps) == Some(s)
  }
}
