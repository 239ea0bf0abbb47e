/** The inductive invariant of the executor: who owns a completion at every
    point of the handshake, and how queue, worker and closer fit together. */
module ExecutorInvariant {
  import opened Options
  import opened Executor

  // ---- The handshake, on one call and its completion

  predicate CallerUses(pc: CallPc) {
    !pc.CheckingCtx? && !pc.TakingCompletion? && !pc.RecyclingJob? && !pc.Returned?
  }

  predicate WorkerUses(t: TaskPc) {
    t != Unsent && t != Done
  }

  // A side of the call still has its completion in hand.
  predicate Uses(call: Call) {
    CallerUses(call.pc) || WorkerUses(call.task)
  }

  predicate Unposted(t: TaskPc) {
    t == Queued || t == Taken || t == Ran || t == Recycled
  }

  predicate Refusal(o: Outcome) {
    o == Cancelled || o == ErrClosed
  }

  // What a call whose task was accepted may answer.
  predicate Answer(i: nat, call: Call, o: Outcome) {
    o == Result(i) || (o == Cancelled && !call.strict)
  }

  // Neither side has given the completion up.
  predicate BothHold(i: nat, t: TaskPc, k: Completion) {
    || (Unposted(t) && k.state == Waiting && k.chan == [])
    || (t == Posted && k.state == Waiting && k.chan == [i])
    || (t == Done && k.state == Delivered && k.chan == [i])
  }

  // The caller alone holds it, on its way back to the pool.
  predicate CallerReturns(i: nat, call: Call, o: Outcome, k: Completion) {
    k.chan == [] && (if call.task == Unsent then Refusal(o) else call.task == Done && Answer(i, call, o))
  }

  // The caller has returned; the worker may still be on the task.
  predicate CallerGone(i: nat, call: Call, o: Outcome, k: Completion) {
    match call.task
    case Unsent => Refusal(o)
    case Done => Answer(i, call, o)
    case Posted => Answer(i, call, o) && (if o == Cancelled then k.state == Abandoned && k.chan == [i]
                                          else k.state == Received && k.chan == [])
    case WorkerDraining => o == Cancelled && !call.strict && k.chan == [i]
    case WorkerStoring => Answer(i, call, o) && k.chan == []
    case WorkerPutting => Answer(i, call, o) && k.chan == [] && k.state == Waiting
    case _ => o == Cancelled && !call.strict && k.state == Abandoned && k.chan == []
  }

  // The joint position of caller i, its task and its completion.
  predicate Joint(i: nat, call: Call, k: Completion) {
    match call.pc
    case CheckingCtx => call.task == Unsent
    case TakingCompletion => call.task == Unsent
    case RecyclingJob(why) => call.task == Unsent && Refusal(why)
    case WantReadLock => call.task == Unsent && k.state == Waiting && k.chan == []
    case ReadLocked => call.task == Unsent && k.state == Waiting && k.chan == []
    case Selecting => call.task == Unsent && k.state == Waiting && k.chan == []
    case RefusedLocked(why) => call.task == Unsent && k.state == Waiting && k.chan == [] && Refusal(why)
    case Submitted => BothHold(i, call.task, k)
    case Awaiting => BothHold(i, call.task, k)
    case Leaving => !call.strict && BothHold(i, call.task, k)
    case Took(job) => job == i && k.chan == []
                      && ((call.task == Posted && k.state == Waiting) || (call.task == Done && k.state == Delivered))
    case LeaveDraining => !call.strict && call.task == Done && k.chan == [i]
    case Storing(o) => CallerReturns(i, call, o, k)
    case Putting(o) => CallerReturns(i, call, o, k) && k.state == Waiting
    case Returned(o) => CallerGone(i, call, o, k)
  }

  // The history counters follow from the two program counters.
  predicate Counted(call: Call) {
    && call.runs == (if call.task == Unsent || call.task == Queued || call.task == Taken then 0 else 1)
    && call.recycles == (if call.task == Unsent then (if call.pc.Returned? then 1 else 0)
                         else if call.task == Queued || call.task == Taken || call.task == Ran then 0 else 1)
    && call.drawn <= 1
    && call.drawn == call.restored + (if Uses(call) then 1 else 0)
    && (call.pc.CheckingCtx? || call.pc.TakingCompletion? ==> call.drawn == 0)
  }

  // The positions on the way to the answer Cancelled.
  predicate GivesUp(pc: CallPc) {
    match pc
    case Leaving => true
    case LeaveDraining => true
    case RefusedLocked(o) => o == Cancelled
    case Storing(o) => o == Cancelled
    case Putting(o) => o == Cancelled
    case RecyclingJob(o) => o == Cancelled
    case Returned(o) => o == Cancelled
    case _ => false
  }

  // The positions on the way to the answer that the executor is closed.
  predicate ToldClosed(pc: CallPc) {
    match pc
    case RefusedLocked(o) => o == ErrClosed
    case Storing(o) => o == ErrClosed
    case Putting(o) => o == ErrClosed
    case RecyclingJob(o) => o == ErrClosed
    case Returned(o) => o == ErrClosed
    case _ => false
  }

  predicate SideOk(i: nat, p: Side) {
    && Joint(i, p.call, p.comp) && Counted(p.call)
    && (GivesUp(p.call.pc) ==> p.call.cancelled)
    && (Uses(p.call) ==> p.comp.holder == HeldBy(i))
  }

  const CLEAN := Completion(Waiting, [], Unused)

  predicate Pooling(p: Side) {
    !Uses(p.call) && p.comp == CLEAN
  }

  lemma WaitMoveOk(i: nat, p: Side, op: WaitOp, q: Side)
    requires SideOk(i, p) && WaitMove(p, op) == Some(q)
    ensures SideOk(i, q) && CallerUses(p.call.pc)
    ensures q.call.task == p.call.task && q.call.comp == p.call.comp
    ensures !HoldsReadLock(q.call.pc)
    ensures ToldClosed(q.call.pc) ==> ToldClosed(p.call.pc)
    ensures if op.OpPut? then Pooling(q) else q.comp.holder == HeldBy(i)
  {}

  lemma TaskMoveOk(i: nat, p: Side, op: TaskOp, q: Side)
    requires SideOk(i, p) && TaskMove(i, p, op) == Some(q)
    ensures SideOk(i, q) && WorkerUses(p.call.task) && p.call.task != Queued
    ensures q.call.pc == p.call.pc && q.call.comp == p.call.comp
    ensures q.call.task != Unsent && q.call.task != Queued && q.call.task != Taken
    ensures op.OpRunJob? <==> p.call.task == Taken
    ensures if op.OpPutBack? then Pooling(q) else q.comp.holder == HeldBy(i)
  {}

  lemma SubmitMoveOk(i: nat, p: Side, shut: Shutdown, op: SubmitOp, call: Call)
    requires SideOk(i, p) && SubmitMove(p.call, shut, op) == Some(call)
    ensures SideOk(i, Side(call, p.comp))
    ensures call.task == p.call.task && call.comp == p.call.comp
    ensures Uses(call) == Uses(p.call)
    ensures HoldsReadLock(call.pc) ==> HoldsReadLock(p.call.pc) || !HoldsWriteLock(shut.closer)
    ensures call.pc.Selecting? || call.pc.Submitted? ==> !shut.closed
    ensures ToldClosed(call.pc) ==> ToldClosed(p.call.pc) || shut.closed || shut.done
  {}

  // ---- The whole state

  function SideOrClean(s: State, i: nat): Side
    requires i < |s.calls|
  {
    if ValidComp(s, i) then SideOf(s, i) else Side(s.calls[i], CLEAN)
  }

  predicate CallOk(s: State, i: nat)
    requires i < |s.calls|
  {
    SideOk(i, SideOrClean(s, i))
  }

  predicate CallsOk(s: State) {
    forall i :: 0 <= i < |s.calls| ==> CallOk(s, i)
  }

  predicate PoolOk(s: State) {
    forall c :: c in s.pool ==> c < |s.comps| && s.comps[c] == CLEAN
  }

  predicate InHand(t: TaskPc) {
    WorkerUses(t) && t != Queued
  }

  predicate QueueOk(calls: seq<Call>, w: Work) {
    && |w.queue| <= TASK_CAPACITY
    && (w.queue != [] ==> w.queue[0] < |calls|)
    && (w.worker.Working? ==> w.worker.call < |calls|)
    && (forall i :: 0 <= i < |calls| ==>
          && (calls[i].task == Queued <==> w.queue == [i])
          && (InHand(calls[i].task) <==> w.worker.Working? && w.worker.call == i))
  }

  // Accepted, not yet run: the task in hand if it still has to run, then the buffered one.
  function NotYetRun(calls: seq<Call>, w: Work): seq<nat> {
    (if w.worker.Working? && w.worker.call < |calls| && calls[w.worker.call].task == Taken then [w.worker.call] else [])
    + w.queue
  }

  predicate Distinct(q: seq<nat>) {
    forall a, b :: 0 <= a < b < |q| ==> q[a] != q[b]
  }

  predicate HistoryOk(calls: seq<Call>, w: Work) {
    && w.accepted == w.ran + NotYetRun(calls, w)
    && Distinct(w.accepted)
    && (forall a :: 0 <= a < |w.accepted| ==> w.accepted[a] < |calls|)
    && (forall i :: 0 <= i < |calls| ==> (calls[i].task != Unsent <==> i in w.accepted))
  }

  predicate WorkerLeaving(w: Worker) {
    w.Finishing? || w.Signalling? || w.Exited?
  }

  predicate LocksOk(calls: seq<Call>, shut: Shutdown) {
    forall i :: 0 <= i < |calls| ==>
      && (HoldsWriteLock(shut.closer) ==> !HoldsReadLock(calls[i].pc))
      && (shut.closed ==> !calls[i].pc.Selecting? && !calls[i].pc.Submitted?)
      && (ToldClosed(calls[i].pc) ==> shut.closed)
  }

  predicate ShutOk(w: Work, shut: Shutdown) {
    && (shut.closed <==> shut.closer != Open && shut.closer != WantWriteLock && shut.closer != WriteLocked)
    && (shut.quit <==> shut.closed && shut.closer != FlagSet)
    && (WorkerLeaving(w.worker) || w.worker.Draining? || (w.worker.Working? && w.worker.draining) ==> shut.quit)
    && (WorkerLeaving(w.worker) ==> w.queue == [])
    && (shut.done <==> w.worker.Exited?)
    && (shut.closer == CloseReturned ==> shut.done)
    && (shut.thread == Pinned <==> !w.worker.Signalling? && !w.worker.Exited?)
    && (shut.retireFirst ==> shut.retire && shut.thread != Unpinned)
    && (shut.thread == Quarantined ==> shut.retire)
  }

  predicate Inv(s: State) {
    && CallsOk(s) && PoolOk(s)
    && QueueOk(s.calls, s.work) && HistoryOk(s.calls, s.work)
    && LocksOk(s.calls, s.shut) && ShutOk(s.work, s.shut)
  }

  // ---- Frames

  // Only call i and completions that i draws, holds or pools change.
  predicate Touches(s: State, t: State, i: nat) {
    && i < |s.calls| == |t.calls|
    && t.calls == s.calls[i := t.calls[i]]
    && |s.comps| <= |t.comps|
    && (forall c {:trigger t.comps[c]} :: 0 <= c < |s.comps| ==>
          t.comps[c] == s.comps[c] || !s.comps[c].holder.HeldBy? || s.comps[c].holder.call == i)
  }

  lemma FrameCall(s: State, t: State, j: nat)
    requires j < |s.calls| && j < |t.calls| && CallOk(s, j) && t.calls[j] == s.calls[j]
    requires Uses(s.calls[j]) ==> ValidComp(s, j) && ValidComp(t, j) && SideOf(t, j) == SideOf(s, j)
    ensures CallOk(t, j)
  {}

  lemma UsesValid(s: State, j: nat)
    requires j < |s.calls| && CallOk(s, j) && Uses(s.calls[j])
    ensures ValidComp(s, j) && s.comps[s.calls[j].comp].holder == HeldBy(j)
  {}

  lemma OthersKept(s: State, t: State, i: nat)
    requires CallsOk(s) && Touches(s, t, i) && CallOk(t, i)
    ensures CallsOk(t)
  {
    forall j | 0 <= j < |t.calls| ensures CallOk(t, j) {
      assert CallOk(s, j);
      if j != i {
        if Uses(s.calls[j]) { UsesValid(s, j); }
        FrameCall(s, t, j);
      }
    }
  }

  lemma SameWorkKept(calls: seq<Call>, i: nat, call: Call, w: Work)
    requires i < |calls| && QueueOk(calls, w) && HistoryOk(calls, w) && call.task == calls[i].task
    ensures QueueOk(calls[i := call], w) && HistoryOk(calls[i := call], w)
  {
    assert NotYetRun(calls[i := call], w) == NotYetRun(calls, w);
  }

  lemma SameLocksKept(calls: seq<Call>, i: nat, call: Call, shut: Shutdown)
    requires i < |calls| && LocksOk(calls, shut)
    requires HoldsReadLock(call.pc) ==> HoldsReadLock(calls[i].pc) || !HoldsWriteLock(shut.closer)
    requires call.pc.Selecting? || call.pc.Submitted? ==> !shut.closed
    requires ToldClosed(call.pc) ==> ToldClosed(calls[i].pc) || shut.closed
    ensures LocksOk(calls[i := call], shut)
  {}

  // ---- A caller in submit

  lemma SubmitKeepsInv(s: State, i: nat, op: SubmitOp, t: State)
    requires Inv(s) && SubmitStep(s, i, op) == Some(t)
    ensures Inv(t)
  {
    assert CallOk(s, i);
    SubmitMoveOk(i, SideOrClean(s, i), s.shut, op, t.calls[i]);
    OthersKept(s, t, i);
    SameWorkKept(s.calls, i, t.calls[i], s.work);
    SameLocksKept(s.calls, i, t.calls[i], s.shut);
  }

  lemma TakeKeepsCalls(s: State, i: nat, c: nat, t: State)
    requires CallsOk(s) && PoolOk(s)
    requires TakePooled(s, i, c) == Some(t) || TakeFresh(s, i) == Some(t)
    ensures CallsOk(t) && PoolOk(t)
    ensures t.calls == s.calls[i := t.calls[i]] && t.calls[i].task == s.calls[i].task && t.calls[i].pc == WantReadLock
  {
    assert CallOk(s, i);
    OthersKept(s, t, i);
  }

  lemma TakeKeepsInv(s: State, i: nat, c: nat, t: State)
    requires Inv(s)
    requires TakePooled(s, i, c) == Some(t) || TakeFresh(s, i) == Some(t)
    ensures Inv(t)
  {
    TakeKeepsCalls(s, i, c, t);
    SameWorkKept(s.calls, i, t.calls[i], s.work);
    SameLocksKept(s.calls, i, t.calls[i], s.shut);
  }

  lemma SendKeepsQueue(s: State, i: nat, t: State)
    requires QueueOk(s.calls, s.work) && Send(s, i) == Some(t) && s.calls[i].task == Unsent
    ensures QueueOk(t.calls, t.work)
    ensures NotYetRun(t.calls, t.work) == NotYetRun(s.calls, s.work) + [i]
  {}

  lemma AppendDistinct(q: seq<nat>, i: nat)
    requires Distinct(q) && i !in q
    ensures Distinct(q + [i])
  {
    forall a, b | 0 <= a < b < |q + [i]| ensures (q + [i])[a] != (q + [i])[b] {
      if b == |q| { assert q[a] in q; }
    }
  }

  lemma SendKeepsHistory(s: State, i: nat, t: State)
    requires QueueOk(s.calls, s.work) && HistoryOk(s.calls, s.work)
    requires Send(s, i) == Some(t) && s.calls[i].task == Unsent
    ensures HistoryOk(t.calls, t.work)
  {
    SendKeepsQueue(s, i, t);
    AppendDistinct(s.work.accepted, i);
    AcceptedGrows(s.calls, s.work.accepted, i, t.calls[i]);
  }

  lemma AcceptedGrows(calls: seq<Call>, accepted: seq<nat>, i: nat, call: Call)
    requires i < |calls| && call.task != Unsent
    requires forall a :: 0 <= a < |accepted| ==> accepted[a] < |calls|
    requires forall j :: 0 <= j < |calls| ==> (calls[j].task != Unsent <==> j in accepted)
    ensures forall a :: 0 <= a < |accepted + [i]| ==> (accepted + [i])[a] < |calls|
    ensures forall j :: 0 <= j < |calls| ==> (calls[i := call][j].task != Unsent <==> j in accepted + [i])
  {
  }

  lemma SendKeepsCalls(s: State, i: nat, t: State)
    requires CallsOk(s) && PoolOk(s) && Send(s, i) == Some(t)
    ensures CallsOk(t) && PoolOk(t) && s.calls[i].task == Unsent
  {
    assert CallOk(s, i);
    OthersKept(s, t, i);
  }

  lemma SendKeepsInv(s: State, i: nat, t: State)
    requires Inv(s) && Send(s, i) == Some(t)
    ensures Inv(t)
  {
    SendKeepsCalls(s, i, t);
    SendKeepsQueue(s, i, t);
    SendKeepsHistory(s, i, t);
    SameLocksKept(s.calls, i, t.calls[i], s.shut);
  }

  // ---- Both sides of the handshake

  lemma WithSideTouches(s: State, i: nat, p: Side)
    requires ValidComp(s, i) && s.comps[s.calls[i].comp].holder == HeldBy(i) && p.call.comp == s.calls[i].comp
    ensures Touches(s, WithSide(s, i, p), i) && SideOf(WithSide(s, i, p), i) == p
  {}

  lemma WaitKeepsCalls(s: State, i: nat, op: WaitOp, t: State)
    requires CallsOk(s) && PoolOk(s) && WaitStep(s, i, op) == Some(t)
    ensures CallsOk(t) && PoolOk(t)
    ensures t.calls[i].task == s.calls[i].task && !HoldsReadLock(t.calls[i].pc)
    ensures ToldClosed(t.calls[i].pc) ==> ToldClosed(s.calls[i].pc)
  {
    var p := SideOf(s, i);
    var q := WaitMove(p, op).value;
    assert CallOk(s, i);
    WaitMoveOk(i, p, op, q);
    WithSideTouches(s, i, q);
    OthersKept(s, t, i);
  }

  lemma WaitKeepsInv(s: State, i: nat, op: WaitOp, t: State)
    requires Inv(s) && WaitStep(s, i, op) == Some(t)
    ensures Inv(t)
  {
    WaitKeepsCalls(s, i, op, t);
    SameWorkKept(s.calls, i, t.calls[i], s.work);
    SameLocksKept(s.calls, i, t.calls[i], s.shut);
  }

  lemma TaskKeepsWork(calls: seq<Call>, w: Work, call: Call)
    requires QueueOk(calls, w) && HistoryOk(calls, w) && w.worker.Working?
    requires call.task != Unsent && call.task != Queued && call.task != Taken
    ensures
      var ran := if calls[w.worker.call].task == Taken then w.ran + [w.worker.call] else w.ran;
      var next := if call.task == Done then NextTask(w.worker) else w.worker;
      var v := w.(ran := ran, worker := next);
      QueueOk(calls[w.worker.call := call], v) && HistoryOk(calls[w.worker.call := call], v)
  {}

  lemma TaskKeepsCalls(s: State, op: TaskOp, t: State)
    requires CallsOk(s) && PoolOk(s) && TaskStep(s, op) == Some(t)
    ensures CallsOk(t) && PoolOk(t)
    ensures var call := t.calls[s.work.worker.call];
            && t.calls == s.calls[s.work.worker.call := call]
            && call.pc == s.calls[s.work.worker.call].pc
            && call.task != Unsent && call.task != Queued && call.task != Taken
    ensures op.OpRunJob? <==> s.calls[s.work.worker.call].task == Taken
  {
    var i := s.work.worker.call;
    var p := SideOf(s, i);
    var q := TaskMove(i, p, op).value;
    assert CallOk(s, i);
    TaskMoveOk(i, p, op, q);
    WithSideTouches(s, i, q);
    OthersKept(s, t, i);
  }

  lemma SamePcsKeepLocks(calls: seq<Call>, i: nat, call: Call, shut: Shutdown)
    requires i < |calls| && LocksOk(calls, shut) && call.pc == calls[i].pc
    ensures LocksOk(calls[i := call], shut)
  {
  }

  lemma TaskKeepsShut(s: State, op: TaskOp, t: State)
    requires ShutOk(s.work, s.shut) && TaskStep(s, op) == Some(t)
    ensures ShutOk(t.work, t.shut)
  {
  }

  lemma TaskKeepsInv(s: State, op: TaskOp, t: State)
    requires Inv(s) && TaskStep(s, op) == Some(t)
    ensures Inv(t)
  {
    var i := s.work.worker.call;
    TaskKeepsCalls(s, op, t);
    TaskKeepsWork(s.calls, s.work, t.calls[i]);
    SamePcsKeepLocks(s.calls, i, t.calls[i], s.shut);
    TaskKeepsShut(s, op, t);
  }

  // ---- The worker's loop

  lemma TakeTaskKeepsWork(s: State, t: State)
    requires TakeTask(s) == Some(t) && QueueOk(s.calls, s.work) && HistoryOk(s.calls, s.work)
    ensures QueueOk(t.calls, t.work) && HistoryOk(t.calls, t.work)
    ensures s.calls[s.work.queue[0]].task == Queued
  {
    assert s.work.queue == [s.work.queue[0]];
    assert NotYetRun(t.calls, t.work) == NotYetRun(s.calls, s.work);
  }

  lemma TakeTaskKeepsInv(s: State, t: State)
    requires TakeTask(s) == Some(t) && Inv(s)
    ensures Inv(t)
  {
    var i := s.work.queue[0];
    assert CallOk(s, i);
    TakeTaskKeepsWork(s, t);
    OthersKept(s, t, i);
    SameLocksKept(s.calls, i, t.calls[i], s.shut);
  }

  lemma SameCallsKept(s: State, t: State)
    requires CallsOk(s) && t.calls == s.calls && t.comps == s.comps
    ensures CallsOk(t)
  {
    forall j | 0 <= j < |t.calls| ensures CallOk(t, j) {
      assert CallOk(s, j);
      FrameCall(s, t, j);
    }
  }

  lemma LoopKeepsRest(s: State, op: LoopOp, t: State)
    requires LoopStep(s, op) == Some(t)
    requires QueueOk(s.calls, s.work) && HistoryOk(s.calls, s.work)
    requires LocksOk(s.calls, s.shut) && ShutOk(s.work, s.shut)
    ensures QueueOk(t.calls, t.work) && HistoryOk(t.calls, t.work) && LocksOk(t.calls, t.shut) && ShutOk(t.work, t.shut)
    ensures t.calls == s.calls && t.comps == s.comps && t.pool == s.pool
  {
    assert NotYetRun(t.calls, t.work) == NotYetRun(s.calls, s.work);
  }

  // ---- The closer and the environment

  lemma CloserKeepsRest(s: State, op: CloserOp, t: State)
    requires CloserStep(s, op) == Some(t)
    requires LocksOk(s.calls, s.shut) && ShutOk(s.work, s.shut)
    ensures LocksOk(t.calls, t.shut) && ShutOk(t.work, t.shut)
    ensures t.calls == s.calls && t.comps == s.comps && t.pool == s.pool && t.work == s.work
  {}

  lemma CancelKeepsSide(i: nat, p: Side)
    requires SideOk(i, p)
    ensures SideOk(i, p.(call := p.call.(cancelled := true)))
  {
  }

  lemma CancelKeepsCalls(s: State, i: nat, t: State)
    requires CallsOk(s) && i < |s.calls| && t == s.(calls := s.calls[i := s.calls[i].(cancelled := true)])
    ensures CallsOk(t)
  {
    forall j | 0 <= j < |t.calls| ensures CallOk(t, j) {
      assert CallOk(s, j);
      if j == i { CancelKeepsSide(i, SideOrClean(s, i)); } else { FrameCall(s, t, j); }
    }
  }

  lemma NewCallKeepsCalls(s: State, strict: bool, t: State)
    requires CallsOk(s) && EnvStep(s, OpNewCall(strict)) == Some(t)
    ensures CallsOk(t)
  {
    forall j | 0 <= j < |t.calls| ensures CallOk(t, j) {
      if j < |s.calls| {
        assert CallOk(s, j);
        FrameCall(s, t, j);
      }
    }
  }

  lemma EnvKeepsCalls(s: State, op: EnvOp, t: State)
    requires CallsOk(s) && EnvStep(s, op) == Some(t)
    ensures CallsOk(t)
  {
    match op
    case OpNewCall(strict) => NewCallKeepsCalls(s, strict, t);
    case OpCancelCtx(i) => CancelKeepsCalls(s, i, t);
    case _ => SameCallsKept(s, t);
  }

  lemma NewCallKeepsWork(calls: seq<Call>, call: Call, w: Work)
    requires QueueOk(calls, w) && HistoryOk(calls, w) && call.task == Unsent
    ensures QueueOk(calls + [call], w) && HistoryOk(calls + [call], w)
  {
    assert NotYetRun(calls + [call], w) == NotYetRun(calls, w);
    assert |calls| !in w.accepted;
  }

  lemma EnvKeepsWork(s: State, op: EnvOp, t: State)
    requires EnvStep(s, op) == Some(t)
    requires QueueOk(s.calls, s.work) && HistoryOk(s.calls, s.work)
    ensures QueueOk(t.calls, t.work) && HistoryOk(t.calls, t.work)
  {
    match op
    case OpNewCall(_) => NewCallKeepsWork(s.calls, t.calls[|s.calls|], s.work);
    case OpCancelCtx(i) => SameWorkKept(s.calls, i, t.calls[i], s.work);
    case _ =>
  }

  lemma EnvKeepsRest(s: State, op: EnvOp, t: State)
    requires EnvStep(s, op) == Some(t) && PoolOk(s) && LocksOk(s.calls, s.shut) && ShutOk(s.work, s.shut)
    ensures PoolOk(t) && LocksOk(t.calls, t.shut) && ShutOk(t.work, t.shut)
  {}

  // ---- Every reachable state

  lemma StepKeepsInv(s: State, step: Step, t: State)
    requires Inv(s) && Next(s, step) == Some(t)
    ensures Inv(t)
  {
    match step
    case Submits(i, op) => SubmitKeepsInv(s, i, op, t);
    case TakesPooled(i, c) => TakeKeepsInv(s, i, c, t);
    case TakesFresh(i) => TakeKeepsInv(s, i, 0, t);
    case Sends(i) => SendKeepsInv(s, i, t);
    case Waits(i, op) => WaitKeepsInv(s, i, op, t);
    case TakesTask => TakeTaskKeepsInv(s, t);
    case Works(op) => TaskKeepsInv(s, op, t);
    case Loops(op) => LoopKeepsRest(s, op, t); SameCallsKept(s, t);
    case Closes(op) => CloserKeepsRest(s, op, t); SameCallsKept(s, t);
    case Env(op) => EnvKeepsCalls(s, op, t); EnvKeepsWork(s, op, t); EnvKeepsRest(s, op, t);
  }

  lemma {:induction false} RunKeepsInv(s: State, steps: seq<Step>, t: State)
    requires Inv(s) && Exec(s, steps) == Some(t)
    ensures Inv(t)
    decreases |steps|
  {
    if steps != [] {
      var u := Next(s, steps[0]).value;
      StepKeepsInv(s, steps[0], u);
      RunKeepsInv(u, steps[1..], t);
    }
  }

  lemma InitialInv()
    ensures Inv(INITIAL)
  {}

  lemma ReachableInv(s: State)
    requires Reachable(s)
    ensures Inv(s)
  {
    var steps :| Exec(INITIAL, steps) == Some(s);
    InitialInv();
    RunKeepsInv(INITIAL, steps, s);
  }
}
