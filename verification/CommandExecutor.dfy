/** The command executor beside the context machine.

    Commands are calls on it whose callers hold the context's read lock; the caller of a Do with a
    canceled ctx leaves its job behind and gives the lock back. The release of the primary context
    is itself a job on this executor, submitted by Context.Close under the write lock. A failed
    restore closes the executor, and the next attempt of Context.Close starts and binds another. */
module CommandExecutor {
  import opened Options
  import opened ContextFrames
  import E = Executor
  import EI = ExecutorInvariant
  import ET = ExecutorTheorems
  import C = ContextWaits

  // Every command executor there has been, the last one being in use. release is the call of the
  // release job that the attempt of Context.Close under way, or the successful one, has made.
  datatype Both = Both(ctx: C.State, commands: seq<E.State>, release: Option<nat>)

  const START := Both(C.INITIAL, [E.INITIAL], None)

  datatype Step =
    | InContext(cstep: C.Step)
    | StartsCommand                            // recoverCommandExecutor's candidate
    | InCommand(estep: E.Step)
    | CallsRelease                             // Context.Close's last Do
    | RunsRelease(ok: bool, restored: bool)    // the worker runs it

  function Current(b: Both): E.State
    requires b.commands != []
  {
    b.commands[|b.commands| - 1]
  }

  function WithCurrent(b: Both, e: E.State): Both
    requires b.commands != []
  {
    b.(commands := b.commands[|b.commands| - 1 := e])
  }

  predicate Recovering(sh: C.Shared) {
    sh.ctx == C.CtxLocked && sh.commandErr && !sh.closed
  }

  // The release job is the one to run next.
  predicate AtRelease(e: E.State, release: Option<nat>) {
    e.work.worker.Working? && release == Some(e.work.worker.call)
  }

  // What the locks of the context and the order of Context.Close let happen in the executor.
  predicate MayStep(sh: C.Shared, e: E.State, release: Option<nat>, step: E.Step) {
    match step
    case Env(OpNewCall(strict)) => ContextOpen(sh) || (!strict && Recovering(sh) && e.shut.closer == E.Open)
    case Env(OpCancelCtx(i)) => release != Some(i)
    case Env(OpStartClose) =>
      AllReturned(e) && (Recovering(sh) || (sh.ctx == C.CtxUnlocking && (sh.closed || sh.commandErr)))
    case Works(OpRunJob) => !AtRelease(e, release)
    case _ => true
  }

  // What Context.Close waits for on its way.
  predicate MayClose(sh: C.Shared, e: E.State, op: C.CtxOp) {
    match op
    case OpCtxLock => AllReturned(e)
    case OpCtxRecover(ok) =>
      Recovering(sh) ==> if ok then AllReturned(e) && e.shut.closer == E.Open else e.shut.closer == E.CloseReturned
    case OpCtxRelease(_, _) => false
    case OpCtxUnlock => AllReturned(e) && (sh.closed || sh.commandErr ==> e.shut.closer == E.CloseReturned)
    case _ => true
  }

  // The release of an attempt that has failed is forgotten when the context is unlocked.
  function Remembered(sh: C.Shared, release: Option<nat>, step: C.Step): Option<nat> {
    if step == C.ClosesContext(C.OpCtxUnlock) && !sh.closed then None else release
  }

  function Next(b: Both, step: Step): Option<Both> {
    if b.commands == [] then None
    else
      var sh, e := b.ctx.shared, Current(b);
      match step
      case InContext(cstep) =>
        var t := C.Next(b.ctx, cstep);
        if t.None? || (cstep.ClosesContext? && !MayClose(sh, e, cstep.xop)) then None
        else Some(b.(ctx := t.value, release := Remembered(sh, b.release, cstep)))
      case StartsCommand =>
        if Recovering(sh) && e.shut.closer == E.CloseReturned then Some(b.(commands := b.commands + [E.INITIAL]))
        else None
      case InCommand(estep) =>
        var f := E.Next(e, estep);
        if f.None? || !MayStep(sh, e, b.release, estep) then None else Some(WithCurrent(b, f.value))
      case CallsRelease =>
        var f := E.EnvStep(e, E.OpNewCall(false));
        if f.None? || sh.ctx != C.CtxReleasing || b.release != None then None
        else Some(WithCurrent(b, f.value).(release := Some(|e.calls|)))
      case RunsRelease(ok, restored) =>
        var f := E.TaskStep(e, E.OpRunJob);
        var t := C.CtxStep(b.ctx, C.OpCtxRelease(ok, restored));
        if f.None? || t.None? || !AtRelease(e, b.release) then None
        else Some(WithCurrent(b, f.value).(ctx := t.value))
  }

  function Exec(b: Both, steps: seq<Step>): Option<Both>
    decreases |steps|
  {
    if steps == [] then Some(b)
    else match Next(b, steps[0])
      case None => None
      case Some(c) => Exec(c, steps[1..])
  }

  ghost predicate Reachable(b: Both) {
    exists steps :: Exec(START, steps) == Some(b)
  }

  // ---- The invariant

  // Every caller but that of the release has returned.
  predicate OthersReturned(e: E.State, r: nat) {
    forall i :: 0 <= i < |e.calls| && i != r ==> e.calls[i].pc.Returned?
  }

  // The release has not run, and whatever was accepted before it is in front of it.
  predicate ReleaseIsLast(e: E.State, r: nat) {
    && r < |e.calls| && OthersReturned(e, r) && r !in e.work.ran
    && (r in e.work.accepted ==> e.work.accepted[|e.work.accepted| - 1] == r)
  }

  // The release has run, after everything else.
  predicate ReleaseWasLast(e: E.State, r: nat) {
    && r < |e.calls| && OthersReturned(e, r)
    && |e.work.ran| > 0 && e.work.ran == e.work.accepted && e.work.ran[|e.work.ran| - 1] == r
  }

  // From the lock, or the recovery, to the call of the release.
  predicate Quiet(sh: C.Shared, release: Option<nat>) {
    && !sh.closed && !sh.commandErr && release == None
    && sh.ctx in {C.CtxLocked, C.CtxTaking, C.CtxDraining, C.CtxReleasing}
  }

  predicate PhaseOk(sh: C.Shared, e: E.State, release: Option<nat>) {
    && (!sh.closed && !sh.commandErr ==> e.shut.closer == E.Open)
    && (e.shut.closer != E.Open ==> AllReturned(e))
    && (sh.ctx == C.CtxIdle && (sh.closed || sh.commandErr) ==> e.shut.closer == E.CloseReturned)
    && (sh.ctx in {C.CtxTaking, C.CtxDraining, C.CtxReleasing} ==> !sh.closed && !sh.commandErr)
    && (Quiet(sh, release) ==> AllReturned(e))
    && (sh.closed ==> release.Some?)
    && (release.Some? ==>
          if sh.ctx == C.CtxReleasing then ReleaseIsLast(e, release.value)
          else (sh.closed || sh.ctx == C.CtxUnlocking) && ReleaseWasLast(e, release.value))
  }

  ghost predicate Inv(b: Both) {
    && b.commands != [] && (forall k :: 0 <= k < |b.commands| ==> E.Reachable(b.commands[k]))
    && (forall k :: 0 <= k < |b.commands| - 1 ==> b.commands[k].shut.closer == E.CloseReturned)
    && (forall k :: 0 <= k < |b.commands| ==> NoneTold(b.commands[k]))
    && PhaseOk(b.ctx.shared, Current(b), b.release)
  }

  lemma ContextKeepsPhase(s: C.State, step: C.Step, t: C.State, e: E.State, release: Option<nat>)
    requires PhaseOk(s.shared, e, release) && C.Next(s, step) == Some(t)
    requires step.ClosesContext? ==> MayClose(s.shared, e, step.xop)
    ensures PhaseOk(t.shared, e, Remembered(s.shared, release, step))
  {
    if step.ClosesContext? {
      ClosingKeepsPhase(s, step.xop, t, e, release);
    } else {
      SharedCtxKept(s, step, t);
    }
  }

  lemma ClosingKeepsPhase(s: C.State, op: C.CtxOp, t: C.State, e: E.State, release: Option<nat>)
    requires PhaseOk(s.shared, e, release) && C.CtxStep(s, op) == Some(t) && MayClose(s.shared, e, op)
    ensures PhaseOk(t.shared, e, Remembered(s.shared, release, C.ClosesContext(op)))
  {
  }

  // A step of the executor before the release is called.
  lemma StepKeepsQuiet(sh: C.Shared, e: E.State, release: Option<nat>, step: E.Step, f: E.State)
    requires AllReturned(e) && E.Next(e, step) == Some(f) && MayStep(sh, e, release, step) && Quiet(sh, release)
    ensures AllReturned(f)
  {
    CallsGoOn(e, step, f);
    NewCalls(e, step, f);
  }

  lemma StepKeepsReturned(sh: C.Shared, e: E.State, r: nat, step: E.Step, f: E.State)
    requires OthersReturned(e, r) && r < |e.calls| && E.Next(e, step) == Some(f) && MayStep(sh, e, Some(r), step)
    requires sh.closed || sh.ctx in {C.CtxReleasing, C.CtxUnlocking}
    ensures OthersReturned(f, r) && r < |f.calls|
  {
    CallsGoOn(e, step, f);
    NewCalls(e, step, f);
  }

  // Nobody but the release is left to be accepted, and it has not run.
  lemma StepKeepsLast(sh: C.Shared, e: E.State, r: nat, step: E.Step, f: E.State)
    requires EI.Inv(e) && ReleaseIsLast(e, r) && E.Next(e, step) == Some(f)
    requires MayStep(sh, e, Some(r), step) && sh.ctx == C.CtxReleasing
    ensures ReleaseIsLast(f, r)
  {
    StepKeepsReturned(sh, e, r, step, f);
    HistoryGoesOn(e, step, f);
    if step.Sends? { SenderIsInside(e, step.i, f); }
  }

  lemma StepKeepsEnd(sh: C.Shared, e: E.State, r: nat, step: E.Step, f: E.State)
    requires EI.Inv(e) && ReleaseWasLast(e, r) && E.Next(e, step) == Some(f) && MayStep(sh, e, Some(r), step)
    requires sh.closed || sh.ctx == C.CtxUnlocking
    ensures ReleaseWasLast(f, r)
  {
    StepKeepsReturned(sh, e, r, step, f);
    HistoryGoesOn(e, step, f);
    if step.Sends? { SenderIsInside(e, step.i, f); }
    if step == E.Works(E.OpRunJob) { RunnerIsNext(e, f); }
  }

  // An executor that is being closed has no caller inside.
  lemma StepKeepsRest(sh: C.Shared, e: E.State, release: Option<nat>, step: E.Step, f: E.State)
    requires E.Next(e, step) == Some(f) && MayStep(sh, e, release, step)
    requires !sh.closed && !sh.commandErr ==> e.shut.closer == E.Open
    requires e.shut.closer != E.Open ==> AllReturned(e)
    ensures f.shut.closer != E.Open ==> AllReturned(f)
  {
    CallsGoOn(e, step, f);
    NewCalls(e, step, f);
    CloserGoesOn(e, step, f);
  }

  lemma CommandKeepsPhase(sh: C.Shared, e: E.State, release: Option<nat>, step: E.Step, f: E.State)
    requires EI.Inv(e) && PhaseOk(sh, e, release)
    requires E.Next(e, step) == Some(f) && MayStep(sh, e, release, step)
    ensures PhaseOk(sh, f, release)
  {
    CloserGoesOn(e, step, f);
    StepKeepsRest(sh, e, release, step, f);
    if Quiet(sh, release) { StepKeepsQuiet(sh, e, release, step, f); }
    if release.Some? {
      if sh.ctx == C.CtxReleasing { StepKeepsLast(sh, e, release.value, step, f); }
      else { StepKeepsEnd(sh, e, release.value, step, f); }
    }
  }

  lemma CallKeepsPhase(sh: C.Shared, e: E.State, f: E.State)
    requires EI.Inv(e) && PhaseOk(sh, e, None) && sh.ctx == C.CtxReleasing
    requires E.EnvStep(e, E.OpNewCall(false)) == Some(f)
    ensures PhaseOk(sh, f, Some(|e.calls|))
  {
    var r := |e.calls|;
    assert r !in e.work.accepted;
    forall a | 0 <= a < |e.work.ran| ensures e.work.ran[a] != r {
      assert e.work.ran[a] == e.work.accepted[a];
    }
  }

  lemma SamePlace(q: seq<nat>, a: nat, b: nat)
    requires EI.Distinct(q) && a < |q| && b < |q| && q[a] == q[b]
    ensures a == b
  {
  }

  // When the release runs, it is the last job there is.
  lemma ReleaseComesLast(e: E.State, r: nat, f: E.State)
    requires EI.Inv(e) && ReleaseIsLast(e, r) && AtRelease(e, Some(r)) && E.TaskStep(e, E.OpRunJob) == Some(f)
    ensures e.work.accepted == e.work.ran + [r] && ReleaseWasLast(f, r)
  {
    RunnerIsNext(e, f);
    var accepted := e.work.accepted;
    assert accepted[|e.work.ran|] == r;
    assert r in accepted;
    SamePlace(accepted, |e.work.ran|, |accepted| - 1);
    assert E.Next(e, E.Works(E.OpRunJob)) == Some(f);
    CallsGoOn(e, E.Works(E.OpRunJob), f);
  }

  lemma RunKeepsPhase(s: C.State, t: C.State, e: E.State, r: nat, f: E.State, ok: bool, restored: bool)
    requires EI.Inv(e) && PhaseOk(s.shared, e, Some(r)) && AtRelease(e, Some(r))
    requires E.TaskStep(e, E.OpRunJob) == Some(f) && C.CtxStep(s, C.OpCtxRelease(ok, restored)) == Some(t)
    ensures PhaseOk(t.shared, f, Some(r))
  {
    ReleaseComesLast(e, r, f);
    assert E.Next(e, E.Works(E.OpRunJob)) == Some(f);
    CloserGoesOn(e, E.Works(E.OpRunJob), f);
  }

  // A step of the current executor leaves the earlier ones as they are.
  lemma CurrentGoesOn(b: Both, f: E.State, c: Both)
    requires Inv(b) && c.commands == WithCurrent(b, f).commands
    requires E.Reachable(f) && NoneTold(f) && PhaseOk(c.ctx.shared, f, c.release)
    ensures Inv(c)
  {
  }

  lemma ExecutorStaysOk(e: E.State, step: E.Step, f: E.State)
    requires E.Reachable(e) && E.Next(e, step) == Some(f)
    requires NoneTold(e) && (e.shut.closer != E.Open ==> AllReturned(e))
    ensures E.Reachable(f) && EI.Inv(e) && NoneTold(f)
  {
    ET.ExecutorGoesOn(e, step, f);
    EI.ReachableInv(e);
    NobodyIsTold(e, step, f);
  }

  lemma ContextStepKeepsInv(b: Both, step: C.Step, c: Both)
    requires Inv(b) && Next(b, InContext(step)) == Some(c)
    ensures Inv(c)
  {
    ContextKeepsPhase(b.ctx, step, c.ctx, Current(b), b.release);
  }

  lemma StartKeepsInv(b: Both, c: Both)
    requires Inv(b) && Next(b, StartsCommand) == Some(c)
    ensures Inv(c)
  {
    assert E.Exec(E.INITIAL, []) == Some(E.INITIAL);
  }

  lemma CommandKeepsInv(b: Both, step: E.Step, c: Both)
    requires Inv(b) && Next(b, InCommand(step)) == Some(c)
    ensures Inv(c)
  {
    var e, f := Current(b), Current(c);
    ExecutorStaysOk(e, step, f);
    CommandKeepsPhase(b.ctx.shared, e, b.release, step, f);
    CurrentGoesOn(b, f, c);
  }

  lemma CallKeepsInv(b: Both, c: Both)
    requires Inv(b) && Next(b, CallsRelease) == Some(c)
    ensures Inv(c)
  {
    ExecutorStaysOk(Current(b), E.Env(E.OpNewCall(false)), Current(c));
    CallKeepsPhase(b.ctx.shared, Current(b), Current(c));
    CurrentGoesOn(b, Current(c), c);
  }

  lemma RunsKeepsInv(b: Both, ok: bool, restored: bool, c: Both)
    requires Inv(b) && Next(b, RunsRelease(ok, restored)) == Some(c)
    ensures Inv(c)
  {
    ExecutorStaysOk(Current(b), E.Works(E.OpRunJob), Current(c));
    RunKeepsPhase(b.ctx, c.ctx, Current(b), b.release.value, Current(c), ok, restored);
    CurrentGoesOn(b, Current(c), c);
  }

  lemma StepKeepsInv(b: Both, step: Step, c: Both)
    requires Inv(b) && Next(b, step) == Some(c)
    ensures Inv(c)
  {
    match step
    case InContext(cstep) => ContextStepKeepsInv(b, cstep, c);
    case StartsCommand => StartKeepsInv(b, c);
    case InCommand(estep) => CommandKeepsInv(b, estep, c);
    case CallsRelease => CallKeepsInv(b, c);
    case RunsRelease(ok, restored) => RunsKeepsInv(b, ok, restored, c);
  }

  lemma {:induction false} RunKeepsInv(b: Both, steps: seq<Step>, c: Both)
    requires Inv(b) && Exec(b, steps) == Some(c)
    ensures Inv(c)
    decreases |steps|
  {
    if steps != [] {
      var d := Next(b, steps[0]).value;
      StepKeepsInv(b, steps[0], d);
      RunKeepsInv(d, steps[1..], c);
    }
  }

  lemma ReachableInv(b: Both)
    requires Reachable(b)
    ensures Inv(b) && EI.Inv(Current(b))
  {
    var steps :| Exec(START, steps) == Some(b);
    assert E.Exec(E.INITIAL, []) == Some(E.INITIAL);
    RunKeepsInv(START, steps, b);
    EI.ReachableInv(Current(b));
  }

  lemma ReachablePhase(b: Both)
    requires Reachable(b)
    ensures b.commands != [] && EI.Inv(Current(b)) && PhaseOk(b.ctx.shared, Current(b), b.release)
  {
    ReachableInv(b);
  }

  // ---- Context.Close and the commands

  /** From the lock to the call of the release no caller is inside the command executor, so nothing
      is submitted to it; what abandoned callers left behind may still be queued. */
  lemma NoCallerDuringClose(b: Both, i: nat)
    requires Reachable(b) && b.ctx.shared.ctx in {C.CtxTaking, C.CtxDraining, C.CtxReleasing} && b.release.None?
    ensures b.commands != [] && Current(b).shut.closer == E.Open
    ensures i < |Current(b).calls| ==> Current(b).calls[i].pc.Returned?
    ensures E.Send(Current(b), i) == None
  {
    ReachableInv(b);
  }

  /** A command answers with its own result, or that it was canceled; it never finds its executor
      closed. */
  lemma CommandAnswers(b: Both, k: nat, i: nat)
    requires Reachable(b) && k < |b.commands| && i < |b.commands[k].calls| && b.commands[k].calls[i].pc.Returned?
    ensures var call := b.commands[k].calls[i];
            || (call.pc.outcome == E.Result(i) && i in b.commands[k].work.ran)
            || (call.pc.outcome == E.Cancelled && call.cancelled)
  {
    ReachableInv(b);
    UntoldAnswer(b.commands[k], i);
  }

  // A job that has run and is not in the worker's hand has been recycled.
  lemma PastJobsAreRecycled(e: E.State, r: nat)
    requires EI.Inv(e) && e.work.worker.Working? && e.work.worker.call == r && r !in e.work.ran
    ensures forall i :: 0 <= i < |e.calls| && i in e.work.ran ==> e.calls[i].recycles == 1
  {
    forall i | 0 <= i < |e.calls| && i in e.work.ran ensures e.calls[i].recycles == 1 {
      assert EI.CallOk(e, i);
      ET.RanIffPastTaken(e, i);
    }
  }

  // What was accepted before the executor was replaced has run.
  lemma EarlierAreDone(b: Both)
    requires Reachable(b)
    ensures forall k :: 0 <= k < |b.commands| - 1 ==> b.commands[k].work.ran == b.commands[k].work.accepted
  {
    ReachableInv(b);
    forall k | 0 <= k < |b.commands| - 1 ensures b.commands[k].work.ran == b.commands[k].work.accepted {
      ET.CloseWaitsForAccepted(b.commands[k]);
    }
  }

  /** When the release of the primary context runs, every command ever accepted has run and been
      recycled, also one whose caller was canceled and dropped the lock of the context. */
  lemma ReleaseRunsLast(b: Both, ok: bool, restored: bool)
    requires Reachable(b) && Next(b, RunsRelease(ok, restored)).Some?
    ensures b.commands != [] && b.release.Some?
    ensures Current(b).work.accepted == Current(b).work.ran + [b.release.value]
    ensures forall i :: 0 <= i < |Current(b).calls| && i in Current(b).work.ran ==> Current(b).calls[i].recycles == 1
    ensures forall k :: 0 <= k < |b.commands| - 1 ==> b.commands[k].work.ran == b.commands[k].work.accepted
  {
    ReachablePhase(b);
    var e := Current(b);
    var f := E.TaskStep(e, E.OpRunJob).value;
    ReleaseComesLast(e, b.release.value, f);
    RunnerIsNext(e, f);
    PastJobsAreRecycled(e, b.release.value);
    EarlierAreDone(b);
  }

  /** In a closed context the successful release is the last command that was ever accepted or
      run, and by the time Context.Close returns every command executor has been closed. */
  lemma NothingCommandedAfterRelease(b: Both)
    requires Reachable(b) && b.ctx.shared.closed
    ensures b.commands != [] && b.release.Some? && |Current(b).work.ran| > 0
    ensures forall k :: 0 <= k < |b.commands| ==> b.commands[k].work.ran == b.commands[k].work.accepted
    ensures Current(b).work.ran[|Current(b).work.ran| - 1] == b.release.value
    ensures b.ctx.shared.ctx == C.CtxIdle ==>
              forall k :: 0 <= k < |b.commands| ==> b.commands[k].shut.closer == E.CloseReturned
  {
    ReachableInv(b);
    EarlierAreDone(b);
  }

  // A release job that is about to run finds Context.Close where it waits for it.
  lemma ReleaseIsAwaited(sh: C.Shared, e: E.State, release: Option<nat>, f: E.State)
    requires EI.Inv(e) && PhaseOk(sh, e, release) && AtRelease(e, release) && E.TaskStep(e, E.OpRunJob) == Some(f)
    ensures sh.ctx == C.CtxReleasing
  {
    RunnerIsNext(e, f);
  }

  lemma CommandIsPermitted(sh: C.Shared, e: E.State, release: Option<nat>, step: E.Step)
    requires !step.Env? && !(step == E.Works(E.OpRunJob) && AtRelease(e, release))
    ensures MayStep(sh, e, release, step)
  {
  }

  lemma ReleaseIsNotHeldUp(b: Both, ok: bool, restored: bool)
    requires Inv(b) && EI.Inv(Current(b)) && AtRelease(Current(b), b.release)
    requires E.TaskStep(Current(b), E.OpRunJob).Some?
    ensures Next(b, RunsRelease(ok, restored)).Some?
  {
    ReleaseIsAwaited(b.ctx.shared, Current(b), b.release, E.TaskStep(Current(b), E.OpRunJob).value);
  }

  /** The context holds up no step of the executor: any step of the program on it is a step of
      both, and the run of the release job is a step of the context too. */
  lemma ExecutorIsNotHeldUp(b: Both, step: E.Step, ok: bool, restored: bool)
    requires Reachable(b) && b.commands != [] && !step.Env? && E.Next(Current(b), step).Some?
    ensures if step == E.Works(E.OpRunJob) && AtRelease(Current(b), b.release)
            then Next(b, RunsRelease(ok, restored)).Some? else Next(b, InCommand(step)).Some?
  {
    if step == E.Works(E.OpRunJob) && AtRelease(Current(b), b.release) {
      ReachableInv(b);
      ReleaseIsNotHeldUp(b, ok, restored);
    } else {
      CommandIsPermitted(b.ctx.shared, Current(b), b.release, step);
    }
  }

  // The steps that begin something are enabled where the context is ready for them.
  lemma BeginningsAreEnabled(b: Both, strict: bool)
    requires b.commands != []
    ensures ContextOpen(b.ctx.shared) ==> Next(b, InCommand(E.Env(E.OpNewCall(strict)))).Some?
    ensures b.ctx.shared.ctx == C.CtxReleasing && b.release.None? ==> Next(b, CallsRelease).Some?
    ensures Recovering(b.ctx.shared) && Current(b).shut.closer == E.CloseReturned ==> Next(b, StartsCommand).Some?
  {
  }

  /** While the context is open a command can be called on the executor in use, which is open;
      Context.Close can call its release when the lanes are drained; and a quarantined context that
      Context.Close has locked can start another executor. */
  lemma CommandsCanBeCalled(b: Both, strict: bool)
    requires Reachable(b)
    ensures b.commands != []
    ensures ContextOpen(b.ctx.shared) || b.ctx.shared.ctx == C.CtxReleasing ==> Current(b).shut.closer == E.Open
    ensures ContextOpen(b.ctx.shared) ==> Next(b, InCommand(E.Env(E.OpNewCall(strict)))).Some?
    ensures b.ctx.shared.ctx == C.CtxReleasing && b.release.None? ==> Next(b, CallsRelease).Some?
    ensures Recovering(b.ctx.shared) && Current(b).shut.closer == E.CloseReturned ==> Next(b, StartsCommand).Some?
  {
    ReachablePhase(b);
    BeginningsAreEnabled(b, strict);
  }
}
