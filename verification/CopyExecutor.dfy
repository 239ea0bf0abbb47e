/** The copy executors beside the context machine.

    A copy is a DoJob call whose caller holds the context's read lock until it returns; the bind
    and the unbind of the thread are Do calls, which nothing cancels. The first copy starts an
    executor and binds it, under the read lock too, and closes it again if the bind fails. An
    attempt of Context.Close unbinds and closes the executor there is, if any; when the release
    then fails, the next copy starts another. */
module CopyExecutor {
  import opened Options
  import opened ContextFrames
  import E = Executor
  import EI = ExecutorInvariant
  import ET = ExecutorTheorems
  import C = ContextWaits

  // Every copy executor there has been; the last one is in use unless it is closed.
  datatype Both = Both(ctx: C.State, copies: seq<E.State>)

  const START := Both(C.INITIAL, [])

  datatype Step = InContext(cstep: C.Step) | StartsCopy | InCopy(k: nat, estep: E.Step)

  predicate CopiesReturned(copy: E.State) {
    forall i :: 0 <= i < |copy.calls| && copy.calls[i].strict ==> copy.calls[i].pc.Returned?
  }

  predicate Unused(copy: E.State) {
    forall i :: 0 <= i < |copy.calls| ==> !copy.calls[i].strict
  }

  predicate AllClosed(copies: seq<E.State>) {
    forall k :: 0 <= k < |copies| ==> copies[k].shut.closer == E.CloseReturned
  }

  // Nobody is inside a copy executor.
  predicate AtRest(copy: E.State) {
    AllReturned(copy) && copy.shut.closer in {E.Open, E.CloseReturned}
  }

  // What the locks of the context and the order of Context.Close let happen in a copy executor.
  predicate MayStep(sh: C.Shared, copy: E.State, step: E.Step) {
    match step
    case Env(OpNewCall(strict)) =>
      copy.shut.closer == E.Open && (ContextOpen(sh) || (!strict && sh.ctx == C.CtxDraining))
    case Env(OpCancelCtx(i)) => i < |copy.calls| && copy.calls[i].strict
    case Env(OpStartClose) => AllReturned(copy) && (sh.ctx == C.CtxDraining || (ContextOpen(sh) && Unused(copy)))
    case _ => true
  }

  predicate Permitted(b: Both, step: Step) {
    match step
    case InContext(cstep) =>
      && (cstep == C.ClosesContext(C.OpCtxLock) ==> forall k :: 0 <= k < |b.copies| ==> AtRest(b.copies[k]))
      && (cstep == C.ClosesContext(C.OpCtxDrained) ==> AllClosed(b.copies))
    case StartsCopy => ContextOpen(b.ctx.shared) && AllClosed(b.copies)
    case InCopy(k, estep) => k < |b.copies| && MayStep(b.ctx.shared, b.copies[k], estep)
  }

  function Next(b: Both, step: Step): Option<Both> {
    if !Permitted(b, step) then None
    else
      match step
      case InContext(cstep) =>
        var t := C.Next(b.ctx, cstep);
        if t.None? then None else Some(b.(ctx := t.value))
      case StartsCopy => Some(b.(copies := b.copies + [E.INITIAL]))
      case InCopy(k, estep) =>
        var t := E.Next(b.copies[k], estep);
        if t.None? then None else Some(b.(copies := b.copies[k := t.value]))
  }

  function Exec(b: Both, steps: seq<Step>): Option<Both>
    decreases |steps|
  {
    if steps == [] then Some(b)
    else match Next(b, steps[0])
      case None => None
      case Some(c) => Exec(c, steps[1..])
  }

  ghost predicate Reachable(b: Both) {
    exists steps :: Exec(START, steps) == Some(b)
  }

  // ---- The invariant

  // Every caller waits for its job.
  predicate CallersWait(copy: E.State) {
    forall i :: 0 <= i < |copy.calls| ==> ET.WaitsForJob(copy.calls[i])
  }

  predicate LockedOk(sh: C.Shared, copy: E.State) {
    && (copy.shut.closer != E.Open ==> AllReturned(copy))
    && (!ContextOpen(sh) ==> CopiesReturned(copy))
    && (sh.ctx in {C.CtxLocked, C.CtxTaking} ==> AllReturned(copy))
    && (sh.ctx == C.CtxReleasing ==> copy.shut.closer == E.CloseReturned)
  }

  ghost predicate CopyOk(sh: C.Shared, copy: E.State) {
    E.Reachable(copy) && CallersWait(copy) && LockedOk(sh, copy) && NoneTold(copy)
  }

  ghost predicate Inv(b: Both) {
    && (forall k :: 0 <= k < |b.copies| ==> CopyOk(b.ctx.shared, b.copies[k]))
    && (b.copies != [] ==> AllClosed(b.copies[..|b.copies| - 1]))
  }

  // A context that is open stays so until it is locked, and it is released only from where the
  // lanes have been drained.
  lemma ContextOnlyCloses(s: C.State, step: C.Step, t: C.State)
    requires C.Next(s, step) == Some(t) && step != C.ClosesContext(C.OpCtxLock)
    ensures ContextOpen(s.shared) ==> ContextOpen(t.shared)
    ensures t.shared.ctx in {C.CtxLocked, C.CtxTaking} ==> s.shared.ctx in {C.CtxLocked, C.CtxTaking}
    ensures t.shared.ctx == C.CtxReleasing ==> s.shared.ctx == C.CtxReleasing || step == C.ClosesContext(C.OpCtxDrained)
  {
    if step.ClosesContext? {
      assert C.CtxStep(s, step.xop) == Some(t);
    } else {
      SharedCtxKept(s, step, t);
    }
  }

  lemma ContextKeepsCopy(s: C.State, step: C.Step, t: C.State, copy: E.State)
    requires LockedOk(s.shared, copy) && C.Next(s, step) == Some(t)
    requires step == C.ClosesContext(C.OpCtxLock) ==> AtRest(copy)
    requires step == C.ClosesContext(C.OpCtxDrained) ==> copy.shut.closer == E.CloseReturned
    ensures LockedOk(t.shared, copy)
  {
    if step == C.ClosesContext(C.OpCtxLock) {
      assert t.shared.ctx == C.CtxLocked;
    } else {
      ContextOnlyCloses(s, step, t);
    }
  }

  lemma ContextKeepsInv(b: Both, step: C.Step, c: Both)
    requires Inv(b) && Next(b, InContext(step)) == Some(c)
    ensures Inv(c)
  {
    forall k | 0 <= k < |c.copies| ensures CopyOk(c.ctx.shared, c.copies[k]) {
      assert CopyOk(b.ctx.shared, b.copies[k]);
      ContextKeepsCopy(b.ctx, step, c.ctx, b.copies[k]);
    }
  }

  lemma StartKeepsInv(b: Both, c: Both)
    requires Inv(b) && Next(b, StartsCopy) == Some(c)
    ensures Inv(c)
  {
    assert E.Exec(E.INITIAL, []) == Some(E.INITIAL);
    assert CopyOk(b.ctx.shared, E.INITIAL);
    assert c.copies[..|c.copies| - 1] == b.copies;
  }

  lemma StepKeepsCallers(copy: E.State, step: E.Step, next: E.State, sh: C.Shared)
    requires CallersWait(copy) && MayStep(sh, copy, step) && E.Next(copy, step) == Some(next)
    ensures CallersWait(next)
  {
    CallsGoOn(copy, step, next);
    NewCalls(copy, step, next);
  }

  lemma StepKeepsLocked(copy: E.State, step: E.Step, next: E.State, sh: C.Shared)
    requires LockedOk(sh, copy) && MayStep(sh, copy, step) && E.Next(copy, step) == Some(next)
    ensures LockedOk(sh, next)
  {
    CallsGoOn(copy, step, next);
    NewCalls(copy, step, next);
    CloserGoesOn(copy, step, next);
  }

  lemma ReplacedCopyIsOk(b: Both, k: nat, c: Both)
    requires k < |b.copies| && |c.copies| == |b.copies| && c.copies == b.copies[k := c.copies[k]]
    requires forall j :: 0 <= j < |b.copies| ==> CopyOk(b.ctx.shared, b.copies[j])
    requires c.ctx == b.ctx && CopyOk(c.ctx.shared, c.copies[k])
    ensures forall j :: 0 <= j < |c.copies| ==> CopyOk(c.ctx.shared, c.copies[j])
  {
    forall j | 0 <= j < |c.copies| ensures CopyOk(c.ctx.shared, c.copies[j]) {
      if j != k { assert CopyOk(b.ctx.shared, b.copies[j]); }
    }
  }

  lemma CopyKeepsInv(b: Both, k: nat, step: E.Step, c: Both)
    requires Inv(b) && Next(b, InCopy(k, step)) == Some(c)
    ensures Inv(c)
  {
    var copy, next := b.copies[k], c.copies[k];
    assert CopyOk(b.ctx.shared, copy);
    ET.ExecutorGoesOn(copy, step, next);
    EI.ReachableInv(copy);
    NobodyIsTold(copy, step, next);
    StepKeepsCallers(copy, step, next, b.ctx.shared);
    StepKeepsLocked(copy, step, next, b.ctx.shared);
    CloserGoesOn(copy, step, next);
    ReplacedCopyIsOk(b, k, c);
    forall j | 0 <= j < |c.copies| - 1 ensures c.copies[j].shut.closer == E.CloseReturned {
      assert b.copies[..|b.copies| - 1][j] == b.copies[j];
    }
  }

  lemma StepKeepsInv(b: Both, step: Step, c: Both)
    requires Inv(b) && Next(b, step) == Some(c)
    ensures Inv(c)
  {
    match step
    case InContext(cstep) => ContextKeepsInv(b, cstep, c);
    case StartsCopy => StartKeepsInv(b, c);
    case InCopy(k, estep) => CopyKeepsInv(b, k, estep, c);
  }

  lemma {:induction false} RunKeepsInv(b: Both, steps: seq<Step>, c: Both)
    requires Inv(b) && Exec(b, steps) == Some(c)
    ensures Inv(c)
    decreases |steps|
  {
    if steps != [] {
      var d := Next(b, steps[0]).value;
      StepKeepsInv(b, steps[0], d);
      RunKeepsInv(d, steps[1..], c);
    }
  }

  lemma ReachableInv(b: Both)
    requires Reachable(b)
    ensures Inv(b)
  {
    var steps :| Exec(START, steps) == Some(b);
    RunKeepsInv(START, steps, b);
  }

  lemma ReachableCopy(b: Both, k: nat)
    requires Reachable(b) && k < |b.copies|
    ensures CopyOk(b.ctx.shared, b.copies[k]) && EI.Inv(b.copies[k])
  {
    ReachableInv(b);
    assert CopyOk(b.ctx.shared, b.copies[k]);
    EI.ReachableInv(b.copies[k]);
  }

  // ---- Context.Close and the copies

  /** While Context.Close is at work, in its first attempt or a later one, every copy ever begun has
      returned, and its job, if it was accepted, has run and been recycled. */
  lemma NoCopyDuringClose(b: Both, k: nat, i: nat)
    requires Reachable(b) && b.ctx.shared.ctx != C.CtxIdle
    requires k < |b.copies| && i < |b.copies[k].calls| && b.copies[k].calls[i].strict
    ensures b.copies[k].calls[i].pc.Returned?
    ensures i in b.copies[k].work.accepted ==> i in b.copies[k].work.ran && b.copies[k].calls[i].recycles == 1
  {
    ReachableCopy(b, k);
    ET.ReturnedCallIsDone(b.copies[k], i);
  }

  /** A copy answers with its own result, or that it was canceled before it was submitted; it never
      finds its executor closed. */
  lemma CopyAnswers(b: Both, k: nat, i: nat)
    requires Reachable(b) && k < |b.copies| && i < |b.copies[k].calls|
    requires b.copies[k].calls[i].strict && b.copies[k].calls[i].pc.Returned?
    ensures var call := b.copies[k].calls[i];
            if i in b.copies[k].work.accepted then call.pc.outcome == E.Result(i) && i in b.copies[k].work.ran
            else call.pc.outcome == E.Cancelled && call.cancelled
  {
    ReachableCopy(b, k);
    UntoldAnswer(b.copies[k], i);
    ET.OwnResult(b.copies[k], i);
    ET.RunsInAcceptanceOrder(b.copies[k]);
  }

  /** From the moment Context.Close has the lock until it begins to close the executors, every copy
      executor is idle: everything it ever accepted, the bind included, has run. */
  lemma CopyExecutorsAreIdle(b: Both, k: nat)
    requires Reachable(b) && b.ctx.shared.ctx in {C.CtxLocked, C.CtxTaking} && k < |b.copies|
    ensures b.copies[k].work.ran == b.copies[k].work.accepted && b.copies[k].work.queue == []
    ensures forall i :: 0 <= i < |b.copies[k].calls| && i in b.copies[k].work.accepted ==>
              b.copies[k].calls[i].recycles == 1
  {
    ReachableCopy(b, k);
    ET.ReturnedCallersLeaveNothingBehind(b.copies[k]);
  }

  // What a closed copy executor leaves behind: nothing.
  lemma ClosedCopyIsDone(b: Both, k: nat)
    requires Reachable(b) && k < |b.copies| && b.copies[k].shut.closer == E.CloseReturned
    ensures b.copies[k].work.ran == b.copies[k].work.accepted
    ensures b.copies[k].work.queue == [] && b.copies[k].work.worker.Exited?
    ensures forall i :: 0 <= i < |b.copies[k].calls| && i in b.copies[k].work.accepted ==>
              b.copies[k].calls[i].recycles == 1
  {
    ReachableCopy(b, k);
    ET.CloseWaitsForAccepted(b.copies[k]);
  }

  /** There is one copy executor at a time: every one but the last has been closed, with every job
      it accepted run and recycled. */
  lemma OneCopyExecutor(b: Both, k: nat)
    requires Reachable(b) && k + 1 < |b.copies|
    ensures b.copies[k].shut.closer == E.CloseReturned && b.copies[k].work.ran == b.copies[k].work.accepted
  {
    ReachableInv(b);
    assert b.copies[..|b.copies| - 1][k] == b.copies[k];
    ClosedCopyIsDone(b, k);
  }

  /** At the release of the primary context, in whichever attempt, every copy executor ever started
      has been closed, and every job it accepted, bind and unbind among them, has run and been
      recycled. */
  lemma ReleaseFindsCopyExecutorsClosed(b: Both, ok: bool, restored: bool, k: nat)
    requires Reachable(b) && C.CtxStep(b.ctx, C.OpCtxRelease(ok, restored)).Some? && k < |b.copies|
    ensures b.copies[k].shut.closer == E.CloseReturned && b.copies[k].work.ran == b.copies[k].work.accepted
    ensures b.copies[k].work.queue == [] && b.copies[k].work.worker.Exited?
    ensures forall i :: 0 <= i < |b.copies[k].calls| && i in b.copies[k].work.accepted ==>
              b.copies[k].calls[i].recycles == 1
  {
    assert b.ctx.shared.ctx == C.CtxReleasing;
    ReachableCopy(b, k);
    ClosedCopyIsDone(b, k);
  }

  // ---- The context holds up no copy

  /** Every step of the program on a copy executor is possible beside the context, and while the
      context is open a copy can begin, on the executor in use or, if there is none, on a new one. */
  lemma CopiesAreNotHeldUp(b: Both, k: nat, step: E.Step)
    ensures k < |b.copies| && !step.Env? && E.Next(b.copies[k], step).Some? ==> Next(b, InCopy(k, step)).Some?
    ensures k < |b.copies| && ContextOpen(b.ctx.shared) && b.copies[k].shut.closer == E.Open ==>
              Next(b, InCopy(k, E.Env(E.OpNewCall(true)))).Some?
    ensures ContextOpen(b.ctx.shared) && AllClosed(b.copies) ==> Next(b, StartsCopy).Some?
  {
  }
}
