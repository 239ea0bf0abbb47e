/** What a step of the context machine leaves of the context, and what a step of an executor leaves
    of its calls, for the machines that run the two together. */
module ContextFrames {
  import opened Options
  import E = Executor
  import EI = ExecutorInvariant
  import ET = ExecutorTheorems
  import C = ContextWaits

  predicate ContextOpen(sh: C.Shared) {
    sh.ctx == C.CtxIdle && !sh.closed && !sh.commandErr
  }

  predicate AllReturned(e: E.State) {
    forall i :: 0 <= i < |e.calls| ==> e.calls[i].pc.Returned?
  }

  // Only the steps of Context.Close change what it has come to.
  lemma SharedCtxKept(s: C.State, step: C.Step, t: C.State)
    requires C.Next(s, step) == Some(t) && !step.ClosesContext?
    ensures t.shared.ctx == s.shared.ctx && t.shared.closed == s.shared.closed
    ensures t.shared.commandErr == s.shared.commandErr
  {
  }

  lemma CallGoesOn(s: E.State, step: E.Step, t: E.State, i: nat)
    requires E.Next(s, step) == Some(t) && i < |s.calls|
    ensures i < |t.calls| && t.calls[i].strict == s.calls[i].strict
    ensures s.calls[i].pc.Returned? ==> t.calls[i].pc.Returned?
    ensures t.calls[i].cancelled ==> s.calls[i].cancelled || step == E.Env(E.OpCancelCtx(i))
  {
  }

  // A call is made by the environment, and begins uncanceled.
  lemma NewCalls(s: E.State, step: E.Step, t: E.State)
    requires E.Next(s, step) == Some(t)
    ensures |s.calls| <= |t.calls|
    ensures |t.calls| > |s.calls| ==>
              && |t.calls| == |s.calls| + 1 && !t.calls[|s.calls|].cancelled && !t.calls[|s.calls|].pc.Returned?
              && step == E.Env(E.OpNewCall(t.calls[|s.calls|].strict))
  {
  }

  lemma CallsGoOn(s: E.State, step: E.Step, t: E.State)
    requires E.Next(s, step) == Some(t)
    ensures |s.calls| <= |t.calls|
    ensures forall i :: 0 <= i < |s.calls| ==> t.calls[i].strict == s.calls[i].strict
    ensures forall i :: 0 <= i < |s.calls| && s.calls[i].pc.Returned? ==> t.calls[i].pc.Returned?
    ensures forall i :: 0 <= i < |s.calls| && t.calls[i].cancelled ==>
              s.calls[i].cancelled || step == E.Env(E.OpCancelCtx(i))
  {
    NewCalls(s, step, t);
    forall i | 0 <= i < |s.calls|
      ensures t.calls[i].strict == s.calls[i].strict
      ensures s.calls[i].pc.Returned? ==> t.calls[i].pc.Returned?
      ensures t.calls[i].cancelled ==> s.calls[i].cancelled || step == E.Env(E.OpCancelCtx(i))
    {
      CallGoesOn(s, step, t, i);
    }
  }

  // An executor begins to close only when it is told to, and stays closed.
  lemma CloserGoesOn(s: E.State, step: E.Step, t: E.State)
    requires E.Next(s, step) == Some(t)
    ensures s.shut.closer == E.Open ==> t.shut.closer == E.Open || step == E.Env(E.OpStartClose)
    ensures s.shut.closer != E.Open ==> t.shut.closer != E.Open
    ensures s.shut.closer == E.CloseReturned ==> t.shut.closer == E.CloseReturned
  {
  }

  // Jobs are accepted by Sends and run by OpRunJob.
  lemma HistoryGoesOn(s: E.State, step: E.Step, t: E.State)
    requires E.Next(s, step) == Some(t)
    ensures t.work.accepted == if step.Sends? then s.work.accepted + [step.i] else s.work.accepted
    ensures t.work.ran == if step == E.Works(E.OpRunJob) then s.work.ran + [s.work.worker.call] else s.work.ran
    ensures step == E.Works(E.OpRunJob) ==> s.work.worker.Working?
  {
  }

  // A job is accepted while its caller is inside.
  lemma SenderIsInside(s: E.State, i: nat, t: E.State)
    requires EI.Inv(s) && E.Send(s, i) == Some(t)
    ensures i < |s.calls| && !s.calls[i].pc.Returned? && i !in s.work.accepted
  {
    assert EI.CallOk(s, i);
  }

  // The job that is run next is the first one that is accepted and has not run.
  lemma RunnerIsNext(s: E.State, t: E.State)
    requires EI.Inv(s) && E.TaskStep(s, E.OpRunJob) == Some(t)
    ensures s.work.worker.call < |s.calls| && s.work.worker.call !in s.work.ran
    ensures s.work.accepted == s.work.ran + [s.work.worker.call] + s.work.queue
  {
    var i := s.work.worker.call;
    assert s.calls[i].task == E.Taken;
    assert EI.NotYetRun(s.calls, s.work) == [i] + s.work.queue;
    ET.RanIffPastTaken(s, i);
  }

  // No caller is told that the executor is closed.
  predicate NoneTold(e: E.State) {
    forall i :: 0 <= i < |e.calls| ==> !EI.ToldClosed(e.calls[i].pc)
  }

  lemma ToldGoesOn(s: E.State, step: E.Step, t: E.State, i: nat)
    requires E.Next(s, step) == Some(t) && i < |t.calls| && EI.ToldClosed(t.calls[i].pc)
    ensures i < |s.calls|
    ensures EI.ToldClosed(s.calls[i].pc) || ((s.shut.closed || s.shut.done) && !s.calls[i].pc.Returned?)
  {
  }

  // An executor that is closed only behind its callers tells nobody.
  lemma NobodyIsTold(s: E.State, step: E.Step, t: E.State)
    requires EI.Inv(s) && E.Next(s, step) == Some(t) && NoneTold(s)
    requires s.shut.closer != E.Open ==> AllReturned(s)
    ensures NoneTold(t)
  {
    forall i | 0 <= i < |t.calls| ensures !EI.ToldClosed(t.calls[i].pc) {
      if EI.ToldClosed(t.calls[i].pc) {
        ToldGoesOn(s, step, t, i);
        assert false;
      }
    }
  }

  // What a caller that nobody turns away answers.
  lemma UntoldAnswer(e: E.State, i: nat)
    requires E.Reachable(e) && NoneTold(e) && i < |e.calls| && e.calls[i].pc.Returned?
    ensures e.calls[i].pc.outcome == E.Result(i) || (e.calls[i].pc.outcome == E.Cancelled && e.calls[i].cancelled)
    ensures e.calls[i].pc.outcome == E.Result(i) ==> i in e.work.ran
  {
    ET.OwnResult(e, i);
  }
}
