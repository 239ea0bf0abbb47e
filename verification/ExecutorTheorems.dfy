/** What the executor promises, for every reachable state of every interleaving. */
module ExecutorTheorems {
  import opened Options
  import opened Executor
  import opened ExecutorInvariant

  // ---- Runs get longer

  lemma {:induction false} ExecutorRunAppends(s: State, a: seq<Step>, t: State, step: Step, u: State)
    requires Exec(s, a) == Some(t) && Next(t, step) == Some(u)
    ensures Exec(s, a + [step]) == Some(u)
    decreases |a|
  {
    if a == [] {
      assert Exec(u, []) == Some(u) && (a + [step])[1..] == [];
    } else {
      assert (a + [step])[1..] == a[1..] + [step];
      ExecutorRunAppends(Next(s, a[0]).value, a[1..], t, step, u);
    }
  }

  lemma ExecutorGoesOn(s: State, step: Step, t: State)
    requires Reachable(s) && Next(s, step) == Some(t)
    ensures Reachable(t)
  {
    var before :| Exec(INITIAL, before) == Some(s);
    ExecutorRunAppends(INITIAL, before, s, step, t);
  }

  // ---- Completions and their pool

  // Who takes a completion back to the pool, if the step is such a step.
  function Returns(s: State, step: Step): Option<nat> {
    match step
    case Waits(i, OpPut) => Some(i)
    case Works(OpPutBack) => if s.work.worker.Working? then Some(s.work.worker.call) else None
    case _ => None
  }

  // A completion goes back to the pool clean, once per draw, and nobody keeps using it.
  lemma ReturnedOnceAndClean(s: State, step: Step, t: State, i: nat)
    requires Reachable(s) && Next(s, step) == Some(t) && Returns(s, step) == Some(i)
    ensures i < |s.calls| == |t.calls|
    ensures var c := s.calls[i].comp;
            && c < |t.comps| && t.comps[c] == Completion(Waiting, [], Unused)
            && c !in s.pool && t.pool == s.pool + {c}
            && s.calls[i].restored == 0 && t.calls[i].restored == s.calls[i].drawn == 1
            && (forall j :: 0 <= j < |t.calls| && Uses(t.calls[j]) ==> t.calls[j].comp != c)
  {
    ReachableInv(s);
    StepKeepsInv(s, step, t);
    PutIsClean(s, step, t, i);
    var c := s.calls[i].comp;
    forall j | 0 <= j < |t.calls| && Uses(t.calls[j]) ensures t.calls[j].comp != c {
      assert CallOk(t, j);
      UsesValid(t, j);
    }
  }

  lemma PutIsClean(s: State, step: Step, t: State, i: nat)
    requires CallsOk(s) && PoolOk(s) && Next(s, step) == Some(t) && Returns(s, step) == Some(i)
    ensures i < |s.calls| == |t.calls| && s.calls[i].comp < |s.comps| == |t.comps|
    ensures t.comps[s.calls[i].comp] == CLEAN
    ensures s.calls[i].comp !in s.pool && t.pool == s.pool + {s.calls[i].comp}
    ensures s.calls[i].restored == 0 && t.calls[i].restored == s.calls[i].drawn == 1
  {
    assert CallOk(s, i);
    match step
    case Waits(_, op) => WaitMoveOk(i, SideOf(s, i), op, WaitMove(SideOf(s, i), op).value);
    case Works(op) => TaskMoveOk(i, SideOf(s, i), op, TaskMove(i, SideOf(s, i), op).value);
  }

  // Every draw is matched by one return as soon as both sides have let go.
  lemma DrawsMatchReturns(s: State, i: nat)
    requires Reachable(s) && i < |s.calls|
    ensures s.calls[i].restored <= s.calls[i].drawn <= 1
    ensures s.calls[i].restored < s.calls[i].drawn <==> Uses(s.calls[i])
  {
    ReachableInv(s);
    assert CallOk(s, i);
  }

  // Two calls never share a completion, and a pooled one is in nobody's hands.
  lemma CompletionsAreExclusive(s: State, i: nat, j: nat)
    requires Reachable(s) && i < |s.calls| && j < |s.calls| && Uses(s.calls[i])
    ensures s.calls[i].comp !in s.pool
    ensures i != j && Uses(s.calls[j]) ==> s.calls[i].comp != s.calls[j].comp
  {
    ReachableInv(s);
    assert CallOk(s, i) && CallOk(s, j);
    UsesValid(s, i);
  }

  // A side that has given a completion up does not touch it again: only a side that
  // still uses it, or a draw from the pool, changes a completion.
  lemma TouchedOnlyWhileUsed(s: State, step: Step, t: State, c: nat)
    requires Reachable(s) && Next(s, step) == Some(t)
    requires c < |s.comps| && (c < |t.comps| ==> t.comps[c] != s.comps[c])
    ensures match step
            case Waits(i, _) => i < |s.calls| && CallerUses(s.calls[i].pc) && s.calls[i].comp == c
            case Works(_) => s.work.worker.Working? && s.work.worker.call < |s.calls|
                             && WorkerUses(s.calls[s.work.worker.call].task)
                             && s.calls[s.work.worker.call].comp == c
            case TakesPooled(_, d) => d == c && c in s.pool
            case _ => false
  {
    ReachableInv(s);
    match step {
      case Waits(i, op) =>
        assert CallOk(s, i);
        WaitMoveOk(i, SideOf(s, i), op, WaitMove(SideOf(s, i), op).value);
      case Works(op) =>
        var i := s.work.worker.call;
        assert CallOk(s, i);
        TaskMoveOk(i, SideOf(s, i), op, TaskMove(i, SideOf(s, i), op).value);
      case _ =>
    }
  }

  lemma ChannelIsReady(i: nat, p: Side)
    requires SideOk(i, p)
    ensures p.call.task == Recycled ==> TaskMove(i, p, OpPostResult).Some?
    ensures p.call.task == WorkerDraining ==> TaskMove(i, p, OpDrainResult).Some?
    ensures p.call.pc == LeaveDraining ==> WaitMove(p, OpDrain).Some?
  {
  }

  // The channel operations made after a swap never wait: the worker finds room for its
  // result, and whichever side drains finds the result there.
  lemma HandshakeNeverBlocks(s: State, i: nat)
    requires Reachable(s) && i < |s.calls|
    ensures s.work.worker.Working? && s.work.worker.call == i && s.calls[i].task == Recycled
            ==> TaskStep(s, OpPostResult).Some?
    ensures s.work.worker.Working? && s.work.worker.call == i && s.calls[i].task == WorkerDraining
            ==> TaskStep(s, OpDrainResult).Some?
    ensures s.calls[i].pc == LeaveDraining ==> WaitStep(s, i, OpDrain).Some?
  {
    ReachableInv(s);
    assert CallOk(s, i);
    if Uses(s.calls[i]) {
      UsesValid(s, i);
      ChannelIsReady(i, SideOf(s, i));
    }
  }

  // A swap that will have to drain finds the result on the channel.
  lemma DrainFindsTheResult(s: State, i: nat)
    requires Reachable(s) && i < |s.calls| && s.calls[i].comp < |s.comps|
    ensures var k := s.comps[s.calls[i].comp];
            && (s.calls[i].task == Posted && k.state == Abandoned ==> k.chan == [i])
            && (s.calls[i].pc == Leaving && k.state == Delivered ==> k.chan == [i])
  {
    ReachableInv(s);
    assert CallOk(s, i);
  }

  // ---- Results and jobs

  // The wait of a call ends with the job: DoJob, and any call whose ctx is not canceled, as
  // the calls of Do never are.
  predicate WaitsForJob(call: Call) {
    call.strict || !call.cancelled
  }

  // A caller only ever gets the result of its own job, which has then run. A caller that waits
  // for its job and whose job was accepted gets that result. Only a canceled caller is told so,
  // and only one whose job was not accepted is told that the executor is closed.
  lemma OwnResult(s: State, i: nat)
    requires Reachable(s) && i < |s.calls| && s.calls[i].pc.Returned?
    ensures s.calls[i].pc.outcome.Result? ==> s.calls[i].pc.outcome.job == i && i in s.work.ran
    ensures WaitsForJob(s.calls[i]) && i in s.work.accepted ==>
              s.calls[i].pc.outcome == Result(i) && i in s.work.ran
    ensures s.calls[i].pc.outcome == Cancelled ==> s.calls[i].cancelled
    ensures s.calls[i].pc.outcome == ErrClosed ==> i !in s.work.accepted && s.shut.closed
  {
    ReachableInv(s);
    assert CallOk(s, i);
    RanIffPastTaken(s, i);
  }

  // An executor that is not closed serves its callers: a call that has returned, and whose ctx was
  // not canceled, has run and has its own result.
  lemma OpenExecutorServes(s: State, i: nat)
    requires Reachable(s) && i < |s.calls| && s.calls[i].pc.Returned?
    requires !s.shut.closed && !s.calls[i].cancelled
    ensures s.calls[i].pc.outcome == Result(i) && i in s.work.ran
  {
    ReachableInv(s);
    assert CallOk(s, i);
    RanIffPastTaken(s, i);
  }

  // The positions of a call whose ctx was canceled before it began.
  predicate Untried(call: Call) {
    call.cancelled && call.task == Unsent && call.pc in {CheckingCtx, RecyclingJob(Cancelled), Returned(Cancelled)}
  }

  lemma StepKeepsUntried(s: State, step: Step, t: State, i: nat)
    requires QueueOk(s.calls, s.work) && Next(s, step) == Some(t) && i < |s.calls| && Untried(s.calls[i])
    ensures i < |t.calls| && Untried(t.calls[i])
  {
  }

  // A job whose ctx is canceled before the call begins is never accepted.
  lemma {:induction false} CanceledBeforehand(s: State, steps: seq<Step>, t: State, i: nat)
    requires Inv(s) && Exec(s, steps) == Some(t)
    requires i < |s.calls| && s.calls[i].pc == CheckingCtx && s.calls[i].cancelled
    ensures i < |t.calls| && i !in t.work.accepted
    ensures t.calls[i].pc.Returned? ==> t.calls[i].pc.outcome == Cancelled
  {
    assert CallOk(s, i);
    UntriedForEver(s, steps, t, i);
    RunKeepsInv(s, steps, t);
  }

  lemma {:induction false} UntriedForEver(s: State, steps: seq<Step>, t: State, i: nat)
    requires Inv(s) && Exec(s, steps) == Some(t) && i < |s.calls| && Untried(s.calls[i])
    ensures i < |t.calls| && Untried(t.calls[i])
    decreases |steps|
  {
    if steps != [] {
      var u := Next(s, steps[0]).value;
      StepKeepsInv(s, steps[0], u);
      StepKeepsUntried(s, steps[0], u, i);
      UntriedForEver(u, steps[1..], t, i);
    }
  }

  lemma RanIffPastTaken(s: State, i: nat)
    requires QueueOk(s.calls, s.work) && HistoryOk(s.calls, s.work) && i < |s.calls|
    ensures i in s.work.ran <==> s.calls[i].task !in {Unsent, Queued, Taken}
  {
    var todo := NotYetRun(s.calls, s.work);
    assert i in s.work.accepted <==> i in s.work.ran || i in todo;
    if i in s.work.ran { DistinctParts(s.work.ran, todo, i); }
  }

  lemma DistinctParts(p: seq<nat>, q: seq<nat>, x: nat)
    requires Distinct(p + q) && x in p
    ensures x !in q
  {
    var a :| 0 <= a < |p| && p[a] == x;
    forall b | 0 <= b < |q| ensures q[b] != x {
      assert (p + q)[a] != (p + q)[|p| + b];
    }
  }

  // Accepted tasks run in acceptance order, each once, one at a time: what has run is a
  // prefix of what was accepted, and at most the task in hand and the buffered one wait.
  lemma RunsInAcceptanceOrder(s: State)
    requires Reachable(s)
    ensures s.work.ran <= s.work.accepted && |s.work.accepted| <= |s.work.ran| + 1 + TASK_CAPACITY
    ensures Distinct(s.work.accepted)
    ensures forall i :: 0 <= i < |s.calls| ==> s.calls[i].runs == (if i in s.work.ran then 1 else 0)
  {
    ReachableInv(s);
    forall i | 0 <= i < |s.calls| ensures s.calls[i].runs == (if i in s.work.ran then 1 else 0) {
      assert CallOk(s, i);
      RanIffPastTaken(s, i);
    }
  }

  // A job is recycled at most once; it has been recycled once the call and the worker are
  // through with it, and by the worker before any result of it can be received.
  lemma JobRecycledOnce(s: State, i: nat)
    requires Reachable(s) && i < |s.calls|
    ensures s.calls[i].recycles <= 1
    ensures s.calls[i].pc.Returned? && s.calls[i].task in {Unsent, Done} ==> s.calls[i].recycles == 1
    ensures s.calls[i].pc.Took? || s.calls[i].pc == Returned(Result(i)) ==> s.calls[i].recycles == 1
  {
    ReachableInv(s);
    assert CallOk(s, i);
  }

  // ---- Close

  // A caller that waits for its job leaves nothing behind when it returns.
  lemma ReturnedCallIsDone(s: State, i: nat)
    requires Inv(s) && i < |s.calls| && WaitsForJob(s.calls[i]) && s.calls[i].pc.Returned?
    ensures i in s.work.accepted ==>
              && i in s.work.ran && s.calls[i].recycles == 1
              && s.calls[i].task !in {Unsent, Queued, Taken, Ran, Recycled}
  {
    assert CallOk(s, i);
    RanIffPastTaken(s, i);
  }

  // An executor whose callers all wait for their jobs, as those of the copy executor do (the
  // copies through DoJob, bind and unbind through Do), is idle as soon as they have returned:
  // everything accepted has run and been recycled.
  lemma ReturnedCallersLeaveNothingBehind(s: State)
    requires Reachable(s)
    requires forall i :: 0 <= i < |s.calls| ==> WaitsForJob(s.calls[i]) && s.calls[i].pc.Returned?
    ensures s.work.ran == s.work.accepted && s.work.queue == []
    ensures forall i :: 0 <= i < |s.calls| && i in s.work.accepted ==> s.calls[i].recycles == 1
  {
    ReachableInv(s);
    forall i | 0 <= i < |s.calls| && i in s.work.accepted ensures i in s.work.ran && s.calls[i].recycles == 1 {
      ReturnedCallIsDone(s, i);
    }
    var todo := NotYetRun(s.calls, s.work);
    if todo != [] {
      assert todo[0] in s.work.accepted;
      DistinctParts(s.work.ran, todo, todo[0]);
      assert false;
    }
  }

  // Once Close returns, everything that was ever accepted has run and been recycled.
  lemma CloseWaitsForAccepted(s: State)
    requires Reachable(s) && s.shut.closer == CloseReturned
    ensures s.work.ran == s.work.accepted && s.work.queue == []
    ensures forall i :: 0 <= i < |s.calls| && i in s.work.accepted ==>
              s.calls[i].task == Done && s.calls[i].recycles == 1
  {
    ReachableInv(s);
    forall i | 0 <= i < |s.calls| && i in s.work.accepted
      ensures s.calls[i].task == Done && s.calls[i].recycles == 1
    {
      assert CallOk(s, i);
    }
  }

  // After Close has set the flag nothing more is accepted, however the run goes on.
  lemma {:induction false} NothingAcceptedLater(s: State, steps: seq<Step>, t: State)
    requires Inv(s) && s.shut.closed && Exec(s, steps) == Some(t)
    ensures t.shut.closed && t.work.accepted == s.work.accepted
    decreases |steps|
  {
    if steps != [] {
      var u := Next(s, steps[0]).value;
      StepKeepsInv(s, steps[0], u);
      ClosedStepAcceptsNothing(s, steps[0], u);
      NothingAcceptedLater(u, steps[1..], t);
    }
  }

  lemma ClosedStepAcceptsNothing(s: State, step: Step, t: State)
    requires Inv(s) && s.shut.closed && Next(s, step) == Some(t)
    ensures t.shut.closed && t.work.accepted == s.work.accepted
  {}

  // So Close is final: every later state has the same accepted tasks, all of them run.
  lemma CloseIsFinal(s: State, steps: seq<Step>, t: State)
    requires Reachable(s) && s.shut.closer == CloseReturned && Exec(s, steps) == Some(t)
    ensures t.work.accepted == s.work.accepted == t.work.ran
  {
    CloseWaitsForAccepted(s);
    ReachableInv(s);
    NothingAcceptedLater(s, steps, t);
    RunKeepsInv(s, steps, t);
    assert t.work.accepted == t.work.ran + NotYetRun(t.calls, t.work);
    RanOnlyGrows(s, steps, t);
  }

  lemma {:induction false} RanOnlyGrows(s: State, steps: seq<Step>, t: State)
    requires Exec(s, steps) == Some(t)
    ensures s.work.ran <= t.work.ran
    decreases |steps|
  {
    if steps != [] {
      var u := Next(s, steps[0]).value;
      assert s.work.ran <= u.work.ran;
      RanOnlyGrows(u, steps[1..], t);
    }
  }

  // The done case of submit's select can never be taken.
  lemma DoneCaseNeverEnabled(s: State, i: nat)
    requires Reachable(s)
    ensures Next(s, Submits(i, OpSelectDone)) == None
  {
    ReachableInv(s);
  }

  // A thread retired before Close is never handed back to the Go runtime.
  lemma RetiredThreadStaysLocked(s: State)
    requires Reachable(s) && s.shut.retireFirst
    ensures s.shut.thread != Unpinned
    ensures s.shut.done ==> s.shut.thread == Quarantined
  {
    ReachableInv(s);
  }

  // The worker has seen quit.
  predicate HasSeenQuit(w: Worker) {
    !w.Polling? && (w.Working? ==> w.draining)
  }

  lemma StepKeepsSeen(s: State, step: Step, t: State)
    requires Next(s, step) == Some(t) && HasSeenQuit(s.work.worker)
    ensures HasSeenQuit(t.work.worker)
  {}

  // From then on it only drains what is queued and leaves; it does not wait for work again.
  lemma {:induction false} QuitIsForGood(s: State, steps: seq<Step>, t: State)
    requires Exec(s, steps) == Some(t) && HasSeenQuit(s.work.worker)
    ensures HasSeenQuit(t.work.worker)
    decreases |steps|
  {
    if steps != [] {
      var u := Next(s, steps[0]).value;
      StepKeepsSeen(s, steps[0], u);
      QuitIsForGood(u, steps[1..], t);
    }
  }
}
