/** What the calls on a context return, in every run: a Synchronize that its caller does not cancel
    waits for the driver, a Close of a handle destroys it, and Context.Close releases, unless
    something on the way really was closed, quarantined or failed. */
module ContextWaitsAnswers {
  import opened Options
  import opened WaitLanes
  import opened ContextWaits
  import opened ContextWaitsInvariant
  import opened ContextWaitsSteps
  import opened ContextWaitsProgress

  // ---- Synchronize

  // The caller of a wait knows what it will return.
  predicate Decided(pc: WaitPc) {
    pc in {Refused, Rejected, Released, LeavingContext, LeavingHandle, Returned}
  }

  predicate WaitAnswerOk(s: State, w: Wait) {
    && (Decided(w.pc) <==> w.answer != Unanswered)
    && (w.job != NotSubmitted && w.answer != Unanswered ==> w.answer in {Done, Canceled})
    && (w.answer == Done ==> w.job == Delivered)
    && (w.answer == Canceled ==> w.cancelled)
    && (w.answer == HandleIsClosed ==> HandleClosed(s, w))
    && (w.answer == ContextIsClosed ==> s.shared.closed)
  }

  // What was closed stays closed.
  predicate StaysClosed(s: State, t: State) {
    && |s.handles| <= |t.handles| && (s.shared.closed ==> t.shared.closed)
    && forall h :: 0 <= h < |s.handles| && s.handles[h].closed ==> t.handles[h].closed
  }

  lemma ClosedStaysClosed(s: State, step: Step, t: State)
    requires Next(s, step) == Some(t)
    ensures StaysClosed(s, t)
  {
  }

  lemma SameAnswer(s: State, t: State, w: Wait)
    requires WaitAnswerOk(s, w) && StaysClosed(s, t)
    ensures WaitAnswerOk(t, w) && WaitAnswerOk(t, w.(cancelled := true))
  {
  }

  lemma MoveKeepsAnswer(s: State, i: nat, op: WaitOp, t: State)
    requires i < |s.waits| && WaitAnswerOk(s, s.waits[i]) && WaitOk(s.waits[i], |s.handles|, |s.lanes|, s.shared)
    requires WaitStep(s, i, op) == Some(t)
    ensures WaitAnswerOk(t, t.waits[i])
  {
  }

  lemma CallerKeepsAnswer(s: State, step: Step, t: State)
    requires step.LocksHandle? || step.Chooses? || step.LocksCreate? || step.Rechooses?
             || step.Binds? || step.Tracks? || step.Submits? || step.ReleasesRejected? || step.UntracksRejected?
    requires Next(s, step) == Some(t) && step.i < |s.waits| && WaitAnswerOk(s, s.waits[step.i])
    requires WaitOk(s.waits[step.i], |s.handles|, |s.lanes|, s.shared)
    ensures step.i < |t.waits| && WaitAnswerOk(t, t.waits[step.i])
  {
  }

  // What a lane does to the job of a wait.
  lemma LaneKeepsAnswer(s: State, step: Step, t: State, i: nat)
    requires step.LaneRuns? || step.LaneReleases? || step.LaneUntracks? || step.LaneDelivers? || step.LaneFences?
    requires Next(s, step) == Some(t) && i < |s.waits| && WaitAnswerOk(s, s.waits[i])
    ensures i < |t.waits| && WaitAnswerOk(t, t.waits[i])
  {
  }

  predicate CallerStep(step: Step) {
    step.Waits? || step.LocksHandle? || step.Chooses? || step.LocksCreate? || step.Rechooses?
    || step.Binds? || step.Tracks? || step.Submits? || step.ReleasesRejected? || step.UntracksRejected?
  }

  predicate LaneStepOf(step: Step) {
    step.LaneRuns? || step.LaneReleases? || step.LaneUntracks? || step.LaneDelivers? || step.LaneFences?
  }

  // The other steps leave the waits alone, but for a cancellation and new ones.
  lemma OthersKeepWaits(s: State, step: Step, t: State, i: nat)
    requires Next(s, step) == Some(t) && i < |s.waits|
    requires !LaneStepOf(step) && (CallerStep(step) ==> step.i != i)
    ensures i < |t.waits| && t.waits[i] in {s.waits[i], s.waits[i].(cancelled := true)}
  {
  }

  lemma StepKeepsAnswer(s: State, step: Step, t: State, i: nat)
    requires Inv(s) && Next(s, step) == Some(t) && i < |s.waits| && WaitAnswerOk(s, s.waits[i])
    ensures i < |t.waits| && WaitAnswerOk(t, t.waits[i])
  {
    assert WaitOk(s.waits[i], |s.handles|, |s.lanes|, s.shared);
    if LaneStepOf(step) {
      LaneKeepsAnswer(s, step, t, i);
    } else if CallerStep(step) && step.i == i {
      if step.Waits? { MoveKeepsAnswer(s, i, step.wop, t); } else { CallerKeepsAnswer(s, step, t); }
    } else {
      OthersKeepWaits(s, step, t, i);
      ClosedStaysClosed(s, step, t);
      SameAnswer(s, t, s.waits[i]);
    }
  }

  // A new call has no answer yet.
  lemma NewWaitIsUnanswered(s: State, step: Step, t: State, i: nat)
    requires Next(s, step) == Some(t) && |s.waits| <= i < |t.waits|
    ensures WaitAnswerOk(t, t.waits[i])
  {
  }

  predicate AnswersOk(s: State) {
    && (forall i :: 0 <= i < |s.waits| ==> WaitAnswerOk(s, s.waits[i]))
    && (forall k :: 0 <= k < |s.closes| ==> CloseAnswerOk(s, s.closes[k]))
  }

  // ---- Close of a stream or event

  predicate CloseDecided(pc: ClosePc) {
    pc.CloseLeavingContext? || pc.Settling? || pc.CloseReturned?
  }

  predicate CloseAnswerOk(s: State, c: Close) {
    && (CloseDecided(c.pc) <==> c.answer != Unanswered)
    && c.answer != Canceled
    && (Destroyed(c.pc) ==> c.answer == Done)
    && (c.answer == Done && !Destroyed(c.pc) ==> c.handle < |s.handles| && s.handles[c.handle].closed)
    && (c.answer == HandleIsClosed ==> c.handle < |s.handles| && s.handles[c.handle].closed)
    && (c.answer == ContextIsClosed ==> s.shared.closed)
  }

  predicate CloserStepOf(step: Step) {
    step.Closes? || step.LocksWrite? || step.SendsFence? || step.Destroys? || step.Settles?
  }

  lemma SameCloseAnswer(s: State, t: State, c: Close, fenced: bool)
    requires CloseAnswerOk(s, c) && StaysClosed(s, t)
    ensures CloseAnswerOk(t, c.(fenced := fenced))
  {
  }

  lemma CloserKeepsAnswer(s: State, step: Step, t: State)
    requires CloserStepOf(step) && Next(s, step) == Some(t)
    requires step.t < |s.closes| && CloseAnswerOk(s, s.closes[step.t])
    ensures step.t < |t.closes| && CloseAnswerOk(t, t.closes[step.t])
  {
  }

  lemma OthersKeepCloses(s: State, step: Step, t: State, k: nat)
    requires Next(s, step) == Some(t) && k < |s.closes| && (CloserStepOf(step) ==> step.t != k)
    ensures k < |t.closes| && t.closes[k] == s.closes[k].(fenced := t.closes[k].fenced)
  {
  }

  lemma StepKeepsCloseAnswer(s: State, step: Step, t: State, k: nat)
    requires Next(s, step) == Some(t) && k < |s.closes| && CloseAnswerOk(s, s.closes[k])
    ensures k < |t.closes| && CloseAnswerOk(t, t.closes[k])
  {
    if CloserStepOf(step) && step.t == k {
      CloserKeepsAnswer(s, step, t);
    } else {
      OthersKeepCloses(s, step, t, k);
      ClosedStaysClosed(s, step, t);
      SameCloseAnswer(s, t, s.closes[k], t.closes[k].fenced);
    }
  }

  lemma NewCloseIsUnanswered(s: State, step: Step, t: State, k: nat)
    requires Next(s, step) == Some(t) && |s.closes| <= k < |t.closes|
    ensures CloseAnswerOk(t, t.closes[k])
  {
  }

  // ---- Every run

  lemma StepKeepsAnswers(s: State, step: Step, t: State)
    requires Inv(s) && AnswersOk(s) && Next(s, step) == Some(t)
    ensures AnswersOk(t)
  {
    forall i | 0 <= i < |t.waits| ensures WaitAnswerOk(t, t.waits[i]) {
      if i < |s.waits| { StepKeepsAnswer(s, step, t, i); } else { NewWaitIsUnanswered(s, step, t, i); }
    }
    forall k | 0 <= k < |t.closes| ensures CloseAnswerOk(t, t.closes[k]) {
      if k < |s.closes| { StepKeepsCloseAnswer(s, step, t, k); } else { NewCloseIsUnanswered(s, step, t, k); }
    }
  }

  lemma {:induction false} RunKeepsAnswers(s: State, steps: seq<Step>, t: State)
    requires Inv(s) && AnswersOk(s) && Exec(s, steps) == Some(t)
    ensures AnswersOk(t)
    decreases |steps|
  {
    if steps != [] {
      var u := Next(s, steps[0]).value;
      StepKeepsInv(s, steps[0], u);
      StepKeepsAnswers(s, steps[0], u);
      RunKeepsAnswers(u, steps[1..], t);
    }
  }

  lemma ReachableAnswers(s: State)
    requires Reachable(s)
    ensures AnswersOk(s)
  {
    var steps :| Exec(INITIAL, steps) == Some(s);
    InitialInv();
    RunKeepsAnswers(INITIAL, steps, s);
  }

  // ---- Answers that blame a quarantine or a failed driver call

  // Some state of the run is quarantined.
  predicate EverQuarantined(s: State, steps: seq<Step>)
    decreases |steps|
  {
    || s.shared.commandErr
    || (steps != [] && Next(s, steps[0]).Some? && EverQuarantined(Next(s, steps[0]).value, steps[1..]))
  }

  predicate WaitBlamed(s: State, i: nat, a: Answer) {
    i < |s.waits| && s.waits[i].answer == a
  }

  predicate CloseBlamed(s: State, k: nat, a: Answer) {
    k < |s.closes| && s.closes[k].answer == a
  }

  lemma OwnBlameIsJust(s: State, step: Step, t: State, i: nat)
    requires Next(s, step) == Some(t) && CallerStep(step) && step.i == i
    ensures WaitBlamed(t, i, Quarantined) ==> WaitBlamed(s, i, Quarantined) || s.shared.commandErr
    ensures WaitBlamed(t, i, DriverFailed) ==> WaitBlamed(s, i, DriverFailed) || step == Binds(i, false)
  {
  }

  lemma OthersBlameNothing(s: State, step: Step, t: State, i: nat)
    requires Next(s, step) == Some(t) && (CallerStep(step) ==> step.i != i) && i < |t.waits|
    ensures t.waits[i].answer == if i < |s.waits| then s.waits[i].answer else Unanswered
  {
  }

  lemma WaitBlameIsJust(s: State, step: Step, t: State, i: nat)
    requires Next(s, step) == Some(t)
    ensures WaitBlamed(t, i, Quarantined) ==> WaitBlamed(s, i, Quarantined) || s.shared.commandErr
    ensures WaitBlamed(t, i, DriverFailed) ==> WaitBlamed(s, i, DriverFailed) || step == Binds(i, false)
  {
    if CallerStep(step) && step.i == i {
      OwnBlameIsJust(s, step, t, i);
    } else if i < |t.waits| {
      OthersBlameNothing(s, step, t, i);
    }
  }

  lemma CloseBlameIsJust(s: State, step: Step, t: State, k: nat)
    requires Next(s, step) == Some(t)
    ensures CloseBlamed(t, k, Quarantined) ==> CloseBlamed(s, k, Quarantined) || s.shared.commandErr
    ensures CloseBlamed(t, k, DriverFailed) ==> CloseBlamed(s, k, DriverFailed) || step == Destroys(k, false)
  {
  }

  lemma {:induction false} WaitBlames(s: State, steps: seq<Step>, t: State, i: nat)
    requires Exec(s, steps) == Some(t)
    ensures WaitBlamed(t, i, Quarantined) ==> WaitBlamed(s, i, Quarantined) || EverQuarantined(s, steps)
    ensures WaitBlamed(t, i, DriverFailed) ==> WaitBlamed(s, i, DriverFailed) || Binds(i, false) in steps
    decreases |steps|
  {
    if steps != [] {
      var u := Next(s, steps[0]).value;
      WaitBlameIsJust(s, steps[0], u, i);
      WaitBlames(u, steps[1..], t, i);
    }
  }

  lemma {:induction false} CloseBlames(s: State, steps: seq<Step>, t: State, k: nat)
    requires Exec(s, steps) == Some(t)
    ensures CloseBlamed(t, k, Quarantined) ==> CloseBlamed(s, k, Quarantined) || EverQuarantined(s, steps)
    ensures CloseBlamed(t, k, DriverFailed) ==> CloseBlamed(s, k, DriverFailed) || Destroys(k, false) in steps
    decreases |steps|
  {
    if steps != [] {
      var u := Next(s, steps[0]).value;
      CloseBlameIsJust(s, steps[0], u, k);
      CloseBlames(u, steps[1..], t, k);
    }
  }

  /** What a Synchronize returns is true: without an error the driver is through with it, and it
      reports a cancellation, a closed handle, a closed or quarantined context or a failed bind only
      where there is one. */
  lemma SynchronizeAnswers(steps: seq<Step>, s: State, i: nat)
    requires Exec(INITIAL, steps) == Some(s) && i < |s.waits| && s.waits[i].pc == Returned
    ensures match s.waits[i].answer
            case Done => s.waits[i].job == Delivered
            case Canceled => s.waits[i].cancelled
            case HandleIsClosed => HandleClosed(s, s.waits[i]) && s.waits[i].job == NotSubmitted
            case ContextIsClosed => s.shared.closed && s.waits[i].job == NotSubmitted
            case Quarantined => EverQuarantined(INITIAL, steps) && s.waits[i].job == NotSubmitted
            case DriverFailed => Binds(i, false) in steps && s.waits[i].job == NotSubmitted
            case Unanswered => false
  {
    ReachableAnswers(s);
    assert WaitAnswerOk(s, s.waits[i]);
    WaitBlames(INITIAL, steps, s, i);
  }

  /** So is what a Close of a stream or event returns: without an error the handle is destroyed and
      closed, by this Close or an earlier one. */
  lemma CloseAnswers(steps: seq<Step>, s: State, k: nat)
    requires Exec(INITIAL, steps) == Some(s) && k < |s.closes| && s.closes[k].pc == CloseReturned
    ensures s.closes[k].handle < |s.handles|
    ensures match s.closes[k].answer
            case Done => s.handles[s.closes[k].handle] == Handle(true, 1)
            case HandleIsClosed => s.handles[s.closes[k].handle] == Handle(true, 1)
            case ContextIsClosed => s.shared.closed
            case Quarantined => EverQuarantined(INITIAL, steps)
            case DriverFailed => Destroys(k, false) in steps
            case _ => false
  {
    assert Reachable(s);
    ReachableAnswers(s);
    assert CloseAnswerOk(s, s.closes[k]);
    CloseBlames(INITIAL, steps, s, k);
    ReachableInv(s);
    var h := s.closes[k].handle;
    assert HandleOk(s.waits, s.closes, h, s.handles[h]);
  }

  // ---- The calls are served

  // Nothing on the way of the run was quarantined, and no bind or destroy failed.
  predicate Healthy(steps: seq<Step>) {
    && !EverQuarantined(INITIAL, steps)
    && forall k :: 0 <= k < |steps| ==> (steps[k].Binds? || steps[k].Destroys? ==> steps[k].ok)
  }

  /** When a run of a context that is still open cannot go on, every Synchronize that was not
      canceled has waited for the driver, unless its handle was closed; and every Close has
      destroyed its handle. */
  lemma EveryCallIsServed(steps: seq<Step>, s: State)
    requires Exec(INITIAL, steps) == Some(s) && Healthy(steps) && !s.shared.closed
    requires forall step: Step :: !CanMove(s, step, false)
    ensures forall i :: 0 <= i < |s.waits| && !s.waits[i].cancelled && !HandleClosed(s, s.waits[i]) ==>
              s.waits[i].pc == Returned && s.waits[i].answer == Done && s.waits[i].job == Delivered
    ensures forall k :: 0 <= k < |s.closes| ==>
              && s.closes[k].pc == CloseReturned && s.closes[k].answer in {Done, HandleIsClosed}
              && s.closes[k].handle < |s.handles| && s.handles[s.closes[k].handle] == Handle(true, 1)
  {
    assert Reachable(s) && Exec(s, []) == Some(s);
    MaximalRunsSettle(s, [], s);
    forall i | 0 <= i < |s.waits| && !s.waits[i].cancelled && !HandleClosed(s, s.waits[i])
      ensures s.waits[i].pc == Returned && s.waits[i].answer == Done && s.waits[i].job == Delivered
    {
      SynchronizeAnswers(steps, s, i);
    }
    forall k | 0 <= k < |s.closes|
      ensures s.closes[k].pc == CloseReturned && s.closes[k].answer in {Done, HandleIsClosed}
      ensures s.closes[k].handle < |s.handles| && s.handles[s.closes[k].handle] == Handle(true, 1)
    {
      CloseAnswers(steps, s, k);
    }
  }

  // ---- Which answer wins

  // The wait will say that its handle or its context is closed, or that it was canceled before it
  // got a lane.
  predicate WillAnswer(s: State, i: nat, a: Answer) {
    && i < |s.waits| && s.waits[i].job == NotSubmitted
    && var w := s.waits[i];
       match a
       case HandleIsClosed => HandleClosed(s, w) && (w.pc in {WantHandle, HandleLocked} || w.answer == a)
       case ContextIsClosed => s.shared.closed && (w.pc in {WantContext, ContextLocked} || w.answer == a)
       case Canceled =>
         w.cancelled && (w.pc in {WantHandle, HandleLocked, WantContext, ContextLocked}
                         || w.answer in {HandleIsClosed, ContextIsClosed, Canceled})
       case _ => false
  }

  lemma StepKeepsWill(s: State, step: Step, t: State, i: nat, a: Answer)
    requires Inv(s) && AnswersOk(s) && Next(s, step) == Some(t) && WillAnswer(s, i, a)
    ensures WillAnswer(t, i, a)
  {
    assert WaitOk(s.waits[i], |s.handles|, |s.lanes|, s.shared) && WaitAnswerOk(s, s.waits[i]);
    ClosedStaysClosed(s, step, t);
    if LaneStepOf(step) {
      LaneSparesUnsubmitted(s, step, t, i);
    } else if CallerStep(step) && step.i == i {
      OwnStepKeepsWill(s, step, t, i, a);
    } else {
      OthersKeepWaits(s, step, t, i);
    }
  }

  lemma LaneSparesUnsubmitted(s: State, step: Step, t: State, i: nat)
    requires LaneStepOf(step) && Next(s, step) == Some(t) && i < |s.waits| && s.waits[i].job == NotSubmitted
    ensures i < |t.waits| && t.waits[i] == s.waits[i]
  {
  }

  lemma OwnStepKeepsWill(s: State, step: Step, t: State, i: nat, a: Answer)
    requires CallerStep(step) && step.i == i && Next(s, step) == Some(t) && WillAnswer(s, i, a)
    requires WaitAnswerOk(s, s.waits[i]) && WaitOk(s.waits[i], |s.handles|, |s.lanes|, s.shared)
    ensures WillAnswer(t, i, a)
  {
  }

  /** A wait that comes to a closed handle, or to a closed context, says so, and one that is
      canceled before it has a lane is never submitted, however the run goes on. */
  lemma {:induction false} FirstAnswerWins(s: State, steps: seq<Step>, t: State, i: nat, a: Answer)
    requires Reachable(s) && Exec(s, steps) == Some(t) && WillAnswer(s, i, a)
    ensures i < |t.waits| && t.waits[i].job == NotSubmitted
    ensures t.waits[i].pc == Returned ==>
              t.waits[i].answer == a || (a == Canceled && t.waits[i].answer in {HandleIsClosed, ContextIsClosed})
  {
    ReachableInv(s);
    ReachableAnswers(s);
    WillForEver(s, steps, t, i, a);
  }

  lemma {:induction false} WillForEver(s: State, steps: seq<Step>, t: State, i: nat, a: Answer)
    requires Inv(s) && AnswersOk(s) && Exec(s, steps) == Some(t) && WillAnswer(s, i, a)
    ensures WillAnswer(t, i, a)
    decreases |steps|
  {
    if steps != [] {
      var u := Next(s, steps[0]).value;
      StepKeepsWill(s, steps[0], u, i, a);
      StepKeepsInv(s, steps[0], u);
      StepKeepsAnswers(s, steps[0], u);
      WillForEver(u, steps[1..], t, i, a);
    }
  }

  // ---- A canceled Synchronize needs nobody else

  function WayOut(i: nat, pc: WaitPc): Step {
    match pc
    case Rejected => ReleasesRejected(i)
    case Released => UntracksRejected(i)
    case Refused => Waits(i, OpRecycleRefused)
    case LeavingContext => Waits(i, OpUnlockContext)
    case _ => Waits(i, OpUnlockHandle)
  }

  lemma DecidedCanMove(s: State, i: nat)
    requires i < |s.waits| && WaitOk(s.waits[i], |s.handles|, |s.lanes|, s.shared)
    requires Decided(s.waits[i].pc) && s.waits[i].pc != Returned
    ensures Next(s, WayOut(i, s.waits[i].pc)).Some?
    ensures var t := Next(s, WayOut(i, s.waits[i].pc)).value;
            && i < |t.waits| && Decided(t.waits[i].pc) && t.waits[i].answer == s.waits[i].answer
            && PcRank(t.waits[i].pc) < PcRank(s.waits[i].pc)
  {
  }

  lemma {:induction false} DecidedReturns(s: State, i: nat) returns (steps: seq<Step>, t: State)
    requires Inv(s) && i < |s.waits| && Decided(s.waits[i].pc)
    ensures forall k :: 0 <= k < |steps| ==> CallerStep(steps[k]) && steps[k].i == i
    ensures Exec(s, steps) == Some(t) && i < |t.waits|
    ensures t.waits[i].pc == Returned && t.waits[i].answer == s.waits[i].answer
    decreases PcRank(s.waits[i].pc)
  {
    if s.waits[i].pc == Returned {
      steps, t := [], s;
    } else {
      var step := WayOut(i, s.waits[i].pc);
      DecidedCanMove(s, i);
      var u := Next(s, step).value;
      StepKeepsInv(s, step, u);
      var rest;
      rest, t := DecidedReturns(u, i);
      steps := [step] + rest;
      assert steps[1..] == rest;
    }
  }

  function TurnsAway(i: nat, pc: WaitPc): Step {
    Waits(i, if pc == Tracked then OpReject else OpAbandon)
  }

  lemma CanceledTurnsAway(s: State, i: nat)
    requires i < |s.waits| && s.waits[i].cancelled && s.waits[i].pc in {Tracked, Waiting}
    ensures Next(s, TurnsAway(i, s.waits[i].pc)).Some?
    ensures var t := Next(s, TurnsAway(i, s.waits[i].pc)).value;
            i < |t.waits| && Decided(t.waits[i].pc) && t.waits[i].answer == Canceled
  {
  }

  /** A canceled wait returns by its own steps alone, whatever its lane and the driver are doing. */
  lemma CanceledWaitLeaves(s: State, i: nat) returns (steps: seq<Step>, t: State)
    requires Reachable(s) && i < |s.waits| && s.waits[i].cancelled && s.waits[i].pc in {Tracked, Waiting}
    ensures forall k :: 0 <= k < |steps| ==> CallerStep(steps[k]) && steps[k].i == i
    ensures Exec(s, steps) == Some(t) && i < |t.waits|
    ensures t.waits[i].pc == Returned && t.waits[i].answer == Canceled
  {
    ReachableInv(s);
    var step := TurnsAway(i, s.waits[i].pc);
    CanceledTurnsAway(s, i);
    var u := Next(s, step).value;
    StepKeepsInv(s, step, u);
    var rest;
    rest, t := DecidedReturns(u, i);
    steps := [step] + rest;
    assert steps[1..] == rest;
  }

  // ---- A Close with no wait counted needs no lane

  function CloseWay(k: nat, pc: ClosePc): Step {
    match pc
    case ReadingActive => Closes(k, OpReadActive)
    case Destroying => Destroys(k, true)
    case CloseLeavingContext(_) => Closes(k, OpCloseUnlockContext)
    case _ => Settles(k)
  }

  predicate PastBarrier(pc: ClosePc) {
    pc.Destroying? || pc == CloseLeavingContext(true) || pc == Settling(true)
  }

  lemma PastBarrierMoves(s: State, k: nat)
    requires k < |s.closes| && PastBarrier(s.closes[k].pc) && s.closes[k].handle < |s.handles|
    requires !s.closes[k].pc.Destroying? ==> s.closes[k].answer == Done
    ensures Next(s, CloseWay(k, s.closes[k].pc)).Some?
    ensures var u := Next(s, CloseWay(k, s.closes[k].pc)).value;
            && k < |u.closes| && u.closes[k].answer == Done
            && (PastBarrier(u.closes[k].pc) || u.closes[k].pc == CloseReturned)
            && CloseRank(u.closes[k]) < CloseRank(s.closes[k])
  {
  }

  lemma {:induction false} PastBarrierReturns(s: State, k: nat) returns (steps: seq<Step>, u: State)
    requires Inv(s) && k < |s.closes| && PastBarrier(s.closes[k].pc)
    requires !s.closes[k].pc.Destroying? ==> s.closes[k].answer == Done
    ensures forall n :: 0 <= n < |steps| ==> CloserStepOf(steps[n]) && !steps[n].SendsFence? && steps[n].t == k
    ensures Exec(s, steps) == Some(u) && k < |u.closes|
    ensures u.closes[k].pc == CloseReturned && u.closes[k].answer == Done
    decreases CloseRank(s.closes[k])
  {
    var step := CloseWay(k, s.closes[k].pc);
    PastBarrierMoves(s, k);
    var v := Next(s, step).value;
    StepKeepsInv(s, step, v);
    var rest := [];
    u := v;
    if v.closes[k].pc != CloseReturned { rest, u := PastBarrierReturns(v, k); }
    steps := [step] + rest;
    assert steps[1..] == rest;
  }

  /** A Close that finds no wait counted destroys its handle by its own steps alone and sends no
      fence: it does not wait for a lane. */
  lemma QuietCloseNeedsNoLane(s: State, k: nat) returns (steps: seq<Step>, u: State)
    requires Reachable(s) && k < |s.closes| && s.closes[k].pc == ReadingActive && s.shared.syncActive == 0
    ensures forall n :: 0 <= n < |steps| ==> CloserStepOf(steps[n]) && !steps[n].SendsFence? && steps[n].t == k
    ensures Exec(s, steps) == Some(u) && k < |u.closes|
    ensures u.closes[k].pc == CloseReturned && u.closes[k].answer == Done
  {
    ReachableInv(s);
    var step := CloseWay(k, s.closes[k].pc);
    var v := Next(s, step).value;
    StepKeepsInv(s, step, v);
    var rest;
    rest, u := PastBarrierReturns(v, k);
    steps := [step] + rest;
    assert steps[1..] == rest;
  }

  // ---- Context.Close

  predicate ReleaseTried(steps: seq<Step>) {
    exists k :: 0 <= k < |steps| && steps[k].ClosesContext? && steps[k].xop.OpCtxRelease?
  }

  /** An attempt of Context.Close on an open context ends with the release of the primary context,
      or with the failed recovery of a quarantined one. */
  lemma {:induction false} AttemptReleases(s: State, steps: seq<Step>, t: State)
    requires Exec(s, steps) == Some(t) && s.shared.ctx in {CtxLocked, CtxTaking, CtxDraining, CtxReleasing}
    requires s.shared.ctx == CtxLocked ==> !s.shared.closed
    requires t.shared.ctx == CtxIdle
    ensures ReleaseTried(steps) || (s.shared.commandErr && ClosesContext(OpCtxRecover(false)) in steps)
    decreases |steps|
  {
    var u := Next(s, steps[0]).value;
    AttemptGoesOn(s, steps[0], u);
    if u.shared.ctx in {CtxLocked, CtxTaking, CtxDraining, CtxReleasing} {
      AttemptReleases(u, steps[1..], t);
      if ReleaseTried(steps[1..]) {
        var k :| 0 <= k < |steps[1..]| && steps[1..][k].ClosesContext? && steps[1..][k].xop.OpCtxRelease?;
        assert steps[k + 1] == steps[1..][k];
      }
    }
  }

  lemma AttemptGoesOn(s: State, step: Step, u: State)
    requires Next(s, step) == Some(u) && s.shared.ctx in {CtxLocked, CtxTaking, CtxDraining, CtxReleasing}
    requires s.shared.ctx == CtxLocked ==> !s.shared.closed
    ensures u.shared.ctx in {CtxLocked, CtxTaking, CtxDraining, CtxReleasing}
            || (step.ClosesContext? && step.xop.OpCtxRelease?)
            || (s.shared.commandErr && step == ClosesContext(OpCtxRecover(false)))
    ensures u.shared.ctx == CtxLocked ==> !u.shared.closed
    ensures u.shared.commandErr && u.shared.ctx in {CtxLocked, CtxTaking, CtxDraining, CtxReleasing} ==>
              s.shared.commandErr
  {
  }

  predicate HasReleased(steps: seq<Step>) {
    ClosesContext(OpCtxRelease(true, true)) in steps || ClosesContext(OpCtxRelease(true, false)) in steps
  }

  // The command executor was lost in a failed restore, and no recovery has brought it back.
  predicate Lost(steps: seq<Step>) {
    exists k :: 0 <= k < |steps| && steps[k] == ClosesContext(OpCtxRelease(false, false))
                && ClosesContext(OpCtxRecover(true)) !in steps[k + 1..]
  }

  lemma CloseStepTells(s: State, step: Step, t: State)
    requires Next(s, step) == Some(t)
    ensures t.shared.closed <==> s.shared.closed || HasReleased([step])
  {
  }

  // An attempt goes on only with a context that is open and has its command executor.
  predicate ClosingOk(sh: Shared) {
    && !(sh.closed && sh.commandErr)
    && (sh.ctx in {CtxTaking, CtxDraining, CtxReleasing} ==> !sh.closed && !sh.commandErr)
  }

  lemma QuarantineStepTells(s: State, step: Step, t: State)
    requires ClosingOk(s.shared) && Next(s, step) == Some(t)
    ensures t.shared.commandErr <==>
              || step == ClosesContext(OpCtxRelease(false, false))
              || (s.shared.commandErr && step != ClosesContext(OpCtxRecover(true)))
    ensures ClosingOk(t.shared)
  {
  }

  lemma LostStep(step: Step, steps: seq<Step>)
    ensures Lost([step] + steps) <==>
              || Lost(steps)
              || (step == ClosesContext(OpCtxRelease(false, false)) && ClosesContext(OpCtxRecover(true)) !in steps)
  {
    var all := [step] + steps;
    if Lost(steps) {
      var k :| 0 <= k < |steps| && steps[k] == ClosesContext(OpCtxRelease(false, false))
               && ClosesContext(OpCtxRecover(true)) !in steps[k + 1..];
      assert all[k + 1] == steps[k] && all[k + 2..] == steps[k + 1..];
    }
    if step == ClosesContext(OpCtxRelease(false, false)) && ClosesContext(OpCtxRecover(true)) !in steps {
      assert all[0] == step && all[1..] == steps;
    }
    if Lost(all) {
      var k :| 0 <= k < |all| && all[k] == ClosesContext(OpCtxRelease(false, false))
               && ClosesContext(OpCtxRecover(true)) !in all[k + 1..];
      if k > 0 {
        assert steps[k - 1] == all[k] && steps[k..] == all[k + 1..];
      } else {
        assert all[1..] == steps;
      }
    }
  }

  lemma {:induction false} RunTellsClosed(s: State, steps: seq<Step>, t: State)
    requires Exec(s, steps) == Some(t)
    ensures t.shared.closed <==> s.shared.closed || HasReleased(steps)
    decreases |steps|
  {
    if steps != [] {
      var u := Next(s, steps[0]).value;
      CloseStepTells(s, steps[0], u);
      RunTellsClosed(u, steps[1..], t);
      assert [steps[0]] + steps[1..] == steps;
    }
  }

  // Whether the context is quarantined after the steps.
  predicate StaysLost(before: bool, steps: seq<Step>) {
    Lost(steps) || (before && ClosesContext(OpCtxRecover(true)) !in steps)
  }

  lemma StaysLostStep(before: bool, step: Step, after: bool, steps: seq<Step>)
    requires after <==> step == ClosesContext(OpCtxRelease(false, false))
                        || (before && step != ClosesContext(OpCtxRecover(true)))
    ensures StaysLost(before, [step] + steps) <==> StaysLost(after, steps)
  {
    LostStep(step, steps);
  }

  lemma {:induction false} RunTellsQuarantine(s: State, steps: seq<Step>, t: State)
    requires ClosingOk(s.shared) && Exec(s, steps) == Some(t)
    ensures t.shared.commandErr <==> StaysLost(s.shared.commandErr, steps)
    decreases |steps|
  {
    if steps != [] {
      var u := Next(s, steps[0]).value;
      QuarantineStepTells(s, steps[0], u);
      RunTellsQuarantine(u, steps[1..], t);
      StaysLostStep(s.shared.commandErr, steps[0], u.shared.commandErr, steps[1..]);
      assert [steps[0]] + steps[1..] == steps;
    }
  }

  /** A context is closed exactly when a release of it has succeeded, and quarantined exactly when
      the restore after a failed one failed too and no recovery has succeeded since. */
  lemma ClosedMeansReleased(steps: seq<Step>, s: State)
    requires Exec(INITIAL, steps) == Some(s)
    ensures s.shared.closed <==> HasReleased(steps)
    ensures s.shared.commandErr <==> Lost(steps)
  {
    RunTellsClosed(INITIAL, steps, s);
    RunTellsQuarantine(INITIAL, steps, s);
  }
}
