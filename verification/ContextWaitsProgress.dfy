/** The context machine cannot hang: until every wait, every Close and every Context.Close is
    through, some step of the program is enabled, and only finitely many fit in between new
    calls. Locks prefer writers here: whoever wants to read waits behind a pending writer. */
module ContextWaitsProgress {
  import opened Options
  import opened WaitLanes
  import opened ContextWaits
  import opened ContextWaitsInvariant
  import opened ContextWaitsSteps

  // ---- A fence that has not run is on its lane

  predicate FenceQueued(lanes: seq<Lane>, t: nat, c: Close) {
    c.pc.FenceSent? && !c.fenced ==> c.pc.lane < |lanes| && FenceJob(t) in lanes[c.pc.lane].jobs
  }

  predicate FencesQueued(s: State) {
    forall t :: 0 <= t < |s.closes| ==> FenceQueued(s.lanes, t, s.closes[t])
  }

  // Fences stay on the lanes whose jobs only grow.
  lemma GrowingKeepsFences(s: State, u: State)
    requires FencesQueued(s) && u.closes == s.closes && |s.lanes| <= |u.lanes|
    requires forall l :: 0 <= l < |s.lanes| ==> s.lanes[l].jobs <= u.lanes[l].jobs
    ensures FencesQueued(u)
  {
    forall t | 0 <= t < |u.closes| ensures FenceQueued(u.lanes, t, u.closes[t]) {
      assert FenceQueued(s.lanes, t, s.closes[t]);
    }
  }

  // A lane gives up its head only when the head is no fence, or marks that fence as run.
  lemma HeadKeepsFences(s: State, l: nat, u: State)
    requires FencesQueued(s) && (Deliver(s, l) == Some(u) || RunFence(s, l) == Some(u))
    ensures FencesQueued(u)
  {
    forall t | 0 <= t < |u.closes| ensures FenceQueued(u.lanes, t, u.closes[t]) {
      assert FenceQueued(s.lanes, t, s.closes[t]);
      if u.closes[t].pc.FenceSent? && !u.closes[t].fenced && u.closes[t].pc.lane == l {
        TailMembers(s.lanes[l].jobs, FenceJob(t));
      }
    }
  }

  lemma SendKeepsFences(s: State, k: nat, u: State)
    requires FencesQueued(s) && SendFence(s, k) == Some(u)
    ensures FencesQueued(u)
  {
    forall t | 0 <= t < |u.closes| ensures FenceQueued(u.lanes, t, u.closes[t]) {
      assert FenceQueued(s.lanes, t, s.closes[t]);
      if t == k {
        var jobs := u.lanes[u.closes[t].pc.lane].jobs;
        assert jobs[|jobs| - 1] == FenceJob(t);
      }
    }
  }

  // A Close that moves by itself leaves the lanes alone and is not waiting for a new fence.
  lemma CloseKeepsFences(s: State, u: State, k: nat)
    requires FencesQueued(s) && k < |s.closes| == |u.closes| && u.lanes == s.lanes
    requires u.closes == s.closes[k := u.closes[k]]
    requires !u.closes[k].pc.FenceSent?
    ensures FencesQueued(u)
  {
    forall t | 0 <= t < |u.closes| ensures FenceQueued(u.lanes, t, u.closes[t]) {
      assert FenceQueued(s.lanes, t, s.closes[t]);
    }
  }

  lemma NewCloseKeepsFences(s: State, h: nat, u: State)
    requires FencesQueued(s) && EnvStep(s, OpNewClose(h)) == Some(u)
    ensures FencesQueued(u)
  {
    forall t | 0 <= t < |u.closes| ensures FenceQueued(u.lanes, t, u.closes[t]) {
      if t < |s.closes| { assert FenceQueued(s.lanes, t, s.closes[t]); }
    }
  }

  lemma OtherKeepsFences(s: State, step: Step, u: State)
    requires FencesQueued(s) && Next(s, step) == Some(u)
    requires step.ClosesContext? || step.LaneRuns? || step.LaneReleases? || step.LaneUntracks?
             || (step.Env? && !step.eop.OpNewClose?)
    ensures FencesQueued(u)
  {
    GrowingKeepsFences(s, u);
  }

  lemma CloserKeepsFences(s: State, step: Step, u: State)
    requires FencesQueued(s) && Next(s, step) == Some(u)
    requires step.Closes? || step.LocksWrite? || step.Destroys? || step.Settles?
    ensures FencesQueued(u)
  {
    CloseKeepsFences(s, u, step.t);
  }

  lemma StepKeepsFences(s: State, step: Step, u: State)
    requires FencesQueued(s) && Next(s, step) == Some(u)
    ensures FencesQueued(u)
  {
    match step
    case LaneDelivers(l) => HeadKeepsFences(s, l, u);
    case LaneFences(l) => HeadKeepsFences(s, l, u);
    case SendsFence(t) => SendKeepsFences(s, t, u);
    case Closes(_, _) | LocksWrite(_) | Destroys(_, _) | Settles(_) => CloserKeepsFences(s, step, u);
    case Env(OpNewClose(h)) => NewCloseKeepsFences(s, h, u);
    case Env(_) | ClosesContext(_) | LaneRuns(_, _) | LaneReleases(_) | LaneUntracks(_) =>
      OtherKeepsFences(s, step, u);
    case _ => CallerKeepsFences(s, step, u);
  }

  lemma CallerKeepsFences(s: State, step: Step, u: State)
    requires FencesQueued(s) && Next(s, step) == Some(u)
    requires step.Waits? || step.LocksHandle? || step.Chooses? || step.LocksCreate? || step.Rechooses?
             || step.Binds? || step.Tracks? || step.Submits? || step.ReleasesRejected? || step.UntracksRejected?
    ensures FencesQueued(u)
  {
    GrowingKeepsFences(s, u);
  }

  lemma {:induction false} RunKeepsFences(s: State, steps: seq<Step>, u: State)
    requires FencesQueued(s) && Exec(s, steps) == Some(u)
    ensures FencesQueued(u)
    decreases |steps|
  {
    if steps != [] {
      var v := Next(s, steps[0]).value;
      StepKeepsFences(s, steps[0], v);
      RunKeepsFences(v, steps[1..], u);
    }
  }

  lemma ReachableFences(s: State)
    requires Reachable(s)
    ensures FencesQueued(s)
  {
    var steps :| Exec(INITIAL, steps) == Some(s);
    RunKeepsFences(INITIAL, steps, s);
  }

  // ---- The steps of the program, with writers first

  predicate WriterPending(s: State, h: nat) {
    exists t :: 0 <= t < |s.closes| && s.closes[t].handle == h && s.closes[t].pc == WantWrite
  }

  // closing: a Context.Close has announced itself and waits for the readers of the context.
  predicate Program(s: State, step: Step, closing: bool) {
    match step
    case Env(_) => false
    case ClosesContext(op) => op == OpCtxLock ==> closing
    case LocksHandle(i) =>
      i < |s.waits| && s.waits[i].handle.Some? && !WriterPending(s, s.waits[i].handle.value)
    case Waits(_, op) => op == OpLockContext ==> !closing
    case Closes(_, op) => op == OpCloseLockContext ==> !closing
    case _ => true
  }

  predicate CanMove(s: State, step: Step, closing: bool) {
    Program(s, step, closing) && Next(s, step).Some?
  }

  predicate Settled(s: State) {
    && (forall i :: 0 <= i < |s.waits| ==> s.waits[i].pc == Returned)
    && (forall t :: 0 <= t < |s.closes| ==> s.closes[t].pc == CloseReturned)
    && s.shared.ctx == CtxIdle
  }

  // ---- Somebody can move

  lemma LaneCanMove(s: State, l: nat, closing: bool) returns (step: Step)
    requires LanesOk(s.waits, s.closes, s.lanes) && l < |s.lanes| && s.lanes[l].jobs != []
    ensures CanMove(s, step, closing)
  {
    var head := s.lanes[l].jobs[0];
    HeadEntryOk(s.waits, s.closes, s.lanes, l);
    if head.FenceJob? { return LaneFences(l); }
    match s.waits[head.wait].job {
      case Queued => return LaneRuns(l, OpStart);
      case Running => return LaneRuns(l, OpEnd);
      case Ran => return LaneReleases(l);
      case LaneReleased => return LaneUntracks(l);
      case Untracked => return LaneDelivers(l);
      case _ => assert false;
    }
  }

  lemma ContextCanMove(s: State, closing: bool) returns (step: Step)
    requires SharedOk(s.waits, s.lanes, s.shared) && s.shared.ctx != CtxIdle
    requires forall l :: 0 <= l < |s.lanes| ==> s.lanes[l].jobs == []
    ensures CanMove(s, step, closing)
  {
    match s.shared.ctx {
      case CtxLocked => return ClosesContext(OpCtxRecover(true));
      case CtxTaking => return ClosesContext(OpCtxTake);
      case CtxDraining =>
        if s.shared.drained < s.shared.base { return ClosesContext(OpCtxCloseLane); }
        return ClosesContext(OpCtxDrained);
      case CtxReleasing => return ClosesContext(OpCtxRelease(true, true));
      case CtxUnlocking => return ClosesContext(OpCtxUnlock);
      case _ => assert false;
    }
  }

  // A wait inside the context moves; only laneCreateMu can hold it up, and then its holder moves.
  lemma InnerWaitCanMove(s: State, i: nat, closing: bool) returns (step: Step)
    requires WaitsOk(s.waits, |s.handles|, |s.lanes|, s.shared) && MembersOk(s.waits, s.lanes)
    requires LocksOk(s.waits, s.closes, s.shared) && s.shared.base <= |s.lanes|
    requires i < |s.waits| && WaitHoldsContext(s.waits[i].pc)
    requires forall l :: 0 <= l < |s.lanes| ==> s.lanes[l].jobs == []
    ensures CanMove(s, step, closing)
  {
    assert WaitOk(s.waits[i], |s.handles|, |s.lanes|, s.shared);
    match s.waits[i].pc {
      case ContextLocked => return Waits(i, OpCheckContext);
      case Choosing => return Chooses(i);
      case WantCreate =>
        if s.shared.creating.None? { return LocksCreate(i); }
        var holder := s.shared.creating.value;
        return if s.waits[holder].pc == Rechoosing then Rechooses(holder) else Binds(holder, true);
      case Rechoosing => return Rechooses(i);
      case Binding => return Binds(i, true);
      case Acquired => return Tracks(i);
      case Tracked => return Submits(i);
      case Rejected => return ReleasesRejected(i);
      case Released => return UntracksRejected(i);
      case Refused => return Waits(i, OpRecycleRefused);
      case Waiting => return Waits(i, OpReceive);
      case LeavingContext => return Waits(i, OpUnlockContext);
      case _ => assert false;
    }
  }

  lemma InnerCloseCanMove(s: State, t: nat, closing: bool) returns (step: Step)
    requires ClosesOk(s.waits, s.closes, s.lanes, |s.handles|, s.shared.base) && FencesQueued(s)
    requires t < |s.closes| && CloseHoldsContext(s.closes[t].pc)
    requires forall l :: 0 <= l < |s.lanes| ==> s.lanes[l].jobs == []
    ensures CanMove(s, step, closing)
  {
    assert CloseOk(s.waits, s.lanes, s.shared.base, t, s.closes[t]) && FenceQueued(s.lanes, t, s.closes[t]);
    match s.closes[t].pc {
      case CloseContextLocked => return Closes(t, OpCloseCheck);
      case ReadingActive => return Closes(t, OpReadActive);
      case Snapshotting => return Closes(t, OpSnapshot);
      case Fencing(k, n) => return if k == n then Closes(t, OpFenceDone) else SendsFence(t);
      case FenceSent(_, _) => return Closes(t, OpFenceDone);
      case Destroying => return Destroys(t, true);
      case CloseLeavingContext(_) => return Closes(t, OpCloseUnlockContext);
      case _ => assert false;
    }
  }

  // Nobody is inside the context: whoever waits for it gets it, a pending Context.Close first.
  lemma OuterCanMove(s: State, closing: bool) returns (step: Step)
    requires WaitsOk(s.waits, |s.handles|, |s.lanes|, s.shared) && s.shared.ctx == CtxIdle
    requires ClosesOk(s.waits, s.closes, s.lanes, |s.handles|, s.shared.base)
    requires ContextUnused(s) && (closing || !Settled(s))
    ensures CanMove(s, step, closing)
  {
    if closing { return ClosesContext(OpCtxLock); }
    if t: nat :| t < |s.closes| && CloseHoldsHandle(s.closes[t].pc) {
      step := OuterCloseCanMove(s, t);
    } else if i: nat :| i < |s.waits| && s.waits[i].pc in {WantContext, HandleLocked, LeavingHandle} {
      step := OuterWaitCanMove(s, i);
    } else {
      step := LockCanMove(s);
    }
  }

  lemma OuterWaitCanMove(s: State, i: nat) returns (step: Step)
    requires i < |s.waits| && s.shared.ctx == CtxIdle && s.waits[i].pc in {WantContext, HandleLocked, LeavingHandle}
    ensures CanMove(s, step, false)
  {
    step := Waits(i, match s.waits[i].pc
                     case WantContext => OpLockContext
                     case HandleLocked => OpReadHandle
                     case _ => OpUnlockHandle);
  }

  // Nobody holds any lock: a closer locks its handle, and if there is none a wait does.
  lemma LockCanMove(s: State) returns (step: Step)
    requires WaitsOk(s.waits, |s.handles|, |s.lanes|, s.shared) && !Settled(s) && s.shared.ctx == CtxIdle
    requires forall i :: 0 <= i < |s.waits| ==> s.waits[i].pc in {WantHandle, Returned}
    requires forall t :: 0 <= t < |s.closes| ==> !CloseHoldsHandle(s.closes[t].pc)
    ensures CanMove(s, step, false)
  {
    if t: nat :| t < |s.closes| && s.closes[t].pc == WantWrite {
      return LocksWrite(t);
    }
    var i: nat :| i < |s.waits| && s.waits[i].pc != Returned;
    assert WaitOk(s.waits[i], |s.handles|, |s.lanes|, s.shared);
    return LocksHandle(i);
  }

  lemma OuterCloseCanMove(s: State, t: nat) returns (step: Step)
    requires ClosesOk(s.waits, s.closes, s.lanes, |s.handles|, s.shared.base) && s.shared.ctx == CtxIdle
    requires t < |s.closes| && CloseHoldsHandle(s.closes[t].pc) && !CloseHoldsContext(s.closes[t].pc)
    ensures CanMove(s, step, false)
  {
    match s.closes[t].pc {
      case WriteLocked => return Closes(t, OpReadClosed);
      case CloseWantContext => return Closes(t, OpCloseLockContext);
      case Settling(_) => return Settles(t);
      case _ => assert false;
    }
  }

  /** No deadlock across handle locks, the context lock, laneCreateMu, fences and lane draining,
      with or without a Context.Close waiting at the context lock. */
  lemma Progress(s: State, closing: bool)
    requires Inv(s) && FencesQueued(s) && (closing || !Settled(s))
    ensures exists step: Step :: CanMove(s, step, closing)
  {
    var step: Step;
    if l: nat :| l < |s.lanes| && s.lanes[l].jobs != [] {
      step := LaneCanMove(s, l, closing);
    } else if s.shared.ctx != CtxIdle {
      step := ContextCanMove(s, closing);
    } else if i: nat :| i < |s.waits| && WaitHoldsContext(s.waits[i].pc) {
      step := InnerWaitCanMove(s, i, closing);
    } else if t: nat :| t < |s.closes| && CloseHoldsContext(s.closes[t].pc) {
      step := InnerCloseCanMove(s, t, closing);
    } else {
      step := OuterCanMove(s, closing);
    }
  }

  lemma ReachableProgress(s: State, closing: bool)
    requires Reachable(s) && (closing || !Settled(s))
    ensures exists step: Step :: CanMove(s, step, closing)
  {
    ReachableInv(s);
    ReachableFences(s);
    Progress(s, closing);
  }

  // ---- Every run ends

  function WaitRank(w: Wait): nat {
    PcRank(w.pc) + JobRank(w.job)
  }

  function PcRank(pc: WaitPc): nat {
    match pc
    case WantHandle => 26
    case HandleLocked => 25
    case WantContext => 24
    case ContextLocked => 23
    case Choosing => 22
    case WantCreate => 21
    case Rechoosing => 20
    case Binding => 19
    case Acquired => 16
    case Tracked => 15
    case Rejected => 5
    case Released => 4
    case Refused => 4
    case Waiting => 4
    case LeavingContext => 3
    case LeavingHandle => 2
    case Returned => 0
  }

  function JobRank(job: JobPc): nat {
    match job
    case Queued => 6
    case Running => 5
    case Ran => 4
    case LaneReleased => 3
    case Untracked => 2
    case _ => 0
  }

  // A Close sends at most one fence to each of eight lanes.
  function CloseRank(c: Close): nat {
    match c.pc
    case WantWrite => 40
    case WriteLocked => 39
    case CloseWantContext => 38
    case CloseContextLocked => 37
    case ReadingActive => 36
    case Snapshotting => 35
    case Fencing(k, n) => 6 + 3 * Fences(k, n)
    case FenceSent(k, n) => 5 + 3 * Fences(k, n) - (if c.fenced then 1 else 0)
    case Destroying => 5
    case CloseLeavingContext(_) => 4
    case Settling(_) => 3
    case CloseReturned => 0
  }

  function Fences(k: nat, n: nat): nat { if k < n then n - k else 0 }

  function CtxRank(pc: CtxPc): nat {
    match pc
    case CtxIdle => 0
    case CtxLocked => 6
    case CtxTaking => 5
    case CtxDraining => 4
    case CtxReleasing => 3
    case CtxUnlocking => 2
  }

  function SumWaitRanks(waits: seq<Wait>): nat {
    if waits == [] then 0 else WaitRank(waits[0]) + SumWaitRanks(waits[1..])
  }

  function SumCloseRanks(closes: seq<Close>): nat {
    if closes == [] then 0 else CloseRank(closes[0]) + SumCloseRanks(closes[1..])
  }

  lemma {:induction false} WaitRanksUpdate(waits: seq<Wait>, i: nat, w: Wait)
    requires i < |waits|
    ensures SumWaitRanks(waits[i := w]) + WaitRank(waits[i]) == SumWaitRanks(waits) + WaitRank(w)
  {
    if i == 0 {
      assert waits[0 := w][1..] == waits[1..];
    } else {
      assert waits[i := w][1..] == waits[1..][i - 1 := w];
      WaitRanksUpdate(waits[1..], i - 1, w);
    }
  }

  lemma {:induction false} CloseRanksUpdate(closes: seq<Close>, t: nat, c: Close)
    requires t < |closes|
    ensures SumCloseRanks(closes[t := c]) + CloseRank(closes[t]) == SumCloseRanks(closes) + CloseRank(c)
  {
    if t == 0 {
      assert closes[0 := c][1..] == closes[1..];
    } else {
      assert closes[t := c][1..] == closes[1..][t - 1 := c];
      CloseRanksUpdate(closes[1..], t - 1, c);
    }
  }

  // Lanes that are not closed yet.
  function Undrained(s: State): nat { Fences(s.shared.drained, |s.lanes|) }

  function Rank(s: State): nat {
    SumWaitRanks(s.waits) + SumCloseRanks(s.closes) + CtxRank(s.shared.ctx) + Undrained(s)
  }

  lemma WaitsDescend(s: State, u: State, i: nat, more: nat)
    requires i < |s.waits| == |u.waits| && u.waits == s.waits[i := u.waits[i]] && u.closes == s.closes
    requires u.shared.ctx == s.shared.ctx && u.shared.drained == s.shared.drained && |u.lanes| <= |s.lanes| + more
    requires WaitRank(u.waits[i]) + more < WaitRank(s.waits[i])
    ensures Rank(u) < Rank(s)
  {
    WaitRanksUpdate(s.waits, i, u.waits[i]);
  }

  lemma ClosesDescend(s: State, u: State, t: nat)
    requires t < |s.closes| == |u.closes| && u.closes == s.closes[t := u.closes[t]] && u.waits == s.waits
    requires u.shared == s.shared && |u.lanes| == |s.lanes|
    requires CloseRank(u.closes[t]) < CloseRank(s.closes[t])
    ensures Rank(u) < Rank(s)
  {
    CloseRanksUpdate(s.closes, t, u.closes[t]);
  }

  lemma WaitMoveDescends(w: Wait, handleClosed: bool, sh: Shared, op: WaitOp, v: Wait)
    requires WaitMove(w, handleClosed, sh, op) == Some(v)
    ensures WaitRank(v) < WaitRank(w)
  {
  }

  lemma WaitStepDescends(s: State, i: nat, op: WaitOp, u: State)
    requires WaitStep(s, i, op) == Some(u)
    ensures Rank(u) < Rank(s)
  {
    WaitMoveDescends(s.waits[i], HandleClosed(s, s.waits[i]), s.shared, op, u.waits[i]);
    WaitsDescend(s, u, i, 0);
  }

  lemma ChoiceDescends(s: State, i: nat, u: State)
    requires Choose(s, i) == Some(u) || Rechoose(s, i) == Some(u)
    ensures Rank(u) < Rank(s)
  {
    var l := ChoiceIs(s, i, u);
    WaitsDescend(s, u, i, 0);
  }

  lemma BindDescends(s: State, i: nat, ok: bool, u: State)
    requires Bind(s, i, ok) == Some(u)
    ensures Rank(u) < Rank(s)
  {
    WaitsDescend(s, u, i, 1);
  }

  lemma CallerDescends(s: State, step: Step, u: State)
    requires Next(s, step) == Some(u)
    requires step.LocksHandle? || step.LocksCreate? || step.Tracks? || step.Submits?
             || step.ReleasesRejected? || step.UntracksRejected?
    requires step.Submits? ==> step.i < |s.waits| && s.waits[step.i].job == NotSubmitted
    ensures Rank(u) < Rank(s)
  {
    WaitsDescend(s, u, step.i, 0);
  }

  lemma LaneDescends(s: State, step: Step, u: State)
    requires Next(s, step) == Some(u)
    requires step.LaneRuns? || step.LaneReleases? || step.LaneUntracks? || step.LaneDelivers?
    ensures Rank(u) < Rank(s)
  {
    WaitsDescend(s, u, s.lanes[step.l].jobs[0].wait, 0);
  }

  lemma FenceDescends(s: State, l: nat, u: State)
    requires LanesOk(s.waits, s.closes, s.lanes) && RunFence(s, l) == Some(u)
    ensures Rank(u) < Rank(s)
  {
    HeadEntryOk(s.waits, s.closes, s.lanes, l);
    ClosesDescend(s, u, s.lanes[l].jobs[0].close);
  }

  lemma CloserDescends(s: State, step: Step, u: State)
    requires SharedOk(s.waits, s.lanes, s.shared) && Next(s, step) == Some(u)
    requires ClosesOk(s.waits, s.closes, s.lanes, |s.handles|, s.shared.base)
    requires step.Closes? || step.LocksWrite? || step.SendsFence? || step.Destroys? || step.Settles?
    ensures Rank(u) < Rank(s)
  {
    assert CloseOk(s.waits, s.lanes, s.shared.base, step.t, s.closes[step.t]);
    ClosesDescend(s, u, step.t);
  }

  lemma ContextDescends(s: State, op: CtxOp, u: State)
    requires CtxStep(s, op) == Some(u) && op != OpCtxLock
    ensures Rank(u) < Rank(s)
  {
    assert u.waits == s.waits && u.closes == s.closes && u.lanes == s.lanes;
  }

  // Every step of the program but the start of a Context.Close uses some of the rank up.
  lemma StepDescends(s: State, step: Step, u: State)
    requires Inv(s) && Next(s, step) == Some(u) && !step.Env? && step != ClosesContext(OpCtxLock)
    ensures Rank(u) < Rank(s)
  {
    if step.ClosesContext? {
      ContextDescends(s, step.xop, u);
    } else if step.Closes? || step.LocksWrite? || step.SendsFence? || step.Destroys? || step.Settles? {
      CloserDescends(s, step, u);
    } else if step.LaneFences? {
      FenceDescends(s, step.l, u);
    } else if step.LaneRuns? || step.LaneReleases? || step.LaneUntracks? || step.LaneDelivers? {
      LaneDescends(s, step, u);
    } else if step.Waits? {
      WaitStepDescends(s, step.i, step.wop, u);
    } else if step.Chooses? || step.Rechooses? {
      ChoiceDescends(s, step.i, u);
    } else if step.Binds? {
      BindDescends(s, step.i, step.ok, u);
    } else if step.Submits? {
      SubmitDescends(s, step.i, u);
    } else {
      CallerDescends(s, step, u);
    }
  }

  lemma SubmitDescends(s: State, i: nat, u: State)
    requires WaitsOk(s.waits, |s.handles|, |s.lanes|, s.shared) && Submit(s, i) == Some(u)
    ensures Rank(u) < Rank(s)
  {
    assert WaitOk(s.waits[i], |s.handles|, |s.lanes|, s.shared);
    CallerDescends(s, Submits(i), u);
  }

  // Neither the environment nor a new Context.Close has a part in the run.
  predicate ProgramSteps(steps: seq<Step>) {
    forall k :: 0 <= k < |steps| ==> !steps[k].Env? && steps[k] != ClosesContext(OpCtxLock)
  }

  lemma {:induction false} RunsAreBounded(s: State, steps: seq<Step>, u: State)
    requires Inv(s) && ProgramSteps(steps) && Exec(s, steps) == Some(u)
    ensures |steps| + Rank(u) <= Rank(s)
    decreases |steps|
  {
    if steps != [] {
      var v := Next(s, steps[0]).value;
      StepKeepsInv(s, steps[0], v);
      StepDescends(s, steps[0], v);
      RunsAreBounded(v, steps[1..], u);
    }
  }

  /** From every reachable state a run of the program has boundedly many steps, and one that
      cannot go on, with no Context.Close waiting, has settled every call and emptied every lane:
      the jobs of abandoned waits have been delivered too. */
  lemma MaximalRunsSettle(s: State, steps: seq<Step>, u: State)
    requires Reachable(s) && ProgramSteps(steps) && Exec(s, steps) == Some(u)
    requires forall step: Step :: !CanMove(u, step, false)
    ensures Settled(u) && |steps| <= Rank(s)
    ensures forall l :: 0 <= l < |u.lanes| ==> u.lanes[l].jobs == []
    ensures forall i :: 0 <= i < |u.waits| ==> u.waits[i].job in {NotSubmitted, Delivered}
  {
    ReachableInv(s);
    ReachableFences(s);
    RunsAreBounded(s, steps, u);
    RunKeepsInv(s, steps, u);
    RunKeepsFences(s, steps, u);
    if !Settled(u) { Progress(u, false); }
    forall l | 0 <= l < |u.lanes| ensures u.lanes[l].jobs == [] {
      if u.lanes[l].jobs != [] { var step := LaneCanMove(u, l, false); }
    }
    forall i | 0 <= i < |u.waits| ensures u.waits[i].job in {NotSubmitted, Delivered} {
      assert !InLane(u.waits[i].job);
    }
  }
}
