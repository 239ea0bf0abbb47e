/** Every step of the context machine keeps the invariant. */
module ContextWaitsSteps {
  import opened Options
  import opened WaitLanes
  import opened ContextWaits
  import opened ContextWaitsInvariant

  // ---- Steps that replace one wait and at most a pending count

  // What such a step has to respect.
  predicate GoodChange(s: State, t: State, i: nat)
    requires i < |s.waits|
  {
    && |t.waits| == |s.waits| && t.waits == s.waits[i := t.waits[i]]
    && t.closes == s.closes && t.handles == s.handles && SameJobs(s.lanes, t.lanes)
    && t.shared == s.shared.(creating := t.shared.creating, syncActive := t.shared.syncActive)
    && GoodWait(s, s.waits[i], t.waits[i], i)
    && GoodCounts(s, t, i)
  }

  predicate GoodWait(s: State, before: Wait, after: Wait, i: nat) {
    && after.handle == before.handle
    && WaitOk(after, |s.handles|, |s.lanes|, s.shared)
    && StaysInLane(s.lanes, i, before, after)
    && (Shrinks(before, after) || NoCloseOn(s.closes, after.handle))
    && (WaitHoldsHandle(after) ==> WaitHoldsHandle(before) || NoCloseOn(s.closes, after.handle))
    && (WaitHoldsContext(after.pc) ==> WaitHoldsContext(before.pc) || s.shared.ctx == CtxIdle)
    && (Outside(after) || !Outside(before) || after.handle.None?
        || (after.handle.value < |s.handles| && s.handles[after.handle.value].destroys == 0))
    && (s.shared.closed || s.shared.commandErr ==> Idle(after.pc) && !InLane(after.job))
    && (after.pc == Binding ==> before.pc == Binding || |s.lanes| < s.shared.base + MAX_WAIT_LANES)
  }

  predicate GoodCounts(s: State, t: State, i: nat)
    requires i < |s.waits| == |t.waits| && |s.lanes| == |t.lanes|
  {
    && t.shared.syncActive == s.shared.syncActive - ActiveOf(s.waits[i]) + ActiveOf(t.waits[i])
    && forall l :: 0 <= l < |s.lanes| ==>
         t.lanes[l].pending == s.lanes[l].pending - PendingOn(s.waits[i], l) + PendingOn(t.waits[i], l)
  }

  lemma ChangeKeepsRest(s: State, t: State, i: nat)
    requires Inv(s) && i < |s.waits| && GoodChange(s, t, i)
    requires LocksOk(t.waits, t.closes, t.shared)
    ensures Inv(t)
  {
    var w := t.waits[i];
    WaitsKept(s.waits, |s.handles|, |s.lanes|, s.shared, i, w, |t.lanes|, t.shared);
    SumsKept(s.waits, s.lanes, s.shared.syncActive, i, w, t.lanes, t.shared.syncActive);
    LanesKept(s.waits, s.closes, s.lanes, i, w, t.lanes);
    MembersKept(s.waits, s.lanes, i, w, t.lanes);
    ClosesKept(s.waits, s.closes, s.lanes, |s.handles|, s.shared.base, i, w, t.lanes);
    SharedKept(s.waits, s.lanes, s.shared, i, w, t.lanes, t.shared);
    HandlesKept(s.waits, s.closes, s.handles, i, w);
    EndKept(s.waits, s.closes, s.shared, i, w, t.shared);
  }

  lemma ChangeKeepsInv(s: State, t: State, i: nat)
    requires Inv(s) && i < |s.waits| && GoodChange(s, t, i) && t.shared.creating == s.shared.creating
    requires t.waits[i].pc in {Rechoosing, Binding} <==> s.waits[i].pc in {Rechoosing, Binding}
    ensures Inv(t)
  {
    LocksKept(s.waits, s.closes, s.shared, i, t.waits[i], t.shared);
    ChangeKeepsRest(s, t, i);
  }

  // A wait with its handle locked keeps every Close of the handle away, and a handle it
  // finds open has not been destroyed.
  lemma HolderExcludesClose(s: State, i: nat)
    requires i < |s.waits| && LocksOk(s.waits, s.closes, s.shared) && HandlesOk(s.waits, s.closes, s.handles)
    requires WaitHoldsHandle(s.waits[i]) || s.waits[i].handle.None?
    ensures NoCloseOn(s.closes, s.waits[i].handle)
    ensures s.waits[i].handle.Some? && s.waits[i].handle.value < |s.handles|
            && !s.handles[s.waits[i].handle.value].closed
            ==> s.handles[s.waits[i].handle.value].destroys == 0
  {
    if s.waits[i].handle.Some? && s.waits[i].handle.value < |s.handles| {
      var h := s.waits[i].handle.value;
      assert HandleOk(s.waits, s.closes, h, s.handles[h]);
    }
  }

  lemma WaitMoveOk(w: Wait, handleClosed: bool, sh: Shared, op: WaitOp, w': Wait, hc: nat, lc: nat)
    requires WaitOk(w, hc, lc, sh) && WaitMove(w, handleClosed, sh, op) == Some(w')
    ensures WaitOk(w', hc, lc, sh) && w'.handle == w.handle
    ensures ActiveOf(w') == ActiveOf(w) && PendingOf(w') == PendingOf(w) && w'.lane == w.lane && w'.job == w.job
    ensures WaitHoldsHandle(w') ==> WaitHoldsHandle(w)
    ensures WaitHoldsContext(w'.pc) ==> WaitHoldsContext(w.pc) || sh.ctx == CtxIdle
    ensures Outside(w') || !Outside(w) || (w.pc == HandleLocked && !handleClosed)
    ensures (sh.closed || sh.commandErr) && Idle(w.pc) ==> Idle(w'.pc)
    ensures w'.pc !in {Rechoosing, Binding} && w.pc !in {Rechoosing, Binding}
  {}

  lemma WaitStepKeepsInv(s: State, i: nat, op: WaitOp, t: State)
    requires Inv(s) && WaitStep(s, i, op) == Some(t)
    ensures Inv(t)
  {
    WaitMoveOk(s.waits[i], HandleClosed(s, s.waits[i]), s.shared, op, t.waits[i], |s.handles|, |s.lanes|);
    if WaitHoldsHandle(s.waits[i]) || s.waits[i].handle.None? { HolderExcludesClose(s, i); }
    ChangeKeepsInv(s, t, i);
  }

  lemma LockHandleKeepsInv(s: State, i: nat, t: State)
    requires Inv(s) && LockHandle(s, i) == Some(t)
    ensures Inv(t)
  {
    ChangeKeepsInv(s, t, i);
  }

  // ---- Claiming a lane

  // A claim keeps everything; the lane claimed is on the list.
  lemma ClaimIsGood(s: State, i: nat, l: nat)
    requires LocksOk(s.waits, s.closes, s.shared) && HandlesOk(s.waits, s.closes, s.handles)
    requires EndOk(s.waits, s.closes, s.shared) && i < |s.waits| && s.waits[i].pc in {Choosing, Rechoosing}
    requires WaitOk(s.waits[i], |s.handles|, |s.lanes|, s.shared) && s.shared.base <= l < |s.lanes|
    ensures GoodChange(s, Claim(s, i, l), i)
  {
    HolderExcludesClose(s, i);
  }

  lemma PendingNonNegative(s: State)
    requires SumsOk(s.waits, s.lanes, s.shared.syncActive) && s.shared.base <= |s.lanes|
    ensures forall k :: 0 <= k < |LivePending(s)| ==> LivePending(s)[k] >= 0
  {}

  lemma ToPcIsGood(s: State, i: nat, pc: WaitPc)
    requires EndOk(s.waits, s.closes, s.shared) && i < |s.waits|
    requires s.waits[i].pc in {Choosing, WantCreate, Rechoosing, Binding}
    requires WaitOk(s.waits[i], |s.handles|, |s.lanes|, s.shared)
    requires pc in {WantCreate, Rechoosing, Refused} || (pc == Binding && |s.lanes| < s.shared.base + MAX_WAIT_LANES)
    ensures GoodChange(s, s.(waits := s.waits[i := s.waits[i].(pc := pc)]), i)
  {
  }

  // laneCreateMu has one holder, and only its release lets the next one in.
  lemma CreateLocksOk(s: State, t: State, i: nat)
    requires LocksOk(s.waits, s.closes, s.shared) && i < |s.waits| == |t.waits|
    requires t.waits == s.waits[i := t.waits[i]] && t.closes == s.closes && t.waits[i].handle == s.waits[i].handle
    requires WaitHoldsHandle(t.waits[i]) == WaitHoldsHandle(s.waits[i])
    requires WaitHoldsContext(t.waits[i].pc) && WaitHoldsContext(s.waits[i].pc) && t.shared.ctx == s.shared.ctx
    requires if t.waits[i].pc in {Rechoosing, Binding}
             then s.shared.creating in {None, Some(i)} && t.shared.creating == Some(i)
             else if s.waits[i].pc in {Rechoosing, Binding} then t.shared.creating == None
             else t.shared.creating == s.shared.creating
    ensures LocksOk(t.waits, t.closes, t.shared)
  {}

  // Leaving Choosing or Rechoosing with a claim gives laneCreateMu up.
  lemma ClaimKeepsInv(s: State, i: nat, l: nat, t: State)
    requires Inv(s) && i < |s.waits| && s.waits[i].pc in {Choosing, Rechoosing} && s.shared.base <= l < |s.lanes|
    requires t == Claim(s, i, l).(shared := t.shared)
    requires t.shared == s.shared.(creating := if s.waits[i].pc == Rechoosing then None else s.shared.creating)
    ensures Inv(t)
  {
    assert WaitOk(s.waits[i], |s.handles|, |s.lanes|, s.shared);
    ClaimIsGood(s, i, l);
    CreateLocksOk(s, t, i);
    ChangeKeepsRest(s, t, i);
  }

  lemma ToPcKeepsInv(s: State, i: nat, pc: WaitPc, t: State)
    requires Inv(s) && i < |s.waits| && t == s.(waits := s.waits[i := s.waits[i].(pc := pc)])
    requires (s.waits[i].pc == Choosing && pc == WantCreate)
             || (s.waits[i].pc == Rechoosing && pc == Binding && |s.lanes| < s.shared.base + MAX_WAIT_LANES)
             || (s.waits[i].pc == Binding && pc == Rechoosing)
    ensures Inv(t)
  {
    assert WaitOk(s.waits[i], |s.handles|, |s.lanes|, s.shared);
    ToPcIsGood(s, i, pc);
    CreateLocksOk(s, t, i);
    ChangeKeepsRest(s, t, i);
  }

  // What reuseWaitLane comes to: a claim of a lane on the list, or the next position.
  lemma ChoiceIs(s: State, i: nat, t: State) returns (l: nat)
    requires Choose(s, i) == Some(t) || Rechoose(s, i) == Some(t)
    ensures i < |s.waits| && s.shared.base <= |s.lanes|
    ensures Pick(LivePending(s)).Some? ==>
              && s.shared.base <= l < |s.lanes| && t == Claim(s, i, l).(shared := t.shared)
              && t.shared == s.shared.(creating := if s.waits[i].pc == Rechoosing then None else s.shared.creating)
    ensures Pick(LivePending(s)).None? ==>
              var next := if s.waits[i].pc == Rechoosing then Binding else WantCreate;
              t == s.(waits := s.waits[i := s.waits[i].(pc := next)])
  {
    var pick := Pick(LivePending(s));
    l := if pick.Some? then s.shared.base + pick.value else 0;
  }

  lemma ChooseKeepsInv(s: State, i: nat, t: State)
    requires Inv(s) && Choose(s, i) == Some(t)
    ensures Inv(t)
  {
    var l := ChoiceIs(s, i, t);
    if Pick(LivePending(s)).Some? {
      ClaimKeepsInv(s, i, l, t);
    } else {
      ToPcKeepsInv(s, i, WantCreate, t);
    }
  }

  lemma LockCreateKeepsInv(s: State, i: nat, t: State)
    requires Inv(s) && LockCreate(s, i) == Some(t)
    ensures Inv(t)
  {
    assert WaitOk(s.waits[i], |s.handles|, |s.lanes|, s.shared);
    ToPcIsGood(s, i, Rechoosing);
    CreateLocksOk(s, t, i);
    ChangeKeepsRest(s, t, i);
  }

  lemma RechooseKeepsInv(s: State, i: nat, t: State)
    requires Inv(s) && Rechoose(s, i) == Some(t)
    ensures Inv(t)
  {
    var l := ChoiceIs(s, i, t);
    if Pick(LivePending(s)).Some? {
      ClaimKeepsInv(s, i, l, t);
    } else {
      PendingNonNegative(s);
      PickShares(LivePending(s));
      ToPcKeepsInv(s, i, Binding, t);
    }
  }

  lemma BindFailKeepsInv(s: State, i: nat, t: State)
    requires Inv(s) && Bind(s, i, false) == Some(t)
    ensures Inv(t)
  {
    assert WaitOk(s.waits[i], |s.handles|, |s.lanes|, s.shared);
    ToPcIsGood(s, i, Refused);
    CreateLocksOk(s, t, i);
    ChangeKeepsRest(s, t, i);
  }

  // A new empty lane changes nothing for the lanes there are.
  lemma NewLaneKeeps(s: State, t: State)
    requires Inv(s) && t == s.(lanes := s.lanes + [Lane(0, [])])
    requires |s.lanes| < s.shared.base + MAX_WAIT_LANES && s.shared.ctx == CtxIdle
    requires forall i :: 0 <= i < |s.waits| ==> s.waits[i].pc != Binding
    ensures Inv(t)
  {
    forall i | 0 <= i < |s.waits| ensures PendingOn(s.waits[i], |s.lanes|) == 0 {
      assert WaitOk(s.waits[i], |s.handles|, |s.lanes|, s.shared);
    }
    SumPendingAbsent(s.waits, |s.lanes|);
    forall k | 0 <= k < |s.closes| ensures CloseOk(t.waits, t.lanes, t.shared.base, k, t.closes[k]) {
      assert CloseOk(s.waits, s.lanes, s.shared.base, k, s.closes[k]);
    }
  }

  // newExecutor succeeded: the lane is appended empty, then claimed.
  lemma BindOkKeepsInv(s: State, i: nat, t: State)
    requires Inv(s) && Bind(s, i, true) == Some(t)
    ensures Inv(t)
  {
    var v := s.(waits := s.waits[i := s.waits[i].(pc := Rechoosing)]);
    ToPcKeepsInv(s, i, Rechoosing, v);
    var u := v.(lanes := s.lanes + [Lane(0, [])]);
    NewLaneKeeps(v, u);
    var w := Claim(u, i, |s.lanes|).(shared := u.shared.(creating := None));
    ClaimKeepsInv(u, i, |s.lanes|, w);
    assert t.lanes == w.lanes && t.waits == w.waits;
  }

  lemma TrackKeepsInv(s: State, i: nat, t: State)
    requires Inv(s) && Track(s, i) == Some(t)
    ensures Inv(t)
  {
    assert WaitOk(s.waits[i], |s.handles|, |s.lanes|, s.shared);
    HolderExcludesClose(s, i);
    ChangeKeepsInv(s, t, i);
  }

  lemma ReleaseRejectedKeepsInv(s: State, i: nat, t: State)
    requires Inv(s) && ReleaseRejected(s, i) == Some(t)
    ensures Inv(t)
  {
    assert WaitOk(s.waits[i], |s.handles|, |s.lanes|, s.shared);
    ChangeKeepsInv(s, t, i);
  }

  lemma UntrackRejectedKeepsInv(s: State, i: nat, t: State)
    requires Inv(s) && UntrackRejected(s, i) == Some(t)
    ensures Inv(t)
  {
    assert WaitOk(s.waits[i], |s.handles|, |s.lanes|, s.shared);
    ChangeKeepsInv(s, t, i);
  }

  // ---- The head of a lane

  lemma HeadWait(s: State, l: nat, job: JobPc) returns (i: nat)
    requires Inv(s) && HeadIs(s, l, job)
    ensures i == s.lanes[l].jobs[0].wait && i < |s.waits| && Heads(s.lanes, l, i)
    ensures s.waits[i].job == job && s.waits[i].lane == l && !Unsubmitted(s.waits[i].pc)
    ensures WaitOk(s.waits[i], |s.handles|, |s.lanes|, s.shared) && !s.shared.closed && !s.shared.commandErr
  {
    i := s.lanes[l].jobs[0].wait;
    assert LaneOk(s.waits, s.closes, l, s.lanes[l].jobs);
    assert EntryOk(s.waits, s.closes, l, 0, s.lanes[l].jobs[0]);
    assert WaitOk(s.waits[i], |s.handles|, |s.lanes|, s.shared);
  }

  lemma LaneStepKeepsInv(s: State, l: nat, op: LaneOp, t: State)
    requires Inv(s) && LaneStep(s, l, op) == Some(t)
    ensures Inv(t)
  {
    var i := HeadWait(s, l, if op.OpStart? then Queued else Running);
    ChangeKeepsInv(s, t, i);
  }

  lemma ReleaseLaneKeepsInv(s: State, l: nat, t: State)
    requires Inv(s) && ReleaseLane(s, l) == Some(t)
    ensures Inv(t)
  {
    var i := HeadWait(s, l, Ran);
    ChangeKeepsInv(s, t, i);
  }

  lemma UntrackLaneKeepsInv(s: State, l: nat, t: State)
    requires Inv(s) && UntrackLane(s, l) == Some(t)
    ensures Inv(t)
  {
    var i := HeadWait(s, l, LaneReleased);
    ChangeKeepsInv(s, t, i);
  }

  // ---- Submitting to a lane

  lemma SubmitLanes(s: State, i: nat, t: State)
    requires LanesOk(s.waits, s.closes, s.lanes) && Submit(s, i) == Some(t) && !InLane(s.waits[i].job)
    ensures LanesOk(t.waits, t.closes, t.lanes)
  {
    var l := s.waits[i].lane;
    forall m | 0 <= m < |t.lanes| ensures LaneOk(t.waits, t.closes, m, t.lanes[m].jobs) {
      assert LaneOk(s.waits, s.closes, m, s.lanes[m].jobs);
      forall p | 0 <= p < |t.lanes[m].jobs| ensures EntryOk(t.waits, t.closes, m, p, t.lanes[m].jobs[p]) {
        if p < |s.lanes[m].jobs| { assert EntryOk(s.waits, s.closes, m, p, s.lanes[m].jobs[p]); }
      }
    }
  }

  lemma SubmitMembers(s: State, i: nat, t: State)
    requires MembersOk(s.waits, s.lanes) && Submit(s, i) == Some(t)
    ensures MembersOk(t.waits, t.lanes)
  {
    var l := s.waits[i].lane;
    assert t.lanes[l].jobs[|s.lanes[l].jobs|] == WaitJob(i);
    forall j | 0 <= j < |t.waits| && InLane(t.waits[j].job)
      ensures t.waits[j].lane < |t.lanes| && WaitJob(j) in t.lanes[t.waits[j].lane].jobs
    {}
  }

  lemma SubmitBehind(waits: seq<Wait>, jobs: seq<LaneJob>, i: nat, w: Wait, t: nat, h: nat)
    requires i < |waits| && w.handle == waits[i].handle && w.handle != Some(h) && BehindAll(waits, jobs, t, h)
    ensures BehindAll(waits[i := w], jobs + [WaitJob(i)], t, h)
  {
    SameHandlesBehind(waits, i, w, jobs, t, h);
    var jobs' := jobs + [WaitJob(i)];
    forall p, q | 0 <= p < |jobs'| && 0 <= q < |jobs'| && jobs'[q] == FenceJob(t)
                  && IsWaitOn(waits[i := w], jobs'[p], h)
      ensures p < q
    {
      assert IsWaitOn(waits[i := w], jobs[p], h) && jobs[q] == FenceJob(t);
    }
  }

  lemma SubmitCloses(s: State, i: nat, t: State)
    requires ClosesOk(s.waits, s.closes, s.lanes, |s.handles|, s.shared.base) && Submit(s, i) == Some(t)
    requires NoCloseOn(s.closes, s.waits[i].handle)
    ensures ClosesOk(t.waits, t.closes, t.lanes, |t.handles|, t.shared.base)
  {
    forall k | 0 <= k < |s.closes| ensures CloseOk(t.waits, t.lanes, t.shared.base, k, t.closes[k]) {
      assert CloseOk(s.waits, s.lanes, s.shared.base, k, s.closes[k]);
      if s.closes[k].pc.FenceSent? && !s.closes[k].fenced {
        var l := s.closes[k].pc.lane;
        if l == s.waits[i].lane {
          SubmitBehind(s.waits, s.lanes[l].jobs, i, t.waits[i], k, s.closes[k].handle);
        } else {
          SameHandlesBehind(s.waits, i, t.waits[i], s.lanes[l].jobs, k, s.closes[k].handle);
        }
      }
    }
  }

  lemma SubmitKeepsInv(s: State, i: nat, t: State)
    requires Inv(s) && Submit(s, i) == Some(t)
    ensures Inv(t)
  {
    var w := t.waits[i];
    assert WaitOk(s.waits[i], |s.handles|, |s.lanes|, s.shared);
    assert WaitOk(w, |s.handles|, |s.lanes|, s.shared);
    HolderExcludesClose(s, i);
    WaitsKept(s.waits, |s.handles|, |s.lanes|, s.shared, i, w, |t.lanes|, t.shared);
    SumsKept(s.waits, s.lanes, s.shared.syncActive, i, w, t.lanes, t.shared.syncActive);
    SubmitLanes(s, i, t);
    SubmitMembers(s, i, t);
    SubmitCloses(s, i, t);
    LocksKept(s.waits, s.closes, s.shared, i, w, t.shared);
    HandlesKept(s.waits, s.closes, s.handles, i, w);
    assert s.shared.drained <= s.waits[i].lane;
  }

  // ---- Taking the head off a lane

  lemma TailBehind(waits: seq<Wait>, jobs: seq<LaneJob>, t: nat, h: nat)
    requires jobs != [] && BehindAll(waits, jobs, t, h)
    ensures BehindAll(waits, jobs[1..], t, h)
  {
    var tail := jobs[1..];
    forall p, q | 0 <= p < |tail| && 0 <= q < |tail| && tail[q] == FenceJob(t) && IsWaitOn(waits, tail[p], h)
      ensures p < q
    {
      assert jobs[q + 1] == FenceJob(t) && IsWaitOn(waits, jobs[p + 1], h);
    }
  }

  lemma DeliverLanes(s: State, l: nat, t: State)
    requires LanesOk(s.waits, s.closes, s.lanes) && Deliver(s, l) == Some(t)
    ensures LanesOk(t.waits, t.closes, t.lanes)
  {
    var i := s.lanes[l].jobs[0].wait;
    HeadEntryOk(s.waits, s.closes, s.lanes, l);
    forall m | 0 <= m < |t.lanes| ensures LaneOk(t.waits, t.closes, m, t.lanes[m].jobs) {
      var shift := if m == l then 1 else 0;
      assert LaneOk(s.waits, s.closes, m, s.lanes[m].jobs);
      forall p | 0 <= p < |t.lanes[m].jobs| ensures EntryOk(t.waits, t.closes, m, p, t.lanes[m].jobs[p]) {
        assert EntryOk(s.waits, s.closes, m, p + shift, s.lanes[m].jobs[p + shift]);
      }
    }
  }

  lemma TailMembers(jobs: seq<LaneJob>, job: LaneJob)
    requires jobs != [] && job in jobs && job != jobs[0]
    ensures job in jobs[1..]
  {}

  lemma DeliverMembers(s: State, l: nat, t: State)
    requires MembersOk(s.waits, s.lanes) && Deliver(s, l) == Some(t)
    ensures MembersOk(t.waits, t.lanes)
  {
    var i := s.lanes[l].jobs[0].wait;
    forall j | 0 <= j < |t.waits| && InLane(t.waits[j].job)
      ensures t.waits[j].lane < |t.lanes| && WaitJob(j) in t.lanes[t.waits[j].lane].jobs
    {
      assert j != i && t.waits[j] == s.waits[j];
      if s.waits[j].lane == l { TailMembers(s.lanes[l].jobs, WaitJob(j)); }
    }
  }

  lemma DeliverCloses(s: State, l: nat, t: State)
    requires ClosesOk(s.waits, s.closes, s.lanes, |s.handles|, s.shared.base) && Deliver(s, l) == Some(t)
    requires ActiveOf(t.waits[s.lanes[l].jobs[0].wait]) <= ActiveOf(s.waits[s.lanes[l].jobs[0].wait])
    ensures ClosesOk(t.waits, t.closes, t.lanes, |t.handles|, t.shared.base)
  {
    var i := s.lanes[l].jobs[0].wait;
    forall k | 0 <= k < |s.closes| ensures CloseOk(t.waits, t.lanes, t.shared.base, k, t.closes[k]) {
      assert CloseOk(s.waits, s.lanes, s.shared.base, k, s.closes[k]);
      if s.closes[k].pc.FenceSent? && !s.closes[k].fenced {
        var m := s.closes[k].pc.lane;
        SameHandlesBehind(s.waits, i, t.waits[i], s.lanes[m].jobs, k, s.closes[k].handle);
        if m == l { TailBehind(t.waits, s.lanes[l].jobs, k, s.closes[k].handle); }
      }
    }
  }

  lemma DeliverKeepsInv(s: State, l: nat, t: State)
    requires Inv(s) && Deliver(s, l) == Some(t)
    ensures Inv(t)
  {
    var i := HeadWait(s, l, Untracked);
    var w := t.waits[i];
    WaitsKept(s.waits, |s.handles|, |s.lanes|, s.shared, i, w, |t.lanes|, t.shared);
    SumsKept(s.waits, s.lanes, s.shared.syncActive, i, w, t.lanes, t.shared.syncActive);
    DeliverLanes(s, l, t);
    DeliverMembers(s, l, t);
    DeliverCloses(s, l, t);
    LocksKept(s.waits, s.closes, s.shared, i, w, t.shared);
    HandlesKept(s.waits, s.closes, s.handles, i, w);
  }

  // ---- A fence at the head of its lane

  lemma FenceLanes(s: State, l: nat, t: State)
    requires LanesOk(s.waits, s.closes, s.lanes) && RunFence(s, l) == Some(t)
    ensures LanesOk(t.waits, t.closes, t.lanes)
  {
    HeadEntryOk(s.waits, s.closes, s.lanes, l);
    forall m | 0 <= m < |t.lanes| ensures LaneOk(t.waits, t.closes, m, t.lanes[m].jobs) {
      var shift := if m == l then 1 else 0;
      assert LaneOk(s.waits, s.closes, m, s.lanes[m].jobs);
      forall p | 0 <= p < |t.lanes[m].jobs| ensures EntryOk(t.waits, t.closes, m, p, t.lanes[m].jobs[p]) {
        assert EntryOk(s.waits, s.closes, m, p + shift, s.lanes[m].jobs[p + shift]);
      }
    }
  }

  lemma FenceMembers(s: State, l: nat, t: State)
    requires MembersOk(s.waits, s.lanes) && RunFence(s, l) == Some(t)
    ensures MembersOk(t.waits, t.lanes)
  {
    forall j | 0 <= j < |t.waits| && InLane(t.waits[j].job)
      ensures t.waits[j].lane < |t.lanes| && WaitJob(j) in t.lanes[t.waits[j].lane].jobs
    {
      if s.waits[j].lane == l { TailMembers(s.lanes[l].jobs, WaitJob(j)); }
    }
  }

  // The fence of k is at the head of lane l, so no wait on its handle is left in l.
  lemma FenceClears(waits: seq<Wait>, lanes: seq<Lane>, l: nat, k: nat, h: nat, end: nat)
    requires MembersOk(waits, lanes) && l < |lanes| && lanes[l].jobs != [] && lanes[l].jobs[0] == FenceJob(k)
    requires BehindAll(waits, lanes[l].jobs, k, h) && Confined(waits, h, l, end)
    ensures Confined(waits, h, l + 1, end)
  {
    forall p | 0 <= p < |lanes[l].jobs| ensures !IsWaitOn(waits, lanes[l].jobs[p], h) {
      assert lanes[l].jobs[0] == FenceJob(k);
    }
    forall i | 0 <= i < |waits| && waits[i].handle == Some(h) && InLane(waits[i].job) ensures waits[i].lane != l {
      assert !IsWaitOn(waits, WaitJob(i), h) || WaitJob(i) !in lanes[l].jobs;
    }
  }

  lemma FenceCloses(s: State, l: nat, t: State)
    requires ClosesOk(s.waits, s.closes, s.lanes, |s.handles|, s.shared.base) && RunFence(s, l) == Some(t)
    requires LanesOk(s.waits, s.closes, s.lanes) && MembersOk(s.waits, s.lanes)
    ensures ClosesOk(t.waits, t.closes, t.lanes, |t.handles|, t.shared.base)
  {
    var f := s.lanes[l].jobs[0].close;
    HeadEntryOk(s.waits, s.closes, s.lanes, l);
    forall k | 0 <= k < |s.closes| ensures CloseOk(t.waits, t.lanes, t.shared.base, k, t.closes[k]) {
      assert CloseOk(s.waits, s.lanes, s.shared.base, k, s.closes[k]);
      if k == f {
        FenceClears(s.waits, s.lanes, l, k, s.closes[k].handle, s.closes[k].pc.end);
      } else if s.closes[k].pc.FenceSent? && !s.closes[k].fenced && s.closes[k].pc.lane == l {
        TailBehind(s.waits, s.lanes[l].jobs, k, s.closes[k].handle);
      }
    }
  }

  lemma FenceKeepsInv(s: State, l: nat, t: State)
    requires Inv(s) && RunFence(s, l) == Some(t)
    ensures Inv(t)
  {
    FenceLanes(s, l, t);
    FenceMembers(s, l, t);
    FenceCloses(s, l, t);
    FenceRest(s, l, t);
  }

  lemma FenceRest(s: State, l: nat, t: State)
    requires Inv(s) && RunFence(s, l) == Some(t)
    ensures SumsOk(t.waits, t.lanes, t.shared.syncActive) && LocksOk(t.waits, t.closes, t.shared)
    ensures SharedOk(t.waits, t.lanes, t.shared) && HandlesOk(t.waits, t.closes, t.handles)
    ensures EndOk(t.waits, t.closes, t.shared)
  {
    var f := s.lanes[l].jobs[0].close;
    HeadEntryOk(s.waits, s.closes, s.lanes, l);
    forall h | 0 <= h < |s.handles| ensures HandleOk(t.waits, t.closes, h, t.handles[h]) {
      assert HandleOk(s.waits, s.closes, h, s.handles[h]);
      if s.handles[h].destroys == 1 && !s.handles[h].closed {
        var u :| 0 <= u < |s.closes| && s.closes[u].handle == h && Destroyed(s.closes[u].pc);
        assert t.closes[u] == s.closes[u];
      }
    }
  }

  // ---- Steps that replace one Close

  lemma LanesKeptClose(waits: seq<Wait>, closes: seq<Close>, lanes: seq<Lane>, t: nat, c: Close)
    requires LanesOk(waits, closes, lanes) && t < |closes|
    requires closes[t].pc.FenceSent? && !closes[t].fenced ==> c.pc == closes[t].pc && !c.fenced
    ensures LanesOk(waits, closes[t := c], lanes)
  {
    forall l | 0 <= l < |lanes| ensures LaneOk(waits, closes[t := c], l, lanes[l].jobs) {
      assert LaneOk(waits, closes, l, lanes[l].jobs);
      forall p | 0 <= p < |lanes[l].jobs| ensures EntryOk(waits, closes[t := c], l, p, lanes[l].jobs[p]) {
        assert EntryOk(waits, closes, l, p, lanes[l].jobs[p]);
      }
    }
  }

  // A Close that is not sure to be alone with its handle may not move on.
  predicate GoodClose(s: State, t: nat, c: Close)
    requires t < |s.closes|
  {
    var d := s.closes[t];
    && c.handle == d.handle
    && (d.pc.FenceSent? && !d.fenced ==> c.pc == d.pc && !c.fenced)
    && (CloseHoldsHandle(c.pc) ==> CloseHoldsHandle(d.pc) || (NoWriter(s, c.handle) && NoReader(s, c.handle)))
    && (CloseHoldsContext(c.pc) ==> CloseHoldsContext(d.pc) || s.shared.ctx == CtxIdle)
    && (s.shared.closed || s.shared.commandErr ==>
          !c.pc.ReadingActive? && !c.pc.Snapshotting? && !c.pc.Fencing? && !c.pc.FenceSent? && !c.pc.Destroying?)
    && CloseOk(s.waits, s.lanes, s.shared.base, t, c)
  }

  lemma LocksKeptClose(s: State, t: nat, c: Close)
    requires LocksOk(s.waits, s.closes, s.shared) && t < |s.closes| && GoodClose(s, t, c)
    ensures LocksOk(s.waits, s.closes[t := c], s.shared)
  {}

  lemma CloseKeepsInv(s: State, t: nat, c: Close, handles: seq<Handle>)
    requires Inv(s) && t < |s.closes| && GoodClose(s, t, c)
    requires |handles| == |s.handles| && HandlesOk(s.waits, s.closes[t := c], handles)
    ensures Inv(s.(closes := s.closes[t := c], handles := handles))
  {
    LanesKeptClose(s.waits, s.closes, s.lanes, t, c);
    LocksKeptClose(s, t, c);
  }

  // The handles stay as they are while a Close moves without a destroy.
  lemma HandlesKeptClose(s: State, t: nat, c: Close)
    requires HandlesOk(s.waits, s.closes, s.handles) && t < |s.closes| && c.handle == s.closes[t].handle < |s.handles|
    requires Destroyed(c.pc) == Destroyed(s.closes[t].pc)
    requires CloseHoldsHandle(c.pc) && c.pc != WriteLocked && !Destroyed(c.pc) ==> s.handles[c.handle].destroys == 0
    ensures HandlesOk(s.waits, s.closes[t := c], s.handles)
  {
    var closes' := s.closes[t := c];
    forall h | 0 <= h < |s.handles| ensures HandleOk(s.waits, closes', h, s.handles[h]) {
      assert HandleOk(s.waits, s.closes, h, s.handles[h]);
      if s.handles[h].destroys == 1 && !s.handles[h].closed {
        var u :| 0 <= u < |s.closes| && s.closes[u].handle == h && Destroyed(s.closes[u].pc);
        assert closes'[u].handle == h && Destroyed(closes'[u].pc);
      }
    }
  }

  // A Close that holds its handle, has found it open and has not destroyed it finds it intact.
  lemma OpenMeansIntact(s: State, t: nat)
    requires LocksOk(s.waits, s.closes, s.shared) && HandlesOk(s.waits, s.closes, s.handles)
    requires t < |s.closes| && s.closes[t].handle < |s.handles|
    requires CloseHoldsHandle(s.closes[t].pc) && !Destroyed(s.closes[t].pc)
    requires s.closes[t].pc != WriteLocked || !s.handles[s.closes[t].handle].closed
    ensures s.handles[s.closes[t].handle].destroys == 0 && !s.handles[s.closes[t].handle].closed
  {
    var h := s.closes[t].handle;
    assert HandleOk(s.waits, s.closes, h, s.handles[h]);
  }

  // With the handle write-locked no wait on it is between taking and releasing its lock.
  lemma WriterExcludesWaits(s: State, t: nat)
    requires LocksOk(s.waits, s.closes, s.shared) && t < |s.closes| && CloseHoldsHandle(s.closes[t].pc)
    ensures forall i :: 0 <= i < |s.waits| && s.waits[i].handle == Some(s.closes[t].handle) ==>
              s.waits[i].pc in {WantHandle, Returned}
  {}

  lemma NoActiveMeansQuiet(waits: seq<Wait>, h: nat)
    requires SumActive(waits) == 0
    ensures Quiet(waits, h)
  {
    forall i | 0 <= i < |waits| ensures ActiveOf(waits[i]) == 0 { SumActivePart(waits, i); }
  }

  lemma CloseMoveIsGood(s: State, t: nat, op: CloseOp, c: Close)
    requires Inv(s) && t < |s.closes| && s.closes[t].handle < |s.handles|
    requires CloseMove(s.closes[t], s.handles[s.closes[t].handle].closed, |s.lanes|, s.shared, op) == Some(c)
    ensures GoodClose(s, t, c) && Destroyed(c.pc) == Destroyed(s.closes[t].pc)
  {
    assert CloseOk(s.waits, s.lanes, s.shared.base, t, s.closes[t]);
    if CloseHoldsHandle(s.closes[t].pc) { WriterExcludesWaits(s, t); }
    match op
    case OpReadActive =>
      if s.shared.syncActive == 0 { NoActiveMeansQuiet(s.waits, c.handle); }
    case OpSnapshot =>
      forall i | 0 <= i < |s.waits| && InLane(s.waits[i].job) ensures s.shared.base <= s.waits[i].lane < |s.lanes| {
        assert WaitOk(s.waits[i], |s.handles|, |s.lanes|, s.shared);
      }
    case _ =>
  }

  lemma CloseStepKeepsInv(s: State, t: nat, op: CloseOp, u: State)
    requires Inv(s) && CloseStep(s, t, op) == Some(u)
    ensures Inv(u)
  {
    var c := u.closes[t];
    CloseMoveIsGood(s, t, op, c);
    if CloseHoldsHandle(c.pc) && !Destroyed(c.pc) { OpenMeansIntact(s, t); }
    HandlesKeptClose(s, t, c);
    CloseKeepsInv(s, t, c, s.handles);
  }

  lemma LockWriteKeepsInv(s: State, t: nat, u: State)
    requires Inv(s) && LockWrite(s, t) == Some(u)
    ensures Inv(u)
  {
    var c := u.closes[t];
    HandlesKeptClose(s, t, c);
    CloseKeepsInv(s, t, c, s.handles);
  }

  // ---- Destroying the handle

  lemma DestroyHandles(s: State, t: nat, ok: bool, u: State)
    requires Inv(s) && Destroy(s, t, ok) == Some(u)
    ensures HandlesOk(u.waits, u.closes, u.handles)
  {
    WriterExcludesWaits(s, t);
    OpenMeansIntact(s, t);
    assert CloseOk(s.waits, s.lanes, s.shared.base, t, s.closes[t]);
    forall h | 0 <= h < |u.handles| ensures HandleOk(u.waits, u.closes, h, u.handles[h]) {
      assert HandleOk(s.waits, s.closes, h, s.handles[h]);
      if h == s.closes[t].handle {
        assert u.closes[t].handle == h && Destroyed(u.closes[t].pc) == ok;
      } else if s.handles[h].destroys == 1 && !s.handles[h].closed {
        var v :| 0 <= v < |s.closes| && s.closes[v].handle == h && Destroyed(s.closes[v].pc);
        assert u.closes[v] == s.closes[v];
      }
    }
  }

  lemma DestroyKeepsInv(s: State, t: nat, ok: bool, u: State)
    requires Inv(s) && Destroy(s, t, ok) == Some(u)
    ensures Inv(u)
  {
    DestroyHandles(s, t, ok, u);
    CloseKeepsInv(s, t, u.closes[t], u.handles);
  }

  lemma SettleHandles(s: State, t: nat, u: State)
    requires Inv(s) && Settle(s, t) == Some(u)
    ensures HandlesOk(u.waits, u.closes, u.handles)
  {
    forall h | 0 <= h < |u.handles| ensures HandleOk(u.waits, u.closes, h, u.handles[h]) {
      assert HandleOk(s.waits, s.closes, h, s.handles[h]);
      if h != s.closes[t].handle && s.handles[h].destroys == 1 && !s.handles[h].closed {
        var v :| 0 <= v < |s.closes| && s.closes[v].handle == h && Destroyed(s.closes[v].pc);
        assert u.closes[v] == s.closes[v];
      }
    }
  }

  lemma SettleKeepsInv(s: State, t: nat, u: State)
    requires Inv(s) && Settle(s, t) == Some(u)
    ensures Inv(u)
  {
    SettleHandles(s, t, u);
    CloseKeepsInv(s, t, u.closes[t], u.handles);
  }

  // ---- Sending a fence

  lemma SendFenceLanes(s: State, t: nat, u: State)
    requires LanesOk(s.waits, s.closes, s.lanes) && SendFence(s, t) == Some(u)
    ensures LanesOk(u.waits, u.closes, u.lanes)
  {
    forall l | 0 <= l < |u.lanes| ensures LaneOk(u.waits, u.closes, l, u.lanes[l].jobs) {
      assert LaneOk(s.waits, s.closes, l, s.lanes[l].jobs);
      forall p | 0 <= p < |u.lanes[l].jobs| ensures EntryOk(u.waits, u.closes, l, p, u.lanes[l].jobs[p]) {
        if p < |s.lanes[l].jobs| { assert EntryOk(s.waits, s.closes, l, p, s.lanes[l].jobs[p]); }
      }
    }
  }

  lemma FenceBehind(waits: seq<Wait>, jobs: seq<LaneJob>, f: nat, t: nat, h: nat)
    requires if t == f then FenceJob(t) !in jobs else BehindAll(waits, jobs, t, h)
    ensures BehindAll(waits, jobs + [FenceJob(f)], t, h)
  {
    var jobs' := jobs + [FenceJob(f)];
    forall p, q | 0 <= p < |jobs'| && 0 <= q < |jobs'| && jobs'[q] == FenceJob(t) && IsWaitOn(waits, jobs'[p], h)
      ensures p < q
    {
      if t != f { assert jobs[q] == FenceJob(t) && IsWaitOn(waits, jobs[p], h); }
      else { assert q == |jobs|; }
    }
  }

  lemma FenceIsNew(s: State, t: nat, l: nat)
    requires LanesOk(s.waits, s.closes, s.lanes) && t < |s.closes| && !s.closes[t].pc.FenceSent? && l < |s.lanes|
    ensures FenceJob(t) !in s.lanes[l].jobs
  {
    assert LaneOk(s.waits, s.closes, l, s.lanes[l].jobs);
    forall p | 0 <= p < |s.lanes[l].jobs| ensures s.lanes[l].jobs[p] != FenceJob(t) {
      assert EntryOk(s.waits, s.closes, l, p, s.lanes[l].jobs[p]);
    }
  }

  lemma SendFenceCloses(s: State, t: nat, u: State)
    requires ClosesOk(s.waits, s.closes, s.lanes, |s.handles|, s.shared.base) && SendFence(s, t) == Some(u)
    requires LanesOk(s.waits, s.closes, s.lanes)
    ensures ClosesOk(u.waits, u.closes, u.lanes, |u.handles|, u.shared.base)
  {
    var l := s.closes[t].pc.lane;
    FenceIsNew(s, t, l);
    forall k | 0 <= k < |s.closes| ensures CloseOk(u.waits, u.lanes, u.shared.base, k, u.closes[k]) {
      assert CloseOk(s.waits, s.lanes, s.shared.base, k, s.closes[k]);
      if k == t || (s.closes[k].pc.FenceSent? && !s.closes[k].fenced && s.closes[k].pc.lane == l) {
        FenceBehind(s.waits, s.lanes[l].jobs, t, k, s.closes[k].handle);
      }
    }
  }

  lemma SendFenceRest(s: State, t: nat, u: State)
    requires Inv(s) && SendFence(s, t) == Some(u)
    ensures MembersOk(u.waits, u.lanes) && SumsOk(u.waits, u.lanes, u.shared.syncActive)
    ensures LocksOk(u.waits, u.closes, u.shared) && SharedOk(u.waits, u.lanes, u.shared)
    ensures EndOk(u.waits, u.closes, u.shared)
  {
    assert CloseOk(s.waits, s.lanes, s.shared.base, t, s.closes[t]);
  }

  lemma SendFenceKeepsInv(s: State, t: nat, u: State)
    requires Inv(s) && SendFence(s, t) == Some(u)
    ensures Inv(u)
  {
    SendFenceLanes(s, t, u);
    SendFenceCloses(s, t, u);
    SendFenceRest(s, t, u);
    OpenMeansIntact(s, t);
    HandlesKeptClose(s, t, u.closes[t]);
  }

  // ---- Context.Close

  // With every lane closed no job of any wait is left, and with the context locked no wait counts.
  lemma ReleaseFindsNothing(s: State)
    requires Inv(s) && s.shared.ctx == CtxReleasing
    ensures forall i :: 0 <= i < |s.waits| ==> !InLane(s.waits[i].job) && Idle(s.waits[i].pc)
    ensures forall l :: 0 <= l < |s.lanes| ==> s.lanes[l].jobs == [] && s.lanes[l].pending == 0
    ensures s.shared.syncActive == 0
  {
    assert forall l :: 0 <= l < |s.lanes| ==> s.lanes[l].jobs == [];
    forall i | 0 <= i < |s.waits| ensures !InLane(s.waits[i].job) && Idle(s.waits[i].pc) && ActiveOf(s.waits[i]) == 0 {
      assert !WaitHoldsContext(s.waits[i].pc);
      assert forall l :: 0 <= l < |s.lanes| ==> WaitJob(i) !in s.lanes[l].jobs;
    }
    SumActiveAbsent(s.waits);
    forall l | 0 <= l < |s.lanes| ensures s.lanes[l].pending == 0 {
      SumPendingAbsent(s.waits, l);
    }
  }

  lemma CtxKeepsWait(s: State, op: CtxOp, t: State, i: nat)
    requires SharedOk(s.waits, s.lanes, s.shared) && CtxStep(s, op) == Some(t) && i < |s.waits|
    requires WaitOk(s.waits[i], |s.handles|, |s.lanes|, s.shared)
    requires s.shared.ctx != CtxIdle ==> !WaitHoldsContext(s.waits[i].pc)
    requires InLane(s.waits[i].job) ==> s.waits[i].lane < |s.lanes| && WaitJob(i) in s.lanes[s.waits[i].lane].jobs
    ensures WaitOk(t.waits[i], |t.handles|, |t.lanes|, t.shared)
  {
  }

  lemma CtxKeepsWaits(s: State, op: CtxOp, t: State)
    requires WaitsOk(s.waits, |s.handles|, |s.lanes|, s.shared) && LocksOk(s.waits, s.closes, s.shared)
    requires SharedOk(s.waits, s.lanes, s.shared) && MembersOk(s.waits, s.lanes) && CtxStep(s, op) == Some(t)
    ensures WaitsOk(t.waits, |t.handles|, |t.lanes|, t.shared)
  {
    forall i | 0 <= i < |t.waits| ensures WaitOk(t.waits[i], |t.handles|, |t.lanes|, t.shared) {
      CtxKeepsWait(s, op, t, i);
    }
  }

  lemma CtxKeepsShared(s: State, op: CtxOp, t: State)
    requires SharedOk(s.waits, s.lanes, s.shared) && CtxStep(s, op) == Some(t)
    ensures SharedOk(t.waits, t.lanes, t.shared)
  {
  }

  lemma CtxKeepsCloses(s: State, op: CtxOp, t: State)
    requires ClosesOk(s.waits, s.closes, s.lanes, |s.handles|, s.shared.base) && CtxStep(s, op) == Some(t)
    requires LocksOk(s.waits, s.closes, s.shared)
    ensures ClosesOk(t.waits, t.closes, t.lanes, |t.handles|, t.shared.base)
  {
    forall k | 0 <= k < |t.closes| ensures CloseOk(t.waits, t.lanes, t.shared.base, k, t.closes[k]) {
      assert CloseOk(s.waits, s.lanes, s.shared.base, k, s.closes[k]);
    }
  }

  lemma CtxKeepsLocks(s: State, op: CtxOp, t: State)
    requires LocksOk(s.waits, s.closes, s.shared) && CtxStep(s, op) == Some(t)
    ensures LocksOk(t.waits, t.closes, t.shared)
  {
  }

  lemma CtxKeepsEnd(s: State, op: CtxOp, t: State)
    requires Inv(s) && CtxStep(s, op) == Some(t)
    ensures EndOk(t.waits, t.closes, t.shared)
  {
    if op.OpCtxRelease? { ReleaseFindsNothing(s); }
  }

  lemma CtxStepKeepsInv(s: State, op: CtxOp, t: State)
    requires Inv(s) && CtxStep(s, op) == Some(t)
    ensures Inv(t)
  {
    CtxKeepsWaits(s, op, t);
    CtxKeepsShared(s, op, t);
    CtxKeepsCloses(s, op, t);
    CtxKeepsLocks(s, op, t);
    CtxKeepsEnd(s, op, t);
  }

  // ---- New calls and handles, cancellation

  lemma NewWaitKeepsInv(s: State, w: Wait)
    requires Inv(s) && w.job == NotSubmitted && w.pc in {WantHandle, WantContext}
    requires WaitOk(w, |s.handles|, |s.lanes|, s.shared)
    requires w.handle.Some? ==> w.pc == WantHandle
    ensures Inv(s.(waits := s.waits + [w]))
  {
    NewWaitSums(s, w);
    NewWaitLanes(s, w);
    NewWaitCloses(s, w);
    NewWaitHandles(s, w);
    NewWaitLocks(s, w);
  }

  lemma NewWaitLocks(s: State, w: Wait)
    requires LocksOk(s.waits, s.closes, s.shared) && !WaitHoldsHandle(w) && !WaitHoldsContext(w.pc)
    ensures LocksOk(s.waits + [w], s.closes, s.shared)
  {}

  lemma NewWaitSums(s: State, w: Wait)
    requires SumsOk(s.waits, s.lanes, s.shared.syncActive) && ActiveOf(w) == 0 && PendingOf(w) == 0
    ensures SumsOk(s.waits + [w], s.lanes, s.shared.syncActive)
  {
    SumsAppend(s.waits, w, 0);
    forall l | 0 <= l < |s.lanes| ensures s.lanes[l].pending == SumPending(s.waits + [w], l) {
      SumsAppend(s.waits, w, l);
    }
  }

  lemma NewWaitHandles(s: State, w: Wait)
    requires HandlesOk(s.waits, s.closes, s.handles) && (w.handle.None? || Outside(w))
    ensures HandlesOk(s.waits + [w], s.closes, s.handles)
  {
    forall h | 0 <= h < |s.handles| ensures HandleOk(s.waits + [w], s.closes, h, s.handles[h]) {
      assert HandleOk(s.waits, s.closes, h, s.handles[h]);
    }
  }

  lemma NewWaitLanes(s: State, w: Wait)
    requires LanesOk(s.waits, s.closes, s.lanes)
    ensures LanesOk(s.waits + [w], s.closes, s.lanes)
  {
    forall l | 0 <= l < |s.lanes| ensures LaneOk(s.waits + [w], s.closes, l, s.lanes[l].jobs) {
      assert LaneOk(s.waits, s.closes, l, s.lanes[l].jobs);
      forall p | 0 <= p < |s.lanes[l].jobs| ensures EntryOk(s.waits + [w], s.closes, l, p, s.lanes[l].jobs[p]) {
        assert EntryOk(s.waits, s.closes, l, p, s.lanes[l].jobs[p]);
      }
    }
  }

  lemma NewWaitCloses(s: State, w: Wait)
    requires ClosesOk(s.waits, s.closes, s.lanes, |s.handles|, s.shared.base) && LanesOk(s.waits, s.closes, s.lanes)
    requires !InLane(w.job) && ActiveOf(w) == 0
    ensures ClosesOk(s.waits + [w], s.closes, s.lanes, |s.handles|, s.shared.base)
  {
    forall k | 0 <= k < |s.closes| ensures CloseOk(s.waits + [w], s.lanes, s.shared.base, k, s.closes[k]) {
      assert CloseOk(s.waits, s.lanes, s.shared.base, k, s.closes[k]);
      if s.closes[k].pc.FenceSent? && !s.closes[k].fenced {
        var l, h := s.closes[k].pc.lane, s.closes[k].handle;
        var jobs := s.lanes[l].jobs;
        assert LaneOk(s.waits, s.closes, l, jobs);
        forall p, q | 0 <= p < |jobs| && 0 <= q < |jobs| && jobs[q] == FenceJob(k)
                      && IsWaitOn(s.waits + [w], jobs[p], h)
          ensures p < q
        {
          assert EntryOk(s.waits, s.closes, l, p, jobs[p]);
          assert IsWaitOn(s.waits, jobs[p], h);
        }
      }
    }
  }

  lemma NewCloseLanes(s: State, c: Close)
    requires LanesOk(s.waits, s.closes, s.lanes)
    ensures LanesOk(s.waits, s.closes + [c], s.lanes)
  {
    forall l | 0 <= l < |s.lanes| ensures LaneOk(s.waits, s.closes + [c], l, s.lanes[l].jobs) {
      assert LaneOk(s.waits, s.closes, l, s.lanes[l].jobs);
      forall p | 0 <= p < |s.lanes[l].jobs| ensures EntryOk(s.waits, s.closes + [c], l, p, s.lanes[l].jobs[p]) {
        assert EntryOk(s.waits, s.closes, l, p, s.lanes[l].jobs[p]);
      }
    }
  }

  lemma NewCloseHandles(s: State, c: Close)
    requires HandlesOk(s.waits, s.closes, s.handles) && c.pc == WantWrite
    ensures HandlesOk(s.waits, s.closes + [c], s.handles)
  {
    forall k | 0 <= k < |s.handles| ensures HandleOk(s.waits, s.closes + [c], k, s.handles[k]) {
      assert HandleOk(s.waits, s.closes, k, s.handles[k]);
      if s.handles[k].destroys == 1 && !s.handles[k].closed {
        var v :| 0 <= v < |s.closes| && s.closes[v].handle == k && Destroyed(s.closes[v].pc);
        assert (s.closes + [c])[v] == s.closes[v];
      }
    }
  }

  lemma NewCloseKeepsInv(s: State, h: nat, t: State)
    requires Inv(s) && EnvStep(s, OpNewClose(h)) == Some(t)
    ensures Inv(t)
  {
    NewCloseLanes(s, t.closes[|s.closes|]);
    NewCloseHandles(s, t.closes[|s.closes|]);
  }

  lemma NewHandleKeepsInv(s: State, t: State)
    requires Inv(s) && EnvStep(s, OpNewHandle) == Some(t)
    ensures Inv(t)
  {
    forall i | 0 <= i < |t.waits| ensures WaitOk(t.waits[i], |t.handles|, |t.lanes|, t.shared) {
      assert WaitOk(s.waits[i], |s.handles|, |s.lanes|, s.shared);
    }
    forall h | 0 <= h < |t.handles| ensures HandleOk(t.waits, t.closes, h, t.handles[h]) {
      if h < |s.handles| { assert HandleOk(s.waits, s.closes, h, s.handles[h]); }
      forall i | 0 <= i < |t.waits| ensures t.waits[i].handle != Some(|s.handles|) {
        assert WaitOk(s.waits[i], |s.handles|, |s.lanes|, s.shared);
      }
    }
  }

  lemma CancelKeepsInv(s: State, i: nat, t: State)
    requires Inv(s) && EnvStep(s, OpCancel(i)) == Some(t)
    ensures Inv(t)
  {
    assert WaitOk(s.waits[i], |s.handles|, |s.lanes|, s.shared);
    ChangeKeepsInv(s, t, i);
  }

  lemma EnvStepKeepsInv(s: State, op: EnvOp, t: State)
    requires Inv(s) && EnvStep(s, op) == Some(t)
    ensures Inv(t)
  {
    match op
    case OpNewHandle => NewHandleKeepsInv(s, t);
    case OpNewWait(handle) => NewWaitKeepsInv(s, t.waits[|s.waits|]);
    case OpNewClose(h) => NewCloseKeepsInv(s, h, t);
    case OpCancel(i) => CancelKeepsInv(s, i, t);
  }

  // ---- Every reachable state

  lemma CallerKeepsInv(s: State, step: Step, t: State)
    requires Inv(s) && Next(s, step) == Some(t)
    requires step.Waits? || step.LocksHandle? || step.Chooses? || step.LocksCreate? || step.Rechooses?
             || step.Binds? || step.Tracks? || step.Submits? || step.ReleasesRejected? || step.UntracksRejected?
    ensures Inv(t)
  {
    match step
    case Waits(i, op) => WaitStepKeepsInv(s, i, op, t);
    case LocksHandle(i) => LockHandleKeepsInv(s, i, t);
    case Chooses(i) => ChooseKeepsInv(s, i, t);
    case LocksCreate(i) => LockCreateKeepsInv(s, i, t);
    case Rechooses(i) => RechooseKeepsInv(s, i, t);
    case Binds(i, ok) => if ok { BindOkKeepsInv(s, i, t); } else { BindFailKeepsInv(s, i, t); }
    case Tracks(i) => TrackKeepsInv(s, i, t);
    case Submits(i) => SubmitKeepsInv(s, i, t);
    case ReleasesRejected(i) => ReleaseRejectedKeepsInv(s, i, t);
    case UntracksRejected(i) => UntrackRejectedKeepsInv(s, i, t);
  }

  lemma LaneKeepsInv(s: State, step: Step, t: State)
    requires Inv(s) && Next(s, step) == Some(t)
    requires step.LaneRuns? || step.LaneReleases? || step.LaneUntracks? || step.LaneDelivers? || step.LaneFences?
    ensures Inv(t)
  {
    match step
    case LaneRuns(l, op) => LaneStepKeepsInv(s, l, op, t);
    case LaneReleases(l) => ReleaseLaneKeepsInv(s, l, t);
    case LaneUntracks(l) => UntrackLaneKeepsInv(s, l, t);
    case LaneDelivers(l) => DeliverKeepsInv(s, l, t);
    case LaneFences(l) => FenceKeepsInv(s, l, t);
  }

  lemma CloserKeepsInv(s: State, step: Step, t: State)
    requires Inv(s) && Next(s, step) == Some(t)
    requires step.Closes? || step.LocksWrite? || step.SendsFence? || step.Destroys? || step.Settles?
    ensures Inv(t)
  {
    match step
    case Closes(k, op) => CloseStepKeepsInv(s, k, op, t);
    case LocksWrite(k) => LockWriteKeepsInv(s, k, t);
    case SendsFence(k) => SendFenceKeepsInv(s, k, t);
    case Destroys(k, ok) => DestroyKeepsInv(s, k, ok, t);
    case Settles(k) => SettleKeepsInv(s, k, t);
  }

  lemma StepKeepsInv(s: State, step: Step, t: State)
    requires Inv(s) && Next(s, step) == Some(t)
    ensures Inv(t)
  {
    if step.ClosesContext? {
      CtxStepKeepsInv(s, step.xop, t);
    } else if step.Env? {
      EnvStepKeepsInv(s, step.eop, t);
    } else if step.Closes? || step.LocksWrite? || step.SendsFence? || step.Destroys? || step.Settles? {
      CloserKeepsInv(s, step, t);
    } else if step.LaneRuns? || step.LaneReleases? || step.LaneUntracks? || step.LaneDelivers? || step.LaneFences? {
      LaneKeepsInv(s, step, t);
    } else {
      CallerKeepsInv(s, step, t);
    }
  }

  lemma {:induction false} RunKeepsInv(s: State, steps: seq<Step>, t: State)
    requires Inv(s) && Exec(s, steps) == Some(t)
    ensures Inv(t)
    decreases |steps|
  {
    if steps != [] {
      var u := Next(s, steps[0]).value;
      StepKeepsInv(s, steps[0], u);
      RunKeepsInv(u, steps[1..], t);
    }
  }

  lemma ReachableInv(s: State)
    requires Reachable(s)
    ensures Inv(s)
  {
    var steps :| Exec(INITIAL, steps) == Some(s);
    InitialInv();
    RunKeepsInv(INITIAL, steps, s);
  }
}
