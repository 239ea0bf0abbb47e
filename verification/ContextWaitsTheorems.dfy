/** What the context promises about waits, teardown and release, for every reachable
    state of every interleaving. */
module ContextWaitsTheorems {
  import opened Options
  import opened WaitLanes
  import opened ContextWaits
  import opened ContextWaitsInvariant
  import opened ContextWaitsSteps

  // The driver is, or will be, inside a synchronize call for this wait.
  predicate InDriver(w: Wait) {
    w.job == Queued || w.job == Running
  }

  // ---- Teardown of streams and events

  // A stream or event is destroyed only once, and only when no driver synchronize on it is
  // queued or running, even one whose caller was canceled and has returned.
  lemma DestroyIsSafe(s: State, t: nat, ok: bool)
    requires Reachable(s) && Destroy(s, t, ok).Some?
    ensures s.handles[s.closes[t].handle].destroys == 0
    ensures forall i :: 0 <= i < |s.waits| && s.waits[i].handle == Some(s.closes[t].handle) ==> !InDriver(s.waits[i])
  {
    ReachableInv(s);
    OpenMeansIntact(s, t);
    assert CloseOk(s.waits, s.lanes, s.shared.base, t, s.closes[t]);
    forall i | 0 <= i < |s.waits| && s.waits[i].handle == Some(s.closes[t].handle) ensures !InDriver(s.waits[i]) {
      assert ActiveOf(s.waits[i]) == 0;
    }
  }

  // Nor is a destroyed one ever handed to the driver again.
  lemma DestroyedIsNeverUsed(s: State, i: nat)
    requires Reachable(s) && i < |s.waits| && s.waits[i].handle.Some?
    ensures s.waits[i].handle.value < |s.handles|
    ensures s.handles[s.waits[i].handle.value].destroys > 0 ==> !InDriver(s.waits[i]) && s.waits[i].pc != Tracked
    ensures s.handles[s.waits[i].handle.value].destroys <= 1
  {
    ReachableInv(s);
    assert WaitOk(s.waits[i], |s.handles|, |s.lanes|, s.shared);
    var h := s.waits[i].handle.value;
    assert HandleOk(s.waits, s.closes, h, s.handles[h]);
  }

  // The driver call of a job starts only on a handle that is still there.
  lemma DriverCallsFindTheHandle(s: State, l: nat, t: State)
    requires Reachable(s) && LaneStep(s, l, OpStart) == Some(t)
    ensures var w := s.waits[s.lanes[l].jobs[0].wait];
            !s.shared.closed
            && (w.handle.Some? ==> w.handle.value < |s.handles| && s.handles[w.handle.value].destroys == 0)
  {
    ReachableInv(s);
    var i := HeadWait(s, l, Queued);
    if s.waits[i].handle.Some? { DestroyedIsNeverUsed(s, i); }
  }

  // ---- Release of the primary context

  // The primary context is released with every accepted job run and recycled, abandoned
  // waits included, and no lane left with anything to do.
  lemma ReleaseIsSafe(s: State, ok: bool, restored: bool)
    requires Reachable(s) && CtxStep(s, OpCtxRelease(ok, restored)).Some?
    ensures s.shared.releases == 0 && s.shared.syncActive == 0
    ensures forall i :: 0 <= i < |s.waits| && s.waits[i].job != NotSubmitted ==>
              s.waits[i].job == Delivered && s.waits[i].recycles == 1
    ensures forall l :: 0 <= l < |s.lanes| ==> s.lanes[l].jobs == [] && s.lanes[l].pending == 0
  {
    ReachableInv(s);
    ReleaseFindsNothing(s);
    forall i | 0 <= i < |s.waits| && s.waits[i].job != NotSubmitted
      ensures s.waits[i].job == Delivered && s.waits[i].recycles == 1
    {
      assert WaitOk(s.waits[i], |s.handles|, |s.lanes|, s.shared);
      assert !InLane(s.waits[i].job);
    }
  }

  // Once it is released, or while a failed restore keeps the command executor quarantined,
  // no driver call of a wait starts and nothing is destroyed.
  lemma NothingRunsAfterRelease(s: State, l: nat, op: LaneOp, t: nat, ok: bool)
    requires Reachable(s) && (s.shared.closed || s.shared.commandErr)
    ensures LaneStep(s, l, op) == None && Destroy(s, t, ok) == None
    ensures s.shared.releases == if s.shared.closed then 1 else 0
  {
    ReachableInv(s);
    if HeadIs(s, l, Queued) { var i := HeadWait(s, l, Queued); }
    if HeadIs(s, l, Running) { var i := HeadWait(s, l, Running); }
  }

  // ---- Lane accounting

  function SumLanes(lanes: seq<Lane>): int {
    if lanes == [] then 0 else SumLanes(lanes[..|lanes| - 1]) + lanes[|lanes| - 1].pending
  }

  // Waits between claiming a lane and counting themselves in syncActive.
  function Entering(waits: seq<Wait>): nat {
    if waits == [] then 0 else (if waits[0].pc == Acquired then 1 else 0) + Entering(waits[1..])
  }

  // Waits between releasing their lane and leaving syncActive.
  function Leaving(waits: seq<Wait>): nat {
    if waits == [] then 0
    else (if waits[0].pc == Released || waits[0].job == LaneReleased then 1 else 0) + Leaving(waits[1..])
  }

  function PendingBelow(waits: seq<Wait>, n: nat): nat {
    if waits == [] then 0 else (if waits[0].lane < n then PendingOf(waits[0]) else 0) + PendingBelow(waits[1..], n)
  }

  lemma {:induction false} PendingBelowStep(waits: seq<Wait>, n: nat)
    ensures PendingBelow(waits, n + 1) == PendingBelow(waits, n) + SumPending(waits, n)
    ensures PendingBelow(waits, 0) == 0
  {
    if waits != [] { PendingBelowStep(waits[1..], n); }
  }

  lemma {:induction false} SumLanesIsPending(waits: seq<Wait>, lanes: seq<Lane>)
    requires forall l :: 0 <= l < |lanes| ==> lanes[l].pending == SumPending(waits, l)
    ensures SumLanes(lanes) == PendingBelow(waits, |lanes|)
  {
    if lanes == [] {
      PendingBelowStep(waits, 0);
    } else {
      var n := |lanes| - 1;
      SumLanesIsPending(waits, lanes[..n]);
      PendingBelowStep(waits, n);
    }
  }

  lemma {:induction false} PendingBalance(waits: seq<Wait>, n: nat, handleCount: nat, sh: Shared)
    requires forall i :: 0 <= i < |waits| ==> WaitOk(waits[i], handleCount, n, sh)
    ensures PendingBelow(waits, n) + Leaving(waits) == SumActive(waits) + Entering(waits)
  {
    if waits != [] {
      assert WaitOk(waits[0], handleCount, n, sh);
      PendingBalance(waits[1..], n, handleCount, sh);
    }
  }

  // The pending counts add up to syncActive, corrected for the waits in between the two
  // updates; every count is exact; and the pool never holds more than eight lanes.
  lemma LaneAccounting(s: State)
    requires Reachable(s)
    ensures SumLanes(s.lanes) == s.shared.syncActive + Entering(s.waits) - Leaving(s.waits)
    ensures forall l :: 0 <= l < |s.lanes| ==> s.lanes[l].pending == SumPending(s.waits, l)
    ensures s.shared.base <= |s.lanes| <= s.shared.base + 8
  {
    ReachableInv(s);
    SumLanesIsPending(s.waits, s.lanes);
    PendingBalance(s.waits, |s.lanes|, |s.handles|, s.shared);
  }

  lemma PickIsFair(s: State, k: nat)
    requires SumsOk(s.waits, s.lanes, s.shared.syncActive)
    requires s.shared.base <= |s.lanes| <= s.shared.base + MAX_WAIT_LANES
    requires Pick(LivePending(s)) == Some(k)
    ensures s.shared.base + k < |s.lanes|
    ensures var l := s.shared.base + k;
            s.lanes[l].pending > 0 ==>
              && |s.lanes| == s.shared.base + 8
              && forall m :: s.shared.base <= m < |s.lanes| ==> 0 < s.lanes[l].pending <= s.lanes[m].pending
  {
    var p := LivePending(s);
    PendingNonNegative(s);
    PickShares(p);
    forall m | s.shared.base <= m < |s.lanes| ensures p[m - s.shared.base] == s.lanes[m].pending {}
  }

  // A wait shares a busy lane only when eight lanes exist and all are busy, and then a
  // least loaded one.
  lemma SharingNeedsAFullPool(s: State, i: nat, t: State)
    requires Reachable(s) && (Choose(s, i) == Some(t) || Rechoose(s, i) == Some(t)) && t.waits[i].pc == Acquired
    ensures var l := t.waits[i].lane;
            && s.shared.base <= l < |s.lanes| == |t.lanes| && t.lanes[l].pending == s.lanes[l].pending + 1
            && (s.lanes[l].pending > 0 ==>
                  && |s.lanes| == s.shared.base + 8
                  && forall m :: s.shared.base <= m < |s.lanes| ==> 0 < s.lanes[l].pending <= s.lanes[m].pending)
  {
    ReachableInv(s);
    SharingIsFair(s, i, t);
  }

  lemma SharingIsFair(s: State, i: nat, t: State)
    requires SumsOk(s.waits, s.lanes, s.shared.syncActive)
    requires s.shared.base <= |s.lanes| <= s.shared.base + MAX_WAIT_LANES
    requires (Choose(s, i) == Some(t) || Rechoose(s, i) == Some(t)) && t.waits[i].pc == Acquired
    ensures var l := t.waits[i].lane;
            && s.shared.base <= l < |s.lanes| == |t.lanes| && t.lanes[l].pending == s.lanes[l].pending + 1
            && (s.lanes[l].pending > 0 ==>
                  && |s.lanes| == s.shared.base + 8
                  && forall m :: s.shared.base <= m < |s.lanes| ==> 0 < s.lanes[l].pending <= s.lanes[m].pending)
  {
    var k := Pick(LivePending(s)).value;
    PickIsFair(s, k);
    assert t.lanes == Claim(s, i, s.shared.base + k).lanes;
  }

  // A wait asks for a new lane only while there are fewer than eight and all of them are busy.
  lemma NewLaneNeedsABusyPool(s: State, i: nat, t: State)
    requires Reachable(s) && (Choose(s, i) == Some(t) || Rechoose(s, i) == Some(t)) && t.waits[i].pc != Acquired
    ensures |s.lanes| < s.shared.base + 8
    ensures forall m :: s.shared.base <= m < |s.lanes| ==> s.lanes[m].pending > 0
  {
    ReachableInv(s);
    AllAreBusy(s);
  }

  lemma AllAreBusy(s: State)
    requires SumsOk(s.waits, s.lanes, s.shared.syncActive) && s.shared.base <= |s.lanes|
    requires Pick(LivePending(s)).None?
    ensures |s.lanes| < s.shared.base + 8
    ensures forall m :: s.shared.base <= m < |s.lanes| ==> s.lanes[m].pending > 0
  {
    var p := LivePending(s);
    PendingNonNegative(s);
    PickShares(p);
    forall m | s.shared.base <= m < |s.lanes| ensures s.lanes[m].pending > 0 {
      assert p[m - s.shared.base] == s.lanes[m].pending;
    }
  }

  // ---- Jobs

  // The job of every Synchronize call is recycled at most once, and exactly once when its
  // caller has returned and its lane, if it was accepted, is through with it.
  lemma SyncJobRecycledOnce(s: State, i: nat)
    requires Reachable(s) && i < |s.waits|
    ensures s.waits[i].recycles <= 1
    ensures s.waits[i].pc == Returned && s.waits[i].made && s.waits[i].job in {NotSubmitted, Delivered} ==>
              s.waits[i].recycles == 1
    ensures !s.waits[i].made ==> s.waits[i].recycles == 0
  {
    ReachableInv(s);
    assert WaitOk(s.waits[i], |s.handles|, |s.lanes|, s.shared);
  }
}
