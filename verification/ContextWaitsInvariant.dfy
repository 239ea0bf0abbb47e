/** The inductive invariant behind lane accounting, the teardown barrier and
    Context.Close. */
module ContextWaitsInvariant {
  import opened Options
  import opened WaitLanes
  import opened ContextWaits

  // ---- What one wait contributes

  // The driver synchronize of the wait is queued, running, or not yet uncounted.
  predicate InLane(job: JobPc) {
    job != NotSubmitted && job != Delivered
  }

  predicate Unsubmitted(pc: WaitPc) {
    pc !in {Waiting, LeavingContext, LeavingHandle, Returned}
  }

  predicate Claims(pc: WaitPc) {
    pc in {Acquired, Tracked, Rejected}
  }

  // Counted in the pending count of its lane.
  function PendingOf(w: Wait): nat {
    if Claims(w.pc) || w.job in {Queued, Running, Ran} then 1 else 0
  }

  // Counted in syncActive.
  function ActiveOf(w: Wait): nat {
    if w.pc in {Tracked, Rejected, Released} || w.job in {Queued, Running, Ran, LaneReleased} then 1 else 0
  }

  function PendingOn(w: Wait, l: nat): nat {
    if w.lane == l then PendingOf(w) else 0
  }

  function SumActive(waits: seq<Wait>): nat {
    if waits == [] then 0 else ActiveOf(waits[0]) + SumActive(waits[1..])
  }

  function SumPending(waits: seq<Wait>, l: nat): nat {
    if waits == [] then 0 else PendingOn(waits[0], l) + SumPending(waits[1..], l)
  }

  lemma {:induction false} SumActiveUpdate(waits: seq<Wait>, i: nat, w: Wait)
    requires i < |waits|
    ensures SumActive(waits[i := w]) + ActiveOf(waits[i]) == SumActive(waits) + ActiveOf(w)
  {
    if i == 0 {
      assert waits[0 := w][1..] == waits[1..];
    } else {
      assert waits[i := w][1..] == waits[1..][i - 1 := w];
      SumActiveUpdate(waits[1..], i - 1, w);
    }
  }

  lemma {:induction false} SumPendingUpdate(waits: seq<Wait>, l: nat, i: nat, w: Wait)
    requires i < |waits|
    ensures SumPending(waits[i := w], l) + PendingOn(waits[i], l) == SumPending(waits, l) + PendingOn(w, l)
  {
    if i == 0 {
      assert waits[0 := w][1..] == waits[1..];
    } else {
      assert waits[i := w][1..] == waits[1..][i - 1 := w];
      SumPendingUpdate(waits[1..], l, i - 1, w);
    }
  }

  lemma {:induction false} SumsAppend(waits: seq<Wait>, w: Wait, l: nat)
    ensures SumActive(waits + [w]) == SumActive(waits) + ActiveOf(w)
    ensures SumPending(waits + [w], l) == SumPending(waits, l) + PendingOn(w, l)
  {
    if waits != [] {
      assert (waits + [w])[1..] == waits[1..] + [w];
      SumsAppend(waits[1..], w, l);
    } else {
      assert (waits + [w])[1..] == [];
    }
  }

  lemma {:induction false} SumPendingAbsent(waits: seq<Wait>, l: nat)
    requires forall i :: 0 <= i < |waits| ==> PendingOn(waits[i], l) == 0
    ensures SumPending(waits, l) == 0
  {
    if waits != [] { SumPendingAbsent(waits[1..], l); }
  }

  lemma {:induction false} SumActivePart(waits: seq<Wait>, i: nat)
    requires i < |waits|
    ensures ActiveOf(waits[i]) <= SumActive(waits)
  {
    if i > 0 { SumActivePart(waits[1..], i - 1); }
  }

  lemma {:induction false} SumActiveAbsent(waits: seq<Wait>)
    requires forall i :: 0 <= i < |waits| ==> ActiveOf(waits[i]) == 0
    ensures SumActive(waits) == 0
  {
    if waits != [] { SumActiveAbsent(waits[1..]); }
  }

  // ---- The parts of the invariant

  // The job of a call of Synchronize is recycled once on every path.
  function RecyclesOf(w: Wait): nat {
    if w.job == NotSubmitted then
      (if w.made && w.pc in {Released, LeavingContext, LeavingHandle, Returned} then 1 else 0)
    else if w.job in {Queued, Running, Ran} then 0 else 1
  }

  predicate WaitOk(w: Wait, handleCount: nat, laneCount: nat, sh: Shared) {
    && (Unsubmitted(w.pc) ==> w.job == NotSubmitted)
    && (w.pc == Waiting ==> w.job != NotSubmitted)
    && (Claims(w.pc) ==> sh.base <= w.lane < laneCount)
    && (InLane(w.job) ==> sh.drained <= w.lane < laneCount)
    && (w.handle.Some? ==> w.handle.value < handleCount)
    && (w.handle.None? ==> w.pc !in {WantHandle, HandleLocked, LeavingHandle})
    && (w.pc in {WantHandle, HandleLocked} ==> !w.made)
    && (w.pc !in {WantHandle, HandleLocked, LeavingHandle, Returned} ==> w.made)
    && (w.job != NotSubmitted ==> w.made)
    && w.recycles == RecyclesOf(w)
  }

  predicate WaitsOk(waits: seq<Wait>, handleCount: nat, laneCount: nat, sh: Shared) {
    forall i :: 0 <= i < |waits| ==> WaitOk(waits[i], handleCount, laneCount, sh)
  }

  predicate SumsOk(waits: seq<Wait>, lanes: seq<Lane>, active: int) {
    && active == SumActive(waits)
    && forall l :: 0 <= l < |lanes| ==> lanes[l].pending == SumPending(waits, l)
  }

  predicate EntryOk(waits: seq<Wait>, closes: seq<Close>, l: nat, p: nat, job: LaneJob) {
    match job
    case WaitJob(i) => i < |waits| && waits[i].lane == l && InLane(waits[i].job) && (p > 0 ==> waits[i].job == Queued)
    case FenceJob(t) => t < |closes| && closes[t].pc.FenceSent? && closes[t].pc.lane == l && !closes[t].fenced
  }

  predicate LaneOk(waits: seq<Wait>, closes: seq<Close>, l: nat, jobs: seq<LaneJob>) {
    && (forall p :: 0 <= p < |jobs| ==> EntryOk(waits, closes, l, p, jobs[p]))
    && (forall p, q :: 0 <= p < q < |jobs| ==> jobs[p] != jobs[q])
  }

  predicate LanesOk(waits: seq<Wait>, closes: seq<Close>, lanes: seq<Lane>) {
    forall l :: 0 <= l < |lanes| ==> LaneOk(waits, closes, l, lanes[l].jobs)
  }

  // The front job of a lane is in order.
  lemma HeadEntryOk(waits: seq<Wait>, closes: seq<Close>, lanes: seq<Lane>, l: nat)
    requires LanesOk(waits, closes, lanes) && l < |lanes| && lanes[l].jobs != []
    ensures EntryOk(waits, closes, l, 0, lanes[l].jobs[0])
  {
    assert LaneOk(waits, closes, l, lanes[l].jobs);
  }

  predicate MembersOk(waits: seq<Wait>, lanes: seq<Lane>) {
    forall i :: 0 <= i < |waits| && InLane(waits[i].job) ==>
      waits[i].lane < |lanes| && WaitJob(i) in lanes[waits[i].lane].jobs
  }

  predicate IsWaitOn(waits: seq<Wait>, job: LaneJob, h: nat) {
    job.WaitJob? && job.wait < |waits| && waits[job.wait].handle == Some(h)
  }

  // Every wait on h in these jobs stands before the fence of t.
  predicate BehindAll(waits: seq<Wait>, jobs: seq<LaneJob>, t: nat, h: nat) {
    forall p, q :: 0 <= p < |jobs| && 0 <= q < |jobs| && jobs[q] == FenceJob(t) && IsWaitOn(waits, jobs[p], h) ==> p < q
  }

  // The waits on h still in a lane are in lanes from..end.
  predicate Confined(waits: seq<Wait>, h: nat, from: nat, end: nat) {
    forall i :: 0 <= i < |waits| && waits[i].handle == Some(h) && InLane(waits[i].job) ==> from <= waits[i].lane < end
  }

  predicate Quiet(waits: seq<Wait>, h: nat) {
    forall i :: 0 <= i < |waits| && waits[i].handle == Some(h) ==> ActiveOf(waits[i]) == 0
  }

  predicate CloseOk(waits: seq<Wait>, lanes: seq<Lane>, base: nat, t: nat, c: Close) {
    match c.pc
    case Fencing(k, n) => base <= k <= n <= |lanes| && Confined(waits, c.handle, k, n)
    case FenceSent(k, n) =>
      && base <= k < n <= |lanes|
      && Confined(waits, c.handle, if c.fenced then k + 1 else k, n)
      && (!c.fenced ==> BehindAll(waits, lanes[k].jobs, t, c.handle))
    case Destroying => Quiet(waits, c.handle)
    case _ => true
  }

  predicate ClosesOk(waits: seq<Wait>, closes: seq<Close>, lanes: seq<Lane>, handleCount: nat, base: nat) {
    forall t :: 0 <= t < |closes| ==>
      closes[t].handle < handleCount && CloseOk(waits, lanes, base, t, closes[t])
  }

  predicate LocksOk(waits: seq<Wait>, closes: seq<Close>, sh: Shared) {
    && (forall i, t :: 0 <= i < |waits| && 0 <= t < |closes| && waits[i].handle == Some(closes[t].handle) ==>
          !WaitHoldsHandle(waits[i]) || !CloseHoldsHandle(closes[t].pc))
    && (forall t, u :: 0 <= t < u < |closes| && closes[t].handle == closes[u].handle ==>
          !CloseHoldsHandle(closes[t].pc) || !CloseHoldsHandle(closes[u].pc))
    && (sh.ctx != CtxIdle ==>
         && (forall i :: 0 <= i < |waits| ==> !WaitHoldsContext(waits[i].pc))
         && (forall t :: 0 <= t < |closes| ==> !CloseHoldsContext(closes[t].pc)))
    && (sh.creating.Some? ==> sh.creating.value < |waits|)
    && (forall i :: 0 <= i < |waits| ==> (waits[i].pc in {Rechoosing, Binding} <==> sh.creating == Some(i)))
  }

  predicate SharedOk(waits: seq<Wait>, lanes: seq<Lane>, sh: Shared) {
    && sh.drained <= sh.base <= |lanes| <= sh.base + MAX_WAIT_LANES
    && (sh.ctx != CtxDraining ==> sh.drained == sh.base)
    && (sh.ctx in {CtxDraining, CtxReleasing} ==> sh.base == |lanes|)
    && (forall l :: 0 <= l < sh.drained ==> lanes[l].jobs == [])
    && (forall i :: 0 <= i < |waits| && waits[i].pc == Binding ==> |lanes| < sh.base + MAX_WAIT_LANES)
    && sh.releases == (if sh.closed then 1 else 0)
    && (sh.ctx in {CtxTaking, CtxDraining, CtxReleasing} ==> !sh.closed && !sh.commandErr)
  }

  // Where a wait may be once its handle is destroyed.
  predicate Outside(w: Wait) {
    w.pc in {WantHandle, HandleLocked, LeavingHandle, Returned} && ActiveOf(w) == 0
  }

  predicate HandleOk(waits: seq<Wait>, closes: seq<Close>, h: nat, k: Handle) {
    && k.destroys <= 1 && (k.closed ==> k.destroys == 1)
    && (k.destroys == 1 ==> forall i :: 0 <= i < |waits| && waits[i].handle == Some(h) ==> Outside(waits[i]))
    && (k.destroys == 1 && !k.closed ==>
          exists t :: 0 <= t < |closes| && closes[t].handle == h && Destroyed(closes[t].pc))
    && (forall t :: 0 <= t < |closes| && closes[t].handle == h ==>
          && (Destroyed(closes[t].pc) ==> k.destroys == 1 && !k.closed)
          && (CloseHoldsHandle(closes[t].pc) && closes[t].pc != WriteLocked && !Destroyed(closes[t].pc) ==>
                k.destroys == 0))
  }

  predicate Destroyed(pc: ClosePc) {
    pc == CloseLeavingContext(true) || pc == Settling(true)
  }

  predicate HandlesOk(waits: seq<Wait>, closes: seq<Close>, handles: seq<Handle>) {
    forall h :: 0 <= h < |handles| ==> HandleOk(waits, closes, h, handles[h])
  }

  // Once the primary context is released, and while the command executor is quarantined,
  // no wait and no destroy is under way.
  predicate Idle(pc: WaitPc) {
    pc in {WantHandle, HandleLocked, WantContext, ContextLocked, Refused, LeavingContext, LeavingHandle, Returned}
  }

  predicate EndOk(waits: seq<Wait>, closes: seq<Close>, sh: Shared) {
    sh.closed || sh.commandErr ==>
      && (forall i :: 0 <= i < |waits| ==> Idle(waits[i].pc) && !InLane(waits[i].job))
      && (forall t :: 0 <= t < |closes| ==>
            !closes[t].pc.ReadingActive? && !closes[t].pc.Snapshotting? && !closes[t].pc.Fencing?
            && !closes[t].pc.FenceSent? && !closes[t].pc.Destroying?)
  }

  predicate Inv(s: State) {
    && WaitsOk(s.waits, |s.handles|, |s.lanes|, s.shared)
    && SumsOk(s.waits, s.lanes, s.shared.syncActive)
    && LanesOk(s.waits, s.closes, s.lanes)
    && MembersOk(s.waits, s.lanes)
    && ClosesOk(s.waits, s.closes, s.lanes, |s.handles|, s.shared.base)
    && LocksOk(s.waits, s.closes, s.shared)
    && SharedOk(s.waits, s.lanes, s.shared)
    && HandlesOk(s.waits, s.closes, s.handles)
    && EndOk(s.waits, s.closes, s.shared)
  }

  lemma InitialInv()
    ensures Inv(INITIAL)
  {}

  // ---- Frames for a step that replaces one wait

  lemma WaitsKept(waits: seq<Wait>, hc: nat, lc: nat, sh: Shared, i: nat, w: Wait, lc': nat, sh': Shared)
    requires WaitsOk(waits, hc, lc, sh) && i < |waits| && lc <= lc'
    requires sh'.base == sh.base && sh'.drained == sh.drained && WaitOk(w, hc, lc', sh')
    ensures WaitsOk(waits[i := w], hc, lc', sh')
  {}

  lemma SumsKept(waits: seq<Wait>, lanes: seq<Lane>, active: int, i: nat, w: Wait, lanes': seq<Lane>, active': int)
    requires SumsOk(waits, lanes, active) && i < |waits| && |lanes'| == |lanes|
    requires active' == active - ActiveOf(waits[i]) + ActiveOf(w)
    requires forall l :: 0 <= l < |lanes| ==>
      lanes'[l].pending == lanes[l].pending - PendingOn(waits[i], l) + PendingOn(w, l)
    ensures SumsOk(waits[i := w], lanes', active')
  {
    SumActiveUpdate(waits, i, w);
    forall l | 0 <= l < |lanes'| ensures lanes'[l].pending == SumPending(waits[i := w], l) {
      SumPendingUpdate(waits, l, i, w);
    }
  }

  predicate SameJobs(lanes: seq<Lane>, lanes': seq<Lane>) {
    |lanes'| == |lanes| && forall l :: 0 <= l < |lanes| ==> lanes'[l].jobs == lanes[l].jobs
  }

  predicate Heads(lanes: seq<Lane>, l: nat, i: nat) {
    l < |lanes| && lanes[l].jobs != [] && lanes[l].jobs[0] == WaitJob(i)
  }

  // The wait stays where it is in its lane; only the head of a lane leaves Queued.
  predicate StaysInLane(lanes: seq<Lane>, i: nat, w: Wait, w': Wait) {
    && (InLane(w'.job) <==> InLane(w.job))
    && (InLane(w.job) ==> w'.lane == w.lane)
    && (w.job == Queued && w'.job != Queued ==> Heads(lanes, w.lane, i))
  }

  lemma LanesKept(waits: seq<Wait>, closes: seq<Close>, lanes: seq<Lane>, i: nat, w: Wait, lanes': seq<Lane>)
    requires LanesOk(waits, closes, lanes) && i < |waits|
    requires StaysInLane(lanes, i, waits[i], w) && SameJobs(lanes, lanes')
    ensures LanesOk(waits[i := w], closes, lanes')
  {
    forall l | 0 <= l < |lanes| ensures LaneOk(waits[i := w], closes, l, lanes[l].jobs) {
      assert LaneOk(waits, closes, l, lanes[l].jobs);
      forall p | 0 <= p < |lanes[l].jobs| ensures EntryOk(waits[i := w], closes, l, p, lanes[l].jobs[p]) {
        assert EntryOk(waits, closes, l, p, lanes[l].jobs[p]);
      }
    }
  }

  lemma MembersKept(waits: seq<Wait>, lanes: seq<Lane>, i: nat, w: Wait, lanes': seq<Lane>)
    requires MembersOk(waits, lanes) && i < |waits| && StaysInLane(lanes, i, waits[i], w) && SameJobs(lanes, lanes')
    ensures MembersOk(waits[i := w], lanes')
  {}

  // Nothing a waiting Close relies on grows.
  predicate Shrinks(w: Wait, w': Wait) {
    && w'.handle == w.handle
    && (InLane(w'.job) ==> InLane(w.job) && w'.lane == w.lane)
    && ActiveOf(w') <= ActiveOf(w)
  }

  predicate NoCloseOn(closes: seq<Close>, handle: Option<nat>) {
    forall t :: 0 <= t < |closes| && handle == Some(closes[t].handle) ==> !CloseHoldsHandle(closes[t].pc)
  }

  lemma ClosesKept(waits: seq<Wait>, closes: seq<Close>, lanes: seq<Lane>, hc: nat, base: nat, i: nat, w: Wait,
                   lanes': seq<Lane>)
    requires ClosesOk(waits, closes, lanes, hc, base) && i < |waits| && SameJobs(lanes, lanes')
    requires w.handle == waits[i].handle && (Shrinks(waits[i], w) || NoCloseOn(closes, w.handle))
    ensures ClosesOk(waits[i := w], closes, lanes', hc, base)
  {
    forall t | 0 <= t < |closes| ensures CloseOk(waits[i := w], lanes', base, t, closes[t]) {
      assert CloseOk(waits, lanes, base, t, closes[t]);
      if closes[t].pc.FenceSent? && !closes[t].fenced {
        SameHandlesBehind(waits, i, w, lanes[closes[t].pc.lane].jobs, t, closes[t].handle);
      }
    }
  }

  lemma SameHandlesBehind(waits: seq<Wait>, i: nat, w: Wait, jobs: seq<LaneJob>, t: nat, h: nat)
    requires i < |waits| && w.handle == waits[i].handle && BehindAll(waits, jobs, t, h)
    ensures BehindAll(waits[i := w], jobs, t, h)
  {
    forall p, q | 0 <= p < |jobs| && 0 <= q < |jobs| && jobs[q] == FenceJob(t) && IsWaitOn(waits[i := w], jobs[p], h)
      ensures p < q
    {
      assert IsWaitOn(waits, jobs[p], h);
    }
  }

  lemma LocksKept(waits: seq<Wait>, closes: seq<Close>, sh: Shared, i: nat, w: Wait, sh': Shared)
    requires LocksOk(waits, closes, sh) && i < |waits| && w.handle == waits[i].handle
    requires sh'.ctx == sh.ctx && sh'.creating == sh.creating
    requires WaitHoldsHandle(w) ==> WaitHoldsHandle(waits[i]) || NoCloseOn(closes, w.handle)
    requires WaitHoldsContext(w.pc) ==> WaitHoldsContext(waits[i].pc) || sh.ctx == CtxIdle
    requires w.pc in {Rechoosing, Binding} <==> waits[i].pc in {Rechoosing, Binding}
    ensures LocksOk(waits[i := w], closes, sh')
  {}

  lemma HandlesKept(waits: seq<Wait>, closes: seq<Close>, handles: seq<Handle>, i: nat, w: Wait)
    requires HandlesOk(waits, closes, handles) && i < |waits| && w.handle == waits[i].handle
    requires Outside(w) || !Outside(waits[i])
             || (w.handle.Some? && w.handle.value < |handles| && handles[w.handle.value].destroys == 0)
             || w.handle.None?
    ensures HandlesOk(waits[i := w], closes, handles)
  {
    forall h | 0 <= h < |handles| ensures HandleOk(waits[i := w], closes, h, handles[h]) {
      assert HandleOk(waits, closes, h, handles[h]);
    }
  }

  lemma EndKept(waits: seq<Wait>, closes: seq<Close>, sh: Shared, i: nat, w: Wait, sh': Shared)
    requires EndOk(waits, closes, sh) && i < |waits| && sh'.closed == sh.closed && sh'.commandErr == sh.commandErr
    requires sh.closed || sh.commandErr ==> Idle(w.pc) && !InLane(w.job)
    ensures EndOk(waits[i := w], closes, sh')
  {}

  lemma SharedKept(waits: seq<Wait>, lanes: seq<Lane>, sh: Shared, i: nat, w: Wait, lanes': seq<Lane>, sh': Shared)
    requires SharedOk(waits, lanes, sh) && i < |waits| && SameJobs(lanes, lanes')
    requires w.pc == Binding ==> waits[i].pc == Binding || |lanes| < sh.base + MAX_WAIT_LANES
    requires sh' == sh.(creating := sh'.creating, syncActive := sh'.syncActive)
    ensures SharedOk(waits[i := w], lanes', sh')
  {}
}
