/** How a wait claims a lane of the context's pool. */
module WaitLanes {
  import opened Options

  const MAX_WAIT_LANES := 8

  // The first idle lane, or once the pool is full the first least loaded one.
  function Pick(pending: seq<int>): (lane: Option<nat>)
    ensures lane.Some? ==> lane.value < |pending|
  {
    var idle := FirstIdle(pending, 0);
    if idle.Some? || |pending| < MAX_WAIT_LANES then idle
    else Some(LeastFrom(pending, 1, 0))
  }

  function FirstIdle(pending: seq<int>, from: nat): (lane: Option<nat>)
    requires from <= |pending|
    ensures lane.Some? ==> from <= lane.value < |pending| && pending[lane.value] == 0
    ensures lane.Some? ==> forall k :: from <= k < lane.value ==> pending[k] != 0
    ensures lane.None? ==> forall k :: from <= k < |pending| ==> pending[k] != 0
    decreases |pending| - from
  {
    if from == |pending| then None
    else if pending[from] == 0 then Some(from)
    else FirstIdle(pending, from + 1)
  }

  // The first least loaded lane among chosen and those from the given index on.
  function LeastFrom(pending: seq<int>, from: nat, chosen: nat): (lane: nat)
    requires chosen < from <= |pending|
    requires forall k :: 0 <= k < from ==> pending[chosen] <= pending[k]
    requires forall k :: 0 <= k < chosen ==> pending[chosen] < pending[k]
    ensures lane < |pending|
    ensures forall k :: 0 <= k < |pending| ==> pending[lane] <= pending[k]
    ensures forall k :: 0 <= k < lane ==> pending[lane] < pending[k]
    decreases |pending| - from
  {
    if from == |pending| then chosen
    else LeastFrom(pending, from + 1, if pending[from] < pending[chosen] then from else chosen)
  }

  /** A busy lane is shared only when all eight exist and are busy, and then it is a least loaded
      one; a new lane is asked for exactly while there are fewer than eight, all busy. Of the lanes
      that would do the first is picked. */
  lemma PickShares(pending: seq<int>)
    requires forall k :: 0 <= k < |pending| ==> pending[k] >= 0
    ensures Pick(pending).None? <==> |pending| < 8 && 0 !in pending
    ensures Pick(pending).Some? && pending[Pick(pending).value] > 0 ==>
              && |pending| >= 8 && 0 !in pending
              && forall k :: 0 <= k < |pending| ==> pending[Pick(pending).value] <= pending[k]
    ensures Pick(pending).Some? ==>
              forall k :: 0 <= k < Pick(pending).value ==> pending[Pick(pending).value] < pending[k]
  {
    if 0 in pending {
      var k :| 0 <= k < |pending| && pending[k] == 0;
      assert FirstIdle(pending, 0).Some?;
    }
  }

  class WaitLane {
    var pending: int

    constructor (pending: int)
      ensures this.pending == pending
    {
      this.pending := pending;
    }
  }

  // The lanes of one context, as Context keeps them under syncMu.
  class LanePool {
    var waitLanes: seq<WaitLane>

    ghost predicate Valid()
      reads this
    {
      forall a, b :: 0 <= a < b < |waitLanes| ==> waitLanes[a] != waitLanes[b]
    }

    ghost function Pending(): (p: seq<int>)
      reads this, waitLanes
      ensures |p| == |waitLanes|
    {
      seq(|waitLanes|, k requires 0 <= k < |waitLanes| reads this, waitLanes => waitLanes[k].pending)
    }

    constructor ()
      ensures Valid() && waitLanes == []
    {
      waitLanes := [];
    }

    method IdleWaitLane() returns (at: int)
      ensures at == (var i := FirstIdle(Pending(), 0); if i.Some? then i.value else -1)
    {
      var k := 0;
      while k < |waitLanes|
        invariant 0 <= k <= |waitLanes|
        invariant FirstIdle(Pending(), 0) == FirstIdle(Pending(), k)
      {
        if waitLanes[k].pending == 0 { return k; }
        k := k + 1;
      }
      return -1;
    }

    method LeastLoadedWaitLane() returns (at: nat)
      requires waitLanes != []
      ensures at == LeastFrom(Pending(), 1, 0) < |waitLanes|
    {
      at := 0;
      var k := 1;
      while k < |waitLanes|
        invariant 1 <= k <= |waitLanes| && at < k
        invariant forall j :: 0 <= j < k ==> Pending()[at] <= Pending()[j]
        invariant forall j :: 0 <= j < at ==> Pending()[at] < Pending()[j]
        invariant LeastFrom(Pending(), 1, 0) == LeastFrom(Pending(), k, at)
      {
        if waitLanes[k].pending < waitLanes[at].pending { at := k; }
        k := k + 1;
      }
    }

    // Claims the picked lane, or nothing when a new lane should be created.
    method ReuseWaitLane() returns (lane: WaitLane?)
      requires Valid()
      modifies waitLanes
      ensures waitLanes == old(waitLanes)
      ensures lane == null <==> Pick(old(Pending())).None?
      ensures Pending() == (var p := old(Pending()); var k := Pick(p);
                            if k.Some? then p[k.value := p[k.value] + 1] else p)
      ensures lane != null ==> lane == waitLanes[Pick(old(Pending())).value]
    {
      var at := IdleWaitLane();
      if at < 0 && |waitLanes| >= MAX_WAIT_LANES {
        at := LeastLoadedWaitLane();
      }
      if at < 0 { return null; }
      waitLanes[at].pending := waitLanes[at].pending + 1;
      return waitLanes[at];
    }

    // The lane may have left the list: closeWaitLanes empties it while abandoned waits run on.
    method ReleaseWaitLane(lane: WaitLane)
      requires Valid()
      modifies lane
      ensures lane.pending == old(lane.pending) - 1
      ensures waitLanes == old(waitLanes)
      ensures forall other :: other in waitLanes && other != lane ==> other.pending == old(other.pending)
    {
      lane.pending := lane.pending - 1;
    }

    // The last step of acquireWaitLane: a freshly bound executor, already claimed once.
    method AppendLane() returns (lane: WaitLane)
      requires Valid()
      modifies this
      ensures Valid() && fresh(lane)
      ensures Pending() == old(Pending()) + [1] && waitLanes == old(waitLanes) + [lane]
    {
      lane := new WaitLane(1);
      waitLanes := waitLanes + [lane];
    }
  }
}
