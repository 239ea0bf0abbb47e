/** The methods of a completion, in place, and the steps of the executor they are made of.

    A method that finds the other side gone goes on alone: nobody else touches the completion
    from then on (ExecutorTheorems.TouchedOnlyWhileUsed), and what it receives is already
    there (ExecutorTheorems.HandshakeNeverBlocks, ExecutorTheorems.DrainFindsTheResult). */
module ExecutorHandshake {
  import opened Options
  import opened Executor

  // One side's next move on the completion, and a second one if the first leaves a result to
  // drain.
  function DeliverMoves(i: nat, p: Side): Option<Side> {
    match TaskMove(i, p, OpSwapDelivered)
    case None => None
    case Some(q) => if q.call.task == WorkerDraining then TaskMove(i, q, OpDrainResult) else Some(q)
  }

  function AbandonMoves(p: Side): Option<Side> {
    match WaitMove(p, OpSwapAbandoned)
    case None => None
    case Some(q) => if q.call.pc == LeaveDraining then WaitMove(q, OpDrain) else Some(q)
  }

  class CompletionCell {
    var state: Handshake
    var chan: seq<nat>

    function Value(holder: Holder): Completion
      reads this
    {
      Completion(state, chan, holder)
    }

    constructor ()
      ensures state == Waiting && chan == []
    {
      state, chan := Waiting, [];
    }

    method Swap(next: Handshake) returns (previous: Handshake)
      modifies this`state
      ensures state == next && previous == old(state)
    {
      previous := state;
      state := next;
    }

    method Drain()
      requires chan != []
      modifies this`chan
      ensures chan == old(chan)[1..]
    {
      chan := chan[1..];
    }

    /** delivered: true when the worker has to take the completion back to the pool. */
    method Delivered(i: nat, ghost call: Call) returns (mine: bool)
      requires call.task == Posted && (state == Abandoned ==> chan != [])
      modifies this
      ensures var p := DeliverMoves(i, Side(call, Completion(old(state), old(chan), HeldBy(i))));
              p.Some? && p.value.comp == Value(HeldBy(i)) && (mine <==> p.value.call.task == WorkerStoring)
      ensures mine <==> old(state) != Waiting
    {
      var previous := Swap(Handshake.Delivered);
      if previous == Abandoned {
        Drain();
      }
      return previous != Waiting;
    }

    /** received: true when the caller has to take the completion back to the pool. */
    method Received(i: nat, ghost call: Call) returns (mine: bool)
      requires call.pc.Took?
      modifies this`state
      ensures var p := WaitMove(Side(call, Completion(old(state), chan, HeldBy(i))), OpSwapReceived);
              p.Some? && p.value.comp == Value(HeldBy(i)) && (mine <==> p.value.call.pc == Storing(Result(call.pc.job)))
      ensures mine <==> old(state) == Handshake.Delivered
    {
      var previous := Swap(Handshake.Received);
      return previous == Handshake.Delivered;
    }

    /** abandon: true when the caller has to take the completion back to the pool. */
    method Abandon(i: nat, ghost call: Call) returns (mine: bool)
      requires call.pc == Leaving && (state == Handshake.Delivered ==> chan != [])
      modifies this
      ensures var p := AbandonMoves(Side(call, Completion(old(state), old(chan), HeldBy(i))));
              p.Some? && p.value.comp == Value(HeldBy(i)) && (mine <==> p.value.call.pc == Storing(Cancelled))
      ensures mine <==> old(state) == Handshake.Delivered
    {
      var previous := Swap(Abandoned);
      if previous != Handshake.Delivered { return false; }
      Drain();
      return true;
    }
  }
}
