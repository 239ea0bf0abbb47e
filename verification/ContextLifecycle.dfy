/** A context from Primary to Close, under the exclusive lock: which threads it owns,
    what is current on them, and how often the primary context is retained.

    The driver is an oracle: call number k succeeds when ok(k) says so. A failed
    CtxSetCurrent leaves the thread's binding as it was. */
module ContextLifecycle {

  // A worker-owned job: the executor, or whoever refuses it, gives it back to its pool.
  class Job {
    var runs: nat
    var recycles: nat

    constructor ()
      ensures runs == 0 && recycles == 0
    {
      runs, recycles := 0, 0;
    }
  }

  // A pinned executor and what is current on its thread.
  class Executor {
    var bound: bool
    var closed: bool
    var retired: bool

    // Closed without Retire, the thread goes back to the Go runtime.
    predicate HandedBack()
      reads this
    {
      closed && !retired
    }

    constructor ()
      ensures !bound && !closed && !retired
    {
      bound, closed, retired := false, false, false;
    }

    method Retire()
      modifies this`retired
      ensures retired
    {
      retired := true;
    }

    method Close()
      modifies this`closed
      ensures closed
    {
      closed := true;
    }

    // Accepted jobs run to the end before DoJob returns; a job that is not accepted
    // (closed executor, or canceled while submitting) is recycled by the caller's side.
    method DoJob(job: Job, canceled: bool) returns (accepted: bool)
      requires !closed ==> bound
      modifies job
      ensures accepted == (!closed && !canceled)
      ensures job.runs == old(job.runs) + (if accepted then 1 else 0)
      ensures job.recycles == old(job.recycles) + 1
    {
      accepted := !closed && !canceled;
      if accepted { job.runs := job.runs + 1; }
      job.recycles := job.recycles + 1;
    }
  }

  class Driver {
    const ok: nat -> bool
    var calls: nat
    // successful retains minus successful releases
    var retains: int

    // Every call from one number up to, not including, another succeeds.
    ghost predicate AllOk(from: nat, end: nat) {
      forall k :: from <= k < end ==> ok(k)
    }

    constructor (ok: nat -> bool)
      ensures this.ok == ok && calls == 0 && retains == 0
    {
      this.ok := ok;
      calls, retains := 0, 0;
    }

    method PrimaryCtxRetain() returns (success: bool)
      modifies this
      ensures calls == old(calls) + 1 && success == ok(old(calls))
      ensures retains == old(retains) + (if success then 1 else 0)
    {
      success := ok(calls);
      calls := calls + 1;
      if success { retains := retains + 1; }
    }

    method PrimaryCtxRelease() returns (success: bool)
      modifies this
      ensures calls == old(calls) + 1 && success == ok(old(calls))
      ensures retains == old(retains) - (if success then 1 else 0)
    {
      success := ok(calls);
      calls := calls + 1;
      if success { retains := retains - 1; }
    }

    // raw is true for the context's own handle, false for the zero value.
    method CtxSetCurrent(on: Executor, raw: bool) returns (success: bool)
      requires !on.closed
      modifies this`calls, on`bound
      ensures calls == old(calls) + 1 && success == ok(old(calls))
      ensures on.bound == if success then raw else old(on.bound)
    {
      success := ok(calls);
      calls := calls + 1;
      if success { on.bound := raw; }
    }
  }

  // Device.Primary. Every partial state is rolled back; a retain is left behind only when
  // the rolling-back release itself fails. The thread of a failed attempt was never bound.
  method Primary(driver: Driver) returns (ctx: Context?, ghost thread: Executor)
    modifies driver
    ensures fresh(thread)
    ensures ctx == null <==> !driver.ok(old(driver.calls)) || !driver.ok(old(driver.calls) + 1)
    ensures ctx == null ==> thread.HandedBack() && !thread.bound
    ensures driver.calls == old(driver.calls)
                            + (if !driver.ok(old(driver.calls)) then 1 else if ctx == null then 3 else 2)
    ensures var k := old(driver.calls);
            var leaked := driver.ok(k) && !driver.ok(k + 1) && !driver.ok(k + 2);
            driver.retains == old(driver.retains) + (if ctx != null || leaked then 1 else 0)
    ensures ctx != null ==> fresh(ctx) && ctx.Valid() && ctx.Usable() && ctx.threads == {thread}
    ensures ctx != null ==> ctx.driver == driver && ctx.others == old(driver.retains)
  {
    var exec := new Executor();
    thread := exec;
    var retained := driver.PrimaryCtxRetain();
    if !retained {
      exec.Close();
      return null, thread;
    }
    var bound := driver.CtxSetCurrent(exec, true);
    if !bound {
      var released := driver.PrimaryCtxRelease();
      exec.Close();
      return null, thread;
    }
    ctx := new Context(driver, exec);
  }

  datatype JobResult = Ran | ContextClosed | Canceled | Quarantined

  datatype Op = NewLane | NewCopy | Command(canceled: bool) | CloseOp

  class Context {
    const driver: Driver
    var exec: Executor
    var copyExec: Executor?
    var lanes: seq<Executor>
    var commandErr: bool
    var closed: bool
    // every executor this context ever started
    ghost var threads: set<Executor>
    // retains on the device that are not this context's
    ghost const others: int

    ghost predicate Valid()
      reads this, threads, driver
    {
      && Owned()
      && (forall t :: t in threads && t.HandedBack() ==> !t.bound)
      && (forall t :: t in threads && !t.closed ==> t.bound && !t.retired && (t == exec || t == copyExec || t in lanes))
      && (copyExec != null ==> !copyExec.closed)
      && (forall k :: 0 <= k < |lanes| ==> !lanes[k].closed)
      && exec.closed == (closed || commandErr)
      && (closed ==> lanes == [] && copyExec == null && !commandErr)
      && driver.retains == others + (if closed then 0 else 1)
    }

    ghost predicate Owned()
      reads this
    {
      && exec in threads && exec !in lanes && exec != copyExec
      && (copyExec != null ==> copyExec in threads && copyExec !in lanes)
      && (forall k :: 0 <= k < |lanes| ==> lanes[k] in threads)
      && (forall a, b :: 0 <= a < b < |lanes| ==> lanes[a] != lanes[b])
    }

    predicate Usable()
      reads this
    {
      !closed && !commandErr
    }

    constructor (driver: Driver, exec: Executor)
      requires exec.bound && !exec.closed && !exec.retired
      ensures this.driver == driver && this.exec == exec && threads == {exec} && others == driver.retains - 1
      ensures Valid() && Usable() && lanes == [] && copyExec == null
    {
      this.driver, this.exec := driver, exec;
      copyExec, lanes, commandErr, closed := null, [], false, false;
      threads, others := {exec}, driver.retains - 1;
    }

    // A new executor bound to the context, or a retired, closed one on failure.
    method NewExecutor() returns (candidate: Executor?)
      requires Valid() && !closed
      modifies this`threads, driver
      ensures candidate == null <==> !driver.ok(old(driver.calls))
      ensures driver.calls == old(driver.calls) + 1 && driver.retains == old(driver.retains)
      ensures candidate == null ==> Valid() && fresh(threads - old(threads)) && threads != old(threads)
      ensures candidate == null ==> forall t :: t in threads - old(threads) ==> t.closed && t.retired
      ensures candidate != null ==> fresh(candidate) && candidate.bound && !candidate.closed && !candidate.retired
      ensures candidate != null ==> threads == old(threads) + {candidate}
      ensures old(threads) <= threads
    {
      var started := new Executor();
      threads := threads + {started};
      var ok := driver.CtxSetCurrent(started, true);
      if !ok {
        started.Retire();
        started.Close();
        return null;
      }
      return started;
    }

    // copyExecutor: started on first use
    method CopyExecutor() returns (lane: Executor?)
      requires Valid() && Usable()
      modifies this`threads, this`copyExec, driver
      ensures Valid() && Usable() && lane == copyExec
      ensures old(copyExec) != null ==> lane == old(copyExec) && driver.calls == old(driver.calls)
      ensures old(copyExec) == null ==> (lane == null <==> !driver.ok(old(driver.calls)))
      ensures old(copyExec) == null ==> driver.calls == old(driver.calls) + 1
      ensures lane != null ==> lane.bound && !lane.closed
      ensures lane == null ==> forall t :: t in threads - old(threads) ==> t.closed && t.retired
      ensures fresh(threads - old(threads))
    {
      if copyExec != null { return copyExec; }
      lane := NewExecutor();
      copyExec := lane;
    }

    // The creating half of acquireWaitLane
    method NewWaitLane() returns (lane: Executor?)
      requires Valid() && Usable()
      modifies this`threads, this`lanes, driver
      ensures Valid() && Usable()
      ensures lane == null <==> !driver.ok(old(driver.calls))
      ensures driver.calls == old(driver.calls) + 1
      ensures lanes == (if lane == null then old(lanes) else old(lanes) + [lane])
      ensures lane != null ==> lane.bound && !lane.closed
      ensures lane == null ==> forall t :: t in threads - old(threads) ==> t.closed && t.retired
      ensures fresh(threads - old(threads))
    {
      lane := NewExecutor();
      if lane != null { lanes := lanes + [lane]; }
    }

    // doJob: a refused job is recycled here, an accepted one by the executor. Nothing runs
    // on a closed or quarantined context, and what runs finds the context current.
    method DoJob(job: Job, canceled: bool) returns (r: JobResult)
      requires Valid()
      modifies job
      ensures r == ContextClosed <==> closed
      ensures r == Canceled <==> !closed && canceled
      ensures r == Quarantined <==> !closed && !canceled && commandErr
      ensures r == Ran <==> Usable() && !canceled
      ensures r == Ran ==> exec.bound && !exec.closed
      ensures job.runs == old(job.runs) + (if r == Ran then 1 else 0)
      ensures job.recycles == old(job.recycles) + 1
    {
      if closed {
        job.recycles := job.recycles + 1;
        return ContextClosed;
      }
      if commandErr {
        job.recycles := job.recycles + 1;
        return if canceled then Canceled else Quarantined;
      }
      var ran := exec.DoJob(job, canceled);
      return if ran then Ran else Canceled;
    }

    // closeExecutor: unbind, retire if that failed, close.
    method CloseExecutor(lane: Executor) returns (clean: bool)
      requires !lane.closed && !lane.retired
      modifies driver, lane
      ensures driver.calls == old(driver.calls) + 1 && clean == driver.ok(old(driver.calls))
      ensures driver.retains == old(driver.retains)
      ensures lane.closed && lane.retired == !clean && (clean ==> !lane.bound)
    {
      clean := driver.CtxSetCurrent(lane, false);
      if !clean { lane.Retire(); }
      lane.Close();
    }

    // closeWaitLanes: every lane is closed, clean or retired, whatever the driver answers.
    method CloseWaitLanes() returns (clean: bool)
      requires Valid() && Usable()
      modifies this`lanes, driver, lanes
      ensures Valid() && Usable() && lanes == []
      ensures driver.calls == old(driver.calls) + |old(lanes)|
      ensures clean <==> driver.AllOk(old(driver.calls), driver.calls)
      ensures forall k :: 0 <= k < |old(lanes)| ==>
                old(lanes)[k].closed && old(lanes)[k].retired == !driver.ok(old(driver.calls) + k)
    {
      var taken := lanes;
      lanes := [];
      clean := true;
      var i := 0;
      while i < |taken|
        modifies driver, taken
        invariant 0 <= i <= |taken|
        invariant driver.calls == old(driver.calls) + i && driver.retains == old(driver.retains)
        invariant forall k :: 0 <= k < i ==> taken[k].closed && (taken[k].HandedBack() ==> !taken[k].bound)
        invariant forall k :: 0 <= k < i ==> taken[k].retired == !driver.ok(old(driver.calls) + k)
        invariant forall k :: i <= k < |taken| ==>
                    !taken[k].closed && taken[k].bound == old(taken[k].bound) && !taken[k].retired
        invariant clean <==> driver.AllOk(old(driver.calls), driver.calls)
      {
        var ok := CloseExecutor(taken[i]);
        clean := clean && ok;
        i := i + 1;
      }
    }

    method CloseCopyExecutor() returns (clean: bool)
      requires Valid() && Usable()
      modifies this`copyExec, driver, copyExec
      ensures Valid() && Usable() && copyExec == null
      ensures driver.calls == old(driver.calls) + (if old(copyExec) == null then 0 else 1)
      ensures clean == (old(copyExec) == null || driver.ok(old(driver.calls)))
      ensures old(copyExec) != null ==> old(copyExec).closed && old(copyExec).retired == !clean
    {
      var lane := copyExec;
      copyExec := null;
      if lane == null { return true; }
      clean := CloseExecutor(lane);
    }

    // The middle of Close: the lanes first, then the copy thread.
    method CloseThreads() returns (clean: bool)
      requires Valid() && Usable()
      modifies this`lanes, this`copyExec, driver, lanes, copyExec
      ensures Valid() && Usable() && lanes == [] && copyExec == null
      ensures driver.calls == old(driver.calls) + |old(lanes)| + (if old(copyExec) == null then 0 else 1)
      ensures clean <==> driver.AllOk(old(driver.calls), driver.calls)
      ensures forall k :: 0 <= k < |old(lanes)| ==>
                old(lanes)[k].closed && old(lanes)[k].retired == !driver.ok(old(driver.calls) + k)
      ensures old(copyExec) != null ==>
                old(copyExec).closed && old(copyExec).retired == !driver.ok(driver.calls - 1)
    {
      var lanesClean := CloseWaitLanes();
      var copyClean := CloseCopyExecutor();
      return lanesClean && copyClean;
    }

    // recoverCommandExecutor: a quarantined context gets a new bound executor or stays as it is.
    method RecoverCommandExecutor() returns (ok: bool)
      requires Valid() && !closed
      modifies this`threads, this`exec, this`commandErr, driver
      ensures Valid() && !closed && fresh(threads - old(threads))
      ensures ok == (!old(commandErr) || driver.ok(old(driver.calls))) && commandErr == !ok
      ensures driver.calls == old(driver.calls) + (if old(commandErr) then 1 else 0)
      ensures !old(commandErr) || !ok ==> exec == old(exec)
      ensures old(commandErr) && ok ==> fresh(exec) && exec.bound && !exec.closed && !exec.retired
      ensures threads == old(threads) <==> !old(commandErr)
    {
      if !commandErr { return true; }
      var candidate := NewExecutor();
      if candidate == null { return false; }
      exec := candidate;
      commandErr := false;
      return true;
    }

    // The number of the driver call with which a Close started now would release the primary
    // context: behind a rebind if there is one, an unbind of every lane, of the copy thread and
    // of the command thread.
    ghost function ReleaseCall(): nat
      reads this, driver
    {
      driver.calls + (if commandErr then 1 else 0) + |lanes| + (if copyExec == null then 0 else 1) + 1
    }

    // The job Close runs on the command thread, and what Close makes of its outcome.
    method ReleaseOrRestore() returns (cleared: bool)
      requires Valid() && Usable() && lanes == [] && copyExec == null
      modifies this`closed, this`commandErr, driver, exec
      ensures Valid() && cleared == driver.ok(old(driver.calls))
      ensures closed == driver.ok(old(driver.calls) + 1)
      ensures commandErr == (!closed && !driver.ok(old(driver.calls) + 2))
      ensures driver.calls == old(driver.calls) + (if closed then 2 else 3)
      ensures exec.retired == (if closed then !cleared else commandErr)
    {
      cleared := driver.CtxSetCurrent(exec, false);
      var released := driver.PrimaryCtxRelease();
      if !released {
        var restored := driver.CtxSetCurrent(exec, true);
        if !restored {
          commandErr := true;
          exec.Retire();
          exec.Close();
        }
        return;
      }
      closed := true;
      if !cleared { exec.Retire(); }
      exec.Close();
    }

    method Close() returns (success: bool)
      requires Valid()
      modifies this, driver, threads
      ensures Valid() && fresh(threads - old(threads))
      ensures old(closed) ==> success && closed && driver.calls == old(driver.calls)
      ensures !old(closed) && old(commandErr) && !driver.ok(old(driver.calls)) ==>
                !success && !closed && commandErr && lanes == old(lanes) && copyExec == old(copyExec)
      ensures !old(closed) && !(old(commandErr) && !driver.ok(old(driver.calls))) ==>
                && closed == driver.ok(old(ReleaseCall())) && lanes == [] && copyExec == null
                && commandErr == (!closed && !driver.ok(old(ReleaseCall()) + 1))
                && success == driver.AllOk(old(driver.calls), old(ReleaseCall()) + 1)
                && driver.calls == old(ReleaseCall()) + (if closed then 1 else 2)
                && exec.retired == (if closed then !driver.ok(old(ReleaseCall()) - 1) else commandErr)
                && (forall k :: 0 <= k < |old(lanes)| ==>
                      && old(lanes)[k].closed
                      && old(lanes)[k].retired
                           == !driver.ok(old(driver.calls) + (if old(commandErr) then 1 else 0) + k))
                && (old(copyExec) != null ==>
                      old(copyExec).closed && old(copyExec).retired == !driver.ok(old(ReleaseCall()) - 2))
    {
      if closed { return true; }
      var recovered := RecoverCommandExecutor();
      if !recovered { return false; }
      var clean := CloseThreads();
      var cleared := ReleaseOrRestore();
      return clean && closed && cleared;
    }

    // Any operations in any order, Close retried at will, against any driver.
    method Drive(ops: seq<Op>)
      requires Valid()
      modifies this, driver, threads
      ensures Valid() && fresh(threads - old(threads))
      ensures driver.retains == others + (if closed then 0 else 1)
      ensures forall t :: t in threads && t.HandedBack() ==> !t.bound
      ensures closed ==> forall t :: t in threads ==> t.closed
    {
      var i := 0;
      while i < |ops|
        invariant 0 <= i <= |ops|
        invariant Valid() && fresh(threads - old(threads))
      {
        match ops[i] {
          case NewLane => if Usable() { var lane := NewWaitLane(); }
          case NewCopy => if Usable() { var lane := CopyExecutor(); }
          case Command(canceled) =>
            var job := new Job();
            var answer := DoJob(job, canceled);
          case CloseOp => var done := Close();
        }
        i := i + 1;
      }
    }
  }
}
