/** The lanes of the context machine are executors: what an executor does to the jobs it has
    accepted and not yet delivered, and that the steps of a lane follow it. */
module LaneRefinement {
  import opened Options
  import E = Executor
  import EI = ExecutorInvariant
  import ET = ExecutorTheorems
  import C = ContextWaits
  import CI = ContextWaitsInvariant
  import CS = ContextWaitsSteps

  // ---- A lane: the jobs accepted and not yet delivered, and how far the first one is

  datatype Stage = Pending | HasRun | HasRecycled

  datatype Lane = Lane(jobs: seq<nat>, stage: Stage)

  datatype LaneOp = Accept(job: nat) | RunHead | RecycleHead | DeliverHead

  function LaneNext(v: Lane, op: LaneOp): Option<Lane> {
    match op
    case Accept(job) => Some(v.(jobs := v.jobs + [job]))
    case RunHead => if v.jobs != [] && v.stage == Pending then Some(v.(stage := HasRun)) else None
    case RecycleHead => if v.jobs != [] && v.stage == HasRun then Some(v.(stage := HasRecycled)) else None
    case DeliverHead => if v.jobs != [] && v.stage == HasRecycled then Some(Lane(v.jobs[1..], Pending)) else None
  }

  // ---- An executor is a lane

  predicate InHand(s: E.State) {
    s.work.worker.Working? && s.work.worker.call < |s.calls|
    && s.calls[s.work.worker.call].task in {E.Taken, E.Ran, E.Recycled}
  }

  function LaneOf(s: E.State): Lane {
    if InHand(s) then
      Lane([s.work.worker.call] + s.work.queue,
           match s.calls[s.work.worker.call].task
           case Ran => HasRun
           case Recycled => HasRecycled
           case _ => Pending)
    else Lane(s.work.queue, Pending)
  }

  // What a step of the executor is to its lane, if anything.
  function OpOf(step: E.Step): Option<LaneOp> {
    match step
    case Sends(i) => Some(Accept(i))
    case Works(OpRunJob) => Some(RunHead)
    case Works(OpRecycleRan) => Some(RecycleHead)
    case Works(OpPostResult) => Some(DeliverHead)
    case _ => None
  }

  // The lane depends on the queue, the worker and the task in hand.
  lemma SameLane(s: E.State, t: E.State)
    requires t.work.queue == s.work.queue && t.work.worker == s.work.worker && |s.calls| <= |t.calls|
    requires s.work.worker.Working? ==>
               s.work.worker.call < |s.calls|
               && t.calls[s.work.worker.call].task == s.calls[s.work.worker.call].task
    ensures LaneOf(t) == LaneOf(s)
  {
  }

  lemma WorkIsLaneStep(s: E.State, op: E.TaskOp, t: E.State)
    requires EI.QueueOk(s.calls, s.work) && E.TaskStep(s, op) == Some(t)
    ensures var o := OpOf(E.Works(op));
            if o.None? then LaneOf(t) == LaneOf(s) else LaneNext(LaneOf(s), o.value) == Some(LaneOf(t))
  {
    var i := s.work.worker.call;
    assert t.calls[i].task == E.TaskMove(i, E.SideOf(s, i), op).value.call.task;
    if op == E.OpPostResult { assert LaneOf(s).jobs[1..] == s.work.queue; }
  }

  lemma TakeIsNoLaneStep(s: E.State, t: E.State)
    requires EI.QueueOk(s.calls, s.work) && E.TakeTask(s) == Some(t)
    ensures LaneOf(t) == LaneOf(s)
  {
    assert s.work.queue == [s.work.queue[0]];
  }

  /** Every step of the executor accepts a job at the end of its lane, runs, recycles or delivers
      the job at the front, or is none of the lane's business. */
  lemma ExecutorIsALane(s: E.State, step: E.Step, t: E.State)
    requires EI.Inv(s) && E.Next(s, step) == Some(t)
    ensures var o := OpOf(step);
            if o.None? then LaneOf(t) == LaneOf(s) else LaneNext(LaneOf(s), o.value) == Some(LaneOf(t))
  {
    if step.Works? {
      WorkIsLaneStep(s, step.top, t);
    } else if step.TakesTask? {
      TakeIsNoLaneStep(s, t);
    } else if step.Sends? {
      SendIsAccept(s, step.i, t);
    } else {
      OtherIsNoLaneStep(s, step, t);
    }
  }

  lemma SendIsAccept(s: E.State, i: nat, t: E.State)
    requires EI.CallsOk(s) && EI.QueueOk(s.calls, s.work) && E.Send(s, i) == Some(t)
    ensures LaneNext(LaneOf(s), Accept(i)) == Some(LaneOf(t))
  {
    assert EI.CallOk(s, i);
    assert s.calls[i].task == E.Unsent;
    if InHand(s) { assert [s.work.worker.call] + s.work.queue + [i] == [s.work.worker.call] + (s.work.queue + [i]); }
  }

  lemma OtherIsNoLaneStep(s: E.State, step: E.Step, t: E.State)
    requires EI.QueueOk(s.calls, s.work) && E.Next(s, step) == Some(t)
    requires !step.Works? && !step.TakesTask? && !step.Sends?
    ensures LaneOf(t) == LaneOf(s)
  {
    if step.Loops? {
      assert !s.work.worker.Working? && !t.work.worker.Working?;
    } else {
      assert forall i :: 0 <= i < |s.calls| ==> t.calls[i].task == s.calls[i].task;
      SameLane(s, t);
    }
  }

  // ---- A lane of the context machine follows an executor

  // Call number i of the executor submits the job names[i]. A call without a name is a bind or
  // an unbind, which the context machine does not have.
  type Names = map<nat, C.LaneJob>

  function Named(jobs: seq<nat>, names: Names): seq<C.LaneJob> {
    if jobs == [] then []
    else Named(jobs[..|jobs| - 1], names) + OneNamed(jobs[|jobs| - 1], names)
  }

  function WithName(names: Names, i: nat, job: C.LaneJob): Names {
    names[i := job]
  }

  function OneNamed(i: nat, names: Names): seq<C.LaneJob> {
    if i in names then [names[i]] else []
  }

  lemma NamedAppend(jobs: seq<nat>, i: nat, names: Names)
    ensures Named(jobs + [i], names) == Named(jobs, names) + OneNamed(i, names)
  {
    assert (jobs + [i])[..|jobs|] == jobs;
  }

  lemma {:induction false} NamedHead(jobs: seq<nat>, names: Names)
    requires jobs != []
    ensures Named(jobs, names) == OneNamed(jobs[0], names) + Named(jobs[1..], names)
  {
    var front, last := jobs[..|jobs| - 1], jobs[|jobs| - 1];
    if front == [] {
      assert jobs[1..] == [];
    } else {
      NamedHead(front, names);
      assert front[1..] + [last] == jobs[1..];
      NamedAppend(front[1..], last, names);
    }
  }

  // Naming a call that is not in the lane changes nothing there.
  lemma {:induction false} NamedFresh(jobs: seq<nat>, names: Names, i: nat, job: C.LaneJob)
    requires i !in jobs
    ensures Named(jobs, WithName(names, i, job)) == Named(jobs, names)
  {
    if jobs != [] {
      var front := jobs[..|jobs| - 1];
      assert jobs[|jobs| - 1] in jobs && forall j :: j in front ==> j in jobs;
      NamedFresh(front, names, i, job);
    }
  }

  // How far the first named job is.
  function HeadStage(v: Lane, names: Names): Stage {
    if v.jobs != [] && v.jobs[0] in names then v.stage else Pending
  }

  // A fence has nothing to recycle, and the context machine runs it in one step.
  predicate AtStage(waits: seq<C.Wait>, job: C.LaneJob, stage: Stage) {
    job.WaitJob? ==>
      && job.wait < |waits|
      && waits[job.wait].job == (match stage
                                 case Pending => C.JobPc.Queued
                                 case HasRun => C.JobPc.Ran
                                 case HasRecycled => C.JobPc.Untracked)
  }

  predicate Matches(v: Lane, s: C.State, l: nat, names: Names) {
    && l < |s.lanes| && s.lanes[l].jobs == Named(v.jobs, names)
    && (s.lanes[l].jobs != [] ==> AtStage(s.waits, s.lanes[l].jobs[0], HeadStage(v, names)))
  }

  // The steps of the context machine that are one step of the front job of lane l.
  function StepsOf(v: Lane, names: Names, l: nat, op: LaneOp): seq<C.Step>
    requires v.jobs != []
  {
    if v.jobs[0] !in names then []
    else
      match (op, names[v.jobs[0]])
      case (RunHead, WaitJob(_)) => [C.LaneRuns(l, C.OpStart), C.LaneRuns(l, C.OpEnd)]
      case (RecycleHead, WaitJob(_)) => [C.LaneReleases(l), C.LaneUntracks(l)]
      case (DeliverHead, WaitJob(_)) => [C.LaneDelivers(l)]
      case (DeliverHead, FenceJob(_)) => [C.LaneFences(l)]
      case _ => []
  }

  lemma OneStep(s: C.State, step: C.Step, t: C.State)
    requires C.Next(s, step) == Some(t)
    ensures C.Exec(s, [step]) == Some(t)
  {
    assert C.Exec(t, []) == Some(t) && [step][1..] == [];
  }

  lemma TwoSteps(s: C.State, a: C.Step, b: C.Step, t: C.State, u: C.State)
    requires C.Next(s, a) == Some(t) && C.Next(t, b) == Some(u)
    ensures C.Exec(s, [a, b]) == Some(u)
  {
    OneStep(t, b, u);
    assert [a, b][1..] == [b];
  }

  // The other lanes, and the jobs of the waits on them, are as before.
  predicate OnlyLane(s: C.State, t: C.State, l: nat) {
    && |t.lanes| == |s.lanes| && |t.waits| == |s.waits|
    && (forall m :: 0 <= m < |s.lanes| && m != l ==> t.lanes[m].jobs == s.lanes[m].jobs)
    && (forall i :: 0 <= i < |s.waits| && s.waits[i].lane != l ==> t.waits[i].job == s.waits[i].job)
  }

  lemma RunMatches(v: Lane, w: Lane, s: C.State, l: nat, names: Names) returns (t: C.State)
    requires CI.LanesOk(s.waits, s.closes, s.lanes)
    requires Matches(v, s, l, names) && LaneNext(v, RunHead) == Some(w) && v.jobs[0] in names
    ensures C.Exec(s, StepsOf(v, names, l, RunHead)) == Some(t) && Matches(w, t, l, names) && OnlyLane(s, t, l)
  {
    NamedHead(v.jobs, names);
    CI.HeadEntryOk(s.waits, s.closes, s.lanes, l);
    t := s;
    if names[v.jobs[0]].WaitJob? {
      var i := names[v.jobs[0]].wait;
      var started := C.SetJob(s, i, C.Running);
      t := C.SetJob(started, i, C.JobPc.Ran);
      TwoSteps(s, C.LaneRuns(l, C.OpStart), C.LaneRuns(l, C.OpEnd), started, t);
    }
  }

  lemma RecycleMatches(v: Lane, w: Lane, s: C.State, l: nat, names: Names) returns (t: C.State)
    requires CI.LanesOk(s.waits, s.closes, s.lanes)
    requires Matches(v, s, l, names) && LaneNext(v, RecycleHead) == Some(w) && v.jobs[0] in names
    ensures C.Exec(s, StepsOf(v, names, l, RecycleHead)) == Some(t) && Matches(w, t, l, names) && OnlyLane(s, t, l)
  {
    NamedHead(v.jobs, names);
    CI.HeadEntryOk(s.waits, s.closes, s.lanes, l);
    t := s;
    if names[v.jobs[0]].WaitJob? {
      var released := C.ReleaseLane(s, l).value;
      t := C.UntrackLane(released, l).value;
      TwoSteps(s, C.LaneReleases(l), C.LaneUntracks(l), released, t);
    }
  }

  // The job behind a delivered one is still queued.
  lemma NextIsQueued(s: C.State, l: nat)
    requires CI.LanesOk(s.waits, s.closes, s.lanes) && l < |s.lanes| && |s.lanes[l].jobs| > 1
    ensures AtStage(s.waits, s.lanes[l].jobs[1], Pending)
    ensures s.lanes[l].jobs[1] != s.lanes[l].jobs[0]
  {
    assert CI.LaneOk(s.waits, s.closes, l, s.lanes[l].jobs);
    assert CI.EntryOk(s.waits, s.closes, l, 1, s.lanes[l].jobs[1]);
  }

  // The front job leaves both lanes, and the next one has everything before it.
  lemma DeliveredMatches(v: Lane, w: Lane, s: C.State, t: C.State, l: nat, names: Names)
    requires Matches(v, s, l, names) && LaneNext(v, DeliverHead) == Some(w) && v.jobs[0] in names
    requires l < |t.lanes| && s.lanes[l].jobs != [] && t.lanes[l].jobs == s.lanes[l].jobs[1..]
    requires |s.lanes[l].jobs| > 1 ==> AtStage(t.waits, s.lanes[l].jobs[1], Pending)
    ensures Matches(w, t, l, names)
  {
    NamedHead(v.jobs, names);
    assert s.lanes[l].jobs[1..] == Named(w.jobs, names);
  }

  lemma DeliverFrame(s: C.State, l: nat, t: C.State)
    requires CI.LanesOk(s.waits, s.closes, s.lanes) && C.Deliver(s, l) == Some(t)
    ensures OnlyLane(s, t, l) && t.lanes[l].jobs == s.lanes[l].jobs[1..]
    ensures |s.lanes[l].jobs| > 1 ==> AtStage(t.waits, s.lanes[l].jobs[1], Pending)
  {
    CI.HeadEntryOk(s.waits, s.closes, s.lanes, l);
    if |s.lanes[l].jobs| > 1 { NextIsQueued(s, l); }
  }

  lemma DeliverWaitMatches(v: Lane, w: Lane, s: C.State, l: nat, names: Names) returns (t: C.State)
    requires CI.LanesOk(s.waits, s.closes, s.lanes) && LaneNext(v, DeliverHead) == Some(w)
    requires Matches(v, s, l, names) && v.jobs[0] in names && names[v.jobs[0]].WaitJob?
    ensures C.Next(s, C.LaneDelivers(l)) == Some(t) && Matches(w, t, l, names) && OnlyLane(s, t, l)
  {
    NamedHead(v.jobs, names);
    t := C.Deliver(s, l).value;
    DeliverFrame(s, l, t);
    DeliveredMatches(v, w, s, t, l, names);
  }

  lemma RunFenceFrame(s: C.State, l: nat, t: C.State)
    requires CI.LanesOk(s.waits, s.closes, s.lanes) && C.RunFence(s, l) == Some(t)
    ensures OnlyLane(s, t, l) && t.lanes[l].jobs == s.lanes[l].jobs[1..]
    ensures |s.lanes[l].jobs| > 1 ==> AtStage(t.waits, s.lanes[l].jobs[1], Pending)
  {
    if |s.lanes[l].jobs| > 1 { NextIsQueued(s, l); }
  }

  lemma DeliverFenceMatches(v: Lane, w: Lane, s: C.State, l: nat, names: Names) returns (t: C.State)
    requires CI.LanesOk(s.waits, s.closes, s.lanes) && LaneNext(v, DeliverHead) == Some(w)
    requires Matches(v, s, l, names) && v.jobs[0] in names && names[v.jobs[0]].FenceJob?
    ensures C.Next(s, C.LaneFences(l)) == Some(t) && Matches(w, t, l, names) && OnlyLane(s, t, l)
  {
    NamedHead(v.jobs, names);
    CI.HeadEntryOk(s.waits, s.closes, s.lanes, l);
    t := C.RunFence(s, l).value;
    RunFenceFrame(s, l, t);
    DeliveredMatches(v, w, s, t, l, names);
  }

  lemma DeliverMatches(v: Lane, w: Lane, s: C.State, l: nat, names: Names) returns (t: C.State)
    requires CI.LanesOk(s.waits, s.closes, s.lanes)
    requires Matches(v, s, l, names) && LaneNext(v, DeliverHead) == Some(w) && v.jobs[0] in names
    ensures C.Exec(s, StepsOf(v, names, l, DeliverHead)) == Some(t) && Matches(w, t, l, names) && OnlyLane(s, t, l)
  {
    if names[v.jobs[0]].WaitJob? {
      t := DeliverWaitMatches(v, w, s, l, names);
      OneStep(s, C.LaneDelivers(l), t);
    } else {
      t := DeliverFenceMatches(v, w, s, l, names);
      OneStep(s, C.LaneFences(l), t);
    }
  }

  // A bind or unbind at the front is none of the context machine's business.
  lemma SilentMatches(v: Lane, op: LaneOp, w: Lane, s: C.State, l: nat, names: Names)
    requires Matches(v, s, l, names) && !op.Accept? && LaneNext(v, op) == Some(w) && v.jobs[0] !in names
    ensures Matches(w, s, l, names)
  {
    NamedHead(v.jobs, names);
  }

  lemma LaneFollows(v: Lane, op: LaneOp, w: Lane, s: C.State, l: nat, names: Names) returns (t: C.State)
    requires CI.LanesOk(s.waits, s.closes, s.lanes) && !op.Accept?
    requires Matches(v, s, l, names) && LaneNext(v, op) == Some(w)
    ensures C.Exec(s, StepsOf(v, names, l, op)) == Some(t) && Matches(w, t, l, names) && OnlyLane(s, t, l)
  {
    if v.jobs[0] !in names {
      SilentMatches(v, op, w, s, l, names);
      return s;
    }
    match op {
      case RunHead => t := RunMatches(v, w, s, l, names);
      case RecycleHead => t := RecycleMatches(v, w, s, l, names);
      case _ => t := DeliverMatches(v, w, s, l, names);
    }
  }

  /** Whatever the executor behind lane l does with its jobs, binds and unbinds among them, steps
      of that lane do, and the other lanes stay as they are. */
  lemma LaneFollowsExecutor(e: E.State, step: E.Step, f: E.State, s: C.State, l: nat, names: Names)
      returns (steps: seq<C.Step>, t: C.State)
    requires EI.Inv(e) && E.Next(e, step) == Some(f) && !step.Sends?
    requires CI.LanesOk(s.waits, s.closes, s.lanes) && Matches(LaneOf(e), s, l, names)
    ensures C.Exec(s, steps) == Some(t) && Matches(LaneOf(f), t, l, names) && OnlyLane(s, t, l)
  {
    ExecutorIsALane(e, step, f);
    var o := OpOf(step);
    if o.None? { return [], s; }
    steps := StepsOf(LaneOf(e), names, l, o.value);
    t := LaneFollows(LaneOf(e), o.value, LaneOf(f), s, l, names);
  }

  // ---- Acceptance

  // A named job goes to the end of the lane of both.
  lemma AcceptMatches(v: Lane, i: nat, s: C.State, l: nat, names: Names, job: C.LaneJob, t: C.State)
    requires Matches(v, s, l, names) && i !in v.jobs && i !in names
    requires l < |t.lanes| && t.lanes[l].jobs == s.lanes[l].jobs + [job]
    requires s.lanes[l].jobs != [] ==> AtStage(t.waits, s.lanes[l].jobs[0], HeadStage(v, names))
    requires s.lanes[l].jobs == [] ==> AtStage(t.waits, job, Pending)
    requires v.jobs == [] ==> v.stage == Pending
    ensures Matches(v.(jobs := v.jobs + [i]), t, l, WithName(names, i, job))
  {
    NamedFresh(v.jobs, names, i, job);
    NamedAppend(v.jobs, i, WithName(names, i, job));
    if s.lanes[l].jobs == [] && v.jobs != [] { NamedHead(v.jobs, names); }
  }

  lemma EmptyLaneIsPending(e: E.State)
    ensures LaneOf(e).jobs == [] ==> LaneOf(e).stage == Pending
  {
  }

  lemma SilentAcceptMatches(v: Lane, i: nat, s: C.State, l: nat, names: Names)
    requires Matches(v, s, l, names) && i !in names
    ensures Matches(v.(jobs := v.jobs + [i]), s, l, names)
  {
    NamedAppend(v.jobs, i, names);
  }

  /** A wait that is submitted enters executor and lane together ... */
  lemma WaitIsAccepted(v: Lane, i: nat, s: C.State, l: nat, names: Names, w: nat, t: C.State)
    requires CI.LanesOk(s.waits, s.closes, s.lanes) && Matches(v, s, l, names) && i !in v.jobs && i !in names
    requires (v.jobs == [] ==> v.stage == Pending) && C.Submit(s, w) == Some(t) && s.waits[w].lane == l
    requires s.waits[w].job == C.JobPc.NotSubmitted
    ensures Matches(v.(jobs := v.jobs + [i]), t, l, WithName(names, i, C.WaitJob(w)))
  {
    if s.lanes[l].jobs != [] { CI.HeadEntryOk(s.waits, s.closes, s.lanes, l); }
    AcceptMatches(v, i, s, l, names, C.WaitJob(w), t);
  }

  /** ... and so does the fence of a Close. */
  lemma FenceIsAccepted(v: Lane, i: nat, s: C.State, l: nat, names: Names, c: nat, t: C.State)
    requires Matches(v, s, l, names) && i !in v.jobs && i !in names
    requires (v.jobs == [] ==> v.stage == Pending) && C.SendFence(s, c) == Some(t) && s.closes[c].pc.lane == l
    ensures Matches(v.(jobs := v.jobs + [i]), t, l, WithName(names, i, C.FenceJob(c)))
  {
    AcceptMatches(v, i, s, l, names, C.FenceJob(c), t);
  }

  // An executor whose Close has returned has an empty lane.
  lemma ClosedExecutorIsEmpty(e: E.State)
    requires EI.Inv(e) && e.shut.closer == E.CloseReturned
    ensures LaneOf(e).jobs == []
  {
  }
}
