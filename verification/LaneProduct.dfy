/** The context machine with one executor behind every wait lane, run together.

    An executor takes its own steps and the lane does the same at once; a wait or a fence enters
    both together; a bind or an unbind enters the executor alone; and Context.Close passes a lane
    when the Close of its executor has returned. Every such run is a run of the context machine,
    and no step of an executor is held up. */
module LaneProduct {
  import opened Options
  import opened LaneRefinement
  import E = Executor
  import EI = ExecutorInvariant
  import ET = ExecutorTheorems
  import C = ContextWaits
  import CI = ContextWaitsInvariant
  import CP = ContextWaitsProgress
  import CS = ContextWaitsSteps

  datatype Product = Product(ctx: C.State, execs: seq<E.State>, names: seq<Names>)

  const START := Product(C.INITIAL, [], [])

  datatype Step =
    | OtherStep(cstep: C.Step)                         // nothing of a lane's business
    | NewLane(wait: nat, exec: E.State)                // a bound executor joins the list
    | ExecStep(l: nat, estep: E.Step)                  // the executor behind lane l
    | AcceptsWait(l: nat, call: nat, wait: nat)
    | AcceptsFence(l: nat, call: nat, close: nat)
    | AcceptsSilent(l: nat, call: nat)                 // a bind or an unbind
    | PassesLane                                       // Context.Close goes on to the next lane

  predicate IsOther(step: C.Step) {
    match step
    case LaneRuns(_, _) | LaneReleases(_) | LaneUntracks(_) | LaneDelivers(_) | LaneFences(_) => false
    case Submits(_) | SendsFence(_) => false
    case Binds(_, ok) => !ok
    case ClosesContext(op) => op != C.OpCtxCloseLane
    case _ => true
  }

  // closeExecutor closes the lanes that Context.Close has taken off the list, one by one.
  predicate MayStep(p: Product, l: nat, step: E.Step) {
    && !step.Sends?
    && (step == E.Env(E.OpStartClose) ==>
          p.ctx.shared.ctx == C.CtxDraining && l == p.ctx.shared.drained < p.ctx.shared.base)
  }

  // The steps that accompany a step of an executor.
  function Following(e: E.State, names: Names, l: nat, step: E.Step): seq<C.Step> {
    if OpOf(step).None? || LaneOf(e).jobs == [] then [] else StepsOf(LaneOf(e), names, l, OpOf(step).value)
  }

  ghost predicate Next(p: Product, step: Step, q: Product) {
    match step
    case OtherStep(cstep) => IsOther(cstep) && C.Next(p.ctx, cstep) == Some(q.ctx) && q == p.(ctx := q.ctx)
    case NewLane(wait, exec) =>
      && C.Bind(p.ctx, wait, true) == Some(q.ctx)
      && E.Reachable(exec) && LaneOf(exec).jobs == [] && exec.shut.closer == E.Open
      && q == Product(q.ctx, p.execs + [exec], p.names + [map[]])
    case ExecStep(l, estep) =>
      && l < |p.execs| == |q.execs| && l < |p.names| && MayStep(p, l, estep)
      && E.Next(p.execs[l], estep) == Some(q.execs[l])
      && C.Exec(p.ctx, Following(p.execs[l], p.names[l], l, estep)) == Some(q.ctx)
      && q == Product(q.ctx, p.execs[l := q.execs[l]], p.names)
    case AcceptsWait(l, call, wait) =>
      && l < |p.execs| == |q.execs| && l < |p.names| && E.Send(p.execs[l], call) == Some(q.execs[l])
      && C.Submit(p.ctx, wait) == Some(q.ctx) && p.ctx.waits[wait].lane == l
      && q == Product(q.ctx, p.execs[l := q.execs[l]], p.names[l := WithName(p.names[l], call, C.WaitJob(wait))])
    case AcceptsFence(l, call, close) =>
      && l < |p.execs| == |q.execs| && l < |p.names| && E.Send(p.execs[l], call) == Some(q.execs[l])
      && C.SendFence(p.ctx, close) == Some(q.ctx) && p.ctx.closes[close].pc.lane == l
      && q == Product(q.ctx, p.execs[l := q.execs[l]], p.names[l := WithName(p.names[l], call, C.FenceJob(close))])
    case AcceptsSilent(l, call) =>
      && l < |p.execs| == |q.execs| && E.Send(p.execs[l], call) == Some(q.execs[l])
      && q == p.(execs := p.execs[l := q.execs[l]])
    case PassesLane =>
      var sh := p.ctx.shared;
      && sh.ctx == C.CtxDraining && sh.drained < sh.base && sh.drained < |p.execs|
      && p.execs[sh.drained].shut.closer == E.CloseReturned
      && q == p.(ctx := p.ctx.(shared := sh.(drained := sh.drained + 1)))
  }

  ghost predicate Run(p: Product, steps: seq<Step>, mids: seq<Product>)
  {
    && |mids| == |steps| + 1 && mids[0] == p
    && forall k :: 0 <= k < |steps| ==> Next(mids[k], steps[k], mids[k + 1])
  }

  // ---- The invariant

  // A Close that sent a fence to lane l is past that lane, or waits there.
  predicate PastLane(pc: C.ClosePc, l: nat) {
    match pc
    case Fencing(k, _) => k > l
    case FenceSent(k, _) => k >= l
    case Destroying => true
    case CloseLeavingContext(_) => true
    case Settling(_) => true
    case CloseReturned => true
    case _ => false
  }

  predicate NameOk(s: C.State, l: nat, job: C.LaneJob) {
    match job
    case WaitJob(w) => w < |s.waits| && s.waits[w].job != C.NotSubmitted && s.waits[w].lane == l
    case FenceJob(c) => c < |s.closes| && PastLane(s.closes[c].pc, l)
  }

  predicate NamesOk(s: C.State, l: nat, accepted: seq<nat>, names: Names) {
    && (forall i :: i in names ==> i in accepted && NameOk(s, l, names[i]))
    && (forall i, j :: i in names && j in names && i != j ==> names[i] != names[j])
  }

  ghost predicate LaneInv(s: C.State, l: nat, e: E.State, names: Names) {
    E.Reachable(e) && Matches(LaneOf(e), s, l, names) && NamesOk(s, l, e.work.accepted, names)
  }

  predicate Aligned(p: Product) {
    |p.execs| == |p.names| == |p.ctx.lanes|
  }

  ghost predicate LanesInv(p: Product)
    requires Aligned(p)
  {
    forall l :: 0 <= l < |p.execs| ==> LaneInv(p.ctx, l, p.execs[l], p.names[l])
  }

  // The lanes before the one that is being closed are closed, those still listed are open.
  predicate ClosersOk(sh: C.Shared, execs: seq<E.State>) {
    && (forall l :: 0 <= l < |execs| && l < sh.drained ==> execs[l].shut.closer == E.CloseReturned)
    && (forall l :: sh.base <= l < |execs| ==> execs[l].shut.closer == E.Open)
  }

  ghost predicate Inv(p: Product) {
    && C.Reachable(p.ctx)
    && Aligned(p) && LanesInv(p)
    && ClosersOk(p.ctx.shared, p.execs)
  }

  // ---- Runs get longer

  lemma {:induction false} ExecAppends(s: C.State, a: seq<C.Step>, t: C.State, b: seq<C.Step>, u: C.State)
    requires C.Exec(s, a) == Some(t) && C.Exec(t, b) == Some(u)
    ensures C.Exec(s, a + b) == Some(u)
    decreases |a|
  {
    if a == [] {
      assert a + b == b;
    } else {
      assert (a + b)[1..] == a[1..] + b;
      ExecAppends(C.Next(s, a[0]).value, a[1..], t, b, u);
    }
  }

  lemma ContextGoesOn(s: C.State, steps: seq<C.Step>, t: C.State)
    requires C.Reachable(s) && C.Exec(s, steps) == Some(t)
    ensures C.Reachable(t)
  {
    var before :| C.Exec(C.INITIAL, before) == Some(s);
    ExecAppends(C.INITIAL, before, s, steps, t);
  }

  // The parts of the two invariants that are needed here.
  lemma ReachableLanes(s: C.State)
    requires C.Reachable(s)
    ensures CI.LanesOk(s.waits, s.closes, s.lanes)
  {
    CS.ReachableInv(s);
  }

  lemma ReachableWaits(s: C.State)
    requires C.Reachable(s)
    ensures CI.WaitsOk(s.waits, |s.handles|, |s.lanes|, s.shared)
  {
    CS.ReachableInv(s);
  }

  lemma ReachableShared(s: C.State)
    requires C.Reachable(s)
    ensures CI.SharedOk(s.waits, s.lanes, s.shared)
  {
    CS.ReachableInv(s);
  }

  // ---- What the steps of the context machine leave to the lanes

  // Names stay right as the waits and closes go on.
  ghost predicate GoesOn(s: C.State, t: C.State) {
    && |s.waits| <= |t.waits| && |s.closes| <= |t.closes|
    && (forall w :: 0 <= w < |s.waits| && s.waits[w].job != C.NotSubmitted ==>
          t.waits[w].job != C.NotSubmitted && t.waits[w].lane == s.waits[w].lane)
    && (forall c, l: nat {:trigger PastLane(s.closes[c].pc, l)} ::
          0 <= c < |s.closes| && PastLane(s.closes[c].pc, l) ==> PastLane(t.closes[c].pc, l))
  }

  lemma NamesGoOn(s: C.State, t: C.State, l: nat, accepted: seq<nat>, more: seq<nat>, names: Names)
    requires GoesOn(s, t) && NamesOk(s, l, accepted, names) && accepted <= more
    ensures NamesOk(t, l, more, names)
  {
    forall i | i in names ensures i in more && NameOk(t, l, names[i]) {
      assert NameOk(s, l, names[i]);
    }
  }

  lemma {:induction false} RunGoesOn(s: C.State, steps: seq<C.Step>, t: C.State)
    requires C.Reachable(s) && C.Exec(s, steps) == Some(t)
    ensures GoesOn(s, t)
    decreases |steps|
  {
    if steps != [] {
      var u := C.Next(s, steps[0]).value;
      ReachableWaits(s);
      StepGoesOn(s, steps[0], u);
      OneStep(s, steps[0], u);
      ContextGoesOn(s, [steps[0]], u);
      RunGoesOn(u, steps[1..], t);
      GoesOnTwice(s, u, t);
    }
  }

  lemma GoesOnTwice(s: C.State, t: C.State, u: C.State)
    requires GoesOn(s, t) && GoesOn(t, u)
    ensures GoesOn(s, u)
  {
  }

  lemma StepGoesOn(s: C.State, step: C.Step, t: C.State)
    requires CI.WaitsOk(s.waits, |s.handles|, |s.lanes|, s.shared) && C.Next(s, step) == Some(t)
    ensures GoesOn(s, t)
  {
    if step.Closes? || step.LocksWrite? || step.SendsFence? || step.Destroys? || step.Settles? {
      CloserGoesOn(s, step, t);
    } else if IsLaneStep(step) {
      LaneGoesOn(s, step, t);
    } else if step.ClosesContext? || step.Env? {
      RestGoesOn(s, step, t);
    } else {
      CallerGoesOn(s, step, t);
    }
  }

  lemma CloserGoesOn(s: C.State, step: C.Step, t: C.State)
    requires C.Next(s, step) == Some(t)
    requires step.Closes? || step.LocksWrite? || step.SendsFence? || step.Destroys? || step.Settles?
    ensures GoesOn(s, t)
  {
  }

  lemma LaneGoesOn(s: C.State, step: C.Step, t: C.State)
    requires C.Next(s, step) == Some(t) && IsLaneStep(step)
    ensures GoesOn(s, t)
  {
  }

  lemma RestGoesOn(s: C.State, step: C.Step, t: C.State)
    requires C.Next(s, step) == Some(t) && (step.ClosesContext? || step.Env?)
    ensures GoesOn(s, t)
  {
  }

  lemma CallerGoesOn(s: C.State, step: C.Step, t: C.State)
    requires CI.WaitsOk(s.waits, |s.handles|, |s.lanes|, s.shared) && C.Next(s, step) == Some(t)
    requires step.Waits? || step.LocksHandle? || step.Chooses? || step.LocksCreate? || step.Rechooses?
             || step.Binds? || step.Tracks? || step.Submits? || step.ReleasesRejected? || step.UntracksRejected?
    ensures GoesOn(s, t)
  {
    CallerTouchesOneWait(s, step, t);
  }

  lemma CallerTouchesOneWait(s: C.State, step: C.Step, t: C.State)
    requires CI.WaitsOk(s.waits, |s.handles|, |s.lanes|, s.shared) && C.Next(s, step) == Some(t)
    requires step.Waits? || step.LocksHandle? || step.Chooses? || step.LocksCreate? || step.Rechooses?
             || step.Binds? || step.Tracks? || step.Submits? || step.ReleasesRejected? || step.UntracksRejected?
    ensures step.i < |s.waits| == |t.waits| && t.closes == s.closes && t.waits == s.waits[step.i := t.waits[step.i]]
    ensures s.waits[step.i].job != C.NotSubmitted ==>
              t.waits[step.i].job == s.waits[step.i].job && t.waits[step.i].lane == s.waits[step.i].lane
  {
    assert CI.WaitOk(s.waits[step.i], |s.handles|, |s.lanes|, s.shared);
  }

  // The jobs of a lane and the waits on it are as before.
  predicate SameLaneJobs(s: C.State, t: C.State, l: nat) {
    && l < |s.lanes| && l < |t.lanes| && t.lanes[l].jobs == s.lanes[l].jobs
    && forall w :: 0 <= w < |s.waits| && s.waits[w].lane == l && CI.InLane(s.waits[w].job) ==>
         w < |t.waits| && t.waits[w].job == s.waits[w].job
  }

  lemma MatchesKept(v: Lane, s: C.State, t: C.State, l: nat, names: Names)
    requires CI.LanesOk(s.waits, s.closes, s.lanes) && Matches(v, s, l, names) && SameLaneJobs(s, t, l)
    ensures Matches(v, t, l, names)
  {
    if s.lanes[l].jobs != [] { CI.HeadEntryOk(s.waits, s.closes, s.lanes, l); }
  }

  lemma CloserKeepsLanes(s: C.State, step: C.Step, t: C.State, l: nat)
    requires C.Next(s, step) == Some(t) && l < |s.lanes|
    requires step.Closes? || step.LocksWrite? || step.Destroys? || step.Settles?
    ensures SameLaneJobs(s, t, l)
  {
    assert t.lanes == s.lanes && t.waits == s.waits;
  }

  lemma ContextKeepsLanes(s: C.State, op: C.CtxOp, t: C.State, l: nat)
    requires C.CtxStep(s, op) == Some(t) && l < |s.lanes|
    ensures SameLaneJobs(s, t, l)
  {
    assert t.lanes == s.lanes && t.waits == s.waits;
  }

  lemma EnvKeepsLanes(s: C.State, op: C.EnvOp, t: C.State, l: nat)
    requires C.EnvStep(s, op) == Some(t) && l < |s.lanes|
    ensures SameLaneJobs(s, t, l)
  {
    assert t.lanes == s.lanes;
  }

  lemma CallerKeepsJobs(s: C.State, step: C.Step, t: C.State, l: nat)
    requires C.Next(s, step) == Some(t) && l < |s.lanes|
    requires step.Waits? || step.LocksHandle? || step.Chooses? || step.LocksCreate? || step.Rechooses?
             || step.Binds? || step.Tracks? || step.ReleasesRejected? || step.UntracksRejected?
    ensures step.i < |s.waits| == |t.waits| && t.waits == s.waits[step.i := t.waits[step.i]]
    ensures t.waits[step.i].job == s.waits[step.i].job
    ensures l < |t.lanes| && t.lanes[l].jobs == s.lanes[l].jobs
  {
  }

  lemma CallerKeepsLanes(s: C.State, step: C.Step, t: C.State, l: nat)
    requires C.Next(s, step) == Some(t) && l < |s.lanes|
    requires step.Waits? || step.LocksHandle? || step.Chooses? || step.LocksCreate? || step.Rechooses?
             || step.Binds? || step.Tracks? || step.ReleasesRejected? || step.UntracksRejected?
    ensures SameLaneJobs(s, t, l)
  {
    CallerKeepsJobs(s, step, t, l);
  }

  lemma OtherKeepsLanes(s: C.State, step: C.Step, t: C.State, l: nat)
    requires IsOther(step) && C.Next(s, step) == Some(t) && l < |s.lanes|
    ensures SameLaneJobs(s, t, l)
  {
    if step.Closes? || step.LocksWrite? || step.Destroys? || step.Settles? {
      CloserKeepsLanes(s, step, t, l);
    } else if step.ClosesContext? {
      ContextKeepsLanes(s, step.xop, t, l);
    } else if step.Env? {
      EnvKeepsLanes(s, step.eop, t, l);
    } else {
      CallerKeepsLanes(s, step, t, l);
    }
  }

  // ---- Every step keeps the invariant, and is a run of the context machine

  lemma LanePartIsKept(s: C.State, t: C.State, l: nat, e: E.State, names: Names)
    requires CI.LanesOk(s.waits, s.closes, s.lanes) && LaneInv(s, l, e, names)
    requires SameLaneJobs(s, t, l) && GoesOn(s, t)
    ensures LaneInv(t, l, e, names)
  {
    MatchesKept(LaneOf(e), s, t, l, names);
    NamesGoOn(s, t, l, e.work.accepted, e.work.accepted, names);
  }

  lemma OtherStepKeepsInv(p: Product, cstep: C.Step, q: Product)
    requires Inv(p) && Next(p, OtherStep(cstep), q)
    ensures Inv(q)
  {
    ReachableLanes(p.ctx);
    OneStep(p.ctx, cstep, q.ctx);
    ContextGoesOn(p.ctx, [cstep], q.ctx);
    RunGoesOn(p.ctx, [cstep], q.ctx);
    OtherKeepsCounts(p.ctx, cstep, q.ctx);
    forall l | 0 <= l < |q.execs| ensures LaneInv(q.ctx, l, q.execs[l], q.names[l]) {
      OtherKeepsLanes(p.ctx, cstep, q.ctx, l);
      LanePartIsKept(p.ctx, q.ctx, l, p.execs[l], p.names[l]);
    }
  }

  lemma OtherKeepsCounts(s: C.State, step: C.Step, t: C.State)
    requires IsOther(step) && C.Next(s, step) == Some(t)
    ensures |t.lanes| == |s.lanes| && t.shared.drained == s.shared.drained
    ensures s.shared.base <= t.shared.base || t.shared.base == |t.lanes|
  {
  }

  lemma NewLaneFrame(s: C.State, wait: nat, t: C.State)
    requires C.Bind(s, wait, true) == Some(t)
    ensures |t.lanes| == |s.lanes| + 1 && t.lanes[|s.lanes|].jobs == []
    ensures t.shared.drained == s.shared.drained && t.shared.base == s.shared.base
    ensures forall l: nat :: l < |s.lanes| ==> SameLaneJobs(s, t, l)
  {
  }

  lemma NewLaneKeepsInv(p: Product, wait: nat, exec: E.State, q: Product)
    requires Inv(p) && Next(p, NewLane(wait, exec), q)
    ensures Inv(q)
  {
    ReachableLanes(p.ctx);
    ReachableShared(p.ctx);
    OneStep(p.ctx, C.Binds(wait, true), q.ctx);
    ContextGoesOn(p.ctx, [C.Binds(wait, true)], q.ctx);
    RunGoesOn(p.ctx, [C.Binds(wait, true)], q.ctx);
    NewLaneFrame(p.ctx, wait, q.ctx);
    forall l | 0 <= l < |q.execs| ensures LaneInv(q.ctx, l, q.execs[l], q.names[l]) {
      if l < |p.execs| { LanePartIsKept(p.ctx, q.ctx, l, p.execs[l], p.names[l]); }
    }
  }

  // What a step at lane l does to the other lanes.
  lemma OthersAreKept(p: Product, q: Product, l: nat, m: nat)
    requires CI.LanesOk(p.ctx.waits, p.ctx.closes, p.ctx.lanes) && l != m && m < |p.execs| && m < |p.names|
    requires LaneInv(p.ctx, m, p.execs[m], p.names[m]) && OnlyLane(p.ctx, q.ctx, l) && GoesOn(p.ctx, q.ctx)
    ensures LaneInv(q.ctx, m, p.execs[m], p.names[m])
  {
    LanePartIsKept(p.ctx, q.ctx, m, p.execs[m], p.names[m]);
  }

  lemma AcceptedGrows(s: E.State, step: E.Step, t: E.State)
    requires E.Next(s, step) == Some(t)
    ensures s.work.accepted <= t.work.accepted
    ensures s.shut.closer == E.CloseReturned ==> t.shut.closer == E.CloseReturned
    ensures s.shut.closer == E.Open && step != E.Env(E.OpStartClose) ==> t.shut.closer == E.Open
  {
  }

  // A step that changes one lane, its executor and its names.
  lemma ReplacedLaneKeepsInv(p: Product, l: nat, steps: seq<C.Step>, q: Product)
    requires Inv(p) && l < |p.execs| && C.Exec(p.ctx, steps) == Some(q.ctx) && OnlyLane(p.ctx, q.ctx, l)
    requires |q.execs| == |p.execs| && q.execs == p.execs[l := q.execs[l]]
    requires |q.names| == |p.names| && q.names == p.names[l := q.names[l]]
    requires LaneInv(q.ctx, l, q.execs[l], q.names[l]) && q.ctx.shared.drained == p.ctx.shared.drained
    requires p.execs[l].shut.closer == E.CloseReturned ==> q.execs[l].shut.closer == E.CloseReturned
    requires q.ctx.shared.base == p.ctx.shared.base
    requires p.ctx.shared.base <= l && p.execs[l].shut.closer == E.Open ==> q.execs[l].shut.closer == E.Open
    ensures Inv(q)
  {
    ReachableLanes(p.ctx);
    ContextGoesOn(p.ctx, steps, q.ctx);
    RunGoesOn(p.ctx, steps, q.ctx);
    forall m | 0 <= m < |q.execs| ensures LaneInv(q.ctx, m, q.execs[m], q.names[m]) {
      if m != l { OthersAreKept(p, q, l, m); }
    }
  }

  // What the lane of an executor does while the executor takes a step.
  lemma LaneFollowsLocally(s: C.State, l: nat, e: E.State, names: Names, step: E.Step, f: E.State)
      returns (steps: seq<C.Step>, t: C.State)
    requires CI.LanesOk(s.waits, s.closes, s.lanes) && EI.Inv(e) && Matches(LaneOf(e), s, l, names)
    requires E.Next(e, step) == Some(f) && !step.Sends?
    ensures steps == Following(e, names, l, step)
    ensures C.Exec(s, steps) == Some(t) && Matches(LaneOf(f), t, l, names) && OnlyLane(s, t, l)
  {
    ExecutorIsALane(e, step, f);
    var o := OpOf(step);
    steps := Following(e, names, l, step);
    if o.None? {
      t := s;
      return;
    }
    assert LaneOf(e).jobs != [];
    t := LaneFollows(LaneOf(e), o.value, LaneOf(f), s, l, names);
  }

  /** No step of an executor is held up by its lane: the accompanying steps are enabled, and they
      keep the two in agreement and the other lanes as they are. */
  lemma ExecutorIsFollowed(p: Product, l: nat, step: E.Step, f: E.State) returns (q: Product)
    requires Inv(p) && l < |p.execs| && MayStep(p, l, step) && E.Next(p.execs[l], step) == Some(f)
    ensures Next(p, ExecStep(l, step), q) && q.execs[l] == f
    ensures Matches(LaneOf(f), q.ctx, l, p.names[l]) && OnlyLane(p.ctx, q.ctx, l)
  {
    ReachableLanes(p.ctx);
    assert LaneInv(p.ctx, l, p.execs[l], p.names[l]);
    EI.ReachableInv(p.execs[l]);
    var steps, t := LaneFollowsLocally(p.ctx, l, p.execs[l], p.names[l], step, f);
    q := Product(t, p.execs[l := f], p.names);
  }

  predicate IsLaneStep(step: C.Step) {
    step.LaneRuns? || step.LaneReleases? || step.LaneUntracks? || step.LaneDelivers? || step.LaneFences?
  }

  lemma FollowingIsOfTheLane(e: E.State, names: Names, l: nat, step: E.Step)
    ensures forall k :: 0 <= k < |Following(e, names, l, step)| ==> IsLaneStep(Following(e, names, l, step)[k])
  {
  }

  lemma LaneStepKeepsDrained(s: C.State, step: C.Step, t: C.State)
    requires C.Next(s, step) == Some(t) && IsLaneStep(step)
    ensures t.shared.drained == s.shared.drained && t.shared.base == s.shared.base
  {
  }

  lemma {:induction false} LaneStepsKeepDrained(s: C.State, steps: seq<C.Step>, t: C.State)
    requires C.Exec(s, steps) == Some(t) && forall k :: 0 <= k < |steps| ==> IsLaneStep(steps[k])
    ensures t.shared.drained == s.shared.drained && t.shared.base == s.shared.base
    decreases |steps|
  {
    if steps != [] {
      var u := C.Next(s, steps[0]).value;
      LaneStepKeepsDrained(s, steps[0], u);
      LaneStepsKeepDrained(u, steps[1..], t);
    }
  }

  lemma FollowedLane(s: C.State, l: nat, e: E.State, names: Names, step: E.Step, f: E.State, t: C.State)
    requires C.Reachable(s) && LaneInv(s, l, e, names) && E.Next(e, step) == Some(f) && !step.Sends?
    requires C.Exec(s, Following(e, names, l, step)) == Some(t)
    ensures LaneInv(t, l, f, names) && OnlyLane(s, t, l)
    ensures t.shared.drained == s.shared.drained && t.shared.base == s.shared.base
    ensures e.shut.closer == E.CloseReturned ==> f.shut.closer == E.CloseReturned
    ensures e.shut.closer == E.Open && step != E.Env(E.OpStartClose) ==> f.shut.closer == E.Open
  {
    ReachableLanes(s);
    EI.ReachableInv(e);
    var steps, u := LaneFollowsLocally(s, l, e, names, step, f);
    FollowingIsOfTheLane(e, names, l, step);
    LaneStepsKeepDrained(s, steps, t);
    AcceptedGrows(e, step, f);
    ET.ExecutorGoesOn(e, step, f);
    RunGoesOn(s, steps, t);
    NamesGoOn(s, t, l, e.work.accepted, f.work.accepted, names);
  }

  lemma ExecStepKeepsInv(p: Product, l: nat, step: E.Step, q: Product)
    requires Inv(p) && Next(p, ExecStep(l, step), q)
    ensures Inv(q)
  {
    FollowedLane(p.ctx, l, p.execs[l], p.names[l], step, q.execs[l], q.ctx);
    ReplacedLaneKeepsInv(p, l, Following(p.execs[l], p.names[l], l, step), q);
  }

  // A call that is about to be accepted has no name yet and is not in the lane.
  lemma SenderIsNew(e: E.State, call: nat, f: E.State)
    requires EI.Inv(e) && E.Send(e, call) == Some(f)
    ensures call !in e.work.accepted && call !in LaneOf(e).jobs
    ensures LaneOf(f) == LaneOf(e).(jobs := LaneOf(e).jobs + [call])
    ensures f.work.accepted == e.work.accepted + [call]
    ensures f.shut == e.shut
  {
    assert EI.CallOk(e, call);
    SendIsAccept(e, call, f);
  }

  lemma AcceptedLane(s: C.State, t: C.State, l: nat, e: E.State, names: Names, call: nat, f: E.State, job: C.LaneJob)
    requires LaneInv(s, l, e, names) && E.Send(e, call) == Some(f) && GoesOn(s, t)
    requires Matches(LaneOf(f), t, l, WithName(names, call, job)) && NameOk(t, l, job) && !NameOk(s, l, job)
    ensures LaneInv(t, l, f, WithName(names, call, job)) && f.shut == e.shut
  {
    EI.ReachableInv(e);
    SenderIsNew(e, call, f);
    assert E.Next(e, E.Sends(call)) == Some(f);
    ET.ExecutorGoesOn(e, E.Sends(call), f);
    NamesGoOn(s, t, l, e.work.accepted, f.work.accepted, names);
    NewName(s, t, l, e.work.accepted, f.work.accepted, names, call, job);
  }

  lemma NewName(s: C.State, t: C.State, l: nat, accepted: seq<nat>, more: seq<nat>, names: Names,
                call: nat, job: C.LaneJob)
    requires NamesOk(s, l, accepted, names) && NamesOk(t, l, more, names)
    requires call in more && NameOk(t, l, job) && !NameOk(s, l, job)
    ensures NamesOk(t, l, more, WithName(names, call, job))
  {
  }

  lemma SubmitFrame(s: C.State, wait: nat, t: C.State, l: nat)
    requires C.Submit(s, wait) == Some(t) && s.waits[wait].lane == l
    ensures OnlyLane(s, t, l) && t.shared == s.shared
  {
  }

  lemma WaitEntersLane(s: C.State, t: C.State, l: nat, e: E.State, names: Names, call: nat, f: E.State, wait: nat)
    requires CI.LanesOk(s.waits, s.closes, s.lanes) && LaneInv(s, l, e, names) && E.Send(e, call) == Some(f)
    requires C.Submit(s, wait) == Some(t) && s.waits[wait].lane == l && s.waits[wait].job == C.NotSubmitted
    ensures Matches(LaneOf(f), t, l, WithName(names, call, C.WaitJob(wait)))
  {
    EI.ReachableInv(e);
    SenderIsNew(e, call, f);
    EmptyLaneIsPending(e);
    WaitIsAccepted(LaneOf(e), call, s, l, names, wait, t);
  }

  lemma AcceptedWaitLane(s: C.State, t: C.State, l: nat, e: E.State, names: Names, call: nat, f: E.State, wait: nat)
    requires C.Reachable(s) && LaneInv(s, l, e, names) && E.Send(e, call) == Some(f)
    requires C.Submit(s, wait) == Some(t) && s.waits[wait].lane == l
    ensures LaneInv(t, l, f, WithName(names, call, C.WaitJob(wait))) && f.shut == e.shut
  {
    ReachableLanes(s);
    SubmittedWaitIsNew(s, wait, t, l);
    WaitEntersLane(s, t, l, e, names, call, f, wait);
    AcceptedLane(s, t, l, e, names, call, f, C.WaitJob(wait));
  }

  lemma SubmittedWaitIsNew(s: C.State, wait: nat, t: C.State, l: nat)
    requires C.Reachable(s) && C.Submit(s, wait) == Some(t) && s.waits[wait].lane == l
    ensures GoesOn(s, t) && s.waits[wait].job == C.NotSubmitted
    ensures NameOk(t, l, C.WaitJob(wait)) && !NameOk(s, l, C.WaitJob(wait))
  {
    ReachableWaits(s);
    assert CI.WaitOk(s.waits[wait], |s.handles|, |s.lanes|, s.shared);
  }

  lemma AcceptsWaitKeepsInv(p: Product, l: nat, call: nat, wait: nat, q: Product)
    requires Inv(p) && Next(p, AcceptsWait(l, call, wait), q)
    ensures Inv(q)
  {
    SubmitFrame(p.ctx, wait, q.ctx, l);
    AcceptedWaitLane(p.ctx, q.ctx, l, p.execs[l], p.names[l], call, q.execs[l], wait);
    OneStep(p.ctx, C.Submits(wait), q.ctx);
    ReplacedLaneKeepsInv(p, l, [C.Submits(wait)], q);
  }

  lemma FenceFrame(s: C.State, close: nat, t: C.State, l: nat)
    requires C.SendFence(s, close) == Some(t) && s.closes[close].pc.lane == l
    ensures OnlyLane(s, t, l) && t.shared == s.shared
  {
  }

  lemma SentFenceIsNew(s: C.State, close: nat, t: C.State, l: nat)
    requires C.SendFence(s, close) == Some(t) && s.closes[close].pc.lane == l
    ensures GoesOn(s, t) && NameOk(t, l, C.FenceJob(close)) && !NameOk(s, l, C.FenceJob(close))
  {
  }

  lemma FenceEntersLane(s: C.State, t: C.State, l: nat, e: E.State, names: Names, call: nat, f: E.State, close: nat)
    requires LaneInv(s, l, e, names) && E.Send(e, call) == Some(f)
    requires C.SendFence(s, close) == Some(t) && s.closes[close].pc.lane == l
    ensures Matches(LaneOf(f), t, l, WithName(names, call, C.FenceJob(close)))
  {
    EI.ReachableInv(e);
    SenderIsNew(e, call, f);
    EmptyLaneIsPending(e);
    FenceIsAccepted(LaneOf(e), call, s, l, names, close, t);
  }

  lemma AcceptedFenceLane(s: C.State, t: C.State, l: nat, e: E.State, names: Names, call: nat, f: E.State, close: nat)
    requires LaneInv(s, l, e, names) && E.Send(e, call) == Some(f)
    requires C.SendFence(s, close) == Some(t) && s.closes[close].pc.lane == l
    ensures LaneInv(t, l, f, WithName(names, call, C.FenceJob(close))) && f.shut == e.shut
  {
    SentFenceIsNew(s, close, t, l);
    FenceEntersLane(s, t, l, e, names, call, f, close);
    AcceptedLane(s, t, l, e, names, call, f, C.FenceJob(close));
  }

  lemma AcceptsFenceKeepsInv(p: Product, l: nat, call: nat, close: nat, q: Product)
    requires Inv(p) && Next(p, AcceptsFence(l, call, close), q)
    ensures Inv(q)
  {
    FenceFrame(p.ctx, close, q.ctx, l);
    AcceptedFenceLane(p.ctx, q.ctx, l, p.execs[l], p.names[l], call, q.execs[l], close);
    OneStep(p.ctx, C.SendsFence(close), q.ctx);
    ReplacedLaneKeepsInv(p, l, [C.SendsFence(close)], q);
  }

  // A bind or an unbind enters the executor and leaves the lane as it is.
  lemma SilentEntersLane(s: C.State, l: nat, e: E.State, names: Names, call: nat, f: E.State)
    requires LaneInv(s, l, e, names) && E.Send(e, call) == Some(f)
    ensures LaneInv(s, l, f, names) && f.shut == e.shut
  {
    EI.ReachableInv(e);
    SenderIsNew(e, call, f);
    SilentAcceptMatches(LaneOf(e), call, s, l, names);
    assert E.Next(e, E.Sends(call)) == Some(f);
    ET.ExecutorGoesOn(e, E.Sends(call), f);
  }

  lemma AcceptsSilentKeepsInv(p: Product, l: nat, call: nat, q: Product)
    requires Inv(p) && Next(p, AcceptsSilent(l, call), q)
    ensures Inv(q)
  {
    assert LaneInv(p.ctx, l, p.execs[l], p.names[l]);
    SilentEntersLane(p.ctx, l, p.execs[l], p.names[l], call, q.execs[l]);
    ReplacedLaneKeepsInv(p, l, [], q);
  }

  lemma ClosedMatchIsEmpty(s: C.State, l: nat, e: E.State, names: Names)
    requires LaneInv(s, l, e, names) && e.shut.closer == E.CloseReturned
    ensures s.lanes[l].jobs == []
  {
    EI.ReachableInv(e);
    ClosedExecutorIsEmpty(e);
  }

  // Context.Close goes on to the next lane, in the context machine alone.
  lemma PassIsStep(s: C.State, t: C.State)
    requires s.shared.ctx == C.CtxDraining && s.shared.drained < s.shared.base <= |s.lanes|
    requires s.lanes[s.shared.drained].jobs == []
    requires t == s.(shared := s.shared.(drained := s.shared.drained + 1))
    ensures C.CtxStep(s, C.OpCtxCloseLane) == Some(t)
  {
  }

  lemma CtxStepGoesOn(s: C.State, op: C.CtxOp, t: C.State)
    requires C.Reachable(s) && C.CtxStep(s, op) == Some(t)
    ensures C.Reachable(t)
  {
    var step := C.ClosesContext(op);
    OneStep(s, step, t);
    ContextGoesOn(s, [step], t);
  }

  lemma SharedAlone(s: C.State, sh: C.Shared, l: nat, e: E.State, names: Names)
    requires LaneInv(s, l, e, names)
    ensures LaneInv(s.(shared := sh), l, e, names)
  {
  }

  lemma PassIsReachable(s: C.State, l: nat, e: E.State, names: Names, t: C.State)
    requires C.Reachable(s) && LaneInv(s, l, e, names) && e.shut.closer == E.CloseReturned
    requires s.shared.ctx == C.CtxDraining && l == s.shared.drained < s.shared.base
    requires t == s.(shared := s.shared.(drained := s.shared.drained + 1))
    ensures C.Reachable(t)
  {
    ReachableShared(s);
    ClosedMatchIsEmpty(s, l, e, names);
    PassIsStep(s, t);
    CtxStepGoesOn(s, C.OpCtxCloseLane, t);
  }

  lemma PassKeepsLanes(p: Product, q: Product)
    requires Aligned(p) && LanesInv(p) && q == p.(ctx := p.ctx.(shared := q.ctx.shared))
    ensures Aligned(q) && LanesInv(q)
  {
    forall m | 0 <= m < |q.execs| ensures LaneInv(q.ctx, m, q.execs[m], q.names[m]) {
      SharedAlone(p.ctx, q.ctx.shared, m, p.execs[m], p.names[m]);
    }
  }

  lemma PassKeepsClosers(sh: C.Shared, execs: seq<E.State>)
    requires ClosersOk(sh, execs) && sh.drained < |execs| && execs[sh.drained].shut.closer == E.CloseReturned
    ensures ClosersOk(sh.(drained := sh.drained + 1), execs)
  {
  }

  lemma PassesLaneKeepsInv(p: Product, q: Product)
    requires Inv(p) && Next(p, PassesLane, q)
    ensures Inv(q)
  {
    var l := p.ctx.shared.drained;
    assert C.Reachable(q.ctx) by { PassIsReachable(p.ctx, l, p.execs[l], p.names[l], q.ctx); }
    PassKeepsLanes(p, q);
    PassKeepsClosers(p.ctx.shared, p.execs);
  }

  lemma StepKeepsInv(p: Product, step: Step, q: Product)
    requires Inv(p) && Next(p, step, q)
    ensures Inv(q)
  {
    match step
    case OtherStep(cstep) => OtherStepKeepsInv(p, cstep, q);
    case NewLane(wait, exec) => NewLaneKeepsInv(p, wait, exec, q);
    case ExecStep(l, estep) => ExecStepKeepsInv(p, l, estep, q);
    case AcceptsWait(l, call, wait) => AcceptsWaitKeepsInv(p, l, call, wait, q);
    case AcceptsFence(l, call, close) => AcceptsFenceKeepsInv(p, l, call, close, q);
    case AcceptsSilent(l, call) => AcceptsSilentKeepsInv(p, l, call, q);
    case PassesLane => PassesLaneKeepsInv(p, q);
  }

  // ---- Every run

  ghost predicate Reachable(p: Product) {
    exists steps, mids :: Run(START, steps, mids) && mids[|steps|] == p
  }

  lemma {:induction false} RunKeepsInv(steps: seq<Step>, mids: seq<Product>, k: nat)
    requires Run(START, steps, mids) && k <= |steps|
    ensures Inv(mids[k])
  {
    if k == 0 {
      assert C.Exec(C.INITIAL, []) == Some(C.INITIAL);
    } else {
      RunKeepsInv(steps, mids, k - 1);
      StepKeepsInv(mids[k - 1], steps[k - 1], mids[k]);
    }
  }

  /** Every run of the context with the executors behind its lanes is a run of the context
      machine, so that what is proved of that machine holds of it; and every lane is what its
      executor has accepted and not yet delivered. */
  lemma RunsProject(p: Product)
    requires Reachable(p)
    ensures C.Reachable(p.ctx) && |p.execs| == |p.names| == |p.ctx.lanes|
    ensures forall l :: 0 <= l < |p.execs| ==>
              E.Reachable(p.execs[l]) && Matches(LaneOf(p.execs[l]), p.ctx, l, p.names[l])
  {
    ReachableInv(p);
    forall l | 0 <= l < |p.execs|
      ensures E.Reachable(p.execs[l]) && Matches(LaneOf(p.execs[l]), p.ctx, l, p.names[l])
    {
      assert LaneInv(p.ctx, l, p.execs[l], p.names[l]);
    }
  }

  lemma ReachableInv(p: Product)
    requires Reachable(p)
    ensures Inv(p)
  {
    var steps, mids :| Run(START, steps, mids) && mids[|steps|] == p;
    RunKeepsInv(steps, mids, |steps|);
  }

  /** When the Close of its executor has returned, behind the unbind and whatever waits were
      abandoned, the lane has no job left: what the context machine waits for. */
  lemma ClosedLaneIsEmpty(p: Product, l: nat)
    requires Reachable(p) && l < |p.execs| && p.execs[l].shut.closer == E.CloseReturned
    ensures l < |p.ctx.lanes| && p.ctx.lanes[l].jobs == []
    ensures p.execs[l].work.ran == p.execs[l].work.accepted
  {
    ReachableInv(p);
    assert LaneInv(p.ctx, l, p.execs[l], p.names[l]);
    ET.CloseWaitsForAccepted(p.execs[l]);
    ClosedMatchIsEmpty(p.ctx, l, p.execs[l], p.names[l]);
  }

  /** At the release every executor behind a lane, closed through its unbind like any other, has
      returned from Close with everything it ever accepted run. */
  lemma ReleaseFindsExecutorsClosed(p: Product, ok: bool, restored: bool, l: nat)
    requires Reachable(p) && C.CtxStep(p.ctx, C.OpCtxRelease(ok, restored)).Some? && l < |p.execs|
    ensures p.execs[l].shut.closer == E.CloseReturned && p.execs[l].work.ran == p.execs[l].work.accepted
    ensures l < |p.ctx.lanes| && p.ctx.lanes[l].jobs == []
  {
    ReachableInv(p);
    CS.ReachableInv(p.ctx);
    assert p.ctx.shared.drained == |p.execs|;
    ClosedLaneIsEmpty(p, l);
  }

  // ---- What callers may conclude when their call returns

  // An accepted call that waits for its job is not in the lane any more when it has returned.
  lemma ReturnedCallHasLeft(e: E.State, i: nat)
    requires EI.Inv(e) && i < |e.calls| && ET.WaitsForJob(e.calls[i]) && e.calls[i].pc.Returned?
    ensures i !in LaneOf(e).jobs
  {
    ET.ReturnedCallIsDone(e, i);
  }

  lemma {:induction false} NotNamed(jobs: seq<nat>, names: Names, job: C.LaneJob)
    requires forall i :: i in jobs && i in names ==> names[i] != job
    ensures job !in Named(jobs, names)
  {
    if jobs != [] {
      var front, last := jobs[..|jobs| - 1], jobs[|jobs| - 1];
      assert last in jobs && forall i :: i in front ==> i in jobs;
      NotNamed(front, names, job);
    }
  }

  // Call i of the executor behind lane l carries a job of the context machine.
  predicate Carries(p: Product, l: nat, i: nat, job: C.LaneJob) {
    && l < |p.execs| == |p.names| == |p.ctx.lanes| && i in p.names[l] && p.names[l][i] == job
    && i < |p.execs[l].calls|
  }

  lemma ReturnedJobHasLeft(p: Product, l: nat, i: nat, job: C.LaneJob)
    requires Inv(p) && Carries(p, l, i, job)
    requires ET.WaitsForJob(p.execs[l].calls[i]) && p.execs[l].calls[i].pc.Returned?
    ensures job !in p.ctx.lanes[l].jobs
  {
    assert LaneInv(p.ctx, l, p.execs[l], p.names[l]);
    EI.ReachableInv(p.execs[l]);
    ReturnedCallHasLeft(p.execs[l], i);
    NotNamed(LaneOf(p.execs[l]).jobs, p.names[l], job);
  }

  /** When the call that carries a fence has returned, the fence has run: the return of Do is the
      condition on which Close goes on to the next lane. */
  lemma FenceReturnsRun(p: Product, l: nat, i: nat, c: nat)
    requires Reachable(p) && Carries(p, l, i, C.FenceJob(c))
    requires !p.execs[l].calls[i].cancelled && p.execs[l].calls[i].pc.Returned?
    ensures c < |p.ctx.closes| && C.FenceJob(c) !in p.ctx.lanes[l].jobs
    ensures p.ctx.closes[c].pc.FenceSent? && p.ctx.closes[c].pc.lane == l ==> p.ctx.closes[c].fenced
  {
    ReachableInv(p);
    assert LaneInv(p.ctx, l, p.execs[l], p.names[l]);
    assert NameOk(p.ctx, l, C.FenceJob(c));
    ReturnedJobHasLeft(p, l, i, C.FenceJob(c));
    CP.ReachableFences(p.ctx);
    assert CP.FenceQueued(p.ctx.lanes, c, p.ctx.closes[c]);
  }

  /** When the call that carries a wait has returned without being canceled, its job has been
      delivered. */
  lemma WaitReturnsDelivered(p: Product, l: nat, i: nat, w: nat)
    requires Reachable(p) && Carries(p, l, i, C.WaitJob(w)) && p.execs[l].calls[i].pc.Returned?
    ensures w < |p.ctx.waits|
    ensures p.execs[l].calls[i].cancelled || p.ctx.waits[w].job == C.Delivered
  {
    ReachableInv(p);
    CS.ReachableInv(p.ctx);
    assert LaneInv(p.ctx, l, p.execs[l], p.names[l]);
    assert NameOk(p.ctx, l, C.WaitJob(w));
    if !p.execs[l].calls[i].cancelled {
      ReturnedJobHasLeft(p, l, i, C.WaitJob(w));
    }
  }

  /** A wait that has claimed a lane finds its executor open: the only way its submission is
      refused is its own cancellation, as in the machine. */
  lemma ClaimedLaneIsOpen(p: Product, w: nat)
    requires Reachable(p) && w < |p.ctx.waits| && CI.Claims(p.ctx.waits[w].pc)
    ensures p.ctx.waits[w].lane < |p.execs| && !p.execs[p.ctx.waits[w].lane].shut.closed
  {
    ReachableInv(p);
    ReachableWaits(p.ctx);
    assert CI.WaitOk(p.ctx.waits[w], |p.ctx.handles|, |p.ctx.lanes|, p.ctx.shared);
    var l := p.ctx.waits[w].lane;
    assert LaneInv(p.ctx, l, p.execs[l], p.names[l]);
    EI.ReachableInv(p.execs[l]);
  }
}
