/** Ordered acquisition of read and write locks.

    A lock is a number: its place in the locking order. Streams come first, then events and
    buffers by their address, the lock of the context last. The locks prefer writers: a reader
    waits as soon as a writer has announced itself, and a second writer waits for the first to
    finish. */
module LockOrder {

  datatype Request = Read(lock: nat) | Write(lock: nat)

  // A thread takes the locks of its plan one by one, works, and gives them back last one first.
  // A writer announces itself before it waits for the readers.
  datatype Thread = Thread(plan: seq<Request>, got: nat, announced: bool, leaving: bool)

  type State = seq<Thread>

  predicate Reads(t: Thread, lock: nat) {
    t.got <= |t.plan| && Read(lock) in t.plan[..t.got]
  }

  predicate Holds(t: Thread, lock: nat) {
    t.got <= |t.plan| && Write(lock) in t.plan[..t.got]
  }

  // Has the lock for writing, or has announced that it wants it.
  predicate Writes(t: Thread, lock: nat) {
    Holds(t, lock) || (t.announced && Wants(t, lock))
  }

  predicate ReaderOn(s: State, lock: nat) { exists i :: 0 <= i < |s| && Reads(s[i], lock) }

  predicate WriterOn(s: State, lock: nat) { exists i :: 0 <= i < |s| && Writes(s[i], lock) }

  predicate Done(t: Thread) { t.leaving && t.got == 0 }

  // The lock a thread needs next, if it needs one.
  predicate Wants(t: Thread, lock: nat) {
    !t.leaving && t.got < |t.plan| && t.plan[t.got].lock == lock
  }

  predicate Enabled(s: State, i: nat)
    requires i < |s|
  {
    var t := s[i];
    if t.leaving then t.got > 0
    else if t.got < |t.plan| then
      match t.plan[t.got]
      case Read(lock) => !WriterOn(s, lock)
      case Write(lock) => if t.announced then !ReaderOn(s, lock) else !WriterOn(s, lock)
    else true
  }

  function Advance(t: Thread): (r: Thread) {
    if t.leaving then (if t.got > 0 then t.(got := t.got - 1) else t)
    else if t.got < |t.plan| then
      if t.plan[t.got].Write? && !t.announced then t.(announced := true)
      else t.(got := t.got + 1, announced := false)
    else t.(leaving := true)
  }

  // A run is the sequence of threads that step.
  ghost predicate Run(s: State, schedule: seq<nat>, end: State)
    decreases schedule
  {
    if schedule == [] then s == end
    else
      var i := schedule[0];
      i < |s| && Enabled(s, i) && Run(s[i := Advance(s[i])], schedule[1..], end)
  }

  // ---- Plans

  predicate Ascending(plan: seq<Request>) {
    forall j, k :: 0 <= j < k < |plan| ==> plan[j].lock < plan[k].lock
  }

  // The order in which lockEvents and lockPitchedPair lock two resources: lower address
  // first, and one lock only when both are the same.
  function LockPair(a: nat, b: nat): (plan: seq<Request>)
    ensures Ascending(plan)
    ensures forall lock :: Read(lock) in plan <==> lock == a || lock == b
    ensures |plan| == 1 <==> a == b
  {
    if a == b then [Read(a)]
    else if a > b then [Read(b), Read(a)]
    else [Read(a), Read(b)]
  }

  // What a thread does with the streams, events and buffers of one context.
  datatype Operation =
    | ElapsedOrCopy(a: nat, b: nat)           // two events, or two pitched buffers
    | RecordOrWait(stream: nat, event: nat)
    | Synchronize(handle: nat)
    | SynchronizeContext
    | CloseHandle(handle: nat)
    | FreeAsync(stream: nat, buffer: nat)
    | CloseContext

  // Where the locks of an operation are placed below the lock of its context.
  predicate Placed(op: Operation, context: nat) {
    match op
    case ElapsedOrCopy(a, b) => a < context && b < context
    case RecordOrWait(stream, event) => stream < event < context
    case Synchronize(handle) => handle < context
    case CloseHandle(handle) => handle < context
    case FreeAsync(stream, buffer) => stream < buffer < context
    case _ => true
  }

  // The locks in the order in which the operation takes them.
  function PlanOf(op: Operation, context: nat): seq<Request> {
    match op
    case ElapsedOrCopy(a, b) => LockPair(a, b) + [Read(context)]
    case RecordOrWait(stream, event) => [Read(stream), Read(event), Read(context)]
    case Synchronize(handle) => [Read(handle), Read(context)]
    case SynchronizeContext => [Read(context)]
    case CloseHandle(handle) => [Write(handle), Read(context)]
    case FreeAsync(stream, buffer) => [Read(stream), Write(buffer), Read(context)]
    case CloseContext => [Write(context)]
  }

  // The handles an operation works with, and the one it takes away.
  predicate Uses(op: Operation, handle: nat) {
    match op
    case ElapsedOrCopy(a, b) => handle in {a, b}
    case RecordOrWait(stream, event) => handle in {stream, event}
    case Synchronize(h) => handle == h
    case FreeAsync(stream, _) => handle == stream
    case _ => false
  }

  predicate TakesAway(op: Operation, handle: nat) {
    op == CloseHandle(handle) || (op.FreeAsync? && op.buffer == handle)
  }

  // Used handles and the context are locked for reading, what is taken away for writing.
  lemma PlanMeans(op: Operation, context: nat, handle: nat)
    requires Placed(op, context) && handle < context
    ensures Read(handle) in PlanOf(op, context) <==> Uses(op, handle)
    ensures Write(handle) in PlanOf(op, context) <==> TakesAway(op, handle)
  {
  }

  // Everything but Context.Close reads the context.
  lemma ContextInPlan(op: Operation, context: nat)
    requires Placed(op, context)
    ensures Write(context) in PlanOf(op, context) <==> op == CloseContext
    ensures Read(context) in PlanOf(op, context) <==> op != CloseContext
  {
  }

  predicate Fresh(t: Thread) {
    t.got == 0 && !t.announced && !t.leaving
  }

  ghost predicate Start(s: State) {
    forall i :: 0 <= i < |s| ==> Ascending(s[i].plan) && Fresh(s[i])
  }

  // ---- What every step keeps

  predicate ThreadOk(t: Thread) {
    && Ascending(t.plan) && t.got <= |t.plan|
    && (t.announced ==> !t.leaving && t.got < |t.plan| && t.plan[t.got].Write?)
  }

  // A writer that holds is alone.
  ghost predicate Excluded(s: State, i: nat, j: nat)
    requires i < |s| && j < |s|
  {
    forall lock :: Writes(s[i], lock) && i != j ==>
                     !Writes(s[j], lock) && (Holds(s[i], lock) ==> !Reads(s[j], lock))
  }

  ghost predicate Inv(s: State) {
    && (forall i :: 0 <= i < |s| ==> ThreadOk(s[i]))
    && (forall i, j :: 0 <= i < |s| && 0 <= j < |s| ==> Excluded(s, i, j))
  }

  // What a thread gains by a step it was waiting for.
  lemma ReadsGrows(t: Thread, lock: nat)
    requires ThreadOk(t)
    ensures ThreadOk(Advance(t))
    ensures Reads(Advance(t), lock) && !Reads(t, lock) ==> Wants(t, lock) && t.plan[t.got].Read?
    ensures Writes(Advance(t), lock) && !Writes(t, lock) ==> Wants(t, lock) && t.plan[t.got].Write? && !t.announced
    ensures Holds(Advance(t), lock) && !Holds(t, lock) ==> Wants(t, lock) && t.plan[t.got].Write? && t.announced
  {
    if !t.leaving && t.got < |t.plan| {
      assert t.plan[..t.got + 1] == t.plan[..t.got] + [t.plan[t.got]];
    } else if t.got > 0 {
      assert t.plan[..t.got] == t.plan[..t.got - 1] + [t.plan[t.got - 1]];
    }
  }

  lemma PairStaysExcluded(s: State, k: nat, i: nat, j: nat)
    requires Inv(s) && k < |s| && Enabled(s, k) && i < |s| && j < |s|
    ensures Excluded(s[k := Advance(s[k])], i, j)
  {
    var next := s[k := Advance(s[k])];
    forall lock | Writes(next[i], lock) && i != j
      ensures !Writes(next[j], lock) && (Holds(next[i], lock) ==> !Reads(next[j], lock))
    {
      assert Excluded(s, i, j) && Excluded(s, j, i);
      ReadsGrows(s[k], lock);
    }
  }

  lemma StepKeepsInv(s: State, k: nat)
    requires Inv(s) && k < |s| && Enabled(s, k)
    ensures Inv(s[k := Advance(s[k])])
  {
    var next := s[k := Advance(s[k])];
    ReadsGrows(s[k], 0);
    forall i, j | 0 <= i < |s| && 0 <= j < |s| ensures Excluded(next, i, j) {
      PairStaysExcluded(s, k, i, j);
    }
  }

  lemma {:induction false} RunKeepsInv(s: State, schedule: seq<nat>, end: State)
    requires Inv(s) && Run(s, schedule, end)
    ensures Inv(end) && |end| == |s|
    decreases schedule
  {
    if schedule != [] {
      var k := schedule[0];
      StepKeepsInv(s, k);
      RunKeepsInv(s[k := Advance(s[k])], schedule[1..], end);
    }
  }

  /** A writer that is inside has the lock to itself: no reader, no other writer. */
  lemma WriterIsAlone(s: State, schedule: seq<nat>, end: State, i: nat, j: nat, lock: nat)
    requires Start(s) && Run(s, schedule, end)
    requires i < |end| && j < |end| && i != j && Holds(end[i], lock)
    ensures !Reads(end[j], lock) && !Writes(end[j], lock)
  {
    RunKeepsInv(s, schedule, end);
    assert Excluded(end, i, j) && Excluded(end, j, i);
  }

  // A thread that has all its locks: between the last lock and the first unlock it works.
  predicate Inside(t: Thread) {
    t.got == |t.plan|
  }

  /** An operation that takes a handle away is never inside together with another one that uses it
      or takes it away, and nothing is inside together with Context.Close. */
  lemma TakenAwayAlone(s: State, schedule: seq<nat>, end: State, i: nat, j: nat,
                       a: Operation, b: Operation, context: nat, handle: nat)
    requires Start(s) && Run(s, schedule, end) && i < |end| && j < |end| && i != j
    requires Inside(end[i]) && end[i].plan == PlanOf(a, context) && Placed(a, context)
    requires Inside(end[j]) && end[j].plan == PlanOf(b, context) && Placed(b, context)
    ensures handle < context && TakesAway(a, handle) ==> !Uses(b, handle) && !TakesAway(b, handle)
    ensures a != CloseContext
  {
    assert end[i].plan[..end[i].got] == end[i].plan && end[j].plan[..end[j].got] == end[j].plan;
    if handle < context && TakesAway(a, handle) {
      PlanMeans(a, context, handle);
      PlanMeans(b, context, handle);
      WriterIsAlone(s, schedule, end, i, j, handle);
    }
    ContextInPlan(b, context);
    if a == CloseContext { WriterIsAlone(s, schedule, end, i, j, context); }
  }

  // ---- Progress

  // A thread that has a lock can step, or waits for a later lock.
  lemma HolderMovesOn(s: State, i: nat, lock: nat)
    requires Inv(s) && i < |s| && (Reads(s[i], lock) || Holds(s[i], lock)) && !Enabled(s, i)
    ensures exists later: nat :: later > lock && Wants(s[i], later)
  {
    var t := s[i];
    assert t.got < |t.plan| && Wants(t, t.plan[t.got].lock);
  }

  // Whoever is stuck at a lock is stuck because of someone who can step, or who waits for a
  // later lock.
  lemma BlameGoesUp(s: State, i: nat, lock: nat) returns (j: nat, later: nat)
    requires Inv(s) && i < |s| && Wants(s[i], lock) && !Enabled(s, i)
    ensures j < |s| && (Enabled(s, j) || (Wants(s[j], later) && later > lock))
  {
    later := lock;
    if ReaderOn(s, lock) {
      j :| 0 <= j < |s| && Reads(s[j], lock);
      if !Enabled(s, j) {
        HolderMovesOn(s, j, lock);
        later :| later > lock && Wants(s[j], later);
      }
    } else {
      j :| 0 <= j < |s| && Writes(s[j], lock);
      if !Enabled(s, j) {
        HolderMovesOn(s, j, lock);
        later :| later > lock && Wants(s[j], later);
      }
    }
  }

  lemma {:induction false} SomeoneMoves(s: State, i: nat, lock: nat, bound: nat) returns (j: nat)
    requires Inv(s) && i < |s| && Wants(s[i], lock)
    requires forall k: nat, l: nat :: k < |s| && Wants(s[k], l) ==> l < bound
    ensures j < |s| && Enabled(s, j)
    decreases bound - lock
  {
    if Enabled(s, i) { return i; }
    var k, later := BlameGoesUp(s, i, lock);
    if Enabled(s, k) { return k; }
    j := SomeoneMoves(s, k, later, bound);
  }

  // Some number is above every wanted lock.
  lemma {:induction false} LocksAreBounded(s: State) returns (bound: nat)
    ensures forall k: nat, l: nat :: k < |s| && Wants(s[k], l) ==> l < bound
  {
    if s == [] { return 0; }
    var last := |s| - 1;
    var b := LocksAreBounded(s[..last]);
    var t := s[last];
    var own := if t.got < |t.plan| then t.plan[t.got].lock else 0;
    bound := if own < b then b else own + 1;
    forall k: nat, l: nat | k < |s| && Wants(s[k], l) ensures l < bound {
      if k < last { assert s[..last][k] == s[k]; }
    }
  }

  /** No deadlock: while a thread is unfinished, some thread can step. */
  lemma AlwaysProgress(s: State, schedule: seq<nat>, end: State, i: nat)
    requires Start(s) && Run(s, schedule, end) && i < |end| && !Done(end[i])
    ensures exists j: nat :: j < |end| && Enabled(end, j)
  {
    RunKeepsInv(s, schedule, end);
    if !Enabled(end, i) {
      var lock := end[i].plan[end[i].got].lock;
      var bound := LocksAreBounded(end);
      var j := SomeoneMoves(end, i, lock, bound);
    }
  }

  // ---- Every run ends

  function Left(t: Thread): nat {
    if t.leaving || t.got >= |t.plan| then (if t.leaving then t.got else t.got + 1)
    else 3 * |t.plan| - 2 * t.got + (if t.announced then 0 else 1)
  }

  function Rank(s: State): nat {
    if s == [] then 0 else Rank(s[..|s| - 1]) + Left(s[|s| - 1])
  }

  lemma {:induction false} RankFalls(s: State, k: nat)
    requires k < |s| && Enabled(s, k)
    ensures Rank(s[k := Advance(s[k])]) < Rank(s)
  {
    assert Left(Advance(s[k])) < Left(s[k]);
    RankOfUpdate(s, k, Advance(s[k]));
  }

  lemma {:induction false} RankOfUpdate(s: State, k: nat, t: Thread)
    requires k < |s|
    ensures Rank(s[k := t]) == Rank(s) - Left(s[k]) + Left(t)
  {
    var last := |s| - 1;
    if k < last {
      assert s[k := t][..last] == s[..last][k := t];
      RankOfUpdate(s[..last], k, t);
    } else {
      assert s[k := t][..last] == s[..last];
    }
  }

  /** Runs are no longer than the work there is, and a run that cannot go on has finished every
      thread and holds no lock. */
  lemma {:induction false} RunsEnd(s: State, schedule: seq<nat>, end: State)
    requires Run(s, schedule, end)
    ensures |schedule| + Rank(end) <= Rank(s)
    decreases schedule
  {
    if schedule != [] {
      RankFalls(s, schedule[0]);
      RunsEnd(s[schedule[0] := Advance(s[schedule[0]])], schedule[1..], end);
    }
  }

  lemma StuckMeansFinished(s: State, schedule: seq<nat>, end: State, i: nat, lock: nat)
    requires Start(s) && Run(s, schedule, end) && i < |end|
    requires forall j: nat :: j < |end| ==> !Enabled(end, j)
    ensures Done(end[i]) && !Reads(end[i], lock) && !Writes(end[i], lock)
  {
    if !Done(end[i]) { AlwaysProgress(s, schedule, end, i); }
  }

  // ---- The operations on one context

  lemma PlansAscend(op: Operation, context: nat)
    requires Placed(op, context)
    ensures Ascending(PlanOf(op, context))
  {
  }

  ghost predicate OfOneContext(s: State, context: nat) {
    forall i :: 0 <= i < |s| ==>
                  Fresh(s[i]) && exists op :: Placed(op, context) && s[i].plan == PlanOf(op, context)
  }

  /** Any number of uses and closes of the streams, events and buffers of a context, together with
      Context.Close, never deadlock on the locks. */
  lemma OneContextProgress(s: State, context: nat, schedule: seq<nat>, end: State, i: nat)
    requires OfOneContext(s, context) && Run(s, schedule, end) && i < |end| && !Done(end[i])
    ensures exists j: nat :: j < |end| && Enabled(end, j)
  {
    forall k | 0 <= k < |s| ensures Ascending(s[k].plan) {
      var op :| Placed(op, context) && s[k].plan == PlanOf(op, context);
      PlansAscend(op, context);
    }
    AlwaysProgress(s, schedule, end, i);
  }

  // ---- Why the order and the single lock are needed

  ghost predicate Deadlock(s: State) {
    && (exists i :: 0 <= i < |s| && !Done(s[i]))
    && (forall i: nat :: i < |s| ==> !Enabled(s, i))
  }

  function Begin(plan: seq<Request>): Thread {
    Thread(plan, 0, false, false)
  }

  const OPPOSITE_READERS: State :=
    [Begin([Read(0), Read(1)]), Begin([Read(1), Read(0)]), Begin([Write(0)]), Begin([Write(1)])]

  // Each reader has its first lock, and both writers have announced themselves.
  const ALL_WAITING: State :=
    [Thread([Read(0), Read(1)], 1, false, false), Thread([Read(1), Read(0)], 1, false, false),
     Thread([Write(0)], 0, true, false), Thread([Write(1)], 0, true, false)]

  lemma AllWaitingIsStuck()
    ensures Deadlock(ALL_WAITING)
  {
    var s := ALL_WAITING;
    assert s[0].plan[..1] == [Read(0)] && s[1].plan[..1] == [Read(1)];
    assert Reads(s[0], 0) && Reads(s[1], 1) && Writes(s[2], 0) && Writes(s[3], 1);
    assert !Done(s[0]);
  }

  // Two readers that lock in opposite orders, with a writer announced at each lock.
  lemma OppositeOrdersDeadlock()
    ensures exists schedule :: Run(OPPOSITE_READERS, schedule, ALL_WAITING)
    ensures Deadlock(ALL_WAITING)
  {
    AllWaitingIsStuck();
    var s0 := OPPOSITE_READERS;
    var s1: State := s0[0 := Advance(s0[0])];
    var s2: State := s1[1 := Advance(s1[1])];
    var s3: State := s2[2 := Advance(s2[2])];
    assert s3[3 := Advance(s3[3])] == ALL_WAITING;
    assert Run(ALL_WAITING, [], ALL_WAITING);
    RunBefore(s3, 3, [], ALL_WAITING);
    RunBefore(s2, 2, [3], ALL_WAITING);
    RunBefore(s1, 1, [2, 3], ALL_WAITING);
    RunBefore(s0, 0, [1, 2, 3], ALL_WAITING);
  }

  // One thread that takes the same read lock twice, with a writer announced in between.
  lemma SecondReadLockDeadlocks()
    ensures exists s, schedule, end ::
              s == [Begin([Read(0), Read(0)]), Begin([Write(0)])] && Run(s, schedule, end) && Deadlock(end)
  {
    var s0: State := [Begin([Read(0), Read(0)]), Begin([Write(0)])];
    var s1 := s0[0 := Advance(s0[0])];
    var s2 := s1[1 := Advance(s1[1])];
    assert s2[0].plan[..1] == [Read(0)];
    assert Reads(s2[0], 0) && Writes(s2[1], 0);
    RunBefore(s1, 1, [], s2);
    RunBefore(s0, 0, [1], s2);
    assert !Done(s2[0]);
  }

  const CONTEXT_FIRST: State :=
    [Begin([Read(1), Write(0)]), Begin(PlanOf(Synchronize(0), 1)), Begin(PlanOf(CloseContext, 1))]

  // A close of a handle that took the lock of the context first, a wait on the handle and a
  // Context.Close: each would wait for the next.
  lemma ContextFirstDeadlocks()
    ensures exists schedule, end :: Run(CONTEXT_FIRST, schedule, end) && Deadlock(end)
  {
    var s0 := CONTEXT_FIRST;
    var s1: State := s0[0 := Advance(s0[0])];
    var s2: State := s1[1 := Advance(s1[1])];
    var s3: State := s2[0 := Advance(s2[0])];
    var s4: State := s3[2 := Advance(s3[2])];
    assert s4[0].plan[..1] == [Read(1)] && s4[1].plan[..1] == [Read(0)];
    assert Reads(s4[0], 1) && Reads(s4[1], 0) && Writes(s4[0], 0) && Writes(s4[2], 1);
    RunBefore(s3, 2, [], s4);
    RunBefore(s2, 0, [2], s4);
    RunBefore(s1, 1, [0, 2], s4);
    RunBefore(s0, 0, [1, 0, 2], s4);
    assert !Done(s4[0]);
  }

  lemma RunBefore(s: State, i: nat, schedule: seq<nat>, end: State)
    requires i < |s| && Enabled(s, i) && Run(s[i := Advance(s[i])], schedule, end)
    ensures Run(s, [i] + schedule, end)
  {
    assert ([i] + schedule)[1..] == schedule;
  }
}
