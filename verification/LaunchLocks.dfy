/** The locks of a kernel launch: every distinct resource among the arguments is read-locked
    once while the driver reads the packed handles, and nothing stays locked afterwards. */
module LaunchLocks {
  import opened Arithmetic
  import opened Options

  datatype Error =
    | NilArg | NilResource | ResourceClosed | ContextMismatch | InvalidArgSize
    | NilStream | StreamClosed | InvalidLaunchConfig | NilModule | ModuleClosed | JobRefused | LaunchFailed

  // A buffer, texture or surface argument is a Resource; what another goroutine may have
  // done to it, closing it, is seen when its lock is first taken.
  datatype Arg =
    | Nil
    | NoResource
    | Resource(lock: nat, closed: bool, ctx: nat, handle: int)
    | Scalar(value: int)
    | Raw(isNil: bool, size: int, value: int)

  const INLINE := 16
  const MAX_RAW := 4096
  const MAX_UINT32 := 0xFFFF_FFFF

  // ---- What an argument list means

  function ArgError(a: Arg, ctx: Option<nat>): (r: Option<Error>) {
    match a
    case Nil => Some(NilArg)
    case NoResource => Some(NilResource)
    case Resource(_, closed, owner, _) =>
      if closed then Some(ResourceClosed)
      else if ctx.Some? && owner != ctx.value then Some(ContextMismatch)
      else None
    case Scalar(_) => None
    case Raw(isNil, size, _) =>
      if isNil then Some(NilArg)
      else if size <= 0 || size > MAX_RAW then Some(InvalidArgSize)
      else None
  }

  // The error of the first argument that has one.
  function FirstError(args: seq<Arg>, ctx: Option<nat>): (r: Option<Error>)
    ensures r.None? <==> forall i :: 0 <= i < |args| ==> ArgError(args[i], ctx).None?
  {
    if args == [] then None
    else
      var earlier := FirstError(args[..|args| - 1], ctx);
      if earlier.Some? then earlier else ArgError(args[|args| - 1], ctx)
  }

  // What the errors say about the argument.
  lemma ArgErrorMeans(a: Arg, ctx: Option<nat>)
    ensures ArgError(a, ctx) == Some(NilArg) <==> a.Nil? || (a.Raw? && a.isNil)
    ensures ArgError(a, ctx) == Some(NilResource) <==> a.NoResource?
    ensures ArgError(a, ctx) == Some(ResourceClosed) <==> a.Resource? && a.closed
    ensures ArgError(a, ctx) == Some(ContextMismatch) <==> a.Resource? && !a.closed && ctx !in {None, Some(a.ctx)}
    ensures ArgError(a, ctx) == Some(InvalidArgSize) <==> a.Raw? && !a.isNil && !(1 <= a.size <= 4096)
    ensures ArgError(a, ctx) in {None, Some(NilArg), Some(NilResource), Some(ResourceClosed), Some(ContextMismatch),
                                 Some(InvalidArgSize)}
  {
  }

  // An argument that a launch in the context can pass on; without a context any resource will do.
  predicate Passable(a: Arg, ctx: Option<nat>) {
    && !a.Nil? && !a.NoResource?
    && (a.Resource? ==> !a.closed && ctx in {None, Some(a.ctx)})
    && (a.Raw? ==> !a.isNil && 1 <= a.size <= 4096)
  }

  predicate FirstBad(args: seq<Arg>, ctx: Option<nat>, i: nat) {
    i < |args| && !Passable(args[i], ctx) && forall a :: a in args[..i] ==> Passable(a, ctx)
  }

  /** The arguments are refused exactly when one cannot be passed on, with the error of the first
      such argument. */
  lemma {:induction false} FirstErrorExact(args: seq<Arg>, ctx: Option<nat>)
    ensures FirstError(args, ctx).None? <==> forall a :: a in args ==> Passable(a, ctx)
    ensures FirstError(args, ctx).Some? ==>
              exists i: nat :: FirstBad(args, ctx, i) && ArgError(args[i], ctx) == FirstError(args, ctx)
  {
    if args != [] {
      var earlier, last := args[..|args| - 1], args[|args| - 1];
      FirstErrorExact(earlier, ctx);
      ArgErrorMeans(last, ctx);
      assert args == earlier + [last];
      if FirstError(earlier, ctx).Some? {
        var i: nat :| FirstBad(earlier, ctx, i) && ArgError(earlier[i], ctx) == FirstError(earlier, ctx);
        assert args[..i] == earlier[..i] && FirstBad(args, ctx, i);
      } else if FirstError(args, ctx).Some? {
        assert FirstBad(args, ctx, |args| - 1);
      }
    }
  }

  /** Parameter k is the handle of the k-th argument, or its value. */
  lemma ParamsInOrder(args: seq<Arg>, ctx: Option<nat>, k: nat)
    requires FirstError(args, ctx).None? && k < |args|
    ensures |Params(args)| == |args|
    ensures args[k].Resource? || args[k].Scalar? || args[k].Raw?
    ensures Params(args)[k] == if args[k].Resource? then args[k].handle else args[k].value
  {
    ArgErrorMeans(args[k], ctx);
  }

  lemma {:induction false} ErrorOfPrefix(args: seq<Arg>, ctx: Option<nat>, i: nat)
    requires i <= |args| && FirstError(args[..i], ctx).Some?
    ensures FirstError(args, ctx) == FirstError(args[..i], ctx)
  {
    if i < |args| {
      var shorter := args[..|args| - 1];
      assert shorter[..i] == args[..i];
      ErrorOfPrefix(shorter, ctx, i);
    } else {
      assert args[..i] == args;
    }
  }

  function Param(a: Arg): int {
    match a
    case Resource(_, _, _, handle) => handle
    case Scalar(value) => value
    case Raw(_, _, value) => value
    case Nil => 0
    case NoResource => 0
  }

  function Params(args: seq<Arg>): seq<int> {
    seq(|args|, i requires 0 <= i < |args| => Param(args[i]))
  }

  // The locks of the resources among the arguments, in the order of their first use.
  function FirstUses(args: seq<Arg>): (r: seq<Lock>) {
    if args == [] then []
    else
      var earlier, a := FirstUses(args[..|args| - 1]), args[|args| - 1];
      if a.Resource? && OfResource(a.lock) !in earlier then earlier + [OfResource(a.lock)] else earlier
  }

  // Each resource's lock is there, and only once.
  lemma {:induction false} FirstUsesAreDistinct(args: seq<Arg>)
    ensures forall l :: l in FirstUses(args) <==> exists a :: a in args && a.Resource? && l == OfResource(a.lock)
    ensures forall i, j :: 0 <= i < j < |FirstUses(args)| ==> FirstUses(args)[i] != FirstUses(args)[j]
  {
    if args != [] {
      var earlier, last := args[..|args| - 1], args[|args| - 1];
      FirstUsesAreDistinct(earlier);
      assert args == earlier + [last];
      forall l ensures l in FirstUses(args) <==> exists a :: a in args && a.Resource? && l == OfResource(a.lock) {
        if l in FirstUses(args) && l !in FirstUses(earlier) {
          assert last in args && l == OfResource(last.lock);
        }
      }
    }
  }

  lemma OneMoreArg(args: seq<Arg>, i: nat)
    requires i < |args|
    ensures Params(args[..i + 1]) == Params(args[..i]) + [Param(args[i])]
    ensures var earlier := FirstUses(args[..i]);
            FirstUses(args[..i + 1]) ==
              if args[i].Resource? && OfResource(args[i].lock) !in earlier
              then earlier + [OfResource(args[i].lock)] else earlier
  {
    assert args[..i + 1][..i] == args[..i];
  }

  // ---- Read locks of the launching goroutine

  datatype Lock = OfModule(id: nat) | OfStream(id: nat) | OfResource(id: nat)

  /** The read locks this goroutine holds, in the order it took them. Taking one it already
      holds could wait for ever behind a writer, so no caller may; the launch gives its locks
      back last one first. */
  class LockTable {
    var held: seq<Lock>

    method RLock(l: Lock)
      requires l !in held
      modifies this
      ensures held == old(held) + [l]
    {
      held := held + [l];
    }

    method RUnlock(l: Lock)
      requires held != [] && held[|held| - 1] == l
      modifies this
      ensures held == old(held)[..|old(held)| - 1]
    {
      held := held[..|held| - 1];
    }
  }

  // ---- The builder

  class KernelArgBuilder {
    var ctx: Option<nat>
    var packed: seq<int>
    const inlineLocks: array<Lock>
    var lockCount: nat
    var overflowLocks: seq<Lock>
    var snapshot: bool

    ghost predicate Valid()
      reads this
    {
      inlineLocks.Length == INLINE && |overflowLocks| == if lockCount > INLINE then lockCount - INLINE else 0
    }

    // The locks in the order they were taken.
    ghost function Held(): (s: seq<Lock>)
      reads this, inlineLocks
      requires Valid()
      ensures |s| == lockCount
    {
      inlineLocks[..if lockCount < INLINE then lockCount else INLINE] + overflowLocks
    }

    ghost predicate Clean()
      reads this
    {
      Valid() && lockCount == 0 && packed == [] && ctx == None && !snapshot
    }

    constructor ()
      ensures Clean() && fresh(inlineLocks)
    {
      ctx, packed, lockCount, overflowLocks, snapshot := None, [], 0, [], false;
      inlineLocks := new Lock[INLINE](_ => OfModule(0));
    }

    method AddLock(mu: Lock)
      requires Valid()
      modifies this`lockCount, this`overflowLocks, inlineLocks
      ensures Valid() && Held() == old(Held()) + [mu]
    {
      if lockCount < INLINE {
        inlineLocks[lockCount] := mu;
        lockCount := lockCount + 1;
        return;
      }
      overflowLocks := overflowLocks + [mu];
      lockCount := lockCount + 1;
    }

    method HoldsLock(mu: Lock) returns (r: bool)
      requires Valid()
      ensures r <==> mu in Held()
    {
      ghost var inlineHeld := inlineLocks[..if lockCount < INLINE then lockCount else INLINE];
      var i := 0;
      while i < lockCount && i < INLINE
        invariant i <= lockCount && i <= INLINE
        invariant mu !in inlineHeld[..i]
      {
        if inlineLocks[i] == mu {
          assert inlineHeld[i] == mu;
          return true;
        }
        i := i + 1;
      }
      assert inlineHeld[..i] == inlineHeld;
      var j := 0;
      while j < |overflowLocks|
        invariant j <= |overflowLocks|
        invariant mu !in overflowLocks[..j]
      {
        if overflowLocks[j] == mu { return true; }
        j := j + 1;
      }
      assert overflowLocks[..j] == overflowLocks;
      return false;
    }

    // Lock number i, inline or in the overflow.
    method LockAt(i: nat) returns (mu: Lock)
      requires Valid() && i < lockCount
      ensures mu == Held()[i]
    {
      if i < INLINE { return inlineLocks[i]; }
      return overflowLocks[i - INLINE];
    }

    // Gives back every lock, the last one first. base is what the goroutine holds besides.
    method Release(table: LockTable, ghost base: seq<Lock>)
      requires Valid() && table.held == base + Held()
      modifies table
      ensures table.held == base
    {
      ghost var all := Held();
      var i := lockCount;
      assert all[..i] == all;
      while i > 0
        invariant 0 <= i <= lockCount
        invariant table.held == base + all[..i]
      {
        i := i - 1;
        var mu := LockAt(i);
        table.RUnlock(mu);
        assert table.held == base + all[..i];
      }
    }

    /** appendKernelArg of a resource. Its lock is taken unless the builder holds it already;
        it is kept only when the argument is accepted and the builder is not a snapshot. */
    method AppendResource(a: Arg, table: LockTable, ghost base: seq<Lock>)
      returns (err: Option<Error>)
      requires Valid() && a.Resource? && table.held == base + Held()
      requires OfResource(a.lock) !in base
      modifies this`packed, this`lockCount, this`overflowLocks, inlineLocks, table
      ensures Valid() && table.held == base + Held()
      ensures err == ArgError(a, ctx) && (err.None? <==> !a.closed && ctx in {None, Some(a.ctx)})
      ensures packed == old(packed) + (if err.None? then [a.handle] else [])
      ensures Held() == old(Held()) + (if err.None? && !snapshot && OfResource(a.lock) !in old(Held())
                                        then [OfResource(a.lock)] else [])
    {
      var mu := OfResource(a.lock);
      var held := HoldsLock(mu);
      if !held { table.RLock(mu); }
      if a.closed {
        if !held { table.RUnlock(mu); }
        return Some(ResourceClosed);
      }
      if ctx.Some? && a.ctx != ctx.value {
        if !held { table.RUnlock(mu); }
        return Some(ContextMismatch);
      }
      if snapshot {
        if !held { table.RUnlock(mu); }
      } else if !held {
        AddLock(mu);
      }
      packed := packed + [a.handle];
      return None;
    }

    method Append(a: Arg, table: LockTable, ghost base: seq<Lock>) returns (err: Option<Error>)
      requires Valid() && table.held == base + Held()
      requires a.Resource? ==> OfResource(a.lock) !in base
      modifies this`packed, this`lockCount, this`overflowLocks, inlineLocks, table
      ensures Valid() && table.held == base + Held()
      ensures err == ArgError(a, ctx)
      ensures packed == old(packed) + (if err.None? then [Param(a)] else [])
      ensures Held() == old(Held())
                + (if a.Resource? && err.None? && !snapshot && OfResource(a.lock) !in old(Held())
                                        then [OfResource(a.lock)] else [])
    {
      match a
      case Nil => err := Some(NilArg);
      case NoResource => err := Some(NilResource);
      case Resource(_, _, _, _) => err := AppendResource(a, table, base);
      case Scalar(value) => packed := packed + [value]; err := None;
      case Raw(isNil, size, value) =>
        if isNil { return Some(NilArg); }
        if size <= 0 || size > MAX_RAW { return Some(InvalidArgSize); }
        packed := packed + [value];
        err := None;
    }

    /** The loop over the arguments: it stops at the first error, holding each distinct
        resource lock of the arguments before it once. */
    method AppendAll(args: seq<Arg>, table: LockTable, ghost base: seq<Lock>) returns (err: Option<Error>)
      requires Valid() && lockCount == 0 && packed == [] && table.held == base
      requires forall a :: a in args && a.Resource? ==> OfResource(a.lock) !in base
      modifies this`packed, this`lockCount, this`overflowLocks, inlineLocks, table
      ensures Valid() && table.held == base + Held()
      ensures err == FirstError(args, ctx)
      ensures err.None? ==> packed == Params(args)
      ensures err.None? && !snapshot ==> Held() == FirstUses(args)
      ensures snapshot ==> Held() == []
    {
      var i := 0;
      while i < |args|
        invariant 0 <= i <= |args| && Valid()
        invariant table.held == base + Held()
        invariant FirstError(args[..i], ctx).None?
        invariant packed == Params(args[..i])
        invariant snapshot ==> Held() == []
        invariant !snapshot ==> Held() == FirstUses(args[..i])
      {
        err := Append(args[i], table, base);
        assert args[..i + 1][..i] == args[..i];
        if err.Some? {
          ErrorOfPrefix(args, ctx, i + 1);
          return err;
        }
        OneMoreArg(args, i);
        i := i + 1;
      }
      assert args[..i] == args;
      return None;
    }

    // launchArgState.reset: unlocked and as new.
    method Reset(table: LockTable, ghost base: seq<Lock>)
      requires Valid() && table.held == base + Held()
      modifies this, table
      ensures Clean() && table.held == base
    {
      Release(table, base);
      ctx, packed, lockCount, overflowLocks, snapshot := None, [], 0, [], false;
    }
  }

  // ---- Launching

  datatype LaunchConfig = LaunchConfig(gridX: nat, gridY: nat, gridZ: nat, blockX: nat, blockY: nat, blockZ: nat,
                                       sharedBytes: nat)

  predicate ValidConfig(cfg: LaunchConfig) {
    cfg.gridX > 0 && cfg.gridY > 0 && cfg.gridZ > 0 && cfg.blockX > 0 && cfg.blockY > 0 && cfg.blockZ > 0
  }

  function LaunchConfig1D(n: int, blockSize: int): LaunchConfig {
    if n <= 0 || blockSize <= 0 || blockSize > MAX_UINT32 then LaunchConfig(0, 0, 0, 0, 0, 0, 0)
    else
      var grid := Wrap64(n + blockSize - 1) / blockSize;
      if grid == 0 || grid > MAX_UINT32 then LaunchConfig(0, 0, 0, 0, 0, 0, 0)
      else LaunchConfig(grid, 1, 1, blockSize, 1, 1, 0)
  }

  /** The shape has just enough blocks for n elements; it is refused exactly when an input is
      out of range or even the largest grid is too small. */
  lemma Config1DCoversExactly(n: int, blockSize: int)
    requires n <= MAX_INT && blockSize <= MAX_INT
    ensures var cfg := LaunchConfig1D(n, blockSize);
            && (ValidConfig(cfg) <==> 0 < n && 0 < blockSize <= MAX_UINT32 && n <= MAX_UINT32 * blockSize)
            && (ValidConfig(cfg) ==> (cfg.gridX - 1) * cfg.blockX < n <= cfg.gridX * cfg.blockX)
            && (ValidConfig(cfg) ==> cfg.blockX == blockSize && cfg.gridX <= MAX_UINT32 && cfg.sharedBytes == 0)
            && (ValidConfig(cfg) ==> cfg.gridY == cfg.gridZ == cfg.blockY == cfg.blockZ == 1)
  {
    if 0 < n && 0 < blockSize <= MAX_UINT32 {
      var v := n + blockSize - 1;
      var grid := v / blockSize;
      assert v == grid * blockSize + v % blockSize;
      assert (grid - 1) * blockSize == grid * blockSize - blockSize;
      Apart(grid, MAX_UINT32, blockSize);
      Apart(MAX_UINT32, grid - 1, blockSize);
      if grid > MAX_UINT32 { Apart(MAX_UINT32, grid - 1, blockSize); }
    }
  }

  datatype Module = Module(lock: nat, closed: bool, ctx: nat)

  // What the driver is asked to run: a kernel of the module, on a stream.
  datatype Kernel = Kernel(raw: int, stream: int, cfg: LaunchConfig)

  // What it sees besides: the parameters, and the locks held while it reads them.
  datatype Launched = Launched(kernel: Kernel, params: seq<int>, held: seq<Lock>)

  class Gpu {
    var launches: seq<Launched>

    method CuLaunchKernel(kernel: Kernel, params: seq<int>, table: LockTable)
      modifies this
      ensures launches == old(launches) + [Launched(kernel, params, table.held)]
    {
      launches := launches + [Launched(kernel, params, table.held)];
    }
  }

  // The checks before any lock is taken, and the module's.
  function LaunchError(m: Option<Module>, streamCtx: Option<nat>, cfg: LaunchConfig, args: seq<Arg>): Option<Error> {
    if !ValidConfig(cfg) then Some(InvalidLaunchConfig)
    else if m.None? then Some(NilModule)
    else if streamCtx.Some? && streamCtx.value != m.value.ctx then Some(ContextMismatch)
    else if m.value.closed then Some(ModuleClosed)
    else FirstError(args, Some(m.value.ctx))
  }

  // Everything a launch needs: no empty side, an open module of the stream's context, and
  // arguments that can be passed on in that context.
  predicate Launchable(m: Option<Module>, streamCtx: Option<nat>, cfg: LaunchConfig, args: seq<Arg>) {
    && 0 !in {cfg.gridX, cfg.gridY, cfg.gridZ, cfg.blockX, cfg.blockY, cfg.blockZ}
    && m.Some? && !m.value.closed && streamCtx in {None, Some(m.value.ctx)}
    && forall a :: a in args ==> Passable(a, Some(m.value.ctx))
  }

  /** A launch is refused exactly when something it needs is missing; what is wrong with the shape
      or the module is reported before what is wrong with an argument. */
  lemma LaunchErrorExact(m: Option<Module>, streamCtx: Option<nat>, cfg: LaunchConfig, args: seq<Arg>)
    ensures LaunchError(m, streamCtx, cfg, args).None? <==> Launchable(m, streamCtx, cfg, args)
    ensures LaunchError(m, streamCtx, cfg, args) == Some(InvalidLaunchConfig) <==>
              0 in {cfg.gridX, cfg.gridY, cfg.gridZ, cfg.blockX, cfg.blockY, cfg.blockZ}
    ensures ValidConfig(cfg) ==> (LaunchError(m, streamCtx, cfg, args) == Some(NilModule) <==> m.None?)
    ensures ValidConfig(cfg) && m.Some? && streamCtx !in {None, Some(m.value.ctx)} ==>
              LaunchError(m, streamCtx, cfg, args) == Some(ContextMismatch)
    ensures ValidConfig(cfg) && m.Some? && streamCtx in {None, Some(m.value.ctx)} ==>
              (LaunchError(m, streamCtx, cfg, args) == Some(ModuleClosed) <==> m.value.closed)
  {
    if m.Some? {
      FirstErrorExact(args, Some(m.value.ctx));
      if FirstError(args, Some(m.value.ctx)).Some? {
        var i: nat :| FirstBad(args, Some(m.value.ctx), i)
                 && ArgError(args[i], Some(m.value.ctx)) == FirstError(args, Some(m.value.ctx));
        ArgErrorMeans(args[i], Some(m.value.ctx));
      }
    }
  }

  // What becomes of the job a launch hands to the context: refused, because the context is
  // closed or quarantined or the caller's ctx is canceled before submission, or run.
  datatype Outcome = NotAccepted | DriverFailed | Launches

  /** Function.launch, with a builder from the pool. The goroutine holds at most a stream lock
      when it calls. The driver is called exactly when everything a launch needs is there and the
      context accepts the job; it then sees the packed parameters, and the goroutine holds its own
      locks, the module's and each distinct resource's, once. On return it holds what it held
      before, and the builder is as new, whatever happened. */
  method Launch(m: Option<Module>, raw: int, stream: int, streamCtx: Option<nat>, cfg: LaunchConfig, args: seq<Arg>,
                b: KernelArgBuilder, table: LockTable, gpu: Gpu, outcome: Outcome)
      returns (err: Option<Error>)
    requires b.Clean() && forall l :: l in table.held ==> l.OfStream?
    modifies b, b.inlineLocks, table, gpu
    ensures b.Clean() && table.held == old(table.held)
    ensures err == (var e := LaunchError(m, streamCtx, cfg, args);
                    if e.Some? || outcome.Launches? then e
                    else Some(if outcome.NotAccepted? then JobRefused else LaunchFailed))
    ensures err.None? <==> Launchable(m, streamCtx, cfg, args) && outcome.Launches?
    ensures gpu.launches == old(gpu.launches) +
              (if Launchable(m, streamCtx, cfg, args) && !outcome.NotAccepted?
               then [Launched(Kernel(raw, stream, cfg), Params(args),
                              old(table.held) + [OfModule(m.value.lock)] + FirstUses(args))]
               else [])
  {
    LaunchErrorExact(m, streamCtx, cfg, args);
    if !ValidConfig(cfg) { return Some(InvalidLaunchConfig); }
    if m.None? { return Some(NilModule); }
    if streamCtx.Some? && streamCtx.value != m.value.ctx { return Some(ContextMismatch); }
    table.RLock(OfModule(m.value.lock));
    if m.value.closed {
      table.RUnlock(OfModule(m.value.lock));
      return Some(ModuleClosed);
    }
    ghost var base := table.held;
    b.ctx := Some(m.value.ctx);
    err := b.AppendAll(args, table, base);
    if err.None? {
      err := LaunchKernel(Kernel(raw, stream, cfg), b.packed, table, gpu, outcome);
    }
    b.Reset(table, base);
    table.RUnlock(OfModule(m.value.lock));
  }

  // launchKernel and doJob: an accepted job makes the driver call, a refused one does not.
  method LaunchKernel(kernel: Kernel, params: seq<int>, table: LockTable, gpu: Gpu, outcome: Outcome)
      returns (err: Option<Error>)
    modifies gpu
    ensures err == (match outcome
                    case NotAccepted => Some(JobRefused)
                    case DriverFailed => Some(LaunchFailed)
                    case Launches => None)
    ensures gpu.launches ==
              old(gpu.launches) + (if outcome.NotAccepted? then [] else [Launched(kernel, params, table.held)])
  {
    if outcome.NotAccepted? { return Some(JobRefused); }
    gpu.CuLaunchKernel(kernel, params, table);
    return if outcome.Launches? then None else Some(LaunchFailed);
  }

  datatype Stream = Stream(lock: nat, closed: bool, raw: int, ctx: nat)

  /** LaunchOn: the same on a stream, which is open and locked while the driver is called. */
  method LaunchOn(m: Option<Module>, raw: int, stream: Option<Stream>, cfg: LaunchConfig, args: seq<Arg>,
                  b: KernelArgBuilder, table: LockTable, gpu: Gpu, outcome: Outcome)
      returns (err: Option<Error>)
    requires b.Clean() && table.held == []
    modifies b, b.inlineLocks, table, gpu
    ensures b.Clean() && table.held == []
    ensures err == Some(NilStream) <==> stream.None?
    ensures err == Some(StreamClosed) <==> stream.Some? && stream.value.closed
    ensures err.None? <==>
              && stream.Some? && !stream.value.closed && Launchable(m, Some(stream.value.ctx), cfg, args)
              && outcome.Launches?
    ensures gpu.launches == old(gpu.launches) +
              (if stream.Some? && !stream.value.closed && Launchable(m, Some(stream.value.ctx), cfg, args)
                  && !outcome.NotAccepted?
               then [Launched(Kernel(raw, stream.value.raw, cfg), Params(args),
                              [OfStream(stream.value.lock), OfModule(m.value.lock)] + FirstUses(args))]
               else [])
  {
    if stream.None? { return Some(NilStream); }
    var s := stream.value;
    table.RLock(OfStream(s.lock));
    if s.closed {
      table.RUnlock(OfStream(s.lock));
      return Some(StreamClosed);
    }
    StreamErrorsAreOther(m, Some(s.ctx), cfg, args);
    err := Launch(m, raw, s.raw, Some(s.ctx), cfg, args, b, table, gpu, outcome);
    assert m.Some? ==> [OfStream(s.lock)] + [OfModule(m.value.lock)] == [OfStream(s.lock), OfModule(m.value.lock)];
    table.RUnlock(OfStream(s.lock));
  }

  lemma StreamErrorsAreOther(m: Option<Module>, streamCtx: Option<nat>, cfg: LaunchConfig, args: seq<Arg>)
    ensures LaunchError(m, streamCtx, cfg, args) !in {Some(NilStream), Some(StreamClosed)}
  {
    if m.Some? {
      FirstErrorExact(args, Some(m.value.ctx));
      if FirstError(args, Some(m.value.ctx)).Some? {
        var i: nat :| FirstBad(args, Some(m.value.ctx), i)
                 && ArgError(args[i], Some(m.value.ctx)) == FirstError(args, Some(m.value.ctx));
        ArgErrorMeans(args[i], Some(m.value.ctx));
      }
    }
  }

  /** Pack: the same arguments and errors without a context check, and no lock is held once it
      returns. */
  method Pack(args: seq<Arg>, table: LockTable) returns (r: Option<seq<int>>, err: Option<Error>)
    requires forall l :: l in table.held ==> l.OfStream?
    modifies table
    ensures table.held == old(table.held)
    ensures err == FirstError(args, None)
    ensures err.None? <==> forall a :: a in args ==> Passable(a, None)
    ensures r == if err.None? then Some(Params(args)) else None
  {
    FirstErrorExact(args, None);
    var b := new KernelArgBuilder();
    b.snapshot := true;
    err := b.AppendAll(args, table, table.held);
    r := if err.None? then Some(b.packed) else None;
  }
}
