/** The virtual memory transaction and its retryable teardown.

    The driver is an oracle: call number k succeeds when ok(k) says so. What a driver
    call requires is what CUDA requires of its caller: nothing is freed that is not live,
    and an address range is not freed while it is mapped. */
module VirtualMemory {
  import opened Arithmetic
  import opened Options

  // ---- Rounding the size up

  // roundUp: None on uint64 overflow.
  function RoundUp(v: nat, mult: nat): (r: Option<nat>)
    requires v <= MAX_UINT64 && 0 < mult <= MAX_UINT64
    ensures r.Some? ==> v <= r.value <= MAX_UINT64
  {
    var rest := v % mult;
    if rest == 0 then Some(v)
    else
      var pad := mult - rest;
      if pad > MAX_UINT64 - v then None else Some(v + pad)
  }

  // The result is the least multiple that is large enough, and rounding fails exactly
  // when that multiple does not fit in 64 bits.
  lemma RoundUpIsLeast(v: nat, mult: nat, k: nat)
    requires v <= MAX_UINT64 && 0 < mult <= MAX_UINT64 && v <= k * mult
    ensures RoundUp(v, mult).Some? ==> RoundUp(v, mult).value % mult == 0
    ensures RoundUp(v, mult).Some? ==> RoundUp(v, mult).value <= k * mult
    ensures k * mult <= MAX_UINT64 ==> RoundUp(v, mult).Some?
  {
    var q, rest := v / mult, v % mult;
    assert v == q * mult + rest;
    Apart(q, k, mult);
    Apart(q + 1, k, mult);
    Apart(k, q, mult);
    assert (q + 1) * mult == q * mult + mult;
    RestIsUnique((q + 1) * mult, mult, q + 1, 0);
  }

  // ---- The driver

  // The live handles, the reserved and the mapped ranges, and those the device may read and write.
  datatype Device = Device(handles: set<nat>, reserved: set<nat>, mapped: set<nat>, accessible: set<nat>)

  function WithHandle(d: Device, handle: nat): Device { d.(handles := d.handles + {handle}) }
  function WithoutHandle(d: Device, handle: nat): Device { d.(handles := d.handles - {handle}) }
  function Reserved(d: Device, ptr: nat): Device { d.(reserved := d.reserved + {ptr}) }
  function Freed(d: Device, ptr: nat): Device { d.(reserved := d.reserved - {ptr}) }
  function Mapped(d: Device, ptr: nat): Device { d.(mapped := d.mapped + {ptr}) }
  function Granted(d: Device, ptr: nat): Device { d.(accessible := d.accessible + {ptr}) }

  // Unmapping takes the access away too.
  function Unmapped(d: Device, ptr: nat): Device {
    d.(mapped := d.mapped - {ptr}, accessible := d.accessible - {ptr})
  }

  // The calls in [from, end) that failed, in order.
  function Failures(ok: nat -> bool, from: nat, end: nat): (r: seq<nat>)
    requires from <= end
    ensures |r| <= end - from
    decreases end
  {
    if from == end then []
    else Failures(ok, from, end - 1) + (if ok(end - 1) then [] else [end - 1])
  }

  lemma {:induction false} FailuresSplit(ok: nat -> bool, a: nat, b: nat, c: nat)
    requires a <= b <= c
    ensures Failures(ok, a, c) == Failures(ok, a, b) + Failures(ok, b, c)
    decreases c
  {
    if b < c {
      FailuresSplit(ok, a, b, c - 1);
    }
  }

  class Driver {
    const ok: nat -> bool
    var calls: nat
    var device: Device
    var next: nat
    var sizes: map<nat, nat>      // of the handles and ranges there have been
    var backing: map<nat, nat>    // the handle a range was mapped to

    ghost predicate Valid()
      reads this
    {
      && device.accessible <= device.mapped <= device.reserved
      && (forall h :: h in device.handles ==> h < next)
      && (forall p :: p in device.reserved ==> p < next)
    }

    // The next answer of the driver.
    method Call() returns (success: bool)
      modifies this`calls
      ensures calls == old(calls) + 1
      ensures success == ok(old(calls))
    {
      success := ok(calls);
      calls := calls + 1;
    }

    method MemCreate(size: nat) returns (handle: Option<nat>)
      requires Valid()
      modifies this
      ensures Valid() && calls == old(calls) + 1 && backing == old(backing)
      ensures handle.Some? == ok(old(calls))
      ensures handle.Some? ==> handle.value == old(next) && handle.value !in old(device.handles)
      ensures handle.Some? ==> sizes == old(sizes)[handle.value := size] && next == old(next) + 1
      ensures device == if handle.None? then old(device) else WithHandle(old(device), handle.value)
    {
      var success := Call();
      if !success { return None; }
      handle := Some(next);
      device, sizes, next := WithHandle(device, next), sizes[next := size], next + 1;
    }

    method MemAddressReserve(size: nat) returns (ptr: Option<nat>)
      requires Valid()
      modifies this
      ensures Valid() && calls == old(calls) + 1 && backing == old(backing)
      ensures ptr.Some? == ok(old(calls))
      ensures ptr.Some? ==> ptr.value == old(next) && ptr.value !in old(device.reserved)
      ensures ptr.Some? ==> sizes == old(sizes)[ptr.value := size] && next == old(next) + 1
      ensures device == if ptr.None? then old(device) else Reserved(old(device), ptr.value)
    {
      var success := Call();
      if !success { return None; }
      ptr := Some(next);
      device, sizes, next := Reserved(device, next), sizes[next := size], next + 1;
    }

    // The range or handle has this size.
    predicate Measures(id: nat, size: nat)
      reads this
    {
      id in sizes && sizes[id] == size
    }

    method MemMap(ptr: nat, size: nat, handle: nat) returns (success: bool)
      requires Valid() && ptr in device.reserved && ptr !in device.mapped && handle in device.handles
      requires Measures(ptr, size) && Measures(handle, size)
      modifies this`calls, this`device, this`backing
      ensures Valid() && calls == old(calls) + 1 && success == ok(old(calls))
      ensures device == if success then Mapped(old(device), ptr) else old(device)
      ensures success ==> backing == old(backing)[ptr := handle]
    {
      success := Call();
      if success { device, backing := Mapped(device, ptr), backing[ptr := handle]; }
    }

    method MemSetAccess(ptr: nat, size: nat) returns (success: bool)
      requires Valid() && ptr in device.mapped && Measures(ptr, size)
      modifies this`calls, this`device
      ensures Valid() && calls == old(calls) + 1 && success == ok(old(calls))
      ensures device == if success then Granted(old(device), ptr) else old(device)
    {
      success := Call();
      if success { device := Granted(device, ptr); }
    }

    method MemUnmap(ptr: nat, size: nat) returns (success: bool)
      requires Valid() && ptr in device.mapped && Measures(ptr, size)
      modifies this`calls, this`device
      ensures Valid() && calls == old(calls) + 1 && success == ok(old(calls))
      ensures device == if success then Unmapped(old(device), ptr) else old(device)
    {
      success := Call();
      if success { device := Unmapped(device, ptr); }
    }

    method MemAddressFree(ptr: nat, size: nat) returns (success: bool)
      requires Valid() && ptr in device.reserved && ptr !in device.mapped && Measures(ptr, size)
      modifies this`calls, this`device
      ensures Valid() && calls == old(calls) + 1 && success == ok(old(calls))
      ensures device == if success then Freed(old(device), ptr) else old(device)
    {
      success := Call();
      if success { device := Freed(device, ptr); }
    }

    method MemRelease(handle: nat) returns (success: bool)
      requires Valid() && handle in device.handles
      modifies this`calls, this`device
      ensures Valid() && calls == old(calls) + 1 && success == ok(old(calls))
      ensures device == if success then WithoutHandle(old(device), handle) else old(device)
    {
      success := Call();
      if success { device := WithoutHandle(device, handle); }
    }
  }

  // ---- The acquisition transaction

  datatype Mapping = Mapping(ptr: nat, handle: nat)

  function Report(calls: seq<nat>, call: nat, success: bool): seq<nat> {
    if success then calls else calls + [call]
  }

  lemma TakenBack(s: set<nat>, x: nat)
    requires x !in s
    ensures s + {x} - {x} == s
  {
  }

  // A device with one more range, mapped and open to reads and writes.
  function WithRange(d: Device, ptr: nat): Device {
    Granted(Mapped(Reserved(d, ptr), ptr), ptr)
  }

  // How many calls the steps after the creation make, call n being the reservation.
  function MapCalls(ok: nat -> bool, n: nat): nat {
    if !ok(n) then 1
    else if !ok(n + 1) then 3
    else if ok(n + 2) then 3
    else if ok(n + 3) then 5 else 4
  }

  // Reserve an address range, map the handle and grant access; on failure the range is rolled
  // back as far as the driver lets it, and a range that stays mapped keeps its reservation.
  method MapRange(d: Driver, size: nat, handle: nat) returns (ptr: Option<nat>, errors: seq<nat>)
    requires d.Valid() && handle in d.device.handles && d.Measures(handle, size)
    modifies d
    ensures d.Valid() && d.calls == old(d.calls) + MapCalls(d.ok, old(d.calls))
    ensures d.device.handles == old(d.device.handles)
    ensures errors == Failures(d.ok, old(d.calls), d.calls)
    ensures ptr.Some? <==> errors == []
    ensures ptr.Some? <==> d.ok(old(d.calls)) && d.ok(old(d.calls) + 1) && d.ok(old(d.calls) + 2)
    ensures ptr.Some? ==> ptr.value !in old(d.device.reserved) && d.device == WithRange(old(d.device), ptr.value)
    ensures ptr.Some? ==> d.Measures(ptr.value, size) && d.Measures(handle, size)
    ensures ptr.Some? ==> ptr.value in d.backing && d.backing[ptr.value] == handle
    ensures ptr.None? ==> (d.device == old(d.device) <==> |errors| == 1)
    ensures ptr.None? ==> d.device.accessible == old(d.device.accessible)
    ensures old(d.device.reserved) <= d.device.reserved && old(d.device.mapped) <= d.device.mapped
  {
    ghost var start := d.calls;
    ptr := d.MemAddressReserve(size);
    if ptr.None? { return None, [d.calls - 1]; }
    TakenBack(old(d.device.reserved), ptr.value);
    TakenBack(old(d.device.mapped), ptr.value);
    var mapped := d.MemMap(ptr.value, size, handle);
    if !mapped {
      errors := [d.calls - 1];
      assert errors == Failures(d.ok, start, d.calls);
      var freed := d.MemAddressFree(ptr.value, size);
      return None, Report(errors, d.calls - 1, freed);
    }
    var granted := d.MemSetAccess(ptr.value, size);
    errors := Report([], d.calls - 1, granted);
    assert errors == Failures(d.ok, start, d.calls);
    if !granted {
      var unmapped := d.MemUnmap(ptr.value, size);
      errors := Report(errors, d.calls - 1, unmapped);
      assert errors == Failures(d.ok, start, d.calls);
      if unmapped {
        var freed := d.MemAddressFree(ptr.value, size);
        errors := Report(errors, d.calls - 1, freed);
      }
      return None, errors;
    }
  }

  // With the new handle given back the device is as before exactly if nothing else is left.
  lemma HandleLeft(before: Device, handle: nat, left: Device)
    requires handle !in before.handles && left.handles == WithHandle(before, handle).handles
    ensures WithoutHandle(left, handle) == before <==> left == WithHandle(before, handle)
    ensures left != before && before.handles <= WithoutHandle(left, handle).handles
  {
    TakenBack(before.handles, handle);
  }

  // How many calls that makes with the return of the handle, call n being the reservation, ...
  function MapOrReleaseCalls(ok: nat -> bool, n: nat): nat {
    MapCalls(ok, n) + (if ok(n) && ok(n + 1) && ok(n + 2) then 0 else 1)
  }

  // ... and with its creation, call n being that.
  function AcquireCalls(ok: nat -> bool, n: nat): nat {
    1 + (if ok(n) then MapOrReleaseCalls(ok, n + 1) else 0)
  }

  // Map a new handle to a new range, or give it back.
  method MapOrRelease(d: Driver, ghost before: Device, size: nat, handle: nat)
      returns (ptr: Option<nat>, errors: seq<nat>)
    requires d.Valid() && handle !in before.handles && d.device == WithHandle(before, handle)
    requires d.Measures(handle, size)
    modifies d
    ensures d.Valid() && d.calls == old(d.calls) + MapOrReleaseCalls(d.ok, old(d.calls))
    ensures errors == Failures(d.ok, old(d.calls), d.calls)
    ensures ptr.Some? <==> errors == []
    ensures ptr.Some? <==> d.ok(old(d.calls)) && d.ok(old(d.calls) + 1) && d.ok(old(d.calls) + 2)
    ensures ptr.Some? ==> ptr.value !in before.reserved && d.device == WithRange(old(d.device), ptr.value)
    ensures ptr.Some? ==> d.Measures(ptr.value, size) && d.Measures(handle, size)
    ensures ptr.Some? ==> ptr.value in d.backing && d.backing[ptr.value] == handle
    ensures ptr.None? ==> (d.device == before <==> |errors| == 1)
    ensures ptr.None? ==> d.device.accessible == before.accessible
    ensures before.handles <= d.device.handles
    ensures before.reserved <= d.device.reserved && before.mapped <= d.device.mapped
  {
    ptr, errors := MapRange(d, size, handle);
    if ptr.None? {
      HandleLeft(before, handle, d.device);
      var released := d.MemRelease(handle);
      errors := Report(errors, d.calls - 1, released);
    }
  }

  /** acquireVirtual. Either everything is acquired, the range is mapped to the handle and open to
      reads and writes, and no call failed, or the error names every driver call that failed, in
      order; then the device is exactly as before if and only if no rollback call was among them. */
  method AcquireVirtual(d: Driver, size: nat) returns (r: Option<Mapping>, errors: seq<nat>)
    requires d.Valid()
    modifies d
    ensures d.Valid() && d.calls == old(d.calls) + AcquireCalls(d.ok, old(d.calls))
    ensures errors == Failures(d.ok, old(d.calls), d.calls)
    ensures r.Some? <==> errors == []
    ensures r.Some? ==> r.value.handle !in old(d.device.handles) && r.value.ptr !in old(d.device.reserved)
    ensures r.Some? ==> d.device == WithRange(WithHandle(old(d.device), r.value.handle), r.value.ptr)
    ensures r.Some? ==> d.Measures(r.value.ptr, size) && d.Measures(r.value.handle, size)
    ensures r.Some? ==> r.value.ptr in d.backing && d.backing[r.value.ptr] == r.value.handle
    ensures r.None? ==> (d.device == old(d.device) <==> |errors| == 1)
    ensures r.None? ==> d.device.accessible == old(d.device.accessible)
    ensures old(d.device.handles) <= d.device.handles
    ensures old(d.device.reserved) <= d.device.reserved && old(d.device.mapped) <= d.device.mapped
  {
    ghost var start := d.calls;
    var handle := d.MemCreate(size);
    if handle.None? { return None, [d.calls - 1]; }
    var ptr;
    assert Failures(d.ok, start, start + 1) == [];
    ptr, errors := MapOrRelease(d, old(d.device), size, handle.value);
    FailuresSplit(d.ok, start, start + 1, d.calls);
    return if ptr.Some? then Some(Mapping(ptr.value, handle.value)) else None, errors;
  }

  // ---- The buffer

  datatype AllocError = InvalidLength | SymbolUnavailable | Rejected | DriverFailed(calls: seq<nat>)
  datatype AllocResult = Allocated(buffer: VirtualBuffer) | Refused(error: AllocError)

  /** AllocVirtual for n elements of es bytes. gran is the granularity the driver reports;
      accepted says whether the context still accepts work. A buffer is returned exactly when
      no check and no driver call fails, and its mapping is the requested bytes rounded up to
      the granularity; an argument that fails a check costs no acquisition call. */
  method AllocVirtual(d: Driver, n: int, es: nat, available: bool, accepted: bool, gran: nat)
      returns (r: AllocResult)
    requires d.Valid() && 0 < es <= MAX_UINT64 && n <= MAX_INT && gran <= MAX_UINT64
    modifies d
    ensures d.Valid() && d.calls >= old(d.calls)
    ensures r.Allocated? ==>
              && d.calls == old(d.calls) + 1 + AcquireCalls(d.ok, old(d.calls) + 1) && r.buffer.Usable(d)
              && fresh(r.buffer) && r.buffer.Tracks(d) && r.buffer.Holding() == Held(true, true, true)
              && r.buffer.length == n && !r.buffer.closed
              && r.buffer.bytes == n * es <= MAX_UINT64
              && 0 < gran && Some(r.buffer.size) == RoundUp(n * es, gran)
              && Failures(d.ok, old(d.calls), d.calls) == []
    ensures r.Refused? && !r.error.DriverFailed? ==> d.device == old(d.device)
    ensures r.Refused? && r.error.DriverFailed? ==>
              && r.error.calls == Failures(d.ok, old(d.calls), d.calls) != []
              && (d.device == old(d.device) <==> |r.error.calls| == 1)
    ensures n <= 0 || n * es > MAX_UINT64 || !available || !accepted ==> d.calls == old(d.calls)
    ensures r == Refused(SymbolUnavailable) <==> 0 < n && n * es <= MAX_UINT64 && !available
    ensures r == Refused(Rejected) <==> 0 < n && n * es <= MAX_UINT64 && available && !accepted
    ensures r == Refused(InvalidLength) <==>
              || n <= 0 || n * es > MAX_UINT64
              || (available && accepted && d.ok(old(d.calls)) && (gran == 0 || RoundUp(n * es, gran).None?))
  {
    if n <= 0 { return Refused(InvalidLength); }
    ExceedsByDivision(n, es, MAX_UINT64);
    if n > MAX_UINT64 / es { return Refused(InvalidLength); }
    var bytes := n * es;
    if !available { return Refused(SymbolUnavailable); }
    if !accepted { return Refused(Rejected); }
    ghost var start := d.calls;
    var reported := d.Call();
    if !reported { return Refused(DriverFailed([d.calls - 1])); }
    if gran == 0 { return Refused(InvalidLength); }
    var size := RoundUp(bytes, gran);
    if size.None? { return Refused(InvalidLength); }
    var m, errors := AcquireVirtual(d, size.value);
    FailuresSplit(d.ok, start, start + 1, d.calls);
    assert Failures(d.ok, start, start + 1) == [];
    if m.None? { return Refused(DriverFailed(errors)); }
    var buffer := new VirtualBuffer(m.value, n, bytes, size.value);
    return Allocated(buffer);
  }

  // What a buffer still holds.
  datatype Held = Held(mapped: bool, created: bool, reserved: bool) {
    function Live(): nat {
      (if mapped then 1 else 0) + (if created then 1 else 0) + (if reserved then 1 else 0)
    }
  }

  datatype CloseResult = Closed | NotRun | Partial(calls: seq<nat>)

  class VirtualBuffer {
    const ptr: nat
    const handle: nat
    const length: nat
    const bytes: nat
    const size: nat
    var closed: bool
    var mapped: bool
    var created: bool
    var reserved: bool

    function Holding(): Held
      reads this
    {
      Held(mapped, created, reserved)
    }

    // The flags are the truth about the device, and a closed buffer holds nothing.
    ghost predicate Tracks(d: Driver)
      reads this, d
    {
      && d.Valid()
      && mapped == (ptr in d.device.mapped)
      && created == (handle in d.device.handles)
      && reserved == (ptr in d.device.reserved)
      && d.Measures(ptr, size)
      && (closed ==> !mapped && !created && !reserved)
    }

    // The device can read and write the whole range, which is backed by the buffer's own memory.
    ghost predicate Usable(d: Driver)
      reads this, d
    {
      && ptr in d.device.accessible && d.Measures(ptr, size)
      && handle in d.device.handles && d.Measures(handle, size)
      && ptr in d.backing && d.backing[ptr] == handle
    }

    constructor (m: Mapping, length: nat, bytes: nat, size: nat)
      ensures this.ptr == m.ptr && this.handle == m.handle && this.length == length
      ensures this.bytes == bytes && this.size == size
      ensures !closed && mapped && created && reserved
    {
      this.ptr, this.handle, this.length, this.bytes, this.size := m.ptr, m.handle, length, bytes, size;
      closed, mapped, created, reserved := false, true, true, true;
    }

    // What is left of a device by a buffer that holds what this one holds now.
    function Left(device: Device): Device
      reads this
    {
      var unmapped := if mapped then device else Unmapped(device, ptr);
      var released := if created then unmapped else WithoutHandle(unmapped, handle);
      if reserved then released else Freed(released, ptr)
    }

    /** Close. It only frees what is live (the driver calls require that), reports every call
        that failed, and is done exactly when none failed; everything the device holds for
        others stays. */
    method Close(d: Driver, accepted: bool) returns (r: CloseResult)
      requires Tracks(d)
      modifies this, d`calls, d`device
      ensures Tracks(d)
      ensures old(closed) ==> r == Closed && d.calls == old(d.calls)
      ensures !old(closed) && !accepted ==> r == NotRun && d.calls == old(d.calls)
      ensures old(closed) || !accepted ==> Holding() == old(Holding()) && closed == old(closed)
      ensures !old(closed) && accepted ==> (Holding(), d.calls) == Attempt(old(Holding()), d.ok, old(d.calls))
      ensures !old(closed) && accepted ==>
                r == (var failed := Failures(d.ok, old(d.calls), d.calls);
                      if failed == [] then Closed else Partial(failed))
      ensures closed <==> r == Closed
      ensures d.device == Left(old(d.device))
    {
      if closed { return Closed; }
      if !accepted { return NotRun; }
      var errors := Teardown(d);
      if errors != [] { return Partial(errors); }
      AttemptGivesBack(old(Holding()), d.ok, old(d.calls));
      closed := true;
      return Closed;
    }

    // tryFree for each of the three resources: the call is made only while the resource is live.
    method TryUnmap(d: Driver) returns (errors: seq<nat>)
      requires Tracks(d) && !closed
      modifies this`mapped, d`calls, d`device
      ensures Tracks(d) && d.calls == old(d.calls) + (if old(mapped) then 1 else 0)
      ensures mapped == (old(mapped) && !d.ok(old(d.calls)))
      ensures errors == Failures(d.ok, old(d.calls), d.calls)
      ensures d.device == if mapped then old(d.device) else Unmapped(old(d.device), ptr)
    {
      if !mapped { return []; }
      var done := d.MemUnmap(ptr, size);
      mapped := !done;
      return Report([], d.calls - 1, done);
    }

    method TryRelease(d: Driver) returns (errors: seq<nat>)
      requires Tracks(d) && !closed
      modifies this`created, d`calls, d`device
      ensures Tracks(d) && d.calls == old(d.calls) + (if old(created) then 1 else 0)
      ensures created == (old(created) && !d.ok(old(d.calls)))
      ensures errors == Failures(d.ok, old(d.calls), d.calls)
      ensures d.device == if created then old(d.device) else WithoutHandle(old(d.device), handle)
    {
      if !created { return []; }
      var done := d.MemRelease(handle);
      created := !done;
      return Report([], d.calls - 1, done);
    }

    method TryAddressFree(d: Driver) returns (errors: seq<nat>)
      requires Tracks(d) && !closed && !mapped
      modifies this`reserved, d`calls, d`device
      ensures Tracks(d) && d.calls == old(d.calls) + (if old(reserved) then 1 else 0)
      ensures reserved == (old(reserved) && !d.ok(old(d.calls)))
      ensures errors == Failures(d.ok, old(d.calls), d.calls)
      ensures d.device == if reserved then old(d.device) else Freed(old(d.device), ptr)
    {
      if !reserved { return []; }
      var done := d.MemAddressFree(ptr, size);
      reserved := !done;
      return Report([], d.calls - 1, done);
    }

    // The first two of the three: they do not depend on each other.
    method UnmapAndRelease(d: Driver) returns (errors: seq<nat>)
      requires Tracks(d) && !closed
      modifies this`mapped, this`created, d`calls, d`device
      ensures Tracks(d)
      ensures d.calls == old(d.calls) + (if old(mapped) then 1 else 0) + (if old(created) then 1 else 0)
      ensures mapped == (old(mapped) && !d.ok(old(d.calls)))
      ensures created == (old(created) && !d.ok(if old(mapped) then old(d.calls) + 1 else old(d.calls)))
      ensures errors == Failures(d.ok, old(d.calls), d.calls)
      ensures d.device == var unmapped := if mapped then old(d.device) else Unmapped(old(d.device), ptr);
                          if created then unmapped else WithoutHandle(unmapped, handle)
    {
      ghost var start := d.calls;
      errors := TryUnmap(d);
      ghost var unmapped := d.calls;
      var more := TryRelease(d);
      FailuresSplit(d.ok, start, unmapped, d.calls);
      errors := errors + more;
    }

    // The part of Close that runs on the executor.
    method Teardown(d: Driver) returns (errors: seq<nat>)
      requires Tracks(d) && !closed
      modifies this`mapped, this`created, this`reserved, d`calls, d`device
      ensures Tracks(d) && d.calls >= old(d.calls)
      ensures errors == Failures(d.ok, old(d.calls), d.calls)
      ensures (Holding(), d.calls) == Attempt(old(Holding()), d.ok, old(d.calls))
      ensures d.device == Left(old(d.device))
    {
      ghost var start := d.calls;
      errors := UnmapAndRelease(d);
      if !mapped {
        ghost var released := d.calls;
        var more := TryAddressFree(d);
        FailuresSplit(d.ok, start, released, d.calls);
        errors := errors + more;
      }
    }
  }

  // ---- Retrying Close

  // What one Close attempt leaves, and the number of the next driver call.
  function Attempt(h: Held, ok: nat -> bool, n: nat): (r: (Held, nat)) {
    var n1 := if h.mapped then n + 1 else n;
    var mapped := h.mapped && !ok(n);
    var n2 := if h.created then n1 + 1 else n1;
    var created := h.created && !ok(n1);
    if !mapped && h.reserved then (Held(mapped, created, !ok(n2)), n2 + 1)
    else (Held(mapped, created, h.reserved), n2)
  }

  function Attempts(h: Held, ok: nat -> bool, n: nat, k: nat): (r: (Held, nat))
    decreases k
  {
    if k == 0 then (h, n)
    else var (h1, n1) := Attempt(h, ok, n); Attempts(h1, ok, n1, k - 1)
  }

  // A mapping is inside a reservation.
  predicate Sound(h: Held) { h.mapped ==> h.reserved }

  // Each successful call of one attempt gives back one resource, and an attempt that leaves
  // something has a failed call.
  lemma AttemptGivesBack(h: Held, ok: nat -> bool, n: nat)
    requires Sound(h)
    ensures var (h1, n1) := Attempt(h, ok, n);
            && Sound(h1) && n <= n1
            && h1.Live() + (n1 - n) - |Failures(ok, n, n1)| == h.Live()
            && (h1.Live() > 0 ==> Failures(ok, n, n1) != [])
            && (h1.mapped ==> h.mapped) && (h1.created ==> h.created) && (h1.reserved ==> h.reserved)
  {
    var (h1, n1) := Attempt(h, ok, n);
    var a := if h.mapped then n + 1 else n;
    var b := if h.created then a + 1 else a;
    FailuresSplit(ok, n, a, n1);
    FailuresSplit(ok, a, b, n1);
  }

  /** Over any number of Close attempts and any answers of the driver: the successful calls
      are exactly as many as the resources given back, and after k attempts that did not
      finish there were at least k failed calls. */
  lemma {:induction false} RetryingGivesBackOnce(h: Held, ok: nat -> bool, n: nat, k: nat)
    requires Sound(h)
    ensures var (h1, n1) := Attempts(h, ok, n, k);
            && Sound(h1) && n <= n1
            && h1.Live() + (n1 - n) - |Failures(ok, n, n1)| == h.Live()
            && (h1.Live() > 0 ==> |Failures(ok, n, n1)| >= k)
    decreases k
  {
    if k > 0 {
      var (h1, n1) := Attempt(h, ok, n);
      AttemptGivesBack(h, ok, n);
      RetryingGivesBackOnce(h1, ok, n1, k - 1);
      var (h2, n2) := Attempts(h1, ok, n1, k - 1);
      FailuresSplit(ok, n, n1, n2);
      StaysGivenBack(h1, ok, n1, k - 1);
    }
  }

  // What was given back stays given back.
  lemma {:induction false} StaysGivenBack(h: Held, ok: nat -> bool, n: nat, k: nat)
    requires Sound(h)
    ensures var h1 := Attempts(h, ok, n, k).0;
            && (h1.mapped ==> h.mapped) && (h1.created ==> h.created) && (h1.reserved ==> h.reserved)
            && h1.Live() <= h.Live()
    decreases k
  {
    if k > 0 {
      AttemptGivesBack(h, ok, n);
      var (h1, n1) := Attempt(h, ok, n);
      StaysGivenBack(h1, ok, n1, k - 1);
    }
  }

  // A driver that stops failing lets the next attempt finish.
  lemma RecoveredDriverFinishes(h: Held, ok: nat -> bool, n: nat)
    requires Sound(h) && forall k :: n <= k ==> ok(k)
    ensures Attempt(h, ok, n).0 == Held(false, false, false)
    ensures Attempt(h, ok, n).1 == n + h.Live()
  {
  }
}
