/** The pitched 2D buffer and the 3D volume: allocation guards and copies. The pitch the driver
    returns is at least the bytes of a row. */
module PitchedBuffers {
  import opened Arithmetic
  import opened DeviceMemory
  import opened Options
  import opened PitchedCopy

  // ---- Element counts in Go's int

  // PitchedBuffer.elements, for positive sides.
  function Elements2D(width: nat, height: nat): (r: Option<nat>)
    requires 0 < width && 0 < height
  {
    if width > MAX_INT / height then None else Some(width * height)
  }

  // Volume.elements.
  function Elements3D(width: nat, height: nat, depth: nat): (r: Option<nat>)
    requires 0 < width && 0 < height && 0 < depth
  {
    if width > MAX_INT / height then None
    else
      var plane := width * height;
      if plane > MAX_INT / depth then None else Some(plane * depth)
  }

  lemma Elements2DExact(width: nat, height: nat)
    requires 0 < width && 0 < height
    ensures Elements2D(width, height) == if width * height <= MAX_INT then Some(width * height) else None
  {
    ExceedsByDivision(width, height, MAX_INT);
  }

  lemma ProductGrows(a: nat, b: nat)
    requires 0 < b
    ensures a <= a * b
  {
    Apart(1, b, a);
    assert 1 * a == a && b * a == a * b;
  }

  // elements reports exactly the counts that do not fit an int.
  lemma Elements3DExact(width: nat, height: nat, depth: nat)
    requires 0 < width && 0 < height && 0 < depth
    ensures Elements3D(width, height, depth)
         == if width * height * depth <= MAX_INT then Some(width * height * depth) else None
  {
    ExceedsByDivision(width, height, MAX_INT);
    ExceedsByDivision(width * height, depth, MAX_INT);
    ProductGrows(width * height, depth);
  }

  // ---- Allocation guards

  // AllocPitched looks at one row only.
  predicate PitchedGuard(width: int, height: int, es: nat)
    requires 0 < es
    ensures PitchedGuard(width, height, es) ==> 0 < width * es
  {
    0 < width && 0 < height && width <= MAX_UINT64 / es
  }

  // AllocVolume, in Go's 64-bit arithmetic.
  predicate VolumeGuard(width: int, height: int, depth: int, es: nat)
    requires 0 < es
  {
    && 0 < width && 0 < height && 0 < depth
    && width <= MAX_UINT64 / es
    && width <= MAX_INT / height && width * height <= MAX_INT / depth
    && var widthBytes := Wrap64(width * es);
       RowsFit(width, height, depth);
       var rows := Wrap64(height * depth);
       widthBytes <= MAX_UINT64 / rows
  }

  // The product of rows neither wraps nor becomes zero once the count guards have passed.
  lemma RowsFit(width: nat, height: nat, depth: nat)
    requires 0 < width && 0 < height && 0 < depth
    requires width <= MAX_INT / height && width * height <= MAX_INT / depth
    ensures 0 < height * depth <= MAX_INT && Wrap64(height * depth) == height * depth
    ensures width * height * depth <= MAX_INT
  {
    ExceedsByDivision(width * height, depth, MAX_INT);
    assert width * height * depth == height * depth * width by {
      assert width * height * depth == width * (height * depth);
    }
    ProductGrows(height * depth, width);
    ProductGrows(height, depth);
  }

  lemma CountGuard(width: nat, height: nat, depth: nat)
    requires 0 < width && 0 < height && 0 < depth
    ensures width <= MAX_INT / height && width * height <= MAX_INT / depth <==> width * height * depth <= MAX_INT
  {
    ExceedsByDivision(width, height, MAX_INT);
    ExceedsByDivision(width * height, depth, MAX_INT);
    ProductGrows(width * height, depth);
  }

  lemma SizeGuard(widthBytes: nat, rows: nat)
    requires 0 < rows
    ensures widthBytes <= MAX_UINT64 && Wrap64(widthBytes) <= MAX_UINT64 / rows <==> widthBytes * rows <= MAX_UINT64
  {
    ExceedsByDivision(widthBytes, rows, MAX_UINT64);
    ProductGrows(widthBytes, rows);
  }

  // Positive sides, a count that fits an int, and a packed size that fits 64 bits.
  predicate VolumeFits(width: int, height: int, depth: int, es: nat) {
    && 0 < width && 0 < height && 0 < depth
    && width * height * depth <= MAX_INT
    && (width * es) * (height * depth) <= MAX_UINT64
  }

  /** AllocVolume's guards accept exactly the volumes that fit, and every accepted volume has a
      well-defined element count. */
  lemma VolumeGuardExact(width: int, height: int, depth: int, es: nat)
    requires 0 < es
    ensures VolumeGuard(width, height, depth, es) <==> VolumeFits(width, height, depth, es)
    ensures VolumeFits(width, height, depth, es) ==>
              Elements3D(width, height, depth) == Some(width * height * depth)
  {
    if 0 < width && 0 < height && 0 < depth {
      Elements3DExact(width, height, depth);
      CountGuard(width, height, depth);
      if width * height * depth <= MAX_INT {
        RowsFit(width, height, depth);
        var widthBytes, rows := width * es, height * depth;
        SizeGuard(widthBytes, rows);
        ExceedsByDivision(width, es, MAX_UINT64);
      }
    }
  }

  /** AllocPitched promises to reject byte-size overflow and does not: it accepts sides whose
      element count fits an int and whose packed size exceeds 64 bits, and sides without an
      element count. */
  lemma PitchedGuardIsTooWeak()
    ensures exists width, height ::
              && PitchedGuard(width, height, 8) && width <= MAX_INT && height <= MAX_INT
              && width * height <= MAX_INT && (width * 8) * height > MAX_UINT64
    ensures exists width, height ::
              && PitchedGuard(width, height, 1) && width <= MAX_INT && height <= MAX_INT
              && Elements2D(width, height) == None
  {
    var wide := 0x1_0000_0000;
    Elements2DExact(wide, wide);
    assert PitchedGuard(wide, wide, 1);
    var side := 0x8000_0000;
    assert PitchedGuard(side, side, 8) && side * side <= MAX_INT && (side * 8) * side > MAX_UINT64;
  }

  /** Exactly one check is missing, the one AllocVolume makes: the accepted sides without
      byte-size overflow are those whose height passes it. */
  lemma PitchedGuardExact(width: int, height: int, es: nat)
    requires 0 < es
    ensures (PitchedGuard(width, height, es) && height <= MAX_UINT64 / (width * es)) <==>
              0 < width && 0 < height && (width * es) * height <= MAX_UINT64
  {
    if 0 < width && 0 < height {
      ExceedsByDivision(width, es, MAX_UINT64);
      ExceedsByDivision(height, width * es, MAX_UINT64);
      ProductGrows(width * es, height);
    }
  }

  // What a host slice can be: a count in an int, and bytes in the address space.
  predicate HostSlice(count: nat, es: nat) {
    count <= MAX_INT && count * es <= MAX_UINT64
  }

  /** A host copy can fill an accepted pitched buffer exactly when the count fits an int and the
      missing check holds; these are the guards AllocVolume has for a volume of depth one. */
  lemma PitchedHostCopyExact(width: int, height: int, es: nat)
    requires 0 < es && PitchedGuard(width, height, es)
    ensures (exists n: nat :: HostSlice(n, es) && Elements2D(width, height) == Some(n)) <==>
              width <= MAX_INT / height && height <= MAX_UINT64 / (width * es)
    ensures (exists n: nat :: HostSlice(n, es) && Elements2D(width, height) == Some(n)) <==>
              VolumeGuard(width, height, 1, es)
  {
    PitchedGuardExact(width, height, es);
    VolumeGuardExact(width, height, 1, es);
    Elements2DExact(width, height);
    ExceedsByDivision(width, height, MAX_INT);
    var n := width * height;
    assert n * es == (width * es) * height;
    assert HostSlice(n, es) && Elements2D(width, height) == Some(n) <==> n <= MAX_INT && n * es <= MAX_UINT64;
  }

  // ---- Rows in device memory

  // The rows of an allocation lie inside it.
  lemma RowsInside(mem: seq<Byte>, r: Region, width: nat, rows: nat)
    requires width <= r.pitch && r.base + rows * r.pitch <= |mem|
    ensures Fits(mem, r, width, rows)
  {
    forall y: nat | y < rows ensures r.Row(y) + width <= |mem| {
      Apart(y, rows, r.pitch);
    }
  }

  // Two memories that differ in the rows of a layout at most.
  ghost predicate SameOutside(m1: seq<Byte>, m2: seq<Byte>, r: Region, width: nat, rows: nat) {
    && |m1| == |m2|
    && forall k: nat :: k < |m1| && !InRows(k, r, width, rows) ==> m1[k] == m2[k]
  }

  lemma CopyStaysInRows(src: seq<Byte>, from: Region, dst: seq<Byte>, onto: Region, width: nat, rows: nat)
    requires Fits(src, from, width, rows) && Fits(dst, onto, width, rows)
    ensures SameOutside(dst, Copy2D(src, from, dst, onto, width, rows), onto, width, rows)
  {
    forall k: nat | k < |dst| && !InRows(k, onto, width, rows)
      ensures dst[k] == Copy2D(src, from, dst, onto, width, rows)[k]
    {
      CopyKeepsTheRest(src, from, dst, onto, width, rows, k);
    }
  }

  // What a copy out of, or into, packed host memory does to both sides.
  lemma HostCopies(host: seq<Byte>, mem: seq<Byte>, r: Region, width: nat, rows: nat)
    requires |host| == width * rows && width <= r.pitch && Fits(mem, r, width, rows)
    ensures Fits(host, Region(0, width), width, rows)
    ensures Packed(Copy2D(host, Region(0, width), mem, r, width, rows), r, width, rows) == host
    ensures Copy2D(mem, r, host, Region(0, width), width, rows) == Packed(mem, r, width, rows)
    ensures SameOutside(mem, Copy2D(host, Region(0, width), mem, r, width, rows), r, width, rows)
  {
    PackedIsItself(host, width, rows);
    CopyMovesContents(host, Region(0, width), mem, r, width, rows);
    CopyMovesContents(mem, r, host, Region(0, width), width, rows);
    PackedIsItself(Copy2D(mem, r, host, Region(0, width), width, rows), width, rows);
    CopyStaysInRows(host, Region(0, width), mem, r, width, rows);
  }

  // A place in the rows of a layout is inside its allocation.
  lemma RowsAreInside(k: nat, r: Region, width: nat, rows: nat)
    requires width <= r.pitch
    ensures InRows(k, r, width, rows) ==> r.base <= k < r.base + rows * r.pitch
  {
    if InRows(k, r, width, rows) {
      var y: nat :| y < rows && r.Row(y) <= k < r.Row(y) + width;
      Apart(y, rows, r.pitch);
    }
  }

  // Rows of one allocation are not touched by a change inside the rows of another.
  lemma OthersKeepTheirContents(m1: seq<Byte>, m2: seq<Byte>, changed: Region, other: Region,
                                w1: nat, rows1: nat, w2: nat, rows2: nat)
    requires SameOutside(m1, m2, changed, w1, rows1) && w1 <= changed.pitch && w2 <= other.pitch
    requires Fits(m1, other, w2, rows2) && Fits(m2, other, w2, rows2)
    requires changed.base + rows1 * changed.pitch <= other.base || other.base + rows2 * other.pitch <= changed.base
    ensures Packed(m1, other, w2, rows2) == Packed(m2, other, w2, rows2)
  {
    forall y: nat | y < rows2
      ensures m1[other.Row(y)..other.Row(y) + w2] == m2[other.Row(y)..other.Row(y) + w2]
    {
      RowStays(m1, m2, changed, other, w1, rows1, w2, rows2, y);
    }
    PackedDepends(m1, m2, other, w2, rows2);
  }

  lemma RowStays(m1: seq<Byte>, m2: seq<Byte>, changed: Region, other: Region,
                 w1: nat, rows1: nat, w2: nat, rows2: nat, y: nat)
    requires SameOutside(m1, m2, changed, w1, rows1) && w1 <= changed.pitch && w2 <= other.pitch
    requires changed.base + rows1 * changed.pitch <= other.base || other.base + rows2 * other.pitch <= changed.base
    requires y < rows2 && other.Row(y) + w2 <= |m1|
    ensures m1[other.Row(y)..other.Row(y) + w2] == m2[other.Row(y)..other.Row(y) + w2]
  {
    var start := other.Row(y);
    Apart(y, rows2, other.pitch);
    assert other.base <= start && start + w2 <= other.base + rows2 * other.pitch;
    forall k: nat | start <= k < start + w2 ensures m1[k] == m2[k] {
      RowsAreInside(k, changed, w1, rows1);
    }
  }

  class PitchedBuffer {
    const device: Device
    const ptr: nat
    const pitch: nat
    const es: nat
    const width: nat
    const height: nat
    var closed: bool

    function Region(): Region { PitchedCopy.Region(ptr, pitch) }

    function WidthBytes(): nat { width * es }

    ghost predicate Valid()
      reads device
    {
      && 0 < es && 0 < width && 0 < height && WidthBytes() <= pitch
      && ptr + height * pitch <= |device.memory|
      && Fits(device.memory, Region(), WidthBytes(), height)
    }

    // The elements, row after row.
    ghost function Contents(): seq<Byte>
      reads device
      requires Valid()
    {
      Packed(device.memory, Region(), WidthBytes(), height)
    }

    constructor (device: Device, ptr: nat, pitch: nat, es: nat, width: nat, height: nat)
      requires 0 < es && 0 < width && 0 < height && width * es <= pitch
      requires ptr + height * pitch <= |device.memory|
      ensures this.device == device && this.ptr == ptr && this.pitch == pitch && this.es == es
      ensures this.width == width && this.height == height && !closed && Valid()
    {
      this.device, this.ptr, this.pitch, this.es := device, ptr, pitch, es;
      this.width, this.height, closed := width, height, false;
      new;
      RowsInside(device.memory, Region(), WidthBytes(), height);
    }

    /** CopyFrom a host slice of count elements. */
    method CopyFrom(src: seq<Byte>, count: nat, accepted: bool) returns (r: Status)
      requires Valid() && |src| == count * es
      modifies device
      ensures Valid()
      ensures closed <==> r == BufferClosed
      ensures !closed && width * height > MAX_INT <==> r == InvalidLength
      ensures !closed && width * height <= MAX_INT && count != width * height <==> r == LengthMismatch
      ensures r != OutOfRange && r != ContextMismatch
      ensures r == Ok ==> Contents() == src
      ensures r in {Ok, NotAccepted, Failed} ==> r == Outcome(accepted, device.ok(old(device.calls)))
      ensures SameOutside(old(device.memory), device.memory, Region(), WidthBytes(), height)
      ensures r != Ok ==> device.memory == old(device.memory)
      ensures device.calls == old(device.calls) + (if r in {Ok, Failed} then 1 else 0)
    {
      Elements2DExact(width, height);
      if closed { return BufferClosed; }
      var n := Elements2D(width, height);
      if n.None? { return InvalidLength; }
      if count != n.value { return LengthMismatch; }
      assert |src| == WidthBytes() * height by { assert width * height * es == (width * es) * height; }
      HostCopies(src, device.memory, Region(), WidthBytes(), height);
      if !accepted { return NotAccepted; }
      var success := device.Call();
      if !success { return Failed; }
      device.memory := Copy2D(src, PitchedCopy.Region(0, WidthBytes()), device.memory, Region(), WidthBytes(), height);
      return Ok;
    }

    /** CopyTo a host slice of count elements. */
    method CopyTo(dst: array<Byte>, count: nat, accepted: bool) returns (r: Status)
      requires Valid() && dst.Length == count * es
      modifies device`calls, dst
      ensures Valid() && Contents() == old(Contents())
      ensures closed <==> r == BufferClosed
      ensures !closed && width * height > MAX_INT <==> r == InvalidLength
      ensures !closed && width * height <= MAX_INT && count != width * height <==> r == LengthMismatch
      ensures r != OutOfRange && r != ContextMismatch
      ensures r == Ok ==> dst[..] == Contents()
      ensures r in {Ok, NotAccepted, Failed} ==> r == Outcome(accepted, device.ok(old(device.calls)))
      ensures r != Ok ==> dst[..] == old(dst[..])
      ensures device.calls == old(device.calls) + (if r in {Ok, Failed} then 1 else 0)
    {
      Elements2DExact(width, height);
      if closed { return BufferClosed; }
      var n := Elements2D(width, height);
      if n.None? { return InvalidLength; }
      if count != n.value { return LengthMismatch; }
      assert dst.Length == WidthBytes() * height by { assert width * height * es == (width * es) * height; }
      HostCopies(dst[..], device.memory, Region(), WidthBytes(), height);
      if !accepted { return NotAccepted; }
      var success := device.Call();
      if !success { return Failed; }
      var copied := Copy2D(device.memory, Region(), dst[..], PitchedCopy.Region(0, WidthBytes()), WidthBytes(), height);
      forall i | 0 <= i < dst.Length { dst[i] := copied[i]; }
      assert dst[..] == copied;
      return Ok;
    }

    // Two allocations of one context do not overlap; a buffer may be copied onto itself.
    predicate Disjoint(other: PitchedBuffer) {
      || other == this
      || ptr + height * pitch <= other.ptr
      || other.ptr + other.height * other.pitch <= ptr
    }

    /** CopyToDevice: the contents arrive at the other buffer's pitch, and the source keeps its
        own. It needs no element count, so it also serves the buffers host copies refuse. */
    method CopyToDevice(dst: PitchedBuffer, accepted: bool) returns (r: Status)
      requires Valid() && dst.Valid() && dst.es == es && (dst.device == device ==> Disjoint(dst))
      modifies device
      ensures Valid() && dst.Valid()
      ensures closed || dst.closed <==> r == BufferClosed
      ensures !closed && !dst.closed && dst.device != device <==> r == ContextMismatch
      ensures r == LengthMismatch <==> !closed && !dst.closed && dst.device == device
                                       && (dst.width != width || dst.height != height)
      ensures r in {Ok, NotAccepted, Failed} ==> r == Outcome(accepted, device.ok(old(device.calls)))
      ensures r != InvalidLength && r != OutOfRange
      ensures r == Ok ==> dst.Contents() == old(Contents())
      ensures Contents() == old(Contents())
      ensures dst.device == device ==>
                SameOutside(old(device.memory), device.memory, dst.Region(), dst.WidthBytes(), dst.height)
      ensures r != Ok ==> device.memory == old(device.memory)
      ensures device.calls == old(device.calls) + (if r in {Ok, Failed} then 1 else 0)
    {
      if closed || dst.closed { return BufferClosed; }
      if dst.device != device { return ContextMismatch; }
      if dst.width != width || dst.height != height { return LengthMismatch; }
      ghost var before := device.memory;
      if !accepted { return NotAccepted; }
      var success := device.Call();
      if !success { return Failed; }
      CopyMovesContents(before, Region(), before, dst.Region(), WidthBytes(), height);
      CopyStaysInRows(before, Region(), before, dst.Region(), WidthBytes(), height);
      device.memory := Copy2D(device.memory, Region(), device.memory, dst.Region(), WidthBytes(), height);
      if dst != this {
        OthersKeepTheirContents(before, device.memory, dst.Region(), Region(),
                                WidthBytes(), height, WidthBytes(), height);
      }
      return Ok;
    }
  }

  datatype Allocation<T> = Allocated(buffer: T) | Refused(error: Status)

  /** AllocPitched; pitch is the pitch the driver would choose. */
  method AllocPitched(device: Device, width: int, height: int, es: nat, pitch: nat, accepted: bool)
      returns (r: Allocation<PitchedBuffer>)
    requires 0 < es && width * es <= pitch
    modifies device
    ensures r == Refused(InvalidLength) <==> !(0 < width && 0 < height && width * es <= MAX_UINT64)
    ensures r.Refused? && r.error != InvalidLength ==>
              r.error == Outcome(accepted, device.ok(old(device.calls))) != Ok
    ensures r.Allocated? ==> accepted && device.ok(old(device.calls)) && r.buffer.pitch == pitch
    ensures r.Allocated? ==>
              && fresh(r.buffer) && r.buffer.device == device && r.buffer.Valid() && !r.buffer.closed
              && r.buffer.width == width && r.buffer.height == height && r.buffer.es == es
              && r.buffer.ptr == |old(device.memory)|
    ensures r.Refused? ==> device.memory == old(device.memory)
    ensures device.calls == old(device.calls) + (if r in {Refused(InvalidLength), Refused(NotAccepted)} then 0 else 1)
    ensures |old(device.memory)| <= |device.memory| && old(device.memory) == device.memory[..|old(device.memory)|]
  {
    if width <= 0 || height <= 0 { return Refused(InvalidLength); }
    ExceedsByDivision(width, es, MAX_UINT64);
    if width > MAX_UINT64 / es { return Refused(InvalidLength); }
    if !accepted { return Refused(NotAccepted); }
    var ptr := device.MemAllocPitch(height, pitch);
    if ptr.None? { return Refused(Failed); }
    var buffer := new PitchedBuffer(device, ptr.value, pitch, es, width, height);
    return Allocated(buffer);
  }

  class Volume {
    const device: Device
    const ptr: nat
    const pitch: nat
    const es: nat
    const width: nat
    const height: nat
    const depth: nat
    var closed: bool

    function Region(): Region { PitchedCopy.Region(ptr, pitch) }

    function WidthBytes(): nat { width * es }

    // All slices one after another.
    function Rows(): nat { SliceRow(depth, height) }

    // hostDesc: packed host rows on one side, the volume's pitch on the other, and slices of
    // height rows on both.
    function HostDesc(hostToDevice: bool): Memcpy3D {
      var host := PitchedCopy.Region(0, WidthBytes());
      if hostToDevice then Memcpy3D(host, height, Region(), height, WidthBytes(), height, depth)
      else Memcpy3D(Region(), height, host, height, WidthBytes(), height, depth)
    }

    ghost predicate Valid()
      reads device
    {
      && 0 < es && VolumeFits(width, height, depth, es)
      && WidthBytes() <= pitch
      && ptr + Rows() * pitch <= |device.memory|
      && Fits(device.memory, Region(), WidthBytes(), Rows())
    }

    // Slice after slice, row after row.
    ghost function Contents(): seq<Byte>
      reads device
      requires Valid()
    {
      Packed(device.memory, Region(), WidthBytes(), Rows())
    }

    constructor (device: Device, ptr: nat, pitch: nat, es: nat, width: nat, height: nat, depth: nat, ghost rows: nat)
      requires 0 < es && VolumeFits(width, height, depth, es) && width * es <= pitch
      requires rows == SliceRow(depth, height) && ptr + rows * pitch <= |device.memory|
      ensures this.device == device && this.ptr == ptr && this.pitch == pitch && this.es == es
      ensures this.width == width && this.height == height && this.depth == depth && !closed && Valid()
    {
      this.device, this.ptr, this.pitch, this.es := device, ptr, pitch, es;
      this.width, this.height, this.depth, closed := width, height, depth, false;
      new;
      RowsInside(device.memory, Region(), WidthBytes(), Rows());
    }

    // The bytes of a full host slice are the bytes of all rows.
    lemma SliceBytes(count: nat)
      requires count == width * height * depth
      ensures count * es == WidthBytes() * Rows()
    {
      assert width * height * depth == width * (depth * height);
      assert count * es == (width * es) * (depth * height);
    }

    /** CopyFrom a host slice of count elements; the count is never refused as too large. */
    method CopyFrom(src: seq<Byte>, count: nat, accepted: bool) returns (r: Status)
      requires Valid() && |src| == count * es
      modifies device
      ensures Valid()
      ensures closed <==> r == BufferClosed
      ensures !closed && count != width * height * depth <==> r == LengthMismatch
      ensures r == BufferClosed || r == LengthMismatch || r == Outcome(accepted, device.ok(old(device.calls)))
      ensures r == Ok ==> Contents() == src
      ensures SameOutside(old(device.memory), device.memory, Region(), WidthBytes(), Rows())
      ensures r != Ok ==> device.memory == old(device.memory)
      ensures device.calls == old(device.calls) + (if r in {Ok, Failed} then 1 else 0)
    {
      VolumeGuardExact(width, height, depth, es);
      if closed { return BufferClosed; }
      var n := Elements3D(width, height, depth);
      if n.None? { return InvalidLength; }
      if count != n.value { return LengthMismatch; }
      SliceBytes(count);
      HostCopies(src, device.memory, Region(), WidthBytes(), Rows());
      VolumeCopyIsFlat(src, device.memory, HostDesc(true));
      if !accepted { return NotAccepted; }
      var success := device.Call();
      if !success { return Failed; }
      device.memory := Copy3D(src, device.memory, HostDesc(true));
      return Ok;
    }

    /** CopyTo a host slice of count elements. */
    method CopyTo(dst: array<Byte>, count: nat, accepted: bool) returns (r: Status)
      requires Valid() && dst.Length == count * es
      modifies device`calls, dst
      ensures Valid() && Contents() == old(Contents())
      ensures closed <==> r == BufferClosed
      ensures !closed && count != width * height * depth <==> r == LengthMismatch
      ensures r == BufferClosed || r == LengthMismatch || r == Outcome(accepted, device.ok(old(device.calls)))
      ensures r == Ok ==> dst[..] == Contents()
      ensures r != Ok ==> dst[..] == old(dst[..])
      ensures device.calls == old(device.calls) + (if r in {Ok, Failed} then 1 else 0)
    {
      VolumeGuardExact(width, height, depth, es);
      if closed { return BufferClosed; }
      var n := Elements3D(width, height, depth);
      if n.None? { return InvalidLength; }
      if count != n.value { return LengthMismatch; }
      SliceBytes(count);
      HostCopies(dst[..], device.memory, Region(), WidthBytes(), Rows());
      VolumeCopyIsFlat(device.memory, dst[..], HostDesc(false));
      if !accepted { return NotAccepted; }
      var success := device.Call();
      if !success { return Failed; }
      var copied := Copy3D(device.memory, dst[..], HostDesc(false));
      forall i | 0 <= i < dst.Length { dst[i] := copied[i]; }
      assert dst[..] == copied;
      return Ok;
    }
  }

  // AllocVolume behind its guards: the driver call.
  method AllocRows(device: Device, width: nat, height: nat, depth: nat, es: nat, pitch: nat, rows: nat)
      returns (r: Allocation<Volume>)
    requires 0 < es && VolumeFits(width, height, depth, es) && width * es <= pitch && rows == SliceRow(depth, height)
    modifies device
    ensures r.Allocated? ==>
              && fresh(r.buffer) && r.buffer.device == device && r.buffer.Valid() && !r.buffer.closed
              && r.buffer.width == width && r.buffer.height == height && r.buffer.depth == depth
              && r.buffer.es == es && r.buffer.ptr == |old(device.memory)|
    ensures r.Refused? ==> r.error == Failed && device.memory == old(device.memory)
    ensures device.calls == old(device.calls) + 1
    ensures r.Allocated? == device.ok(old(device.calls)) && (r.Allocated? ==> r.buffer.pitch == pitch)
    ensures |old(device.memory)| <= |device.memory| && old(device.memory) == device.memory[..|old(device.memory)|]
  {
    var ptr := device.MemAllocPitch(rows, pitch);
    if ptr.None? { return Refused(Failed); }
    var buffer := new Volume(device, ptr.value, pitch, es, width, height, depth, rows);
    return Allocated(buffer);
  }

  /** AllocVolume; pitch is the pitch the driver would choose for the height * depth rows. */
  method AllocVolume(device: Device, width: int, height: int, depth: int, es: nat, pitch: nat, accepted: bool)
      returns (r: Allocation<Volume>)
    requires 0 < es && width * es <= pitch
    modifies device
    ensures r == Refused(InvalidLength) <==> !VolumeFits(width, height, depth, es)
    ensures r.Refused? && r.error != InvalidLength ==>
              r.error == Outcome(accepted, device.ok(old(device.calls))) != Ok
    ensures r.Allocated? ==> accepted && device.ok(old(device.calls)) && r.buffer.pitch == pitch
    ensures r.Allocated? ==>
              && fresh(r.buffer) && r.buffer.device == device && r.buffer.Valid() && !r.buffer.closed
              && r.buffer.width == width && r.buffer.height == height && r.buffer.depth == depth
              && r.buffer.es == es && r.buffer.ptr == |old(device.memory)|
    ensures r.Refused? ==> device.memory == old(device.memory)
    ensures device.calls == old(device.calls) + (if r in {Refused(InvalidLength), Refused(NotAccepted)} then 0 else 1)
    ensures |old(device.memory)| <= |device.memory| && old(device.memory) == device.memory[..|old(device.memory)|]
  {
    VolumeGuardExact(width, height, depth, es);
    if !VolumeGuard(width, height, depth, es) { return Refused(InvalidLength); }
    if !accepted { return Refused(NotAccepted); }
    r := AllocRows(device, width, height, depth, es, pitch, height * depth);
  }
}
