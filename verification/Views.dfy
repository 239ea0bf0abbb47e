/** Buffers, nested views of them, and copies at an offset. */
module Views {
  import opened Arithmetic
  import opened DeviceMemory

  datatype Result = Made(view: View) | Refused(status: Status)

  // The source's test that [offset, offset + n) fits length elements, in Go's int.
  function CheckRange(length: int, offset: int, n: int): Status {
    if offset < 0 || n <= 0 then InvalidLength
    else if offset > WrapInt(length - n) then OutOfRange
    else Ok
  }

  // The subtraction cannot wrap, and the test is exact; each refusal has its own case.
  lemma CheckRangeExact(length: nat, offset: int, n: int)
    requires length <= MAX_INT && IsInt(n)
    ensures CheckRange(length, offset, n).Ok? <==> 0 <= offset && 0 < n && offset + n <= length
    ensures CheckRange(length, offset, n).InvalidLength? <==> offset < 0 || n <= 0
    ensures CheckRange(length, offset, n).OutOfRange? <==> 0 <= offset && 0 < n && offset + n > length
  {
  }

  class Buffer {
    const device: Device
    const ptr: nat
    const length: nat
    const es: nat
    var closed: bool

    // An open allocation: its bytes are device memory, and its addresses and counts fit.
    ghost predicate Valid()
      reads this, device
    {
      && 0 < es && 0 < length <= MAX_INT && ptr + length * es <= MAX_UINT64
      && (!closed ==> ptr + length * es <= |device.memory|)
    }

    constructor (device: Device, ptr: nat, length: nat, es: nat)
      requires 0 < es && 0 < length <= MAX_INT && ptr + length * es <= MAX_UINT64
      requires ptr + length * es <= |device.memory|
      ensures this.device == device && this.ptr == ptr && this.length == length && this.es == es
      ensures !closed && Valid()
    {
      this.device, this.ptr, this.length, this.es, closed := device, ptr, length, es, false;
    }

    // offsetPtr, in Go's unsigned arithmetic.
    function OffsetPtr(off: nat): nat {
      Wrap64(ptr + Wrap64(off * es))
    }

    // Neither the product nor the sum wraps inside the buffer.
    lemma OffsetIsExact(off: nat, n: nat)
      requires ptr + length * es <= MAX_UINT64 && off + n <= length
      ensures OffsetPtr(off) == ptr + off * es
      ensures ptr + off * es + n * es <= ptr + length * es
    {
      OffsetProduct(off, n);
    }

    lemma OffsetProduct(off: nat, n: nat)
      requires off + n <= length
      ensures off * es <= length * es && off * es + n * es <= length * es
    {
      Apart(off + n, length, es);
      assert (off + n) * es == off * es + n * es;
    }

    /** Buffer.View. */
    function View(offset: int, n: int): (r: Result)
      reads this
    {
      if closed then Refused(BufferClosed)
      else
        var check := CheckRange(length, offset, n);
        if check.Ok? then Made(Over(this, offset, n)) else Refused(check)
    }

    // A view is refused for a closed buffer, an empty or negative range, or one that does not fit,
    // in this order, and is else the window itself.
    lemma ViewMeans(offset: int, n: int)
      requires 0 < length <= MAX_INT && IsInt(n)
      ensures View(offset, n) == Refused(BufferClosed) <==> closed
      ensures View(offset, n) == Refused(InvalidLength) <==> !closed && (offset < 0 || n <= 0)
      ensures View(offset, n) == Refused(OutOfRange) <==> !closed && 0 <= offset && 0 < n && offset + n > length
      ensures !closed && 0 <= offset && 0 < n && offset + n <= length ==> View(offset, n) == Made(Over(this, offset, n))
    {
      CheckRangeExact(length, offset, n);
    }

    /** CopyFromAt: the elements [dstOffset, dstOffset + count) become src, and not a byte more
        changes. */
    method CopyFromAt(dstOffset: int, src: seq<Byte>, count: nat, accepted: bool) returns (r: Status)
      requires Valid() && |src| == count * es && count <= MAX_INT
      modifies device
      ensures Valid() && |device.memory| == |old(device.memory)|
      ensures closed ==> r == BufferClosed
      ensures !closed && (dstOffset < 0 || count == 0) ==> r == InvalidLength
      ensures !closed && dstOffset >= 0 && count > 0 && dstOffset + count > length ==> r == OutOfRange
      ensures !closed && dstOffset >= 0 && count > 0 && dstOffset + count <= length ==>
                r == Outcome(accepted, device.ok(old(device.calls)))
      ensures r == Ok ==>
                && ptr + dstOffset * es + |src| <= |old(device.memory)|
                && device.memory == Overwrite(old(device.memory), ptr + dstOffset * es, src)
      ensures r != Ok ==> device.memory == old(device.memory)
      ensures device.calls == old(device.calls) + (if r in {Ok, Failed} then 1 else 0)
    {
      if closed { return BufferClosed; }
      CheckRangeExact(length, dstOffset, count);
      if dstOffset < 0 || count == 0 { return InvalidLength; }
      if dstOffset > WrapInt(length - count) { return OutOfRange; }
      OffsetIsExact(dstOffset, count);
      var at := OffsetPtr(dstOffset);
      if !accepted { return NotAccepted; }
      var success := device.Call();
      if !success { return Failed; }
      device.memory := Overwrite(device.memory, at, src);
      return Ok;
    }

    /** CopyToAt. */
    method CopyToAt(dst: array<Byte>, count: nat, srcOffset: int, accepted: bool) returns (r: Status)
      requires Valid() && dst.Length == count * es && count <= MAX_INT
      modifies device`calls, dst
      ensures Valid()
      ensures closed ==> r == BufferClosed
      ensures !closed && (srcOffset < 0 || count == 0) ==> r == InvalidLength
      ensures !closed && srcOffset >= 0 && count > 0 && srcOffset + count > length ==> r == OutOfRange
      ensures !closed && srcOffset >= 0 && count > 0 && srcOffset + count <= length ==>
                r == Outcome(accepted, device.ok(old(device.calls)))
      ensures r == Ok ==>
                && 0 <= srcOffset && ptr + srcOffset * es + dst.Length <= |device.memory|
                && dst[..] == device.memory[ptr + srcOffset * es..ptr + srcOffset * es + dst.Length]
      ensures r != Ok ==> dst[..] == old(dst[..])
      ensures device.calls == old(device.calls) + (if r in {Ok, Failed} then 1 else 0)
    {
      if closed { return BufferClosed; }
      CheckRangeExact(length, srcOffset, count);
      if srcOffset < 0 || count == 0 { return InvalidLength; }
      if srcOffset > WrapInt(length - count) { return OutOfRange; }
      OffsetIsExact(srcOffset, count);
      var at := OffsetPtr(srcOffset);
      if !accepted { return NotAccepted; }
      var success := device.Call();
      if !success { return Failed; }
      forall i | 0 <= i < dst.Length { dst[i] := device.memory[at + i]; }
      return Ok;
    }

    // The two ranges of a copy do not overlap; only inside one buffer can they.
    predicate RangesApart(dstOffset: int, dst: Buffer, srcOffset: int, n: int) {
      dst != this || srcOffset + n <= dstOffset || dstOffset + n <= srcOffset
    }

    /** CopyToDeviceAt, between buffers of one element type. Whatever the ranges, only the target
        range can change; the driver leaves its contents undefined when they overlap. */
    method CopyToDeviceAt(dstOffset: int, dst: Buffer, srcOffset: int, n: int, accepted: bool) returns (r: Status)
      requires Valid() && dst.Valid() && dst.es == es && IsInt(n)
      modifies dst.device, device`calls
      ensures Valid() && dst.Valid()
      ensures r == BufferClosed <==> closed || dst.closed
      ensures r == ContextMismatch <==> !closed && !dst.closed && dst.device != device
      ensures r == InvalidLength <==>
                !closed && !dst.closed && dst.device == device && (n <= 0 || srcOffset < 0 || dstOffset < 0)
      ensures r == OutOfRange <==>
                && !closed && !dst.closed && dst.device == device && n > 0 && srcOffset >= 0 && dstOffset >= 0
                && (srcOffset + n > length || dstOffset + n > dst.length)
      ensures r in {Ok, NotAccepted, Failed} ==> r == Outcome(accepted, device.ok(old(device.calls)))
      ensures r != LengthMismatch
      ensures r == Ok ==>
                && 0 <= srcOffset && 0 <= dstOffset && 0 < n
                && ptr + srcOffset * es + n * es <= |old(device.memory)|
                && dst.ptr + dstOffset * es + n * es <= |old(device.memory)| == |device.memory|
                && var at := dst.ptr + dstOffset * es;
                   && device.memory[..at] == old(device.memory)[..at]
                   && device.memory[at + n * es..] == old(device.memory)[at + n * es..]
                   && (RangesApart(dstOffset, dst, srcOffset, n) ==>
                         device.memory[at..at + n * es]
                         == old(device.memory)[ptr + srcOffset * es..ptr + srcOffset * es + n * es])
      ensures r != Ok ==> dst.device.memory == old(dst.device.memory)
      ensures device.calls == old(device.calls) + (if r in {Ok, Failed} then 1 else 0)
      ensures dst.device != device ==> dst.device.calls == old(dst.device.calls)
    {
      if closed || dst.closed { return BufferClosed; }
      if dst.device != device { return ContextMismatch; }
      if n <= 0 || srcOffset < 0 || dstOffset < 0 { return InvalidLength; }
      CheckRangeExact(length, srcOffset, n);
      CheckRangeExact(dst.length, dstOffset, n);
      if srcOffset > WrapInt(length - n) || dstOffset > WrapInt(dst.length - n) { return OutOfRange; }
      OffsetIsExact(srcOffset, n);
      dst.OffsetIsExact(dstOffset, n);
      var from, onto := OffsetPtr(srcOffset), dst.OffsetPtr(dstOffset);
      if !accepted { return NotAccepted; }
      var success := device.Call();
      if !success { return Failed; }
      device.memory := Overwrite(device.memory, onto, device.memory[from..from + n * es]);
      return Ok;
    }
  }

  // A window of length elements of its owner, from element offset on.
  datatype View = Over(owner: Buffer, offset: int, length: int) {

    ghost predicate Inside() {
      0 <= offset && 0 < length && offset + length <= owner.length <= MAX_INT
    }

    /** View.View. */
    function SubView(off: int, n: int): (r: Result)
      reads owner
    {
      if owner.closed then Refused(BufferClosed)
      else
        var check := CheckRange(length, off, n);
        if check.Ok? then Made(Over(owner, WrapInt(offset + off), n)) else Refused(check)
    }

    // The same refusals in the same order for a view of a view, which is cut from this view's
    // window and belongs to the same buffer.
    lemma SubViewMeans(off: int, n: int)
      requires Inside() && IsInt(off) && IsInt(n)
      ensures SubView(off, n) == Refused(BufferClosed) <==> owner.closed
      ensures SubView(off, n) == Refused(InvalidLength) <==> !owner.closed && (off < 0 || n <= 0)
      ensures SubView(off, n) == Refused(OutOfRange) <==> !owner.closed && 0 <= off && 0 < n && off + n > length
      ensures !owner.closed && 0 <= off && 0 < n && off + n <= length ==>
                SubView(off, n) == Made(Over(owner, offset + off, n)) && SubView(off, n).view.Inside()
    {
      CheckRangeExact(length, off, n);
    }

    function DevicePtr(): nat
      requires 0 <= offset
    {
      owner.OffsetPtr(offset)
    }

    // Copies go through the owner, and only for exactly the view's length.
    method CopyFrom(src: seq<Byte>, count: nat, accepted: bool) returns (r: Status)
      requires Inside() && owner.Valid() && |src| == count * owner.es && count <= MAX_INT
      modifies owner.device
      ensures owner.Valid()
      ensures count != length ==> r == LengthMismatch
      ensures count == length && owner.closed ==> r == BufferClosed
      ensures count == length && !owner.closed ==>
                r == Outcome(accepted, owner.device.ok(old(owner.device.calls)))
      ensures r == Ok ==>
                && DevicePtr() + |src| <= |old(owner.device.memory)|
                && owner.device.memory == Overwrite(old(owner.device.memory), DevicePtr(), src)
      ensures r != Ok ==> owner.device.memory == old(owner.device.memory)
      ensures owner.device.calls == old(owner.device.calls) + (if r in {Ok, Failed} then 1 else 0)
    {
      if count != length { return LengthMismatch; }
      owner.OffsetIsExact(offset, length);
      r := owner.CopyFromAt(offset, src, count, accepted);
    }

    method CopyTo(dst: array<Byte>, count: nat, accepted: bool) returns (r: Status)
      requires Inside() && owner.Valid() && dst.Length == count * owner.es && count <= MAX_INT
      modifies owner.device`calls, dst
      ensures owner.Valid()
      ensures count != length ==> r == LengthMismatch
      ensures count == length && owner.closed ==> r == BufferClosed
      ensures count == length && !owner.closed ==>
                r == Outcome(accepted, owner.device.ok(old(owner.device.calls)))
      ensures r == Ok ==>
                && DevicePtr() + dst.Length <= |owner.device.memory|
                && dst[..] == owner.device.memory[DevicePtr()..DevicePtr() + dst.Length]
      ensures r != Ok ==> dst[..] == old(dst[..])
      ensures owner.device.calls == old(owner.device.calls) + (if r in {Ok, Failed} then 1 else 0)
    {
      if count != length { return LengthMismatch; }
      owner.OffsetIsExact(offset, length);
      r := owner.CopyToAt(dst, count, offset, accepted);
    }
  }

  // ---- Chains of views

  datatype Window = Window(offset: int, n: int)

  // Buffer.View for the first window, then View.View for each next one.
  function Chain(b: Buffer, windows: seq<Window>): (r: Result)
    requires windows != []
    reads b
  {
    var last := windows[|windows| - 1];
    if |windows| == 1 then b.View(last.offset, last.n)
    else
      var outer := Chain(b, windows[..|windows| - 1]);
      if outer.Made? && outer.view.owner == b then outer.view.SubView(last.offset, last.n) else outer
  }

  function SumOffsets(windows: seq<Window>): int {
    if windows == [] then 0 else SumOffsets(windows[..|windows| - 1]) + windows[|windows| - 1].offset
  }

  // The length of what window k is cut from.
  function OuterLength(b: Buffer, windows: seq<Window>, k: nat): int
    requires k < |windows|
  {
    if k == 0 then b.length else windows[k - 1].n
  }

  ghost predicate Nested(b: Buffer, windows: seq<Window>, k: nat)
    requires k < |windows|
  {
    var w := windows[k];
    0 <= w.offset && 0 < w.n && w.offset + w.n <= OuterLength(b, windows, k)
  }

  ghost predicate FirstMisfit(b: Buffer, windows: seq<Window>, k: nat) {
    k < |windows| && !Nested(b, windows, k) && forall j: nat :: j < k ==> Nested(b, windows, j)
  }

  /** A chain of views succeeds exactly when the buffer is open and every window lies in the one
      it is cut from; the result is then the single view at the summed offset, inside the
      buffer. Else it is refused for the first window that does not. */
  lemma {:induction false} ChainIsOneView(b: Buffer, windows: seq<Window>)
    requires windows != [] && 0 < b.length <= MAX_INT
    requires forall w :: w in windows ==> IsInt(w.offset) && IsInt(w.n)
    ensures Chain(b, windows).Made? <==> !b.closed && forall k: nat :: k < |windows| ==> Nested(b, windows, k)
    ensures Chain(b, windows).Made? ==>
              var total := SumOffsets(windows);
              && Chain(b, windows) == b.View(total, windows[|windows| - 1].n)
              && Chain(b, windows).view == Over(b, total, windows[|windows| - 1].n)
              && Chain(b, windows).view.Inside()
    ensures b.closed ==> Chain(b, windows) == Refused(BufferClosed)
    ensures !b.closed && Chain(b, windows).Refused? ==>
              exists k: nat :: FirstMisfit(b, windows, k) &&
                Chain(b, windows).status == if windows[k].offset < 0 || windows[k].n <= 0 then InvalidLength
                                            else OutOfRange
  {
    var last := |windows| - 1;
    var earlier, w := windows[..last], windows[last];
    assert w in windows;
    if |windows| == 1 {
      CheckRangeExact(b.length, w.offset, w.n);
      assert Nested(b, windows, 0) <==> CheckRange(b.length, w.offset, w.n).Ok?;
      assert SumOffsets(earlier) == 0;
      assert Chain(b, windows).Made? || b.closed || FirstMisfit(b, windows, 0);
    } else {
      ChainIsOneView(b, earlier);
      assert windows[last - 1] == earlier[|earlier| - 1];
      forall k: nat | k < last ensures Nested(b, earlier, k) <==> Nested(b, windows, k) {
        assert OuterLength(b, earlier, k) == OuterLength(b, windows, k);
      }
      if Chain(b, earlier).Made? {
        CheckRangeExact(windows[last - 1].n, w.offset, w.n);
        CheckRangeExact(b.length, SumOffsets(windows), w.n);
        assert Nested(b, windows, last) <==> Chain(b, windows).Made?;
        assert Chain(b, windows).Made? || FirstMisfit(b, windows, last);
      } else if !b.closed {
        var k: nat :| FirstMisfit(b, earlier, k)
                      && Chain(b, earlier).status == if earlier[k].offset < 0 || earlier[k].n <= 0 then InvalidLength
                                                     else OutOfRange;
        assert FirstMisfit(b, windows, k);
      }
    }
  }

  // ---- Elements

  // A stretch of a memory after a write: outside the write it is as before, inside it is a
  // stretch of what was written.
  lemma StretchAfterWrite(mem: seq<Byte>, at: nat, src: seq<Byte>, p: nat, n: nat)
    requires at + |src| <= |mem| && p + n <= |mem|
    ensures p + n <= at || at + |src| <= p ==> Overwrite(mem, at, src)[p..p + n] == mem[p..p + n]
    ensures at <= p && p + n <= at + |src| ==> Overwrite(mem, at, src)[p..p + n] == src[p - at..p - at + n]
  {
    var after := Overwrite(mem, at, src);
    if at <= p && p + n <= at + |src| {
      assert after[at..at + |src|][p - at..p - at + n] == after[p..p + n];
    }
  }

  // A copy of count elements at an offset, and element k, of a buffer of length elements at ptr:
  // the first byte the copy writes and the first byte of the element.
  ghost predicate Placed(ptr: nat, es: nat, length: nat, offset: nat, count: nat, k: nat, at: nat, p: nat) {
    k < length && offset + count <= length && at == ptr + offset * es && p == ptr + k * es
  }

  lemma Places(ptr: nat, es: nat, length: nat, offset: nat, count: nat, k: nat, at: nat, p: nat, bytes: nat, end: nat)
    requires Placed(ptr, es, length, offset, count, k, at, p) && bytes == count * es && end == ptr + length * es
    ensures p + es <= end && at + bytes <= end
    ensures k < offset ==> p + es <= at
    ensures offset + count <= k ==> at + bytes <= p
    ensures offset <= k < offset + count ==> at <= p && p + es <= at + bytes && p - at == (k - offset) * es
  {
    var last := offset + count;
    assert last * es == offset * es + count * es;
    Apart(last, length, es);
    Apart(k, length, es);
    Apart(k, offset, es);
    Apart(last, k, es);
    Apart(k, last, es);
    Apart(offset, k, es);
  }

  /** What a copy at an offset does to the elements: those of the window become the source's,
      in order ... */
  lemma WindowBecomesSource(mem: seq<Byte>, ptr: nat, es: nat, length: nat, offset: nat, src: seq<Byte>,
                            count: nat, k: nat, at: nat, p: nat, q: nat)
    requires Placed(ptr, es, length, offset, count, k, at, p) && |src| == count * es
    requires ptr + length * es <= |mem| && offset <= k < offset + count && q == (k - offset) * es
    ensures at + |src| <= |mem| && p + es <= |mem| && q + es <= |src|
    ensures Overwrite(mem, at, src)[p..p + es] == src[q..q + es]
  {
    Places(ptr, es, length, offset, count, k, at, p, |src|, ptr + length * es);
    StretchAfterWrite(mem, at, src, p, es);
  }

  /** ... and no other element changes. */
  lemma OtherElementsStay(mem: seq<Byte>, ptr: nat, es: nat, length: nat, offset: nat, src: seq<Byte>,
                          count: nat, k: nat, at: nat, p: nat)
    requires Placed(ptr, es, length, offset, count, k, at, p) && |src| == count * es
    requires ptr + length * es <= |mem| && (k < offset || offset + count <= k)
    ensures at + |src| <= |mem| && p + es <= |mem|
    ensures Overwrite(mem, at, src)[p..p + es] == mem[p..p + es]
  {
    Places(ptr, es, length, offset, count, k, at, p, |src|, ptr + length * es);
    StretchAfterWrite(mem, at, src, p, es);
  }
}
