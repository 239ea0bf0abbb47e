/** The memory of one context, and the outcomes of the operations on it.

    A driver call that fails changes nothing, and an allocation does not overlap an earlier
    one. */
module DeviceMemory {
  import opened Options

  type Byte = bv8

  datatype Status =
    | Ok | BufferClosed | InvalidLength | OutOfRange | LengthMismatch | ContextMismatch | NotAccepted | Failed

  // What becomes of an operation that passes its checks: refused without a driver call, because
  // the context is closed or quarantined or the caller is canceled, or what the driver answers.
  function Outcome(accepted: bool, success: bool): Status {
    if !accepted then NotAccepted else if success then Ok else Failed
  }

  function Overwrite(s: seq<Byte>, at: nat, data: seq<Byte>): (r: seq<Byte>)
    requires at + |data| <= |s|
    ensures |r| == |s|
    ensures r[at..at + |data|] == data
    ensures forall k :: 0 <= k < at || at + |data| <= k < |s| ==> r[k] == s[k]
  {
    s[..at] + data + s[at + |data|..]
  }

  // Driver call number k succeeds when ok(k).
  class Device {
    const ok: nat -> bool
    var calls: nat
    var memory: seq<Byte>

    // The next answer of the driver.
    method Call() returns (success: bool)
      modifies this`calls
      ensures calls == old(calls) + 1 && success == ok(old(calls))
    {
      success := ok(calls);
      calls := calls + 1;
    }

    // rows rows at a pitch, after everything allocated before.
    method MemAllocPitch(rows: nat, pitch: nat) returns (ptr: Option<nat>)
      modifies this
      ensures calls == old(calls) + 1 && ptr.Some? == ok(old(calls))
      ensures ptr.Some? ==> ptr.value == |old(memory)| && |memory| == ptr.value + rows * pitch
      ensures ptr.Some? ==> old(memory) == memory[..ptr.value]
      ensures ptr.None? ==> memory == old(memory)
    {
      var success := Call();
      if !success { return None; }
      ptr := Some(|memory|);
      memory := memory + seq(rows * pitch, _ => 0);
    }
  }
}
