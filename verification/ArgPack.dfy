/** The kernel argument packer: inline slots, a growing arena and a cached pointer
    array, against a plain sequence of typed byte strings.

    A pointer names the storage it points into, so a pointer into an arena that has
    been outgrown is different from one into the arena in use. */
module ArgPack {
  import opened Options

  type Byte = b: int | 0 <= b < 256

  const INLINE_ARGS := 16
  const MIN_ARENA_CAP := 64
  const MAX_RETAINED_SPILL_BYTES := 8192

  // A type identifier stands for a reflect.Type; None marks a raw byte argument.
  type TypeId = nat

  datatype ArgMeta = ArgMeta(offset: int, size: nat, typ: Option<TypeId>)

  datatype Pointer = Inline(slot: nat) | Arena(mem: array<Byte>, off: nat)

  datatype Arg = Arg(bytes: seq<Byte>, typ: Option<TypeId>)

  datatype Status = Ok | IndexOutOfRange | TypeMismatch | SizeMismatch

  // ---- The widths the metadata is stored in

  function Narrow16(v: nat): nat {
    v % 0x1_0000
  }

  function Narrow32(v: nat): int {
    var low := v % 0x1_0000_0000;
    if low < 0x8000_0000 then low else low - 0x1_0000_0000
  }

  // Metadata is faithful exactly for sizes below 64 KiB and offsets below 2 GiB; the first
  // offsets beyond turn negative and would read as inline arguments.
  lemma NarrowingIsExact(size: nat, off: nat)
    ensures Narrow16(size) == size <==> size < 0x1_0000
    ensures Narrow32(off) == off <==> off < 0x8000_0000
    ensures 0x8000_0000 <= off < 0x1_0000_0000 ==> Narrow32(off) < 0
  {}

  function AlignUp(v: nat): (r: nat)
    ensures r % 8 == 0 && v <= r < v + 8
  {
    (v + 7) / 8 * 8
  }

  function Largest(a: nat, b: nat, c: nat): (r: nat)
    ensures r >= a && r >= b && r >= c && r in {a, b, c}
  {
    var d := if a < b then b else a;
    if d < c then c else d
  }

  // ---- Metadata

  function SpillCount(ms: seq<ArgMeta>): nat {
    if ms == [] then 0 else SpillCount(ms[..|ms| - 1]) + (if ms[|ms| - 1].offset < 0 then 0 else 1)
  }

  lemma {:induction false} OverflowArgsSpill(ms: seq<ArgMeta>)
    requires forall i :: INLINE_ARGS <= i < |ms| ==> ms[i].offset >= 0
    ensures |ms| <= INLINE_ARGS + SpillCount(ms)
  {
    if |ms| > INLINE_ARGS { OverflowArgsSpill(ms[..|ms| - 1]); }
  }

  predicate MetaOk(i: nat, m: ArgMeta, used: nat) {
    && m.size < 0x1_0000
    && (if m.offset < 0 then m.offset == -1 && i < INLINE_ARGS && m.size <= 8
        else 1 <= m.size && m.offset % 8 == 0 && m.offset + m.size <= used && m.offset < 0x8000_0000)
  }

  // Arena arguments lie in the order they were packed, without overlap.
  predicate Before(a: ArgMeta, b: ArgMeta) {
    a.offset >= 0 && b.offset >= 0 ==> a.offset + a.size <= b.offset
  }

  predicate MetasOk(ms: seq<ArgMeta>, used: nat) {
    && (forall i :: 0 <= i < |ms| ==> MetaOk(i, ms[i], used))
    && (forall i, j :: 0 <= i < j < |ms| ==> Before(ms[i], ms[j]))
    && (forall i :: INLINE_ARGS <= i < |ms| ==> ms[i].offset >= 0)
    && 8 * SpillCount(ms) <= used + 7
  }

  lemma MetasAppendInline(ms: seq<ArgMeta>, used: nat, m: ArgMeta)
    requires MetasOk(ms, used) && MetaOk(|ms|, m, used) && m.offset < 0
    ensures MetasOk(ms + [m], used)
  {
    assert (ms + [m])[..|ms|] == ms;
  }

  // Words in use never reach past an aligned offset behind them.
  lemma WordsFit(words: nat, used: nat, off: nat)
    requires 8 * words <= used + 7 && used <= off && off % 8 == 0
    ensures 8 * words <= off
  {}

  lemma MetasAppendSpill(ms: seq<ArgMeta>, used: nat, m: ArgMeta, end: nat)
    requires MetasOk(ms, used) && used <= m.offset && end == m.offset + m.size && MetaOk(|ms|, m, end)
    ensures MetasOk(ms + [m], end)
  {
    var ms' := ms + [m];
    assert ms'[..|ms|] == ms;
    WordsFit(SpillCount(ms), used, m.offset);
    forall i | 0 <= i < |ms| ensures MetaOk(i, ms'[i], end) && Before(ms'[i], m) {
      assert MetaOk(i, ms[i], used);
    }
  }

  lemma SpillCountAppend(ms: seq<ArgMeta>, m: ArgMeta)
    ensures SpillCount(ms + [m]) == SpillCount(ms) + (if m.offset < 0 then 0 else 1)
  {
    assert (ms + [m])[..|ms|] == ms;
  }

  // ---- The builder's state as a value

  datatype Snap = Snap(ms: seq<ArgMeta>, inline: seq<Byte>, slots: seq<Pointer>, arena: seq<Byte>,
                       buf: array<Byte>, cached: seq<Pointer>, hasSpill: bool, dirty: bool)

  function BytesOf(i: nat, m: ArgMeta, inline: seq<Byte>, arena: seq<Byte>): seq<Byte> {
    if m.offset < 0 then (if 8 * i + m.size <= |inline| then inline[8 * i..8 * i + m.size] else [])
    else if m.offset + m.size <= |arena| then arena[m.offset..m.offset + m.size] else []
  }

  // The packed arguments.
  function ArgsOf(ms: seq<ArgMeta>, inline: seq<Byte>, arena: seq<Byte>): (args: seq<Arg>)
    ensures |args| == |ms|
  {
    seq(|ms|, i requires 0 <= i < |ms| => Arg(BytesOf(i, ms[i], inline, arena), ms[i].typ))
  }

  // Where they live now.
  function PointersOf(ms: seq<ArgMeta>, buf: array<Byte>): (ps: seq<Pointer>)
    ensures |ps| == |ms|
  {
    seq(|ms|, i requires 0 <= i < |ms| => if ms[i].offset < 0 then Inline(i) else Arena(buf, ms[i].offset))
  }

  predicate SlotsOk(ms: seq<ArgMeta>, slots: seq<Pointer>) {
    |slots| == INLINE_ARGS && forall i :: 0 <= i < |ms| && i < INLINE_ARGS && ms[i].offset < 0 ==> slots[i] == Inline(i)
  }

  predicate TypesOk(ms: seq<ArgMeta>, sizeOf: TypeId -> nat) {
    forall i :: 0 <= i < |ms| && ms[i].typ.Some? ==> ms[i].size == sizeOf(ms[i].typ.value)
  }

  ghost predicate Good(s: Snap, sizeOf: TypeId -> nat) {
    && |s.inline| == 8 * INLINE_ARGS
    && MetasOk(s.ms, |s.arena|) && SlotsOk(s.ms, s.slots) && TypesOk(s.ms, sizeOf)
    && (s.hasSpill <==> SpillCount(s.ms) > 0)
    && (s.hasSpill && !s.dirty ==> s.cached == PointersOf(s.ms, s.buf))
  }

  lemma BytesKept(ms: seq<ArgMeta>, i: nat, inline: seq<Byte>, arena: seq<Byte>, inline': seq<Byte>, arena': seq<Byte>)
    requires MetasOk(ms, |arena|) && i < |ms| && |inline| == |inline'| == 8 * INLINE_ARGS && arena <= arena'
    requires if |ms| < INLINE_ARGS then inline'[..8 * |ms|] == inline[..8 * |ms|] else inline' == inline
    ensures BytesOf(i, ms[i], inline', arena') == BytesOf(i, ms[i], inline, arena)
  {
    assert MetaOk(i, ms[i], |arena|);
    if ms[i].offset < 0 && |ms| < INLINE_ARGS {
      assert inline'[8 * i..8 * i + ms[i].size] == inline'[..8 * |ms|][8 * i..8 * i + ms[i].size];
      assert inline[8 * i..8 * i + ms[i].size] == inline[..8 * |ms|][8 * i..8 * i + ms[i].size];
    }
  }

  // Storage written behind the arguments there are leaves them alone.
  lemma ArgsAppend(ms: seq<ArgMeta>, m: ArgMeta, inline: seq<Byte>, arena: seq<Byte>,
                   inline': seq<Byte>, arena': seq<Byte>)
    requires MetasOk(ms, |arena|) && |inline| == |inline'| == 8 * INLINE_ARGS && arena <= arena'
    requires if |ms| < INLINE_ARGS then inline'[..8 * |ms|] == inline[..8 * |ms|] else inline' == inline
    ensures ArgsOf(ms + [m], inline', arena') ==
            ArgsOf(ms, inline, arena) + [Arg(BytesOf(|ms|, m, inline', arena'), m.typ)]
  {
    forall i | 0 <= i < |ms| ensures BytesOf(i, ms[i], inline', arena') == BytesOf(i, ms[i], inline, arena) {
      BytesKept(ms, i, inline, arena, inline', arena');
    }
  }

  // An argument in the arena needs no slot.
  lemma SlotsAndTypesAppend(ms: seq<ArgMeta>, m: ArgMeta, slots: seq<Pointer>, sizeOf: TypeId -> nat)
    requires SlotsOk(ms, slots) && TypesOk(ms, sizeOf) && (m.typ.Some? ==> m.size == sizeOf(m.typ.value))
    ensures m.offset >= 0 ==> SlotsOk(ms + [m], slots)
    ensures TypesOk(ms + [m], sizeOf)
  {
  }

  ghost predicate AddsInline(s: Snap, t: Snap, data: seq<Byte>, typ: Option<TypeId>) {
    var n := |s.ms|;
    && |data| <= 8 && n < INLINE_ARGS == |s.slots| && |t.inline| == |s.inline| == 8 * INLINE_ARGS
    && t == s.(ms := s.ms + [ArgMeta(-1, |data|, typ)], inline := t.inline, slots := s.slots[n := Inline(n)],
               dirty := s.hasSpill)
    && t.inline[..8 * n] == s.inline[..8 * n] && t.inline[8 * n..8 * n + |data|] == data
  }

  lemma InlineAddedGood(s: Snap, t: Snap, data: seq<Byte>, typ: Option<TypeId>, sizeOf: TypeId -> nat)
    requires Good(s, sizeOf) && AddsInline(s, t, data, typ) && (typ.Some? ==> |data| == sizeOf(typ.value))
    ensures Good(t, sizeOf)
  {
    var m := ArgMeta(-1, |data|, typ);
    MetasAppendInline(s.ms, |s.arena|, m);
    SpillCountAppend(s.ms, m);
  }

  lemma InlineAdded(s: Snap, t: Snap, data: seq<Byte>, typ: Option<TypeId>, sizeOf: TypeId -> nat)
    requires Good(s, sizeOf) && AddsInline(s, t, data, typ) && (typ.Some? ==> |data| == sizeOf(typ.value))
    ensures Good(t, sizeOf)
    ensures ArgsOf(t.ms, t.inline, t.arena) == ArgsOf(s.ms, s.inline, s.arena) + [Arg(data, typ)]
  {
    InlineAddedGood(s, t, data, typ, sizeOf);
    ArgsAppend(s.ms, ArgMeta(-1, |data|, typ), s.inline, s.arena, t.inline, s.arena);
  }

  ghost predicate AddsSpill(s: Snap, t: Snap, data: seq<Byte>, typ: Option<TypeId>) {
    var off := |t.arena| - |data|;
    && |s.arena| <= off && off % 8 == 0 && (|s.ms| < INLINE_ARGS ==> |data| > 8)
    && t == s.(ms := s.ms + [ArgMeta(Narrow32(off), Narrow16(|data|), typ)], arena := t.arena, buf := t.buf,
               hasSpill := true, dirty := true)
    && s.arena <= t.arena && t.arena[off..] == data
  }

  // The metadata of the argument in the arena is stored without loss.
  predicate StoredExactly(size: nat, off: nat) {
    size < 0x1_0000 && off < 0x8000_0000
  }

  lemma SpillAddedGood(s: Snap, m: ArgMeta, arena: seq<Byte>, buf: array<Byte>, sizeOf: TypeId -> nat)
    requires Good(s, sizeOf) && (m.typ.Some? ==> m.size == sizeOf(m.typ.value))
    requires |s.arena| <= m.offset && |arena| == m.offset + m.size && MetaOk(|s.ms|, m, |arena|)
    ensures Good(s.(ms := s.ms + [m], arena := arena, buf := buf, hasSpill := true, dirty := true), sizeOf)
  {
    MetasAppendSpill(s.ms, |s.arena|, m, |arena|);
    SpillCountAppend(s.ms, m);
    SlotsAndTypesAppend(s.ms, m, s.slots, sizeOf);
  }

  lemma SpillAdded(s: Snap, t: Snap, data: seq<Byte>, typ: Option<TypeId>, sizeOf: TypeId -> nat)
    requires Good(s, sizeOf) && AddsSpill(s, t, data, typ) && (typ.Some? ==> |data| == sizeOf(typ.value))
    requires data != [] && StoredExactly(|data|, |t.arena| - |data|)
    ensures Good(t, sizeOf)
    ensures ArgsOf(t.ms, t.inline, t.arena) == ArgsOf(s.ms, s.inline, s.arena) + [Arg(data, typ)]
  {
    NarrowingIsExact(|data|, |t.arena| - |data|);
    var m := ArgMeta(|t.arena| - |data|, |data|, typ);
    SpillAddedGood(s, m, t.arena, t.buf, sizeOf);
    ArgsAppend(s.ms, m, s.inline, s.arena, s.inline, t.arena);
    TailBytes(t.arena, |data|);
  }

  lemma TailBytes(arena: seq<Byte>, n: nat)
    requires n <= |arena|
    ensures arena[|arena| - n..|arena| - n + n] == arena[|arena| - n..]
  {}

  lemma {:induction false} NoneSpilled(ms: seq<ArgMeta>)
    requires SpillCount(ms) == 0
    ensures forall i :: 0 <= i < |ms| ==> ms[i].offset < 0
  {
    if ms != [] { NoneSpilled(ms[..|ms| - 1]); }
  }

  // Without a spilled argument the slot pointers are the whole parameter array.
  lemma SlotsSuffice(s: Snap, sizeOf: TypeId -> nat)
    requires Good(s, sizeOf) && !s.hasSpill
    ensures |s.ms| <= INLINE_ARGS && s.slots[..|s.ms|] == PointersOf(s.ms, s.buf)
  {
    NoneSpilled(s.ms);
  }

  // What an argument in the arena comes to, whether or not its fields can hold it.
  lemma SpillOutcome(s: Snap, t: Snap, data: seq<Byte>, typ: Option<TypeId>, sizeOf: TypeId -> nat, place: ArgMeta)
    requires Good(s, sizeOf) && AddsSpill(s, t, data, typ) && (typ.Some? ==> |data| == sizeOf(typ.value))
    requires place == ArgMeta(|t.arena| - |data|, |data|, typ)
    ensures StoredExactly(|data|, place.offset) <==> t.ms == s.ms + [place]
    ensures data != [] && StoredExactly(|data|, place.offset) ==>
              && Good(t, sizeOf)
              && ArgsOf(t.ms, t.inline, t.arena) == ArgsOf(s.ms, s.inline, s.arena) + [Arg(data, typ)]
    ensures |data| >= 0x1_0000 ==>
              ArgsOf(t.ms, t.inline, t.arena) != ArgsOf(s.ms, s.inline, s.arena) + [Arg(data, typ)]
  {
    NarrowingIsExact(|data|, place.offset);
    assert t.ms[|s.ms|] == ArgMeta(Narrow32(place.offset), Narrow16(|data|), typ);
    assert (s.ms + [place])[|s.ms|] == place;
    LongArgumentIsLost(t, data, typ);
    if data != [] && StoredExactly(|data|, place.offset) {
      SpillAdded(s, t, data, typ, sizeOf);
    }
  }

  // A size that was narrowed reads back short, or not at all.
  lemma LongArgumentIsLost(s: Snap, data: seq<Byte>, typ: Option<TypeId>)
    requires s.ms != [] && s.ms[|s.ms| - 1].size == Narrow16(|data|)
    ensures |data| >= 0x1_0000 ==> ArgsOf(s.ms, s.inline, s.arena)[|s.ms| - 1] != Arg(data, typ)
  {
  }

  // The arena in use pays for the overflow metadata.
  lemma PeaksPaidFor(s: Snap, overflow: nat)
    requires MetasOk(s.ms, |s.arena|) && overflow == (if |s.ms| <= INLINE_ARGS then 0 else |s.ms| - INLINE_ARGS)
    ensures 8 * overflow <= |s.arena| + 7
  {
    OverflowArgsSpill(s.ms);
  }

  function Splice(s: seq<Byte>, at: nat, data: seq<Byte>): (r: seq<Byte>)
    requires at + |data| <= |s|
    ensures |r| == |s| && r[at..at + |data|] == data
  {
    var r := s[..at] + data + s[at + |data|..];
    assert r[at..at + |data|] == data;
    r
  }

  lemma SpliceKeeps(s: seq<Byte>, at: nat, data: seq<Byte>, lo: nat, hi: nat)
    requires at + |data| <= |s| && lo <= hi <= |s| && (hi <= at || at + |data| <= lo)
    ensures Splice(s, at, data)[lo..hi] == s[lo..hi]
  {
    var r := Splice(s, at, data);
    assert forall k :: lo <= k < hi ==> r[k] == s[k];
    assert r[lo..hi] == s[lo..hi];
  }

  lemma SplicePrefix(s: seq<Byte>, n: nat, at: nat, data: seq<Byte>)
    requires at + |data| <= n <= |s|
    ensures Splice(s, at, data)[..n] == Splice(s[..n], at, data)
  {
    var whole, part := Splice(s, at, data), Splice(s[..n], at, data);
    assert forall k :: 0 <= k < n ==> whole[k] == part[k];
  }

  // An argument's bytes, read from the storage itself.
  lemma BytesInPlace(i: nat, m: ArgMeta, inline: seq<Byte>, buf: seq<Byte>, used: nat)
    requires MetaOk(i, m, used) && used <= |buf| && |inline| == 8 * INLINE_ARGS
    ensures var bytes := BytesOf(i, m, inline, buf[..used]);
            && |bytes| == m.size
            && (m.offset < 0 ==> bytes == inline[8 * i..8 * i + m.size])
            && (m.offset >= 0 ==> bytes == buf[m.offset..m.offset + m.size])
  {
    if m.offset >= 0 {
      assert buf[..used][m.offset..m.offset + m.size] == buf[m.offset..m.offset + m.size];
    }
  }

  lemma NextPointer(ms: seq<ArgMeta>, buf: array<Byte>, i: nat)
    requires i < |ms|
    ensures PointersOf(ms, buf)[..i + 1]
         == PointersOf(ms, buf)[..i] + [if ms[i].offset < 0 then Inline(i) else Arena(buf, ms[i].offset)]
  {
  }

  lemma NothingPacked(s: Snap, sizeOf: TypeId -> nat)
    requires s.ms == [] && !s.hasSpill && |s.inline| == 8 * INLINE_ARGS && |s.slots| == INLINE_ARGS
    ensures Good(s, sizeOf) && ArgsOf(s.ms, s.inline, s.arena) == []
  {
  }

  // Overwriting argument i in place, where it lives.
  ghost predicate Writes(s: Snap, t: Snap, i: nat, data: seq<Byte>) {
    && i < |s.ms| && |data| == s.ms[i].size && |t.inline| == |s.inline| == 8 * INLINE_ARGS
    && t == s.(inline := t.inline, arena := t.arena)
    && (if s.ms[i].offset < 0 then
          t.arena == s.arena && 8 * i + |data| <= |s.inline| && t.inline == Splice(s.inline, 8 * i, data)
        else
          var off := s.ms[i].offset;
          t.inline == s.inline && off + |data| <= |s.arena| && t.arena == Splice(s.arena, off, data))
  }

  // Slots do not overlap, nor do arena arguments, nor slots and arena.
  lemma SlotKept(ms: seq<ArgMeta>, inline: seq<Byte>, arena: seq<Byte>, i: nat, j: nat, data: seq<Byte>)
    requires |inline| == 8 * INLINE_ARGS && i < INLINE_ARGS && |data| <= 8 && j < |ms| && i != j
    requires MetaOk(j, ms[j], |arena|)
    ensures BytesOf(j, ms[j], Splice(inline, 8 * i, data), arena) == BytesOf(j, ms[j], inline, arena)
  {
    if ms[j].offset < 0 {
      SpliceKeeps(inline, 8 * i, data, 8 * j, 8 * j + ms[j].size);
    }
  }

  lemma ArenaKept(ms: seq<ArgMeta>, inline: seq<Byte>, arena: seq<Byte>, i: nat, j: nat, data: seq<Byte>)
    requires MetasOk(ms, |arena|) && i < |ms| && j < |ms| && i != j && |data| == ms[i].size && ms[i].offset >= 0
    ensures ms[i].offset + |data| <= |arena|
    ensures BytesOf(j, ms[j], inline, Splice(arena, ms[i].offset, data)) == BytesOf(j, ms[j], inline, arena)
  {
    assert MetaOk(j, ms[j], |arena|) && MetaOk(i, ms[i], |arena|);
    if ms[j].offset >= 0 {
      if j < i { assert Before(ms[j], ms[i]); } else { assert Before(ms[i], ms[j]); }
      SpliceKeeps(arena, ms[i].offset, data, ms[j].offset, ms[j].offset + ms[j].size);
    }
  }

  lemma Written(s: Snap, t: Snap, i: nat, data: seq<Byte>, sizeOf: TypeId -> nat)
    requires Good(s, sizeOf) && Writes(s, t, i, data)
    ensures Good(t, sizeOf)
    ensures ArgsOf(t.ms, t.inline, t.arena) == ArgsOf(s.ms, s.inline, s.arena)[i := Arg(data, s.ms[i].typ)]
  {
    forall j | 0 <= j < |s.ms| && j != i
      ensures BytesOf(j, s.ms[j], t.inline, t.arena) == BytesOf(j, s.ms[j], s.inline, s.arena)
    {
      assert MetaOk(i, s.ms[i], |s.arena|) && MetaOk(j, s.ms[j], |s.arena|);
      if s.ms[i].offset < 0 {
        SlotKept(s.ms, s.inline, s.arena, i, j, data);
      } else {
        ArenaKept(s.ms, s.inline, s.arena, i, j, data);
      }
    }
  }

  // ---- The builder

  // Go's copy into a byte slice.
  method CopyBytes(dst: array<Byte>, at: nat, data: seq<Byte>)
    requires at + |data| <= dst.Length
    modifies dst
    ensures dst[..] == Splice(old(dst[..]), at, data)
  {
    var k := 0;
    while k < |data|
      invariant 0 <= k <= |data|
      invariant dst[..at] == old(dst[..at]) && dst[at..at + k] == data[..k]
      invariant dst[at + k..] == old(dst[at + k..])
    {
      dst[at + k] := data[k];
      k := k + 1;
    }
    assert dst[..] == dst[..at] + dst[at..at + k] + dst[at + k..];
  }

  class Builder {
    // eight bytes for each of the sixteen slots
    const inlineValues: array<Byte>
    const inlinePointers: array<Pointer>
    const inlineMeta: array<ArgMeta>
    var overflowMeta: seq<ArgMeta>
    var count: nat
    // spillBuf.Length is the arena's capacity, spillLen its length
    var spillBuf: array<Byte>
    var spillLen: nat
    var spillPointers: seq<Pointer>
    var hasSpill: bool
    var dirty: bool
    // the size of the values of a type
    ghost const sizeOf: TypeId -> nat
    // the longest overflowMeta and spillPointers have been since they were last dropped
    ghost var metaPeak: nat
    ghost var pointerPeak: nat

    ghost predicate Shaped()
      reads this
    {
      && inlineValues.Length == 8 * INLINE_ARGS
      && inlinePointers.Length == INLINE_ARGS && inlineMeta.Length == INLINE_ARGS
      && inlineValues != spillBuf && spillLen <= spillBuf.Length
      && (spillBuf.Length == 0 || spillBuf.Length >= MIN_ARENA_CAP)
      && |overflowMeta| == (if count <= INLINE_ARGS then 0 else count - INLINE_ARGS)
    }

    ghost function Metas(): (ms: seq<ArgMeta>)
      reads this, inlineMeta
      requires Shaped()
      ensures |ms| == count
    {
      if count <= INLINE_ARGS then inlineMeta[..count] else inlineMeta[..] + overflowMeta
    }

    ghost function View(): Snap
      reads this, inlineMeta, inlineValues, inlinePointers, spillBuf
      requires Shaped()
    {
      Snap(Metas(), inlineValues[..], inlinePointers[..], spillBuf[..spillLen], spillBuf, spillPointers,
           hasSpill, dirty)
    }

    // The packed arguments.
    ghost function Args(): (args: seq<Arg>)
      reads this, inlineMeta, inlineValues, spillBuf
      requires Shaped()
      ensures |args| == count
    {
      ArgsOf(Metas(), inlineValues[..], spillBuf[..spillLen])
    }

    ghost predicate Valid()
      reads this, inlineMeta, inlineValues, inlinePointers, spillBuf
    {
      Shaped() && Good(View(), sizeOf) && PeaksOk(spillBuf.Length)
    }

    // Retained metadata and pointers are paid for by arena capacity.
    ghost predicate PeaksOk(cap: nat)
      reads this
    {
      && |overflowMeta| <= metaPeak && |spillPointers| <= pointerPeak
      && 8 * metaPeak <= cap + 7
      && 8 * pointerPeak <= 8 * INLINE_ARGS + cap + 7
    }

    constructor (ghost sizeOf: TypeId -> nat)
      ensures Valid() && Args() == [] && this.sizeOf == sizeOf
      ensures fresh(inlineValues) && fresh(inlinePointers) && fresh(inlineMeta) && fresh(spillBuf)
    {
      inlineValues := new Byte[8 * INLINE_ARGS](_ => 0);
      inlinePointers := new Pointer[INLINE_ARGS](_ => Inline(0));
      inlineMeta := new ArgMeta[INLINE_ARGS](_ => ArgMeta(-1, 0, None));
      spillBuf := new Byte[0];
      overflowMeta, spillPointers := [], [];
      count, spillLen, hasSpill, dirty := 0, 0, false, false;
      this.sizeOf, metaPeak, pointerPeak := sizeOf, 0, 0;
    }

    predicate GoesInline(n: nat)
      reads this
    {
      count < INLINE_ARGS && n <= 8
    }

    // The fields of the metadata can hold the place of an argument of n bytes.
    predicate Recordable(n: nat)
      reads this
    {
      GoesInline(n) || StoredExactly(n, AlignUp(spillLen))
    }

    // ... and there is a byte for its pointer to refer to.
    predicate Fits(n: nat)
      reads this
    {
      Recordable(n) && (n == 0 ==> GoesInline(n))
    }

    // Room for size bytes at the next aligned offset; a grown arena starts as a copy.
    method ArenaAlloc(size: nat) returns (off: nat)
      requires spillLen <= spillBuf.Length
      modifies this`spillBuf, this`spillLen
      ensures off == AlignUp(old(spillLen)) && spillLen == off + size <= spillBuf.Length
      ensures spillBuf == old(spillBuf) || fresh(spillBuf)
      ensures old(spillBuf.Length) <= spillBuf.Length
      ensures spillLen <= old(spillBuf.Length) ==> spillBuf == old(spillBuf)
      ensures spillLen > old(spillBuf.Length) ==>
                fresh(spillBuf) && spillBuf.Length == Largest(2 * old(spillBuf.Length), spillLen, MIN_ARENA_CAP)
      ensures spillBuf[..old(spillLen)] == old(spillBuf[..spillLen])
    {
      off := AlignUp(spillLen);
      var need := off + size;
      if spillBuf.Length < need {
        var grownCap := 2 * spillBuf.Length;
        if grownCap < need { grownCap := need; }
        if grownCap < MIN_ARENA_CAP { grownCap := MIN_ARENA_CAP; }
        var grown := new Byte[grownCap](_ => 0);
        CopyBytes(grown, 0, spillBuf[..spillLen]);
        assert grown[..spillLen] == spillBuf[..spillLen];
        spillBuf := grown;
      }
      spillLen := need;
    }

    // setMeta for the argument about to be added
    method SetMeta(m: ArgMeta)
      requires Shaped()
      modifies this`overflowMeta, this`metaPeak, this`count, inlineMeta
      ensures Shaped() && count == old(count) + 1
      ensures Metas() == old(Metas()) + [m]
      ensures metaPeak == (if |overflowMeta| > old(metaPeak) then |overflowMeta| else old(metaPeak))
    {
      if count < INLINE_ARGS {
        inlineMeta[count] := m;
      } else {
        overflowMeta := overflowMeta + [m];
      }
      if |overflowMeta| > metaPeak { metaPeak := |overflowMeta|; }
      count := count + 1;
    }

    // add, eight bytes or less among the first sixteen: the argument's own slot.
    method AddInline(data: seq<Byte>, typ: Option<TypeId>)
      requires Shaped() && PeaksOk(spillBuf.Length) && |data| <= 8 && count < INLINE_ARGS
      modifies this, inlineValues, inlinePointers, inlineMeta
      ensures Shaped() && PeaksOk(spillBuf.Length) && spillBuf == old(spillBuf)
      ensures AddsInline(old(View()), View(), data, typ)
    {
      WriteSlot(count, data);
      inlinePointers[count] := Inline(count);
      SetMeta(ArgMeta(-1, Narrow16(|data|), typ));
      dirty := hasSpill;
    }

    // The slot is cleared, then its first bytes are written.
    method WriteSlot(i: nat, data: seq<Byte>)
      requires i < INLINE_ARGS && |data| <= 8 && inlineValues.Length == 8 * INLINE_ARGS
      modifies inlineValues
      ensures inlineValues[..][8 * i..8 * i + |data|] == data
      ensures forall k :: 8 * i + |data| <= k < 8 * i + 8 ==> inlineValues[k] == 0
      ensures inlineValues[..][..8 * i] == old(inlineValues[..])[..8 * i]
      ensures inlineValues[..][8 * i + 8..] == old(inlineValues[..])[8 * i + 8..]
    {
      CopyBytes(inlineValues, 8 * i, seq(8, _ => 0));
      CopyBytes(inlineValues, 8 * i, data);
    }

    // The bytes of a new argument go behind everything in the arena.
    method AppendToArena(data: seq<Byte>) returns (off: nat)
      requires Shaped()
      modifies this`spillBuf, this`spillLen, spillBuf
      ensures Shaped() && (spillBuf == old(spillBuf) || fresh(spillBuf)) && spillBuf.Length >= old(spillBuf.Length)
      ensures off == AlignUp(old(spillLen)) && spillLen == off + |data|
      ensures old(spillBuf[..spillLen]) <= spillBuf[..spillLen] && spillBuf[..spillLen][off..] == data
    {
      ghost var arena := spillBuf[..spillLen];
      off := ArenaAlloc(|data|);
      CopyBytes(spillBuf, off, data);
      assert spillBuf[..spillLen][off..] == data;
      assert spillBuf[..spillLen][..|arena|] == arena;
    }

    // add, anything else: the arena.
    method AddSpilled(data: seq<Byte>, typ: Option<TypeId>)
      requires Shaped() && (count < INLINE_ARGS ==> |data| > 8)
      modifies this, inlineMeta, spillBuf
      ensures Shaped() && (spillBuf == old(spillBuf) || fresh(spillBuf)) && spillBuf.Length >= old(spillBuf.Length)
      ensures AddsSpill(old(View()), View(), data, typ) && spillLen == AlignUp(old(spillLen)) + |data|
      ensures metaPeak == (if |overflowMeta| > old(metaPeak) then |overflowMeta| else old(metaPeak))
      ensures pointerPeak == old(pointerPeak)
    {
      var off := AppendToArena(data);
      SetMeta(ArgMeta(Narrow32(off), Narrow16(|data|), typ));
      hasSpill, dirty := true, true;
    }

    // Where add puts an argument of n bytes, before its fields are narrowed.
    function Place(n: nat, typ: Option<TypeId>): ArgMeta
      reads this
    {
      ArgMeta(if GoesInline(n) then -1 else AlignUp(spillLen), n, typ)
    }

    /** add. The recorded place of the argument is right exactly when the fields can hold it, which
        nothing here checks; then, unless it is an empty argument in the arena, the arguments are
        the old ones and the new one. An argument of 64 KiB or more never reads back, and an empty
        one in the arena is placed behind its last byte. */
    method Add(data: seq<Byte>, typ: Option<TypeId>)
      requires Valid()
      requires typ.Some? ==> |data| == sizeOf(typ.value)
      modifies this, inlineValues, inlinePointers, inlineMeta, spillBuf
      ensures Shaped() && (spillBuf == old(spillBuf) || fresh(spillBuf)) && count == old(count) + 1
      ensures old(Fits(|data|)) ==> Valid() && Args() == old(Args()) + [Arg(data, typ)]
      ensures old(Recordable(|data|)) <==> Metas() == old(Metas()) + [old(Place(|data|, typ))]
      ensures data == [] && !old(GoesInline(0)) ==> old(Place(0, typ)).offset == spillLen
      ensures |data| >= 0x1_0000 ==> Args() != old(Args()) + [Arg(data, typ)]
    {
      ghost var before := View();
      ghost var place := Place(|data|, typ);
      if count < INLINE_ARGS && |data| <= 8 {
        AddInline(data, typ);
        InlineAdded(before, View(), data, typ, sizeOf);
      } else {
        AddSpilled(data, typ);
        ghost var after := View();
        SpillOutcome(before, after, data, typ, sizeOf, place);
        if data != [] && StoredExactly(|data|, place.offset) {
          assert PeaksOk(spillBuf.Length) by { PeaksPaidFor(after, |overflowMeta|); }
        }
      }
    }

    method Meta(i: nat) returns (m: ArgMeta)
      requires Shaped() && i < count
      ensures m == Metas()[i]
    {
      if i < INLINE_ARGS { return inlineMeta[i]; }
      return overflowMeta[i - INLINE_ARGS];
    }

    // write: the argument's bytes, in place.
    method Write(i: nat, m: ArgMeta, data: seq<Byte>)
      requires Shaped() && i < count && m == Metas()[i] && MetaOk(i, m, spillLen) && |data| == m.size
      modifies inlineValues, spillBuf
      ensures Writes(old(View()), View(), i, data)
    {
      if m.offset < 0 {
        CopyBytes(inlineValues, 8 * i, data);
      } else {
        SplicePrefix(spillBuf[..], spillLen, m.offset, data);
        CopyBytes(spillBuf, m.offset, data);
        assert spillBuf[..spillLen] == spillBuf[..][..spillLen];
        assert old(spillBuf[..spillLen]) == old(spillBuf[..])[..spillLen];
      }
    }

    // Set[T]: the value must have the exact type it was packed with.
    method Set(i: int, data: seq<Byte>, typ: TypeId) returns (status: Status)
      requires Valid() && |data| == sizeOf(typ)
      modifies inlineValues, spillBuf
      ensures Valid() && Pointers() == old(Pointers())
      ensures status == (if i < 0 || i >= count then IndexOutOfRange
                         else if old(Args())[i].typ != Some(typ) then TypeMismatch else Ok)
      ensures Args() == if status == Ok then old(Args())[i := Arg(data, Some(typ))] else old(Args())
    {
      if i < 0 || i >= count { return IndexOutOfRange; }
      var m := Meta(i);
      if m.typ != Some(typ) { return TypeMismatch; }
      status := Overwrite(i, m, data);
    }

    // SetBytes: the size must match, the type recorded stays.
    method SetBytes(i: int, data: seq<Byte>) returns (status: Status)
      requires Valid()
      modifies inlineValues, spillBuf
      ensures Valid() && Pointers() == old(Pointers())
      ensures status == (if i < 0 || i >= count then IndexOutOfRange
                         else if |data| != |old(Args())[i].bytes| then SizeMismatch else Ok)
      ensures Args() == if status == Ok then old(Args())[i := Arg(data, old(Args())[i].typ)] else old(Args())
    {
      if i < 0 || i >= count { return IndexOutOfRange; }
      var m := Meta(i);
      ArgSize(i);
      if |data| != m.size { return SizeMismatch; }
      status := Overwrite(i, m, data);
    }

    lemma ArgSize(i: nat)
      requires Valid() && i < count
      ensures |Args()[i].bytes| == Metas()[i].size && Args()[i].typ == Metas()[i].typ
    {
      assert MetaOk(i, View().ms[i], |View().arena|);
    }

    method Overwrite(i: nat, m: ArgMeta, data: seq<Byte>) returns (status: Status)
      requires Valid() && i < count && m == Metas()[i] && |data| == m.size
      modifies inlineValues, spillBuf
      ensures Valid() && status == Ok && Pointers() == old(Pointers())
      ensures Args() == old(Args())[i := Arg(data, m.typ)]
    {
      ghost var before := View();
      assert MetaOk(i, before.ms[i], spillLen);
      Write(i, m, data);
      Written(before, View(), i, data, sizeOf);
      return Ok;
    }

    // Where the arguments live now.
    ghost function Pointers(): (ps: seq<Pointer>)
      reads this, inlineMeta
      requires Shaped()
      ensures |ps| == count
    {
      PointersOf(Metas(), spillBuf)
    }

    // The n bytes a pointer refers to.
    ghost function Load(p: Pointer, n: nat): seq<Byte>
      reads inlineValues, if p.Arena? then {p.mem} else {}
    {
      match p
      case Inline(slot) => if 8 * slot + n <= inlineValues.Length then inlineValues[8 * slot..8 * slot + n] else []
      case Arena(mem, off) => if off + n <= mem.Length then mem[off..off + n] else []
    }

    // Params: the parameter array, from the cache unless something was packed since.
    method Params() returns (ps: seq<Pointer>)
      requires Valid()
      modifies this`spillPointers, this`dirty, this`pointerPeak
      ensures Valid() && Args() == old(Args()) && Pointers() == old(Pointers()) && ps == Pointers()
    {
      ghost var before := View();
      if count == 0 { return []; }
      if !hasSpill {
        SlotsSuffice(before, sizeOf);
        return inlinePointers[..count];
      }
      if dirty {
        RebuildPointers();
        OverflowArgsSpill(Metas());
      }
      return spillPointers;
    }

    method RebuildPointers()
      requires Shaped() && SlotsOk(Metas(), inlinePointers[..])
      requires forall k :: INLINE_ARGS <= k < count ==> Metas()[k].offset >= 0
      modifies this`spillPointers, this`dirty, this`pointerPeak
      ensures Shaped() && spillPointers == Pointers() && !dirty
      ensures pointerPeak == (if count > old(pointerPeak) then count else old(pointerPeak))
    {
      ghost var ms, all := Metas(), Pointers();
      spillPointers := [];
      var i := 0;
      while i < count
        invariant 0 <= i <= count && Shaped() && Metas() == ms
        invariant spillPointers == all[..i]
        invariant dirty == old(dirty) && pointerPeak == old(pointerPeak)
      {
        var m := Meta(i);
        if m.offset < 0 {
          spillPointers := spillPointers + [inlinePointers[i]];
        } else {
          spillPointers := spillPointers + [Arena(spillBuf, m.offset)];
        }
        NextPointer(ms, spillBuf, i);
        i := i + 1;
      }
      dirty := false;
      if |spillPointers| > pointerPeak { pointerPeak := |spillPointers|; }
    }

    // Every current pointer refers to the bytes its argument was last given, inside the
    // arena in use and at an aligned offset if it is not a slot, and no two overlap.
    lemma PointersAreLive(i: nat)
      requires Valid() && i < count
      ensures Load(Pointers()[i], |Args()[i].bytes|) == Args()[i].bytes
      ensures match Pointers()[i]
              case Inline(slot) => slot == i < INLINE_ARGS && |Args()[i].bytes| <= 8
              case Arena(mem, off) => mem == spillBuf && off % 8 == 0 && off < off + |Args()[i].bytes| <= spillLen
      ensures forall j :: i < j < count && Pointers()[i].Arena? && Pointers()[j].Arena? ==>
                Pointers()[i].off + |Args()[i].bytes| <= Pointers()[j].off
    {
      var s := View();
      assert MetaOk(i, s.ms[i], |s.arena|) && s.arena == spillBuf[..][..spillLen];
      BytesInPlace(i, s.ms[i], s.inline, spillBuf[..], spillLen);
      forall j | i < j < count && Pointers()[i].Arena? && Pointers()[j].Arena?
        ensures Pointers()[i].off + |Args()[i].bytes| <= Pointers()[j].off
      {
        assert Before(s.ms[i], s.ms[j]);
      }
    }

    // Every spilled argument uses up at least a word of the arena, so an arena within the
    // cap holds at most 1024 of them, and at most 16 arguments more are packed in all.
    lemma SpillsAreBounded()
      requires Valid()
      ensures 8 * SpillCount(Metas()) <= spillBuf.Length + 7 && count <= INLINE_ARGS + SpillCount(Metas())
      ensures spillBuf.Length <= MAX_RETAINED_SPILL_BYTES ==> SpillCount(Metas()) <= 1024 && |overflowMeta| <= 1024
    {
      OverflowArgsSpill(Metas());
    }

    // Reset keeps grown storage up to the cap; the cap bounds what the three slices retain.
    method Reset()
      requires Valid()
      modifies this
      ensures Valid() && Args() == [] && (fresh(spillBuf) || spillBuf == old(spillBuf))
      ensures old(spillBuf.Length) <= MAX_RETAINED_SPILL_BYTES ==>
                spillBuf == old(spillBuf) && metaPeak == old(metaPeak) && pointerPeak == old(pointerPeak)
      ensures old(spillBuf.Length) > MAX_RETAINED_SPILL_BYTES ==> spillBuf.Length == metaPeak == pointerPeak == 0
      ensures spillBuf.Length <= MAX_RETAINED_SPILL_BYTES && metaPeak <= 1024 && pointerPeak <= 1024 + INLINE_ARGS
    {
      count, hasSpill, dirty := 0, false, false;
      if spillBuf.Length > MAX_RETAINED_SPILL_BYTES {
        spillBuf := new Byte[0];
        metaPeak, pointerPeak := 0, 0;
      }
      spillLen, spillPointers, overflowMeta := 0, [], [];
      ghost var empty := View();
      NothingPacked(empty, sizeOf);
      assert Shaped() && PeaksOk(spillBuf.Length);
    }
  }
}
