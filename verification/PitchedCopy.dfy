/** Two- and three-dimensional copies between layouts with padded rows, and the buffers
    that use them. Device memory is one sequence of bytes; a copy reads what its source
    held before the call. */
module PitchedCopy {
  import opened Arithmetic
  import opened DeviceMemory

  // ---- Rows at a pitch

  // Row y starts y pitches after base.
  datatype Region = Region(base: nat, pitch: nat) {
    function Row(y: nat): nat { base + y * pitch }
  }

  predicate Fits(mem: seq<Byte>, r: Region, width: nat, rows: nat) {
    forall y: nat :: y < rows ==> r.Row(y) + width <= |mem|
  }

  lemma RowsApart(r: Region, y1: nat, y2: nat)
    requires y1 < y2
    ensures r.Row(y1) + r.pitch <= r.Row(y2)
  {
    Apart(y1, y2, r.pitch);
  }

  // The logical contents: the rows one after another, without padding.
  function Packed(mem: seq<Byte>, r: Region, width: nat, rows: nat): (s: seq<Byte>)
    requires Fits(mem, r, width, rows)
    ensures |s| == width * rows
  {
    if rows == 0 then []
    else
      var last := r.Row(rows - 1);
      assert width * rows == width * (rows - 1) + width;
      Packed(mem, r, width, rows - 1) + mem[last..last + width]
  }

  lemma PlaceInRows(y: nat, x: nat, rows: nat, width: nat, at: nat)
    requires y < rows && x < width && at == y * width + x
    ensures at < width * rows
    ensures if y < rows - 1 then at < width * (rows - 1) else at == width * (rows - 1) + x
  {
    Apart(y, rows, width);
    Apart(y, rows - 1, width);
  }

  // Byte x of row y is byte y * width + x of the contents.
  lemma {:induction false} PackedAt(mem: seq<Byte>, r: Region, width: nat, rows: nat, y: nat, x: nat, at: nat)
    requires Fits(mem, r, width, rows) && y < rows && x < width && at == y * width + x
    ensures at < width * rows
    ensures Packed(mem, r, width, rows)[at] == mem[r.Row(y) + x]
  {
    PlaceInRows(y, x, rows, width, at);
    if y < rows - 1 {
      PackedAt(mem, r, width, rows - 1, y, x, at);
    }
    LastRowPacked(mem, r, width, rows);
  }

  lemma LastRowPacked(mem: seq<Byte>, r: Region, width: nat, rows: nat)
    requires Fits(mem, r, width, rows) && 0 < rows
    ensures var start, earlier := r.Row(rows - 1), Packed(mem, r, width, rows - 1);
            Packed(mem, r, width, rows) == earlier + mem[start..start + width]
  {
  }

  // The contents depend on the rows alone.
  lemma {:induction false} PackedDepends(m1: seq<Byte>, m2: seq<Byte>, r: Region, width: nat, rows: nat)
    requires Fits(m1, r, width, rows) && Fits(m2, r, width, rows)
    requires forall y: nat :: y < rows ==> m1[r.Row(y)..r.Row(y) + width] == m2[r.Row(y)..r.Row(y) + width]
    ensures Packed(m1, r, width, rows) == Packed(m2, r, width, rows)
  {
    if rows > 0 {
      PackedDepends(m1, m2, r, width, rows - 1);
    }
  }

  // Rows without padding are their own contents.
  lemma {:induction false} PackedIsItself(s: seq<Byte>, width: nat, rows: nat)
    requires |s| >= width * rows
    ensures Fits(s, Region(0, width), width, rows)
    ensures Packed(s, Region(0, width), width, rows) == s[..width * rows]
  {
    forall y: nat | y < rows ensures Region(0, width).Row(y) + width <= |s| {
      Apart(y, rows, width);
    }
    if rows > 0 {
      assert width * rows == width * (rows - 1) + width;
      PackedIsItself(s, width, rows - 1);
    }
  }

  // ---- The driver's copies

  predicate FitsRows(mem: seq<Byte>, r: Region, width: nat, first: nat, end: nat) {
    forall y: nat :: first <= y < end ==> r.Row(y) + width <= |mem|
  }

  // Target rows first up to end, one after another, each from the source row that is back rows
  // further on (or, when negative, before).
  function CopyRows(src: seq<Byte>, from: Region, back: int, dst: seq<Byte>, onto: Region,
                    width: nat, first: nat, end: nat): (r: seq<Byte>)
    requires first <= end && 0 <= first + back
    requires FitsRows(src, from, width, first + back, end + back) && FitsRows(dst, onto, width, first, end)
    ensures |r| == |dst|
    decreases end
  {
    if first == end then dst
    else
      Overwrite(CopyRows(src, from, back, dst, onto, width, first, end - 1), onto.Row(end - 1),
                src[from.Row(end - 1 + back)..from.Row(end - 1 + back) + width])
  }

  // cuMemcpy2D.
  function Copy2D(src: seq<Byte>, from: Region, dst: seq<Byte>, onto: Region, width: nat, height: nat)
      : (r: seq<Byte>)
    requires Fits(src, from, width, height) && Fits(dst, onto, width, height)
    ensures |r| == |dst|
  {
    CopyRows(src, from, 0, dst, onto, width, 0, height)
  }

  ghost predicate InRows(k: nat, r: Region, width: nat, rows: nat) {
    exists y: nat :: y < rows && r.Row(y) <= k < r.Row(y) + width
  }

  // A copy writes rows and nothing else.
  lemma {:induction false} CopyKeepsTheRest(src: seq<Byte>, from: Region, dst: seq<Byte>, onto: Region,
                                            width: nat, rows: nat, k: nat)
    requires Fits(src, from, width, rows) && Fits(dst, onto, width, rows)
    requires k < |dst| && !InRows(k, onto, width, rows)
    ensures Copy2D(src, from, dst, onto, width, rows)[k] == dst[k]
  {
    if rows > 0 {
      assert !(onto.Row(rows - 1) <= k < onto.Row(rows - 1) + width);
      CopyKeepsTheRest(src, from, dst, onto, width, rows - 1, k);
    }
  }

  // One more row does not disturb the rows already there.
  lemma EarlierRowsStay(before: seq<Byte>, onto: Region, width: nat, last: nat, row: seq<Byte>)
    requires Fits(before, onto, width, last + 1) && |row| == width <= onto.pitch
    ensures Packed(Overwrite(before, onto.Row(last), row), onto, width, last) == Packed(before, onto, width, last)
  {
    var after := Overwrite(before, onto.Row(last), row);
    forall y: nat | y < last
      ensures before[onto.Row(y)..onto.Row(y) + width] == after[onto.Row(y)..onto.Row(y) + width]
    {
      RowsApart(onto, y, last);
    }
    PackedDepends(before, after, onto, width, last);
  }

  /** The logical contents arrive unchanged, whatever the two pitches. */
  lemma {:induction false} CopyMovesContents(src: seq<Byte>, from: Region, dst: seq<Byte>, onto: Region,
                                             width: nat, rows: nat)
    requires Fits(src, from, width, rows) && Fits(dst, onto, width, rows) && width <= onto.pitch
    ensures Packed(Copy2D(src, from, dst, onto, width, rows), onto, width, rows) == Packed(src, from, width, rows)
  {
    if rows > 0 {
      var last := rows - 1;
      CopyMovesContents(src, from, dst, onto, width, last);
      EarlierRowsStay(Copy2D(src, from, dst, onto, width, last), onto, width, last,
                      src[from.Row(last)..from.Row(last) + width]);
    }
  }

  // ---- Volumes

  // The layout fields of a 3D descriptor; the next slice of a side starts that side's height
  // rows further on.
  datatype Memcpy3D = Memcpy3D(from: Region, srcHeight: nat, onto: Region, dstHeight: nat,
                               width: nat, height: nat, depth: nat)

  // The row a slice starts at.
  function SliceRow(z: nat, sliceHeight: nat): nat { z * sliceHeight }

  predicate FitsSlices(mem: seq<Byte>, r: Region, sliceHeight: nat, width: nat, height: nat, depth: nat) {
    forall z: nat :: z < depth ==> FitsRows(mem, r, width, SliceRow(z, sliceHeight), SliceRow(z, sliceHeight) + height)
  }

  predicate Fits3D(src: seq<Byte>, dst: seq<Byte>, c: Memcpy3D) {
    && FitsSlices(src, c.from, c.srcHeight, c.width, c.height, c.depth)
    && FitsSlices(dst, c.onto, c.dstHeight, c.width, c.height, c.depth)
  }

  // cuMemcpy3D: slice by slice.
  function Copy3D(src: seq<Byte>, dst: seq<Byte>, c: Memcpy3D): (r: seq<Byte>)
    requires Fits3D(src, dst, c)
    ensures |r| == |dst|
    decreases c.depth
  {
    if c.depth == 0 then dst
    else
      var z := c.depth - 1;
      var s, d := SliceRow(z, c.srcHeight), SliceRow(z, c.dstHeight);
      CopyRows(src, c.from, s - d, Copy3D(src, dst, c.(depth := z)), c.onto, c.width, d, d + c.height)
  }

  lemma SliceEnds(height: nat, z: nat, depth: nat)
    requires z < depth
    ensures SliceRow(z, height) + height == SliceRow(z + 1, height) <= SliceRow(depth, height)
  {
    Apart(z + 1, depth, height);
  }

  // Slices as high as the rows copied from each lie without gaps.
  lemma DenseSlicesFit(mem: seq<Byte>, r: Region, width: nat, height: nat, depth: nat)
    requires Fits(mem, r, width, SliceRow(depth, height))
    ensures FitsSlices(mem, r, height, width, height, depth)
  {
    forall z: nat | z < depth ensures FitsRows(mem, r, width, SliceRow(z, height), SliceRow(z, height) + height) {
      SliceEnds(height, z, depth);
    }
  }

  // The rows up to middle and then the rows from middle on are all the rows.
  lemma {:induction false} CopyInTwoParts(src: seq<Byte>, from: Region, dst: seq<Byte>, onto: Region,
                                          width: nat, middle: nat, end: nat)
    requires middle <= end && Fits(src, from, width, end) && Fits(dst, onto, width, end)
    ensures CopyRows(src, from, 0, Copy2D(src, from, dst, onto, width, middle), onto, width, middle, end)
         == Copy2D(src, from, dst, onto, width, end)
    decreases end
  {
    if middle < end {
      CopyInTwoParts(src, from, dst, onto, width, middle, end - 1);
    }
  }

  lemma LastSlice(src: seq<Byte>, dst: seq<Byte>, c: Memcpy3D, z: nat, row: nat, end: nat)
    requires Fits3D(src, dst, c) && c.depth == z + 1 && end == row + c.height
    requires SliceRow(z, c.srcHeight) == row == SliceRow(z, c.dstHeight)
    ensures Copy3D(src, dst, c)
         == CopyRows(src, c.from, 0, Copy3D(src, dst, c.(depth := z)), c.onto, c.width, row, end)
  {
  }

  /** With the slice heights of both sides those of the volume, its 3D copy is the 2D copy of all
      its rows. */
  lemma {:induction false} VolumeCopyIsFlat(src: seq<Byte>, dst: seq<Byte>, c: Memcpy3D)
    requires c.srcHeight == c.height == c.dstHeight
    requires Fits(src, c.from, c.width, SliceRow(c.depth, c.height))
    requires Fits(dst, c.onto, c.width, SliceRow(c.depth, c.height))
    ensures Fits3D(src, dst, c)
    ensures Copy3D(src, dst, c) == Copy2D(src, c.from, dst, c.onto, c.width, SliceRow(c.depth, c.height))
    decreases c.depth
  {
    DenseSlicesFit(src, c.from, c.width, c.height, c.depth);
    DenseSlicesFit(dst, c.onto, c.width, c.height, c.depth);
    if c.depth > 0 {
      var z, all := c.depth - 1, SliceRow(c.depth, c.height);
      var done := SliceRow(z, c.height);
      SliceEnds(c.height, z, c.depth);
      VolumeCopyIsFlat(src, dst, c.(depth := z));
      LastSlice(src, dst, c, z, done, all);
      CopyInTwoParts(src, c.from, dst, c.onto, c.width, done, all);
    }
  }

  /** In and out again: the packed data comes back whole. */
  lemma RoundTrip(data: seq<Byte>, device: seq<Byte>, onto: Region, host: seq<Byte>, width: nat, rows: nat)
    requires |data| == |host| == width * rows && Fits(device, onto, width, rows) && width <= onto.pitch
    ensures Fits(data, Region(0, width), width, rows) && Fits(host, Region(0, width), width, rows)
    ensures var stored := Copy2D(data, Region(0, width), device, onto, width, rows);
            Copy2D(stored, onto, host, Region(0, width), width, rows) == data
  {
    PackedIsItself(data, width, rows);
    PackedIsItself(host, width, rows);
    var stored := Copy2D(data, Region(0, width), device, onto, width, rows);
    CopyMovesContents(data, Region(0, width), device, onto, width, rows);
    CopyMovesContents(stored, onto, host, Region(0, width), width, rows);
    var back := Copy2D(stored, onto, host, Region(0, width), width, rows);
    PackedIsItself(back, width, rows);
  }
}
