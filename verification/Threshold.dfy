/** Chunked thresholding of images in one address space: validation, the partition into chunks, and what the
    chunks write in whatever order they run. An address is an index into memory; address 0 is null. */
module Threshold {
  import opened Arith
  import opened Kernels
  import opened Prelude

  datatype ImageView = ImageView(data: nat, width: nat, height: nat, stride: nat, channels: nat)

  predicate Empty(v: ImageView)
  {
    v.width == 0 || v.height == 0
  }

  function RowBytes(v: ImageView): nat
  {
    v.width * v.channels
  }

  predicate Contiguous(v: ImageView)
  {
    Empty(v) || v.stride == RowBytes(v)
  }

  /** Each field of a view is a std::size_t. */
  predicate Sized(v: ImageView)
  {
    v.data <= SIZE_MAX && v.width <= SIZE_MAX && v.height <= SIZE_MAX && v.stride <= SIZE_MAX && v.channels <= SIZE_MAX
  }

  // ----- validation

  datatype Check = Valid | InvalidArgument | LengthError

  /** image_span_bytes; no result where it throws. */
  function SpanBytes(v: ImageView): (span: int)
    ensures -1 <= span
  {
    if Empty(v) then 0
    else
      var row := RowBytes(v);
      if v.height > 1 && (row > SIZE_MAX || v.stride > (SIZE_MAX - row) / (v.height - 1)) then -1
      else (v.height - 1) * v.stride + row
  }

  /** validate, for valid mode and route. */
  function Validate(src: ImageView, dst: ImageView): Check
  {
    if src.width != dst.width || src.height != dst.height then InvalidArgument
    else if src.channels != 1 || dst.channels != 1 then InvalidArgument
    else if Empty(src) then Valid
    else if src.data == 0 || dst.data == 0 then InvalidArgument
    else if src.stride < RowBytes(src) || dst.stride < RowBytes(dst) then InvalidArgument
    else
      var s, d := SpanBytes(src), SpanBytes(dst);
      if s < 0 || d < 0 then LengthError
      else if s > SIZE_MAX - src.data || d > SIZE_MAX - dst.data then LengthError
      else if src.data == dst.data then if src.stride != dst.stride then InvalidArgument else Valid
      else if src.data < dst.data + d && dst.data < src.data + s then InvalidArgument
      else Valid
  }

  /** The address after the last pixel, by exact arithmetic. */
  function End(v: ImageView): nat
    requires v.height > 0
  {
    v.data + (v.height - 1) * v.stride + v.width
  }

  predicate SameImage(src: ImageView, dst: ImageView)
  {
    src.data == dst.data && src.stride == dst.stride
  }

  /** What an operation may rely on once a non-empty request has been validated. */
  predicate Usable(src: ImageView, dst: ImageView)
  {
    && src.width == dst.width > 0 && src.height == dst.height > 0 && src.channels == dst.channels == 1
    && src.data != 0 && dst.data != 0
    && src.stride >= src.width && dst.stride >= dst.width
    && End(src) <= SIZE_MAX && End(dst) <= SIZE_MAX
    && (SameImage(src, dst) || End(src) <= dst.data || End(dst) <= src.data)
  }

  lemma SpanIs(v: ImageView)
    requires Sized(v) && !Empty(v) && v.channels == 1
    ensures SpanBytes(v) < 0 <==> (v.height - 1) * v.stride + v.width > SIZE_MAX
    ensures SpanBytes(v) >= 0 ==> SpanBytes(v) == (v.height - 1) * v.stride + v.width
  {
    Commute(v.height - 1, v.stride);
    if v.height > 1 { OverflowTest(v.stride, v.height - 1, SIZE_MAX - v.width); }
  }

  /** A non-empty request passes exactly when it is usable: the guarded arithmetic makes the same decisions as
      exact arithmetic. */
  lemma ValidateIsUsable(src: ImageView, dst: ImageView)
    requires Sized(src) && Sized(dst)
    ensures !Empty(src) ==> (Validate(src, dst).Valid? <==> Usable(src, dst))
  {
    if !Empty(src) && src.width == dst.width && src.height == dst.height && src.channels == dst.channels == 1 {
      SpanIs(src);
      SpanIs(dst);
      MulMono(0, src.height - 1, src.stride);
      MulMono(0, dst.height - 1, dst.stride);
    }
  }

  // ----- the partition

  function ChunkBegin(total: nat, chunks: nat, ordinal: nat): nat
    requires chunks > 0
  {
    ordinal * (total / chunks) + Min(ordinal, total % chunks)
  }

  function ChunkEnd(total: nat, chunks: nat, ordinal: nat): nat
    requires chunks > 0
  {
    ChunkBegin(total, chunks, ordinal) + total / chunks + (if ordinal < total % chunks then 1 else 0)
  }

  lemma ChunkNext(total: nat, chunks: nat, ordinal: nat)
    requires chunks > 0
    ensures ChunkEnd(total, chunks, ordinal) == ChunkBegin(total, chunks, ordinal + 1)
    ensures ChunkBegin(total, chunks, ordinal) <= ChunkEnd(total, chunks, ordinal)
  {
    MulStep(ordinal, total / chunks);
  }

  lemma ChunkEdges(total: nat, chunks: nat)
    requires chunks > 0
    ensures ChunkBegin(total, chunks, 0) == 0 && ChunkBegin(total, chunks, chunks) == total
  {
    assert total == chunks * (total / chunks) + total % chunks;
  }

  lemma {:induction false} ChunkOrder(total: nat, chunks: nat, a: nat, b: nat)
    requires chunks > 0 && a <= b
    ensures ChunkBegin(total, chunks, a) <= ChunkBegin(total, chunks, b)
    decreases b - a
  {
    if a < b {
      ChunkOrder(total, chunks, a, b - 1);
      ChunkNext(total, chunks, b - 1);
    }
  }

  predicate InChunk(total: nat, chunks: nat, ordinal: nat, unit: nat)
    requires chunks > 0
  {
    ChunkBegin(total, chunks, ordinal) <= unit < ChunkEnd(total, chunks, ordinal)
  }

  /** Every unit lies in exactly one chunk, also when there are more chunks than units, and no number on the
      way exceeds the total. */
  lemma ChunksPartition(total: nat, chunks: nat, unit: nat) returns (ordinal: nat)
    requires chunks > 0 && unit < total
    ensures ordinal < chunks && InChunk(total, chunks, ordinal, unit)
    ensures forall o :: 0 <= o < chunks && InChunk(total, chunks, o, unit) ==> o == ordinal
    ensures forall o :: 0 <= o < chunks ==> ChunkEnd(total, chunks, o) <= total && o * (total / chunks) <= total
  {
    ChunkEdges(total, chunks);
    ordinal := FindChunk(total, chunks, unit, chunks);
    forall o | 0 <= o < chunks
      ensures ChunkEnd(total, chunks, o) <= total && o * (total / chunks) <= total
      ensures InChunk(total, chunks, o, unit) ==> o == ordinal
    {
      ChunkInside(total, chunks, o);
      OneChunk(total, chunks, o, ordinal, unit);
    }
  }

  lemma ChunkInside(total: nat, chunks: nat, o: nat)
    requires chunks > 0 && o < chunks
    ensures ChunkBegin(total, chunks, o) <= ChunkEnd(total, chunks, o) <= total && o * (total / chunks) <= total
  {
    ChunkNext(total, chunks, o);
    ChunkOrder(total, chunks, o + 1, chunks);
    ChunkEdges(total, chunks);
  }

  lemma OneChunk(total: nat, chunks: nat, a: nat, b: nat, unit: nat)
    requires chunks > 0 && InChunk(total, chunks, b, unit)
    ensures InChunk(total, chunks, a, unit) ==> a == b
  {
    if a < b { ChunkNext(total, chunks, a); ChunkOrder(total, chunks, a + 1, b); }
    if b < a { ChunkNext(total, chunks, b); ChunkOrder(total, chunks, b + 1, a); }
  }

  lemma {:induction false} FindChunk(total: nat, chunks: nat, unit: nat, below: nat) returns (ordinal: nat)
    requires chunks > 0 && below <= chunks && unit < ChunkBegin(total, chunks, below)
    ensures ordinal < below && InChunk(total, chunks, ordinal, unit)
    decreases below
  {
    ChunkEdges(total, chunks);
    ordinal := below - 1;
    ChunkNext(total, chunks, ordinal);
    if unit < ChunkBegin(total, chunks, ordinal) {
      ordinal := FindChunk(total, chunks, unit, ordinal);
    }
  }

  function NativeChunkCount(src: ImageView, workerBudget: nat): (n: nat)
    ensures n >= 1
  {
    var units := if Contiguous(src) then src.width * src.height else src.height;
    var desired := if workerBudget > SIZE_MAX / 4 then SIZE_MAX else workerBudget * 4;
    Max(1, Min(units, desired))
  }

  // ----- the pixels of an image

  /** The row an address would lie in, and how far into it. */
  function RowOf(v: ImageView, i: nat): nat
    requires v.stride > 0 && v.data <= i
  {
    (i - v.data) / v.stride
  }

  function ColumnOf(v: ImageView, i: nat): int
    requires v.stride > 0 && v.data <= i
  {
    i - v.data - RowOf(v, i) * v.stride
  }

  /** The address holds a pixel, not row padding or something else. */
  predicate Inside(v: ImageView, i: nat)
    requires v.stride > 0
  {
    v.data <= i && RowOf(v, i) < v.height && ColumnOf(v, i) < v.width
  }

  function At(v: ImageView, row: nat, column: nat): nat
  {
    v.data + row * v.stride + column
  }

  /** Rows and columns are the coordinates of pixels, and back. */
  lemma Coordinates(v: ImageView, row: nat, column: nat)
    requires v.stride >= v.width > column && row < v.height
    ensures Inside(v, At(v, row, column)) && RowOf(v, At(v, row, column)) == row
        && ColumnOf(v, At(v, row, column)) == column
    ensures At(v, row, column) < End(v)
  {
    QuotientIs(row * v.stride + column, v.stride, row);
    MulMono(row, v.height - 1, v.stride);
  }

  lemma BackToAddress(v: ImageView, i: nat)
    requires v.stride > 0 && Inside(v, i)
    ensures 0 <= ColumnOf(v, i) && i == At(v, RowOf(v, i), ColumnOf(v, i)) && v.data <= i < End(v)
  {
    DivBounds(i - v.data, v.stride);
    MulMono(RowOf(v, i), v.height - 1, v.stride);
  }

  /** Where the pixel for address i comes from. */
  function SourceOf(src: ImageView, dst: ImageView, i: nat): nat
    requires dst.stride > 0 && Inside(dst, i)
  {
    DivBounds(i - dst.data, dst.stride);
    At(src, RowOf(dst, i), ColumnOf(dst, i))
  }

  lemma SourceInBounds(src: ImageView, dst: ImageView, i: nat)
    requires Usable(src, dst) && Inside(dst, i)
    ensures src.data <= SourceOf(src, dst, i) < End(src)
    ensures Inside(src, SourceOf(src, dst, i))
    ensures SameImage(src, dst) ==> SourceOf(src, dst, i) == i
    ensures !SameImage(src, dst) ==> !Inside(dst, SourceOf(src, dst, i))
  {
    BackToAddress(dst, i);
    Coordinates(src, RowOf(dst, i), ColumnOf(dst, i));
    if !SameImage(src, dst) && Inside(dst, SourceOf(src, dst, i)) {
      BackToAddress(dst, SourceOf(src, dst, i));
      assert false;
    }
  }

  // ----- what the operation must do

  /** The simple form: every pixel from the original source, everything else as it was. */
  function Wanted(was: seq<bv8>, src: ImageView, dst: ImageView, q: Params, i: nat): bv8
    requires Usable(src, dst) && End(src) <= |was| && i < |was|
  {
    if Inside(dst, i) then
      SourceInBounds(src, dst, i);
      Shade(q, was[SourceOf(src, dst, i)])
    else was[i]
  }

  /** Both buffers without padding: chunks count pixels. Otherwise they count rows. */
  predicate Linear(src: ImageView, dst: ImageView)
  {
    Contiguous(src) && Contiguous(dst)
  }

  function Total(src: ImageView, dst: ImageView): nat
  {
    if Linear(src, dst) then src.width * src.height else src.height
  }

  function UnitOf(src: ImageView, dst: ImageView, i: nat): nat
    requires dst.stride > 0 && dst.data <= i
  {
    if Linear(src, dst) then i - dst.data else RowOf(dst, i)
  }

  predicate InUnits(src: ImageView, dst: ImageView, lo: nat, hi: nat, i: nat)
    requires dst.stride > 0
  {
    Inside(dst, i) && lo <= UnitOf(src, dst, i) < hi
  }

  predicate WrittenAt(was: seq<bv8>, now: seq<bv8>, src: ImageView, dst: ImageView, q: Params, lo: nat, hi: nat, i: nat)
    requires Usable(src, dst) && End(src) <= |was| == |now| && i < |was|
  {
    now[i] == if InUnits(src, dst, lo, hi, i) then Wanted(was, src, dst, q, i) else was[i]
  }

  /** The units from lo up to hi are written, and nothing else. */
  ghost predicate Written(was: seq<bv8>, now: seq<bv8>, src: ImageView, dst: ImageView, q: Params, lo: nat, hi: nat)
    requires Usable(src, dst) && End(src) <= |was| == |now|
  {
    forall i: nat :: i < |was| ==> WrittenAt(was, now, src, dst, q, lo, hi, i)
  }

  // ----- rows

  /** The addresses of one row. */
  lemma RowAddresses(v: ImageView, row: nat, i: nat)
    requires v.stride >= v.width > 0 && row < v.height
    ensures At(v, row, 0) <= i < At(v, row, 0) + v.width <==> Inside(v, i) && RowOf(v, i) == row
    ensures Inside(v, i) && RowOf(v, i) == row ==> ColumnOf(v, i) == i - At(v, row, 0)
    ensures v.data <= At(v, row, 0) && At(v, row, 0) + v.width <= End(v)
  {
    MulMono(0, row, v.stride);
    MulMono(row, v.height - 1, v.stride);
    if At(v, row, 0) <= i < At(v, row, 0) + v.width {
      Coordinates(v, row, i - At(v, row, 0));
    }
    if Inside(v, i) && RowOf(v, i) == row {
      BackToAddress(v, i);
    }
  }

  lemma RowsApart(src: ImageView, dst: ImageView, row: nat)
    requires Usable(src, dst) && row < src.height
    ensures Apart(At(src, row, 0), At(dst, row, 0), src.width)
    ensures At(src, row, 0) + src.width <= End(src) && At(dst, row, 0) + dst.width <= End(dst)
  {
    RowAddresses(src, row, 0);
    RowAddresses(dst, row, 0);
    if SameImage(src, dst) {
      assert At(src, row, 0) == At(dst, row, 0);
    } else {
      hide At, End;
    }
  }

  /** One more row written by the kernel. */
  lemma RowAdded(was: seq<bv8>, before: seq<bv8>, now: seq<bv8>, src: ImageView, dst: ImageView, q: Params,
          lo: nat, row: nat)
    requires Usable(src, dst) && !Linear(src, dst) && End(src) <= |was| == |before| == |now| && End(dst) <= |was|
    requires lo <= row < src.height && Written(was, before, src, dst, q, lo, row)
    requires At(src, row, 0) + src.width <= |was| && At(dst, row, 0) + dst.width <= |was|
    requires Filled(before, now, At(src, row, 0), At(dst, row, 0), src.width, q)
    ensures Written(was, now, src, dst, q, lo, row + 1)
  {
    hide Inside, RowOf, ColumnOf, Shade;
    var hi := row + 1;
    forall i: nat | i < |was| ensures WrittenAt(was, now, src, dst, q, lo, hi, i) {
      assert FilledAt(before, now, At(src, row, 0), At(dst, row, 0), src.width, q, i);
      assert WrittenAt(was, before, src, dst, q, lo, row, i);
      RowAddresses(dst, row, i);
      if At(dst, row, 0) <= i < At(dst, row, 0) + dst.width {
        var s := SourceOf(src, dst, i);
        SourceInBounds(src, dst, i);
        assert s == At(src, row, 0) + (i - At(dst, row, 0));
        assert WrittenAt(was, before, src, dst, q, lo, row, s);
        assert before[s] == was[s];
      }
    }
  }

  lemma NoneWritten(was: seq<bv8>, src: ImageView, dst: ImageView, q: Params, lo: nat)
    requires Usable(src, dst) && End(src) <= |was|
    ensures Written(was, was, src, dst, q, lo, lo)
  {
    hide Inside, Wanted;
  }

  /** threshold_u8_rows: the same loop for buffers in place and apart. */
  method ThresholdRows(kind: Kind, mem: array<bv8>, src: ImageView, dst: ImageView, q: Params, lo: nat, hi: nat)
    requires Usable(src, dst) && !Linear(src, dst) && End(src) <= mem.Length && End(dst) <= mem.Length
    requires lo <= hi <= src.height
    modifies mem
    ensures Written(old(mem[..]), mem[..], src, dst, q, lo, hi)
  {
    hide Written, Filled, Usable, Linear;
    ghost var was := mem[..];
    NoneWritten(was, src, dst, q, lo);
    for row := lo to hi
      invariant Written(was, mem[..], src, dst, q, lo, row)
    {
      ghost var before := mem[..];
      RowsApart(src, dst, row);
      assert src.width == dst.width by { SameShape(src, dst); }
      Kernels.Threshold(kind, mem, At(src, row, 0), At(dst, row, 0), src.width, q);
      RowAdded(was, before, mem[..], src, dst, q, lo, row);
    }
  }

  lemma SameShape(src: ImageView, dst: ImageView)
    requires Usable(src, dst)
    ensures src.width == dst.width > 0 && src.height == dst.height > 0 && src.stride > 0 && dst.stride > 0
  {
  }

  // ----- contiguous buffers

  /** Without padding the pixels are one run of addresses. */
  lemma LinearAddresses(v: ImageView, i: nat)
    requires v.stride == v.width > 0 && v.height > 0
    ensures End(v) == v.data + v.width * v.height
    ensures Inside(v, i) <==> v.data <= i < v.data + v.width * v.height
  {
    MulStep(v.height - 1, v.stride);
    if v.data <= i {
      DivBounds(i - v.data, v.stride);
      if RowOf(v, i) < v.height { MulMono(RowOf(v, i) + 1, v.height, v.stride); MulStep(RowOf(v, i), v.stride); }
      else { MulMono(v.height, RowOf(v, i), v.stride); }
    }
  }

  lemma LinearSource(src: ImageView, dst: ImageView, i: nat)
    requires Usable(src, dst) && Linear(src, dst) && Inside(dst, i)
    ensures SourceOf(src, dst, i) == src.data + (i - dst.data)
  {
    BackToAddress(dst, i);
  }

  lemma LinearRun(was: seq<bv8>, now: seq<bv8>, src: ImageView, dst: ImageView, q: Params, lo: nat, hi: nat)
    requires Usable(src, dst) && Linear(src, dst) && End(src) <= |was| == |now| && End(dst) <= |was|
    requires lo <= hi <= src.width * src.height
    requires src.data + hi <= |was| && dst.data + hi <= |was|
    requires Filled(was, now, src.data + lo, dst.data + lo, hi - lo, q)
    ensures Written(was, now, src, dst, q, lo, hi)
  {
    hide Inside, RowOf, ColumnOf, Shade;
    forall i: nat | i < |was| ensures WrittenAt(was, now, src, dst, q, lo, hi, i) {
      assert FilledAt(was, now, src.data + lo, dst.data + lo, hi - lo, q, i);
      LinearAddresses(dst, i);
      if Inside(dst, i) {
        LinearSource(src, dst, i);
        SourceInBounds(src, dst, i);
      }
    }
  }

  lemma LinearBounds(src: ImageView, dst: ImageView, hi: nat)
    requires Usable(src, dst) && Linear(src, dst) && hi <= src.width * src.height
    ensures src.data + hi <= End(src) && dst.data + hi <= End(dst) && src.width * src.height <= SIZE_MAX
  {
    LinearAddresses(src, 0);
    LinearAddresses(dst, 0);
  }

  // ----- the operation

  /** execute_native_chunk. */
  method ExecuteChunk(kind: Kind, mem: array<bv8>, src: ImageView, dst: ImageView, q: Params, chunks: nat, ordinal: nat)
    requires Usable(src, dst) && End(src) <= mem.Length && End(dst) <= mem.Length
    requires ordinal < chunks
    modifies mem
    ensures var total := Total(src, dst);
      Written(old(mem[..]), mem[..], src, dst, q, ChunkBegin(total, chunks, ordinal), ChunkEnd(total, chunks, ordinal))
  {
    hide Written, Filled, Usable, ChunkBegin, ChunkEnd, Contiguous;
    var total := Total(src, dst);
    var begin, end := ChunkBegin(total, chunks, ordinal), ChunkEnd(total, chunks, ordinal);
    ChunkInside(total, chunks, ordinal);
    if Contiguous(src) && Contiguous(dst) {
      LinearBounds(src, dst, end);
      ghost var was := mem[..];
      assert Apart(src.data + begin, dst.data + begin, end - begin) by { LinearApart(src, dst, begin, end); }
      Kernels.Threshold(kind, mem, src.data + begin, dst.data + begin, end - begin, q);
      LinearRun(was, mem[..], src, dst, q, begin, end);
      return;
    }
    ThresholdRows(kind, mem, src, dst, q, begin, end);
  }

  lemma LinearApart(src: ImageView, dst: ImageView, begin: nat, end: nat)
    requires Usable(src, dst) && Linear(src, dst) && begin <= end <= src.width * src.height
    ensures Apart(src.data + begin, dst.data + begin, end - begin)
  {
    LinearAddresses(src, 0);
    LinearAddresses(dst, 0);
  }

  /** execute_native_sequential: the whole image at once. */
  method ExecuteSequential(kind: Kind, mem: array<bv8>, src: ImageView, dst: ImageView, q: Params)
    requires Usable(src, dst) && End(src) <= mem.Length && End(dst) <= mem.Length
    modifies mem
    ensures forall i: nat :: i < mem.Length ==> mem[i] == Wanted(old(mem[..]), src, dst, q, i)
  {
    hide Filled, Usable, Contiguous, Inside, Wanted;
    ghost var was := mem[..];
    var total := Total(src, dst);
    if Contiguous(src) && Contiguous(dst) {
      LinearBounds(src, dst, total);
      assert Apart(src.data + 0, dst.data + 0, total) by { LinearApart(src, dst, 0, total); }
      Kernels.Threshold(kind, mem, src.data, dst.data, total, q);
      LinearRun(was, mem[..], src, dst, q, 0, total);
    } else {
      ThresholdRows(kind, mem, src, dst, q, 0, src.height);
    }
    AllUnits(was, mem[..], src, dst, q);
  }

  lemma UnitInTotal(src: ImageView, dst: ImageView, i: nat)
    requires Usable(src, dst) && Inside(dst, i)
    ensures UnitOf(src, dst, i) < Total(src, dst)
  {
    if Linear(src, dst) { LinearAddresses(dst, i); }
  }

  lemma AllUnits(was: seq<bv8>, now: seq<bv8>, src: ImageView, dst: ImageView, q: Params)
    requires Usable(src, dst) && End(src) <= |was| == |now| && Written(was, now, src, dst, q, 0, Total(src, dst))
    ensures forall i: nat :: i < |was| ==> now[i] == Wanted(was, src, dst, q, i)
  {
    hide Inside, Shade, Usable, Total;
    forall i: nat | i < |was| ensures now[i] == Wanted(was, src, dst, q, i) {
      SameShape(src, dst);
      assert WrittenAt(was, now, src, dst, q, 0, Total(src, dst), i);
      if Inside(dst, i) { UnitInTotal(src, dst, i); } else { OutsideStays(was, src, dst, q, i); }
    }
  }

  lemma OutsideStays(was: seq<bv8>, src: ImageView, dst: ImageView, q: Params, i: nat)
    requires Usable(src, dst) && End(src) <= |was| && i < |was| && !Inside(dst, i)
    ensures Wanted(was, src, dst, q, i) == was[i]
  {
  }

  // ----- chunks in any order

  /** The unit of address i lies in one of the chunks that have run. */
  predicate Covered(src: ImageView, dst: ImageView, chunks: nat, order: seq<nat>, i: nat)
    requires dst.stride > 0 && chunks > 0 && dst.data <= i
  {
    exists k :: 0 <= k < |order| && InChunk(Total(src, dst), chunks, order[k], UnitOf(src, dst, i))
  }

  predicate DoneAt(was: seq<bv8>, now: seq<bv8>, src: ImageView, dst: ImageView, q: Params, chunks: nat,
          order: seq<nat>, i: nat)
    requires Usable(src, dst) && chunks > 0 && End(src) <= |was| == |now| && i < |was|
  {
    now[i] == if Inside(dst, i) && Covered(src, dst, chunks, order, i) then Wanted(was, src, dst, q, i) else was[i]
  }

  ghost predicate DoneChunks(was: seq<bv8>, now: seq<bv8>, src: ImageView, dst: ImageView, q: Params, chunks: nat,
          order: seq<nat>)
    requires Usable(src, dst) && chunks > 0 && End(src) <= |was| == |now|
  {
    forall i: nat :: i < |was| ==> DoneAt(was, now, src, dst, q, chunks, order, i)
  }

  predicate Distinct(order: seq<nat>)
  {
    forall i, j :: 0 <= i < j < |order| ==> order[i] != order[j]
  }

  lemma CoveredSnoc(src: ImageView, dst: ImageView, chunks: nat, order: seq<nat>, o: nat, i: nat)
    requires dst.stride > 0 && chunks > 0 && dst.data <= i
    ensures Covered(src, dst, chunks, order + [o], i) <==>
            Covered(src, dst, chunks, order, i) || InChunk(Total(src, dst), chunks, o, UnitOf(src, dst, i))
  {
    hide InChunk, Total, UnitOf;
    var all := order + [o];
    if Covered(src, dst, chunks, order, i) {
      var k :| 0 <= k < |order| && InChunk(Total(src, dst), chunks, order[k], UnitOf(src, dst, i));
      assert all[k] == order[k];
    }
    assert all[|order|] == o;
  }

  /** One more chunk: it reads only bytes that no chunk so far has changed. */
  lemma ChunkAdded(was: seq<bv8>, before: seq<bv8>, now: seq<bv8>, src: ImageView, dst: ImageView, q: Params,
                   chunks: nat, order: seq<nat>, o: nat)
    requires Usable(src, dst) && chunks > 0 && End(src) <= |was| == |before| == |now| && o !in order
    requires DoneChunks(was, before, src, dst, q, chunks, order)
    requires var total := Total(src, dst);
      Written(before, now, src, dst, q, ChunkBegin(total, chunks, o), ChunkEnd(total, chunks, o))
    ensures DoneChunks(was, now, src, dst, q, chunks, order + [o])
  {
    hide Inside, Shade, Total, ChunkBegin, ChunkEnd, UnitOf, Usable, Covered;
    var all := order + [o];
    var total := Total(src, dst);
    var lo, hi := ChunkBegin(total, chunks, o), ChunkEnd(total, chunks, o);
    forall i: nat | i < |was| ensures DoneAt(was, now, src, dst, q, chunks, all, i) {
      assert DoneAt(was, before, src, dst, q, chunks, order, i);
      assert WrittenAt(before, now, src, dst, q, lo, hi, i);
      SameShape(src, dst);
      if Inside(dst, i) {
        assert dst.data <= i by { BackToAddress(dst, i); }
        CoveredSnoc(src, dst, chunks, order, o, i);
        if InChunk(total, chunks, o, UnitOf(src, dst, i)) {
          SourceUntouched(was, before, src, dst, q, chunks, order, o, i);
        }
      }
    }
  }

  lemma SourceUntouched(was: seq<bv8>, before: seq<bv8>, src: ImageView, dst: ImageView, q: Params,
                        chunks: nat, order: seq<nat>, o: nat, i: nat)
    requires Usable(src, dst) && chunks > 0 && End(src) <= |was| == |before| && o !in order && i < |was|
    requires DoneChunks(was, before, src, dst, q, chunks, order)
    requires Inside(dst, i) && InChunk(Total(src, dst), chunks, o, UnitOf(src, dst, i))
    ensures Wanted(before, src, dst, q, i) == Wanted(was, src, dst, q, i)
  {
    hide Inside, Shade, Total, ChunkBegin, ChunkEnd, UnitOf, Usable, InChunk;
    SameShape(src, dst);
    SourceInBounds(src, dst, i);
    var s := SourceOf(src, dst, i);
    assert s < End(src) <= |was|;
    assert DoneAt(was, before, src, dst, q, chunks, order, s);
    if Inside(dst, s) {
      assert s == i;
      BackToAddress(dst, i);
      forall k | 0 <= k < |order| ensures !InChunk(Total(src, dst), chunks, order[k], UnitOf(src, dst, i)) {
        OneChunk(Total(src, dst), chunks, order[k], o, UnitOf(src, dst, i));
      }
    }
  }

  /** Whatever order the chunks run in, once each: every pixel ends up with the value the simple form gives it
      and every other byte is left alone. So it is also what ExecuteSequential leaves behind. */
  method ExecuteChunks(kind: Kind, mem: array<bv8>, src: ImageView, dst: ImageView, q: Params, chunks: nat,
          order: seq<nat>)
    requires Usable(src, dst) && End(src) <= mem.Length && End(dst) <= mem.Length
    requires chunks > 0 && Distinct(order) && forall o :: 0 <= o < chunks <==> o in order
    modifies mem
    ensures forall i: nat :: i < mem.Length ==> mem[i] == Wanted(old(mem[..]), src, dst, q, i)
  {
    hide Written, DoneChunks, Usable, Wanted, Inside;
    ghost var was := mem[..];
    NoChunks(was, src, dst, q, chunks);
    for k := 0 to |order|
      invariant DoneChunks(was, mem[..], src, dst, q, chunks, order[..k])
    {
      ghost var before := mem[..];
      assert order[k] in order;
      ExecuteChunk(kind, mem, src, dst, q, chunks, order[k]);
      ChunkAdded(was, before, mem[..], src, dst, q, chunks, order[..k], order[k]);
      assert order[..k] + [order[k]] == order[..k + 1];
    }
    assert order[..|order|] == order;
    AllChunks(was, mem[..], src, dst, q, chunks, order);
  }

  lemma NoChunks(was: seq<bv8>, src: ImageView, dst: ImageView, q: Params, chunks: nat)
    requires Usable(src, dst) && chunks > 0 && End(src) <= |was|
    ensures DoneChunks(was, was, src, dst, q, chunks, [])
  {
    hide Inside, Wanted;
  }

  lemma AllChunks(was: seq<bv8>, now: seq<bv8>, src: ImageView, dst: ImageView, q: Params, chunks: nat, order: seq<nat>)
    requires Usable(src, dst) && chunks > 0 && End(src) <= |was| == |now|
    requires DoneChunks(was, now, src, dst, q, chunks, order) && forall o :: 0 <= o < chunks <==> o in order
    ensures forall i: nat :: i < |was| ==> now[i] == Wanted(was, src, dst, q, i)
  {
    hide Inside, Shade, Usable, Total, UnitOf, ChunkBegin, ChunkEnd, InChunk;
    forall i: nat | i < |was| ensures now[i] == Wanted(was, src, dst, q, i) {
      SameShape(src, dst);
      assert DoneAt(was, now, src, dst, q, chunks, order, i);
      if Inside(dst, i) {
        BackToAddress(dst, i);
        UnitInTotal(src, dst, i);
        var o := ChunksPartition(Total(src, dst), chunks, UnitOf(src, dst, i));
        assert o in order;
      } else {
        OutsideStays(was, src, dst, q, i);
      }
    }
  }

  // ----- a request from start to end

  datatype Route = SequentialRoute | ChunkedRoute(order: seq<nat>)

  /** Each chunk of a chunked route runs once. */
  ghost predicate RunsOnce(route: Route, chunks: nat)
  {
    route.ChunkedRoute? ==> Distinct(route.order) && forall o :: 0 <= o < chunks <==> o in route.order
  }

  /** A request, natively executed: refused requests and empty images leave memory alone, all others leave
      exactly the wanted bytes, whatever the route, the number of workers and the order of chunks. What the
      caller owes is memory behind the buffers it names. */
  method Execute(kind: Kind, mem: array<bv8>, src: ImageView, dst: ImageView, q: Params, route: Route,
          workerBudget: nat)
    returns (check: Check)
    requires Sized(src) && Sized(dst) && RunsOnce(route, NativeChunkCount(src, workerBudget))
    requires Usable(src, dst) ==> End(src) <= mem.Length && End(dst) <= mem.Length
    modifies mem
    ensures check == Validate(src, dst)
    ensures !check.Valid? || Empty(src) ==> mem[..] == old(mem[..])
    ensures check.Valid? && !Empty(src) ==>
              Usable(src, dst) && forall i: nat :: i < mem.Length ==> mem[i] == Wanted(old(mem[..]), src, dst, q, i)
  {
    hide Usable, Wanted, Validate, NativeChunkCount, Empty;
    check := Validate(src, dst);
    if !check.Valid? || Empty(src) { return; }
    ValidateIsUsable(src, dst);
    match route
    case SequentialRoute => ExecuteSequential(kind, mem, src, dst, q);
    case ChunkedRoute(order) => ExecuteChunks(kind, mem, src, dst, q, NativeChunkCount(src, workerBudget), order);
  }

  // ----- machine arithmetic

  /** Once a request has been validated no offset, address or count leaves the 64-bit range. */
  lemma IndicesFit(src: ImageView, dst: ImageView, row: nat, column: nat, workerBudget: nat)
    requires Usable(src, dst) && row < src.height && column < src.width
    ensures row * src.stride <= SIZE_MAX && At(src, row, column) <= SIZE_MAX
    ensures row * dst.stride <= SIZE_MAX && At(dst, row, column) <= SIZE_MAX
    ensures Contiguous(src) ==> src.width * src.height <= SIZE_MAX
    ensures NativeChunkCount(src, workerBudget) <= SIZE_MAX
  {
    Coordinates(src, row, column);
    Coordinates(dst, row, column);
    if Contiguous(src) { LinearAddresses(src, 0); }
  }

  /** A sum of two std::size_t. */
  function Sum64(a: nat, b: nat): nat
  {
    (a + b) % (SIZE_MAX + 1)
  }

  function BlockStart(k: nat, width: nat): nat
  {
    k * width
  }

  /** The guard index + width <= count of a vector loop, at block k, decides as exact arithmetic does. */
  predicate GuardExact(count: nat, width: nat, k: nat)
  {
    BlockStart(k, width) <= count ==>
      (Sum64(BlockStart(k, width), width) <= count <==> BlockStart(k, width) + width <= count)
  }

  ghost predicate GuardsExact(count: nat, width: nat)
  {
    forall k: nat :: GuardExact(count, width, k)
  }

  /** It does at every block exactly when the count leaves room for one more block below 2^64. */
  lemma GuardIsExact(count: nat, width: nat)
    requires count <= SIZE_MAX && (width == 16 || width == 32)
    ensures GuardsExact(count, width) <==> count <= SIZE_MAX - width
  {
    if count <= SIZE_MAX - width {
      forall k: nat ensures GuardExact(count, width, k) {
      }
    } else {
      var last := (SIZE_MAX + 1) / width - 1;
      assert BlockStart(last, width) + width == SIZE_MAX + 1;
      assert !GuardExact(count, width, last);
    }
  }

  /** The pixels of one kernel call: those of a row, or up to all of an image without padding. */
  predicate CallCovers(src: ImageView, dst: ImageView, count: nat)
  {
    count <= if Linear(src, dst) then src.width * src.height else src.width
  }

  /** A validated request keeps the guards exact unless it works in place on an image that starts within 32
      bytes of address zero. */
  lemma KernelGuards(src: ImageView, dst: ImageView, count: nat)
    requires Usable(src, dst) && CallCovers(src, dst, count)
    ensures src.data >= 32 || !SameImage(src, dst) ==> count <= SIZE_MAX - 32
  {
    if Linear(src, dst) {
      LinearAddresses(src, 0);
      LinearAddresses(dst, 0);
    } else {
      MulMono(0, src.height - 1, src.stride);
      MulMono(0, dst.height - 1, dst.stride);
    }
  }

  /** And there such a request passes validation while the guards of both vector loops go wrong: one row of
      all bytes from address one. */
  lemma GuardsCanWrap()
    ensures var v := ImageView(1, SIZE_MAX - 1, 1, SIZE_MAX - 1, 1);
      && Sized(v) && Validate(v, v).Valid? && Usable(v, v) && CallCovers(v, v, SIZE_MAX - 1)
      && !GuardsExact(SIZE_MAX - 1, 16)
      && !GuardsExact(SIZE_MAX - 1, 32)
  {
    var v := ImageView(1, SIZE_MAX - 1, 1, SIZE_MAX - 1, 1);
    ValidateIsUsable(v, v);
    GuardIsExact(SIZE_MAX - 1, 16);
    GuardIsExact(SIZE_MAX - 1, 32);
  }
}
