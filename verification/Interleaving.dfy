/** Chunks running at the same time: each kernel loads and stores pieces of 32, 16 or 1 pixels, and the loads
    and stores of different threads interleave freely. */
module Interleaving {
  import opened Kernels
  import opened Threshold
  import opened Prelude

  /** The pixels one load and one store handle: destination addresses from `at`, in the chunk given. */
  datatype Piece = Piece(chunk: nat, at: nat, width: nat)

  datatype Op = Load(piece: Piece) | Store(piece: Piece)

  /** Memory, and the registers of all threads. */
  datatype Machine = Machine(mem: seq<bv8>, held: map<Piece, Lanes>)

  datatype Task = Task(src: ImageView, dst: ImageView, q: Params, chunks: nat, kind: Kind)

  predicate TaskOk(t: Task, size: nat)
  {
    Usable(t.src, t.dst) && End(t.src) <= size && End(t.dst) <= size && t.chunks > 0
  }

  // ----- the pieces of a kernel call

  /** The blocks of 32 first, then at most one of 16, then single pixels. */
  function PieceWidth(kind: Kind, count: nat): (w: nat)
    requires count > 0
    ensures 0 < w <= count
  {
    if kind.Avx2Kind? && count >= 32 then 32 else if !kind.ScalarKind? && count >= 16 then 16 else 1
  }

  /** The piece is one of a kernel call on `count` pixels from address `at`. */
  predicate PieceOfCall(kind: Kind, chunk: nat, at: nat, count: nat, p: Piece)
    decreases count
  {
    count > 0 &&
    var w := PieceWidth(kind, count);
    p == Piece(chunk, at, w) || PieceOfCall(kind, chunk, at + w, count - w, p)
  }

  predicate Has(p: Piece, i: nat)
  {
    p.at <= i < p.at + p.width
  }

  lemma {:induction false} PieceWithin(kind: Kind, chunk: nat, at: nat, count: nat, p: Piece)
    requires PieceOfCall(kind, chunk, at, count, p)
    ensures at <= p.at && 0 < p.width && p.at + p.width <= at + count && p.chunk == chunk
    decreases count
  {
    var w := PieceWidth(kind, count);
    if p != Piece(chunk, at, w) { PieceWithin(kind, chunk, at + w, count - w, p); }
  }

  lemma {:induction false} PiecesApart(kind: Kind, chunk: nat, at: nat, count: nat, p: Piece, q: Piece, i: nat)
    requires PieceOfCall(kind, chunk, at, count, p) && PieceOfCall(kind, chunk, at, count, q) && Has(p, i) && Has(q, i)
    ensures p == q
    decreases count
  {
    var w := PieceWidth(kind, count);
    var first := Piece(chunk, at, w);
    if p != first { PieceWithin(kind, chunk, at + w, count - w, p); }
    if q != first { PieceWithin(kind, chunk, at + w, count - w, q); }
    if p != first && q != first { PiecesApart(kind, chunk, at + w, count - w, p, q, i); }
  }

  lemma {:induction false} PieceFor(kind: Kind, chunk: nat, at: nat, count: nat, i: nat) returns (p: Piece)
    requires at <= i < at + count
    ensures PieceOfCall(kind, chunk, at, count, p) && Has(p, i)
    decreases count
  {
    var w := PieceWidth(kind, count);
    p := Piece(chunk, at, w);
    if i >= at + w { p := PieceFor(kind, chunk, at + w, count - w, i); }
  }

  // ----- the pieces of an operation

  /** The kernel call of a chunk that address i belongs to: the whole chunk when both images are without
      padding, else one of its rows. */
  function CallAt(t: Task, chunk: nat, i: nat): nat
    requires t.chunks > 0 && t.dst.stride > 0 && t.dst.data <= i
  {
    if Linear(t.src, t.dst) then t.dst.data + ChunkBegin(Total(t.src, t.dst), t.chunks, chunk)
    else At(t.dst, RowOf(t.dst, i), 0)
  }

  function CallCount(t: Task, chunk: nat): int
    requires t.chunks > 0
  {
    var total := Total(t.src, t.dst);
    if Linear(t.src, t.dst) then ChunkEnd(total, t.chunks, chunk) - ChunkBegin(total, t.chunks, chunk) else t.dst.width
  }

  /** One of the pieces the chunks of the operation consist of. */
  predicate PieceOfTask(t: Task, p: Piece)
  {
    && t.chunks > 0 && t.dst.stride > 0 && t.dst.data <= p.at && p.chunk < t.chunks
    && (Linear(t.src, t.dst) || (RowOf(t.dst, p.at) < t.dst.height
                                 && InChunk(Total(t.src, t.dst), t.chunks, p.chunk, RowOf(t.dst, p.at))))
    && CallCount(t, p.chunk) >= 0
    && PieceOfCall(t.kind, p.chunk, CallAt(t, p.chunk, p.at), CallCount(t, p.chunk), p)
  }

  /** A piece lies in its chunk, and its sources are as many consecutive addresses. */
  predicate PixelOf(t: Task, p: Piece, i: nat)
    requires t.chunks > 0 && t.dst.stride > 0
  {
    && Inside(t.dst, i) && Inside(t.dst, p.at)
    && InChunk(Total(t.src, t.dst), t.chunks, p.chunk, UnitOf(t.src, t.dst, i))
    && SourceOf(t.src, t.dst, i) == SourceOf(t.src, t.dst, p.at) + (i - p.at)
    && CallAt(t, p.chunk, i) == CallAt(t, p.chunk, p.at)
  }

  lemma LinearPixel(t: Task, size: nat, p: Piece, i: nat)
    requires TaskOk(t, size) && PieceOfTask(t, p) && Has(p, i) && Linear(t.src, t.dst)
    ensures PixelOf(t, p, i)
  {
    hide Inside, RowOf, ColumnOf, SourceOf, ChunkBegin, ChunkEnd, End;
    var total := Total(t.src, t.dst);
    PieceWithin(t.kind, p.chunk, CallAt(t, p.chunk, p.at), CallCount(t, p.chunk), p);
    hide PieceOfCall;
    ChunkInside(total, t.chunks, p.chunk);
    LinearAddresses(t.dst, i);
    LinearAddresses(t.dst, p.at);
    LinearSource(t.src, t.dst, i);
    LinearSource(t.src, t.dst, p.at);
  }

  lemma RowPixel(t: Task, size: nat, p: Piece, i: nat)
    requires TaskOk(t, size) && PieceOfTask(t, p) && Has(p, i) && !Linear(t.src, t.dst)
    ensures PixelOf(t, p, i)
  {
    hide Inside, RowOf, ColumnOf, ChunkBegin, ChunkEnd, End;
    PieceWithin(t.kind, p.chunk, CallAt(t, p.chunk, p.at), CallCount(t, p.chunk), p);
    hide PieceOfCall;
    RowAddresses(t.dst, RowOf(t.dst, p.at), i);
    RowAddresses(t.dst, RowOf(t.dst, p.at), p.at);
    ChunkInside(Total(t.src, t.dst), t.chunks, p.chunk);
  }

  lemma PieceIsPixels(t: Task, size: nat, p: Piece, i: nat)
    requires TaskOk(t, size) && PieceOfTask(t, p) && Has(p, i)
    ensures PixelOf(t, p, i)
  {
    hide TaskOk, PieceOfTask, PixelOf, Linear;
    if Linear(t.src, t.dst) { LinearPixel(t, size, p, i); } else { RowPixel(t, size, p, i); }
  }

  /** No pixel belongs to two pieces, since it belongs to one chunk and one call. */
  lemma OnePiece(t: Task, size: nat, p: Piece, q: Piece, i: nat)
    requires TaskOk(t, size) && PieceOfTask(t, p) && PieceOfTask(t, q) && Has(p, i) && Has(q, i)
    ensures p == q
  {
    PieceIsPixels(t, size, p, i);
    PieceIsPixels(t, size, q, i);
    hide Inside, RowOf, SourceOf, InChunk, CallAt, CallCount, Total, UnitOf;
    OneChunk(Total(t.src, t.dst), t.chunks, p.chunk, q.chunk, UnitOf(t.src, t.dst, i));
    PiecesApart(t.kind, p.chunk, CallAt(t, p.chunk, i), CallCount(t, p.chunk), p, q, i);
  }

  /** And every pixel belongs to one. */
  lemma PixelHasPiece(t: Task, size: nat, i: nat) returns (p: Piece)
    requires TaskOk(t, size) && Inside(t.dst, i)
    ensures PieceOfTask(t, p) && Has(p, i)
  {
    hide ChunkBegin, ChunkEnd;
    BackToAddress(t.dst, i);
    UnitInTotal(t.src, t.dst, i);
    var total := Total(t.src, t.dst);
    var o := ChunksPartition(total, t.chunks, UnitOf(t.src, t.dst, i));
    ChunkInside(total, t.chunks, o);
    if Linear(t.src, t.dst) {
      p := PieceFor(t.kind, o, CallAt(t, o, i), CallCount(t, o), i);
      PieceWithin(t.kind, o, CallAt(t, o, i), CallCount(t, o), p);
    } else {
      var row := RowOf(t.dst, i);
      RowAddresses(t.dst, row, i);
      p := PieceFor(t.kind, o, CallAt(t, o, i), CallCount(t, o), i);
      PieceWithin(t.kind, o, CallAt(t, o, i), CallCount(t, o), p);
      RowAddresses(t.dst, row, p.at);
    }
  }

  // ----- interleaved runs

  /** A load reads the sources from memory as it is; a store writes what the vector code makes of them. */
  function Do(m: Machine, t: Task, op: Op): (r: Option<Machine>)
    requires TaskOk(t, |m.mem|) && PieceOfTask(t, op.piece)
    ensures r.Some? ==> |r.value.mem| == |m.mem|
  {
    var p := op.piece;
    PieceBounds(t, |m.mem|, p);
    match op
    case Load(_) =>
      var s := SourceOf(t.src, t.dst, p.at);
      Some(m.(held := m.held[p := m.mem[s..s + p.width]]))
    case Store(_) =>
      if p !in m.held || |m.held[p]| != p.width then None
      else
        var result := Block(t.q.inverse, m.held[p], t.q.threshold, t.q.maximum);
        Some(m.(mem := Overwrite(m.mem, p.at, result)))
  }

  function Overwrite(mem: seq<bv8>, at: nat, values: Lanes): (r: seq<bv8>)
    requires at + |values| <= |mem|
    ensures |r| == |mem|
    ensures forall i :: 0 <= i < |mem| ==> r[i] == if at <= i < at + |values| then values[i - at] else mem[i]
  {
    mem[..at] + values + mem[at + |values|..]
  }

  lemma PieceBounds(t: Task, size: nat, p: Piece)
    requires TaskOk(t, size) && PieceOfTask(t, p)
    ensures t.dst.stride > 0 && 0 < p.width && Inside(t.dst, p.at) && p.at + p.width <= size
    ensures SourceOf(t.src, t.dst, p.at) + p.width <= size
  {
    PieceWithin(t.kind, p.chunk, CallAt(t, p.chunk, p.at), CallCount(t, p.chunk), p);
    hide PieceOfTask;
    var last := p.at + p.width - 1;
    PieceIsPixels(t, size, p, p.at);
    PieceIsPixels(t, size, p, last);
    BackToAddress(t.dst, last);
    SourceInBounds(t.src, t.dst, last);
  }

  ghost predicate Planned(t: Task, ops: seq<Op>)
  {
    forall k :: 0 <= k < |ops| ==> PieceOfTask(t, ops[k].piece)
  }

  /** The state a run of loads and stores reaches, when every store has something to store. */
  ghost function Play(m: Machine, t: Task, ops: seq<Op>): (r: Option<Machine>)
    requires TaskOk(t, |m.mem|) && Planned(t, ops)
    ensures r.Some? ==> |r.value.mem| == |m.mem|
  {
    if ops == [] then Some(m)
    else
      var last := ops[|ops| - 1];
      assert PieceOfTask(t, last.piece);
      hide *;
      var r := Play(m, t, ops[..|ops| - 1]);
      if r.None? then None else Do(r.value, t, last)
  }

  // ----- what every run leaves behind

  ghost predicate StoredAt(ops: seq<Op>, i: nat)
  {
    exists p :: Store(p) in ops && Has(p, i)
  }

  ghost predicate ByteOk(was: seq<bv8>, t: Task, ops: seq<Op>, mem: seq<bv8>, i: nat)
    requires TaskOk(t, |was|) && |mem| == |was| && i < |was|
  {
    mem[i] == if StoredAt(ops, i) then Wanted(was, t.src, t.dst, t.q, i) else was[i]
  }

  ghost predicate MemoryOk(was: seq<bv8>, t: Task, ops: seq<Op>, mem: seq<bv8>)
    requires TaskOk(t, |was|) && |mem| == |was|
  {
    forall i: nat :: i < |was| ==> ByteOk(was, t, ops, mem, i)
  }

  /** A register holds the original sources of its piece. */
  predicate RegisterOk(was: seq<bv8>, t: Task, p: Piece, values: Lanes)
    requires TaskOk(t, |was|) && PieceOfTask(t, p)
  {
    PieceBounds(t, |was|, p);
    var s := SourceOf(t.src, t.dst, p.at);
    values == was[s..s + p.width]
  }

  ghost predicate RegistersOk(was: seq<bv8>, t: Task, ops: seq<Op>, held: map<Piece, Lanes>)
    requires TaskOk(t, |was|)
  {
    && (forall p :: p in held ==> Load(p) in ops && PieceOfTask(t, p) && RegisterOk(was, t, p, held[p]))
    && (forall p :: Store(p) in ops ==> Load(p) in ops)
  }

  /** Each piece is loaded once and stored once at most: its kernel handles it once. */
  predicate NoRepeats(ops: seq<Op>)
  {
    forall j, k :: 0 <= j < k < |ops| ==> ops[j] != ops[k]
  }

  /** A piece not stored yet still finds its original sources: nobody else stores where it reads. */
  lemma SourceIntact(was: seq<bv8>, t: Task, ops: seq<Op>, mem: seq<bv8>, p: Piece, i: nat)
    requires TaskOk(t, |was|) && Planned(t, ops) && PieceOfTask(t, p) && Has(p, i) && Store(p) !in ops
    requires |mem| == |was| && MemoryOk(was, t, ops, mem)
    ensures PixelOf(t, p, i) && SourceOf(t.src, t.dst, i) < |was|
    ensures mem[SourceOf(t.src, t.dst, i)] == was[SourceOf(t.src, t.dst, i)]
  {
    hide PieceOfTask, Inside, SourceOf, InChunk, CallAt, Total, UnitOf;
    PieceIsPixels(t, |was|, p, i);
    SourceInBounds(t.src, t.dst, i);
    var s := SourceOf(t.src, t.dst, i);
    assert ByteOk(was, t, ops, mem, s);
    if StoredAt(ops, s) {
      var other :| Store(other) in ops && Has(other, s);
      PieceIsPixels(t, |was|, other, s);
      assert s == i;
      OnePiece(t, |was|, p, other, i);
      assert false;
    }
  }

  lemma LoadKeeps(was: seq<bv8>, t: Task, ops: seq<Op>, m: Machine, p: Piece)
    requires TaskOk(t, |was|) && Planned(t, ops) && PieceOfTask(t, p) && Load(p) !in ops && |m.mem| == |was|
    requires MemoryOk(was, t, ops, m.mem) && RegistersOk(was, t, ops, m.held)
    ensures Do(m, t, Load(p)).Some?
    ensures var m' := Do(m, t, Load(p)).value;
      m'.mem == m.mem && MemoryOk(was, t, ops + [Load(p)], m'.mem) && RegistersOk(was, t, ops + [Load(p)], m'.held)
  {
    hide TaskOk, PieceOfTask, Planned, Wanted, SourceOf;
    PieceBounds(t, |was|, p);
    var s := SourceOf(t.src, t.dst, p.at);
    var now, orig := m.mem[s..s + p.width], was[s..s + p.width];
    forall j: nat | j < p.width ensures now[j] == orig[j] {
      SourceIntact(was, t, ops, m.mem, p, p.at + j);
    }
    assert now == orig;
    var ops' := ops + [Load(p)];
    forall i: nat | i < |was| ensures ByteOk(was, t, ops', m.mem, i) {
      assert ByteOk(was, t, ops, m.mem, i);
      assert StoredAt(ops', i) ==> StoredAt(ops, i);
      assert StoredAt(ops, i) ==> StoredAt(ops', i);
    }
  }

  /** What is loaded at one pixel of a piece. */
  lemma LoadedAt(was: seq<bv8>, t: Task, p: Piece, values: Lanes, i: nat)
    requires TaskOk(t, |was|) && PieceOfTask(t, p) && RegisterOk(was, t, p, values) && Has(p, i) && i < |was|
    ensures |values| == p.width && Inside(t.dst, i) && SourceOf(t.src, t.dst, i) < |was|
    ensures values[i - p.at] == was[SourceOf(t.src, t.dst, i)]
  {
    PieceBounds(t, |was|, p);
    PieceIsPixels(t, |was|, p, i);
    hide TaskOk, PieceOfTask, Inside, SourceOf, InChunk, CallAt;
    var s := SourceOf(t.src, t.dst, p.at);
    assert values[i - p.at] == was[s + (i - p.at)];
  }

  /** A stored piece is what is wanted of each of its bytes. */
  lemma StoreWrites(was: seq<bv8>, t: Task, p: Piece, values: Lanes, i: nat)
    requires TaskOk(t, |was|) && PieceOfTask(t, p) && RegisterOk(was, t, p, values) && Has(p, i) && i < |was|
    ensures |values| == p.width
    ensures Block(t.q.inverse, values, t.q.threshold, t.q.maximum)[i - p.at] == Wanted(was, t.src, t.dst, t.q, i)
  {
    LoadedAt(was, t, p, values, i);
    BlockShades(t.q, values);
    hide PieceOfTask, RegisterOk, Block, Inside, SourceOf, Shade, Usable, End;
  }

  lemma StoreByte(was: seq<bv8>, t: Task, ops: seq<Op>, mem: seq<bv8>, p: Piece, values: Lanes, i: nat)
    requires TaskOk(t, |was|) && PieceOfTask(t, p) && RegisterOk(was, t, p, values) && i < |was| == |mem|
    requires p.at + p.width <= |was| && |values| == p.width && ByteOk(was, t, ops, mem, i)
    ensures ByteOk(was, t, ops + [Store(p)],
                   Overwrite(mem, p.at, Block(t.q.inverse, values, t.q.threshold, t.q.maximum)), i)
  {
    hide TaskOk, PieceOfTask, Wanted, Block, RegisterOk, Overwrite, StoredAt;
    StoredSnoc(ops, p, i);
    if Has(p, i) { StoreWrites(was, t, p, values, i); }
  }

  lemma StoreKeeps(was: seq<bv8>, t: Task, ops: seq<Op>, m: Machine, p: Piece)
    requires TaskOk(t, |was|) && PieceOfTask(t, p) && |m.mem| == |was| && Do(m, t, Store(p)).Some?
    requires MemoryOk(was, t, ops, m.mem) && RegistersOk(was, t, ops, m.held)
    ensures var m' := Do(m, t, Store(p)).value;
      m'.held == m.held && MemoryOk(was, t, ops + [Store(p)], m'.mem) && RegistersOk(was, t, ops + [Store(p)], m'.held)
  {
    var m', ops' := Do(m, t, Store(p)).value, ops + [Store(p)];
    PieceBounds(t, |was|, p);
    hide TaskOk, PieceOfTask, Wanted, Block, RegisterOk, Overwrite, StoredAt, ByteOk;
    forall i: nat | i < |was| ensures ByteOk(was, t, ops', m'.mem, i) {
      StoreByte(was, t, ops, m.mem, p, m.held[p], i);
    }
  }

  lemma StoredSnoc(ops: seq<Op>, p: Piece, i: nat)
    ensures StoredAt(ops + [Store(p)], i) <==> StoredAt(ops, i) || Has(p, i)
  {
    assert Store(p) in ops + [Store(p)];
    if StoredAt(ops, i) {
      var other :| Store(other) in ops && Has(other, i);
      assert Store(other) in ops + [Store(p)];
    }
  }

  lemma {:induction false} PlayKeeps(was: seq<bv8>, t: Task, ops: seq<Op>, m: Machine)
    requires TaskOk(t, |was|) && Planned(t, ops) && NoRepeats(ops) && Play(Machine(was, map[]), t, ops) == Some(m)
    ensures |m.mem| == |was| && MemoryOk(was, t, ops, m.mem) && RegistersOk(was, t, ops, m.held)
  {
    hide TaskOk, PieceOfTask, Wanted, Do, RegisterOk;
    if ops == [] {
    } else {
      var init, op := ops[..|ops| - 1], ops[|ops| - 1];
      var before := Play(Machine(was, map[]), t, init).value;
      PlayKeeps(was, t, init, before);
      assert ops == init + [op] && op !in init;
      if op.Load? { LoadKeeps(was, t, init, before, op.piece); } else { StoreKeeps(was, t, init, before, op.piece); }
    }
  }

  /** However the loads and stores of the kernels of all chunks interleave, every byte of a piece stored so
      far is what the simple form wants of the original image, and every other byte is as it was. */
  lemma AnyInterleaving(was: seq<bv8>, t: Task, ops: seq<Op>, m: Machine, i: nat)
    requires TaskOk(t, |was|) && Planned(t, ops) && NoRepeats(ops) && Play(Machine(was, map[]), t, ops) == Some(m)
    requires i < |was|
    ensures |m.mem| == |was|
    ensures m.mem[i] == if StoredAt(ops, i) then Wanted(was, t.src, t.dst, t.q, i) else was[i]
  {
    hide TaskOk, PieceOfTask, Wanted, Play;
    PlayKeeps(was, t, ops, m);
    assert ByteOk(was, t, ops, m.mem, i);
  }

  /** Once every piece has been stored, memory is what the sequential route leaves. */
  lemma AllStored(was: seq<bv8>, t: Task, ops: seq<Op>, m: Machine, i: nat)
    requires TaskOk(t, |was|) && Planned(t, ops) && NoRepeats(ops) && Play(Machine(was, map[]), t, ops) == Some(m)
    requires (forall p :: PieceOfTask(t, p) ==> Store(p) in ops) && i < |was|
    ensures |m.mem| == |was| && m.mem[i] == Wanted(was, t.src, t.dst, t.q, i)
  {
    AnyInterleaving(was, t, ops, m, i);
    hide PieceOfTask, Play, Inside;
    if Inside(t.dst, i) {
      var p := PixelHasPiece(t, |was|, i);
    } else {
      OutsideStays(was, t.src, t.dst, t.q, i);
    }
  }
}
