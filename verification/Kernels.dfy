/** The threshold kernels: scalar loops, and the SSE2 and AVX2 loops that must agree with them. */
module Kernels {

  /** What a pixel becomes. */
  function Pixel(inverse: bool, value: bv8, threshold: bv8, maximum: bv8): bv8
  {
    if (value > threshold) != inverse then maximum else 0
  }

  // ----- vector registers, lane by lane

  type Lanes = seq<bv8>

  /** A lane as a signed char. */
  function Signed(lane: bv8): int
  {
    if lane < 0x80 then lane as int else lane as int - 0x100
  }

  function Splat(n: nat, value: bv8): (r: Lanes)
    ensures |r| == n && forall i :: 0 <= i < n ==> r[i] == value
  {
    seq(n, _ => value)
  }

  function Xor(a: Lanes, b: Lanes): (r: Lanes)
    requires |a| == |b|
    ensures |r| == |a| && forall i :: 0 <= i < |a| ==> r[i] == a[i] ^ b[i]
  {
    seq(|a|, i requires 0 <= i < |a| => a[i] ^ b[i])
  }

  /** cmpgt_epi8: all ones where the signed lane of a is greater. */
  function CmpGt(a: Lanes, b: Lanes): (r: Lanes)
    requires |a| == |b|
    ensures |r| == |a| && forall i :: 0 <= i < |a| ==> r[i] == if Signed(a[i]) > Signed(b[i]) then 0xff else 0
  {
    seq(|a|, i requires 0 <= i < |a| => if Signed(a[i]) > Signed(b[i]) then 0xff else 0)
  }

  function And(a: Lanes, b: Lanes): (r: Lanes)
    requires |a| == |b|
    ensures |r| == |a| && forall i :: 0 <= i < |a| ==> r[i] == a[i] & b[i]
  {
    seq(|a|, i requires 0 <= i < |a| => a[i] & b[i])
  }

  /** andnot: the complement of a, and b. */
  function AndNot(a: Lanes, b: Lanes): (r: Lanes)
    requires |a| == |b|
    ensures |r| == |a| && forall i :: 0 <= i < |a| ==> r[i] == (a[i] ^ 0xff) & b[i]
  {
    seq(|a|, i requires 0 <= i < |a| => (a[i] ^ 0xff) & b[i])
  }

  /** One block: what the vector loop computes from the values it has loaded. */
  function Block(inverse: bool, values: Lanes, threshold: bv8, maximum: bv8): (r: Lanes)
    ensures |r| == |values|
  {
    var n := |values|;
    var adjusted := Xor(values, Splat(n, 0x80));
    var mask := CmpGt(adjusted, Splat(n, threshold ^ 0x80));
    if inverse then AndNot(mask, Splat(n, maximum)) else And(mask, Splat(n, maximum))
  }

  /** Flipping the top bit of both sides turns the signed comparison into the unsigned one. */
  lemma FlipSign(a: bv8, b: bv8)
    ensures Signed(a ^ 0x80) > Signed(b ^ 0x80) <==> a > b
  {
    FlippedValue(a);
    FlippedValue(b);
  }

  lemma FlippedValue(a: bv8)
    ensures Signed(a ^ 0x80) == a as int - 0x80
  {
    if a < 0x80 {
      assert a ^ 0x80 == a + 0x80;
    } else {
      assert a ^ 0x80 == a - 0x80;
    }
  }

  lemma MaskSelects(m: bv8)
    ensures 0xff & m == m && 0 & m == 0 && (0xff ^ 0xff) & m == 0 && (0 ^ 0xff) & m == m
  {
  }

  /** One lane: compare, then select with the mask or its complement. */
  lemma LaneIsPixel(inverse: bool, value: bv8, threshold: bv8, maximum: bv8)
    ensures var mask: bv8 := if Signed(value ^ 0x80) > Signed(threshold ^ 0x80) then 0xff else 0;
      (if inverse then (mask ^ 0xff) & maximum else mask & maximum) == Pixel(inverse, value, threshold, maximum)
  {
    hide Signed;
    FlipSign(value, threshold);
    MaskSelects(maximum);
  }

  /** Every lane of a block is the scalar result, for every byte. */
  lemma BlockIsPixels(inverse: bool, values: Lanes, threshold: bv8, maximum: bv8)
    ensures forall i :: 0 <= i < |values| ==>
              Block(inverse, values, threshold, maximum)[i] == Pixel(inverse, values[i], threshold, maximum)
  {
    hide Signed, Pixel;
    forall i | 0 <= i < |values|
      ensures Block(inverse, values, threshold, maximum)[i] == Pixel(inverse, values[i], threshold, maximum)
    {
      LaneIsPixel(inverse, values[i], threshold, maximum);
    }
  }

  // ----- kernels over memory

  /** Source and destination coincide or do not touch. */
  predicate Apart(src: nat, dst: nat, count: nat)
  {
    src == dst || src + count <= dst || dst + count <= src
  }

  datatype Params = Params(inverse: bool, threshold: bv8, maximum: bv8)

  function Shade(q: Params, value: bv8): bv8
  {
    Pixel(q.inverse, value, q.threshold, q.maximum)
  }

  /** The byte at i is the pixel for it if i is one of the first `done` of the destination, else untouched. */
  predicate FilledAt(was: seq<bv8>, now: seq<bv8>, src: nat, dst: nat, done: nat, q: Params, i: nat)
    requires |now| == |was| && src + done <= |was| && dst + done <= |was| && i < |was|
  {
    now[i] == if dst <= i < dst + done then Shade(q, was[src + (i - dst)]) else was[i]
  }

  /** The first `done` pixels are written from the original values, and nothing else is. */
  ghost predicate Filled(was: seq<bv8>, now: seq<bv8>, src: nat, dst: nat, done: nat, q: Params)
    requires |now| == |was| && src + done <= |was| && dst + done <= |was|
  {
    forall i: nat :: i < |was| ==> FilledAt(was, now, src, dst, done, q, i)
  }

  /** The branch-free scalar loop, for either relation of the buffers. */
  method Scalar(mem: array<bv8>, src: nat, dst: nat, count: nat, q: Params)
    requires src + count <= mem.Length && dst + count <= mem.Length && Apart(src, dst, count)
    modifies mem
    ensures Filled(old(mem[..]), mem[..], src, dst, count, q)
  {
    hide Shade, Filled;
    ghost var was := mem[..];
    NothingYet(was, src, dst, q);
    for index := 0 to count
      invariant Filled(was, mem[..], src, dst, index, q)
    {
      hide Apart;
      ghost var before := mem[..];
      var above := mem[src + index] > q.threshold;
      mem[dst + index] := if above != q.inverse then q.maximum else 0;
      ShadeIs(q, before[src + index]);
      OneFilled(was, before, mem[..], src, dst, index, q);
    }
  }

  lemma ShadeIs(q: Params, value: bv8)
    ensures Shade(q, value) == if (value > q.threshold) != q.inverse then q.maximum else 0
  {
  }

  lemma NothingYet(was: seq<bv8>, src: nat, dst: nat, q: Params)
    requires src <= |was| && dst <= |was|
    ensures Filled(was, was, src, dst, 0, q)
  {
  }

  /** The next `width` pixels, written from what memory holds now, are the right ones. */
  lemma MoreFilled(was: seq<bv8>, before: seq<bv8>, now: seq<bv8>, src: nat, dst: nat, index: nat, width: nat,
          q: Params)
    requires |before| == |now| == |was| && src + index + width <= |was| && dst + index + width <= |was|
    requires Apart(src, dst, index + width)
    requires Filled(was, before, src, dst, index, q)
    requires ShadesOf(q, before[src + index..src + index + width], now[dst + index..dst + index + width])
    requires now[..dst + index] == before[..dst + index] && now[dst + index + width..] == before[dst + index + width..]
    ensures Filled(was, now, src, dst, index + width, q)
  {
    hide Shade;
    var values, written := before[src + index..src + index + width], now[dst + index..dst + index + width];
    var done := index + width;
    forall i: nat | i < |was| ensures FilledAt(was, now, src, dst, done, q, i) {
      if dst + index <= i < dst + done {
        var j := i - (dst + index);
        assert now[i] == written[j] && before[src + index + j] == values[j];
        assert FilledAt(was, before, src, dst, index, q, src + index + j);
      } else {
        assert now[i] == before[i] by {
          if i < dst + index { assert now[..dst + index][i] == before[..dst + index][i]; }
          else { assert now[dst + done..][i - (dst + done)] == before[dst + done..][i - (dst + done)]; }
        }
        assert FilledAt(was, before, src, dst, index, q, i);
      }
    }
  }

  lemma OneFilled(was: seq<bv8>, before: seq<bv8>, now: seq<bv8>, src: nat, dst: nat, index: nat, q: Params)
    requires |before| == |was| && src + index + 1 <= |was| && dst + index + 1 <= |was|
    requires Apart(src, dst, index + 1) && Filled(was, before, src, dst, index, q)
    requires now == before[dst + index := Shade(q, before[src + index])]
    ensures Filled(was, now, src, dst, index + 1, q)
  {
    hide Shade, Filled;
    MoreFilled(was, before, now, src, dst, index, 1, q);
  }

  /** One shade for each value. */
  predicate ShadesOf(q: Params, values: Lanes, shades: Lanes)
  {
    |shades| == |values| && forall j :: 0 <= j < |values| ==> shades[j] == Shade(q, values[j])
  }

  /** The vector loop of one block width, up to the last whole block. */
  method Blocks(mem: array<bv8>, src: nat, dst: nat, count: nat, width: nat, q: Params) returns (index: nat)
    requires width > 0 && src + count <= mem.Length && dst + count <= mem.Length && Apart(src, dst, count)
    modifies mem
    ensures index <= count < index + width
    ensures Filled(old(mem[..]), mem[..], src, dst, index, q)
  {
    hide Block, Shade, Filled, ShadesOf;
    ghost var was := mem[..];
    NothingYet(was, src, dst, q);
    index := 0;
    while index + width <= count
      invariant index <= count
      invariant Filled(was, mem[..], src, dst, index, q)
      decreases count - index
    {
      ghost var before := mem[..];
      var values := mem[src + index..src + index + width];
      var result := Block(q.inverse, values, q.threshold, q.maximum);
      BlockShades(q, values);
      forall i | 0 <= i < width {
        mem[dst + index + i] := result[i];
      }
      assert mem[dst + index..dst + index + width] == result;
      MoreFilled(was, before, mem[..], src, dst, index, width, q);
      index := index + width;
    }
  }

  lemma BlockShades(q: Params, values: Lanes)
    ensures ShadesOf(q, values, Block(q.inverse, values, q.threshold, q.maximum))
  {
    BlockIsPixels(q.inverse, values, q.threshold, q.maximum);
  }

  /** The SSE2 kernel: blocks of 16, then the scalar kernel. */
  method Sse2(mem: array<bv8>, src: nat, dst: nat, count: nat, q: Params)
    requires src + count <= mem.Length && dst + count <= mem.Length && Apart(src, dst, count)
    modifies mem
    ensures Filled(old(mem[..]), mem[..], src, dst, count, q)
  {
    hide Shade, Filled;
    ghost var was := mem[..];
    var index := Blocks(mem, src, dst, count, 16, q);
    ghost var before := mem[..];
    Scalar(mem, src + index, dst + index, count - index, q);
    TailAdded(was, before, mem[..], src, dst, index, count, q);
  }

  /** A kernel run on the rest of the buffers completes the whole. */
  lemma TailAdded(was: seq<bv8>, before: seq<bv8>, now: seq<bv8>, src: nat, dst: nat, index: nat, count: nat, q: Params)
    requires |before| == |now| == |was| && index <= count
    requires src + count <= |was| && dst + count <= |was| && Apart(src, dst, count)
    requires Filled(was, before, src, dst, index, q)
    requires Filled(before, now, src + index, dst + index, count - index, q)
    ensures Filled(was, now, src, dst, count, q)
  {
    hide Shade;
    forall i: nat | i < |was| ensures FilledAt(was, now, src, dst, count, q, i) {
      assert FilledAt(before, now, src + index, dst + index, count - index, q, i);
      if dst + index <= i < dst + count {
        assert src + index + (i - (dst + index)) == src + (i - dst);
        assert FilledAt(was, before, src, dst, index, q, src + (i - dst));
      } else {
        assert FilledAt(was, before, src, dst, index, q, i);
      }
    }
  }

  /** The AVX2 kernel: blocks of 32, then the SSE2 kernel. */
  method Avx2(mem: array<bv8>, src: nat, dst: nat, count: nat, q: Params)
    requires src + count <= mem.Length && dst + count <= mem.Length && Apart(src, dst, count)
    modifies mem
    ensures Filled(old(mem[..]), mem[..], src, dst, count, q)
  {
    hide Shade, Filled;
    ghost var was := mem[..];
    var index := Blocks(mem, src, dst, count, 32, q);
    if index < count {
      ghost var before := mem[..];
      Sse2(mem, src + index, dst + index, count - index, q);
      TailAdded(was, before, mem[..], src, dst, index, count, q);
    }
  }

  datatype Kind = ScalarKind | Sse2Kind | Avx2Kind

  /** Whichever kernel the processor offers, the bytes come out the same. */
  method Threshold(kind: Kind, mem: array<bv8>, src: nat, dst: nat, count: nat, q: Params)
    requires src + count <= mem.Length && dst + count <= mem.Length && Apart(src, dst, count)
    modifies mem
    ensures Filled(old(mem[..]), mem[..], src, dst, count, q)
  {
    hide Filled;
    match kind
    case ScalarKind => Scalar(mem, src, dst, count, q);
    case Sse2Kind => Sse2(mem, src, dst, count, q);
    case Avx2Kind => Avx2(mem, src, dst, count, q);
  }
}
