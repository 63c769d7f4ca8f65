/** SchedulerVisibleWork: the chunks of one loop region, handed out in order. */
module Chunks {
  import opened Arith
  import opened Prelude

  datatype Chunk = Chunk(begin: nat, end: nat, ordinal: nat)

  function TotalChunks(total: nat, size: nat): nat
    requires size > 0
  {
    if total == 0 then 0 else 1 + (total - 1) / size
  }

  /** The k-th chunk of [begin, begin + total): full but for the last. */
  function ChunkAt(begin: nat, total: nat, size: nat, k: nat): Chunk
  {
    Chunk(begin + Min(k * size, total), begin + Min((k + 1) * size, total), k)
  }

  lemma ChunkBounds(total: nat, size: nat, k: nat)
    requires size > 0
    ensures k < TotalChunks(total, size) <==> k * size < total
  {
    if total > 0 {
      var q := (total - 1) / size;
      DivBounds(total - 1, size);
      if k <= q {
        MulMono(k, q, size);
      } else {
        MulMono(q + 1, k, size);
        MulStep(q, size);
      }
    }
  }

  /** The chunks partition the range: iteration i lies in chunk (i - begin) / size and in no other. */
  lemma ChunksPartition(begin: nat, total: nat, size: nat, i: nat, k: nat)
    requires size > 0 && begin <= i < begin + total && k < TotalChunks(total, size)
    ensures (i - begin) / size < TotalChunks(total, size)
    ensures var c := ChunkAt(begin, total, size, k);
      c.begin < c.end <= begin + total && (c.begin <= i < c.end <==> k == (i - begin) / size)
  {
    var d := i - begin;
    DivBounds(d, size);
    ChunkBounds(total, size, d / size);
    ChunkBounds(total, size, k);
    MulStep(k, size);
    if k * size <= d < k * size + size {
      QuotientIs(d, size, k);
    }
  }

  class SchedulerVisibleWork {
    const begin: nat
    const total: nat
    const chunkSize: nat
    var nextOffset: nat
    var cancelled: bool
    ghost var handed: nat  // chunks handed out so far

    ghost predicate Valid()
      reads this
    {
      && chunkSize > 0
      && handed <= TotalChunks(total, chunkSize)
      && nextOffset == Min(handed * chunkSize, total)
    }

    constructor (first: nat, last: nat, size: nat)
      ensures Valid() && handed == 0 && !cancelled
      ensures begin == first && total == (if last > first then last - first else 0)
      ensures chunkSize == if size == 0 then 1 else size
    {
      begin := first;
      total := if last > first then last - first else 0;
      chunkSize := if size == 0 then 1 else size;
      nextOffset, cancelled, handed := 0, false, 0;
    }

    /** try_acquire when no other thread interferes between its load and its exchange. */
    method TryAcquire() returns (valid: bool, chunk: Chunk)
      requires Valid()
      modifies this
      ensures Valid() && cancelled == old(cancelled)
      ensures valid == (!cancelled && old(handed) < TotalChunks(total, chunkSize))
      ensures valid ==> chunk == ChunkAt(begin, total, chunkSize, old(handed)) && handed == old(handed) + 1
      ensures !valid ==> handed == old(handed) && nextOffset == old(nextOffset)
    {
      ChunkBounds(total, chunkSize, handed);
      if cancelled {
        return false, Chunk(0, 0, 0);
      }
      if nextOffset >= total {
        return false, Chunk(0, 0, 0);
      }
      var offset := nextOffset;
      assert offset == handed * chunkSize;
      var length := Min(chunkSize, total - offset);
      assert offset / chunkSize == handed by { QuotientIs(offset, chunkSize, handed); }
      chunk := Chunk(begin + offset, begin + offset + length, offset / chunkSize);
      MulStep(handed, chunkSize);
      nextOffset := offset + length;
      handed := handed + 1;
      return true, chunk;
    }
  }
}
