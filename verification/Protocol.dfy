/** Frames of the data-channel file protocol, and the byte ranges a file is cut into. */
module Protocol {
  import opened Prelude

  newtype byte = x: int | 0 <= x < 256

  /** Bytes per data-channel message. */
  const CHUNK_SIZE: nat := 256 * 1024

  /** Bytes read from the file per awaited read. */
  const SLAB_SIZE: nat := 8 * 1024 * 1024

  const U32_RANGE: nat := 0x1_0000_0000

  datatype FileStart = FileStart(id: nat, name: string, size: nat, mime: string)

  datatype Control =
    | Offer(meta: FileStart)
    | Accept(id: nat)
    | Reject(id: nat)
    | Start(meta: FileStart)
    | End(id: nat)
    | Cancel(id: nat)
    | Abort(id: nat)

  /** A data-channel message: a control frame as text, or raw bytes. */
  datatype Frame = Text(control: Control) | Binary(bytes: seq<byte>)

  datatype File = File(name: string, mime: string, bytes: seq<byte>)

  function MetaOf(id: nat, file: File): FileStart {
    FileStart(id, file.name, |file.bytes|, file.mime)
  }

  /** `meta` tells the truth about the file that goes by `id`. */
  predicate Describes(meta: FileStart, id: nat, file: File) {
    meta.id == id && meta.name == file.name && meta.size == |file.bytes| && meta.mime == file.mime
  }

  /** A half-open byte range. */
  type Range = (nat, nat)

  /** `[start, total)` cut greedily into pieces of `step` bytes. */
  function RangesFrom(start: nat, total: nat, step: nat): seq<Range>
    requires 0 < step
    decreases total - start
  {
    if start >= total then []
    else
      var end := Min(start + step, total);
      [(start, end)] + RangesFrom(end, total, step)
  }

  function Ranges(total: nat, step: nat): seq<Range> {
    if step == 0 then [] else RangesFrom(0, total, step)
  }

  /** `rs` covers `[lo, hi)` left to right: no gap, no overlap, no empty piece, none above `most`. */
  ghost predicate Tiles(rs: seq<Range>, lo: nat, hi: nat, most: nat) {
    && (lo >= hi ==> rs == [])
    && (lo < hi ==> rs != [] && rs[0].0 == lo && rs[|rs| - 1].1 == hi)
    && (forall i :: 0 <= i < |rs| ==> rs[i].0 < rs[i].1 <= rs[i].0 + most)
    && (forall i :: 0 < i < |rs| ==> rs[i - 1].1 == rs[i].0)
  }

  lemma {:induction false} RangesTile(start: nat, total: nat, step: nat)
    requires 0 < step
    ensures var rs := RangesFrom(start, total, step);
            && Tiles(rs, start, total, step)
            && forall i :: 0 <= i < |rs| - 1 ==> rs[i].1 == rs[i].0 + step
    decreases total - start
  {
    if start >= total {
    } else {
      var end := Min(start + step, total);
      RangesTile(end, total, step);
      assert RangesFrom(start, total, step) == [(start, end)] + RangesFrom(end, total, step);
    }
  }

  lemma LessFactor(a: int, b: int, step: nat)
    requires a * step < b * step
    ensures a < b
  {
    assert (b - a) * step > 0;
  }

  lemma NextMultiple(n: nat, step: nat)
    ensures (n + 1) * step == n * step + step
  {
  }

  /** The number of whole steps before the last one, from any multiple that is the last one below `total`. */
  lemma LastMultiple(n: nat, total: nat, step: nat)
    requires 0 < step && n * step < total <= n * step + step
    ensures (total - 1) / step == n && ((total - 1) / step + 1) * step == n * step + step
  {
    var q := (total - 1) / step;
    NextMultiple(q, step);
    NextMultiple(n, step);
    LessFactor(q, n + 1, step);
    LessFactor(n, q + 1, step);
  }

  /** No 64-bit sum of the loop from `start` on overflows. */
  predicate SumsFitFrom(start: nat, total: nat, step: nat)
    requires 0 < step
    decreases total - start
  {
    start >= total || (start + step < U64_RANGE && SumsFitFrom(Min(start + step, total), total, step))
  }

  /** From any multiple on: exactly if the total, rounded up to whole steps, is below 2^64. */
  lemma {:induction false} SumsFitIff(n: nat, total: nat, step: nat)
    requires 0 < step && n * step < total < U64_RANGE
    ensures SumsFitFrom(n * step, total, step) <==> ((total - 1) / step + 1) * step < U64_RANGE
    decreases total - n * step
  {
    NextMultiple(n, step);
    if n * step + step >= total {
      LastMultiple(n, total, step);
    } else {
      SumsFitIff(n + 1, total, step);
      assert Min(n * step + step, total) == (n + 1) * step;
    }
  }

  /** The ranges `done` lead to `start`, and what remains decides as the whole does. */
  ghost predicate CutUpTo(done: seq<Range>, start: nat, total: nat, step: nat)
    requires 0 < step
  {
    && (SumsFitFrom(start, total, step) <==> SumsFitFrom(0, total, step))
    && done + RangesFrom(start, total, step) == RangesFrom(0, total, step)
  }

  lemma OneRangeMore(done: seq<Range>, start: nat, total: nat, step: nat)
    requires start < total && 0 < step && CutUpTo(done, start, total, step)
    ensures if start + step < U64_RANGE
            then CutUpTo(done + [(start, Min(start + step, total))], Min(start + step, total), total, step)
            else !SumsFitFrom(0, total, step)
  {
    var end := Min(start + step, total);
    var rest := RangesFrom(end, total, step);
    assert done + ([(start, end)] + rest) == done + [(start, end)] + rest;
  }

  lemma NoRangeMore(done: seq<Range>, total: nat, step: nat)
    requires 0 < step && CutUpTo(done, total, total, step)
    ensures SumsFitFrom(0, total, step) && done == Ranges(total, step)
  {
    assert done + [] == done;
  }

  /** The loop of `split_ranges`. `None` stands for the overflow of the 64-bit sum `start + step`. */
  method SplitRanges(total: nat, step: nat) returns (ranges: Option<seq<Range>>)
    requires total < U64_RANGE
    ensures ranges.Some? <==> step == 0 || SumsFitFrom(0, total, step)
    ensures ranges.Some? ==> ranges.value == Ranges(total, step)
    ensures ranges.Some? && 0 < step ==> Tiles(ranges.value, 0, total, step)
  {
    if step == 0 {
      return Some([]);
    }
    var done: seq<Range>, start := [], 0;
    assert done + RangesFrom(0, total, step) == RangesFrom(0, total, step);
    while start < total
      invariant start <= total && CutUpTo(done, start, total, step)
    {
      OneRangeMore(done, start, total, step);
      if start + step >= U64_RANGE {
        return None;
      }
      var end := Min(start + step, total);
      done := done + [(start, end)];
      start := end;
    }
    NoRangeMore(done, total, step);
    RangesTile(0, total, step);
    ranges := Some(done);
  }

  /** For every size a browser can name the sums fit: up to 2^53, with any 32-bit step. */
  lemma BrowserSizesFit(total: nat, step: nat)
    requires total <= 0x20_0000_0000_0000 && 0 < step < U32_RANGE
    ensures SumsFitFrom(0, total, step)
  {
    if total > 0 {
      SumsFitIff(0, total, step);
      assert (total - 1) / step * step <= total - 1;
      NextMultiple((total - 1) / step, step);
    }
  }

  lemma {:induction false} StartsWithin(rs: seq<Range>, lo: nat, hi: nat, most: nat, i: nat)
    requires Tiles(rs, lo, hi, most)
    requires i < |rs|
    ensures lo <= rs[i].0
    decreases i
  {
    if i == 0 {
    } else {
      StartsWithin(rs, lo, hi, most, i - 1);
    }
  }

  lemma {:induction false} EndsWithin(rs: seq<Range>, lo: nat, hi: nat, most: nat, i: nat)
    requires Tiles(rs, lo, hi, most)
    requires i < |rs|
    ensures lo <= rs[i].0 < rs[i].1 <= hi
    decreases |rs| - i
  {
    if i + 1 >= |rs| {
    } else {
      EndsWithin(rs, lo, hi, most, i + 1);
    }
    StartsWithin(rs, lo, hi, most, i);
  }

  /** The cut is the only one whose pieces, the last excepted, are all exactly `step` long. */
  lemma {:induction false} RangesUnique(rs: seq<Range>, start: nat, total: nat, step: nat)
    requires 0 < step
    requires Tiles(rs, start, total, step)
    requires forall i :: 0 <= i < |rs| - 1 ==> rs[i].1 == rs[i].0 + step
    ensures rs == RangesFrom(start, total, step)
    decreases |rs|
  {
    if rs == [] {
    } else if |rs| == 1 {
      assert rs == [rs[0]];
    } else {
      assert rs[0].1 == rs[1].0 < rs[1].1;
      EndsWithin(rs, start, total, step, 1);
      RangesUnique(rs[1..], rs[0].1, total, step);
      assert rs == [rs[0]] + rs[1..];
    }
  }

  lemma TilesJoin(a: seq<Range>, b: seq<Range>, lo: nat, mid: nat, hi: nat, most: nat)
    requires lo <= mid <= hi
    requires Tiles(a, lo, mid, most) && Tiles(b, mid, hi, most)
    ensures Tiles(a + b, lo, hi, most)
  {
  }

  // ----- two-level chunking: slabs, each cut into messages -----

  /** Slice every slab into `chunk`-sized messages, in order, as the send loop does. */
  function CutSlabs(slabs: seq<Range>, chunk: nat): seq<Range>
    requires 0 < chunk
  {
    if slabs == [] then []
    else RangesFrom(slabs[0].0, slabs[0].1, chunk) + CutSlabs(slabs[1..], chunk)
  }

  /** The absolute byte range of every binary message of a file of `size` bytes. */
  function WireRanges(size: nat, chunk: nat): seq<Range>
    requires 0 < chunk
  {
    CutSlabs(Ranges(size, SLAB_SIZE), chunk)
  }

  lemma {:induction false} CutSlabsTile(slabs: seq<Range>, lo: nat, hi: nat, chunk: nat)
    requires 0 < chunk && lo <= hi
    requires Tiles(slabs, lo, hi, SLAB_SIZE)
    ensures Tiles(CutSlabs(slabs, chunk), lo, hi, Min(chunk, SLAB_SIZE))
    decreases |slabs|
  {
    if slabs == [] {
    } else {
      var mid := slabs[0].1;
      EndsWithin(slabs, lo, hi, SLAB_SIZE, 0);
      assert Tiles(slabs[1..], mid, hi, SLAB_SIZE) by {
        if |slabs| > 1 {
          EndsWithin(slabs, lo, hi, SLAB_SIZE, 1);
        }
      }
      CutSlabsTile(slabs[1..], mid, hi, chunk);
      var head := RangesFrom(lo, mid, chunk);
      RangesTile(lo, mid, chunk);
      forall i | 0 <= i < |head| ensures head[i].1 - head[i].0 <= SLAB_SIZE {
        EndsWithin(head, lo, mid, chunk, i);
      }
      TilesJoin(head, CutSlabs(slabs[1..], chunk), lo, mid, hi, Min(chunk, SLAB_SIZE));
    }
  }

  /** The messages of a file cover it exactly, in order, none empty and none above `chunk`. */
  lemma WireRangesTile(size: nat, chunk: nat)
    requires 0 < chunk
    ensures Tiles(WireRanges(size, chunk), 0, size, Min(chunk, SLAB_SIZE))
  {
    RangesTile(0, size, SLAB_SIZE);
    CutSlabsTile(Ranges(size, SLAB_SIZE), 0, size, chunk);
  }

  lemma RangesOneMore(lo: nat, hi: nat, step: nat)
    requires 0 < step && lo + step <= hi
    ensures RangesFrom(lo, hi, step) == [(lo, lo + step)] + RangesFrom(lo + step, hi, step)
  {
  }

  lemma SplitOneMore(lo: nat, mid: nat, hi: nat, step: nat)
    requires 0 < step && lo + step <= mid <= hi
    requires RangesFrom(lo + step, hi, step) == RangesFrom(lo + step, mid, step) + RangesFrom(mid, hi, step)
    ensures RangesFrom(lo, hi, step) == RangesFrom(lo, mid, step) + RangesFrom(mid, hi, step)
  {
    var low, high := RangesFrom(lo + step, mid, step), RangesFrom(mid, hi, step);
    RangesOneMore(lo, mid, step);
    RangesOneMore(lo, hi, step);
    assert [(lo, lo + step)] + (low + high) == [(lo, lo + step)] + low + high;
  }

  lemma {:induction false} RangesSplitAt(lo: nat, mid: nat, hi: nat, step: nat, k: nat)
    requires 0 < step && lo <= mid <= hi
    requires mid - lo == k * step
    ensures RangesFrom(lo, hi, step) == RangesFrom(lo, mid, step) + RangesFrom(mid, hi, step)
    decreases k
  {
    if k == 0 {
      assert RangesFrom(lo, mid, step) == [];
    } else {
      assert mid - (lo + step) == (k - 1) * step >= 0;
      RangesSplitAt(lo + step, mid, hi, step, k - 1);
      SplitOneMore(lo, mid, hi, step);
    }
  }

  lemma {:induction false} CutSlabsIsSplit(lo: nat, size: nat, chunk: nat, k: nat)
    requires 0 < chunk && k * chunk == SLAB_SIZE
    ensures CutSlabs(RangesFrom(lo, size, SLAB_SIZE), chunk) == RangesFrom(lo, size, chunk)
    decreases size - lo
  {
    if lo >= size {
    } else {
      var mid := Min(lo + SLAB_SIZE, size);
      var slabs := RangesFrom(lo, size, SLAB_SIZE);
      assert slabs[0] == (lo, mid) && slabs[1..] == RangesFrom(mid, size, SLAB_SIZE);
      CutSlabsIsSplit(mid, size, chunk, k);
      if mid == lo + SLAB_SIZE {
        RangesSplitAt(lo, mid, size, chunk, k);
      } else {
        assert RangesFrom(mid, size, chunk) == [];
      }
    }
  }

  lemma MultipleMod(k: nat, n: nat)
    requires 0 < n
    ensures (k * n) % n == 0
  {
    var d := k - k * n / n;
    assert d * n == (k * n) % n;
    assert (d >= 1 ==> d * n >= n) && (d <= -1 ==> d * n <= -1 * n);
  }

  lemma {:induction false} RangeEndsAreMultiples(start: nat, total: nat, step: nat, k: nat, i: nat)
    requires 0 < step && start == k * step
    requires i < |RangesFrom(start, total, step)|
    ensures var end := RangesFrom(start, total, step)[i].1;
            end == total || end % step == 0
    decreases i
  {
    var end := Min(start + step, total);
    if i == 0 {
      if end == start + step {
        assert end == (k + 1) * step;
        assert ((k + 1) * step) % step == 0 by { MultipleMod(k + 1, step); }
      }
    } else if end == start + step {
      assert end == (k + 1) * step;
      RangeEndsAreMultiples(end, total, step, k + 1, i - 1);
    }
  }

  /** Slabs are invisible on the wire exactly when the file fits one slab or `chunk` divides a slab. */
  lemma WireRangesEqualSplit(size: nat, chunk: nat)
    requires 0 < chunk
    ensures WireRanges(size, chunk) == Ranges(size, chunk)
            <==> size <= SLAB_SIZE || SLAB_SIZE % chunk == 0
  {
    if SLAB_SIZE % chunk == 0 {
      CutSlabsIsSplit(0, size, chunk, SLAB_SIZE / chunk);
    } else if size <= SLAB_SIZE {
      if size > 0 {
        var slabs := RangesFrom(0, size, SLAB_SIZE);
        assert RangesFrom(size, size, SLAB_SIZE) == [];
        assert slabs == [(0, size)];
        assert CutSlabs(slabs[1..], chunk) == [];
      }
    } else {
      var wire, flat := WireRanges(size, chunk), Ranges(size, chunk);
      var slabs := RangesFrom(0, size, SLAB_SIZE);
      var head := RangesFrom(0, SLAB_SIZE, chunk);
      assert slabs[0] == (0, SLAB_SIZE);
      assert wire == head + CutSlabs(slabs[1..], chunk);
      RangesTile(0, SLAB_SIZE, chunk);
      var i := |head| - 1;
      assert wire[i].1 == SLAB_SIZE;
      if wire == flat {
        RangeEndsAreMultiples(0, size, chunk, 0, i);
        assert false;
      }
    }
  }
}
