/** Aligning success and failure buckets to the blocks of the health bar.  Times are in milliseconds. */
module Health {
  import opened Common

  datatype Bucket = Bucket(time: int, success: nat, failed: nat)
  datatype Tally = Tally(success: nat, failed: nat)
  datatype Block = Block(start: int, end: int, success: nat, failed: nat, rate: Option<real>)

  /** The start of the block a moment lies in; the divisor is positive, so the division rounds down. */
  function Align(time: int, size: int): int
    requires size > 0
  {
    time / size * size
  }

  /** Is this moment the start of a block? */
  predicate IsStart(start: int, size: int)
    requires size > 0
  {
    Align(start, size) == start
  }

  /** A multiple of the block size is as long as one block only if it is one block. */
  lemma Product(n: int, size: int)
    requires size > 0
    ensures n >= 1 ==> n * size >= size
    ensures n <= -1 ==> n * size <= -size
  {
  }

  /** Rounding down picks the multiple whose block the moment lies in. */
  lemma RoundsDown(time: int, size: int, k: int)
    requires size > 0 && k * size <= time < k * size + size
    ensures time / size == k
  {
    var q := time / size;
    assert time == q * size + time % size;
    assert (q - k) * size == q * size - k * size;
    Product(q - k, size);
  }

  /** A moment is aligned to a block start exactly when it lies inside that block. */
  lemma AlignMeansInside(time: int, size: int, start: int)
    requires size > 0 && IsStart(start, size)
    ensures Align(time, size) == start <==> start <= time < start + size
  {
    var k := start / size;
    if k * size <= time < k * size + size {
      RoundsDown(time, size, k);
    } else {
      assert time == time / size * size + time % size;
    }
  }

  lemma MultiplesAreStarts(k: int, size: int)
    requires size > 0
    ensures IsStart(k * size, size)
  {
    RoundsDown(k * size, size, k);
  }

  lemma BlocksTile(start: int, size: int)
    requires size > 0 && IsStart(start, size)
    ensures IsStart(start + size, size)
  {
    var k := start / size;
    assert start + size == (k + 1) * size;
    MultiplesAreStarts(k + 1, size);
  }

  /** The block of `now` ends the window, and the window starts where a block starts. */
  lemma WindowIsAligned(now: int, size: int, count: nat)
    requires size > 0
    ensures var end := now / size * size + size; IsStart(end - Span(count, size), size) && end - size <= now < end
  {
    SpanIsProduct(count, size);
    var k := now / size + 1 - count;
    assert k * size == now / size * size + size - count * size;
    MultiplesAreStarts(k, size);
  }

  /** The length of `i` blocks side by side. */
  function Span(i: nat, size: int): int {
    if i == 0 then 0 else Span(i - 1, size) + size
  }

  lemma {:induction false} SpanIsProduct(i: nat, size: int)
    ensures Span(i, size) == i * size
  {
    if i > 0 {
      SpanIsProduct(i - 1, size);
      assert i * size == (i - 1) * size + size;
    }
  }

  /** What happened in `[from, until)`. */
  function TallyIn(buckets: seq<Bucket>, from: int, until: int): Tally
    decreases |buckets|
  {
    if buckets == [] then Tally(0, 0)
    else
      var rest, b := TallyIn(buckets[..|buckets| - 1], from, until), buckets[|buckets| - 1];
      if from <= b.time < until then Tally(rest.success + b.success, rest.failed + b.failed) else rest
  }

  lemma {:induction false} TalliesAdd(buckets: seq<Bucket>, from: int, mid: int, until: int)
    requires from <= mid <= until
    ensures TallyIn(buckets, from, until).success
            == TallyIn(buckets, from, mid).success + TallyIn(buckets, mid, until).success
    ensures TallyIn(buckets, from, until).failed
            == TallyIn(buckets, from, mid).failed + TallyIn(buckets, mid, until).failed
    decreases |buckets|
  {
    if buckets != [] {
      TalliesAdd(buckets[..|buckets| - 1], from, mid, until);
    }
  }

  lemma {:induction false} EmptySpan(buckets: seq<Bucket>, at: int)
    ensures TallyIn(buckets, at, at) == Tally(0, 0)
    decreases |buckets|
  {
    if buckets != [] {
      EmptySpan(buckets[..|buckets| - 1], at);
    }
  }

  /** Looking up a block start in the table built from the buckets. */
  function At(table: map<int, Tally>, start: int): Tally {
    if start in table then table[start] else Tally(0, 0)
  }

  /** The table of tallies by block start. */
  method GroupByStart(buckets: seq<Bucket>, size: int) returns (table: map<int, Tally>)
    requires size > 0
    ensures forall at :: IsStart(at, size) ==> At(table, at) == TallyIn(buckets, at, at + size)
  {
    table := map[];
    for n := 0 to |buckets|
      invariant forall at :: IsStart(at, size) ==> At(table, at) == TallyIn(buckets[..n], at, at + size)
    {
      var b := buckets[n];
      var start := Align(b.time, size);
      var cur := At(table, start);
      ghost var before := table;
      table := table[start := Tally(cur.success + b.success, cur.failed + b.failed)];
      assert buckets[..n + 1][..n] == buckets[..n];
      forall at | IsStart(at, size)
        ensures At(table, at) == TallyIn(buckets[..n + 1], at, at + size)
      {
        AlignMeansInside(b.time, size, at);
        assert At(before, at) == TallyIn(buckets[..n], at, at + size);
      }
    }
    assert buckets[..|buckets|] == buckets;
  }

  function SumSuccess(blocks: seq<Block>): nat {
    if blocks == [] then 0 else SumSuccess(blocks[..|blocks| - 1]) + blocks[|blocks| - 1].success
  }

  function SumFailed(blocks: seq<Block>): nat {
    if blocks == [] then 0 else SumFailed(blocks[..|blocks| - 1]) + blocks[|blocks| - 1].failed
  }

  /** Null without events, else the fraction of the events that succeeded. */
  predicate RateSays(rate: Option<real>, success: nat, failed: nat) {
    match rate
    case None => success + failed == 0
    case Some(r) => success + failed > 0 && 0.0 <= r <= 1.0 && r * (success + failed) as real == success as real
  }

  ghost predicate BlockSays(b: Block, buckets: seq<Bucket>, size: int) {
    && b.end == b.start + size
    && Tally(b.success, b.failed) == TallyIn(buckets, b.start, b.end)
    && RateSays(b.rate, b.success, b.failed)
  }

  method MakeBlock(start: int, size: int, v: Tally) returns (b: Block)
    ensures b.start == start && b.end == start + size && b.success == v.success && b.failed == v.failed
    ensures RateSays(b.rate, b.success, b.failed)
  {
    var total := v.success + v.failed;
    b := Block(start, start + size, v.success, v.failed,
               if total != 0 then Some(v.success as real / total as real) else None);
  }

  /** `out` tiles `[first, at)` with blocks that say what happened inside them. */
  ghost predicate Chain(out: seq<Block>, buckets: seq<Bucket>, size: int, first: int, at: int) {
    && (forall i :: 0 <= i < |out| ==> BlockSays(out[i], buckets, size))
    && (forall i :: 0 <= i < |out| - 1 ==> out[i].end == out[i + 1].start)
    && (if out == [] then at == first else out[0].start == first && out[|out| - 1].end == at)
    && Tally(SumSuccess(out), SumFailed(out)) == TallyIn(buckets, first, at)
  }

  lemma ChainGrows(out: seq<Block>, b: Block, buckets: seq<Bucket>, size: int, first: int, at: int)
    requires size > 0 && first <= at
    requires Chain(out, buckets, size, first, at) && BlockSays(b, buckets, size) && b.start == at
    ensures Chain(out + [b], buckets, size, first, at + size)
  {
    assert (out + [b])[..|out|] == out;
    TalliesAdd(buckets, first, at, at + size);
  }

  /** Where the `i`th block from the end starts. */
  method BlockStart(i: nat, size: int, end: int) returns (start: int)
    ensures start == end - Span(i, size)
  {
    SpanIsProduct(i, size);
    start := end - i * size;
  }

  /** The `i`th block from the end, and what the table says about it. */
  ghost predicate SaysBlock(table: map<int, Tally>, buckets: seq<Bucket>, size: int, end: int, i: nat) {
    var start := end - Span(i, size);
    At(table, start) == TallyIn(buckets, start, start + size)
  }

  lemma {:induction false} StartsAreStarts(end: int, size: int, count: nat, i: nat)
    requires size > 0 && i <= count && IsStart(end - Span(count, size), size)
    ensures IsStart(end - Span(i, size), size)
    decreases count - i
  {
    if i < count {
      StartsAreStarts(end, size, count, i + 1);
      BlocksTile(end - Span(i + 1, size), size);
    }
  }

  lemma TableSaysBlocks(table: map<int, Tally>, buckets: seq<Bucket>, size: int, end: int, count: nat)
    requires size > 0 && IsStart(end - Span(count, size), size)
    requires forall at :: IsStart(at, size) ==> At(table, at) == TallyIn(buckets, at, at + size)
    ensures forall i: nat :: i <= count ==> SaysBlock(table, buckets, size, end, i)
  {
    forall i: nat | i <= count
      ensures SaysBlock(table, buckets, size, end, i)
    {
      StartsAreStarts(end, size, count, i);
    }
  }

  lemma {:induction false} SpanGrows(i: nat, count: nat, size: int)
    requires size > 0 && i <= count
    ensures Span(i, size) <= Span(count, size)
    decreases count - i
  {
    if i < count {
      SpanGrows(i + 1, count, size);
    }
  }

  /** Pushes the block that starts where the pushed ones end. */
  method PushBlock(out: seq<Block>, v: Tally, size: int, start: int, ghost first: int, ghost buckets: seq<Bucket>)
      returns (more: seq<Block>)
    requires size > 0 && first <= start && v == TallyIn(buckets, start, start + size)
    requires Chain(out, buckets, size, first, start)
    ensures |more| == |out| + 1 && Chain(more, buckets, size, first, start + size)
  {
    var b := MakeBlock(start, size, v);
    ChainGrows(out, b, buckets, size, first, start);
    more := out + [b];
  }

  /** The pushing loop: `count` blocks that end at `end`. */
  method PushBlocks(table: map<int, Tally>, count: nat, size: int, end: int, ghost buckets: seq<Bucket>)
      returns (out: seq<Block>)
    requires size > 0 && forall i: nat :: i <= count ==> SaysBlock(table, buckets, size, end, i)
    ensures |out| == count && Chain(out, buckets, size, end - Span(count, size), end)
  {
    out := [];
    var i: nat := count;
    ghost var first := end - Span(count, size);
    EmptySpan(buckets, first);
    while i > 0
      invariant i <= count && |out| == count - i
      invariant Chain(out, buckets, size, first, end - Span(i, size))
    {
      var start := BlockStart(i, size, end);
      SpanGrows(i, count, size);
      assert SaysBlock(table, buckets, size, end, i);
      out := PushBlock(out, At(table, start), size, start, first, buckets);
      i := i - 1;
    }
  }

  /**
   `buildBlocks`: `count` blocks of equal size, side by side, the last one holding `now`; each block counts exactly
   what happened inside it, and together they count exactly what happened in the whole window.
   */
  method BuildBlocks(buckets: seq<Bucket>, count: nat, minutes: nat, now: int) returns (out: seq<Block>)
    requires minutes > 0
    ensures |out| == count
    ensures forall i :: 0 <= i < count ==> BlockSays(out[i], buckets, minutes * 60000)
    ensures forall i :: 0 <= i < count - 1 ==> out[i].end == out[i + 1].start
    ensures count > 0 ==> out[count - 1].start <= now < out[count - 1].end
    ensures count > 0 ==> Tally(SumSuccess(out), SumFailed(out)) == TallyIn(buckets, out[0].start, out[count - 1].end)
  {
    var size := minutes * 60000;
    var end := now / size * size + size;
    WindowIsAligned(now, size, count);
    var table := GroupByStart(buckets, size);
    TableSaysBlocks(table, buckets, size, end, count);
    out := PushBlocks(table, count, size, end, buckets);
  }
}
