// The bounded history of a metric and its reduction to what a display can show (internal/telemetry/history/ring.go,
// internal/telemetry/history/downsample.go).
module HistorySpec {
  datatype Sample = Sample(time: nat, value: real)

  // Once around the ring at most.
  function Wrap(x: nat, capacity: nat): nat { if x >= capacity then x - capacity else x }

  function Modulo(x: nat, capacity: nat): nat
    requires capacity > 0
  {
    x % capacity
  }

  // Position i of a window of `size` ending before `next`, in modular arithmetic.
  lemma SlotIsFound(next: nat, size: nat, capacity: nat, i: nat)
    requires next < capacity && size <= capacity && i < size
    ensures Modulo(Modulo(next - size + capacity, capacity) + i, capacity) == Wrap(next + capacity - size + i, capacity)
    ensures Wrap(next + capacity - size + i, capacity) < capacity
  {
    WrapsOnce(next - size + capacity, capacity);
    WrapsOnce(Wrap(next - size + capacity, capacity) + i, capacity);
  }

  lemma WrapsOnce(x: nat, capacity: nat)
    requires x < 2 * capacity
    ensures x % capacity == Wrap(x, capacity)
  {
    if x >= capacity {
      assert x % capacity == (x - capacity) % capacity;
    }
  }

  // The newest samples, at most so many.
  function Newest(appended: seq<Sample>, capacity: nat): seq<Sample> {
    if |appended| <= capacity then appended else appended[|appended| - capacity..]
  }

  // --- Extrema by bucket ---

  // The first index of the least, or of the greatest, value from lo up to hi.
  function LeastIn(samples: seq<Sample>, lo: nat, hi: nat): (index: nat)
    requires lo < hi <= |samples|
    ensures lo <= index < hi
  {
    if hi == lo + 1 then lo
    else
      var least := LeastIn(samples, lo, hi - 1);
      if samples[hi - 1].value < samples[least].value then hi - 1 else least
  }

  function GreatestIn(samples: seq<Sample>, lo: nat, hi: nat): (index: nat)
    requires lo < hi <= |samples|
    ensures lo <= index < hi
  {
    if hi == lo + 1 then lo
    else
      var greatest := GreatestIn(samples, lo, hi - 1);
      if samples[hi - 1].value > samples[greatest].value then hi - 1 else greatest
  }

  // Nothing in the bucket lies below the least or above the greatest, and nothing before either of them equals it.
  lemma {:induction false} ExtremaAreFirst(samples: seq<Sample>, lo: nat, hi: nat)
    requires lo < hi <= |samples|
    ensures var least, greatest := samples[LeastIn(samples, lo, hi)].value, samples[GreatestIn(samples, lo, hi)].value;
            && (forall k :: lo <= k < hi ==> least <= samples[k].value <= greatest)
            && (forall k :: lo <= k < LeastIn(samples, lo, hi) ==> least < samples[k].value)
            && (forall k :: lo <= k < GreatestIn(samples, lo, hi) ==> samples[k].value < greatest)
  {
    if hi > lo + 1 {
      ExtremaAreFirst(samples, lo, hi - 1);
    }
  }

  function Extrema(least: nat, greatest: nat): seq<nat> {
    if least == greatest then [least] else if least < greatest then [least, greatest] else [greatest, least]
  }

  function BucketEnd(samples: seq<Sample>, start: nat, size: nat): nat {
    if start + size > |samples| then |samples| else start + size
  }

  // The indices kept, bucket after bucket.
  function Picked(samples: seq<Sample>, start: nat, size: nat): seq<nat>
    requires size > 0
    decreases |samples| - start
  {
    if start >= |samples| then []
    else
      var end := BucketEnd(samples, start, size);
      Extrema(LeastIn(samples, start, end), GreatestIn(samples, start, end)) + Picked(samples, start + size, size)
  }

  function BucketSize(count: nat, columns: nat): nat
    requires columns > 0
  {
    (count + columns - 1) / columns
  }

  predicate IndicesOf(indices: seq<nat>, samples: seq<Sample>) {
    && (forall k :: 0 <= k < |indices| ==> indices[k] < |samples|)
    && (forall j, k :: 0 <= j < k < |indices| ==> indices[j] < indices[k])
  }

  function At(samples: seq<Sample>, indices: seq<nat>): seq<Sample>
    requires forall k :: 0 <= k < |indices| ==> indices[k] < |samples|
  {
    seq(|indices|, k requires 0 <= k < |indices| => samples[indices[k]])
  }

  // --- Properties ---

  lemma AtAppends(samples: seq<Sample>, a: seq<nat>, b: seq<nat>)
    requires forall k :: 0 <= k < |a| ==> a[k] < |samples|
    requires forall k :: 0 <= k < |b| ==> b[k] < |samples|
    ensures forall k :: 0 <= k < |a + b| ==> (a + b)[k] < |samples|
    ensures At(samples, a + b) == At(samples, a) + At(samples, b)
  {
  }

  lemma {:induction false} LeastIsLeast(samples: seq<Sample>, lo: nat, hi: nat)
    requires lo < hi <= |samples|
    ensures forall i :: lo <= i < hi ==>
              samples[LeastIn(samples, lo, hi)].value <= samples[i].value <= samples[GreatestIn(samples, lo, hi)].value
  {
    if hi > lo + 1 {
      LeastIsLeast(samples, lo, hi - 1);
    }
  }

  // The indices kept ascend, so what is kept is in the order in which it was sampled.
  lemma {:induction false} PickedAscends(samples: seq<Sample>, start: nat, size: nat)
    requires size > 0
    ensures var picked := Picked(samples, start, size);
            IndicesOf(picked, samples) && forall k :: 0 <= k < |picked| ==> start <= picked[k]
    decreases |samples| - start
  {
    hide LeastIn, GreatestIn;
    if start < |samples| {
      var end := BucketEnd(samples, start, size);
      PickedAscends(samples, start + size, size);
      ExtremaAscend(LeastIn(samples, start, end), GreatestIn(samples, start, end), start, end,
                    Picked(samples, start + size, size), samples);
    }
  }

  lemma ExtremaAscend(least: nat, greatest: nat, start: nat, end: nat, rest: seq<nat>, samples: seq<Sample>)
    requires start <= least < end <= |samples| && start <= greatest < end
    requires IndicesOf(rest, samples) && forall k :: 0 <= k < |rest| ==> end <= rest[k]
    ensures var all := Extrema(least, greatest) + rest;
            IndicesOf(all, samples) && forall k :: 0 <= k < |all| ==> start <= all[k]
  {
    var here := Extrema(least, greatest);
    forall k | 0 <= k < |here + rest|
      ensures (here + rest)[k] == if k < |here| then here[k] else rest[k - |here|]
    {
    }
  }

  // At most two for each bucket.
  lemma {:induction false} PickedIsShort(samples: seq<Sample>, start: nat, size: nat, buckets: nat)
    requires size > 0 && |samples| <= start + size * buckets
    ensures |Picked(samples, start, size)| <= 2 * buckets
    decreases |samples| - start
  {
    hide LeastIn, GreatestIn;
    if start < |samples| {
      OneLess(size, buckets);
      PickedIsShort(samples, start + size, size, buckets - 1);
    }
  }

  lemma OneLess(size: nat, buckets: nat)
    ensures buckets > 0 ==> size * buckets == size + size * (buckets - 1)
    ensures buckets == 0 ==> size * buckets == 0
  {
  }

  lemma BucketSizeIsPositive(count: nat, columns: nat)
    requires columns > 0 && count > 0
    ensures BucketSize(count, columns) > 0
  {
    BucketsCover(count, columns);
  }

  lemma BucketsCover(count: nat, columns: nat)
    requires columns > 0
    ensures BucketSize(count, columns) * columns >= count && (count > 0 ==> BucketSize(count, columns) > 0)
  {
  }

  // Where the bucket of an index starts.
  function BucketStart(start: nat, size: nat, i: nat): (first: nat)
    requires size > 0 && start <= i
    ensures first <= i < first + size
    decreases i - start
  {
    if i < start + size then start else BucketStart(start + size, size, i)
  }

  predicate Keeps(picked: seq<nat>, samples: seq<Sample>, start: nat, size: nat, i: nat, k: nat)
    requires size > 0 && start <= i
  {
    && k < |picked| && start <= picked[k] < |samples|
    && BucketStart(start, size, picked[k]) == BucketStart(start, size, i)
  }

  lemma FirstBucketIsBracketed(samples: seq<Sample>, start: nat, size: nat, i: nat) returns (low: nat, high: nat)
    requires size > 0 && start <= i < |samples| && i < start + size
    ensures var picked := Picked(samples, start, size);
            && Keeps(picked, samples, start, size, i, low) && Keeps(picked, samples, start, size, i, high)
            && samples[picked[low]].value <= samples[i].value <= samples[picked[high]].value
  {
    var end := BucketEnd(samples, start, size);
    var least, greatest := LeastIn(samples, start, end), GreatestIn(samples, start, end);
    LeastIsLeast(samples, start, end);
    hide LeastIn, GreatestIn;
    low := if least <= greatest then 0 else 1;
    high := if greatest <= least then 0 else 1;
  }

  // Of each bucket, something is kept that is no greater than anything in it, and something that is no less.
  lemma {:induction false} PickedBracketsEach(samples: seq<Sample>, start: nat, size: nat, i: nat)
    returns (low: nat, high: nat)
    requires size > 0 && start <= i < |samples|
    ensures var picked := Picked(samples, start, size);
            && Keeps(picked, samples, start, size, i, low) && Keeps(picked, samples, start, size, i, high)
            && samples[picked[low]].value <= samples[i].value <= samples[picked[high]].value
    decreases |samples| - start
  {
    var end := BucketEnd(samples, start, size);
    var least, greatest := LeastIn(samples, start, end), GreatestIn(samples, start, end);
    var here := Extrema(least, greatest);
    hide LeastIn, GreatestIn;
    if i < start + size {
      low, high := FirstBucketIsBracketed(samples, start, size, i);
    } else {
      hide Extrema;
      var j, k := PickedBracketsEach(samples, start + size, size, i);
      low, high := |here| + j, |here| + k;
    }
  }

  predicate HasBelow(kept: seq<Sample>, value: real) { exists k :: 0 <= k < |kept| && kept[k].value <= value }

  predicate HasAbove(kept: seq<Sample>, value: real) { exists k :: 0 <= k < |kept| && kept[k].value >= value }

  // No sample lies outside the range of those kept.
  predicate Brackets(kept: seq<Sample>, samples: seq<Sample>) {
    forall i :: 0 <= i < |samples| ==> HasBelow(kept, samples[i].value) && HasAbove(kept, samples[i].value)
  }

  // The envelope of the whole history is kept.
  lemma PickedKeepsEnvelope(samples: seq<Sample>, size: nat)
    requires size > 0
    ensures Brackets(Kept(samples, 0, size), samples)
  {
    var picked := Picked(samples, 0, size);
    var kept := Kept(samples, 0, size);
    forall i | 0 <= i < |samples|
      ensures HasBelow(kept, samples[i].value) && HasAbove(kept, samples[i].value)
    {
      var low, high := PickedBracketsEach(samples, 0, size, i);
      assert kept[low] == samples[picked[low]] && kept[high] == samples[picked[high]];
    }
  }

  // The samples kept from this bucket on.
  function Kept(samples: seq<Sample>, start: nat, size: nat): seq<Sample>
    requires size > 0
  {
    PickedAscends(samples, start, size);
    At(samples, Picked(samples, start, size))
  }

  function Downsampled(samples: seq<Sample>, columns: int): seq<Sample> {
    if |samples| == 0 || columns <= 0 then []
    else if |samples| <= columns * 2 then samples
    else
      BucketSizeIsPositive(|samples|, columns);
      Kept(samples, 0, BucketSize(|samples|, columns))
  }

  function Shown(samples: seq<Sample>, minimum: nat, maximum: nat): seq<Sample>
    requires minimum < |samples| && maximum < |samples|
  {
    if minimum == maximum then [samples[minimum]]
    else if minimum < maximum then [samples[minimum], samples[maximum]]
    else [samples[maximum], samples[minimum]]
  }

  lemma KeptUnfolds(samples: seq<Sample>, start: nat, size: nat)
    requires size > 0 && start < |samples|
    ensures var end := BucketEnd(samples, start, size);
            Kept(samples, start, size)
            == Shown(samples, LeastIn(samples, start, end), GreatestIn(samples, start, end))
               + Kept(samples, start + size, size)
  {
    var end := BucketEnd(samples, start, size);
    var least, greatest := LeastIn(samples, start, end), GreatestIn(samples, start, end);
    hide LeastIn, GreatestIn;
    PickedAscends(samples, start, size);
    PickedAscends(samples, start + size, size);
    AtAppends(samples, Extrema(least, greatest), Picked(samples, start + size, size));
    assert At(samples, Extrema(least, greatest)) == Shown(samples, least, greatest);
  }

  lemma KeptEnds(samples: seq<Sample>, start: nat, size: nat)
    requires size > 0 && start >= |samples|
    ensures Kept(samples, start, size) == []
  {
  }

  // No more than two samples a column, chosen in order; and, with a column to show, none outside whose range any
  // sample lies.
  lemma DownsampledIsFaithful(samples: seq<Sample>, columns: int) returns (indices: seq<nat>)
    ensures var kept := Downsampled(samples, columns);
            && |kept| <= 2 * (if columns > 0 then columns else 0)
            && IndicesOf(indices, samples) && kept == At(samples, indices)
            && (columns > 0 ==> Brackets(kept, samples))
  {
    if |samples| == 0 || columns <= 0 {
      indices := [];
    } else if |samples| <= columns * 2 {
      indices := seq(|samples|, i requires 0 <= i < |samples| => i);
      assert Downsampled(samples, columns) == samples == At(samples, indices);
      forall i | 0 <= i < |samples|
        ensures HasBelow(samples, samples[i].value) && HasAbove(samples, samples[i].value)
      {
      }
    } else {
      var size := BucketSize(|samples|, columns);
      BucketsCover(|samples|, columns);
      PickedIsShort(samples, 0, size, columns);
      PickedKeepsEnvelope(samples, size);
      PickedAscends(samples, 0, size);
      indices := Picked(samples, 0, size);
    }
  }
}

// The ring and the reduction as they run.
module History {
  import opened HistorySpec

  class Ring {
    const samples: array<Sample>
    var next: nat
    var size: nat
    ghost var appended: seq<Sample>

    // Position i of the window, counted from its oldest sample.
    ghost function Slot(i: nat): nat
      reads this
      requires next < samples.Length && size <= samples.Length && i < size
    {
      Wrap(next + samples.Length - size + i, samples.Length)
    }

    ghost predicate Valid()
      reads this, samples
    {
      && 0 < samples.Length && next < samples.Length
      && size == (if |appended| < samples.Length then |appended| else samples.Length)
      && forall i :: 0 <= i < size ==> samples[Slot(i)] == appended[|appended| - size + i]
    }

    constructor (capacity: nat)
      requires capacity >= 1
      ensures Valid() && fresh(samples) && samples.Length == capacity && appended == []
    {
      samples := new Sample[capacity](i => Sample(0, 0.0));
      next, size, appended := 0, 0, [];
    }

    method Append(sample: Sample)
      requires Valid()
      modifies this`next, this`size, this`appended, samples
      ensures Valid() && appended == old(appended) + [sample]
    {
      ghost var before := size;
      samples[next] := sample;
      WrapsOnce(next + 1, samples.Length);
      next := (next + 1) % samples.Length;
      if size < samples.Length {
        size := size + 1;
      }
      appended := appended + [sample];
      ghost var shift := if size == before then 1 else 0;
      forall i | 0 <= i < size
        ensures samples[Slot(i)] == appended[|appended| - size + i]
      {
        if i < size - 1 {
          assert Slot(i) == old(Slot(i + shift));
        } else {
          assert Slot(i) == old(next);
        }
      }
    }

    // The place of position i in modular arithmetic holds sample i of the window.
    lemma WindowHolds(i: nat)
      requires Valid() && i < size
      ensures var at := Modulo(Modulo(next - size + samples.Length, samples.Length) + i, samples.Length);
              at < samples.Length && samples[at] == appended[|appended| - size + i]
    {
      SlotIsFound(next, size, samples.Length, i);
      hide Wrap, Modulo;
      assert Wrap(next + samples.Length - size + i, samples.Length) == Slot(i);
    }

    method Snapshot() returns (result: seq<Sample>)
      requires Valid()
      ensures result == Newest(appended, samples.Length)
    {
      assert size == (if |appended| < samples.Length then |appended| else samples.Length) && next < samples.Length;
      hide Wrap, Modulo, Ring.Valid;
      result := [];
      var start := Modulo(next - size + samples.Length, samples.Length);
      ghost var oldest := |appended| - size;
      for index := 0 to size
        invariant result == appended[oldest..oldest + index]
      {
        WindowHolds(index);
        result := result + [samples[Modulo(start + index, samples.Length)]];
        assert appended[oldest..oldest + index + 1] == appended[oldest..oldest + index] + [appended[oldest + index]];
      }
    }
  }

  method DownsampleMinMax(samples: seq<Sample>, pixelColumns: int) returns (result: seq<Sample>)
    ensures result == Downsampled(samples, pixelColumns)
  {
    if |samples| == 0 || pixelColumns <= 0 {
      return [];
    }
    if |samples| <= pixelColumns * 2 {
      return samples;
    }
    var bucketSize := BucketSize(|samples|, pixelColumns);
    BucketSizeIsPositive(|samples|, pixelColumns);
    result := KeepExtrema(samples, bucketSize);
  }

  lemma Regroup(a: seq<Sample>, b: seq<Sample>, c: seq<Sample>)
    ensures a + (b + c) == a + b + c
  {
  }

  method KeepExtrema(samples: seq<Sample>, bucketSize: nat) returns (result: seq<Sample>)
    requires bucketSize > 0
    ensures result == Kept(samples, 0, bucketSize)
  {
    hide LeastIn, GreatestIn, Kept, Shown;
    result := [];
    var start := 0;
    ghost var whole := Kept(samples, 0, bucketSize);
    while start < |samples|
      invariant result + Kept(samples, start, bucketSize) == whole
      decreases |samples| - start
    {
      var end := if start + bucketSize > |samples| then |samples| else start + bucketSize;
      var minimum, maximum := FindExtrema(samples, start, end);
      KeptUnfolds(samples, start, bucketSize);
      var shown := ShowExtrema(samples, minimum, maximum);
      Regroup(result, shown, Kept(samples, start + bucketSize, bucketSize));
      result := result + shown;
      start := start + bucketSize;
    }
    KeptEnds(samples, start, bucketSize);
  }

  // In the order in which they were sampled.
  method ShowExtrema(samples: seq<Sample>, minimum: nat, maximum: nat) returns (shown: seq<Sample>)
    requires minimum < |samples| && maximum < |samples|
    ensures shown == Shown(samples, minimum, maximum)
  {
    if minimum == maximum {
      shown := [samples[minimum]];
    } else if minimum < maximum {
      shown := [samples[minimum], samples[maximum]];
    } else {
      shown := [samples[maximum], samples[minimum]];
    }
  }

  method FindExtrema(samples: seq<Sample>, start: nat, end: nat) returns (minimum: nat, maximum: nat)
    requires start < end <= |samples|
    ensures minimum == LeastIn(samples, start, end) && maximum == GreatestIn(samples, start, end)
  {
    minimum, maximum := start, start;
    for index := start + 1 to end
      invariant minimum == LeastIn(samples, start, index) && maximum == GreatestIn(samples, start, index)
    {
      if samples[index].value < samples[minimum].value {
        minimum := index;
      }
      if samples[index].value > samples[maximum].value {
        maximum := index;
      }
    }
  }
}
