/** The histogram aggregator of src/metric/dp.h, without noise.

    Real numbers stand for floating-point ones. Bucket j holds the values above boundary j - 1 and
    up to and including boundary j, as std::lower_bound finds it.
 */
module Histograms {

  predicate Ascending(b: seq<real>) {
    forall i, j :: 0 <= i < j < |b| ==> b[i] <= b[j]
  }

  /** x belongs to bucket j. */
  predicate InBucket(b: seq<real>, x: real, j: nat) {
    j <= |b| && (forall i :: 0 <= i < j ==> b[i] < x) && (forall i :: j <= i < |b| ==> x <= b[i])
  }

  /** The bucket of x: how many boundaries are below it. */
  function Bucket(b: seq<real>, x: real): (j: nat)
    requires Ascending(b)
    ensures InBucket(b, x, j)
  {
    if b == [] then 0
    else
      var n := |b| - 1;
      if b[n] < x then |b| else Bucket(b[..n], x)
  }

  lemma BucketUnique(b: seq<real>, x: real, j: nat)
    requires Ascending(b) && InBucket(b, x, j)
    ensures j == Bucket(b, x)
  {
  }

  /** std::lower_bound. */
  method LowerBound(b: seq<real>, x: real) returns (j: nat)
    requires Ascending(b)
    ensures j == Bucket(b, x)
  {
    var lo, hi := 0, |b|;
    while lo < hi
      invariant 0 <= lo <= hi <= |b|
      invariant (forall i :: 0 <= i < lo ==> b[i] < x) && (forall i :: hi <= i < |b| ==> x <= b[i])
    {
      var mid := (lo + hi) / 2;
      if b[mid] < x {
        lo := mid + 1;
      } else {
        hi := mid;
      }
    }
    j := lo;
    BucketUnique(b, x, j);
  }

  function Min(x: real, y: real): (m: real) { if y < x then y else x }

  function Max(x: real, y: real): (m: real) { if x < y then y else x }

  /** What a value counts as. */
  function Clamp(x: real, lower: real, upper: real): (y: real) {
    Min(Max(x, lower), upper)
  }

  /** A value's bucket is among those that are reported, whatever the value, exactly if the bucket of
      the lower bound is not above that of the upper one, as when the bounds are in order.
   */
  lemma ClampedInRange(b: seq<real>, x: real, lower: real, upper: real)
    requires Ascending(b)
    ensures Bucket(b, lower) <= Bucket(b, Clamp(x, lower, upper)) <= Bucket(b, upper)
            <==> Bucket(b, lower) <= Bucket(b, upper)
    ensures lower <= upper ==> Bucket(b, lower) <= Bucket(b, upper)
  {
    var y := Clamp(x, lower, upper);
    BucketMonotone(b, lower, upper);
    BucketMonotone(b, y, upper);
    BucketMonotone(b, lower, y);
  }

  lemma BucketMonotone(b: seq<real>, x: real, y: real)
    requires Ascending(b)
    ensures x <= y ==> Bucket(b, x) <= Bucket(b, y)
  {
    var j, k := Bucket(b, x), Bucket(b, y);
    if k < j {
      assert b[k] < x;
    }
  }

  /** The value that stands for bucket j. */
  function BucketMean(j: nat, b: seq<real>): (x: real)
    requires b != [] && j <= |b|
    ensures 0 < j < |b| ==> x - b[j - 1] == b[j] - x
    ensures j == 0 ==> x == b[0] - x
    ensures j == |b| ==> x == b[j - 1] + 1.0
  {
    if j == 0 then b[0] / 2.0
    else if j == |b| then b[|b| - 1] + 1.0
    else (b[j - 1] + b[j]) / 2.0
  }

  /** The value that stands for a bucket is in it, unless it is the first one and its boundary is
      negative, or the bucket is empty.
   */
  lemma MeanInBucket(j: nat, b: seq<real>)
    requires Ascending(b) && b != [] && j <= |b|
    ensures Bucket(b, BucketMean(j, b)) == j <==> if j == 0 then b[0] >= 0.0 else j < |b| ==> b[j - 1] < b[j]
  {
    var x := BucketMean(j, b);
    if if j == 0 then b[0] >= 0.0 else j < |b| ==> b[j - 1] < b[j] {
      BucketUnique(b, x, j);
    }
  }

  /** How many of the values are in bucket j. */
  function Count(b: seq<real>, xs: seq<real>, j: nat): (n: nat)
    requires Ascending(b)
  {
    if xs == [] then 0
    else Count(b, xs[..|xs| - 1], j) + if Bucket(b, xs[|xs| - 1]) == j then 1 else 0
  }

  lemma CountMore(b: seq<real>, xs: seq<real>, x: real)
    requires Ascending(b)
    ensures forall j :: Count(b, xs + [x], j) == Count(b, xs, j) + if Bucket(b, x) == j then 1 else 0
  {
    assert (xs + [x])[..|xs|] == xs;
  }

  function Total(b: seq<real>, xs: seq<real>, n: nat): (t: nat)
    requires Ascending(b)
  {
    if n == 0 then 0 else Total(b, xs, n - 1) + Count(b, xs, n - 1)
  }

  lemma {:induction false} TotalLess(b: seq<real>, xs: seq<real>, n: nat)
    requires Ascending(b) && xs != []
    ensures Total(b, xs, n) == Total(b, xs[..|xs| - 1], n) + if Bucket(b, xs[|xs| - 1]) < n then 1 else 0
  {
    if n > 0 {
      TotalLess(b, xs, n - 1);
    }
  }

  /** Every value is in exactly one bucket. */
  lemma {:induction false} TotalAll(b: seq<real>, xs: seq<real>)
    requires Ascending(b)
    ensures Total(b, xs, |b| + 1) == |xs|
  {
    if xs == [] {
      TotalNone(b, |b| + 1);
    } else {
      TotalLess(b, xs, |b| + 1);
      TotalAll(b, xs[..|xs| - 1]);
    }
  }

  lemma {:induction false} TotalNone(b: seq<real>, n: nat)
    requires Ascending(b)
    ensures Total(b, [], n) == 0
  {
    if n > 0 {
      TotalNone(b, n - 1);
    }
  }

  lemma {:induction false} SameTotal(b: seq<real>, xs: seq<real>, ys: seq<real>, n: nat)
    requires Ascending(b) && forall j :: 0 <= j < n ==> Count(b, xs, j) == Count(b, ys, j)
    ensures Total(b, xs, n) == Total(b, ys, n)
  {
    if n > 0 {
      SameTotal(b, xs, ys, n - 1);
    }
  }

  lemma {:induction false} CountOutside(b: seq<real>, xs: seq<real>, lo: nat, hi: nat, j: nat)
    requires Ascending(b) && (j < lo || hi < j)
    requires forall i :: 0 <= i < |xs| ==> lo <= Bucket(b, xs[i]) <= hi
    ensures Count(b, xs, j) == 0
  {
    if xs != [] {
      CountOutside(b, xs[..|xs| - 1], lo, hi, j);
    }
  }

  /** Boundaries that make sense. */
  predicate Proper(b: seq<real>) {
    b != [] && b[0] >= 0.0 && forall i, j :: 0 <= i < j < |b| ==> b[i] < b[j]
  }

  class Histogram {
    const boundaries: seq<real>
    const lower: real
    const upper: real
    var counts: seq<nat>
    var reported: seq<real>         // what has been logged, oldest first
    ghost var entries: seq<real>    // the clamped values aggregated since the last output

    ghost predicate Valid()
      reads this
    {
      && boundaries != [] && Ascending(boundaries) && |counts| == |boundaries| + 1
      && (forall j :: 0 <= j < |counts| ==> counts[j] == Count(boundaries, entries, j))
      && (forall i :: 0 <= i < |entries| ==>
            Bucket(boundaries, lower) <= Bucket(boundaries, entries[i]) <= Bucket(boundaries, upper))
    }

    constructor (boundaries: seq<real>, lower: real, upper: real)
      requires boundaries != [] && Ascending(boundaries) && Bucket(boundaries, lower) <= Bucket(boundaries, upper)
      ensures Valid() && entries == [] && reported == []
      ensures this.boundaries == boundaries && this.lower == lower && this.upper == upper
    {
      this.boundaries, this.lower, this.upper := boundaries, lower, upper;
      counts := seq(|boundaries| + 1, _ => 0);
      reported, entries := [], [];
    }

    method Aggregate(value: real)
      requires Valid() && Bucket(boundaries, lower) <= Bucket(boundaries, upper)
      modifies this`counts, this`entries
      ensures Valid() && entries == old(entries) + [Clamp(value, lower, upper)]
    {
      var x := Clamp(value, lower, upper);
      var index := LowerBound(boundaries, x);
      ClampedInRange(boundaries, value, lower, upper);
      CountMore(boundaries, entries, x);
      counts := counts[index := counts[index] + 1];
      entries := entries + [x];
    }

    /** Logs the value of each bucket as often as there are entries in it, and starts afresh. What it
        logs falls into the same buckets as the entries did, so as many values are logged as were
        aggregated.
     */
    method OutputNoised()
      requires Valid() && Proper(boundaries) && Bucket(boundaries, lower) <= Bucket(boundaries, upper)
      modifies this`counts, this`entries, this`reported
      ensures Valid() && entries == [] && old(reported) <= reported
      ensures var out := reported[|old(reported)|..];
        && |out| == |old(entries)|
        && forall j :: 0 <= j <= |boundaries| ==> Count(boundaries, out, j) == Count(boundaries, old(entries), j)
    {
      var b := boundaries;
      var lo := LowerBound(b, lower);
      var hi := LowerBound(b, upper);
      var out: seq<real> := [];
      var j := lo;
      while j <= hi
        invariant lo <= j <= hi + 1 && |counts| == |b| + 1 && entries == old(entries) && reported == old(reported)
        invariant forall k :: 0 <= k < |counts| ==> counts[k] == if lo <= k < j then 0 else old(counts)[k]
        invariant forall k :: 0 <= k <= |b| ==> Count(b, out, k) == if lo <= k < j then old(counts)[k] else 0
      {
        out := LogBucket(j, counts[j], out);
        counts := counts[j := 0];
        j := j + 1;
      }
      forall k | 0 <= k <= |b|
        ensures counts[k] == 0 && Count(b, out, k) == Count(b, entries, k)
      {
        if k < lo || hi < k {
          CountOutside(b, entries, lo, hi, k);
        }
      }
      SameTotal(b, out, entries, |b| + 1);
      TotalAll(b, out);
      TotalAll(b, entries);
      reported, entries := reported + out, [];
      assert reported[|old(reported)|..] == out;
    }

    /** Logs the value of bucket j n times. */
    method LogBucket(j: nat, n: nat, before: seq<real>) returns (out: seq<real>)
      requires Proper(boundaries) && j <= |boundaries|
      ensures forall k :: 0 <= k <= |boundaries| ==>
                Count(boundaries, out, k) == Count(boundaries, before, k) + if k == j then n else 0
    {
      var mean := BucketMean(j, boundaries);
      MeanInBucket(j, boundaries);
      out := before;
      for i := 0 to n
        invariant forall k :: 0 <= k <= |boundaries| ==>
                    Count(boundaries, out, k) == Count(boundaries, before, k) + if k == j then i else 0
      {
        CountMore(boundaries, out, mean);
        out := out + [mean];
      }
    }
  }
}
