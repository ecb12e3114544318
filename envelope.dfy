/**
 * The min/max envelope of a window of samples (the bucketing part of
 * `AudioProcessor.get_waveform_segment`). Samples are modelled as integers:
 * the bucketing only compares them. Decoding the window and normalising it
 * to [-1, 1] happen before this step and are not modelled.
 */
module Envelope {
  import opened Arith

  datatype Envelope = Envelope(mins: seq<int>, maxs: seq<int>)

  function MinOf(s: seq<int>): (m: int)
    requires |s| > 0
    ensures m in s
    ensures forall i :: 0 <= i < |s| ==> m <= s[i]
  {
    if |s| == 1 then s[0]
    else
      var r := MinOf(s[1..]);
      if s[0] <= r then s[0] else r
  }

  function MaxOf(s: seq<int>): (m: int)
    requires |s| > 0
    ensures m in s
    ensures forall i :: 0 <= i < |s| ==> s[i] <= m
  {
    if |s| == 1 then s[0]
    else
      var r := MaxOf(s[1..]);
      if s[0] >= r then s[0] else r
  }

  /** Python's `a // b`, which rounds towards minus infinity for either sign
      of `b`. */
  function FloorDiv(a: int, b: int): (q: int)
    requires b != 0
    ensures b > 0 ==> q == a / b
    ensures b < 0 ==> q * b >= a > (q + 1) * b
    ensures b < 0 && a > 0 ==> q < 0
  {
    if b > 0 then a / b
    else
      var q := (-a) / (-b);
      DivBounds(-a, -b, q);
      DivBounds(-a, -b, q + 1);
      q
  }

  /** `bucket_size`: `len // resolution`, raised to at least 1. */
  function BucketSize(len: int, resolution: int): (b: int)
    requires resolution != 0
    ensures b >= 1
    ensures resolution > 0 && len >= resolution ==> b == len / resolution
    ensures resolution < 0 && len > 0 ==> b == 1
  {
    var q := FloorDiv(len, resolution);
    if q < 1 then 1 else q
  }

  /** The `i`-th block of `b` samples. */
  function Bucket(s: seq<int>, b: int, i: int): (r: seq<int>)
    requires b >= 1 && 0 <= i < |s| / b
    ensures |r| == b && 0 <= i * b && i * b + b <= |s|
    ensures forall j :: 0 <= j < b ==> r[j] == s[i * b + j]
  {
    BlockInside(|s|, b, i);
    assert (i + 1) * b == i * b + b;
    s[i * b..(i + 1) * b]
  }

  /** The envelope of a window: nothing for an empty window, the samples
      themselves when there are no more than `resolution` of them, and
      otherwise the minimum and maximum of each full block of `bucket_size`
      samples, the incomplete tail dropped. A zero resolution makes the
      source's division fail; its handler returns two empty arrays. */
  function Extract(arr: seq<int>, resolution: int): Envelope
  {
    if |arr| == 0 then Envelope([], [])
    else if |arr| <= resolution then Envelope(arr, arr)
    else if resolution == 0 then Envelope([], [])
    else
      var b := BucketSize(|arr|, resolution);
      var n := |arr| / b;
      Envelope(seq(n, i requires 0 <= i < n => MinOf(Bucket(arr, b, i))),
               seq(n, i requires 0 <= i < n => MaxOf(Bucket(arr, b, i))))
  }

  // ---------------------------------------------------------------------
  // Arithmetic helpers

  lemma BlockInside(len: int, b: int, i: int)
    requires b >= 1 && 0 <= i < len / b
    ensures 0 <= i * b && (i + 1) * b <= len
  {
    MulLeMul(0, i, b);
    DivBounds(len, b, i + 1);
  }

  /** Position `j` of the kept prefix lies in block `j / b`, at offset `j % b`. */
  lemma BlockOf(len: int, b: int, j: int)
    requires b >= 1 && 0 <= j < (len / b) * b
    ensures 0 <= j / b < len / b
    ensures (j / b) * b + j % b == j && 0 <= j % b < b
  {
    DivBounds(j, b, len / b);
    DivBounds(len, b, len / b);
  }

  /** With `b = len // resolution` there are at least `resolution` and fewer
      than `2 * resolution` blocks. */
  lemma BucketCountBounds(len: int, resolution: int)
    requires len > resolution > 0
    ensures var b := len / resolution;
      b >= 1 && resolution <= len / b < 2 * resolution
  {
    var b := len / resolution;
    DivBounds(len, resolution, b);
    assert b * resolution <= len;
    assert resolution * b <= len;
    DivBounds(len, b, resolution);
    var n := len / b;
    DivBounds(len, b, n);
    DivBounds(len, resolution, b + 1);
    assert len < (b + 1) * resolution;
    if n >= 2 * resolution {
      MulLeMul(2 * resolution, n, b);
      assert (b + 1) * resolution <= 2 * resolution * b by {
        MulLeMul(1, b, resolution);
      }
      assert false;
    }
  }

  // ---------------------------------------------------------------------
  // Properties

  lemma ExtractEmpty(resolution: int)
    ensures Extract([], resolution) == Envelope([], [])
  {
  }

  /** A window with no more samples than the resolution is its own envelope. */
  lemma ExtractSmallWindow(arr: seq<int>, resolution: int)
    requires 0 < |arr| <= resolution
    ensures Extract(arr, resolution) == Envelope(arr, arr)
  {
  }

  /** A zero resolution makes `len // resolution` raise; the handler
      returns an empty envelope. */
  lemma ExtractZeroResolution(arr: seq<int>)
    ensures Extract(arr, 0) == Envelope([], [])
  {
  }

  /** A negative resolution gives blocks of one sample, so again the window
      is its own envelope. */
  lemma ExtractNegativeResolution(arr: seq<int>, resolution: int)
    requires resolution < 0
    ensures Extract(arr, resolution) == Envelope(arr, arr)
  {
    if |arr| > 0 {
      var e := Extract(arr, resolution);
      assert BucketSize(|arr|, resolution) == 1;
      assert |e.mins| == |arr| && |e.maxs| == |arr|;
      forall i | 0 <= i < |arr| ensures e.mins[i] == arr[i] && e.maxs[i] == arr[i] {
        assert Bucket(arr, 1, i) == [arr[i]];
      }
    }
  }

  /** Above the resolution: `b = len // resolution` samples per block and
      `len // b` blocks (between `resolution` and `2 * resolution - 1` of
      them); the dropped tail is shorter than one block. */
  /** Both outputs have the same length, and neither is longer than the
      window. */
  lemma ExtractSize(arr: seq<int>, resolution: int)
    ensures |Extract(arr, resolution).mins| == |Extract(arr, resolution).maxs| <= |arr|
  {
    if |arr| > 0 && |arr| > resolution && resolution != 0 {
      var b := BucketSize(|arr|, resolution);
      var n := |arr| / b;
      DivBounds(|arr|, b, n);
      MulLeMul(1, b, n);
    }
  }

  lemma ExtractShape(arr: seq<int>, resolution: int)
    requires |arr| > resolution > 0
    ensures var e, b := Extract(arr, resolution), |arr| / resolution;
      var n := |arr| / b;
      && b >= 1
      && |e.mins| == n && |e.maxs| == n
      && resolution <= n < 2 * resolution
      && 0 <= |arr| - n * b < b
  {
    var b := |arr| / resolution;
    BucketCountBounds(|arr|, resolution);
    var n := |arr| / b;
    assert |arr| == n * b + |arr| % b;
  }

  /** Each entry of the envelope is the minimum and the maximum of its
      block. */
  lemma ExtractEntry(arr: seq<int>, resolution: int, i: int)
    requires |arr| > resolution > 0
    requires 0 <= i < |Extract(arr, resolution).mins|
    ensures var e, b := Extract(arr, resolution), |arr| / resolution;
      && b >= 1 && 0 <= i * b && (i + 1) * b <= |arr|
      && i < |e.maxs|
      && e.mins[i] == MinOf(arr[i * b..(i + 1) * b])
      && e.maxs[i] == MaxOf(arr[i * b..(i + 1) * b])
  {
    var b := |arr| / resolution;
    BlockInside(|arr|, b, i);
  }

  /** Minimum below maximum, both taken from the block, and every sample
      of the block between them. */
  lemma ExtractBuckets(arr: seq<int>, resolution: int, i: int)
    requires |arr| > resolution > 0
    requires 0 <= i < |Extract(arr, resolution).mins|
    ensures var e, b := Extract(arr, resolution), |arr| / resolution;
      && 0 <= i * b && (i + 1) * b <= |arr| && i < |e.maxs|
      && e.mins[i] <= e.maxs[i]
      && e.mins[i] in arr[i * b..(i + 1) * b]
      && e.maxs[i] in arr[i * b..(i + 1) * b]
      && forall j :: i * b <= j < (i + 1) * b ==> e.mins[i] <= arr[j] <= e.maxs[i]
  {
    ExtractEntry(arr, resolution, i);
    var b := |arr| / resolution;
    SliceEnvelope(arr, i * b, (i + 1) * b);
  }

  lemma SliceEnvelope(arr: seq<int>, lo: int, hi: int)
    requires 0 <= lo < hi <= |arr|
    ensures MinOf(arr[lo..hi]) <= MaxOf(arr[lo..hi])
    ensures forall j :: lo <= j < hi ==> MinOf(arr[lo..hi]) <= arr[j] <= MaxOf(arr[lo..hi])
  {
    var blk := arr[lo..hi];
    assert MinOf(blk) <= blk[0] <= MaxOf(blk);
    forall j | lo <= j < hi ensures MinOf(blk) <= arr[j] <= MaxOf(blk) {
      assert blk[j - lo] == arr[j];
    }
  }

  /** Every sample that is kept lies within the envelope entry of its block. */
  lemma ExtractCoversSamples(arr: seq<int>, resolution: int, j: int)
    requires |arr| > resolution > 0
    requires var b := |arr| / resolution; b >= 1 && 0 <= j < (|arr| / b) * b
    ensures var e, b := Extract(arr, resolution), |arr| / resolution;
      && 0 <= j / b < |e.mins| && j / b < |e.maxs|
      && e.mins[j / b] <= arr[j] <= e.maxs[j / b]
  {
    var b := |arr| / resolution;
    BlockOf(|arr|, b, j);
    ExtractShape(arr, resolution);
    ExtractBuckets(arr, resolution, j / b);
  }

  /** The number of blocks follows `len // b`, not the resolution: 250
      samples at resolution 100 give 125 blocks of two. */
  lemma ExtractMoreBucketsThanResolution(arr: seq<int>)
    requires |arr| == 250
    ensures |Extract(arr, 100).mins| == 125
  {
  }
}
