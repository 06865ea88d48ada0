/**
 The magnitude classifier: every earthquake magnitude is sorted into one of six
 colour buckets by a first-match test against the thresholds 5, 4, 3, 2 and 1,
 tried in descending order, with a default bucket for everything below 1.

 Buckets are numbered from the default one upwards: bucket 0 holds magnitudes
 below 1 (negative ones included), bucket k for 1 <= k <= 4 holds [k, k + 1),
 and bucket 5 holds 5 and above.
 */
module Magnitude {

  /** The colour token of each bucket, indexed by bucket number. */
  const Palette: seq<string> := ["#7dcea0", "#f7dc6f", "#f5b041", "#f39c12", "#e67e22", "#d35400"]

  /** The thresholds the classifier compares against, in ascending order. */
  const Thresholds: seq<real> := [1.0, 2.0, 3.0, 4.0, 5.0]

  /** The classifier as the source writes it: the first threshold reached wins;
      every result is a seven-character `#rrggbb` token. */
  function MagnitudeColor(magnitude: real): (color: string)
    ensures |color| == 7 && color[0] == '#'
  {
    if magnitude >= 5.0 then "#d35400"
    else if magnitude >= 4.0 then "#e67e22"
    else if magnitude >= 3.0 then "#f39c12"
    else if magnitude >= 2.0 then "#f5b041"
    else if magnitude >= 1.0 then "#f7dc6f"
    else "#7dcea0"
  }

  /** How many of the thresholds `ts` the magnitude `m` reaches. */
  function Reached(ts: seq<real>, m: real): (n: nat)
    ensures n <= |ts|
  {
    if ts == [] then 0 else (if ts[0] <= m then 1 else 0) + Reached(ts[1..], m)
  }

  /** An independent definition of the bucket: the number of thresholds reached. */
  function BucketOf(m: real): (k: nat)
    ensures k < |Palette|
  {
    Reached(Thresholds, m)
  }

  /** The magnitude range that bucket `k` stands for. */
  predicate InBucket(k: nat, m: real)
  {
    k < |Palette| && (k == 0 || k as real <= m) && (k == |Palette| - 1 || m < (k + 1) as real)
  }

  /** `BucketOf` counts exactly the thresholds reached, spelled out per threshold. */
  lemma BucketOfUnfolded(m: real)
    ensures BucketOf(m) == (if 1.0 <= m then 1 else 0) + (if 2.0 <= m then 1 else 0)
      + (if 3.0 <= m then 1 else 0) + (if 4.0 <= m then 1 else 0) + (if 5.0 <= m then 1 else 0)
  {
    var t1 := Thresholds[1..];
    var t2 := t1[1..];
    var t3 := t2[1..];
    var t4 := t3[1..];
    assert t1 == [2.0, 3.0, 4.0, 5.0] && t2 == [3.0, 4.0, 5.0] && t3 == [4.0, 5.0] && t4 == [5.0];
    assert Reached(t4, m) == (if 5.0 <= m then 1 else 0) + Reached(t4[1..], m);
    assert Reached(t3, m) == (if 4.0 <= m then 1 else 0) + Reached(t4, m);
    assert Reached(t2, m) == (if 3.0 <= m then 1 else 0) + Reached(t3, m);
    assert Reached(t1, m) == (if 2.0 <= m then 1 else 0) + Reached(t2, m);
  }

  /** Bucket `k` is the bucket of `m` exactly when `m` lies in the range of `k`:
      the six buckets partition the reals. */
  lemma BucketExactly(k: nat, m: real)
    ensures InBucket(k, m) <==> k == BucketOf(m)
  {
    BucketOfUnfolded(m);
  }

  /** The classifier picks the colour of the bucket the magnitude lies in. */
  lemma ColorMatchesBucket(m: real)
    ensures MagnitudeColor(m) == Palette[BucketOf(m)]
  {
    BucketOfUnfolded(m);
  }

  /** Every magnitude, negative ones included, gets one of the six tokens. */
  lemma ColorInPalette(m: real)
    ensures MagnitudeColor(m) in Palette
  {
    ColorMatchesBucket(m);
  }

  /** The six colour tokens are pairwise distinct. */
  lemma PaletteDistinct(i: nat, j: nat)
    requires i < |Palette| && j < |Palette|
    ensures Palette[i] == Palette[j] <==> i == j
  {
  }

  /** The first-match, descending rule: token `k` is returned exactly for the
      magnitudes of bucket `k` (m >= 5, 4 <= m < 5, ..., m < 1). */
  lemma ColorExactly(k: nat, m: real)
    requires k < |Palette|
    ensures MagnitudeColor(m) == Palette[k] <==> InBucket(k, m)
  {
    ColorMatchesBucket(m);
    PaletteDistinct(k, BucketOf(m));
    BucketExactly(k, m);
  }

  /** Two magnitudes get the same colour exactly when they share a bucket. */
  lemma SameColorSameBucket(a: real, b: real)
    ensures MagnitudeColor(a) == MagnitudeColor(b) <==> BucketOf(a) == BucketOf(b)
  {
    ColorMatchesBucket(a);
    ColorMatchesBucket(b);
    PaletteDistinct(BucketOf(a), BucketOf(b));
  }

  /** Reaching more of the magnitude scale never reaches fewer thresholds. */
  lemma {:induction false} ReachedMonotone(ts: seq<real>, a: real, b: real)
    requires a <= b
    ensures Reached(ts, a) <= Reached(ts, b)
  {
    if ts != [] {
      ReachedMonotone(ts[1..], a, b);
    }
  }

  /** A larger magnitude never lands in a lower bucket. */
  lemma BucketMonotone(a: real, b: real)
    requires a <= b
    ensures BucketOf(a) <= BucketOf(b)
  {
    ReachedMonotone(Thresholds, a, b);
  }

  /** The sample classifications: 5 is in the top bucket, 4.9 in the one below,
      and -1 falls to the default bucket. */
  lemma ClassifierSamples()
    ensures MagnitudeColor(5.0) == Palette[5]
    ensures MagnitudeColor(4.9) == Palette[4]
    ensures MagnitudeColor(-1.0) == Palette[0]
  {
  }
}
