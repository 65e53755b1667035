/** The log-linear histogram behind every percentile the telemetry reports: eight sub-buckets per power of two. */
module Histogram {
  import opened Powers

  const SUB_BITS: nat := 3
  const SUB: nat := 8
  const MAX_MSB: nat := 40
  const BUCKETS: nat := (MAX_MSB - SUB_BITS + 1) * SUB + SUB
  const LAST_BUCKET: nat := BUCKETS - 1
  const LIMIT: nat := 0x200_0000_0000  // 2^41, the first value beyond the last octave
  const COUNT_WRAP: nat := 0x1_0000_0000
  const TOTAL_WRAP: nat := 0x1_0000_0000_0000_0000

  /** v >> n */
  function ShiftRight(v: nat, n: nat): nat
    decreases n
  {
    if n == 0 then v else ShiftRight(v / 2, n - 1)
  }

  /** The position of the highest set bit. */
  function Msb(v: nat): nat
    requires v > 0
  {
    if v < 2 then 0 else 1 + Msb(v / 2)
  }

  function Index(v: nat): nat {
    if v < SUB then v
    else
      TopDigits(v);
      var msb := Msb(v);
      if msb > MAX_MSB then BUCKETS - 1
      else (msb - SUB_BITS + 1) * SUB + ShiftRight(v, msb - SUB_BITS) % SUB
  }

  function BucketMid(idx: nat): nat {
    if idx < SUB then idx
    else
      var shift := idx / SUB - 1;
      var lower := (SUB + idx % SUB) * Pow2(shift);
      lower + Pow2(shift) / 2
  }

  // ---------------------------------------------------------------- the bucket of a value

  /** Above 8 the four highest bits are a one followed by the sub-bucket. */
  lemma {:induction false} TopDigits(v: nat)
    requires v >= SUB
    ensures Msb(v) >= SUB_BITS && SUB <= ShiftRight(v, Msb(v) - SUB_BITS) < 2 * SUB
  {
    if v < 2 * SUB {
      assert Msb(v / 8) == 0 && v / 2 / 2 / 2 == v / 8;
      assert Msb(v) == 3;
    } else {
      TopDigits(v / 2);
    }
  }

  lemma {:induction false} MsbBelow(v: nat, m: nat)
    requires v > 0
    ensures Msb(v) <= m <==> v < 2 * Pow2(m)
    decreases m
  {
    if m > 0 && v >= 2 { MsbBelow(v / 2, m - 1); }
  }

  lemma {:induction false} MsbMonotone(v: nat, w: nat)
    requires 0 < v <= w
    ensures Msb(v) <= Msb(w)
  {
    if v >= 2 { MsbMonotone(v / 2, w / 2); }
  }

  lemma {:induction false} ShiftMonotone(v: nat, w: nat, n: nat)
    requires v <= w
    ensures ShiftRight(v, n) <= ShiftRight(w, n)
    decreases n
  {
    if n > 0 { ShiftMonotone(v / 2, w / 2, n - 1); }
  }

  lemma {:induction false} ShiftBounds(v: nat, n: nat)
    ensures ShiftRight(v, n) * Pow2(n) <= v < ShiftRight(v, n) * Pow2(n) + Pow2(n)
    decreases n
  {
    if n > 0 {
      ShiftBounds(v / 2, n - 1);
      DoubledBounds(v, ShiftRight(v, n), Pow2(n - 1));
    }
  }

  lemma DoubledBounds(v: nat, q: nat, p: nat)
    requires q * p <= v / 2 < q * p + p
    ensures q * (2 * p) <= v < q * (2 * p) + 2 * p
  {
    assert q * (2 * p) == 2 * (q * p);
  }

  lemma Pow2Values()
    ensures 2 * Pow2(MAX_MSB) == LIMIT && Pow2(37) == 0x20_0000_0000
  {
    Pow2Ten();
    assert Pow2(7) == 128;
    Pow2Add(10, 10);
    Pow2Add(7, 10);
    Pow2Add(20, 20);
    Pow2Add(20, 17);
  }

  lemma InLastOctave(v: nat)
    requires v > 0
    ensures Msb(v) <= MAX_MSB <==> v < LIMIT
  {
    Pow2Values();
    MsbBelow(v, MAX_MSB);
  }

  lemma IndexInRange(v: nat)
    ensures Index(v) < BUCKETS
    ensures v >= SUB ==> Index(v) >= SUB
  {
    if v >= SUB { TopDigits(v); }
  }

  /** A larger value never goes into a lower bucket. */
  lemma IndexMonotone(v: nat, w: nat)
    requires v <= w
    ensures Index(v) <= Index(w)
  {
    IndexInRange(v);
    IndexInRange(w);
    if v >= SUB {
      TopDigits(v);
      TopDigits(w);
      MsbMonotone(v, w);
      if Msb(v) == Msb(w) { ShiftMonotone(v, w, Msb(v) - SUB_BITS); }
    }
  }

  lemma MidArithmetic(v: nat, q: nat, p: nat)
    requires q >= SUB && q * p <= v < q * p + p && (p == 1 || p % 2 == 0)
    ensures 15 * v <= 16 * (q * p + p / 2) <= 17 * v
  {
    var t := q * p;
    assert t >= SUB * p by { assert (q - SUB) * p >= 0; }
  }

  lemma MidOfIndex(idx: nat, s: nat, q: nat)
    requires SUB <= q < 2 * SUB && idx == (s + 1) * SUB + q % SUB
    ensures BucketMid(idx) == q * Pow2(s) + Pow2(s) / 2
  {
    assert idx / SUB == s + 1 && idx % SUB == q - SUB;
  }

  lemma Pow2Even(n: nat)
    ensures Pow2(n) == 1 || Pow2(n) % 2 == 0
  {
  }

  /** bucketMid undoes index up to one part in sixteen, for every value below 2^41. */
  lemma MidIsClose(v: nat)
    requires v < LIMIT
    ensures 15 * v <= 16 * BucketMid(Index(v)) <= 17 * v
  {
    if v >= SUB {
      TopDigits(v);
      InLastOctave(v);
      var s := Msb(v) - SUB_BITS;
      MidOfIndex(Index(v), s, ShiftRight(v, s));
      ShiftBounds(v, s);
      Pow2Even(s);
      MidArithmetic(v, ShiftRight(v, s), Pow2(s));
    }
  }

  /** At and above 2^41 everything shares the last bucket, whose middle is below 2^41: the accuracy ends there. */
  lemma LastBucketSaturates(v: nat)
    requires v >= LIMIT
    ensures Index(v) == BUCKETS - 1 && BucketMid(Index(v)) < LIMIT
  {
    TopDigits(v);
    InLastOctave(v);
    Pow2Values();
    assert (BUCKETS - 1) / SUB - 1 == 37;
  }

  // ---------------------------------------------------------------- counting samples

  function CountAt(samples: seq<nat>, i: nat): nat {
    if samples == [] then 0
    else CountAt(samples[..|samples| - 1], i) + (if Index(samples[|samples| - 1]) == i then 1 else 0)
  }

  /** Samples in buckets below n. */
  function CountBelow(samples: seq<nat>, n: nat): nat {
    if n == 0 then 0 else CountBelow(samples, n - 1) + CountAt(samples, n - 1)
  }

  /** Samples of at most / less than x. */
  function AtMost(samples: seq<nat>, x: nat): nat {
    if samples == [] then 0
    else AtMost(samples[..|samples| - 1], x) + (if samples[|samples| - 1] <= x then 1 else 0)
  }

  function LessThan(samples: seq<nat>, x: nat): nat {
    if x == 0 then 0 else AtMost(samples, x - 1)
  }

  /** x is the k-th smallest sample (k counted from 1). */
  predicate IsOrderStatistic(samples: seq<nat>, k: nat, x: nat) {
    x in samples && LessThan(samples, x) < k <= AtMost(samples, x)
  }

  lemma {:induction false} AtMostAll(samples: seq<nat>) returns (top: nat)
    ensures AtMost(samples, top) == |samples| && forall v :: v in samples ==> v <= top
  {
    if samples == [] {
      top := 0;
    } else {
      var n := |samples| - 1;
      top := AtMostAll(samples[..n]);
      if samples[n] > top {
        AtMostMonotone(samples[..n], top, samples[n]);
        top := samples[n];
      }
      assert forall v :: v in samples ==> v in samples[..n] || v == samples[n];
    }
  }

  lemma {:induction false} AtMostMonotone(samples: seq<nat>, x: nat, y: nat)
    requires x <= y
    ensures AtMost(samples, x) <= AtMost(samples, y) <= |samples|
  {
    if samples != [] { AtMostMonotone(samples[..|samples| - 1], x, y); }
  }

  lemma {:induction false} AtMostGrows(samples: seq<nat>, x: nat)
    requires LessThan(samples, x) < AtMost(samples, x)
    ensures x in samples
  {
    if samples != [] {
      var n := |samples| - 1;
      if samples[n] != x {
        AtMostGrows(samples[..n], x);
        assert x in samples[..n];
      }
    }
  }

  /** Every rank has its order statistic. */
  lemma OrderStatisticExists(samples: seq<nat>, k: nat) returns (x: nat)
    requires 1 <= k <= |samples|
    ensures IsOrderStatistic(samples, k, x)
  {
    var top := AtMostAll(samples);
    x := 0;
    while AtMost(samples, x) < k
      invariant x <= top && LessThan(samples, x) < k
      decreases top - x
    {
      if x == top { assert false; }
      x := x + 1;
    }
    AtMostGrows(samples, x);
  }

  lemma {:induction false} CountBelowSnoc(samples: seq<nat>, v: nat, n: nat)
    ensures CountBelow(samples + [v], n) == CountBelow(samples, n) + (if Index(v) < n then 1 else 0)
    decreases n
  {
    if n > 0 {
      CountBelowSnoc(samples, v, n - 1);
      assert (samples + [v])[..|samples|] == samples;
    }
  }

  lemma {:induction false} CountAllBuckets(samples: seq<nat>)
    ensures CountBelow(samples, BUCKETS) == |samples|
  {
    if samples == [] {
      CountNone(BUCKETS);
    } else {
      var n := |samples| - 1;
      CountAllBuckets(samples[..n]);
      assert samples == samples[..n] + [samples[n]];
      CountBelowSnoc(samples[..n], samples[n], BUCKETS);
      IndexInRange(samples[n]);
    }
  }

  lemma {:induction false} CountNone(n: nat)
    ensures CountBelow([], n) == 0
  {
    if n > 0 { CountNone(n - 1); }
  }

  /** Everything of at most x lies in the buckets up to that of x; everything in the buckets below it is less than x. */
  lemma {:induction false} BucketsAndRanks(samples: seq<nat>, x: nat)
    ensures CountBelow(samples, Index(x)) <= LessThan(samples, x)
    ensures AtMost(samples, x) <= CountBelow(samples, Index(x) + 1)
  {
    if samples == [] {
      CountNone(Index(x));
      CountNone(Index(x) + 1);
    } else {
      var n := |samples| - 1;
      var v := samples[n];
      BucketsAndRanks(samples[..n], x);
      assert samples == samples[..n] + [v];
      CountBelowSnoc(samples[..n], v, Index(x));
      CountBelowSnoc(samples[..n], v, Index(x) + 1);
      if v <= x { IndexMonotone(v, x); } else { IndexMonotone(x, v); }
    }
  }

  lemma {:induction false} CountBelowMonotone(samples: seq<nat>, m: nat, n: nat)
    requires m <= n
    ensures CountBelow(samples, m) <= CountBelow(samples, n)
    decreases n
  {
    if m < n { CountBelowMonotone(samples, m, n - 1); }
  }

  // ---------------------------------------------------------------- the class

  /** ceil(q * total) */
  function Rank(q: real, total: nat): int { -((-(q * total as real)).Floor) }

  lemma RankInRange(q: real, total: nat)
    requires 0.0 < q <= 1.0 && total > 0
    ensures 1 <= Rank(q, total) <= total
  {
    var x := q * total as real;
    assert x > 0.0;
    assert x <= total as real by { assert (1.0 - q) * total as real >= 0.0; }
  }

  class LogHistogram {
    const counts: array<nat>
    var total: nat
    ghost var samples: seq<nat>

    /** Fewer than 2^32 samples: no counter has wrapped. */
    ghost predicate Valid()
      reads this, counts
    {
      && counts.Length == BUCKETS
      && |samples| < COUNT_WRAP
      && total == |samples|
      && forall i: nat :: i < BUCKETS ==> counts[i] == CountAt(samples, i)
    }

    constructor ()
      ensures Valid() && samples == [] && fresh(counts)
    {
      counts := new nat[BUCKETS](_ => 0);
      total := 0;
      samples := [];
    }

    method Add(v: nat)
      requires Valid() && |samples| + 1 < COUNT_WRAP
      modifies this, counts
      ensures Valid() && samples == old(samples) + [v]
    {
      IndexInRange(v);
      CountAtMostAll(samples, Index(v));
      counts[Index(v)] := (counts[Index(v)] + 1) % COUNT_WRAP;
      total := (total + 1) % TOTAL_WRAP;
      assert (samples + [v])[..|samples|] == samples;
      samples := samples + [v];
    }

    method Reset()
      requires Valid()
      modifies this, counts
      ensures Valid() && samples == []
    {
      for i := 0 to BUCKETS
        invariant forall j :: 0 <= j < i ==> counts[j] == 0
      {
        counts[i] := 0;
      }
      total := 0;
      samples := [];
    }

    /** The result is within one part in sixteen of the exact ceil(q * N)-th smallest sample. */
    method Percentile(q: real) returns (r: nat)
      requires Valid() && 0.0 < q <= 1.0
      ensures samples == [] ==> r == 0
      ensures forall x: nat :: x < LIMIT && samples != [] && IsOrderStatistic(samples, Rank(q, |samples|), x) ==>
                            15 * x <= 16 * r <= 17 * x
    {
      if total == 0 { return 0; }
      RankInRange(q, total);
      var target := Rank(q, total);
      var acc := 0;
      var i := 0;
      CountAllBuckets(samples);
      while i < BUCKETS
        invariant 0 <= i <= BUCKETS && acc == CountBelow(samples, i) && acc < target
      {
        acc := acc + counts[i];
        if acc >= target && counts[i] != 0 {
          FirstBucketOver(samples, target, i);
          return BucketMid(i);
        }
        i := i + 1;
      }
      r := BucketMid(LAST_BUCKET);
    }
  }

  lemma {:induction false} CountAtMostAll(samples: seq<nat>, i: nat)
    ensures CountAt(samples, i) <= |samples|
  {
    if samples != [] { CountAtMostAll(samples[..|samples| - 1], i); }
  }

  /** The first bucket at which the running count reaches k is the bucket of the k-th smallest sample. */
  lemma FirstBucketOver(samples: seq<nat>, k: nat, i: nat)
    requires CountBelow(samples, i) < k <= CountBelow(samples, i + 1)
    ensures forall x: nat :: IsOrderStatistic(samples, k, x) ==> Index(x) == i
    ensures forall x: nat :: x < LIMIT && IsOrderStatistic(samples, k, x) ==> 15 * x <= 16 * BucketMid(i) <= 17 * x
  {
    forall x: nat | IsOrderStatistic(samples, k, x) ensures Index(x) == i {
      BucketsAndRanks(samples, x);
      if Index(x) < i { CountBelowMonotone(samples, Index(x) + 1, i); }
      if Index(x) > i { CountBelowMonotone(samples, i + 1, Index(x)); }
    }
    forall x: nat | x < LIMIT && IsOrderStatistic(samples, k, x) ensures 15 * x <= 16 * BucketMid(i) <= 17 * x {
      MidIsClose(x);
    }
  }
}
