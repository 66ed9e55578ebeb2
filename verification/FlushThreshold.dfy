/** The adaptive flush threshold and its configuration
    (internal/process/pipeline/dynamicbatch.go, config.go).

    The ratio and the interpolation are exact reals, not 64-bit floats.
 */
module FlushThreshold {

  /** math.Round: to the nearest integer, halves away from zero. */
  function Round(v: real): int {
    if v >= 0.0 then (v + 0.5).Floor else -((-v + 0.5).Floor)
  }

  function ClampInt(x: int, lo: int, hi: int): (r: int)
    requires lo <= hi
    ensures lo <= r <= hi
    ensures lo <= x <= hi ==> r == x
  {
    if x < lo then lo else if x > hi then hi else x
  }

  datatype Sizes = Sizes(min: int, initial: int, max: int)

  /** The bounds after sanitizing: positive and in order, each as given or raised to the one below it. */
  function Sanitize(s: Sizes): (r: Sizes)
    ensures 1 <= r.min <= r.initial <= r.max
    ensures 1 <= s.min <= s.initial <= s.max ==> r == s
    ensures s.min >= 1 ==> r.min == s.min
    ensures r.initial == if s.initial >= r.min then s.initial else r.min
    ensures r.max == if s.max >= r.initial then s.max else r.initial
  {
    var min := if s.min <= 0 then 1 else s.min;
    var initial := if s.initial <= 0 then min else s.initial;
    var max := if s.max <= 0 then initial else s.max;
    var initial' := if min > initial then min else initial;
    var max' := if initial' > max then initial' else max;
    var min' := if max' < min then max' else min;
    Sizes(min', initial', max')
  }

  /** Linear interpolation from `a` at t = 0 to `b` at t = 1. */
  function Interpolate(a: int, b: int, t: real): real {
    a as real + (b - a) as real * t
  }

  function ComputeFlushThreshold(sizes: Sizes, backlog: int, chCap: int): int {
    var s := Sanitize(sizes);
    if chCap <= 0 || backlog <= 0 then s.max
    else
      var r := backlog as real / chCap as real;
      if r <= 0.0 then s.max
      else if r >= 1.0 then s.min
      else if r <= 0.5 then ClampInt(Round(Interpolate(s.max, s.initial, r / 0.5)), s.min, s.max)
      else ClampInt(Round(Interpolate(s.initial, s.min, (r - 0.5) / 0.5)), s.min, s.max)
  }

  // --- Properties ----------------------------------------------------------------

  lemma RoundMonotone(v: real, w: real)
    requires v <= w
    ensures Round(v) <= Round(w)
  {
  }

  lemma RoundBetween(v: real, lo: int, hi: int)
    requires lo as real <= v <= hi as real
    ensures lo <= Round(v) <= hi
  {
    RoundMonotone(lo as real, v);
    RoundMonotone(v, hi as real);
    RoundInt(lo);
    RoundInt(hi);
  }

  lemma RoundInt(n: int)
    ensures Round(n as real) == n
  {
    if n < 0 {
      assert (-(n as real) + 0.5).Floor == -n;
    }
  }

  lemma ScaleDown(d: real, t: real, u: real)
    requires d <= 0.0 && t <= u
    ensures d * u <= d * t
  {
    assert d * (u - t) <= 0.0;
  }

  lemma InterpolateFalls(a: int, b: int, t: real, u: real)
    requires b <= a && 0.0 <= t <= u <= 1.0
    ensures b as real <= Interpolate(a, b, u) <= Interpolate(a, b, t) <= a as real
  {
    var d := (b - a) as real;
    ScaleDown(d, t, u);
    ScaleDown(d, 0.0, t);
    ScaleDown(d, u, 1.0);
  }

  lemma RatioGrows(b1: int, b2: int, chCap: int)
    requires 0 < chCap && b1 <= b2
    ensures b1 as real / chCap as real <= b2 as real / chCap as real
  {
    var c := chCap as real;
    assert b1 as real == (b1 as real / c) * c;
    assert b2 as real == (b2 as real / c) * c;
    if b1 as real / c > b2 as real / c {
      ScaleDown(-c, b2 as real / c, b1 as real / c);
      assert ((b1 as real / c) - (b2 as real / c)) * c > 0.0;
    }
  }

  // Where the interpolated value lies on each of the two pieces.
  lemma Pieces(sizes: Sizes, backlog: int, chCap: int)
    requires chCap > 0 && 0 < backlog < chCap
    ensures var s, r, f := Sanitize(sizes), backlog as real / chCap as real,
                           ComputeFlushThreshold(sizes, backlog, chCap);
            && 0.0 < r < 1.0
            && (r <= 0.5 ==> f == Round(Interpolate(s.max, s.initial, r / 0.5)) && s.initial <= f <= s.max)
            && (r > 0.5 ==> f == Round(Interpolate(s.initial, s.min, (r - 0.5) / 0.5)) && s.min <= f <= s.initial)
  {
    var s, r := Sanitize(sizes), backlog as real / chCap as real;
    RatioGrows(1, backlog, chCap);
    RatioStrict(backlog, chCap);
    if r <= 0.5 {
      var t := r / 0.5;
      InterpolateFalls(s.max, s.initial, t, t);
      RoundBetween(Interpolate(s.max, s.initial, t), s.initial, s.max);
    } else {
      var t := (r - 0.5) / 0.5;
      InterpolateFalls(s.initial, s.min, t, t);
      RoundBetween(Interpolate(s.initial, s.min, t), s.min, s.initial);
    }
  }

  lemma RatioStrict(backlog: int, chCap: int)
    requires 0 < backlog < chCap
    ensures 0.0 < backlog as real / chCap as real < 1.0
  {
    var c := chCap as real;
    var r := backlog as real / c;
    assert r * c == backlog as real;
    if r >= 1.0 {
      ScaleDown(-c, 1.0, r);
    }
    if r <= 0.0 {
      ScaleDown(-c, r, 0.0);
    }
  }

  /** The three sizes are hit exactly at ratios 0, 1/2 and 1. */
  lemma HitsTheSizes(sizes: Sizes, chCap: int)
    requires chCap > 0
    ensures var s := Sanitize(sizes);
            && ComputeFlushThreshold(sizes, 0, chCap) == s.max
            && (chCap % 2 == 0 ==> ComputeFlushThreshold(sizes, chCap / 2, chCap) == s.initial)
            && ComputeFlushThreshold(sizes, chCap, chCap) == s.min
  {
    var s := Sanitize(sizes);
    var c := chCap as real;
    assert c / c == 1.0;
    if chCap % 2 == 0 {
      var h := chCap / 2;
      assert c == 2.0 * h as real;
      Halves(h as real);
      assert h as real / c == 0.5;
      Pieces(sizes, h, chCap);
      assert Interpolate(s.max, s.initial, 1.0) == s.initial as real;
      RoundInt(s.initial);
    }
  }

  lemma Halves(h: real)
    requires h > 0.0
    ensures h / (2.0 * h) == 0.5
  {
    assert 0.5 * (2.0 * h) == h;
  }

  /** The threshold stays within the sanitized bounds, on every input. */
  lemma WithinBounds(sizes: Sizes, backlog: int, chCap: int)
    ensures var s := Sanitize(sizes); s.min <= ComputeFlushThreshold(sizes, backlog, chCap) <= s.max
  {
    if chCap > 0 && 0 < backlog < chCap {
      Pieces(sizes, backlog, chCap);
    }
  }

  lemma RoundNear(v: real)
    requires v >= 0.0
    ensures Round(v) as real - 0.5 <= v < Round(v) as real + 0.5
  {
  }

  /** The whole number nearest to a positive value, the upper one of two. */
  predicate IsNearest(n: int, v: real) {
    n as real - 0.5 <= v < n as real + 0.5
  }

  /** The point a share t of the way down from one size to a smaller one. */
  function PointAt(a: int, b: int, t: real): real {
    a as real - t * (a - b) as real
  }

  /** Inside, the threshold is the whole number nearest to the straight line between two sizes: from the largest to
      the initial one over the first half of the backlog, from there to the smallest over the second. */
  lemma NearestToTheLine(sizes: Sizes, backlog: int, chCap: int)
    requires 0 < backlog < chCap
    ensures var s, r := Sanitize(sizes), backlog as real / chCap as real;
            IsNearest(ComputeFlushThreshold(sizes, backlog, chCap),
                      if r <= 0.5 then PointAt(s.max, s.initial, 2.0 * r) else PointAt(s.initial, s.min, 2.0 * r - 1.0))
  {
    hide ComputeFlushThreshold, Round, Sanitize, Interpolate, IsNearest, PointAt;
    Pieces(sizes, backlog, chCap);
    var s, r := Sanitize(sizes), backlog as real / chCap as real;
    if r <= 0.5 {
      assert r / 0.5 == 2.0 * r;
      NearLine(s.max, s.initial, 2.0 * r);
    } else {
      assert (r - 0.5) / 0.5 == 2.0 * r - 1.0;
      NearLine(s.initial, s.min, 2.0 * r - 1.0);
    }
  }

  lemma NearLine(a: int, b: int, t: real)
    requires 1 <= b <= a && 0.0 <= t <= 1.0
    ensures IsNearest(Round(Interpolate(a, b, t)), PointAt(a, b, t))
  {
    hide Round, Interpolate, PointAt;
    LineIs(a, b, t);
    InterpolateFalls(a, b, t, t);
    RoundNear(Interpolate(a, b, t));
  }

  lemma LineIs(a: int, b: int, t: real)
    ensures Interpolate(a, b, t) == PointAt(a, b, t)
  {
    assert (b - a) as real == -((a - b) as real);
  }

  lemma NonIncreasingInside(sizes: Sizes, b1: int, b2: int, chCap: int)
    requires 0 < b1 <= b2 < chCap
    ensures ComputeFlushThreshold(sizes, b2, chCap) <= ComputeFlushThreshold(sizes, b1, chCap)
  {
    hide ComputeFlushThreshold, Round, Interpolate;
    var s := Sanitize(sizes);
    var r1, r2 := b1 as real / chCap as real, b2 as real / chCap as real;
    Pieces(sizes, b1, chCap);
    Pieces(sizes, b2, chCap);
    RatioGrows(b1, b2, chCap);
    if r2 <= 0.5 {
      var t1, t2 := r1 / 0.5, r2 / 0.5;
      InterpolateFalls(s.max, s.initial, t1, t2);
      RoundMonotone(Interpolate(s.max, s.initial, t2), Interpolate(s.max, s.initial, t1));
    } else if r1 > 0.5 {
      var t1, t2 := (r1 - 0.5) / 0.5, (r2 - 0.5) / 0.5;
      InterpolateFalls(s.initial, s.min, t1, t2);
      RoundMonotone(Interpolate(s.initial, s.min, t2), Interpolate(s.initial, s.min, t1));
    }
  }

  /** More backlog never raises the threshold: across both pieces, rounding included. */
  lemma NonIncreasing(sizes: Sizes, b1: int, b2: int, chCap: int)
    requires b1 <= b2
    ensures ComputeFlushThreshold(sizes, b2, chCap) <= ComputeFlushThreshold(sizes, b1, chCap)
  {
    hide ComputeFlushThreshold;
    WithinBounds(sizes, b1, chCap);
    WithinBounds(sizes, b2, chCap);
    if chCap <= 0 || b1 <= 0 {
      NoBacklog(sizes, b1, chCap);
    } else if b2 < chCap {
      NonIncreasingInside(sizes, b1, b2, chCap);
    } else {
      FullChannel(sizes, b2, chCap);
    }
  }

  lemma NoBacklog(sizes: Sizes, backlog: int, chCap: int)
    requires chCap <= 0 || backlog <= 0
    ensures ComputeFlushThreshold(sizes, backlog, chCap) == Sanitize(sizes).max
  {
  }

  lemma FullChannel(sizes: Sizes, backlog: int, chCap: int)
    requires 0 < chCap <= backlog
    ensures ComputeFlushThreshold(sizes, backlog, chCap) == Sanitize(sizes).min
  {
    hide Round, Interpolate, Sanitize;
    RatioGrows(chCap, backlog, chCap);
    assert chCap as real / chCap as real == 1.0;
  }

  // --- Configuration -----------------------------------------------------------------

  /** The pipeline's batching options; a size of 0 means "derive it". */
  class Config {
    var batchSize: int
    var batchSizeMin: int
    var batchSizeMax: int
    var batchWorkers: int
    var flushInterval: int
    var channelBuffer: int
    var deadLetterCap: int

    constructor (batchSize: int, batchSizeMin: int, batchSizeMax: int, batchWorkers: int,
                 flushInterval: int, channelBuffer: int, deadLetterCap: int)
      ensures this.batchSize == batchSize && this.batchSizeMin == batchSizeMin && this.batchSizeMax == batchSizeMax
      ensures this.batchWorkers == batchWorkers && this.flushInterval == flushInterval
      ensures this.channelBuffer == channelBuffer && this.deadLetterCap == deadLetterCap
    {
      this.batchSize, this.batchSizeMin, this.batchSizeMax := batchSize, batchSizeMin, batchSizeMax;
      this.batchWorkers, this.flushInterval := batchWorkers, flushInterval;
      this.channelBuffer, this.deadLetterCap := channelBuffer, deadLetterCap;
    }

    /** What defaulting establishes. */
    ghost predicate Usable()
      reads this
    {
      && batchSize > 0 && batchWorkers > 0 && flushInterval > 0 && deadLetterCap > 0
      && batchSizeMin <= batchSize
      && (batchSizeMax > 0 ==> batchSize <= batchSizeMax)
    }

    /** Fills unset options and clamps explicit bounds; a usable configuration stays as it is. */
    method ApplyDefaults()
      modifies this
      ensures Usable()
      ensures batchSize == if old(batchSize) > 0 then old(batchSize) else 1000
      ensures batchSizeMin == if old(batchSizeMin) <= batchSize then old(batchSizeMin) else batchSize
      ensures batchSizeMax == if 0 < old(batchSizeMax) < batchSize then batchSize else old(batchSizeMax)
      ensures batchWorkers == if old(batchWorkers) > 0 then old(batchWorkers) else 2
      ensures flushInterval == if old(flushInterval) > 0 then old(flushInterval) else SECOND
      ensures deadLetterCap == if old(deadLetterCap) > 0 then old(deadLetterCap) else 128
      ensures channelBuffer == old(channelBuffer)
      ensures old(Usable()) ==> unchanged(this)
    {
      if batchSize <= 0 {
        batchSize := 1000;
      }
      if batchSizeMin > 0 && batchSizeMin > batchSize {
        batchSizeMin := batchSize;
      }
      if batchSizeMax > 0 && batchSizeMax < batchSize {
        batchSizeMax := batchSize;
      }
      if batchWorkers <= 0 {
        batchWorkers := 2;
      }
      if flushInterval <= 0 {
        flushInterval := SECOND;
      }
      if deadLetterCap <= 0 {
        deadLetterCap := 128;
      }
    }

    function MinBatchSize(): int
      reads this
    {
      if batchSizeMin > 0 then (if batchSizeMin > batchSize then batchSize else batchSizeMin)
      else if Quarter(batchSize) < 1 then 1 else Quarter(batchSize)
    }

    function MaxBatchSize(): int
      reads this
    {
      if batchSizeMax > 0 then (if batchSizeMax < batchSize then batchSize else batchSizeMax)
      else batchSize * 2
    }

    function ChannelSize(): int
      reads this
    {
      if channelBuffer > 0 then channelBuffer else batchSize * 2
    }

    /** Sizes that are not set: a quarter, at least 1, and twice the batch size. */
    lemma DerivedSizes()
      requires Usable()
      ensures batchSizeMin <= 0 ==> (if batchSize < 4 then MinBatchSize() == 1
                                     else 4 * MinBatchSize() <= batchSize < 4 * MinBatchSize() + 4)
      ensures batchSizeMin > 0 ==> MinBatchSize() == batchSizeMin
      ensures MaxBatchSize() == if batchSizeMax > 0 then batchSizeMax else 2 * batchSize
      ensures ChannelSize() == if channelBuffer > 0 then channelBuffer else 2 * batchSize
    {
    }

    /** With a usable configuration the adaptive threshold is a size in [MinBatchSize, MaxBatchSize]. */
    lemma ThresholdInRange(backlog: int)
      requires Usable()
      ensures ChannelSize() >= 1
      ensures 1 <= MinBatchSize() <= batchSize <= MaxBatchSize()
      ensures var f := ComputeFlushThreshold(Sizes(MinBatchSize(), batchSize, MaxBatchSize()), backlog, ChannelSize());
              MinBatchSize() <= f <= MaxBatchSize()
    {
      WithinBounds(Sizes(MinBatchSize(), batchSize, MaxBatchSize()), backlog, ChannelSize());
    }
  }

  // One second, in nanoseconds.
  const SECOND := 1_000_000_000

  // Division truncates toward zero.
  function Quarter(n: int): int {
    if n >= 0 then n / 4 else -((-n) / 4)
  }
}
