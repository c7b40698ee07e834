/**
 * The per-pixel accumulator of the clear-sky-observation engine: for every
 * pixel and every window it walks the window's time-step range, collects
 * the revisit gaps, and writes the enabled statistics of those gaps into
 * the output products. Masked pixels and unused windows get nodata.
 */
module Accumulator {
  import opened Calendar
  import opened Gaps
  import opened Registry
  import Indexer

  /** The smallest and largest 16-bit output value; the smallest is also nodata. */
  const ShortMin := -32768
  const ShortMax := 32767
  const Nodata := ShortMin

  /** The bound the scaled skewness and kurtosis are clamped to. */
  const ScaledBound := 30000.0

  datatype Option<T> = None | Some(value: T)

  /** The running moments kurt_recurrence keeps. */
  datatype Moments = Moments(mean: real, variance: real, skew: real, kurt: real)

  /**
   * The floating-point statistics routines, which are external to the
   * engine: `kurtRecurrence(x, m, k)` adds the `k`-th sample `x` to the
   * running moments `m`; `skewness`, `kurtosis` and `standdev` take the
   * moments and a sample count; `quantile(sample, p)` is the `p`-quantile of
   * the sample it is handed.
   */
  datatype Numerics = Numerics(kurtRecurrence: (real, Moments, nat) -> Moments,
                               skewness: (real, real, int) -> real,
                               kurtosis: (real, real, int) -> real,
                               standdev: (real, int) -> real,
                               quantile: (seq<real>, real) -> real)

  /** The running moments after feeding the gaps `g` in order, the `i`-th with count `i + 1`. */
  function FoldMoments(num: Numerics, g: seq<int>): Moments
  {
    if g == [] then Moments(0.0, 0.0, 0.0, 0.0)
    else num.kurtRecurrence(g[|g| - 1] as real, FoldMoments(num, g[..|g| - 1]), |g|)
  }

  /** The gaps as they are stored in the gap buffer: `(float)d_ce` as a double. */
  function AsReals(g: seq<int>): (r: seq<real>)
    ensures |r| == |g|
    ensures forall i :: 0 <= i < |g| ==> r[i] == g[i] as real
  {
    seq(|g|, i requires 0 <= i < |g| => g[i] as real)
  }

  /** The `(short)` conversion of a value in range: truncation toward zero. */
  function ShortCast(x: real): (r: int)
    ensures 0.0 <= x ==> 0 <= r && r as real <= x < r as real + 1.0
    ensures x < 0.0 ==> r <= 0 && r as real - 1.0 < x <= r as real
  {
    if x >= 0.0 then x.Floor else -((-x).Floor)
  }

  /** The clamp of a scaled moment to `[-30000, 30000]`. */
  function Clamp(x: real): (r: real)
    ensures -ScaledBound <= r <= ScaledBound
    ensures -ScaledBound <= x <= ScaledBound ==> r == x
    ensures x < -ScaledBound ==> r == -ScaledBound
    ensures x > ScaledBound ==> r == ScaledBound
  {
    if x < -ScaledBound then -ScaledBound else if x > ScaledBound then ScaledBound else x
  }

  /** Skewness times 1000, computed only for `n > 0` and clamped. */
  function SkewScaled(num: Numerics, m: Moments, n: nat): real
  {
    if n > 0 then Clamp(num.skewness(m.variance, m.skew, n) * 1000.0) else 0.0
  }

  /** Excess kurtosis times 1000, computed only for `n > 0` and clamped. */
  function KurtScaled(num: Numerics, m: Moments, n: nat): real
  {
    if n > 0 then Clamp((num.kurtosis(m.variance, m.kurt, n) - 3.0) * 1000.0) else 0.0
  }

  /**
   * The scaled skewness and kurtosis stay within the clamp bound, are zero
   * without valid observations, and are the clamped scaled moments otherwise.
   */
  lemma ScaledFacts(num: Numerics, m: Moments, n: nat)
    ensures -ScaledBound <= SkewScaled(num, m, n) <= ScaledBound
    ensures -ScaledBound <= KurtScaled(num, m, n) <= ScaledBound
    ensures -30000 <= ShortCast(SkewScaled(num, m, n)) <= 30000
    ensures -30000 <= ShortCast(KurtScaled(num, m, n)) <= 30000
    ensures n == 0 ==> SkewScaled(num, m, n) == 0.0 && KurtScaled(num, m, n) == 0.0
    ensures n > 0 ==> SkewScaled(num, m, n) == Clamp(num.skewness(m.variance, m.skew, n) * 1000.0)
    ensures n > 0 ==> KurtScaled(num, m, n) == Clamp((num.kurtosis(m.variance, m.kurt, n) - 3.0) * 1000.0)
  {
  }

  /** The running values of the walk: the valid-step counter, the minimum and maximum gap, and the moments. */
  datatype Tally = Tally(n: nat, minimum: int, maximum: int, mom: Moments)

  /** What the walk over one window produces: its tally and its gaps (their number is the buffer counter `k`). */
  datatype Summary = Summary(tally: Tally, gaps: seq<int>)

  /**
   * The summary of a window with range `t0 .. t1` and boundaries
   * `start .. end` for one pixel, whose valid steps are `col`. A window with
   * no range (`t0 == -1`) has no gaps and reports its length as minimum,
   * maximum and mean.
   */
  function Summarize(num: Numerics, acq: seq<Date>, col: seq<bool>, t0: int, t1: int, start: int, end: int): Summary
    requires |col| == |acq|
    requires t0 == -1 || 0 <= t0 <= t1 < |acq|
  {
    if t0 > -1 then
      var g := WindowGaps(acq, col, t0, t1, start, end);
      Summary(Tally(CountValid(col, t0, t1 + 1), RunMin(ShortMax, g), RunMax(ShortMin, g), FoldMoments(num, g)), g)
    else
      var len := end - start;
      Summary(Tally(0, len, len, Moments(len as real, 0.0, 0.0, 0.0)), [])
  }

  /**
   * The summary of a window with a non-empty range whose steps all lie
   * before the window end: there is at least one gap, every gap is at least
   * one day, the gaps add up to the window length, the buffer counter stays
   * within `t1 - t0 + 2`, the valid-step counter is at least the number of
   * gaps minus one, and the minimum is at most the maximum, so the range is
   * not negative. Without a range the counter is zero and minimum, maximum
   * and mean are the window length.
   */
  lemma SummaryFacts(num: Numerics, acq: seq<Date>, col: seq<bool>, t0: int, t1: int, start: int, end: int)
    requires |col| == |acq|
    requires t0 == -1 || 0 <= t0 <= t1 < |acq|
    requires t0 > -1 ==> start < end && forall t :: t0 <= t <= t1 ==> acq[t].ce < end
    ensures var s := Summarize(num, acq, col, t0, t1, start, end);
      t0 > -1 ==>
        1 <= |s.gaps| <= t1 - t0 + 2 && s.tally.n >= |s.gaps| - 1 &&
        (forall i :: 0 <= i < |s.gaps| ==> s.gaps[i] >= 1) &&
        Sum(s.gaps) == end - start &&
        1 <= s.tally.minimum <= s.tally.maximum
    ensures var s := Summarize(num, acq, col, t0, t1, start, end);
      t0 == -1 ==>
        s.tally.n == 0 && s.gaps == [] && s.tally.minimum == s.tally.maximum == end - start &&
        s.tally.mom.mean == (end - start) as real
  {
    if t0 > -1 {
      var g := WindowGaps(acq, col, t0, t1, start, end);
      WindowGapsFacts(acq, col, t0, t1, start, end);
      MinAtMostMax(ShortMax, ShortMin, g);
      RunMinBounds(ShortMax, g);
      assert RunMin(ShortMax, g) >= 1 by {
        if RunMin(ShortMax, g) != ShortMax {
          var i :| 0 <= i < |g| && RunMin(ShortMax, g) == g[i];
        }
      }
    }
  }

  /**
   * The quantile sample in the common case: when the valid steps of a window
   * have distinct dates after the window start, there is one gap per valid
   * step plus the trailing gap, so the first `n` gaps, which the quantiles
   * and the IQR are taken over, are exactly the walk's gaps and leave out
   * the trailing one.
   */
  lemma SampleOmitsTrailing(num: Numerics, acq: seq<Date>, col: seq<bool>, t0: nat, t1: int, start: int, end: int)
    requires |col| == |acq| && t0 <= t1 < |acq| && start < end
    requires forall t :: t0 <= t <= t1 ==> acq[t].ce < end
    requires forall t :: t0 <= t <= t1 && col[t] ==> acq[t].ce > start
    requires forall i, j :: t0 <= i < j <= t1 && col[i] && col[j] ==> acq[i].ce < acq[j].ce
    ensures var s := Summarize(num, acq, col, t0, t1, start, end);
      |s.gaps| == s.tally.n + 1 &&
      s.gaps[..s.tally.n] == StepGaps(acq, col, t0, t1 + 1, start) &&
      s.gaps[s.tally.n] == end - LeftAfter(acq, col, t0, t1 + 1, start)
  {
    StepGapsDistinct(acq, col, t0, t1 + 1, start);
    LeftBelow(acq, col, t0, t1 + 1, start, end);
    var sg := StepGaps(acq, col, t0, t1 + 1, start);
    assert WindowGaps(acq, col, t0, t1, start, end) == sg + [end - LeftAfter(acq, col, t0, t1 + 1, start)];
    assert (sg + [end - LeftAfter(acq, col, t0, t1 + 1, start)])[..|sg|] == sg;
  }

  /** Appending one gap updates the running minimum, maximum and moments by one step. */
  lemma AppendGap(num: Numerics, s: seq<int>, x: int)
    ensures RunMin(ShortMax, s + [x]) == if x < RunMin(ShortMax, s) then x else RunMin(ShortMax, s)
    ensures RunMax(ShortMin, s + [x]) == if x > RunMax(ShortMin, s) then x else RunMax(ShortMin, s)
    ensures FoldMoments(num, s + [x]) == num.kurtRecurrence(x as real, FoldMoments(num, s), |s| + 1)
  {
    assert (s + [x])[..|s|] == s;
  }

  /** The first `|g|` cells of the gap buffer hold the gaps `g`. */
  ghost predicate Buffered(q: array<real>, g: seq<int>)
    reads q
  {
    |g| <= q.Length && forall i :: 0 <= i < |g| ==> q[i] == g[i] as real
  }

  /** One more step of the walk: how the left boundary, the gaps and the counter move. */
  lemma StepNext(acq: seq<Date>, col: seq<bool>, t0: nat, t: nat, start: int)
    requires |col| == |acq| && t < |acq|
    ensures var l := LeftAfter(acq, col, t0, t, start);
      LeftAfter(acq, col, t0, t + 1, start) == (if t0 <= t && col[t] && acq[t].ce > l then acq[t].ce else l) &&
      StepGaps(acq, col, t0, t + 1, start) ==
        (if t0 <= t && col[t] && acq[t].ce > l then StepGaps(acq, col, t0, t, start) + [acq[t].ce - l]
         else StepGaps(acq, col, t0, t, start)) &&
      CountValid(col, t0, t + 1) == CountValid(col, t0, t) + (if t0 <= t && col[t] then 1 else 0)
  {
    var g := StepGaps(acq, col, t0, t, start);
    assert g + [] == g;
  }

  /**
   * Adding one gap `dce` (the block the walk runs for a step past the left
   * boundary and for the trailing gap): the buffer gets it at position `k`
   * when `allocQ`, the counter grows by one, and the running moments,
   * minimum and maximum take it in.
   */
  method AddGap(q: array<real>, allocQ: bool, num: Numerics, ghost g: seq<int>, k: nat,
                mom: Moments, minimum: int, maximum: int, dce: int)
    returns (k': nat, mom': Moments, minimum': int, maximum': int)
    requires k == |g| < q.Length
    requires allocQ ==> Buffered(q, g)
    requires mom == FoldMoments(num, g)
    requires minimum == RunMin(ShortMax, g) && maximum == RunMax(ShortMin, g)
    modifies q
    ensures k' == |g + [dce]| == k + 1
    ensures allocQ ==> Buffered(q, g + [dce]) && (forall i :: k' <= i < q.Length ==> q[i] == old(q[i]))
    ensures !allocQ ==> forall i :: 0 <= i < q.Length ==> q[i] == old(q[i])
    ensures mom' == FoldMoments(num, g + [dce])
    ensures minimum' == RunMin(ShortMax, g + [dce]) && maximum' == RunMax(ShortMin, g + [dce])
  {
    if allocQ {
      q[k] := dce as real;
    }
    AppendGap(num, g, dce);
    k' := k + 1;
    mom' := num.kurtRecurrence(dce as real, mom, k');
    minimum', maximum' := minimum, maximum;
    if dce < minimum' { minimum' := dce; }
    if dce > maximum' { maximum' := dce; }
  }

  /**
   * The step loop of the walk over `t0 .. t1`: every valid step bumps `n`,
   * and every valid step past the left boundary adds its gap and becomes
   * the new left boundary.
   */
  method WalkSteps(q: array<real>, allocQ: bool, num: Numerics, acq: seq<Date>, col: seq<bool>,
                   t0: nat, t1: int, start: int)
    returns (n: nat, k: nat, minimum: int, maximum: int, mom: Moments, ceLeft: int)
    requires |col| == |acq| && q.Length == |acq| + 1
    requires t0 <= t1 < |acq|
    modifies q
    ensures ceLeft == LeftAfter(acq, col, t0, t1 + 1, start)
    ensures k == |StepGaps(acq, col, t0, t1 + 1, start)| <= t1 + 1 - t0
    ensures n == CountValid(col, t0, t1 + 1) <= t1 + 1 - t0
    ensures minimum == RunMin(ShortMax, StepGaps(acq, col, t0, t1 + 1, start))
    ensures maximum == RunMax(ShortMin, StepGaps(acq, col, t0, t1 + 1, start))
    ensures mom == FoldMoments(num, StepGaps(acq, col, t0, t1 + 1, start))
    ensures allocQ ==> Buffered(q, StepGaps(acq, col, t0, t1 + 1, start)) && (forall i :: k <= i < q.Length ==> q[i] == old(q[i]))
    ensures !allocQ ==> forall i :: 0 <= i < q.Length ==> q[i] == old(q[i])
  {
    n, k := 0, 0;
    mom := Moments(0.0, 0.0, 0.0, 0.0);
    minimum, maximum := ShortMax, ShortMin;
    ceLeft := start;
    ghost var g: seq<int> := [];
    var t := t0;
    while t <= t1
      invariant t0 <= t <= t1 + 1
      invariant g == StepGaps(acq, col, t0, t, start)
      invariant ceLeft == LeftAfter(acq, col, t0, t, start)
      invariant n == CountValid(col, t0, t) <= t - t0
      invariant k == |g| <= t - t0
      invariant minimum == RunMin(ShortMax, g) && maximum == RunMax(ShortMin, g)
      invariant mom == FoldMoments(num, g)
      invariant allocQ ==> Buffered(q, g) && (forall i :: k <= i < q.Length ==> q[i] == old(q[i]))
      invariant !allocQ ==> forall i :: 0 <= i < q.Length ==> q[i] == old(q[i])
    {
      StepNext(acq, col, t0, t, start);
      if col[t] && acq[t].ce > ceLeft {
        var dce := acq[t].ce - ceLeft;
        k, mom, minimum, maximum := AddGap(q, allocQ, num, g, k, mom, minimum, maximum, dce);
        g := g + [dce];
        ceLeft := acq[t].ce;
      }
      if col[t] {
        n := n + 1;
      }
      t := t + 1;
    }
  }

  /**
   * The walk over one window for one pixel (the body of the window loop up
   * to the statistics): the step loop, then the gap to the window end when
   * it is positive. Without a range the window length stands in for
   * minimum, maximum and mean. The gap buffer is written only when
   * `allocQ`, and only its first `k` cells.
   */
  method WalkWindow(q: array<real>, allocQ: bool, num: Numerics, acq: seq<Date>, col: seq<bool>,
                    t0: int, t1: int, start: int, end: int)
    returns (n: nat, k: nat, minimum: int, maximum: int, mom: Moments)
    requires |col| == |acq| && q.Length == |acq| + 1
    requires t0 == -1 || 0 <= t0 <= t1 < |acq|
    modifies q
    ensures var s := Summarize(num, acq, col, t0, t1, start, end);
      Tally(n, minimum, maximum, mom) == s.tally && k == |s.gaps|
    ensures k <= q.Length && n < q.Length
    ensures allocQ ==> Buffered(q, Summarize(num, acq, col, t0, t1, start, end).gaps)
    ensures allocQ ==> (forall i :: k <= i < q.Length ==> q[i] == old(q[i]))
    ensures !allocQ ==> forall i :: 0 <= i < q.Length ==> q[i] == old(q[i])
  {
    if t0 > -1 {
      var ceLeft;
      n, k, minimum, maximum, mom, ceLeft := WalkSteps(q, allocQ, num, acq, col, t0, t1, start);
      ghost var g := StepGaps(acq, col, t0, t1 + 1, start);
      var dce := end - ceLeft;
      assert WindowGaps(acq, col, t0, t1, start, end) == g + Trailing(end, ceLeft);
      if dce > 0 {
        assert Trailing(end, ceLeft) == [dce];
        k, mom, minimum, maximum := AddGap(q, allocQ, num, g, k, mom, minimum, maximum, dce);
      } else {
        assert Trailing(end, ceLeft) == [];
        assert g + [] == g;
      }
    } else {
      n, k := 0, 0;
      var len := end - start;
      minimum, maximum := len, len;
      mom := Moments(len as real, 0.0, 0.0, 0.0);
    }
  }

  // ---------------------------------------------------------------------
  // Writing the statistics of one window
  // ---------------------------------------------------------------------

  /** The position of quantile slot `o` among the quantile slots. */
  function QuantileIndex(qxx: seq<int>, o: int): (i: nat)
    requires o in qxx
    ensures i < |qxx| && qxx[i] == o
    ensures forall j :: 0 <= j < i ==> qxx[j] != o
  {
    if qxx[0] == o then 0 else 1 + QuantileIndex(qxx[1..], o)
  }

  /** The interquartile range of a sample, from its truncated 0.75 and 0.25 quantiles. */
  function Iqr(num: Numerics, sample: seq<real>): int
  {
    ShortCast(num.quantile(sample, 0.75)) - ShortCast(num.quantile(sample, 0.25))
  }

  /** Slot `o` holds the counter, the minimum, the maximum or the range. */
  predicate Counted(c: Config, o: int)
  {
    o > -1 && (o == c.num || o == c.min || o == c.max || o == c.rng)
  }

  /** Slot `o` holds the mean, the standard deviation, the skewness or the kurtosis. */
  predicate FromMoments(c: Config, o: int)
  {
    o > -1 && (o == c.avg || o == c.std || o == c.skw || o == c.krt)
  }

  /** Slot `o` holds one of the eight statistics computed from the summary alone. */
  predicate Plain(c: Config, o: int)
  {
    Counted(c, o) || FromMoments(c, o)
  }

  /** Slot `o` holds a statistic of the quantile sample: the IQR, or a requested quantile. */
  predicate OfSample(c: Config, o: int)
  {
    o > -1 && (o == c.iqr || (c.quantiles && o in c.qxx))
  }

  /** Slot `o` is written for a used window of an unmasked pixel. */
  predicate Written(c: Config, o: int)
  {
    Plain(c, o) || OfSample(c, o)
  }

  /** The value of a summary statistic for slot `o`. */
  function PlainValue(c: Config, num: Numerics, t: Tally, o: int): int
    requires Plain(c, o)
  {
    if o == c.num then t.n
    else if o == c.min then t.minimum
    else if o == c.max then t.maximum
    else if o == c.rng then t.maximum - t.minimum
    else if o == c.avg then ShortCast(t.mom.mean)
    else if o == c.std then ShortCast(num.standdev(t.mom.variance, t.n))
    else if o == c.skw then ShortCast(SkewScaled(num, t.mom, t.n))
    else ShortCast(KurtScaled(num, t.mom, t.n))
  }

  /** The value of a sample statistic for slot `o`, where `sample` is what the quantile routine is handed. */
  function SampleValue(c: Config, num: Numerics, sample: seq<real>, o: int): int
    requires WellFormed(c) && OfSample(c, o)
  {
    if o == c.iqr then Iqr(num, sample)
    else ShortCast(num.quantile(sample, c.q[QuantileIndex(c.qxx, o)]))
  }

  /** The counter, minimum, maximum and range of one window of pixel `p`, each at its slot when enabled. */
  method WriteCounts(out: array3<int>, c: Config, t: Tally, w: nat, p: nat)
    requires WellFormed(c)
    requires out.Length0 == c.nmetrics && w < out.Length1 && p < out.Length2
    modifies out
    ensures c.num > -1 ==> out[c.num, w, p] == t.n
    ensures c.min > -1 ==> out[c.min, w, p] == t.minimum
    ensures c.max > -1 ==> out[c.max, w, p] == t.maximum
    ensures c.rng > -1 ==> out[c.rng, w, p] == t.maximum - t.minimum
    ensures forall o, v, x ::
      0 <= o < out.Length0 && 0 <= v < out.Length1 && 0 <= x < out.Length2 &&
      !(v == w && x == p && Counted(c, o)) ==>
        out[o, v, x] == old(out[o, v, x])
  {
    FixedSlotsApart(c);
    if c.num > -1 { out[c.num, w, p] := t.n; }
    if c.min > -1 { out[c.min, w, p] := t.minimum; }
    if c.max > -1 { out[c.max, w, p] := t.maximum; }
    if c.rng > -1 { out[c.rng, w, p] := t.maximum - t.minimum; }
  }

  /** The mean, standard deviation, skewness and kurtosis of one window of pixel `p`, each at its slot when enabled. */
  method WriteMoments(out: array3<int>, c: Config, num: Numerics, t: Tally, w: nat, p: nat)
    requires WellFormed(c)
    requires out.Length0 == c.nmetrics && w < out.Length1 && p < out.Length2
    modifies out
    ensures c.avg > -1 ==> out[c.avg, w, p] == ShortCast(t.mom.mean)
    ensures c.std > -1 ==> out[c.std, w, p] == ShortCast(num.standdev(t.mom.variance, t.n))
    ensures c.skw > -1 ==> out[c.skw, w, p] == ShortCast(SkewScaled(num, t.mom, t.n))
    ensures c.krt > -1 ==> out[c.krt, w, p] == ShortCast(KurtScaled(num, t.mom, t.n))
    ensures forall o, v, x ::
      0 <= o < out.Length0 && 0 <= v < out.Length1 && 0 <= x < out.Length2 &&
      !(v == w && x == p && FromMoments(c, o)) ==>
        out[o, v, x] == old(out[o, v, x])
  {
    FixedSlotsApart(c);
    if c.avg > -1 { out[c.avg, w, p] := ShortCast(t.mom.mean); }
    if c.std > -1 { out[c.std, w, p] := ShortCast(num.standdev(t.mom.variance, t.n)); }
    if c.skw > -1 { out[c.skw, w, p] := ShortCast(SkewScaled(num, t.mom, t.n)); }
    if c.krt > -1 { out[c.krt, w, p] := ShortCast(KurtScaled(num, t.mom, t.n)); }
  }

  /**
   * The quantiles and the interquartile range of one window of pixel `p`,
   * all from the first `n` buffer cells. The IQR takes a stored quantile
   * cell for 0.25 or 0.75 when that probability is among the requested
   * ones and computes the quantile otherwise; either way it is the
   * difference of the truncated 0.75 and 0.25 quantiles.
   */
  method WriteSample(out: array3<int>, q: array<real>, c: Config, num: Numerics, n: nat, w: nat, p: nat)
    requires WellFormed(c)
    requires out.Length0 == c.nmetrics && w < out.Length1 && p < out.Length2
    requires n <= q.Length
    modifies out
    ensures forall o :: 0 <= o < c.nmetrics && OfSample(c, o) ==> out[o, w, p] == SampleValue(c, num, q[..n], o)
    ensures forall o, v, x ::
      0 <= o < out.Length0 && 0 <= v < out.Length1 && 0 <= x < out.Length2 && !(v == w && x == p && OfSample(c, o)) ==>
        out[o, v, x] == old(out[o, v, x])
  {
    FixedSlotsApart(c);
    ghost var sample := q[..n];
    var q25, q75 := ShortMin, ShortMin;
    if c.quantiles {
      for i := 0 to |c.q|
        invariant q25 == ShortMin || q25 == ShortCast(num.quantile(sample, 0.25))
        invariant q75 == ShortMin || q75 == ShortCast(num.quantile(sample, 0.75))
        invariant forall j :: 0 <= j < i ==> out[c.qxx[j], w, p] == ShortCast(num.quantile(sample, c.q[j]))
        invariant forall o, v, x ::
          0 <= o < out.Length0 && 0 <= v < out.Length1 && 0 <= x < out.Length2 && !(v == w && x == p && o in c.qxx[..i]) ==>
            out[o, v, x] == old(out[o, v, x])
      {
        out[c.qxx[i], w, p] := ShortCast(num.quantile(q[..n], c.q[i]));
        if c.q[i] == 0.25 { q25 := out[c.qxx[i], w, p]; }
        if c.q[i] == 0.75 { q75 := out[c.qxx[i], w, p]; }
        assert c.qxx[..i + 1] == c.qxx[..i] + [c.qxx[i]];
      }
      assert c.qxx[..|c.q|] == c.qxx;
    }
    if c.iqr > -1 {
      if q25 == ShortMin { q25 := ShortCast(num.quantile(q[..n], 0.25)); }
      if q75 == ShortMin { q75 := ShortCast(num.quantile(q[..n], 0.75)); }
      out[c.iqr, w, p] := q75 - q25;
    }
    forall o | 0 <= o < c.nmetrics && c.quantiles && o in c.qxx
      ensures out[o, w, p] == ShortCast(num.quantile(sample, c.q[QuantileIndex(c.qxx, o)]))
    {
      var j := QuantileIndex(c.qxx, o);
    }
  }

  /** The counted, moment and sample slots are three disjoint kinds. */
  lemma KindsApart(c: Config)
    requires WellFormed(c)
    ensures forall o :: Counted(c, o) ==> !FromMoments(c, o) && !OfSample(c, o)
    ensures forall o :: FromMoments(c, o) ==> !OfSample(c, o)
  {
    FixedSlotsApart(c);
  }

  /** The value of each enabled plain statistic at its own slot. */
  lemma PlainFields(c: Config, num: Numerics, t: Tally)
    requires WellFormed(c)
    ensures c.num > -1 ==> PlainValue(c, num, t, c.num) == t.n
    ensures c.min > -1 ==> PlainValue(c, num, t, c.min) == t.minimum
    ensures c.max > -1 ==> PlainValue(c, num, t, c.max) == t.maximum
    ensures c.rng > -1 ==> PlainValue(c, num, t, c.rng) == t.maximum - t.minimum
    ensures c.avg > -1 ==> PlainValue(c, num, t, c.avg) == ShortCast(t.mom.mean)
    ensures c.std > -1 ==> PlainValue(c, num, t, c.std) == ShortCast(num.standdev(t.mom.variance, t.n))
    ensures c.skw > -1 ==> PlainValue(c, num, t, c.skw) == ShortCast(SkewScaled(num, t.mom, t.n))
    ensures c.krt > -1 ==> PlainValue(c, num, t, c.krt) == ShortCast(KurtScaled(num, t.mom, t.n))
  {
    FixedSlotsApart(c);
  }

  /**
   * The statistics step of one window of pixel `p`: every enabled statistic
   * is stored at its slot, and no other cell changes.
   */
  method WriteWindow(out: array3<int>, q: array<real>, c: Config, num: Numerics, t: Tally, w: nat, p: nat)
    requires WellFormed(c)
    requires out.Length0 == c.nmetrics && w < out.Length1 && p < out.Length2
    requires t.n <= q.Length
    modifies out
    ensures forall o :: 0 <= o < c.nmetrics && Plain(c, o) ==> out[o, w, p] == PlainValue(c, num, t, o)
    ensures forall o :: 0 <= o < c.nmetrics && OfSample(c, o) ==> out[o, w, p] == SampleValue(c, num, q[..t.n], o)
    ensures forall o, v, x ::
      0 <= o < out.Length0 && 0 <= v < out.Length1 && 0 <= x < out.Length2 && !(v == w && x == p && Written(c, o)) ==>
        out[o, v, x] == old(out[o, v, x])
  {
    KindsApart(c);
    PlainFields(c, num, t);
    WriteCounts(out, c, t, w, p);
    label Counts:
    WriteMoments(out, c, num, t, w, p);
    label Moments:
    WriteSample(out, q, c, num, t.n, w, p);
    forall o | 0 <= o < c.nmetrics && Plain(c, o)
      ensures out[o, w, p] == PlainValue(c, num, t, o)
    {
      assert out[o, w, p] == old@Moments(out[o, w, p]);
      if Counted(c, o) {
        assert old@Moments(out[o, w, p]) == old@Counts(out[o, w, p]);
      }
    }
    forall o, v, x | 0 <= o < out.Length0 && 0 <= v < out.Length1 && 0 <= x < out.Length2 &&
        !(v == w && x == p && Written(c, o))
      ensures out[o, v, x] == old(out[o, v, x])
    {
      assert out[o, v, x] == old@Moments(out[o, v, x]) == old@Counts(out[o, v, x]);
    }
  }

  // ---------------------------------------------------------------------
  // Windows and pixels
  // ---------------------------------------------------------------------

  /** Every product of window `w` of pixel `p` becomes nodata; nothing else changes. */
  method FillWindow(out: array3<int>, w: nat, p: nat)
    requires w < out.Length1 && p < out.Length2
    modifies out
    ensures forall o :: 0 <= o < out.Length0 ==> out[o, w, p] == Nodata
    ensures forall o, v, x ::
      0 <= o < out.Length0 && 0 <= v < out.Length1 && 0 <= x < out.Length2 && !(v == w && x == p) ==>
        out[o, v, x] == old(out[o, v, x])
  {
    for o := 0 to out.Length0
      invariant forall o' :: 0 <= o' < o ==> out[o', w, p] == Nodata
      invariant forall o', v, x ::
        0 <= o' < out.Length0 && 0 <= v < out.Length1 && 0 <= x < out.Length2 && !(v == w && x == p && o' < o) ==>
          out[o', v, x] == old(out[o', v, x])
    {
      out[o, w, p] := Nodata;
    }
  }

  /** Every product of every window of pixel `p` becomes nodata; nothing else changes. */
  method FillPixel(out: array3<int>, p: nat)
    requires p < out.Length2
    modifies out
    ensures forall o, w :: 0 <= o < out.Length0 && 0 <= w < out.Length1 ==> out[o, w, p] == Nodata
    ensures forall o, v, x ::
      0 <= o < out.Length0 && 0 <= v < out.Length1 && 0 <= x < out.Length2 && x != p ==>
        out[o, v, x] == old(out[o, v, x])
  {
    for o := 0 to out.Length0
      invariant forall o', v :: 0 <= o' < o && 0 <= v < out.Length1 ==> out[o', v, p] == Nodata
      invariant forall o', v, x ::
        0 <= o' < out.Length0 && 0 <= v < out.Length1 && 0 <= x < out.Length2 && !(x == p && o' < o) ==>
          out[o', v, x] == old(out[o', v, x])
    {
      for w := 0 to out.Length1
        invariant forall o', v :: 0 <= o' < o && 0 <= v < out.Length1 ==> out[o', v, p] == Nodata
        invariant forall v :: 0 <= v < w ==> out[o, v, p] == Nodata
        invariant forall o', v, x ::
          0 <= o' < out.Length0 && 0 <= v < out.Length1 && 0 <= x < out.Length2 &&
          !(x == p && (o' < o || (o' == o && v < w))) ==>
            out[o', v, x] == old(out[o', v, x])
      {
        out[o, w, p] := Nodata;
      }
    }
  }

  /** The first `n` buffer cells, when the buffer holds at least `n` gaps, are those gaps. */
  lemma SampleFromBuffer(q: array<real>, g: seq<int>, n: nat)
    requires Buffered(q, g) && n <= |g|
    ensures q[..n] == AsReals(g[..n])
  {
  }

  /**
   * One window of one unmasked pixel: an unused window gets nodata in every
   * product; a used one is walked and its statistics written. Only the
   * cells of this window and pixel change, and of those only the ones
   * written.
   */
  method AccumulateWindow(out: array3<int>, q: array<real>, allocQ: bool, c: Config, num: Numerics,
                          acq: seq<Date>, col: seq<bool>, used: bool, t0: int, t1: int, start: int, end: int,
                          w: nat, p: nat)
    requires WellFormed(c) && allocQ == (c.quantiles || c.iqr > -1)
    requires out.Length0 == c.nmetrics && w < out.Length1 && p < out.Length2
    requires |col| == |acq| && q.Length == |acq| + 1
    requires t0 == -1 || 0 <= t0 <= t1 < |acq|
    modifies out, q
    ensures !used ==> forall o :: 0 <= o < out.Length0 ==> out[o, w, p] == Nodata
    ensures used ==> forall o :: 0 <= o < c.nmetrics && Plain(c, o) ==>
      out[o, w, p] == PlainValue(c, num, Summarize(num, acq, col, t0, t1, start, end).tally, o)
    ensures used ==> Summarize(num, acq, col, t0, t1, start, end).tally.n < q.Length
    ensures used ==> forall o :: 0 <= o < c.nmetrics && OfSample(c, o) ==>
      out[o, w, p] == SampleValue(c, num, q[..Summarize(num, acq, col, t0, t1, start, end).tally.n], o)
    ensures used && allocQ ==> Buffered(q, Summarize(num, acq, col, t0, t1, start, end).gaps)
    ensures forall o, v, x ::
      0 <= o < out.Length0 && 0 <= v < out.Length1 && 0 <= x < out.Length2 &&
      !(v == w && x == p && (!used || Written(c, o))) ==>
        out[o, v, x] == old(out[o, v, x])
  {
    if !used {
      FillWindow(out, w, p);
      return;
    }
    var n, k, minimum, maximum, mom := WalkWindow(q, allocQ, num, acq, col, t0, t1, start, end);
    WriteWindow(out, q, c, num, Tally(n, minimum, maximum, mom), w, p);
  }

  /**
   * The inputs of the accumulator: the acquisition dates, the per-step
   * validity masks `msk[t][p]`, the optional processing mask, the adjusted
   * windows with their used flags, and the indexer's ranges.
   */
  datatype Scene = Scene(acq: seq<Date>, msk: seq<seq<bool>>, mask: Option<seq<bool>>,
                         ws: seq<Date>, we: seq<Date>, used: seq<bool>, t0: seq<int>, t1: seq<int>)

  /**
   * The scene fits `nw` windows and `nc` pixels, and every range is empty
   * or an ordered pair of steps, as the indexer delivers them.
   */
  ghost predicate SceneOk(sc: Scene, nw: nat, nc: nat)
  {
    |sc.msk| == |sc.acq| && (forall t :: 0 <= t < |sc.msk| ==> |sc.msk[t]| == nc) &&
    (sc.mask.Some? ==> |sc.mask.value| == nc) &&
    |sc.ws| == nw && |sc.we| == nw && |sc.used| == nw && |sc.t0| == nw && |sc.t1| == nw &&
    (forall w :: 0 <= w < nw ==> sc.t0[w] == -1 || 0 <= sc.t0[w] <= sc.t1[w] < |sc.acq|)
  }

  /** The validity of pixel `p` at every time step. */
  function Column(sc: Scene, p: nat): (col: seq<bool>)
    requires forall t :: 0 <= t < |sc.msk| ==> p < |sc.msk[t]|
    ensures |col| == |sc.msk|
    ensures forall t :: 0 <= t < |col| ==> col[t] == sc.msk[t][p]
  {
    seq(|sc.msk|, t requires 0 <= t < |sc.msk| => sc.msk[t][p])
  }

  /** Pixel `p` is excluded by the processing mask. */
  predicate Masked(sc: Scene, p: nat)
  {
    sc.mask.Some? && p < |sc.mask.value| && !sc.mask.value[p]
  }

  /** The summary of window `w` for pixel `p`. */
  function WindowSummary(num: Numerics, sc: Scene, nc: nat, w: nat, p: nat): Summary
    requires SceneOk(sc, |sc.ws|, nc) && w < |sc.ws| && p < nc
  {
    Summarize(num, sc.acq, Column(sc, p), sc.t0[w], sc.t1[w], sc.ws[w].ce, sc.we[w].ce)
  }

  /**
   * The cells the accumulator writes for product `o`, window `w` and pixel
   * `p`: every cell of a masked pixel or an unused window, and otherwise the
   * cells of the enabled statistics.
   */
  predicate Touched(c: Config, sc: Scene, o: int, w: nat, p: nat)
  {
    Masked(sc, p) || (w < |sc.used| && !sc.used[w]) || Written(c, o)
  }

  /**
   * What cell `(o, w, p)` holds after the accumulator, where that is
   * determined by the inputs alone: nodata for a masked pixel or an unused
   * window; the summary statistic of a used window; and a quantile or the
   * IQR when the quantile sample, the first `n` buffer cells, lies within
   * the gaps of this window (`n <= k`). With more valid steps than gaps the
   * sample reaches into buffer cells this window did not write, and the
   * cell is not determined by this window (`None`).
   */
  function Expected(c: Config, num: Numerics, sc: Scene, nc: nat, o: int, w: nat, p: nat): Option<int>
    requires WellFormed(c) && SceneOk(sc, |sc.ws|, nc) && w < |sc.ws| && p < nc
  {
    if Masked(sc, p) || !sc.used[w] then Some(Nodata)
    else
      var s := WindowSummary(num, sc, nc, w, p);
      if Plain(c, o) then Some(PlainValue(c, num, s.tally, o))
      else if OfSample(c, o) && s.tally.n <= |s.gaps| then Some(SampleValue(c, num, AsReals(s.gaps[..s.tally.n]), o))
      else None
  }

  /**
   * One unmasked pixel: every window in turn. Afterwards every determined
   * cell of the pixel holds its expected value, and no cell outside the
   * pixel, and no cell the accumulator does not write, has changed.
   */
  method AccumulatePixel(out: array3<int>, q: array<real>, allocQ: bool, c: Config, num: Numerics, sc: Scene, p: nat)
    requires WellFormed(c) && allocQ == (c.quantiles || c.iqr > -1)
    requires SceneOk(sc, out.Length1, out.Length2) && out.Length0 == c.nmetrics && p < out.Length2
    requires q.Length == |sc.acq| + 1 && !Masked(sc, p)
    modifies out, q
    ensures forall o, w ::
      0 <= o < out.Length0 && 0 <= w < out.Length1 && Expected(c, num, sc, out.Length2, o, w, p).Some? ==>
        out[o, w, p] == Expected(c, num, sc, out.Length2, o, w, p).value
    ensures forall o, v, x ::
      0 <= o < out.Length0 && 0 <= v < out.Length1 && 0 <= x < out.Length2 && !(x == p && Touched(c, sc, o, v, p)) ==>
        out[o, v, x] == old(out[o, v, x])
  {
    var col := Column(sc, p);
    for w := 0 to out.Length1
      invariant forall o, v ::
        0 <= o < out.Length0 && 0 <= v < w && Expected(c, num, sc, out.Length2, o, v, p).Some? ==>
          out[o, v, p] == Expected(c, num, sc, out.Length2, o, v, p).value
      invariant forall o, v, x ::
        0 <= o < out.Length0 && 0 <= v < out.Length1 && 0 <= x < out.Length2 &&
        !(x == p && v < w && Touched(c, sc, o, v, p)) ==>
          out[o, v, x] == old(out[o, v, x])
    {
      AccumulateWindow(out, q, allocQ, c, num, sc.acq, col, sc.used[w], sc.t0[w], sc.t1[w],
                       sc.ws[w].ce, sc.we[w].ce, w, p);
      if sc.used[w] {
        var s := WindowSummary(num, sc, out.Length2, w, p);
        if s.tally.n <= |s.gaps| && allocQ {
          SampleFromBuffer(q, s.gaps, s.tally.n);
        }
      }
    }
  }

  /**
   * The accumulator over all pixels (the parallel pixel loop, run in
   * order): a masked pixel gets nodata in every product of every window,
   * every other pixel is accumulated window by window. The gap buffer holds
   * `nt + 1` values and is shared by all windows and pixels. Afterwards
   * every determined cell holds its expected value and every cell the
   * accumulator does not write is unchanged.
   */
  method ClearSkyStats(out: array3<int>, c: Config, num: Numerics, sc: Scene)
    requires WellFormed(c)
    requires SceneOk(sc, out.Length1, out.Length2) && out.Length0 == c.nmetrics
    modifies out
    ensures forall o, w, p ::
      0 <= o < out.Length0 && 0 <= w < out.Length1 && 0 <= p < out.Length2 && Expected(c, num, sc, out.Length2, o, w, p).Some? ==>
        out[o, w, p] == Expected(c, num, sc, out.Length2, o, w, p).value
    ensures forall o, w, p ::
      0 <= o < out.Length0 && 0 <= w < out.Length1 && 0 <= p < out.Length2 && !Touched(c, sc, o, w, p) ==>
        out[o, w, p] == old(out[o, w, p])
  {
    var allocQ := c.quantiles || c.iqr > -1;
    var q := new real[|sc.acq| + 1];
    for p := 0 to out.Length2
      invariant forall o, w, x ::
        0 <= o < out.Length0 && 0 <= w < out.Length1 && 0 <= x < p && Expected(c, num, sc, out.Length2, o, w, x).Some? ==>
          out[o, w, x] == Expected(c, num, sc, out.Length2, o, w, x).value
      invariant forall o, w, x ::
        0 <= o < out.Length0 && 0 <= w < out.Length1 && 0 <= x < out.Length2 &&
        !(x < p && Touched(c, sc, o, w, x)) ==>
          out[o, w, x] == old(out[o, w, x])
    {
      if sc.mask.Some? && !sc.mask.value[p] {
        FillPixel(out, p);
      } else {
        AccumulatePixel(out, q, allocQ, c, num, sc, p);
      }
    }
  }
}
