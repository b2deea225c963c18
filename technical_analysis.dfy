/**
 * The signal generator of technical_analysis.py.
 *
 * A price series is a set of equally long columns (Close, Volume, and the
 * MACD line and MACD signal line that an external library computes from
 * Close). The generator appends the EVWMA and VWAP columns (running
 * volume-weighted average price), a stochastic oscillator (the position of
 * Close inside its trailing 14-bar range, smoothed by a 14-bar mean) and a
 * Signal column in {-1, 0, 1}. A NaN cell is None; prices are exact reals.
 */
module TechnicalAnalysis {
  import opened Wrappers

  /** Length of every rolling window (`rolling(14)`). */
  const Window: nat := 14
  /** The oscillator must be below this for a buy... */
  const Oversold: real := 0.2
  /** ...and above this for a sell. */
  const Overbought: real := 0.8

  // ---------------------------------------------------------------------
  // Sums, running sums and the volume-weighted average
  // ---------------------------------------------------------------------

  /** Σ s[j] over the first n cells. */
  function SumTo(s: seq<real>, n: nat): real
    requires n <= |s|
  {
    if n == 0 then 0.0 else SumTo(s, n - 1) + s[n - 1]
  }

  /** Σ volume[j]·close[j] over the first n bars: the money traded so far. */
  function TurnoverTo(volume: seq<real>, close: seq<real>, n: nat): real
    requires n <= |volume| == |close|
  {
    if n == 0 then 0.0 else TurnoverTo(volume, close, n - 1) + volume[n - 1] * close[n - 1]
  }

  /** The first n cells of pandas `cumsum`: each cell adds the current value to the previous cell. */
  function RunningTotals(s: seq<real>, n: nat): (r: seq<real>)
    requires n <= |s|
    ensures |r| == n
    ensures forall i :: 0 <= i < n ==> r[i] == SumTo(s, i + 1)
  {
    if n == 0 then []
    else
      var p := RunningTotals(s, n - 1);
      p + [(if n == 1 then 0.0 else p[n - 2]) + s[n - 1]]
  }

  /** pandas `cumsum`. */
  function CumSum(s: seq<real>): (r: seq<real>)
    ensures |r| == |s|
    ensures forall i :: 0 <= i < |s| ==> r[i] == SumTo(s, i + 1)
  {
    RunningTotals(s, |s|)
  }

  /** Element-wise product of two columns (`Volume * Close`). */
  function Products(a: seq<real>, b: seq<real>): (r: seq<real>)
    requires |a| == |b|
    ensures |r| == |a|
  {
    seq(|a|, i requires 0 <= i < |a| => a[i] * b[i])
  }

  /** Element-wise quotient of two columns; a zero divisor gives NaN. */
  function Quotients(n: seq<real>, d: seq<real>): (r: seq<Option<real>>)
    requires |n| == |d|
    ensures |r| == |n|
    ensures forall i :: 0 <= i < |n| ==> (r[i].None? <==> d[i] == 0.0)
    ensures forall i :: 0 <= i < |n| && r[i].Some? ==> r[i].value * d[i] == n[i]
  {
    seq(|n|, i requires 0 <= i < |n| => if d[i] == 0.0 then None else Some(n[i] / d[i]))
  }

  lemma {:induction false} SumOfProducts(volume: seq<real>, close: seq<real>, n: nat)
    requires n <= |volume| == |close|
    ensures SumTo(Products(volume, close), n) == TurnoverTo(volume, close, n)
  {
    if n > 0 {
      SumOfProducts(volume, close, n - 1);
    }
  }

  /** The volume-weighted average close of the first n bars, undefined when no volume traded. */
  function WeightedAverage(volume: seq<real>, close: seq<real>, n: nat): Option<real>
    requires n <= |volume| == |close|
  {
    if SumTo(volume, n) == 0.0 then None else Some(TurnoverTo(volume, close, n) / SumTo(volume, n))
  }

  /**
   * The EVWMA column: cumulative Σ volume·close over cumulative Σ volume.
   * Bar i holds the volume-weighted average of bars 0..i: a running
   * average over the whole history so far, not a windowed one.
   */
  function Evwma(close: seq<real>, volume: seq<real>): (r: seq<Option<real>>)
    requires |close| == |volume|
    ensures |r| == |close|
    ensures forall i :: 0 <= i < |close| ==> r[i] == WeightedAverage(volume, close, i + 1)
  {
    var r := Quotients(CumSum(Products(volume, close)), CumSum(volume));
    assert forall i :: 0 <= i < |close| ==> r[i] == WeightedAverage(volume, close, i + 1) by {
      forall i | 0 <= i < |close| ensures r[i] == WeightedAverage(volume, close, i + 1) {
        SumOfProducts(volume, close, i + 1);
      }
    }
    r
  }

  /** The VWAP column, computed by the same expression; it equals EVWMA bar for bar. */
  function Vwap(close: seq<real>, volume: seq<real>): (r: seq<Option<real>>)
    requires |close| == |volume|
    ensures r == Evwma(close, volume)
  {
    Quotients(CumSum(Products(volume, close)), CumSum(volume))
  }

  // ---------------------------------------------------------------------
  // Facts about sums of weights
  // ---------------------------------------------------------------------

  lemma LowerStep(total: real, weighted: real, a: real, x: real, lo: real, total': real, weighted': real)
    requires lo * total <= weighted
    requires 0.0 <= a && lo <= x
    requires total' == total + a && weighted' == weighted + a * x
    ensures lo * total' <= weighted'
  {
    assert a * (x - lo) >= 0.0;
    assert lo * total' == lo * total + a * lo;
  }

  lemma UpperStep(total: real, weighted: real, a: real, x: real, hi: real, total': real, weighted': real)
    requires weighted <= hi * total
    requires 0.0 <= a && x <= hi
    requires total' == total + a && weighted' == weighted + a * x
    ensures weighted' <= hi * total'
  {
    assert a * (hi - x) >= 0.0;
    assert hi * total' == hi * total + a * hi;
  }

  lemma {:induction false} TurnoverAtLeast(volume: seq<real>, close: seq<real>, n: nat, lo: real)
    requires n <= |volume| == |close|
    requires forall j :: 0 <= j < n ==> 0.0 <= volume[j] && lo <= close[j]
    ensures lo * SumTo(volume, n) <= TurnoverTo(volume, close, n)
  {
    if n > 0 {
      TurnoverAtLeast(volume, close, n - 1, lo);
      LowerStep(SumTo(volume, n - 1), TurnoverTo(volume, close, n - 1), volume[n - 1], close[n - 1], lo,
                SumTo(volume, n), TurnoverTo(volume, close, n));
    }
  }

  lemma {:induction false} TurnoverAtMost(volume: seq<real>, close: seq<real>, n: nat, hi: real)
    requires n <= |volume| == |close|
    requires forall j :: 0 <= j < n ==> 0.0 <= volume[j] && close[j] <= hi
    ensures TurnoverTo(volume, close, n) <= hi * SumTo(volume, n)
  {
    if n > 0 {
      TurnoverAtMost(volume, close, n - 1, hi);
      UpperStep(SumTo(volume, n - 1), TurnoverTo(volume, close, n - 1), volume[n - 1], close[n - 1], hi,
                SumTo(volume, n), TurnoverTo(volume, close, n));
    }
  }

  lemma {:induction false} ZeroVolumeHasZeroTurnover(volume: seq<real>, close: seq<real>, n: nat)
    requires n <= |volume| == |close|
    requires forall j :: 0 <= j < n ==> 0.0 <= volume[j]
    ensures SumTo(volume, n) >= 0.0
    ensures SumTo(volume, n) == 0.0 ==> TurnoverTo(volume, close, n) == 0.0
  {
    if n > 0 {
      ZeroVolumeHasZeroTurnover(volume, close, n - 1);
    }
  }

  lemma {:induction false} PositiveVolumeHasPositiveSum(volume: seq<real>, n: nat)
    requires 0 < n <= |volume|
    requires forall j :: 0 <= j < n ==> 0.0 < volume[j]
    ensures SumTo(volume, n) > 0.0
  {
    if n > 1 {
      PositiveVolumeHasPositiveSum(volume, n - 1);
    }
  }

  lemma DivisionBounds(n: real, d: real, lo: real, hi: real)
    requires d > 0.0 && lo * d <= n <= hi * d
    ensures lo <= n / d <= hi
  {
    assert n / d * d == n;
  }

  /** With positive volumes, the weighted average of closes within [lo, hi] is within [lo, hi]. */
  lemma AverageWithinBounds(volume: seq<real>, close: seq<real>, n: nat, lo: real, hi: real)
    requires 0 < n <= |volume| == |close|
    requires forall j :: 0 <= j < n ==> 0.0 < volume[j] && lo <= close[j] <= hi
    ensures WeightedAverage(volume, close, n).Some?
    ensures lo <= WeightedAverage(volume, close, n).value <= hi
  {
    PositiveVolumeHasPositiveSum(volume, n);
    TurnoverAtLeast(volume, close, n, lo);
    TurnoverAtMost(volume, close, n, hi);
    DivisionBounds(TurnoverTo(volume, close, n), SumTo(volume, n), lo, hi);
  }

  /**
   * With every volume so far positive, EVWMA is defined and lies between the
   * lowest and the highest close of bars 0..i.
   */
  lemma EvwmaWithinCloseRange(close: seq<real>, volume: seq<real>, i: nat)
    requires |close| == |volume| && i < |close|
    requires forall j :: 0 <= j <= i ==> volume[j] > 0.0
    ensures Evwma(close, volume)[i].Some?
    ensures MinIn(close, 0, i + 1) <= Evwma(close, volume)[i].value <= MaxIn(close, 0, i + 1)
  {
    AverageWithinBounds(volume, close, i + 1, MinIn(close, 0, i + 1), MaxIn(close, 0, i + 1));
  }

  /**
   * With nonnegative volumes an undefined EVWMA cell is 0/0 (NaN in the
   * source): a zero cumulative volume never meets a nonzero turnover, which
   * would give an infinity instead.
   */
  lemma EvwmaUndefinedIsZeroOverZero(close: seq<real>, volume: seq<real>, i: nat)
    requires |close| == |volume| && i < |close|
    requires forall j :: 0 <= j <= i ==> volume[j] >= 0.0
    ensures Evwma(close, volume)[i].None? <==> SumTo(volume, i + 1) == 0.0
    ensures Evwma(close, volume)[i].None? ==> TurnoverTo(volume, close, i + 1) == 0.0
  {
    ZeroVolumeHasZeroTurnover(volume, close, i + 1);
  }

  // ---------------------------------------------------------------------
  // Rolling windows and the oscillator
  // ---------------------------------------------------------------------

  /** Position of a smallest cell among cells lo..hi-1. */
  function ArgMinIn(s: seq<real>, lo: nat, hi: nat): (k: nat)
    requires lo < hi <= |s|
    ensures lo <= k < hi
    ensures forall j :: lo <= j < hi ==> s[k] <= s[j]
  {
    if hi == lo + 1 then lo
    else
      var t := ArgMinIn(s, lo, hi - 1);
      if s[hi - 1] < s[t] then hi - 1 else t
  }

  /** Position of a largest cell among cells lo..hi-1. */
  function ArgMaxIn(s: seq<real>, lo: nat, hi: nat): (k: nat)
    requires lo < hi <= |s|
    ensures lo <= k < hi
    ensures forall j :: lo <= j < hi ==> s[j] <= s[k]
  {
    if hi == lo + 1 then lo
    else
      var t := ArgMaxIn(s, lo, hi - 1);
      if s[hi - 1] > s[t] then hi - 1 else t
  }

  /** Smallest of cells lo..hi-1. */
  function MinIn(s: seq<real>, lo: nat, hi: nat): real
    requires lo < hi <= |s|
  {
    s[ArgMinIn(s, lo, hi)]
  }

  /** Largest of cells lo..hi-1. */
  function MaxIn(s: seq<real>, lo: nat, hi: nat): real
    requires lo < hi <= |s|
  {
    s[ArgMaxIn(s, lo, hi)]
  }

  /** pandas `rolling(w).min()` on a column without NaN: undefined until w bars exist. */
  function RollingMin(s: seq<real>, w: nat): (r: seq<Option<real>>)
    requires w > 0
    ensures |r| == |s|
  {
    seq(|s|, i requires 0 <= i < |s| => if i + 1 < w then None else Some(MinIn(s, i + 1 - w, i + 1)))
  }

  /** pandas `rolling(w).max()` on a column without NaN. */
  function RollingMax(s: seq<real>, w: nat): (r: seq<Option<real>>)
    requires w > 0
    ensures |r| == |s|
  {
    seq(|s|, i requires 0 <= i < |s| => if i + 1 < w then None else Some(MaxIn(s, i + 1 - w, i + 1)))
  }

  /** IEEE subtraction: NaN if either side is NaN. */
  function Minus(a: Option<real>, b: Option<real>): Option<real>
  {
    if a.None? || b.None? then None else Some(a.value - b.value)
  }

  /** IEEE division where the only zero divisor met is 0/0, which is NaN. */
  function Divide(a: Option<real>, b: Option<real>): Option<real>
  {
    if a.None? || b.None? || b.value == 0.0 then None else Some(a.value / b.value)
  }

  /** `(Close - min14) / (max14 - min14)`, bar by bar. */
  function Normalized(close: seq<real>): (r: seq<Option<real>>)
    ensures |r| == |close|
  {
    var lo := RollingMin(close, Window);
    var hi := RollingMax(close, Window);
    seq(|close|, i requires 0 <= i < |close| => Position(close[i], lo[i], hi[i]))
  }

  /** Where a close sits in its window's range: `(close - min) / (max - min)`. */
  function Position(c: real, lo: Option<real>, hi: Option<real>): (r: Option<real>)
    ensures r.Some? <==> lo.Some? && hi.Some? && hi.value != lo.value
    ensures r.Some? ==> r.value * (hi.value - lo.value) == c - lo.value
  {
    Divide(Minus(Some(c), lo), Minus(hi, lo))
  }

  /** Sum of cells lo..hi-1, NaN as soon as one of them is NaN. */
  function SumDefinedIn(s: seq<Option<real>>, lo: nat, hi: nat): (r: Option<real>)
    requires lo <= hi <= |s|
    ensures r.Some? <==> forall j :: lo <= j < hi ==> s[j].Some?
  {
    if hi == lo then Some(0.0)
    else
      var p := SumDefinedIn(s, lo, hi - 1);
      if p.None? || s[hi - 1].None? then None else Some(p.value + s[hi - 1].value)
  }

  /**
   * pandas `rolling(w).mean()`: defined once w bars exist and every cell of
   * the window is defined (the default minimum count is the window length).
   */
  function RollingMean(s: seq<Option<real>>, w: nat): (r: seq<Option<real>>)
    requires w > 0
    ensures |r| == |s|
  {
    seq(|s|, i requires 0 <= i < |s| =>
      if i + 1 < w then None
      else var t := SumDefinedIn(s, i + 1 - w, i + 1); if t.None? then None else Some(t.value / w as real))
  }

  /** The `Stochastic_RSI` column: the 14-bar mean of the normalised close. */
  function StochRsi(close: seq<real>): (r: seq<Option<real>>)
    ensures |r| == |close|
  {
    RollingMean(Normalized(close), Window)
  }

  /** Highest minus lowest close of the 14-bar window ending at bar i. */
  function Spread(close: seq<real>, i: nat): (d: real)
    requires Window - 1 <= i < |close|
    ensures d >= 0.0
  {
    MaxIn(close, i + 1 - Window, i + 1) - MinIn(close, i + 1 - Window, i + 1)
  }

  lemma UnitQuotient(a: real, b: real)
    requires 0.0 <= a <= b && b > 0.0
    ensures 0.0 <= a / b <= 1.0
  {
    DivisionBounds(a, b, 0.0, 1.0);
  }

  /** One cell of a rolling minimum and of a rolling maximum. */
  lemma RollingCell(s: seq<real>, w: nat, i: nat)
    requires w > 0 && i < |s|
    ensures w - 1 > i ==> RollingMin(s, w)[i].None? && RollingMax(s, w)[i].None?
    ensures w - 1 <= i ==> RollingMin(s, w)[i] == Some(MinIn(s, i + 1 - w, i + 1))
    ensures w - 1 <= i ==> RollingMax(s, w)[i] == Some(MaxIn(s, i + 1 - w, i + 1))
  {
  }

  /**
   * A rolling minimum is defined once the window is full, and is then the
   * smallest close of the window: no cell is below it and one cell equals it.
   */
  lemma RollingMinWindow(s: seq<real>, w: nat, i: nat)
    requires w > 0 && i < |s|
    ensures RollingMin(s, w)[i].Some? <==> w <= i + 1
    ensures RollingMin(s, w)[i].Some? ==>
      (forall j :: i + 1 - w <= j <= i ==> RollingMin(s, w)[i].value <= s[j]) &&
      (exists j :: i + 1 - w <= j <= i && s[j] == RollingMin(s, w)[i].value)
  {
    RollingCell(s, w, i);
    if w <= i + 1 {
      var k := ArgMinIn(s, i + 1 - w, i + 1);
      assert s[k] == RollingMin(s, w)[i].value;
    }
  }

  /**
   * A rolling maximum is defined once the window is full, and is then the
   * largest close of the window: no cell is above it and one cell equals it.
   */
  lemma RollingMaxWindow(s: seq<real>, w: nat, i: nat)
    requires w > 0 && i < |s|
    ensures RollingMax(s, w)[i].Some? <==> w <= i + 1
    ensures RollingMax(s, w)[i].Some? ==>
      (forall j :: i + 1 - w <= j <= i ==> s[j] <= RollingMax(s, w)[i].value) &&
      (exists j :: i + 1 - w <= j <= i && s[j] == RollingMax(s, w)[i].value)
  {
    RollingCell(s, w, i);
    if w <= i + 1 {
      var k := ArgMaxIn(s, i + 1 - w, i + 1);
      assert s[k] == RollingMax(s, w)[i].value;
    }
  }

  lemma NormalizedUnfold(close: seq<real>, i: nat)
    requires i < |close|
    ensures Normalized(close)[i] == Position(close[i], RollingMin(close, Window)[i], RollingMax(close, Window)[i])
  {
  }

  /** One cell of the normalised column, read through the rolling windows. */
  lemma NormalizedCell(close: seq<real>, i: nat)
    requires i < |close|
    ensures Window - 1 > i ==> Normalized(close)[i].None?
    ensures Window - 1 <= i ==>
      Normalized(close)[i] == Divide(Some(close[i] - MinIn(close, i + 1 - Window, i + 1)), Some(Spread(close, i)))
  {
    NormalizedUnfold(close, i);
    RollingCell(close, Window, i);
  }

  /**
   * The normalised close is defined exactly when the window is full and its
   * range is not empty, and then it lies in [0, 1] because the bar's own close
   * is inside its window. When the range is empty the numerator is zero as
   * well, so the source's quotient is 0/0 (NaN) and never an infinity.
   */
  lemma NormalizedAt(close: seq<real>, i: nat)
    requires i < |close|
    ensures Normalized(close)[i].Some? <==> Window - 1 <= i && Spread(close, i) > 0.0
    ensures Normalized(close)[i].Some? ==> 0.0 <= Normalized(close)[i].value <= 1.0
    ensures Window - 1 <= i && Spread(close, i) == 0.0 ==> close[i] == MinIn(close, i + 1 - Window, i + 1)
  {
    NormalizedCell(close, i);
    if Window - 1 <= i {
      var lo, d := MinIn(close, i + 1 - Window, i + 1), Spread(close, i);
      assert lo <= close[i] <= MaxIn(close, i + 1 - Window, i + 1);
      if d > 0.0 {
        UnitQuotient(close[i] - lo, d);
      }
    }
  }

  lemma {:induction false} SumDefinedBounds(s: seq<Option<real>>, lo: nat, hi: nat)
    requires lo <= hi <= |s|
    requires forall j :: lo <= j < hi ==> s[j].Some? && 0.0 <= s[j].value <= 1.0
    ensures SumDefinedIn(s, lo, hi).Some?
    ensures 0.0 <= SumDefinedIn(s, lo, hi).value <= (hi - lo) as real
  {
    if lo < hi {
      SumDefinedBounds(s, lo, hi - 1);
    }
  }

  /** One cell of a rolling mean, read through its window. */
  lemma RollingMeanCell(s: seq<Option<real>>, w: nat, i: nat)
    requires w > 0 && i < |s|
    ensures RollingMean(s, w)[i].Some? <==> w <= i + 1 && forall j :: i + 1 - w <= j <= i ==> s[j].Some?
    ensures w - 1 > i ==> RollingMean(s, w)[i].None?
    ensures w - 1 <= i ==>
      (var t := SumDefinedIn(s, i + 1 - w, i + 1);
       RollingMean(s, w)[i] == if t.None? then None else Some(t.value / w as real))
  {
    if w <= i + 1 {
      var t := SumDefinedIn(s, i + 1 - w, i + 1);
      assert t.Some? <==> forall j :: i + 1 - w <= j < i + 1 ==> s[j].Some?;
    }
  }

  /** One cell of the oscillator, read through the mean window. */
  lemma StochRsiCell(close: seq<real>, i: nat)
    requires i < |close|
    ensures Window - 1 > i ==> StochRsi(close)[i].None?
    ensures Window - 1 <= i ==>
      (var t := SumDefinedIn(Normalized(close), i + 1 - Window, i + 1);
       StochRsi(close)[i] == if t.None? then None else Some(t.value / Window as real))
  {
    var n := Normalized(close);
    assert StochRsi(close) == RollingMean(n, Window);
    RollingMeanCell(n, Window, i);
  }

  /**
   * The oscillator is undefined during the ramp-up of the two nested windows
   * (0-based bars 0..25) and whenever one of the last 14 windows has an empty
   * range; otherwise it is defined.
   */
  lemma StochRsiDefinedness(close: seq<real>, i: nat)
    requires i < |close|
    ensures StochRsi(close)[i].Some? <==>
      2 * Window - 2 <= i && forall j :: i + 1 - Window <= j <= i ==> Spread(close, j) > 0.0
  {
    StochRsiCell(close, i);
    if Window - 1 <= i {
      forall j | i + 1 - Window <= j <= i {
        NormalizedAt(close, j);
      }
      if StochRsi(close)[i].Some? {
        NormalizedAt(close, i + 1 - Window);
      }
    }
  }

  /** Whenever the oscillator is defined it lies in [0, 1]. */
  lemma StochRsiInUnitInterval(close: seq<real>, i: nat)
    requires i < |close|
    ensures StochRsi(close)[i].Some? ==> 0.0 <= StochRsi(close)[i].value <= 1.0
  {
    StochRsiCell(close, i);
    if Window - 1 <= i {
      var n := Normalized(close);
      forall j | i + 1 - Window <= j <= i
        ensures n[j].Some? ==> 0.0 <= n[j].value <= 1.0
      {
        NormalizedAt(close, j);
      }
      var t := SumDefinedIn(n, i + 1 - Window, i + 1);
      if t.Some? {
        SumDefinedBounds(n, i + 1 - Window, i + 1);
        UnitQuotient(t.value, Window as real);
      }
    }
  }

  // ---------------------------------------------------------------------
  // No lookahead: bar i of a derived column reads only bars 0..i
  // ---------------------------------------------------------------------

  lemma {:induction false} SumsIgnoreLaterBars(volume: seq<real>, close: seq<real>, k: nat, n: nat)
    requires n <= k <= |volume| == |close|
    ensures SumTo(volume[..k], n) == SumTo(volume, n)
    ensures TurnoverTo(volume[..k], close[..k], n) == TurnoverTo(volume, close, n)
  {
    if n > 0 {
      SumsIgnoreLaterBars(volume, close, k, n - 1);
    }
  }

  /** Dropping the bars after bar i leaves EVWMA at bar i unchanged. */
  lemma EvwmaNoLookahead(close: seq<real>, volume: seq<real>, k: nat, i: nat)
    requires |close| == |volume| && i < k <= |close|
    ensures Evwma(close[..k], volume[..k])[i] == Evwma(close, volume)[i]
  {
    SumsIgnoreLaterBars(volume, close, k, i + 1);
  }

  lemma {:induction false} ArgMinInIgnoresLaterBars(s: seq<real>, k: nat, lo: nat, hi: nat)
    requires lo < hi <= k <= |s|
    ensures ArgMinIn(s[..k], lo, hi) == ArgMinIn(s, lo, hi)
  {
    if hi > lo + 1 {
      ArgMinInIgnoresLaterBars(s, k, lo, hi - 1);
    }
  }

  lemma {:induction false} ArgMaxInIgnoresLaterBars(s: seq<real>, k: nat, lo: nat, hi: nat)
    requires lo < hi <= k <= |s|
    ensures ArgMaxIn(s[..k], lo, hi) == ArgMaxIn(s, lo, hi)
  {
    if hi > lo + 1 {
      ArgMaxInIgnoresLaterBars(s, k, lo, hi - 1);
    }
  }

  lemma WindowIgnoresLaterBars(close: seq<real>, k: nat, i: nat)
    requires Window - 1 <= i < k <= |close|
    ensures MinIn(close[..k], i + 1 - Window, i + 1) == MinIn(close, i + 1 - Window, i + 1)
    ensures Spread(close[..k], i) == Spread(close, i)
  {
    ArgMinInIgnoresLaterBars(close, k, i + 1 - Window, i + 1);
    ArgMaxInIgnoresLaterBars(close, k, i + 1 - Window, i + 1);
  }

  lemma NormalizedNoLookahead(close: seq<real>, k: nat, i: nat)
    requires i < k <= |close|
    ensures Normalized(close[..k])[i] == Normalized(close)[i]
  {
    var prefix := close[..k];
    if Window - 1 <= i {
      var cell := Divide(Some(close[i] - MinIn(close, i + 1 - Window, i + 1)), Some(Spread(close, i)));
      assert Normalized(close)[i] == cell by {
        NormalizedCell(close, i);
      }
      assert Normalized(prefix)[i] == cell by {
        NormalizedCell(prefix, i);
        WindowIgnoresLaterBars(close, k, i);
        assert prefix[i] == close[i];
      }
    } else {
      NormalizedCell(close, i);
      NormalizedCell(prefix, i);
    }
  }

  lemma {:induction false} SumDefinedInAgree(s: seq<Option<real>>, t: seq<Option<real>>, lo: nat, hi: nat)
    requires lo <= hi <= |s| && hi <= |t|
    requires forall j :: lo <= j < hi ==> s[j] == t[j]
    ensures SumDefinedIn(s, lo, hi) == SumDefinedIn(t, lo, hi)
  {
    if lo < hi {
      SumDefinedInAgree(s, t, lo, hi - 1);
    }
  }

  /** Dropping the bars after bar i leaves the oscillator at bar i unchanged. */
  lemma StochRsiNoLookahead(close: seq<real>, k: nat, i: nat)
    requires i < k <= |close|
    ensures StochRsi(close[..k])[i] == StochRsi(close)[i]
  {
    StochRsiCell(close, i);
    StochRsiCell(close[..k], i);
    if Window - 1 <= i {
      forall j | i + 1 - Window <= j < i + 1
        ensures Normalized(close[..k])[j] == Normalized(close)[j]
      {
        NormalizedNoLookahead(close, k, j);
      }
      SumDefinedInAgree(Normalized(close[..k]), Normalized(close), i + 1 - Window, i + 1);
    }
  }

  // ---------------------------------------------------------------------
  // Classification of one bar
  // ---------------------------------------------------------------------

  /** The cells of one bar that the classification reads. */
  datatype Row = Row(close: real, macd: Option<real>, macdSignal: Option<real>,
                     evwma: Option<real>, stochRsi: Option<real>)

  /** IEEE `a > b`: false when either side is NaN. */
  predicate Greater(a: Option<real>, b: Option<real>)
  {
    a.Some? && b.Some? && a.value > b.value
  }

  /** The buy mask: MACD above its signal line, close above EVWMA, oscillator below 0.2. */
  predicate IsBuy(r: Row)
    ensures IsBuy(r) ==> !HasUndefined(r)
  {
    Greater(r.macd, r.macdSignal) && Greater(Some(r.close), r.evwma) && Greater(Some(Oversold), r.stochRsi)
  }

  /** The sell mask: MACD below its signal line, close below EVWMA, oscillator above 0.8. */
  predicate IsSell(r: Row)
    ensures IsSell(r) ==> !HasUndefined(r)
  {
    Greater(r.macdSignal, r.macd) && Greater(r.evwma, Some(r.close)) && Greater(r.stochRsi, Some(Overbought))
  }

  /** A bar with an undefined indicator cell. */
  predicate HasUndefined(r: Row)
  {
    r.macd.None? || r.macdSignal.None? || r.evwma.None? || r.stochRsi.None?
  }

  /** The two masks never both hold, so the later sell assignment never overwrites a buy. */
  lemma MasksExclusive(r: Row)
    ensures !(IsBuy(r) && IsSell(r))
  {
  }

  /**
   * An undefined indicator, or a tie in any of the comparisons (including the
   * oscillator sitting exactly on 0.2 or 0.8), puts a bar in neither mask.
   */
  lemma UndefinedOrTieHolds(r: Row)
    requires HasUndefined(r) || r.macd == r.macdSignal || r.evwma == Some(r.close)
          || r.stochRsi == Some(Oversold) || r.stochRsi == Some(Overbought)
    ensures !IsBuy(r) && !IsSell(r)
  {
  }

  /**
   * The Signal column: first 0 everywhere, then 1 on the buy mask, then -1 on
   * the sell mask, each a masked assignment over the whole column.
   */
  method GenerateSignals(rows: seq<Row>) returns (signal: seq<int>)
    ensures |signal| == |rows|
    ensures forall i :: 0 <= i < |rows| ==> signal[i] in {-1, 0, 1}
    ensures forall i :: 0 <= i < |rows| ==> (signal[i] == 1 <==> IsBuy(rows[i]))
    ensures forall i :: 0 <= i < |rows| ==> (signal[i] == -1 <==> IsSell(rows[i]))
    ensures forall i :: 0 <= i < |rows| && HasUndefined(rows[i]) ==> signal[i] == 0
  {
    var column := new int[|rows|](_ => 0);
    for i := 0 to |rows|
      invariant forall k :: 0 <= k < i ==> column[k] == (if IsBuy(rows[k]) then 1 else 0)
      invariant forall k :: i <= k < |rows| ==> column[k] == 0
    {
      if IsBuy(rows[i]) {
        column[i] := 1;
      }
    }
    for i := 0 to |rows|
      invariant forall k :: 0 <= k < i ==>
        column[k] == (if IsSell(rows[k]) then -1 else if IsBuy(rows[k]) then 1 else 0)
      invariant forall k :: i <= k < |rows| ==> column[k] == (if IsBuy(rows[k]) then 1 else 0)
    {
      if IsSell(rows[i]) {
        column[i] := -1;
      }
    }
    signal := column[..];
  }

  // ---------------------------------------------------------------------
  // The whole analysis
  // ---------------------------------------------------------------------

  /** The input columns plus the columns the analysis appends. */
  datatype Frame = Frame(close: seq<real>, volume: seq<real>,
                         macd: seq<Option<real>>, macdSignal: seq<Option<real>>,
                         evwma: seq<Option<real>>, vwap: seq<Option<real>>,
                         stochRsi: seq<Option<real>>, signal: seq<int>)

  /** Bar i of the columns the classification reads. */
  function RowOf(close: seq<real>, macd: seq<Option<real>>, macdSignal: seq<Option<real>>,
                 evwma: seq<Option<real>>, stochRsi: seq<Option<real>>, i: nat): Row
    requires i < |close| == |macd| == |macdSignal| == |evwma| == |stochRsi|
  {
    Row(close[i], macd[i], macdSignal[i], evwma[i], stochRsi[i])
  }

  /**
   * Appends EVWMA, VWAP, the oscillator and Signal to a price series whose
   * MACD columns are given. Each bar's signal depends only on that bar's row.
   */
  method Analyze(close: seq<real>, volume: seq<real>, macd: seq<Option<real>>, macdSignal: seq<Option<real>>)
    returns (frame: Frame)
    requires |volume| == |close| && |macd| == |close| && |macdSignal| == |close|
    ensures frame.close == close && frame.volume == volume
    ensures frame.macd == macd && frame.macdSignal == macdSignal
    ensures frame.evwma == Evwma(close, volume) && frame.vwap == frame.evwma
    ensures frame.stochRsi == StochRsi(close)
    ensures |frame.signal| == |close|
    ensures forall i :: 0 <= i < |close| ==>
      (frame.signal[i] == 1 <==> IsBuy(RowOf(close, macd, macdSignal, frame.evwma, frame.stochRsi, i)))
    ensures forall i :: 0 <= i < |close| ==>
      (frame.signal[i] == -1 <==> IsSell(RowOf(close, macd, macdSignal, frame.evwma, frame.stochRsi, i)))
    ensures forall i :: 0 <= i < |close| ==> frame.signal[i] in {-1, 0, 1}
    ensures forall i :: 0 <= i < |close| && i < 2 * Window - 2 ==> frame.signal[i] == 0
  {
    var evwma := Evwma(close, volume);
    var vwap := Vwap(close, volume);
    var stoch := StochRsi(close);
    var rows := seq(|close|, i requires 0 <= i < |close| => RowOf(close, macd, macdSignal, evwma, stoch, i));
    var signal := GenerateSignals(rows);
    forall i | 0 <= i < |close| && i < 2 * Window - 2
      ensures signal[i] == 0
    {
      StochRsiDefinedness(close, i);
    }
    frame := Frame(close, volume, macd, macdSignal, evwma, vwap, stoch, signal);
  }
}
