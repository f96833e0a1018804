/** Indicators (mytrader/ind/sma.py, mytrader/ind/rsi.py): a simple moving
    average recomputed from the close line on every read, and Wilder's RSI
    built from two smoothed moving averages that are fed once per bar and
    memoised by bar index. */
module Indicators {
  import opened Base
  import opened Feeds

  /** A period of at least one: the one the averaging definitions are
      stated for, where the SMA window holds values and its mean exists. */
  type Period = p: int | p >= 1 witness 1

  /** The `period` an indicator was built with. Neither the strategy nor
      the indicators check it, so it may be an int of any sign, a float, or
      a value of another type; what it does shows only when the indicator
      is read. */
  datatype PeriodArg = IntPeriod(n: int) | FloatPeriod(x: real) | OtherPeriod

  /** The closes of rows lo..hi-1. */
  function Closes(bars: seq<Bar>, lo: int, hi: int): (w: seq<real>)
    requires 0 <= lo <= hi <= |bars|
    ensures |w| == hi - lo
    ensures forall t :: 0 <= t < |w| ==> w[t] == bars[lo + t].close
  {
    seq(hi - lo, t requires 0 <= t < hi - lo => bars[lo + t].close)
  }

  /** Python's `sum` over floats that may be NaN: NaN as soon as one term is. */
  function OptSum(vs: seq<Option<real>>): (r: Option<real>)
    ensures r.Some? <==> forall t :: 0 <= t < |vs| ==> vs[t].Some?
  {
    if |vs| == 0 then Some(0.0)
    else
      var head := OptSum(vs[..|vs| - 1]);
      assert forall t :: 0 <= t < |vs| - 1 ==> vs[..|vs| - 1][t] == vs[t];
      if head.None? || vs[|vs| - 1].None? then None else Some(head.value + vs[|vs| - 1].value)
  }

  /** When every term is a number, the NaN-aware sum is the plain sum. */
  lemma {:induction false} OptSumOfNumbers(vs: seq<Option<real>>, w: seq<real>)
    requires |vs| == |w| && forall t :: 0 <= t < |w| ==> vs[t] == Some(w[t])
    ensures OptSum(vs) == Some(Sum(w))
  {
    if |vs| > 0 {
      OptSumOfNumbers(vs[..|vs| - 1], w[..|w| - 1]);
    }
  }

  // ---------------------------------------------------------------------
  // SMA
  // ---------------------------------------------------------------------

  /** The reads `close[j - i]` for j in range(i - p + 1, i + 1), as the
      source writes them: the line adds the cursor back, so the row read is
      idx - p + 1 + t whatever the offset was. */
  function SmaReads(f: Feed, p: Period, off: int): (vs: seq<Option<real>>)
    ensures |vs| == p
    ensures forall t :: 0 <= t < p ==> vs[t] == Field(f, Close, t - p + 1)
  {
    var i := f.idx + off;
    seq(p, t requires 0 <= t < p => Field(f, Close, (i - p + 1 + t) - i))
  }

  /** `SMA.__getitem__(off)` as written: the warm-up test uses idx + off but
      the window always ends at the cursor row. */
  function SmaAsWritten(f: Feed, p: Period, off: int): (r: Option<real>)
    requires CursorOk(f)
    ensures r.None? <==> f.idx + off < p - 1 || f.idx - p + 1 < 0
    ensures r.Some? ==> r.value == Sum(Closes(f.bars, f.idx - p + 1, f.idx + 1)) / p as real
  {
    var i := f.idx + off;
    if i < p - 1 then None
    else
      SmaReadsSum(f, p, off);
      var total := OptSum(SmaReads(f, p, off));
      if total.None? then None else Some(total.value / p as real)
  }

  /** The reads sum to the window's closes when the window starts inside the
      table, and to NaN when it starts before the first row. */
  lemma SmaReadsSum(f: Feed, p: Period, off: int)
    requires CursorOk(f)
    ensures f.idx - p + 1 >= 0 ==> OptSum(SmaReads(f, p, off)) == Some(Sum(Closes(f.bars, f.idx - p + 1, f.idx + 1)))
    ensures f.idx - p + 1 < 0 ==> OptSum(SmaReads(f, p, off)).None?
  {
    var vs := SmaReads(f, p, off);
    if f.idx - p + 1 >= 0 {
      OptSumOfNumbers(vs, Closes(f.bars, f.idx - p + 1, f.idx + 1));
    } else {
      assert vs[0].None?;
    }
  }

  /** The trailing mean `sma[off]` denotes in Backtrader, which the source
      follows: the mean of the p closes ending at row idx + off, NaN before
      p rows exist or past the table. */
  function SmaAt(f: Feed, p: Period, off: int): (r: Option<real>)
    requires CursorOk(f)
    ensures r.None? <==> f.idx + off < p - 1 || f.idx + off >= |f.bars|
    ensures r.Some? ==> r.value == Sum(Closes(f.bars, f.idx + off - p + 1, f.idx + off + 1)) / p as real
  {
    var i := f.idx + off;
    if i < p - 1 || i >= |f.bars| then None
    else Some(Sum(Closes(f.bars, i - p + 1, i + 1)) / p as real)
  }

  /** At offset 0, the only offset ever read, the source's SMA is the
      trailing mean ending at the cursor. */
  lemma SmaOffsetZero(f: Feed, p: Period)
    requires CursorOk(f)
    ensures SmaAsWritten(f, p, 0) == SmaAt(f, p, 0)
  {
  }

  /** `SMA.__getitem__(0)` for whatever period the SMA was built with. With
      the cursor never below -1, a zero or negative int passes the warm-up
      test `i < period - 1` and leaves `range(i - period + 1, i + 1)`
      empty, so the mean is `sum([])` = 0 divided by the period: a
      ZeroDivision for 0, a zero otherwise. A float passes the warm-up test
      and reads NaN while i < period - 1, after which `range` rejects it;
      any other value fails already in `period - 1`. */
  function SmaRead(f: Feed, p: PeriodArg): (r: Result<Option<real>>)
    requires CursorOk(f)
    ensures p.IntPeriod? && p.n >= 1 ==> r == Ok(SmaAt(f, p.n, 0))
    ensures p.IntPeriod? && p.n < 0 ==> r == Ok(Some(0.0))
    ensures r.Err? <==> p == IntPeriod(0) || p.OtherPeriod? || (p.FloatPeriod? && f.idx as real >= p.x - 1.0)
    ensures r.Err? ==> r.fault == if p.IntPeriod? then ZeroDivision else TypeError
    ensures p.FloatPeriod? && r.Ok? ==> r.value.None?
  {
    match p
    case IntPeriod(n) =>
      if f.idx < n - 1 then Ok(None)
      else if n == 0 then Err(ZeroDivision)
      else if n < 0 then Ok(Some(0.0))
      else
        SmaOffsetZero(f, n);
        Ok(SmaAsWritten(f, n, 0))
    case FloatPeriod(x) =>
      if (f.idx as real) < x - 1.0 then Ok(None) else Err(TypeError)
    case OtherPeriod => Err(TypeError)
  }

  /** At other offsets the two part: `sma[-1]` on a two-row table with
      period 1 reads the current close, not the previous one. */
  lemma SmaPreviousBarReadsCurrent()
    ensures var f := Feed(None, [Bar(0, 1.0, 1.0, 1.0, 1.0), Bar(1, 2.0, 2.0, 2.0, 2.0)], 1);
            SmaAsWritten(f, 1, -1) == Some(2.0) && SmaAt(f, 1, -1) == Some(1.0)
  {
    var f := Feed(None, [Bar(0, 1.0, 1.0, 1.0, 1.0), Bar(1, 2.0, 2.0, 2.0, 2.0)], 1);
    assert Closes(f.bars, 1, 2) == [2.0];
    assert Closes(f.bars, 0, 1) == [1.0];
  }

  /** A defined SMA lies between the least and the greatest close of the
      window it averages. */
  lemma SmaWithinWindow(f: Feed, p: Period, off: int)
    requires CursorOk(f) && SmaAsWritten(f, p, off).Some?
    ensures var w := Closes(f.bars, f.idx - p + 1, f.idx + 1);
            SeqMin(w) <= SmaAsWritten(f, p, off).value <= SeqMax(w)
  {
    var w := Closes(f.bars, f.idx - p + 1, f.idx + 1);
    var m := SmaAsWritten(f, p, off).value;
    assert m == Sum(w) / |w| as real;
    MeanBounds(w);
  }

  /** A window of equal closes averages to that close. */
  lemma SmaOfFlatWindow(f: Feed, p: Period, off: int, c: real)
    requires CursorOk(f) && SmaAsWritten(f, p, off).Some?
    requires Constant(Closes(f.bars, f.idx - p + 1, f.idx + 1), c)
    ensures SmaAsWritten(f, p, off) == Some(c)
  {
    var w := Closes(f.bars, f.idx - p + 1, f.idx + 1);
    SumConstant(w, c);
    assert |w| == p;
    DivBounds(c, c, Sum(w), p as real);
  }

  lemma {:induction false} MeanBounds(w: seq<real>)
    requires |w| > 0
    ensures SeqMin(w) <= Sum(w) / |w| as real <= SeqMax(w)
  {
    var lo, hi := SeqMin(w), SeqMax(w);
    SumBounds(w, lo, hi);
    DivBounds(lo, hi, Sum(w), |w| as real);
  }

  /** Dividing n*lo <= s <= n*hi by a positive n. */
  lemma DivBounds(lo: real, hi: real, s: real, n: real)
    requires n > 0.0 && n * lo <= s <= n * hi
    ensures lo <= s / n <= hi
  {
    assert (s / n) * n == s;
  }

  // ---------------------------------------------------------------------
  // Wilder's smoothed moving average
  // ---------------------------------------------------------------------

  /** A period the smoothing can divide by: any number but zero. */
  type Divisor = x: real | x != 0.0 witness 1.0

  /** How many values `_SMMA` seeds with: it keeps appending while
      `len(seed) < period`, so the least n >= 1 with n >= period. */
  function SeedLen(x: real): (n: nat)
    ensures n >= 1 && n as real >= x
    ensures n > 1 ==> ((n - 1) as real) < x
  {
    if x <= 1.0 then 1
    else if x.Floor as real == x then x.Floor
    else x.Floor + 1
  }

  /** An integer period seeds with exactly that many values. */
  lemma SeedLenOfPeriod(p: Period)
    ensures SeedLen(p as real) == p
  {
  }

  /** One smoothing step: avg' = (avg × (period - 1) + v) / period. */
  function Smooth(avg: real, v: real, x: Divisor): real {
    (avg * (x - 1.0) + v) / x
  }

  /** The smoothed average of a series: the sum of the seed values divided
      by the period (their mean for an integer period), then one smoothing
      step for each further value. */
  function WilderAvg(vs: seq<real>, x: Divisor): real
    requires |vs| >= SeedLen(x)
  {
    if |vs| == SeedLen(x) then Sum(vs) / x
    else Smooth(WilderAvg(vs[..|vs| - 1], x), vs[|vs| - 1], x)
  }

  /** The smoothed average, NaN-free but None while the seed is not full. */
  function Wilder(vs: seq<real>, x: Divisor): Option<real> {
    if |vs| < SeedLen(x) then None else Some(WilderAvg(vs, x))
  }

  /** For an integer period, smoothing never leaves the range of the values
      smoothed. */
  lemma {:induction false} WilderBounds(vs: seq<real>, p: Period, lo: real, hi: real)
    requires |vs| >= p
    requires forall t :: 0 <= t < |vs| ==> lo <= vs[t] <= hi
    ensures SeedLen(p as real) == p
    ensures lo <= WilderAvg(vs, p as real) <= hi
  {
    SeedLenOfPeriod(p);
    var n := p as real;
    if |vs| == p {
      SumBounds(vs, lo, hi);
      DivBounds(lo, hi, Sum(vs), n);
    } else {
      WilderBounds(vs[..|vs| - 1], p, lo, hi);
      SmoothBounds(WilderAvg(vs[..|vs| - 1], n), vs[|vs| - 1], p, lo, hi);
    }
  }

  /** One smoothing step of two values in [lo, hi] stays in [lo, hi]. */
  lemma SmoothBounds(a: real, x: real, p: Period, lo: real, hi: real)
    requires lo <= a <= hi && lo <= x <= hi
    ensures lo <= Smooth(a, x, p as real) <= hi
  {
    var k := p as real - 1.0;
    MulMonotone(k, lo, a);
    MulMonotone(k, a, hi);
    assert a * k == k * a;
    assert k * lo + lo == p as real * lo;
    assert k * hi + hi == p as real * hi;
    DivBounds(lo, hi, a * k + x, p as real);
  }

  lemma MulMonotone(k: real, a: real, b: real)
    requires k >= 0.0 && a <= b
    ensures k * a <= k * b
  {
  }

  /** A series of zeros smooths to zero, whatever the period. */
  lemma {:induction false} WilderOfZeros(vs: seq<real>, x: Divisor)
    requires |vs| >= SeedLen(x) && Constant(vs, 0.0)
    ensures WilderAvg(vs, x) == 0.0
  {
    if |vs| == SeedLen(x) {
      SumConstant(vs, 0.0);
    } else {
      var init := vs[..|vs| - 1];
      assert forall t :: 0 <= t < |init| ==> init[t] == vs[t];
      WilderOfZeros(init, x);
    }
  }

  /** Periods for which smoothing non-negative values keeps one sign: from
      one up the weight period - 1 is not negative and the averages stay
      non-negative; below zero they stay non-positive. Strictly between 0
      and 1 the weight is negative and either sign can come out. */
  predicate Steady(x: real) {
    x >= 1.0 || x < 0.0
  }

  /** a has the sign that averages of non-negative values have for period x. */
  predicate SignedBy(a: real, x: real) {
    (x > 0.0 ==> a >= 0.0) && (x < 0.0 ==> a <= 0.0)
  }

  lemma DivSign(n: real, x: real)
    requires n >= 0.0 && x != 0.0
    ensures SignedBy(n / x, x)
  {
    assert (n / x) * x == n;
  }

  lemma SmoothSign(a: real, v: real, x: Divisor)
    requires Steady(x) && SignedBy(a, x) && v >= 0.0
    ensures SignedBy(Smooth(a, v, x), x)
  {
    if x >= 1.0 {
      MulMonotone(x - 1.0, 0.0, a);
    } else {
      MulMonotone(1.0 - x, a, 0.0);
      assert a * (x - 1.0) == -((1.0 - x) * a);
    }
    DivSign(a * (x - 1.0) + v, x);
  }

  /** For a steady period the smoothed average of non-negative values has
      the period's sign. */
  lemma {:induction false} WilderSign(vs: seq<real>, x: Divisor)
    requires |vs| >= SeedLen(x) && NonNegative(vs) && Steady(x)
    ensures SignedBy(WilderAvg(vs, x), x)
  {
    if |vs| == SeedLen(x) {
      SumBounds(vs, 0.0, SeqMaxOrZero(vs));
      DivSign(Sum(vs), x);
    } else {
      var init := vs[..|vs| - 1];
      assert forall t :: 0 <= t < |init| ==> init[t] == vs[t];
      WilderSign(init, x);
      SmoothSign(WilderAvg(init, x), vs[|vs| - 1], x);
    }
  }

  /** The number a period compares and divides as; None for a value that is
      not a number. */
  function PeriodNumber(p: PeriodArg): Option<real> {
    match p
    case IntPeriod(n) => Some(n as real)
    case FloatPeriod(x) => Some(x)
    case OtherPeriod => None
  }

  /** A period `_SMMA` can seed and smooth with: a number other than zero. */
  predicate Usable(p: PeriodArg) {
    PeriodNumber(p).Some? && PeriodNumber(p).value != 0.0
  }

  /** A number period whose averages keep their sign. */
  predicate SteadyPeriod(p: PeriodArg) {
    PeriodNumber(p).Some? && Steady(PeriodNumber(p).value)
  }

  /** `_SMMA`: the period, the seed list, the current average (None until
      seeded) and the last bar index processed. */
  datatype Smma = Smma(period: PeriodArg, seed: seq<real>, avg: Option<real>, lastI: Option<int>)

  function NewSmma(p: PeriodArg): (s: Smma)
    ensures s.period == p && s.avg.None? && s.lastI.None?
    ensures Usable(p) ==> Tracks(s, [])
  {
    Smma(p, [], None, None)
  }

  /** `_SMMA.update(value, i)`: a second call for the same bar returns the
      stored average untouched; otherwise the value is seeded or smoothed
      in. Seeding compares `len(seed) < period`, which a non-number
      rejects with TypeError, then divides the seed's sum by the period.
      The model rejects a zero period there with ZeroDivision on every new
      bar and does not keep the value the failing call appended. Python
      raises only while the seed's sum is a plain float; a float64 sum
      divided by zero is NaN or an infinity. */
  function SmmaUpdate(s: Smma, v: real, i: int): (r: Result<(Smma, Option<real>)>)
    requires s.avg.Some? ==> Usable(s.period)
    ensures s.lastI == Some(i) ==> r == Ok((s, s.avg))
    ensures r.Err? <==> s.lastI != Some(i) && !Usable(s.period)
    ensures r.Err? ==> r.fault == if s.period.OtherPeriod? then TypeError else ZeroDivision
    ensures r.Ok? ==> r.value.0.period == s.period && r.value.0.lastI == Some(i) && r.value.1 == r.value.0.avg
    ensures r.Ok? && s.avg.Some? ==> r.value.1.Some?
  {
    if s.lastI == Some(i) then Ok((s, s.avg))
    else if s.avg.Some? then
      var a := Smooth(s.avg.value, v, PeriodNumber(s.period).value);
      Ok((s.(avg := Some(a), lastI := Some(i)), Some(a)))
    else
      var seed := s.seed + [v];
      match PeriodNumber(s.period)
      case None => Err(TypeError)
      case Some(x) =>
        if (|seed| as real) < x then Ok((s.(seed := seed, lastI := Some(i)), None))
        else if x == 0.0 then Err(ZeroDivision)
        else
          var a := Sum(seed) / x;
          Ok((s.(seed := seed, avg := Some(a), lastI := Some(i)), Some(a)))
  }

  /** The state holds exactly what the series vs fed so far determines: its
      first values, up to the seed length, and its smoothed average. */
  ghost predicate Tracks(s: Smma, vs: seq<real>) {
    && Usable(s.period)
    && var x := PeriodNumber(s.period).value;
       && s.seed == vs[..if |vs| < SeedLen(x) then |vs| else SeedLen(x)]
       && s.avg == Wilder(vs, x)
  }

  /** Feeding a new bar extends the tracked series by one value and returns
      its smoothed average; repeating a bar changes nothing. */
  lemma {:induction false} SmmaUpdateTracks(s: Smma, vs: seq<real>, v: real, i: int)
    requires Tracks(s, vs)
    ensures SmmaUpdate(s, v, i).Ok?
    ensures s.lastI != Some(i) ==>
              && Tracks(SmmaUpdate(s, v, i).value.0, vs + [v])
              && SmmaUpdate(s, v, i).value.1 == Wilder(vs + [v], PeriodNumber(s.period).value)
    ensures s.lastI == Some(i) ==>
              && Tracks(SmmaUpdate(s, v, i).value.0, vs)
              && SmmaUpdate(s, v, i).value.1 == Wilder(vs, PeriodNumber(s.period).value)
  {
    var x: Divisor := PeriodNumber(s.period).value;
    var n := SeedLen(x);
    var ws := vs + [v];
    var r := SmmaUpdate(s, v, i).value;
    if s.lastI == Some(i) {
      return;
    }
    assert ws[..|ws| - 1] == vs;
    if s.avg.None? {
      assert |vs| < n;
      assert s.seed == vs;
      assert r.0.seed == ws;
      if |ws| < n {
        assert (|ws| as real) < x;
        assert r.0.avg == None;
      } else {
        assert ws[..n] == ws;
        assert r.0.avg == Some(Sum(ws) / x);
        assert WilderAvg(ws, x) == Sum(ws) / x;
      }
    } else {
      assert |vs| >= n;
      assert ws[..n] == vs[..n];
      SmoothingStep(s, vs, v, i);
    }
  }

  lemma SmoothingStep(s: Smma, vs: seq<real>, v: real, i: int)
    requires Tracks(s, vs) && s.avg.Some? && s.lastI != Some(i)
    ensures |vs| >= SeedLen(PeriodNumber(s.period).value)
    ensures SmmaUpdate(s, v, i).Ok?
    ensures SmmaUpdate(s, v, i).value.0.avg == Wilder(vs + [v], PeriodNumber(s.period).value)
  {
    var x: Divisor := PeriodNumber(s.period).value;
    var ws := vs + [v];
    assert ws[..|ws| - 1] == vs;
    assert |vs| >= SeedLen(x);
    assert |ws| > SeedLen(x);
    assert WilderAvg(ws, x) == Smooth(WilderAvg(vs, x), v, x);
  }

  // ---------------------------------------------------------------------
  // RSI
  // ---------------------------------------------------------------------

  /** The up-move and down-move between two closes: `max(curr - prev, 0.0)`
      and `max(prev - curr, 0.0)`. */
  function UpMove(prev: real, curr: real): real {
    MaxReal(curr - prev, 0.0)
  }

  function DownMove(prev: real, curr: real): real {
    MaxReal(prev - curr, 0.0)
  }

  /** The two moves are non-negative, at most one is non-zero, and together
      they recover the change in close. */
  lemma MovesSplitChange(prev: real, curr: real)
    ensures UpMove(prev, curr) >= 0.0 && DownMove(prev, curr) >= 0.0
    ensures UpMove(prev, curr) == 0.0 || DownMove(prev, curr) == 0.0
    ensures UpMove(prev, curr) - DownMove(prev, curr) == curr - prev
  {
  }

  /** Both non-negative or both non-positive. */
  predicate SameSign(a: real, b: real) {
    (a >= 0.0 && b >= 0.0) || (a <= 0.0 && b <= 0.0)
  }

  /** The RSI of two smoothed averages: 100 when the down average is zero,
      else 100 - 100 / (1 + up / down). When the up average is the down
      average negated, the model raises ZeroDivision where Python's float64
      division reads minus infinity. Averages of one sign give a value in
      [0, 100]. */
  function RsiOf(avgUp: real, avgDown: real): (r: Result<real>)
    ensures r.Err? <==> avgDown != 0.0 && avgUp == -avgDown
    ensures r.Err? ==> r.fault == ZeroDivision
    ensures SameSign(avgUp, avgDown) ==> r.Ok? && 0.0 <= r.value <= 100.0
    ensures r.Ok? ==> (r.value == 100.0 <==> avgDown == 0.0)
    ensures r.Ok? ==> (r.value == 0.0 <==> avgUp == 0.0 && avgDown != 0.0)
  {
    if avgDown == 0.0 then Ok(100.0)
    else
      var rs := avgUp / avgDown;
      RsiRatio(avgUp, avgDown);
      if 1.0 + rs == 0.0 then Err(ZeroDivision)
      else
        RsiQuotient(rs);
        Ok(100.0 - 100.0 / (1.0 + rs))
  }

  /** The ratio of the averages: 1 + up / down vanishes exactly when up is
      -down, is zero exactly when up is, and is not negative for one sign. */
  lemma RsiRatio(up: real, down: real)
    requires down != 0.0
    ensures 1.0 + up / down == 0.0 <==> up == -down
    ensures up / down == 0.0 <==> up == 0.0
    ensures SameSign(up, down) ==> up / down >= 0.0
  {
    var rs := up / down;
    assert rs * down == up;
    assert (1.0 + rs) * down == down + up;
    if up == -down {
      ZeroProduct(1.0 + rs, down);
    }
  }

  lemma ZeroProduct(a: real, b: real)
    requires b != 0.0 && a * b == 0.0
    ensures a == 0.0
  {
    assert (a * b) / b == a;
  }

  lemma RsiQuotient(rs: real)
    requires 1.0 + rs != 0.0
    ensures 100.0 / (1.0 + rs) != 0.0
    ensures 100.0 / (1.0 + rs) == 100.0 <==> rs == 0.0
    ensures rs >= 0.0 ==> 0.0 < 100.0 / (1.0 + rs) <= 100.0
  {
    var q := 100.0 / (1.0 + rs);
    assert q * (1.0 + rs) == 100.0;
    if rs > 0.0 {
      assert q * rs > 0.0;
    }
  }

  /** `RSI(data, period, lookback)`: the feed it reads, the period as given,
      the two smoothed averages and the value memoised for the last bar
      index. */
  datatype Rsi = Rsi(feed: nat, period: PeriodArg, lookback: nat, up: Smma, down: Smma,
                     lastI: Option<int>, lastRsi: Option<real>)

  function NewRsi(feed: nat, period: PeriodArg, lookback: nat): (r: Rsi)
    ensures RsiValid(r)
    ensures Usable(period) ==> RsiTracks(r, [], [])
  {
    Rsi(feed, period, lookback, NewSmma(period), NewSmma(period), None, None)
  }

  /** The RSI the two averages give, NaN while either is still seeding. */
  function RsiValue(up: Smma, down: Smma): Option<real>
    requires up.avg.Some? && down.avg.Some? ==> RsiOf(up.avg.value, down.avg.value).Ok?
  {
    if up.avg.None? || down.avg.None? then None else Some(RsiOf(up.avg.value, down.avg.value).value)
  }

  predicate NonNegative(vs: seq<real>) {
    forall t :: 0 <= t < |vs| ==> vs[t] >= 0.0
  }

  lemma NonNegativeSnoc(vs: seq<real>, v: real)
    requires NonNegative(vs) && v >= 0.0
    ensures NonNegative(vs + [v])
  {
    assert forall t :: 0 <= t < |vs| ==> (vs + [v])[t] == vs[t];
  }

  /** An average's invariant: non-negative seed values, an average only
      for a usable period, and for a steady one the sign that averages of
      non-negative values have. */
  predicate SmmaOk(s: Smma) {
    && NonNegative(s.seed)
    && (s.avg.Some? ==> Usable(s.period))
    && (s.avg.Some? && SteadyPeriod(s.period) ==> SignedBy(s.avg.value, PeriodNumber(s.period).value))
  }

  /** The object invariant: both averages use the RSI's period, were last
      fed on the RSI's last bar and keep their own invariant, two averages
      both present combine without a fault, and the memoised value is the
      one they give. */
  predicate RsiValid(r: Rsi) {
    && r.up.period == r.period && r.down.period == r.period
    && r.up.lastI == r.lastI && r.down.lastI == r.lastI
    && SmmaOk(r.up) && SmmaOk(r.down)
    && (r.up.avg.Some? && r.down.avg.Some? ==> RsiOf(r.up.avg.value, r.down.avg.value).Ok?)
    && r.lastRsi == RsiValue(r.up, r.down)
  }

  /** Feeding a non-negative value keeps an average's invariant. */
  lemma SmmaUpdateOk(s: Smma, v: real, i: int)
    requires SmmaOk(s) && v >= 0.0 && SmmaUpdate(s, v, i).Ok?
    ensures SmmaOk(SmmaUpdate(s, v, i).value.0)
  {
    var r := SmmaUpdate(s, v, i).value.0;
    if s.lastI != Some(i) && s.avg.None? {
      assert r.seed == s.seed + [v];
      NonNegativeSnoc(s.seed, v);
      if r.avg.Some? && SteadyPeriod(s.period) {
        SumBounds(r.seed, 0.0, SeqMaxOrZero(r.seed));
        DivSign(Sum(r.seed), PeriodNumber(s.period).value);
      }
    } else if s.lastI != Some(i) && SteadyPeriod(s.period) {
      SmoothSign(s.avg.value, v, PeriodNumber(s.period).value);
    }
  }

  /** The greatest element, or 0 for an empty sequence. */
  function SeqMaxOrZero(vs: seq<real>): (m: real)
    ensures forall t :: 0 <= t < |vs| ==> vs[t] <= m
  {
    if |vs| == 0 then 0.0 else SeqMax(vs)
  }

  /** `RSI.__getitem__(0)`: NaN before `lookback` bars exist; the memoised
      value on a repeated bar; otherwise the up average and then the down
      average are fed this bar's moves, and the RSI is recomputed and
      memoised. A period the averages cannot use fails in the first update;
      a steady period never fails and reads within [0, 100]. */
  function RsiRead(r: Rsi, f: Feed): (res: Result<(Rsi, Option<real>)>)
    requires RsiValid(r) && CursorOk(f)
    ensures res.Ok? ==> RsiValid(res.value.0)
    ensures res.Ok? ==> res.value.0.feed == r.feed && res.value.0.period == r.period && res.value.0.lookback == r.lookback
    ensures f.idx < r.lookback ==> res == Ok((r, None))
    ensures r.lastI == Some(f.idx) ==> res.Ok? && res.value.0 == r
    ensures res.Ok? && f.idx >= r.lookback ==> res.value.0.lastI == Some(f.idx) && res.value.1 == res.value.0.lastRsi
    ensures f.idx >= r.lookback && r.lastI != Some(f.idx) && !Usable(r.period) ==>
              res == Err(if r.period.OtherPeriod? then TypeError else ZeroDivision)
    ensures SteadyPeriod(r.period) ==> res.Ok?
    ensures res.Ok? && SteadyPeriod(r.period) && res.value.1.Some? ==> 0.0 <= res.value.1.value <= 100.0
  {
    var i := f.idx;
    if i < r.lookback then Ok((r, None))
    else if r.lastI == Some(i) then Ok((r, r.lastRsi))
    else
      var prev := Field(f, Close, -(r.lookback as int)).value;
      var curr := Field(f, Close, 0).value;
      var up := UpMove(prev, curr);
      var down := DownMove(prev, curr);
      MovesSplitChange(prev, curr);
      var ru :- SmmaUpdate(r.up, up, i);
      var rd := SmmaUpdate(r.down, down, i).value;
      SmmaUpdateOk(r.up, up, i);
      SmmaUpdateOk(r.down, down, i);
      RsiCommit(r, i, ru, rd)
  }

  /** The end of a read on a new bar i, given both averages' updates: the
      RSI they give is memoised, NaN while either is still seeding. */
  function RsiCommit(r: Rsi, i: int, ru: (Smma, Option<real>), rd: (Smma, Option<real>)): (res: Result<(Rsi, Option<real>)>)
    requires ru.0.period == r.period && rd.0.period == r.period
    requires ru.0.lastI == Some(i) && rd.0.lastI == Some(i)
    requires SmmaOk(ru.0) && SmmaOk(rd.0) && ru.1 == ru.0.avg && rd.1 == rd.0.avg
    ensures res.Ok? ==> RsiValid(res.value.0)
    ensures res.Ok? ==> res.value.0 == r.(up := ru.0, down := rd.0, lastI := Some(i), lastRsi := res.value.1)
    ensures res.Err? <==> ru.1.Some? && rd.1.Some? && RsiOf(ru.1.value, rd.1.value).Err?
    ensures SteadyPeriod(r.period) ==> res.Ok?
    ensures res.Ok? && SteadyPeriod(r.period) && res.value.1.Some? ==> 0.0 <= res.value.1.value <= 100.0
  {
    if ru.1.None? || rd.1.None? then Ok((r.(up := ru.0, down := rd.0, lastI := Some(i), lastRsi := None), None))
    else
      var rsi :- RsiOf(ru.1.value, rd.1.value);
      Ok((r.(up := ru.0, down := rd.0, lastI := Some(i), lastRsi := Some(rsi)), Some(rsi)))
  }

  /** Reading twice on the same bar gives the same value and leaves the
      state as the first read left it. */
  lemma RsiReadTwice(r: Rsi, f: Feed)
    requires RsiValid(r) && CursorOk(f)
    ensures RsiRead(r, f).Ok? ==> RsiRead(RsiRead(r, f).value.0, f) == RsiRead(r, f)
  {
  }

  /** The RSI state holds what the up-moves and down-moves fed so far
      determine. */
  ghost predicate RsiTracks(r: Rsi, ups: seq<real>, downs: seq<real>) {
    Tracks(r.up, ups) && Tracks(r.down, downs) && |ups| == |downs|
    && NonNegative(ups) && NonNegative(downs)
  }

  /** The reference RSI of two move series: NaN until the seed is full, then
      the RSI of their Wilder averages, or the fault combining them raises. */
  function WilderRsi(ups: seq<real>, downs: seq<real>, x: Divisor): (r: Result<Option<real>>)
    requires |ups| == |downs|
    ensures r == Ok(None) <==> |ups| < SeedLen(x)
    ensures r.Err? ==> r.fault == ZeroDivision
  {
    if |ups| < SeedLen(x) then Ok(None)
    else
      var v :- RsiOf(WilderAvg(ups, x), WilderAvg(downs, x));
      Ok(Some(v))
  }

  /** For a steady period the reference RSI of non-negative moves never
      fails and lies in [0, 100]. */
  lemma WilderRsiSteady(ups: seq<real>, downs: seq<real>, x: Divisor)
    requires |ups| == |downs| && NonNegative(ups) && NonNegative(downs) && Steady(x)
    ensures WilderRsi(ups, downs, x).Ok?
    ensures WilderRsi(ups, downs, x).value.Some? ==> 0.0 <= WilderRsi(ups, downs, x).value.value <= 100.0
  {
    if |ups| >= SeedLen(x) {
      WilderSign(ups, x);
      WilderSign(downs, x);
    }
  }

  /** A read on a new bar appends this bar's moves to the tracked series and
      returns the reference RSI of the extended series, or fails exactly
      when the reference does. */
  lemma RsiReadTracks(r: Rsi, f: Feed, ups: seq<real>, downs: seq<real>)
    requires RsiValid(r) && CursorOk(f) && RsiTracks(r, ups, downs)
    requires f.idx >= r.lookback && r.lastI != Some(f.idx)
    ensures Usable(r.period)
    ensures var prev := f.bars[f.idx - r.lookback].close;
            var curr := f.bars[f.idx].close;
            var ups' := ups + [UpMove(prev, curr)];
            var downs' := downs + [DownMove(prev, curr)];
            var res := RsiRead(r, f);
            var ref := WilderRsi(ups', downs', PeriodNumber(r.period).value);
            && (res.Ok? <==> ref.Ok?)
            && (res.Ok? ==> RsiTracks(res.value.0, ups', downs') && res.value.1 == ref.value)
  {
    var prev := f.bars[f.idx - r.lookback].close;
    var curr := f.bars[f.idx].close;
    var u, d := UpMove(prev, curr), DownMove(prev, curr);
    var x: Divisor := PeriodNumber(r.period).value;
    MovesSplitChange(prev, curr);
    SmmaUpdateTracks(r.up, ups, u, f.idx);
    SmmaUpdateTracks(r.down, downs, d, f.idx);
    RsiReadShape(r, f);
    var ups', downs' := ups + [u], downs + [d];
    NonNegativeSnoc(ups, u);
    NonNegativeSnoc(downs, d);
    CommitMatchesWilder(r, f.idx, SmmaUpdate(r.up, u, f.idx).value, SmmaUpdate(r.down, d, f.idx).value, ups', downs', x);
  }

  /** A read on a new bar is the commit of the two averages' updates. */
  lemma RsiReadShape(r: Rsi, f: Feed)
    requires RsiValid(r) && CursorOk(f) && Usable(r.period)
    requires f.idx >= r.lookback && r.lastI != Some(f.idx)
    ensures var prev := f.bars[f.idx - r.lookback].close;
            var curr := f.bars[f.idx].close;
            var ru := SmmaUpdate(r.up, UpMove(prev, curr), f.idx);
            var rd := SmmaUpdate(r.down, DownMove(prev, curr), f.idx);
            && ru.Ok? && rd.Ok?
            && SmmaOk(ru.value.0) && SmmaOk(rd.value.0)
            && RsiRead(r, f) == RsiCommit(r, f.idx, ru.value, rd.value)
  {
    var prev := f.bars[f.idx - r.lookback].close;
    var curr := f.bars[f.idx].close;
    assert Field(f, Close, -(r.lookback as int)).value == prev;
    assert Field(f, Close, 0).value == curr;
    MovesSplitChange(prev, curr);
    SmmaUpdateOk(r.up, UpMove(prev, curr), f.idx);
    SmmaUpdateOk(r.down, DownMove(prev, curr), f.idx);
  }

  /** Committing the averages of two series of one length gives the
      reference RSI of those series, and fails exactly when it does. */
  lemma CommitMatchesWilder(r: Rsi, i: int, ru: (Smma, Option<real>), rd: (Smma, Option<real>),
                            ups: seq<real>, downs: seq<real>, x: Divisor)
    requires ru.0.period == r.period && rd.0.period == r.period
    requires ru.0.lastI == Some(i) && rd.0.lastI == Some(i)
    requires SmmaOk(ru.0) && SmmaOk(rd.0) && ru.1 == ru.0.avg && rd.1 == rd.0.avg
    requires |ups| == |downs| && ru.1 == Wilder(ups, x) && rd.1 == Wilder(downs, x)
    ensures RsiCommit(r, i, ru, rd).Ok? <==> WilderRsi(ups, downs, x).Ok?
    ensures RsiCommit(r, i, ru, rd).Ok? ==> RsiCommit(r, i, ru, rd).value.1 == WilderRsi(ups, downs, x).value
  {
  }

  /** Closes that never fall give an RSI of 100 once the seed is full. */
  lemma RsiOfRisingCloses(ups: seq<real>, downs: seq<real>, x: Divisor)
    requires |ups| == |downs| >= SeedLen(x) && NonNegative(ups) && Constant(downs, 0.0)
    ensures WilderRsi(ups, downs, x) == Ok(Some(100.0))
  {
    WilderOfZeros(downs, x);
  }

  /** Closes that never rise, with some fall in the smoothed window, give 0. */
  lemma RsiOfFallingCloses(ups: seq<real>, downs: seq<real>, x: Divisor)
    requires |ups| == |downs| >= SeedLen(x) && Constant(ups, 0.0) && NonNegative(downs)
    requires WilderAvg(downs, x) != 0.0
    ensures WilderRsi(ups, downs, x) == Ok(Some(0.0))
  {
    WilderOfZeros(ups, x);
  }

  // ---------------------------------------------------------------------
  // The per-strategy indicator list
  // ---------------------------------------------------------------------

  /** An indicator registered with a strategy at construction. */
  datatype Indicator = SmaInd(feed: nat, period: PeriodArg) | RsiInd(rsi: Rsi)

  function FeedOf(ind: Indicator): nat {
    match ind
    case SmaInd(k, _) => k
    case RsiInd(r) => r.feed
  }

  /** The indicator reads a feed among n and, for an RSI, keeps its invariant. */
  predicate IndicatorOk(ind: Indicator, n: nat) {
    FeedOf(ind) < n && (ind.RsiInd? ==> RsiValid(ind.rsi))
  }

  /** `ind[0]`: the indicator's value on the current bar and its new state,
      or the exception the read raises. An SMA has no state; an RSI
      memoises. */
  function ReadIndicator(ind: Indicator, feeds: seq<Feed>): (r: Result<(Indicator, Option<real>)>)
    requires IndicatorOk(ind, |feeds|) && AllCursorsOk(feeds)
    ensures r.Ok? ==> IndicatorOk(r.value.0, |feeds|) && FeedOf(r.value.0) == FeedOf(ind)
    ensures ind.SmaInd? ==> (r.Ok? <==> SmaRead(feeds[ind.feed], ind.period).Ok?)
    ensures ind.SmaInd? && r.Ok? ==> r.value == (ind, SmaRead(feeds[ind.feed], ind.period).value)
    ensures ind.RsiInd? ==> (r.Ok? <==> RsiRead(ind.rsi, feeds[ind.rsi.feed]).Ok?)
    ensures ind.RsiInd? && r.Ok? ==> r.value.0.RsiInd? && r.value.0.rsi.period == ind.rsi.period
  {
    match ind
    case SmaInd(k, p) =>
      var v :- SmaRead(feeds[k], p);
      Ok((ind, v))
    case RsiInd(x) =>
      var read :- RsiRead(x, feeds[x.feed]);
      Ok((RsiInd(read.0), read.1))
  }

  /** An indicator whose period every read accepts: an SMA over a non-zero
      integer, an RSI over a steady period. */
  predicate SoundPeriod(ind: Indicator) {
    match ind
    case SmaInd(_, p) => p.IntPeriod? && p.n != 0
    case RsiInd(r) => SteadyPeriod(r.period)
  }

  /** Such an indicator never raises when read. */
  lemma SoundReadsSucceed(ind: Indicator, feeds: seq<Feed>)
    requires IndicatorOk(ind, |feeds|) && AllCursorsOk(feeds) && SoundPeriod(ind)
    ensures ReadIndicator(ind, feeds).Ok?
  {
  }

  /** One indicator after the evaluation pass's read: its new state, or the
      old one when the read raised. */
  function Evaluated(ind: Indicator, feeds: seq<Feed>): (e: Indicator)
    requires IndicatorOk(ind, |feeds|) && AllCursorsOk(feeds)
    ensures IndicatorOk(e, |feeds|) && FeedOf(e) == FeedOf(ind)
  {
    var r := ReadIndicator(ind, feeds);
    if r.Ok? then r.value.0 else ind
  }

  /** `_evaluate_indicators()`: read every registered indicator at [0] once,
      in registration order, discarding the values. `except Exception:
      pass` swallows a read that raises, and that indicator keeps its
      state. */
  function EvaluateIndicators(inds: seq<Indicator>, feeds: seq<Feed>): (r: seq<Indicator>)
    requires AllCursorsOk(feeds)
    requires forall k :: 0 <= k < |inds| ==> IndicatorOk(inds[k], |feeds|)
    ensures |r| == |inds|
    ensures forall k :: 0 <= k < |r| ==> r[k] == Evaluated(inds[k], feeds)
    ensures forall k :: 0 <= k < |r| ==> IndicatorOk(r[k], |feeds|)
  {
    seq(|inds|, k requires 0 <= k < |inds| => Evaluated(inds[k], feeds))
  }

  /** After the evaluation pass, a strategy's read of any indicator on the
      same bar returns what the pass's read returned, value or exception,
      and changes nothing. */
  lemma ReadAfterEvaluate(inds: seq<Indicator>, feeds: seq<Feed>, k: nat)
    requires AllCursorsOk(feeds)
    requires forall j :: 0 <= j < |inds| ==> IndicatorOk(inds[j], |feeds|)
    requires k < |inds|
    ensures var e := EvaluateIndicators(inds, feeds);
            var first := ReadIndicator(inds[k], feeds);
            ReadIndicator(e[k], feeds) == if first.Ok? then Ok((e[k], first.value.1)) else first
  {
    if inds[k].RsiInd? {
      RsiReadTwice(inds[k].rsi, feeds[inds[k].rsi.feed]);
    }
  }
}
