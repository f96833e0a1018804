/** Analyzers (mytrader/analyzers/drawdown.py, mytrader/analyzers/returns.py):
    each is created with the broker value at the end of strategy set-up, sees
    the broker value after every bar, and is stopped once after the run. */
module Analyzers {
  import opened Base

  // ---------------------------------------------------------------------
  // DrawDown
  // ---------------------------------------------------------------------

  /** `DrawDown`: the running peak, the bars since it, and the deepest
      drawdown seen (percent, money, and the bar count when it was seen). */
  datatype DrawDown = DrawDown(peak: real, len: nat, maxDrawdown: real, maxMoneydown: real, maxLen: nat)

  function NewDrawDown(v: real): (d: DrawDown)
    ensures d.peak == v && d.maxDrawdown == 0.0 && d.maxMoneydown == 0.0
  {
    DrawDown(v, 0, 0.0, 0.0, 0)
  }

  /** The drawdown of value v below peak, in percent. */
  function DrawdownPct(peak: real, v: real): real
    requires peak != 0.0
  {
    (peak - v) / peak * 100.0
  }

  /** `DrawDown.next()` given the broker value v: a new high moves the peak
      and resets the count; otherwise the count grows and a deeper drawdown
      is recorded. A zero peak is a float division by zero. */
  function DrawDownNext(d: DrawDown, v: real): (r: Result<DrawDown>)
    ensures v > d.peak ==> r == Ok(d.(peak := v, len := 0))
    ensures v <= d.peak && d.peak == 0.0 ==> r == Err(ZeroDivision)
    ensures r.Ok? ==> r.value.peak == MaxReal(d.peak, v)
    ensures r.Ok? ==> r.value.maxDrawdown >= d.maxDrawdown
    ensures r.Ok? && v <= d.peak ==> r.value.len == d.len + 1
    ensures r.Ok? && r.value.maxDrawdown != d.maxDrawdown ==>
              r.value.maxDrawdown == DrawdownPct(d.peak, v) && r.value.maxMoneydown == d.peak - v
              && r.value.maxLen == r.value.len
  {
    if v > d.peak then Ok(d.(peak := v, len := 0))
    else if d.peak == 0.0 then Err(ZeroDivision)
    else
      var dd := DrawdownPct(d.peak, v);
      var len := d.len + 1;
      if dd > d.maxDrawdown then Ok(d.(len := len, maxDrawdown := dd, maxMoneydown := d.peak - v, maxLen := len))
      else Ok(d.(len := len))
  }

  /** Feeding a series of broker values, one per bar. */
  function DrawDownRun(d: DrawDown, vs: seq<real>): Result<DrawDown>
    decreases |vs|
  {
    if |vs| == 0 then Ok(d)
    else
      match DrawDownNext(d, vs[0])
      case Err(e) => Err(e)
      case Ok(d') => DrawDownRun(d', vs[1..])
  }

  /** After a run the peak is the greatest of the starting value and every
      value seen, and the deepest drawdown only ever grew. */
  lemma {:induction false} DrawDownRunPeak(d: DrawDown, vs: seq<real>)
    requires DrawDownRun(d, vs).Ok?
    ensures |vs| > 0 ==> DrawDownRun(d, vs).value.peak == MaxReal(d.peak, SeqMax(vs))
    ensures |vs| == 0 ==> DrawDownRun(d, vs).value.peak == d.peak
    ensures DrawDownRun(d, vs).value.maxDrawdown >= d.maxDrawdown
    decreases |vs|
  {
    if |vs| > 0 {
      var d' := DrawDownNext(d, vs[0]).value;
      DrawDownRunPeak(d', vs[1..]);
      if |vs| > 1 {
        SeqMaxCons(vs);
      }
    }
  }

  /** The greatest of a sequence is the greater of its head and the greatest
      of its tail. */
  lemma SeqMaxCons(vs: seq<real>)
    requires |vs| > 1
    ensures SeqMax(vs) == MaxReal(vs[0], SeqMax(vs[1..]))
  {
    var m := SeqMax(vs);
    var t := SeqMax(vs[1..]);
    assert forall i :: 1 <= i < |vs| ==> vs[i] == vs[1..][i - 1];
    var j :| 0 <= j < |vs[1..]| && t == vs[1..][j];
    assert t == vs[j + 1];
  }

  /** A drawdown below a positive peak to a non-negative value is a
      percentage between 0 and 100. */
  lemma DrawdownPctRange(peak: real, v: real)
    requires peak > 0.0 && 0.0 <= v <= peak
    ensures 0.0 <= DrawdownPct(peak, v) <= 100.0
  {
    var q := (peak - v) / peak;
    assert q * peak == peak - v;
    assert 0.0 <= q <= 1.0;
  }

  // ---------------------------------------------------------------------
  // Returns
  // ---------------------------------------------------------------------

  /** `Returns`: the starting value, the last value seen and the total
      return, which is only filled in by `stop()`. */
  datatype Returns = Returns(start: real, end: real, rtot: real)

  function NewReturns(v: real): (r: Returns)
    ensures r.start == v && r.end == v && r.rtot == 0.0
  {
    Returns(v, v, 0.0)
  }

  /** `Returns.next()`: remember the latest broker value. */
  function ReturnsNext(r: Returns, v: real): (r': Returns)
    ensures r'.end == v && r'.start == r.start && r'.rtot == r.rtot
  {
    r.(end := v)
  }

  /** `Returns.stop()`: end / start - 1, left as it was for a zero start. */
  function ReturnsStop(r: Returns): (r': Returns)
    ensures r'.start == r.start && r'.end == r.end
    ensures r.start == 0.0 ==> r' == r
    ensures r.start != 0.0 ==> r.start * (1.0 + r'.rtot) == r.end
  {
    if r.start != 0.0 then
      var q := r.end / r.start;
      assert q * r.start == r.end;
      r.(rtot := q - 1.0)
    else r
  }

  /** Stopping twice is stopping once. */
  lemma ReturnsStopIdempotent(r: Returns)
    ensures ReturnsStop(ReturnsStop(r)) == ReturnsStop(r)
  {
  }

  /** `get_analysis()`: the one-entry dictionary {"rtot": rtot}. */
  function ReturnsAnalysis(r: Returns): (m: map<string, real>)
    ensures m.Keys == {"rtot"} && m["rtot"] == r.rtot
  {
    map["rtot" := r.rtot]
  }

  // ---------------------------------------------------------------------
  // Analyzers as the engine drives them
  // ---------------------------------------------------------------------

  /** The analyzer classes a run can be given. */
  datatype AnalyzerKind = DrawDownKind | ReturnsKind

  datatype Analyzer = DD(dd: DrawDown) | Ret(ret: Returns)

  function KindOf(a: Analyzer): AnalyzerKind {
    if a.DD? then DrawDownKind else ReturnsKind
  }

  /** `cls(strategy)`: a fresh analyzer seeded with the broker value v. */
  function NewAnalyzer(kind: AnalyzerKind, v: real): (a: Analyzer)
    ensures KindOf(a) == kind
  {
    match kind
    case DrawDownKind => DD(NewDrawDown(v))
    case ReturnsKind => Ret(NewReturns(v))
  }

  /** `a.next()` with the broker value v. */
  function AnalyzerNext(a: Analyzer, v: real): (r: Result<Analyzer>)
    ensures r.Ok? ==> KindOf(r.value) == KindOf(a)
    ensures a.Ret? ==> r == Ok(Ret(ReturnsNext(a.ret, v)))
    ensures a.DD? ==> (r.Ok? <==> DrawDownNext(a.dd, v).Ok?)
  {
    match a
    case DD(d) =>
      var d' :- DrawDownNext(d, v);
      Ok(DD(d'))
    case Ret(x) => Ok(Ret(ReturnsNext(x, v)))
  }

  /** `a.stop()`: DrawDown does nothing; Returns computes its total. */
  function AnalyzerStop(a: Analyzer): (r: Analyzer)
    ensures KindOf(r) == KindOf(a)
    ensures a.DD? ==> r == a
  {
    match a
    case DD(_) => a
    case Ret(x) => Ret(ReturnsStop(x))
  }
}
