/** The FTLT regime strategy (mytrader/strategies/mt_tqqq_ftlt_coc.py): a
    decision tree over SPY's trend and five RSIs picks one of eight regimes,
    each regime names one ETF, and a change of regime rotates the whole
    portfolio into that ETF on the same bar's close. */
module Ftlt {
  import opened Base
  import opened Feeds
  import opened Orders
  import opened Brokerage
  import opened Indicators
  import opened Strategy
  import opened BaseStrategy

  // ---------------------------------------------------------------------
  // The decision tree
  // ---------------------------------------------------------------------

  datatype State =
    | BullTqqq | BullHedgeUvxy | BearOversoldTech | BearOversoldSpxl
    | BearVolSpike | BearTqqqTrend | BearDefensiveSqqq | BearDefensiveBsv

  /** The values `resolve_state` compares, each possibly NaN. */
  datatype Readings = Readings(
    spyClose: Option<real>, spyMa200: Option<real>, tqqqClose: Option<real>, tqqqMa20: Option<real>,
    rsiSpy: Option<real>, rsiTqqq: Option<real>, rsiSpxl: Option<real>, rsiUvxy: Option<real>,
    rsiSqqq: Option<real>, rsiBsv: Option<real>)

  /** `resolve_state()`: the first branch whose test holds, in source order;
      every comparison with NaN is false. */
  function Resolve(x: Readings): State {
    if Gt(x.spyClose, x.spyMa200) then
      if Gt(x.rsiTqqq, Some(79.0)) || Gt(x.rsiSpxl, Some(80.0)) then BullHedgeUvxy else BullTqqq
    else if Lt(x.rsiTqqq, Some(31.0)) then BearOversoldTech
    else if Lt(x.rsiSpy, Some(30.0)) then BearOversoldSpxl
    else if Gt(x.rsiUvxy, Some(84.0)) then
      if Gt(x.tqqqClose, x.tqqqMa20) then BearTqqqTrend
      else if Gt(x.rsiSqqq, x.rsiBsv) then BearDefensiveSqqq
      else BearDefensiveBsv
    else if Gt(x.rsiUvxy, Some(74.0)) then BearVolSpike
    else if Gt(x.tqqqClose, x.tqqqMa20) then BearTqqqTrend
    else if Gt(x.rsiSqqq, x.rsiBsv) then BearDefensiveSqqq
    else BearDefensiveBsv
  }

  /** Each regime's entry condition written flat, as a conjunction over the
      readings, independently of the order of the tests. */
  predicate Guard(s: State, x: Readings) {
    var bull := Gt(x.spyClose, x.spyMa200);
    var hot := Gt(x.rsiTqqq, Some(79.0)) || Gt(x.rsiSpxl, Some(80.0));
    var calm := !bull && !Lt(x.rsiTqqq, Some(31.0)) && !Lt(x.rsiSpy, Some(30.0));
    var spike := Gt(x.rsiUvxy, Some(74.0)) && !Gt(x.rsiUvxy, Some(84.0));
    var trend := Gt(x.tqqqClose, x.tqqqMa20);
    match s
    case BullHedgeUvxy => bull && hot
    case BullTqqq => bull && !hot
    case BearOversoldTech => !bull && Lt(x.rsiTqqq, Some(31.0))
    case BearOversoldSpxl => !bull && !Lt(x.rsiTqqq, Some(31.0)) && Lt(x.rsiSpy, Some(30.0))
    case BearVolSpike => calm && spike
    case BearTqqqTrend => calm && !spike && trend
    case BearDefensiveSqqq => calm && !spike && !trend && Gt(x.rsiSqqq, x.rsiBsv)
    case BearDefensiveBsv => calm && !spike && !trend && !Gt(x.rsiSqqq, x.rsiBsv)
  }

  /** The tree picks a regime exactly when that regime's flat condition
      holds; in particular the conditions are exclusive and cover every
      reading. */
  lemma ResolveMatchesGuards(x: Readings, s: State)
    ensures Resolve(x) == s <==> Guard(s, x)
  {
  }

  /** In the bull branch the hedge is taken iff either leveraged RSI runs hot. */
  lemma BullBranch(x: Readings)
    requires Gt(x.spyClose, x.spyMa200)
    ensures Resolve(x) == BullHedgeUvxy <==> Gt(x.rsiTqqq, Some(79.0)) || Gt(x.rsiSpxl, Some(80.0))
    ensures Resolve(x) in {BullHedgeUvxy, BullTqqq}
  {
    ResolveMatchesGuards(x, BullHedgeUvxy);
    ResolveMatchesGuards(x, BullTqqq);
  }

  /** Oversold TQQQ outranks oversold SPY, and UVXY above 84 never counts as
      a volatility spike. */
  lemma BearPriorities(x: Readings)
    ensures !Gt(x.spyClose, x.spyMa200) && Lt(x.rsiTqqq, Some(31.0)) ==> Resolve(x) == BearOversoldTech
    ensures Resolve(x) == BearVolSpike ==> Gt(x.rsiUvxy, Some(74.0)) && !Gt(x.rsiUvxy, Some(84.0))
  {
    ResolveMatchesGuards(x, BearOversoldTech);
    ResolveMatchesGuards(x, BearVolSpike);
  }

  /** Equal SQQQ and BSV RSIs resolve to BSV, never to SQQQ. */
  lemma TieGoesToBsv(x: Readings)
    requires x.rsiSqqq == x.rsiBsv
    ensures Resolve(x) != BearDefensiveSqqq
  {
    ResolveMatchesGuards(x, BearDefensiveSqqq);
  }

  /** With every value NaN each test fails and the tree falls through to BSV. */
  lemma AllNanIsBsv()
    ensures Resolve(Readings(None, None, None, None, None, None, None, None, None, None)) == BearDefensiveBsv
  {
  }

  // ---------------------------------------------------------------------
  // Reading the indicators where the tree reads them
  // ---------------------------------------------------------------------

  /** One indicator read on the current bar: its value (None for NaN) or
      the exception it raises. */
  type Read = Result<Option<real>>

  /** What the tree can consult on the current bar: the two closes, plain
      array reads, and the read of each indicator. */
  datatype Reads = Reads(
    spyClose: Option<real>, spyMa200: Read, tqqqClose: Option<real>, tqqqMa20: Read,
    rsiSpy: Read, rsiTqqq: Read, rsiSpxl: Read, rsiUvxy: Read, rsiSqqq: Read, rsiBsv: Read)

  /** A read's value, a failed read counting as NaN. */
  function Seen(r: Read): Option<real> {
    if r.Ok? then r.value else None
  }

  /** The readings a tree that never raised would compare. */
  function Settled(x: Reads): Readings {
    Readings(x.spyClose, Seen(x.spyMa200), x.tqqqClose, Seen(x.tqqqMa20),
             Seen(x.rsiSpy), Seen(x.rsiTqqq), Seen(x.rsiSpxl), Seen(x.rsiUvxy),
             Seen(x.rsiSqqq), Seen(x.rsiBsv))
  }

  /** `resolve_state()` with each indicator read where the source makes it:
      the first read that raises ends the call with its exception. The
      bull test's `or` reads RSI(SPXL) only when RSI(TQQQ) is not above 79,
      and the defensive test reads RSI(SQQQ) before RSI(BSV). */
  function ResolveReads(x: Reads): Result<State> {
    var ma200 :- x.spyMa200;
    if Gt(x.spyClose, ma200) then
      var tq :- x.rsiTqqq;
      if Gt(tq, Some(79.0)) then Ok(BullHedgeUvxy)
      else
        var sx :- x.rsiSpxl;
        if Gt(sx, Some(80.0)) then Ok(BullHedgeUvxy) else Ok(BullTqqq)
    else
      var tq :- x.rsiTqqq;
      if Lt(tq, Some(31.0)) then Ok(BearOversoldTech)
      else
        var sp :- x.rsiSpy;
        if Lt(sp, Some(30.0)) then Ok(BearOversoldSpxl)
        else
          var ux :- x.rsiUvxy;
          if Gt(ux, Some(84.0)) then TrendOrDefensive(x)
          else if Gt(ux, Some(74.0)) then Ok(BearVolSpike)
          else TrendOrDefensive(x)
  }

  /** The TQQQ trend test, then the SQQQ-against-BSV test. */
  function TrendOrDefensive(x: Reads): Result<State> {
    var ma20 :- x.tqqqMa20;
    if Gt(x.tqqqClose, ma20) then Ok(BearTqqqTrend)
    else
      var sq :- x.rsiSqqq;
      var bs :- x.rsiBsv;
      if Gt(sq, bs) then Ok(BearDefensiveSqqq) else Ok(BearDefensiveBsv)
  }

  /** The eight indicators the tree can read. */
  datatype Slot = Ma200 | Ma20 | RsiSpy | RsiTqqq | RsiSpxl | RsiUvxy | RsiSqqq | RsiBsv

  function SlotRead(x: Reads, t: Slot): Read {
    match t
    case Ma200 => x.spyMa200
    case Ma20 => x.tqqqMa20
    case RsiSpy => x.rsiSpy
    case RsiTqqq => x.rsiTqqq
    case RsiSpxl => x.rsiSpxl
    case RsiUvxy => x.rsiUvxy
    case RsiSqqq => x.rsiSqqq
    case RsiBsv => x.rsiBsv
  }

  /** The indicators the tree reads on its way to regime s, written per
      regime from the order of the tests; only the hedge depends on a
      value, since the `or` stops at a hot RSI(TQQQ). */
  function Consulted(s: State, y: Readings): set<Slot> {
    match s
    case BullHedgeUvxy => if Gt(y.rsiTqqq, Some(79.0)) then {Ma200, RsiTqqq} else {Ma200, RsiTqqq, RsiSpxl}
    case BullTqqq => {Ma200, RsiTqqq, RsiSpxl}
    case BearOversoldTech => {Ma200, RsiTqqq}
    case BearOversoldSpxl => {Ma200, RsiTqqq, RsiSpy}
    case BearVolSpike => {Ma200, RsiTqqq, RsiSpy, RsiUvxy}
    case BearTqqqTrend => {Ma200, RsiTqqq, RsiSpy, RsiUvxy, Ma20}
    case BearDefensiveSqqq => {Ma200, RsiTqqq, RsiSpy, RsiUvxy, Ma20, RsiSqqq, RsiBsv}
    case BearDefensiveBsv => {Ma200, RsiTqqq, RsiSpy, RsiUvxy, Ma20, RsiSqqq, RsiBsv}
  }

  /** A read raises only where it is made: the lazy tree succeeds exactly
      when every read on the way to the regime of the settled readings
      succeeds, and then picks that regime; its exception is the one of a
      read on that way. */
  lemma ResolveReadsFaults(x: Reads)
    ensures var s := Resolve(Settled(x));
            && (ResolveReads(x).Ok? <==> forall t :: t in Consulted(s, Settled(x)) ==> SlotRead(x, t).Ok?)
            && (ResolveReads(x).Ok? ==> ResolveReads(x).value == s)
            && (ResolveReads(x).Err? ==>
                  exists t :: t in Consulted(s, Settled(x)) && SlotRead(x, t) == Err(ResolveReads(x).fault))
  {
    var y := Settled(x);
    var s := Resolve(y);
    if !x.spyMa200.Ok? {
      assert Ma200 in Consulted(s, y);
    } else if Gt(x.spyClose, x.spyMa200.value) {
      if !x.rsiTqqq.Ok? {
        assert RsiTqqq in Consulted(s, y);
      } else if !Gt(x.rsiTqqq.value, Some(79.0)) && !x.rsiSpxl.Ok? {
        assert RsiSpxl in Consulted(s, y);
      }
    } else if !x.rsiTqqq.Ok? {
      assert RsiTqqq in Consulted(s, y);
    } else if Lt(y.rsiTqqq, Some(31.0)) {
    } else if !x.rsiSpy.Ok? {
      assert RsiSpy in Consulted(s, y);
    } else if Lt(y.rsiSpy, Some(30.0)) {
    } else if !x.rsiUvxy.Ok? {
      assert RsiUvxy in Consulted(s, y);
    } else if !Gt(y.rsiUvxy, Some(84.0)) && Gt(y.rsiUvxy, Some(74.0)) {
    } else {
      TrendOrDefensiveFaults(x);
    }
  }

  /** The same for the trend-then-defensive tail of the tree. */
  lemma TrendOrDefensiveFaults(x: Reads)
    requires x.spyMa200.Ok? && x.rsiTqqq.Ok? && x.rsiSpy.Ok? && x.rsiUvxy.Ok?
    requires !Gt(x.spyClose, x.spyMa200.value) && !Lt(x.rsiTqqq.value, Some(31.0)) && !Lt(x.rsiSpy.value, Some(30.0))
    requires Gt(x.rsiUvxy.value, Some(84.0)) || !Gt(x.rsiUvxy.value, Some(74.0))
    ensures var s := Resolve(Settled(x));
            && ResolveReads(x) == TrendOrDefensive(x)
            && (TrendOrDefensive(x).Ok? <==> forall t :: t in Consulted(s, Settled(x)) ==> SlotRead(x, t).Ok?)
            && (TrendOrDefensive(x).Ok? ==> TrendOrDefensive(x).value == s)
            && (TrendOrDefensive(x).Err? ==>
                  exists t :: t in Consulted(s, Settled(x)) && SlotRead(x, t) == Err(TrendOrDefensive(x).fault))
  {
    var y := Settled(x);
    var s := Resolve(y);
    if !x.tqqqMa20.Ok? {
      assert Ma20 in Consulted(s, y);
    } else if !Gt(x.tqqqClose, x.tqqqMa20.value) {
      if !x.rsiSqqq.Ok? {
        assert RsiSqqq in Consulted(s, y);
      } else if !x.rsiBsv.Ok? {
        assert RsiBsv in Consulted(s, y);
      }
    }
  }

  /** `log_state_resolution()` after the tree picked s: it repeats the tree's
      tests, whose reads return what they returned the first time, and in
      the hedge regime formats RSI(SPXL) even when the `or` skipped it, so
      that read can still raise. */
  function LogReads(x: Reads, s: State): (r: Result<()>)
    ensures r.Err? <==> s == BullHedgeUvxy && x.rsiSpxl.Err?
    ensures r.Err? ==> r.fault == x.rsiSpxl.fault
  {
    if s == BullHedgeUvxy then
      var spxl :- x.rsiSpxl;
      Ok(())
    else Ok(())
  }

  /** What `next()` reads to pick the regime: `resolve_state()`, then the
      log of its decision. When it succeeds it picks the settled regime. */
  function Decide(x: Reads): (r: Result<State>)
    ensures r.Ok? ==> r.value == Resolve(Settled(x))
  {
    ResolveReadsFaults(x);
    var s :- ResolveReads(x);
    var logged :- LogReads(x, s);
    Ok(s)
  }

  /** The decision fails exactly when a read on the way to the settled
      regime fails or the hedge's log cannot read RSI(SPXL), with the
      exception of a failing read. */
  lemma DecideFaults(x: Reads)
    ensures var s := Resolve(Settled(x));
            && (Decide(x).Err? <==> (exists t :: t in Consulted(s, Settled(x)) && SlotRead(x, t).Err?)
                                    || (s == BullHedgeUvxy && x.rsiSpxl.Err?))
            && (Decide(x).Err? ==> exists t :: SlotRead(x, t) == Err(Decide(x).fault))
  {
    ResolveReadsFaults(x);
    if ResolveReads(x).Ok? && Decide(x).Err? {
      assert SlotRead(x, RsiSpxl) == Err(Decide(x).fault);
    }
  }

  /** With no failing read, the strategy's decision is the plain tree's. */
  lemma DecideWithoutFaults(x: Reads)
    requires forall t :: SlotRead(x, t).Ok?
    ensures Decide(x) == Ok(Resolve(Settled(x)))
  {
    DecideFaults(x);
    assert SlotRead(x, RsiSpxl).Ok?;
  }

  /** The six ETFs the strategy can hold, in `ALL_ASSETS` order. */
  datatype Asset = Bsv | Spxl | Sqqq | Tecl | Tqqq | Uvxy

  const AllAssets: seq<Asset> := [Bsv, Spxl, Sqqq, Tecl, Tqqq, Uvxy]

  /** `asset_for_state(state)`. */
  function AssetFor(s: State): (a: Asset)
    ensures a in AllAssets
  {
    match s
    case BullTqqq => Tqqq
    case BullHedgeUvxy => Uvxy
    case BearOversoldTech => Tecl
    case BearOversoldSpxl => Spxl
    case BearVolSpike => Uvxy
    case BearTqqqTrend => Tqqq
    case BearDefensiveSqqq => Sqqq
    case BearDefensiveBsv => Bsv
  }

  /** Both UVXY regimes hold UVXY, both TQQQ regimes hold TQQQ, and every
      ETF is held by some regime. */
  lemma AssetForCoversAll(a: Asset)
    ensures AssetFor(BullHedgeUvxy) == AssetFor(BearVolSpike) == Uvxy
    ensures AssetFor(BullTqqq) == AssetFor(BearTqqqTrend) == Tqqq
    ensures exists s :: AssetFor(s) == a
  {
    var s := match a
      case Bsv => BearDefensiveBsv
      case Spxl => BearOversoldSpxl
      case Sqqq => BearDefensiveSqqq
      case Tecl => BearOversoldTech
      case Tqqq => BullTqqq
      case Uvxy => BullHedgeUvxy;
    assert AssetFor(s) == a;
  }

  // ---------------------------------------------------------------------
  // The strategy object
  // ---------------------------------------------------------------------

  /** The feeds `getdatabyname` found for the seven tickers. */
  datatype Book = Book(spy: nat, tqqq: nat, spxl: nat, uvxy: nat, tecl: nat, sqqq: nat, bsv: nat)

  function AssetFeed(book: Book, a: Asset): nat {
    match a
    case Bsv => book.bsv
    case Spxl => book.spxl
    case Sqqq => book.sqqq
    case Tecl => book.tecl
    case Tqqq => book.tqqq
    case Uvxy => book.uvxy
  }

  /** Every feed of the book is one of n feeds. */
  predicate BookWithin(book: Book, n: nat) {
    book.spy < n && forall a :: AssetFeed(book, a) < n
  }

  /** The book is within n feeds when each of its seven indices is. */
  lemma BookWithinIndices(book: Book, n: nat)
    requires book.spy < n && book.tqqq < n && book.spxl < n && book.uvxy < n
    requires book.tecl < n && book.sqqq < n && book.bsv < n
    ensures BookWithin(book, n)
  {
    forall a ensures AssetFeed(book, a) < n {
      match a
      case Bsv =>
      case Spxl =>
      case Sqqq =>
      case Tecl =>
      case Tqqq =>
      case Uvxy =>
    }
  }

  /** The strategy's state between bars. The `start` and `prev` values feed
      the growth percentages the bar log divides by. */
  datatype Ftlt = Ftlt(owner: nat, params: Params, base: BaseState, book: Book, state: Option<State>,
                       startValue: real, prevValue: real)

  /** `params = dict(rsi_period=10, ma200_period=200, ma20_period=20, report=…)`. */
  const FtltDefaults: Params :=
    map["rsi_period" := PInt(10), "ma200_period" := PInt(200), "ma20_period" := PInt(20),
        "report" := PStr("reports/mt_tqqq_ftlt_coc.html")]

  /** `getdatabyname(name)`: KeyError for a name never registered. */
  function FeedNamed(byName: map<string, nat>, name: string): (r: Result<nat>)
    ensures name in byName ==> r == Ok(byName[name])
    ensures name !in byName ==> r == Err(KeyError(name))
  {
    if name in byName then Ok(byName[name]) else Err(KeyError(name))
  }

  /** `self.p.<name>`: a period parameter, passed to the indicators as it
      is. An absent name raises AttributeError; nothing checks the value,
      so a zero, negative or fractional period, or one that is not a
      number at all, only shows when an indicator is read. */
  function PeriodParam(params: Params, name: string): (r: Result<PeriodArg>)
    ensures r.Err? <==> name !in params
    ensures r.Err? ==> r.fault == AttributeError(name)
    ensures r.Ok? ==> PeriodNumber(r.value) == match params[name]
                                                 case PInt(i) => Some(i as real)
                                                 case PReal(x) => Some(x)
                                                 case _ => None
    ensures r.Ok? && params[name].PInt? ==> r.value == IntPeriod(params[name].i)
  {
    if name !in params then Err(AttributeError(name))
    else
      match params[name]
      case PInt(i) => Ok(IntPeriod(i))
      case PReal(x) => Ok(FloatPeriod(x))
      case _ => Ok(OtherPeriod)
  }

  /** Once the class defaults are merged in, the three periods are always
      found; left alone they are 200, 20 and 10, periods every read
      accepts. */
  lemma DefaultPeriods(overrides: Params)
    ensures var p := MergeParams(FtltDefaults, overrides);
            && PeriodParam(p, "ma200_period").Ok? && PeriodParam(p, "ma20_period").Ok?
            && PeriodParam(p, "rsi_period").Ok?
    ensures PeriodParam(FtltDefaults, "ma200_period") == Ok(IntPeriod(200))
    ensures PeriodParam(FtltDefaults, "ma20_period") == Ok(IntPeriod(20))
    ensures PeriodParam(FtltDefaults, "rsi_period") == Ok(IntPeriod(10))
    ensures SteadyPeriod(IntPeriod(10))
  {
    var p := MergeParams(FtltDefaults, overrides);
    assert "ma200_period" in FtltDefaults.Keys && "ma20_period" in FtltDefaults.Keys;
    assert "rsi_period" in FtltDefaults.Keys;
  }

  /** The indicator list `__init__` registers, in construction order: the
      two SMAs, then the RSIs of SPY, TQQQ, SPXL, UVXY, SQQQ and BSV. */
  function FtltIndicators(book: Book, rsi: PeriodArg, ma200: PeriodArg, ma20: PeriodArg): (inds: seq<Indicator>)
    ensures |inds| == 8
    ensures inds[0] == SmaInd(book.spy, ma200) && inds[1] == SmaInd(book.tqqq, ma20)
    ensures forall k :: 2 <= k < 8 ==> inds[k].RsiInd? && inds[k].rsi.period == rsi && inds[k].rsi.lookback == 1
  {
    [SmaInd(book.spy, ma200), SmaInd(book.tqqq, ma20),
     RsiInd(NewRsi(book.spy, rsi, 1)), RsiInd(NewRsi(book.tqqq, rsi, 1)), RsiInd(NewRsi(book.spxl, rsi, 1)),
     RsiInd(NewRsi(book.uvxy, rsi, 1)), RsiInd(NewRsi(book.sqqq, rsi, 1)), RsiInd(NewRsi(book.bsv, rsi, 1))]
  }

  /** `MT_TQQQFTLT_COC.__init__` for strategy `owner` with merged parameters
      `params`, the engine's name registry and the broker value v: the base
      state, the seven feeds looked up in order, and the indicators. */
  function FtltInit(owner: nat, params: Params, byName: map<string, nat>, v: real): (r: Result<(Ftlt, seq<Indicator>)>)
    ensures r.Ok? ==> r.value.0.base == NewBaseState(v) && r.value.0.state.None?
    ensures r.Ok? ==> r.value.0.startValue == v && r.value.0.prevValue == v && r.value.0.owner == owner
    ensures r.Ok? ==> |r.value.1| == 8
    ensures "SPY" !in byName ==> r == Err(KeyError("SPY"))
    ensures "SPY" in byName && "TQQQ" !in byName ==> r == Err(KeyError("TQQQ"))
    ensures r.Ok? ==> forall n :: n in ["SPY", "TQQQ", "SPXL", "UVXY", "TECL", "SQQQ", "BSV"] ==> n in byName
    ensures r.Ok? ==> r.value.0.book.spy == byName["SPY"] && r.value.0.book.bsv == byName["BSV"]
  {
    var spy :- FeedNamed(byName, "SPY");
    var tqqq :- FeedNamed(byName, "TQQQ");
    var spxl :- FeedNamed(byName, "SPXL");
    var uvxy :- FeedNamed(byName, "UVXY");
    var tecl :- FeedNamed(byName, "TECL");
    var sqqq :- FeedNamed(byName, "SQQQ");
    var bsv :- FeedNamed(byName, "BSV");
    var book := Book(spy, tqqq, spxl, uvxy, tecl, sqqq, bsv);
    var ma200 :- PeriodParam(params, "ma200_period");
    var ma20 :- PeriodParam(params, "ma20_period");
    var rsi :- PeriodParam(params, "rsi_period");
    Ok((Ftlt(owner, params, NewBaseState(v), book, None, v, v), FtltIndicators(book, rsi, ma200, ma20)))
  }

  /** When every registered name refers to one of n feeds, a constructed
      strategy's feeds and indicators are among those n. */
  lemma FtltInitFits(owner: nat, params: Params, byName: map<string, nat>, v: real, n: nat)
    requires forall name :: name in byName ==> byName[name] < n
    requires FtltInit(owner, params, byName, v).Ok?
    ensures BookWithin(FtltInit(owner, params, byName, v).value.0.book, n)
    ensures IndicatorsFit(FtltInit(owner, params, byName, v).value.1, n)
  {
    var (st, inds) := FtltInit(owner, params, byName, v).value;
    BookWithinIndices(st.book, n);
  }

  /** The indicator list has the shape `FtltIndicators` gives and reads the
      feeds among n. */
  predicate IndicatorsFit(inds: seq<Indicator>, n: nat) {
    |inds| == 8 && forall k :: 0 <= k < 8 ==> IndicatorOk(inds[k], n)
  }

  /** `ind[0]` as `next()` sees it: the value or the exception. On
      indicators the evaluation pass has already read, this read changes
      no state (`ReadAfterEvaluate`), so the state it would leave is not
      kept. */
  function ReadOf(ind: Indicator, feeds: seq<Feed>): (r: Read)
    requires IndicatorOk(ind, |feeds|) && AllCursorsOk(feeds)
    ensures r.Ok? <==> ReadIndicator(ind, feeds).Ok?
    ensures r.Ok? ==> r.value == ReadIndicator(ind, feeds).value.1
    ensures r.Err? ==> r.fault == ReadIndicator(ind, feeds).fault
  {
    var read :- ReadIndicator(ind, feeds);
    Ok(read.1)
  }

  /** What the tree can consult on the current bar. */
  function ReadsOf(st: Ftlt, inds: seq<Indicator>, feeds: seq<Feed>): Reads
    requires AllCursorsOk(feeds) && BookWithin(st.book, |feeds|) && IndicatorsFit(inds, |feeds|)
  {
    Reads(Field(feeds[st.book.spy], Close, 0), ReadOf(inds[0], feeds),
          Field(feeds[AssetFeed(st.book, Tqqq)], Close, 0), ReadOf(inds[1], feeds),
          ReadOf(inds[2], feeds), ReadOf(inds[3], feeds), ReadOf(inds[4], feeds),
          ReadOf(inds[5], feeds), ReadOf(inds[6], feeds), ReadOf(inds[7], feeds))
  }

  // ---------------------------------------------------------------------
  // Rebalancing
  // ---------------------------------------------------------------------

  /** `[d for d in ALL_ASSETS if self.getposition(d).size != 0]`: the held
      assets in list order; each lookup creates a flat entry if needed. */
  function HeldAssets(b: Broker, book: Book, assets: seq<Asset>): (r: (Broker, seq<Asset>))
    ensures forall a :: a in r.1 <==> a in assets && Size(b, AssetFeed(book, a)) != 0.0
    ensures forall k :: Size(r.0, k) == Size(b, k)
    ensures r.0.cash == b.cash && r.0.pending == b.pending && r.0.useOpen == b.useOpen
    ensures forall k :: k in r.0.positions ==> k in b.positions || exists a :: a in assets && k == AssetFeed(book, a)
    decreases |assets|
  {
    if |assets| == 0 then (b, [])
    else
      var looked := GetPosition(b, AssetFeed(book, assets[0]));
      var tail := HeldAssets(looked.0, book, assets[1..]);
      assert forall a :: a in assets[1..] ==> a in assets;
      assert forall a :: a in assets ==> a == assets[0] || a in assets[1..];
      (tail.0, (if looked.1 != 0.0 then [assets[0]] else []) + tail.1)
  }

  /** Looking up the held list adds entries for the book's feeds only. */
  lemma HeldAssetsRefers(b: Broker, book: Book, n: nat)
    requires BookWithin(book, n)
    ensures RefersTo(b, n) ==> RefersTo(HeldAssets(b, book, AllAssets).0, n)
  {
    var b1 := HeldAssets(b, book, AllAssets).0;
    forall k | k in b1.positions && RefersTo(b, n) ensures k < n {
      if k !in b.positions {
        var a :| a in AllAssets && k == AssetFeed(book, a);
      }
    }
  }

  /** The held list depends on the position sizes only. */
  lemma {:induction false} HeldAssetsBySizes(b: Broker, c: Broker, book: Book, assets: seq<Asset>)
    requires forall k :: Size(b, k) == Size(c, k)
    ensures HeldAssets(b, book, assets).1 == HeldAssets(c, book, assets).1
    decreases |assets|
  {
    if |assets| > 0 {
      var k := AssetFeed(book, assets[0]);
      HeldAssetsBySizes(GetPosition(b, k).0, GetPosition(c, k).0, book, assets[1..]);
    }
  }

  /** Close each of the feeds `ks` in turn. A feed whose table is empty is
      falsy, so its close goes to the first feed instead. */
  function CloseAll(b: Broker, feeds: seq<Feed>, ks: seq<nat>, owner: nat): (r: (Broker, seq<Order>))
    requires |feeds| > 0 && forall i :: 0 <= i < |ks| ==> ks[i] < |feeds|
    ensures r.0.pending == b.pending + r.1
    ensures r.0.cash == b.cash && r.0.useOpen == b.useOpen
    ensures forall k :: Size(r.0, k) == Size(b, k)
    ensures forall k :: k in r.0.positions ==> k in b.positions || k in ks || k == 0
    ensures RefersTo(b, |feeds|) ==> RefersTo(r.0, |feeds|)
    decreases |ks|
  {
    if |ks| == 0 then (b, [])
    else
      var first := ClosePosition(b, feeds, Some(ks[0]), owner);
      var rest := CloseAll(first.0, feeds, ks[1..], owner);
      assert (b.pending + first.1) + rest.1 == b.pending + (first.1 + rest.1);
      assert forall k :: k in ks[1..] ==> k in ks;
      (rest.0, first.1 + rest.1)
  }

  /** The closes are SELLs, each of one of the feeds `ks` or of the first
      feed. */
  lemma {:induction false} CloseAllSells(b: Broker, feeds: seq<Feed>, ks: seq<nat>, owner: nat)
    requires |feeds| > 0 && forall i :: 0 <= i < |ks| ==> ks[i] < |feeds|
    ensures forall i :: 0 <= i < |CloseAll(b, feeds, ks, owner).1| ==>
              CloseAll(b, feeds, ks, owner).1[i].created.SellIntent?
              && (CloseAll(b, feeds, ks, owner).1[i].feed in ks || CloseAll(b, feeds, ks, owner).1[i].feed == 0)
    decreases |ks|
  {
    if |ks| > 0 {
      var (b1, os1) := ClosePosition(b, feeds, Some(ks[0]), owner);
      var os2 := CloseAll(b1, feeds, ks[1..], owner).1;
      CloseAllSells(b1, feeds, ks[1..], owner);
      var os := os1 + os2;
      assert CloseAll(b, feeds, ks, owner).1 == os;
      forall i | 0 <= i < |os| ensures os[i].created.SellIntent? && (os[i].feed in ks || os[i].feed == 0) {
        if i < |os1| {
          assert os[i] == os1[0];
          assert os1[0].created.SellIntent? && os1[0].feed == CloseTarget(feeds, Some(ks[0]));
          assert ks[0] in ks;
        } else {
          assert os[i] == os2[i - |os1|];
          assert os2[i - |os1|].feed in ks[1..] ==> os[i].feed in ks;
        }
      }
    }
  }

  /** Every feed of `ks` with rows and an open position is sold. */
  lemma {:induction false} CloseAllCovers(b: Broker, feeds: seq<Feed>, ks: seq<nat>, owner: nat)
    requires |feeds| > 0 && forall i :: 0 <= i < |ks| ==> ks[i] < |feeds|
    ensures forall k :: k in ks && |feeds[k].bars| > 0 && Size(b, k) != 0.0 ==> SellsOn(CloseAll(b, feeds, ks, owner).1, k)
    decreases |ks|
  {
    if |ks| > 0 {
      var (b1, os1) := ClosePosition(b, feeds, Some(ks[0]), owner);
      var os2 := CloseAll(b1, feeds, ks[1..], owner).1;
      CloseAllCovers(b1, feeds, ks[1..], owner);
      var os := os1 + os2;
      assert CloseAll(b, feeds, ks, owner).1 == os;
      forall k | k in ks && |feeds[k].bars| > 0 && Size(b, k) != 0.0 ensures SellsOn(os, k) {
        if k == ks[0] {
          assert os[0] == os1[0];
        } else {
          assert k in ks[1..];
          assert Size(b1, k) == Size(b, k);
          var j :| 0 <= j < |os2| && os2[j].created.SellIntent? && os2[j].feed == k;
          assert os[|os1| + j] == os2[j];
        }
      }
    }
  }

  /** The feeds of the held assets other than the target, in held order. */
  function ToClose(book: Book, held: seq<Asset>, target: nat): (ks: seq<nat>)
    ensures forall a :: a in held && AssetFeed(book, a) != target ==> AssetFeed(book, a) in ks
    ensures forall k :: k in ks ==> k != target && exists a :: a in held && k == AssetFeed(book, a)
    decreases |held|
  {
    if |held| == 0 then []
    else
      var rest := ToClose(book, held[1..], target);
      assert forall a :: a in held ==> a == held[0] || a in held[1..];
      assert forall a :: a in held[1..] ==> a in held;
      (if AssetFeed(book, held[0]) != target then [AssetFeed(book, held[0])] else []) + rest
  }
  /** What a rotation into `target` submits, measured against the sizes of
      broker b: one or more orders ending in a 100% BUY of the target at its
      close, every earlier one a SELL, and a SELL for every held ETF other
      than the target (whose table is not empty). */
  predicate RotationOrders(os: seq<Order>, b: Broker, feeds: seq<Feed>, book: Book, target: nat, owner: nat)
    requires BookWithin(book, |feeds|) && target < |feeds|
  {
    && |os| >= 1
    && os[|os| - 1] == Order(target, owner, BuyIntent(Field(feeds[target], Close, 0), Some(1.0)), Submitted,
                             Executed(0.0, 0.0, None))
    && (forall i :: 0 <= i < |os| - 1 ==> os[i].created.SellIntent?)
    && (forall a :: (a in AllAssets && AssetFeed(book, a) != target && Size(b, AssetFeed(book, a)) != 0.0
                     && |feeds[AssetFeed(book, a)].bars| > 0) ==> SellsOn(os, AssetFeed(book, a)))
  }

  /** The feeds to close are feeds of the book, so within any bound the
      book is within. */
  lemma ToCloseWithin(book: Book, held: seq<Asset>, target: nat, n: nat)
    requires BookWithin(book, n)
    ensures forall i :: 0 <= i < |ToClose(book, held, target)| ==> ToClose(book, held, target)[i] < n
  {
    var ks := ToClose(book, held, target);
    forall i | 0 <= i < |ks| ensures ks[i] < n {
      assert ks[i] in ks;
      var a :| a in held && ks[i] == AssetFeed(book, a);
    }
  }

  /** The closes of a rotation are SELLs and cover every ETF held other
      than the target whose table is not empty. */
  lemma RebalanceSells(b: Broker, feeds: seq<Feed>, book: Book, held: seq<Asset>, target: nat, owner: nat)
    requires |feeds| > 0 && BookWithin(book, |feeds|) && target < |feeds|
    requires forall a :: a in AllAssets && Size(b, AssetFeed(book, a)) != 0.0 ==> a in held
    ensures forall i :: 0 <= i < |ToClose(book, held, target)| ==> ToClose(book, held, target)[i] < |feeds|
    ensures forall i :: 0 <= i < |CloseAll(b, feeds, ToClose(book, held, target), owner).1| ==>
              CloseAll(b, feeds, ToClose(book, held, target), owner).1[i].created.SellIntent?
    ensures forall a :: (a in AllAssets && AssetFeed(book, a) != target && Size(b, AssetFeed(book, a)) != 0.0
                         && |feeds[AssetFeed(book, a)].bars| > 0) ==>
              SellsOn(CloseAll(b, feeds, ToClose(book, held, target), owner).1, AssetFeed(book, a))
  {
    var ks := ToClose(book, held, target);
    ToCloseWithin(book, held, target, |feeds|);
    CloseAllSells(b, feeds, ks, owner);
    CloseAllCovers(b, feeds, ks, owner);
  }

  /** SELLs covering every held ETF but the target, then the 100% BUY of
      the target, make a rotation's orders. */
  lemma SellsThenBuy(sells: seq<Order>, buy: Order, b: Broker, feeds: seq<Feed>, book: Book, target: nat, owner: nat)
    requires BookWithin(book, |feeds|) && target < |feeds|
    requires forall i :: 0 <= i < |sells| ==> sells[i].created.SellIntent?
    requires forall a :: (a in AllAssets && AssetFeed(book, a) != target && Size(b, AssetFeed(book, a)) != 0.0
                          && |feeds[AssetFeed(book, a)].bars| > 0) ==> SellsOn(sells, AssetFeed(book, a))
    requires buy == Order(target, owner, BuyIntent(Field(feeds[target], Close, 0), Some(1.0)), Submitted,
                          Executed(0.0, 0.0, None))
    ensures RotationOrders(sells + [buy], b, feeds, book, target, owner)
  {
    SellsOnPrefix(sells, [buy]);
    var os := sells + [buy];
    assert forall i :: 0 <= i < |sells| ==> os[i] == sells[i];
  }

  /** The rotation: close every held asset other than the target, then one
      BUY of 100% of the target. */
  function Rebalance(b: Broker, feeds: seq<Feed>, book: Book, held: seq<Asset>, target: nat, owner: nat)
    : (r: (Broker, seq<Order>))
    requires |feeds| > 0 && BookWithin(book, |feeds|) && target < |feeds|
    requires forall a :: a in AllAssets && Size(b, AssetFeed(book, a)) != 0.0 ==> a in held
    ensures r.0.pending == b.pending + r.1
    ensures r.0.cash == b.cash && r.0.useOpen == b.useOpen
    ensures forall k :: Size(r.0, k) == Size(b, k)
    ensures RotationOrders(r.1, b, feeds, book, target, owner)
    ensures RefersTo(b, |feeds|) ==> RefersTo(r.0, |feeds|)
  {
    var ks := ToClose(book, held, target);
    RebalanceSells(b, feeds, book, held, target, owner);
    var closed := CloseAll(b, feeds, ks, owner);
    var bought := OrderTargetPercent(closed.0, feeds, target, owner, Some(1.0));
    SellsThenBuy(closed.1, bought.1, b, feeds, book, target, owner);
    assert bought.0.pending == b.pending + (closed.1 + [bought.1]);
    (bought.0, closed.1 + [bought.1])
  }

  /** `_update_drawdown()` then `trading_allowed()` on the current bar. */
  function Gate(st: Ftlt, b: Broker, feeds: seq<Feed>): Result<(BaseState, bool)>
    requires |feeds| > 0 && AllCursorsOk(feeds)
  {
    var base1 :- UpdateDrawdown(st.base, st.params, feeds[0], Value(b, feeds));
    TradingAllowed(base1, st.params, feeds[0])
  }

  /** The regime `resolve_state` picks on the current bar when its reads
      succeed. */
  function Regime(st: Ftlt, inds: seq<Indicator>, feeds: seq<Feed>): State
    requires AllCursorsOk(feeds) && BookWithin(st.book, |feeds|) && IndicatorsFit(inds, |feeds|)
  {
    Resolve(Settled(ReadsOf(st, inds, feeds)))
  }

  /** The ETF feed the regime on the current bar calls for. */
  function TargetFeed(st: Ftlt, inds: seq<Indicator>, feeds: seq<Feed>): (t: nat)
    requires AllCursorsOk(feeds) && BookWithin(st.book, |feeds|) && IndicatorsFit(inds, |feeds|)
    ensures t < |feeds|
  {
    AssetFeed(st.book, AssetFor(Regime(st, inds, feeds)))
  }

  /** `len(held_assets) == 1 and held_assets[0] is next_asset`. */
  predicate OnlyTargetHeld(b: Broker, book: Book, target: nat) {
    var held := HeldAssets(b, book, AllAssets).1;
    |held| == 1 && AssetFeed(book, held[0]) == target
  }

  /** The part of `next()` past the gate, for the regime `next` whose ETF is
      on feed `target` and the broker value v: the growth percentages, then
      nothing for an unchanged regime, only the regime for a new one whose
      ETF is already the sole holding, and otherwise the rotation. Except
      after that early return, the monthly report ends the bar by recording
      v as the previous value.

      The growth percentages divide by the previous and the start value.
      Both are broker values: plain floats until the first fill, float64
      from then on, since a fill's cost is a float64 price product. A
      float64 divided by zero is inf or NaN and does not raise; a plain
      float raises ZeroDivision. Before any fill the value is the starting
      cash, so the previous value is the start value, and with no starting
      cash no BUY fills (`Brokerage.PennilessBuysNothing`). So the bar
      raises exactly when the start value is zero. The monthly report's
      shares divide float64 position values and never raise. */
  function Act(st: Ftlt, b: Broker, feeds: seq<Feed>, next: State, target: nat, v: real): (r: Result<(Ftlt, Broker)>)
    requires |feeds| > 0 && BookWithin(st.book, |feeds|) && target < |feeds|
    ensures r.Err? <==> st.startValue == 0.0
    ensures r.Err? ==> r.fault == ZeroDivision
    ensures r.Ok? ==> r.value.0 == st.(state := Some(next), prevValue := r.value.0.prevValue)
    ensures r.Ok? ==> r.value.0.prevValue == if st.state != Some(next) && OnlyTargetHeld(b, st.book, target) then st.prevValue else v
    ensures r.Ok? ==> forall k :: Size(r.value.1, k) == Size(b, k)
    ensures r.Ok? ==> r.value.1.cash == b.cash && r.value.1.useOpen == b.useOpen
    ensures r.Ok? && RefersTo(b, |feeds|) ==> RefersTo(r.value.1, |feeds|)
    ensures r.Ok? ==> r.value.1.pending == b.pending || r.value.1 == Rotation(b, feeds, st.book, target, st.owner)
  {
    if st.startValue == 0.0 then Err(ZeroDivision)
    else if st.state != Some(next) && OnlyTargetHeld(b, st.book, target) then
      Ok((st.(state := Some(next)), Looked(b, st.book, |feeds|)))
    else
      Ok((st.(state := Some(next), prevValue := v), Moved(st, b, feeds, next, target)))
  }

  /** The broker after `held_assets` is computed: only flat entries added. */
  function Looked(b: Broker, book: Book, n: nat): (r: Broker)
    requires BookWithin(book, n)
    ensures forall k :: Size(r, k) == Size(b, k)
    ensures r.cash == b.cash && r.useOpen == b.useOpen && r.pending == b.pending
    ensures RefersTo(b, n) ==> RefersTo(r, n)
  {
    HeldAssetsRefers(b, book, n);
    HeldAssets(b, book, AllAssets).0
  }

  /** The broker past the early return: the same holdings for an unchanged
      regime, a rotation for a new one. */
  function Moved(st: Ftlt, b: Broker, feeds: seq<Feed>, next: State, target: nat): (r: Broker)
    requires |feeds| > 0 && BookWithin(st.book, |feeds|) && target < |feeds|
    ensures forall k :: Size(r, k) == Size(b, k)
    ensures r.cash == b.cash && r.useOpen == b.useOpen
    ensures RefersTo(b, |feeds|) ==> RefersTo(r, |feeds|)
    ensures st.state == Some(next) ==> r.pending == b.pending
    ensures st.state != Some(next) ==> r == Rotation(b, feeds, st.book, target, st.owner)
  {
    if st.state == Some(next) then Looked(b, st.book, |feeds|) else Rotation(b, feeds, st.book, target, st.owner)
  }

  /** A rotation starting from broker b: look up the held ETFs, then
      rebalance into the target. */
  function Rotation(b: Broker, feeds: seq<Feed>, book: Book, target: nat, owner: nat): (r: Broker)
    requires |feeds| > 0 && BookWithin(book, |feeds|) && target < |feeds|
    ensures b.pending <= r.pending && |r.pending| > |b.pending|
    ensures RotationOrders(r.pending[|b.pending|..], b, feeds, book, target, owner)
    ensures forall k :: Size(r, k) == Size(b, k)
    ensures r.cash == b.cash && r.useOpen == b.useOpen
    ensures RefersTo(b, |feeds|) ==> RefersTo(r, |feeds|)
  {
    var looked := HeldAssets(b, book, AllAssets);
    var moved := Rebalance(looked.0, feeds, book, looked.1, target, owner);
    assert moved.0.pending[|b.pending|..] == moved.1;
    assert RotationOrders(moved.1, b, feeds, book, target, owner) by {
      assert forall k :: Size(looked.0, k) == Size(b, k);
    }
    HeldAssetsRefers(b, book, |feeds|);
    moved.0
  }

  /** The pending queue grows exactly when the regime is new and the
      holdings are not already just the target, and then by a rotation's
      orders. */
  lemma ActRotates(st: Ftlt, b: Broker, feeds: seq<Feed>, next: State, target: nat, v: real)
    requires |feeds| > 0 && BookWithin(st.book, |feeds|) && target < |feeds|
    requires Act(st, b, feeds, next, target, v).Ok?
    ensures var b' := Act(st, b, feeds, next, target, v).value.1;
            && b.pending <= b'.pending
            && (b'.pending != b.pending <==> st.state != Some(next) && !OnlyTargetHeld(b, st.book, target))
            && (b'.pending != b.pending ==> RotationOrders(b'.pending[|b.pending|..], b, feeds, st.book, target, st.owner))
  {
    var b' := Act(st, b, feeds, next, target, v).value.1;
    if st.state != Some(next) && OnlyTargetHeld(b, st.book, target) {
      assert b' == Looked(b, st.book, |feeds|);
    } else {
      assert b' == Moved(st, b, feeds, next, target);
    }
  }

  /** The reads `next()` makes to pick the regime on the current bar. */
  function Decision(st: Ftlt, inds: seq<Indicator>, feeds: seq<Feed>): (r: Result<State>)
    requires AllCursorsOk(feeds) && BookWithin(st.book, |feeds|) && IndicatorsFit(inds, |feeds|)
    ensures r.Ok? ==> r.value == Regime(st, inds, feeds)
  {
    Decide(ReadsOf(st, inds, feeds))
  }

  /** When every indicator's period is one its reads accept, the decision
      never raises and is the regime of the values read. */
  lemma SoundDecision(st: Ftlt, inds: seq<Indicator>, feeds: seq<Feed>)
    requires AllCursorsOk(feeds) && BookWithin(st.book, |feeds|) && IndicatorsFit(inds, |feeds|)
    requires forall k :: 0 <= k < 8 ==> SoundPeriod(inds[k])
    ensures Decision(st, inds, feeds) == Ok(Regime(st, inds, feeds))
  {
    SoundReads(st, inds, feeds);
    DecideWithoutFaults(ReadsOf(st, inds, feeds));
  }

  lemma SoundReads(st: Ftlt, inds: seq<Indicator>, feeds: seq<Feed>)
    requires AllCursorsOk(feeds) && BookWithin(st.book, |feeds|) && IndicatorsFit(inds, |feeds|)
    requires forall k :: 0 <= k < 8 ==> SoundPeriod(inds[k])
    ensures forall t :: SlotRead(ReadsOf(st, inds, feeds), t).Ok?
  {
    forall k | 0 <= k < 8 ensures ReadOf(inds[k], feeds).Ok? {
      SoundReadsSucceed(inds[k], feeds);
    }
  }

  /** The bar past an open gate, given the decision d: its exception, or
      `Act` for the regime it picked and that regime's ETF. */
  function Proceed(st: Ftlt, b: Broker, feeds: seq<Feed>, d: Result<State>): (r: Result<(Ftlt, Broker)>)
    requires |feeds| > 0 && BookWithin(st.book, |feeds|) && AllCursorsOk(feeds)
    ensures d.Err? ==> r == Err(d.fault)
    ensures d.Ok? ==> r == Act(st, b, feeds, d.value, AssetFeed(st.book, AssetFor(d.value)), Value(b, feeds))
    ensures r.Ok? ==> r.value.0.owner == st.owner && r.value.0.book == st.book && r.value.0.params == st.params
    ensures r.Ok? ==> r.value.0.startValue == st.startValue && r.value.0.base == st.base
    ensures r.Ok? ==> r.value.0.state == Some(d.value)
    ensures r.Ok? ==> forall k :: Size(r.value.1, k) == Size(b, k)
    ensures r.Ok? ==> r.value.1.cash == b.cash && r.value.1.useOpen == b.useOpen
    ensures r.Ok? && RefersTo(b, |feeds|) ==> RefersTo(r.value.1, |feeds|)
    ensures r.Ok? ==> || r.value.1.pending == b.pending
                      || r.value.1 == Rotation(b, feeds, st.book, AssetFeed(st.book, AssetFor(d.value)), st.owner)
    ensures r.Ok? && r.value.1.pending != b.pending ==> r.value.0.state != st.state
  {
    var next :- d;
    Act(st, b, feeds, next, AssetFeed(st.book, AssetFor(next)), Value(b, feeds))
  }

  /** `next()` on one bar, for the broker b and the evaluated indicators:
      drawdown bookkeeping and the gate, then the reads that pick the
      regime and its ETF, then `Act`. A rotation happens exactly when the
      gate is open, every read succeeds, the regime is new and the holdings
      are not already just its ETF. */
  function FtltNext(st: Ftlt, b: Broker, feeds: seq<Feed>, inds: seq<Indicator>): (r: Result<(Ftlt, Broker)>)
    requires |feeds| > 0 && AllCursorsOk(feeds) && BookWithin(st.book, |feeds|) && IndicatorsFit(inds, |feeds|)
    ensures Gate(st, b, feeds).Err? ==> r == Err(Gate(st, b, feeds).fault)
    ensures Gate(st, b, feeds).Ok? && !Gate(st, b, feeds).value.1 ==>
              r == Ok((st.(base := Gate(st, b, feeds).value.0), b))
    ensures Gate(st, b, feeds).Ok? && Gate(st, b, feeds).value.1 ==>
              r == Proceed(st.(base := Gate(st, b, feeds).value.0), b, feeds, Decision(st, inds, feeds))
    ensures r.Ok? ==> r.value.0.owner == st.owner && r.value.0.book == st.book && r.value.0.params == st.params
    ensures r.Ok? ==> r.value.0.startValue == st.startValue
    ensures r.Ok? && Gate(st, b, feeds).value.1 ==> r.value.0.state == Some(Regime(st, inds, feeds))
    ensures r.Ok? ==> forall k :: Size(r.value.1, k) == Size(b, k)
    ensures r.Ok? ==> r.value.1.cash == b.cash && r.value.1.useOpen == b.useOpen
    ensures r.Ok? && RefersTo(b, |feeds|) ==> RefersTo(r.value.1, |feeds|)
    ensures r.Ok? ==> r.value.1.pending == b.pending || r.value.1 == Rotation(b, feeds, st.book, TargetFeed(st, inds, feeds), st.owner)
    ensures r.Ok? && r.value.1.pending != b.pending ==>
              Gate(st, b, feeds).value.1 && r.value.0.state != st.state
  {
    var gate :- Gate(st, b, feeds);
    if !gate.1 then Ok((st.(base := gate.0), b))
    else Proceed(st.(base := gate.0), b, feeds, Decision(st, inds, feeds))
  }

  /** With the gate open, a bar raises exactly when a read on the way to
      the regime raises or the growth percentages divide by a zero start
      value. */
  lemma NextFaults(st: Ftlt, b: Broker, feeds: seq<Feed>, inds: seq<Indicator>)
    requires |feeds| > 0 && AllCursorsOk(feeds) && BookWithin(st.book, |feeds|) && IndicatorsFit(inds, |feeds|)
    requires Gate(st, b, feeds).Ok? && Gate(st, b, feeds).value.1
    ensures FtltNext(st, b, feeds, inds).Err? <==> Decision(st, inds, feeds).Err? || st.startValue == 0.0
    ensures FtltNext(st, b, feeds, inds).Err? && Decision(st, inds, feeds).Ok? ==>
              FtltNext(st, b, feeds, inds).fault == ZeroDivision
  {
  }

  /** A bar places orders exactly when the gate is open, the regime is new
      and the holdings are not already just its ETF; the orders are then
      the rotation into that ETF, appended to the queue. */
  lemma NextRotates(st: Ftlt, b: Broker, feeds: seq<Feed>, inds: seq<Indicator>)
    requires |feeds| > 0 && AllCursorsOk(feeds) && BookWithin(st.book, |feeds|) && IndicatorsFit(inds, |feeds|)
    requires FtltNext(st, b, feeds, inds).Ok?
    ensures var b' := FtltNext(st, b, feeds, inds).value.1;
            var target := TargetFeed(st, inds, feeds);
            && b.pending <= b'.pending
            && (b'.pending != b.pending <==>
                  Gate(st, b, feeds).value.1 && st.state != Some(Regime(st, inds, feeds))
                  && !OnlyTargetHeld(b, st.book, target))
            && (b'.pending != b.pending ==> RotationOrders(b'.pending[|b.pending|..], b, feeds, st.book, target, st.owner))
  {
    var gate := Gate(st, b, feeds).value;
    if gate.1 {
      ActRotates(st.(base := gate.0), b, feeds, Regime(st, inds, feeds), TargetFeed(st, inds, feeds), Value(b, feeds));
    }
  }

  /** Settling a rotation's orders, on the next bar's feeds, leaves every
      ETF other than the target flat: each held one was closed and none of
      them is bought. */
  lemma RotationLeavesOnlyTarget(b: Broker, feeds: seq<Feed>, book: Book, target: nat, owner: nat,
                                 c: Broker, later: seq<Feed>)
    requires BookWithin(book, |feeds|) && target < |feeds|
    requires forall a :: |feeds[AssetFeed(book, a)].bars| > 0
    requires |later| == |feeds| && AllCursorsOk(later) && RefersTo(c, |later|)
    requires forall k :: Size(c, k) == Size(b, k)
    requires RotationOrders(c.pending, b, feeds, book, target, owner)
    ensures var r := ExecutePending(c, later);
            r.Ok? ==> forall a :: AssetFeed(book, a) != target ==> Size(r.value.0, AssetFeed(book, a)) == 0.0
  {
    assert forall i :: 0 <= i < |c.pending| && c.pending[i].created.BuyIntent? ==> i == |c.pending| - 1;
    assert forall k :: k != target ==> !BuysOn(c.pending, k);
    var r := ExecutePending(c, later);
    if r.Ok? {
      forall a | AssetFeed(book, a) != target ensures Size(r.value.0, AssetFeed(book, a)) == 0.0 {
        var k := AssetFeed(book, a);
        assert a in AllAssets;
        if !SellsOn(c.pending, k) {
          assert Size(b, k) == 0.0;
        }
      }
    }
  }

  /** On an empty queue, a bar that rotates leaves exactly the rotation's
      orders pending, and settling them on the next bar flattens every ETF
      other than the new target. */
  lemma NextThenSettle(st: Ftlt, b: Broker, feeds: seq<Feed>, inds: seq<Indicator>, later: seq<Feed>)
    requires |feeds| > 0 && AllCursorsOk(feeds) && BookWithin(st.book, |feeds|) && IndicatorsFit(inds, |feeds|)
    requires b.pending == [] && RefersTo(b, |feeds|)
    requires forall a :: |feeds[AssetFeed(st.book, a)].bars| > 0
    requires |later| == |feeds| && AllCursorsOk(later)
    requires FtltNext(st, b, feeds, inds).Ok? && FtltNext(st, b, feeds, inds).value.1.pending != []
    ensures var r := ExecutePending(FtltNext(st, b, feeds, inds).value.1, later);
            r.Ok? ==> forall a :: AssetFeed(st.book, a) != TargetFeed(st, inds, feeds) ==>
                        Size(r.value.0, AssetFeed(st.book, a)) == 0.0
  {
    var c := FtltNext(st, b, feeds, inds).value.1;
    assert c.pending[|b.pending|..] == c.pending;
    RotationLeavesOnlyTarget(b, feeds, st.book, TargetFeed(st, inds, feeds), st.owner, c, later);
  }
}
