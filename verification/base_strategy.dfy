/** The shared strategy infrastructure (mytrader/mt_base_strategy.py): the
    trading gate on `trade_start`, the maximum-drawdown tracker, and the
    status branching of the order notification. */
module BaseStrategy {
  import opened Base
  import opened Feeds
  import opened Orders
  import opened Strategy

  /** The drawdown and gate state `__init__` sets up. */
  datatype BaseState = BaseState(peak: real, maxDdPct: real, maxDdDate: Option<int>, maxDdValue: real,
                                 minValue: real, tradingEnabled: bool)

  /** `__init__` with the broker value v. */
  function NewBaseState(v: real): (s: BaseState)
    ensures s.peak == v && s.maxDdPct == 0.0 && s.maxDdDate.None? && s.maxDdValue == v
    ensures s.minValue == v && !s.tradingEnabled
  {
    BaseState(v, 0.0, None, v, v, false)
  }

  /** `trading_allowed()`: true without a start date; otherwise false before
      it and true from it on, the flag being raised on the first such bar.
      `master` is the first feed, whose cursor row gives today's date. */
  function TradingAllowed(s: BaseState, params: Params, master: Feed): (r: Result<(BaseState, bool)>)
    requires CursorOk(master)
    ensures "trade_start" !in params ==> r == Err(AttributeError("trade_start"))
    ensures "trade_start" in params && params["trade_start"] == PNone ==> r == Ok((s, true))
    ensures "trade_start" in params && params["trade_start"].PDate? && Date(master).Ok? ==>
              var start := params["trade_start"].day;
              var today := Date(master).value;
              && (today < start ==> r == Ok((s, false)))
              && (today >= start ==> r == Ok((s.(tradingEnabled := true), true)))
    ensures r.Ok? ==> r.value.0 == s || r.value.0 == s.(tradingEnabled := true)
    ensures r.Ok? && s.tradingEnabled ==> r.value.0 == s
  {
    if "trade_start" !in params then Err(AttributeError("trade_start"))
    else
      var start := params["trade_start"];
      if start == PNone then Ok((s, true))
      else
        var today :- Date(master);
        if !start.PDate? then Err(TypeError)
        else if today < start.day then Ok((s, false))
        else Ok((s.(tradingEnabled := true), true))
  }

  /** Once raised, the trading flag stays raised through any sequence of
      gate checks. */
  lemma TradingFlagNeverResets(s: BaseState, params: Params, master: Feed)
    requires CursorOk(master) && TradingAllowed(s, params, master).Ok?
    ensures s.tradingEnabled ==> TradingAllowed(s, params, master).value.0.tradingEnabled
    ensures TradingAllowed(s, params, master).value.1 ==>
              TradingAllowed(TradingAllowed(s, params, master).value.0, params, master)
                == Ok((TradingAllowed(s, params, master).value.0, true))
  {
  }

  /** `_update_drawdown()` with the broker value v: nothing while the gate is
      shut; a strict new peak moves only the peak; otherwise a deeper
      drawdown is recorded with its date and value, and the minimum value
      follows v down. */
  function UpdateDrawdown(s: BaseState, params: Params, master: Feed, v: real): (r: Result<BaseState>)
    requires CursorOk(master)
    ensures TradingAllowed(s, params, master).Err? ==> r == Err(TradingAllowed(s, params, master).fault)
    ensures TradingAllowed(s, params, master).Ok? && !TradingAllowed(s, params, master).value.1 ==>
              r == Ok(s)
    ensures r.Ok? ==> r.value.peak == s.peak || (r.value.peak == v && v > s.peak)
    ensures r.Ok? ==> r.value.peak >= s.peak && r.value.maxDdPct >= s.maxDdPct && r.value.minValue <= s.minValue
    ensures r.Ok? && v > s.peak && TradingAllowed(s, params, master).value.1 ==>
              r.value == TradingAllowed(s, params, master).value.0.(peak := v)
    ensures r.Ok? && r.value.maxDdPct != s.maxDdPct ==>
              && s.peak != 0.0 && Date(master).Ok?
              && r.value.maxDdPct == (s.peak - v) / s.peak * 100.0
              && r.value.maxDdValue == v && r.value.maxDdDate == Some(Date(master).value)
  {
    var (s1, allowed) :- TradingAllowed(s, params, master);
    if !allowed then Ok(s1)
    else
      var today :- Date(master);
      if v > s1.peak then Ok(s1.(peak := v))
      else if s1.peak == 0.0 then Err(ZeroDivision)
      else
        var dd := (s1.peak - v) / s1.peak * 100.0;
        var s2 := if dd > s1.maxDdPct then s1.(maxDdPct := dd, maxDdDate := Some(today), maxDdValue := v) else s1;
        Ok(s2.(minValue := MinReal(s2.minValue, v)))
  }

  /** With the gate open, after an update the peak is at least the value,
      and the minimum is at most the value unless the value set a new peak. */
  lemma PeakDominatesValue(s: BaseState, params: Params, master: Feed, v: real)
    requires CursorOk(master) && UpdateDrawdown(s, params, master, v).Ok?
    requires TradingAllowed(s, params, master).value.1
    ensures UpdateDrawdown(s, params, master, v).value.peak >= v
    ensures UpdateDrawdown(s, params, master, v).value.minValue <= v || v > s.peak
  {
  }

  /** What `notify_order` does with an order, by status. */
  datatype Notice = LogRejection | LogExecution | Silent

  /** Canceled, Margin and Rejected are logged as rejections, Completed as
      an execution, and every other status is passed over. */
  function NoticeFor(o: Order): (n: Notice)
    ensures n == LogRejection <==> o.status in {Canceled, Margin, Rejected}
    ensures n == LogExecution <==> o.status == Completed
  {
    if o.status == Canceled || o.status == Margin || o.status == Rejected then LogRejection
    else if o.status != Completed then Silent
    else LogExecution
  }

  /** The broker only ever notifies Completed orders, so a settlement is
      always logged as an execution. */
  lemma SettledOrdersLogAsExecutions(os: seq<Order>)
    requires forall i :: 0 <= i < |os| ==> os[i].status == Completed
    ensures forall i :: 0 <= i < |os| ==> NoticeFor(os[i]) == LogExecution
  {
  }
}
