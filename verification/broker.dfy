/** The simulated broker (mytrader/broker.py): cash, one position size per
    feed, and a queue of pending orders settled once per bar, every SELL
    before any BUY. A SELL is a hard close; a BUY is target-percent sizing
    clamped to cash and truncated to whole shares from one share up. */
module Brokerage {
  import opened Base
  import opened Feeds
  import opened Orders

  /** Positions are keyed by the feed's position in the engine's feed list. */
  datatype Broker = Broker(cash: real, positions: map<nat, real>, pending: seq<Order>, useOpen: bool)

  /** `Broker(cash)`. */
  function NewBroker(cash: real): Broker {
    Broker(cash, map[], [], false)
  }

  /** Every position and every pending order refers to one of n feeds. */
  predicate RefersTo(b: Broker, n: nat) {
    (forall k :: k in b.positions ==> k < n)
    && (forall i :: 0 <= i < |b.pending| ==> b.pending[i].feed < n)
  }

  /** `submit(order)`: append to the pending queue. */
  function Submit(b: Broker, o: Order): (r: Broker)
    ensures r.pending == b.pending + [o]
    ensures r.cash == b.cash && r.positions == b.positions && r.useOpen == b.useOpen
  {
    b.(pending := b.pending + [o])
  }

  /** The size held on feed k; a missing entry is a flat position. */
  function Size(b: Broker, k: nat): real {
    if k in b.positions then b.positions[k] else 0.0
  }

  /** `getposition(data)`: the size held, creating a flat entry on first
      access (`setdefault`). */
  function GetPosition(b: Broker, k: nat): (r: (Broker, real))
    ensures r.1 == Size(b, k)
    ensures k in r.0.positions && r.0.positions[k] == Size(b, k)
    ensures forall j :: j != k ==> (j in r.0.positions <==> j in b.positions)
    ensures forall j :: j in b.positions ==> j in r.0.positions && r.0.positions[j] == b.positions[j]
    ensures r.0.cash == b.cash && r.0.pending == b.pending && r.0.useOpen == b.useOpen
    ensures forall j :: Size(r.0, j) == Size(b, j)
  {
    if k in b.positions then (b, b.positions[k]) else (b.(positions := b.positions[k := 0.0]), 0.0)
  }

  // ---------------------------------------------------------------------
  // Valuation
  // ---------------------------------------------------------------------

  /** The marked value of feed k's position: size × close[0], counted only
      for a non-zero position on a feed whose cursor has reached a row. */
  function Mark(b: Broker, feeds: seq<Feed>, k: nat): real
    requires k < |feeds| && CursorOk(feeds[k])
  {
    if Size(b, k) != 0.0 && feeds[k].idx >= 0 then Size(b, k) * feeds[k].bars[feeds[k].idx].close else 0.0
  }

  /** The marked value of the positions on feeds 0..n-1. */
  function Marked(b: Broker, feeds: seq<Feed>, n: nat): real
    requires n <= |feeds| && AllCursorsOk(feeds)
  {
    if n == 0 then 0.0 else Marked(b, feeds, n - 1) + Mark(b, feeds, n - 1)
  }

  /** `getvalue()`: cash plus the marked positions. */
  function Value(b: Broker, feeds: seq<Feed>): real
    requires AllCursorsOk(feeds)
  {
    b.cash + Marked(b, feeds, |feeds|)
  }

  /** The marked sum only depends on the position sizes. */
  lemma {:induction false} MarkedBySizes(b: Broker, c: Broker, feeds: seq<Feed>, n: nat)
    requires n <= |feeds| && AllCursorsOk(feeds)
    requires forall k :: 0 <= k < n ==> Size(b, k) == Size(c, k)
    ensures Marked(b, feeds, n) == Marked(c, feeds, n)
  {
    if n > 0 {
      MarkedBySizes(b, c, feeds, n - 1);
    }
  }

  /** With every position flat the value is the cash. */
  lemma {:induction false} ValueWhenFlat(b: Broker, feeds: seq<Feed>)
    requires AllCursorsOk(feeds)
    requires forall k :: k in b.positions ==> b.positions[k] == 0.0
    ensures Value(b, feeds) == b.cash
  {
    MarkedBySizes(b, NewBroker(b.cash), feeds, |feeds|);
    FlatMarked(feeds, |feeds|, b.cash);
  }

  lemma {:induction false} FlatMarked(feeds: seq<Feed>, n: nat, cash: real)
    requires n <= |feeds| && AllCursorsOk(feeds)
    ensures Marked(NewBroker(cash), feeds, n) == 0.0
  {
    if n > 0 {
      FlatMarked(feeds, n - 1, cash);
    }
  }

  /** Creating a flat entry with `getposition` does not change the value. */
  lemma GetPositionKeepsValue(b: Broker, feeds: seq<Feed>, k: nat)
    requires AllCursorsOk(feeds)
    ensures Value(GetPosition(b, k).0, feeds) == Value(b, feeds)
  {
    MarkedBySizes(GetPosition(b, k).0, b, feeds, |feeds|);
  }

  // ---------------------------------------------------------------------
  // Settling one order
  // ---------------------------------------------------------------------

  /** The execution price: the bar's open when configured so, else the
      price quoted at submission. None is NaN. */
  function ExecPrice(b: Broker, feeds: seq<Feed>, o: Order): Option<real>
    requires o.feed < |feeds|
  {
    if b.useOpen then Field(feeds[o.feed], Open, 0) else o.created.price
  }

  /** The result of settling one order: the broker afterwards, the order
      afterwards, and whether the owning strategy was notified. */
  datatype Settled = Settled(broker: Broker, order: Order, notified: bool)

  /** `_execute_sell(o)`: a no-op on a flat position; otherwise a hard close
      that credits `-created.size × price` whatever the current size is. */
  function ExecuteSell(b: Broker, feeds: seq<Feed>, o: Order): (r: Result<Settled>)
    requires o.created.SellIntent? && o.feed < |feeds|
    ensures Size(b, o.feed) == 0.0 ==>
              r == Ok(Settled(GetPosition(b, o.feed).0, o, false))
    ensures Size(b, o.feed) != 0.0 && o.created.size.None? ==> r == Err(TypeError)
    ensures Size(b, o.feed) != 0.0 && o.created.size.Some? && ExecPrice(b, feeds, o).None?
            ==> r == Err(NanArithmetic)
    ensures r.Ok? && r.value.notified ==>
              var p := ExecPrice(b, feeds, o).value;
              var s := o.created.size.value;
              && Size(r.value.broker, o.feed) == 0.0
              && r.value.broker.cash == b.cash - s * p
              && r.value.order.status == Completed
              && r.value.order.executed == Executed(s, p, Datetime(feeds[o.feed]))
    ensures r.Ok? ==> forall j :: j != o.feed ==> Size(r.value.broker, j) == Size(b, j)
    ensures r.Ok? ==> r.value.broker.pending == b.pending && r.value.broker.useOpen == b.useOpen
    ensures r.Ok? ==> r.value.order.feed == o.feed && r.value.order.created == o.created
    ensures r.Ok? ==> forall j :: j in r.value.broker.positions ==> j in b.positions || j == o.feed
  {
    var price := ExecPrice(b, feeds, o);
    var looked := GetPosition(b, o.feed);
    var b1 := looked.0;
    if looked.1 == 0.0 then Ok(Settled(b1, o, false))
    else if o.created.size.None? then Err(TypeError)
    else if price.None? then Err(NanArithmetic)
    else
      var size := o.created.size.value;
      var p := price.value;
      var b2 := b1.(cash := b1.cash - size * p, positions := b1.positions[o.feed := 0.0]);
      Ok(Settled(b2, o.(status := Completed, executed := Executed(size, p, Datetime(feeds[o.feed]))), true))
  }

  /** The share count a BUY of `delta` money settles with at price p and
      the cash on hand: the money delta in shares, capped by what cash
      affords, and truncated to a whole count when at least one share. */
  function ClampedShares(delta: real, p: real, cash: real): real
    requires p != 0.0
  {
    var capped := MinReal(delta / p, cash / p);
    if capped >= 1.0 then capped.Floor as real else capped
  }

  /** How a BUY resolves once its price p and money delta are known. */
  datatype BuyDecision = Drop | Fail(fault: Fault) | Fill(size: real)

  /** The tail of `_execute_buy`: already at target, a reduction, a clamped
      size below the tolerance, or a fill. Prices are float64 values read
      from the frame, so dividing by a zero price does not raise: a
      reduction becomes -inf shares and is dropped, and an increase becomes
      +inf shares. With cash not negative, `cash / price` is +inf or NaN,
      `min` keeps the +inf, and `int()` rejects it with OverflowError; with
      negative cash the size is -inf and the cash turns NaN. */
  function DecideBuy(delta: real, p: real, cash: real): (d: BuyDecision)
    ensures d.Fill? ==> Abs(d.size) >= Eps && (d.size >= 1.0 ==> d.size == d.size.Floor as real)
    ensures d.Fill? && p > 0.0 && cash >= 0.0 ==> 0.0 < d.size && d.size * p <= cash && d.size * p <= delta
    ensures d.Fail? <==> p == 0.0 && delta >= Eps
    ensures d.Fail? ==> d.fault == if cash >= 0.0 then OverflowError else NanArithmetic
    ensures delta <= 0.0 && p >= 0.0 ==> d == Drop
  {
    if Abs(delta) < Eps then Drop
    else if p == 0.0 then
      if delta < 0.0 then Drop
      else if cash >= 0.0 then Fail(OverflowError)
      else Fail(NanArithmetic)
    else if delta / p <= 0.0 then Drop
    else
      var size := ClampedShares(delta, p, cash);
      if Abs(size) < Eps then Drop
      else
        BuyArithmetic(delta, p, cash, size);
        Fill(size)
  }

  /** The clamped, truncated share count is whole from one share up,
      affordable, does not overshoot the target, and is not negative when
      price and cash are positive. */
  lemma BuyArithmetic(delta: real, p: real, cash: real, size: real)
    requires p != 0.0 && delta / p > 0.0 && size == ClampedShares(delta, p, cash)
    ensures size >= 1.0 ==> size == size.Floor as real
    ensures p > 0.0 && cash >= 0.0 ==> 0.0 <= size && size * p <= cash && size * p <= delta
  {
    var capped := MinReal(delta / p, cash / p);
    if p > 0.0 && cash >= 0.0 {
      assert capped <= cash / p && capped <= delta / p;
      assert size <= capped;
      assert capped * p <= cash && capped * p <= delta;
      assert size * p <= capped * p;
    }
  }

  /** The money a BUY on feed k still has to invest to reach `pct` of the
      portfolio value at price p. */
  function BuyDelta(b: Broker, feeds: seq<Feed>, k: nat, pct: real, p: real): real
    requires AllCursorsOk(feeds)
  {
    Value(b, feeds) * pct - Size(b, k) * p
  }

  /** `_execute_buy(o)`: tops the position up towards `target_pct` of the
      portfolio value, by the share count `DecideBuy` settles on. */
  function ExecuteBuy(b: Broker, feeds: seq<Feed>, o: Order): (r: Result<Settled>)
    requires o.created.BuyIntent? && o.feed < |feeds|
    requires AllCursorsOk(feeds)
    ensures o.created.targetPct.None? ==> r == Err(TypeError)
    ensures o.created.targetPct.Some? && ExecPrice(b, feeds, o).None? ==> r == Err(NanArithmetic)
    ensures o.created.targetPct.Some? && ExecPrice(b, feeds, o).Some? ==>
              var p := ExecPrice(b, feeds, o).value;
              match DecideBuy(BuyDelta(b, feeds, o.feed, o.created.targetPct.value, p), p, b.cash)
              case Drop => r == Ok(Settled(GetPosition(b, o.feed).0, o, false))
              case Fail(f) => r == Err(f)
              case Fill(size) =>
                && r.Ok? && r.value.notified
                && r.value.order == o.(status := Completed, executed := Executed(size, p, Datetime(feeds[o.feed])))
                && r.value.broker.cash == b.cash - size * p
                && Size(r.value.broker, o.feed) == Size(b, o.feed) + size
    ensures r.Ok? ==> forall j :: j != o.feed ==> Size(r.value.broker, j) == Size(b, j)
    ensures r.Ok? ==> r.value.broker.pending == b.pending && r.value.broker.useOpen == b.useOpen
    ensures r.Ok? ==> r.value.order.feed == o.feed && r.value.order.created == o.created
    ensures r.Ok? ==> forall j :: j in r.value.broker.positions ==> j in b.positions || j == o.feed
  {
    var price := ExecPrice(b, feeds, o);
    var looked := GetPosition(b, o.feed);
    var b1, held := looked.0, looked.1;
    if o.created.targetPct.None? then Err(TypeError)
    else if price.None? then Err(NanArithmetic)
    else
      var p := price.value;
      // getvalue() runs after getposition(); the flat entry it may add is worth nothing.
      var delta := BuyDelta(b1, feeds, o.feed, o.created.targetPct.value, p);
      GetPositionKeepsValue(b, feeds, o.feed);
      assert delta == BuyDelta(b, feeds, o.feed, o.created.targetPct.value, p);
      match DecideBuy(delta, p, b1.cash)
      case Drop => Ok(Settled(b1, o, false))
      case Fail(f) => Err(f)
      case Fill(size) =>
        var b2 := b1.(cash := b1.cash - size * p, positions := b1.positions[o.feed := held + size]);
        Ok(Settled(b2, o.(status := Completed, executed := Executed(size, p, Datetime(feeds[o.feed]))), true))
  }

  /** A dropped BUY changes neither the order, the cash nor the value: at
      most `getposition` added a flat entry. */
  lemma DroppedBuyKeepsValue(b: Broker, feeds: seq<Feed>, o: Order)
    requires o.created.BuyIntent? && o.feed < |feeds| && AllCursorsOk(feeds)
    requires ExecuteBuy(b, feeds, o).Ok? && !ExecuteBuy(b, feeds, o).value.notified
    ensures ExecuteBuy(b, feeds, o).value.order == o
    ensures ExecuteBuy(b, feeds, o).value.broker.cash == b.cash
    ensures Value(ExecuteBuy(b, feeds, o).value.broker, feeds) == Value(b, feeds)
  {
    GetPositionKeepsValue(b, feeds, o.feed);
  }

  /** What a settled BUY promises: it records the size and price that moved
      cash, and buys a whole count from one share up. */
  lemma FilledBuyBounds(b: Broker, feeds: seq<Feed>, o: Order)
    requires o.created.BuyIntent? && o.feed < |feeds| && AllCursorsOk(feeds)
    requires ExecuteBuy(b, feeds, o).Ok? && ExecuteBuy(b, feeds, o).value.notified
    ensures var r := ExecuteBuy(b, feeds, o).value;
            var e := r.order.executed;
            && r.order.status == Completed
            && r.broker.cash == b.cash - e.size * e.price
            && Size(r.broker, o.feed) == Size(b, o.feed) + e.size
            && Abs(e.size) >= Eps
            && (e.size >= 1.0 ==> e.size == e.size.Floor as real)
  {
    FilledBuyDecision(b, feeds, o);
  }

  /** With a positive price and no debt, a filled BUY buys a positive
      number of shares, stays within the cash and does not overshoot the
      target value. */
  lemma FilledBuyAffordable(b: Broker, feeds: seq<Feed>, o: Order)
    requires o.created.BuyIntent? && o.feed < |feeds| && AllCursorsOk(feeds)
    requires ExecuteBuy(b, feeds, o).Ok? && ExecuteBuy(b, feeds, o).value.notified
    ensures var e := ExecuteBuy(b, feeds, o).value.order.executed;
            e.price > 0.0 && b.cash >= 0.0 ==>
              && e.size > 0.0
              && ExecuteBuy(b, feeds, o).value.broker.cash >= 0.0
              && e.size * e.price <= BuyDelta(b, feeds, o.feed, o.created.targetPct.value, e.price)
  {
    FilledBuyDecision(b, feeds, o);
    var p := ExecPrice(b, feeds, o).value;
    var d := DecideBuy(BuyDelta(b, feeds, o.feed, o.created.targetPct.value, p), p, b.cash);
    var e := ExecuteBuy(b, feeds, o).value.order.executed;
    assert e.size == d.size && e.price == p;
  }

  /** A broker with no cash and no open position fills no BUY: the target
      is a share of a zero value and the position is worth nothing, so the
      buy is already at target. */
  lemma PennilessBuysNothing(b: Broker, feeds: seq<Feed>, o: Order)
    requires o.created.BuyIntent? && o.feed < |feeds| && AllCursorsOk(feeds)
    requires b.cash == 0.0 && forall k :: k in b.positions ==> b.positions[k] == 0.0
    ensures ExecuteBuy(b, feeds, o).Ok? ==> !ExecuteBuy(b, feeds, o).value.notified
  {
  }

  /** A notified BUY is exactly a `Fill` decision, settled at its price. */
  lemma FilledBuyDecision(b: Broker, feeds: seq<Feed>, o: Order)
    requires o.created.BuyIntent? && o.feed < |feeds| && AllCursorsOk(feeds)
    requires ExecuteBuy(b, feeds, o).Ok? && ExecuteBuy(b, feeds, o).value.notified
    ensures o.created.targetPct.Some? && ExecPrice(b, feeds, o).Some?
    ensures var p := ExecPrice(b, feeds, o).value;
            var d := DecideBuy(BuyDelta(b, feeds, o.feed, o.created.targetPct.value, p), p, b.cash);
            var r := ExecuteBuy(b, feeds, o).value;
            && d.Fill?
            && r.order.status == Completed
            && r.order.executed.size == d.size && r.order.executed.price == p
            && r.broker.cash == b.cash - d.size * p
            && Size(r.broker, o.feed) == Size(b, o.feed) + d.size
  {
  }

  // ---------------------------------------------------------------------
  // Settling the queue
  // ---------------------------------------------------------------------

  /** True when some order in `orders` is a SELL on feed k. */
  predicate SellsOn(orders: seq<Order>, k: nat) {
    exists i :: 0 <= i < |orders| && orders[i].created.SellIntent? && orders[i].feed == k
  }

  /** Appending orders keeps every SELL already there. */
  lemma SellsOnPrefix(xs: seq<Order>, ys: seq<Order>)
    ensures forall k :: SellsOn(xs, k) ==> SellsOn(xs + ys, k)
  {
    forall k | SellsOn(xs, k) ensures SellsOn(xs + ys, k) {
      var i :| 0 <= i < |xs| && xs[i].created.SellIntent? && xs[i].feed == k;
      assert (xs + ys)[i] == xs[i];
    }
  }

  /** True when some order in `orders` is a BUY on feed k. */
  predicate BuysOn(orders: seq<Order>, k: nat) {
    exists i :: 0 <= i < |orders| && orders[i].created.BuyIntent? && orders[i].feed == k
  }

  /** Every order is a SELL and Completed. */
  predicate AllCompletedSells(os: seq<Order>) {
    forall i :: 0 <= i < |os| ==> os[i].created.SellIntent? && os[i].status == Completed
  }

  /** Every order is a BUY and Completed. */
  predicate AllCompletedBuys(os: seq<Order>) {
    forall i :: 0 <= i < |os| ==> os[i].created.BuyIntent? && os[i].status == Completed
  }

  /** The first loop of `execute_pending`: every SELL in queue order;
      returns the broker and the orders whose strategy was notified. */
  function SellPass(b: Broker, feeds: seq<Feed>, orders: seq<Order>): (r: Result<(Broker, seq<Order>)>)
    requires forall i :: 0 <= i < |orders| ==> orders[i].feed < |feeds|
    ensures r.Ok? ==> AllCompletedSells(r.value.1) && |r.value.1| <= |orders|
    ensures r.Ok? ==> forall k :: SellsOn(orders, k) ==> Size(r.value.0, k) == 0.0
    ensures r.Ok? ==> forall k :: !SellsOn(orders, k) ==> Size(r.value.0, k) == Size(b, k)
    ensures r.Ok? ==> r.value.0.pending == b.pending && r.value.0.useOpen == b.useOpen
    ensures r.Ok? ==> forall j :: j in r.value.0.positions ==> j in b.positions || SellsOn(orders, j)
    decreases |orders|
  {
    if |orders| == 0 then Ok((b, []))
    else
      var rest := orders[1..];
      SellsOnTail(orders);
      if orders[0].created.SellIntent? then
        var s :- ExecuteSell(b, feeds, orders[0]);
        var tail :- SellPass(s.broker, feeds, rest);
        Ok((tail.0, (if s.notified then [s.order] else []) + tail.1))
      else
        SellPass(b, feeds, rest)
  }

  /** Every BUY order's execution price is positive or NaN. */
  predicate BuyPricesPositive(b: Broker, feeds: seq<Feed>, orders: seq<Order>)
    requires forall i :: 0 <= i < |orders| ==> orders[i].feed < |feeds|
  {
    forall i :: 0 <= i < |orders| && orders[i].created.BuyIntent? ==>
      ExecPrice(b, feeds, orders[i]).None? || ExecPrice(b, feeds, orders[i]).value > 0.0
  }

  /** A feed sold or bought on the rest of a queue is so on the queue. */
  lemma SellsOnTail(orders: seq<Order>)
    requires |orders| > 0
    ensures forall k :: SellsOn(orders[1..], k) ==> SellsOn(orders, k)
  {
    forall k | SellsOn(orders[1..], k) ensures SellsOn(orders, k) {
      var i :| 0 <= i < |orders[1..]| && orders[1..][i].created.SellIntent? && orders[1..][i].feed == k;
      assert orders[i + 1] == orders[1..][i];
    }
  }

  lemma BuysOnTail(orders: seq<Order>)
    requires |orders| > 0
    ensures forall k :: BuysOn(orders[1..], k) ==> BuysOn(orders, k)
  {
    forall k | BuysOn(orders[1..], k) ensures BuysOn(orders, k) {
      var i :| 0 <= i < |orders[1..]| && orders[1..][i].created.BuyIntent? && orders[1..][i].feed == k;
      assert orders[i + 1] == orders[1..][i];
    }
  }

  /** Execution prices depend on the broker only through its price mode. */
  lemma BuyPricesPositiveTail(b: Broker, b1: Broker, feeds: seq<Feed>, orders: seq<Order>)
    requires |orders| > 0 && forall i :: 0 <= i < |orders| ==> orders[i].feed < |feeds|
    requires b1.useOpen == b.useOpen
    ensures BuyPricesPositive(b, feeds, orders) ==> BuyPricesPositive(b1, feeds, orders[1..])
  {
    if BuyPricesPositive(b, feeds, orders) {
      forall i | 0 <= i < |orders[1..]| && orders[1..][i].created.BuyIntent?
        ensures ExecPrice(b1, feeds, orders[1..][i]).None? || ExecPrice(b1, feeds, orders[1..][i]).value > 0.0
      {
        assert orders[1..][i] == orders[i + 1];
      }
    }
  }

  /** The second loop of `execute_pending`: every BUY in queue order. */
  function BuyPass(b: Broker, feeds: seq<Feed>, orders: seq<Order>): (r: Result<(Broker, seq<Order>)>)
    requires forall i :: 0 <= i < |orders| ==> orders[i].feed < |feeds|
    requires AllCursorsOk(feeds)
    ensures r.Ok? ==> AllCompletedBuys(r.value.1) && |r.value.1| <= |orders|
    ensures r.Ok? ==> forall k :: !BuysOn(orders, k) ==> Size(r.value.0, k) == Size(b, k)
    ensures r.Ok? ==> r.value.0.pending == b.pending && r.value.0.useOpen == b.useOpen
    ensures r.Ok? ==> forall j :: j in r.value.0.positions ==> j in b.positions || BuysOn(orders, j)
    ensures r.Ok? && b.cash >= 0.0 && BuyPricesPositive(b, feeds, orders) ==>
              r.value.0.cash >= 0.0 && forall k :: Size(r.value.0, k) >= Size(b, k)
    decreases |orders|
  {
    if |orders| == 0 then Ok((b, []))
    else
      var rest := orders[1..];
      BuysOnTail(orders);
      if orders[0].created.BuyIntent? then
        var s :- ExecuteBuy(b, feeds, orders[0]);
        BuyPricesPositiveTail(b, s.broker, feeds, orders);
        var tail :- BuyPass(s.broker, feeds, rest);
        Ok((tail.0, (if s.notified then [s.order] else []) + tail.1))
      else
        BuyPass(b, feeds, rest)
  }

  /** `execute_pending()`: every SELL, then every BUY, then the queue is
      cleared whatever settled or was dropped. Returns the broker and the
      notified orders in notification order. */
  function ExecutePending(b: Broker, feeds: seq<Feed>): (r: Result<(Broker, seq<Order>)>)
    requires RefersTo(b, |feeds|) && AllCursorsOk(feeds)
    ensures r.Ok? ==> r.value.0.pending == [] && RefersTo(r.value.0, |feeds|)
    ensures r.Ok? ==> r.value.0.useOpen == b.useOpen
    ensures r.Ok? ==> forall i :: 0 <= i < |r.value.1| ==> r.value.1[i].status == Completed
    ensures r.Ok? ==> forall i, j :: 0 <= i < j < |r.value.1| && r.value.1[i].created.BuyIntent?
                        ==> r.value.1[j].created.BuyIntent?
    ensures r.Ok? ==> forall k :: SellsOn(b.pending, k) && !BuysOn(b.pending, k) ==> Size(r.value.0, k) == 0.0
    ensures r.Ok? ==> forall k :: !SellsOn(b.pending, k) && !BuysOn(b.pending, k)
                        ==> Size(r.value.0, k) == Size(b, k)
  {
    var sold :- SellPass(b, feeds, b.pending);
    var bought :- BuyPass(sold.0, feeds, b.pending);
    var notes := sold.1 + bought.1;
    assert forall i :: 0 <= i < |sold.1| ==> notes[i] == sold.1[i];
    assert forall i :: |sold.1| <= i < |notes| ==> notes[i] == bought.1[i - |sold.1|];
    Ok((bought.0.(pending := []), notes))
  }

  // ---------------------------------------------------------------------
  // Scenarios
  // ---------------------------------------------------------------------

  /** A one-bar feed whose only close is `price`, with the cursor on it. */
  function OneBar(price: real): Feed {
    Feed(None, [Bar(0, price, price, price, price)], 0)
  }

  /** Cash 10000, price 100, a 100% BUY: exactly 100 shares and no cash left,
      and the value is still 10000. */
  lemma FullBuyScenario()
    ensures var feeds := [OneBar(100.0)];
            var o := Order(0, 0, BuyIntent(Some(100.0), Some(1.0)), Submitted, Executed(0.0, 0.0, None));
            var r := ExecuteBuy(NewBroker(10000.0), feeds, o);
            && r.Ok? && r.value.notified
            && r.value.order.executed.size == 100.0
            && r.value.broker.cash == 0.0
            && Value(r.value.broker, feeds) == 10000.0
  {
    var feeds := [OneBar(100.0)];
    var o := Order(0, 0, BuyIntent(Some(100.0), Some(1.0)), Submitted, Executed(0.0, 0.0, None));
    var b := NewBroker(10000.0);
    ValueWhenFlat(b, feeds);
    assert BuyDelta(b, feeds, 0, 1.0, 100.0) == 10000.0;
    assert ClampedShares(10000.0, 100.0, 10000.0) == 100.0 by {
      assert MinReal(10000.0 / 100.0, 10000.0 / 100.0) == 100.0;
      assert (100.0).Floor == 100;
    }
    assert DecideBuy(10000.0, 100.0, 10000.0) == Fill(100.0);
    var r := ExecuteBuy(b, feeds, o);
    assert r.value.broker.positions == map[0 := 100.0];
    assert Marked(r.value.broker, feeds, 0) == 0.0;
    assert Mark(r.value.broker, feeds, 0) == 10000.0;
  }

  /** The two-feed scenario: a 100% BUY of feed 1 queued before a SELL of
      the ten shares held in feed 0, everything at 100, and no cash. */
  function TwoFeeds(): seq<Feed> {
    [OneBar(100.0), OneBar(100.0)]
  }

  function QueuedBuy(): Order {
    Order(1, 0, BuyIntent(Some(100.0), Some(1.0)), Submitted, Executed(0.0, 0.0, None))
  }

  function QueuedSell(): Order {
    Order(0, 0, SellIntent(Some(100.0), Some(-10.0)), Submitted, Executed(0.0, 0.0, None))
  }

  function NoCash(): Broker {
    Broker(0.0, map[0 := 10.0], [QueuedBuy(), QueuedSell()], false)
  }

  /** Settled on its own, the BUY is dropped: the target is 1000 but no
      share is affordable. */
  lemma StarvedBuyDropped()
    ensures ExecuteBuy(NoCash(), TwoFeeds(), QueuedBuy()) == Ok(Settled(GetPosition(NoCash(), 1).0, QueuedBuy(), false))
  {
    var feeds, b := TwoFeeds(), NoCash();
    assert Marked(b, feeds, 0) == 0.0;
    assert Mark(b, feeds, 0) == 1000.0;
    assert Mark(b, feeds, 1) == 0.0;
    assert Marked(b, feeds, 1) == 1000.0;
    assert Marked(b, feeds, 2) == 1000.0;
    assert Value(b, feeds) == 1000.0;
    assert BuyDelta(b, feeds, 1, 1.0, 100.0) == 1000.0;
    assert ClampedShares(1000.0, 100.0, 0.0) == 0.0;
    assert DecideBuy(1000.0, 100.0, 0.0) == Drop;
  }

  /** The SELL pass of the scenario: 1000 in cash and a flat feed 0. */
  lemma ScenarioSellLeg()
    ensures SellPass(NoCash(), TwoFeeds(), NoCash().pending) == Ok((Broker(1000.0, map[0 := 0.0], NoCash().pending, false),
                                                                  [ExecuteSell(NoCash(), TwoFeeds(), QueuedSell()).value.order]))
  {
    var feeds, b, buy, sell := TwoFeeds(), NoCash(), QueuedBuy(), QueuedSell();
    var s := ExecuteSell(b, feeds, sell);
    var sb := s.value.broker;
    assert sb == Broker(1000.0, map[0 := 0.0], b.pending, false);
    assert s.value.notified;
    assert [buy, sell][1..] == [sell];
    assert [sell][1..] == [];
    assert SellPass(sb, feeds, []) == Ok((sb, []));
    assert [s.value.order] + [] == [s.value.order];
    assert [sell][0] == sell;
    assert SellPass(b, feeds, [sell]) == Ok((sb, [s.value.order]));
  }

  /** The BUY pass after the SELL: the 1000 buy ten shares of feed 1. */
  lemma ScenarioBuyLeg()
    ensures var sb := Broker(1000.0, map[0 := 0.0], NoCash().pending, false);
            BuyPass(sb, TwoFeeds(), NoCash().pending) == Ok((Broker(0.0, map[0 := 0.0, 1 := 10.0], NoCash().pending, false),
                                                            [ExecuteBuy(sb, TwoFeeds(), QueuedBuy()).value.order]))
  {
    var feeds, buy, sell := TwoFeeds(), QueuedBuy(), QueuedSell();
    var sb := Broker(1000.0, map[0 := 0.0], NoCash().pending, false);
    ValueWhenFlat(sb, feeds);
    assert BuyDelta(sb, feeds, 1, 1.0, 100.0) == 1000.0;
    assert ClampedShares(1000.0, 100.0, 1000.0) == 10.0 by {
      assert MinReal(1000.0 / 100.0, 1000.0 / 100.0) == 10.0;
      assert (10.0).Floor == 10;
    }
    assert DecideBuy(1000.0, 100.0, 1000.0) == Fill(10.0);
    var t := ExecuteBuy(sb, feeds, buy);
    assert t.value.broker == Broker(0.0, map[0 := 0.0, 1 := 10.0], NoCash().pending, false);
    assert t.value.notified;
    assert [buy, sell][1..] == [sell];
    assert [sell][1..] == [];
    assert BuyPass(t.value.broker, feeds, []) == Ok((t.value.broker, []));
    assert BuyPass(t.value.broker, feeds, [sell]) == Ok((t.value.broker, []));
    assert [t.value.order] + [] == [t.value.order];
    assert [buy, sell][0] == buy;
  }

  /** A SELL queued after a BUY still settles first, so its proceeds fund
      the BUY on the same bar: ten shares of feed 1, none of feed 0, no
      cash left and an empty queue (alone, that BUY is dropped: see
      `StarvedBuyDropped`). */
  lemma SellProceedsFundBuy()
    ensures ExecutePending(NoCash(), TwoFeeds()).Ok?
    ensures ExecutePending(NoCash(), TwoFeeds()).value.0 == Broker(0.0, map[0 := 0.0, 1 := 10.0], [], false)
    ensures |ExecutePending(NoCash(), TwoFeeds()).value.1| == 2
  {
    ScenarioSellLeg();
    ScenarioBuyLeg();
  }
}
