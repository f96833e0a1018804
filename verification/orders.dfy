/** Orders (mytrader/order.py): a SELL carries the exact size to remove, a
    BUY carries a target fraction of portfolio value; both carry the price
    quoted at submission, a status code and an executed record. */
module Orders {
  import opened Base

  /** The side codes `BUY, SELL = range(2)`. */
  const BUY: int := 0
  const SELL: int := 1

  /** The seven status codes `range(7)`, in code order. */
  datatype Status = Created | Submitted | Accepted | Completed | Canceled | Margin | Rejected

  function StatusCode(s: Status): (n: nat)
    ensures n < 7
  {
    match s
    case Created => 0
    case Submitted => 1
    case Accepted => 2
    case Completed => 3
    case Canceled => 4
    case Margin => 5
    case Rejected => 6
  }

  /** The status an integer code denotes, if any. */
  function StatusOfCode(n: int): Option<Status> {
    if n == 0 then Some(Created)
    else if n == 1 then Some(Submitted)
    else if n == 2 then Some(Accepted)
    else if n == 3 then Some(Completed)
    else if n == 4 then Some(Canceled)
    else if n == 5 then Some(Margin)
    else if n == 6 then Some(Rejected)
    else None
  }

  /** Codes and statuses are in one-to-one correspondence over 0..6. */
  lemma StatusCodesRoundTrip(s: Status, n: int)
    ensures StatusOfCode(StatusCode(s)) == Some(s)
    ensures 0 <= n < 7 <==> StatusOfCode(n).Some?
    ensures StatusOfCode(n).Some? ==> StatusCode(StatusOfCode(n).value) == n
  {
  }

  /** The name list `getstatusname` indexes with the status code. */
  const StatusNames: seq<string> :=
    ["Created", "Submitted", "Accepted", "Completed", "Canceled", "Margin", "Rejected"]

  /** What the order was created with: a SELL snapshot holds `size`, a BUY
      snapshot holds `target_pct`; both hold `price`. None in `price` is a
      NaN quote; None in `size` or `target_pct` is a Python None. */
  datatype Intent =
    | SellIntent(price: Option<real>, size: Option<real>)
    | BuyIntent(price: Option<real>, targetPct: Option<real>)

  /** The executed record: size, price and bar timestamp. */
  datatype Executed = Executed(size: real, price: real, dt: Option<int>)

  /** An order on feed `feed`, submitted by strategy `owner`. */
  datatype Order = Order(feed: nat, owner: nat, created: Intent, status: Status, executed: Executed)

  /** `Order(data, side=…, size=…, target_pct=…, price=…, strategy=…)`. */
  function NewOrder(feed: nat, owner: nat, side: int, size: Option<real>, targetPct: Option<real>,
                    price: Option<real>): (r: Result<Order>)
    ensures side == SELL ==> r.Ok? && r.value.created == SellIntent(price, size)
    ensures side == BUY ==> r.Ok? && r.value.created == BuyIntent(price, targetPct)
    ensures side != SELL && side != BUY ==> r == Err(ValueError("Invalid order side"))
    ensures r.Ok? ==> r.value.feed == feed && r.value.owner == owner
    ensures r.Ok? ==> r.value.status == Submitted && r.value.executed == Executed(0.0, 0.0, None)
  {
    var intent :=
      if side == SELL then Some(SellIntent(price, size))
      else if side == BUY then Some(BuyIntent(price, targetPct))
      else None;
    if intent.None? then Err(ValueError("Invalid order side"))
    else Ok(Order(feed, owner, intent.value, Submitted, Executed(0.0, 0.0, None)))
  }

  /** `isbuy()`: judged by the executed size, not by the side. */
  predicate IsBuy(o: Order) {
    o.executed.size > 0.0
  }

  /** `issell()`: judged by the executed size, not by the side. */
  predicate IsSell(o: Order) {
    o.executed.size < 0.0
  }

  /** An order is never both a buy and a sell, and a freshly created one is
      neither. */
  lemma BuySellExclusive(o: Order, feed: nat, owner: nat, side: int, size: Option<real>,
                         pct: Option<real>, price: Option<real>)
    ensures !(IsBuy(o) && IsSell(o))
    ensures NewOrder(feed, owner, side, size, pct, price).Ok? ==>
              !IsBuy(NewOrder(feed, owner, side, size, pct, price).value)
              && !IsSell(NewOrder(feed, owner, side, size, pct, price).value)
  {
  }

  /** `getstatusname()`. */
  function StatusName(o: Order): string {
    StatusNames[StatusCode(o.status)]
  }

  /** Each status is named after itself, following the codes 0..6, and no
      two statuses share a name. */
  lemma StatusNamesInCodeOrder(a: Order, b: Order)
    ensures StatusName(a) == StatusName(b) <==> a.status == b.status
    ensures a.status == Created ==> StatusName(a) == "Created"
    ensures a.status == Submitted ==> StatusName(a) == "Submitted"
    ensures a.status == Accepted ==> StatusName(a) == "Accepted"
    ensures a.status == Completed ==> StatusName(a) == "Completed"
    ensures a.status == Canceled ==> StatusName(a) == "Canceled"
    ensures a.status == Margin ==> StatusName(a) == "Margin"
    ensures a.status == Rejected ==> StatusName(a) == "Rejected"
  {
  }
}
