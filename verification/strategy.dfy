/** The strategy base class (mytrader/strategy.py): parameter merging, the
    analyzer dictionary, and the two order helpers every concrete strategy
    uses. A strategy is identified by its position in the engine's strategy
    list; feeds by their position in the engine's feed list. */
module Strategy {
  import opened Base
  import opened Feeds
  import opened Orders
  import opened Brokerage
  import opened Analyzers

  // ---------------------------------------------------------------------
  // Parameters
  // ---------------------------------------------------------------------

  /** The parameter values the modelled strategies use; a date is its day
      number. */
  datatype ParamValue = PNone | PInt(i: int) | PReal(r: real) | PStr(s: string) | PDate(day: int)

  type Params = map<string, ParamValue>

  /** `defaults | overrides`: every name of either, the caller's value
      winning. */
  function MergeParams(defaults: Params, overrides: Params): (r: Params)
    ensures r.Keys == defaults.Keys + overrides.Keys
    ensures forall k :: k in overrides ==> r[k] == overrides[k]
    ensures forall k :: k in defaults && k !in overrides ==> r[k] == defaults[k]
  {
    defaults + overrides
  }

  /** Merging the same overrides again changes nothing, and merging none
      keeps the defaults. */
  lemma MergeParamsIdempotent(defaults: Params, overrides: Params)
    ensures MergeParams(MergeParams(defaults, overrides), overrides) == MergeParams(defaults, overrides)
    ensures MergeParams(defaults, map[]) == defaults
  {
  }

  // ---------------------------------------------------------------------
  // The analyzer dictionary
  // ---------------------------------------------------------------------

  /** An insertion-ordered dictionary from analyzer name to analyzer. */
  type AnalyzerDict = seq<(string, Analyzer)>

  predicate DistinctNames(d: AnalyzerDict) {
    forall i, j :: 0 <= i < j < |d| ==> d[i].0 != d[j].0
  }

  function Lookup(d: AnalyzerDict, name: string): (r: Option<Analyzer>)
    ensures r.Some? <==> exists i :: 0 <= i < |d| && d[i].0 == name
  {
    if |d| == 0 then None
    else if d[|d| - 1].0 == name then Some(d[|d| - 1].1)
    else
      var r := Lookup(d[..|d| - 1], name);
      assert forall i :: 0 <= i < |d| - 1 ==> d[..|d| - 1][i] == d[i];
      r
  }

  /** `d[name] = a`: replace in place when present, else append. */
  function DictSet(d: AnalyzerDict, name: string, a: Analyzer): (r: AnalyzerDict)
    requires DistinctNames(d)
    ensures DistinctNames(r)
    ensures Lookup(r, name) == Some(a)
    ensures forall n :: n != name ==> Lookup(r, n) == Lookup(d, n)
    ensures |r| == |d| || |r| == |d| + 1
  {
    if |d| == 0 then [(name, a)]
    else if d[|d| - 1].0 == name then d[..|d| - 1] + [(name, a)]
    else
      var front := DictSet(d[..|d| - 1], name, a);
      var r := front + [d[|d| - 1]];
      assert r[..|r| - 1] == front;
      assert d[..|d| - 1] + [d[|d| - 1]] == d;
      LookupMissing(d[..|d| - 1], d[|d| - 1].0);
      LookupMissing(front, d[|d| - 1].0);
      r
  }

  lemma LookupMissing(d: AnalyzerDict, name: string)
    requires forall i :: 0 <= i < |d| ==> d[i].0 != name
    ensures Lookup(d, name) == None
  {
  }

  /** The analyzer classes registered with the engine, with their names. */
  type AnalyzerSpec = (Option<string>, AnalyzerKind)

  /** The class the last spec named `name` gives, if any spec is so named. */
  function LastKindNamed(specs: seq<AnalyzerSpec>, name: string): Option<AnalyzerKind> {
    if |specs| == 0 then None
    else if specs[|specs| - 1].0 == Some(name) then Some(specs[|specs| - 1].1)
    else LastKindNamed(specs[..|specs| - 1], name)
  }

  /** `_init_analyzers(analyzers)`: every class is instantiated with the
      broker value v, but only those with a truthy name are kept; a repeated
      name keeps its first position and the last instance. */
  function InitAnalyzers(specs: seq<AnalyzerSpec>, v: real): (r: AnalyzerDict)
    ensures DistinctNames(r)
    ensures forall n :: Lookup(r, n).Some? <==> |n| > 0 && LastKindNamed(specs, n).Some?
    ensures forall n :: Lookup(r, n).Some? ==> Lookup(r, n) == Some(NewAnalyzer(LastKindNamed(specs, n).value, v))
  {
    if |specs| == 0 then []
    else
      var acc := InitAnalyzers(specs[..|specs| - 1], v);
      var (name, kind) := specs[|specs| - 1];
      var inst := NewAnalyzer(kind, v);
      if Truthy(name) then DictSet(acc, name.value, inst) else acc
  }

  /** A name is kept exactly when some spec carries it and it is not empty;
      an unnamed or empty-named analyzer is never kept. */
  lemma {:induction false} KeptNamesAreRegistered(specs: seq<AnalyzerSpec>, v: real, n: string)
    ensures Lookup(InitAnalyzers(specs, v), n).Some? <==>
              |n| > 0 && exists i :: 0 <= i < |specs| && specs[i].0 == Some(n)
    decreases |specs|
  {
    if |specs| > 0 {
      KeptNamesAreRegistered(specs[..|specs| - 1], v, n);
      assert forall i :: 0 <= i < |specs| - 1 ==> specs[..|specs| - 1][i] == specs[i];
      LastKindNamedFound(specs, n);
    }
  }

  lemma {:induction false} LastKindNamedFound(specs: seq<AnalyzerSpec>, n: string)
    ensures LastKindNamed(specs, n).Some? <==> exists i :: 0 <= i < |specs| && specs[i].0 == Some(n)
    decreases |specs|
  {
    if |specs| > 0 {
      LastKindNamedFound(specs[..|specs| - 1], n);
      assert forall i :: 0 <= i < |specs| - 1 ==> specs[..|specs| - 1][i] == specs[i];
    }
  }

  // ---------------------------------------------------------------------
  // Order helpers
  // ---------------------------------------------------------------------

  /** The feed `data or self.data` picks: a feed object is falsy when its
      table is empty, and then the strategy's first feed is used. */
  function CloseTarget(feeds: seq<Feed>, k: Option<nat>): (t: nat)
    requires |feeds| > 0 && (k.Some? ==> k.value < |feeds|)
    ensures t < |feeds|
    ensures k.Some? && |feeds[k.value].bars| > 0 ==> t == k.value
    ensures (k.None? || |feeds[k.value].bars| == 0) ==> t == 0
  {
    if k.Some? && |feeds[k.value].bars| > 0 then k.value else 0
  }

  /** `close(data)` by strategy `owner`: nothing on a flat position, else one
      SELL of the whole size at the current close. The position lookup
      creates a flat entry when there was none. */
  function ClosePosition(b: Broker, feeds: seq<Feed>, k: Option<nat>, owner: nat): (r: (Broker, seq<Order>))
    requires |feeds| > 0 && (k.Some? ==> k.value < |feeds|)
    ensures var t := CloseTarget(feeds, k);
            && r.0.pending == b.pending + r.1
            && r.0.cash == b.cash && r.0.useOpen == b.useOpen
            && r.0.positions == GetPosition(b, t).0.positions
            && (Size(b, t) == 0.0 <==> r.1 == [])
            && (r.1 != [] ==> r.1 == [Order(t, owner, SellIntent(Field(feeds[t], Close, 0), Some(-Size(b, t))),
                                            Submitted, Executed(0.0, 0.0, None))])
    ensures RefersTo(b, |feeds|) ==> RefersTo(r.0, |feeds|)
  {
    var t := CloseTarget(feeds, k);
    var (b1, size) := GetPosition(b, t);
    if size != 0.0 then
      var o := NewOrder(t, owner, SELL, Some(-size), None, Field(feeds[t], Close, 0)).value;
      (Submit(b1, o), [o])
    else (b1, [])
  }

  /** `order_target_percent(data, pct)` by strategy `owner`: always one BUY
      carrying the target fraction and the current close. */
  function OrderTargetPercent(b: Broker, feeds: seq<Feed>, k: nat, owner: nat, pct: Option<real>): (r: (Broker, Order))
    requires k < |feeds|
    ensures r.0 == Submit(b, r.1)
    ensures r.1 == Order(k, owner, BuyIntent(Field(feeds[k], Close, 0), pct), Submitted, Executed(0.0, 0.0, None))
  {
    var o := NewOrder(k, owner, BUY, None, pct, Field(feeds[k], Close, 0)).value;
    (Submit(b, o), o)
  }

  /** A close settled on its own bar flattens the position and credits the
      position's worth at the close it was quoted at. */
  lemma CloseThenSettle(b: Broker, feeds: seq<Feed>, k: nat, owner: nat)
    requires k < |feeds| && |feeds[k].bars| > 0 && feeds[k].idx >= 0
    requires AllCursorsOk(feeds) && RefersTo(b, |feeds|)
    requires b.pending == [] && !b.useOpen && Size(b, k) != 0.0
    ensures var c := ClosePosition(b, feeds, Some(k), owner).0;
            var r := ExecutePending(c, feeds);
            && r.Ok? && Size(r.value.0, k) == 0.0
            && r.value.0.cash == b.cash + Size(b, k) * feeds[k].bars[feeds[k].idx].close
            && |r.value.1| == 1 && r.value.1[0].status == Completed
  {
    var (c, os) := ClosePosition(b, feeds, Some(k), owner);
    var o := os[0];
    assert c.pending == [o];
    var s := ExecuteSell(c, feeds, o);
    assert s.Ok? && s.value.notified;
    assert SellPass(c, feeds, [o]) == Ok((s.value.broker, [s.value.order])) by {
      assert [o][1..] == [];
      assert [o][0] == o;
      assert SellPass(s.value.broker, feeds, []) == Ok((s.value.broker, []));
      assert [s.value.order] + [] == [s.value.order];
    }
    assert BuyPass(s.value.broker, feeds, [o]) == Ok((s.value.broker, [])) by {
      assert [o][1..] == [];
    }
  }
}
