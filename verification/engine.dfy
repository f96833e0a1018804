/** The engine (mytrader/cerebro.py): feeds, strategies and analyzers are
    registered, then `run` builds every strategy against the one shared
    broker and replays the first feed's timestamps as the master clock. On
    each bar every feed is moved to the timestamp, the broker settles the
    queue, and each strategy in turn forces its indicators, runs `next` and
    feeds its analyzers; after the last bar each strategy's analyzers are
    stopped and then the strategy. The run is recorded as a trace of events
    and a record per bar of the queue settled and the orders placed. */
module Engine {
  import opened Base
  import opened Feeds
  import opened Orders
  import opened Brokerage
  import opened Indicators
  import opened Analyzers
  import opened Strategy
  import opened Ftlt

  // ---------------------------------------------------------------------
  // Registration
  // ---------------------------------------------------------------------

  /** The engine before `run`: the feeds in order, the name registry, the
      broker, the parameter overrides of each strategy and the analyzer
      classes with their names. Every strategy is the FTLT strategy. */
  datatype Cerebro = Cerebro(datas: seq<Feed>, byName: map<string, nat>, broker: Broker,
                             strategies: seq<Params>, analyzers: seq<AnalyzerSpec>)

  /** The registry and the broker refer to the registered feeds only, and
      every feed's cursor is in range. */
  predicate Wellformed(c: Cerebro) {
    && AllCursorsOk(c.datas)
    && (forall n :: n in c.byName ==> c.byName[n] < |c.datas|)
    && RefersTo(c.broker, |c.datas|)
  }

  /** `Cerebro(cash)`: nothing registered, a broker holding only cash. */
  function NewCerebro(cash: real): (c: Cerebro)
    ensures Wellformed(c) && |c.datas| == 0 && |c.strategies| == 0 && |c.analyzers| == 0
    ensures c.broker.cash == cash && c.broker.pending == [] && c.broker.positions == map[]
  {
    Cerebro([], map[], NewBroker(cash), [], [])
  }

  /** `adddata(data, name)`: the feed takes the name and is appended; only a
      truthy name is registered, a repeated one now meaning the new feed. */
  function AddData(c: Cerebro, f: Feed, name: Option<string>): (r: Cerebro)
    ensures r.datas == c.datas + [f.(name := name)]
    ensures Truthy(name) ==> r.byName == c.byName[name.value := |c.datas|]
    ensures !Truthy(name) ==> r.byName == c.byName
    ensures r.broker == c.broker && r.strategies == c.strategies && r.analyzers == c.analyzers
    ensures Wellformed(c) && CursorOk(f) ==> Wellformed(r)
  {
    var datas := c.datas + [f.(name := name)];
    assert forall k :: 0 <= k < |c.datas| ==> datas[k] == c.datas[k];
    var byName := if Truthy(name) then c.byName[name.value := |c.datas|] else c.byName;
    c.(datas := datas, byName := byName)
  }

  /** `getdatabyname(name)` right after `adddata(f, name)` finds f, and the
      other names keep their feeds. */
  lemma AddDataThenLookup(c: Cerebro, f: Feed, name: string, other: string)
    requires |name| > 0 && other != name && other in c.byName
    ensures var r := AddData(c, f, Some(name));
            && name in r.byName && r.byName[name] < |r.datas| && r.datas[r.byName[name]] == f.(name := Some(name))
            && other in r.byName && r.byName[other] == c.byName[other]
  {
    var r := AddData(c, f, Some(name));
    assert r.datas[|c.datas|] == f.(name := Some(name));
  }

  /** `addstrategy(cls, **params)`. */
  function AddStrategy(c: Cerebro, params: Params): (r: Cerebro)
    ensures r.strategies == c.strategies + [params] && r.datas == c.datas && r.broker == c.broker
    ensures r.byName == c.byName && r.analyzers == c.analyzers
  {
    c.(strategies := c.strategies + [params])
  }

  /** `addanalyzer(cls, _name)`: the class is recorded with its name. */
  function AddAnalyzer(c: Cerebro, kind: AnalyzerKind, name: Option<string>): (r: Cerebro)
    ensures r.analyzers == c.analyzers + [(name, kind)] && r.datas == c.datas && r.broker == c.broker
    ensures r.byName == c.byName && r.strategies == c.strategies
  {
    c.(analyzers := c.analyzers + [(name, kind)])
  }

  // ---------------------------------------------------------------------
  // Construction
  // ---------------------------------------------------------------------

  /** A strategy during the run: its state, its indicators in registration
      order, and its analyzer dictionary. */
  datatype Running = Running(st: Ftlt, inds: seq<Indicator>, analyzers: AnalyzerDict)

  predicate RunningOk(r: Running, n: nat) {
    BookWithin(r.st.book, n) && IndicatorsFit(r.inds, n) && DistinctNames(r.analyzers)
  }

  /** Every strategy of the list reads among n feeds. */
  predicate AllOk(rs: seq<Running>, n: nat) {
    forall i :: 0 <= i < |rs| ==> RunningOk(rs[i], n)
  }

  /** Each strategy's analyzer names, in strategy order. */
  function Names(rs: seq<Running>): (ns: seq<seq<string>>)
    ensures |ns| == |rs| && forall i :: 0 <= i < |rs| ==> ns[i] == DictNames(rs[i].analyzers)
    decreases |rs|
  {
    if |rs| == 0 then [] else [DictNames(rs[0].analyzers)] + Names(rs[1..])
  }

  /** Lists that agree strategy by strategy on analyzer names and
      parameters agree as a whole. */
  lemma NamesAgree(xs: seq<Running>, ys: seq<Running>)
    requires |xs| == |ys|
    requires forall j :: 0 <= j < |xs| ==> DictNames(xs[j].analyzers) == Names(ys)[j]
    requires forall j :: 0 <= j < |xs| ==> xs[j].st.params == ys[j].st.params
    ensures Names(xs) == Names(ys) && ParamsOf(xs) == ParamsOf(ys)
  {
  }

  /** Each strategy's parameters, in strategy order. */
  function ParamsOf(rs: seq<Running>): (ps: seq<Params>)
    ensures |ps| == |rs| && forall i :: 0 <= i < |rs| ==> ps[i] == rs[i].st.params
    decreases |rs|
  {
    if |rs| == 0 then [] else [rs[0].st.params] + ParamsOf(rs[1..])
  }

  /** Strategies `from`, `from`+1, ... are numbered by their position. */
  predicate Numbered(rs: seq<Running>, from: nat) {
    forall i :: 0 <= i < |rs| ==> rs[i].st.owner == from + i
  }

  /** The analyzer names of a dictionary, in order. */
  function DictNames(d: AnalyzerDict): (ns: seq<string>)
    ensures |ns| == |d| && forall i :: 0 <= i < |d| ==> ns[i] == d[i].0
  {
    seq(|d|, i requires 0 <= i < |d| => d[i].0)
  }

  /** Steps 1 to 5 of `run` for strategy `s`: the class defaults
      overridden by its run-time parameters, the strategy built against the
      broker value, then its analyzers d. */
  method Build(c: Cerebro, s: nat, d: AnalyzerDict) returns (r: Result<Running>)
    requires Wellformed(c) && s < |c.strategies| && DistinctNames(d)
    ensures var init := FtltInit(s, MergeParams(FtltDefaults, c.strategies[s]), c.byName, Value(c.broker, c.datas));
            && (init.Err? ==> r == Err(init.fault))
            && (init.Ok? ==> r == Ok(Running(init.value.0, init.value.1, d)))
    ensures r.Ok? ==> RunningOk(r.value, |c.datas|) && r.value.st.owner == s
    ensures r.Ok? ==> r.value.st.params == MergeParams(FtltDefaults, c.strategies[s]) && r.value.st.state.None?
    ensures r.Ok? ==> r.value.st.startValue == Value(c.broker, c.datas)
  {
    var v := Value(c.broker, c.datas);
    var params := MergeParams(FtltDefaults, c.strategies[s]);
    var init := FtltInit(s, params, c.byName, v);
    if init.Err? {
      return Err(init.fault);
    }
    FtltInitFits(s, params, c.byName, v, |c.datas|);
    return Ok(Running(init.value.0, init.value.1, d));
  }

  /** The construction loop of `run`: every strategy in registration order,
      each with its own copy of the analyzer dictionary d; the first failure
      stops the run. */
  method Construct(c: Cerebro, d: AnalyzerDict) returns (r: Result<seq<Running>>)
    requires Wellformed(c) && DistinctNames(d)
    ensures r.Ok? ==> |r.value| == |c.strategies| && AllOk(r.value, |c.datas|) && Numbered(r.value, 0)
    ensures r.Ok? ==> forall i :: 0 <= i < |r.value| ==>
              && r.value[i].st.params == MergeParams(FtltDefaults, c.strategies[i])
              && r.value[i].st.state.None? && r.value[i].analyzers == d
  {
    var rs: seq<Running> := [];
    var i := 0;
    while i < |c.strategies|
      invariant 0 <= i <= |c.strategies| && |rs| == i
      invariant AllOk(rs, |c.datas|) && Numbered(rs, 0)
      invariant forall j :: 0 <= j < i ==>
                  && rs[j].st.params == MergeParams(FtltDefaults, c.strategies[j])
                  && rs[j].st.state.None? && rs[j].analyzers == d
    {
      var x := Build(c, i, d);
      if x.Err? {
        return Err(x.fault);
      }
      rs := rs + [x.value];
      i := i + 1;
    }
    return Ok(rs);
  }

  // ---------------------------------------------------------------------
  // Events
  // ---------------------------------------------------------------------

  /** One step of the run: s numbers the strategy, t is the bar's timestamp. */
  datatype Event =
    | Advance(t: int)
    | Settle(t: int)
    | Evaluate(s: nat, t: int)
    | Next(s: nat, t: int)
    | Sample(s: nat, name: string, t: int)
    | StopAnalyzer(s: nat, name: string)
    | StopStrategy(s: nat)

  /** The events the loop body produces for strategies `from`, `from`+1, ...
      on the bar at t, given each strategy's analyzer names. */
  function StrategySchedule(t: int, names: seq<seq<string>>, from: nat): seq<Event>
    decreases |names|
  {
    if |names| == 0 then []
    else [Evaluate(from, t), Next(from, t)] + Samples(from, names[0], t) + StrategySchedule(t, names[1..], from + 1)
  }

  /** Extending the events so far by strategy i's share leaves the rest of
      the schedule to strategies i+1 onwards. */
  lemma StrategyScheduleStep(events: seq<Event>, t: int, names: seq<seq<string>>, i: nat)
    requires i < |names| && events + StrategySchedule(t, names[i..], i) == StrategySchedule(t, names, 0)
    ensures (events + ([Evaluate(i, t), Next(i, t)] + Samples(i, names[i], t))) + StrategySchedule(t, names[i + 1..], i + 1)
              == StrategySchedule(t, names, 0)
  {
    assert names[i..][1..] == names[i + 1..];
  }

  /** Strategy s's analyzers sampled on the bar at t, in dictionary order. */
  function Samples(s: nat, names: seq<string>, t: int): (es: seq<Event>)
    ensures |es| == |names| && forall j :: 0 <= j < |names| ==> es[j] == Sample(s, names[j], t)
  {
    seq(|names|, j requires 0 <= j < |names| => Sample(s, names[j], t))
  }

  /** Strategy s's finish: its analyzers stopped in dictionary order, then
      the strategy. */
  function Stops(s: nat, names: seq<string>): (es: seq<Event>)
    ensures |es| == |names| + 1 && es[|names|] == StopStrategy(s)
    ensures forall j :: 0 <= j < |names| ==> es[j] == StopAnalyzer(s, names[j])
  {
    seq(|names|, j requires 0 <= j < |names| => StopAnalyzer(s, names[j])) + [StopStrategy(s)]
  }

  /** The events of one bar: advance, settle, then every strategy. */
  function BarSchedule(t: int, names: seq<seq<string>>): seq<Event> {
    [Advance(t), Settle(t)] + StrategySchedule(t, names, 0)
  }

  /** The events of the finish, for strategies `from` onwards: each
      strategy's analyzers in dictionary order, then the strategy. */
  function StopSchedule(names: seq<seq<string>>, from: nat): seq<Event>
    decreases |names|
  {
    if |names| == 0 then [] else Stops(from, names[0]) + StopSchedule(names[1..], from + 1)
  }

  /** The blocks of the bars at timestamps ts, one after another. */
  function BarsSchedule(ts: seq<int>, names: seq<seq<string>>): seq<Event>
    decreases |ts|
  {
    if |ts| == 0 then [] else BarsSchedule(ts[..|ts| - 1], names) + BarSchedule(ts[|ts| - 1], names)
  }

  /** The whole run's events over master timestamps ts: one block per bar,
      then the finish. It depends on nothing but the timestamps and the
      analyzer names. */
  function Schedule(ts: seq<int>, names: seq<seq<string>>): seq<Event> {
    BarsSchedule(ts, names) + StopSchedule(names, 0)
  }

  /** Every bar's block has the same length, whatever its timestamp. */
  lemma {:induction false} StrategyScheduleLength(t: int, u: int, names: seq<seq<string>>, from: nat)
    ensures |StrategySchedule(t, names, from)| == |StrategySchedule(u, names, from)|
    decreases |names|
  {
    if |names| > 0 {
      StrategyScheduleLength(t, u, names[1..], from + 1);
    }
  }

  /** The bars' blocks take the block length once per timestamp. */
  lemma {:induction false} BarsScheduleLength(ts: seq<int>, names: seq<seq<string>>)
    ensures |BarsSchedule(ts, names)| == |ts| * |BarSchedule(0, names)|
    decreases |ts|
  {
    if |ts| > 0 {
      BarsScheduleLength(ts[..|ts| - 1], names);
      StrategyScheduleLength(ts[|ts| - 1], 0, names, 0);
      MulSucc(|ts| - 1, |BarSchedule(0, names)|);
    }
  }

  /** Bar i's block sits at i times the block length and is exactly the
      block of the i-th master timestamp, which opens with the advance to
      it and its settlement: every timestamp is visited once, in order, and
      settles right after the feeds move. */
  lemma {:induction false} ScheduleVisitsInOrder(ts: seq<int>, names: seq<seq<string>>, i: nat)
    requires i < |ts|
    ensures var len := |BarSchedule(0, names)|;
            var sch := Schedule(ts, names);
            && (i + 1) * len <= |sch| && sch[i * len..(i + 1) * len] == BarSchedule(ts[i], names)
            && sch[i * len] == Advance(ts[i]) && sch[i * len + 1] == Settle(ts[i])
  {
    var len := |BarSchedule(0, names)|;
    BarsScheduleAt(ts, names, i);
    BarsScheduleLength(ts, names);
    MulMonotone(i + 1, |ts|, len);
    var bars := BarsSchedule(ts, names);
    var sch := Schedule(ts, names);
    assert sch[i * len..(i + 1) * len] == bars[i * len..(i + 1) * len];
    MulSucc(i, len);
    assert sch[i * len] == BarSchedule(ts[i], names)[0];
    assert sch[i * len + 1] == BarSchedule(ts[i], names)[1];
  }

  /** The i-th block of the bars' events is the i-th timestamp's. */
  lemma {:induction false} BarsScheduleAt(ts: seq<int>, names: seq<seq<string>>, i: nat)
    requires i < |ts|
    ensures var len := |BarSchedule(0, names)|;
            (i + 1) * len <= |BarsSchedule(ts, names)|
            && BarsSchedule(ts, names)[i * len..(i + 1) * len] == BarSchedule(ts[i], names)
    decreases |ts|
  {
    var len := |BarSchedule(0, names)|;
    var front := ts[..|ts| - 1];
    BarsScheduleLength(front, names);
    StrategyScheduleLength(ts[|ts| - 1], 0, names, 0);
    StrategyScheduleLength(ts[i], 0, names, 0);
    var head := BarsSchedule(front, names);
    var bars := BarsSchedule(ts, names);
    assert bars == head + BarSchedule(ts[|ts| - 1], names);
    MulSucc(i, len);
    if i < |ts| - 1 {
      BarsScheduleAt(front, names, i);
      MulMonotone(i + 1, |ts| - 1, len);
      assert bars[i * len..(i + 1) * len] == head[i * len..(i + 1) * len];
    } else {
      assert i * len == |head|;
      assert bars[i * len..(i + 1) * len] == bars[|head|..];
    }
  }

  lemma {:induction false} MulMonotone(a: nat, b: nat, c: nat)
    requires a <= b
    ensures a * c <= b * c
    decreases b - a
  {
    if a < b {
      MulMonotone(a + 1, b, c);
      MulSucc(a, c);
    }
  }

  lemma MulSucc(a: nat, c: nat)
    ensures (a + 1) * c == a * c + c
  {
  }

  /** The finish comes last: after the bars' blocks come exactly the stop
      events. */
  lemma ScheduleEndsWithStops(ts: seq<int>, names: seq<seq<string>>)
    ensures var len := |BarSchedule(0, names)|;
            var sch := Schedule(ts, names);
            |ts| * len <= |sch| && sch[|ts| * len..] == StopSchedule(names, 0)
  {
    BarsScheduleLength(ts, names);
  }

  /** Each strategy's analyzers are all stopped before the strategy is. */
  lemma {:induction false} StopsPrecedeStrategy(names: seq<seq<string>>, from: nat, s: nat, i: nat, j: nat)
    requires i < |StopSchedule(names, from)| && j < |StopSchedule(names, from)|
    requires StopSchedule(names, from)[i].StopAnalyzer? && StopSchedule(names, from)[i].s == s
    requires StopSchedule(names, from)[j] == StopStrategy(s)
    ensures i < j
    decreases |names|
  {
    var block := Stops(from, names[0]);
    var rest := StopSchedule(names[1..], from + 1);
    assert StopSchedule(names, from) == block + rest;
    StopOwners(names[1..], from + 1);
    if i >= |block| {
      assert rest[i - |block|].s == s;
      assert j >= |block|;
      StopsPrecedeStrategy(names[1..], from + 1, s, i - |block|, j - |block|);
    }
  }

  /** The stop events for strategies `from` onwards name those strategies. */
  lemma {:induction false} StopOwners(names: seq<seq<string>>, from: nat)
    ensures forall k :: 0 <= k < |StopSchedule(names, from)| ==>
              (StopSchedule(names, from)[k].StopAnalyzer? || StopSchedule(names, from)[k].StopStrategy?)
              && StopSchedule(names, from)[k].s >= from
    decreases |names|
  {
    if |names| > 0 {
      StopOwners(names[1..], from + 1);
      var block := Stops(from, names[0]);
      assert StopSchedule(names, from) == block + StopSchedule(names[1..], from + 1);
    }
  }

  // ---------------------------------------------------------------------
  // The loop
  // ---------------------------------------------------------------------

  function Flatten<T>(xss: seq<seq<T>>): (r: seq<T>)
    decreases |xss|
  {
    if |xss| == 0 then [] else xss[0] + Flatten(xss[1..])
  }

  /** `for a in strat.analyzers.values(): a.next()` with the broker value v. */
  function SampleAll(d: AnalyzerDict, v: real): (r: Result<AnalyzerDict>)
    ensures r.Ok? ==> DictNames(r.value) == DictNames(d)
    ensures r.Ok? ==> forall i :: 0 <= i < |d| ==> AnalyzerNext(d[i].1, v).Ok? && r.value[i].1 == AnalyzerNext(d[i].1, v).value
    ensures r.Err? <==> exists i :: 0 <= i < |d| && AnalyzerNext(d[i].1, v).Err?
    decreases |d|
  {
    if |d| == 0 then Ok([])
    else
      var a :- AnalyzerNext(d[0].1, v);
      var rest :- SampleAll(d[1..], v);
      var r := [(d[0].0, a)] + rest;
      assert forall i :: 1 <= i < |d| ==> r[i] == rest[i - 1] && d[i] == d[1..][i - 1];
      Ok(r)
  }

  /** `strat.next()` as the engine sees it: what `FtltNext` keeps of the
      strategy and the broker, and that it only appends orders. */
  method NextOf(st: Ftlt, b: Broker, feeds: seq<Feed>, inds: seq<Indicator>) returns (r: Result<(Ftlt, Broker)>)
    requires |feeds| > 0 && AllCursorsOk(feeds) && BookWithin(st.book, |feeds|) && IndicatorsFit(inds, |feeds|)
    ensures r.Ok? ==> r.value.0.owner == st.owner && r.value.0.book == st.book && r.value.0.params == st.params
    ensures r.Ok? ==> b.pending <= r.value.1.pending
    ensures r.Ok? ==> r.value.1.cash == b.cash && forall k :: Size(r.value.1, k) == Size(b, k)
    ensures r.Ok? && RefersTo(b, |feeds|) ==> RefersTo(r.value.1, |feeds|)
  {
    r := FtltNext(st, b, feeds, inds);
  }

  /** `out` follows `rs` strategy by strategy: same owner, analyzer names
      and parameters, each reading among n feeds. */
  predicate Follows(out: seq<Running>, rs: seq<Running>, n: nat) {
    && |out| <= |rs| && AllOk(out, n)
    && forall j :: 0 <= j < |out| ==>
         && out[j].st.owner == rs[j].st.owner && out[j].st.params == rs[j].st.params
         && DictNames(out[j].analyzers) == DictNames(rs[j].analyzers)
  }

  lemma FollowsSnoc(out: seq<Running>, rs: seq<Running>, n: nat, r: Running)
    requires Follows(out, rs, n) && |out| < |rs| && RunningOk(r, n)
    requires r.st.owner == rs[|out|].st.owner && r.st.params == rs[|out|].st.params
    requires DictNames(r.analyzers) == DictNames(rs[|out|].analyzers)
    ensures Follows(out + [r], rs, n)
  {
    assert forall j :: 0 <= j < |out| ==> (out + [r])[j] == out[j];
  }

  /** A full list that follows a numbered one is numbered alike, with the
      same names and parameters. */
  lemma FollowsWhole(out: seq<Running>, rs: seq<Running>, n: nat, from: nat)
    requires Follows(out, rs, n) && |out| == |rs| && Numbered(rs, from)
    ensures Numbered(out, from) && AllOk(out, n)
    ensures Names(out) == Names(rs) && ParamsOf(out) == ParamsOf(rs)
  {
    NamesAgree(out, rs);
  }

  /** One strategy's share of a bar: force the indicators, run `next`, feed
      the analyzers; returns the orders `next` placed. */
  method StepOne(r: Running, b: Broker, feeds: seq<Feed>) returns (res: Result<(Running, Broker, seq<Order>)>)
    requires |feeds| > 0 && AllCursorsOk(feeds) && RunningOk(r, |feeds|)
    ensures res.Ok? ==> res.value.1.pending == b.pending + res.value.2
    ensures res.Ok? ==> RunningOk(res.value.0, |feeds|) && res.value.0.st.owner == r.st.owner
    ensures res.Ok? ==> res.value.0.st.params == r.st.params
    ensures res.Ok? ==> DictNames(res.value.0.analyzers) == DictNames(r.analyzers)
    ensures res.Ok? ==> forall k :: Size(res.value.1, k) == Size(b, k)
    ensures res.Ok? ==> res.value.1.cash == b.cash
    ensures res.Ok? && RefersTo(b, |feeds|) ==> RefersTo(res.value.1, |feeds|)
  {
    var inds := EvaluateIndicators(r.inds, feeds);
    var next := NextOf(r.st, b, feeds, inds);
    if next.Err? {
      return Err(next.fault);
    }
    var (st, b1) := next.value;
    var sampled := SampleAll(r.analyzers, Value(b1, feeds));
    if sampled.Err? {
      return Err(sampled.fault);
    }
    var an := sampled.value;
    assert DistinctNames(an) by {
      assert forall i :: 0 <= i < |an| ==> an[i].0 == DictNames(an)[i] == DictNames(r.analyzers)[i] == r.analyzers[i].0;
    }
    assert b1.pending == b.pending + b1.pending[|b.pending|..];
    return Ok((Running(st, inds, an), b1, b1.pending[|b.pending|..]));
  }

  /** Flattening one more group appends it. */
  lemma {:induction false} FlattenSnoc<T>(xss: seq<seq<T>>, xs: seq<T>)
    ensures Flatten(xss + [xs]) == Flatten(xss) + xs
    decreases |xss|
  {
    if |xss| > 0 {
      assert (xss + [xs])[1..] == xss[1..] + [xs];
      FlattenSnoc(xss[1..], xs);
    } else {
      assert Flatten([xs]) == xs + Flatten([xs][1..]);
    }
  }

  /** The strategies of one bar, in order, against the shared broker;
      returns the orders each placed and the events. */
  method StepAll(rs: seq<Running>, b: Broker, feeds: seq<Feed>, t: int)
    returns (res: Result<(seq<Running>, Broker, seq<seq<Order>>, seq<Event>)>)
    requires |feeds| > 0 && AllCursorsOk(feeds) && AllOk(rs, |feeds|) && Numbered(rs, 0)
    ensures res.Ok? ==> |res.value.0| == |rs| && |res.value.2| == |rs| && Numbered(res.value.0, 0)
    ensures res.Ok? ==> AllOk(res.value.0, |feeds|)
    ensures res.Ok? ==> Names(res.value.0) == Names(rs) && ParamsOf(res.value.0) == ParamsOf(rs)
    ensures res.Ok? ==> res.value.1.pending == b.pending + Flatten(res.value.2)
    ensures res.Ok? ==> res.value.1.cash == b.cash && forall k :: Size(res.value.1, k) == Size(b, k)
    ensures res.Ok? && RefersTo(b, |feeds|) ==> RefersTo(res.value.1, |feeds|)
    ensures res.Ok? ==> res.value.3 == StrategySchedule(t, Names(rs), 0)
  {
    var names := Names(rs);
    var out: seq<Running> := [];
    var broker := b;
    var placed: seq<seq<Order>> := [];
    var events: seq<Event> := [];
    var i := 0;
    while i < |rs|
      invariant 0 <= i <= |rs| && |out| == i && |placed| == i
      invariant Follows(out, rs, |feeds|)
      invariant broker.pending == b.pending + Flatten(placed)
      invariant broker.cash == b.cash && forall k :: Size(broker, k) == Size(b, k)
      invariant RefersTo(b, |feeds|) ==> RefersTo(broker, |feeds|)
      invariant events + StrategySchedule(t, names[i..], i) == StrategySchedule(t, names, 0)
    {
      var step := StepOne(rs[i], broker, feeds);
      if step.Err? {
        return Err(step.fault);
      }
      var (r1, b1, os) := step.value;
      FollowsSnoc(out, rs, |feeds|, r1);
      FlattenSnoc(placed, os);
      assert b1.pending == b.pending + Flatten(placed + [os]) by {
        assert b1.pending == (b.pending + Flatten(placed)) + os;
      }
      StrategyScheduleStep(events, t, names, i);
      events := events + ([Evaluate(i, t), Next(i, t)] + Samples(i, names[i], t));
      out := out + [r1];
      placed := placed + [os];
      broker := b1;
      i := i + 1;
    }
    assert names[i..] == [];
    FollowsWhole(out, rs, |feeds|, 0);
    return Ok((out, broker, placed, events));
  }

  /** `_advance_to_date(t)` on every feed. */
  function AdvanceAll(feeds: seq<Feed>, t: int): (r: seq<Feed>)
    ensures |r| == |feeds| && forall k :: 0 <= k < |r| ==> r[k] == AdvanceToDate(feeds[k], t)
    ensures AllCursorsOk(feeds) ==> AllCursorsOk(r)
  {
    seq(|feeds|, k requires 0 <= k < |feeds| => AdvanceToDate(feeds[k], t))
  }

  /** What one bar did: its timestamp, the queue the broker settled, the
      orders it notified, and the orders each strategy placed. */
  datatype BarRecord = BarRecord(t: int, queue: seq<Order>, settled: seq<Order>, placed: seq<seq<Order>>)

  /** The records of a replay of timestamps ts by n strategies that began
      with queue q0 and left queue last: one record per timestamp, in
      order; each bar settles exactly what the strategies placed on the
      bar before (the first bar, q0); every settled order was completed;
      and what the last bar placed is still queued. */
  predicate Recorded(bars: seq<BarRecord>, ts: seq<int>, n: nat, q0: seq<Order>, last: seq<Order>) {
    && |bars| == |ts|
    && (forall i :: 0 <= i < |ts| ==> bars[i].t == ts[i] && |bars[i].placed| == n)
    && (|ts| > 0 ==> bars[0].queue == q0)
    && (forall i :: 0 <= i < |ts| - 1 ==> bars[i + 1].queue == Flatten(bars[i].placed))
    && (forall i, j :: 0 <= i < |ts| && 0 <= j < |bars[i].settled| ==> bars[i].settled[j].status == Completed)
    && (|ts| > 0 ==> last == Flatten(bars[|ts| - 1].placed))
    && (|ts| == 0 ==> last == q0)
  }

  /** A bar that settles the queue the records left, and whose orders are
      what is queued next, extends the records. */
  lemma RecordedSnoc(bars: seq<BarRecord>, ts: seq<int>, n: nat, q0: seq<Order>, last: seq<Order>,
                     rec: BarRecord, next: seq<Order>)
    requires Recorded(bars, ts, n, q0, last)
    requires rec.queue == last && |rec.placed| == n && next == Flatten(rec.placed)
    requires forall j :: 0 <= j < |rec.settled| ==> rec.settled[j].status == Completed
    ensures Recorded(bars + [rec], ts + [rec.t], n, q0, next)
  {
    var bars1, ts1 := bars + [rec], ts + [rec.t];
    assert forall i :: 0 <= i < |ts| ==> bars1[i] == bars[i] && ts1[i] == ts[i];
  }

  /** The state of a run: the strategies, the broker, the feeds, the record
      of every bar so far and the events. */
  datatype Loop = Loop(running: seq<Running>, broker: Broker, feeds: seq<Feed>, bars: seq<BarRecord>, events: seq<Event>)

  /** What one pass of the loop body leaves: the strategies, the broker,
      the feeds, the bar's record and its events. */
  datatype Pass = Pass(running: seq<Running>, broker: Broker, feeds: seq<Feed>, record: BarRecord, events: seq<Event>)

  /** One pass of the loop body of `run` at timestamp t: every feed moves
      to t, the broker settles the queue, then every strategy steps. */
  method Bar(rs: seq<Running>, b: Broker, feeds: seq<Feed>, t: int) returns (res: Result<Pass>)
    requires |feeds| > 0 && AllCursorsOk(feeds) && RefersTo(b, |feeds|)
    requires Numbered(rs, 0) && AllOk(rs, |feeds|)
    ensures res.Ok? ==> var p := res.value;
              && |p.running| == |rs| && Numbered(p.running, 0) && AllOk(p.running, |feeds|)
              && Names(p.running) == Names(rs) && ParamsOf(p.running) == ParamsOf(rs)
              && |p.feeds| == |feeds| && (forall k :: 0 <= k < |feeds| ==> p.feeds[k] == AdvanceToDate(feeds[k], t))
              && AllCursorsOk(p.feeds) && RefersTo(p.broker, |feeds|)
              && p.record.t == t && p.record.queue == b.pending && |p.record.placed| == |rs|
              && (forall k :: 0 <= k < |p.record.settled| ==> p.record.settled[k].status == Completed)
              && p.broker.pending == Flatten(p.record.placed)
              && p.events == BarSchedule(t, Names(rs))
  {
    var feeds1 := AdvanceAll(feeds, t);
    var settle := ExecutePending(b, feeds1);
    if settle.Err? {
      return Err(settle.fault);
    }
    var b1, settled := settle.value.0, settle.value.1;
    var step := StepAll(rs, b1, feeds1, t);
    if step.Err? {
      return Err(step.fault);
    }
    var rs1, b2, placed, evs := step.value.0, step.value.1, step.value.2, step.value.3;
    return Ok(Pass(rs1, b2, feeds1, BarRecord(t, b.pending, settled, placed), [Advance(t), Settle(t)] + evs));
  }

  /** The master-clock loop over the timestamps ts. */
  method RunBars(rs: seq<Running>, b: Broker, feeds: seq<Feed>, ts: seq<int>) returns (res: Result<Loop>)
    requires |feeds| > 0 && AllCursorsOk(feeds) && RefersTo(b, |feeds|)
    requires Numbered(rs, 0) && AllOk(rs, |feeds|)
    ensures res.Ok? ==> var l := res.value;
              && |l.running| == |rs| && Numbered(l.running, 0) && AllOk(l.running, |feeds|)
              && Names(l.running) == Names(rs) && ParamsOf(l.running) == ParamsOf(rs)
              && Recorded(l.bars, ts, |rs|, b.pending, l.broker.pending) && (|ts| == 0 ==> l.broker == b)
              && |l.feeds| == |feeds| && (forall k :: 0 <= k < |feeds| ==> l.feeds[k] == AdvanceThrough(feeds[k], ts))
              && AllCursorsOk(l.feeds) && RefersTo(l.broker, |feeds|)
              && l.events == BarsSchedule(ts, Names(rs))
  {
    var names := Names(rs);
    var running := rs;
    var broker := b;
    var cur := feeds;
    var bars: seq<BarRecord> := [];
    var events: seq<Event> := [];
    var i := 0;
    while i < |ts|
      invariant 0 <= i <= |ts|
      invariant |running| == |rs| && Numbered(running, 0) && AllOk(running, |feeds|)
      invariant Names(running) == names && ParamsOf(running) == ParamsOf(rs)
      invariant Recorded(bars, ts[..i], |rs|, b.pending, broker.pending) && (i == 0 ==> broker == b)
      invariant |cur| == |feeds| && forall k :: 0 <= k < |feeds| ==> cur[k] == AdvanceThrough(feeds[k], ts[..i])
      invariant AllCursorsOk(cur) && RefersTo(broker, |feeds|)
      invariant events == BarsSchedule(ts[..i], names)
    {
      var t := ts[i];
      var bar := Bar(running, broker, cur, t);
      if bar.Err? {
        return Err(bar.fault);
      }
      var p := bar.value;
      assert ts[..i + 1] == ts[..i] + [t];
      forall k | 0 <= k < |feeds|
        ensures p.feeds[k] == AdvanceThrough(feeds[k], ts[..i + 1])
      {
        AdvanceThroughSnoc(feeds[k], ts[..i], t);
      }
      assert ts[..i + 1][..i] == ts[..i];
      RecordedSnoc(bars, ts[..i], |rs|, b.pending, broker.pending, p.record, p.broker.pending);
      events := events + p.events;
      bars := bars + [p.record];
      running := p.running;
      broker := p.broker;
      cur := p.feeds;
      i := i + 1;
    }
    assert ts[..i] == ts;
    return Ok(Loop(running, broker, cur, bars, events));
  }

  /** The finish for strategies `from` onwards: stop each analyzer in
      dictionary order, then the strategy (whose `stop` only writes the
      report). */
  function StopAll(rs: seq<Running>, from: nat): (res: (seq<Running>, seq<Event>))
    ensures |res.0| == |rs| && Names(res.0) == Names(rs) && ParamsOf(res.0) == ParamsOf(rs)
    ensures forall i :: 0 <= i < |rs| ==> res.0[i].st == rs[i].st && res.0[i].inds == rs[i].inds
    ensures forall i, j :: 0 <= i < |rs| && 0 <= j < |rs[i].analyzers| ==>
              j < |res.0[i].analyzers| && res.0[i].analyzers[j] == (rs[i].analyzers[j].0, AnalyzerStop(rs[i].analyzers[j].1))
    ensures res.1 == StopSchedule(Names(rs), from)
    decreases |rs|
  {
    if |rs| == 0 then ([], [])
    else
      var d := rs[0].analyzers;
      var stopped := seq(|d|, j requires 0 <= j < |d| => (d[j].0, AnalyzerStop(d[j].1)));
      var tail := StopAll(rs[1..], from + 1);
      var out := [rs[0].(analyzers := stopped)] + tail.0;
      assert out[1..] == tail.0;
      assert DictNames(stopped) == DictNames(d);
      (out, Stops(from, DictNames(d)) + tail.1)
  }

  // ---------------------------------------------------------------------
  // run()
  // ---------------------------------------------------------------------

  /** The master timestamps: the first feed's index. */
  function Stamps(bars: seq<Bar>): (ts: seq<int>)
    ensures |ts| == |bars| && forall i :: 0 <= i < |bars| ==> ts[i] == bars[i].ts
  {
    seq(|bars|, i requires 0 <= i < |bars| => bars[i].ts)
  }

  /** `run()`. With no feed it fails on `self.datas[0]`. Otherwise the
      result gives the strategies as they finished, the broker, the feeds,
      one record per master timestamp and the events, which are exactly
      the schedule the timestamps and the analyzer names determine. */
  method Run(c: Cerebro) returns (r: Result<Loop>)
    requires Wellformed(c)
    ensures |c.datas| == 0 ==> r == Err(IndexError)
    ensures r.Ok? ==> var l := r.value;
              var ts := Stamps(c.datas[0].bars);
              && |l.running| == |c.strategies| && Numbered(l.running, 0)
              && (forall i :: 0 <= i < |l.running| ==> l.running[i].st.params == MergeParams(FtltDefaults, c.strategies[i]))
              && Recorded(l.bars, ts, |c.strategies|, c.broker.pending, l.broker.pending)
              && (|ts| == 0 ==> l.broker == c.broker)
              && l.events == Schedule(ts, Names(l.running))
  {
    if |c.datas| == 0 {
      return Err(IndexError);
    }
    var built := Construct(c, InitAnalyzers(c.analyzers, Value(c.broker, c.datas)));
    if built.Err? {
      return Err(built.fault);
    }
    var rs := built.value;
    var ts := Stamps(c.datas[0].bars);
    var loop := RunBars(rs, c.broker, c.datas, ts);
    if loop.Err? {
      return Err(loop.fault);
    }
    var l := loop.value;
    var (fin, stops) := StopAll(l.running, 0);
    assert ParamsOf(fin) == ParamsOf(rs);
    assert Names(fin) == Names(rs);
    assert l.events + stops == Schedule(ts, Names(fin));
    return Ok(l.(running := fin, events := l.events + stops));
  }
}
