/** A price feed: an immutable table of daily OHLC bars and a read cursor
    (mytrader/feeds/pandasdata.py). Lines are read relative to the cursor;
    reads outside the table are NaN, and advancing to a timestamp the table
    lacks keeps the cursor where it was (carry-forward). */
module Feeds {
  import opened Base
  import opened Text

  /** One row of the frame: its timestamp and the four price columns. */
  datatype Bar = Bar(ts: int, open: real, high: real, low: real, close: real)

  /** The four lines a feed exposes. */
  datatype Column = Open | High | Low | Close

  function ColumnValue(b: Bar, c: Column): real {
    match c
    case Open => b.open
    case High => b.high
    case Low => b.low
    case Close => b.close
  }

  /** A pandas DataFrame as the feed sees it: column labels, the timestamp
      index, and one row of cells per timestamp. */
  datatype Frame = Frame(columns: seq<string>, index: seq<int>, rows: seq<seq<real>>)

  /** Every row has one cell per column and there is one row per timestamp. */
  predicate Rectangular(df: Frame) {
    |df.rows| == |df.index| && forall i :: 0 <= i < |df.rows| ==> |df.rows[i]| == |df.columns|
  }

  /** A feed: the name it was registered under, its bars, and the cursor
      `idx` (-1 before the first advance). */
  datatype Feed = Feed(name: Option<string>, bars: seq<Bar>, idx: int)

  /** The cursor is -1 or a row of the table. */
  predicate CursorOk(f: Feed) {
    -1 <= f.idx < |f.bars|
  }

  predicate AllCursorsOk(feeds: seq<Feed>) {
    forall k :: 0 <= k < |feeds| ==> CursorOk(feeds[k])
  }

  /** Timestamps strictly increase down the table (pandas index ascending
      and unique). */
  predicate Ascending(bars: seq<Bar>) {
    forall i, j :: 0 <= i < j < |bars| ==> bars[i].ts < bars[j].ts
  }

  // ---------------------------------------------------------------------
  // Construction
  // ---------------------------------------------------------------------

  /** The column the lower-cased label map `{c.lower(): c}` keeps for `key`:
      the LAST column whose lower-cased label is `key`, or None. */
  function FindColumn(columns: seq<string>, key: string): (r: Option<nat>)
    ensures r.Some? ==> r.value < |columns| && Lower(columns[r.value]) == key
    ensures r.Some? ==> forall j :: r.value < j < |columns| ==> Lower(columns[j]) != key
    ensures r.None? <==> forall j :: 0 <= j < |columns| ==> Lower(columns[j]) != key
  {
    if |columns| == 0 then None
    else if Lower(columns[|columns| - 1]) == key then Some(|columns| - 1)
    else FindColumn(columns[..|columns| - 1], key)
  }

  /** True when some column's lower-cased label is `key`. */
  predicate HasColumn(columns: seq<string>, key: string) {
    exists j :: 0 <= j < |columns| && Lower(columns[j]) == key
  }

  /** The bars of a frame, read through the four resolved column positions. */
  function ExtractBars(df: Frame, o: nat, h: nat, l: nat, c: nat): (bars: seq<Bar>)
    requires Rectangular(df)
    requires o < |df.columns| && h < |df.columns| && l < |df.columns| && c < |df.columns|
  {
    seq(|df.index|, i requires 0 <= i < |df.index| =>
      Bar(df.index[i], df.rows[i][o], df.rows[i][h], df.rows[i][l], df.rows[i][c]))
  }

  /** `PandasData(df)`: resolves open, high, low and close case-insensitively,
      in that order, raising KeyError for the first one missing; the new
      feed has no name and its cursor before the first row. */
  function NewFeed(df: Frame): (r: Result<Feed>)
    requires Rectangular(df)
    ensures r.Ok? <==> HasColumn(df.columns, "open") && HasColumn(df.columns, "high")
                       && HasColumn(df.columns, "low") && HasColumn(df.columns, "close")
    ensures !HasColumn(df.columns, "open") ==> r == Err(KeyError("open"))
    ensures HasColumn(df.columns, "open") && !HasColumn(df.columns, "high") ==> r == Err(KeyError("high"))
    ensures (HasColumn(df.columns, "open") && HasColumn(df.columns, "high") && !HasColumn(df.columns, "low"))
            ==> r == Err(KeyError("low"))
    ensures (HasColumn(df.columns, "open") && HasColumn(df.columns, "high") && HasColumn(df.columns, "low")
             && !HasColumn(df.columns, "close")) ==> r == Err(KeyError("close"))
    ensures r.Ok? ==> r.value.idx == -1 && r.value.name == None && |r.value.bars| == |df.index|
    ensures r.Ok? ==> forall i :: 0 <= i < |df.index| ==>
              r.value.bars[i].ts == df.index[i]
              && r.value.bars[i].close == df.rows[i][FindColumn(df.columns, "close").value]
              && r.value.bars[i].open == df.rows[i][FindColumn(df.columns, "open").value]
  {
    var o := FindColumn(df.columns, "open");
    if o.None? then Err(KeyError("open"))
    else
      var h := FindColumn(df.columns, "high");
      if h.None? then Err(KeyError("high"))
      else
        var l := FindColumn(df.columns, "low");
        if l.None? then Err(KeyError("low"))
        else
          var c := FindColumn(df.columns, "close");
          if c.None? then Err(KeyError("close"))
          else Ok(Feed(None, ExtractBars(df, o.value, h.value, l.value, c.value), -1))
  }

  /** Column labels are matched case-insensitively: lower-casing every label
      first builds the same feed. */
  lemma NewFeedIgnoresCase(df: Frame)
    requires Rectangular(df)
    ensures NewFeed(df.(columns := seq(|df.columns|, j requires 0 <= j < |df.columns| => Lower(df.columns[j]))))
            == NewFeed(df)
  {
    var lowered := seq(|df.columns|, j requires 0 <= j < |df.columns| => Lower(df.columns[j]));
    var df' := df.(columns := lowered);
    assert Rectangular(df');
    SameLowerSameColumn(lowered, df.columns, "open");
    SameLowerSameColumn(lowered, df.columns, "high");
    SameLowerSameColumn(lowered, df.columns, "low");
    SameLowerSameColumn(lowered, df.columns, "close");
  }

  /** Two label lists that agree after lower-casing resolve every key alike. */
  lemma {:induction false} SameLowerSameColumn(a: seq<string>, b: seq<string>, key: string)
    requires |a| == |b|
    requires forall j :: 0 <= j < |a| ==> Lower(a[j]) == Lower(Lower(b[j]))
    ensures FindColumn(a, key) == FindColumn(b, key)
  {
    if |a| > 0 {
      LowerIdempotent(b[|b| - 1]);
      SameLowerSameColumn(a[..|a| - 1], b[..|b| - 1], key);
    }
  }

  // ---------------------------------------------------------------------
  // Reading
  // ---------------------------------------------------------------------

  /** `Line[k]`: the column's value in row cursor+k, NaN (None) when that row
      is outside the table. */
  function Field(f: Feed, col: Column, k: int): (r: Option<real>)
    ensures r.None? <==> f.idx + k < 0 || f.idx + k >= |f.bars|
    ensures r.Some? ==> r.value == ColumnValue(f.bars[f.idx + k], col)
  {
    var i := f.idx + k;
    if i < 0 || i >= |f.bars| then None else Some(ColumnValue(f.bars[i], col))
  }

  /** `DateTimeLine.datetime(_)`: the cursor row's timestamp, None when the
      cursor is outside the table; the argument is ignored. */
  function Datetime(f: Feed): (r: Option<int>)
    ensures r.None? <==> f.idx < 0 || f.idx >= |f.bars|
    ensures r.Some? ==> r.value == f.bars[f.idx].ts
  {
    if f.idx < 0 || f.idx >= |f.bars| then None else Some(f.bars[f.idx].ts)
  }

  /** `DateTimeLine.date(_)`: `df.iloc[idx]`, which follows Python's negative
      indexing, so at cursor -1 it reads the LAST row; only a cursor outside
      [-len, len) raises IndexError. The argument is ignored. */
  function Date(f: Feed): (r: Result<int>)
    ensures 0 <= f.idx < |f.bars| ==> r == Ok(f.bars[f.idx].ts)
    ensures -|f.bars| <= f.idx < 0 ==> r == Ok(f.bars[|f.bars| + f.idx].ts)
    ensures r.Err? <==> f.idx < -|f.bars| || f.idx >= |f.bars|
  {
    if 0 <= f.idx < |f.bars| then Ok(f.bars[f.idx].ts)
    else if -|f.bars| <= f.idx < 0 then Ok(f.bars[|f.bars| + f.idx].ts)
    else Err(IndexError)
  }

  /** On a fresh non-empty feed `datetime` is None but `date` is the last
      row's timestamp. */
  lemma DateAndDatetimeDisagreeBeforeStart(f: Feed)
    requires f.idx == -1 && |f.bars| > 0
    ensures Datetime(f) == None
    ensures Date(f) == Ok(f.bars[|f.bars| - 1].ts)
  {
  }

  // ---------------------------------------------------------------------
  // Advancing
  // ---------------------------------------------------------------------

  /** `df.index.get_loc(t)`: the first row stamped t, or None when t is
      absent. */
  function IndexOf(bars: seq<Bar>, t: int): (r: Option<nat>)
    ensures r.Some? ==> r.value < |bars| && bars[r.value].ts == t
    ensures r.Some? ==> forall j :: 0 <= j < r.value ==> bars[j].ts != t
    ensures r.None? <==> forall j :: 0 <= j < |bars| ==> bars[j].ts != t
  {
    if |bars| == 0 then None
    else if bars[0].ts == t then Some(0)
    else
      var r := IndexOf(bars[1..], t);
      if r.None? then None else Some(r.value + 1)
  }

  /** `_advance_to_date(t)`: move the cursor to the row stamped t, or leave
      the feed unchanged when no row is (carry-forward). */
  function AdvanceToDate(f: Feed, t: int): (r: Feed)
    ensures r.name == f.name && r.bars == f.bars
    ensures (exists j :: 0 <= j < |f.bars| && f.bars[j].ts == t)
            ==> 0 <= r.idx < |r.bars| && r.bars[r.idx].ts == t
    ensures (forall j :: 0 <= j < |f.bars| ==> f.bars[j].ts != t) ==> r == f
  {
    match IndexOf(f.bars, t)
    case Some(i) => f.(idx := i)
    case None => f
  }

  /** Advancing a feed through a sequence of timestamps, one after another. */
  function AdvanceThrough(f: Feed, ts: seq<int>): Feed
    decreases |ts|
  {
    if |ts| == 0 then f else AdvanceThrough(AdvanceToDate(f, ts[0]), ts[1..])
  }

  /** Advancing through one more timestamp is advancing the result once
      more. */
  lemma {:induction false} AdvanceThroughSnoc(f: Feed, ts: seq<int>, t: int)
    ensures AdvanceThrough(f, ts + [t]) == AdvanceToDate(AdvanceThrough(f, ts), t)
    decreases |ts|
  {
    if |ts| > 0 {
      assert (ts + [t])[1..] == ts[1..] + [t];
      AdvanceThroughSnoc(AdvanceToDate(f, ts[0]), ts[1..], t);
    } else {
      assert ([] + [t])[1..] == [];
    }
  }

  /** Whatever timestamps arrive, the cursor stays in {-1} ∪ [0, len), and
      once it has reached a row it never returns to -1. */
  lemma {:induction false} CursorStaysInRange(f: Feed, ts: seq<int>)
    requires CursorOk(f)
    ensures CursorOk(AdvanceThrough(f, ts))
    ensures AdvanceThrough(f, ts).bars == f.bars
    ensures f.idx >= 0 ==> AdvanceThrough(f, ts).idx >= 0
    decreases |ts|
  {
    if |ts| > 0 {
      CursorStaysInRange(AdvanceToDate(f, ts[0]), ts[1..]);
    }
  }

  /** With ascending timestamps, advancing to row k's own timestamp puts
      the cursor on row k. */
  lemma AdvanceToOwnStamp(f: Feed, k: nat)
    requires Ascending(f.bars) && k < |f.bars|
    ensures AdvanceToDate(f, f.bars[k].ts).idx == k
  {
  }

  /** After advancing to a present timestamp, line 0 reads that row and
      line -1 the row before it (NaN on the first row). */
  lemma ReadAfterAdvance(f: Feed, k: nat, col: Column)
    requires Ascending(f.bars) && k < |f.bars|
    ensures Field(AdvanceToDate(f, f.bars[k].ts), col, 0) == Some(ColumnValue(f.bars[k], col))
    ensures k == 0 ==> Field(AdvanceToDate(f, f.bars[k].ts), col, -1) == None
    ensures k > 0 ==> Field(AdvanceToDate(f, f.bars[k].ts), col, -1) == Some(ColumnValue(f.bars[k - 1], col))
  {
    AdvanceToOwnStamp(f, k);
  }

  /** A fresh feed reads NaN at line 0 and the first row at line +1. */
  lemma FreshFeedReads(df: Frame, col: Column)
    requires Rectangular(df) && NewFeed(df).Ok?
    ensures Field(NewFeed(df).value, col, 0) == None
    ensures |df.index| > 0 ==> Field(NewFeed(df).value, col, 1).Some?
  {
  }
}
