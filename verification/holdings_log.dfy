/** The inverted holdings log (functions/inverted_holdings_logger.py): one
    row per trading day, newest first, with each asset's share of equity,
    the caller's value, change and notes cells, and the pieces of the HTML
    report that are pure: the change colouring, HTML escaping, the column
    headers and the chart series. */
module HoldingsLog {
  import opened Base
  import opened Text
  import opened Numbers

  // ---------------------------------------------------------------------
  // change_class
  // ---------------------------------------------------------------------

  /** The three CSS classes a change cell can get. */
  datatype ChangeKind = Pos | Neg | Flat

  const UpArrow: char := '\U{2191}'
  const DownArrow: char := '\U{2193}'

  function ClassName(k: ChangeKind): string {
    match k
    case Pos => "change-pos"
    case Neg => "change-neg"
    case Flat => "change-flat"
  }

  /** What a leading character says about a change. */
  function SignKind(c: char): ChangeKind {
    if c == '+' || c == UpArrow then Pos
    else if c == '-' || c == DownArrow then Neg
    else Flat
  }

  /** `change_class(val)`: the stripped, lower-cased text is flat when
      empty, positive when it starts with '+' or an up arrow, negative when
      it starts with '-' or a down arrow, and flat otherwise. */
  function ChangeClass(val: string): (k: ChangeKind) {
    var v := Lower(Strip(val));
    if |v| == 0 then Flat
    else if v[0] == '+' || v[0] == UpArrow then Pos
    else if v[0] == '-' || v[0] == DownArrow then Neg
    else Flat
  }

  /** The class is decided by the first character that is not whitespace
      alone, and a blank text is flat. */
  lemma ChangeClassByFirst(val: string)
    ensures Leading(val) == |val| ==> ChangeClass(val) == Flat
    ensures Leading(val) < |val| ==> ChangeClass(val) == SignKind(val[Leading(val)])
  {
    StrippedHead(val);
  }

  /** The stripped, lower-cased text is empty exactly for a blank text, and
      otherwise starts with the first non-blank character, lower-cased. */
  lemma StrippedHead(val: string)
    ensures var v := Lower(Strip(val));
            && (Leading(val) == |val| ==> |v| == 0)
            && (Leading(val) < |val| ==> |v| > 0 && v[0] == LowerChar(val[Leading(val)]))
  {
    StripPiece(val);
    LeadingRun(val);
    var r := Strip(val);
    if Leading(val) < |val| {
      assert r[0] == val[Leading(val)];
    }
  }

  /** A change printed with an explicit sign is positive exactly when the
      value is not negative. */
  lemma PrintedChangeClass(t: int, grouped: bool)
    ensures ChangeClass(Tenths(t, grouped, true)) == (if t < 0 then Neg else Pos)
  {
    var s := Tenths(t, grouped, true);
    ChangeClassByFirst(s);
    assert Leading(s) == 0;
  }

  // ---------------------------------------------------------------------
  // _escape_html
  // ---------------------------------------------------------------------

  /** `_escape_html(s)`: '&' is replaced first, then '<', '>' and '"'. */
  function EscapeHtml(s: string): (r: string) {
    ReplaceChar(ReplaceChar(ReplaceChar(ReplaceChar(s, '&', "&amp;"), '<', "&lt;"), '>', "&gt;"), '"', "&quot;")
  }

  /** The entity each character becomes on its own. */
  function EscapeChar(c: char): string {
    if c == '&' then "&amp;"
    else if c == '<' then "&lt;"
    else if c == '>' then "&gt;"
    else if c == '"' then "&quot;"
    else [c]
  }

  /** Escaping character by character, the reference the chained
      replacements are measured against. */
  function EscapeEach(s: string): string
    decreases |s|
  {
    if |s| == 0 then "" else EscapeChar(s[0]) + EscapeEach(s[1..])
  }

  /** The escaped text holds no '<', '>' or '"' at all: every one of them
      became an entity, and no later replacement brings one back. */
  lemma EscapeHtmlClean(s: string)
    ensures '<' !in EscapeHtml(s) && '>' !in EscapeHtml(s) && '"' !in EscapeHtml(s)
  {
    var r1 := ReplaceChar(s, '&', "&amp;");
    var r2 := ReplaceChar(r1, '<', "&lt;");
    var r3 := ReplaceChar(r2, '>', "&gt;");
    ReplaceCharOccurrences(r1, '<', "&lt;");
    ReplaceCharOccurrences(r2, '>', "&gt;");
    ReplaceCharOccurrences(r3, '"', "&quot;");
    assert '<' !in "&gt;" && '<' !in "&quot;" && '>' !in "&quot;";
  }

  /** Escaping distributes over concatenation. */
  lemma EscapeHtmlAppend(a: string, b: string)
    ensures EscapeHtml(a + b) == EscapeHtml(a) + EscapeHtml(b)
  {
    var a1 := ReplaceChar(a, '&', "&amp;");
    var b1 := ReplaceChar(b, '&', "&amp;");
    ReplaceCharAppend(a, b, '&', "&amp;");
    var a2 := ReplaceChar(a1, '<', "&lt;");
    var b2 := ReplaceChar(b1, '<', "&lt;");
    ReplaceCharAppend(a1, b1, '<', "&lt;");
    var a3 := ReplaceChar(a2, '>', "&gt;");
    var b3 := ReplaceChar(b2, '>', "&gt;");
    ReplaceCharAppend(a2, b2, '>', "&gt;");
    ReplaceCharAppend(a3, b3, '"', "&quot;");
  }

  /** On one character the chained replacements give that character's
      entity: the '&' of an entity made earlier is never escaped again,
      because '&' goes first. */
  lemma EscapeHtmlSingle(c: char)
    ensures EscapeHtml([c]) == EscapeChar(c)
  {
    var r1 := ReplaceChar([c], '&', "&amp;");
    assert r1 == (if c == '&' then "&amp;" else [c]) by {
      assert [c][0] == c && [c][1..] == "";
      assert ReplaceChar("", '&', "&amp;") == "";
    }
    var r2 := ReplaceChar(r1, '<', "&lt;");
    if c == '<' {
      assert r2 == "&lt;" by {
        assert r1[0] == '<' && r1[1..] == "";
        assert ReplaceChar("", '<', "&lt;") == "";
      }
    } else {
      ReplaceCharAbsent(r1, '<', "&lt;");
    }
    var r3 := ReplaceChar(r2, '>', "&gt;");
    if c == '>' {
      assert r3 == "&gt;" by {
        assert r2[0] == '>' && r2[1..] == "";
        assert ReplaceChar("", '>', "&gt;") == "";
      }
    } else {
      ReplaceCharAbsent(r2, '>', "&gt;");
    }
    if c == '"' {
      assert ReplaceChar(r3, '"', "&quot;") == "&quot;" by {
        assert r3[0] == '"' && r3[1..] == "";
        assert ReplaceChar("", '"', "&quot;") == "";
      }
    } else {
      ReplaceCharAbsent(r3, '"', "&quot;");
    }
  }

  /** The chained replacements escape each character independently. */
  lemma {:induction false} EscapeHtmlPerChar(s: string)
    ensures EscapeHtml(s) == EscapeEach(s)
    decreases |s|
  {
    if |s| == 0 {
      assert ReplaceChar(s, '&', "&amp;") == "";
    } else {
      assert s == [s[0]] + s[1..];
      EscapeHtmlAppend([s[0]], s[1..]);
      EscapeHtmlSingle(s[0]);
      EscapeHtmlPerChar(s[1..]);
    }
  }

  /** Reading the four entities back, left to right. */
  function Unescape(t: string): string
    decreases |t|
  {
    if |t| == 0 then ""
    else if |t| >= 5 && t[..5] == "&amp;" then "&" + Unescape(t[5..])
    else if |t| >= 4 && t[..4] == "&lt;" then "<" + Unescape(t[4..])
    else if |t| >= 4 && t[..4] == "&gt;" then ">" + Unescape(t[4..])
    else if |t| >= 6 && t[..6] == "&quot;" then "\"" + Unescape(t[6..])
    else [t[0]] + Unescape(t[1..])
  }

  lemma {:induction false} UnescapeEach(s: string)
    ensures Unescape(EscapeEach(s)) == s
    decreases |s|
  {
    if |s| > 0 {
      UnescapeEach(s[1..]);
      UnescapeOne(s[0], EscapeEach(s[1..]));
      assert s == [s[0]] + s[1..];
    }
  }

  /** One escaped character in front reads back as that character. */
  lemma UnescapeOne(c: char, rest: string)
    ensures Unescape(EscapeChar(c) + rest) == [c] + Unescape(rest)
  {
    var t := EscapeChar(c) + rest;
    if c == '&' {
      assert t[..5] == "&amp;" && t[5..] == rest;
    } else if c == '<' {
      UnescapeEntity(t, "&lt;", rest, c);
    } else if c == '>' {
      UnescapeEntity(t, "&gt;", rest, c);
    } else if c == '"' {
      UnescapeEntity(t, "&quot;", rest, c);
    } else {
      UnescapePlain(t, c, rest);
    }
  }

  lemma UnescapeEntity(t: string, e: string, rest: string, c: char)
    requires t == e + rest
    requires (e == "&lt;" && c == '<') || (e == "&gt;" && c == '>') || (e == "&quot;" && c == '"')
    ensures Unescape(t) == [c] + Unescape(rest)
  {
    assert t[..|e|] == e && t[|e|..] == rest;
    assert t[1] == e[1];
    assert |t| >= 5 ==> t[..5] != "&amp;" by {
      if |t| >= 5 { assert t[..5][1] == t[1]; }
    }
    if e == "&gt;" {
      assert t[..4] != "&lt;" by { assert t[..4][1] == t[1]; }
    } else if e == "&quot;" {
      assert t[..4] != "&lt;" && t[..4] != "&gt;" by { assert t[..4][1] == t[1]; }
    }
  }

  lemma UnescapePlain(t: string, c: char, rest: string)
    requires t == [c] + rest && c != '&'
    ensures Unescape(t) == [c] + Unescape(rest)
  {
    assert t[0] == c && t[1..] == rest;
    assert |t| >= 4 ==> t[..4][0] == c;
    assert |t| >= 5 ==> t[..5][0] == c;
    assert |t| >= 6 ==> t[..6][0] == c;
  }

  /** Escaping loses nothing: the entities read back to the original
      text. */
  lemma EscapeHtmlRoundTrip(s: string)
    ensures Unescape(EscapeHtml(s)) == s
  {
    EscapeHtmlPerChar(s);
    UnescapeEach(s);
  }

  // ---------------------------------------------------------------------
  // The log's state
  // ---------------------------------------------------------------------

  /** An asset cell: blank below the display threshold, otherwise the
      percentage `f"{pct:.1f}%"` prints (None standing for NaN, which no
      threshold hides). */
  datatype Cell = Blank | Shown(pct: Option<real>)

  /** One logged day: its date, the asset cells in column order, and the
      value, change and notes texts (empty when the caller gave none). */
  datatype Row = Row(day: int, cells: seq<Cell>, value: string, change: string, notes: string)

  /** `_last_logged_date`: `__init__` never sets it, so it is missing until
      `clear` sets it to None. */
  datatype Last = Missing | Cleared | On(day: int)

  datatype Log = Log(minPct: real, columns: seq<string>, rows: seq<Row>,
                     hasNotes: bool, hasChange: bool, hasValue: bool, last: Last)

  /** The dataclass default of `min_pct_to_show`. */
  const DefaultMinPct: real := 2.0

  /** A freshly constructed log: no columns, no rows, no optional columns,
      and no last logged date yet. */
  function NewLog(minPct: real): (l: Log)
    ensures l.minPct == minPct && l.columns == [] && l.rows == []
    ensures !l.hasNotes && !l.hasChange && !l.hasValue && l.last == Missing
  {
    Log(minPct, [], [], false, false, false, Missing)
  }

  /** `clear()`, without the file it truncates: the columns, rows, last date
      and the notes and change flags are reset; the value flag is not. */
  function Clear(l: Log): (c: Log)
    ensures c.columns == [] && c.rows == [] && c.last == Cleared
    ensures !c.hasNotes && !c.hasChange && c.hasValue == l.hasValue && c.minPct == l.minPct
  {
    l.(columns := [], rows := [], last := Cleared, hasNotes := false, hasChange := false)
  }

  // ---------------------------------------------------------------------
  // _holdings_pct
  // ---------------------------------------------------------------------

  /** What `collect` is handed for each column: a plain string, or a feed
      with its name, the strategy's position size in it and its current
      close (None when the close is NaN). */
  datatype Item = Label(text: string) | Asset(name: Option<string>, size: real, close: Option<real>)

  const CashLabel: string := "CASH"

  /** `(data._name or "UNKNOWN").replace("_1H", "")`. */
  function AssetName(name: Option<string>): string {
    ReplaceAll(if name.None? || |name.value| == 0 then "UNKNOWN" else name.value, "_1H", "")
  }

  /** `_holdings_pct(strategy, item, equity)`: the column name and the
      share of equity in percent. "CASH" in any case is the cash share; any
      other string has no position; a feed's share is the marked value of
      the absolute position. */
  function HoldingsPct(item: Item, cash: real, equity: real): (r: (string, Option<real>))
    requires equity > 0.0
    ensures item.Label? ==> (r.0 == CashLabel <==> Upper(item.text) == CashLabel || item.text == CashLabel)
    ensures item.Label? && Upper(item.text) != CashLabel ==> r == (item.text, Some(0.0))
    ensures item.Asset? ==> r.0 == AssetName(item.name)
    ensures item.Asset? ==> (r.1.None? <==> item.size != 0.0 && item.close.None?)
    ensures item.Asset? && item.close.Some? && item.close.value >= 0.0 ==> r.1.value >= 0.0
  {
    match item
    case Label(text) =>
      if Upper(text) == CashLabel then (CashLabel, Some(cash / equity * 100.0))
      else (text, Some(0.0))
    case Asset(name, size, close) =>
      var value := if size != 0.0 then (if close.None? then None else Some(Abs(size) * close.value)) else Some(0.0);
      (AssetName(name), if value.None? then None else Some(value.value / equity * 100.0))
  }

  /** The (name, share) pairs of a day, in the order of the items. */
  function DayPcts(items: seq<Item>, cash: real, equity: real): (ps: seq<(string, Option<real>)>)
    requires equity > 0.0
    ensures |ps| == |items|
    decreases |items|
  {
    if |items| == 0 then []
    else DayPcts(items[..|items| - 1], cash, equity) + [HoldingsPct(items[|items| - 1], cash, equity)]
  }

  /** The pair at position i is the share of item i. */
  lemma {:induction false} DayPctsAt(items: seq<Item>, cash: real, equity: real, i: int)
    requires equity > 0.0 && 0 <= i < |items|
    ensures DayPcts(items, cash, equity)[i] == HoldingsPct(items[i], cash, equity)
    decreases |items|
  {
    if i < |items| - 1 {
      var front := items[..|items| - 1];
      DayPctsAt(front, cash, equity, i);
    }
  }

  function Names(ps: seq<(string, Option<real>)>): (ns: seq<string>)
    ensures |ns| == |ps|
    ensures forall i :: 0 <= i < |ps| ==> ns[i] == ps[i].0
    decreases |ps|
  {
    if |ps| == 0 then [] else Names(ps[..|ps| - 1]) + [ps[|ps| - 1].0]
  }

  /** `float(day_pct.get(c, 0.0))` on the dictionary the pairs were stored
      into one by one: a later pair with the same name overwrites an
      earlier one. */
  function LookupPct(ps: seq<(string, Option<real>)>, name: string): Option<real>
    decreases |ps|
  {
    if |ps| == 0 then Some(0.0)
    else if ps[|ps| - 1].0 == name then ps[|ps| - 1].1
    else LookupPct(ps[..|ps| - 1], name)
  }

  /** The share looked up is the one of the last pair carrying the name,
      and 0.0 when none does. */
  lemma {:induction false} LookupPctIsLast(ps: seq<(string, Option<real>)>, name: string, j: int)
    requires 0 <= j < |ps| && ps[j].0 == name
    requires forall k :: j < k < |ps| ==> ps[k].0 != name
    ensures LookupPct(ps, name) == ps[j].1
    decreases |ps|
  {
    if j < |ps| - 1 {
      var front := ps[..|ps| - 1];
      assert front[j] == ps[j];
      assert forall k :: j < k < |front| ==> front[k] == ps[k];
      LookupPctIsLast(front, name, j);
    }
  }

  lemma {:induction false} LookupPctAbsent(ps: seq<(string, Option<real>)>, name: string)
    requires forall k :: 0 <= k < |ps| ==> ps[k].0 != name
    ensures LookupPct(ps, name) == Some(0.0)
    decreases |ps|
  {
    if |ps| > 0 {
      var front := ps[..|ps| - 1];
      assert forall k :: 0 <= k < |front| ==> front[k] == ps[k];
      LookupPctAbsent(front, name);
    }
  }

  /** An asset cell is blank exactly when its share is a number whose
      magnitude is below the threshold. */
  function CellFor(pct: Option<real>, minPct: real): (c: Cell)
    ensures c == Blank <==> pct.Some? && Abs(pct.value) < minPct
    ensures c.Shown? ==> c.pct == pct
  {
    if pct.Some? && Abs(pct.value) < minPct then Blank else Shown(pct)
  }

  /** The cells of a day, one per column, in column order. */
  function Cells(columns: seq<string>, ps: seq<(string, Option<real>)>, minPct: real): (cs: seq<Cell>)
    ensures |cs| == |columns|
    ensures forall i :: 0 <= i < |columns| ==> cs[i] == CellFor(LookupPct(ps, columns[i]), minPct)
    decreases |columns|
  {
    if |columns| == 0 then []
    else Cells(columns[..|columns| - 1], ps, minPct) + [CellFor(LookupPct(ps, columns[|columns| - 1]), minPct)]
  }

  // ---------------------------------------------------------------------
  // collect
  // ---------------------------------------------------------------------

  const ColumnMismatch: Fault := ValueError("column mismatch")

  function OrEmpty(s: Option<string>): string {
    if s.None? then "" else s.value
  }

  /** `collect(strategy, assets, change, value, notes)` on day `day` with
      broker value `equity` and cash `cash`. A day already logged is
      ignored; the date is remembered before a non-positive equity skips
      the day; otherwise the flags of the given optional texts are raised,
      the first day's names fix the columns, a day whose names differ is an
      error, and the new row goes in front. */
  function Collect(l: Log, day: int, equity: real, cash: real, items: seq<Item>,
                   change: Option<string>, value: Option<string>, notes: Option<string>): (r: Result<Log>)
    ensures l.last == Missing ==> r == Err(AttributeError("_last_logged_date"))
    ensures r.Err? <==> l.last == Missing || (l.last != On(day) && equity > 0.0 && |l.columns| > 0
                                              && Names(DayPcts(items, cash, equity)) != l.columns)
    ensures r.Ok? ==> r.value.last == On(day) && r.value.minPct == l.minPct
    ensures r.Ok? ==> (l.hasChange ==> r.value.hasChange) && (l.hasValue ==> r.value.hasValue)
                      && (l.hasNotes ==> r.value.hasNotes)
    ensures r.Ok? ==> r.value.rows == l.rows || (|r.value.rows| > 0 && r.value.rows[1..] == l.rows)
  {
    if l.last == Missing then Err(AttributeError("_last_logged_date"))
    else if l.last == On(day) then Ok(l)
    else
      var dated := l.(last := On(day));
      if equity <= 0.0 then Ok(dated)
      else
        var flagged := dated.(hasChange := dated.hasChange || change.Some?,
                              hasValue := dated.hasValue || value.Some?,
                              hasNotes := dated.hasNotes || notes.Some?);
        var ps := DayPcts(items, cash, equity);
        var columns := if |flagged.columns| == 0 then Names(ps) else flagged.columns;
        if Names(ps) != columns then Err(ColumnMismatch)
        else
          var row := Row(day, Cells(columns, ps, flagged.minPct), OrEmpty(value), OrEmpty(change), OrEmpty(notes));
          Ok(flagged.(columns := columns, rows := [row] + flagged.rows))
  }

  /** A second call for a day already logged changes nothing. */
  lemma CollectSameDay(l: Log, day: int, equity: real, cash: real, items: seq<Item>,
                       change: Option<string>, value: Option<string>, notes: Option<string>)
    requires l.last == On(day)
    ensures Collect(l, day, equity, cash, items, change, value, notes) == Ok(l)
  {
  }

  /** With no positive equity only the date is remembered: no row, no
      column and no flag changes. */
  lemma CollectNoEquity(l: Log, day: int, equity: real, cash: real, items: seq<Item>,
                        change: Option<string>, value: Option<string>, notes: Option<string>)
    requires l.last != Missing && l.last != On(day) && equity <= 0.0
    ensures Collect(l, day, equity, cash, items, change, value, notes) == Ok(l.(last := On(day)))
  {
  }

  /** A recorded day: the columns are that day's names, whether they were
      fixed now or earlier; the newest row is in front with one cell per
      column; the optional columns are on once any day supplied them. */
  lemma CollectRecords(l: Log, day: int, equity: real, cash: real, items: seq<Item>,
                       change: Option<string>, value: Option<string>, notes: Option<string>)
    requires l.last != Missing && l.last != On(day) && equity > 0.0
    requires Collect(l, day, equity, cash, items, change, value, notes).Ok?
    ensures var r := Collect(l, day, equity, cash, items, change, value, notes).value;
            && r.columns == Names(DayPcts(items, cash, equity))
            && (|l.columns| > 0 ==> r.columns == l.columns)
            && |r.rows| == |l.rows| + 1 && r.rows[1..] == l.rows
            && r.rows[0].day == day && r.rows[0].cells == Cells(r.columns, DayPcts(items, cash, equity), l.minPct)
            && r.rows[0].value == OrEmpty(value) && r.rows[0].change == OrEmpty(change)
            && r.rows[0].notes == OrEmpty(notes)
            && r.hasChange == (l.hasChange || change.Some?)
            && r.hasValue == (l.hasValue || value.Some?)
            && r.hasNotes == (l.hasNotes || notes.Some?)
  {
  }

  /** The cell of column i is blank exactly when the share the day gave
      that name last is a number below the threshold. */
  lemma CellOfLastShare(columns: seq<string>, ps: seq<(string, Option<real>)>, minPct: real, i: int, j: int)
    requires 0 <= i < |columns| && 0 <= j < |ps| && ps[j].0 == columns[i]
    requires forall k :: j < k < |ps| ==> ps[k].0 != columns[i]
    ensures Cells(columns, ps, minPct)[i] == Blank <==> ps[j].1.Some? && Abs(ps[j].1.value) < minPct
  {
    LookupPctIsLast(ps, columns[i], j);
  }

  /** Every row has one cell per column, and rows exist only once the
      columns are known. */
  predicate Shaped(l: Log) {
    && (forall i :: 0 <= i < |l.rows| ==> |l.rows[i].cells| == |l.columns|)
    && (|l.columns| == 0 ==> |l.rows| == 0)
  }

  lemma NewAndClearedShaped(minPct: real, l: Log)
    ensures Shaped(NewLog(minPct)) && Shaped(Clear(l))
  {
  }

  /** Collecting a non-empty list of items keeps every row the width of
      the column list. (A first day with no items at all records a row
      with no cells and leaves the columns to be fixed by a later day.) */
  lemma CollectKeepsShape(l: Log, day: int, equity: real, cash: real, items: seq<Item>,
                          change: Option<string>, value: Option<string>, notes: Option<string>)
    requires Shaped(l) && |items| > 0
    requires Collect(l, day, equity, cash, items, change, value, notes).Ok?
    ensures Shaped(Collect(l, day, equity, cash, items, change, value, notes).value)
  {
    if l.last != On(day) && equity > 0.0 {
      CollectRecords(l, day, equity, cash, items, change, value, notes);
      ShapedAfterPush(l, Collect(l, day, equity, cash, items, change, value, notes).value);
    }
  }

  lemma ShapedAfterPush(l: Log, r: Log)
    requires Shaped(l) && |r.columns| > 0 && (|l.columns| > 0 ==> r.columns == l.columns)
    requires |r.rows| == |l.rows| + 1 && r.rows[1..] == l.rows && |r.rows[0].cells| == |r.columns|
    ensures Shaped(r)
  {
    forall i | 0 <= i < |r.rows| ensures |r.rows[i].cells| == |r.columns| {
      if i > 0 {
        assert r.rows[i] == l.rows[i - 1];
      }
    }
  }

  // ---------------------------------------------------------------------
  // Shares of equity
  // ---------------------------------------------------------------------

  /** The marked value of long positions in the items, the way the broker
      values them: size times close. */
  function MarkedValue(items: seq<Item>): real
    decreases |items|
  {
    if |items| == 0 then 0.0
    else
      var last := items[|items| - 1];
      MarkedValue(items[..|items| - 1]) + (if last.Asset? && last.close.Some? then last.size * last.close.value else 0.0)
  }

  /** Every item is a feed with a known close and a long (or flat)
      position. */
  predicate LongAssets(items: seq<Item>) {
    forall i :: 0 <= i < |items| ==> items[i].Asset? && items[i].close.Some? && items[i].size >= 0.0
  }

  function ShareSum(ps: seq<(string, Option<real>)>): real
    decreases |ps|
  {
    if |ps| == 0 then 0.0
    else ShareSum(ps[..|ps| - 1]) + (if ps[|ps| - 1].1.Some? then ps[|ps| - 1].1.value else 0.0)
  }

  /** The shares of long feeds add up to their marked value as a percentage
      of equity. */
  lemma {:induction false} AssetSharesSum(items: seq<Item>, cash: real, equity: real)
    requires equity > 0.0 && LongAssets(items)
    ensures ShareSum(DayPcts(items, cash, equity)) == MarkedValue(items) / equity * 100.0
    decreases |items|
  {
    if |items| > 0 {
      var front := items[..|items| - 1];
      var x := items[|items| - 1];
      LongAssetsFront(items);
      AssetSharesSum(front, cash, equity);
      var v := x.size * x.close.value;
      var mf := MarkedValue(front);
      AssetShare(x, cash, equity);
      ShareSumSnoc(DayPcts(front, cash, equity), HoldingsPct(x, cash, equity));
      assert DayPcts(items, cash, equity) == DayPcts(front, cash, equity) + [HoldingsPct(x, cash, equity)];
      assert ShareSum(DayPcts(items, cash, equity)) == mf / equity * 100.0 + v / equity * 100.0;
      assert MarkedValue(items) == mf + v;
      ShareStep(mf, v, equity);
    }
  }

  lemma LongAssetsFront(items: seq<Item>)
    requires LongAssets(items) && |items| > 0
    ensures LongAssets(items[..|items| - 1])
    ensures items[|items| - 1].Asset? && items[|items| - 1].close.Some? && items[|items| - 1].size >= 0.0
  {
    assert forall i :: 0 <= i < |items| - 1 ==> items[..|items| - 1][i] == items[i];
  }

  /** A long feed's share is its marked value over equity, in percent. */
  lemma AssetShare(x: Item, cash: real, equity: real)
    requires equity > 0.0 && x.Asset? && x.close.Some? && x.size >= 0.0
    ensures HoldingsPct(x, cash, equity).1 == Some(x.size * x.close.value / equity * 100.0)
  {
    if x.size == 0.0 {
      assert x.size * x.close.value == 0.0;
    }
  }

  lemma ShareSumSnoc(ps: seq<(string, Option<real>)>, p: (string, Option<real>))
    ensures ShareSum(ps + [p]) == ShareSum(ps) + (if p.1.Some? then p.1.value else 0.0)
  {
    assert (ps + [p])[..|ps|] == ps;
  }

  lemma ShareStep(a: real, v: real, equity: real)
    requires equity > 0.0
    ensures a / equity * 100.0 + v / equity * 100.0 == (a + v) / equity * 100.0
  {
  }

  /** When equity is cash plus the marked long positions, the "CASH" column
      and the feed columns of a day together account for exactly 100% of
      equity. */
  lemma SharesMakeWhole(assets: seq<Item>, cash: real, equity: real)
    requires equity > 0.0 && LongAssets(assets)
    requires equity == cash + MarkedValue(assets)
    ensures ShareSum(DayPcts([Label(CashLabel)] + assets, cash, equity)) == 100.0
  {
    AssetSharesSum(assets, cash, equity);
    var items := [Label(CashLabel)] + assets;
    CashFirst(items, cash, equity);
    assert items[1..] == assets;
    WholeShare(cash, MarkedValue(assets), equity);
  }

  lemma WholeShare(a: real, b: real, equity: real)
    requires equity > 0.0 && equity == a + b
    ensures a / equity * 100.0 + b / equity * 100.0 == 100.0
  {
    ShareStep(a, b, equity);
    assert (a + b) / equity == 1.0;
  }

  /** The share sum of a list with a label in front is that label's share
      plus the rest's. */
  lemma {:induction false} CashFirst(items: seq<Item>, cash: real, equity: real)
    requires equity > 0.0 && |items| > 0 && items[0] == Label(CashLabel)
    ensures ShareSum(DayPcts(items, cash, equity)) == cash / equity * 100.0 + ShareSum(DayPcts(items[1..], cash, equity))
    decreases |items|
  {
    var ps := DayPcts(items, cash, equity);
    assert Upper(CashLabel) == CashLabel;
    if |items| == 1 {
      assert items[1..] == [];
    } else {
      var front := items[..|items| - 1];
      CashFirst(front, cash, equity);
      assert ps[..|ps| - 1] == DayPcts(front, cash, equity);
      assert front[1..] == items[1..][..|items| - 2];
      var rest := DayPcts(items[1..], cash, equity);
      assert rest[..|rest| - 1] == DayPcts(front[1..], cash, equity);
      assert rest[|rest| - 1] == ps[|ps| - 1];
    }
  }

  // ---------------------------------------------------------------------
  // The HTML table's columns
  // ---------------------------------------------------------------------

  function Count(b: bool): nat {
    if b then 1 else 0
  }

  /** `_get_column_headers()`: "Date", the asset columns, then "Value",
      "Change" and "Notes", each only when its flag is on. */
  function ColumnHeaders(l: Log): (hs: seq<string>)
    ensures |hs| == 1 + |l.columns| + Count(l.hasValue) + Count(l.hasChange) + Count(l.hasNotes)
    ensures hs[0] == "Date"
    ensures forall i :: 0 <= i < |l.columns| ==> hs[1 + i] == l.columns[i]
    ensures l.hasValue ==> hs[1 + |l.columns|] == "Value"
    ensures l.hasChange ==> hs[1 + |l.columns| + Count(l.hasValue)] == "Change"
    ensures l.hasNotes ==> hs[|hs| - 1] == "Notes"
  {
    ["Date"] + l.columns
    + (if l.hasValue then ["Value"] else [])
    + (if l.hasChange then ["Change"] else [])
    + (if l.hasNotes then ["Notes"] else [])
  }

  /** What a table cell holds: the date, the asset cell of column i, or
      one of the three optional texts. */
  datatype Slot = DateSlot | AssetSlot(i: nat) | ValueSlot | ChangeSlot | NotesSlot

  function AssetSlots(n: nat): (ss: seq<Slot>)
    ensures |ss| == n
    ensures forall i :: 0 <= i < n ==> ss[i] == AssetSlot(i)
    decreases n
  {
    if n == 0 then [] else AssetSlots(n - 1) + [AssetSlot(n - 1)]
  }

  function Flag(b: bool, s: Slot): seq<Slot> {
    if b then [s] else []
  }

  /** The cells `generate_table_html` emits for a data row, in emission
      order: the date, the row's asset cells, then the change cell before
      the value cell, then the notes. */
  function RowSlotsAsWritten(l: Log, r: Row): seq<Slot> {
    [DateSlot] + AssetSlots(|r.cells|) + Flag(l.hasChange, ChangeSlot) + Flag(l.hasValue, ValueSlot)
    + Flag(l.hasNotes, NotesSlot)
  }

  /** The data row emitted in the header's order: value before change. */
  function RowSlots(l: Log, r: Row): seq<Slot> {
    [DateSlot] + AssetSlots(|r.cells|) + Flag(l.hasValue, ValueSlot) + Flag(l.hasChange, ChangeSlot)
    + Flag(l.hasNotes, NotesSlot)
  }

  /** The header a cell belongs under (no header for an asset cell past
      the last column). */
  function SlotHeader(l: Log, s: Slot): string {
    match s
    case DateSlot => "Date"
    case AssetSlot(i) => if i < |l.columns| then l.columns[i] else ""
    case ValueSlot => "Value"
    case ChangeSlot => "Change"
    case NotesSlot => "Notes"
  }

  /** The headers a row's cells belong under, in the order they are
      emitted. */
  function Headings(l: Log, ss: seq<Slot>): (hs: seq<string>)
    ensures |hs| == |ss|
    decreases |ss|
  {
    if |ss| == 0 then [] else Headings(l, ss[..|ss| - 1]) + [SlotHeader(l, ss[|ss| - 1])]
  }

  lemma {:induction false} HeadingsAppend(l: Log, a: seq<Slot>, b: seq<Slot>)
    ensures Headings(l, a + b) == Headings(l, a) + Headings(l, b)
    decreases |b|
  {
    if |b| == 0 {
      assert a + b == a;
    } else {
      assert (a + b)[..|a + b| - 1] == a + b[..|b| - 1];
      HeadingsAppend(l, a, b[..|b| - 1]);
    }
  }

  lemma {:induction false} HeadingsOfAssets(l: Log, n: nat)
    requires n <= |l.columns|
    ensures Headings(l, AssetSlots(n)) == l.columns[..n]
    decreases n
  {
    if n > 0 {
      HeadingsOfAssets(l, n - 1);
      assert AssetSlots(n)[..n - 1] == AssetSlots(n - 1);
      assert l.columns[..n] == l.columns[..n - 1] + [l.columns[n - 1]];
    }
  }

  lemma HeadingsOfFlag(l: Log, b: bool, s: Slot, h: string)
    requires SlotHeader(l, s) == h
    ensures Headings(l, Flag(b, s)) == (if b then [h] else [])
  {
    if b {
      assert Flag(b, s)[..0] == [];
    }
  }

  /** In a row as wide as the column list, the corrected row's cells lie
      under the headers, one for one. */
  lemma RowUnderHeaders(l: Log, r: Row)
    requires |r.cells| == |l.columns|
    ensures Headings(l, RowSlots(l, r)) == ColumnHeaders(l)
  {
    var n := |l.columns|;
    var a := [DateSlot] + AssetSlots(n);
    var fv := Flag(l.hasValue, ValueSlot);
    var fc := Flag(l.hasChange, ChangeSlot);
    var fn := Flag(l.hasNotes, NotesSlot);
    HeadingsAppend(l, [DateSlot], AssetSlots(n));
    HeadingsAppend(l, a, fv);
    HeadingsAppend(l, a + fv, fc);
    HeadingsAppend(l, a + fv + fc, fn);
    assert Headings(l, [DateSlot]) == ["Date"] by {
      assert [DateSlot][..0] == [];
    }
    HeadingsOfAssets(l, n);
    assert l.columns[..n] == l.columns;
    HeadingsOfFlag(l, l.hasValue, ValueSlot, "Value");
    HeadingsOfFlag(l, l.hasChange, ChangeSlot, "Change");
    HeadingsOfFlag(l, l.hasNotes, NotesSlot, "Notes");
  }

  /** The row as written puts the change text under the "Value" header and
      the value text under the "Change" header whenever both columns are
      on. */
  lemma RowSlotsAsWrittenSwapped(l: Log, r: Row)
    requires |r.cells| == |l.columns| && l.hasValue && l.hasChange
    ensures var k := 1 + |l.columns|;
            && k + 1 < |RowSlotsAsWritten(l, r)| && k + 1 < |ColumnHeaders(l)|
            && RowSlotsAsWritten(l, r)[k] == ChangeSlot && ColumnHeaders(l)[k] == "Value"
            && RowSlotsAsWritten(l, r)[k + 1] == ValueSlot && ColumnHeaders(l)[k + 1] == "Change"
  {
    var n := |l.columns|;
    var ss := RowSlotsAsWritten(l, r);
    assert ss == ([DateSlot] + AssetSlots(n)) + ([ChangeSlot, ValueSlot] + Flag(l.hasNotes, NotesSlot));
  }

  lemma {:induction false} HeadingsAt(l: Log, ss: seq<Slot>, k: int)
    requires 0 <= k < |ss|
    ensures Headings(l, ss)[k] == SlotHeader(l, ss[k])
    decreases |ss|
  {
    if k < |ss| - 1 {
      assert ss[..|ss| - 1][k] == ss[k];
      HeadingsAt(l, ss[..|ss| - 1], k);
    }
  }

  /** So with both columns on, the row as written does not line up with the
      headers. */
  lemma RowAsWrittenMisaligned(l: Log, r: Row)
    requires |r.cells| == |l.columns| && l.hasValue && l.hasChange
    ensures Headings(l, RowSlotsAsWritten(l, r)) != ColumnHeaders(l)
  {
    var k := 1 + |l.columns|;
    RowSlotsAsWrittenSwapped(l, r);
    HeadingsAt(l, RowSlotsAsWritten(l, r), k);
  }

  /** With at most one of the two columns on, the row as written and the
      corrected row coincide; with both on they differ. */
  lemma RowSlotsAsWrittenAgree(l: Log, r: Row)
    ensures RowSlotsAsWritten(l, r) == RowSlots(l, r) <==> !(l.hasValue && l.hasChange)
  {
    if l.hasValue && l.hasChange {
      var k := 1 + |r.cells|;
      assert RowSlotsAsWritten(l, r)[k] == ChangeSlot;
      assert RowSlots(l, r)[k] == ValueSlot;
    }
  }

  // ---------------------------------------------------------------------
  // _parse_percentage
  // ---------------------------------------------------------------------

  /** 0.0 as the parser returns it. */
  const Zero: Float := Finite(0, 0)

  /** The text handed to float(): every '%', then every '+', then every ','
      removed, and the rest stripped. */
  function CleanPercent(s: string): string {
    Strip(ReplaceChar(ReplaceChar(ReplaceChar(s, '%', ""), '+', ""), ',', ""))
  }

  /** `_parse_percentage(s)`: 0.0 for a blank text or one float rejects,
      otherwise the number float reads from the cleaned text. */
  function ParsePercentage(s: string): (f: Float) {
    if |s| == 0 || |Strip(s)| == 0 then Zero
    else
      match ParseFloat(CleanPercent(s))
      case Ok(v) => v
      case Err(_) => Zero
  }

  /** A blank text, or one float rejects, reads as zero; any other text
      reads as float reads its cleaned form. */
  lemma ParsePercentageCases(s: string)
    ensures |Strip(s)| == 0 ==> ParsePercentage(s) == Zero
    ensures |Strip(s)| > 0 && ParseFloat(CleanPercent(s)).Err? ==> ParsePercentage(s) == Zero
    ensures |Strip(s)| > 0 && ParseFloat(CleanPercent(s)).Ok? ==> ParsePercentage(s) == ParseFloat(CleanPercent(s)).value
  {
    if |s| == 0 {
      assert Leading(s) == 0 && Trailing(s[0..]) == 0;
    }
  }

  /** A text starting with a visible character is not blank. */
  lemma NotBlank(s: string)
    requires |s| > 0 && !IsSpace(s[0])
    ensures |Strip(s)| > 0
  {
    StripPiece(s);
    LeadingRun(s);
  }

  /** Removing the '%' after a text without one gives the text back. */
  lemma DropPercent(x: string)
    requires '%' !in x
    ensures ReplaceChar(x + "%", '%', "") == x
  {
    ReplaceCharAppend(x, "%", '%', "");
    ReplaceCharAbsent(x, '%', "");
    assert ReplaceChar("%", '%', "") == "" by {
      assert "%"[1..] == "";
    }
  }

  /** Removing '+' drops the printed plus sign and nothing else. */
  lemma DropPlus(t: int, u: string)
    requires '+' !in u
    ensures ReplaceChar(SignText(t, true) + u, '+', "") == SignText(t, false) + u
  {
    ReplaceCharAppend(SignText(t, true), u, '+', "");
    ReplaceCharAbsent(u, '+', "");
    if t < 0 {
      ReplaceCharAbsent("-", '+', "");
    } else {
      assert ReplaceChar("+", '+', "") == "" by {
        assert "+"[1..] == "";
      }
    }
  }

  /** Removing commas leaves a sign alone. */
  lemma DropCommas(t: int, u: string)
    ensures ReplaceChar(SignText(t, false) + u, ',', "") == SignText(t, false) + ReplaceChar(u, ',', "")
  {
    ReplaceCharAppend(SignText(t, false), u, ',', "");
    ReplaceCharAbsent(SignText(t, false), ',', "");
  }

  /** A sign and a digit-led, digit-ended text is its own strip. */
  lemma SignedStrip(t: int, u: string)
    requires |u| > 0 && IsDigit(u[0]) && IsDigit(u[|u| - 1])
    ensures Strip(SignText(t, false) + u) == SignText(t, false) + u
  {
    var m := SignText(t, false) + u;
    assert m[|m| - 1] == u[|u| - 1];
    assert m[0] == '-' || m[0] == u[0];
    StripPlain(m);
  }

  /** The value the strategy prints, `f"{x:+,.1f}%"` of a value in tenths,
      cleans to the sign (minus only) and the digits with the point. */
  lemma CleanPrinted(t: int)
    ensures CleanPercent(Tenths(t, true, true) + "%")
              == SignText(t, false) + ReplaceChar(Unsigned(Magnitude(t), true), ',', "")
  {
    var u := Unsigned(Magnitude(t), true);
    UnsignedExcludes(Magnitude(t), true, '%');
    UnsignedExcludes(Magnitude(t), true, '+');
    assert '%' !in SignText(t, true);
    DropPercent(SignText(t, true) + u);
    DropPlus(t, u);
    DropCommas(t, u);
    UnsignedReads(Magnitude(t), true);
    SignedStrip(t, ReplaceChar(u, ',', ""));
  }

  /** The percentage parser reads back exactly the value in tenths that
      the strategy printed into the value column. */
  lemma ValueReadsBack(t: int)
    ensures ParsePercentage(Tenths(t, true, true) + "%") == Finite(t, 1)
  {
    var s := Tenths(t, true, true) + "%";
    var u := ReplaceChar(Unsigned(Magnitude(t), true), ',', "");
    CleanPrinted(t);
    UnsignedReads(Magnitude(t), true);
    NotBlank(s);
    ReadsAsSigned(s, u, t);
  }

  /** The example the parser's own documentation gives. */
  lemma ParsePercentageExample()
    ensures ParsePercentage("+8,062.2%") == Finite(80622, 1)
  {
    ValueReadsBack(80622);
    PrintedExample();
  }

  lemma PrintedExample()
    ensures Tenths(80622, true, true) + "%" == "+8,062.2%"
  {
    assert Grouped(8062) == Decimal(8) + "," + Pad3(62);
    assert Decimal(8) == "8";
    assert Pad3(62) == "062";
    assert Unsigned(80622, true) == "8,062" + "." + [DigitChar(2)];
  }

  lemma ReadsAsSigned(s: string, u: string, t: int)
    requires |Strip(s)| > 0 && CleanPercent(s) == SignText(t, false) + u
    requires |u| > 0 && IsDigit(u[0]) && IsDigit(u[|u| - 1])
    requires ParseMagnitude(u) == Ok(Finite(Magnitude(t), 1))
    ensures ParsePercentage(s) == Finite(t, 1)
  {
    SignedReads(u, t);
  }

  // ---------------------------------------------------------------------
  // generate_chart_data
  // ---------------------------------------------------------------------

  /** `generate_chart_data()`, one point per row, oldest first: the row's
      date (whose display text is left out) and its value text read as a
      percentage. */
  function ChartData(rows: seq<Row>): (pts: seq<(int, Float)>)
    ensures |pts| == |rows|
    ensures forall i :: 0 <= i < |rows| ==>
              pts[i] == (rows[|rows| - 1 - i].day, ParsePercentage(rows[|rows| - 1 - i].value))
    decreases |rows|
  {
    if |rows| == 0 then []
    else ChartData(rows[1..]) + [(rows[0].day, ParsePercentage(rows[0].value))]
  }

  /** A recorded day adds one point at the end of the chart; the earlier
      points stay as they were. */
  lemma ChartAfterCollect(l: Log, day: int, equity: real, cash: real, items: seq<Item>,
                          change: Option<string>, value: Option<string>, notes: Option<string>)
    requires l.last != Missing && l.last != On(day) && equity > 0.0
    requires Collect(l, day, equity, cash, items, change, value, notes).Ok?
    ensures ChartData(Collect(l, day, equity, cash, items, change, value, notes).value.rows)
              == ChartData(l.rows) + [(day, ParsePercentage(OrEmpty(value)))]
  {
    CollectRecords(l, day, equity, cash, items, change, value, notes);
  }
}

