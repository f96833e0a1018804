/** The Markdown row logger (functions/log_table.py): cell escaping, the
    layout of one table line, the header, separator and data cells, and
    the append that writes the header only into a new or empty file. */
module LogTable {
  import opened Base
  import opened Text

  // ---------------------------------------------------------------------
  // _md_escape
  // ---------------------------------------------------------------------

  /** `_md_escape(text)`: every '|' gets a backslash in front, every
      newline becomes a space, and the result is stripped. */
  function MdEscape(text: string): string {
    Strip(ReplaceChar(ReplaceChar(text, '|', "\\|"), '\n', " "))
  }

  /** Every '|' in s has a backslash right before it. */
  predicate PipesEscaped(s: string) {
    forall i :: 0 <= i < |s| && s[i] == '|' ==> 0 < i && s[i - 1] == '\\'
  }

  lemma PipesEscapedAppend(a: string, b: string)
    requires PipesEscaped(a) && PipesEscaped(b)
    ensures PipesEscaped(a + b)
  {
    forall i | 0 <= i < |a + b| && (a + b)[i] == '|' ensures 0 < i && (a + b)[i - 1] == '\\' {
      if i >= |a| {
        assert b[i - |a|] == '|';
      }
    }
  }

  /** Replacing '|' by an escaped pipe leaves no pipe unescaped. */
  lemma {:induction false} EscapedPipes(s: string)
    ensures PipesEscaped(ReplaceChar(s, '|', "\\|"))
    decreases |s|
  {
    if |s| > 0 {
      EscapedPipes(s[1..]);
      var head := if s[0] == '|' then "\\|" else [s[0]];
      PipesEscapedAppend(head, ReplaceChar(s[1..], '|', "\\|"));
    }
  }

  /** The escaped cell holds no newline, starts and ends with visible
      characters (or is empty), and every pipe in it is escaped. */
  lemma MdEscapeClean(text: string)
    ensures '\n' !in MdEscape(text)
    ensures |MdEscape(text)| == 0 || (!IsSpace(MdEscape(text)[0]) && !IsSpace(MdEscape(text)[|MdEscape(text)| - 1]))
    ensures PipesEscaped(MdEscape(text))
  {
    var p := ReplaceChar(text, '|', "\\|");
    var q := ReplaceChar(p, '\n', " ");
    EscapedPipes(text);
    ReplaceCharPointwise(p, '\n', ' ');
    ReplaceCharOccurrences(p, '\n', " ");
    StripPiece(q);
    LeadingRun(q);
    var r := Strip(q);
    var lead := Leading(q);
    forall i | 0 <= i < |r| && r[i] == '|' ensures 0 < i && r[i - 1] == '\\' {
      assert q[lead + i] == '|';
      assert p[lead + i] == '|';
      assert q[lead + i - 1] == '\\';
    }
  }

  // ---------------------------------------------------------------------
  // line
  // ---------------------------------------------------------------------

  /** `line(cells)`: "| ", the cells joined by " | ", then " |" and a
      newline. */
  function Line(cells: seq<string>): string {
    "| " + Join(cells, " | ") + " |\n"
  }

  /** The cell delimiters a Markdown table sees in s: the pipes without a
      backslash right before them. */
  function Bars(s: string): nat
    decreases |s|
  {
    if |s| == 0 then 0
    else
      var n := |s| - 1;
      Bars(s[..n]) + (if s[n] == '|' && (n == 0 || s[n - 1] != '\\') then 1 else 0)
  }

  lemma {:induction false} BarsAppend(a: string, b: string)
    requires |a| == 0 || |b| == 0 || b[0] != '|' || a[|a| - 1] != '\\'
    ensures Bars(a + b) == Bars(a) + Bars(b)
    decreases |b|
  {
    if |b| == 0 {
      assert a + b == a;
    } else {
      var b' := b[..|b| - 1];
      assert (a + b)[..|a + b| - 1] == a + b';
      BarsAppend(a, b');
      if |b| > 1 {
        assert (a + b)[|a + b| - 2] == b[|b| - 2];
      }
    }
  }

  lemma {:induction false} EscapedHasNoBars(s: string)
    requires PipesEscaped(s)
    ensures Bars(s) == 0
    decreases |s|
  {
    if |s| > 0 {
      var f := s[..|s| - 1];
      assert PipesEscaped(f) by {
        forall i | 0 <= i < |f| && f[i] == '|' ensures 0 < i && f[i - 1] == '\\' {
          assert s[i] == '|';
        }
      }
      EscapedHasNoBars(s[..|s| - 1]);
    }
  }

  /** Cells as the logger makes them: escaped, with no newline. */
  predicate CleanCells(cells: seq<string>) {
    forall i :: 0 <= i < |cells| ==> PipesEscaped(cells[i]) && '\n' !in cells[i]
  }

  /** Joined clean cells hold one delimiter per separator, and the joined
      text neither starts with a pipe nor holds a newline. */
  lemma {:induction false} JoinBars(cells: seq<string>)
    requires |cells| > 0 && CleanCells(cells)
    ensures Bars(Join(cells, " | ")) == |cells| - 1
    ensures |Join(cells, " | ")| == 0 || Join(cells, " | ")[0] != '|'
    ensures '\n' !in Join(cells, " | ")
    decreases |cells|
  {
    EscapedHasNoBars(cells[0]);
    if |cells| > 1 {
      var rest := Join(cells[1..], " | ");
      assert CleanCells(cells[1..]) by {
        assert forall i :: 0 <= i < |cells| - 1 ==> cells[1..][i] == cells[i + 1];
      }
      JoinBars(cells[1..]);
      BarsAppend(cells[0], " | ");
      BarsAppend(cells[0] + " | ", rest);
      SmallBars();
      assert Join(cells, " | ") == cells[0] + " | " + rest;
      if |cells[0]| > 0 {
        assert Join(cells, " | ")[0] == cells[0][0];
      }
    }
  }

  /** The delimiters of the fixed pieces of a line. */
  lemma SmallBars()
    ensures Bars("| ") == 1 && Bars(" | ") == 1 && Bars(" |\n") == 1
  {
    assert "| "[..1] == "|" && "|"[..0] == "";
    assert " | "[..2] == " |" && " |"[..1] == " " && " "[..0] == "";
    assert " |\n"[..2] == " |";
  }

  /** A line of n clean cells holds n + 1 delimiters and exactly one
      newline, at its end. */
  lemma LineBars(cells: seq<string>)
    requires |cells| > 0 && CleanCells(cells)
    ensures Bars(Line(cells)) == |cells| + 1
    ensures Line(cells)[|Line(cells)| - 1] == '\n'
    ensures '\n' !in Line(cells)[..|Line(cells)| - 1]
  {
    var j := Join(cells, " | ");
    JoinBars(cells);
    BarsAppend("| ", j);
    BarsAppend("| " + j, " |\n");
    SmallBars();
    var l := Line(cells);
    assert l[..|l| - 1] == "| " + j + " |";
  }

  // ---------------------------------------------------------------------
  // The cells of the three lines
  // ---------------------------------------------------------------------

  function MapEscape(texts: seq<string>): (r: seq<string>)
    ensures |r| == |texts|
    ensures forall i :: 0 <= i < |texts| ==> r[i] == MdEscape(texts[i])
    decreases |texts|
  {
    if |texts| == 0 then [] else MapEscape(texts[..|texts| - 1]) + [MdEscape(texts[|texts| - 1])]
  }

  /** `header_cells`: "Date", then the escaped column names. */
  function HeaderCells(columns: seq<string>): (r: seq<string>)
    ensures |r| == |columns| + 1 && r[0] == "Date"
    ensures forall i :: 0 <= i < |columns| ==> r[i + 1] == MdEscape(columns[i])
  {
    ["Date"] + MapEscape(columns)
  }

  /** `sep_cells`: "---" once per header cell. */
  function SepCells(n: nat): (r: seq<string>)
    ensures |r| == n
    ensures forall i :: 0 <= i < n ==> r[i] == "---"
    decreases n
  {
    if n == 0 then [] else SepCells(n - 1) + ["---"]
  }

  /** The texts of a data row before escaping: the label, then each
      column's value, empty when the mapping lacks it. */
  function RowTexts(columns: seq<string>, values: map<string, string>): (r: seq<string>)
    ensures |r| == |columns|
    ensures forall i :: 0 <= i < |columns| ==> r[i] == (if columns[i] in values then values[columns[i]] else "")
    decreases |columns|
  {
    if |columns| == 0 then []
    else
      var c := columns[|columns| - 1];
      RowTexts(columns[..|columns| - 1], values) + [if c in values then values[c] else ""]
  }

  /** `row_cells`: the escaped label, then the escaped value of each
      column. */
  function RowCells(columns: seq<string>, rowLabel: string, values: map<string, string>): (r: seq<string>)
    ensures |r| == |columns| + 1 && r[0] == MdEscape(rowLabel)
    ensures forall i :: 0 <= i < |columns| ==>
              r[i + 1] == MdEscape(if columns[i] in values then values[columns[i]] else "")
  {
    [MdEscape(rowLabel)] + MapEscape(RowTexts(columns, values))
  }

  lemma EscapedCellsClean(texts: seq<string>)
    ensures CleanCells(MapEscape(texts))
  {
    forall i | 0 <= i < |texts| ensures PipesEscaped(MapEscape(texts)[i]) && '\n' !in MapEscape(texts)[i] {
      MdEscapeClean(texts[i]);
    }
  }

  /** Header, separator and data line all hold the same number of cell
      delimiters, one more than the label column and the data columns, so
      every line of the table has the same cells. */
  lemma TableShape(columns: seq<string>, rowLabel: string, values: map<string, string>)
    ensures Bars(Line(HeaderCells(columns))) == |columns| + 2
    ensures Bars(Line(SepCells(|columns| + 1))) == |columns| + 2
    ensures Bars(Line(RowCells(columns, rowLabel, values))) == |columns| + 2
  {
    HeaderShape(columns);
    SepShape(|columns| + 1);
    RowShape(columns, rowLabel, values);
  }

  /** A clean cell in front of clean cells keeps them clean. */
  lemma CleanInFront(x: string, rest: seq<string>)
    requires PipesEscaped(x) && '\n' !in x && CleanCells(rest)
    ensures CleanCells([x] + rest)
  {
    assert forall i :: 1 <= i < |[x] + rest| ==> ([x] + rest)[i] == rest[i - 1];
  }

  lemma HeaderShape(columns: seq<string>)
    ensures Bars(Line(HeaderCells(columns))) == |columns| + 2
  {
    EscapedCellsClean(columns);
    assert PipesEscaped("Date");
    CleanInFront("Date", MapEscape(columns));
    LineBars(HeaderCells(columns));
  }

  lemma SepShape(n: nat)
    requires n > 0
    ensures Bars(Line(SepCells(n))) == n + 1
  {
    var sep := SepCells(n);
    assert CleanCells(sep) by {
      assert PipesEscaped("---");
    }
    LineBars(sep);
  }

  lemma RowShape(columns: seq<string>, rowLabel: string, values: map<string, string>)
    ensures Bars(Line(RowCells(columns, rowLabel, values))) == |columns| + 2
  {
    var texts := RowTexts(columns, values);
    EscapedCellsClean(texts);
    MdEscapeClean(rowLabel);
    CleanInFront(MdEscape(rowLabel), MapEscape(texts));
    LineBars([MdEscape(rowLabel)] + MapEscape(texts));
  }

  // ---------------------------------------------------------------------
  // write_markdown_table_row
  // ---------------------------------------------------------------------

  /** The header and separator lines of a table with these columns. */
  function Head(columns: seq<string>): string {
    Line(HeaderCells(columns)) + Line(SepCells(|columns| + 1))
  }

  /** The file's content after `write_markdown_table_row`: None for a file
      that does not exist. A new or empty file gets the header and the
      separator first; the data line is always appended. */
  function WriteRow(file: Option<string>, columns: seq<string>, rowLabel: string, values: map<string, string>): (r: string)
    ensures file.Some? ==> file.value <= r
    ensures (file.None? || file.value == "") ==> r == Head(columns) + Line(RowCells(columns, rowLabel, values))
    ensures file.Some? && file.value != "" ==> r == file.value + Line(RowCells(columns, rowLabel, values))
  {
    if file.None? || |file.value| == 0 then Head(columns) + Line(RowCells(columns, rowLabel, values))
    else file.value + Line(RowCells(columns, rowLabel, values))
  }

  /** Writing a series of rows, each with its label and values, into the
      same file. */
  function WriteRows(file: Option<string>, columns: seq<string>, entries: seq<(string, map<string, string>)>): Option<string>
    decreases |entries|
  {
    if |entries| == 0 then file
    else
      var last := entries[|entries| - 1];
      Some(WriteRow(WriteRows(file, columns, entries[..|entries| - 1]), columns, last.0, last.1))
  }

  /** The data lines of a series of rows, in order. */
  function RowLines(columns: seq<string>, entries: seq<(string, map<string, string>)>): string
    decreases |entries|
  {
    if |entries| == 0 then ""
    else
      var last := entries[|entries| - 1];
      RowLines(columns, entries[..|entries| - 1]) + Line(RowCells(columns, last.0, last.1))
  }

  /** However many rows are written into a new or empty file, the header
      and the separator come once, at the top, followed by every data line
      in order; an existing non-empty file only gains the data lines. */
  lemma {:induction false} HeaderWrittenOnce(file: Option<string>, columns: seq<string>, entries: seq<(string, map<string, string>)>)
    requires |entries| > 0
    ensures (file.None? || file.value == "") ==>
              WriteRows(file, columns, entries)
                == Some(Head(columns) + RowLines(columns, entries))
    ensures file.Some? && file.value != "" ==>
              WriteRows(file, columns, entries) == Some(file.value + RowLines(columns, entries))
    decreases |entries|
  {
    var last := entries[|entries| - 1];
    var front := entries[..|entries| - 1];
    var line := Line(RowCells(columns, last.0, last.1));
    if |front| == 0 {
      assert WriteRows(file, columns, front) == file;
      assert RowLines(columns, front) == "";
      assert RowLines(columns, entries) == line;
    } else {
      HeaderWrittenOnce(file, columns, front);
      var before := WriteRows(file, columns, front);
      var prev := front[|front| - 1];
      assert RowLines(columns, front) == RowLines(columns, front[..|front| - 1]) + Line(RowCells(columns, prev.0, prev.1));
      LineNotEmpty(RowCells(columns, prev.0, prev.1));
      var after := WriteRow(before, columns, last.0, last.1);
      assert WriteRows(file, columns, entries) == Some(after);
      assert RowLines(columns, entries) == RowLines(columns, front) + line;
      OneMoreLine(file, Head(columns), RowLines(columns, front), line, before, after);
    }
  }

  /** The step of the induction, over plain strings: a further line lands
      after the lines already written, whichever way the file began. */
  lemma OneMoreLine(file: Option<string>, head: string, lines: string, line: string, before: Option<string>, after: string)
    requires |lines| > 0
    requires (file.None? || file.value == "") ==> before == Some(head + lines)
    requires file.Some? && file.value != "" ==> before == Some(file.value + lines)
    requires before.Some? && before.value != "" ==> after == before.value + line
    ensures (file.None? || file.value == "") ==> after == head + (lines + line)
    ensures file.Some? && file.value != "" ==> after == file.value + (lines + line)
  {
  }

  lemma LineNotEmpty(cells: seq<string>)
    ensures |Line(cells)| >= 4
  {
  }
}
