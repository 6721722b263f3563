/**
 * The console table that `describe` builds: a `Class: <name>` line, a header
 * line of capitalized column labels, a dash line as long as the header line,
 * and one line per enumeration member.  Every column is right-aligned to the
 * longest of its heading and its cells, and columns are separated by " | ".
 * Both the current and the oldest `describe` produce this layout; they differ
 * in which columns they pass in, and the oldest measures its columns on
 * strings other than the ones it prints, so the widths are a parameter of
 * the lines and of the text.
 */
module Table {
  import opened Text

  /** Every row has one cell per column. */
  predicate WellShaped(labels: seq<string>, rows: seq<seq<string>>) {
    forall i :: 0 <= i < |rows| ==> |rows[i]| == |labels|
  }

  /** `max(map(len, [heading] + column j))`: the width of column `j`. */
  function ColumnWidth(heading: string, rows: seq<seq<string>>, j: nat): (w: nat)
    requires forall i :: 0 <= i < |rows| ==> j < |rows[i]|
    ensures w >= |heading|
    ensures forall i :: 0 <= i < |rows| ==> w >= |rows[i][j]|
    ensures w == |heading| || exists i :: 0 <= i < |rows| && w == |rows[i][j]|
  {
    if rows == [] then |heading|
    else
      var m := ColumnWidth(heading, rows[..|rows| - 1], j);
      var c := |rows[|rows| - 1][j]|;
      if c > m then c else m
  }

  /** `max([w] + ns)` */
  function Longest(w: nat, ns: seq<nat>): (m: nat)
    ensures m >= w && forall i :: 0 <= i < |ns| ==> m >= ns[i]
    ensures m == w || exists i :: 0 <= i < |ns| && m == ns[i]
  {
    if ns == [] then w
    else
      var m := Longest(w, ns[..|ns| - 1]);
      if ns[|ns| - 1] > m then ns[|ns| - 1] else m
  }

  /** `list(map(len, cells))` */
  function LengthsOf(cells: seq<string>): (ns: seq<nat>)
    ensures |ns| == |cells| && forall i :: 0 <= i < |cells| ==> ns[i] == |cells[i]|
  {
    seq(|cells|, i requires 0 <= i < |cells| => |cells[i]|)
  }

  /** Column `j` of the rows. */
  function Column(rows: seq<seq<string>>, j: nat): (col: seq<string>)
    requires forall i :: 0 <= i < |rows| ==> j < |rows[i]|
    ensures |col| == |rows| && forall i :: 0 <= i < |rows| ==> col[i] == rows[i][j]
  {
    seq(|rows|, i requires 0 <= i < |rows| => rows[i][j])
  }

  /** The width of a column is the longest of its heading and the lengths of its cells. */
  lemma {:induction false} ColumnWidthIsLongest(heading: string, rows: seq<seq<string>>, j: nat)
    requires forall i :: 0 <= i < |rows| ==> j < |rows[i]|
    ensures ColumnWidth(heading, rows, j) == Longest(|heading|, LengthsOf(Column(rows, j)))
  {
    if rows != [] {
      var n := |rows| - 1;
      ColumnWidthIsLongest(heading, rows[..n], j);
      assert LengthsOf(Column(rows, j))[..n] == LengthsOf(Column(rows[..n], j));
    }
  }

  /** The list `max_lengths` of column widths. */
  function Widths(labels: seq<string>, rows: seq<seq<string>>): (ws: seq<nat>)
    requires WellShaped(labels, rows)
    ensures |ws| == |labels|
  {
    seq(|labels|, j requires 0 <= j < |labels| => ColumnWidth(labels[j], rows, j))
  }

  function Capitalized(labels: seq<string>): (hs: seq<string>)
    ensures |hs| == |labels|
  {
    seq(|labels|, j requires 0 <= j < |labels| => Capitalize(labels[j]))
  }

  /** `(' | '.join(['{:>%d}'] * n) % tuple(widths)).format(*cells)` */
  function FormatRow(widths: seq<nat>, cells: seq<string>): string
    requires |cells| == |widths|
  {
    if cells == [] then ""
    else if |cells| == 1 then RightAlign(cells[0], widths[0])
    else RightAlign(cells[0], widths[0]) + " | " + FormatRow(widths[1..], cells[1..])
  }

  /** The length of a line whose every cell fits its column. */
  function LineWidth(widths: seq<nat>): nat {
    if widths == [] then 0
    else if |widths| == 1 then widths[0]
    else widths[0] + 3 + LineWidth(widths[1..])
  }

  lemma {:induction false} FormatRowLength(widths: seq<nat>, cells: seq<string>)
    requires |cells| == |widths|
    requires forall j :: 0 <= j < |cells| ==> |cells[j]| <= widths[j]
    ensures |FormatRow(widths, cells)| == LineWidth(widths)
  {
    if |cells| > 1 {
      FormatRowLength(widths[1..], cells[1..]);
    }
  }

  /** The header line is as wide as the columns. */
  lemma HeaderWidth(labels: seq<string>, rows: seq<seq<string>>)
    requires WellShaped(labels, rows)
    ensures |FormatRow(Widths(labels, rows), Capitalized(labels))| == LineWidth(Widths(labels, rows))
  {
    var ws := Widths(labels, rows);
    var hs := Capitalized(labels);
    assert forall j :: 0 <= j < |hs| ==> |hs[j]| <= ws[j];
    FormatRowLength(ws, hs);
  }

  /** So is every row line: no cell is wider than its column. */
  lemma RowWidth(labels: seq<string>, rows: seq<seq<string>>, i: nat)
    requires WellShaped(labels, rows) && i < |rows|
    ensures |FormatRow(Widths(labels, rows), rows[i])| == LineWidth(Widths(labels, rows))
  {
    var ws := Widths(labels, rows);
    assert forall j :: 0 <= j < |ws| ==> |rows[i][j]| <= ws[j];
    FormatRowLength(ws, rows[i]);
  }

  /** The lines of the table with column widths `ws`, without their terminating newlines. */
  function LinesWith(title: string, ws: seq<nat>, labels: seq<string>, rows: seq<seq<string>>): seq<string>
    requires |labels| == |ws| && forall i :: 0 <= i < |rows| ==> |rows[i]| == |ws|
  {
    var header := FormatRow(ws, Capitalized(labels));
    ["Class: " + title, header, Repeat('-', |header|)] + RowLines(ws, rows)
  }

  /** The lines in order: title, header, dashes as long as the header, then one per row. */
  lemma LinesWithShape(title: string, ws: seq<nat>, labels: seq<string>, rows: seq<seq<string>>)
    requires |labels| == |ws| && forall i :: 0 <= i < |rows| ==> |rows[i]| == |ws|
    ensures var ls := LinesWith(title, ws, labels, rows);
      && |ls| == 3 + |rows|
      && ls[0] == "Class: " + title
      && ls[1] == FormatRow(ws, Capitalized(labels))
      && ls[2] == Repeat('-', |ls[1]|)
      && forall i :: 0 <= i < |rows| ==> ls[3 + i] == FormatRow(ws, rows[i])
  {
    var ls := LinesWith(title, ws, labels, rows);
    var body := RowLines(ws, rows);
    assert forall i :: 0 <= i < |rows| ==> ls[3 + i] == body[i];
  }

  /** The lines of the table whose columns are measured on the rows it prints. */
  function Lines(title: string, labels: seq<string>, rows: seq<seq<string>>): seq<string>
    requires WellShaped(labels, rows)
  {
    LinesWith(title, Widths(labels, rows), labels, rows)
  }

  function RowLines(ws: seq<nat>, rows: seq<seq<string>>): (r: seq<string>)
    requires forall i :: 0 <= i < |rows| ==> |rows[i]| == |ws|
    ensures |r| == |rows| && forall i :: 0 <= i < |rows| ==> r[i] == FormatRow(ws, rows[i])
  {
    seq(|rows|, i requires 0 <= i < |rows| => FormatRow(ws, rows[i]))
  }

  /** Every line followed by a newline. */
  function Unlines(ls: seq<string>): string {
    if ls == [] then "" else Unlines(ls[..|ls| - 1]) + ls[|ls| - 1] + "\n"
  }

  /**
   * The layout of the table: the title line, the header line, a dash line
   * exactly as long as the header line, then one line per row; every line
   * after the title is exactly as long as the header line, which is the sum
   * of the column widths plus three characters per separator.
   */
  lemma TableShape(title: string, labels: seq<string>, rows: seq<seq<string>>)
    requires WellShaped(labels, rows)
    ensures var ls := Lines(title, labels, rows);
      && |ls| == 3 + |rows|
      && ls[0] == "Class: " + title
      && ls[1] == FormatRow(Widths(labels, rows), Capitalized(labels))
      && |ls[1]| == LineWidth(Widths(labels, rows))
      && ls[2] == Repeat('-', |ls[1]|)
      && (forall i :: 1 <= i < |ls| ==> |ls[i]| == |ls[1]|)
      && (forall i :: 0 <= i < |rows| ==> ls[3 + i] == FormatRow(Widths(labels, rows), rows[i]))
  {
    var ws := Widths(labels, rows);
    HeaderWidth(labels, rows);
    forall i | 0 <= i < |rows|
      ensures |FormatRow(ws, rows[i])| == LineWidth(ws)
    {
      RowWidth(labels, rows, i);
    }
  }

  /** `head` followed by each of `ls`, each followed by a newline. */
  function AppendLines(head: string, ls: seq<string>): string {
    if ls == [] then head else AppendLines(head, ls[..|ls| - 1]) + ls[|ls| - 1] + "\n"
  }

  /** The whole text `describe` prints, with column widths `ws`. */
  function TextWith(title: string, ws: seq<nat>, labels: seq<string>, rows: seq<seq<string>>): string
    requires |labels| == |ws| && forall i :: 0 <= i < |rows| ==> |rows[i]| == |ws|
  {
    var header := FormatRow(ws, Capitalized(labels));
    AppendLines("Class: " + title + "\n" + header + "\n" + Repeat('-', |header|) + "\n", RowLines(ws, rows))
  }

  /** The whole text, with the columns measured on the rows it prints. */
  function TableText(title: string, labels: seq<string>, rows: seq<seq<string>>): string
    requires WellShaped(labels, rows)
  {
    TextWith(title, Widths(labels, rows), labels, rows)
  }

  lemma {:induction false} AppendLinesIsUnlines(head: string, ls: seq<string>)
    ensures AppendLines(head, ls) == head + Unlines(ls)
  {
    if ls == [] {
      assert head + "" == head;
    } else {
      var n := |ls|;
      AppendLinesIsUnlines(head, ls[..n - 1]);
      var u := Unlines(ls[..n - 1]);
      assert head + u + ls[n - 1] + "\n" == head + (u + ls[n - 1] + "\n");
    }
  }

  /** The text starts with its title line. */
  lemma TextWithTitle(title: string, ws: seq<nat>, labels: seq<string>, rows: seq<seq<string>>)
    requires |labels| == |ws| && forall i :: 0 <= i < |rows| ==> |rows[i]| == |ws|
    ensures var t := TextWith(title, ws, labels, rows);
      |t| > 8 + |title| && t[..8 + |title|] == "Class: " + title + "\n"
  {
    var header := FormatRow(ws, Capitalized(labels));
    var first := "Class: " + title + "\n";
    var head := first + header + "\n" + Repeat('-', |header|) + "\n";
    AppendLinesIsUnlines(head, RowLines(ws, rows));
    assert head == first + (header + "\n" + Repeat('-', |header|) + "\n");
    assert (head + Unlines(RowLines(ws, rows)))[..|first|] == first;
  }

  lemma {:induction false} UnlinesAppend(a: seq<string>, b: seq<string>)
    ensures Unlines(a + b) == Unlines(a) + Unlines(b)
    decreases |b|
  {
    if b == [] {
      assert a + b == a;
      assert Unlines(a) + "" == Unlines(a);
    } else {
      var n := |b|;
      assert (a + b)[..|a + b| - 1] == a + b[..n - 1];
      UnlinesAppend(a, b[..n - 1]);
      var ua, ub := Unlines(a), Unlines(b[..n - 1]);
      assert ua + ub + b[n - 1] + "\n" == ua + (ub + b[n - 1] + "\n");
    }
  }

  lemma ThreeLines(a: string, b: string, c: string)
    ensures Unlines([a, b, c]) == a + "\n" + b + "\n" + c + "\n"
  {
    assert [a, b, c][..2] == [a, b];
    assert [a, b][..1] == [a];
    assert [a][..0] == [];
    assert "" + a == a;
    assert Unlines([a]) == a + "\n";
    assert Unlines([a, b]) == a + "\n" + b + "\n";
  }

  /** The text is the table's lines, each followed by a newline, whatever the widths. */
  lemma TextWithIsLines(title: string, ws: seq<nat>, labels: seq<string>, rows: seq<seq<string>>)
    requires |labels| == |ws| && forall i :: 0 <= i < |rows| ==> |rows[i]| == |ws|
    ensures TextWith(title, ws, labels, rows) == Unlines(LinesWith(title, ws, labels, rows))
  {
    var header := FormatRow(ws, Capitalized(labels));
    var l0, l2 := "Class: " + title, Repeat('-', |header|);
    var body := RowLines(ws, rows);
    assert LinesWith(title, ws, labels, rows) == [l0, header, l2] + body;
    UnlinesAppend([l0, header, l2], body);
    ThreeLines(l0, header, l2);
    AppendLinesIsUnlines(l0 + "\n" + header + "\n" + l2 + "\n", body);
  }

  lemma TableTextIsLines(title: string, labels: seq<string>, rows: seq<seq<string>>)
    requires WellShaped(labels, rows)
    ensures TableText(title, labels, rows) == Unlines(Lines(title, labels, rows))
  {
    TextWithIsLines(title, Widths(labels, rows), labels, rows);
  }

  /** `max(map(len, [heading] + column j))` */
  method MaxLength(heading: string, rows: seq<seq<string>>, j: nat) returns (m: nat)
    requires forall i :: 0 <= i < |rows| ==> j < |rows[i]|
    ensures m == ColumnWidth(heading, rows, j)
  {
    m := |heading|;
    var i := 0;
    while i < |rows|
      invariant 0 <= i <= |rows|
      invariant m == ColumnWidth(heading, rows[..i], j)
    {
      assert rows[..i + 1][..i] == rows[..i];
      if |rows[i][j]| > m {
        m := |rows[i][j]|;
      }
      i := i + 1;
    }
    assert rows[..|rows|] == rows;
  }

  /** The pass over the columns: `max_lengths` and `headers`. */
  method ColumnWidths(labels: seq<string>, rows: seq<seq<string>>) returns (maxLengths: seq<nat>, headers: seq<string>)
    requires WellShaped(labels, rows)
    ensures maxLengths == Widths(labels, rows) && headers == Capitalized(labels)
  {
    maxLengths, headers := [], [];
    var j := 0;
    while j < |labels|
      invariant 0 <= j <= |labels|
      invariant maxLengths == Widths(labels, rows)[..j]
      invariant headers == Capitalized(labels)[..j]
    {
      var m := MaxLength(labels[j], rows, j);
      maxLengths := maxLengths + [m];
      headers := headers + [Capitalize(labels[j])];
      j := j + 1;
    }
  }

  /** The pass over the rows: each formatted line appended to `output` with its newline. */
  method AppendRowLines(head: string, ws: seq<nat>, rows: seq<seq<string>>) returns (output: string)
    requires forall i :: 0 <= i < |rows| ==> |rows[i]| == |ws|
    ensures output == AppendLines(head, RowLines(ws, rows))
  {
    ghost var lines := RowLines(ws, rows);
    output := head;
    var i := 0;
    while i < |rows|
      invariant 0 <= i <= |rows|
      invariant output == AppendLines(head, lines[..i])
    {
      assert lines[..i + 1][..i] == lines[..i];
      output := output + FormatRow(ws, rows[i]) + "\n";
      i := i + 1;
    }
    assert lines[..|rows|] == lines;
  }

  /**
   * The table text with the column widths already known: the title, the
   * header and dash lines, then one pass over the printed rows that appends
   * each formatted line.
   */
  method RenderWith(title: string, ws: seq<nat>, labels: seq<string>, rows: seq<seq<string>>) returns (output: string)
    requires |labels| == |ws| && forall i :: 0 <= i < |rows| ==> |rows[i]| == |ws|
    ensures output == TextWith(title, ws, labels, rows)
  {
    var headerLine := FormatRow(ws, Capitalized(labels));
    output := "Class: " + title + "\n";
    output := output + headerLine + "\n";
    output := output + Repeat('-', |headerLine|) + "\n";
    output := AppendRowLines(output, ws, rows);
  }

  /**
   * The table text, built as `describe` builds it: one pass over the columns
   * that computes `max_lengths` (measured on `measured`) and `headers`, then
   * the header and dash lines, then one pass over the printed rows that
   * appends each formatted line.
   */
  method Render(title: string, labels: seq<string>, measured: seq<seq<string>>, rows: seq<seq<string>>) returns (output: string)
    requires WellShaped(labels, measured) && WellShaped(labels, rows)
    ensures output == TextWith(title, Widths(labels, measured), labels, rows)
  {
    var maxLengths, headers := ColumnWidths(labels, measured);
    var headerLine := FormatRow(maxLengths, headers);
    output := "Class: " + title + "\n";
    output := output + headerLine + "\n";
    output := output + Repeat('-', |headerLine|) + "\n";
    output := AppendRowLines(output, maxLengths, rows);
  }
}
