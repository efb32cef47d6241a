/**
  utils.py: message chunking, markdown-table flattening, the file-fallback test,
  the recent-directories list, re-resolution of the target window and the chunk
  numbering of `send_result`. bot.py's `split_text` is the same loop with a
  4000-character default.
*/
module Utils {
  import opened Wrappers
  import opened Text
  import opened Config
  import opened ClaudeDetect

  // ---------------------------------------------------------------- split_text

  /** The default chunk size of utils.py. */
  const ChunkLimit: nat := 3500
  /** The default chunk size of bot.py. */
  const LegacyChunkLimit: nat := 4000

  /** `t.rfind("\n", 0, end)`: the last newline before `end`, or -1. */
  function RFindNewline(t: string, end: nat): (r: int)
    requires end <= |t|
    ensures -1 <= r < end
    ensures r >= 0 ==> t[r] == '\n'
    ensures forall k :: r < k < end ==> t[k] != '\n'
    decreases end
  {
    if end == 0 then -1
    else if t[end - 1] == '\n' then end - 1
    else RFindNewline(t, end - 1)
  }

  /** Where a text longer than `maxLen` is cut: at its last newline before `maxLen`, else at `maxLen`. */
  function CutPoint(t: string, maxLen: nat): (idx: nat)
    requires 1 <= maxLen < |t|
    ensures idx <= maxLen
    ensures idx == 0 ==> t[0] == '\n'
  {
    var i := RFindNewline(t, maxLen);
    if i == -1 then maxLen else i
  }

  /** What remains after a cut: the text after it, without its leading newlines. */
  function AfterCut(t: string, maxLen: nat): (rest: string)
    requires 1 <= maxLen < |t|
    ensures |rest| < |t|
  {
    var idx := CutPoint(t, maxLen);
    var rest := LStripChar(t[idx..], '\n');
    assert idx == 0 ==> t[idx..] == t;
    rest
  }

  /** The chunks the loop of `split_text` appends, starting from the remaining text `t`. */
  function ChunksFrom(t: string, maxLen: nat): (r: seq<string>)
    requires maxLen >= 1
    decreases |t|
  {
    if t == [] then []
    else if |t| <= maxLen then [t]
    else [t[..CutPoint(t, maxLen)]] + ChunksFrom(AfterCut(t, maxLen), maxLen)
  }

  /** `split_text(text, max_len)`. */
  function SplitTextSpec(text: string, maxLen: nat): seq<string>
    requires maxLen >= 1
  {
    if |text| <= maxLen then [text] else ChunksFrom(text, maxLen)
  }

  /**
    `split_text`: a short text is one chunk; a longer one is cut repeatedly at the
    last newline before `max_len` (or at `max_len`), dropping the newlines at the cut.
    Every pass shortens the remaining text, so the loop ends.
  */
  method SplitText(text: string, maxLen: nat) returns (chunks: seq<string>)
    requires maxLen >= 1
    ensures chunks == SplitTextSpec(text, maxLen)
  {
    if |text| <= maxLen {
      return [text];
    }
    chunks := [];
    var t := text;
    ghost var all := ChunksFrom(text, maxLen);
    while t != []
      invariant all == chunks + ChunksFrom(t, maxLen)
      decreases |t|
    {
      if |t| <= maxLen {
        chunks := chunks + [t];
        break;
      }
      var idx := CutPoint(t, maxLen);
      var rest := AfterCut(t, maxLen);
      ChunksFromStep(t, maxLen, chunks, all);
      chunks := chunks + [t[..idx]];
      t := rest;
    }
  }

  /** One pass of the loop of `split_text`: the chunk before the cut is done, the rest remains. */
  lemma ChunksFromStep(t: string, maxLen: nat, done: seq<string>, all: seq<string>)
    requires 1 <= maxLen < |t|
    requires all == done + ChunksFrom(t, maxLen)
    ensures all == (done + [t[..CutPoint(t, maxLen)]]) + ChunksFrom(AfterCut(t, maxLen), maxLen)
  {
  }

  /** Every chunk fits the limit. */
  lemma {:induction false} ChunksFromBounded(t: string, maxLen: nat)
    requires maxLen >= 1
    ensures forall i :: 0 <= i < |ChunksFrom(t, maxLen)| ==> |ChunksFrom(t, maxLen)[i]| <= maxLen
    decreases |t|
  {
    if t != [] && |t| > maxLen {
      var c := ChunksFrom(t, maxLen);
      var rest := ChunksFrom(AfterCut(t, maxLen), maxLen);
      ChunksFromBounded(AfterCut(t, maxLen), maxLen);
      assert c == [t[..CutPoint(t, maxLen)]] + rest;
      forall i | 1 <= i < |c| ensures |c[i]| <= maxLen {
        assert c[i] == rest[i - 1];
      }
    }
  }

  lemma SplitTextBounded(text: string, maxLen: nat)
    requires maxLen >= 1
    ensures forall i :: 0 <= i < |SplitTextSpec(text, maxLen)| ==> |SplitTextSpec(text, maxLen)[i]| <= maxLen
  {
    if |text| > maxLen {
      ChunksFromBounded(text, maxLen);
    }
  }

  /** A text within the limit is sent as it is. */
  lemma SplitTextShort(text: string, maxLen: nat)
    requires maxLen >= 1 && |text| <= maxLen
    ensures SplitTextSpec(text, maxLen) == [text]
  {
  }

  /** The characters of `s` other than newlines. */
  function DropNewlines(s: string): (r: string)
    ensures |r| <= |s|
    decreases |s|
  {
    if s == [] then [] else (if s[0] == '\n' then [] else [s[0]]) + DropNewlines(s[1..])
  }

  lemma {:induction false} DropNewlinesConcat(a: string, b: string)
    ensures DropNewlines(a + b) == DropNewlines(a) + DropNewlines(b)
    decreases |a|
  {
    if a != [] {
      assert (a + b)[1..] == a[1..] + b;
      DropNewlinesConcat(a[1..], b);
    } else {
      assert a + b == b;
    }
  }

  /** The chunks concatenated. */
  function Concat(chunks: seq<string>): string
    decreases |chunks|
  {
    if chunks == [] then [] else chunks[0] + Concat(chunks[1..])
  }

  lemma ConcatCons(x: string, xs: seq<string>)
    ensures Concat([x] + xs) == x + Concat(xs)
  {
    assert ([x] + xs)[1..] == xs;
  }

  /** Stripping leading newlines loses only newlines. */
  lemma {:induction false} LStripNewlinesKeepsText(s: string)
    ensures DropNewlines(LStripChar(s, '\n')) == DropNewlines(s)
    decreases |s|
  {
    if s != [] && s[0] == '\n' {
      LStripNewlinesKeepsText(s[1..]);
    }
  }

  /** A cut loses only newlines. */
  lemma CutKeepsText(t: string, maxLen: nat)
    requires 1 <= maxLen < |t|
    ensures DropNewlines(t) == DropNewlines(t[..CutPoint(t, maxLen)]) + DropNewlines(AfterCut(t, maxLen))
  {
    var idx := CutPoint(t, maxLen);
    assert t == t[..idx] + t[idx..];
    DropNewlinesConcat(t[..idx], t[idx..]);
    LStripNewlinesKeepsText(t[idx..]);
  }

  /** Only newlines are lost between the chunks: nothing else is dropped, added or reordered. */
  lemma {:induction false} ChunksKeepText(t: string, maxLen: nat)
    requires maxLen >= 1
    ensures DropNewlines(Concat(ChunksFrom(t, maxLen))) == DropNewlines(t)
    decreases |t|
  {
    if t != [] && |t| > maxLen {
      var head := t[..CutPoint(t, maxLen)];
      var rest := AfterCut(t, maxLen);
      ChunksKeepText(rest, maxLen);
      ConcatCons(head, ChunksFrom(rest, maxLen));
      DropNewlinesConcat(head, Concat(ChunksFrom(rest, maxLen)));
      CutKeepsText(t, maxLen);
    } else if t != [] {
      ConcatCons(t, []);
      assert t + [] == t;
    }
  }

  lemma SplitTextKeepsText(text: string, maxLen: nat)
    requires maxLen >= 1
    ensures DropNewlines(Concat(SplitTextSpec(text, maxLen))) == DropNewlines(text)
  {
    if |text| > maxLen {
      ChunksKeepText(text, maxLen);
    } else {
      assert Concat([text]) == text + [];
      assert text + [] == text;
    }
  }

  // ---------------------------------------------------------------- markdown tables

  /** A table line: after stripping it starts with `|` (so it also contains one). */
  predicate IsTableLine(line: string) {
    '|' in line && Strip(line) != [] && Strip(line)[0] == '|'
  }

  /** The cells of a table line: the stripped line, without its outer bars, split at each bar, every cell stripped. */
  function Cells(tl: string): (r: seq<string>)
    ensures |r| >= 1
  {
    var parts := Split(RStripChar(LStripChar(Strip(tl), '|'), '|'), '|');
    seq(|parts|, i requires 0 <= i < |parts| => Strip(parts[i]))
  }

  /** A cell `^[-:]+$` matches: non-empty and made of dashes and colons only. */
  predicate IsRuleCell(c: string) {
    c != [] && forall k :: 0 <= k < |c| ==> c[k] == '-' || c[k] == ':'
  }

  /** A separator row such as `|---|:--|`: every cell is a rule cell. */
  predicate IsRuleRow(row: seq<string>) {
    forall j :: 0 <= j < |row| ==> IsRuleCell(row[j])
  }

  /** The rows of the table lines. */
  function Rows(tableLines: seq<string>): (r: seq<seq<string>>)
    ensures |r| == |tableLines|
  {
    Map(tableLines, Cells)
  }

  /** The rows that are not separator rows, in order. */
  function DataRows(rows: seq<seq<string>>): (r: seq<seq<string>>)
    ensures forall i :: 0 <= i < |r| ==> !IsRuleRow(r[i]) && r[i] in rows
    ensures forall row :: row in rows && !IsRuleRow(row) ==> row in r
    decreases |rows|
  {
    if rows == [] then []
    else (if IsRuleRow(rows[0]) then [] else [rows[0]]) + DataRows(rows[1..])
  }

  /** The number of cells in the widest row. */
  function NCols(rows: seq<seq<string>>): (n: nat)
    requires rows != []
    ensures forall i :: 0 <= i < |rows| ==> |rows[i]| <= n
    ensures exists i :: 0 <= i < |rows| && |rows[i]| == n
    decreases |rows|
  {
    if |rows| == 1 then |rows[0]|
    else
      var m := NCols(rows[..|rows| - 1]);
      assert forall i :: 0 <= i < |rows| - 1 ==> rows[..|rows| - 1][i] == rows[i];
      if |rows[|rows| - 1]| > m then |rows[|rows| - 1]| else m
  }

  /** The length of column `j`'s cell in `row`, 0 when the row is shorter. */
  function CellLen(row: seq<string>, j: nat): nat {
    if j < |row| then |row[j]| else 0
  }

  /** The width of column `j`: its longest cell over all rows (0 when no row has that column). */
  function ColumnWidth(rows: seq<seq<string>>, j: nat): (w: nat)
    ensures forall i :: 0 <= i < |rows| ==> CellLen(rows[i], j) <= w
    ensures w == 0 || exists i :: 0 <= i < |rows| && CellLen(rows[i], j) == w
    decreases |rows|
  {
    if rows == [] then 0
    else
      var init := rows[..|rows| - 1];
      var m := ColumnWidth(init, j);
      var c := CellLen(rows[|rows| - 1], j);
      assert forall i :: 0 <= i < |init| ==> init[i] == rows[i];
      if c > m then c else m
  }

  /**
    The `widths` loop of `_flush_table`: every cell of every row widens its column
    to its length.
  */
  method ColumnWidths(rows: seq<seq<string>>, ncols: nat) returns (widths: seq<nat>)
    ensures |widths| == ncols
    ensures forall j :: 0 <= j < ncols ==> widths[j] == ColumnWidth(rows, j)
  {
    widths := seq(ncols, j => 0);
    for k := 0 to |rows|
      invariant |widths| == ncols
      invariant forall j :: 0 <= j < ncols ==> widths[j] == ColumnWidth(rows[..k], j)
    {
      assert rows[..k + 1][..k] == rows[..k];
      var r := rows[k];
      for i := 0 to |r|
        invariant |widths| == ncols
        invariant forall j :: 0 <= j < ncols && j < i ==> widths[j] == ColumnWidth(rows[..k + 1], j)
        invariant forall j :: 0 <= j < ncols && j >= i ==> widths[j] == ColumnWidth(rows[..k], j)
      {
        if i < ncols {
          widths := widths[i := if widths[i] >= |r[i]| then widths[i] else |r[i]|];
        }
      }
    }
    assert rows[..|rows|] == rows;
  }

  /** `cell.ljust(w)`: padded with spaces to at least `w` characters. */
  function Ljust(cell: string, w: nat): (r: string)
    ensures |r| == if |cell| < w then w else |cell|
    ensures r[..|cell|] == cell
    ensures forall i :: |cell| <= i < |r| ==> r[i] == ' '
  {
    if |cell| < w then cell + Repeat(' ', w - |cell|) else cell
  }

  /** One table row as text: cells padded to their column's width, two spaces apart, trailing blanks trimmed. */
  function FormatRow(row: seq<string>, widths: seq<nat>): string {
    var parts := seq(|widths|, j requires 0 <= j < |widths| => Ljust(if j < |row| then row[j] else "", widths[j]));
    RStrip(JoinWith(parts, "  "))
  }

  /** The rule printed under the first row: a run of dashes per column, two spaces apart. */
  function DashRule(widths: seq<nat>): string {
    JoinWith(seq(|widths|, j requires 0 <= j < |widths| => Repeat('-', widths[j])), "  ")
  }

  /** The widths `_flush_table` computes for its data rows. */
  function Widths(rows: seq<seq<string>>): (ws: seq<nat>)
    requires rows != []
    ensures |ws| == NCols(rows)
  {
    seq(NCols(rows), j requires 0 <= j => ColumnWidth(rows, j))
  }

  /** The first `n` row lines, with the dash rule inserted after the first. */
  function WithRule(lines: seq<string>, rule: string, n: nat): seq<string>
    requires n <= |lines|
  {
    if n == 0 then []
    else WithRule(lines, rule, n - 1) + [lines[n - 1]] + (if n == 1 then [rule] else [])
  }

  /** Each row formatted to the given widths. */
  function RowLines(rows: seq<seq<string>>, widths: seq<nat>): (r: seq<string>)
    ensures |r| == |rows|
  {
    seq(|rows|, i requires 0 <= i < |rows| => FormatRow(rows[i], widths))
  }

  /** The lines printed for the data rows of a table. */
  function FormatTable(rows: seq<seq<string>>): seq<string> {
    if rows == [] then []
    else var widths := Widths(rows); WithRule(RowLines(rows, widths), DashRule(widths), |rows|)
  }

  /** The lines `_flush_table` appends for the pending table lines. */
  function FlushTable(tableLines: seq<string>): seq<string> {
    FormatTable(DataRows(Rows(tableLines)))
  }

  /** The first `n` lines with the rule: the lines in order, the rule second. */
  lemma {:induction false} WithRuleShape(lines: seq<string>, rule: string, n: nat)
    requires 1 <= n <= |lines|
    ensures var out := WithRule(lines, rule, n);
      |out| == n + 1
      && out[0] == lines[0]
      && out[1] == rule
      && (forall i :: 1 <= i < n ==> out[i + 1] == lines[i])
  {
    if n > 1 {
      WithRuleShape(lines, rule, n - 1);
    }
  }

  /** A formatted table: one line per row, in order, with the dash rule after the first. */
  lemma FormatTableLines(rows: seq<seq<string>>)
    requires rows != []
    ensures var out := FormatTable(rows); var widths := Widths(rows);
      |out| == |rows| + 1
      && out[0] == FormatRow(rows[0], widths)
      && out[1] == DashRule(widths)
      && (forall i :: 1 <= i < |rows| ==> out[i + 1] == FormatRow(rows[i], widths))
  {
    var widths := Widths(rows);
    var lines := RowLines(rows, widths);
    WithRuleShape(lines, DashRule(widths), |rows|);
    var out := FormatTable(rows);
    assert out == WithRule(lines, DashRule(widths), |rows|);
    forall i | 1 <= i < |rows| ensures out[i + 1] == FormatRow(rows[i], widths) {
      assert out[i + 1] == lines[i];
    }
  }

  /**
    Every cell is padded to exactly its column's width, which no cell of that
    column exceeds; a column is as wide as its longest cell.
  */
  lemma WidthsFit(rows: seq<seq<string>>)
    requires rows != []
    ensures var widths := Widths(rows);
      (forall i, j :: 0 <= i < |rows| && 0 <= j < |rows[i]| ==> |Ljust(rows[i][j], widths[j])| == widths[j])
      && (forall j :: 0 <= j < |widths| && widths[j] > 0 ==> exists i :: 0 <= i < |rows| && CellLen(rows[i], j) == widths[j])
  {
    var widths := Widths(rows);
    forall i, j | 0 <= i < |rows| && 0 <= j < |rows[i]|
      ensures |Ljust(rows[i][j], widths[j])| == widths[j]
    {
      assert CellLen(rows[i], j) <= ColumnWidth(rows, j);
    }
    forall j | 0 <= j < |widths| && widths[j] > 0
      ensures exists i :: 0 <= i < |rows| && CellLen(rows[i], j) == widths[j]
    {
      assert widths[j] == ColumnWidth(rows, j);
    }
  }

  /** Parsing one more table line adds its row. */
  lemma RowsSnoc(tableLines: seq<string>, k: nat)
    requires k < |tableLines|
    ensures Rows(tableLines[..k + 1]) == Rows(tableLines[..k]) + [Cells(tableLines[k])]
  {
    MapSnoc(tableLines, Cells, k);
  }

  /** Nothing pending, nothing flushed. */
  lemma FlushTableEmpty()
    ensures FlushTable([]) == []
  {
    assert Rows([]) == [];
  }

  /** The formatting loop of `_flush_table`. */
  method FormatRows(rows: seq<seq<string>>) returns (out: seq<string>)
    ensures out == FormatTable(rows)
  {
    if rows == [] {
      return [];
    }
    var ncols := NCols(rows);
    var widths := ColumnWidths(rows, ncols);
    assert widths == Widths(rows);
    out := [];
    for i := 0 to |rows|
      invariant out == WithRule(RowLines(rows, widths), DashRule(widths), i)
    {
      out := out + [RowLines(rows, widths)[i]];
      if i == 0 {
        out := out + [DashRule(widths)];
      }
    }
  }

  /** `_flush_table`: parse the pending lines, drop the separator rows, format the rest. */
  method Flush(tableLines: seq<string>) returns (out: seq<string>)
    ensures out == FlushTable(tableLines)
  {
    if tableLines == [] {
      FlushTableEmpty();
      return [];
    }
    var rows: seq<seq<string>> := [];
    for k := 0 to |tableLines|
      invariant rows == Rows(tableLines[..k])
    {
      RowsSnoc(tableLines, k);
      rows := rows + [Cells(tableLines[k])];
    }
    assert tableLines[..|tableLines|] == tableLines;
    rows := DataRows(rows);
    out := FormatRows(rows);
  }

  /**
    The lines `_md_table_to_text` produces from `lines` when `pending` table lines
    are already held back: a table line is held back, any other line flushes the
    held-back table and is kept as it is.
  */
  function Convert(lines: seq<string>, pending: seq<string>): seq<string>
    decreases |lines|
  {
    if lines == [] then FlushTable(pending)
    else if IsTableLine(lines[0]) then Convert(lines[1..], pending + [lines[0]])
    else FlushTable(pending) + [lines[0]] + Convert(lines[1..], [])
  }

  /** `_md_table_to_text`. */
  function MdTableText(text: string): string {
    Join(Convert(Split(text, '\n'), []), '\n')
  }

  /** `_md_table_to_text`: the line loop with its `table_lines` accumulator. */
  method MdTableToText(text: string) returns (r: string)
    ensures r == MdTableText(text)
  {
    var lines := Split(text, '\n');
    var result: seq<string> := [];
    var tableLines: seq<string> := [];
    ghost var all := Convert(lines, []);
    for i := 0 to |lines|
      invariant all == result + Convert(lines[i..], tableLines)
    {
      var line := lines[i];
      ConvertStep(lines, i, tableLines, result, all);
      if IsTableLine(line) {
        tableLines := tableLines + [line];
      } else {
        var flushed := Flush(tableLines);
        result := result + flushed + [line];
        tableLines := [];
      }
    }
    var flushed := Flush(tableLines);
    result := result + flushed;
    r := Join(result, '\n');
  }

  /** One pass of the line loop: a table line is held back, any other line flushes the table and is kept. */
  lemma ConvertStep(lines: seq<string>, i: nat, pending: seq<string>, done: seq<string>, all: seq<string>)
    requires i < |lines|
    requires all == done + Convert(lines[i..], pending)
    ensures IsTableLine(lines[i]) ==> all == done + Convert(lines[i + 1..], pending + [lines[i]])
    ensures !IsTableLine(lines[i]) ==> all == (done + FlushTable(pending) + [lines[i]]) + Convert(lines[i + 1..], [])
  {
    var rest := lines[i..];
    assert rest[0] == lines[i] && rest[1..] == lines[i + 1..];
    if !IsTableLine(lines[i]) {
      var flushed, next := FlushTable(pending), Convert(lines[i + 1..], []);
      assert Convert(rest, pending) == flushed + [lines[i]] + next;
      ConcatRegroup(done, flushed, [lines[i]], next);
    }
  }

  /** Regrouping a concatenation of four pieces. */
  lemma ConcatRegroup<T>(a: seq<T>, b: seq<T>, c: seq<T>, d: seq<T>)
    ensures a + (b + c + d) == (a + b + c) + d
  {
  }

  /** Without table lines, every line is kept in order. */
  lemma {:induction false} ConvertNoTable(lines: seq<string>)
    requires forall i :: 0 <= i < |lines| ==> !IsTableLine(lines[i])
    ensures Convert(lines, []) == lines
    decreases |lines|
  {
    if lines != [] {
      ConvertNoTable(lines[1..]);
      assert [lines[0]] + lines[1..] == lines;
    }
  }

  /** A text without table lines comes back unchanged. */
  lemma MdTableTextNoTable(text: string)
    requires forall i :: 0 <= i < |Split(text, '\n')| ==> !IsTableLine(Split(text, '\n')[i])
    ensures MdTableText(text) == text
  {
    ConvertNoTable(Split(text, '\n'));
    JoinSplit(text, '\n');
  }

  /** A non-table line after a table is kept right after the table's flushed lines. */
  lemma ConvertKeepsLine(table: seq<string>, line: string, rest: seq<string>)
    requires (forall i :: 0 <= i < |table| ==> IsTableLine(table[i])) && !IsTableLine(line)
    ensures Convert(table + [line] + rest, []) == FlushTable(table) + [line] + Convert(rest, [])
  {
    var after := [line] + rest;
    ConvertTableRun(table, after, []);
    assert table + [line] + rest == table + after;
    assert [] + table == table;
    assert after[0] == line && after[1..] == rest;
  }

  /** A run of table lines is held back as one table. */
  lemma {:induction false} ConvertTableRun(table: seq<string>, rest: seq<string>, pending: seq<string>)
    requires forall i :: 0 <= i < |table| ==> IsTableLine(table[i])
    ensures Convert(table + rest, pending) == Convert(rest, pending + table)
    decreases |table|
  {
    if table != [] {
      assert (table + rest)[1..] == table[1..] + rest;
      ConvertTableRun(table[1..], rest, pending + [table[0]]);
      assert pending + [table[0]] + table[1..] == pending + table;
    } else {
      assert table + rest == rest;
      assert pending + table == pending;
    }
  }

  // ---------------------------------------------------------------- file fallback

  /** The characters that make a payload go through a file: `{ } " $ \`. */
  const UnsafeChars: set<char> := {'{', '}', '"', '$', '\\'}

  /** `_needs_file`: longer than 200 characters, or holding an unsafe character. */
  function NeedsFile(text: string): (b: bool)
    ensures b <==> |text| > 200 || exists i :: 0 <= i < |text| && text[i] in UnsafeChars
  {
    if |text| > 200 then true
    else
      var present := set i | 0 <= i < |text| :: text[i];
      assert forall i :: 0 <= i < |text| ==> text[i] in present;
      var common := UnsafeChars * present;
      if common != {} then
        var c :| c in common;
        assert exists i :: 0 <= i < |text| && text[i] == c;
        true
      else
        assert forall i :: 0 <= i < |text| ==> text[i] in present && text[i] !in common;
        false
  }

  // ---------------------------------------------------------------- recent directories

  const RecentDirsLimit: nat := 8

  /** The entries that do not normalise to `p`, in order. */
  function WithoutPath(dirs: seq<string>, p: string, norm: string -> string): (r: seq<string>)
    ensures |r| <= |dirs|
    ensures forall i :: 0 <= i < |r| ==> norm(r[i]) != p && r[i] in dirs
    ensures forall d :: d in dirs && norm(d) != p ==> d in r
    decreases |dirs|
  {
    if dirs == [] then []
    else (if norm(dirs[0]) != p then [dirs[0]] else []) + WithoutPath(dirs[1..], p, norm)
  }

  /**
    `_save_recent_dir` on the loaded list (`norm` is `os.path.normpath`): the
    normalised path goes first, entries that normalise to it are removed, the rest
    keep their order, and the list is cut to 8.
  */
  function SaveRecentDir(dirs: seq<string>, path: string, norm: string -> string): (r: seq<string>)
    ensures var w := WithoutPath(dirs, norm(path), norm);
      |r| == (if 1 + |w| <= RecentDirsLimit then 1 + |w| else RecentDirsLimit)
      && r == [norm(path)] + w[..|r| - 1]
  {
    var p := norm(path);
    var kept := [p] + WithoutPath(dirs, p, norm);
    if |kept| <= RecentDirsLimit then kept else kept[..RecentDirsLimit]
  }

  /** With an idempotent normalisation the saved path occurs once, and every other entry was in the list. */
  lemma SaveRecentDirOnce(dirs: seq<string>, path: string, norm: string -> string)
    requires norm(norm(path)) == norm(path)
    ensures var r := SaveRecentDir(dirs, path, norm);
      (forall i :: 0 <= i < |r| ==> (norm(r[i]) == norm(path) <==> i == 0))
      && (forall i :: 1 <= i < |r| ==> r[i] in dirs)
  {
    var r := SaveRecentDir(dirs, path, norm);
    var w := WithoutPath(dirs, norm(path), norm);
    forall i | 1 <= i < |r| ensures norm(r[i]) != norm(path) && r[i] in dirs {
      assert r[i] == r[1..][i - 1] == w[i - 1];
    }
  }

  // ---------------------------------------------------------------- target window

  /** The handle `_get_handle` returns and the cache it leaves, as a pair. */
  function Resolved(cached: Option<Handle>, title: string, windows: seq<WindowInfo>): (Option<Handle>, Option<Handle>) {
    if cached.Some? && cached.value != 0 && title != [] then (cached, cached)
    else if windows != [] then (Some(windows[0].handle), Some(windows[0].handle))
    else (None, if cached.Some? && cached.value != 0 then None else cached)
  }

  /**
    What `_get_handle` promises: a live cached window is kept; otherwise the first
    scanned window is returned; whatever is returned is what is cached; nothing is
    returned only when the scan is empty, and then no truthy handle stays cached.
  */
  lemma ResolvedSpec(cached: Option<Handle>, title: string, windows: seq<WindowInfo>)
    ensures var r := Resolved(cached, title, windows);
      var live := cached.Some? && cached.value != 0 && title != [];
      && (live ==> r.0 == cached)
      && (!live && windows != [] ==> r.0 == Some(windows[0].handle))
      && (r.0.Some? ==> r.1 == r.0)
      && (r.0.None? <==> !live && windows == [])
      && (r.0.None? ==> r.1.None? || r.1.value == 0)
  {
  }

  /**
    `_get_handle`: a cached handle (a truthy one: Python treats 0 as false) whose
    window still has a title is kept; otherwise the cache is cleared, and the first
    window of a fresh scan (`windows`, the result of `find_claude_windows`) is cached
    and returned. `title` is what reading the cached window's title gives.
  */
  method GetHandle(st: BotState, title: string, windows: seq<WindowInfo>) returns (h: Option<Handle>)
    modifies st`targetHandle
    ensures (h, st.targetHandle) == Resolved(old(st.targetHandle), title, windows)
  {
    var handle := st.targetHandle;
    if handle.Some? && handle.value != 0 {
      if title != [] {
        return handle;
      }
      st.targetHandle := None;
    }
    if windows != [] {
      st.targetHandle := Some(windows[0].handle);
      return Some(windows[0].handle);
    }
    return None;
  }

  // ---------------------------------------------------------------- send_result

  /** The text `send_result` sends for an all-blank output. */
  const EmptyOutput: string := "(空输出)"

  /** `**[i/n]**` and a newline: the number of a chunk when there are several. */
  function ChunkPrefix(i: nat, n: nat): string {
    "**[" + IntToString(i) + "/" + IntToString(n) + "]**\n"
  }

  /** The chunks `send_result` sends: blank output replaced, tables flattened, split at 3500. */
  function ResultChunks(text: string): seq<string> {
    var t := if Strip(text) == [] then EmptyOutput else text;
    SplitTextSpec(MdTableText(t), ChunkLimit)
  }

  /** The chunks with their `**[i/n]**` numbers, numbered only when there are several. */
  function Numbered(chunks: seq<string>): (msgs: seq<string>)
    ensures |msgs| == |chunks|
  {
    seq(|chunks|, i requires 0 <= i < |chunks| =>
      (if |chunks| > 1 then ChunkPrefix(i + 1, |chunks|) else "") + chunks[i])
  }

  /** `send_result`, as far as the first (Markdown) attempt of each message. */
  method SendResult(text: string) returns (msgs: seq<string>)
    ensures msgs == Numbered(ResultChunks(text))
  {
    var t := text;
    if Strip(t) == [] {
      t := EmptyOutput;
    }
    t := MdTableToText(t);
    var chunks := SplitText(t, ChunkLimit);
    msgs := NumberChunks(chunks);
  }

  /** The `enumerate(chunks)` loop of `send_result`. */
  method NumberChunks(chunks: seq<string>) returns (msgs: seq<string>)
    ensures msgs == Numbered(chunks)
  {
    ghost var all := Numbered(chunks);
    msgs := [];
    for i := 0 to |chunks|
      invariant msgs == all[..i]
    {
      var prefix := if |chunks| > 1 then ChunkPrefix(i + 1, |chunks|) else "";
      assert all[..i + 1] == all[..i] + [prefix + chunks[i]];
      msgs := msgs + [prefix + chunks[i]];
    }
    assert all[..|chunks|] == all;
  }

  /**
    The messages carry the chunks in order: each ends with its chunk and, when there
    are several, starts with its 1-based number and the count; a single chunk is
    sent bare.
  */
  lemma NumberedShape(chunks: seq<string>)
    ensures var msgs := Numbered(chunks);
      (|chunks| == 1 ==> msgs == chunks)
      && forall i :: 0 <= i < |chunks| ==>
           |chunks[i]| <= |msgs[i]| && msgs[i][|msgs[i]| - |chunks[i]|..] == chunks[i]
           && (|chunks| > 1 ==> msgs[i][..|ChunkPrefix(i + 1, |chunks|)|] == ChunkPrefix(i + 1, |chunks|))
  {
    var msgs := Numbered(chunks);
    forall i | 0 <= i < |chunks|
      ensures |chunks[i]| <= |msgs[i]| && msgs[i][|msgs[i]| - |chunks[i]|..] == chunks[i]
    {
      var prefix := if |chunks| > 1 then ChunkPrefix(i + 1, |chunks|) else "";
      assert msgs[i] == prefix + chunks[i];
    }
    if |chunks| == 1 {
      assert msgs[0] == "" + chunks[0];
    }
  }

  /** Blank output still produces one message. */
  lemma BlankResultIsOneMessage(text: string)
    requires Strip(text) == []
    ensures ResultChunks(text) == [EmptyOutput]
  {
    EmptyOutputKept();
    SplitTextShort(EmptyOutput, ChunkLimit);
  }

  /** The placeholder has no table line, so table conversion leaves it alone. */
  lemma EmptyOutputKept()
    ensures MdTableText(EmptyOutput) == EmptyOutput
  {
    assert '\n' !in EmptyOutput && '|' !in EmptyOutput;
    SplitNoSep(EmptyOutput, '\n');
    MdTableTextNoTable(EmptyOutput);
  }
}
