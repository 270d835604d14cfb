/** The row blocks of exported reports (`export_csv`), quoted as in section 2 of RFC 4180 with a comma
    and a space as the separator, and a reader that recovers the cells. */
module CsvReport {
  import opened Common

  predicate PlainChar(c: char) {
    c != ',' && c != '"' && c != '\n' && c != '\r'
  }

  predicate Plain(s: string) {
    forall c :: c in s ==> PlainChar(c)
  }

  /** The decimal text of a JSON number has none of the special characters. */
  type NumberText = s: string | Plain(s) witness "0"

  datatype Value = Text(s: string) | Number(n: NumberText) | Bool(b: bool) | Null | Other(json: string)

  /** The text a cell stands for. */
  function CellText(v: Value): string {
    match v
    case Text(s) => s
    case Number(n) => n
    case Bool(b) => if b then "true" else "false"
    case Null => ""
    case Other(json) => json
  }

  function Doubled(s: string): string
    decreases |s|
  {
    if s == "" then "" else (if s[0] == '"' then "\"\"" else [s[0]]) + Doubled(s[1..])
  }

  function Escape(s: string): string {
    if ',' in s || '"' in s || '\n' in s || '\r' in s then "\"" + Doubled(s) + "\"" else s
  }

  function EscapeValue(v: Value): string {
    match v
    case Text(s) => Escape(s)
    case Number(n) => n
    case Bool(b) => if b then "true" else "false"
    case Null => ""
    case Other(json) => Escape(json)
  }

  function JoinFrom(cells: seq<string>): string
    decreases |cells|
  {
    if cells == [] then "" else ", " + cells[0] + JoinFrom(cells[1..])
  }

  /** `join(", ")`. */
  function Join(cells: seq<string>): string {
    if cells == [] then "" else cells[0] + JoinFrom(cells[1..])
  }

  type Row = map<string, Value>

  function PrintedCell(row: Row, column: string): string {
    if column in row then EscapeValue(row[column]) else ""
  }

  function RowCells(columns: seq<string>, row: Row): seq<string> {
    seq(|columns|, i requires 0 <= i < |columns| => PrintedCell(row, columns[i]))
  }

  function HeaderCells(columns: seq<string>): seq<string> {
    seq(|columns|, i requires 0 <= i < |columns| => Escape(columns[i]))
  }

  function PrintedRows(columns: seq<string>, rows: seq<Row>): string
    decreases |rows|
  {
    if rows == [] then "" else Join(RowCells(columns, rows[0])) + "\n" + PrintedRows(columns, rows[1..])
  }

  /** The header line and one line a row. */
  function PrintedTable(columns: seq<string>, rows: seq<Row>): string {
    Join(HeaderCells(columns)) + "\n" + PrintedRows(columns, rows)
  }

  /** The table and the blank line that ends it. */
  function PrintedBlock(columns: seq<string>, rows: seq<Row>): string {
    PrintedTable(columns, rows) + "\n"
  }

  // ---- printing ----

  /** The columns of a section: every key of every row once, in the order met. */
  method CollectColumns(rows: seq<Row>) returns (columns: seq<string>)
    ensures forall i, j :: 0 <= i < j < |columns| ==> columns[i] != columns[j]
    ensures forall c :: c in columns <==> exists k :: 0 <= k < |rows| && c in rows[k]
  {
    columns := [];
    for r := 0 to |rows|
      invariant forall i, j :: 0 <= i < j < |columns| ==> columns[i] != columns[j]
      invariant forall c :: c in columns <==> exists k :: 0 <= k < r && c in rows[k]
    {
      ghost var known := columns;
      var keys := rows[r].Keys;
      while keys != {}
        invariant keys <= rows[r].Keys
        invariant forall i, j :: 0 <= i < j < |columns| ==> columns[i] != columns[j]
        invariant forall c :: c in columns <==> c in known || (c in rows[r] && c !in keys)
        decreases |keys|
      {
        var key :| key in keys;
        keys := keys - {key};
        if key !in columns {
          columns := columns + [key];
        }
      }
    }
  }

  method JoinCells(cells: seq<string>) returns (line: string)
    ensures line == Join(cells)
  {
    line := "";
    var i := 0;
    while i < |cells|
      invariant 0 <= i <= |cells|
      invariant i == 0 ==> line == ""
      invariant i > 0 ==> Join(cells) == line + JoinFrom(cells[i..])
    {
      line := if i == 0 then cells[0] else line + ", " + cells[i];
      assert i > 0 ==> cells[i..][1..] == cells[i + 1..];
      i := i + 1;
    }
  }

  /** The inner loop of `PrintBlock`: one line. */
  method PrintRow(columns: seq<string>, row: Row) returns (line: string)
    ensures line == Join(RowCells(columns, row))
  {
    hide EscapeValue;
    var values: seq<string> := [];
    var c := 0;
    while c < |columns|
      invariant 0 <= c <= |columns|
      invariant values == RowCells(columns, row)[..c]
    {
      values := values + [if columns[c] in row then EscapeValue(row[columns[c]]) else ""];
      c := c + 1;
    }
    assert values == RowCells(columns, row);
    line := JoinCells(values);
  }

  method PrintBlock(columns: seq<string>, rows: seq<Row>) returns (output: string)
    ensures output == PrintedBlock(columns, rows)
  {
    hide Join, RowCells, Escape;
    var header := seq(|columns|, i requires 0 <= i < |columns| => Escape(columns[i]));
    assert header == HeaderCells(columns);
    var line := JoinCells(header);
    output := line + "\n";
    var r := 0;
    while r < |rows|
      invariant 0 <= r <= |rows|
      invariant PrintedTable(columns, rows) == output + PrintedRows(columns, rows[r..])
    {
      hide HeaderCells;
      assert rows[r..][1..] == rows[r + 1..];
      line := PrintRow(columns, rows[r]);
      ghost var rest := PrintedRows(columns, rows[r + 1..]);
      assert output + (line + "\n" + rest) == output + line + "\n" + rest;
      output := output + line + "\n";
      r := r + 1;
    }
    output := output + "\n";
  }

  // ---- reading ----

  /** A cell read, and what follows it. */
  datatype Read<T> = Failed | Done(value: T, rest: string)

  /** After the opening quote: up to the closing one, a doubled quote standing for one. */
  function ReadQuoted(s: string): (r: Read<string>)
    ensures r.Done? ==> |r.rest| < |s|
    decreases |s|
  {
    if s == "" then Failed
    else if s[0] == '"' then
      if |s| > 1 && s[1] == '"' then
        match ReadQuoted(s[2..])
        case Failed => Failed
        case Done(v, rest) => Done("\"" + v, rest)
      else Done("", s[1..])
    else
      match ReadQuoted(s[1..])
      case Failed => Failed
      case Done(v, rest) => Done([s[0]] + v, rest)
  }

  function ReadPlain(s: string): (r: Read<string>)
    ensures r.Done? && |r.rest| <= |s|
    decreases |s|
  {
    if s == "" || !PlainChar(s[0]) then Done("", s)
    else
      var r := ReadPlain(s[1..]);
      Done([s[0]] + r.value, r.rest)
  }

  function ReadCell(s: string): (r: Read<string>)
    ensures r.Done? ==> |r.rest| <= |s|
  {
    if s != "" && s[0] == '"' then ReadQuoted(s[1..]) else ReadPlain(s)
  }

  /** The cells of one line, and the text after its line feed. */
  function ReadRow(s: string): (r: Read<seq<string>>)
    ensures r.Done? ==> |r.rest| < |s|
    decreases |s|
  {
    match ReadCell(s)
    case Failed => Failed
    case Done(cell, rest) =>
      if rest != "" && rest[0] == '\n' then Done([cell], rest[1..])
      else if |rest| >= 2 && rest[0] == ',' && rest[1] == ' ' then
        match ReadRow(rest[2..])
        case Failed => Failed
        case Done(cells, after) => Done([cell] + cells, after)
      else Failed
  }

  function ReadTable(s: string): Option<seq<seq<string>>>
    decreases |s|
  {
    if s == "" then Some([]) else
      match ReadRow(s)
      case Failed => None
      case Done(row, rest) =>
        match ReadTable(rest)
        case None => None
        case Some(rows) => Some([row] + rows)
  }

  /** The rows up to the first blank line, and the text after that line. */
  function ReadRows(s: string): Read<seq<seq<string>>>
    decreases |s|
  {
    if s == "" then Failed
    else if s[0] == '\n' then Done([], s[1..])
    else
      match ReadRow(s)
      case Failed => Failed
      case Done(row, rest) =>
        match ReadRows(rest)
        case Failed => Failed
        case Done(rows, after) => Done([row] + rows, after)
  }

  /** A block at the head of a longer text: the column names, the rows, and the text after the block. */
  function ReadBlock(s: string): Read<(seq<string>, seq<seq<string>>)> {
    match ReadRow(s)
    case Failed => Failed
    case Done(columns, rest) =>
      match ReadRows(rest)
      case Failed => Failed
      case Done(rows, after) => Done((columns, rows), after)
  }

  // ---- the round trip ----

  lemma {:induction false} ReadQuotedInverts(s: string, rest: string)
    requires rest == "" || rest[0] != '"'
    ensures ReadQuoted(Doubled(s) + "\"" + rest) == Done(s, rest)
    decreases |s|
  {
    var text := Doubled(s) + "\"" + rest;
    if s == "" {
      assert text == "\"" + rest;
      assert text[1..] == rest;
    } else {
      ReadQuotedInverts(s[1..], rest);
      var tail := Doubled(s[1..]) + "\"" + rest;
      if s[0] == '"' {
        assert text == "\"\"" + tail;
        assert text[2..] == tail;
      } else {
        assert text == [s[0]] + tail;
        assert text[1..] == tail;
      }
      assert [s[0]] + s[1..] == s;
    }
  }

  lemma {:induction false} ReadPlainInverts(s: string, rest: string)
    requires Plain(s) && (rest == "" || !PlainChar(rest[0]))
    ensures ReadPlain(s + rest) == Done(s, rest)
    decreases |s|
  {
    if s == "" {
      assert s + rest == rest;
    } else {
      assert s[0] in s;
      assert (s + rest)[1..] == s[1..] + rest;
      ReadPlainInverts(s[1..], rest);
      assert [s[0]] + s[1..] == s;
    }
  }

  lemma EscapeByKind(s: string)
    ensures Escape(s) == if Plain(s) then s else "\"" + Doubled(s) + "\""
  {
    if !Plain(s) {
      var c :| c in s && !PlainChar(c);
    }
  }

  /** A cell followed by a separator or a line feed is read back whole. */
  lemma ReadCellInverts(s: string, rest: string)
    requires rest != "" && (rest[0] == ',' || rest[0] == '\n')
    ensures ReadCell(Escape(s) + rest) == Done(s, rest)
  {
    EscapeByKind(s);
    hide Escape, Doubled, ReadQuoted, ReadPlain;
    if Plain(s) {
      ReadPlainInverts(s, rest);
      assert s != "" ==> s[0] in s && (s + rest)[0] == s[0];
    } else {
      ReadQuotedInverts(s, rest);
      var text := Escape(s) + rest;
      assert text[0] == '"' && text[1..] == Doubled(s) + "\"" + rest;
    }
  }

  lemma EscapeValueIsEscape(v: Value)
    ensures EscapeValue(v) == Escape(CellText(v))
  {
    match v
    case Text(s) =>
    case Number(n) => assert Plain(n);
    case Bool(b) =>
    case Null =>
    case Other(json) =>
  }

  lemma JoinCons(cells: seq<string>)
    requires cells != []
    ensures Join(cells) == if |cells| == 1 then cells[0] else cells[0] + ", " + Join(cells[1..])
  {
    if |cells| > 1 {
      assert ", " + cells[1] + JoinFrom(cells[1..][1..]) == ", " + (cells[1] + JoinFrom(cells[1..][1..]));
    }
  }

  lemma ReadRowCons(s: string, cell: string, tail: string)
    requires ReadCell(s) == Done(cell, ", " + tail)
    ensures ReadRow(s) == match ReadRow(tail)
                          case Failed => Failed
                          case Done(cells, after) => Done([cell] + cells, after)
  {
    assert (", " + tail)[2..] == tail;
  }

  lemma {:induction false} ReadRowInverts(texts: seq<string>, cells: seq<string>, rest: string)
    requires texts != [] && |cells| == |texts|
    requires forall i :: 0 <= i < |texts| ==> cells[i] == Escape(texts[i])
    ensures ReadRow(Join(cells) + "\n" + rest) == Done(texts, rest)
    decreases |texts|
  {
    hide ReadCell, Escape, Join;
    JoinCons(cells);
    if |texts| == 1 {
      assert Join(cells) + "\n" + rest == Escape(texts[0]) + ("\n" + rest);
      ReadCellInverts(texts[0], "\n" + rest);
      assert ("\n" + rest)[1..] == rest;
      assert [texts[0]] == texts;
    } else {
      var tail := Join(cells[1..]) + "\n" + rest;
      assert Join(cells) + "\n" + rest == Escape(texts[0]) + (", " + tail);
      ReadCellInverts(texts[0], ", " + tail);
      ReadRowInverts(texts[1..], cells[1..], rest);
      hide ReadRow;
      ReadRowCons(Escape(texts[0]) + (", " + tail), texts[0], tail);
      assert [texts[0]] + texts[1..] == texts;
    }
  }

  /** What the cells of a row stand for; a missing column is an empty cell. */
  function RowTexts(columns: seq<string>, row: Row): seq<string> {
    seq(|columns|, i requires 0 <= i < |columns| => if columns[i] in row then CellText(row[columns[i]]) else "")
  }

  function TableTexts(columns: seq<string>, rows: seq<Row>): seq<seq<string>> {
    seq(|rows|, i requires 0 <= i < |rows| => RowTexts(columns, rows[i]))
  }

  lemma ReadPrintedRow(columns: seq<string>, row: Row, rest: string)
    requires columns != []
    ensures ReadRow(Join(RowCells(columns, row)) + "\n" + rest) == Done(RowTexts(columns, row), rest)
  {
    var texts, cells := RowTexts(columns, row), RowCells(columns, row);
    forall i | 0 <= i < |texts|
      ensures cells[i] == Escape(texts[i])
    {
      if columns[i] in row {
        EscapeValueIsEscape(row[columns[i]]);
      }
    }
    ReadRowInverts(texts, cells, rest);
  }

  lemma TableTextsCons(columns: seq<string>, rows: seq<Row>)
    requires rows != []
    ensures TableTexts(columns, rows) == [RowTexts(columns, rows[0])] + TableTexts(columns, rows[1..])
  {
  }

  lemma {:induction false} ReadPrintedRows(columns: seq<string>, rows: seq<Row>)
    requires columns != []
    ensures ReadTable(PrintedRows(columns, rows) + "\n") == Some(TableTexts(columns, rows) + [[""]])
    decreases |rows|
  {
    hide RowTexts, RowCells, Join;
    if rows == [] {
      assert PrintedRows(columns, rows) + "\n" == "\n";
      assert ReadCell("\n") == Done("", "\n");
      assert ReadRow("\n") == Done([""], "");
      assert TableTexts(columns, rows) + [[""]] == [[""]] + [];
    } else {
      hide ReadRow;
      var rest := PrintedRows(columns, rows[1..]) + "\n";
      ReadPrintedRow(columns, rows[0], rest);
      ReadPrintedRows(columns, rows[1..]);
      TableTextsCons(columns, rows);
      var line := Join(RowCells(columns, rows[0])) + "\n";
      var text := PrintedRows(columns, rows) + "\n";
      assert text == line + rest;
      assert text != "" && ReadRow(text) == Done(RowTexts(columns, rows[0]), rest);
      assert [RowTexts(columns, rows[0])] + (TableTexts(columns, rows[1..]) + [[""]])
          == TableTexts(columns, rows) + [[""]];
    }
  }

  /** The round trip: reading a printed block with at least one column gives back the column names and
      the text of every cell, whatever commas, quotes and line breaks they contain, and then the blank
      line as a row of one empty cell. */
  lemma BlockRoundTrip(columns: seq<string>, rows: seq<Row>)
    requires columns != []
    ensures ReadTable(PrintedBlock(columns, rows)) == Some([columns] + TableTexts(columns, rows) + [[""]])
  {
    var rest := PrintedRows(columns, rows) + "\n";
    ReadRowInverts(columns, HeaderCells(columns), rest);
    ReadPrintedRows(columns, rows);
    hide ReadRow, Join;
    assert PrintedBlock(columns, rows) == Join(HeaderCells(columns)) + "\n" + rest;
    assert [columns] + (TableTexts(columns, rows) + [[""]]) == [columns] + TableTexts(columns, rows) + [[""]];
  }

  /** So blocks that print alike hold the same cells. */
  lemma PrintingIsInjective(columns: seq<string>, rows: seq<Row>, columns': seq<string>, rows': seq<Row>)
    requires columns != [] && columns' != [] && PrintedBlock(columns, rows) == PrintedBlock(columns', rows')
    ensures columns == columns' && TableTexts(columns, rows) == TableTexts(columns', rows')
  {
    BlockRoundTrip(columns, rows);
    BlockRoundTrip(columns', rows');
    var all := [columns] + TableTexts(columns, rows) + [[""]];
    assert all == [columns'] + TableTexts(columns', rows') + [[""]];
    assert all[0] == columns && all[0] == columns';
    assert all[1..|all| - 1] == TableTexts(columns, rows) && all[1..|all| - 1] == TableTexts(columns', rows');
  }

  // ---- what is printed for a value ----

  lemma {:induction false} DoubledIsLonger(s: string)
    ensures |Doubled(s)| >= |s|
    decreases |s|
  {
    if s != "" {
      DoubledIsLonger(s[1..]);
    }
  }

  /** A cell is quoted exactly if it contains a comma, a quote or a line break. */
  lemma QuotedIff(s: string)
    ensures Escape(s) == s <==> !exists i :: 0 <= i < |s| && s[i] in {',', '"', '\n', '\r'}
    ensures Escape(s) != s ==> |Escape(s)| >= |s| + 2 && Escape(s)[0] == '"' && Escape(s)[|Escape(s)| - 1] == '"'
  {
    DoubledIsLonger(s);
    if exists i :: 0 <= i < |s| && s[i] in {',', '"', '\n', '\r'} {
      var i :| 0 <= i < |s| && s[i] in {',', '"', '\n', '\r'};
      assert s[i] in s;
    }
  }

  /** A table of one cell. */
  function OneCell(column: string, v: Value): string {
    PrintedBlock([column], [map[column := v]])
  }

  lemma OneCellTexts(column: string, v: Value, w: Value)
    ensures OneCell(column, v) == OneCell(column, w) <==> CellText(v) == CellText(w)
  {
    var r: Row := map[column := v];
    var t: Row := map[column := w];
    if CellText(v) == CellText(w) {
      EscapeValueIsEscape(v);
      EscapeValueIsEscape(w);
      assert RowCells([column], r) == RowCells([column], t);
      assert PrintedRows([column], [r]) == Join(RowCells([column], r)) + "\n" + PrintedRows([column], [r][1..]);
      assert PrintedRows([column], [t]) == Join(RowCells([column], t)) + "\n" + PrintedRows([column], [t][1..]);
    } else {
      assert TableTexts([column], [r])[0][0] == CellText(v) && TableTexts([column], [t])[0][0] == CellText(w);
      if OneCell(column, v) == OneCell(column, w) {
        PrintingIsInjective([column], [r], [column], [t]);
      }
    }
  }

  /** Distinct values of one kind print apart, and a truth value or nothing prints like a text only if the
      text spells it out. */
  lemma ValuesPrintApart(column: string, v: Value, w: Value)
    ensures v.Text? && w.Text? ==> (OneCell(column, v) == OneCell(column, w) <==> v.s == w.s)
    ensures v.Number? && w.Number? ==> (OneCell(column, v) == OneCell(column, w) <==> v.n == w.n)
    ensures v.Other? && w.Other? ==> (OneCell(column, v) == OneCell(column, w) <==> v.json == w.json)
    ensures v.Bool? && w.Bool? ==> (OneCell(column, v) == OneCell(column, w) <==> v.b == w.b)
    ensures v.Bool? && w.Text? ==>
              (OneCell(column, v) == OneCell(column, w) <==> w.s == if v.b then "true" else "false")
    ensures v.Null? && w.Text? ==> (OneCell(column, v) == OneCell(column, w) <==> w.s == "")
    ensures v.Number? && w.Text? ==> (OneCell(column, v) == OneCell(column, w) <==> w.s == v.n)
    ensures v.Other? && w.Text? ==> (OneCell(column, v) == OneCell(column, w) <==> w.s == v.json)
  {
    OneCellTexts(column, v, w);
    hide OneCell;
  }

  // ---- a block in a text that goes on ----

  /** The row prints as a blank line. */
  predicate PrintsBlank(columns: seq<string>, row: Row) {
    RowTexts(columns, row) == [""]
  }

  lemma BlankLineIff(columns: seq<string>, row: Row, rest: string)
    requires columns != []
    ensures (Join(RowCells(columns, row)) + "\n" + rest)[0] == '\n' <==> PrintsBlank(columns, row)
  {
    var texts, cells := RowTexts(columns, row), RowCells(columns, row);
    if columns[0] in row {
      EscapeValueIsEscape(row[columns[0]]);
    }
    assert cells[0] == Escape(texts[0]);
    EscapeByKind(texts[0]);
    hide Escape;
    JoinCons(cells);
    assert texts[0] != "" && Plain(texts[0]) ==> texts[0][0] in texts[0];
    assert |columns| > 1 ==> Join(cells) == cells[0] + ", " + Join(cells[1..]);
    assert PrintsBlank(columns, row) <==> |columns| == 1 && texts[0] == "";
  }

  lemma {:induction false} ReadRowsIff(columns: seq<string>, rows: seq<Row>, rest: string)
    requires columns != []
    ensures ReadRows(PrintedRows(columns, rows) + "\n" + rest) == Done(TableTexts(columns, rows), rest)
       <==> forall row :: row in rows ==> !PrintsBlank(columns, row)
    decreases |rows|
  {
    hide ReadRow, RowCells, Join, RowTexts, PrintsBlank;
    var text := PrintedRows(columns, rows) + "\n" + rest;
    if rows == [] {
      assert text == "\n" + rest;
      assert text[1..] == rest;
      assert ReadRows(text) == Done([], rest);
      assert TableTexts(columns, rows) == [];
    } else {
      var more := PrintedRows(columns, rows[1..]) + "\n" + rest;
      assert text == Join(RowCells(columns, rows[0])) + "\n" + more;
      BlankLineIff(columns, rows[0], more);
      ReadPrintedRow(columns, rows[0], more);
      ReadRowsIff(columns, rows[1..], rest);
      TableTextsCons(columns, rows);
      assert (forall row :: row in rows ==> !PrintsBlank(columns, row))
        <==> !PrintsBlank(columns, rows[0]) && forall row :: row in rows[1..] ==> !PrintsBlank(columns, row);
      var texts := TableTexts(columns, rows);
      assert texts[1..] == TableTexts(columns, rows[1..]);
      match ReadRows(more) {
        case Failed =>
        case Done(found, after) => assert ([texts[0]] + found)[1..] == found;
      }
    }
  }

  /** In a text that goes on after the block, the block is found again exactly when no row prints as a
      blank line, which takes a single column and an empty cell. */
  lemma BlockFoundIff(columns: seq<string>, rows: seq<Row>, rest: string)
    requires columns != []
    ensures ReadBlock(PrintedBlock(columns, rows) + rest) == Done((columns, TableTexts(columns, rows)), rest)
       <==> forall row :: row in rows ==> !(|columns| == 1 && RowTexts(columns, row)[0] == "")
  {
    var more := PrintedRows(columns, rows) + "\n" + rest;
    assert PrintedBlock(columns, rows) + rest == Join(HeaderCells(columns)) + "\n" + more;
    ReadRowInverts(columns, HeaderCells(columns), more);
    ReadRowsIff(columns, rows, rest);
    forall row | row in rows
      ensures PrintsBlank(columns, row) <==> |columns| == 1 && RowTexts(columns, row)[0] == ""
    {
    }
    hide ReadRow, Join, ReadRows, TableTexts;
  }

  lemma {:induction false} PrintedRowsConcat(columns: seq<string>, rows: seq<Row>, more: seq<Row>)
    ensures PrintedRows(columns, rows + more) == PrintedRows(columns, rows) + PrintedRows(columns, more)
    decreases |rows|
  {
    hide Join, RowCells;
    if rows == [] {
      assert rows + more == more;
    } else {
      PrintedRowsConcat(columns, rows[1..], more);
      assert (rows + more)[1..] == rows[1..] + more;
      var line := Join(RowCells(columns, rows[0])) + "\n";
      assert line + (PrintedRows(columns, rows[1..]) + PrintedRows(columns, more))
          == line + PrintedRows(columns, rows[1..]) + PrintedRows(columns, more);
    }
  }

  lemma PrintedBlankRow(columns: seq<string>, blank: Row)
    requires PrintsBlank(columns, blank)
    ensures PrintedRows(columns, [blank]) == "\n"
  {
    assert |columns| == 1 && RowTexts(columns, blank)[0] == "";
    if columns[0] in blank {
      EscapeValueIsEscape(blank[columns[0]]);
    }
    assert RowCells(columns, blank) == [""];
    assert [blank][1..] == [];
  }

  /** No other reader can do better: cut at a row that prints as a blank line, a block is the beginning of
      the same text. */
  lemma BlankRowEndsBlock(columns: seq<string>, rows: seq<Row>, blank: Row, more: seq<Row>, rest: string)
    requires PrintsBlank(columns, blank)
    ensures PrintedBlock(columns, rows + [blank] + more) + rest
         == PrintedBlock(columns, rows) + (PrintedRows(columns, more) + "\n" + rest)
  {
    hide PrintsBlank, PrintedRows, HeaderCells, Join;
    PrintedRowsConcat(columns, rows + [blank], more);
    PrintedRowsConcat(columns, rows, [blank]);
    PrintedBlankRow(columns, blank);
    var head := Join(HeaderCells(columns)) + "\n";
    var first, second := PrintedRows(columns, rows), PrintedRows(columns, more);
    assert head + (first + "\n" + second) + "\n" + rest == head + first + "\n" + (second + "\n" + rest);
  }
}
