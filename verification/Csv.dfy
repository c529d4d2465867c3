/** apps/web/src/lib/csv.ts: the CSV printer, the character machine that reads it back, and the record builder. */
module Csv {
  import opened JsText

  // ----- printing

  /** What a column may return: nothing, a number already rendered, or text. */
  datatype Value = Absent | Number(text: string) | Text(text: string)

  datatype Column<!T> = Column(header: string, value: T -> Value)

  type Table = seq<seq<Value>>

  /** Text that a spreadsheet would run: the pattern `^(?:[=+@\t\r]|-(?![\d.]))`. */
  predicate FormulaStart(s: string) {
    s != "" &&
    (s[0] in {'=', '+', '@', '\t', '\r'} ||
     (s[0] == '-' && !(|s| > 1 && ('0' <= s[1] <= '9' || s[1] == '.'))))
  }

  /** What the reader is meant to see: text that looks like a formula gains one leading apostrophe. */
  function Guarded(v: Value): string {
    match v
    case Absent => ""
    case Number(s) => s
    case Text(s) => if FormulaStart(s) then "'" + s else s
  }

  predicate IsSpecial(c: char) {
    c in {'\"', ',', '\r', '\n'}
  }

  predicate HasSpecial(s: string) {
    exists i :: 0 <= i < |s| && IsSpecial(s[i])
  }

  function Doubled(s: string): string {
    if s == "" then ""
    else (if s[0] == '\"' then "\"\"" else [s[0]]) + Doubled(s[1..])
  }

  function EscapeCell(v: Value): string {
    var s := Guarded(v);
    if HasSpecial(s) then "\"" + Doubled(s) + "\"" else s
  }

  function RowText(row: seq<Value>): string {
    Join(seq(|row|, i requires 0 <= i < |row| => EscapeCell(row[i])), ",")
  }

  function Lines(table: Table): string {
    Join(seq(|table|, i requires 0 <= i < |table| => RowText(table[i])), "\r\n")
  }

  function CsvText(header: seq<Value>, body: Table): string {
    var text := Lines(body);
    if text != "" then RowText(header) + "\r\n" + text else RowText(header)
  }

  function HeaderRow<T>(columns: seq<Column<T>>): seq<Value> {
    seq(|columns|, i requires 0 <= i < |columns| => Text(columns[i].header))
  }

  function BodyRow<T>(row: T, columns: seq<Column<T>>): seq<Value> {
    seq(|columns|, i requires 0 <= i < |columns| => columns[i].value(row))
  }

  function Body<T>(rows: seq<T>, columns: seq<Column<T>>): Table {
    seq(|rows|, i requires 0 <= i < |rows| => BodyRow(rows[i], columns))
  }

  function ToCsv<T>(rows: seq<T>, columns: seq<Column<T>>): string {
    CsvText(HeaderRow(columns), Body(rows, columns))
  }

  // ----- reading

  datatype Machine = Machine(result: seq<seq<string>>, row: seq<string>, cell: string, inQuotes: bool)

  const Start := Machine([], [], "", false)

  /** How many characters one turn of the loop uses: a doubled quote inside quotes takes two. */
  function Used(s: string, m: Machine): (n: nat)
    requires s != ""
    ensures 0 < n <= |s|
  {
    if m.inQuotes && s[0] == '\"' && |s| > 1 && s[1] == '\"' then 2 else 1
  }

  /** One turn of the loop, with `s` the text still to be read. */
  function Step(s: string, m: Machine): Machine
    requires s != ""
  {
    if m.inQuotes then
      if s[0] != '\"' then m.(cell := m.cell + [s[0]])
      else if |s| > 1 && s[1] == '\"' then m.(cell := m.cell + "\"")
      else m.(inQuotes := false)
    else match s[0]
      case '\"' => m.(inQuotes := true)
      case ',' => m.(row := m.row + [m.cell], cell := "")
      case '\r' => m
      case '\n' => Machine(m.result + [m.row + [m.cell]], [], "", false)
      case ch => m.(cell := m.cell + [ch])
  }

  /** The reader's state after all of `s`. */
  function Scan(s: string, m: Machine): Machine
    decreases |s|
  {
    if s == "" then m else Scan(s[Used(s, m)..], Step(s, m))
  }

  function Finish(m: Machine): seq<seq<string>> {
    if m.cell != "" || |m.row| > 0 then m.result + [m.row + [m.cell]] else m.result
  }

  function Tokens(text: string): seq<seq<string>> {
    Finish(Scan(text, Start))
  }

  method Tokenize(text: string) returns (result: seq<seq<string>>)
    ensures result == Tokens(text)
  {
    result := [];
    var row: seq<string> := [];
    var cell := "";
    var inQuotes := false;
    var i := 0;
    while i < |text|
      invariant 0 <= i <= |text|
      invariant Scan(text[i..], Machine(result, row, cell, inQuotes)) == Scan(text, Start)
    {
      var ch := text[i];
      assert text[i..][0] == ch && text[i..][1..] == text[i + 1..];
      if inQuotes {
        if ch == '\"' {
          if i + 1 < |text| && text[i + 1] == '\"' {
            assert text[i..][2..] == text[i + 2..];
            cell := cell + "\"";
            i := i + 1;
          } else {
            inQuotes := false;
          }
        } else {
          cell := cell + [ch];
        }
      } else if ch == '\"' {
        inQuotes := true;
      } else if ch == ',' {
        row := row + [cell];
        cell := "";
      } else if ch == '\r' {
      } else if ch == '\n' {
        row := row + [cell];
        result := result + [row];
        row := [];
        cell := "";
      } else {
        cell := cell + [ch];
      }
      i := i + 1;
    }
    assert text[i..] == "";
    if cell != "" || |row| > 0 {
      row := row + [cell];
      result := result + [row];
    }
  }

  // ----- one cell, one row, one table

  lemma {:induction false} ScanPlain(body: string, rest: string, m: Machine)
    requires !m.inQuotes && !HasSpecial(body)
    ensures Scan(body + rest, m) == Scan(rest, m.(cell := m.cell + body))
  {
    if body == "" {
      assert body + rest == rest && m.cell + body == m.cell;
    } else {
      assert (body + rest)[1..] == body[1..] + rest;
      assert !IsSpecial(body[0]);
      ScanPlain(body[1..], rest, m.(cell := m.cell + [body[0]]));
      assert m.cell + [body[0]] + body[1..] == m.cell + body;
    }
  }

  lemma {:induction false} ScanQuoted(body: string, rest: string, m: Machine)
    requires m.inQuotes && (rest == "" || rest[0] != '\"')
    ensures Scan(Doubled(body) + "\"" + rest, m) == Scan(rest, m.(cell := m.cell + body, inQuotes := false))
  {
    var s := Doubled(body) + "\"" + rest;
    if body == "" {
      assert s[1..] == rest && m.cell + body == m.cell;
    } else {
      var one := if body[0] == '\"' then "\"\"" else [body[0]];
      assert s == one + (Doubled(body[1..]) + "\"" + rest);
      assert s[|one|..] == Doubled(body[1..]) + "\"" + rest;
      ScanQuoted(body[1..], rest, m.(cell := m.cell + [body[0]]));
      assert m.cell + [body[0]] + body[1..] == m.cell + body;
    }
  }

  lemma {:induction false} ScanUnclosed(body: string, m: Machine)
    requires m.inQuotes
    ensures Scan(Doubled(body), m) == m.(cell := m.cell + body)
  {
    if body != "" {
      var one := if body[0] == '\"' then "\"\"" else [body[0]];
      var s := Doubled(body);
      assert s == one + Doubled(body[1..]) && s[|one|..] == Doubled(body[1..]);
      ScanUnclosed(body[1..], m.(cell := m.cell + [body[0]]));
      assert m.cell + [body[0]] + body[1..] == m.cell + body;
    }
  }

  /** A quoted cell that is never closed is read to the end of the text, its doubled quotes as one. */
  lemma {:induction false} UnclosedCellIsRead(body: string)
    ensures Tokens("\"" + Doubled(body)) == if body == "" then [] else [[body]]
  {
    OpenQuote(Doubled(body), Start);
    ScanUnclosed(body, Start.(inQuotes := true));
    assert Scan("\"" + Doubled(body), Start) == Machine([], [], "" + body, true) && "" + body == body;
    var row: seq<string>, rows: seq<seq<string>> := [], [];
    assert row + [body] == [body] && rows + [[body]] == [[body]];
  }

  lemma {:induction false} OpenQuote(text: string, m: Machine)
    requires !m.inQuotes
    ensures Scan("\"" + text, m) == Scan(text, m.(inQuotes := true))
  {
    assert ("\"" + text)[1..] == text;
  }

  lemma {:induction false} ScanInQuotes(s: string, rest: string, m: Machine)
    requires !m.inQuotes && m.cell == "" && (rest == "" || rest[0] != '\"')
    ensures Scan("\"" + Doubled(s) + "\"" + rest, m) == Scan(rest, m.(cell := s))
  {
    var text := Doubled(s) + "\"" + rest;
    assert "\"" + Doubled(s) + "\"" + rest == "\"" + text;
    OpenQuote(text, m);
    ScanQuoted(s, rest, m.(inQuotes := true));
    assert "" + s == s;
  }

  lemma {:induction false} ScanBare(s: string, rest: string, m: Machine)
    requires !m.inQuotes && m.cell == "" && !HasSpecial(s)
    ensures Scan(s + rest, m) == Scan(rest, m.(cell := s))
  {
    ScanPlain(s, rest, m);
    assert "" + s == s;
  }

  /** A printed cell followed by a separator is read back as its guarded text. */
  lemma {:induction false} ScanCell(v: Value, rest: string, m: Machine)
    requires !m.inQuotes && m.cell == ""
    requires rest == "" || rest[0] in {',', '\r'}
    ensures Scan(EscapeCell(v) + rest, m) == Scan(rest, m.(cell := Guarded(v)))
  {
    if HasSpecial(Guarded(v)) {
      ScanInQuotes(Guarded(v), rest, m);
    } else {
      ScanBare(Guarded(v), rest, m);
    }
  }

  lemma {:induction false} DoublingLengthens(s: string)
    ensures |Doubled(s)| >= |s|
  {
    if s != "" {
      DoublingLengthens(s[1..]);
    }
  }

  /** A cell is quoted exactly when its text holds a quote, a comma or a line break; any other is printed as it is. */
  lemma QuotedExactly(v: Value)
    ensures var s := Guarded(v);
            if '\"' in s || ',' in s || '\r' in s || '\n' in s
            then EscapeCell(v) == "\"" + Doubled(s) + "\"" && |EscapeCell(v)| >= |s| + 2
            else EscapeCell(v) == s
  {
    DoublingLengthens(Guarded(v));
    var s := Guarded(v);
    if HasSpecial(s) {
      var i :| 0 <= i < |s| && IsSpecial(s[i]);
      assert s[i] in s;
    }
  }

  function GuardedRow(row: seq<Value>): (r: seq<string>)
    ensures |r| == |row|
  {
    seq(|row|, i requires 0 <= i < |row| => Guarded(row[i]))
  }

  function GuardedTable(table: Table): (r: seq<seq<string>>)
    ensures |r| == |table|
  {
    seq(|table|, i requires 0 <= i < |table| => GuardedRow(table[i]))
  }

  lemma RowTextTail(row: seq<Value>)
    requires |row| > 1
    ensures RowText(row) == EscapeCell(row[0]) + "," + RowText(row[1..])
  {
    var cells := seq(|row|, i requires 0 <= i < |row| => EscapeCell(row[i]));
    assert cells[1..] == seq(|row[1..]|, i requires 0 <= i < |row[1..]| => EscapeCell(row[1..][i]));
  }

  lemma LinesTail(table: Table)
    requires |table| > 1
    ensures Lines(table) == RowText(table[0]) + "\r\n" + Lines(table[1..])
  {
    var rows := seq(|table|, i requires 0 <= i < |table| => RowText(table[i]));
    assert rows[1..] == seq(|table[1..]|, i requires 0 <= i < |table[1..]| => RowText(table[1..][i]));
  }

  /** The machine after a printed row: all cells but the last are pushed, the last is still open. */
  ghost function AfterRow(row: seq<Value>, m: Machine): Machine
    requires |row| > 0
  {
    m.(row := m.row + GuardedRow(row)[..|row| - 1], cell := GuardedRow(row)[|row| - 1])
  }

  lemma AfterRowTail(row: seq<Value>, m: Machine)
    requires |row| > 1
    ensures AfterRow(row, m) == AfterRow(row[1..], m.(row := m.row + [Guarded(row[0])], cell := ""))
  {
    var n := |row| - 1;
    assert GuardedRow(row)[..n] == [Guarded(row[0])] + GuardedRow(row[1..])[..n - 1];
    assert m.row + [Guarded(row[0])] + GuardedRow(row[1..])[..n - 1] == m.row + GuardedRow(row)[..n];
  }

  function AfterSeparator(c: char, m: Machine): Machine {
    match c
    case ',' => m.(row := m.row + [m.cell], cell := "")
    case '\n' => Machine(m.result + [m.row + [m.cell]], [], "", false)
    case _ => m
  }

  /** Outside quotes a separator is read by itself. */
  lemma {:induction false} ScanSeparator(c: char, rest: string, m: Machine)
    requires !m.inQuotes && c in {',', '\r', '\n'}
    ensures Scan([c] + rest, m) == Scan(rest, AfterSeparator(c, m))
  {
    var s := [c] + rest;
    assert s[0] == c && s[1..] == rest;
  }

  lemma RowTextApart(row: seq<Value>, rest: string)
    requires |row| > 1
    ensures RowText(row) + rest == EscapeCell(row[0]) + ([','] + (RowText(row[1..]) + rest))
  {
    RowTextTail(row);
  }

  lemma {:induction false} ScanRow(row: seq<Value>, rest: string, m: Machine)
    requires |row| > 0 && !m.inQuotes && m.cell == ""
    requires rest == "" || rest[0] == '\r'
    ensures Scan(RowText(row) + rest, m) == Scan(rest, AfterRow(row, m))
    decreases |row|
  {
    if |row| == 1 {
      ScanCell(row[0], rest, m);
      assert m.row + GuardedRow(row)[..0] == m.row;
    } else {
      var tail := RowText(row[1..]) + rest;
      RowTextApart(row, rest);
      ScanCell(row[0], [','] + tail, m);
      ScanSeparator(',', tail, m.(cell := Guarded(row[0])));
      ScanRow(row[1..], rest, m.(row := m.row + [Guarded(row[0])], cell := ""));
      AfterRowTail(row, m);
    }
  }

  ghost predicate NoEmptyRow(table: Table) {
    forall i :: 0 <= i < |table| ==> |table[i]| > 0
  }

  lemma {:induction false} LineBreakCloses(rest: string, m: Machine)
    requires !m.inQuotes
    ensures Scan("\r\n" + rest, m) == Scan(rest, Machine(m.result + [m.row + [m.cell]], [], "", false))
  {
    assert "\r\n" + rest == ['\r'] + (['\n'] + rest);
    ScanSeparator('\r', ['\n'] + rest, m);
    ScanSeparator('\n', rest, m);
  }

  /** A printed row and its line break: the whole guarded row is closed. */
  lemma {:induction false} ScanLine(row: seq<Value>, rest: string, m: Machine)
    requires |row| > 0 && !m.inQuotes && m.cell == "" && m.row == []
    ensures Scan(RowText(row) + ("\r\n" + rest), m) == Scan(rest, m.(result := m.result + [GuardedRow(row)]))
  {
    var tail := "\r\n" + rest;
    var cells := GuardedRow(row);
    ScanRow(row, tail, m);
    var open := m.(row := m.row + cells[..|row| - 1], cell := cells[|row| - 1]);
    assert open.row + [open.cell] == cells;
    LineBreakCloses(rest, open);
  }

  /** The machine after a whole table, its last cell still open. */
  ghost function AfterLines(table: Table, m: Machine): Machine
    requires |table| > 0 && NoEmptyRow(table)
  {
    var all := GuardedTable(table);
    var last := all[|table| - 1];
    Machine(m.result + all[..|table| - 1], last[..|last| - 1], last[|last| - 1], false)
  }

  lemma AfterLinesTail(table: Table, m: Machine)
    requires |table| > 1 && NoEmptyRow(table)
    ensures AfterLines(table, m) == AfterLines(table[1..], m.(result := m.result + [GuardedRow(table[0])]))
  {
    TailOfGuarded(table);
    var n := |table| - 1;
    assert m.result + [GuardedRow(table[0])] + GuardedTable(table[1..])[..n - 1] == m.result + GuardedTable(table)[..n];
  }

  lemma {:induction false} ScanLines(table: Table, m: Machine)
    requires |table| > 0 && NoEmptyRow(table)
    requires !m.inQuotes && m.cell == "" && m.row == []
    ensures Scan(Lines(table), m) == AfterLines(table, m)
    decreases |table|
  {
    if |table| == 1 {
      assert RowText(table[0]) + "" == RowText(table[0]);
      ScanRow(table[0], "", m);
      assert [] + GuardedRow(table[0])[..|table[0]| - 1] == GuardedRow(table[0])[..|table[0]| - 1];
      assert m.result + GuardedTable(table)[..0] == m.result;
    } else {
      LinesTail(table);
      assert Lines(table) == RowText(table[0]) + ("\r\n" + Lines(table[1..]));
      ScanLine(table[0], Lines(table[1..]), m);
      ScanLines(table[1..], m.(result := m.result + [GuardedRow(table[0])]));
      AfterLinesTail(table, m);
    }
  }

  lemma TailOfGuarded(table: Table)
    requires |table| > 0
    ensures GuardedTable(table) == [GuardedRow(table[0])] + GuardedTable(table[1..])
  {
  }

  // ----- the round trip, exactly

  predicate BlankRow(row: seq<Value>) {
    GuardedRow(row) == [""]
  }

  /** What printing and reading back leaves of a table: a closing row of one empty cell leaves no trace. */
  lemma TokensOfLines(table: Table)
    requires |table| > 0 && NoEmptyRow(table)
    ensures Tokens(Lines(table))
         == if BlankRow(table[|table| - 1]) then GuardedTable(table)[..|table| - 1] else GuardedTable(table)
  {
    ScanLines(table, Start);
    var all := GuardedTable(table);
    var last := all[|table| - 1];
    assert Start.result + all[..|table| - 1] == all[..|table| - 1];
    assert last[..|last| - 1] + [last[|last| - 1]] == last;
    assert all[..|table| - 1] + [last] == all;
    if |last| == 1 && last[0] == "" {
      assert last == [""];
    }
  }

  lemma EmptyRowText(row: seq<Value>)
    requires |row| > 0
    ensures RowText(row) == "" <==> BlankRow(row)
  {
    if |row| == 1 {
      assert GuardedRow(row) == [Guarded(row[0])];
    } else {
      RowTextTail(row);
    }
  }

  lemma EmptyLines(body: Table)
    requires NoEmptyRow(body)
    ensures Lines(body) == "" <==> body == [] || (|body| == 1 && BlankRow(body[0]))
  {
    if |body| == 1 {
      EmptyRowText(body[0]);
    } else if |body| > 1 {
      LinesTail(body);
    }
  }

  /** The printer drops a body that is a single blank row; otherwise the text is header and body, line by line. */
  lemma CsvTextIsLines(header: seq<Value>, body: Table)
    requires |header| > 0 && NoEmptyRow(body)
    ensures CsvText(header, body)
         == Lines([header] + if |body| == 1 && BlankRow(body[0]) then [] else body)
  {
    EmptyLines(body);
    if Lines(body) != "" {
      LinesTail([header] + body);
      assert ([header] + body)[1..] == body;
    } else {
      assert [header] + [] == [header];
    }
  }

  ghost predicate NoEmptyResult(m: Machine) {
    forall i :: 0 <= i < |m.result| ==> |m.result[i]| > 0
  }

  lemma {:induction false} RowsAreNeverEmpty(s: string, m: Machine)
    requires NoEmptyResult(m)
    ensures NoEmptyResult(Scan(s, m))
    decreases |s|
  {
    if s != "" {
      RowsAreNeverEmpty(s[Used(s, m)..], Step(s, m));
    }
  }

  function WholeTable<T>(rows: seq<T>, columns: seq<Column<T>>): (r: Table)
    ensures |r| == |rows| + 1
  {
    [HeaderRow(columns)] + Body(rows, columns)
  }

  /**
   * RFC 4180 round trip with its exact condition: reading a printed table gives back every guarded
   * cell if and only if there is a column and the last row is not one empty cell.
   */
  lemma RoundTrip<T>(rows: seq<T>, columns: seq<Column<T>>)
    ensures Tokens(ToCsv(rows, columns)) == GuardedTable(WholeTable(rows, columns))
       <==> |columns| > 0 && !BlankRow(WholeTable(rows, columns)[|rows|])
  {
    var header, body := HeaderRow(columns), Body(rows, columns);
    var table := WholeTable(rows, columns);
    if |columns| == 0 {
      RowsAreNeverEmpty(ToCsv(rows, columns), Start);
      assert |GuardedTable(table)[0]| == 0;
    } else {
      CsvTextIsLines(header, body);
      if |body| == 1 && BlankRow(body[0]) {
        assert [header] + [] == [header];
        TokensOfLines([header]);
        assert BlankRow(table[|table| - 1]);
      } else {
        TokensOfLines(table);
      }
    }
  }

  // ----- records

  function StripBom(h: string): string {
    if h != "" && h[0] == BOM then h[1..] else h
  }

  function HeaderNames(row: seq<string>): (r: seq<string>)
    ensures |r| == |row|
  {
    seq(|row|, i requires 0 <= i < |row| => Trim(StripBom(row[i])))
  }

  function CellAt(row: seq<string>, i: nat): string {
    if i < |row| then Trim(row[i]) else ""
  }

  /** Assigning text to this property of a plain object leaves the object as it is. */
  const PROTO := "__proto__"

  function Put(record: map<string, string>, header: string, cell: string): map<string, string> {
    if header == PROTO then record else record[header := cell]
  }

  function Record(headers: seq<string>, row: seq<string>): (r: map<string, string>) {
    if headers == [] then map[]
    else
      var n := |headers| - 1;
      Put(Record(headers[..n], row), headers[n], CellAt(row, n))
  }

  predicate IsBlank(row: seq<string>) {
    forall i :: 0 <= i < |row| ==> Trim(row[i]) == ""
  }

  /** A row is blank exactly when its cells hold nothing but white space. */
  lemma BlankMeansSpaces(row: seq<string>)
    ensures IsBlank(row) <==> forall i :: 0 <= i < |row| ==> AllSpace(row[i])
  {
    forall i | 0 <= i < |row| ensures Trim(row[i]) == "" <==> AllSpace(row[i]) {
      TrimsToNothing(row[i]);
    }
  }

  /** One record for each row that has a non-blank cell, in order. */
  function RecordsOf(headers: seq<string>, rows: seq<seq<string>>): seq<map<string, string>> {
    if rows == [] then []
    else
      var n := |rows| - 1;
      RecordsOf(headers, rows[..n]) + if IsBlank(rows[n]) then [] else [Record(headers, rows[n])]
  }

  function Records(text: string): seq<map<string, string>> {
    var cells := Tokens(text);
    if cells == [] then [] else RecordsOf(HeaderNames(cells[0]), cells[1..])
  }

  method BuildRecord(headers: seq<string>, row: seq<string>) returns (record: map<string, string>)
    ensures record == Record(headers, row)
  {
    record := map[];
    for idx := 0 to |headers|
      invariant record == Record(headers[..idx], row)
    {
      assert headers[..idx + 1][..idx] == headers[..idx];
      record := Put(record, headers[idx], CellAt(row, idx));
    }
    assert headers[..|headers|] == headers;
  }

  method ParseCsv(text: string) returns (records: seq<map<string, string>>)
    ensures records == Records(text)
  {
    var cells := Tokenize(text);
    if |cells| == 0 { return []; }
    var headers := HeaderNames(cells[0]);
    var rows := cells[1..];
    records := [];
    for r := 0 to |rows|
      invariant records == RecordsOf(headers, rows[..r])
    {
      assert rows[..r + 1][..r] == rows[..r];
      if !IsBlank(rows[r]) {
        var record := BuildRecord(headers, rows[r]);
        records := records + [record];
      }
    }
    assert rows[..|rows|] == rows;
  }

  /** No rows give no records, and one more row gives one more unless its cells hold nothing but white space. */
  lemma {:induction false} RecordsGrowByRow(headers: seq<string>, rows: seq<seq<string>>, row: seq<string>)
    ensures RecordsOf(headers, []) == []
    ensures RecordsOf(headers, rows + [row])
         == RecordsOf(headers, rows) + if forall i :: 0 <= i < |row| ==> AllSpace(row[i]) then [] else [Record(headers, row)]
  {
    assert (rows + [row])[..|rows|] == rows;
    BlankMeansSpaces(row);
  }

  /** The keys of a record are its headers, without the one name that takes no text. */
  lemma {:induction false} RecordKeys(headers: seq<string>, row: seq<string>, h: string)
    ensures h in Record(headers, row) <==> h in headers && h != "__proto__"
  {
    if headers != [] {
      var n := |headers| - 1;
      RecordKeys(headers[..n], row, h);
      assert headers == headers[..n] + [headers[n]];
    }
  }

  /** Each header names the trimmed cell of its last column. */
  lemma {:induction false} RecordLookup(headers: seq<string>, row: seq<string>, i: nat)
    requires i < |headers| && headers[i] != "__proto__" && forall j :: i < j < |headers| ==> headers[j] != headers[i]
    ensures headers[i] in Record(headers, row)
    ensures Record(headers, row)[headers[i]] == if i < |row| then Trim(row[i]) else ""
  {
    var n := |headers| - 1;
    var front := headers[..n];
    RecordLast(headers, row);
    if i < n {
      assert front[i] == headers[i] && headers[n] != headers[i];
      forall j | i < j < n ensures front[j] != front[i] {
        assert headers[j] != headers[i];
      }
      RecordLookup(front, row, i);
    }
  }

  lemma {:induction false} RecordLast(headers: seq<string>, row: seq<string>)
    requires headers != []
    ensures var n := |headers| - 1; Record(headers, row) == Put(Record(headers[..n], row), headers[n], CellAt(row, n))
  {
  }

  // ----- a byte order mark changes nothing

  /** Put `p` in front of the first cell the machine has closed or is building. */
  ghost function Prefixed(p: string, m: Machine): Machine
    requires NoEmptyResult(m)
  {
    if m.result != [] then m.(result := [PrefixedRow(p, m.result[0])] + m.result[1..])
    else if m.row != [] then m.(row := PrefixedRow(p, m.row))
    else m.(cell := p + m.cell)
  }

  ghost function PrefixedRow(p: string, row: seq<string>): seq<string>
    requires |row| > 0
  {
    [p + row[0]] + row[1..]
  }

  lemma StepPrefixed(s: string, p: string, m: Machine)
    requires s != "" && NoEmptyResult(m)
    ensures Step(s, Prefixed(p, m)) == Prefixed(p, Step(s, m))
  {
    assert p + (m.cell + [s[0]]) == (p + m.cell) + [s[0]];
    assert p + (m.cell + "\"") == (p + m.cell) + "\"";
    if m.result != [] {
      assert (m.result + [m.row + [m.cell]])[1..] == m.result[1..] + [m.row + [m.cell]];
    } else if m.row != [] {
      assert PrefixedRow(p, m.row + [m.cell]) == PrefixedRow(p, m.row) + [m.cell];
    } else {
      assert [] + [p + m.cell] == PrefixedRow(p, [] + [m.cell]);
    }
  }

  lemma {:induction false} ScanPrefixed(s: string, p: string, m: Machine)
    requires NoEmptyResult(m)
    ensures NoEmptyResult(Scan(s, m))
    ensures Scan(s, Prefixed(p, m)) == Prefixed(p, Scan(s, m))
    decreases |s|
  {
    RowsAreNeverEmpty(s, m);
    if s != "" {
      StepPrefixed(s, p, m);
      ScanPrefixed(s[Used(s, m)..], p, Step(s, m));
    }
  }

  /** The mark that the download puts in front of the text does not change what is read back. */
  lemma BomIsIgnored(text: string)
    ensures Records([BOM] + text) == Records(text)
  {
    var p := [BOM];
    var m := Scan(text, Start);
    assert (p + text)[1..] == text && p + "" == p && "" + p == p;
    assert Step(p + text, Start) == Prefixed(p, Start);
    ScanPrefixed(text, p, Start);
    RowsAreNeverEmpty(text, Start);
    var cells, cells' := Tokens(text), Tokens(p + text);
    assert cells' == Finish(Prefixed(p, m));
    if cells == [] {
      assert m.result == [] && m.row == [] && m.cell == "" && p + m.cell == p && [] + [p] == [p];
      assert cells' == [[p]];
      assert cells'[1..] == [];
    } else {
      FinishPrefixed(p, m);
      HeadersIgnoreBom(cells[0]);
      assert cells'[1..] == cells[1..];
    }
  }

  lemma HeadersIgnoreBom(row: seq<string>)
    requires |row| > 0
    ensures HeaderNames(PrefixedRow([BOM], row)) == HeaderNames(row)
  {
    var row' := PrefixedRow([BOM], row);
    HeaderIgnoresBom(row[0]);
    forall i | 0 <= i < |row| ensures HeaderNames(row')[i] == HeaderNames(row)[i] {
      if i > 0 {
        assert row'[i] == row[i];
      }
    }
  }

  lemma HeaderIgnoresBom(h: string)
    ensures Trim(StripBom([BOM] + h)) == Trim(StripBom(h))
  {
    assert ([BOM] + h)[1..] == h;
  }

  lemma FinishPrefixed(p: string, m: Machine)
    requires NoEmptyResult(m) && Finish(m) != [] && p != ""
    ensures |Finish(m)[0]| > 0
    ensures Finish(Prefixed(p, m)) == [PrefixedRow(p, Finish(m)[0])] + Finish(m)[1..]
  {
    if m.result != [] {
      assert (m.result + [m.row + [m.cell]])[1..] == m.result[1..] + [m.row + [m.cell]];
    } else if m.row != [] {
      assert PrefixedRow(p, m.row + [m.cell]) == PrefixedRow(p, m.row) + [m.cell];
    } else {
      assert [] + [p + m.cell] == PrefixedRow(p, [] + [m.cell]);
    }
  }

  // ----- an export read back as records

  lemma {:induction false} BlankRowsLeaveNoRecord(headers: seq<string>, rows: seq<seq<string>>)
    requires forall i :: 0 <= i < |rows| ==> IsBlank(rows[i])
    ensures RecordsOf(headers, rows) == []
  {
    if rows != [] {
      BlankRowsLeaveNoRecord(headers, rows[..|rows| - 1]);
    }
  }

  /** An empty row and a row of one absent value print alike. */
  function Padded(row: seq<Value>): seq<Value> {
    if row == [] then [Absent] else row
  }

  function PaddedTable(body: Table): (r: Table)
    ensures |r| == |body| && NoEmptyRow(r)
  {
    seq(|body|, i requires 0 <= i < |body| => Padded(body[i]))
  }

  lemma {:induction false} PaddingPrintsAlike(body: Table)
    ensures Lines(PaddedTable(body)) == Lines(body)
  {
    assert RowText([Absent]) == "" == RowText([]);
    assert seq(|body|, i requires 0 <= i < |body| => RowText(PaddedTable(body)[i]))
        == seq(|body|, i requires 0 <= i < |body| => RowText(body[i]));
  }

  lemma {:induction false} PaddingKeepsRecords(headers: seq<string>, body: Table)
    ensures RecordsOf(headers, GuardedTable(PaddedTable(body))) == RecordsOf(headers, GuardedTable(body))
  {
    if body != [] {
      var n := |body| - 1;
      PaddingKeepsRecords(headers, body[..n]);
      assert PaddedTable(body)[..n] == PaddedTable(body[..n]);
      assert GuardedTable(PaddedTable(body))[..n] == GuardedTable(PaddedTable(body)[..n]);
      assert GuardedTable(body)[..n] == GuardedTable(body[..n]);
      if body[n] == [] {
        assert GuardedRow([Absent]) == [""];
      }
    }
  }

  lemma {:induction false} DroppingBlankKeepsRecords(headers: seq<string>, rows: seq<seq<string>>)
    requires |rows| > 0 && rows[|rows| - 1] == [""]
    ensures RecordsOf(headers, rows[..|rows| - 1]) == RecordsOf(headers, rows)
  {
  }

  /**
   * Reading an export back gives, for every list of rows and columns without exception, one record per
   * non-blank row with its guarded cells under the guarded headers: the only losses are the trim, the
   * apostrophe, the blank rows and a column headed `__proto__`.
   */
  lemma ExportReadsBack<T>(rows: seq<T>, columns: seq<Column<T>>)
    ensures Records(ToCsv(rows, columns))
         == RecordsOf(HeaderNames(GuardedRow(HeaderRow(columns))), GuardedTable(Body(rows, columns)))
    ensures forall i :: 0 <= i < |columns| ==> GuardedRow(HeaderRow(columns))[i] == Guarded(Text(columns[i].header))
  {
    TextReadsBack(HeaderRow(columns), Body(rows, columns));
  }

  lemma TextReadsBack(header: seq<Value>, body: Table)
    requires header == [] ==> forall i :: 0 <= i < |body| ==> body[i] == []
    ensures Records(CsvText(header, body)) == RecordsOf(HeaderNames(GuardedRow(header)), GuardedTable(body))
  {
    var headers := HeaderNames(GuardedRow(header));
    var header', body' := Padded(header), PaddedTable(body);
    assert RowText(header') == RowText(header) by {
      assert RowText([Absent]) == "" == RowText([]);
    }
    PaddingPrintsAlike(body);
    PaddingKeepsRecords(headers, body);
    PaddedReadsBack(header', body');
    if header == [] {
      forall i | 0 <= i < |body| ensures IsBlank(GuardedTable(body')[i]) {
        assert body'[i] == [Absent];
      }
      BlankRowsLeaveNoRecord(headers, GuardedTable(body'));
      BlankRowsLeaveNoRecord(HeaderNames(GuardedRow(header')), GuardedTable(body'));
    }
  }

  lemma PaddedReadsBack(header: seq<Value>, body: Table)
    requires |header| > 0 && NoEmptyRow(body)
    ensures Records(CsvText(header, body)) == RecordsOf(HeaderNames(GuardedRow(header)), GuardedTable(body))
  {
    var all := GuardedTable(body);
    CsvTextIsLines(header, body);
    if |body| == 1 && BlankRow(body[0]) {
      LinesReadBack(header, []);
      assert all[..0] == [] == GuardedTable([]);
      DroppingBlankKeepsRecords(HeaderNames(GuardedRow(header)), all);
    } else {
      LinesReadBack(header, body);
    }
  }

  lemma LinesReadBack(header: seq<Value>, body: Table)
    requires |header| > 0 && NoEmptyRow(body)
    ensures Records(Lines([header] + body)) == RecordsOf(HeaderNames(GuardedRow(header)), GuardedTable(body))
  {
    var first, all := GuardedRow(header), GuardedTable(body);
    TokensOfLines([header] + body);
    TailOfGuarded([header] + body);
    assert ([header] + body)[1..] == body;
    if |body| > 0 && BlankRow(body[|body| - 1]) {
      DropLast(first, all);
      DroppingBlankKeepsRecords(HeaderNames(first), all);
    } else if |body| > 0 {
      assert ([first] + all)[1..] == all;
    } else if !BlankRow(header) {
      assert [first] + all == [first] && [first][1..] == all;
    }
  }

  lemma DropLast(first: seq<string>, all: seq<seq<string>>)
    requires |all| > 0
    ensures ([first] + all)[..|all|] == [first] + all[..|all| - 1]
    ensures ([first] + all[..|all| - 1])[1..] == all[..|all| - 1]
  {
  }

  // ----- what the guard buys

  /** What a spreadsheet would not run: text that does not start with `=`, `+`, `@`, a tab or a carriage return, and a minus only before a digit or a point. */
  ghost predicate Inert(s: string) {
    s == "" ||
    (&& s[0] != '=' && s[0] != '+' && s[0] != '@' && s[0] != '\t' && s[0] != '\r'
     && (s[0] == '-' ==> |s| > 1 && (s[1] == '.' || s[1] in "0123456789")))
  }

  /** No text cell of an export starts like a formula: one that did has an apostrophe in front, every other is as it was. */
  lemma ExportedTextIsInert(s: string)
    ensures Inert(Guarded(Text(s)))
    ensures Guarded(Text(s)) == if Inert(s) then s else "'" + s
    ensures Guarded(Number(s)) == s && Guarded(Absent) == ""
  {
    DigitsAreListed();
  }

  lemma DigitsAreListed()
    ensures forall c: char :: c in "0123456789" <==> '0' <= c <= '9'
  {
    forall c: char | '0' <= c <= '9' ensures c in "0123456789" {
      assert "0123456789"[c as int - '0' as int] == c;
    }
  }
}
