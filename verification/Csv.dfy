/**
  The CSV export, read back by the grammar of section 2 of RFC 4180.
 */
module Csv {
  import opened Tables

  // ---------- Writing ----------

  /** A cell: absent, or the text its value prints as. */
  type Cell = Option<string>

  const BOM: char := '\U{FEFF}'

  predicate IsFormula(text: string) {
    text != "" && text[0] in {'=', '+', '-', '@', '\t', '\r'}
  }

  /** The text a reader is meant to see: nothing for an absent value, formulas disarmed. */
  function Shown(cell: Cell): string {
    match cell
    case None => ""
    case Some(text) => if IsFormula(text) then "'" + text else text
  }

  function DoubleQuotes(text: string): string {
    if text == "" then ""
    else (if text[0] == '"' then "\"\"" else [text[0]]) + DoubleQuotes(text[1..])
  }

  function EscapeCsvValue(cell: Cell): string {
    if cell.None? then "" else "\"" + DoubleQuotes(Shown(cell)) + "\""
  }

  function Join(parts: seq<string>, separator: string): string {
    if parts == [] then ""
    else if |parts| == 1 then parts[0]
    else parts[0] + separator + Join(parts[1..], separator)
  }

  function EscapeRow(row: seq<Cell>): seq<string> {
    if row == [] then [] else [EscapeCsvValue(row[0])] + EscapeRow(row[1..])
  }

  function Lines(rows: seq<seq<Cell>>): seq<string> {
    if rows == [] then [] else [Join(EscapeRow(rows[0]), ",")] + Lines(rows[1..])
  }

  function CreateCsv(headers: seq<string>, rows: seq<seq<Cell>>): string {
    [BOM] + Join(Lines([HeaderCells(headers)] + rows), "\r\n") + "\r\n"
  }

  function HeaderCells(headers: seq<string>): seq<Cell> {
    seq(|headers|, i requires 0 <= i < |headers| => Some(headers[i]))
  }

  // ---------- Reading ----------

  datatype Read<+T> = Malformed | Got(value: T, rest: string)

  predicate EndsField(text: string) {
    text == "" || text[0] in {',', '\r', '\n'}
  }

  /** The rest of an escaped field, after its opening quote. */
  function ReadQuoted(text: string): (r: Read<string>)
    ensures r.Got? ==> |r.rest| < |text|
  {
    if text == "" then Malformed
    else if text[0] != '"' then Prepend(text[0], ReadQuoted(text[1..]))
    else if |text| > 1 && text[1] == '"' then Prepend('"', ReadQuoted(text[2..]))
    else Got("", text[1..])
  }

  function Prepend(c: char, r: Read<string>): Read<string> {
    match r
    case Malformed => Malformed
    case Got(field, rest) => Got([c] + field, rest)
  }

  /** A non-escaped field holds no quote, comma or line break. */
  function ReadPlain(text: string): (r: Read<string>)
    ensures r.Got? ==> |r.rest| <= |text|
  {
    if EndsField(text) then Got("", text)
    else if text[0] == '"' then Malformed
    else Prepend(text[0], ReadPlain(text[1..]))
  }

  function ReadField(text: string): (r: Read<string>)
    ensures r.Got? ==> |r.rest| <= |text|
  {
    if text != "" && text[0] == '"' then ReadQuoted(text[1..]) else ReadPlain(text)
  }

  predicate StartsWithBreak(text: string) {
    |text| >= 2 && text[0] == '\r' && text[1] == '\n'
  }

  function ReadRecord(text: string): (r: Read<seq<string>>)
    ensures r.Got? ==> |r.rest| <= |text| && (r.rest == "" || StartsWithBreak(r.rest))
    decreases |text|
  {
    match ReadField(text)
    case Malformed => Malformed
    case Got(field, rest) =>
      if rest == "" || StartsWithBreak(rest) then Got([field], rest)
      else if rest[0] != ',' then Malformed
      else
        match ReadRecord(rest[1..])
        case Malformed => Malformed
        case Got(fields, after) => Got([field] + fields, after)
  }

  /** Records separated by line breaks; the last one may end with a break. */
  function ReadFile(text: string): Option<seq<seq<string>>>
    decreases |text|
  {
    match ReadRecord(text)
    case Malformed => None
    case Got(record, rest) =>
      if rest == "" || rest[2..] == "" then Some([record])
      else
        match ReadFile(rest[2..])
        case None => None
        case Some(records) => Some([record] + records)
  }

  function ReadCsv(text: string): Option<seq<seq<string>>> {
    ReadFile(if text != "" && text[0] == BOM then text[1..] else text)
  }

  // ---------- Round trip ----------

  lemma {:induction false} QuotedReadsBack(text: string, rest: string)
    requires rest == "" || rest[0] != '"'
    ensures ReadQuoted(DoubleQuotes(text) + "\"" + rest) == Got(text, rest)
  {
    var written := DoubleQuotes(text) + "\"" + rest;
    if text == "" {
      assert written[1..] == rest;
    } else {
      var tail := DoubleQuotes(text[1..]) + "\"" + rest;
      QuotedReadsBack(text[1..], rest);
      if text[0] == '"' {
        assert written == "\"\"" + tail;
        assert written[2..] == tail;
      } else {
        assert written == [text[0]] + tail;
        assert written[1..] == tail;
      }
      assert text == [text[0]] + text[1..];
    }
  }

  lemma FieldReadsBack(cell: Cell, rest: string)
    requires EndsField(rest)
    ensures ReadField(EscapeCsvValue(cell) + rest) == Got(Shown(cell), rest)
  {
    var written := EscapeCsvValue(cell) + rest;
    match cell
    case None => assert written == rest;
    case Some(_) =>
      var inner := DoubleQuotes(Shown(cell)) + "\"" + rest;
      QuotedReadsBack(Shown(cell), rest);
      assert written == ['"'] + inner;
      assert written[1..] == inner;
  }

  /** The fields a row reads back as; a row without cells is one empty field. */
  function ShownRow(row: seq<Cell>): seq<string> {
    if row == [] then [""] else seq(|row|, i requires 0 <= i < |row| => Shown(row[i]))
  }

  function ShownRows(rows: seq<seq<Cell>>): seq<seq<string>> {
    seq(|rows|, i requires 0 <= i < |rows| => ShownRow(rows[i]))
  }

  lemma {:induction false} RowReadsBack(row: seq<Cell>, rest: string)
    requires StartsWithBreak(rest)
    ensures ReadRecord(Join(EscapeRow(row), ",") + rest) == Got(ShownRow(row), rest)
  {
    var written := Join(EscapeRow(row), ",") + rest;
    if row == [] {
      assert written == rest;
    } else if |row| == 1 {
      FieldReadsBack(row[0], rest);
      assert EscapeRow(row) == [EscapeCsvValue(row[0])];
      assert written == EscapeCsvValue(row[0]) + rest;
      assert ShownRow(row) == [Shown(row[0])];
    } else {
      var after := Join(EscapeRow(row[1..]), ",") + rest;
      assert |EscapeRow(row)| > 1 by { assert EscapeRow(row[1..]) != []; }
      assert EscapeRow(row)[1..] == EscapeRow(row[1..]);
      assert written == EscapeCsvValue(row[0]) + ("," + after);
      FieldReadsBack(row[0], "," + after);
      assert ("," + after)[1..] == after;
      RowReadsBack(row[1..], rest);
      assert ShownRow(row) == [Shown(row[0])] + ShownRow(row[1..]);
    }
  }

  lemma FirstRecord(row: seq<Cell>, after: string)
    ensures ReadFile(Join(EscapeRow(row), ",") + ("\r\n" + after))
         == if after == "" then Some([ShownRow(row)])
            else if ReadFile(after).None? then None
            else Some([ShownRow(row)] + ReadFile(after).value)
  {
    RowReadsBack(row, "\r\n" + after);
    assert ("\r\n" + after)[2..] == after;
  }

  lemma Regroup(a: string, b: string, c: string, d: string)
    ensures a + b + c + d == a + (b + (c + d))
  {}

  lemma LinesSplit(rows: seq<seq<Cell>>)
    requires |rows| > 1
    ensures Join(Lines(rows), "\r\n") + "\r\n"
         == Join(EscapeRow(rows[0]), ",") + ("\r\n" + (Join(Lines(rows[1..]), "\r\n") + "\r\n"))
  {
    var line := Join(EscapeRow(rows[0]), ",");
    assert Lines(rows[1..]) != [];
    assert Lines(rows) == [line] + Lines(rows[1..]);
    assert Lines(rows)[1..] == Lines(rows[1..]);
    Regroup(line, "\r\n", Join(Lines(rows[1..]), "\r\n"), "\r\n");
  }

  lemma {:induction false} RowsReadBack(rows: seq<seq<Cell>>)
    requires rows != []
    ensures ReadFile(Join(Lines(rows), "\r\n") + "\r\n") == Some(ShownRows(rows))
  {
    if |rows| == 1 {
      var line := Join(EscapeRow(rows[0]), ",");
      assert Lines(rows) == [line];
      FirstRecord(rows[0], "");
      assert "\r\n" + "" == "\r\n";
      assert ShownRows(rows) == [ShownRow(rows[0])];
    } else {
      LinesSplit(rows);
      FirstRecord(rows[0], Join(Lines(rows[1..]), "\r\n") + "\r\n");
      RowsReadBack(rows[1..]);
      assert ShownRows(rows) == [ShownRow(rows[0])] + ShownRows(rows[1..]);
    }
  }

  /** The texts of a table, cell by cell. */
  function Texts(rows: seq<seq<Cell>>): seq<seq<string>> {
    seq(|rows|, i requires 0 <= i < |rows| =>
      seq(|rows[i]|, j requires 0 <= j < |rows[i]| => Shown(rows[i][j])))
  }

  /** Reading an export returns exactly its texts, unless a row has no cells at all. */
  lemma ExportReadsBack(headers: seq<string>, rows: seq<seq<Cell>>)
    ensures var table := [HeaderCells(headers)] + rows;
            (ReadCsv(CreateCsv(headers, rows)) == Some(Texts(table))
             <==> headers != [] && forall i :: 0 <= i < |rows| ==> rows[i] != [])
  {
    var table := [HeaderCells(headers)] + rows;
    var text := CreateCsv(headers, rows);
    assert text[1..] == Join(Lines(table), "\r\n") + "\r\n";
    RowsReadBack(table);
    if headers != [] && forall i :: 0 <= i < |rows| ==> rows[i] != [] {
      forall i | 0 <= i < |table| ensures ShownRow(table[i]) == Texts(table)[i] {}
      assert ShownRows(table) == Texts(table);
    } else {
      var i :| 0 <= i < |table| && table[i] == [];
      assert |ShownRows(table)[i]| == 1 && |Texts(table)[i]| == 0;
    }
  }

  /** What a reader is shown is the text itself, or if that would be a formula, the text behind an apostrophe. */
  lemma ShownExactly(text: string)
    ensures Shown(None) == ""
    ensures Shown(Some(text)) == text || Shown(Some(text)) == "'" + text
    ensures Shown(Some(text)) != text
       <==> text != "" && (|| text[0] == '=' || text[0] == '+' || text[0] == '-'
                           || text[0] == '@' || text[0] == '\t' || text[0] == '\r')
  {
    if IsFormula(text) { assert |"'" + text| == |text| + 1; }
  }

  /** Nothing a spreadsheet reads from an export is a formula. */
  lemma NoFormulaComesBack(headers: seq<string>, rows: seq<seq<Cell>>)
    ensures ReadCsv(CreateCsv(headers, rows)).Some?
    ensures forall i, j :: 0 <= i < |ReadCsv(CreateCsv(headers, rows)).value|
                        && 0 <= j < |ReadCsv(CreateCsv(headers, rows)).value[i]|
              ==> var field := ReadCsv(CreateCsv(headers, rows)).value[i][j];
                  field == "" || (&& field[0] != '=' && field[0] != '+' && field[0] != '-'
                                  && field[0] != '@' && field[0] != '\t' && field[0] != '\r')
  {
    var table := [HeaderCells(headers)] + rows;
    assert CreateCsv(headers, rows)[1..] == Join(Lines(table), "\r\n") + "\r\n";
    RowsReadBack(table);
    assert ReadCsv(CreateCsv(headers, rows)).value == ShownRows(table);
  }
}
