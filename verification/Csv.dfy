// The CSV reader and writer of the training tool (tools/model.c:34-77, 92-105). A file is the string of its
// bytes; failures of the file system are not modelled.
module Csv {
  import opened Bytes

  /** Size of the cell buffer, the terminating NUL included. */
  const CELL_BUFFER := 1024 * 1024
  const MAX_ROWS := 100000

  /** A cell in memory is a C string: no NUL in it. */
  predicate IsCString(s: string)
  {
    forall i :: 0 <= i < |s| ==> s[i] != '\0'
  }

  type Cell = s: string | IsCString(s) witness ""

  type Row = seq<Cell>

  /** What `strlen` and `strcpy` see of a buffer. */
  function CString(buffer: string): (s: Cell)
    ensures IsCString(buffer) ==> s == buffer
    ensures |s| <= |buffer| && s == buffer[..|s|]
    ensures |s| < |buffer| ==> buffer[|s|] == '\0'
  {
    if buffer == "" || buffer[0] == '\0' then "" else
    assert buffer == [buffer[0]] + buffer[1..];
    [buffer[0]] + CString(buffer[1..])
  }

  // ---------- Writing ----------

  /** A cell from place `i` on, quotes doubled. */
  function Escaped(cell: Cell, i: nat): string
    requires i <= |cell|
    decreases |cell| - i
  {
    if i == |cell| then "" else (if cell[i] == '"' then "\"\"" else [cell[i]]) + Escaped(cell, i + 1)
  }

  function Quoted(cell: Cell): string
  {
    "\"" + Escaped(cell, 0) + "\""
  }

  /** The cells of a row from place `i` on, with the comma in front of each but the first. */
  function Cells(row: Row, i: nat): string
    requires i <= |row|
    decreases |row| - i
  {
    if i == |row| then "" else (if i > 0 then "," else "") + Quoted(row[i]) + Cells(row, i + 1)
  }

  function RowText(row: Row): string
  {
    Cells(row, 0) + "\n"
  }

  /** The rows of a table from place `i` on. */
  function TableText(rows: seq<Row>, i: nat): string
    requires i <= |rows|
    decreases |rows| - i
  {
    if i == |rows| then "" else RowText(rows[i]) + TableText(rows, i + 1)
  }

  /** The inner loop of `csv_write`. */
  method WriteCell(cell: Cell, file: string) returns (file': string)
    ensures file' == file + Quoted(cell)
  {
    file' := file + "\"";
    for k := 0 to |cell|
      invariant file' + Escaped(cell, k) == file + "\"" + Escaped(cell, 0)
    {
      if cell[k] == '"' {
        file' := file' + "\"";
      }
      file' := file' + [cell[k]];
    }
    assert file' == file + "\"" + Escaped(cell, 0);
    file' := file' + "\"";
  }

  /** `csv_write`, appending to the file. */
  method WriteRow(row: Row, file: string) returns (file': string)
    ensures file' == file + RowText(row)
  {
    hide Quoted;
    file' := file;
    for i := 0 to |row|
      invariant file' + Cells(row, i) == file + Cells(row, 0)
    {
      if i > 0 {
        file' := file' + ",";
      }
      file' := WriteCell(row[i], file');
    }
    assert file' == file + Cells(row, 0);
    file' := file' + "\n";
  }

  /** `table_write`. */
  method WriteTable(rows: seq<Row>) returns (file: string)
    ensures file == TableText(rows, 0)
  {
    file := "";
    for i := 0 to |rows|
      invariant file + TableText(rows, i) == TableText(rows, 0)
    {
      file := WriteRow(rows[i], file);
    }
  }

  // ---------- Reading ----------

  /** `row_read` between two characters. */
  datatype Reader = Reader(at: nat, buffer: string, quoted: bool, closed: bool, any: bool, cells: Row)

  /** What `row_read` answers: the end of the file, an error, or a row and the place behind it. */
  datatype Outcome = End | Bad | Got(row: Row, next: nat)

  /** A character joins the cell, unless the buffer is full. */
  function Stored(r: Reader, c: char, next: nat): (s: Option<Reader>)
    ensures s.Some? ==> s.value.at == next
  {
    if |r.buffer| == CELL_BUFFER - 1 then None else Some(r.(at := next, buffer := r.buffer + [c], any := true))
  }

  /** The place behind the line end at `at`: a carriage return takes a line feed with it. */
  function BehindLine(file: string, at: nat): (next: nat)
    requires at < |file|
    ensures at < next <= |file|
  {
    if file[at] == '\r' && at + 1 < |file| && file[at + 1] == '\n' then at + 2 else at + 1
  }

  predicate EndsCell(c: char)
  {
    c == ',' || c == '\n' || c == '\r'
  }

  function Read(file: string, r: Reader): (o: Outcome)
    requires r.at <= |file|
    ensures o.Got? ==> r.at <= o.next <= |file| && (r.at < o.next || r.any)
    decreases |file| - r.at
  {
    if r.at == |file| then
      if r.quoted then Bad else if r.any then Got(r.cells + [CString(r.buffer)], r.at) else End
    else if r.quoted then ReadQuoted(file, r)
    else ReadPlain(file, r)
  }

  /** Inside quotes: a doubled quote is one, a single quote ends the quotes. */
  function ReadQuoted(file: string, r: Reader): (o: Outcome)
    requires r.at < |file| && r.quoted
    ensures o.Got? ==> r.at < o.next <= |file|
    decreases |file| - r.at, 0
  {
    var c := file[r.at];
    var doubled := c == '"' && r.at + 1 < |file| && file[r.at + 1] == '"';
    if c == '"' && !doubled then Read(file, r.(at := r.at + 1, quoted := false, closed := true, any := true))
    else match Stored(r, c, if doubled then r.at + 2 else r.at + 1)
      case None => Bad
      case Some(stored) => Read(file, stored)
  }

  /** Outside quotes. */
  function ReadPlain(file: string, r: Reader): (o: Outcome)
    requires r.at < |file| && !r.quoted
    ensures o.Got? ==> r.at < o.next <= |file|
    decreases |file| - r.at, 0
  {
    var c := file[r.at];
    if c == '"' && r.buffer == "" && !r.closed then Read(file, r.(at := r.at + 1, quoted := true, any := true))
    else if EndsCell(c) then
      var cells := r.cells + [CString(r.buffer)];
      if c == ',' then Read(file, Reader(r.at + 1, "", false, false, true, cells)) else Got(cells, BehindLine(file, r.at))
    else if r.closed || c == '"' then Bad
    else match Stored(r, c, r.at + 1)
      case None => Bad
      case Some(stored) => Read(file, stored)
  }

  function ReadRow(file: string, at: nat): (o: Outcome)
    requires at <= |file|
    ensures o.Got? ==> at < o.next <= |file|
  {
    Read(file, Reader(at, "", false, false, false, []))
  }

  /** `table_read` from `at` on, some rows having been read. */
  function ReadRows(file: string, at: nat, rows: seq<Row>): Option<seq<Row>>
    requires at <= |file|
    decreases |file| - at
  {
    match ReadRow(file, at)
    case Bad => None
    case End => if rows == [] then None else Some(rows)
    case Got(row, next) => if |rows| == MAX_ROWS then None else ReadRows(file, next, rows + [row])
  }

  function ReadTable(file: string): Option<seq<Row>>
  {
    ReadRows(file, 0, [])
  }

  /** `row_read`: the cell is gathered in a fixed buffer of `n` characters. */
  method RowRead(file: string, pos: nat) returns (o: Outcome)
    requires pos <= |file|
    ensures o == ReadRow(file, pos)
  {
    var buffer := new char[CELL_BUFFER];
    var n, at, quoted, closed, any := 0, pos, false, false, false;
    var cells: Row := [];
    while at < |file|
      invariant pos <= at <= |file| && n < CELL_BUFFER
      invariant Read(file, Reader(at, buffer[..n], quoted, closed, any, cells)) == ReadRow(file, pos)
      decreases |file| - at
    {
      ghost var r := Reader(at, buffer[..n], quoted, closed, any, cells);
      var c := file[at];
      at, any := at + 1, true;
      if quoted {
        if c == '"' {
          if at == |file| || file[at] != '"' {
            quoted, closed := false, true;
            continue;
          }
          at := at + 1;
        }
      } else {
        if c == '"' && n == 0 && !closed {
          quoted := true;
          continue;
        }
        if c == ',' || c == '\n' || c == '\r' {
          cells := cells + [CString(buffer[..n])];
          n, closed := 0, false;
          if c != ',' {
            if c == '\r' && at < |file| && file[at] == '\n' {
              at := at + 1;
            }
            return Got(cells, at);
          }
          continue;
        }
        if closed || c == '"' {
          return Bad;
        }
      }
      if n == CELL_BUFFER - 1 {
        return Bad;
      }
      buffer[n] := c;
      n := n + 1;
      assert buffer[..n] == r.buffer + [c];
    }
    if quoted {
      return Bad;
    }
    if any {
      return Got(cells + [CString(buffer[..n])], at);
    }
    return End;
  }

  /** `table_read`. */
  method TableRead(file: string) returns (table: Option<seq<Row>>)
    ensures table == ReadTable(file)
  {
    var rows: seq<Row>, at := [], 0;
    while true
      invariant at <= |file| && |rows| <= MAX_ROWS
      invariant ReadRows(file, at, rows) == ReadTable(file)
      decreases |file| - at
    {
      var o := RowRead(file, at);
      match o {
        case Bad =>
          return None;
        case End =>
          return if rows == [] then None else Some(rows);
        case Got(row, next) =>
          if |rows| == MAX_ROWS {
            return None;
          }
          rows, at := rows + [row], next;
      }
    }
  }

  // ---------- Reading undoes writing ----------

  /** What fits the reader's buffer. */
  predicate RowFits(row: Row)
  {
    row != [] && forall i :: 0 <= i < |row| ==> |row[i]| < CELL_BUFFER
  }

  /** The tables that survive: 1 to 100000 rows, each with a cell, every cell shorter than 1 MiB. */
  predicate TableFits(rows: seq<Row>)
  {
    0 < |rows| <= MAX_ROWS && forall i :: 0 <= i < |rows| ==> RowFits(rows[i])
  }

  /** Reading the rest of a quoted cell, of which `k` characters are in the buffer. */
  lemma {:induction false} ReadEscaped(file: string, at: nat, cell: Cell, k: nat, cells: Row, rest: string)
    requires at <= |file| && k <= |cell| && k < CELL_BUFFER
    requires file[at..] == Escaped(cell, k) + "\"" + rest && rest != "" && rest[0] != '"'
    ensures Read(file, Reader(at, cell[..k], true, false, true, cells)) ==
            if |cell| < CELL_BUFFER then Read(file, Reader(|file| - |rest|, cell, false, true, true, cells)) else Bad
    decreases |cell| - k
  {
    var r := Reader(at, cell[..k], true, false, true, cells);
    if k == |cell| {
      assert file[at] == file[at..][0] == '"' && file[at + 1] == file[at..][1] == rest[0];
      assert cell[..k] == cell;
    } else {
      var c := cell[k];
      var width := if c == '"' then 2 else 1;
      assert file[at] == file[at..][0] == c;
      if c == '"' {
        assert file[at + 1] == file[at..][1] == '"';
      }
      assert file[at + width..] == file[at..][width..] == Escaped(cell, k + 1) + "\"" + rest;
      assert cell[..k] + [c] == cell[..k + 1];
      if k + 1 < CELL_BUFFER {
        ReadEscaped(file, at + width, cell, k + 1, cells, rest);
      }
    }
  }

  /** Reading a quoted cell from its opening quote on. */
  lemma ReadCell(file: string, at: nat, cell: Cell, any: bool, cells: Row, rest: string)
    requires at <= |file| && file[at..] == Quoted(cell) + rest && rest != "" && rest[0] != '"'
    ensures Read(file, Reader(at, "", false, false, any, cells)) ==
            if |cell| < CELL_BUFFER then Read(file, Reader(|file| - |rest|, cell, false, true, true, cells)) else Bad
  {
    hide ReadQuoted, Escaped, Quoted;
    QuoteOpens(file, at, cell, rest);
    ReadEscaped(file, at + 1, cell, 0, cells, rest);
    assert cell[..0] == "";
    assert Read(file, Reader(at, "", false, false, any, cells)) == ReadPlain(file, Reader(at, "", false, false, any, cells));
  }

  lemma QuoteOpens(file: string, at: nat, cell: Cell, rest: string)
    requires at <= |file| && file[at..] == Quoted(cell) + rest
    ensures at < |file| && file[at] == '"' && file[at + 1..] == Escaped(cell, 0) + "\"" + rest
  {
    hide Escaped;
    var tail := file[at..];
    assert file[at] == tail[0] == '"';
    assert tail[1..] == Escaped(cell, 0) + "\"" + rest;
    assert file[at + 1..] == tail[1..];
  }

  /** Reading the rest of a row behind the closing quote of its cell `i - 1`. */
  lemma {:induction false} ReadCells(file: string, at: nat, row: Row, i: nat, rest: string)
    requires at <= |file| && 0 < i <= |row| && forall k :: 0 <= k < i ==> |row[k]| < CELL_BUFFER
    requires file[at..] == Cells(row, i) + "\n" + rest
    ensures Read(file, Reader(at, row[i - 1], false, true, true, row[..i - 1])) ==
            if RowFits(row) then Got(row, |file| - |rest|) else Bad
    decreases |row| - i
  {
    hide Quoted;
    assert row[..i - 1] + [row[i - 1]] == row[..i];
    if i == |row| {
      assert file[at] == file[at..][0] == '\n';
      assert row[..i] == row;
    } else {
      var tail := Cells(row, i + 1) + "\n" + rest;
      assert file[at..] == "," + Quoted(row[i]) + tail;
      assert file[at] == file[at..][0] == ',';
      assert file[at + 1..] == file[at..][1..] == Quoted(row[i]) + tail;
      ReadCell(file, at + 1, row[i], true, row[..i], tail);
      if |row[i]| < CELL_BUFFER {
        var at' := |file| - |tail|;
        assert file[at'..] == (Quoted(row[i]) + tail)[|Quoted(row[i])|..] == tail;
        ReadCells(file, at', row, i + 1, rest);
      }
    }
  }

  /** A written row reads back as itself if it fits; a row without cells comes back with one empty cell. */
  lemma ReadWrittenRow(file: string, at: nat, row: Row, rest: string)
    requires at <= |file| && file[at..] == RowText(row) + rest
    ensures ReadRow(file, at) ==
            if row == [] then Got([""], |file| - |rest|)
            else if RowFits(row) then Got(row, |file| - |rest|)
            else Bad
  {
    hide Quoted;
    if row == [] {
      assert file[at] == file[at..][0] == '\n';
      assert [] + [CString("")] == [""];
      assert ReadRow(file, at) == ReadPlain(file, Reader(at, "", false, false, false, []));
    } else {
      var tail := Cells(row, 1) + "\n" + rest;
      assert file[at..] == Quoted(row[0]) + tail;
      ReadCell(file, at, row[0], false, [], tail);
      if |row[0]| < CELL_BUFFER {
        var at' := |file| - |tail|;
        assert file[at'..] == (Quoted(row[0]) + tail)[|Quoted(row[0])|..] == tail;
        assert row[..0] == [];
        ReadCells(file, at', row, 1, rest);
      }
    }
  }

  /** Reading the rows of a written table from row `i` on, `done` having been read. */
  lemma {:induction false} ReadWrittenRows(file: string, at: nat, rows: seq<Row>, i: nat, done: seq<Row>)
    requires at <= |file| && i <= |rows| && file[at..] == TableText(rows, i) && |done| == i <= MAX_ROWS
    ensures ReadRows(file, at, done) == Some(rows) <==>
            done == rows[..i] && 0 < |rows| <= MAX_ROWS && forall k :: i <= k < |rows| ==> RowFits(rows[k])
    ensures ReadRows(file, at, done).Some? ==> |ReadRows(file, at, done).value| == |rows|
    ensures ReadRows(file, at, done).Some? ==> done <= ReadRows(file, at, done).value
    decreases |rows| - i
  {
    hide RowText;
    if i < |rows| {
      var rest := TableText(rows, i + 1);
      ReadWrittenRow(file, at, rows[i], rest);
      var o := ReadRow(file, at);
      if o.Got? && i < MAX_ROWS {
        assert file[o.next..] == (RowText(rows[i]) + rest)[|RowText(rows[i])|..] == rest;
        ReadWrittenRows(file, o.next, rows, i + 1, done + [o.row]);
        assert rows[..i + 1] == rows[..i] + [rows[i]];
        assert done + [o.row] == rows[..i + 1] <==> done == rows[..i] && o.row == rows[i];
      }
    } else {
      assert rows[..i] == rows;
    }
  }

  /** CSV round trip: what was written reads back as the same table exactly when it has 1 to 100000 rows, each with
      at least one cell and every cell shorter than 1 MiB, whatever quotes, commas and line ends the cells hold. */
  lemma RoundTrip(rows: seq<Row>)
    ensures ReadTable(TableText(rows, 0)) == Some(rows) <==> TableFits(rows)
  {
    var file := TableText(rows, 0);
    assert file[0..] == file;
    ReadWrittenRows(file, 0, rows, 0, []);
  }

  // ---------- Writing undoes reading ----------

  /** Cells that fit the buffer. */
  predicate CellsFit(row: Row)
  {
    forall i :: 0 <= i < |row| ==> |row[i]| < CELL_BUFFER
  }

  /** Whatever the file holds, a row that is read fits. */
  lemma {:induction false} ReadFits(file: string, r: Reader)
    requires r.at <= |file| && |r.buffer| < CELL_BUFFER && CellsFit(r.cells)
    ensures Read(file, r).Got? ==> RowFits(Read(file, r).row)
    decreases |file| - r.at
  {
    if r.at < |file| {
      var c := file[r.at];
      var doubled := c == '"' && r.at + 1 < |file| && file[r.at + 1] == '"';
      if r.quoted && c == '"' && !doubled {
        ReadFits(file, r.(at := r.at + 1, quoted := false, closed := true, any := true));
      } else if !r.quoted && c == '"' && r.buffer == "" && !r.closed {
        ReadFits(file, r.(at := r.at + 1, quoted := true, any := true));
      } else if !r.quoted && c == ',' {
        ReadFits(file, Reader(r.at + 1, "", false, false, true, r.cells + [CString(r.buffer)]));
      } else {
        var stored := Stored(r, c, if r.quoted && doubled then r.at + 2 else r.at + 1);
        if stored.Some? {
          ReadFits(file, stored.value);
        }
      }
    }
  }

  lemma {:induction false} ReadRowsFit(file: string, at: nat, rows: seq<Row>)
    requires at <= |file| && |rows| <= MAX_ROWS && forall i :: 0 <= i < |rows| ==> RowFits(rows[i])
    ensures var table := ReadRows(file, at, rows); table.Some? ==> TableFits(table.value)
    decreases |file| - at
  {
    hide RowFits;
    var o := ReadRow(file, at);
    ReadFits(file, Reader(at, "", false, false, false, []));
    if o.Got? && |rows| < MAX_ROWS {
      ReadRowsFit(file, o.next, rows + [o.row]);
    }
  }

  /** Whatever file is accepted, writing the table gives a file that reads back as the same table. */
  lemma AcceptedRoundTrip(file: string)
    ensures ReadTable(file).Some? ==> ReadTable(TableText(ReadTable(file).value, 0)) == ReadTable(file)
  {
    ReadRowsFit(file, 0, []);
    if ReadTable(file).Some? {
      RoundTrip(ReadTable(file).value);
    }
  }
}
