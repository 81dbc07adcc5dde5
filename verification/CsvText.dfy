// What a CSV file says: the files the reader accepts are exactly the texts of tables, quoted or plain
// (tools/model.c:34-77).
module CsvTexts {
  import opened Bytes
  import opened Csv

  // ---------- The text of a table ----------

  /** A cell as it stands in a file, with or without quotes around it. */
  datatype Written = Written(text: string, quoted: bool)

  datatype Ending = LF | CRLF | CR | EOF

  datatype Line = Line(cells: seq<Written>, ending: Ending)

  /** Quotes inside quotes are doubled. */
  function Doubled(text: string): string
  {
    if text == "" then "" else (if text[0] == '"' then "\"\"" else [text[0]]) + Doubled(text[1..])
  }

  /** Text that can stand without quotes. */
  predicate IsPlain(text: string)
  {
    forall i :: 0 <= i < |text| ==> text[i] != '"' && text[i] != ',' && text[i] != '\n' && text[i] != '\r'
  }

  function CellText(w: Written): string
  {
    if w.quoted then "\"" + Doubled(w.text) + "\"" else w.text
  }

  function EndText(e: Ending): string
  {
    match e
    case LF => "\n"
    case CRLF => "\r\n"
    case CR => "\r"
    case EOF => ""
  }

  /** Cells with a comma in front of each. */
  function MoreText(cells: seq<Written>): string
  {
    if cells == [] then "" else "," + CellText(cells[0]) + MoreText(cells[1..])
  }

  function LineText(line: Line): string
    requires line.cells != []
  {
    CellText(line.cells[0]) + MoreText(line.cells[1..]) + EndText(line.ending)
  }

  predicate CellOk(w: Written)
  {
    w.quoted || IsPlain(w.text)
  }

  predicate CellsOk(cells: seq<Written>)
  {
    forall i :: 0 <= i < |cells| ==> CellOk(cells[i])
  }

  /** Each line has a cell; only the last may end with the file; what follows a lone carriage return is no line feed. */
  predicate LinesOk(lines: seq<Line>)
  {
    lines != [] ==>
      && lines[0].cells != [] && CellsOk(lines[0].cells)
      && LinesOk(lines[1..])
      && (lines[0].ending == EOF ==> lines[1..] == [])
      && (lines[0].ending == CR ==> Text(lines[1..]) == "" || Text(lines[1..])[0] != '\n')
  }

  function Text(lines: seq<Line>): string
  {
    if lines == [] then "" else (if lines[0].cells == [] then "" else LineText(lines[0])) + Text(lines[1..])
  }

  // ---------- What it says ----------

  /** Cells are C strings: what follows a NUL is lost. */
  function Values(cells: seq<Written>): Row
  {
    if cells == [] then [] else [CString(cells[0].text)] + Values(cells[1..])
  }

  /** A last line that is one empty plain cell ended by the file is nothing at all. */
  predicate IsNothing(line: Line)
  {
    line.cells == [Written("", false)] && line.ending == EOF
  }

  function Rows(lines: seq<Line>): seq<Row>
  {
    if lines == [] || IsNothing(lines[0]) then [] else [Values(lines[0].cells)] + Rows(lines[1..])
  }

  predicate CellsFit(cells: seq<Written>)
  {
    forall i :: 0 <= i < |cells| ==> |cells[i].text| < 1024 * 1024
  }

  predicate LinesFit(lines: seq<Line>)
  {
    forall i :: 0 <= i < |lines| ==> CellsFit(lines[i].cells)
  }

  // ---------- Reading a cell ----------

  /** Nothing, a comma or a line end follows a cell. */
  predicate Stops(rest: string)
  {
    rest == "" || rest[0] == ',' || rest[0] == '\n' || rest[0] == '\r'
  }

  lemma Ahead(file: string, at: nat, text: string, rest: string)
    requires at <= |file| && file[at..] == text + rest
    ensures at + |text| <= |file| && file[at + |text|..] == rest
    ensures text != "" ==> file[at] == text[0] && file[at + 1..] == text[1..] + rest
    ensures text == "" && rest != "" ==> at < |file| && file[at] == rest[0]
  {
    var tail := file[at..];
    assert tail[|text|..] == rest && file[at + |text|..] == tail[|text|..];
    if text != "" {
      assert file[at] == tail[0] && file[at + 1..] == tail[1..] == text[1..] + rest;
    } else if rest != "" {
      assert file[at] == tail[0];
    }
  }

  /** One character ahead. */
  lemma AheadChar(file: string, at: nat, c: char, rest: string)
    requires at <= |file| && file[at..] == [c] + rest
    ensures at < |file| && file[at] == c && file[at + 1..] == rest
  {
    var tail := file[at..];
    assert tail[0] == c && tail[1..] == rest;
    assert file[at + 1..] == tail[1..];
  }

  lemma Append<T>(a: seq<T>, x: T, b: seq<T>)
    ensures a + [x] + b == a + ([x] + b)
  {
  }

  /** The rest of a plain cell, `front` being in the buffer. */
  lemma {:induction false} PlainRead(file: string, at: nat, front: string, text: string, any: bool, cells: Row, rest: string)
    requires at <= |file| && file[at..] == text + rest && Stops(rest) && IsPlain(text) && |front| < CELL_BUFFER
    ensures Read(file, Reader(at, front, false, false, any, cells)) ==
            if |front| + |text| < CELL_BUFFER
            then Read(file, Reader(at + |text|, front + text, false, false, any || text != "", cells))
            else Bad
    decreases |text|
  {
    Ahead(file, at, text, rest);
    if text == "" {
      assert front + text == front;
    } else {
      var r := Reader(at, front, false, false, any, cells);
      assert Read(file, r) == ReadPlain(file, r);
      if |front| + 1 < CELL_BUFFER {
        PlainRead(file, at + 1, front + [text[0]], text[1..], true, cells, rest);
        assert front + [text[0]] + text[1..] == front + text;
      }
    }
  }

  lemma OpenStep(file: string, at: nat, any: bool, cells: Row)
    requires at < |file| && file[at] == '"'
    ensures Read(file, Reader(at, "", false, false, any, cells)) == Read(file, Reader(at + 1, "", true, false, true, cells))
  {
    hide ReadQuoted;
    var r := Reader(at, "", false, false, any, cells);
    assert Read(file, r) == ReadPlain(file, r);
  }

  lemma CloseStep(file: string, at: nat, front: string, cells: Row)
    requires at < |file| && file[at] == '"' && (at + 1 == |file| || file[at + 1] != '"')
    ensures Read(file, Reader(at, front, true, false, true, cells)) == Read(file, Reader(at + 1, front, false, true, true, cells))
  {
    hide ReadPlain;
    var r := Reader(at, front, true, false, true, cells);
    assert Read(file, r) == ReadQuoted(file, r);
  }

  /** One character inside quotes, a doubled quote counting as one. */
  lemma InsideStep(file: string, at: nat, front: string, c: char, cells: Row)
    requires at < |file| && file[at] == c && (c == '"' ==> at + 1 < |file| && file[at + 1] == '"')
    ensures Read(file, Reader(at, front, true, false, true, cells)) ==
            if |front| == CELL_BUFFER - 1 then Bad
            else Read(file, Reader(at + if c == '"' then 2 else 1, front + [c], true, false, true, cells))
  {
    hide ReadPlain;
    var r := Reader(at, front, true, false, true, cells);
    assert Read(file, r) == ReadQuoted(file, r);
  }

  lemma DoubledFirst(text: string, rest: string)
    requires text != ""
    ensures Doubled(text) + "\"" + rest == (if text[0] == '"' then "\"\"" else [text[0]]) + (Doubled(text[1..]) + "\"" + rest)
    ensures |Doubled(text)| == (if text[0] == '"' then 2 else 1) + |Doubled(text[1..])|
  {
  }

  lemma OneMore(front: string, text: string)
    requires text != ""
    ensures front + [text[0]] + text[1..] == front + text
  {
  }

  /** The rest of a quoted cell and its closing quote. */
  lemma {:induction false} QuotedRead(file: string, at: nat, front: string, text: string, cells: Row, rest: string)
    requires at <= |file| && file[at..] == Doubled(text) + "\"" + rest && (rest == "" || rest[0] != '"') && |front| < CELL_BUFFER
    ensures Read(file, Reader(at, front, true, false, true, cells)) ==
            if |front| + |text| < CELL_BUFFER
            then Read(file, Reader(at + |Doubled(text)| + 1, front + text, false, true, true, cells))
            else Bad
    decreases |text|
  {
    hide Read;
    if text == "" {
      ClosingQuote(file, at, rest);
      CloseStep(file, at, front, cells);
      assert front + text == front;
    } else {
      DoubledFirst(text, rest);
      hide Doubled;
      var first, tail := if text[0] == '"' then "\"\"" else [text[0]], Doubled(text[1..]) + "\"" + rest;
      Ahead(file, at, first, tail);
      if text[0] == '"' {
        assert file[at + 1] == file[at..][1] == '"';
      }
      InsideStep(file, at, front, text[0], cells);
      if |front| + 1 < CELL_BUFFER {
        QuotedRead(file, at + |first|, front + [text[0]], text[1..], cells, rest);
        OneMore(front, text);
      }
    }
  }

  lemma ClosingQuote(file: string, at: nat, rest: string)
    requires at <= |file| && file[at..] == Doubled("") + "\"" + rest
    ensures at < |file| && file[at] == '"' && (at + 1 == |file| || (rest != "" && file[at + 1] == rest[0]))
    ensures at + 1 == |file| <==> rest == ""
  {
    assert file[at..] == "\"" + rest;
    Ahead(file, at, "\"", rest);
    if rest != "" {
      assert file[at + 1] == file[at + 1..][0];
    }
  }

  lemma CellParts(w: Written, rest: string)
    ensures w.quoted ==> CellText(w) + rest == "\"" + (Doubled(w.text) + "\"" + rest) && |CellText(w)| == |Doubled(w.text)| + 2
    ensures !w.quoted ==> CellText(w) == w.text && (CellOk(w) ==> IsPlain(w.text))
    ensures "" + w.text == w.text
  {
    hide Doubled, IsPlain;
  }

  /** A whole cell, quoted or plain. */
  lemma CellRead(file: string, at: nat, w: Written, any: bool, cells: Row, rest: string)
    requires at <= |file| && file[at..] == CellText(w) + rest && Stops(rest) && CellOk(w)
    ensures Read(file, Reader(at, "", false, false, any, cells)) ==
            if |w.text| < CELL_BUFFER
            then Read(file, Reader(at + |CellText(w)|, w.text, false, w.quoted, any || CellText(w) != "", cells))
            else Bad
  {
    hide Read, CellText, Doubled, IsPlain, Stops, CellOk, ReadPlain, ReadQuoted, Stored;
    CellParts(w, rest);
    if w.quoted {
      NoQuote(rest);
      QuoteAhead(file, at, Doubled(w.text) + "\"" + rest);
      WholeQuotedRead(file, at, w.text, any, cells, rest);
    } else {
      PlainRead(file, at, "", w.text, any, cells, rest);
    }
  }

  lemma QuoteAhead(file: string, at: nat, tail: string)
    requires at <= |file| && file[at..] == "\"" + tail
    ensures at < |file| && file[at] == '"' && file[at + 1..] == tail
  {
    AheadChar(file, at, '"', tail);
  }

  lemma WholeQuotedRead(file: string, at: nat, text: string, any: bool, cells: Row, rest: string)
    requires at < |file| && file[at] == '"' && file[at + 1..] == Doubled(text) + "\"" + rest && (rest == "" || rest[0] != '"')
    ensures Read(file, Reader(at, "", false, false, any, cells)) ==
            if |text| < CELL_BUFFER then Read(file, Reader(at + |Doubled(text)| + 2, text, false, true, true, cells)) else Bad
  {
    hide Read, Doubled;
    OpenStep(file, at, any, cells);
    assert "" + text == text;
    QuotedRead(file, at + 1, "", text, cells, rest);
  }

  lemma NoQuote(rest: string)
    requires Stops(rest)
    ensures rest == "" || rest[0] != '"'
  {
  }

  // ---------- Reading a line ----------

  /** Where a line ends: behind it comes nothing, or what does not belong to its ending. */
  predicate EndsHere(e: Ending, rest: string)
  {
    && (e == EOF ==> rest == "")
    && (e == CR ==> rest == "" || rest[0] != '\n')
  }

  /** The end of a line, a cell being in the buffer. */
  lemma EndRead(file: string, at: nat, buffer: string, closed: bool, any: bool, cells: Row, e: Ending, rest: string)
    requires at <= |file| && file[at..] == EndText(e) + rest && EndsHere(e, rest)
    ensures Read(file, Reader(at, buffer, false, closed, any, cells)) ==
            if e == EOF && !any then End else Got(cells + [CString(buffer)], at + |EndText(e)|)
  {
    var r := Reader(at, buffer, false, closed, any, cells);
    Ahead(file, at, EndText(e), rest);
    if e == CRLF {
      assert file[at + 1] == file[at..][1] == '\n';
    }
    if e == CR && rest != "" {
      assert file[at + 1] == file[at + 1..][0] == rest[0];
    }
    if e != EOF {
      assert Read(file, r) == ReadPlain(file, r);
    }
  }

  lemma StopsHere(more: seq<Written>, e: Ending, rest: string)
    requires EndsHere(e, rest)
    ensures Stops(MoreText(more) + (EndText(e) + rest))
  {
  }

  lemma CommaStep(file: string, at: nat, buffer: string, closed: bool, any: bool, cells: Row)
    requires at < |file| && file[at] == ','
    ensures Read(file, Reader(at, buffer, false, closed, any, cells)) ==
            Read(file, Reader(at + 1, "", false, false, true, cells + [CString(buffer)]))
  {
    hide ReadQuoted;
    var r := Reader(at, buffer, false, closed, any, cells);
    assert Read(file, r) == ReadPlain(file, r);
  }

  lemma MoreParts(more: seq<Written>, tail: string)
    requires more != []
    ensures MoreText(more) + tail == "," + (CellText(more[0]) + (MoreText(more[1..]) + tail))
    ensures |MoreText(more)| == 1 + |CellText(more[0])| + |MoreText(more[1..])|
  {
    var a, b := CellText(more[0]), MoreText(more[1..]);
    assert MoreText(more) == "," + a + b;
    hide *;
    ThreeAhead(",", a, b, tail);
  }

  lemma ThreeAhead(a: string, b: string, c: string, d: string)
    ensures a + b + c + d == a + (b + (c + d))
  {
  }

  lemma MoreValues(cells: Row, one: Cell, more: seq<Written>)
    requires more != []
    ensures cells + [one] + [CString(more[0].text)] + Values(more[1..]) == cells + [one] + Values(more)
  {
  }

  /** The rest of a line behind a cell in the buffer. */
  lemma {:induction false} MoreRead(file: string, at: nat, buffer: string, closed: bool, any: bool, cells: Row,
                                    more: seq<Written>, e: Ending, rest: string)
    requires at <= |file| && file[at..] == MoreText(more) + (EndText(e) + rest) && EndsHere(e, rest) && CellsOk(more)
    ensures Read(file, Reader(at, buffer, false, closed, any, cells)) ==
            if !CellsFit(more) then Bad
            else if more == [] && e == EOF && !any then End
            else Got(cells + [CString(buffer)] + Values(more), at + |MoreText(more)| + |EndText(e)|)
    decreases |more|
  {
    hide *;
    if more == [] {
      NoMore(cells + [CString(buffer)], e, rest);
      EndRead(file, at, buffer, closed, any, cells, e, rest);
    } else {
      MoreParts(more, EndText(e) + rest);
      MoreOk(more);
      MoreValues(cells, CString(buffer), more);
      StopsHere(more[1..], e, rest);
      OneMoreRead(file, at, buffer, closed, any, cells, more[0], MoreText(more[1..]) + (EndText(e) + rest));
      if |more[0].text| < CELL_BUFFER {
        FitMore(more);
        var at1 := at + 1 + |CellText(more[0])|;
        MoreRead(file, at1, more[0].text, more[0].quoted, true, cells + [CString(buffer)], more[1..], e, rest);
      } else {
        FitNot(more, 0);
      }
    }
  }

  lemma NoMore(cells: Row, e: Ending, rest: string)
    ensures MoreText([]) == "" && MoreText([]) + (EndText(e) + rest) == EndText(e) + rest
    ensures CellsFit([]) && cells + Values([]) == cells
  {
  }

  lemma MoreOk(more: seq<Written>)
    requires more != [] && CellsOk(more)
    ensures CellOk(more[0]) && CellsOk(more[1..])
  {
  }

  lemma FitNot(cells: seq<Written>, i: nat)
    requires i < |cells| && |cells[i].text| >= CELL_BUFFER
    ensures !CellsFit(cells)
  {
  }

  /** A comma and the next cell. */
  lemma OneMoreRead(file: string, at: nat, buffer: string, closed: bool, any: bool, cells: Row, w: Written, tail: string)
    requires CellOk(w) && Stops(tail)
    requires at <= |file| && file[at..] == "," + (CellText(w) + tail)
    ensures var next := at + 1 + |CellText(w)|;
            && next <= |file| && file[next..] == tail
            && Read(file, Reader(at, buffer, false, closed, any, cells)) ==
               if |w.text| < CELL_BUFFER then Read(file, Reader(next, w.text, false, w.quoted, true, cells + [CString(buffer)])) else Bad
  {
    hide Read, CellText, Stops, CString, CellOk;
    AheadChar(file, at, ',', CellText(w) + tail);
    CommaStep(file, at, buffer, closed, any, cells);
    CellRead(file, at + 1, w, true, cells + [CString(buffer)], tail);
    Behind(file, at + 1, CellText(w), tail);
  }

  lemma FitMore(more: seq<Written>)
    requires more != [] && |more[0].text| < CELL_BUFFER
    ensures CellsFit(more) <==> CellsFit(more[1..])
  {
    if CellsFit(more[1..]) {
      forall i | 0 <= i < |more| ensures |more[i].text| < 1024 * 1024 {
        if i > 0 {
          assert more[i] == more[1..][i - 1];
        }
      }
    }
  }

  lemma LineParts(line: Line, rest: string)
    requires line.cells != []
    ensures LineText(line) + rest == CellText(line.cells[0]) + (MoreText(line.cells[1..]) + (EndText(line.ending) + rest))
    ensures |LineText(line)| == |CellText(line.cells[0])| + |MoreText(line.cells[1..])| + |EndText(line.ending)|
  {
    hide CellText, MoreText, EndText;
  }

  lemma NothingParts(line: Line)
    requires line.cells != [] && CellOk(line.cells[0])
    ensures IsNothing(line) <==> line.cells[1..] == [] && line.ending == EOF && CellText(line.cells[0]) == ""
  {
    if line.cells[1..] == [] && CellText(line.cells[0]) == "" {
      assert !line.cells[0].quoted;
      assert line.cells == [line.cells[0]] == [Written("", false)];
    }
  }

  /** A whole line. */
  lemma LineRead(file: string, at: nat, line: Line, rest: string)
    requires at <= |file| && line.cells != [] && CellsOk(line.cells) && EndsHere(line.ending, rest)
    requires file[at..] == LineText(line) + rest
    ensures ReadRow(file, at) ==
            if !CellsFit(line.cells) then Bad
            else if IsNothing(line) then End
            else Got(Values(line.cells), at + |LineText(line)|)
  {
    hide *;
    MoreOk(line.cells);
    NothingParts(line);
    LineParts(line, rest);
    FirstValue(line.cells);
    var w, more := line.cells[0], line.cells[1..];
    StopsHere(more, line.ending, rest);
    CellRead(file, at, w, false, [], MoreText(more) + (EndText(line.ending) + rest));
    if |w.text| < CELL_BUFFER {
      Behind(file, at, CellText(w), MoreText(more) + (EndText(line.ending) + rest));
      MoreRead(file, at + |CellText(w)|, w.text, w.quoted, CellText(w) != "", [], more, line.ending, rest);
      FitMore(line.cells);
    } else {
      FitNot(line.cells, 0);
    }
    IsReadRow(file, at);
  }

  lemma IsReadRow(file: string, at: nat)
    requires at <= |file|
    ensures ReadRow(file, at) == Read(file, Reader(at, "", false, false, false, []))
  {
  }

  lemma FirstValue(cells: seq<Written>)
    requires cells != []
    ensures [] + [CString(cells[0].text)] + Values(cells[1..]) == Values(cells)
  {
  }

  // ---------- Reading a table ----------

  lemma LinesMore(lines: seq<Line>)
    requires lines != [] && LinesOk(lines)
    ensures lines[0].cells != [] && CellsOk(lines[0].cells) && LinesOk(lines[1..])
    ensures EndsHere(lines[0].ending, Text(lines[1..]))
    ensures Text(lines) == LineText(lines[0]) + Text(lines[1..])
    ensures IsNothing(lines[0]) ==> lines[1..] == []
  {
    hide LineText;
    if lines[0].ending == EOF {
      assert lines[1..] == [];
    }
  }

  lemma LinesFitMore(lines: seq<Line>)
    requires lines != []
    ensures LinesFit(lines) <==> CellsFit(lines[0].cells) && LinesFit(lines[1..])
  {
    hide CellsFit;
    if LinesFit(lines[1..]) && CellsFit(lines[0].cells) {
      forall i | 0 <= i < |lines| ensures CellsFit(lines[i].cells) {
        if i > 0 {
          assert lines[i] == lines[1..][i - 1];
        }
      }
    }
  }

  lemma RowsMore(lines: seq<Line>, done: seq<Row>)
    requires lines != [] && !IsNothing(lines[0])
    ensures done + [Values(lines[0].cells)] + Rows(lines[1..]) == done + Rows(lines)
    ensures |Rows(lines)| == 1 + |Rows(lines[1..])|
  {
    assert Rows(lines) == [Values(lines[0].cells)] + Rows(lines[1..]);
    hide *;
    Append(done, Values(lines[0].cells), Rows(lines[1..]));
  }

  /** From any line on. */
  lemma {:induction false} LinesRead(file: string, at: nat, lines: seq<Line>, done: seq<Row>)
    requires at <= |file| && LinesOk(lines) && file[at..] == Text(lines) && |done| <= MAX_ROWS
    ensures ReadRows(file, at, done) == Outcome(lines, done)
    decreases |lines|
  {
    hide *;
    if lines == [] {
      AtTheEnd(file, at);
      EndRow(file, at, done);
      NoLines(done);
    } else {
      LinesMore(lines);
      LinesFitMore(lines);
      var line, later := lines[0], lines[1..];
      LineRead(file, at, line, Text(later));
      if !CellsFit(line.cells) {
        BadRow(file, at, done);
        UnfitOutcome(lines, done);
      } else if IsNothing(line) {
        NothingLeft(lines, done);
        EndRow(file, at, done);
      } else {
        Behind(file, at, LineText(line), Text(later));
        var next, row := at + |LineText(line)|, Values(line.cells);
        if |done| < MAX_ROWS {
          LinesRead(file, next, later, done + [row]);
        }
        LinesGot(file, at, lines, done, next, row);
      }
    }
  }

  /** What reading `lines` should give behind the rows `done`. */
  function Outcome(lines: seq<Line>, done: seq<Row>): Option<seq<Row>>
  {
    if LinesFit(lines) && 0 < |done| + |Rows(lines)| <= MAX_ROWS then Some(done + Rows(lines)) else None
  }

  lemma LinesGot(file: string, at: nat, lines: seq<Line>, done: seq<Row>, next: nat, row: Row)
    requires at <= next <= |file| && ReadRow(file, at) == Got(row, next) && |done| <= MAX_ROWS
    requires lines != [] && row == Values(lines[0].cells) && CellsFit(lines[0].cells) && !IsNothing(lines[0])
    requires |done| < MAX_ROWS ==> ReadRows(file, next, done + [row]) == Outcome(lines[1..], done + [row])
    ensures ReadRows(file, at, done) == Outcome(lines, done)
  {
    hide Rows, LinesFit, ReadRows, ReadRow, Values, CellsFit, IsNothing;
    GotRow(file, at, done);
    RowsMore(lines, done);
    LinesFitMore(lines);
    var all, later := Rows(lines), Rows(lines[1..]);
    assert |done + [row]| + |later| == |done| + |all|;
  }

  lemma Behind(file: string, at: nat, text: string, rest: string)
    requires at <= |file| && file[at..] == text + rest
    ensures at + |text| <= |file| && file[at + |text|..] == rest
  {
    Ahead(file, at, text, rest);
  }

  lemma NoLines(done: seq<Row>)
    requires |done| <= MAX_ROWS
    ensures Outcome([], done) == if done == [] then None else Some(done)
  {
    assert done + [] == done;
  }

  lemma UnfitOutcome(lines: seq<Line>, done: seq<Row>)
    requires !LinesFit(lines)
    ensures Outcome(lines, done) == None
  {
  }

  lemma AtTheEnd(file: string, at: nat)
    requires at <= |file| && file[at..] == Text([])
    ensures ReadRow(file, at) == End && LinesFit([]) && Rows([]) == []
  {
  }

  lemma BadRow(file: string, at: nat, done: seq<Row>)
    requires at <= |file| && ReadRow(file, at) == Bad
    ensures ReadRows(file, at, done) == None
  {
    hide ReadRow;
  }

  lemma EndRow(file: string, at: nat, done: seq<Row>)
    requires at <= |file| && ReadRow(file, at) == End
    ensures ReadRows(file, at, done) == if done == [] then None else Some(done)
  {
    hide ReadRow;
  }

  lemma GotRow(file: string, at: nat, done: seq<Row>)
    requires at <= |file| && ReadRow(file, at).Got?
    ensures var o := ReadRow(file, at);
            ReadRows(file, at, done) == if |done| == MAX_ROWS then None else ReadRows(file, o.next, done + [o.row])
  {
    hide ReadRow;
  }

  lemma NothingLeft(lines: seq<Line>, done: seq<Row>)
    requires lines != [] && IsNothing(lines[0]) && lines[1..] == []
    requires |done| <= MAX_ROWS
    ensures Outcome(lines, done) == if done == [] then None else Some(done)
  {
    assert done + [] == done;
    NothingFits(lines[0]);
    LinesFitMore(lines);
  }

  lemma NothingFits(line: Line)
    requires IsNothing(line)
    ensures CellsFit(line.cells) && LinesFit([])
  {
  }

  /** The reader takes the text of a table, quoted or plain, whatever its line ends, for exactly that table, provided it
      has 1 to 100000 rows and no cell of 1 MiB; and refuses it otherwise. */
  lemma TextRead(lines: seq<Line>)
    requires LinesOk(lines)
    ensures ReadTable(Text(lines)) == if LinesFit(lines) && 0 < |Rows(lines)| <= 100000 then Some(Rows(lines)) else None
  {
    hide LinesOk, LinesFit, Text, Rows;
    var file := Text(lines);
    assert file[0..] == file;
    LinesRead(file, 0, lines, []);
    assert [] + Rows(lines) == Rows(lines);
  }

  // ---------- What is refused ----------

  /** A quote in a plain cell, or text behind a closing quote. */
  lemma StrayRefused(file: string, at: nat, buffer: string, closed: bool, any: bool, cells: Row)
    requires at < |file|
    requires (file[at] == '"' && (buffer != "" || closed)) || (closed && !Stops([file[at]]))
    ensures Read(file, Reader(at, buffer, false, closed, any, cells)) == Bad
  {
    var r := Reader(at, buffer, false, closed, any, cells);
    assert Read(file, r) == ReadPlain(file, r);
  }

  // ---------- Every file accepted is such a text ----------

  /** What stands in the file from inside a cell to its end. */
  predicate RestOfCell(r: Reader, text: string, quoted: bool, rest: string)
  {
    if r.quoted then quoted && rest == Doubled(text) + "\""
    else if r.closed then quoted && text == "" && rest == ""
    else if quoted then r.buffer == "" && rest == "\"" + (Doubled(text) + "\"")
    else IsPlain(r.buffer + text) && rest == text
  }

  predicate ReaderOk(r: Reader)
  {
    |r.buffer| < CELL_BUFFER && !(r.quoted && r.closed) && (!r.quoted && !r.closed ==> IsPlain(r.buffer))
  }

  /** The rest of a line that has been read: the rest of the cell begun, the cells behind it, and the ending. */
  datatype Reading = Reading(cell: string, text: string, quoted: bool, more: seq<Written>, ending: Ending)

  predicate ReadAs(file: string, r: Reader, row: Row, next: nat, g: Reading)
    requires r.at <= next <= |file|
  {
    && file[r.at..next] == g.cell + (MoreText(g.more) + EndText(g.ending))
    && RestOfCell(r, g.text, g.quoted, g.cell)
    && row == r.cells + [CString(r.buffer + g.text)] + Values(g.more)
    && CellsOk(g.more) && CellsFit(g.more) && |r.buffer + g.text| < CELL_BUFFER
    && EndsHere(g.ending, file[next..])
  }

  /** The end of the line, a cell being in the buffer. */
  lemma EndAs(file: string, r: Reader, next: nat, e: Ending)
    requires ReaderOk(r) && !r.quoted && r.at <= next <= |file| && file[r.at..next] == EndText(e) && EndsHere(e, file[next..])
    ensures ReadAs(file, r, r.cells + [CString(r.buffer)], next, Reading("", "", r.closed, [], e))
  {
    hide CString, EndText, EndsHere, IsPlain;
    assert r.buffer + "" == r.buffer;
    assert "" + (MoreText([]) + EndText(e)) == EndText(e);
    assert r.cells + [CString(r.buffer)] + Values([]) == r.cells + [CString(r.buffer)];
  }

  lemma Pieces(file: string, at: nat, mid: nat, next: nat)
    requires at <= mid <= next <= |file|
    ensures file[at..next] == file[at..mid] + file[mid..next]
  {
  }

  lemma Glue(a: string, b: string, c: string)
    ensures a + b + c == a + (b + c)
  {
  }

  /** A comma: the cell is over, and the line goes on with another. */
  lemma CommaAs(file: string, r: Reader, row: Row, next: nat, g: Reading)
    requires ReaderOk(r) && !r.quoted && r.at < |file| && file[r.at] == ',' && r.at + 1 <= next <= |file|
    requires ReadAs(file, Reader(r.at + 1, "", false, false, true, r.cells + [CString(r.buffer)]), row, next, g)
    ensures CellOk(Written(g.text, g.quoted))
    ensures ReadAs(file, r, row, next, Reading("", "", r.closed, [Written(g.text, g.quoted)] + g.more, g.ending))
  {
    hide CString, EndText, EndsHere, IsPlain, Doubled, MoreText;
    var w := Written(g.text, g.quoted);
    var all := [w] + g.more;
    assert "" + g.text == g.text && r.buffer + "" == r.buffer;
    assert CellText(w) == g.cell;
    assert all[0] == w && all[1..] == g.more;
    MoreParts(all, EndText(g.ending));
    CommaPieces(file, r.at, next);
    hide CellText, Values, CellsOk, CellsFit;
    FirstFits(w, g.more);
    MoreValues(r.cells, CString(r.buffer), all);
    assert "" + (MoreText(all) + EndText(g.ending)) == MoreText(all) + EndText(g.ending);
  }

  lemma CommaPieces(file: string, at: nat, next: nat)
    requires at < next <= |file| && file[at] == ','
    ensures file[at..next] == "," + file[at + 1..next]
  {
  }

  lemma FirstFits(w: Written, more: seq<Written>)
    requires CellOk(w) && |w.text| < CELL_BUFFER && CellsOk(more) && CellsFit(more)
    ensures CellsOk([w] + more) && CellsFit([w] + more)
  {
    hide CellOk;
  }

  /** One more character of the cell. */
  lemma CharAs(file: string, r: Reader, c: char, width: nat, row: Row, next: nat, g: Reading)
    requires ReaderOk(r) && !r.closed && r.at + width <= next <= |file|
    requires ReadAs(file, r.(at := r.at + width, buffer := r.buffer + [c], any := true), row, next, g)
    requires if r.quoted then file[r.at..r.at + width] == (if c == '"' then "\"\"" else [c])
             else file[r.at..r.at + width] == [c] && !g.quoted
    ensures ReadAs(file, r, row, next, Reading(file[r.at..r.at + width] + g.cell, [c] + g.text, g.quoted, g.more, g.ending))
  {
    var piece := file[r.at..r.at + width];
    Pieces(file, r.at, r.at + width, next);
    Glue(piece, g.cell, MoreText(g.more) + EndText(g.ending));
    Append(r.buffer, c, g.text);
    assert ([c] + g.text)[0] == c && ([c] + g.text)[1..] == g.text;
    if r.quoted {
      assert Doubled([c] + g.text) == piece + Doubled(g.text);
      Glue(piece, Doubled(g.text), "\"");
    }
    hide CString, EndText, EndsHere, IsPlain, Doubled, MoreText, Values, CellsOk, CellsFit;
  }

  /** The closing quote. */
  lemma CloseAs(file: string, r: Reader, row: Row, next: nat, g: Reading)
    requires ReaderOk(r) && r.quoted && r.at + 1 <= next <= |file| && file[r.at] == '"'
    requires ReadAs(file, r.(at := r.at + 1, quoted := false, closed := true, any := true), row, next, g)
    ensures ReadAs(file, r, row, next, Reading("\"", "", true, g.more, g.ending))
  {
    Pieces(file, r.at, r.at + 1, next);
    assert file[r.at..r.at + 1] == "\"";
    assert g.cell == "" && g.text == "" && Doubled("") + "\"" == "\"";
    hide CString, EndText, EndsHere, IsPlain, Doubled, MoreText, Values, CellsOk, CellsFit;
    assert "" + (MoreText(g.more) + EndText(g.ending)) == MoreText(g.more) + EndText(g.ending);
  }

  /** The opening quote. */
  lemma OpenAs(file: string, r: Reader, row: Row, next: nat, g: Reading)
    requires ReaderOk(r) && !r.quoted && !r.closed && r.buffer == "" && r.at + 1 <= next <= |file| && file[r.at] == '"'
    requires ReadAs(file, r.(at := r.at + 1, quoted := true, any := true), row, next, g)
    ensures ReadAs(file, r, row, next, Reading("\"" + g.cell, g.text, true, g.more, g.ending))
  {
    Pieces(file, r.at, r.at + 1, next);
    assert file[r.at..r.at + 1] == "\"";
    Glue("\"", g.cell, MoreText(g.more) + EndText(g.ending));
    hide CString, EndText, EndsHere, IsPlain, Doubled, MoreText, Values, CellsOk, CellsFit;
  }

  lemma EndingAt(file: string, at: nat) returns (e: Ending)
    requires at < |file| && (file[at] == '\n' || file[at] == '\r')
    ensures file[at..BehindLine(file, at)] == EndText(e) && EndsHere(e, file[BehindLine(file, at)..])
  {
    if file[at] == '\n' {
      e := LF;
    } else if at + 1 < |file| && file[at + 1] == '\n' {
      e := CRLF;
    } else {
      e := CR;
    }
  }

  /** Whatever has been read of a line is the text of its cells and its ending. */
  lemma {:induction false} ReadLists(file: string, r: Reader) returns (g: Reading)
    requires r.at <= |file| && ReaderOk(r) && Read(file, r).Got?
    ensures ReadAs(file, r, Read(file, r).row, Read(file, r).next, g)
    decreases |file| - r.at
  {
    hide ReadAs, CString, IsPlain, EndsHere, EndText;
    if r.at == |file| {
      g := Reading("", "", r.closed, [], EOF);
      AtEof(file, r);
    } else if r.quoted {
      var c := file[r.at];
      var doubled := c == '"' && r.at + 1 < |file| && file[r.at + 1] == '"';
      if c == '"' && !doubled {
        var g1 := ReadLists(file, r.(at := r.at + 1, quoted := false, closed := true, any := true));
        g := Reading("\"", "", true, g1.more, g1.ending);
        CloseAs(file, r, Read(file, r).row, Read(file, r).next, g1);
      } else {
        var width := if doubled then 2 else 1;
        if doubled {
          TwoQuotes(file, r.at);
        } else {
          OneChar(file, r.at);
        }
        var g1 := ReadLists(file, r.(at := r.at + width, buffer := r.buffer + [c], any := true));
        g := Reading(file[r.at..r.at + width] + g1.cell, [c] + g1.text, g1.quoted, g1.more, g1.ending);
        CharAs(file, r, c, width, Read(file, r).row, Read(file, r).next, g1);
      }
    } else {
      g := PlainLists(file, r);
    }
  }

  lemma AtEof(file: string, r: Reader)
    requires r.at == |file| && ReaderOk(r) && !r.quoted
    ensures ReadAs(file, r, r.cells + [CString(r.buffer)], r.at, Reading("", "", r.closed, [], EOF))
  {
    hide ReadAs, CString, IsPlain, ReaderOk;
    EndAs(file, r, r.at, EOF);
  }

  lemma {:induction false} PlainLists(file: string, r: Reader) returns (g: Reading)
    requires r.at < |file| && !r.quoted && ReaderOk(r) && Read(file, r).Got?
    ensures ReadAs(file, r, Read(file, r).row, Read(file, r).next, g)
    decreases |file| - r.at, 0
  {
    hide ReadAs, CString, IsPlain, EndsHere, EndText;
    var c := file[r.at];
    var row, next := Read(file, r).row, Read(file, r).next;
    if c == '"' {
      var g1 := ReadLists(file, r.(at := r.at + 1, quoted := true, any := true));
      g := Reading("\"" + g1.cell, g1.text, true, g1.more, g1.ending);
      OpenAs(file, r, row, next, g1);
    } else if c == ',' {
      NothingPlain();
      var g1 := ReadLists(file, Reader(r.at + 1, "", false, false, true, r.cells + [CString(r.buffer)]));
      g := Reading("", "", r.closed, [Written(g1.text, g1.quoted)] + g1.more, g1.ending);
      CommaAs(file, r, row, next, g1);
    } else if c == '\n' || c == '\r' {
      var e := EndingAt(file, r.at);
      g := Reading("", "", r.closed, [], e);
      EndAs(file, r, next, e);
    } else {
      PlainMore(r.buffer, c);
      var r1 := r.(at := r.at + 1, buffer := r.buffer + [c], any := true);
      var g1 := ReadLists(file, r1);
      NeverQuoted(file, r1, row, next, g1);
      OneChar(file, r.at);
      g := Reading(file[r.at..r.at + 1] + g1.cell, [c] + g1.text, g1.quoted, g1.more, g1.ending);
      CharAs(file, r, c, 1, row, next, g1);
    }
  }

  lemma TwoQuotes(file: string, at: nat)
    requires at + 1 < |file| && file[at] == '"' && file[at + 1] == '"'
    ensures file[at..at + 2] == "\"\""
  {
  }

  lemma OneChar(file: string, at: nat)
    requires at < |file|
    ensures file[at..at + 1] == [file[at]]
  {
  }

  lemma NothingPlain()
    ensures IsPlain("")
  {
  }

  lemma PlainMore(front: string, c: char)
    requires IsPlain(front) && c !in {'"', ',', '\n', '\r'}
    ensures IsPlain(front + [c])
  {
  }

  lemma NeverQuoted(file: string, r: Reader, row: Row, next: nat, g: Reading)
    requires r.at <= next <= |file| && ReadAs(file, r, row, next, g) && !r.quoted && !r.closed && r.buffer != ""
    ensures !g.quoted
  {
    hide CString, IsPlain, EndsHere, EndText, Doubled, MoreText, Values;
  }

  /** A line that has been read. */
  lemma LineLists(file: string, at: nat) returns (line: Line)
    requires at <= |file| && ReadRow(file, at).Got?
    ensures var o := ReadRow(file, at);
            && line.cells != [] && CellsOk(line.cells) && CellsFit(line.cells) && !IsNothing(line)
            && file[at..o.next] == LineText(line) && o.row == Values(line.cells) && EndsHere(line.ending, file[o.next..])
  {
    hide *;
    IsReadRow(file, at);
    BlankReader(at);
    var r := Reader(at, "", false, false, false, []);
    var g := ReadLists(file, r);
    var o := ReadRow(file, at);
    line := Line([Written(g.text, g.quoted)] + g.more, g.ending);
    LineAs(file, at, o.row, o.next, g);
    SomethingRead(file, at);
    if IsNothing(line) {
      NothingText(line);
    }
  }

  lemma BlankReader(at: nat)
    ensures ReaderOk(Reader(at, "", false, false, false, []))
  {
  }

  /** What is read from the start of a line on is a line. */
  lemma LineAs(file: string, at: nat, row: Row, next: nat, g: Reading)
    requires at <= next <= |file| && ReadAs(file, Reader(at, "", false, false, false, []), row, next, g)
    ensures var line := Line([Written(g.text, g.quoted)] + g.more, g.ending);
            && CellsOk(line.cells) && CellsFit(line.cells)
            && file[at..next] == LineText(line) && row == Values(line.cells) && EndsHere(line.ending, file[next..])
  {
    hide CString, IsPlain, EndsHere, EndText, Doubled, MoreText, Values;
    var w := Written(g.text, g.quoted);
    assert "" + g.text == g.text;
    assert CellText(w) == g.cell && CellOk(w);
    hide CellText, CellOk;
    FirstFits(w, g.more);
    LineOf(w, g.more, g.ending);
    ValuesOf(w, g.more);
  }

  lemma LineOf(w: Written, more: seq<Written>, e: Ending)
    ensures LineText(Line([w] + more, e)) == CellText(w) + (MoreText(more) + EndText(e))
  {
    hide CellText, MoreText, EndText;
    assert ([w] + more)[1..] == more;
    Glue(CellText(w), MoreText(more), EndText(e));
  }

  lemma ValuesOf(w: Written, more: seq<Written>)
    ensures [] + [CString(w.text)] + Values(more) == Values([w] + more)
  {
    assert ([w] + more)[1..] == more;
  }

  lemma SomethingRead(file: string, at: nat)
    requires at <= |file| && ReadRow(file, at).Got?
    ensures at < ReadRow(file, at).next
  {
  }

  lemma NothingText(line: Line)
    requires IsNothing(line)
    ensures LineText(line) == ""
  {
    assert MoreText(line.cells[1..]) == "";
  }

  lemma LinesJoin(line: Line, later: seq<Line>)
    requires line.cells != [] && CellsOk(line.cells) && CellsFit(line.cells) && !IsNothing(line)
    requires LinesOk(later) && LinesFit(later) && EndsHere(line.ending, Text(later)) && (line.ending == EOF ==> later == [])
    ensures LinesOk([line] + later) && LinesFit([line] + later)
    ensures Text([line] + later) == LineText(line) + Text(later)
    ensures Rows([line] + later) == [Values(line.cells)] + Rows(later)
  {
    hide LineText, CellsFit, Values, CellsOk, IsNothing;
    var all := [line] + later;
    assert all[0] == line && all[1..] == later;
    LinesFitMore(all);
  }

  /** Every table that has been read was the text of some lines. */
  lemma {:induction false} TableLists(file: string, at: nat, done: seq<Row>) returns (lines: seq<Line>)
    requires at <= |file| && |done| <= MAX_ROWS && ReadRows(file, at, done).Some?
    ensures LinesOk(lines) && LinesFit(lines) && Text(lines) == file[at..]
    ensures ReadRows(file, at, done).value == done + Rows(lines)
    ensures at == |file| ==> lines == []
    decreases |file| - at
  {
    hide *;
    EndsAtEnd(file);
    lines := [];
    if ReadRow(file, at) == End {
      EndRow(file, at, done);
      EndLists(file, at, done);
    } else {
      NotBad(file, at, done);
      GotRow(file, at, done);
      var o := ReadRow(file, at);
      var line := LineLists(file, at);
      SomethingRead(file, at);
      var later := TableLists(file, o.next, done + [o.row]);
      Pieces(file, at, o.next, |file|);
      Whole(file, at, o.next);
      EofIsLast(file, line.ending, o.next);
      LinesJoin(line, later);
      Append(done, Values(line.cells), Rows(later));
      lines := [line] + later;
    }
  }

  lemma Whole(file: string, at: nat, mid: nat)
    requires at <= mid <= |file|
    ensures file[at..|file|] == file[at..] && file[mid..|file|] == file[mid..]
  {
  }

  lemma EndsAtEnd(file: string)
    ensures ReadRow(file, |file|) == End
  {
  }

  lemma NotBad(file: string, at: nat, done: seq<Row>)
    requires at <= |file| && |done| <= MAX_ROWS && ReadRows(file, at, done).Some? && ReadRow(file, at) != End
    ensures ReadRow(file, at).Got? && |done| < MAX_ROWS
  {
    hide ReadRow;
  }

  lemma EndLists(file: string, at: nat, done: seq<Row>)
    requires at <= |file| && ReadRow(file, at) == End
    ensures LinesOk([]) && LinesFit([]) && Text([]) == file[at..] && done + Rows([]) == done
  {
    NeverEnds(file, Reader(at, "", false, false, false, []));
  }

  lemma {:induction false} NeverEnds(file: string, r: Reader)
    requires r.at <= |file|
    ensures Read(file, r) == End ==> r.at == |file|
    ensures r.any ==> Read(file, r) != End
    decreases |file| - r.at
  {
    if r.at < |file| {
      assert Read(file, r) == if r.quoted then ReadQuoted(file, r) else ReadPlain(file, r);
      var c := file[r.at];
      var doubled := c == '"' && r.at + 1 < |file| && file[r.at + 1] == '"';
      if r.quoted && c == '"' && !doubled {
        NeverEnds(file, r.(at := r.at + 1, quoted := false, closed := true, any := true));
      } else if !r.quoted && c == '"' && r.buffer == "" && !r.closed {
        NeverEnds(file, r.(at := r.at + 1, quoted := true, any := true));
      } else if !r.quoted && c == ',' {
        NeverEnds(file, Reader(r.at + 1, "", false, false, true, r.cells + [CString(r.buffer)]));
      } else {
        var stored := Stored(r, c, if r.quoted && doubled then r.at + 2 else r.at + 1);
        if stored.Some? {
          NeverEnds(file, stored.value);
        }
      }
    }
  }

  lemma EofIsLast(file: string, e: Ending, next: nat)
    requires next <= |file| && EndsHere(e, file[next..])
    ensures e == EOF ==> next == |file|
  {
  }

  /** The reader accepts a file exactly when it is such a text, and then takes it for that table. */
  lemma AcceptsExactly(file: string)
    ensures ReadTable(file).Some? <==> exists lines :: LinesOk(lines) && Text(lines) == file && LinesFit(lines) && 0 < |Rows(lines)| <= 100000
    ensures forall lines :: LinesOk(lines) && Text(lines) == file && ReadTable(file).Some? ==> ReadTable(file).value == Rows(lines)
  {
    hide LinesOk, LinesFit, Text, Rows;
    forall lines | LinesOk(lines) && Text(lines) == file
      ensures ReadTable(file) == if LinesFit(lines) && 0 < |Rows(lines)| <= 100000 then Some(Rows(lines)) else None
    {
      TextRead(lines);
    }
    if ReadTable(file).Some? {
      assert file[0..] == file;
      var lines := TableLists(file, 0, []);
      assert LinesOk(lines) && Text(lines) == file;
    }
  }
}
