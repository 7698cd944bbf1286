/**
  The CSV record machine of the baseline preview
  (apps/web/src/features/data-sources/preview.ts) and the exact set of printed
  documents it reads back.
 */
module CsvRecords {
  import opened Wrappers
  import Seqs

  type Rows = seq<seq<string>>

  /** A delimiter the preview can be given: comma, semicolon, tab or pipe; never one of the special characters. */
  predicate IsDelimiter(d: char) {
    d != '"' && d != '\n' && d != '\r'
  }

  /** The mutable variables of the machine. */
  datatype State = State(rows: Rows, row: seq<string>, field: string, inQuotes: bool, quoteClosed: bool) {
    function PushField(): State {
      this.(row := row + [field], field := "", quoteClosed := false)
    }

    function PushRow(): State {
      this.(rows := rows + [row], row := [])
    }
  }

  const START := State([], [], "", false, false)

  datatype Move = Stop(error: string) | Advance(state: State, width: nat)

  /** One turn of the loop: the character, and whether the next one is a quote or a line feed. */
  function Turn(st: State, d: char, c: char, nextIsQuote: bool, nextIsLF: bool): (m: Move)
    ensures m.Advance? ==> 1 <= m.width <= 2
    ensures m.Advance? && m.width == 2 ==> nextIsQuote || nextIsLF
  {
    if st.inQuotes then
      if c == '"' then
        if nextIsQuote then Advance(st.(field := st.field + "\""), 2)
        else Advance(st.(inQuotes := false, quoteClosed := true), 1)
      else Advance(st.(field := st.field + [c]), 1)
    else if st.quoteClosed && c != d && c != '\n' && c != '\r' then
      Stop("unexpected character after closing quote")
    else if !st.quoteClosed && c == '"' then
      if st.field != "" then Stop("unexpected quote in non-quoted field")
      else Advance(st.(inQuotes := true), 1)
    else if c == d then Advance(st.PushField(), 1)
    else if c == '\n' then Advance(st.PushField().PushRow(), 1)
    else if c == '\r' then Advance(st.PushField().PushRow(), if nextIsLF then 2 else 1)
    else Advance(st.(field := st.field + [c]), 1)
  }

  function Finish(st: State): Result<Rows, string> {
    if st.inQuotes then Err("unterminated quoted field")
    else if st.quoteClosed || st.field != "" || st.row != [] then Ok(st.PushField().PushRow().rows)
    else Ok(st.rows)
  }

  predicate StartsWith(s: string, c: char) {
    s != "" && s[0] == c
  }

  function Run(s: string, st: State, d: char): Result<Rows, string>
    decreases |s|
  {
    if s == "" then Finish(st)
    else
      match Turn(st, d, s[0], StartsWith(s[1..], '"'), StartsWith(s[1..], '\n'))
      case Stop(error) => Err(error)
      case Advance(st', width) => Run(s[width..], st', d)
  }

  function ParseSpec(payload: string, d: char): Result<Rows, string> {
    Run(payload, START, d)
  }

  /** One turn of the loop, on the payload and its index. */
  lemma RunTurn(payload: string, index: nat, st: State, d: char)
    requires index < |payload|
    ensures match Turn(st, d, payload[index],
                       index + 1 < |payload| && payload[index + 1] == '"', index + 1 < |payload|
                       && payload[index + 1] == '\n')
            case Stop(error) => Run(payload[index..], st, d) == Err(error)
            case Advance(st', width) =>
              index + width <= |payload| && Run(payload[index..], st, d) == Run(payload[index + width..], st', d)
  {
    hide Turn;
    var rest := payload[index..];
    assert rest[1..] == payload[index + 1..];
    assert |rest| >= 2 ==> rest[2..] == payload[index + 2..];
  }

  lemma RunEnd(payload: string, st: State, d: char)
    ensures Run(payload[|payload|..], st, d) == Finish(st)
  {
  }

  /** The same, on the variables of the loop. */
  lemma TurnMeans(rows: Rows, row: seq<string>, field: string, inQuotes: bool, quoteClosed: bool, d: char, c: char,
                  nextIsQuote: bool, nextIsLF: bool)
    requires IsDelimiter(d)
    ensures var ended := c == '\n' || c == '\r';
            Turn(State(rows, row, field, inQuotes, quoteClosed), d, c, nextIsQuote, nextIsLF)
            == if inQuotes && c == '"' && !nextIsQuote then Advance(State(rows, row, field, false, true), 1)
               else if inQuotes then
                 Advance(State(rows, row, field + [c], true, quoteClosed), if c == '"' then 2 else 1)
               else if quoteClosed && c != d && !ended then Stop("unexpected character after closing quote")
               else if c == '"' && field != "" then Stop("unexpected quote in non-quoted field")
               else if c == '"' then Advance(State(rows, row, field, true, quoteClosed), 1)
               else if c == d then Advance(State(rows, row + [field], "", false, false), 1)
               else if ended then
                 Advance(State(rows + [row + [field]], [], "", false, false), if c == '\r' && nextIsLF then 2 else 1)
               else Advance(State(rows, row, field + [c], false, quoteClosed), 1)
  {
    assert "\"" == ['"'];
  }

  /** parseCSVRecords, branch by branch. */
  method ParseRecords(payload: string, delimiter: char) returns (r: Result<Rows, string>)
    requires IsDelimiter(delimiter)
    ensures r == ParseSpec(payload, delimiter)
  {
    var rows: Rows, currentRow: seq<string>, currentField := [], [], "";
    var inQuotes, quoteClosed := false, false;
    var index := 0;
    assert payload[0..] == payload;
    hide Run, ParseSpec, Turn;
    while index < |payload|
      invariant 0 <= index <= |payload|
      invariant ParseSpec(payload, delimiter)
             == Run(payload[index..], State(rows, currentRow, currentField, inQuotes, quoteClosed), delimiter)
    {
      RunTurn(payload, index, State(rows, currentRow, currentField, inQuotes, quoteClosed), delimiter);
      var c := payload[index];
      var nextIsQuote := index + 1 < |payload| && payload[index + 1] == '"';
      var nextIsLF := index + 1 < |payload| && payload[index + 1] == '\n';
      ghost var turn := Turn(State(rows, currentRow, currentField, inQuotes, quoteClosed), delimiter, c, nextIsQuote,
                             nextIsLF);
      ghost var start := index;
      TurnMeans(rows, currentRow, currentField, inQuotes, quoteClosed, delimiter, c, nextIsQuote, nextIsLF);

      if inQuotes {
        if c == '"' {
          if nextIsQuote {
            currentField := currentField + [c];
            index := index + 1;
          } else {
            inQuotes, quoteClosed := false, true;
          }
        } else {
          currentField := currentField + [c];
        }
        index := index + 1;
        assert turn == Advance(State(rows, currentRow, currentField, inQuotes, quoteClosed), index - start);
        continue;
      }
      if quoteClosed && c != delimiter && c != '\n' && c != '\r' {
        return Err("unexpected character after closing quote");
      }
      if !quoteClosed && c == '"' {
        if currentField != "" {
          return Err("unexpected quote in non-quoted field");
        }
        inQuotes := true;
        index := index + 1;
        assert turn == Advance(State(rows, currentRow, currentField, inQuotes, quoteClosed), index - start);
        continue;
      }
      if c == delimiter {
        currentRow, currentField, quoteClosed := currentRow + [currentField], "", false;
      } else if c == '\n' {
        rows, currentRow, currentField, quoteClosed := rows + [currentRow + [currentField]], [], "", false;
      } else if c == '\r' {
        rows, currentRow, currentField, quoteClosed := rows + [currentRow + [currentField]], [], "", false;
        if nextIsLF {
          index := index + 1;
        }
      } else {
        currentField := currentField + [c];
      }
      index := index + 1;
      assert turn == Advance(State(rows, currentRow, currentField, inQuotes, quoteClosed), index - start);
    }
    RunEnd(payload, State(rows, currentRow, currentField, inQuotes, quoteClosed), delimiter);
    if inQuotes {
      return Err("unterminated quoted field");
    }
    if quoteClosed || currentField != "" || |currentRow| > 0 {
      rows := rows + [currentRow + [currentField]];
    }
    return Ok(rows);
  }

  // -------- printed documents (section 2 of RFC 4180) --------

  datatype Cell = Cell(value: string, quoted: bool)

  datatype Ending = LF | CR | CRLF | EndOfText

  datatype Record = Record(cells: seq<Cell>, ending: Ending)

  predicate Special(c: char, d: char) {
    c == d || c == '"' || c == '\r' || c == '\n'
  }

  /** Quoting is free, except that a value with a special character must be quoted. */
  ghost predicate LegalCell(c: Cell, d: char) {
    !c.quoted ==> forall x :: x in c.value ==> !Special(x, d)
  }

  /** At least one field; only the last record may lack a line ending. */
  ghost predicate LegalRecords(rs: seq<Record>, d: char) {
    forall i :: 0 <= i < |rs| ==>
      && |rs[i].cells| >= 1
      && (forall c :: c in rs[i].cells ==> LegalCell(c, d))
      && (rs[i].ending == EndOfText ==> i == |rs| - 1)
  }

  function DoubleQuotes(s: string): string {
    if s == "" then ""
    else (if s[0] == '"' then "\"\"" else [s[0]]) + DoubleQuotes(s[1..])
  }

  function PrintCell(c: Cell): string {
    if c.quoted then "\"" + DoubleQuotes(c.value) + "\"" else c.value
  }

  function PrintCells(cells: seq<Cell>, d: char): string {
    if cells == [] then ""
    else if |cells| == 1 then PrintCell(cells[0])
    else PrintCell(cells[0]) + [d] + PrintCells(cells[1..], d)
  }

  function PrintEnding(e: Ending): string {
    match e
    case LF => "\n"
    case CR => "\r"
    case CRLF => "\r\n"
    case EndOfText => ""
  }

  function Print(rs: seq<Record>, d: char): string {
    if rs == [] then ""
    else PrintCells(rs[0].cells, d) + PrintEnding(rs[0].ending) + Print(rs[1..], d)
  }

  function Values(cells: seq<Cell>): seq<string> {
    if cells == [] then [] else [cells[0].value] + Values(cells[1..])
  }

  /** A record that prints nothing but its line ending. */
  predicate Blank(r: Record) {
    r.cells == [Cell("", false)]
  }

  /**
    A record the reader cannot see: its line feed joins a preceding carriage return, or it leaves no
    trace at the end.
   */
  predicate Lost(r: Record, afterCR: bool) {
    Blank(r) && ((afterCR && r.ending == LF) || r.ending == EndOfText)
  }

  /** The rows the reader finds in a printed document. */
  function Visible(rs: seq<Record>, afterCR: bool): Rows {
    if rs == [] then []
    else (if Lost(rs[0], afterCR) then [] else [Values(rs[0].cells)]) + Visible(rs[1..], rs[0].ending == CR)
  }

  function AllValues(rs: seq<Record>): Rows {
    if rs == [] then [] else [Values(rs[0].cells)] + AllValues(rs[1..])
  }

  predicate LosesNone(rs: seq<Record>, afterCR: bool) {
    rs != [] ==> !Lost(rs[0], afterCR) && LosesNone(rs[1..], rs[0].ending == CR)
  }

  // -------- reading what was printed --------

  lemma {:induction false} RunQuoted(v: string, rest: string, st: State, d: char)
    requires st.inQuotes && !StartsWith(rest, '"')
    ensures Run(DoubleQuotes(v) + "\"" + rest, st, d)
         == Run(rest, st.(field := st.field + v, inQuotes := false, quoteClosed := true), d)
  {
    var s := DoubleQuotes(v) + "\"" + rest;
    if v == "" {
      assert s == "\"" + rest && s[1..] == rest;
      assert st.field + v == st.field;
    } else {
      var tail := DoubleQuotes(v[1..]) + "\"" + rest;
      var st' := st.(field := st.field + [v[0]]);
      if v[0] == '"' {
        assert s == "\"\"" + tail && s[2..] == tail && s[1..][0] == '"';
        assert "\"" == [v[0]];
      } else {
        assert s == [v[0]] + tail && s[1..] == tail;
      }
      assert Run(s, st, d) == Run(tail, st', d);
      RunQuoted(v[1..], rest, st', d);
      assert st.field + [v[0]] + v[1..] == st.field + v;
    }
  }

  lemma {:induction false} RunPlain(v: string, rest: string, st: State, d: char)
    requires !st.inQuotes && !st.quoteClosed
    requires forall x :: x in v ==> !Special(x, d)
    ensures Run(v + rest, st, d) == Run(rest, st.(field := st.field + v), d)
  {
    if v == "" {
      assert v + rest == rest && st.field + v == st.field;
    } else {
      var s := v + rest;
      assert s[0] == v[0] && v[0] in v && s[1..] == v[1..] + rest;
      RunPlain(v[1..], rest, st.(field := st.field + [v[0]]), d);
      assert st.field + [v[0]] + v[1..] == st.field + v;
    }
  }

  /** A cell leaves its value in the field, and a quoted one the closing mark. */
  lemma RunCell(c: Cell, rest: string, st: State, d: char)
    requires LegalCell(c, d) && IsDelimiter(d)
    requires st.field == "" && !st.inQuotes && !st.quoteClosed
    requires !StartsWith(rest, '"')
    ensures Run(PrintCell(c) + rest, st, d) == Run(rest, st.(field := c.value, quoteClosed := c.quoted), d)
  {
    if c.quoted {
      var s := PrintCell(c) + rest;
      assert s[1..] == DoubleQuotes(c.value) + "\"" + rest;
      RunQuoted(c.value, rest, st.(inQuotes := true), d);
      assert "" + c.value == c.value;
    } else {
      RunPlain(c.value, rest, st, d);
      assert "" + c.value == c.value;
    }
  }

  function AfterCells(cells: seq<Cell>, st: State): State
    requires |cells| >= 1
  {
    var last := cells[|cells| - 1];
    st.(row := st.row + Values(cells[..|cells| - 1]), field := last.value, quoteClosed := last.quoted)
  }

  lemma AfterCellsCons(cells: seq<Cell>, st: State)
    requires |cells| >= 1
    ensures |cells| == 1 ==> AfterCells(cells, st) == st.(field := cells[0].value, quoteClosed := cells[0].quoted)
    ensures |cells| > 1 ==> AfterCells(cells, st) == AfterCells(cells[1..], st.(row := st.row + [cells[0].value]))
  {
    if |cells| == 1 {
      Seqs.EmptyRight(st.row);
    } else {
      assert cells[..|cells| - 1][0] == cells[0] && cells[..|cells| - 1][1..] == cells[1..][..|cells| - 2];
      Seqs.Assoc(st.row, [cells[0].value], Values(cells[1..][..|cells| - 2]));
    }
  }

  lemma RunDelimiter(tail: string, st: State, d: char)
    requires IsDelimiter(d) && !st.inQuotes
    ensures Run([d] + tail, st, d) == Run(tail, st.PushField(), d)
  {
    assert ([d] + tail)[1..] == tail;
  }

  /** The cells of a record, up to its ending: all but the last are pushed. */
  lemma {:induction false} RunCells(cells: seq<Cell>, rest: string, st: State, d: char)
    requires |cells| >= 1 && IsDelimiter(d) && forall c :: c in cells ==> LegalCell(c, d)
    requires st.field == "" && !st.inQuotes && !st.quoteClosed
    requires !StartsWith(rest, '"')
    ensures Run(PrintCells(cells, d) + rest, st, d) == Run(rest, AfterCells(cells, st), d)
    decreases |cells|
  {
    var c := cells[0];
    AfterCellsCons(cells, st);
    if |cells| == 1 {
      RunCell(c, rest, st, d);
    } else {
      var tail := PrintCells(cells[1..], d) + rest;
      Seqs.Assoc(PrintCell(c) + [d], PrintCells(cells[1..], d), rest);
      Seqs.Assoc(PrintCell(c), [d], tail);
      RunCell(c, [d] + tail, st, d);
      RunDelimiter(tail, st.(field := c.value, quoteClosed := c.quoted), d);
      RunCells(cells[1..], rest, st.(row := st.row + [c.value]), d);
    }
  }

  lemma {:induction false} ValuesSnoc(cells: seq<Cell>)
    requires |cells| >= 1
    ensures Values(cells[..|cells| - 1]) + [cells[|cells| - 1].value] == Values(cells)
  {
    if |cells| > 1 {
      ValuesSnoc(cells[1..]);
      assert cells[..|cells| - 1][1..] == cells[1..][..|cells| - 2];
    }
  }

  lemma LegalTail(rs: seq<Record>, d: char)
    requires LegalRecords(rs, d) && rs != []
    ensures LegalRecords(rs[1..], d)
    ensures rs[0].ending == EndOfText ==> rs[1..] == []
  {
    forall i | 0 <= i < |rs[1..]|
      ensures |rs[1..][i].cells| >= 1 && (forall c :: c in rs[1..][i].cells ==> LegalCell(c, d))
      ensures rs[1..][i].ending == EndOfText ==> i == |rs[1..]| - 1
    {
      assert rs[1..][i] == rs[i + 1];
    }
  }

  function Between(rows: Rows): State {
    State(rows, [], "", false, false)
  }

  /** What is left after a line ending: a line feed right after a carriage return goes with it. */
  function AfterEnding(e: Ending, rest: string): string {
    if e == CR && StartsWith(rest, '\n') then rest[1..] else rest
  }

  lemma RunEnding(e: Ending, rest: string, st: State, d: char)
    requires IsDelimiter(d) && !st.inQuotes && e != EndOfText
    ensures Run(PrintEnding(e) + rest, st, d) == Run(AfterEnding(e, rest), st.PushField().PushRow(), d)
  {
    var s := PrintEnding(e) + rest;
    match e
    case LF => assert s[1..] == rest;
    case CR =>
      assert s[1..] == rest;
      if StartsWith(rest, '\n') { assert s[2..] == rest[1..]; }
    case CRLF => assert s[1..][0] == '\n' && s[2..] == rest;
  }

  lemma PushedRecord(r: Record, rows: Rows)
    requires |r.cells| >= 1
    ensures AfterCells(r.cells, Between(rows)).PushField().PushRow() == Between(rows + [Values(r.cells)])
  {
    ValuesSnoc(r.cells);
    Seqs.EmptyLeft(Values(r.cells[..|r.cells| - 1]));
  }

  /** One record and its line ending, when that is not the end of the text. */
  lemma RunRecord(r: Record, rest: string, rows: Rows, d: char)
    requires IsDelimiter(d) && |r.cells| >= 1 && forall c :: c in r.cells ==> LegalCell(c, d)
    requires r.ending != EndOfText
    ensures Run(PrintCells(r.cells, d) + PrintEnding(r.ending) + rest, Between(rows), d)
         == Run(AfterEnding(r.ending, rest), Between(rows + [Values(r.cells)]), d)
  {
    Seqs.Assoc(PrintCells(r.cells, d), PrintEnding(r.ending), rest);
    RunCells(r.cells, PrintEnding(r.ending) + rest, Between(rows), d);
    RunEnding(r.ending, rest, AfterCells(r.cells, Between(rows)), d);
    PushedRecord(r, rows);
  }

  /** The last record, when nothing follows it. */
  lemma RunLast(r: Record, rows: Rows, d: char)
    requires IsDelimiter(d) && |r.cells| >= 1 && forall c :: c in r.cells ==> LegalCell(c, d)
    requires r.ending == EndOfText
    ensures Run(PrintCells(r.cells, d), Between(rows), d)
         == Ok(if Blank(r) then rows else rows + [Values(r.cells)])
  {
    assert PrintCells(r.cells, d) + "" == PrintCells(r.cells, d);
    RunCells(r.cells, "", Between(rows), d);
    ValuesSnoc(r.cells);
    var k := |r.cells| - 1;
    assert [] + Values(r.cells[..k]) == Values(r.cells[..k]);
    if k == 0 {
      assert r.cells == [r.cells[0]];
    } else {
      assert Values(r.cells[..k]) != [];
    }
  }

  /** A printed document starts with a line feed exactly when its first record is blank and ends in one. */
  lemma PrintHead(rs: seq<Record>, d: char)
    requires LegalRecords(rs, d) && IsDelimiter(d) && rs != []
    ensures StartsWith(Print(rs, d), '\n') <==> Blank(rs[0]) && rs[0].ending == LF
  {
    LegalTail(rs, d);
    var r := rs[0];
    var c := r.cells[0];
    assert LegalCell(c, d);
    if c == Cell("", false) && |r.cells| == 1 {
      assert r.cells == [c];
    } else if !c.quoted && c.value != "" {
      assert c.value[0] in c.value;
    }
  }

  /** The rows after the first record of a document. */
  function RowsAfter(r: Record, before: Ending, rows: Rows): Rows {
    if Lost(r, before == CR) then rows else rows + [Values(r.cells)]
  }

  lemma VisibleFirst(rs: seq<Record>, before: Ending, rows: Rows)
    requires rs != []
    ensures RowsAfter(rs[0], before, rows) + Visible(rs[1..], rs[0].ending == CR) == rows + Visible(rs, before == CR)
  {
    var tail := Visible(rs[1..], rs[0].ending == CR);
    var v := Values(rs[0].cells);
    Seqs.EmptyLeft(tail);
    Seqs.Assoc(rows, [v], tail);
  }

  lemma RunFirst(rs: seq<Record>, before: Ending, rows: Rows, d: char)
    requires LegalRecords(rs, d) && IsDelimiter(d) && rs != []
    ensures Run(AfterEnding(before, Print(rs, d)), Between(rows), d)
         == if rs[0].ending == EndOfText then Ok(RowsAfter(rs[0], before, rows))
            else Run(AfterEnding(rs[0].ending, Print(rs[1..], d)), Between(RowsAfter(rs[0], before, rows)), d)
  {
    LegalTail(rs, d);
    PrintHead(rs, d);
    var r, tail, s := rs[0], rs[1..], Print(rs, d);
    if before == CR && StartsWith(s, '\n') {
      assert s[1..] == Print(tail, d);
    } else if r.ending == EndOfText {
      assert s == PrintCells(r.cells, d);
      RunLast(r, rows, d);
    } else {
      RunRecord(r, Print(tail, d), rows, d);
    }
  }

  lemma {:induction false} RunRecords(rs: seq<Record>, before: Ending, rows: Rows, d: char)
    requires LegalRecords(rs, d) && IsDelimiter(d)
    ensures Run(AfterEnding(before, Print(rs, d)), Between(rows), d) == Ok(rows + Visible(rs, before == CR))
    decreases |rs|
  {
    if rs == [] {
      assert rows + [] == rows;
    } else {
      LegalTail(rs, d);
      RunFirst(rs, before, rows, d);
      var next := RowsAfter(rs[0], before, rows);
      VisibleFirst(rs, before, rows);
      if rs[0].ending == EndOfText {
        assert next + [] == next;
      } else {
        RunRecords(rs[1..], rs[0].ending, next, d);
      }
    }
  }

  lemma {:induction false} VisibleIsAllIffLosesNone(rs: seq<Record>, afterCR: bool)
    ensures |Visible(rs, afterCR)| <= |rs| == |AllValues(rs)|
    ensures LosesNone(rs, afterCR) ==> Visible(rs, afterCR) == AllValues(rs)
    ensures !LosesNone(rs, afterCR) ==> |Visible(rs, afterCR)| < |rs|
  {
    if rs != [] { VisibleIsAllIffLosesNone(rs[1..], rs[0].ending == CR); }
  }

  /**
    Reading a printed document back, for any quoting, any mix of line endings
    and with or without the last one: never an error, and exactly the printed
    rows if and only if no record is lost.
   */
  lemma ParseOfPrint(rs: seq<Record>, d: char)
    requires LegalRecords(rs, d) && IsDelimiter(d)
    ensures ParseSpec(Print(rs, d), d) == Ok(Visible(rs, false))
    ensures ParseSpec(Print(rs, d), d) == Ok(AllValues(rs)) <==> LosesNone(rs, false)
  {
    RunRecords(rs, LF, [], d);
    assert [] + Visible(rs, false) == Visible(rs, false);
    VisibleIsAllIffLosesNone(rs, false);
  }

  lemma {:induction false} UniformLosesNone(rs: seq<Record>, e: Ending, afterCR: bool)
    requires e != EndOfText && forall r :: r in rs ==> r.ending == e
    requires afterCR ==> e == CR
    ensures LosesNone(rs, afterCR)
  {
    if rs != [] {
      assert rs[0] in rs && forall r :: r in rs[1..] ==> r in rs;
      UniformLosesNone(rs[1..], e, e == CR);
    }
  }

  /** The same ending after every record: the round trip is exact. */
  lemma UniformRoundTrip(rs: seq<Record>, e: Ending, d: char)
    requires LegalRecords(rs, d) && IsDelimiter(d) && e != EndOfText
    requires forall r :: r in rs ==> r.ending == e
    ensures ParseSpec(Print(rs, d), d) == Ok(AllValues(rs))
  {
    UniformLosesNone(rs, e, false);
    ParseOfPrint(rs, d);
  }

  /** Mixed endings can lose a row: CR and then a blank record ended by LF read as one CRLF. */
  lemma MixedEndingsLoseARow()
    ensures var rs := [Record([Cell("a", false)], CR), Record([Cell("", false)], LF)];
            ParseSpec(Print(rs, ','), ',') == Ok([["a"]]) && AllValues(rs) == [["a"], [""]]
  {
    hide ParseSpec, Print;
    var a, b := Record([Cell("a", false)], CR), Record([Cell("", false)], LF);
    var rs := [a, b];
    assert rs[1..] == [b] && [b][1..] == [];
    assert LegalRecords(rs, ',');
    ParseOfPrint(rs, ',');
    assert Lost(b, true) && !Lost(a, false);
    assert Visible([b], true) == [];
    assert Visible(rs, false) == [Values(a.cells)] + Visible([b], true);
    assert AllValues(rs) == [Values(a.cells)] + AllValues([b]);
    assert Values(a.cells) == ["a"] by { assert a.cells[1..] == []; }
    assert Values(b.cells) == [""] by { assert b.cells[1..] == []; }
    assert AllValues([b]) == [[""]];
    assert [["a"]] + [[""]] == [["a"], [""]];
    assert [["a"]] + [] == [["a"]];
  }

  // -------- every accepted payload is a printed document --------

  predicate EndsCell(rest: string, d: char) {
    rest == "" || rest[0] == d || rest[0] == '\n' || rest[0] == '\r'
  }

  lemma QuotedTurn(s: string, st: State, d: char)
    requires st.inQuotes && s != ""
    ensures var st' := st.(field := st.field + [s[0]]);
            Run(s, st, d) == if s[0] != '"' then Run(s[1..], st', d)
                             else if StartsWith(s[1..], '"') then Run(s[2..], st', d)
                             else Run(s[1..], st.(inQuotes := false, quoteClosed := true), d)
  {
    assert "\"" == ['"'];
  }

  lemma ClosedTurn(s: string, st: State, d: char)
    requires !st.inQuotes && st.quoteClosed && Run(s, st, d).Ok?
    ensures EndsCell(s, d)
  {
  }

  lemma OpenEndFails(st: State, d: char)
    requires st.inQuotes
    ensures Run("", st, d).Err?
  {
  }

  lemma DoubleQuotesCons(c: char, v: string)
    ensures DoubleQuotes([c] + v) == (if c == '"' then "\"\"" else [c]) + DoubleQuotes(v)
  {
    assert ([c] + v)[1..] == v;
  }

  lemma {:induction false} AcceptedQuoted(s: string, st: State, d: char) returns (v: string, rest: string)
    requires IsDelimiter(d) && st.inQuotes && Run(s, st, d).Ok?
    ensures s == DoubleQuotes(v) + "\"" + rest && EndsCell(rest, d)
    ensures Run(rest, st.(field := st.field + v, inQuotes := false, quoteClosed := true), d).Ok?
    decreases |s|
  {
    if s == "" { OpenEndFails(st, d); }
    QuotedTurn(s, st, d);
    assert DoubleQuotes("") == "";
    hide Run, DoubleQuotes, EndsCell;
    var c, st' := s[0], st.(field := st.field + [s[0]]);
    if c == '"' && !StartsWith(s[1..], '"') {
      v, rest := "", s[1..];
      assert st.field + "" == st.field;
      ClosedTurn(rest, st.(inQuotes := false, quoteClosed := true), d);
    } else {
      var tail := if c == '"' then s[2..] else s[1..];
      var more;
      more, rest := AcceptedQuoted(tail, st', d);
      v := [c] + more;
      Seqs.Assoc(st.field, [c], more);
      DoubleQuotesCons(c, more);
      var front := if c == '"' then "\"\"" else [c];
      assert s == front + tail;
      Seqs.Assoc(front, DoubleQuotes(more) + "\"", rest);
      Seqs.Assoc(front, DoubleQuotes(more), "\"");
    }
  }

  lemma {:induction false} AcceptedPlain(s: string, st: State, d: char) returns (v: string, rest: string)
    requires IsDelimiter(d) && !st.inQuotes && !st.quoteClosed && Run(s, st, d).Ok?
    requires StartsWith(s, '"') ==> st.field != ""
    ensures s == v + rest && EndsCell(rest, d) && forall x :: x in v ==> !Special(x, d)
    ensures Run(rest, st.(field := st.field + v), d).Ok?
    decreases |s|
  {
    if EndsCell(s, d) {
      v, rest := "", s;
      assert st.field + "" == st.field;
    } else {
      var st' := st.(field := st.field + [s[0]]);
      v, rest := AcceptedPlain(s[1..], st', d);
      Seqs.Assoc(st.field, [s[0]], v);
      v := [s[0]] + v;
      assert s == [s[0]] + s[1..];
    }
  }

  lemma AcceptedCell(s: string, st: State, d: char) returns (c: Cell, rest: string)
    requires IsDelimiter(d) && st.field == "" && !st.inQuotes && !st.quoteClosed && Run(s, st, d).Ok?
    ensures LegalCell(c, d) && s == PrintCell(c) + rest && EndsCell(rest, d)
    ensures Run(rest, st.(field := c.value, quoteClosed := c.quoted), d).Ok?
  {
    if StartsWith(s, '"') {
      var v;
      v, rest := AcceptedQuoted(s[1..], st.(inQuotes := true), d);
      c := Cell(v, true);
      assert s == "\"" + s[1..] && "" + v == v;
    } else {
      var v;
      v, rest := AcceptedPlain(s, st, d);
      c := Cell(v, false);
      assert "" + v == v;
    }
  }

  /** What stands at the end of a record, and what the machine goes on with. */
  lemma AcceptedEnding(s: string, st: State, d: char) returns (e: Ending, rest: string)
    requires IsDelimiter(d) && !st.inQuotes && Run(s, st, d).Ok? && EndsCell(s, d) && !StartsWith(s, d)
    ensures s == PrintEnding(e) + rest && (e == EndOfText <==> s == "")
    ensures e != EndOfText ==> Run(rest, st.PushField().PushRow(), d).Ok?
  {
    if s == "" {
      e, rest := EndOfText, "";
    } else if s[0] == '\n' {
      e, rest := LF, s[1..];
      assert s == "\n" + rest;
    } else if StartsWith(s[1..], '\n') {
      e, rest := CRLF, s[2..];
      assert s == "\r\n" + rest;
    } else {
      e, rest := CR, s[1..];
      assert s == "\r" + rest;
    }
  }

  lemma {:induction false} AcceptedRecord(s: string, st: State, d: char) returns (r: Record, rest: string, rows: Rows)
    requires IsDelimiter(d) && st.field == "" && !st.inQuotes && !st.quoteClosed && Run(s, st, d).Ok?
    ensures s == PrintCells(r.cells, d) + PrintEnding(r.ending) + rest
    ensures |r.cells| >= 1 && forall c :: c in r.cells ==> LegalCell(c, d)
    ensures r.ending == EndOfText ==> rest == ""
    ensures r.ending != EndOfText ==> |rest| < |s| && Run(rest, Between(rows), d).Ok?
    decreases |s|
  {
    var c, tail := AcceptedCell(s, st, d);
    var closed := st.(field := c.value, quoteClosed := c.quoted);
    hide Run, LegalCell, PrintCell, PrintCells, PrintEnding;
    if StartsWith(tail, d) {
      AcceptedDelimiter(tail, closed, d);
      var more;
      more, rest, rows := AcceptedRecord(tail[1..], closed.PushField(), d);
      r := Record([c] + more.cells, more.ending);
      PrintCellsCons(c, more.cells, d, PrintEnding(more.ending) + rest);
      Seqs.Assoc(PrintCells(more.cells, d), PrintEnding(more.ending), rest);
      Seqs.Assoc(PrintCells(r.cells, d), PrintEnding(more.ending), rest);
    } else {
      var e;
      e, rest := AcceptedEnding(tail, closed, d);
      r := Record([c], e);
      rows := st.rows + [st.row + [c.value]];
      assert closed.PushField().PushRow() == Between(rows);
      PrintOneCell(c, d);
      Seqs.Assoc(PrintCell(c), PrintEnding(e), rest);
    }
  }

  lemma PrintOneCell(c: Cell, d: char)
    ensures PrintCells([c], d) == PrintCell(c)
  {
  }

  lemma PrintCellsCons(c: Cell, cells: seq<Cell>, d: char, rest: string)
    requires |cells| >= 1
    ensures PrintCells([c] + cells, d) + rest == PrintCell(c) + ([d] + (PrintCells(cells, d) + rest))
  {
    assert ([c] + cells)[1..] == cells;
  }

  lemma AcceptedDelimiter(s: string, st: State, d: char)
    requires IsDelimiter(d) && !st.inQuotes && StartsWith(s, d) && Run(s, st, d).Ok?
    ensures s == [d] + s[1..] && Run(s[1..], st.PushField(), d).Ok?
  {
  }

  lemma {:induction false} AcceptedRecords(s: string, rows: Rows, d: char) returns (rs: seq<Record>)
    requires IsDelimiter(d) && Run(s, Between(rows), d).Ok?
    ensures LegalRecords(rs, d) && Print(rs, d) == s
    decreases |s|
  {
    if s == "" {
      rs := [];
    } else {
      var r, rest, after := AcceptedRecord(s, Between(rows), d);
      hide Run, LegalCell, PrintCells;
      var tail := [];
      if r.ending != EndOfText { tail := AcceptedRecords(rest, after, d); }
      rs := [r] + tail;
      assert rs[1..] == tail;
      assert rest == Print(tail, d);
    }
  }

  /** The reader accepts exactly the printed documents; ParseOfPrint says which rows it finds in them. */
  lemma AcceptedIffPrinted(payload: string, d: char)
    requires IsDelimiter(d)
    ensures ParseSpec(payload, d).Ok? <==> exists rs :: LegalRecords(rs, d) && Print(rs, d) == payload
  {
    hide Run, LegalRecords, Print;
    if ParseSpec(payload, d).Ok? {
      var rs := AcceptedRecords(payload, [], d);
      assert LegalRecords(rs, d) && Print(rs, d) == payload;
    } else if exists rs :: LegalRecords(rs, d) && Print(rs, d) == payload {
      var rs :| LegalRecords(rs, d) && Print(rs, d) == payload;
      ParseOfPrint(rs, d);
    }
  }

  // -------- every accepted payload --------

  lemma {:induction false} RunKeepsRowsNonEmpty(s: string, st: State, d: char)
    requires forall r :: r in st.rows ==> r != []
    ensures Run(s, st, d).Ok? ==> forall r :: r in Run(s, st, d).value ==> r != []
    decreases |s|
  {
    if s != "" {
      var m := Turn(st, d, s[0], StartsWith(s[1..], '"'), StartsWith(s[1..], '\n'));
      if m.Advance? { RunKeepsRowsNonEmpty(s[m.width..], m.state, d); }
    }
  }

  function Quote(row: seq<string>): (r: seq<Cell>)
    ensures |r| == |row| && Values(r) == row
    ensures forall c :: c in r ==> c.quoted
  {
    if row == [] then [] else [Cell(row[0], true)] + Quote(row[1..])
  }

  function QuoteAll(rows: Rows): (r: seq<Record>)
    ensures |r| == |rows| && AllValues(r) == rows
    ensures forall i :: 0 <= i < |r| ==> r[i] == Record(Quote(rows[i]), LF)
  {
    if rows == [] then [] else [Record(Quote(rows[0]), LF)] + QuoteAll(rows[1..])
  }

  /** Whatever the reader accepts can be written in a plain form that it reads as the same rows. */
  lemma AcceptedPayloadsReprint(payload: string, d: char)
    requires IsDelimiter(d) && ParseSpec(payload, d).Ok?
    ensures var rows := ParseSpec(payload, d).value;
            && (forall r :: r in rows ==> r != [])
            && ParseSpec(Print(QuoteAll(rows), d), d) == Ok(rows)
  {
    RunKeepsRowsNonEmpty(payload, START, d);
    var rows := ParseSpec(payload, d).value;
    forall i | 0 <= i < |rows| ensures Quote(rows[i]) != [] {
      assert rows[i] in rows;
    }
    UniformRoundTrip(QuoteAll(rows), LF, d);
  }
}
