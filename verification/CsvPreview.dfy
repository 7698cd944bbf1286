/**
  The preview of an uploaded CSV file: parseCSVPreview
  (apps/web/src/features/data-sources/preview.ts) over the record machine.
 */
module CsvPreview {
  import opened Wrappers
  import opened CsvRecords

  const MAX_ROWS := 20
  const MAX_COLUMNS := 20

  /** A text assigned to this property of an object is ignored. */
  const PROTO := "__proto__"

  datatype Preview = Preview(columns: seq<string>, rows: seq<map<string, string>>, truncated: bool)

  function Min(a: nat, b: nat): nat {
    if a <= b then a else b
  }

  /** trimBOM. */
  function WithoutMark(payload: string): string {
    if payload != "" && payload[0] == '\U{FEFF}' then payload[1..] else payload
  }

  /** A byte order mark is dropped, once, and nothing else. */
  lemma OneMarkIsDropped(text: string)
    ensures WithoutMark("\U{FEFF}" + text) == text
    ensures text != "" && text[0] != '\U{FEFF}' ==> WithoutMark(text) == text
    ensures WithoutMark("") == ""
  {
  }

  /** Trimmed column names are not blank and differ from each other. */
  ghost predicate GoodHeader(header: seq<string>, trim: string -> string) {
    && (forall i :: 0 <= i < |header| ==> trim(header[i]) != "")
    && (forall i, j :: 0 <= i < j < |header| ==> trim(header[i]) != trim(header[j]))
  }

  /** A header and at least one row, all rows as wide as the header. */
  ghost predicate GoodTable(records: Rows, trim: string -> string) {
    && |records| >= 2 && records[0] != [] && GoodHeader(records[0], trim)
    && forall i :: 1 <= i < |records| ==> |records[i]| == |records[0]|
  }

  /** The row shows its trimmed fields under the trimmed names of the first columns, but PROTO, and nothing else. */
  ghost predicate Shows(shown: map<string, string>, header: seq<string>, row: seq<string>, trim: string -> string)
    requires |row| == |header|
  {
    && PROTO !in shown
    && (forall c :: 0 <= c < Min(|header|, MAX_COLUMNS) && trim(header[c]) != PROTO ==>
                      trim(header[c]) in shown && shown[trim(header[c])] == trim(row[c]))
    && (forall name :: name in shown ==> exists c :: 0 <= c < Min(|header|, MAX_COLUMNS) && trim(header[c]) == name)
  }

  ghost predicate PreviewOf(p: Preview, records: Rows, trim: string -> string)
    requires GoodTable(records, trim)
  {
    var header := records[0];
    && |p.columns| == Min(|header|, MAX_COLUMNS)
    && (forall c :: 0 <= c < |p.columns| ==> p.columns[c] == trim(header[c]))
    && |p.rows| == Min(|records| - 1, MAX_ROWS)
    && (forall i :: 0 <= i < |p.rows| ==> Shows(p.rows[i], header, records[i + 1], trim))
    && (p.truncated <==> |header| > MAX_COLUMNS || |records| - 1 > MAX_ROWS)
  }

  /** No more than twenty columns and twenty rows are shown, and `truncated` says whether that is all. */
  ghost predicate ShowsTwenty(p: Preview, columns: nat, rows: int) {
    && |p.columns| == (if columns <= 20 then columns else 20)
    && |p.rows| == (if rows <= 20 then rows else 20)
    && (p.truncated <==> columns > 20 || rows > 20)
  }

  /** The loop over the header row. */
  method NormalizeHeader(header: seq<string>, trim: string -> string) returns (r: Option<seq<string>>)
    ensures r.Some? <==> GoodHeader(header, trim)
    ensures r.Some? ==> |r.value| == |header| && forall i :: 0 <= i < |header| ==> r.value[i] == trim(header[i])
  {
    var normalized: seq<string> := [];
    var seen: set<string> := {};
    for i := 0 to |header|
      invariant |normalized| == i
      invariant forall j :: 0 <= j < i ==>
                  normalized[j] == trim(header[j]) && normalized[j] != "" && normalized[j] in seen
      invariant forall value :: value in seen ==> exists j :: 0 <= j < i && trim(header[j]) == value
      invariant forall j, k :: 0 <= j < k < i ==> trim(header[j]) != trim(header[k])
    {
      var value := trim(header[i]);
      if value == "" {
        return None;
      }
      if value in seen {
        return None;
      }
      seen := seen + {value};
      normalized := normalized + [value];
    }
    return Some(normalized);
  }

  /** The loop over the columns of one row. */
  method ShowRow(header: seq<string>, names: seq<string>, row: seq<string>, trim: string -> string)
    returns (shown: map<string, string>)
    requires |row| == |header| && GoodHeader(header, trim)
    requires |names| == |header| && forall i :: 0 <= i < |header| ==> names[i] == trim(header[i])
    ensures Shows(shown, header, row, trim)
  {
    shown := map[];
    for c := 0 to Min(|header|, MAX_COLUMNS)
      invariant PROTO !in shown
      invariant forall k :: 0 <= k < c && trim(header[k]) != PROTO ==>
                              trim(header[k]) in shown && shown[trim(header[k])] == trim(row[k])
      invariant forall name :: name in shown ==> exists k :: 0 <= k < c && trim(header[k]) == name
    {
      if names[c] != PROTO {
        shown := shown[names[c] := trim(row[c])];
      }
    }
  }

  /** parseCSVPreview: a preview exactly of the payloads that hold a good table, and then of that table. */
  method ParsePreview(payloadRaw: string, delimiter: char, trim: string -> string) returns (r: Option<Preview>)
    requires IsDelimiter(delimiter)
    ensures var parsed := ParseSpec(WithoutMark(payloadRaw), delimiter);
            && (r.Some? <==> parsed.Ok? && GoodTable(parsed.value, trim))
            && (r.Some? ==> PreviewOf(r.value, parsed.value, trim))
            && (r.Some? ==> ShowsTwenty(r.value, |parsed.value[0]|, |parsed.value| - 1))
  {
    hide ParseSpec;
    var parsed := ParseRecords(WithoutMark(payloadRaw), delimiter);
    if parsed.Err? || |parsed.value| == 0 || |parsed.value[0]| == 0 {
      return None;
    }
    var records := parsed.value;
    var header := records[0];
    var names := NormalizeHeader(header, trim);
    if names.None? || |records| == 1 {
      return None;
    }
    hide GoodHeader;
    var rows: seq<map<string, string>> := [];
    for i := 1 to |records|
      invariant forall j :: 1 <= j < i ==> |records[j]| == |header|
      invariant |rows| == Min(i - 1, MAX_ROWS)
      invariant forall j :: 0 <= j < |rows| ==> Shows(rows[j], header, records[j + 1], trim)
    {
      hide Shows;
      if |records[i]| != |header| {
        return None;
      }
      if i - 1 < MAX_ROWS {
        var shown := ShowRow(header, names.value, records[i], trim);
        rows := rows + [shown];
      }
    }
    return Some(Preview(names.value[..Min(|header|, MAX_COLUMNS)], rows,
                        |header| > MAX_COLUMNS || |records| - 1 > MAX_ROWS));
  }

  /** The visible parts agree after trimming: shape, column names, and every shown cell. */
  ghost predicate SameVisible(a: Rows, b: Rows, trim: string -> string)
    requires GoodTable(a, trim) && GoodTable(b, trim)
  {
    && Min(|a[0]|, MAX_COLUMNS) == Min(|b[0]|, MAX_COLUMNS) && Min(|a| - 1, MAX_ROWS) == Min(|b| - 1, MAX_ROWS)
    && (|a[0]| > MAX_COLUMNS || |a| - 1 > MAX_ROWS <==> |b[0]| > MAX_COLUMNS || |b| - 1 > MAX_ROWS)
    && (forall c :: 0 <= c < Min(|a[0]|, MAX_COLUMNS) ==> trim(a[0][c]) == trim(b[0][c]))
    && forall i, c :: 1 <= i <= Min(|a| - 1, MAX_ROWS) && 0 <= c < Min(|a[0]|, MAX_COLUMNS)
                      && trim(a[0][c]) != PROTO ==>
                        trim(a[i][c]) == trim(b[i][c])
  }

  lemma SameShown(shown: map<string, string>, ha: seq<string>, a: seq<string>, hb: seq<string>, b: seq<string>,
                  trim: string -> string)
    requires |a| == |ha| && |b| == |hb| && Min(|ha|, MAX_COLUMNS) == Min(|hb|, MAX_COLUMNS)
    requires forall c :: 0 <= c < Min(|ha|, MAX_COLUMNS) ==> trim(ha[c]) == trim(hb[c])
    requires Shows(shown, ha, a, trim)
    ensures Shows(shown, hb, b, trim)
            <==> forall c :: 0 <= c < Min(|ha|, MAX_COLUMNS) && trim(ha[c]) != PROTO ==> trim(a[c]) == trim(b[c])
  {
  }

  lemma SamePreview(p: Preview, a: Rows, b: Rows, trim: string -> string)
    requires GoodTable(a, trim) && GoodTable(b, trim) && PreviewOf(p, a, trim) && SameVisible(a, b, trim)
    ensures PreviewOf(p, b, trim)
  {
    hide GoodHeader, Shows;
    forall i | 0 <= i < |p.rows| ensures Shows(p.rows[i], b[0], b[i + 1], trim) {
      SameShown(p.rows[i], a[0], a[i + 1], b[0], b[i + 1], trim);
    }
  }

  lemma SameTable(p: Preview, a: Rows, b: Rows, trim: string -> string)
    requires GoodTable(a, trim) && GoodTable(b, trim) && PreviewOf(p, a, trim) && PreviewOf(p, b, trim)
    ensures SameVisible(a, b, trim)
  {
    hide GoodHeader, Shows;
    forall c | 0 <= c < Min(|a[0]|, MAX_COLUMNS) ensures trim(a[0][c]) == trim(b[0][c]) {
      assert p.columns[c] == trim(a[0][c]) == trim(b[0][c]);
    }
    forall i, c | 1 <= i <= Min(|a| - 1, MAX_ROWS) && 0 <= c < Min(|a[0]|, MAX_COLUMNS) && trim(a[0][c]) != PROTO
      ensures trim(a[i][c]) == trim(b[i][c])
    {
      assert Shows(p.rows[i - 1], a[0], a[i], trim) && Shows(p.rows[i - 1], b[0], b[i], trim);
      SameShown(p.rows[i - 1], a[0], a[i], b[0], b[i], trim);
    }
  }

  /**
    A preview determines the visible part of its table and nothing more: exactly the tables that
    agree there share it.
   */
  lemma PreviewDeterminesTable(p: Preview, a: Rows, b: Rows, trim: string -> string)
    requires GoodTable(a, trim) && GoodTable(b, trim) && PreviewOf(p, a, trim)
    ensures PreviewOf(p, b, trim) <==> SameVisible(a, b, trim)
  {
    if PreviewOf(p, b, trim) {
      SameTable(p, a, b, trim);
    } else if SameVisible(a, b, trim) {
      SamePreview(p, a, b, trim);
    }
  }

  // -------- the column that is not shown --------

  /** Every visible cell is shown, trimmed, under the name of its column. */
  ghost predicate ShowsEveryCell(p: Preview, records: Rows, trim: string -> string)
    requires GoodTable(records, trim) && PreviewOf(p, records, trim)
  {
    forall i, c :: 0 <= i < |p.rows| && 0 <= c < |p.columns| ==>
                     CellIsShown(p.rows[i], p.columns[c], trim(records[i + 1][c]))
  }

  predicate CellIsShown(shown: map<string, string>, name: string, value: string) {
    name in shown && shown[name] == value
  }

  /** That is so exactly if no visible column has the name that cannot be assigned to. */
  lemma EveryCellIsShownIff(p: Preview, records: Rows, trim: string -> string)
    requires GoodTable(records, trim) && PreviewOf(p, records, trim)
    ensures ShowsEveryCell(p, records, trim) <==> PROTO !in p.columns
  {
    hide GoodHeader;
    var header := records[0];
    assert Shows(p.rows[0], header, records[1], trim);
    if PROTO in p.columns {
      var c :| 0 <= c < |p.columns| && p.columns[c] == PROTO;
      assert !CellIsShown(p.rows[0], p.columns[c], trim(records[1][c]));
    } else {
      forall i, c | 0 <= i < |p.rows| && 0 <= c < |p.columns|
        ensures CellIsShown(p.rows[i], p.columns[c], trim(records[i + 1][c]))
      {
        assert p.columns[c] in p.columns && Shows(p.rows[i], header, records[i + 1], trim);
      }
    }
  }

  /** The file "__proto__", "x", one record a line: its preview names the column and shows an empty row. */
  lemma ProtoCellIsNotShown(trim: string -> string, p: Preview)
    requires trim(PROTO) == PROTO
    ensures var rs := [Record([Cell(PROTO, false)], LF), Record([Cell("x", false)], LF)];
            var table := [[PROTO], ["x"]];
            && ParseSpec(WithoutMark(Print(rs, ',')), ',') == Ok(table) && GoodTable(table, trim)
            && (PreviewOf(p, table, trim) ==> p.columns == [PROTO] && p.rows == [map[]])
  {
    var rs := [Record([Cell(PROTO, false)], LF), Record([Cell("x", false)], LF)];
    PrintStarts(rs[0], rs[1..], ',');
    ProtoFile();
    hide ParseSpec, Print;
    var table := [[PROTO], ["x"]];
    if PreviewOf(p, table, trim) {
      assert Shows(p.rows[0], table[0], table[1], trim);
      assert p.rows[0] == map[];
    }
  }

  lemma PrintStarts(r: Record, rest: seq<Record>, d: char)
    requires r.cells == [Cell(PROTO, false)]
    ensures Print([r] + rest, d) != "" && Print([r] + rest, d)[0] == '_'
  {
  }

  lemma ProtoFile()
    ensures var rs := [Record([Cell(PROTO, false)], LF), Record([Cell("x", false)], LF)];
            ParseSpec(Print(rs, ','), ',') == Ok([[PROTO], ["x"]])
  {
    hide ParseSpec, Print;
    var a, b := Record([Cell(PROTO, false)], LF), Record([Cell("x", false)], LF);
    var rs := [a, b];
    UniformRoundTrip(rs, LF, ',');
    assert rs[1..] == [b] && [b][1..] == [];
    assert Values(a.cells) == [PROTO] by { assert a.cells[1..] == []; }
    assert Values(b.cells) == ["x"] by { assert b.cells[1..] == []; }
    assert AllValues([b]) == [["x"]];
    assert AllValues(rs) == [Values(a.cells)] + AllValues([b]);
    assert [[PROTO]] + [["x"]] == [[PROTO], ["x"]];
  }
}
