/**
  The CSV export of src/modules/shipments/shipments.service.ts, read back by the
  rules of RFC 4180 section 2 with LF as the line break.
 */
module Csv {
  import opened Common

  const HEADERS: seq<string> :=
    ["_id", "trackingNumber", "origin", "destination", "status", "createdAt", "updatedAt"]

  /** A shipment as the writer sees it: one cell per header, None where the field
      is null or missing. */
  type Row = cells: seq<Option<string>> | |cells| == |HEADERS| witness seq(7, _ => None)

  // ------------------------------------------------------------------ writing

  function Doubled(s: string): string {
    if s == [] then [] else (if s[0] == '"' then "\"\"" else [s[0]]) + Doubled(s[1..])
  }

  function CellText(cell: Option<string>): string {
    match cell
    case Some(s) => s
    case None => ""
  }

  function Quoted(cell: string): string {
    "\"" + (Doubled(cell) + "\"")
  }

  function Join(parts: seq<string>, separator: char): string
    requires parts != []
  {
    if |parts| == 1 then parts[0] else parts[0] + ([separator] + Join(parts[1..], separator))
  }

  function RowText(row: seq<string>): string
    requires row != []
  {
    Join(seq(|row|, i requires 0 <= i < |row| => Quoted(row[i])), ',')
  }

  /** The strings an export shows. */
  function Cells(shipments: seq<Row>): (rows: seq<seq<string>>)
    ensures forall i :: 0 <= i < |rows| ==> |rows[i]| == |HEADERS|
  {
    seq(|shipments|, i requires 0 <= i < |shipments| =>
      seq(|HEADERS|, j requires 0 <= j < |HEADERS| => CellText(shipments[i][j])))
  }

  function RowTexts(rows: seq<seq<string>>): seq<string>
    requires forall i :: 0 <= i < |rows| ==> rows[i] != []
  {
    seq(|rows|, i requires 0 <= i < |rows| => RowText(rows[i]))
  }

  function CsvOf(rows: seq<seq<string>>): string
    requires forall i :: 0 <= i < |rows| ==> rows[i] != []
  {
    Join([Join(HEADERS, ',')] + RowTexts(rows), '\n')
  }

  function ShipmentsToCsv(shipments: seq<Row>): string {
    CsvOf(Cells(shipments))
  }

  // ------------------------------------------------------------------ reading

  /** A field and what follows it; None for text that is not a field. */
  type Parsed<T> = Option<(T, string)>

  function ParseQuoted(s: string): (r: Parsed<string>)
    ensures r.Some? ==> |r.value.1| < |s|
  {
    if s == [] then None
    else if s[0] != '"' then
      match ParseQuoted(s[1..])
      case None => None
      case Some((field, rest)) => Some(([s[0]] + field, rest))
    else if |s| > 1 && s[1] == '"' then
      match ParseQuoted(s[2..])
      case None => None
      case Some((field, rest)) => Some(("\"" + field, rest))
    else Some(("", s[1..]))
  }

  predicate IsPlain(c: char) {
    c != '"' && c != ',' && c != '\n'
  }

  function ParsePlain(s: string): (r: (string, string))
    ensures |r.1| <= |s|
  {
    if s == [] || !IsPlain(s[0]) then ("", s)
    else var (field, rest) := ParsePlain(s[1..]); ([s[0]] + field, rest)
  }

  function ParseField(s: string): (r: Parsed<string>)
    ensures r.Some? ==> |r.value.1| <= |s|
  {
    if s != [] && s[0] == '"' then ParseQuoted(s[1..]) else Some(ParsePlain(s))
  }

  /** Fields separated by commas, up to a line break or the end. */
  function ParseRecord(s: string): (r: Parsed<seq<string>>)
    ensures r.Some? ==> |r.value.1| <= |s|
    ensures r.Some? && r.value.1 != [] ==> r.value.1[0] == '\n'
    decreases |s|
  {
    match ParseField(s)
    case None => None
    case Some((field, rest)) =>
      if rest == [] || rest[0] == '\n' then Some(([field], rest))
      else if rest[0] != ',' then None
      else
        match ParseRecord(rest[1..])
        case None => None
        case Some((fields, after)) => Some(([field] + fields, after))
  }

  /** Records separated by line breaks. */
  function ParseFile(s: string): Option<seq<seq<string>>>
    decreases |s|
  {
    match ParseRecord(s)
    case None => None
    case Some((record, rest)) =>
      if rest == [] then Some([record])
      else
        match ParseFile(rest[1..])
        case None => None
        case Some(records) => Some([record] + records)
  }

  // --------------------------------------------------------------- round trip

  predicate EndsField(rest: string) {
    rest == [] || rest[0] == ',' || rest[0] == '\n'
  }

  lemma {:induction false} QuotedReadsBack(cell: string, rest: string)
    requires EndsField(rest)
    ensures ParseQuoted(Doubled(cell) + ("\"" + rest)) == Some((cell, rest))
  {
    var text := Doubled(cell) + ("\"" + rest);
    if cell == [] {
      assert text == "\"" + rest;
      assert text[1..] == rest;
    } else {
      var tail := Doubled(cell[1..]) + ("\"" + rest);
      QuotedReadsBack(cell[1..], rest);
      assert cell == [cell[0]] + cell[1..];
      if cell[0] == '"' {
        assert text == "\"\"" + tail;
        assert text[2..] == tail;
      } else {
        assert text == [cell[0]] + tail;
        assert text[1..] == tail;
      }
    }
  }

  lemma FieldReadsBack(cell: string, rest: string)
    requires EndsField(rest)
    ensures ParseField(Quoted(cell) + rest) == Some((cell, rest))
  {
    var text := Quoted(cell) + rest;
    assert text == "\"" + (Doubled(cell) + ("\"" + rest));
    assert text[1..] == Doubled(cell) + ("\"" + rest);
    QuotedReadsBack(cell, rest);
  }

  lemma {:induction false} PlainReadsBack(field: string, rest: string)
    requires (forall c :: c in field ==> IsPlain(c)) && EndsField(rest)
    ensures ParsePlain(field + rest) == (field, rest)
  {
    if field == [] {
      assert field + rest == rest;
    } else {
      assert field[0] in field;
      assert (field + rest)[1..] == field[1..] + rest;
      PlainReadsBack(field[1..], rest);
      assert field == [field[0]] + field[1..];
    }
  }

  /** `texts[i]`, followed by anything that ends a field, reads as `cells[i]`. */
  ghost predicate ReadsAs(texts: seq<string>, cells: seq<string>) {
    |texts| == |cells| && forall i :: 0 <= i < |texts| ==> FieldReadsAs(texts[i], cells[i])
  }

  ghost predicate FieldReadsAs(text: string, cell: string) {
    forall rest :: EndsField(rest) ==> ParseField(text + rest) == Some((cell, rest))
  }

  lemma JoinedText(texts: seq<string>, rest: string)
    requires |texts| > 1
    ensures Join(texts, ',') + rest == texts[0] + ([','] + (Join(texts[1..], ',') + rest))
  {
    Regroup(texts[0], [','] + Join(texts[1..], ','), rest);
    Regroup([','], Join(texts[1..], ','), rest);
  }

  lemma FieldThen(text: string, cell: string, others: string)
    requires FieldReadsAs(text, cell)
    ensures ParseRecord(text + ([','] + others)) ==
            match ParseRecord(others)
            case None => None
            case Some((fields, after)) => Some(([cell] + fields, after))
  {
    assert ParseField(text + ([','] + others)) == Some((cell, [','] + others));
    assert ([','] + others)[1..] == others;
  }

  lemma {:induction false} RecordReadsBack(texts: seq<string>, cells: seq<string>, rest: string)
    requires texts != [] && ReadsAs(texts, cells) && (rest == [] || rest[0] == '\n')
    ensures ParseRecord(Join(texts, ',') + rest) == Some((cells, rest))
  {
    assert FieldReadsAs(texts[0], cells[0]);
    if |texts| == 1 {
      assert cells == [cells[0]];
    } else {
      var others := Join(texts[1..], ',') + rest;
      RecordReadsBack(texts[1..], cells[1..], rest);
      JoinedText(texts, rest);
      FieldThen(texts[0], cells[0], others);
      assert cells == [cells[0]] + cells[1..];
    }
  }

  ghost predicate RecordReadsAs(text: string, record: seq<string>) {
    forall rest :: rest == [] || rest[0] == '\n' ==> ParseRecord(text + rest) == Some((record, rest))
  }

  lemma RowReadsBack(row: seq<string>)
    requires row != []
    ensures RecordReadsAs(RowText(row), row)
  {
    var texts := seq(|row|, i requires 0 <= i < |row| => Quoted(row[i]));
    forall i | 0 <= i < |row| ensures FieldReadsAs(texts[i], row[i]) {
      forall rest | EndsField(rest) ensures ParseField(texts[i] + rest) == Some((row[i], rest)) {
        FieldReadsBack(row[i], rest);
      }
    }
    forall rest: string | rest == [] || rest[0] == '\n'
      ensures ParseRecord(RowText(row) + rest) == Some((row, rest))
    {
      RecordReadsBack(texts, row, rest);
    }
  }

  lemma HeaderReadsBack()
    ensures HEADERS == ["_id", "trackingNumber", "origin", "destination", "status", "createdAt", "updatedAt"]
    ensures RecordReadsAs(Join(HEADERS, ','), HEADERS)
  {
    forall i | 0 <= i < |HEADERS| ensures FieldReadsAs(HEADERS[i], HEADERS[i]) {
      var h := HEADERS[i];
      assert forall c :: c in h ==> IsPlain(c);
      forall rest | EndsField(rest) ensures ParseField(h + rest) == Some((h, rest)) {
        PlainReadsBack(h, rest);
        assert (h + rest)[0] == h[0] && h[0] in h;
      }
    }
    forall rest: string | rest == [] || rest[0] == '\n'
      ensures ParseRecord(Join(HEADERS, ',') + rest) == Some((HEADERS, rest))
    {
      RecordReadsBack(HEADERS, HEADERS, rest);
    }
  }

  lemma FileStep(line: string, record: seq<string>, others: string)
    requires RecordReadsAs(line, record) && ParseFile(others).Some?
    ensures ParseFile(line + (['\n'] + others)) == Some([record] + ParseFile(others).value)
  {
    var rest := ['\n'] + others;
    assert ParseRecord(line + rest) == Some((record, rest));
    assert rest[1..] == others;
  }

  lemma LastLine(line: string, record: seq<string>)
    requires RecordReadsAs(line, record)
    ensures ParseFile(line) == Some([record])
  {
    assert line + "" == line;
    assert ParseRecord(line + "") == Some((record, ""));
  }

  lemma RowAlone(row: seq<string>)
    requires row != []
    ensures ParseFile(RowText(row)) == Some([row])
  {
    RowReadsBack(row);
    LastLine(RowText(row), row);
  }

  lemma RowThen(row: seq<string>, others: string)
    requires row != [] && ParseFile(others).Some?
    ensures ParseFile(RowText(row) + (['\n'] + others)) == Some([row] + ParseFile(others).value)
  {
    RowReadsBack(row);
    FileStep(RowText(row), row, others);
  }

  lemma HeaderThen(others: string)
    requires ParseFile(others).Some?
    ensures ParseFile(Join(HEADERS, ',') + (['\n'] + others)) == Some([HEADERS] + ParseFile(others).value)
  {
    HeaderReadsBack();
    FileStep(Join(HEADERS, ','), HEADERS, others);
  }

  lemma HeaderAlone()
    ensures ParseFile(Join(HEADERS, ',')) == Some([HEADERS])
  {
    HeaderReadsBack();
    LastLine(Join(HEADERS, ','), HEADERS);
  }

  lemma {:induction false} RowsReadBack(rows: seq<seq<string>>)
    requires rows != [] && forall i :: 0 <= i < |rows| ==> rows[i] != []
    ensures ParseFile(Join(RowTexts(rows), '\n')) == Some(rows)
  {
    var texts := RowTexts(rows);
    if |rows| == 1 {
      RowAlone(rows[0]);
      assert Join(texts, '\n') == RowText(rows[0]);
      assert rows == [rows[0]];
    } else {
      var others := Join(RowTexts(rows[1..]), '\n');
      RowsReadBack(rows[1..]);
      RowThen(rows[0], others);
      assert texts[1..] == RowTexts(rows[1..]);
      assert Join(texts, '\n') == RowText(rows[0]) + (['\n'] + others);
      assert rows == [rows[0]] + rows[1..];
    }
  }

  lemma {:induction false} CsvReadsBack(rows: seq<seq<string>>)
    requires forall i :: 0 <= i < |rows| ==> rows[i] != []
    ensures ParseFile(CsvOf(rows)) == Some([HEADERS] + rows)
  {
    var header := Join(HEADERS, ',');
    var lines := [header] + RowTexts(rows);
    if rows == [] {
      HeaderAlone();
      assert lines == [header];
      assert [HEADERS] + rows == [HEADERS];
    } else {
      RowsReadBack(rows);
      HeaderThen(Join(RowTexts(rows), '\n'));
      assert lines[1..] == RowTexts(rows);
      assert Join(lines, '\n') == header + (['\n'] + Join(RowTexts(rows), '\n'));
    }
  }

  /** Reading the export gives the header and exactly the cells that went in,
      whatever quotes, commas and line breaks they contain. */
  lemma {:induction false} ExportReadsBack(shipments: seq<Row>)
    ensures ParseFile(ShipmentsToCsv(shipments)) == Some([HEADERS] + Cells(shipments))
  {
    CsvReadsBack(Cells(shipments));
  }

  /** Line 0 reads as the header, line i + 1 as shipment i: each field as it is, and as
      nothing where the shipment has none. */
  lemma {:induction false} ExportShows(shipments: seq<Row>, i: nat, j: nat)
    requires i < |shipments| && j < 7
    ensures ParseFile(ShipmentsToCsv(shipments)).Some?
    ensures var lines := ParseFile(ShipmentsToCsv(shipments)).value;
      && |lines| == |shipments| + 1
      && lines[0] == HEADERS && |lines[i + 1]| == 7
      && lines[i + 1][j] == if shipments[i][j].Some? then shipments[i][j].value else ""
  {
    ExportReadsBack(shipments);
    CellsShow(shipments, i, j);
    Prepended(HEADERS, Cells(shipments), i);
  }

  lemma CellsShow(shipments: seq<Row>, i: nat, j: nat)
    requires i < |shipments| && j < 7
    ensures |Cells(shipments)| == |shipments| && |Cells(shipments)[i]| == 7
    ensures Cells(shipments)[i][j] == if shipments[i][j].Some? then shipments[i][j].value else ""
  {
  }

  lemma Prepended<T>(first: T, rest: seq<T>, i: nat)
    requires i < |rest|
    ensures ([first] + rest)[0] == first && ([first] + rest)[i + 1] == rest[i]
  {
  }

  function QuotesIn(s: string): nat {
    if s == [] then 0 else (if s[0] == '"' then 1 else 0) + QuotesIn(s[1..])
  }

  /** Every cell stands in quotes, longer by those and by one for each quote inside. */
  lemma {:induction false} CellsAreQuoted(cell: string)
    ensures |Quoted(cell)| == |cell| + 2 + QuotesIn(cell)
    ensures Quoted(cell)[0] == '"' && Quoted(cell)[|Quoted(cell)| - 1] == '"'
  {
    DoubledLength(cell);
  }

  lemma {:induction false} DoubledLength(s: string)
    ensures |Doubled(s)| == |s| + QuotesIn(s)
  {
    if s != [] {
      DoubledLength(s[1..]);
    }
  }

  /** Two exports are the same text exactly when they show the same cells. */
  lemma {:induction false} ExportIsInjective(a: seq<Row>, b: seq<Row>)
    ensures ShipmentsToCsv(a) == ShipmentsToCsv(b) <==> Cells(a) == Cells(b)
  {
    ExportReadsBack(a);
    ExportReadsBack(b);
    assert ([HEADERS] + Cells(a))[1..] == Cells(a) && ([HEADERS] + Cells(b))[1..] == Cells(b);
  }
}
