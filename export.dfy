/** The CSV export of the filtered alerts (App.tsx:233-268): a fixed header
    line and one line per alert, fields joined by commas and lines by
    newlines, a field quoted when it holds a comma, a double quote or a
    newline (section 2, rules 6 and 7 of RFC 4180).

    Next to the writer sits a reader for the same dialect; the round trip
    through it is the exporter's specification. */
module CsvExport {
  import opened Wrappers
  import opened Text
  import opened Types

  const Quote: char := '"'
  const FieldSeparator: char := ','
  const LineSeparator: char := '\n'

  /** The message shown instead of a download when nothing is filtered. */
  const NoData := "No hay datos filtrados para exportar."

  const Headers: seq<string> := [
    "Placa", "Velocidad (km/h)", "Fecha y Hora", "Operador", "Localidad", "Nombre del Contrato"]

  // ---------------------------------------------------------------------
  // Writing

  /** `str.includes(',') || str.includes('"') || str.includes('\n')`. */
  predicate NeedsQuoting(s: string) {
    FieldSeparator in s || Quote in s || LineSeparator in s
  }

  /** `str.replace(/"/g, '""')`. */
  function Escape(s: string): (r: string)
    ensures |r| >= |s|
    ensures FieldSeparator in r <==> FieldSeparator in s
    ensures LineSeparator in r <==> LineSeparator in s
  {
    if s == [] then []
    else
      var head := if s[0] == Quote then [Quote, Quote] else [s[0]];
      assert s == [s[0]] + s[1..];
      head + Escape(s[1..])
  }

  /** `formatCSVField`: quoted, with inner quotes doubled, exactly when the
      field needs it; otherwise unchanged. */
  function FormatField(s: string): (r: string)
    ensures !NeedsQuoting(s) ==> r == s
    ensures NeedsQuoting(s) ==> |r| >= 2 && r[0] == Quote && r[|r| - 1] == Quote
  {
    if NeedsQuoting(s) then [Quote] + Escape(s) + [Quote] else s
  }

  function FormatAll(cells: seq<string>): (r: seq<string>)
    ensures |r| == |cells|
    ensures forall i :: 0 <= i < |cells| ==> r[i] == FormatField(cells[i])
  {
    if cells == [] then [] else [FormatField(cells[0])] + FormatAll(cells[1..])
  }

  /** The values of an alert in column order, the speed as `String(n)`. */
  function Cells(a: Alert): seq<string> {
    [a.placa, IntString(a.velocidad), a.fechaHora, a.operador, a.localidad, a.contrato]
  }

  /** One data line (App.tsx:259-266); the speed goes in unformatted. */
  function RowLine(a: Alert): (line: string)
    ensures ReadRecord(line) == (Cells(a), [])
  {
    var line := Join([FormatField(a.placa), IntString(a.velocidad), FormatField(a.fechaHora),
                      FormatField(a.operador), FormatField(a.localidad), FormatField(a.contrato)], FieldSeparator);
    LineCells(a);
    ReadRecordOf(Cells(a), []);
    assert line + [] == line;
    line
  }

  function RowLines(alerts: seq<Alert>): (lines: seq<string>)
    ensures |lines| == |alerts|
  {
    if alerts == [] then [] else [RowLine(alerts[0])] + RowLines(alerts[1..])
  }

  /** `[headers.join(','), ...rows].join('\n')`. */
  function Document(alerts: seq<Alert>): (doc: string)
    ensures Join(Headers, FieldSeparator) <= doc
    ensures alerts == [] ==> doc == Join(Headers, FieldSeparator)
  {
    var header := Join(Headers, FieldSeparator);
    var lines := [header] + RowLines(alerts);
    assert lines[1..] == RowLines(alerts);
    Join(lines, LineSeparator)
  }

  /** `handleExportCSV`: no document for an empty selection. */
  function ExportCsv(alerts: seq<Alert>): (r: Result<string, string>)
    ensures r.Failure? <==> alerts == []
    ensures r.Failure? ==> r.error == NoData
  {
    if |alerts| == 0 then Failure(NoData) else Success(Document(alerts))
  }

  // ---------------------------------------------------------------------
  // Reading

  /** An unquoted field: everything up to the next comma or newline. */
  function ReadBare(s: string): (r: (string, string))
    ensures r.0 + r.1 == s
  {
    if s == [] || s[0] == FieldSeparator || s[0] == LineSeparator then ([], s)
    else
      var (f, rest) := ReadBare(s[1..]);
      ([s[0]] + f, rest)
  }

  /** The inside of a quoted field, after its opening quote: `""` stands for
      one quote and a single `"` closes the field. */
  function ReadQuoted(s: string): (r: (string, string))
    ensures |r.1| <= |s|
  {
    if s == [] then ([], [])
    else if s[0] == Quote then
      if |s| >= 2 && s[1] == Quote then
        var (f, rest) := ReadQuoted(s[2..]);
        ([Quote] + f, rest)
      else ([], s[1..])
    else
      var (f, rest) := ReadQuoted(s[1..]);
      ([s[0]] + f, rest)
  }

  /** One field, quoted or not, and what follows it. */
  function ReadField(s: string): (r: (string, string))
    ensures |r.1| <= |s|
  {
    if s != [] && s[0] == Quote then ReadQuoted(s[1..]) else ReadBare(s)
  }

  /** The fields of one record, and what follows its last field. */
  function ReadRecord(s: string): (r: (seq<string>, string))
    ensures |r.1| <= |s|
    decreases |s|
  {
    var (f, rest) := ReadField(s);
    if rest != [] && rest[0] == FieldSeparator then
      var (fs, rest') := ReadRecord(rest[1..]);
      ([f] + fs, rest')
    else ([f], rest)
  }

  /** The records of a document. */
  function ReadDocument(s: string): seq<seq<string>>
    decreases |s|
  {
    var (record, rest) := ReadRecord(s);
    if rest != [] && rest[0] == LineSeparator then [record] + ReadDocument(rest[1..])
    else [record]
  }

  // ---------------------------------------------------------------------
  // Round trip

  /** `t` is empty or starts with one of `cs`. */
  predicate StartsWithOneOf(t: string, cs: set<char>) {
    t == [] || t[0] in cs
  }

  lemma {:induction false} ReadBareOf(x: string, t: string)
    requires FieldSeparator !in x && LineSeparator !in x
    requires StartsWithOneOf(t, {FieldSeparator, LineSeparator})
    ensures ReadBare(x + t) == (x, t)
  {
    if x != [] {
      assert (x + t)[1..] == x[1..] + t;
      assert (x + t)[0] == x[0] && x[0] in x;
      ReadBareOf(x[1..], t);
      assert [x[0]] + x[1..] == x;
    } else {
      assert x + t == t;
    }
  }

  lemma {:induction false} ReadQuotedOf(x: string, t: string)
    requires t == [] || t[0] != Quote
    ensures ReadQuoted(Escape(x) + [Quote] + t) == (x, t)
  {
    var s := Escape(x) + [Quote] + t;
    if x == [] {
      assert s == [Quote] + t;
      assert s[1..] == t;
    } else {
      var tail := Escape(x[1..]) + [Quote] + t;
      var head := if x[0] == Quote then [Quote, Quote] else [x[0]];
      assert Escape(x) == head + Escape(x[1..]);
      assert s == head + tail;
      ReadQuotedOf(x[1..], t);
      if x[0] == Quote {
        assert s[2..] == tail;
      } else {
        assert s[1..] == tail;
      }
      assert [x[0]] + x[1..] == x;
    }
  }

  /** Reading a formatted field gives back the value: stripping the outer
      quotes and un-doubling the inner ones recovers the original. */
  lemma ReadFieldOf(x: string, t: string)
    requires StartsWithOneOf(t, {FieldSeparator, LineSeparator})
    ensures ReadField(FormatField(x) + t) == (x, t)
  {
    if NeedsQuoting(x) {
      ReadQuotedFieldOf(x, t);
    } else {
      ReadBareFieldOf(x, t);
    }
  }

  lemma ReadQuotedFieldOf(x: string, t: string)
    requires StartsWithOneOf(t, {FieldSeparator, LineSeparator})
    ensures ReadField([Quote] + Escape(x) + [Quote] + t) == (x, t)
  {
    var u := Escape(x) + [Quote] + t;
    var s := [Quote] + u;
    assert [Quote] + Escape(x) + [Quote] + t == s;
    assert s[1..] == u;
    assert t == [] || t[0] != Quote;
    ReadQuotedOf(x, t);
    assert ReadField(s) == ReadQuoted(u);
  }

  lemma ReadBareFieldOf(x: string, t: string)
    requires !NeedsQuoting(x)
    requires StartsWithOneOf(t, {FieldSeparator, LineSeparator})
    ensures ReadField(x + t) == (x, t)
  {
    assert x + t == [] || (x + t)[0] != Quote by {
      if x != [] {
        assert x[0] in x && (x + t)[0] == x[0];
      } else {
        assert x + t == t;
      }
    }
    ReadBareOf(x, t);
  }

  lemma {:induction false} ReadRecordOf(cells: seq<string>, t: string)
    requires |cells| >= 1
    requires StartsWithOneOf(t, {LineSeparator})
    ensures ReadRecord(Join(FormatAll(cells), FieldSeparator) + t) == (cells, t)
  {
    var formatted := FormatAll(cells);
    if |cells| == 1 {
      assert Join(formatted, FieldSeparator) == FormatField(cells[0]);
      ReadFieldOf(cells[0], t);
      assert cells == [cells[0]];
    } else {
      var more := Join(FormatAll(cells[1..]), FieldSeparator) + t;
      assert formatted[1..] == FormatAll(cells[1..]);
      assert Join(formatted, FieldSeparator) + t == FormatField(cells[0]) + ([FieldSeparator] + more);
      ReadFieldOf(cells[0], [FieldSeparator] + more);
      assert ([FieldSeparator] + more)[1..] == more;
      ReadRecordOf(cells[1..], t);
      assert [cells[0]] + cells[1..] == cells;
    }
  }

  /** The lines of a document whose records are `records`. */
  function RecordLines(records: seq<seq<string>>): seq<string> {
    if records == [] then [] else [Join(FormatAll(records[0]), FieldSeparator)] + RecordLines(records[1..])
  }

  lemma {:induction false} ReadDocumentOf(records: seq<seq<string>>)
    requires |records| >= 1
    requires forall i :: 0 <= i < |records| ==> |records[i]| >= 1
    ensures ReadDocument(Join(RecordLines(records), LineSeparator)) == records
  {
    var lines := RecordLines(records);
    var first := Join(FormatAll(records[0]), FieldSeparator);
    if |records| == 1 {
      assert records[1..] == [];
      assert RecordLines(records) == [first] + RecordLines([]);
      assert lines == [first];
      assert Join(lines, LineSeparator) == first + [];
      ReadRecordOf(records[0], []);
      assert records == [records[0]];
    } else {
      var more := Join(RecordLines(records[1..]), LineSeparator);
      assert lines[1..] == RecordLines(records[1..]);
      assert Join(lines, LineSeparator) == first + ([LineSeparator] + more);
      ReadRecordOf(records[0], [LineSeparator] + more);
      assert ([LineSeparator] + more)[1..] == more;
      ReadDocumentOf(records[1..]);
      assert [records[0]] + records[1..] == records;
    }
  }

  /** The speed column never needs quotes. */
  lemma SpeedNeverQuoted(n: int)
    ensures !NeedsQuoting(IntString(n))
    ensures FormatField(IntString(n)) == IntString(n)
  {
  }

  /** The header names need no quotes either. */
  lemma HeadersUnquoted()
    ensures FormatAll(Headers) == Headers
  {
    HeadersPlain();
    FormatAllPlain(Headers);
  }

  lemma HeadersPlain()
    ensures forall i :: 0 <= i < |Headers| ==> !NeedsQuoting(Headers[i])
  {
    forall i | 0 <= i < |Headers| ensures !NeedsQuoting(Headers[i]) {
      PlainText(Headers[i]);
    }
  }

  /** Letters, digits, spaces and brackets need no quoting. */
  lemma PlainText(s: string)
    requires forall k :: 0 <= k < |s| ==> s[k] == ' ' || s[k] == '(' || s[k] == ')' || s[k] == '/' || 'A' <= s[k] <= 'z'
    ensures !NeedsQuoting(s)
  {
  }

  /** Cells that need no quoting are written as they are. */
  lemma FormatAllPlain(cells: seq<string>)
    requires forall i :: 0 <= i < |cells| ==> !NeedsQuoting(cells[i])
    ensures FormatAll(cells) == cells
  {
  }

  lemma RowLineOf(a: Alert)
    ensures RowLine(a) == Join(FormatAll(Cells(a)), FieldSeparator)
  {
    LineCells(a);
  }

  /** Formatting an alert's values leaves the speed as it is. */
  lemma LineCells(a: Alert)
    ensures FormatAll(Cells(a)) == [FormatField(a.placa), IntString(a.velocidad), FormatField(a.fechaHora),
                                    FormatField(a.operador), FormatField(a.localidad), FormatField(a.contrato)]
  {
    SpeedNeverQuoted(a.velocidad);
  }

  /** The cells of every alert, in order. */
  function AllCells(alerts: seq<Alert>): (r: seq<seq<string>>)
    ensures |r| == |alerts|
    ensures forall i :: 0 <= i < |alerts| ==> r[i] == Cells(alerts[i])
  {
    if alerts == [] then [] else [Cells(alerts[0])] + AllCells(alerts[1..])
  }

  lemma {:induction false} RowLinesOf(alerts: seq<Alert>)
    ensures RowLines(alerts) == RecordLines(AllCells(alerts))
  {
    if alerts != [] {
      RowLineOf(alerts[0]);
      RowLinesOf(alerts[1..]);
      assert AllCells(alerts)[1..] == AllCells(alerts[1..]);
    }
  }

  /** Reading the exported document back gives the header and then exactly
      one record per alert, in input order, holding the alert's values. */
  lemma DocumentRoundTrip(alerts: seq<Alert>)
    ensures ReadDocument(Document(alerts)) == [Headers] + AllCells(alerts)
    ensures |ReadDocument(Document(alerts))| == |alerts| + 1
  {
    DocumentLines(alerts);
    RecordsHaveCells(alerts);
    ReadDocumentOf([Headers] + AllCells(alerts));
  }

  lemma RecordsHaveCells(alerts: seq<Alert>)
    ensures forall i :: 0 <= i < |alerts| + 1 ==> |([Headers] + AllCells(alerts))[i]| >= 1
  {
    var records := [Headers] + AllCells(alerts);
    forall i | 0 <= i < |alerts| + 1 ensures |records[i]| >= 1 {
      if i > 0 {
        assert records[i] == Cells(alerts[i - 1]);
      }
    }
  }

  /** The document is the header record followed by the alerts' records. */
  lemma DocumentLines(alerts: seq<Alert>)
    ensures Document(alerts) == Join(RecordLines([Headers] + AllCells(alerts)), LineSeparator)
  {
    var records := [Headers] + AllCells(alerts);
    HeadersUnquoted();
    RowLinesOf(alerts);
    assert records[1..] == AllCells(alerts);
    assert RecordLines(records) == [Join(Headers, FieldSeparator)] + RowLines(alerts);
  }
}
