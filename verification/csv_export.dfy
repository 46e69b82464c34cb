/** The client's CSV export: fields with a comma, a quote or a line feed are quoted, inner quotes doubled. */
module CsvExport {
  import opened Common
  import opened Text

  // Cell text, the field escaping, records joined by a line feed (not the CRLF
  // of RFC 4180) after an unescaped header and a byte-order mark, and the column
  // filter of `exportTableData`. A reader of escaped records is defined beside
  // the writer so that the escaping can be shown to lose nothing. A lone
  // carriage return is not quoted, unlike the line breaks of RFC 4180's rule 6.

  /**
   * A cell as `exportToCSV` reads it: `null`/`undefined` (also a key the
   * row lacks), an object with the text `JSON.stringify` gives it, or any
   * other value with the text `String` gives it.
   */
  datatype Cell = Nullish | Object(json: string) | Scalar(text: string)

  /** The field text before escaping. */
  function CellText(c: Cell): (t: string)
    ensures c.Nullish? ==> t == ""
  {
    match c
    case Nullish => ""
    case Object(json) => json
    case Scalar(text) => text
  }

  /** A field needs quoting when it holds a comma, a double quote or a line feed. */
  predicate NeedsQuoting(s: string) {
    ContainsChar(s, ',') || ContainsChar(s, '"') || ContainsChar(s, '\n')
  }

  /** `s.replace(/"/g, '""')`. */
  function DoubleQuotes(s: string): (r: string)
    ensures !ContainsChar(s, '"') ==> r == s
    ensures |r| >= |s|
    decreases |s|
  {
    if |s| == 0 then ""
    else (if s[0] == '"' then "\"\"" else [s[0]]) + DoubleQuotes(s[1..])
  }

  /** The escaping of one field: a field that needs it is quoted with its quotes doubled, any other is left as it is. */
  function EscapeField(s: string): (f: string)
    ensures !NeedsQuoting(s) ==> f == s
    ensures NeedsQuoting(s) ==> |f| >= 2 && f[0] == '"' && f[|f| - 1] == '"'
  {
    if NeedsQuoting(s) then "\"" + DoubleQuotes(s) + "\"" else s
  }

  /** The reverse of `DoubleQuotes`: each doubled quote becomes one. */
  function UndoubleQuotes(s: string): string
    decreases |s|
  {
    if |s| == 0 then ""
    else if |s| >= 2 && s[0] == '"' && s[1] == '"' then "\"" + UndoubleQuotes(s[2..])
    else [s[0]] + UndoubleQuotes(s[1..])
  }

  /** Removing the escaping: a quoted field loses its quotes and its doubled quotes. */
  function UnescapeField(f: string): string {
    if |f| >= 2 && f[0] == '"' && f[|f| - 1] == '"' then UndoubleQuotes(f[1..|f| - 1]) else f
  }

  lemma {:induction false} UndoubleDouble(s: string)
    ensures UndoubleQuotes(DoubleQuotes(s)) == s
    decreases |s|
  {
    if |s| > 0 {
      UndoubleDouble(s[1..]);
      var d := DoubleQuotes(s[1..]);
      if s[0] == '"' {
        assert DoubleQuotes(s) == "\"\"" + d;
        assert ("\"\"" + d)[2..] == d;
      } else {
        assert DoubleQuotes(s) == [s[0]] + d;
        assert ([s[0]] + d)[1..] == d;
      }
    }
  }

  /** Removing the escaping gives back the original text, whatever it holds. */
  lemma EscapeRoundTrip(s: string)
    ensures UnescapeField(EscapeField(s)) == s
  {
    if NeedsQuoting(s) {
      var f := EscapeField(s);
      assert f[1..|f| - 1] == DoubleQuotes(s);
      UndoubleDouble(s);
    }
  }

  /** Read the inside of a quoted field up to its closing quote, a doubled quote standing for one; the rest follows. */
  function ReadQuoted(s: string): (r: (string, string))
    ensures |r.1| <= |s|
    decreases |s|
  {
    if |s| == 0 then ("", "")
    else if s[0] == '"' then
      if |s| >= 2 && s[1] == '"' then
        var (f, rest) := ReadQuoted(s[2..]);
        ("\"" + f, rest)
      else ("", s[1..])
    else
      var (f, rest) := ReadQuoted(s[1..]);
      ([s[0]] + f, rest)
  }

  /** Read an unquoted field up to the next comma. */
  function ReadPlain(s: string): (r: (string, string))
    ensures r.0 + r.1 == s
    ensures !ContainsChar(r.0, ',')
    ensures r.1 == "" || r.1[0] == ','
    decreases |s|
  {
    if |s| == 0 || s[0] == ',' then ("", s)
    else
      var (f, rest) := ReadPlain(s[1..]);
      assert forall i :: 1 <= i < |[s[0]] + f| ==> ([s[0]] + f)[i] == f[i - 1];
      ([s[0]] + f, rest)
  }

  /** Read one field, quoted or not. */
  function ReadField(s: string): (r: (string, string))
    ensures |r.1| <= |s|
  {
    if |s| > 0 && s[0] == '"' then ReadQuoted(s[1..]) else ReadPlain(s)
  }

  /** Read the comma-separated fields of one record. */
  function ParseRecord(s: string): (fs: seq<string>)
    ensures |fs| >= 1
    decreases |s|
  {
    var (f, rest) := ReadField(s);
    if |rest| > 0 && rest[0] == ',' then [f] + ParseRecord(rest[1..]) else [f]
  }

  /** What may follow a field inside a record: nothing, or the comma before the next field. */
  predicate FieldEnd(tail: string) {
    tail == "" || tail[0] == ','
  }

  lemma {:induction false} ReadQuotedDoubled(t: string, tail: string)
    requires FieldEnd(tail)
    ensures ReadQuoted(DoubleQuotes(t) + "\"" + tail) == (t, tail)
    decreases |t|
  {
    if |t| == 0 {
      var s := DoubleQuotes(t) + "\"" + tail;
      assert s == "\"" + tail;
      assert s[1..] == tail;
    } else {
      ReadQuotedDoubled(t[1..], tail);
      ReadQuotedStep(t, tail);
      assert [t[0]] + t[1..] == t;
    }
  }

  /** One step of the reader over a doubled text: the first character, or the doubled quote, then the rest. */
  lemma ReadQuotedStep(t: string, tail: string)
    requires |t| > 0
    ensures var inner := DoubleQuotes(t[1..]) + "\"" + tail;
            ReadQuoted(DoubleQuotes(t) + "\"" + tail)
            == ([t[0]] + ReadQuoted(inner).0, ReadQuoted(inner).1)
  {
    var d := DoubleQuotes(t[1..]);
    var inner := d + "\"" + tail;
    var s := DoubleQuotes(t) + "\"" + tail;
    if t[0] == '"' {
      assert DoubleQuotes(t) == "\"\"" + d;
      assert s == "\"\"" + inner;
      assert s[0] == '"' && s[1] == '"' && s[2..] == inner;
    } else {
      assert DoubleQuotes(t) == [t[0]] + d;
      assert s == [t[0]] + inner;
      assert s[1..] == inner;
    }
  }

  lemma {:induction false} ReadPlainField(t: string, tail: string)
    requires !ContainsChar(t, ',')
    requires FieldEnd(tail)
    ensures ReadPlain(t + tail) == (t, tail)
    decreases |t|
  {
    if |t| > 0 {
      assert !ContainsChar(t[1..], ',') by {
        forall i | 0 <= i < |t[1..]| ensures t[1..][i] != ',' { assert t[1..][i] == t[i + 1]; }
      }
      ReadPlainField(t[1..], tail);
      assert (t + tail)[1..] == t[1..] + tail;
      assert [t[0]] + t[1..] == t;
    } else {
      assert t + tail == tail;
    }
  }

  /** An escaped field, followed by the end of the record or a comma, reads back as the original text. */
  lemma ReadFieldEscaped(t: string, tail: string)
    requires FieldEnd(tail)
    ensures ReadField(EscapeField(t) + tail) == (t, tail)
  {
    if NeedsQuoting(t) {
      ReadQuotedField(t, tail);
    } else {
      ReadUnquotedField(t, tail);
    }
  }

  lemma ReadQuotedField(t: string, tail: string)
    requires FieldEnd(tail) && NeedsQuoting(t)
    ensures ReadField(EscapeField(t) + tail) == (t, tail)
  {
    var s := EscapeField(t) + tail;
    QuotedShape(t, tail);
    assert ReadField(s) == ReadQuoted(s[1..]);
    ReadQuotedDoubled(t, tail);
  }

  /** A quoted field followed by the rest: an opening quote, the doubled text, the closing quote. */
  lemma QuotedShape(t: string, tail: string)
    requires NeedsQuoting(t)
    ensures (EscapeField(t) + tail)[0] == '"'
    ensures (EscapeField(t) + tail)[1..] == DoubleQuotes(t) + "\"" + tail
  {
    var d := DoubleQuotes(t);
    assert EscapeField(t) + tail == ['"'] + (d + ['"'] + tail);
  }

  lemma ReadUnquotedField(t: string, tail: string)
    requires FieldEnd(tail) && !NeedsQuoting(t)
    ensures ReadField(EscapeField(t) + tail) == (t, tail)
  {
    var s := t + tail;
    ReadPlainField(t, tail);
    if |t| > 0 {
      assert s[0] == t[0];
      assert t[0] != '"';
    }
    assert ReadField(s) == ReadPlain(s);
  }

  /** The escaped form of each field. */
  function EscapeAll(fields: seq<string>): (es: seq<string>)
    ensures |es| == |fields|
    ensures forall i :: 0 <= i < |fields| ==> es[i] == EscapeField(fields[i])
  {
    seq(|fields|, i requires 0 <= i < |fields| => EscapeField(fields[i]))
  }

  /** One record: the escaped fields joined by commas. */
  function Record(fields: seq<string>): string {
    Join(EscapeAll(fields), ",")
  }

  /** Reading a written record gives back its fields, so a record has exactly one field per column. */
  lemma {:induction false} RecordRoundTrip(fields: seq<string>)
    requires |fields| >= 1
    ensures ParseRecord(Record(fields)) == fields
    decreases |fields|
  {
    var es := EscapeAll(fields);
    if |fields| == 1 {
      assert Record(fields) == es[0] == EscapeField(fields[0]) + "";
      ReadFieldEscaped(fields[0], "");
    } else {
      var rest := Record(fields[1..]);
      assert EscapeAll(fields[1..]) == es[1..];
      assert Record(fields) == EscapeField(fields[0]) + ("," + rest);
      ReadFieldEscaped(fields[0], "," + rest);
      assert ("," + rest)[1..] == rest;
      RecordRoundTrip(fields[1..]);
      assert [fields[0]] + fields[1..] == fields;
    }
  }

  /** A column of `exportToCSV`: the row key to read and the header title. */
  datatype Column = Column(key: string, title: string)

  /** A data row; a key it lacks reads as `undefined`. */
  type Row = map<string, Cell>

  function Lookup(row: Row, key: string): Cell {
    if key in row then row[key] else Nullish
  }

  /** The unescaped text of each column's cell. */
  function RowFields(row: Row, columns: seq<Column>): (fs: seq<string>)
    ensures |fs| == |columns|
    ensures forall i :: 0 <= i < |columns| ==> fs[i] == CellText(Lookup(row, columns[i].key))
  {
    seq(|columns|, i requires 0 <= i < |columns| => CellText(Lookup(row, columns[i].key)))
  }

  /** A data row's record reads back as one text per column, the cell's own text. */
  lemma RowRecordRoundTrip(row: Row, columns: seq<Column>)
    requires |columns| >= 1
    ensures |ParseRecord(Record(RowFields(row, columns)))| == |columns|
    ensures forall i :: 0 <= i < |columns| ==>
              ParseRecord(Record(RowFields(row, columns)))[i] == CellText(Lookup(row, columns[i].key))
  {
    RecordRoundTrip(RowFields(row, columns));
  }

  /** The titles of the columns. */
  function Titles(columns: seq<Column>): (ts: seq<string>)
    ensures |ts| == |columns|
    ensures forall i :: 0 <= i < |columns| ==> ts[i] == columns[i].title
  {
    seq(|columns|, i requires 0 <= i < |columns| => columns[i].title)
  }

  /** The header line: the titles joined by commas, not escaped. */
  function Header(columns: seq<Column>): string {
    Join(Titles(columns), ",")
  }

  /** Because the header is not escaped, a title holding a comma reads back as two fields. */
  lemma HeaderNotEscaped()
    ensures ParseRecord(Header([Column("k", "a,b")])) == ["a", "b"]
  {
    assert Header([Column("k", "a,b")]) == "a,b";
    ReadPlainField("b", "");
    assert "b" + "" == "b";
    ReadPlainField("a", ",b");
    assert "a" + ",b" == "a,b";
    assert ",b"[1..] == "b";
  }

  /** The byte-order mark put in front of the file. */
  const Bom: char := '\U{FEFF}'

  /** Each record preceded by a line feed. */
  function Lines(records: seq<string>): (r: string)
    ensures |records| > 0 ==> |r| > 0 && r[0] == '\n'
    decreases |records|
  {
    if |records| == 0 then "" else "\n" + records[0] + Lines(records[1..])
  }

  /** Joining the header and the records by line feeds is the header followed by each record on a line of its own. */
  lemma {:induction false} JoinAsLines(header: string, records: seq<string>)
    ensures Join([header] + records, "\n") == header + Lines(records)
    decreases |records|
  {
    if |records| > 0 {
      JoinAsLines(records[0], records[1..]);
      assert ([header] + records)[1..] == [records[0]] + records[1..];
      assert [records[0]] + records[1..] == records;
    }
  }

  /** The records of the data rows, in row order. */
  function Records(data: seq<Row>, columns: seq<Column>): (rs: seq<string>)
    ensures |rs| == |data|
    ensures forall i :: 0 <= i < |data| ==> rs[i] == Record(RowFields(data[i], columns))
  {
    seq(|data|, i requires 0 <= i < |data| => Record(RowFields(data[i], columns)))
  }

  /** `exportToCSV(data, columns)`: the file's text, or nothing when there is no data. */
  function ExportToCsv(data: Option<seq<Row>>, columns: seq<Column>): (r: Option<string>)
    ensures r.None? <==> data.None? || |data.value| == 0
    ensures r.Some? ==> r.value == [Bom] + Header(columns) + Lines(Records(data.value, columns))
  {
    if data.None? || |data.value| == 0 then None
    else
      JoinAsLines(Header(columns), Records(data.value, columns));
      Some([Bom] + Join([Header(columns)] + Records(data.value, columns), "\n"))
  }

  /** An antd column: `dataIndex`, `title` and `key`, each possibly missing. */
  datatype TableColumn = TableColumn(dataIndex: Option<string>, title: Option<string>, key: Option<string>)

  /** The filter of `exportTableData`: both `dataIndex` and `title` truthy, and not the action column. */
  predicate Exported(c: TableColumn) {
    PyTruthy(c.dataIndex) && PyTruthy(c.title) && c.key != Some("action")
  }

  /** The exported columns, in order, each reading its `dataIndex` under its `title`. */
  function ExportColumns(columns: seq<TableColumn>): (r: seq<Column>)
    ensures |r| <= |columns|
    ensures forall c :: c in columns && Exported(c) ==> Column(c.dataIndex.value, c.title.value) in r
    ensures forall x :: x in r ==>
              exists c :: c in columns && Exported(c) && x == Column(c.dataIndex.value, c.title.value)
    ensures forall x :: x in r ==> x.key != "" && x.title != ""
    decreases |columns|
  {
    if |columns| == 0 then []
    else
      var rest := ExportColumns(columns[1..]);
      assert forall c :: c in columns[1..] ==> c in columns;
      assert forall c :: c in columns ==> c == columns[0] || c in columns[1..];
      var c := columns[0];
      if Exported(c) then [Column(c.dataIndex.value, c.title.value)] + rest else rest
  }

  /** What one column contributes to the export: itself as (dataIndex, title), or nothing. */
  function ColumnOf(c: TableColumn): seq<Column> {
    if Exported(c) then [Column(c.dataIndex.value, c.title.value)] else []
  }

  lemma {:induction false} ExportColumnsIsFlatMap(columns: seq<TableColumn>)
    ensures ExportColumns(columns) == FlatMap(ColumnOf, columns)
    decreases |columns|
  {
    if |columns| > 0 {
      ExportColumnsIsFlatMap(columns[1..]);
    }
  }

  /**
   * The selection keeps the table's column order and multiplicity: it
   * splits over concatenation, and a single column contributes itself
   * or nothing. These two facts determine the result on every list.
   */
  lemma ExportColumnsOrder(a: seq<TableColumn>, b: seq<TableColumn>)
    ensures ExportColumns(a + b) == ExportColumns(a) + ExportColumns(b)
    ensures |a| == 1 ==>
              ExportColumns(a) == (if Exported(a[0]) then [Column(a[0].dataIndex.value, a[0].title.value)] else [])
  {
    ExportColumnsIsFlatMap(a + b);
    ExportColumnsIsFlatMap(a);
    ExportColumnsIsFlatMap(b);
    FlatMapAppend(ColumnOf, a, b);
    if |a| == 1 {
      assert FlatMap(ColumnOf, a) == ColumnOf(a[0]) + FlatMap(ColumnOf, a[1..]);
    }
  }

  /** The file `exportTableData` hands to the browser; JSON text is not modelled. */
  datatype Download = NoDownload | CsvFile(name: string, text: string) | JsonFile(name: string)

  datatype ExportResult = ExportResult(success: bool, message: string)

  /** `exportTableData(data, columns, filename, format)`. */
  function ExportTableData(data: Option<seq<Row>>, columns: seq<TableColumn>, filename: string, format: string)
    : (r: (ExportResult, Download))
    ensures data.None? || |data.value| == 0 ==> r == (ExportResult(false, "没有数据可导出"), NoDownload)
    ensures (data.Some? && |data.value| > 0 && format !in {"csv", "json"}) ==>
              r == (ExportResult(false, "不支持的导出格式"), NoDownload)
    ensures (data.Some? && |data.value| > 0 && format == "csv") ==>
              r.0 == ExportResult(true, "导出成功")
              && r.1 == CsvFile(filename + ".csv", ExportToCsv(data, ExportColumns(columns)).value)
    ensures (data.Some? && |data.value| > 0 && format == "json") ==>
              r == (ExportResult(true, "导出成功"), JsonFile(filename + ".json"))
    ensures r.0.success <==> r.1 != NoDownload
  {
    if data.None? || |data.value| == 0 then (ExportResult(false, "没有数据可导出"), NoDownload)
    else
      var cols := ExportColumns(columns);
      if format == "csv" then (ExportResult(true, "导出成功"), CsvFile(filename + ".csv", ExportToCsv(data, cols).value))
      else if format == "json" then (ExportResult(true, "导出成功"), JsonFile(filename + ".json"))
      else (ExportResult(false, "不支持的导出格式"), NoDownload)
  }
}
