/** `toCsv` (dashboard/src/utils/csv.ts, lines 1-26): one record per row
    after a header record, fields quoted as section 2 of RFC 4180 describes,
    records separated by CRLF. A reader for that format is defined beside it,
    and the export is shown to read back as the cell texts it was built from. */
module Csv {
  import opened Text
  import opened Values

  const Comma: string := ","
  const QuoteMark: string := "\""
  const TwoQuotes: string := "\"\""
  const Lf: string := "\n"
  const Cr: string := "\r"
  const LineBreak: string := "\r\n"

  /** A column to export: the key read from each row and the header text. */
  datatype Column = Column(key: string, header: string)

  /** `toCell`: the text of one cell. Dates give their ISO form, other
      objects their JSON text; both are carried by the value. */
  function ToCell(v: Value): (r: string)
    ensures (v.Null? || v.Undefined?) ==> r == ""
    ensures v.Str? ==> r == v.s
  {
    match v
    case Null => ""
    case Undefined => ""
    case DateValue(iso, _) => iso
    case Str(s) => s
    case Bool(_) => StringOf(v)
    case Num(_) => StringOf(v)
    case Other(json, _) => json
  }

  /** The characters that force a field into quotes. */
  predicate Special(c: char)
  {
    c == ',' || c == '"' || c == '\n' || c == '\r'
  }

  /** `needsQuotes`, as the source writes it: four `includes` tests. */
  predicate NeedsQuotes(raw: string)
  {
    Includes(raw, Comma) || Includes(raw, QuoteMark) || Includes(raw, Lf) || Includes(raw, Cr)
  }

  /** `escapeCsv`: a field with a special character is wrapped in quotes,
      its quotes doubled; any other field is left as it is. */
  function EscapeCsv(raw: string): string
  {
    if !NeedsQuotes(raw) then raw else QuoteMark + ReplaceAll(raw, '"', TwoQuotes) + QuoteMark
  }

  lemma {:induction false} IncludesChar(s: string, c: char)
    ensures Includes(s, [c]) <==> c in s
  {
    if |s| > 0 {
      IncludesChar(s[1..], c);
      assert s == [s[0]] + s[1..];
    }
  }

  /** The four `includes` tests together find any special character. */
  lemma NeedsQuotesIff(raw: string)
    ensures NeedsQuotes(raw) <==> exists i :: 0 <= i < |raw| && Special(raw[i])
  {
    IncludesChar(raw, ',');
    IncludesChar(raw, '"');
    IncludesChar(raw, '\n');
    IncludesChar(raw, '\r');
    assert Comma == [','] && QuoteMark == ['"'] && Lf == ['\n'] && Cr == ['\r'];
  }

  lemma {:induction false} ReplaceAllGrows(s: string, c: char, rep: string)
    requires |rep| >= 1
    ensures |ReplaceAll(s, c, rep)| >= |s|
  {
    if |s| > 0 {
      ReplaceAllGrows(s[1..], c, rep);
    }
  }

  /** A field comes out unchanged exactly when it holds none of `,` `"` LF CR. */
  lemma EscapeKeepsPlain(raw: string)
    ensures EscapeCsv(raw) == raw <==> forall i :: 0 <= i < |raw| ==> !Special(raw[i])
  {
    NeedsQuotesIff(raw);
    if NeedsQuotes(raw) {
      ReplaceAllGrows(raw, '"', TwoQuotes);
      assert |EscapeCsv(raw)| > |raw|;
    }
  }

  /** Reads a quoted field's content: `""` stands for one quote. */
  function CollapseQuotes(s: string): string
  {
    if |s| == 0 then ""
    else if |s| >= 2 && s[0] == '"' && s[1] == '"' then QuoteMark + CollapseQuotes(s[2..])
    else [s[0]] + CollapseQuotes(s[1..])
  }

  lemma {:induction false} CollapseDoubled(raw: string)
    ensures CollapseQuotes(ReplaceAll(raw, '"', TwoQuotes)) == raw
  {
    if |raw| > 0 {
      var t := ReplaceAll(raw[1..], '"', TwoQuotes);
      CollapseDoubled(raw[1..]);
      if raw[0] == '"' {
        assert ReplaceAll(raw, '"', TwoQuotes) == TwoQuotes + t;
        assert (TwoQuotes + t)[2..] == t;
        assert raw == QuoteMark + raw[1..];
      } else {
        assert ReplaceAll(raw, '"', TwoQuotes) == [raw[0]] + t;
        assert ([raw[0]] + t)[1..] == t;
        assert raw == [raw[0]] + raw[1..];
      }
    }
  }

  /** Removing the outer quotes of an escaped field and collapsing `""`
      gives back the raw field; an unquoted field is the raw field. */
  lemma EscapeCsvRoundTrip(raw: string)
    ensures var e := EscapeCsv(raw);
      if NeedsQuotes(raw) then |e| >= 2 && e[0] == '"' && e[|e| - 1] == '"' && CollapseQuotes(e[1..|e| - 1]) == raw
      else e == raw
  {
    if NeedsQuotes(raw) {
      var t := ReplaceAll(raw, '"', TwoQuotes);
      var e := EscapeCsv(raw);
      assert e[1..|e| - 1] == t;
      CollapseDoubled(raw);
    }
  }

  // ---- a reader for the format (section 2 of RFC 4180) ----

  /** A field read from the front of a text, and what follows it. */
  datatype Cut = Cut(field: string, rest: string)

  /** Reads a quoted field after its opening quote, up to and past the
      closing quote; an unterminated field runs to the end. */
  function ReadQuoted(s: string): (r: Cut)
    ensures |r.rest| <= |s|
    decreases |s|
  {
    if |s| == 0 then Cut("", "")
    else if s[0] == '"' then
      if |s| >= 2 && s[1] == '"' then
        var r := ReadQuoted(s[2..]);
        Cut(QuoteMark + r.field, r.rest)
      else Cut("", s[1..])
    else
      var r := ReadQuoted(s[1..]);
      Cut([s[0]] + r.field, r.rest)
  }

  /** Reads an unquoted field, up to a comma or a CR. */
  function ReadPlain(s: string): (r: Cut)
    ensures |r.rest| <= |s|
  {
    if |s| == 0 || s[0] == ',' || s[0] == '\r' then Cut("", s)
    else
      var r := ReadPlain(s[1..]);
      Cut([s[0]] + r.field, r.rest)
  }

  function ReadField(s: string): (r: Cut)
    ensures |r.rest| <= |s|
  {
    if |s| > 0 && s[0] == '"' then ReadQuoted(s[1..]) else ReadPlain(s)
  }

  /** The fields of one record, what follows it, and whether a CRLF ended it. */
  datatype Record = Record(fields: seq<string>, rest: string, more: bool)

  function ReadRecord(s: string): (r: Record)
    ensures |r.rest| <= |s|
    ensures r.more ==> |r.rest| < |s|
    decreases |s|
  {
    var f := ReadField(s);
    if |f.rest| > 0 && f.rest[0] == ',' then
      var r := ReadRecord(f.rest[1..]);
      Record([f.field] + r.fields, r.rest, r.more)
    else if |f.rest| >= 2 && f.rest[0] == '\r' && f.rest[1] == '\n' then
      Record([f.field], f.rest[2..], true)
    else
      Record([f.field], f.rest, false)
  }

  /** The records of a CSV text. */
  function ParseCsv(s: string): seq<seq<string>>
    decreases |s|
  {
    var r := ReadRecord(s);
    if r.more then [r.fields] + ParseCsv(r.rest) else [r.fields]
  }

  // ---- the export ----

  function EscapedCells(cells: seq<string>): (r: seq<string>)
    ensures |r| == |cells|
    ensures forall i :: 0 <= i < |cells| ==> r[i] == EscapeCsv(cells[i])
  {
    if |cells| == 0 then [] else [EscapeCsv(cells[0])] + EscapedCells(cells[1..])
  }

  /** One CSV line: the escaped cells joined by commas. */
  function RecordText(cells: seq<string>): string
  {
    Join(EscapedCells(cells), Comma)
  }

  function RecordTexts(records: seq<seq<string>>): (r: seq<string>)
    ensures |r| == |records|
    ensures forall i :: 0 <= i < |records| ==> r[i] == RecordText(records[i])
  {
    if |records| == 0 then [] else [RecordText(records[0])] + RecordTexts(records[1..])
  }

  /** The header cells, `String(c.header)` for each column in order. */
  function HeaderCells(cols: seq<Column>): (r: seq<string>)
    ensures |r| == |cols|
    ensures forall i :: 0 <= i < |cols| ==> r[i] == cols[i].header
  {
    if |cols| == 0 then [] else [cols[0].header] + HeaderCells(cols[1..])
  }

  /** The cells of one row: `toCell(row[c.key])` for each column in order. */
  function RowCells(row: Row, cols: seq<Column>): (r: seq<string>)
    ensures |r| == |cols|
    ensures forall i :: 0 <= i < |cols| ==> r[i] == ToCell(Get(row, cols[i].key))
  {
    if |cols| == 0 then [] else [ToCell(Get(row, cols[0].key))] + RowCells(row, cols[1..])
  }

  function AllRowCells(rows: seq<Row>, cols: seq<Column>): (r: seq<seq<string>>)
    ensures |r| == |rows|
    ensures forall i :: 0 <= i < |rows| ==> r[i] == RowCells(rows[i], cols)
  {
    if |rows| == 0 then [] else [RowCells(rows[0], cols)] + AllRowCells(rows[1..], cols)
  }

  /** `toCsv`: the header line, then one line per row, joined by CRLF. */
  function ToCsv(rows: seq<Row>, cols: seq<Column>): string
  {
    Join(RecordTexts([HeaderCells(cols)] + AllRowCells(rows, cols)), LineBreak)
  }

  // ---- reading the export back ----

  /** What may follow a field: nothing, a comma, or a CR. */
  predicate FieldEnd(rest: string)
  {
    |rest| == 0 || rest[0] == ',' || rest[0] == '\r'
  }

  lemma ReadQuotedPair(x: string)
    ensures ReadQuoted(TwoQuotes + x) == Cut(QuoteMark + ReadQuoted(x).field, ReadQuoted(x).rest)
  {
    assert (TwoQuotes + x)[2..] == x;
  }

  lemma ReadQuotedChar(c: char, x: string)
    requires c != '"'
    ensures ReadQuoted([c] + x) == Cut([c] + ReadQuoted(x).field, ReadQuoted(x).rest)
  {
    assert ([c] + x)[1..] == x;
  }

  lemma ReadQuotedClose(rest: string)
    requires |rest| == 0 || rest[0] != '"'
    ensures ReadQuoted(QuoteMark + rest) == Cut("", rest)
  {
    assert (QuoteMark + rest)[1..] == rest;
  }

  lemma {:induction false} ReadQuotedEscaped(raw: string, rest: string)
    requires |rest| == 0 || rest[0] != '"'
    ensures ReadQuoted(ReplaceAll(raw, '"', TwoQuotes) + QuoteMark + rest) == Cut(raw, rest)
  {
    if |raw| == 0 {
      ReadQuotedClose(rest);
    } else {
      var t := ReplaceAll(raw[1..], '"', TwoQuotes);
      var x := t + QuoteMark + rest;
      var head := if raw[0] == '"' then TwoQuotes else [raw[0]];
      assert ReplaceAll(raw, '"', TwoQuotes) == head + t;
      SeqAssoc(head + t, QuoteMark, rest);
      SeqAssoc(head, t, QuoteMark + rest);
      SeqAssoc(t, QuoteMark, rest);
      ReadQuotedEscaped(raw[1..], rest);
      if raw[0] == '"' {
        ReadQuotedPair(x);
        assert raw == QuoteMark + raw[1..];
      } else {
        ReadQuotedChar(raw[0], x);
        assert raw == [raw[0]] + raw[1..];
      }
    }
  }

  lemma {:induction false} ReadPlainClean(raw: string, rest: string)
    requires forall i :: 0 <= i < |raw| ==> !Special(raw[i])
    requires FieldEnd(rest)
    ensures ReadPlain(raw + rest) == Cut(raw, rest)
  {
    if |raw| == 0 {
      assert raw + rest == rest;
    } else {
      ReadPlainClean(raw[1..], rest);
      assert (raw + rest)[1..] == raw[1..] + rest;
      assert raw == [raw[0]] + raw[1..];
    }
  }

  lemma ReadFieldQuoted(x: string)
    ensures ReadField(QuoteMark + x) == ReadQuoted(x)
  {
    assert (QuoteMark + x)[1..] == x;
  }

  /** Reading an escaped field gives back the raw field and stops where it ended. */
  lemma ReadFieldEscaped(raw: string, rest: string)
    requires FieldEnd(rest)
    ensures ReadField(EscapeCsv(raw) + rest) == Cut(raw, rest)
  {
    NeedsQuotesIff(raw);
    if NeedsQuotes(raw) {
      var t := ReplaceAll(raw, '"', TwoQuotes);
      SeqAssoc(QuoteMark + t, QuoteMark, rest);
      SeqAssoc(QuoteMark, t, QuoteMark + rest);
      SeqAssoc(t, QuoteMark, rest);
      ReadFieldQuoted(t + QuoteMark + rest);
      ReadQuotedEscaped(raw, rest);
    } else {
      ReadPlainClean(raw, rest);
      assert |raw + rest| == 0 || (raw + rest)[0] != '"' by {
        if |raw| > 0 {
          assert (raw + rest)[0] == raw[0];
        }
      }
    }
  }

  /** Reading a record line gives back its cells; a following CRLF is consumed. */
  lemma {:induction false} ReadRecordText(cells: seq<string>, rest: string)
    requires |cells| >= 1
    requires |rest| == 0 || (|rest| >= 2 && rest[0] == '\r' && rest[1] == '\n')
    ensures ReadRecord(RecordText(cells) + rest)
      == if |rest| == 0 then Record(cells, "", false) else Record(cells, rest[2..], true)
  {
    var es := EscapedCells(cells);
    if |cells| == 1 {
      assert RecordText(cells) == EscapeCsv(cells[0]);
      ReadFieldEscaped(cells[0], rest);
      assert cells == [cells[0]];
    } else {
      var e0, tail := EscapeCsv(cells[0]), RecordText(cells[1..]);
      assert es[1..] == EscapedCells(cells[1..]);
      assert RecordText(cells) == e0 + Comma + tail;
      SeqAssoc(e0 + Comma, tail, rest);
      SeqAssoc(e0, Comma, tail + rest);
      var after := Comma + (tail + rest);
      ReadFieldEscaped(cells[0], after);
      assert after[1..] == tail + rest;
      ReadRecordText(cells[1..], rest);
      assert cells == [cells[0]] + cells[1..];
    }
  }

  /** Records joined by CRLF read back as those records. */
  lemma {:induction false} ParseRecords(records: seq<seq<string>>)
    requires |records| >= 1
    requires forall i :: 0 <= i < |records| ==> |records[i]| >= 1
    ensures ParseCsv(Join(RecordTexts(records), LineBreak)) == records
  {
    var ts := RecordTexts(records);
    if |records| == 1 {
      assert Join(ts, LineBreak) == RecordText(records[0]) + "";
      ReadRecordText(records[0], "");
      assert records == [records[0]];
    } else {
      var t0, more := RecordText(records[0]), Join(RecordTexts(records[1..]), LineBreak);
      assert ts[1..] == RecordTexts(records[1..]);
      assert Join(ts, LineBreak) == t0 + LineBreak + more;
      SeqAssoc(t0, LineBreak, more);
      ReadRecordText(records[0], LineBreak + more);
      assert (LineBreak + more)[2..] == more;
      ParseRecords(records[1..]);
      assert records == [records[0]] + records[1..];
    }
  }

  /** The export reads back as the header texts followed by the cell texts of
      every row, in order, provided there is at least one column. */
  lemma ToCsvRoundTrip(rows: seq<Row>, cols: seq<Column>)
    requires |cols| >= 1
    ensures ParseCsv(ToCsv(rows, cols)) == [HeaderCells(cols)] + AllRowCells(rows, cols)
  {
    ParseRecords([HeaderCells(cols)] + AllRowCells(rows, cols));
  }

  /** With no rows the export is the header line alone. */
  lemma ToCsvNoRows(cols: seq<Column>)
    ensures ToCsv([], cols) == RecordText(HeaderCells(cols))
  {
    assert [HeaderCells(cols)] + AllRowCells([], cols) == [HeaderCells(cols)];
  }

  /** With rows, the export is the header line, a CRLF, and the export of the rows. */
  lemma ToCsvLines(rows: seq<Row>, cols: seq<Column>)
    requires |rows| >= 1
    ensures ToCsv(rows, cols)
      == RecordText(HeaderCells(cols)) + LineBreak + Join(RecordTexts(AllRowCells(rows, cols)), LineBreak)
  {
    var all := [HeaderCells(cols)] + AllRowCells(rows, cols);
    assert all[1..] == AllRowCells(rows, cols);
    assert RecordTexts(all)[1..] == RecordTexts(AllRowCells(rows, cols));
  }
}
