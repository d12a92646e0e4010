/** The CSV export (`exportarCSV`): one header line and one line per row,
    the two free-text fields wrapped in double quotes. A small field reader
    states what the quoting is for: each line reads back into its fields. */
module Csv {
  import opened Records
  import opened Dates

  /** The column titles. */
  const COLUMNS: seq<string> := ["Fecha", "Categoría", "Título/Deporte", "Valoración", "Descripción"]

  /** `encabezados`: the column titles joined by commas. */
  const HEADER: string := Join(COLUMNS, ',')

  /** The description's escaping: every double quote doubled. */
  function Escape(s: string): (r: string)
    ensures '"' !in s ==> r == s
    decreases |s|
  {
    if |s| == 0 then ""
    else
      assert s == [s[0]] + s[1..];
      (if s[0] == '"' then "\"\"" else [s[0]]) + Escape(s[1..])
  }

  /** The text between double quotes. */
  function Quote(s: string): string
  {
    "\"" + s + "\""
  }

  /** The title column: the first non-empty one of the title, the sport type
      and the singer, or empty. */
  function Title(r: Record): (t: string)
    ensures t == "" <==> r.titulo == "" && r.tipoDeporte == "" && r.cantante == ""
    ensures t == r.titulo || t == r.tipoDeporte || t == r.cantante
    ensures r.titulo != "" ==> t == r.titulo
    ensures r.titulo == "" && r.tipoDeporte != "" ==> t == r.tipoDeporte
    ensures r.titulo == "" && r.tipoDeporte == "" ==> t == r.cantante
  {
    if r.titulo != "" then r.titulo
    else if r.tipoDeporte != "" then r.tipoDeporte
    else r.cantante
  }

  /** The character of a decimal digit. */
  function Digit(d: int): char
    requires 0 <= d < 10
  {
    ('0' as int + d) as char
  }

  predicate IsDigit(c: char)
  {
    '0' <= c <= '9'
  }

  /** The value of a decimal digit character. */
  function DigitValue(c: char): int
  {
    c as int - '0' as int
  }

  /** The value of a string of decimal digits, most significant first. */
  function ParseNat(s: string): int
    decreases |s|
  {
    if |s| == 0 then 0 else ParseNat(s[..|s| - 1]) * 10 + DigitValue(s[|s| - 1])
  }

  /** The value of a decimal text with an optional leading minus sign: the
      reader a spreadsheet applies to the rating column. */
  function ParseInt(s: string): int
  {
    if |s| > 0 && s[0] == '-' then -ParseNat(s[1..]) else ParseNat(s)
  }

  /** The decimal text of a number, as string interpolation writes an integer:
      digits only for a non-negative number, a minus sign in front otherwise,
      and the text reads back as the number. */
  function IntToString(n: int): (s: string)
    ensures |s| >= 1 && ',' !in s && '"' !in s && '\n' !in s
    ensures n >= 0 ==> forall i :: 0 <= i < |s| ==> IsDigit(s[i])
    ensures ParseInt(s) == n
    decreases if n < 0 then 1 - n else n
  {
    if n < 0 then
      var t := IntToString(-n);
      assert ("-" + t)[1..] == t;
      "-" + t
    else if n < 10 then
      var s := [Digit(n)];
      assert s[..0] == [] && IsDigit(s[0]);
      assert ParseNat(s) == ParseNat(s[..0]) * 10 + DigitValue(s[0]);
      s
    else
      var t := IntToString(n / 10);
      var s := t + [Digit(n % 10)];
      assert s[..|s| - 1] == t;
      s
  }

  /** The values one line is meant to carry: date, table, title, rating
      (0 when absent) and description. */
  function Fields(r: Record): seq<string>
  {
    [r.fecha, TableName(r.categoria), Title(r), IntToString(r.valoracion), r.descripcion]
  }

  /** One line exactly as the export writes it: the title is quoted but its
      quotes are not doubled. */
  function RowAsWritten(r: Record): string
  {
    Join([r.fecha, TableName(r.categoria), Quote(Title(r)), IntToString(r.valoracion), Quote(Escape(r.descripcion))], ',')
  }

  /** One line with both quoted fields escaped: the corrected line. */
  function Row(r: Record): string
  {
    Join([r.fecha, TableName(r.categoria), Quote(Escape(Title(r))), IntToString(r.valoracion), Quote(Escape(r.descripcion))], ',')
  }

  /** The two lines differ only for a title that holds a double quote. */
  lemma RowAsWrittenWithoutQuotes(r: Record)
    requires '"' !in Title(r)
    ensures RowAsWritten(r) == Row(r)
  {
  }

  /** The lines after the header, as the export writes them. */
  function Rows(rs: seq<Record>): (lines: seq<string>)
    ensures |lines| == |rs|
    ensures forall i :: 0 <= i < |rs| ==> lines[i] == RowAsWritten(rs[i])
  {
    if |rs| == 0 then [] else [RowAsWritten(rs[0])] + Rows(rs[1..])
  }

  /** The lines after the header, with the title escaped as well. */
  function RowsEscaped(rs: seq<Record>): (lines: seq<string>)
    ensures |lines| == |rs|
    ensures forall i :: 0 <= i < |rs| ==> lines[i] == Row(rs[i])
  {
    if |rs| == 0 then [] else [Row(rs[0])] + RowsEscaped(rs[1..])
  }

  /** The header line followed by the given lines. */
  function Document(lines: seq<string>): (text: string)
    ensures |text| >= |HEADER|
    ensures |lines| > 0 ==> |text| > |HEADER| && text[..|HEADER| + 1] == HEADER + "\n"
  {
    var all := [HEADER] + lines;
    assert all[1..] == lines;
    Join(all, '\n')
  }

  /** The export up to the download: nothing when there are no rows (the
      source alerts instead), otherwise the header and the rows as written,
      one per line. */
  function ExportCsv(rs: seq<Record>): (text: Option<string>)
    ensures text.None? <==> |rs| == 0
    ensures text.Some? ==> |text.value| > |HEADER| && text.value[..|HEADER| + 1] == HEADER + "\n"
    ensures text.Some? ==> text.value == Document(Rows(rs))
  {
    if |rs| == 0 then None else Some(Document(Rows(rs)))
  }

  /** The corrected export: the same text with the title escaped. */
  function ExportCsvEscaped(rs: seq<Record>): (text: Option<string>)
    ensures text.None? <==> |rs| == 0
    ensures text.Some? ==> |text.value| > |HEADER| && text.value[..|HEADER| + 1] == HEADER + "\n"
    ensures text.Some? ==> text.value == Document(RowsEscaped(rs))
  {
    if |rs| == 0 then None else Some(Document(RowsEscaped(rs)))
  }

  /** Without a double quote in any title the two exports have the same lines. */
  lemma {:induction false} RowsAgreeWithoutQuotedTitles(rs: seq<Record>)
    requires forall r :: r in rs ==> '"' !in Title(r)
    ensures Rows(rs) == RowsEscaped(rs)
  {
    forall i | 0 <= i < |rs| ensures Rows(rs)[i] == RowsEscaped(rs)[i] {
      assert rs[i] in rs;
      RowAsWrittenWithoutQuotes(rs[i]);
    }
  }

  /** Without a double quote in any title the two exports are the same text. */
  lemma ExportsAgreeWithoutQuotedTitles(rs: seq<Record>)
    requires forall r :: r in rs ==> '"' !in Title(r)
    ensures ExportCsv(rs) == ExportCsvEscaped(rs)
  {
    RowsAgreeWithoutQuotedTitles(rs);
  }

  // ---------------------------------------------------------------------
  // Reading a line back

  function Prepend(f: string, o: Option<seq<string>>): Option<seq<string>>
  {
    match o
    case None => None
    case Some(fs) => Some([f] + fs)
  }

  /** The index of the first comma, or the length when there is none. */
  function FieldEnd(s: string): (i: nat)
    ensures i <= |s|
    ensures ',' !in s[..i]
    ensures i < |s| ==> s[i] == ','
    decreases |s|
  {
    if |s| == 0 || s[0] == ',' then 0
    else
      var j := FieldEnd(s[1..]);
      assert s[..1 + j] == [s[0]] + s[1..][..j];
      1 + j
  }

  /** The inside of a quoted field: `""` stands for one quote, a lone quote
      ends the field. Returns the value and what follows the closing quote. */
  function Unquote(t: string): (res: Option<(string, string)>)
    ensures res.Some? ==> |res.value.1| < |t|
    decreases |t|
  {
    if |t| == 0 then None
    else if t[0] == '"' then
      if |t| > 1 && t[1] == '"' then
        match Unquote(t[2..])
        case None => None
        case Some((v, rest)) => Some(("\"" + v, rest))
      else Some(("", t[1..]))
    else
      match Unquote(t[1..])
      case None => None
      case Some((v, rest)) => Some(([t[0]] + v, rest))
  }

  /** Splits one line into its fields, unquoting quoted ones; None when a
      quoted field is not followed by a comma or the end of the line. */
  function ReadRow(s: string): Option<seq<string>>
    decreases |s|
  {
    if |s| > 0 && s[0] == '"' then
      match Unquote(s[1..])
      case None => None
      case Some((v, rest)) =>
        if |rest| == 0 then Some([v])
        else if rest[0] == ',' then Prepend(v, ReadRow(rest[1..]))
        else None
    else
      var i := FieldEnd(s);
      if i == |s| then Some([s]) else Prepend(s[..i], ReadRow(s[i + 1..]))
  }

  /** A value that can be written bare: no comma, no leading quote. */
  predicate PlainValue(v: string)
  {
    ',' !in v && (|v| == 0 || v[0] != '"')
  }

  /** `e` is how the value `v` appears on the line: bare, or quoted and escaped. */
  predicate Encodes(e: string, v: string)
  {
    (PlainValue(v) && e == v) || e == Quote(Escape(v))
  }

  /** An escaped value followed by a lone quote unquotes to the value. */
  lemma {:induction false} UnquoteEscape(v: string, rest: string)
    requires |rest| == 0 || rest[0] != '"'
    ensures Unquote(Escape(v) + "\"" + rest) == Some((v, rest))
    decreases |v|
  {
    if |v| == 0 {
      var t := Escape(v) + "\"" + rest;
      assert t == ['"'] + rest;
      assert t[1..] == rest;
    } else {
      UnquoteEscape(v[1..], rest);
      if v[0] == '"' {
        UnquoteDoubledQuote(v, rest);
      } else {
        UnquoteOrdinaryChar(v, rest);
      }
    }
  }

  /** A doubled quote unquotes to one quote. */
  lemma UnquoteDoubledQuote(v: string, rest: string)
    requires |v| > 0 && v[0] == '"'
    requires Unquote(Escape(v[1..]) + "\"" + rest) == Some((v[1..], rest))
    ensures Unquote(Escape(v) + "\"" + rest) == Some((v, rest))
  {
    var t := Escape(v) + "\"" + rest;
    var tail := Escape(v[1..]) + "\"" + rest;
    assert [v[0]] + v[1..] == v;
    assert Escape(v) == ['"', '"'] + Escape(v[1..]);
    assert t == ['"', '"'] + tail;
    assert t[2..] == tail;
  }

  /** Any other character is copied. */
  lemma UnquoteOrdinaryChar(v: string, rest: string)
    requires |v| > 0 && v[0] != '"'
    requires Unquote(Escape(v[1..]) + "\"" + rest) == Some((v[1..], rest))
    ensures Unquote(Escape(v) + "\"" + rest) == Some((v, rest))
  {
    var t := Escape(v) + "\"" + rest;
    var tail := Escape(v[1..]) + "\"" + rest;
    assert [v[0]] + v[1..] == v;
    assert Escape(v) == [v[0]] + Escape(v[1..]);
    assert t == [v[0]] + tail;
    assert t[1..] == tail;
  }

  /** Reading an encoded field followed by a comma yields the value, then
      whatever the rest of the line reads as. */
  lemma ReadFieldThenComma(e: string, v: string, rest: string)
    requires Encodes(e, v)
    ensures ReadRow(e + [','] + rest) == Prepend(v, ReadRow(rest))
  {
    var s := e + [','] + rest;
    if e == Quote(Escape(v)) {
      UnquoteEscape(v, [','] + rest);
      assert s[1..] == Escape(v) + "\"" + ([','] + rest);
      assert ([','] + rest)[1..] == rest;
    } else {
      assert s[|e|] == ',';
      assert FieldEnd(s) == |e|;
      assert s[..|e|] == e;
      assert s[|e| + 1..] == rest;
    }
  }

  /** Reading an encoded field alone yields the value. */
  lemma ReadLastField(e: string, v: string)
    requires Encodes(e, v)
    ensures ReadRow(e) == Some([v])
  {
    if e == Quote(Escape(v)) {
      UnquoteEscape(v, "");
      assert e[1..] == Escape(v) + "\"" + "";
    } else {
      assert FieldEnd(e) == |e|;
    }
  }

  /** A line of encoded fields joined by commas reads back into the values. */
  lemma {:induction false} ReadJoined(es: seq<string>, vs: seq<string>)
    requires |es| == |vs| >= 1
    requires forall i :: 0 <= i < |es| ==> Encodes(es[i], vs[i])
    ensures ReadRow(Join(es, ',')) == Some(vs)
    decreases |es|
  {
    if |es| == 1 {
      ReadLastField(es[0], vs[0]);
      assert vs == [vs[0]];
    } else {
      ReadJoined(es[1..], vs[1..]);
      ReadFieldThenComma(es[0], vs[0], Join(es[1..], ','));
      assert vs == [vs[0]] + vs[1..];
    }
  }

  lemma TableNamePlain(c: Category)
    ensures PlainValue(TableName(c))
  {
  }

  /** Every line of the export reads back into the values it was meant to
      carry, given a date field without commas or leading quote. */
  lemma RowRoundTrip(r: Record)
    requires PlainValue(r.fecha)
    ensures ReadRow(Row(r)) == Some(Fields(r))
  {
    var es := [r.fecha, TableName(r.categoria), Quote(Escape(Title(r))), IntToString(r.valoracion), Quote(Escape(r.descripcion))];
    TableNamePlain(r.categoria);
    assert Encodes(es[0], Fields(r)[0]);
    assert Encodes(es[1], Fields(r)[1]);
    assert Encodes(es[3], Fields(r)[3]);
    ReadJoined(es, Fields(r));
  }

  /** Without escaping, a quote inside the title closes the field early: a
      title with a quote followed by anything but a quote or comma makes the
      line unreadable, while the escaped line reads back. */
  lemma RowAsWrittenBreaksOnQuotedTitle(r: Record, a: string, b: string)
    requires PlainValue(r.fecha)
    requires '"' !in a && |b| > 0 && b[0] != '"' && b[0] != ','
    requires Title(r) == a + "\"" + b
    ensures ReadRow(RowAsWritten(r)) == None
    ensures ReadRow(Row(r)) == Some(Fields(r))
  {
    RowRoundTrip(r);
    var more := RowAsWrittenShape(r);
    var third := Quote(Title(r)) + more;
    assert third == "\"" + a + "\"" + b + ("\"" + more);
    var second := TableName(r.categoria) + [','] + third;
    TableNamePlain(r.categoria);
    ReadFieldThenComma(r.fecha, r.fecha, second);
    ReadFieldThenComma(TableName(r.categoria), TableName(r.categoria), third);
    UnescapedQuoteUnreadable(a, b, "\"" + more);
  }

  /** The as-written line cut at the title: date, table, then the quoted title
      followed by `more`. */
  lemma RowAsWrittenShape(r: Record) returns (more: string)
    ensures RowAsWritten(r) == r.fecha + [','] + (TableName(r.categoria) + [','] + (Quote(Title(r)) + more))
  {
    var es := [r.fecha, TableName(r.categoria), Quote(Title(r)), IntToString(r.valoracion), Quote(Escape(r.descripcion))];
    more := [','] + Join(es[3..], ',');
    assert es[1..][1..] == es[2..];
    assert es[2..][1..] == es[3..];
    assert Join(es[2..], ',') == Quote(Title(r)) + more;
    assert Join(es[1..], ',') == TableName(r.categoria) + [','] + (Quote(Title(r)) + more);
  }

  /** A quoted field whose text holds a lone quote followed by a character
      other than a quote or comma cannot be read. */
  lemma UnescapedQuoteUnreadable(a: string, b: string, more: string)
    requires '"' !in a && |b| > 0 && b[0] != '"' && b[0] != ','
    ensures ReadRow("\"" + a + "\"" + b + more) == None
  {
    var s := "\"" + a + "\"" + b + more;
    UnquoteStopsAtLoneQuote(a, b + more);
    assert s[1..] == a + "\"" + (b + more);
  }

  /** A lone quote ends the quoted text. */
  lemma {:induction false} UnquoteStopsAtLoneQuote(a: string, rest: string)
    requires '"' !in a
    requires |rest| == 0 || rest[0] != '"'
    ensures Unquote(a + "\"" + rest) == Some((a, rest))
    decreases |a|
  {
    var t := a + "\"" + rest;
    if |a| == 0 {
      assert t[1..] == rest;
    } else {
      UnquoteStopsAtLoneQuote(a[1..], rest);
      assert t[1..] == a[1..] + "\"" + rest;
      assert [a[0]] + a[1..] == a;
    }
  }

  /** `text` is the header followed by `lines`, one per text line, and each
      of those lines reads back into the values of its row of `rs`. */
  predicate ReadsBackLineByLine(text: string, lines: seq<string>, rs: seq<Record>)
  {
    && |lines| == |rs|
    && Split(text, '\n') == [HEADER] + lines
    && forall i :: 0 <= i < |rs| ==> ReadRow(lines[i]) == Some(Fields(rs[i]))
  }

  /** With no line breaks in the values, the corrected export is the header
      followed by one line per row, and each line reads back into the values
      of its row. */
  lemma ExportEscapedLines(rs: seq<Record>)
    requires |rs| > 0
    requires forall r :: r in rs ==> PlainValue(r.fecha) && '\n' !in r.fecha && '\n' !in Title(r) && '\n' !in r.descripcion
    ensures ReadsBackLineByLine(ExportCsvEscaped(rs).value, RowsEscaped(rs), rs)
  {
    var rows := RowsEscaped(rs);
    var lines := [HEADER] + rows;
    assert ExportCsvEscaped(rs).value == Join(lines, '\n');
    HeaderWithoutBreak();
    forall i | 0 < i < |lines| ensures '\n' !in lines[i] {
      assert lines[i] == Row(rs[i - 1]);
      RowWithoutBreak(rs[i - 1]);
    }
    SplitJoin(lines, '\n');
    forall i | 0 <= i < |rs| ensures ReadRow(rows[i]) == Some(Fields(rs[i])) {
      RowRoundTrip(rs[i]);
    }
  }

  /** The export as written reads back line by line when no title holds a
      double quote (and no value a line break). */
  lemma ExportLines(rs: seq<Record>)
    requires |rs| > 0
    requires forall r :: r in rs ==> PlainValue(r.fecha) && '\n' !in r.fecha && '\n' !in Title(r) && '\n' !in r.descripcion
    requires forall r :: r in rs ==> '"' !in Title(r)
    ensures ReadsBackLineByLine(ExportCsv(rs).value, Rows(rs), rs)
  {
    RowsAgreeWithoutQuotedTitles(rs);
    ExportEscapedLines(rs);
  }

  /** The rating column reads back as the rating itself. */
  lemma RatingReadsBack(r: Record)
    requires PlainValue(r.fecha)
    ensures ReadRow(Row(r)).Some? && |ReadRow(Row(r)).value| == 5
    ensures ParseInt(ReadRow(Row(r)).value[3]) == r.valoracion
  {
    RowRoundTrip(r);
  }

  lemma {:induction false} EscapeKeepsOut(s: string, c: char)
    requires c != '"' && c !in s
    ensures c !in Escape(s)
    decreases |s|
  {
    if |s| > 0 {
      EscapeKeepsOut(s[1..], c);
    }
  }

  lemma {:induction false} JoinKeepsOut(parts: seq<string>, sep: char, c: char)
    requires |parts| >= 1 && c != sep
    requires forall i :: 0 <= i < |parts| ==> c !in parts[i]
    ensures c !in Join(parts, sep)
    decreases |parts|
  {
    if |parts| > 1 {
      JoinKeepsOut(parts[1..], sep, c);
    }
  }

  lemma HeaderWithoutBreak()
    ensures '\n' !in HEADER
  {
    assert '\n' !in COLUMNS[0] && '\n' !in COLUMNS[1] && '\n' !in COLUMNS[2];
    assert '\n' !in COLUMNS[3] && '\n' !in COLUMNS[4];
    JoinKeepsOut(COLUMNS, ',', '\n');
  }

  lemma RowWithoutBreak(r: Record)
    requires '\n' !in r.fecha && '\n' !in Title(r) && '\n' !in r.descripcion
    ensures '\n' !in Row(r)
  {
    EscapeKeepsOut(Title(r), '\n');
    EscapeKeepsOut(r.descripcion, '\n');
    var es := [r.fecha, TableName(r.categoria), Quote(Escape(Title(r))), IntToString(r.valoracion), Quote(Escape(r.descripcion))];
    assert '\n' !in TableName(r.categoria) by {
      match r.categoria
      case Libros =>
      case Peliculas =>
      case Deporte =>
      case Conciertos =>
      case Ocio =>
    }
    assert '\n' !in es[2] && '\n' !in es[4];
    JoinKeepsOut(es, ',', '\n');
  }
}
