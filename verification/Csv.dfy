/** The CSV printer of pilotBacktestBandTargets.ts, and a reader for section 2 of RFC 4180 with LF as record break. */
module Csv {
  import opened Options

  // Object keys in insertion order, with the printed form of each value; a missing key prints as nothing.
  datatype Row = Row(keys: seq<string>, cells: map<string, string>)

  function Cell(row: Row, key: string): string {
    if key in row.cells then row.cells[key] else ""
  }

  predicate Special(c: char) {
    c == ',' || c == '"' || c == '\n'
  }

  predicate Clean(s: string) {
    forall i :: 0 <= i < |s| ==> !Special(s[i])
  }

  function Doubled(s: string): string {
    if |s| == 0 then "" else (if s[0] == '"' then "\"\"" else [s[0]]) + Doubled(s[1..])
  }

  function EscapeCsv(raw: string): string {
    if Clean(raw) then raw else "\"" + Doubled(raw) + "\""
  }

  function Join(parts: seq<string>, sep: string): string {
    if |parts| == 0 then ""
    else if |parts| == 1 then parts[0]
    else parts[0] + sep + Join(parts[1..], sep)
  }

  function Escaped(fields: seq<string>): (escaped: seq<string>)
    ensures |escaped| == |fields|
  {
    if |fields| == 0 then [] else [EscapeCsv(fields[0])] + Escaped(fields[1..])
  }

  function Fields(headers: seq<string>, row: Row): (fields: seq<string>)
    ensures |fields| == |headers|
  {
    if |headers| == 0 then [] else [Cell(row, headers[0])] + Fields(headers[1..], row)
  }

  function Records(headers: seq<string>, rows: seq<Row>): seq<seq<string>> {
    if |rows| == 0 then [] else [Fields(headers, rows[0])] + Records(headers, rows[1..])
  }

  /** The records as lines, each ended by LF. */
  function Lines(records: seq<seq<string>>): string {
    if |records| == 0 then "" else Join(Escaped(records[0]), ",") + "\n" + Lines(records[1..])
  }

  method RowsToCsv(rows: seq<Row>) returns (text: string)
    ensures text == if |rows| == 0 then ""
                    else Join(rows[0].keys, ",") + "\n" + Lines(Records(rows[0].keys, rows))
  {
    if |rows| == 0 { return ""; }
    hide Join, Joined, Lines, Records, Escaped, Fields;
    NothingPrinted(rows[0].keys);
    var headers := rows[0].keys;
    var lines := [Join(headers, ",")];
    for i := 0 to |rows|
      invariant |lines| == i + 1
      invariant Joined(lines) == Join(headers, ",") + "\n" + Lines(Records(headers, rows[..i]))
    {
      RowPrinted(headers, rows[..i], rows[i], lines);
      assert rows[..i + 1] == rows[..i] + [rows[i]];
      lines := lines + [Join(Escaped(Fields(headers, rows[i])), ",")];
    }
    assert rows[..|rows|] == rows;
    text := Joined(lines);
  }

  lemma RowPrinted(headers: seq<string>, done: seq<Row>, row: Row, lines: seq<string>)
    requires |lines| > 0 && Joined(lines) == Join(headers, ",") + "\n" + Lines(Records(headers, done))
    ensures Joined(lines + [Join(Escaped(Fields(headers, row)), ",")])
         == Join(headers, ",") + "\n" + Lines(Records(headers, done + [row]))
  {
    hide Join, Joined, Lines, Records, Escaped, Fields;
    var line := Join(Escaped(Fields(headers, row)), ",");
    JoinedSnoc(lines, line);
    RecordsSnoc(headers, done, row);
    LinesSnoc(Records(headers, done), Fields(headers, row));
  }

  lemma NothingPrinted(headers: seq<string>)
    ensures Joined([Join(headers, ",")]) == Join(headers, ",") + "\n" + Lines(Records(headers, []))
  {
  }

  /** `${lines.join("\n")}\n`. */
  function Joined(lines: seq<string>): string {
    Join(lines, "\n") + "\n"
  }

  lemma {:induction false} JoinedSnoc(lines: seq<string>, line: string)
    requires |lines| > 0
    ensures Joined(lines + [line]) == Joined(lines) + line + "\n"
  {
    var all := lines + [line];
    assert all[1..] == lines[1..] + [line];
    assert Joined(all) == lines[0] + "\n" + Joined(all[1..]);
    if |lines| > 1 {
      JoinedSnoc(lines[1..], line);
      assert Joined(lines) == lines[0] + "\n" + Joined(lines[1..]);
    } else {
      assert all[1..] == [line] && Joined([line]) == line + "\n";
      assert Joined(lines) == lines[0] + "\n";
    }
  }

  lemma {:induction false} RecordsSnoc(headers: seq<string>, rows: seq<Row>, row: Row)
    ensures Records(headers, rows + [row]) == Records(headers, rows) + [Fields(headers, row)]
  {
    if |rows| > 0 {
      assert (rows + [row])[1..] == rows[1..] + [row];
      RecordsSnoc(headers, rows[1..], row);
    }
  }

  lemma {:induction false} LinesSnoc(records: seq<seq<string>>, record: seq<string>)
    ensures Lines(records + [record]) == Lines(records) + Join(Escaped(record), ",") + "\n"
  {
    if |records| > 0 {
      assert (records + [record])[1..] == records[1..] + [record];
      LinesSnoc(records[1..], record);
    }
  }

  /** A field is printed as it is exactly when it holds no comma, quote or line break, and in quotes otherwise. */
  lemma QuotedWhenNeeded(raw: string)
    ensures EscapeCsv(raw) == raw <==> ',' !in raw && '"' !in raw && '\n' !in raw
    ensures EscapeCsv(raw) != raw ==> EscapeCsv(raw)[0] == '"' == EscapeCsv(raw)[|EscapeCsv(raw)| - 1]
  {
    if Clean(raw) {
      assert forall c :: c in raw ==> !Special(c);
    } else {
      var i :| 0 <= i < |raw| && Special(raw[i]);
      DoubledNotShorter(raw);
      assert |EscapeCsv(raw)| > |raw|;
    }
  }

  lemma {:induction false} DoubledNotShorter(s: string)
    ensures |Doubled(s)| >= |s|
  {
    if |s| > 0 {
      DoubledNotShorter(s[1..]);
    }
  }

  /** One record a row, one field a header, in their order; a missing key is an empty field. */
  lemma {:induction false} RecordsAre(headers: seq<string>, rows: seq<Row>)
    ensures |Records(headers, rows)| == |rows|
    ensures forall i :: 0 <= i < |rows| ==> |Records(headers, rows)[i]| == |headers|
    ensures forall i, j :: 0 <= i < |rows| && 0 <= j < |headers| ==>
              Records(headers, rows)[i][j]
              == if headers[j] in rows[i].cells then rows[i].cells[headers[j]] else ""
  {
    if |rows| > 0 {
      RecordsAre(headers, rows[1..]);
      FieldsAre(headers, rows[0]);
    }
  }

  lemma {:induction false} FieldsAre(headers: seq<string>, row: Row)
    ensures forall j :: 0 <= j < |headers| ==>
              Fields(headers, row)[j] == if headers[j] in row.cells then row.cells[headers[j]] else ""
  {
    if |headers| > 0 {
      FieldsAre(headers[1..], row);
    }
  }

  // ---------------------------------------------------------------------------------------------
  // The reader.

  datatype Place = FieldStart | Bare | Quoted | QuoteSeen

  /** One more record in front of what follows, when that reads at all. */
  function Prepend(record: seq<string>, rest: Option<seq<seq<string>>>): Option<seq<seq<string>>> {
    if rest.None? then None else Some([record] + rest.value)
  }

  /**
   * Reads the text from a place in a field, given what was read of the field and of the record. None is a text
   * the grammar does not allow: a quote inside a bare field, text after a closing quote, or an open quote at the end.
   */
  function Read(text: string, place: Place, field: string, record: seq<string>): Option<seq<seq<string>>> {
    if |text| == 0 then
      if place.Quoted? then None
      else if place.FieldStart? && |record| == 0 then Some([])
      else Some([record + [field]])
    else
      var c, rest := text[0], text[1..];
      if place.Quoted? then
        if c == '"' then Read(rest, QuoteSeen, field, record) else Read(rest, Quoted, field + [c], record)
      else if c == ',' then Read(rest, FieldStart, "", record + [field])
      else if c == '\n' then Prepend(record + [field], Read(rest, FieldStart, "", []))
      else if place.FieldStart? then
        if c == '"' then Read(rest, Quoted, "", record) else Read(rest, Bare, [c], record)
      else if place.Bare? then
        if c == '"' then None else Read(rest, Bare, field + [c], record)
      else
        if c == '"' then Read(rest, Quoted, field + [c], record) else None
  }

  function ReadCsv(text: string): Option<seq<seq<string>>> {
    Read(text, FieldStart, "", [])
  }

  // ---------------------------------------------------------------------------------------------
  // Printing loses nothing.

  predicate AtBreak(rest: string) {
    |rest| > 0 && (rest[0] == ',' || rest[0] == '\n')
  }

  /** What the reader does at the break after a complete field. */
  function AfterField(rest: string, field: string, record: seq<string>): Option<seq<seq<string>>>
    requires AtBreak(rest)
  {
    if rest[0] == ',' then Read(rest[1..], FieldStart, "", record + [field])
    else Prepend(record + [field], Read(rest[1..], FieldStart, "", []))
  }

  lemma {:induction false} BareReads(s: string, rest: string, field: string, record: seq<string>)
    requires Clean(s) && AtBreak(rest)
    ensures Read(s + rest, Bare, field, record) == AfterField(rest, field + s, record)
  {
    if |s| == 0 {
      assert s + rest == rest && field + s == field;
    } else {
      assert (s + rest)[1..] == s[1..] + rest;
      assert field + s == (field + [s[0]]) + s[1..];
      BareReads(s[1..], rest, field + [s[0]], record);
    }
  }

  lemma QuotedTakes(c: char, tail: string, field: string, record: seq<string>)
    ensures Read((if c == '"' then "\"\"" else [c]) + tail, Quoted, field, record)
         == Read(tail, Quoted, field + [c], record)
  {
    var written := if c == '"' then "\"\"" else [c];
    var text := written + tail;
    if c == '"' {
      assert text[1..] == "\"" + tail && text[1..][1..] == tail;
    } else {
      assert text[1..] == tail;
    }
  }

  lemma DoubledSplits(s: string, rest: string)
    requires |s| > 0
    ensures Doubled(s) + rest == (if s[0] == '"' then "\"\"" else [s[0]]) + (Doubled(s[1..]) + rest)
  {
  }

  predicate Closes(close: string) {
    |close| > 0 && close[0] == '"' && AtBreak(close[1..])
  }

  lemma QuoteCloses(close: string, field: string, record: seq<string>)
    requires Closes(close)
    ensures Read(close, Quoted, field, record) == AfterField(close[1..], field, record)
  {
  }

  lemma TakeFirst(field: string, s: string)
    requires |s| > 0
    ensures field + s == (field + [s[0]]) + s[1..]
  {
  }

  /** A quoted field is read up to its closing quote, quotes inside it undoubled. */
  lemma {:induction false} QuotedReads(s: string, close: string, field: string, record: seq<string>)
    requires Closes(close)
    ensures Read(Doubled(s) + close, Quoted, field, record) == AfterField(close[1..], field + s, record)
  {
    if |s| == 0 {
      assert Doubled(s) + close == close && field + s == field;
      QuoteCloses(close, field, record);
    } else {
      hide Read, AfterField, Doubled;
      DoubledSplits(s, close);
      TakeFirst(field, s);
      QuotedTakes(s[0], Doubled(s[1..]) + close, field, record);
      QuotedReads(s[1..], close, field + [s[0]], record);
    }
  }

  lemma FieldOpens(c: char, tail: string, record: seq<string>)
    requires c != ',' && c != '\n'
    ensures Read([c] + tail, FieldStart, "", record)
         == if c == '"' then Read(tail, Quoted, "", record) else Read(tail, Bare, [c], record)
  {
    assert ([c] + tail)[1..] == tail;
  }

  lemma EmptyFieldReads(rest: string, record: seq<string>)
    requires AtBreak(rest)
    ensures Read(rest, FieldStart, "", record) == AfterField(rest, "", record)
  {
  }

  lemma FieldReads(raw: string, rest: string, record: seq<string>)
    requires AtBreak(rest)
    ensures Read(EscapeCsv(raw) + rest, FieldStart, "", record) == AfterField(rest, raw, record)
  {
    hide Read, AfterField, Doubled;
    var text := EscapeCsv(raw) + rest;
    if !Clean(raw) {
      var close := "\"" + rest;
      assert close[1..] == rest;
      assert text == ['"'] + (Doubled(raw) + close);
      FieldOpens('"', Doubled(raw) + close, record);
      QuotedReads(raw, close, "", record);
      assert "" + raw == raw;
    } else if |raw| == 0 {
      assert text == rest;
      EmptyFieldReads(rest, record);
    } else {
      assert text == [raw[0]] + (raw[1..] + rest);
      FieldOpens(raw[0], raw[1..] + rest, record);
      BareReads(raw[1..], rest, [raw[0]], record);
      TakeFirst("", raw);
      assert "" + raw == raw && "" + [raw[0]] == [raw[0]];
    }
  }

  lemma {:induction false} LineReads(fields: seq<string>, rest: string, record: seq<string>)
    requires |fields| > 0
    ensures Read(Join(Escaped(fields), ",") + "\n" + rest, FieldStart, "", record)
         == Prepend(record + fields, Read(rest, FieldStart, "", []))
  {
    var line := Join(Escaped(fields), ",");
    if |fields| == 1 {
      assert line + "\n" + rest == EscapeCsv(fields[0]) + ("\n" + rest);
      FieldReads(fields[0], "\n" + rest, record);
      assert ("\n" + rest)[1..] == rest && record + fields == record + [fields[0]];
    } else {
      var tail := Join(Escaped(fields[1..]), ",") + "\n" + rest;
      assert Escaped(fields)[1..] == Escaped(fields[1..]);
      assert line + "\n" + rest == EscapeCsv(fields[0]) + ("," + tail);
      FieldReads(fields[0], "," + tail, record);
      assert ("," + tail)[1..] == tail;
      LineReads(fields[1..], rest, record + [fields[0]]);
      assert record + [fields[0]] + fields[1..] == record + fields;
    }
  }

  lemma {:induction false} LinesRead(headers: seq<string>, rows: seq<Row>)
    requires |headers| > 0
    ensures ReadCsv(Lines(Records(headers, rows))) == Some(Records(headers, rows))
  {
    if |rows| > 0 {
      var records := Records(headers, rows);
      assert records[1..] == Records(headers, rows[1..]);
      LinesRead(headers, rows[1..]);
      LineReads(records[0], Lines(records[1..]), []);
      assert [] + records[0] == records[0];
    }
  }

  /** Headers are printed as they are; the reader gets them back when none holds a special character. */
  predicate CleanHeaders(headers: seq<string>) {
    |headers| > 0 && forall i :: 0 <= i < |headers| ==> Clean(headers[i])
  }

  lemma {:induction false} CleanIsEscaped(fields: seq<string>)
    requires forall i :: 0 <= i < |fields| ==> Clean(fields[i])
    ensures Escaped(fields) == fields
  {
    if |fields| > 0 {
      CleanIsEscaped(fields[1..]);
    }
  }

  function Printed(headers: seq<string>, rows: seq<Row>): string {
    Join(headers, ",") + "\n" + Lines(Records(headers, rows))
  }

  lemma CleanHeadersRead(headers: seq<string>, rows: seq<Row>)
    requires CleanHeaders(headers)
    ensures ReadCsv(Printed(headers, rows)) == Some([headers] + Records(headers, rows))
  {
    CleanIsEscaped(headers);
    LineReads(headers, Lines(Records(headers, rows)), []);
    LinesRead(headers, rows);
    assert [] + headers == headers;
  }

  // ---------------------------------------------------------------------------------------------
  // Nothing less than clean headers will do.

  /** What was read of the record and of an opened field stays in front of what the reader returns. */
  lemma {:induction false} ReadKeeps(text: string, place: Place, field: string, record: seq<string>)
    requires !place.FieldStart? || |record| > 0 || |text| > 0
    requires place.FieldStart? ==> field == ""
    ensures var r := Read(text, place, field, record);
            r.Some? ==>
              && |r.value| > 0 && |r.value[0]| > |record| && r.value[0][..|record|] == record
              && field <= r.value[0][|record|]
              && (place.Bare? && |text| > 0 && Special(text[0]) ==> r.value[0][|record|] == field)
              && (place.FieldStart? && |text| > 0 && Special(text[0]) && text[0] != '"' ==> r.value[0][|record|] == "")
    decreases |text|
  {
    if |text| > 0 {
      var c, rest := text[0], text[1..];
      if place.Quoted? {
        ReadKeeps(rest, if c == '"' then QuoteSeen else Quoted, if c == '"' then field else field + [c], record);
      } else if c == ',' {
        ReadKeeps(rest, FieldStart, "", record + [field]);
      } else if c == '\n' {
      } else if place.FieldStart? {
        ReadKeeps(rest, if c == '"' then Quoted else Bare, if c == '"' then "" else [c], record);
      } else if place.Bare? && c != '"' {
        ReadKeeps(rest, Bare, field + [c], record);
      } else if place.QuoteSeen? && c == '"' {
        ReadKeeps(rest, Quoted, field + [c], record);
      }
    }
  }

  lemma {:induction false} BareAdvances(s: string, rest: string, field: string, record: seq<string>)
    requires Clean(s)
    ensures Read(s + rest, Bare, field, record) == Read(rest, Bare, field + s, record)
  {
    if |s| == 0 {
      assert s + rest == rest && field + s == field;
    } else {
      assert (s + rest)[1..] == s[1..] + rest;
      assert field + s == (field + [s[0]]) + s[1..];
      BareAdvances(s[1..], rest, field + [s[0]], record);
    }
  }

  /** A quoted field that reads as `field + g` was written as g with its quotes doubled and a closing quote. */
  lemma {:induction false} QuotedConsumes(text: string, field: string, record: seq<string>) returns (g: string)
    requires Read(text, Quoted, field, record).Some?
    ensures var r := Read(text, Quoted, field, record).value;
            && |r| > 0 && |r[0]| > |record| && r[0][|record|] == field + g
            && Doubled(g) + "\"" <= text
    decreases |text|
  {
    var c, rest := text[0], text[1..];
    if c != '"' {
      g := QuotedConsumes(rest, field + [c], record);
      assert ([c] + g)[1..] == g;
      assert field + [c] + g == field + ([c] + g);
      assert Doubled([c] + g) + "\"" == [c] + (Doubled(g) + "\"");
      assert text == [c] + rest;
      g := [c] + g;
    } else if |rest| > 0 && rest[0] == '"' {
      g := QuotedConsumes(rest[1..], field + ['"'], record);
      assert (['"'] + g)[1..] == g;
      assert field + ['"'] + g == field + (['"'] + g);
      assert Doubled(['"'] + g) + "\"" == "\"\"" + (Doubled(g) + "\"");
      assert text == "\"\"" + rest[1..];
      g := ['"'] + g;
    } else {
      g := "";
      assert field + g == field;
      ReadKeeps(text, Quoted, field, record);
      if |rest| > 0 && rest[0] == ',' {
        ReadKeeps(rest[1..], FieldStart, "", record + [field]);
      }
    }
  }

  function LeadingQuotes(s: string): (n: nat)
    ensures n <= |s| && (n < |s| ==> s[n] != '"') && forall i :: 0 <= i < n ==> s[i] == '"'
  {
    if |s| == 0 || s[0] != '"' then 0 else 1 + LeadingQuotes(s[1..])
  }

  lemma {:induction false} DoubledQuotes(s: string)
    ensures var n := 2 * LeadingQuotes(s); n <= |Doubled(s)| && forall i :: 0 <= i < n ==> Doubled(s)[i] == '"'
  {
    if |s| > 0 && s[0] == '"' {
      DoubledQuotes(s[1..]);
    }
  }

  function FirstSpecial(s: string): (j: nat)
    requires !Clean(s)
    ensures j < |s| && Special(s[j]) && Clean(s[..j])
  {
    if Special(s[0]) then 0 else
      assert exists i :: 0 <= i < |s[1..]| && Special(s[1..][i]) by {
        var i :| 0 <= i < |s| && Special(s[i]);
        assert s[1..][i - 1] == s[i];
      }
      assert !Clean(s[1..]);
      assert s[..1 + FirstSpecial(s[1..])] == [s[0]] + s[1..][..FirstSpecial(s[1..])];
      1 + FirstSpecial(s[1..])
  }

  /** The reader takes `text` for a field of the record that is not h. */
  predicate Misread(text: string, h: string, record: seq<string>) {
    var r := Read(text, FieldStart, "", record);
    r.Some? ==> |r.value| > 0 && |r.value[0]| > |record| && r.value[0][|record|] != h
  }

  /** After an opening quote, h as it is does not start with h doubled and closed: it has too few quotes in front. */
  lemma TooFewQuotes(h: string, rest: string)
    requires |h| > 0 && h[0] == '"' && AtBreak(rest)
    ensures !(Doubled(h) + "\"" <= (h + rest)[1..])
  {
    var n, closed, text := LeadingQuotes(h), Doubled(h) + "\"", h + rest;
    DoubledQuotes(h);
    assert closed[n - 1] == Doubled(h)[n - 1] == '"';
    assert text[1..][n - 1] == text[n];
    assert text[n] != '"';
  }

  lemma QuotedMisreads(h: string, rest: string, record: seq<string>)
    requires |h| > 0 && h[0] == '"' && AtBreak(rest)
    ensures Misread(h + rest, h, record)
  {
    var text := h + rest;
    TooFewQuotes(h, rest);
    if Read(text, FieldStart, "", record).Some? {
      var g := QuotedConsumes(text[1..], "", record);
      assert "" + g == g;
    }
  }

  lemma BareMisreads(h: string, rest: string, record: seq<string>)
    requires !Clean(h) && h[0] != '"'
    ensures Misread(h + rest, h, record)
  {
    var text, j := h + rest, FirstSpecial(h);
    if j == 0 {
      ReadKeeps(text, FieldStart, "", record);
    } else {
      assert h[..j][0] == h[0];
      assert text[1..] == h[1..j] + (h[j..] + rest);
      assert forall i :: 0 <= i < j - 1 ==> h[1..j][i] == h[..j][i + 1];
      BareAdvances(h[1..j], h[j..] + rest, [h[0]], record);
      assert [h[0]] + h[1..j] == h[..j];
      ReadKeeps(h[j..] + rest, Bare, h[..j], record);
    }
  }

  lemma {:induction false} DirtyLineMisreads(fields: seq<string>, rest: string, record: seq<string>)
    requires exists i :: 0 <= i < |fields| && !Clean(fields[i])
    ensures var r := Read(Join(fields, ",") + "\n" + rest, FieldStart, "", record);
            r.Some? ==> |r.value| > 0 && r.value[0] != record + fields
  {
    hide Read;
    var h := fields[0];
    var tail := if |fields| == 1 then "\n" + rest else "," + (Join(fields[1..], ",") + "\n" + rest);
    assert Join(fields, ",") + "\n" + rest == h + tail;
    assert (record + fields)[|record|] == h;
    if !Clean(h) {
      if h[0] == '"' {
        QuotedMisreads(h, tail, record);
      } else {
        BareMisreads(h, tail, record);
      }
    } else {
      var i :| 0 <= i < |fields| && !Clean(fields[i]);
      assert fields[1..][i - 1] == fields[i];
      FieldReads(h, tail, record);
      assert tail[1..] == Join(fields[1..], ",") + "\n" + rest;
      DirtyLineMisreads(fields[1..], rest, record + [h]);
      assert record + [h] + fields[1..] == record + fields;
    }
  }

  lemma NoHeadersMisread(rest: string)
    ensures var r := ReadCsv("\n" + rest);
            r.Some? ==> |r.value| > 0 && |r.value[0]| == 1
  {
    assert ("\n" + rest)[1..] == rest;
  }

  /**
   * The printed text reads back as the headers followed by every field of every row, for arbitrary field text,
   * exactly when there is a header and no header holds a comma, a quote or a line break.
   */
  lemma RoundTrip(headers: seq<string>, rows: seq<Row>)
    ensures ReadCsv(Printed(headers, rows)) == Some([headers] + Records(headers, rows)) <==> CleanHeaders(headers)
  {
    hide Read;
    var rest := Lines(Records(headers, rows));
    if CleanHeaders(headers) {
      CleanHeadersRead(headers, rows);
    } else if |headers| == 0 {
      assert Printed(headers, rows) == "\n" + rest;
      NoHeadersMisread(rest);
    } else {
      DirtyLineMisreads(headers, rest, []);
      assert [] + headers == headers;
    }
  }
}
