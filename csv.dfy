/**
 * The quoting both result exports apply to every data cell, and a reader
 * for what they write: fields wrapped in double quotes with inner quotes
 * doubled, separated by commas, records separated by newlines. A newline
 * or comma inside a quoted field belongs to the field.
 */
module Csv {
  import opened Wrappers
  import opened Js

  /** `s.replace(/"/g, '""')`: every double quote is doubled. */
  function EscapeQuotes(s: string): (r: string)
    ensures |r| >= |s|
  {
    if |s| == 0 then ""
    else (if s[0] == '"' then "\"\"" else [s[0]]) + EscapeQuotes(s[1..])
  }

  /** One exported cell: the escaped text between double quotes. */
  function Quote(s: string): string {
    "\"" + EscapeQuotes(s) + "\""
  }

  /** One exported line: the quoted cells joined with commas. */
  function QuoteRow(cells: seq<string>): string {
    Join(seq(|cells|, i requires 0 <= i < |cells| => Quote(cells[i])), ",")
  }

  /** Lines joined with newlines, one per row. */
  function QuoteRows(rows: seq<seq<string>>): string {
    Join(seq(|rows|, i requires 0 <= i < |rows| => QuoteRow(rows[i])), "\n")
  }

  /**
   * Reads the inside of a quoted field, after its opening quote: `""`
   * stands for one quote, a lone `"` closes the field. Gives the field's
   * text and what follows the closing quote.
   */
  function ReadQuoted(s: string): (r: Option<(string, string)>)
    ensures r.Some? ==> |r.value.1| < |s|
  {
    if |s| == 0 then None
    else if s[0] == '"' then
      if |s| >= 2 && s[1] == '"' then
        match ReadQuoted(s[2..])
        case None => None
        case Some(p) => Some(("\"" + p.0, p.1))
      else Some(("", s[1..]))
    else
      match ReadQuoted(s[1..])
      case None => None
      case Some(p) => Some(([s[0]] + p.0, p.1))
  }

  /** Reads one quoted field at the start of `s`. */
  function ReadField(s: string): (r: Option<(string, string)>)
    ensures r.Some? ==> |r.value.1| < |s|
  {
    if |s| > 0 && s[0] == '"' then ReadQuoted(s[1..]) else None
  }

  /** Reads comma-separated quoted fields up to the end of a record. */
  function ReadRecord(s: string): (r: Option<(seq<string>, string)>)
    ensures r.Some? ==> |r.value.1| < |s| && |r.value.0| >= 1
    decreases |s|
  {
    match ReadField(s)
    case None => None
    case Some(f) =>
      if |f.1| > 0 && f.1[0] == ',' then
        match ReadRecord(f.1[1..])
        case None => None
        case Some(more) => Some(([f.0] + more.0, more.1))
      else Some(([f.0], f.1))
  }

  /** Reads newline-separated records up to the end of the text. */
  function ReadRecords(s: string): (r: Option<seq<seq<string>>>)
    decreases |s|
  {
    match ReadRecord(s)
    case None => None
    case Some(rec) =>
      if rec.1 == "" then Some([rec.0])
      else if rec.1[0] == '\n' then
        match ReadRecords(rec.1[1..])
        case None => None
        case Some(more) => Some([rec.0] + more)
      else None
  }

  /** The reader undoes the quote doubling. */
  lemma {:induction false} ReadQuotedEscape(t: string, rest: string)
    requires rest == "" || rest[0] != '"'
    ensures ReadQuoted(EscapeQuotes(t) + "\"" + rest) == Some((t, rest))
  {
    var s := EscapeQuotes(t) + "\"" + rest;
    if |t| == 0 {
      assert s == "\"" + rest;
      assert s[1..] == rest;
    } else if t[0] == '"' {
      assert s == "\"\"" + (EscapeQuotes(t[1..]) + "\"" + rest);
      assert s[2..] == EscapeQuotes(t[1..]) + "\"" + rest;
      ReadQuotedEscape(t[1..], rest);
      assert "\"" + t[1..] == t;
    } else {
      assert s == [t[0]] + (EscapeQuotes(t[1..]) + "\"" + rest);
      assert s[1..] == EscapeQuotes(t[1..]) + "\"" + rest;
      ReadQuotedEscape(t[1..], rest);
      assert [t[0]] + t[1..] == t;
    }
  }

  /** Reading a quoted cell gives back the text that was quoted. */
  lemma ReadFieldQuote(t: string, rest: string)
    requires rest == "" || rest[0] != '"'
    ensures ReadField(Quote(t) + rest) == Some((t, rest))
  {
    var s := Quote(t) + rest;
    assert s[1..] == EscapeQuotes(t) + "\"" + rest;
    ReadQuotedEscape(t, rest);
  }

  /** A quoted line reads back as its cells, whatever the cells contain. */
  lemma {:induction false} ReadRecordRoundTrip(cells: seq<string>, rest: string)
    requires |cells| >= 1
    requires rest == "" || (rest[0] != ',' && rest[0] != '"')
    ensures ReadRecord(QuoteRow(cells) + rest) == Some((cells, rest))
  {
    var parts := seq(|cells|, i requires 0 <= i < |cells| => Quote(cells[i]));
    if |cells| == 1 {
      assert QuoteRow(cells) == Quote(cells[0]);
      ReadFieldQuote(cells[0], rest);
      assert cells == [cells[0]];
    } else {
      var tail := QuoteRow(cells[1..]) + rest;
      assert parts[1..] == seq(|cells[1..]|, i requires 0 <= i < |cells[1..]| => Quote(cells[1..][i]));
      assert QuoteRow(cells) + rest == Quote(cells[0]) + ("," + tail);
      ReadFieldQuote(cells[0], "," + tail);
      assert ("," + tail)[1..] == tail;
      ReadRecordRoundTrip(cells[1..], rest);
      assert [cells[0]] + cells[1..] == cells;
    }
  }

  /** Quoted lines joined with newlines read back as the rows, in order. */
  lemma {:induction false} ReadRecordsRoundTrip(rows: seq<seq<string>>)
    requires |rows| >= 1
    requires forall i :: 0 <= i < |rows| ==> |rows[i]| >= 1
    ensures ReadRecords(QuoteRows(rows)) == Some(rows)
  {
    var lines := seq(|rows|, i requires 0 <= i < |rows| => QuoteRow(rows[i]));
    if |rows| == 1 {
      assert QuoteRows(rows) == QuoteRow(rows[0]) + "";
      ReadRecordRoundTrip(rows[0], "");
      assert rows == [rows[0]];
    } else {
      var tail := QuoteRows(rows[1..]);
      assert lines[1..] == seq(|rows[1..]|, i requires 0 <= i < |rows[1..]| => QuoteRow(rows[1..][i]));
      assert QuoteRows(rows) == QuoteRow(rows[0]) + ("\n" + tail);
      ReadRecordRoundTrip(rows[0], "\n" + tail);
      assert ("\n" + tail)[1..] == tail;
      ReadRecordsRoundTrip(rows[1..]);
      assert [rows[0]] + rows[1..] == rows;
    }
  }

  /** A header line followed by data lines is the header, a newline, then the data. */
  lemma JoinHeader(header: string, lines: seq<string>)
    requires |lines| >= 1
    ensures Join([header] + lines, "\n") == header + "\n" + Join(lines, "\n")
  {
    assert ([header] + lines)[1..] == lines;
  }
}
