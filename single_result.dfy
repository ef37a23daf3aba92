/**
 * The single result page (Result.js): which record it shows, and its CSV
 * and PDF downloads of that one record.
 */
module SingleResult {
  import opened Wrappers
  import opened Js
  import opened Csv

  const TypeErrorMessage: string := "TypeError"

  /** What `localStorage.getItem('hmpiResults')` holds, as `JSON.parse` sees it. */
  datatype Stored = Missing | Unparsable | Parsed(json: Value)

  /**
   * The record memo: the router state's record when both are truthy, else
   * `data[data.length - 1] || null` over the stored list (`[]` when nothing
   * is stored), else null; a parse failure, or a stored `null` whose
   * `length` throws, is caught and gives null.
   */
  function SelectRecord(state: Value, stored: Stored): (r: Value)
    ensures r.Null? || Truthy(r)
  {
    if Truthy(state) && Truthy(Member(state, "record")) then Member(state, "record")
    else match stored
      case Missing => Null
      case Unparsable => Null
      case Parsed(v) =>
        match v
        case Arr(items) => if |items| == 0 then Null else Or(items[|items| - 1], Null)
        case Str(s) => if |s| == 0 then Null else Str([s[|s| - 1]])
        case _ => Null
  }

  /** The three ways the page finds its record. */
  lemma SelectRecordSpec(state: Value, stored: Stored)
    ensures Truthy(state) && Truthy(Member(state, "record")) ==> SelectRecord(state, stored) == Member(state, "record")
    ensures !(Truthy(state) && Truthy(Member(state, "record"))) ==>
      (stored.Missing? || stored.Unparsable? ==> SelectRecord(state, stored).Null?)
    ensures !(Truthy(state) && Truthy(Member(state, "record"))) && stored.Parsed? && stored.json.Arr? ==>
      var items := stored.json.items;
      SelectRecord(state, stored) ==
        if |items| > 0 && Truthy(items[|items| - 1]) then items[|items| - 1] else Null
  {
  }

  // ----- the cells -----

  const Headers: seq<string> := ["Sample No.", "Latitude", "Longitude", "HPI", "HEI", "MI", "Cd", "Nemerow", "Classification"]

  /** The record's own fields the downloads print first, in order. */
  const Identity: seq<string> := ["sampleNo", "latitude", "longitude"]

  /** The outputs both downloads print with two decimals, in order. */
  const FixedKeys: seq<string> := ["HPI", "HEI", "MI", "Cd", "Nemerow"]

  /**
   * `x != null ? x.toFixed(2) : '-'`: '-' for null and undefined, two
   * decimals for a number, and a TypeError for anything else.
   */
  function FixedCell(x: Value, env: Env): (r: Result<Value, string>)
    ensures Nullish(x) ==> r == Ok(Str("-"))
    ensures x.Num? ==> r == Ok(Str(env.fixed2(x.n)))
    ensures r.Err? <==> !Nullish(x) && !x.Num?
  {
    if Nullish(x) then Ok(Str("-"))
    else if x.Num? then Ok(Str(env.fixed2(x.n)))
    else Err(TypeErrorMessage)
  }

  /** The five fixed-decimal output cells, or the TypeError of the first that throws. */
  function FixedCells(outputs: Value, env: Env): (r: Result<seq<Value>, string>)
    ensures r.Ok? <==> forall i :: 0 <= i < |FixedKeys| ==> FixedCell(Member(outputs, FixedKeys[i]), env).Ok?
    ensures r.Ok? ==> |r.value| == |FixedKeys|
    ensures r.Ok? ==> forall i :: 0 <= i < |FixedKeys| ==> r.value[i] == FixedCell(Member(outputs, FixedKeys[i]), env).value
  {
    if forall i :: 0 <= i < |FixedKeys| ==> FixedCell(Member(outputs, FixedKeys[i]), env).Ok? then
      Ok(seq(|FixedKeys|, i requires 0 <= i < |FixedKeys| => FixedCell(Member(outputs, FixedKeys[i]), env).value))
    else Err(TypeErrorMessage)
  }

  /** The CSV download's nine cells, before `String`. */
  function CsvCells(record: Value, env: Env): Result<seq<Value>, string> {
    var outputs := Member(record, "outputs");
    match FixedCells(outputs, env)
    case Err(e) => Err(e)
    case Ok(fixed) => Ok(CsvValues(record, fixed))
  }

  /** The CSV's cells around the five output cells `fixed`. */
  function CsvValues(record: Value, fixed: seq<Value>): seq<Value> {
    [Coalesce(Member(record, "sampleNo"), Str("-")),
     Coalesce(Member(record, "latitude"), Str("-")),
     Coalesce(Member(record, "longitude"), Str("-"))]
    + fixed
    + [Coalesce(Member(Member(record, "outputs"), "classification"), Str("-"))]
  }

  /** The CSV download throws exactly when some output is neither missing nor a number. */
  lemma CsvCellsOk(record: Value, env: Env)
    ensures var outputs := Member(record, "outputs");
      CsvCells(record, env).Ok? <==>
        forall i :: 0 <= i < |FixedKeys| ==> Nullish(Member(outputs, FixedKeys[i])) || Member(outputs, FixedKeys[i]).Num?
  {
  }

  /**
   * Nine cells in header order; sample number and coordinates keep 0 and ""
   * and show '-' only for null or undefined, and so does the classification.
   */
  lemma CsvCellsIdentity(record: Value, env: Env)
    requires CsvCells(record, env).Ok?
    ensures var cells := CsvCells(record, env).value;
      |cells| == |Headers|
      && (forall i :: 0 <= i < 3 ==>
            cells[i] == if Nullish(Member(record, Identity[i])) then Str("-") else Member(record, Identity[i]))
      && cells[8] == Coalesce(Member(Member(record, "outputs"), "classification"), Str("-"))
  {
    var cells := CsvCells(record, env).value;
    assert cells == CsvValues(record, FixedCells(Member(record, "outputs"), env).value);
    forall i | 0 <= i < 3
      ensures cells[i] == if Nullish(Member(record, Identity[i])) then Str("-") else Member(record, Identity[i])
    {
      if i == 0 {} else if i == 1 {} else {}
    }
  }

  /** Each output cell is '-' when that output is missing, else its two-decimal text. */
  lemma CsvCellsOutputs(record: Value, env: Env)
    requires CsvCells(record, env).Ok?
    ensures var cells := CsvCells(record, env).value;
      var outputs := Member(record, "outputs");
      |cells| == |Headers|
      && forall i :: 0 <= i < |FixedKeys| ==>
            cells[3 + i] == if Nullish(Member(outputs, FixedKeys[i])) then Str("-")
                            else Str(env.fixed2(Member(outputs, FixedKeys[i]).n))
  {
    var fixed := FixedCells(Member(record, "outputs"), env).value;
    var cells := CsvCells(record, env).value;
    forall i | 0 <= i < |FixedKeys| ensures cells[3 + i] == fixed[i] { }
  }

  /** With no outputs at all, every output cell of the CSV is '-'. */
  lemma MissingOutputsDash(record: Value, env: Env)
    requires Nullish(Member(record, "outputs"))
    ensures CsvCells(record, env).Ok?
    ensures forall i :: 3 <= i < |Headers| ==> CsvCells(record, env).value[i] == Str("-")
  {
    CsvCellsOk(record, env);
    CsvCellsIdentity(record, env);
    CsvCellsOutputs(record, env);
    var cells := CsvCells(record, env).value;
    forall i | 3 <= i < |Headers| ensures cells[i] == Str("-") {
      if i < 8 {
        assert cells[3 + (i - 3)] == cells[i];
      }
    }
  }

  // ----- the downloads -----

  /** What a download button does: nothing, throw, or save a file. */
  datatype Download<T> = Skipped | Failed(error: string) | Saved(fileName: string, content: T)

  /** `safesip_result_sample_${record.sampleNo || 'latest'}` plus the extension. */
  function FileName(record: Value, ext: string, env: Env): (name: string)
    ensures !Truthy(Member(record, "sampleNo")) ==> name == "safesip_result_sample_latest" + ext
    ensures Member(record, "sampleNo").Str? && Truthy(Member(record, "sampleNo")) ==>
      name == "safesip_result_sample_" + Member(record, "sampleNo").s + ext
    ensures Truthy(Member(record, "sampleNo")) ==>
      name == "safesip_result_sample_" + ToStr(Member(record, "sampleNo"), env.show) + ext
  {
    "safesip_result_sample_" + ToStr(Or(Member(record, "sampleNo"), Str("latest")), env.show) + ext
  }

  /** The header line: the nine names joined with commas, not quoted. */
  function HeaderLine(): string {
    Join(Headers, ",")
  }

  /** `String(v)` of each cell. */
  function CellTexts(cells: seq<Value>, env: Env): (strs: seq<string>)
    ensures |strs| == |cells|
  {
    seq(|cells|, i requires 0 <= i < |cells| => ToStr(cells[i], env.show))
  }

  /** handleDownloadCsv. */
  function CsvDownload(record: Value, env: Env): (d: Download<string>)
    ensures d.Skipped? <==> !Truthy(record)
    ensures d.Failed? <==> Truthy(record) && CsvCells(record, env).Err?
    ensures d.Saved? ==> d.fileName == FileName(record, ".csv", env)
  {
    if !Truthy(record) then Skipped
    else match CsvCells(record, env)
      case Err(e) => Failed(e)
      case Ok(cells) =>
        Saved(FileName(record, ".csv", env),
              HeaderLine() + "\n" + QuoteRow(CellTexts(cells, env)))
  }

  /**
   * A saved CSV is the header line, a newline, and one quoted line that
   * reads back as the nine cells' strings, whatever they contain.
   */
  lemma CsvDownloadRoundTrip(record: Value, env: Env)
    requires CsvDownload(record, env).Saved?
    ensures CsvCells(record, env).Ok?
    ensures var strs := CellTexts(CsvCells(record, env).value, env);
      |strs| == |Headers|
      && CsvDownload(record, env).content == HeaderLine() + "\n" + QuoteRow(strs)
      && ReadRecords(QuoteRow(strs)) == Some([strs])
    ensures '\n' !in HeaderLine() && '"' !in HeaderLine()
  {
    CsvCellsIdentity(record, env);
    var strs := CellTexts(CsvCells(record, env).value, env);
    ReadRecordsRoundTrip([strs]);
    assert QuoteRows([strs]) == QuoteRow(strs);
    HeaderPlain();
  }

  lemma HeaderPlain()
    ensures '\n' !in HeaderLine() && '"' !in HeaderLine()
  {
    forall i | 0 <= i < |Headers| ensures '\n' !in Headers[i] && '"' !in Headers[i] {
      NameIsPlain(Headers[i]);
    }
    JoinAvoids(Headers, ",", '\n');
    JoinAvoids(Headers, ",", '"');
  }

  /** No column name holds a newline or a quote. */
  lemma NameIsPlain(h: string)
    requires h in Headers
    ensures '\n' !in h && '"' !in h
  {
  }

  /** The PDF's label/value rows, before `String`. */
  function PdfRows(record: Value, env: Env): Result<seq<(string, Value)>, string> {
    var outputs := Member(record, "outputs");
    match FixedCells(outputs, env)
    case Err(e) => Err(e)
    case Ok(fixed) => Ok(Labelled(PdfValues(record, fixed, env)))
  }

  /** The PDF's values around the five output cells `fixed`. */
  function PdfValues(record: Value, fixed: seq<Value>, env: Env): seq<Value> {
    [Str(ToStr(Or(Member(record, "sampleNo"), Str("-")), env.show)),
     Coalesce(Member(record, "latitude"), Str("-")),
     Coalesce(Member(record, "longitude"), Str("-"))]
    + fixed
    + [Or(Member(Member(record, "outputs"), "classification"), Str("-"))]
  }

  /** Each value beside its column name. */
  function Labelled(values: seq<Value>): (rows: seq<(string, Value)>)
    requires |values| == |Headers|
    ensures |rows| == |Headers|
    ensures forall i :: 0 <= i < |Headers| ==> rows[i] == (Headers[i], values[i])
  {
    seq(|Headers|, i requires 0 <= i < |Headers| => (Headers[i], values[i]))
  }

  /** The PDF rows throw exactly when the CSV cells do, and carry the CSV's nine labels in order. */
  lemma PdfRowsLabels(record: Value, env: Env)
    ensures PdfRows(record, env).Ok? <==> CsvCells(record, env).Ok?
    ensures PdfRows(record, env).Ok? ==>
      var rows := PdfRows(record, env).value;
      |rows| == |Headers| && forall i :: 0 <= i < |Headers| ==> rows[i].0 == Headers[i]
  {
  }

  /**
   * The PDF rows agree with the CSV cells on coordinates and outputs;
   * sample number and classification use `||` there, so a falsy one shows '-'.
   */
  lemma PdfRowsMatchCsv(record: Value, env: Env)
    requires PdfRows(record, env).Ok?
    ensures CsvCells(record, env).Ok?
    ensures var rows := PdfRows(record, env).value;
      var cells := CsvCells(record, env).value;
      |rows| == |Headers| && |cells| == |Headers|
      && (forall i :: 1 <= i < 8 ==> rows[i].1 == cells[i])
      && (!Truthy(Member(record, "sampleNo")) ==> rows[0].1 == Str("-"))
      && (!Truthy(Member(Member(record, "outputs"), "classification")) ==> rows[8].1 == Str("-"))
  {
    PdfRowsLabels(record, env);
    var fixed := FixedCells(Member(record, "outputs"), env).value;
    ValuesAgree(record, fixed, env);
    PdfDashes(record, fixed, env);
    var pdf := PdfValues(record, fixed, env);
    var csv := CsvValues(record, fixed);
    forall i | 1 <= i < 8 ensures pdf[i] == csv[i] {
      assert pdf[i] == pdf[1..8][i - 1];
      assert csv[i] == csv[1..8][i - 1];
    }
  }

  /** Both value lists, pointwise, around the same output cells. */
  lemma ValuesAgree(record: Value, fixed: seq<Value>, env: Env)
    requires |fixed| == |FixedKeys|
    ensures |PdfValues(record, fixed, env)| == |CsvValues(record, fixed)| == |Headers|
    ensures PdfValues(record, fixed, env)[1..8] == CsvValues(record, fixed)[1..8]
  {
  }

  /** The PDF's sample number and classification fall back to '-' when falsy. */
  lemma PdfDashes(record: Value, fixed: seq<Value>, env: Env)
    requires |fixed| == |FixedKeys|
    ensures !Truthy(Member(record, "sampleNo")) ==> PdfValues(record, fixed, env)[0] == Str("-")
    ensures !Truthy(Member(Member(record, "outputs"), "classification")) ==> PdfValues(record, fixed, env)[8] == Str("-")
  {
  }



  // ----- the PDF layout -----

  /** The distance to the next row after a value printed on `lines` lines. */
  function Advance(lines: nat): int {
    8 + (lines - 1) * 6
  }

  /** Where each row is printed, given how many lines `splitTextToSize` gave each value. */
  function RowPositions(lines: seq<nat>): (ys: seq<int>)
    ensures |ys| == |lines|
    ensures |ys| > 0 ==> ys[0] == 36
    ensures forall i :: 0 <= i < |ys| - 1 ==> ys[i + 1] == ys[i] + Advance(lines[i])
  {
    if |lines| == 0 then []
    else if |lines| == 1 then [36]
    else
      var pre := RowPositions(lines[..|lines| - 1]);
      pre + [pre[|pre| - 1] + Advance(lines[|lines| - 2])]
  }

  /** The `y` after the last row. */
  function EndPosition(lines: seq<nat>): int {
    if |lines| == 0 then 36 else RowPositions(lines)[|lines| - 1] + Advance(lines[|lines| - 1])
  }

  /** The `forEach` over the rows: `y` starts at 36 and grows after each row. */
  method LayoutRows(lines: seq<nat>) returns (ys: seq<int>, y: int)
    ensures ys == RowPositions(lines)
    ensures y == EndPosition(lines)
  {
    ys := [];
    y := 36;
    var i := 0;
    while i < |lines|
      invariant 0 <= i <= |lines|
      invariant ys == RowPositions(lines[..i])
      invariant y == EndPosition(lines[..i])
    {
      assert lines[..i + 1][..i] == lines[..i];
      ys := ys + [y];
      y := y + Advance(lines[i]);
      i := i + 1;
    }
    assert lines[..i] == lines;
  }

  /** When every value takes at least one line, rows are at least 8 apart, in order. */
  lemma {:induction false} RowsSpaced(lines: seq<nat>, j: nat, k: nat)
    requires forall i :: 0 <= i < |lines| ==> lines[i] >= 1
    requires j < k < |lines|
    ensures RowPositions(lines)[k] >= RowPositions(lines)[j] + 8 * (k - j)
  {
    var ys := RowPositions(lines);
    if k > j + 1 {
      RowsSpaced(lines, j, k - 1);
    }
    assert ys[k] == ys[k - 1] + Advance(lines[k - 1]);
  }

  /** handleDownloadPdf: the rows and where each is printed. */
  datatype PdfPage = PdfPage(rows: seq<(string, Value)>, ys: seq<int>)

  /**
   * handleDownloadPdf: nothing without a record or the jsPDF global;
   * `lineCount` is the foreign `splitTextToSize(String(value), 180).length`.
   */
  function PdfDownload(record: Value, jspdfLoaded: bool, lineCount: string -> nat, env: Env): (d: Download<PdfPage>)
    ensures d.Skipped? <==> !Truthy(record) || !jspdfLoaded
    ensures d.Failed? <==> Truthy(record) && jspdfLoaded && PdfRows(record, env).Err?
    ensures d.Saved? ==> d.fileName == FileName(record, ".pdf", env) && |d.content.ys| == |d.content.rows| == |Headers|
    ensures d.Saved? ==>
      var rows := PdfRows(record, env).value;
      d.content == PdfPage(rows, RowPositions(LineCounts(rows, lineCount, env)))
  {
    if !Truthy(record) || !jspdfLoaded then Skipped
    else match PdfRows(record, env)
      case Err(e) => Failed(e)
      case Ok(rows) =>
        Saved(FileName(record, ".pdf", env), PdfPage(rows, RowPositions(LineCounts(rows, lineCount, env))))
  }

  /** How many wrapped lines each row's value takes. */
  function LineCounts(rows: seq<(string, Value)>, lineCount: string -> nat, env: Env): (lines: seq<nat>)
    ensures |lines| == |rows|
    ensures forall i :: 0 <= i < |rows| ==> lines[i] == lineCount(ToStr(rows[i].1, env.show))
  {
    if |rows| == 0 then []
    else [lineCount(ToStr(rows[0].1, env.show))] + LineCounts(rows[1..], lineCount, env)
  }
}
