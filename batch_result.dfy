/**
 * The batch results page (src/components/Result.js): the stored records,
 * the eleven export columns with their `??` fallback chains, the CSV and
 * PDF exports, the classification badge and the map markers.
 */
module BatchResult {
  import opened Wrappers
  import opened Objects
  import opened Js
  import opened Csv

  const TypeErrorMessage: string := "TypeError"

  /**
   * `JSON.parse(localStorage.getItem('hmpiResults') || '[]')` as the page
   * then uses it. `parsed` is None when nothing is stored or the text is
   * not JSON (the catch gives `[]`). A value without a truthy `length`
   * shows the empty page. The reads of `records.length` and of each
   * record's fields throw for `null`, for a value with a truthy `length`
   * that is not an array, and for an array holding null or undefined;
   * those are the Err cases. Throws from what rendering does with a
   * record's values are not part of this function.
   */
  function LoadRecords(parsed: Option<Value>): (r: Result<seq<Entries<Value>>, string>)
    ensures parsed.None? ==> r == Ok([])
    ensures r.Ok? && |r.value| > 0 ==> parsed.Some? && parsed.value.Arr?
    ensures parsed.Some? && parsed.value.Arr? ==>
      var items := parsed.value.items;
      && (r.Err? <==> exists i :: 0 <= i < |items| && Nullish(items[i]))
      && (r.Ok? ==> |r.value| == |items| && forall i :: 0 <= i < |items| && items[i].Obj? ==> r.value[i] == items[i].fields)
    ensures parsed == Some(Null) ==> r.Err?
    ensures parsed.Some? && parsed.value.Str? ==> (r.Err? <==> parsed.value.s != "")
    ensures parsed.Some? && parsed.value.Obj? ==> (r.Err? <==> Truthy(Get(parsed.value.fields, "length")))
    ensures parsed.Some? && (parsed.value.Bool? || parsed.value.Num?) ==> r == Ok([])
  {
    match parsed
    case None => Ok([])
    case Some(v) =>
      match v
      case Arr(items) =>
        if exists i :: 0 <= i < |items| && Nullish(items[i]) then Err(TypeErrorMessage)
        else Ok(seq(|items|, i requires 0 <= i < |items| => if items[i].Obj? then items[i].fields else []))
      case Null => Err(TypeErrorMessage)
      case Undefined => Err(TypeErrorMessage)
      case Str(s) => if s == "" then Ok([]) else Err(TypeErrorMessage)
      case Obj(fields) => if Truthy(Get(fields, "length")) then Err(TypeErrorMessage) else Ok([])
      case _ => Ok([])
  }

  // ----- the export columns -----

  /** A property the columns read: `rec.key`, or `rec.outputs?.key`. */
  datatype Path = Top(key: string) | Nested(key: string)

  function Read(rec: Entries<Value>, p: Path): Value {
    match p
    case Top(k) => Get(rec, k)
    case Nested(k) => Member(Get(rec, "outputs"), k)
  }

  /** `a ?? b ?? ... ?? '-'` over the reads of `chain`. */
  function FirstPresent(rec: Entries<Value>, chain: seq<Path>): Value {
    if |chain| == 0 then Str("-") else Coalesce(Read(rec, chain[0]), FirstPresent(rec, chain[1..]))
  }

  /** Position of the first read that is neither null nor undefined, or `|chain|`. */
  function PresentIndex(rec: Entries<Value>, chain: seq<Path>): (i: nat)
    ensures i <= |chain|
    ensures i < |chain| ==> !Nullish(Read(rec, chain[i]))
    ensures forall j :: 0 <= j < i ==> Nullish(Read(rec, chain[j]))
  {
    if |chain| == 0 then 0
    else if !Nullish(Read(rec, chain[0])) then 0
    else 1 + PresentIndex(rec, chain[1..])
  }

  /**
   * A cell is the first of its reads that is not null or undefined (so 0,
   * false and "" are kept), and '-' when every read is null or undefined.
   */
  lemma {:induction false} FirstPresentSpec(rec: Entries<Value>, chain: seq<Path>)
    ensures FirstPresent(rec, chain) ==
      if PresentIndex(rec, chain) < |chain| then Read(rec, chain[PresentIndex(rec, chain)]) else Str("-")
  {
    if |chain| > 0 && Nullish(Read(rec, chain[0])) {
      FirstPresentSpec(rec, chain[1..]);
    }
  }

  /** The eleven columns, in export order, as the CSV export reads them. */
  const Columns: seq<seq<Path>> := [
    [Top("SampleNo"), Top("sampleNo")],
    [Top("State"), Top("state")],
    [Top("Location"), Top("location")],
    [Top("Latitude"), Top("latitude")],
    [Top("Longitude"), Top("longitude")],
    [Top("HPI"), Nested("HPI")],
    [Top("HEI"), Nested("HEI")],
    [Top("MI"), Nested("MI")],
    [Top("Cd"), Nested("Cd")],
    [Top("Nemerow"), Nested("Nemerow")],
    [Top("Classification"), Top("classification"), Nested("classification")]]

  const Headers: seq<string> :=
    ["Sample No.", "State", "Location", "Latitude", "Longitude", "HPI", "HEI", "MI", "Cd", "Nemerow", "Classification"]

  /** The cell values of one record, in column order. */
  function CellValues(rec: Entries<Value>): (cells: seq<Value>)
    ensures |cells| == |Headers|
    ensures forall i :: 0 <= i < |cells| ==> cells[i] == FirstPresent(rec, Columns[i])
  {
    seq(|Columns|, i requires 0 <= i < |Columns| => FirstPresent(rec, Columns[i]))
  }

  /** The PDF export's row for one record, as its own `??` chains spell it. */
  function PdfRow(rec: Entries<Value>): seq<Value> {
    [Coalesce(Coalesce(Get(rec, "SampleNo"), Get(rec, "sampleNo")), Str("-")),
     Coalesce(Coalesce(Get(rec, "State"), Get(rec, "state")), Str("-")),
     Coalesce(Coalesce(Get(rec, "Location"), Get(rec, "location")), Str("-")),
     Coalesce(Coalesce(Get(rec, "Latitude"), Get(rec, "latitude")), Str("-")),
     Coalesce(Coalesce(Get(rec, "Longitude"), Get(rec, "longitude")), Str("-")),
     Coalesce(Coalesce(Get(rec, "HPI"), Member(Get(rec, "outputs"), "HPI")), Str("-")),
     Coalesce(Coalesce(Get(rec, "HEI"), Member(Get(rec, "outputs"), "HEI")), Str("-")),
     Coalesce(Coalesce(Get(rec, "MI"), Member(Get(rec, "outputs"), "MI")), Str("-")),
     Coalesce(Coalesce(Get(rec, "Cd"), Member(Get(rec, "outputs"), "Cd")), Str("-")),
     Coalesce(Coalesce(Get(rec, "Nemerow"), Member(Get(rec, "outputs"), "Nemerow")), Str("-")),
     Coalesce(Coalesce(Coalesce(Get(rec, "Classification"), Get(rec, "classification")),
       Member(Get(rec, "outputs"), "classification")), Str("-"))]
  }

  /** A two-read chain is `(a ?? b) ?? '-'`. */
  lemma Chain2(rec: Entries<Value>, a: Path, b: Path)
    ensures FirstPresent(rec, [a, b]) == Coalesce(Coalesce(Read(rec, a), Read(rec, b)), Str("-"))
  {
    assert [a, b][1..] == [b];
    assert [b][1..] == [];
    assert FirstPresent(rec, [b]) == Coalesce(Read(rec, b), Str("-"));
  }

  /** A three-read chain is `((a ?? b) ?? c) ?? '-'`. */
  lemma Chain3(rec: Entries<Value>, a: Path, b: Path, c: Path)
    ensures FirstPresent(rec, [a, b, c]) ==
      Coalesce(Coalesce(Coalesce(Read(rec, a), Read(rec, b)), Read(rec, c)), Str("-"))
  {
    assert [a, b, c][1..] == [b, c];
    Chain2(rec, b, c);
  }

  /** Cell `i` of the PDF row is column `i`'s chain. */
  lemma PdfCellMatches(rec: Entries<Value>, i: nat)
    requires i < |Columns|
    ensures PdfRow(rec)[i] == FirstPresent(rec, Columns[i])
  {
    if i < 5 {
      IdentityCellMatches(rec, i);
    } else if i < 10 {
      OutputCellMatches(rec, i);
    } else {
      Chain3(rec, Columns[i][0], Columns[i][1], Columns[i][2]);
      assert Columns[i] == [Columns[i][0], Columns[i][1], Columns[i][2]];
    }
  }

  /** The first five cells read the record's own fields. */
  lemma IdentityCellMatches(rec: Entries<Value>, i: nat)
    requires i < 5
    ensures PdfRow(rec)[i] == FirstPresent(rec, Columns[i])
  {
    Chain2(rec, Columns[i][0], Columns[i][1]);
    assert Columns[i] == [Columns[i][0], Columns[i][1]];
  }

  /** The five index cells fall back to the record's outputs. */
  lemma OutputCellMatches(rec: Entries<Value>, i: nat)
    requires 5 <= i < 10
    ensures PdfRow(rec)[i] == FirstPresent(rec, Columns[i])
  {
    Chain2(rec, Columns[i][0], Columns[i][1]);
    assert Columns[i] == [Columns[i][0], Columns[i][1]];
  }

  /** The PDF table and the CSV file show the same eleven cells for every record. */
  lemma PdfRowMatchesCsv(rec: Entries<Value>)
    ensures PdfRow(rec) == CellValues(rec)
  {
    forall i | 0 <= i < |Columns| ensures PdfRow(rec)[i] == CellValues(rec)[i] {
      PdfCellMatches(rec, i);
    }
  }

  // ----- handleDownloadCsv -----

  const CsvFileName: string := "safesip_results.csv"

  /** The header line: the names joined with commas, not quoted. */
  function HeaderLine(): string {
    Join(Headers, ",")
  }

  /** `String(v)` of every cell of a record. */
  function CellStrings(rec: Entries<Value>, env: Env): (cells: seq<string>)
    ensures |cells| == |Headers|
  {
    seq(|Headers|, i requires 0 <= i < |Headers| => ToStr(CellValues(rec)[i], env.show))
  }

  /** The cell strings of every record, in record order. */
  function CellTable(records: seq<Entries<Value>>, env: Env): (rows: seq<seq<string>>)
    ensures |rows| == |records|
    ensures forall i :: 0 <= i < |rows| ==> rows[i] == CellStrings(records[i], env)
  {
    seq(|records|, i requires 0 <= i < |records| => CellStrings(records[i], env))
  }

  /** One quoted line per record, in record order. */
  function DataLines(records: seq<Entries<Value>>, env: Env): (lines: seq<string>)
    ensures |lines| == |records|
  {
    if |records| == 0 then []
    else DataLines(records[..|records| - 1], env) + [QuoteRow(CellStrings(records[|records| - 1], env))]
  }

  /** Line `i` is record `i`'s quoted cells. */
  lemma {:induction false} DataLinesAt(records: seq<Entries<Value>>, env: Env, i: nat)
    requires i < |records|
    ensures DataLines(records, env)[i] == QuoteRow(CellStrings(records[i], env))
  {
    var n := |records|;
    if i < n - 1 {
      assert records[..n - 1][i] == records[i];
      DataLinesAt(records[..n - 1], env, i);
    }
  }

  /** One more record: one more line at the end. */
  lemma DataLinesStep(records: seq<Entries<Value>>, i: nat, env: Env)
    requires i < |records|
    ensures DataLines(records[..i + 1], env) == DataLines(records[..i], env) + [QuoteRow(CellStrings(records[i], env))]
  {
    assert records[..i + 1][..i] == records[..i];
  }

  /** The file the export writes, or None when there are no records. */
  function CsvDocument(records: seq<Entries<Value>>, env: Env): Option<string> {
    if |records| == 0 then None
    else Some(Join([HeaderLine()] + DataLines(records, env), "\n"))
  }

  /** handleDownloadCsv: `csvRows` starts with the header and gets one line per record. */
  method DownloadCsv(records: seq<Entries<Value>>, env: Env) returns (csv: Option<string>)
    ensures csv == CsvDocument(records, env)
  {
    if |records| == 0 {
      return None;
    }
    var csvRows := [HeaderLine()];
    var i := 0;
    while i < |records|
      invariant 0 <= i <= |records|
      invariant csvRows == [HeaderLine()] + DataLines(records[..i], env)
    {
      DataLinesStep(records, i, env);
      csvRows := csvRows + [QuoteRow(CellStrings(records[i], env))];
      i := i + 1;
    }
    assert records[..i] == records;
    csv := Some(Join(csvRows, "\n"));
  }

  /**
   * The file is the header line, a newline, then the records' quoted lines;
   * reading the quoted part back gives every record's eleven cell strings,
   * in record order, whatever quotes, commas or newlines they contain.
   */
  lemma CsvRoundTrip(records: seq<Entries<Value>>, env: Env)
    requires |records| > 0
    ensures CsvDocument(records, env) == Some(HeaderLine() + "\n" + QuoteRows(CellTable(records, env)))
    ensures ReadRecords(QuoteRows(CellTable(records, env))) == Some(CellTable(records, env))
    ensures '\n' !in HeaderLine() && '"' !in HeaderLine()
  {
    CsvDocumentShape(records, env);
    CellTableReads(records, env);
    HeaderPlain();
  }

  /** The data lines are the quoted rows of the cell table. */
  lemma DataLinesQuoted(records: seq<Entries<Value>>, env: Env)
    ensures DataLines(records, env) ==
      seq(|records|, i requires 0 <= i < |records| => QuoteRow(CellTable(records, env)[i]))
  {
    var lines := DataLines(records, env);
    forall i | 0 <= i < |records| ensures lines[i] == QuoteRow(CellTable(records, env)[i]) {
      DataLinesAt(records, env, i);
    }
  }

  lemma CsvDocumentShape(records: seq<Entries<Value>>, env: Env)
    requires |records| > 0
    ensures CsvDocument(records, env) == Some(HeaderLine() + "\n" + QuoteRows(CellTable(records, env)))
  {
    DataLinesQuoted(records, env);
    JoinHeader(HeaderLine(), DataLines(records, env));
  }

  lemma CellTableReads(records: seq<Entries<Value>>, env: Env)
    requires |records| > 0
    ensures ReadRecords(QuoteRows(CellTable(records, env))) == Some(CellTable(records, env))
  {
    ReadRecordsRoundTrip(CellTable(records, env));
  }

  lemma HeaderPlain()
    ensures '\n' !in HeaderLine() && '"' !in HeaderLine()
  {
    forall i | 0 <= i < |Headers| ensures '\n' !in Headers[i] && '"' !in Headers[i] {
      NameIsPlain(Headers[i]);
    }
    JoinAvoids(Headers, ",", '\n');
    JoinAvoids(Headers, ",", '"');
  }

  /** No column name holds a newline or a quote. */
  lemma NameIsPlain(h: string)
    requires h in Headers
    ensures '\n' !in h && '"' !in h
  {
  }

  // ----- handleDownloadPdf -----

  const PdfFileName: string := "safesip_results.pdf"

  /** What the PDF export hands to autoTable. */
  datatype PdfTable = PdfTable(head: seq<string>, body: seq<seq<Value>>, startY: int)

  /** handleDownloadPdf: nothing without records or without the jsPDF global. */
  function PdfExport(records: seq<Entries<Value>>, jspdfLoaded: bool): (t: Option<PdfTable>)
    ensures t.Some? <==> |records| > 0 && jspdfLoaded
    ensures t.Some? ==> t.value.head == Headers && |t.value.body| == |records|
    ensures t.Some? ==> forall i :: 0 <= i < |records| ==> t.value.body[i] == PdfRow(records[i])
  {
    if |records| == 0 || !jspdfLoaded then None
    else Some(PdfTable(Headers, seq(|records|, i requires 0 <= i < |records| => PdfRow(records[i])), 90))
  }

  // ----- getBadgeClass -----

  /**
   * `(classification || '').toLowerCase()` then the comparisons; None when
   * a truthy value that is not a string has no `toLowerCase` (TypeError).
   */
  function BadgeClass(classification: Value): Option<string> {
    if !Truthy(classification) then Some("badge-safe")
    else match classification
      case Str(s) =>
        var cls := ToLower(s);
        if cls == "caution" then Some("badge-caution")
        else if cls == "unsafe" then Some("badge-unsafe")
        else Some("badge-safe")
      case _ => None
  }

  /**
   * A string gets badge-caution exactly when it is "caution" in any letter
   * case, badge-unsafe exactly when it is "unsafe" in any case, and
   * badge-safe otherwise; null, undefined and "" get badge-safe.
   */
  lemma BadgeClassSpec(v: Value)
    ensures !Truthy(v) ==> BadgeClass(v) == Some("badge-safe")
    ensures v.Str? ==> BadgeClass(v).Some?
    ensures v.Str? ==> (BadgeClass(v) == Some("badge-caution") <==> ToLower(v.s) == "caution")
    ensures v.Str? ==> (BadgeClass(v) == Some("badge-unsafe") <==> ToLower(v.s) == "unsafe")
    ensures v.Str? ==> (BadgeClass(v) == Some("badge-safe") <==> ToLower(v.s) != "caution" && ToLower(v.s) != "unsafe")
  {
    if v.Str? && v.s == "" {
      assert ToLower(v.s) == "";
    }
  }

  /** Letter case does not matter: strings equal up to case get the same badge. */
  lemma BadgeIgnoresCase(s: string, t: string)
    requires ToLower(s) == ToLower(t)
    ensures BadgeClass(Str(s)) == BadgeClass(Str(t))
  {
    if s == "" || t == "" {
      assert |s| == |ToLower(s)| == |ToLower(t)| == |t|;
    }
  }

  // ----- the map markers -----

  datatype Marker = Marker(index: nat, lat: Number, lng: Number)

  /**
   * The marker of record `idx`, unless one of its coordinates parses to
   * NaN; `parse` is `parseFloat` (ParseValueWith).
   */
  function MarkerAt(rec: Entries<Value>, idx: nat, parse: Value -> Number): (m: Option<Marker>)
    ensures m.Some? ==> m.value.index == idx && !m.value.lat.NaN? && !m.value.lng.NaN?
  {
    var lat := parse(Coalesce(Get(rec, "latitude"), Get(rec, "Latitude")));
    var lng := parse(Coalesce(Get(rec, "longitude"), Get(rec, "Longitude")));
    if lat.NaN? || lng.NaN? then None else Some(Marker(idx, lat, lng))
  }

  /** The values of the present options, in order. */
  function Somes(opts: seq<Option<Marker>>): (r: seq<Marker>)
    ensures forall x :: x in r ==> Some(x) in opts
  {
    if |opts| == 0 then []
    else
      var pre := Somes(opts[..|opts| - 1]);
      assert forall x :: Some(x) in opts[..|opts| - 1] ==> Some(x) in opts;
      if opts[|opts| - 1].Some? then pre + [opts[|opts| - 1].value] else pre
  }

  /** Every present option is kept. */
  lemma {:induction false} SomesComplete(opts: seq<Option<Marker>>, i: nat)
    requires i < |opts| && opts[i].Some?
    ensures opts[i].value in Somes(opts)
  {
    var n := |opts|;
    if i < n - 1 {
      assert opts[..n - 1][i] == opts[i];
      SomesComplete(opts[..n - 1], i);
    }
  }

  /** Indices strictly increase along `ms`. */
  predicate IndicesIncrease(ms: seq<Marker>) {
    forall j, k :: 0 <= j < k < |ms| ==> ms[j].index < ms[k].index
  }

  /** When option `i` holds index `i`, the kept values have increasing indices. */
  lemma {:induction false} SomesOrdered(opts: seq<Option<Marker>>)
    requires forall i :: 0 <= i < |opts| && opts[i].Some? ==> opts[i].value.index == i
    ensures IndicesIncrease(Somes(opts))
  {
    if |opts| > 0 {
      var n := |opts|;
      var pre := opts[..n - 1];
      assert forall i :: 0 <= i < |pre| && pre[i].Some? ==> pre[i].value.index == i by {
        forall i | 0 <= i < |pre| ensures pre[i] == opts[i] { }
      }
      SomesOrdered(pre);
      var kept := Somes(pre);
      forall x | x in kept ensures x.index < n - 1 {
        var i :| 0 <= i < |pre| && pre[i] == Some(x);
      }
      if opts[n - 1].Some? {
        var ms := kept + [opts[n - 1].value];
        assert Somes(opts) == ms;
        forall j, k | 0 <= j < k < |ms| ensures ms[j].index < ms[k].index {
          if k == |kept| {
            assert ms[j] in kept;
          } else {
            assert ms[j] == kept[j] && ms[k] == kept[k];
          }
        }
      } else {
        assert Somes(opts) == kept;
      }
    }
  }

  /** What `parseFloat` gives for each record, as a marker or None. */
  function MarkerOptions(records: seq<Entries<Value>>, parse: Value -> Number): (opts: seq<Option<Marker>>)
    ensures |opts| == |records|
    ensures forall i :: 0 <= i < |records| ==> opts[i] == MarkerAt(records[i], i, parse)
  {
    seq(|records|, i requires 0 <= i < |records| => MarkerAt(records[i], i, parse))
  }

  /** The markers the map shows: each is the marker of the record at its index. */
  function Markers(records: seq<Entries<Value>>, parse: Value -> Number): (ms: seq<Marker>)
    ensures forall m :: m in ms ==>
      m.index < |records| && MarkerAt(records[m.index], m.index, parse) == Some(m)
  {
    var opts := MarkerOptions(records, parse);
    assert forall m :: Some(m) in opts ==> m.index < |records| && MarkerAt(records[m.index], m.index, parse) == Some(m);
    Somes(opts)
  }

  /** Every record whose two coordinates parse to numbers has its marker on the map. */
  lemma MarkersComplete(records: seq<Entries<Value>>, i: nat, parse: Value -> Number)
    requires i < |records| && MarkerAt(records[i], i, parse).Some?
    ensures MarkerAt(records[i], i, parse).value in Markers(records, parse)
  {
    SomesComplete(MarkerOptions(records, parse), i);
  }

  /** The markers keep the records' order: their indices strictly increase. */
  lemma MarkersOrdered(records: seq<Entries<Value>>, parse: Value -> Number)
    ensures IndicesIncrease(Markers(records, parse))
  {
    var opts := MarkerOptions(records, parse);
    forall i | 0 <= i < |opts| && opts[i].Some? ensures opts[i].value.index == i {
      assert opts[i] == MarkerAt(records[i], i, parse);
    }
    SomesOrdered(opts);
  }
}
