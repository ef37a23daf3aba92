/**
 * The single-sample calculator page (Calculator.js): the ten metal fields
 * and the sample coordinates as the user types them or as a CSV/Excel
 * upload fills them, the normalisation that turns the fields into the
 * request body, and the downloadable CSV template.
 */
module ManualCalculator {
  import opened Wrappers
  import opened Objects
  import opened Js

  /** The ten metal fields, in the order the page declares them. */
  const MetalKeys: seq<string> :=
    ["arsenic", "lead", "cadmium", "chromium", "mercury", "nickel", "copper", "zinc", "iron", "manganese"]

  datatype InputMode = Manual | File

  const ManualEmptyMessage: string := "Please enter at least one metal concentration value."
  const FileEmptyMessage: string :=
    "No metal values found in the uploaded file. Ensure headers match: arsenic, lead, cadmium, chromium, mercury, nickel, copper, zinc, iron, manganese (optional: latitude, longitude), and the first data row has at least one numeric value."
  const ParseFailMessage: string := "Failed to parse file. Ensure headers match metal keys (e.g., arsenic, lead)"

  /** The error shown when no field survives normalisation. */
  function EmptyMessage(mode: InputMode): string {
    if mode == File then FileEmptyMessage else ManualEmptyMessage
  }

  /** The initial (and reset) state of the metal fields: every field blank. */
  function BlankConcentrations(): (e: Entries<string>)
    ensures Keys(e) == MetalKeys
    ensures forall i :: 0 <= i < |e| ==> e[i].1 == ""
  {
    seq(|MetalKeys|, i requires 0 <= i < |MetalKeys| => (MetalKeys[i], ""))
  }

  // ----- normalisation in handleCalculate -----

  /**
   * One field as handleCalculate reads it: trimmed, its FIRST comma turned
   * into a dot, then parseFloat; only a finite number is kept.
   */
  function NormalizeField(value: string, env: Env): (r: Option<real>)
    ensures Trim(value) == "" ==> r == None
  {
    if Trim(value) == "" then None
    else
      match ParseFloat(ReplaceFirst(Trim(value), ',', '.'), env)
      case Finite(x) => Some(x)
      case _ => None
  }

  /** `numericConcentrations` after the forEach over the fields. */
  function NumericConcentrations(conc: Entries<string>, env: Env): Entries<real> {
    if |conc| == 0 then []
    else
      var pre := NumericConcentrations(conc[..|conc| - 1], env);
      var last := conc[|conc| - 1];
      match NormalizeField(last.1, env)
      case None => pre
      case Some(x) => Put(pre, last.0, x)
  }

  /** What the request carries for one field: its normalised value, or nothing. */
  function Normalized(conc: Entries<string>, k: string, env: Env): Option<real> {
    match Lookup(conc, k)
    case None => None
    case Some(s) => NormalizeField(s, env)
  }

  /**
   * A key is in the request exactly when it is a field of the form whose
   * text normalises to a finite number, and it carries that number: no key
   * is invented, and a blank field is left out rather than sent as 0.
   */
  lemma {:induction false} NumericLookup(conc: Entries<string>, k: string, env: Env)
    requires DistinctKeys(conc)
    ensures Lookup(NumericConcentrations(conc, env), k) == Normalized(conc, k, env)
  {
    if |conc| > 0 {
      var pre := conc[..|conc| - 1];
      var last := conc[|conc| - 1];
      LastKeyFresh(conc);
      NumericLookup(pre, k, env);
      LookupSnoc(pre, last, k);
    }
  }

  /** The forEach of handleCalculate, proved to compute NumericConcentrations. */
  method NormalizeConcentrations(conc: Entries<string>, env: Env) returns (numeric: Entries<real>)
    ensures numeric == NumericConcentrations(conc, env)
  {
    numeric := [];
    var i := 0;
    while i < |conc|
      invariant 0 <= i <= |conc|
      invariant numeric == NumericConcentrations(conc[..i], env)
    {
      var metal, value := conc[i].0, conc[i].1;
      NumericStep(conc, i, env);
      if Trim(value) != "" {
        var normalized := ReplaceFirst(Trim(value), ',', '.');
        var num := ParseFloat(normalized, env);
        if num.Finite? {
          numeric := Put(numeric, metal, num.v);
        }
      }
      i := i + 1;
    }
    assert conc[..|conc|] == conc;
  }

  /** One more field: the fold takes the field's normalised value, if any. */
  lemma NumericStep(conc: Entries<string>, i: nat, env: Env)
    requires i < |conc|
    ensures NumericConcentrations(conc[..i + 1], env) ==
      match NormalizeField(conc[i].1, env)
      case None => NumericConcentrations(conc[..i], env)
      case Some(x) => Put(NumericConcentrations(conc[..i], env), conc[i].0, x)
  {
    assert conc[..i + 1][..i] == conc[..i];
  }

  /** The body posted to the calculation service. */
  datatype CalculateRequest = CalculateRequest(
    heavyMetalConcentrations: Entries<real>,
    latitude: Value,
    longitude: Value)

  /** `latitude !== '' ? parseFloat(latitude) : null` (no trimming). */
  function LocationField(s: string, env: Env): (v: Value)
    ensures s == "" <==> v == Null
  {
    if s != "" then Num(ParseFloat(s, env)) else Null
  }

  // ----- file upload -----

  predicate EndsWith(s: string, suffix: string) {
    |suffix| <= |s| && s[|s| - |suffix|..] == suffix
  }

  /** `/\.xlsx?$/` on the lower-cased name. */
  predicate IsExcelName(name: string) {
    EndsWith(ToLower(name), ".xls") || EndsWith(ToLower(name), ".xlsx")
  }

  /** `/\.csv$/` on the lower-cased name. */
  predicate IsCsvName(name: string) {
    EndsWith(ToLower(name), ".csv")
  }

  /**
   * `text.split(/\r?\n/)`: split at every newline, and drop the carriage
   * return that precedes a newline.
   */
  function SplitLines(text: string): (lines: seq<string>)
    ensures |lines| >= 1
  {
    var pieces := Split(text, '\n');
    seq(|pieces|, i requires 0 <= i < |pieces| =>
      if i < |pieces| - 1 && |pieces[i]| > 0 && pieces[i][|pieces[i]| - 1] == '\r'
      then pieces[i][..|pieces[i]| - 1] else pieces[i])
  }

  /** `.filter(Boolean)` on strings: the empty lines are dropped. */
  function NonEmpty(lines: seq<string>): (r: seq<string>)
    ensures forall i :: 0 <= i < |r| ==> r[i] != "" && r[i] in lines
    ensures forall i :: 0 <= i < |lines| && lines[i] != "" ==> lines[i] in r
  {
    if |lines| == 0 then []
    else (if lines[0] != "" then [lines[0]] else []) + NonEmpty(lines[1..])
  }

  /**
   * The filter keeps the order of the lines: its first line is the first
   * non-empty line, followed by the filter of the lines after it.
   */
  lemma {:induction false} NonEmptyHead(lines: seq<string>, i: nat)
    requires i < |lines| && lines[i] != ""
    requires forall j :: 0 <= j < i ==> lines[j] == ""
    ensures NonEmpty(lines) == [lines[i]] + NonEmpty(lines[i + 1..])
  {
    if i > 0 {
      NonEmptyHead(lines[1..], i - 1);
      assert lines[1..][i - 1 + 1..] == lines[i + 1..];
    }
  }

  /** With no non-empty line the filter is empty. */
  lemma {:induction false} NonEmptyNone(lines: seq<string>)
    requires forall j :: 0 <= j < |lines| ==> lines[j] == ""
    ensures NonEmpty(lines) == []
  {
    if |lines| > 0 {
      NonEmptyNone(lines[1..]);
    }
  }

  function TrimAll(cells: seq<string>): (r: seq<string>)
    ensures |r| == |cells|
    ensures forall i :: 0 <= i < |cells| ==> r[i] == Trim(cells[i])
  {
    seq(|cells|, i requires 0 <= i < |cells| => Trim(cells[i]))
  }

  function TrimLowerAll(cells: seq<string>): (r: seq<string>)
    ensures |r| == |cells|
    ensures forall i :: 0 <= i < |cells| ==> r[i] == ToLower(Trim(cells[i]))
  {
    seq(|cells|, i requires 0 <= i < |cells| => ToLower(Trim(cells[i])))
  }

  /**
   * The CSV branch's header (trimmed, lower-cased) and first data row
   * (trimmed): the first two non-empty lines, split at every comma.
   */
  function CsvHeaderAndRow(text: string): (r: Option<(seq<string>, seq<string>)>)
    ensures r.None? <==> |NonEmpty(SplitLines(text))| < 2
  {
    var lines := NonEmpty(SplitLines(text));
    if |lines| < 2 then None
    else Some((TrimLowerAll(Split(lines[0], ',')), TrimAll(Split(lines[1], ','))))
  }

  /** The filter's first two lines are the first two non-empty lines. */
  lemma {:induction false} NonEmptyFirstTwo(lines: seq<string>, i: nat, j: nat)
    requires i < j < |lines| && lines[i] != "" && lines[j] != ""
    requires forall k :: 0 <= k < j && k != i ==> lines[k] == ""
    ensures |NonEmpty(lines)| >= 2
    ensures NonEmpty(lines)[0] == lines[i] && NonEmpty(lines)[1] == lines[j]
  {
    NonEmptyHead(lines, i);
    var rest := lines[i + 1..];
    forall k | 0 <= k < j - i - 1 ensures rest[k] == "" {
      assert rest[k] == lines[i + 1 + k];
    }
    NonEmptyHead(rest, j - i - 1);
  }

  /**
   * The header comes from the first non-empty line and the data row from
   * the second; every other line is ignored.
   */
  lemma CsvFirstTwoLines(text: string, i: nat, j: nat)
    requires i < j < |SplitLines(text)|
    requires SplitLines(text)[i] != "" && SplitLines(text)[j] != ""
    requires forall k :: 0 <= k < j && k != i ==> SplitLines(text)[k] == ""
    ensures CsvHeaderAndRow(text) ==
      Some((TrimLowerAll(Split(SplitLines(text)[i], ',')), TrimAll(Split(SplitLines(text)[j], ','))))
  {
    NonEmptyFirstTwo(SplitLines(text), i, j);
  }

  /**
   * The Excel branch's header row and the first later row that has cells;
   * nothing when the sheet is empty or no later row has cells.
   */
  function ExcelHeaderAndRow(sheet: seq<seq<Value>>): (r: Option<(seq<Value>, seq<Value>)>)
    ensures r.Some? <==> |sheet| > 0 && FirstNonEmptyIndex(sheet[1..]) < |sheet| - 1
    ensures r.Some? ==> r.value == (sheet[0], sheet[1 + FirstNonEmptyIndex(sheet[1..])])
  {
    if |sheet| == 0 then None
    else
      match FirstNonEmpty(sheet[1..])
      case None => None
      case Some(row) => Some((sheet[0], row))
  }

  /** Position of the first row that has cells, or `|rows|`. */
  function FirstNonEmptyIndex(rows: seq<seq<Value>>): (i: nat)
    ensures i <= |rows|
    ensures i < |rows| ==> |rows[i]| > 0
    ensures forall j :: 0 <= j < i ==> |rows[j]| == 0
  {
    if |rows| == 0 then 0
    else if |rows[0]| > 0 then 0
    else 1 + FirstNonEmptyIndex(rows[1..])
  }

  /** `rows.find(r => r && r.length)`: the FIRST row that has cells. */
  function FirstNonEmpty(rows: seq<seq<Value>>): (r: Option<seq<Value>>)
    ensures r.None? <==> forall i :: 0 <= i < |rows| ==> |rows[i]| == 0
    ensures r == if FirstNonEmptyIndex(rows) < |rows| then Some(rows[FirstNonEmptyIndex(rows)]) else None
  {
    if |rows| == 0 then None
    else if |rows[0]| > 0 then Some(rows[0])
    else FirstNonEmpty(rows[1..])
  }

  /** `Object.fromEntries(header.map((h, i) => [h, i]))`. */
  function HeaderIndex(header: seq<string>): Entries<int> {
    FromEntries(seq(|header|, i requires 0 <= i < |header| => (header[i], i)))
  }

  function ExcelHeaderNames(header: seq<Value>, env: Env): (names: seq<string>)
    ensures |names| == |header|
    ensures forall i :: 0 <= i < |header| ==> names[i] == ToLower(ToStr(header[i], env.show))
  {
    seq(|header|, i requires 0 <= i < |header| => ToLower(ToStr(header[i], env.show)))
  }

  lemma {:induction false} LastValueIndexed(header: seq<string>, h: string)
    ensures var pairs := seq(|header|, i requires 0 <= i < |header| => (header[i], i));
      match LastValue(pairs, h)
      case None => h !in header
      case Some(j) => 0 <= j < |header| && header[j] == h && forall j' :: j < j' < |header| ==> header[j'] != h
  {
    var pairs := seq(|header|, i requires 0 <= i < |header| => (header[i], i));
    if |header| > 0 {
      var pre := header[..|header| - 1];
      LastValueIndexed(pre, h);
      assert pairs[..|header| - 1] == seq(|pre|, i requires 0 <= i < |pre| => (pre[i], i));
      assert header == pre + [header[|header| - 1]];
    }
  }

  /**
   * Column lookup by header name: a name maps to a column exactly when the
   * header has it, and a repeated name maps to its LAST column.
   */
  lemma HeaderIndexLastWins(header: seq<string>, h: string)
    ensures Lookup(HeaderIndex(header), h).Some? <==> h in header
    ensures match Lookup(HeaderIndex(header), h)
      case None => true
      case Some(j) => 0 <= j < |header| && header[j] == h && forall j' :: j < j' < |header| ==> header[j'] != h
  {
    FromEntriesLastWins(seq(|header|, i requires 0 <= i < |header| => (header[i], i)), h);
    LastValueIndexed(header, h);
  }

  /**
   * The text an upload writes into field `k`: the data-row cell under the
   * column named `k`, unless that column is missing or the cell is missing
   * or empty.
   */
  function CellFor(index: Entries<int>, first: seq<Value>, k: string, env: Env): (r: Option<string>)
    ensures r.Some? <==>
      Lookup(index, k).Some? && 0 <= Lookup(index, k).value < |first|
      && first[Lookup(index, k).value] != Undefined && first[Lookup(index, k).value] != Str("")
    ensures r.Some? ==> r.value == ToStr(first[Lookup(index, k).value], env.show)
  {
    match Lookup(index, k)
    case None => None
    case Some(idx) =>
      if 0 <= idx < |first| && first[idx] != Undefined && first[idx] != Str("") then
        Some(ToStr(first[idx], env.show))
      else None
  }

  /** The concentrations after an upload: same fields, in the same order. */
  function Overwritten(conc: Entries<string>, index: Entries<int>, first: seq<Value>, env: Env): (r: Entries<string>)
    ensures Keys(r) == Keys(conc)
  {
    seq(|conc|, i requires 0 <= i < |conc| => (conc[i].0, CellFor(index, first, conc[i].0, env).GetOr(conc[i].1)))
  }

  /**
   * The forEach over `Object.keys(next)`: every field whose column has a
   * non-empty cell takes that cell's text, every other field keeps its
   * value, and no field is added.
   */
  method OverwriteFromRow(conc: Entries<string>, index: Entries<int>, first: seq<Value>, env: Env)
    returns (next: Entries<string>)
    requires DistinctKeys(conc)
    ensures next == Overwritten(conc, index, first, env)
  {
    next := conc;
    var i := 0;
    while i < |conc|
      invariant 0 <= i <= |conc|
      invariant |next| == |conc| && DistinctKeys(next)
      invariant forall j :: 0 <= j < |conc| ==> next[j].0 == conc[j].0
      invariant forall j :: 0 <= j < i ==> next[j].1 == CellFor(index, first, conc[j].0, env).GetOr(conc[j].1)
      invariant forall j :: i <= j < |conc| ==> next[j].1 == conc[j].1
    {
      var k := next[i].0;
      match CellFor(index, first, k, env) {
        case Some(cell) =>
          LookupAt(next, i);
          next := Put(next, k, cell);
        case None =>
      }
      i := i + 1;
    }
  }

  function StrCells(cells: seq<string>): (r: seq<Value>)
    ensures |r| == |cells|
    ensures forall i :: 0 <= i < |cells| ==> r[i] == Str(cells[i])
  {
    seq(|cells|, i requires 0 <= i < |cells| => Str(cells[i]))
  }

  /** A file the user picked, as the foreign readers see it (None: the reader threw). */
  datatype UploadedFile = UploadedFile(name: string, text: Option<string>, sheet: Option<seq<seq<Value>>>)

  // ----- the template -----

  const TemplateHeaders: seq<string> :=
    ["arsenic", "lead", "cadmium", "chromium", "mercury", "nickel", "copper", "zinc", "iron", "manganese", "latitude", "longitude"]
  const TemplateExample: seq<string> :=
    ["0.005", "0.01", "", "0.02", "", "", "", "", "", "", "28.6139", "77.2090"]

  /** The CSV handleDownloadTemplate offers. */
  function TemplateCsv(): string {
    Join([Join(TemplateHeaders, ","), Join(TemplateExample, ",")], "\n")
  }

  /**
   * The template has two lines; the header names the ten metals plus
   * latitude and longitude, and the example row has a cell for each.
   */
  lemma TemplateShape()
    ensures Split(TemplateCsv(), '\n') == [Join(TemplateHeaders, ","), Join(TemplateExample, ",")]
    ensures Split(Join(TemplateHeaders, ","), ',') == TemplateHeaders && |TemplateHeaders| == 12
    ensures Split(Join(TemplateExample, ","), ',') == TemplateExample && |TemplateExample| == 12
    ensures TemplateHeaders[..10] == MetalKeys
  {
    TemplateRows();
    TemplateLines();
  }

  lemma TemplateRows()
    ensures Split(Join(TemplateHeaders, ","), ',') == TemplateHeaders
    ensures Split(Join(TemplateExample, ","), ',') == TemplateExample
  {
    TemplateCellsPlain();
    SplitJoin(TemplateHeaders, ',');
    SplitJoin(TemplateExample, ',');
  }

  lemma TemplateLines()
    ensures Split(TemplateCsv(), '\n') == [Join(TemplateHeaders, ","), Join(TemplateExample, ",")]
  {
    TemplateCellsPlain();
    JoinAvoids(TemplateHeaders, ",", '\n');
    JoinAvoids(TemplateExample, ",", '\n');
    SplitJoin([Join(TemplateHeaders, ","), Join(TemplateExample, ",")], '\n');
  }

  /** No template cell contains a comma or a newline. */
  lemma TemplateCellsPlain()
    ensures forall i :: 0 <= i < |TemplateHeaders| ==> ',' !in TemplateHeaders[i] && '\n' !in TemplateHeaders[i]
    ensures forall i :: 0 <= i < |TemplateExample| ==> ',' !in TemplateExample[i] && '\n' !in TemplateExample[i]
  {
  }

  // ----- the page -----

  class CalculatorPage {
    var concentrations: Entries<string>
    var latitude: string
    var longitude: string
    var error: string
    var inputMode: InputMode
    var results: Value
    var loading: bool

    ghost predicate Valid()
      reads this
    {
      DistinctKeys(concentrations)
    }

    constructor ()
      ensures Valid()
      ensures concentrations == BlankConcentrations()
      ensures latitude == "" && longitude == "" && error == ""
      ensures inputMode == Manual && results == Null && !loading
    {
      concentrations := BlankConcentrations();
      latitude, longitude, error := "", "", "";
      inputMode := Manual;
      results := Null;
      loading := false;
    }

    /** handleInputChange: one field takes the typed text. */
    method HandleInputChange(metal: string, value: string)
      requires Valid()
      modifies this`concentrations
      ensures Valid()
      ensures concentrations == Put(old(concentrations), metal, value)
    {
      concentrations := Put(concentrations, metal, value);
    }

    /** The radio buttons: `setInputMode`. */
    method SetInputMode(mode: InputMode)
      modifies this`inputMode
      ensures inputMode == mode
    {
      inputMode := mode;
    }

    /** handleReset: every field, both coordinates, the result and the error are cleared. */
    method HandleReset()
      modifies this`concentrations, this`results, this`error, this`latitude, this`longitude
      ensures Valid()
      ensures concentrations == BlankConcentrations() && results == Null
      ensures error == "" && latitude == "" && longitude == ""
    {
      concentrations := BlankConcentrations();
      results := Null;
      error := "";
      latitude := "";
      longitude := "";
    }

    /**
     * handleCalculate up to the network call: the request it posts, or
     * None when no field survives normalisation, in which case the
     * mode-specific error is set and nothing is sent.
     */
    method HandleCalculate(env: Env) returns (request: Option<CalculateRequest>)
      requires Valid()
      modifies this`loading, this`error
      ensures Valid()
      ensures var numeric := NumericConcentrations(concentrations, env);
        && (request.None? <==> |numeric| == 0)
        && (request.None? ==> error == EmptyMessage(inputMode) && !loading)
        && (request.Some? ==>
              error == "" && loading
              && request.value == CalculateRequest(numeric, LocationField(latitude, env), LocationField(longitude, env)))
    {
      loading := true;
      error := "";
      var numeric := NormalizeConcentrations(concentrations, env);
      if |numeric| == 0 {
        error := EmptyMessage(inputMode);
        loading := false;
        return None;
      }
      request := Some(CalculateRequest(numeric, LocationField(latitude, env), LocationField(longitude, env)));
    }

    /** The assignments shared by both upload branches. */
    method ApplyUpload(index: Entries<int>, first: seq<Value>, env: Env)
      requires Valid()
      modifies this`concentrations, this`latitude, this`longitude
      ensures Valid()
      ensures concentrations == Overwritten(old(concentrations), index, first, env)
      ensures latitude == CellFor(index, first, "latitude", env).GetOr(old(latitude))
      ensures longitude == CellFor(index, first, "longitude", env).GetOr(old(longitude))
    {
      var next := OverwriteFromRow(concentrations, index, first, env);
      match CellFor(index, first, "latitude", env) {
        case Some(lat) => latitude := lat;
        case None =>
      }
      match CellFor(index, first, "longitude", env) {
        case Some(lon) => longitude := lon;
        case None =>
      }
      assert Keys(next) == Keys(concentrations);
      concentrations := next;
    }

    /**
     * handleFileUpload: an Excel or CSV file fills the fields from its
     * first data row; any other file, or a file with no data row, changes
     * nothing; a file the reader cannot read sets the parse error.
     */
    method HandleFileUpload(file: Option<UploadedFile>, env: Env)
      requires Valid()
      modifies this`concentrations, this`latitude, this`longitude, this`error
      ensures Valid()
      ensures file.None? || (!IsExcelName(file.value.name) && !IsCsvName(file.value.name)) ==>
        concentrations == old(concentrations) && latitude == old(latitude)
        && longitude == old(longitude) && error == old(error)
      ensures file.Some? && IsExcelName(file.value.name) ==>
        match file.value.sheet
        case None =>
          error == ParseFailMessage && concentrations == old(concentrations)
          && latitude == old(latitude) && longitude == old(longitude)
        case Some(sheet) =>
          error == old(error) &&
          match ExcelHeaderAndRow(sheet)
          case None =>
            concentrations == old(concentrations) && latitude == old(latitude) && longitude == old(longitude)
          case Some(hr) =>
            var index := HeaderIndex(ExcelHeaderNames(hr.0, env));
            && concentrations == Overwritten(old(concentrations), index, hr.1, env)
            && latitude == CellFor(index, hr.1, "latitude", env).GetOr(old(latitude))
            && longitude == CellFor(index, hr.1, "longitude", env).GetOr(old(longitude))
      ensures file.Some? && !IsExcelName(file.value.name) && IsCsvName(file.value.name) ==>
        match file.value.text
        case None =>
          error == ParseFailMessage && concentrations == old(concentrations)
          && latitude == old(latitude) && longitude == old(longitude)
        case Some(text) =>
          error == old(error) &&
          match CsvHeaderAndRow(text)
          case None =>
            concentrations == old(concentrations) && latitude == old(latitude) && longitude == old(longitude)
          case Some(hr) =>
            var index := HeaderIndex(hr.0);
            && concentrations == Overwritten(old(concentrations), index, StrCells(hr.1), env)
            && latitude == CellFor(index, StrCells(hr.1), "latitude", env).GetOr(old(latitude))
            && longitude == CellFor(index, StrCells(hr.1), "longitude", env).GetOr(old(longitude))
    {
      if file.None? {
        return;
      }
      var f := file.value;
      if IsExcelName(f.name) {
        match f.sheet {
          case None =>
            error := ParseFailMessage;
          case Some(sheet) =>
            match ExcelHeaderAndRow(sheet) {
              case None =>
              case Some(hr) =>
                ApplyUpload(HeaderIndex(ExcelHeaderNames(hr.0, env)), hr.1, env);
            }
        }
      } else if IsCsvName(f.name) {
        match f.text {
          case None =>
            error := ParseFailMessage;
          case Some(text) =>
            match CsvHeaderAndRow(text) {
              case None =>
              case Some(hr) =>
                ApplyUpload(HeaderIndex(hr.0), StrCells(hr.1), env);
            }
        }
      }
    }
  }
}
