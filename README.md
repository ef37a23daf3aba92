# SafeSip HMPI calculator: a Dafny model of its validation and export logic

SafeSip is a web application for water heavy-metal pollution. It computes
the Heavy metal Pollution Index (HPI) and related indices of water samples.
It has three parts:

- a React front end with a single-sample calculator and a batch calculator;
- two result pages with CSV/PDF downloads and a map of sample locations;
- a Flask back end that checks the posted concentrations and hands them to
  an index engine.

This project models the logic around that engine. The engine itself is
modelled only as a parameter. The model covers:

- how typed text and uploaded CSV/Excel files become concentration maps,
  and when they are rejected;
- how result records are chosen, reshaped and written out as CSV and PDF;
- which records get a map marker and with which label and icon;
- how the back end validates and parses a request.

Modules:

- `Wrappers`: `Option` and `Result`.
- `Objects`: JavaScript objects and Python dicts as ordered key/value
  sequences.
  - Assigning an existing key replaces its value in place.
  - Assigning a new key appends it.
  - `Object.fromEntries` is a fold of assignments, so a repeated key keeps
    its last value.
- `Js`: the JavaScript values the pages handle.
  - Numbers include NaN and the infinities.
  - Also modelled: truthiness, `??` and `||`, `String(v)`, `trim`,
    `toLowerCase`, `replace` with a string pattern, `split`/`join` on one
    character, and `parseFloat`.
- `Csv`: the cell quoting both result pages use, and a reader for what it
  writes. The reader is used to state the round-trip.
- `ManualCalculator` models `Calculator.js`, the single-sample page. Its
  state is a class: the fields, the coordinates, the error and the input
  mode.
- `BatchCalculator` models `src/components/Calculator.js`, the batch form.
  Its state is a class: the inputs, the file name, the parsed rows and the
  error.
- `BatchResult` models `src/components/Result.js`.
- `SingleResult` models `Result.js`.
- `MapView` models `src/components/mapView.js`.
- `Api` models `app.py`.

The loops the source writes as `forEach` or `for...of` are methods with
loop invariants. Each is proved equal to a recursive specification
function, and the properties are proved as lemmas about that function:

- normalisation of the fields;
- the upload overwrite;
- `sanitizeInputs`;
- the CSV row cleaning;
- the batch CSV export;
- the PDF `y` counter.

Things outside the model's control are parameters:

- the numeral grammar of `parseFloat` and of Python's `float()`;
- `String()` of a number and `toFixed(2)`;
- what PapaParse, XLSX and `splitTextToSize` return;
- the index engine.

## Model

| member | source | states |
|---|---|---|
| `Objects.Put` | Calculator.js:47 | Assigning `obj[k] = v` makes `k` read `v`. It leaves every other key's value unchanged. It keeps the key order, and appends `k` only when `k` is new. |
| `Objects.Lookup` | Calculator.js:146 | `obj[k]` is present exactly when `k` is a key of the object, and its value is then the one stored with `k`. |
| `Objects.FromEntriesLastWins` | Calculator.js:143 | `Object.fromEntries` maps each key to the value of its LAST pair. A key with no pair is absent. |
| `Objects.FromEntriesDistinct` | Calculator.js:162 | The object `Object.fromEntries` builds has no repeated key. |
| `Objects.PutDistinct` | Calculator.js:29-32 | An assignment never creates a second copy of a key. |
| `Objects.LastValueDistinct` | src/components/Calculator.js:158-162 | For an object whose keys are distinct, the last pair with a key is the object's value for that key. |
| `Js.Coalesce` | src/components/Result.js:86-96 | `a ?? b` is `a` unless `a` is null or undefined. So `0`, `false` and `""` are kept. |
| `Js.Or` | src/components/Calculator.js:128 | `a \|\| b` is `a` when `a` is truthy, and `b` for every falsy value. |
| `Js.TrimStart` | Calculator.js:43-44 | The result is a suffix of the input. It drops only JavaScript whitespace, and it does not start with whitespace. |
| `Js.TrimEnd` | Calculator.js:43-44 | The result is a prefix of the input. It drops only JavaScript whitespace, and it does not end with whitespace. |
| `Js.ToLower` | src/components/Calculator.js:88 | Lower-casing keeps the length and maps each character on its own. |
| `Js.ReplaceFirst` | Calculator.js:44 | `replace(',', '.')` with a string pattern changes only the FIRST comma. Every other character, including any later comma, is kept. |
| `Js.IndexOf` | Calculator.js:44 | The position of the first occurrence of a character, or the length when there is none. |
| `Js.SplitJoin` | Calculator.js:115 | Splitting on a separator that no piece contains gives back the pieces that were joined. |
| `Js.JoinAvoids` | Calculator.js:115 | A character found in neither the pieces nor the separator is not in the join. |
| `Js.ParseFloat` | Calculator.js:45 | `parseFloat` of a blank string is NaN. |
| `Csv.ReadQuotedEscape` | src/components/Result.js:98 | Reading a quoted field back turns every doubled quote into one quote. It stops at the closing quote. |
| `Csv.ReadFieldQuote` | src/components/Result.js:98 | A cell written as `"` + text with doubled quotes + `"` reads back as exactly that text. |
| `Csv.ReadRecordRoundTrip` | src/components/Result.js:98 | A line of quoted cells joined with commas reads back as its cells. This holds whatever commas, quotes or newlines the cells hold. |
| `Csv.ReadRecordsRoundTrip` | src/components/Result.js:98-101 | Quoted lines joined with newlines read back as the rows, in order. |
| `Csv.JoinHeader` | src/components/Result.js:101 | Joining the header with the data lines gives the header, a newline, then the data lines joined. |
| `ManualCalculator.BlankConcentrations` | Calculator.js:7-18 | The initial fields are the ten metals in declaration order, all blank. |
| `ManualCalculator.NormalizeField` | Calculator.js:43-48 | A field that is blank after trimming gives no value. Otherwise it is trimmed, its first comma becomes a dot, and it is parsed. Only a finite result is kept. |
| `ManualCalculator.NumericLookup` | Calculator.js:41-50 | A key is in the request exactly when it is a form field whose text normalises to a finite number, and it carries that number. No key is invented, and a blank or unparsable field is left out rather than sent as 0. |
| `ManualCalculator.NormalizeConcentrations` | Calculator.js:41-50 | The `forEach` loop builds exactly the fold `NumericConcentrations`, about which `NumericLookup` is proved. |
| `ManualCalculator.NumericStep` | Calculator.js:42-49 | One more field extends the result by that field's normalised value, if it has one. |
| `ManualCalculator.LocationField` | Calculator.js:64-65 | A coordinate is null exactly when its text is empty. Otherwise it is `parseFloat` of the untrimmed text. |
| `ManualCalculator.SplitLines` | Calculator.js:158 | Splitting on `\r?\n` always gives at least one line. |
| `ManualCalculator.NonEmpty` | Calculator.js:158 | `.filter(Boolean)` keeps every non-empty line and only those, each taken from the input. |
| `ManualCalculator.NonEmptyHead` | Calculator.js:158 | When the lines before line i are all empty and line i is not, the filtered list starts with line i and goes on with the filtered rest. So the order of the lines is kept. |
| `ManualCalculator.NonEmptyNone` | Calculator.js:158 | Lines that are all empty filter to nothing. |
| `ManualCalculator.NonEmptyFirstTwo` | Calculator.js:158 | When lines i < j are the first two non-empty lines, the filtered list has at least two lines, and its first two are line i and line j. |
| `ManualCalculator.CsvFirstTwoLines` | Calculator.js:158-161 | When lines i < j are the first two non-empty lines, the header is line i's trimmed, lower-cased cells and the data row is line j's trimmed cells. |
| `ManualCalculator.TrimAll` | Calculator.js:161 | The first data row is the trimmed cells, one for each cell. |
| `ManualCalculator.TrimLowerAll` | Calculator.js:160 | The header is the trimmed, lower-cased cells, one for each cell. |
| `ManualCalculator.CsvHeaderAndRow` | Calculator.js:158-161 | A CSV yields a header and a first row exactly when it has at least two non-empty lines. |
| `ManualCalculator.FirstNonEmptyIndex` | Calculator.js:141 | The index of the first row with cells, or the row count when there is none. Every earlier row is empty. |
| `ManualCalculator.FirstNonEmpty` | Calculator.js:141 | `rows.find(r => r && r.length)` gives the row at `FirstNonEmptyIndex`, the FIRST row with cells. It is None exactly when every row is empty. |
| `ManualCalculator.ExcelHeaderAndRow` | Calculator.js:139-142 | An Excel sheet yields its first row as the header, and as the data row the first later row with cells, the row `rows.find` returns. It yields nothing exactly when the sheet is empty or no later row has cells. |
| `ManualCalculator.ExcelHeaderNames` | Calculator.js:143 | Excel header names are `String(h).toLowerCase()` of each header cell. They are not trimmed. |
| `ManualCalculator.HeaderIndexLastWins` | Calculator.js:143 | A header name maps to a column exactly when the header has it. A repeated name maps to its LAST column. |
| `ManualCalculator.LastValueIndexed` | Calculator.js:143 | The last pair for a name in `header.map((h, i) => [h, i])` is that name's last column. |
| `ManualCalculator.CellFor` | Calculator.js:146-147 | A field takes a cell exactly when the header has the field's name, the column is inside the row, and the cell is neither `undefined` nor `''`. The value taken is `String(cell)`. |
| `ManualCalculator.Overwritten` | Calculator.js:144-150 | An upload keeps the form's fields and their order, and adds no field. |
| `ManualCalculator.OverwriteFromRow` | Calculator.js:144-150 | The `forEach` over the field names gives each field its column's non-empty cell as text. Every other field keeps its previous value. |
| `ManualCalculator.StrCells` | Calculator.js:161 | The CSV data row's cells as string values, one for each cell. |
| `ManualCalculator.TemplateShape` | Calculator.js:113-115 | The template has two lines. The header has 12 names (the ten metals then latitude and longitude), and the example row has 12 cells. |
| `ManualCalculator.TemplateRows` | Calculator.js:113-115 | Each template line splits on commas back into its 12 cells. |
| `ManualCalculator.TemplateLines` | Calculator.js:115 | The template splits on newlines into exactly its header line and its example line. |
| `ManualCalculator.TemplateCellsPlain` | Calculator.js:113-114 | No template cell holds a comma or a newline. |
| `ManualCalculator.CalculatorPage.constructor` | Calculator.js:7-25 | The page starts with blank fields, blank coordinates, no error, manual mode, no result and not loading. |
| `ManualCalculator.CalculatorPage.HandleInputChange` | Calculator.js:28-33 | One field takes the typed text. Nothing else changes. |
| `ManualCalculator.CalculatorPage.SetInputMode` | Calculator.js:217-227 | The radio buttons set the input mode. |
| `ManualCalculator.CalculatorPage.HandleReset` | Calculator.js:93-110 | Reset blanks the ten fields and both coordinates, and clears the result and the error. |
| `ManualCalculator.CalculatorPage.HandleCalculate` | Calculator.js:35-67 | Nothing is sent exactly when no field normalises to a finite number. The error is then the mode-specific message and loading is off. Otherwise the request carries the normalised map and the two coordinate fields. |
| `ManualCalculator.CalculatorPage.ApplyUpload` | Calculator.js:143-155 | An upload overwrites fields and coordinates only from non-empty cells under matching headers. Every other field keeps its value. |
| `ManualCalculator.CalculatorPage.HandleFileUpload` | Calculator.js:125-178 | The outcome of an upload depends on the file. A file that is neither Excel nor CSV changes nothing. A file with no data row changes nothing. An unreadable file sets the parse error and changes no field. An Excel or CSV file fills the fields from its first data row. |
| `BatchCalculator.FieldNamesShape` | src/components/Calculator.js:15-31 | The form lists sampleNo, state and location, then the twelve numeric fields in `ranges` order. |
| `BatchCalculator.RangesShape` | src/components/Calculator.js:33-46 | `ranges` has exactly the twelve numeric fields, each with a lower bound below its upper bound. No text field has a range. |
| `BatchCalculator.SanitizedValue` | src/components/Calculator.js:127-132 | A text field is kept as its text. Any other field is its parsed number, or null exactly when the parse is NaN (never an error). |
| `BatchCalculator.FirstRejected` | src/components/Calculator.js:133-139 | The position of the first field that is out of its range, with no earlier field out of range. |
| `BatchCalculator.SanitizeFirstError` | src/components/Calculator.js:124-144 | `sanitizeInputs` throws exactly when some field is out of range. The message names the FIRST such field, capitalised, with its bounds. |
| `BatchCalculator.SanitizeInBounds` | src/components/Calculator.js:133-141 | When `sanitizeInputs` returns, every ranged field is null or within its inclusive bounds. |
| `BatchCalculator.SanitizeContents` | src/components/Calculator.js:124-144 | When it returns, the result has the form's fields in form order, each with its sanitized value. |
| `BatchCalculator.SanitizeUnfold` | src/components/Calculator.js:126 | One more field applies one step of the loop, unless an error was already thrown. |
| `BatchCalculator.SanitizeNext` | src/components/Calculator.js:126-141 | After a prefix that returned, the next field is one loop step. |
| `BatchCalculator.SanitizeErrorStands` | src/components/Calculator.js:135 | Once a field throws, the later fields change nothing. |
| `BatchCalculator.SanitizeInputs` | src/components/Calculator.js:124-144 | The `for...of` loop returns, or throws, exactly what the fold `Sanitized` gives. |
| `BatchCalculator.RangedEntries` | src/components/Calculator.js:159-161 | The filter keeps only entries of the sanitized object whose key has a range. |
| `BatchCalculator.RangedLastValue` | src/components/Calculator.js:158-162 | The filtered entries keep a key's last value when the key has a range, and drop it otherwise. |
| `BatchCalculator.MetalsLookup` | src/components/Calculator.js:158-162 | The payload holds exactly the sanitized fields that have a range, with their values. That is the coordinates and the ten metals, never sampleNo, state or location. |
| `BatchCalculator.CleanCell` | src/components/Calculator.js:89-110 | A falsy cell is stored as null. A numeric column's truthy cell is stored as a number (first comma made a dot, then parsed). Any other column's cell is kept as it is. |
| `BatchCalculator.CleanedPairs` | src/components/Calculator.js:87-110 | The assignments the `forEach` makes, in row order: each key trimmed and lower-cased, with its cleaned cell. |
| `BatchCalculator.CleanedColumn` | src/components/Calculator.js:85-113 | A cleaned column exists exactly when some raw key trims and lower-cases to it. It holds the cleaned cell of the LAST such key. A numeric column is null or a number, never text. |
| `BatchCalculator.CleanRow` | src/components/Calculator.js:86-112 | The `forEach` builds exactly the cleaned row `CleanedRow`. |
| `BatchCalculator.CleanStep` | src/components/Calculator.js:87-110 | One assignment extends the cleaned object by one pair. |
| `BatchCalculator.CleanDone` | src/components/Calculator.js:112 | After the last assignment the object is the cleaned row. |
| `BatchCalculator.CleanedRowsAt` | src/components/Calculator.js:85-113 | The cleaned data has one object per parsed row, in row order. |
| `BatchCalculator.CleanRows` | src/components/Calculator.js:85-113 | Cleaning every row builds exactly `CleanedRows`. |
| `BatchCalculator.MakeRecord` | src/components/Calculator.js:197-213 | A record has exactly the fifteen form fields in form order. A text field is the row's truthy text, or "" and never null. A numeric field is null exactly when the row's value is missing or null, and otherwise is the row's value unchanged, including 0 and NaN. |
| `BatchCalculator.TextFields` | src/components/Calculator.js:198-200 | sampleNo is the row's `sampleno` when truthy, else its `sampleNo` when truthy, else "". state and location are the row's values when truthy, else "". |
| `BatchCalculator.NumericValues` | src/components/Calculator.js:201-212 | Each numeric field is `row[k] ?? null`. |
| `BatchCalculator.Records` | src/components/Calculator.js:197-213 | There is one record per parsed row, in row order. |
| `BatchCalculator.BlankInputs` | src/components/Calculator.js:49-51 | The initial inputs are the fifteen fields in form order, all blank. |
| `BatchCalculator.CalculatorForm.constructor` | src/components/Calculator.js:49-55 | The form starts with blank inputs, manual mode, no file, no rows and no error. |
| `BatchCalculator.CalculatorForm.HandleChange` | src/components/Calculator.js:58-60 | The named input takes the typed text. |
| `BatchCalculator.CalculatorForm.SetInputMode` | src/components/Calculator.js:259-269 | The radio buttons set the input mode. |
| `BatchCalculator.CalculatorForm.HandleFileChange` | src/components/Calculator.js:77-122 | A picked file's name is kept. Then one of two things happens. If the file parses, its rows are cleaned and stored. If the parser fails, the CSV error is set and the rows are unchanged. |
| `BatchCalculator.CalculatorForm.HandleSubmit` | src/components/Calculator.js:146-222 | In manual mode, an out-of-range field sets its message and nothing is sent; otherwise the ranged fields are sent. In file mode, a missing file or no rows sets its message and nothing is sent; otherwise one record per row is sent. |
| `BatchResult.LoadRecords` | src/components/Result.js:24-30 | Nothing stored gives no records. Err stands for a throw from reading `records.length` or a record's fields, not from rendering its values. For a stored array, those reads throw exactly when some element is null or undefined; otherwise there is one record per element, holding that element's fields. Stored null throws. A stored string throws exactly when it is non-empty. A stored object throws exactly when its `length` is truthy. A stored boolean or number gives no records. |
| `BatchResult.PresentIndex` | src/components/Result.js:86-96 | The position of the first read in a fallback chain that is not null or undefined. |
| `BatchResult.FirstPresentSpec` | src/components/Result.js:86-96 | A cell is the first of its reads that is neither null nor undefined (so 0, false and "" are kept), and '-' when there is none. |
| `BatchResult.CellValues` | src/components/Result.js:85-97 | A record gives eleven cells, each its column's fallback chain. |
| `BatchResult.Chain2` | src/components/Result.js:86-95 | A two-read chain `a ?? b ?? '-'` is the first present read, else '-'. |
| `BatchResult.Chain3` | src/components/Result.js:96 | The three-read classification chain is the first present read, else '-'. |
| `BatchResult.PdfCellMatches` | src/components/Result.js:47-59 | Each PDF cell is the same fallback chain as the CSV's cell in that column. |
| `BatchResult.IdentityCellMatches` | src/components/Result.js:48-52 | The first five PDF cells match the CSV's chains. |
| `BatchResult.OutputCellMatches` | src/components/Result.js:53-57 | The five index cells match the CSV's chains. |
| `BatchResult.PdfRowMatchesCsv` | src/components/Result.js:47-59 | The PDF table and the CSV file show the same eleven cells for every record. |
| `BatchResult.CellStrings` | src/components/Result.js:98 | Each record gives eleven cell strings. |
| `BatchResult.CellTable` | src/components/Result.js:84-99 | There is one row of cell strings per record, in record order. |
| `BatchResult.DataLines` | src/components/Result.js:84-99 | There is one data line per record. |
| `BatchResult.DataLinesAt` | src/components/Result.js:98 | Line `i` is record `i`'s quoted cells. |
| `BatchResult.DataLinesStep` | src/components/Result.js:84-99 | Each iteration appends one line, for the next record. |
| `BatchResult.DownloadCsv` | src/components/Result.js:77-101 | With no records nothing is written. Otherwise the text is the header line followed by exactly one quoted line per record, joined with newlines. |
| `BatchResult.CsvRoundTrip` | src/components/Result.js:77-101 | The file is the header, a newline, then the quoted lines. Reading those lines back gives every record's eleven cell strings, in order, whatever they contain. The header has no quote or newline. |
| `BatchResult.DataLinesQuoted` | src/components/Result.js:98 | The data lines are the quoted rows of the cell table. |
| `BatchResult.CsvDocumentShape` | src/components/Result.js:83-101 | The document is the header line, a newline and the quoted rows. |
| `BatchResult.CellTableReads` | src/components/Result.js:98-101 | The quoted rows read back as the cell table. |
| `BatchResult.HeaderPlain` | src/components/Result.js:79-83 | The header line holds no newline and no quote. |
| `BatchResult.NameIsPlain` | src/components/Result.js:79-81 | No column name holds a newline or a quote. |
| `BatchResult.PdfExport` | src/components/Result.js:32-72 | A table is produced exactly when there are records and jsPDF is loaded. It has the eleven headers and one row per record, each the record's PDF row. |
| `BatchResult.BadgeClassSpec` | src/components/Result.js:111-116 | A string gets badge-caution exactly when it is "caution" in any case, and badge-unsafe exactly when it is "unsafe" in any case. Any other string gets badge-safe, and so do null, undefined and "". |
| `BatchResult.BadgeIgnoresCase` | src/components/Result.js:112 | Strings that are equal up to letter case get the same badge. |
| `BatchResult.MarkerAt` | src/components/Result.js:145-147 | A record has a marker only when both parsed coordinates are numbers (not NaN), and the marker is keyed by the record's index. |
| `BatchResult.Somes` | src/components/Result.js:144-158 | The markers drawn are among the non-null results of the map. |
| `BatchResult.SomesComplete` | src/components/Result.js:144-158 | Every non-null result is drawn. |
| `BatchResult.SomesOrdered` | src/components/Result.js:144-158 | The drawn results keep their order. |
| `BatchResult.MarkerOptions` | src/components/Result.js:144-158 | There is one marker-or-null per record, in order. |
| `BatchResult.Markers` | src/components/Result.js:144-158 | Every marker on the map is the marker of the record at its index. |
| `BatchResult.MarkersComplete` | src/components/Result.js:144-158 | Every record whose two coordinates parse to numbers has its marker on the map. |
| `BatchResult.MarkersOrdered` | src/components/Result.js:144-158 | The markers follow record order. |
| `SingleResult.SelectRecord` | Result.js:7-15 | The record shown is null or truthy. |
| `SingleResult.SelectRecordSpec` | Result.js:7-15 | The record shown is chosen as follows. It is the router state's record when present. Otherwise it is the last stored record when that is truthy. Otherwise, and when nothing is stored or parsing fails, it is null. |
| `SingleResult.FixedCell` | Result.js:71-75 | An output cell is '-' for null or undefined and the two-decimal text for a number. It throws for any other value. |
| `SingleResult.FixedCells` | Result.js:71-75 | The five output cells exist exactly when none of them throws, in output order. |
| `SingleResult.CsvCellsOk` | Result.js:67-77 | The CSV row throws exactly when some output is neither missing nor a number. |
| `SingleResult.CsvCellsIdentity` | Result.js:67-76 | There are nine cells. Sample number, coordinates and classification are '-' only for null or undefined, so 0 and "" are kept. |
| `SingleResult.CsvCellsOutputs` | Result.js:71-75 | Each output cell is '-' when that output is missing, and otherwise its two-decimal text. |
| `SingleResult.MissingOutputsDash` | Result.js:71-76 | A record with no outputs gets '-' in every output and classification cell. |
| `SingleResult.FileName` | Result.js:60 | The file name is `safesip_result_sample_` + `String(sampleNo)` + `.pdf` for any truthy sampleNo, number or text. It uses 'latest' when sampleNo is falsy. |
| `SingleResult.CellTexts` | Result.js:78 | There is one string per cell. |
| `SingleResult.CsvDownload` | Result.js:64-84 | The download is skipped exactly when there is no record. It fails exactly when there is a record and building the row throws. A saved file is named `safesip_result_sample_` + sampleNo (or 'latest') + `.csv`. |
| `SingleResult.CsvDownloadRoundTrip` | Result.js:64-83 | A saved CSV is the nine-name header, a newline, and one quoted line. That line reads back as the nine cell strings, whatever they contain. |
| `SingleResult.HeaderPlain` | Result.js:66-78 | The header line holds no newline and no quote. |
| `SingleResult.NameIsPlain` | Result.js:66 | No column name holds a newline or a quote. |
| `SingleResult.Labelled` | Result.js:38-48 | Each PDF value sits beside its column name. |
| `SingleResult.PdfRowsLabels` | Result.js:38-48 | The PDF rows throw exactly when the CSV cells do. They carry the nine labels in order. |
| `SingleResult.PdfRowsMatchCsv` | Result.js:38-77 | The PDF and the CSV agree on coordinates and outputs. A falsy sample number or classification shows '-' in the PDF. |
| `SingleResult.ValuesAgree` | Result.js:40-75 | The PDF and CSV value lists agree from the latitude to the Nemerow cell. |
| `SingleResult.PdfDashes` | Result.js:39-47 | The PDF's sample number and classification fall back to '-' when falsy. |
| `SingleResult.RowPositions` | Result.js:50-58 | The first row is at 36. Each later row is `8 + 6 * (lines - 1)` below the one before. |
| `SingleResult.LayoutRows` | Result.js:50-58 | The `forEach` prints the rows at exactly `RowPositions` and ends at `EndPosition`. |
| `SingleResult.RowsSpaced` | Result.js:57 | When every value takes at least one line, rows are in order and at least 8 apart per row. |
| `SingleResult.PdfDownload` | Result.js:17-60 | Nothing is saved without a record or jsPDF. The download fails exactly when there is a record and jsPDF but building the rows throws. A saved PDF is named from sampleNo, and its content is the rows of `PdfRows` placed at `RowPositions(LineCounts(rows))`. |
| `SingleResult.LineCounts` | Result.js:55 | There is one wrapped-line count per row: that of the row value's string. |
| `MapView.ValidIndices` | src/components/mapView.js:42-46 | Each kept position has a latitude in [-90, 90] and a longitude in [-180, 180], both parsed as numbers. |
| `MapView.ValidIndicesIncrease` | src/components/mapView.js:42 | The filter keeps record order. |
| `MapView.ValidIndicesComplete` | src/components/mapView.js:42-46 | Every record with valid coordinates is kept. |
| `MapView.ValidRecords` | src/components/mapView.js:42-46 | Every kept record has valid coordinates. |
| `MapView.ValidRecordsSpec` | src/components/mapView.js:42-46 | A record is kept exactly when its coordinates are valid. The kept records are the originals, in their original order. |
| `MapView.FirstPresentIndex` | src/components/mapView.js:84 | The position of the first HPI candidate that is not null or undefined. |
| `MapView.HpiFirstPresent` | src/components/mapView.js:84 | The HPI is the first of HPI, hpi, outputs.HPI and result.HPI that is not null or undefined, and 0 when there is none. |
| `MapView.Classify` | src/components/mapView.js:85 | A record is Unsafe exactly when its HPI compares above 100. |
| `MapView.ClassifyNumbers` | src/components/mapView.js:85 | A numeric HPI is Unsafe exactly above 100, so 100 itself is Safe, and so is NaN. |
| `MapView.IconAsWritten` | src/components/mapView.js:88-95 | The icon as written throws exactly when the HPI is not above 0, because `blueIcon` is undefined. |
| `MapView.IconIntended` | src/components/mapView.js:88-95 | The intended icon is red exactly when Unsafe, green exactly when Safe with HPI above 0, and blue exactly when the HPI is not above 0. |
| `MapView.IconAgrees` | src/components/mapView.js:88-95 | Where the written code picks an icon it picks the intended one. It throws exactly where blue is meant. |
| `MapView.MarkerFor` | src/components/mapView.js:79-98 | A marker carries its index, its record's classification and its icon. |
| `MapView.Render` | src/components/mapView.js:48-98 | The placeholder is shown exactly when no record has valid coordinates. Otherwise there is one marker per valid record. |
| `MapView.RenderMarkers` | src/components/mapView.js:79-98 | Every marker has valid coordinates and the label and icon its HPI calls for. |
| `MapView.RenderAsWrittenSpec` | src/components/mapView.js:48-98 | The icon choice as written throws exactly when some shown record's HPI is not above 0. Otherwise the markers equal the intended ones. The popup's own throws are not part of this member. |
| `MapView.MissingHpiThrows` | src/components/mapView.js:84-94 | A record with valid coordinates and no HPI anywhere makes the written page throw. |
| `MapView.ShownAt` | src/components/mapView.js:42-46 | A record with valid coordinates appears among the kept ones. |
| `MapView.NoHpiIsZero` | src/components/mapView.js:84 | With every HPI candidate missing, the HPI read is 0. |
| `Api.ParseFailsIff` | app.py:20-24 | Parsing fails exactly when some eligible value is rejected by `float`, whatever its key. |
| `Api.ParsedFromInput` | app.py:22 | Every parsed pair comes from an input pair with the same key, an eligible value, and that value's `float`. |
| `Api.ParsedContents` | app.py:22 | A key is parsed exactly when its value is an int, float or non-blank string, and then holds its `float`. Keys are not checked against a metal list, and negative numbers pass. |
| `Api.ParsedKeysAmong` | app.py:22 | The parsed keys are among the input keys. |
| `Api.CalculateHmpiSpec` | app.py:12-33 | The response for an object body is one of the following. A missing, empty or non-dict field gives 400 "Invalid input". A rejected number gives 400 "Invalid numeric values". Nothing numeric gives 400. Otherwise it is 200 with the engine's result, or 500 when the engine raises. |
| `Api.EmptyBodyInvalid` | app.py:14-18 | A body that is not JSON, or is falsy, gets 400 "Invalid input". |
| `Api.NonObjectBodyUnhandled` | app.py:14-15 | A truthy body that is not an object makes `data.get` raise, which the handler does not catch. |

## Left out

- The index engine `calculate_indices` (app.py:3): hmpi_calculator is not part of this model. It is a parameter of `Api.CalculateHmpi`.
- Network calls: the axios/fetch requests and the handling of their responses (Calculator.js:61-86, src/components/Calculator.js:164-176 and 215-235), and the Flask/CORS setup and health endpoint (app.py:5-10, 35-36). The model stops at the request a handler would send (`CalculateRequest`, `Submission`).
- Browser state and the DOM: localStorage writes, navigation, Blob/URL downloads, `handleKeyDown` focus movement (src/components/Calculator.js:62-74), and all JSX rendering, tables, popups and styling.
- Foreign libraries appear only as the data they hand back: PapaParse's rows, the XLSX sheet as rows, jsPDF's presence, and `splitTextToSize`'s line count. Leaflet is not modelled.
- Floating-point formatting and parsing are parameters (`Js.Env`, `Api.PyEnv`): `toFixed(2)` and `String()` of a number, the numeral grammar of `parseFloat`, and Python's `float()` and `str.strip()`.
- The PDF title and "Generated" date lines, the orientation, and `autoTable`'s styling. The unused `inputsArray`/`outputsArray` in Result.js:27-36 are also left out.
- Js.ToLower: maps ASCII letters only; JavaScript's full Unicode case mapping is not modelled.
- MapView.ValidRecords: a stored value that is not an array of objects (which makes mapView.js:38-46 throw) is not modelled. The records are given as objects.
- BatchResult.LoadRecords: the exact JSON text and `JSON.parse` are a parameter. Only the parsed value is modelled.
- BatchResult.LoadRecords: its Err cases cover only the reads of `records.length` and of record fields, so three rendering throws for records with no nullish element are not captured. The map popup's `rec.HPI?.toFixed(2)` / `rec.outputs?.HPI?.toFixed(2)` (src/components/Result.js:154) throws for an HPI that is present but not a number, such as `"3"`. The badge's `(classification || '').toLowerCase()` (src/components/Result.js:112, reached from :194) throws for a truthy classification that is not a string, such as `5`; `BatchResult.BadgeClass` gives None there. React also rejects an object shown as cell text.
- SingleResult.SelectRecord: a stored string is indexed like an array, as JavaScript does. Other stored values are modelled as null. This includes an array-like object with a numeric `length`, which JavaScript would index.
- SingleResult.SelectRecord: the last character of a stored string is the last Unicode scalar. JavaScript takes the last UTF-16 code unit, which differs for characters outside the Basic Multilingual Plane.
- MapView.RenderAsWritten: only the icon choice is modelled. The popup throws too, and that is not captured. `rec.HEI?.toFixed(2) || rec.hei?.toFixed(2)` (mapView.js:114) throws for an HEI that is present but not a number, such as `"3"`. React also rejects an object shown as popup text.
- BatchCalculator.CalculatorForm.HandleFileChange: the file name and the parser's `complete` callback are taken as one atomic step. In the source, `setFileName` runs first and Papa.parse calls back later. In between, `parsedData` still holds the previous file's rows, so a submit in that window sends stale rows. That interleaving is not modelled.
- ManualCalculator.CalculatorPage.HandleFileUpload: the upload is taken as one atomic step. In the source, `{ ...concentrations }` is copied after `await file.arrayBuffer()` / `await file.text()` from the render's state. So edits typed while the file is read are overwritten when the copy is stored. That interleaving is not modelled.
- ManualCalculator.ExcelHeaderNames: the header row is a sequence with no holes. A sheet whose header row has holes makes `Object.fromEntries` throw (Calculator.js:143), which ends in the parse error. That case is not modelled.
- Objects.Put: keys keep their insertion order. JavaScript lists integer-like keys first, in numeric order. A cleaned CSV row (`BatchCalculator.CleanRow`) can have integer-like header keys such as `"2024"`. Only the fixed field names are ever read back from it, and the key order is never read, so the difference does not show.
- The popup text of both maps (src/components/Result.js:149-153, src/components/mapView.js:99-141) is not modelled.

## Findings

| source | as written | input that shows it | evidently intended | confidence | as-written member | corrected member |
|---|---|---|---|---|---|---|
| src/components/mapView.js:94 | The else branch reads `blueIcon`, which is declared nowhere in the file (only `greenIcon` and `redIcon` are, at lines 33-34). Rendering throws a ReferenceError. | A stored record `{"latitude": 10, "longitude": 20}` with no HPI field: its HPI defaults to 0, it is Safe, and 0 is not above 0. | A blue marker for records whose HPI is unknown or not above 0. | not executed | `MapView.MissingHpiThrows` | `MapView.IconIntended` |
