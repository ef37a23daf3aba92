/**
 * The batch calculator form (src/components/Calculator.js): fifteen text
 * fields validated against the `ranges` table before a single request, or
 * a CSV upload whose rows are cleaned and reshaped into fixed records for
 * a batch request.
 */
module BatchCalculator {
  import opened Wrappers
  import opened Objects
  import opened Js

  /** The form's fields, in the order `inputFields` declares them. */
  const FieldNames: seq<string> :=
    ["sampleNo", "state", "location", "latitude", "longitude", "arsenic", "lead", "cadmium",
     "chromium", "mercury", "nickel", "iron", "copper", "zinc", "manganese"]

  /** The form lists the three text fields, then the numeric fields in `ranges` order. */
  lemma FieldNamesShape()
    ensures FieldNames == ["sampleNo", "state", "location"] + NumericFields
  {
  }

  /**
   * The twelve numeric fields, in the order the source lists them in the
   * `ranges` object, in the cleaning's column list and in the records.
   */
  const NumericFields: seq<string> :=
    ["latitude", "longitude", "arsenic", "lead", "cadmium", "chromium", "mercury", "nickel",
     "iron", "copper", "zinc", "manganese"]

  /** The fields sanitizeInputs passes through as text. */
  predicate IsTextField(k: string) {
    k == "sampleNo" || k == "state" || k == "location"
  }

  /** A table of inclusive bounds, keyed by field name. */
  type RangeTable = Entries<(int, int)>

  /** The `ranges` object. */
  const Ranges: RangeTable :=
    [("latitude", (-90, 90)), ("longitude", (-180, 180)), ("arsenic", (0, 10)), ("lead", (0, 10)),
     ("cadmium", (0, 10)), ("chromium", (0, 10)), ("mercury", (0, 10)), ("nickel", (0, 10)),
     ("iron", (0, 10)), ("copper", (0, 10)), ("zinc", (0, 10)), ("manganese", (0, 10))]

  /** The table ranges exactly the numeric fields, and none of the text fields. */
  lemma RangesShape()
    ensures Keys(Ranges) == NumericFields
    ensures forall k :: IsTextField(k) ==> k !in Keys(Ranges)
    ensures forall i :: 0 <= i < |Ranges| ==> Ranges[i].1.0 < Ranges[i].1.1
  {
  }

  // ----- sanitizeInputs -----

  /** The message thrown for an out-of-range field. */
  function RangeMessage(k: string, rg: (int, int)): string {
    Capitalize(k) + " must be between " + IntToString(rg.0) + " and " + IntToString(rg.1) + "."
  }

  /** A parsed value outside the bounds (NaN never is: it becomes null). */
  predicate OutOfRange(num: Number, rg: (int, int)) {
    !num.NaN? && (Below(num, rg.0 as real) || Above(num, rg.1 as real))
  }

  /** A field sanitizeInputs throws on. */
  predicate Rejected(ranges: RangeTable, k: string, v: string, parse: string -> Number) {
    !IsTextField(k) && Lookup(ranges, k).Some? && OutOfRange(parse(v), Lookup(ranges, k).value)
  }

  /**
   * What sanitizeInputs stores for a field it accepts: a text field keeps
   * its text, any other field its parsed number, or null when the parse is
   * NaN (never an error).
   */
  function SanitizedValue(k: string, v: string, parse: string -> Number): (r: Value)
    ensures IsTextField(k) ==> r == Str(v)
    ensures !IsTextField(k) ==> (r == Null <==> parse(v).NaN?)
    ensures !IsTextField(k) && !parse(v).NaN? ==> r == Num(parse(v))
  {
    if IsTextField(k) then Or(Str(v), Str(""))
    else
      var num := parse(v);
      if num.NaN? then Null else Num(num)
  }

  /** One iteration of the for-of loop of sanitizeInputs. */
  function SanitizeStep(ranges: RangeTable, s: Entries<Value>, k: string, v: string, parse: string -> Number): Result<Entries<Value>, string> {
    if Rejected(ranges, k, v, parse) then Err(RangeMessage(k, Lookup(ranges, k).value))
    else Ok(Put(s, k, SanitizedValue(k, v, parse)))
  }

  /** sanitizeInputs on the entries of `data`: the object it returns, or the message it throws. */
  function Sanitized(data: Entries<string>, ranges: RangeTable, parse: string -> Number): Result<Entries<Value>, string> {
    if |data| == 0 then Ok([])
    else
      var prev := Sanitized(data[..|data| - 1], ranges, parse);
      if prev.Err? then prev else SanitizeStep(ranges, prev.value, data[|data| - 1].0, data[|data| - 1].1, parse)
  }

  /** Position of the first field sanitizeInputs throws on, or `|data|`. */
  function FirstRejected(data: Entries<string>, ranges: RangeTable, parse: string -> Number): (i: nat)
    ensures i <= |data|
    ensures i < |data| ==> Rejected(ranges, data[i].0, data[i].1, parse)
    ensures forall j :: 0 <= j < i ==> !Rejected(ranges, data[j].0, data[j].1, parse)
  {
    if |data| == 0 then 0
    else
      var f := FirstRejected(data[..|data| - 1], ranges, parse);
      if f < |data| - 1 then f
      else if Rejected(ranges, data[|data| - 1].0, data[|data| - 1].1, parse) then |data| - 1
      else |data|
  }

  /**
   * sanitizeInputs throws exactly when some field is out of range, and the
   * message names the FIRST such field in iteration order, with its bounds.
   */
  lemma {:induction false} SanitizeFirstError(data: Entries<string>, ranges: RangeTable, parse: string -> Number)
    ensures Sanitized(data, ranges, parse).Err? <==> FirstRejected(data, ranges, parse) < |data|
    ensures Sanitized(data, ranges, parse).Err? ==>
      var k := data[FirstRejected(data, ranges, parse)].0;
      Sanitized(data, ranges, parse).error == RangeMessage(k, Lookup(ranges, k).value)
  {
    if |data| > 0 {
      SanitizeFirstError(data[..|data| - 1], ranges, parse);
    }
  }

  /** A stored pair within its field's range: null, or a number within the bounds. */
  predicate InBounds(ranges: RangeTable, p: (string, Value)) {
    match Lookup(ranges, p.0)
    case None => true
    case Some(rg) => p.1 == Null || (p.1.Num? && Within(p.1.n, rg.0 as real, rg.1 as real))
  }

  /** When sanitizeInputs returns, every ranged field is null or within its inclusive bounds. */
  lemma {:induction false} SanitizeInBounds(data: Entries<string>, ranges: RangeTable, parse: string -> Number)
    requires Sanitized(data, ranges, parse).Ok?
    requires forall k :: IsTextField(k) ==> k !in Keys(ranges)
    ensures forall p :: p in Sanitized(data, ranges, parse).value ==> InBounds(ranges, p)
  {
    if |data| > 0 {
      var pre := data[..|data| - 1];
      var (k, v) := data[|data| - 1];
      SanitizeInBounds(pre, ranges, parse);
      PutMembers(Sanitized(pre, ranges, parse).value, k, SanitizedValue(k, v, parse));
    }
  }

  /**
   * When sanitizeInputs returns, it has the same fields as the form, in the
   * same order; text fields keep their text, and any other field holds its
   * parsed number, or null when the parse is NaN (never an error).
   */
  lemma {:induction false} SanitizeContents(data: Entries<string>, ranges: RangeTable, parse: string -> Number)
    requires DistinctKeys(data) && Sanitized(data, ranges, parse).Ok?
    ensures Keys(Sanitized(data, ranges, parse).value) == Keys(data)
    ensures forall i :: 0 <= i < |data| ==>
      Lookup(Sanitized(data, ranges, parse).value, data[i].0) == Some(SanitizedValue(data[i].0, data[i].1, parse))
  {
    if |data| > 0 {
      var pre := data[..|data| - 1];
      var last := data[|data| - 1];
      LastKeyFresh(data);
      SanitizeContents(pre, ranges, parse);
      var s := Sanitized(pre, ranges, parse).value;
      assert Keys(s) == Keys(pre);
      PutNew(s, last.0, SanitizedValue(last.0, last.1, parse));
      forall i | 0 <= i < |data|
        ensures Lookup(Sanitized(data, ranges, parse).value, data[i].0) == Some(SanitizedValue(data[i].0, data[i].1, parse))
      {
        if i < |pre| {
          assert data[i] == pre[i];
        }
      }
      assert Keys(data) == Keys(pre) + [last.0];
    }
  }

  /** One more field: the fold applies one step to the prefix. */
  lemma SanitizeUnfold(data: Entries<string>, ranges: RangeTable, i: nat, parse: string -> Number)
    requires i < |data|
    ensures Sanitized(data[..i + 1], ranges, parse) ==
      if Sanitized(data[..i], ranges, parse).Err? then Sanitized(data[..i], ranges, parse)
      else SanitizeStep(ranges, Sanitized(data[..i], ranges, parse).value, data[i].0, data[i].1, parse)
  {
    assert data[..i + 1][..i] == data[..i];
  }

  /** One more field after a prefix that returned `s`: one step of the loop. */
  lemma SanitizeNext(data: Entries<string>, ranges: RangeTable, i: nat, parse: string -> Number, s: Entries<Value>)
    requires i < |data| && Sanitized(data[..i], ranges, parse) == Ok(s)
    ensures Sanitized(data[..i + 1], ranges, parse) == SanitizeStep(ranges, s, data[i].0, data[i].1, parse)
  {
    SanitizeUnfold(data, ranges, i, parse);
  }

  /** Once a field has thrown, later fields change nothing: the error stands. */
  lemma {:induction false} SanitizeErrorStands(data: Entries<string>, ranges: RangeTable, i: nat, parse: string -> Number)
    requires i <= |data| && Sanitized(data[..i], ranges, parse).Err?
    ensures Sanitized(data, ranges, parse) == Sanitized(data[..i], ranges, parse)
    decreases |data| - i
  {
    if i < |data| {
      SanitizeUnfold(data, ranges, i, parse);
      SanitizeErrorStands(data, ranges, i + 1, parse);
    } else {
      assert data[..i] == data;
    }
  }

  /** sanitizeInputs: the for-of loop, stopping at the first field out of range. */
  method SanitizeInputs(data: Entries<string>, ranges: RangeTable, parse: string -> Number) returns (r: Result<Entries<Value>, string>)
    ensures r == Sanitized(data, ranges, parse)
  {
    var sanitized: Entries<Value> := [];
    var i := 0;
    while i < |data|
      invariant 0 <= i <= |data|
      invariant Sanitized(data[..i], ranges, parse) == Ok(sanitized)
    {
      var key, value := data[i].0, data[i].1;
      SanitizeNext(data, ranges, i, parse, sanitized);
      if IsTextField(key) {
        sanitized := Put(sanitized, key, Or(Str(value), Str("")));
        i := i + 1;
        continue;
      }
      var num := parse(value);
      var stored := if num.NaN? then Null else Num(num);
      sanitized := Put(sanitized, key, stored);
      match Lookup(ranges, key) {
        case Some(rg) =>
          if stored != Null && (Below(num, rg.0 as real) || Above(num, rg.1 as real)) {
            SanitizeErrorStands(data, ranges, i + 1, parse);
            return Err(RangeMessage(key, rg));
          }
        case None =>
      }
      i := i + 1;
    }
    assert data[..|data|] == data;
    r := Ok(sanitized);
  }

  // ----- the metals filter -----

  /** `Object.entries(s).filter(([k]) => k in ranges)`. */
  function RangedEntries(s: Entries<Value>, ranges: RangeTable): (r: Entries<Value>)
    ensures forall p :: p in r ==> p in s && p.0 in Keys(ranges)
  {
    if |s| == 0 then []
    else RangedEntries(s[..|s| - 1], ranges) + (if s[|s| - 1].0 in Keys(ranges) then [s[|s| - 1]] else [])
  }

  /** The `heavyMetalConcentrations` of a manual request. */
  function Metals(s: Entries<Value>, ranges: RangeTable): Entries<Value> {
    FromEntries(RangedEntries(s, ranges))
  }

  lemma {:induction false} RangedLastValue(s: Entries<Value>, ranges: RangeTable, k: string)
    ensures LastValue(RangedEntries(s, ranges), k) == if k in Keys(ranges) then LastValue(s, k) else None
  {
    if |s| > 0 {
      var pre := s[..|s| - 1];
      RangedLastValue(pre, ranges, k);
      if s[|s| - 1].0 in Keys(ranges) {
        assert (RangedEntries(pre, ranges) + [s[|s| - 1]])[..|RangedEntries(pre, ranges)|] == RangedEntries(pre, ranges);
      } else {
        assert RangedEntries(s, ranges) == RangedEntries(pre, ranges);
      }
    }
  }

  /**
   * The payload holds exactly the sanitized fields that have a range with
   * their sanitized values; with the page's table that is the coordinates
   * and the ten metals, and never sampleNo, state or location.
   */
  lemma MetalsLookup(s: Entries<Value>, ranges: RangeTable, k: string)
    requires DistinctKeys(s)
    ensures Lookup(Metals(s, ranges), k) == if k in Keys(ranges) then Lookup(s, k) else None
  {
    FromEntriesLastWins(RangedEntries(s, ranges), k);
    RangedLastValue(s, ranges, k);
    LastValueDistinct(s, k);
  }

  // ----- CSV row cleaning in handleFileChange -----

  /** `key.trim().toLowerCase()`. */
  function ColumnName(key: string): string {
    ToLower(Trim(key))
  }

  /** The value the cleaning stores for one cell under column `k`. */
  function CleanCell(k: string, v: Value, env: Env): (r: Value)
    ensures !Truthy(v) ==> r == Null
    ensures k in NumericFields && Truthy(v) ==> r == Num(ParseFloat(ReplaceFirst(ToStr(v, env.show), ',', '.'), env))
    ensures k !in NumericFields && Truthy(v) ==> r == v
  {
    if !Truthy(v) || v == Str("") then Null
    else if k in NumericFields then Num(ParseFloat(ReplaceFirst(ToStr(v, env.show), ',', '.'), env))
    else v
  }

  /** The assignments the forEach makes, in order. */
  function CleanedPairs(row: Entries<Value>, env: Env): (pairs: seq<(string, Value)>)
    ensures |pairs| == |row|
    ensures forall i :: 0 <= i < |row| ==> pairs[i] == (ColumnName(row[i].0), CleanCell(ColumnName(row[i].0), row[i].1, env))
  {
    seq(|row|, i requires 0 <= i < |row| => (ColumnName(row[i].0), CleanCell(ColumnName(row[i].0), row[i].1, env)))
  }

  /** The `cleaned` object of one row. */
  function CleanedRow(row: Entries<Value>, env: Env): Entries<Value> {
    FromEntries(CleanedPairs(row, env))
  }

  /**
   * A column of the cleaned row is present exactly when some key of the
   * raw row trims and lower-cases to it; it holds the cleaned cell of the
   * LAST such key. A numeric column is never left as text.
   */
  lemma CleanedColumn(row: Entries<Value>, k: string, env: Env)
    ensures var i := LastIndex(CleanedPairs(row, env), k);
      && (Lookup(CleanedRow(row, env), k).None? <==> forall j :: 0 <= j < |row| ==> ColumnName(row[j].0) != k)
      && (i >= 0 ==> ColumnName(row[i].0) == k && Lookup(CleanedRow(row, env), k) == Some(CleanCell(k, row[i].1, env)))
    ensures k in NumericFields && Lookup(CleanedRow(row, env), k).Some? ==>
      Lookup(CleanedRow(row, env), k).value.Null? || Lookup(CleanedRow(row, env), k).value.Num?
  {
    FromEntriesLastWins(CleanedPairs(row, env), k);
    LastValueAt(CleanedPairs(row, env), k);
  }

  /** The forEach over `Object.entries(row)`. */
  method CleanRow(row: Entries<Value>, env: Env) returns (cleaned: Entries<Value>)
    ensures cleaned == CleanedRow(row, env)
  {
    ghost var pairs := CleanedPairs(row, env);
    cleaned := [];
    var i := 0;
    while i < |row|
      invariant 0 <= i <= |row|
      invariant cleaned == FromEntries(pairs[..i])
    {
      var k := ColumnName(row[i].0);
      CleanStep(row, env, i);
      cleaned := Put(cleaned, k, CleanCell(k, row[i].1, env));
      i := i + 1;
    }
    CleanDone(row, env);
  }

  /** One assignment of the forEach extends the cleaned object by one pair. */
  lemma CleanStep(row: Entries<Value>, env: Env, i: nat)
    requires i < |row|
    ensures var pairs := CleanedPairs(row, env);
      var k := ColumnName(row[i].0);
      FromEntries(pairs[..i + 1]) == Put(FromEntries(pairs[..i]), k, CleanCell(k, row[i].1, env))
  {
    FromEntriesSnoc(CleanedPairs(row, env), i);
  }

  /** After the last assignment the object is the cleaned row. */
  lemma CleanDone(row: Entries<Value>, env: Env)
    ensures FromEntries(CleanedPairs(row, env)[..|row|]) == CleanedRow(row, env)
  {
    assert CleanedPairs(row, env)[..|row|] == CleanedPairs(row, env);
  }

  /** `results.data.map(...)`: every row cleaned, in order. */
  function CleanedRows(rows: seq<Entries<Value>>, env: Env): seq<Entries<Value>> {
    if |rows| == 0 then [] else CleanedRows(rows[..|rows| - 1], env) + [CleanedRow(rows[|rows| - 1], env)]
  }

  /** The cleaned data has one object per parsed row, in row order. */
  lemma {:induction false} CleanedRowsAt(rows: seq<Entries<Value>>, env: Env)
    ensures |CleanedRows(rows, env)| == |rows|
    ensures forall i :: 0 <= i < |rows| ==> CleanedRows(rows, env)[i] == CleanedRow(rows[i], env)
  {
    if |rows| > 0 {
      var n := |rows|;
      var pre := rows[..n - 1];
      CleanedRowsAt(pre, env);
      var data := CleanedRows(rows, env);
      assert data == CleanedRows(pre, env) + [CleanedRow(rows[n - 1], env)];
      forall i | 0 <= i < n ensures data[i] == CleanedRow(rows[i], env) {
        if i < n - 1 {
          assert pre[i] == rows[i];
        }
      }
    }
  }

  method CleanRows(rows: seq<Entries<Value>>, env: Env) returns (data: seq<Entries<Value>>)
    ensures data == CleanedRows(rows, env)
  {
    data := [];
    var i := 0;
    while i < |rows|
      invariant 0 <= i <= |rows|
      invariant data == CleanedRows(rows[..i], env)
    {
      var cleaned := CleanRow(rows[i], env);
      assert rows[..i + 1][..i] == rows[..i];
      data := data + [cleaned];
      i := i + 1;
    }
    assert rows[..|rows|] == rows;
  }

  // ----- the batch records -----

  /**
   * One record of the batch request, built from a cleaned row: exactly the
   * fifteen form fields, in form order. A text field is the row's truthy
   * value, or "" when it is missing or falsy (never null; sampleNo tries
   * `sampleno`, then `sampleNo`); a numeric field is null
   * exactly when the row's value is missing or null, and otherwise is the
   * row's value unchanged (0 and NaN included).
   */
  function MakeRecord(row: Entries<Value>): (r: Entries<Value>)
    ensures |r| == 3 + |NumericFields|
    ensures r[0].0 == "sampleNo" && r[1].0 == "state" && r[2].0 == "location"
    ensures forall i :: 3 <= i < |r| ==> r[i].0 == NumericFields[i - 3]
    ensures forall i :: 0 <= i < 3 ==> !Nullish(r[i].1) && (Truthy(r[i].1) || r[i].1 == Str(""))
    ensures r[0].1 == if Truthy(Get(row, "sampleno")) then Get(row, "sampleno")
                      else if Truthy(Get(row, "sampleNo")) then Get(row, "sampleNo")
                      else Str("")
    ensures forall i :: 1 <= i < 3 ==> r[i].1 == if Truthy(Get(row, r[i].0)) then Get(row, r[i].0) else Str("")
    ensures forall i :: 3 <= i < |r| ==>
      (r[i].1 == Null <==> Nullish(Get(row, r[i].0)))
      && (!Nullish(Get(row, r[i].0)) ==> r[i].1 == Get(row, r[i].0))
  {
    var text := TextFields(row);
    var numeric := NumericValues(row);
    var r := text + numeric;
    assert forall i :: 3 <= i < |r| ==> r[i] == numeric[i - 3];
    r
  }

  /**
   * The record's three text fields: each the row's truthy value or "";
   * sampleNo reads `sampleno`, then `sampleNo`.
   */
  function TextFields(row: Entries<Value>): (t: Entries<Value>)
    ensures |t| == 3
    ensures t[0].0 == "sampleNo" && t[1].0 == "state" && t[2].0 == "location"
    ensures forall i :: 0 <= i < 3 ==> !Nullish(t[i].1) && (Truthy(t[i].1) || t[i].1 == Str(""))
    ensures t[0].1 == if Truthy(Get(row, "sampleno")) then Get(row, "sampleno")
                      else if Truthy(Get(row, "sampleNo")) then Get(row, "sampleNo")
                      else Str("")
    ensures forall i :: 1 <= i < 3 ==> t[i].1 == if Truthy(Get(row, t[i].0)) then Get(row, t[i].0) else Str("")
  {
    [("sampleNo", Or(Or(Get(row, "sampleno"), Get(row, "sampleNo")), Str(""))),
     ("state", Or(Get(row, "state"), Str(""))),
     ("location", Or(Get(row, "location"), Str("")))]
  }

  /** The record's numeric fields, in form order: the row's value, or null when it is missing or null. */
  function NumericValues(row: Entries<Value>): (n: Entries<Value>)
    ensures |n| == |NumericFields|
    ensures forall i :: 0 <= i < |n| ==> n[i].0 == NumericFields[i]
    ensures forall i :: 0 <= i < |n| ==>
      (n[i].1 == Null <==> Nullish(Get(row, n[i].0)))
      && (!Nullish(Get(row, n[i].0)) ==> n[i].1 == Get(row, n[i].0))
  {
    seq(|NumericFields|, i requires 0 <= i < |NumericFields| => (NumericFields[i], Coalesce(Get(row, NumericFields[i]), Null)))
  }

  /** `parsedData.map(...)`: one record per row, in row order. */
  function Records(rows: seq<Entries<Value>>): (records: seq<Entries<Value>>)
    ensures |records| == |rows|
    ensures forall i :: 0 <= i < |rows| ==> records[i] == MakeRecord(rows[i])
  {
    seq(|rows|, i requires 0 <= i < |rows| => MakeRecord(rows[i]))
  }

  // ----- the form -----

  datatype InputMode = Manual | File

  /** What handleSubmit sends, if anything. */
  datatype Submission =
    | NothingSent
    | SingleRequest(heavyMetalConcentrations: Entries<Value>)
    | BatchRequest(records: seq<Entries<Value>>)

  const NoFileMessage: string := "Please select a CSV file to upload."
  const NoDataMessage: string := "No data found in the uploaded file."
  const CsvFailMessage: string := "Failed to parse CSV file."

  /** The initial form: every field blank. */
  function BlankInputs(): (e: Entries<string>)
    ensures Keys(e) == FieldNames
    ensures forall i :: 0 <= i < |e| ==> e[i].1 == ""
  {
    seq(|FieldNames|, i requires 0 <= i < |FieldNames| => (FieldNames[i], ""))
  }

  /** A picked CSV file and what PapaParse makes of it (Err: its `error` callback). */
  datatype PickedFile = PickedFile(name: string, parse: Result<seq<Entries<Value>>, string>)

  class CalculatorForm {
    var inputs: Entries<string>
    var inputMode: InputMode
    var fileName: string
    var parsedData: seq<Entries<Value>>
    var error: string

    ghost predicate Valid()
      reads this
    {
      DistinctKeys(inputs)
    }

    constructor ()
      ensures Valid()
      ensures inputs == BlankInputs() && inputMode == Manual
      ensures fileName == "" && parsedData == [] && error == ""
    {
      inputs := BlankInputs();
      inputMode := Manual;
      fileName := "";
      parsedData := [];
      error := "";
    }

    /** handleChange: the named field takes the typed text. */
    method HandleChange(name: string, value: string)
      requires Valid()
      modifies this`inputs
      ensures Valid()
      ensures inputs == Put(old(inputs), name, value)
    {
      inputs := Put(inputs, name, value);
    }

    /** The radio buttons. */
    method SetInputMode(mode: InputMode)
      modifies this`inputMode
      ensures inputMode == mode
    {
      inputMode := mode;
    }

    /**
     * handleFileChange: a picked file's name is remembered; its rows are
     * cleaned and stored, or, when the parser fails, the parse error is set.
     */
    method HandleFileChange(file: Option<PickedFile>, env: Env)
      modifies this`fileName, this`parsedData, this`error
      ensures file.None? ==> fileName == old(fileName) && parsedData == old(parsedData) && error == old(error)
      ensures file.Some? ==> fileName == file.value.name
      ensures file.Some? && file.value.parse.Ok? ==>
        error == old(error) && parsedData == CleanedRows(file.value.parse.value, env)
      ensures file.Some? && file.value.parse.Err? ==> error == CsvFailMessage && parsedData == old(parsedData)
    {
      if file.None? {
        return;
      }
      fileName := file.value.name;
      match file.value.parse {
        case Ok(rows) =>
          parsedData := CleanRows(rows, env);
        case Err(_) =>
          error := CsvFailMessage;
      }
    }

    /**
     * handleSubmit up to the network call. Manual mode: a field out of
     * range sets its message and nothing is sent; otherwise the ranged
     * fields are sent. File mode: no file or no rows sets an error and
     * nothing is sent; otherwise one record per row is sent.
     */
    method HandleSubmit(env: Env) returns (sent: Submission)
      requires Valid()
      modifies this`error
      ensures inputMode == Manual && Sanitized(inputs, Ranges, ParseWith(env)).Err? ==>
        sent == NothingSent && error == Sanitized(inputs, Ranges, ParseWith(env)).error
      ensures inputMode == Manual && Sanitized(inputs, Ranges, ParseWith(env)).Ok? ==>
        sent == SingleRequest(Metals(Sanitized(inputs, Ranges, ParseWith(env)).value, Ranges)) && error == old(error)
      ensures inputMode == File && fileName == "" ==> sent == NothingSent && error == NoFileMessage
      ensures inputMode == File && fileName != "" && |parsedData| == 0 ==> sent == NothingSent && error == NoDataMessage
      ensures inputMode == File && fileName != "" && |parsedData| > 0 ==>
        sent == BatchRequest(Records(parsedData)) && error == old(error)
    {
      if inputMode == Manual {
        var sanitizedInputs := SanitizeInputs(inputs, Ranges, ParseWith(env));
        match sanitizedInputs {
          case Err(m) =>
            error := m;
            return NothingSent;
          case Ok(s) =>
            sent := SingleRequest(Metals(s, Ranges));
        }
      } else {
        if fileName == "" {
          error := NoFileMessage;
          return NothingSent;
        }
        if |parsedData| == 0 {
          error := NoDataMessage;
          return NothingSent;
        }
        sent := BatchRequest(Records(parsedData));
      }
    }
  }
}
