/**
 * The slice of JavaScript semantics the front end relies on: numbers with
 * their non-finite values, dynamically typed values, truthiness, `??` and
 * `||`, `String(v)`, `parseFloat`, and the string methods used on cells.
 *
 * Floating point is abstracted to exact reals. Everything the model cannot
 * state exactly (the numeral grammar, number formatting) is a field of
 * `Env`, so every lemma holds for every choice of those functions.
 */
module Js {
  import opened Wrappers
  import opened Objects

  /** A JavaScript number. */
  datatype Number = Finite(v: real) | PosInf | NegInf | NaN

  /** `n < c` for a finite bound `c` (false when `n` is NaN). */
  predicate Below(n: Number, c: real) {
    match n
    case Finite(v) => v < c
    case NegInf => true
    case _ => false
  }

  /** `n > c` for a finite bound `c` (false when `n` is NaN). */
  predicate Above(n: Number, c: real) {
    match n
    case Finite(v) => v > c
    case PosInf => true
    case _ => false
  }

  /** `c1 <= n && n <= c2`. */
  predicate Within(n: Number, lo: real, hi: real) {
    !Below(n, lo) && !Above(n, hi) && !n.NaN?
  }

  /** A value as JSON.parse, the form state or PapaParse hand it over. */
  datatype Value =
    | Undefined
    | Null
    | Bool(b: bool)
    | Num(n: Number)
    | Str(s: string)
    | Arr(items: seq<Value>)
    | Obj(fields: Entries<Value>)

  /**
   * The host functions the model keeps abstract:
   * `numeral` reads a string that starts like a number (the grammar of
   * parseFloat past its first character), `toNumber` is `Number(s)`,
   * `show` is `String(n)` and `fixed2` is `n.toFixed(2)`.
   */
  datatype Env = Env(
    numeral: string -> Number,
    toNumber: string -> Number,
    show: Number -> string,
    fixed2: Number -> string)

  predicate Nullish(v: Value) {
    v.Undefined? || v.Null?
  }

  predicate Truthy(v: Value) {
    match v
    case Undefined => false
    case Null => false
    case Bool(b) => b
    case Num(n) => !(n.NaN? || n == Finite(0.0))
    case Str(s) => s != ""
    case Arr(_) => true
    case Obj(_) => true
  }

  /** `a ?? b`: only null and undefined fall through. */
  function Coalesce(a: Value, b: Value): (r: Value)
    ensures !Nullish(a) ==> r == a
    ensures Nullish(a) ==> r == b
  {
    if Nullish(a) then b else a
  }

  /** `a || b`: every falsy value falls through. */
  function Or(a: Value, b: Value): (r: Value)
    ensures Truthy(a) ==> r == a
    ensures !Truthy(a) ==> r == b
  {
    if Truthy(a) then a else b
  }

  /** `obj.k` on an object, `undefined` for a missing key. */
  function Get(obj: Entries<Value>, k: string): Value {
    Lookup(obj, k).GetOr(Undefined)
  }

  /**
   * `v?.k`: undefined on null and undefined; on an object, its field. The
   * keys the source reads this way are not properties of primitive values,
   * so they read as undefined on those too.
   */
  function Member(v: Value, k: string): Value {
    match v
    case Obj(fields) => Get(fields, k)
    case _ => Undefined
  }

  /** `String(v)`. */
  function ToStr(v: Value, show: Number -> string): string
    decreases v, 1
  {
    match v
    case Undefined => "undefined"
    case Null => "null"
    case Bool(b) => if b then "true" else "false"
    case Num(n) => show(n)
    case Str(s) => s
    case Arr(items) => JoinItems(items, show)
    case Obj(_) => "[object Object]"
  }

  /** `Array.prototype.join(',')`: null and undefined elements print empty. */
  function JoinItems(items: seq<Value>, show: Number -> string): string
    decreases items, 0
  {
    if |items| == 0 then ""
    else
      var head := if Nullish(items[0]) then "" else ToStr(items[0], show);
      if |items| == 1 then head else head + "," + JoinItems(items[1..], show)
  }

  /** `Number(v)`, as a comparison with a number applies it. */
  function ToNumber(v: Value, env: Env): Number {
    match v
    case Undefined => NaN
    case Null => Finite(0.0)
    case Bool(b) => if b then Finite(1.0) else Finite(0.0)
    case Num(n) => n
    case Str(s) => env.toNumber(s)
    case Arr(_) => env.toNumber(ToStr(v, env.show))
    case Obj(_) => NaN
  }

  // ----- strings -----

  /** The characters `String.prototype.trim` removes. */
  predicate JsSpace(c: char) {
    c == ' ' || c == '\t' || c == '\n' || c == '\r' || c == '\U{B}' || c == '\U{C}'
    || c == '\U{A0}' || c == '\U{FEFF}' || c == '\U{1680}' || ('\U{2000}' <= c <= '\U{200A}')
    || c == '\U{2028}' || c == '\U{2029}' || c == '\U{202F}' || c == '\U{205F}' || c == '\U{3000}'
  }

  function TrimStart(s: string): (r: string)
    ensures |r| <= |s| && r == s[|s| - |r|..]
    ensures |r| > 0 ==> !JsSpace(r[0])
    ensures forall i :: 0 <= i < |s| - |r| ==> JsSpace(s[i])
  {
    if |s| > 0 && JsSpace(s[0]) then
      var r := TrimStart(s[1..]);
      assert forall i :: 1 <= i < |s| ==> s[i] == s[1..][i - 1];
      r
    else s
  }

  function TrimEnd(s: string): (r: string)
    ensures |r| <= |s| && r == s[..|r|]
    ensures |r| > 0 ==> !JsSpace(r[|r| - 1])
    ensures forall i :: |r| <= i < |s| ==> JsSpace(s[i])
  {
    if |s| > 0 && JsSpace(s[|s| - 1]) then
      var r := TrimEnd(s[..|s| - 1]);
      assert forall i :: 0 <= i < |s| - 1 ==> s[i] == s[..|s| - 1][i];
      r
    else s
  }

  /** `s.trim()`. */
  function Trim(s: string): string {
    TrimEnd(TrimStart(s))
  }

  function LowerChar(c: char): char {
    if 'A' <= c <= 'Z' then (c as int + 32) as char else c
  }

  function UpperChar(c: char): char {
    if 'a' <= c <= 'z' then (c as int - 32) as char else c
  }

  /** `s.toLowerCase()`, on the ASCII letters. */
  function ToLower(s: string): (r: string)
    ensures |r| == |s|
    ensures forall i :: 0 <= i < |s| ==> r[i] == LowerChar(s[i])
  {
    seq(|s|, i requires 0 <= i < |s| => LowerChar(s[i]))
  }

  /** `s.charAt(0).toUpperCase() + s.slice(1)`. */
  function Capitalize(s: string): string {
    if |s| == 0 then "" else [UpperChar(s[0])] + s[1..]
  }

  /** Position of the first `c` in `s`, or `|s|`. */
  function IndexOf(s: string, c: char): (i: nat)
    ensures i <= |s|
    ensures i < |s| ==> s[i] == c
    ensures forall j :: 0 <= j < i ==> s[j] != c
  {
    if |s| == 0 then 0 else if s[0] == c then 0 else 1 + IndexOf(s[1..], c)
  }

  /**
   * `s.replace(from, to)` with a one-character STRING pattern: only the
   * first occurrence is replaced, every later one is kept.
   */
  function ReplaceFirst(s: string, from: char, to: char): (r: string)
    ensures |r| == |s|
    ensures forall j :: 0 <= j < |s| ==> r[j] == (if j == IndexOf(s, from) then to else s[j])
  {
    var i := IndexOf(s, from);
    if i < |s| then s[i := to] else s
  }

  /** `s.split(sep)` for a one-character separator. */
  function Split(s: string, sep: char): (parts: seq<string>)
    ensures |parts| >= 1
  {
    if |s| == 0 then [""]
    else
      var rest := Split(s[1..], sep);
      if s[0] == sep then [""] + rest else [[s[0]] + rest[0]] + rest[1..]
  }

  /** `parts.join(sep)`. */
  function Join(parts: seq<string>, sep: string): string {
    if |parts| == 0 then ""
    else if |parts| == 1 then parts[0]
    else parts[0] + sep + Join(parts[1..], sep)
  }

  /** A character in neither the separator nor any part is not in the join. */
  lemma {:induction false} JoinAvoids(parts: seq<string>, sep: string, c: char)
    requires c !in sep
    requires forall i :: 0 <= i < |parts| ==> c !in parts[i]
    ensures c !in Join(parts, sep)
  {
    if |parts| > 1 {
      JoinAvoids(parts[1..], sep, c);
    }
  }

  /** Splitting on a separator that no piece contains undoes a join. */
  lemma {:induction false} SplitJoin(parts: seq<string>, sep: char)
    requires |parts| >= 1
    requires forall i :: 0 <= i < |parts| ==> sep !in parts[i]
    ensures Split(Join(parts, [sep]), sep) == parts
  {
    if |parts| == 1 {
      SplitNoSep(parts[0], sep);
    } else {
      SplitJoin(parts[1..], sep);
      assert Join(parts, [sep]) == parts[0] + ([sep] + Join(parts[1..], [sep]));
      SplitPrefix(parts[0], Join(parts[1..], [sep]), sep);
      assert [parts[0]] + parts[1..] == parts;
    }
  }

  lemma {:induction false} SplitNoSep(s: string, sep: char)
    requires sep !in s
    ensures Split(s, sep) == [s]
  {
    if |s| > 0 {
      SplitNoSep(s[1..], sep);
      assert [s[0]] + s[1..] == s;
    }
  }

  lemma {:induction false} SplitPrefix(a: string, b: string, sep: char)
    requires sep !in a
    ensures Split(a + [sep] + b, sep) == [a] + Split(b, sep)
  {
    if |a| == 0 {
      assert a + [sep] + b == [sep] + b;
      assert ([sep] + b)[1..] == b;
    } else {
      assert (a + [sep] + b)[1..] == a[1..] + [sep] + b;
      SplitPrefix(a[1..], b, sep);
      assert [a[0]] + a[1..] == a;
    }
  }

  /** Characters that can begin a numeral `parseFloat` accepts. */
  predicate StartsNumeral(c: char) {
    ('0' <= c <= '9') || c == '.' || c == '+' || c == '-' || c == 'I'
  }

  /**
   * `parseFloat(s)`: leading whitespace is skipped; a string whose first
   * remaining character cannot begin a numeral is NaN; otherwise the
   * (abstract) numeral grammar decides.
   */
  function ParseFloat(s: string, env: Env): (n: Number)
    ensures Trim(s) == "" ==> n == NaN
  {
    var t := TrimStart(s);
    if |t| > 0 && StartsNumeral(t[0]) then env.numeral(t) else NaN
  }

  /** `parseFloat` as a function value. */
  function ParseWith(env: Env): string -> Number {
    s => ParseFloat(s, env)
  }

  /** `parseFloat(v)` on any value: the value is first turned into a string. */
  function ParseFloatValue(v: Value, env: Env): Number {
    ParseFloat(ToStr(v, env.show), env)
  }

  /** `parseFloat(v)` on any value, as a function value. */
  function ParseValueWith(env: Env): Value -> Number {
    v => ParseFloatValue(v, env)
  }

  /** `String(i)` for an integer. */
  function IntToString(i: int): string
    decreases if i < 0 then 1 - i else i
  {
    if i < 0 then "-" + IntToString(-i)
    else if i < 10 then [(48 + i) as char]
    else IntToString(i / 10) + [(48 + i % 10) as char]
  }
}
