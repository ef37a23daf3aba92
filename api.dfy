/**
 * The backend's calculation endpoint (app.py, `calculate_hmpi`): request
 * checks, the numeric parsing of the concentrations, and the response for
 * each outcome. The index computation (`calculate_indices`) is a parameter.
 */
module Api {
  import opened Wrappers
  import opened Objects
  import opened Js

  /** A decoded JSON value as Python holds it; a float is a Js.Number. */
  datatype PyValue =
    | PNone
    | PBool(b: bool)
    | PInt(i: int)
    | PFloat(f: Number)
    | PStr(s: string)
    | PList(items: seq<PyValue>)
    | PDict(fields: Entries<PyValue>)

  /** Python truthiness: None, False, zero, and empty strings, lists and dicts are false. */
  predicate PyTruthy(v: PyValue) {
    match v
    case PNone => false
    case PBool(b) => b
    case PInt(i) => i != 0
    case PFloat(f) => f != Finite(0.0)
    case PStr(s) => s != ""
    case PList(items) => |items| > 0
    case PDict(fields) => |fields| > 0
  }

  /**
   * The parts of Python the handler relies on that stay abstract: `float(s)`
   * on a string (None for ValueError), `float(i)` on an int (None for
   * OverflowError), and `str.strip()`.
   */
  datatype PyEnv = PyEnv(
    parseFloat: string -> Option<Number>,
    intToFloat: int -> Option<Number>,
    strip: string -> string)

  /**
   * `isinstance(v, (int, float, str)) and str(v).strip() != ''`. A bool is an
   * int in Python, and the text of a number is never blank.
   */
  predicate Eligible(v: PyValue, env: PyEnv) {
    match v
    case PBool(_) => true
    case PInt(_) => true
    case PFloat(_) => true
    case PStr(s) => env.strip(s) != ""
    case _ => false
  }

  /** `float(v)` on an eligible value; None when it raises. */
  function ToFloat(v: PyValue, env: PyEnv): Option<Number> {
    match v
    case PBool(b) => Some(if b then Finite(1.0) else Finite(0.0))
    case PInt(i) => env.intToFloat(i)
    case PFloat(f) => Some(f)
    case PStr(s) => env.parseFloat(s)
    case _ => None
  }

  /**
   * `{k: float(v) for k, v in items() if ...}`: None when some `float(v)`
   * raises, which abandons the whole dict.
   */
  function ParseConcentrations(items: Entries<PyValue>, env: PyEnv): Option<Entries<Number>> {
    if |items| == 0 then Some([])
    else
      var n := |items|;
      var (k, v) := items[n - 1];
      match ParseConcentrations(items[..n - 1], env)
      case None => None
      case Some(pre) =>
        if !Eligible(v, env) then Some(pre)
        else match ToFloat(v, env)
          case None => None
          case Some(x) => Some(Put(pre, k, x))
  }

  /** The parse fails exactly when some eligible value is rejected by `float`, whatever its key. */
  lemma {:induction false} ParseFailsIff(items: Entries<PyValue>, env: PyEnv)
    ensures ParseConcentrations(items, env).None? <==>
      exists i :: 0 <= i < |items| && Eligible(items[i].1, env) && ToFloat(items[i].1, env).None?
  {
    if |items| > 0 {
      var n := |items|;
      var pre := items[..n - 1];
      ParseFailsIff(pre, env);
      if ParseConcentrations(pre, env).None? {
        var i :| 0 <= i < |pre| && Eligible(pre[i].1, env) && ToFloat(pre[i].1, env).None?;
        assert items[i] == pre[i];
      } else {
        forall i | 0 <= i < n - 1 ensures !(Eligible(items[i].1, env) && ToFloat(items[i].1, env).None?) {
          assert items[i] == pre[i];
        }
      }
    }
  }

  /**
   * Every parsed pair comes from an input pair: same key, an eligible value,
   * and its `float`; so the parsed keys are among the input keys.
   */
  lemma {:induction false} ParsedFromInput(items: Entries<PyValue>, env: PyEnv)
    requires ParseConcentrations(items, env).Some?
    ensures forall p :: p in ParseConcentrations(items, env).value ==>
      exists i :: 0 <= i < |items| && items[i].0 == p.0 && Eligible(items[i].1, env) && ToFloat(items[i].1, env) == Some(p.1)
  {
    if |items| > 0 {
      var n := |items|;
      var pre := items[..n - 1];
      ParsedFromInput(pre, env);
      var before := ParseConcentrations(pre, env).value;
      var (k, v) := items[n - 1];
      forall p | p in ParseConcentrations(items, env).value
        ensures exists i :: 0 <= i < |items| && items[i].0 == p.0 && Eligible(items[i].1, env) && ToFloat(items[i].1, env) == Some(p.1)
      {
        if Eligible(v, env) {
          PutMembers(before, k, ToFloat(v, env).value);
        }
        if p in before {
          var i :| 0 <= i < |pre| && pre[i].0 == p.0 && Eligible(pre[i].1, env) && ToFloat(pre[i].1, env) == Some(p.1);
          assert items[i] == pre[i];
        } else {
          assert items[n - 1].0 == p.0;
        }
      }
    }
  }

  /**
   * With a dict's distinct keys, a key is parsed exactly when its value is
   * eligible, and then holds that value's `float`; keys are not checked
   * against any metal list and negative numbers pass.
   */
  lemma {:induction false} ParsedContents(items: Entries<PyValue>, env: PyEnv, i: nat)
    requires DistinctKeys(items) && i < |items|
    requires ParseConcentrations(items, env).Some?
    ensures Lookup(ParseConcentrations(items, env).value, items[i].0) ==
      if Eligible(items[i].1, env) then ToFloat(items[i].1, env) else None
  {
    var n := |items|;
    var pre := items[..n - 1];
    LastKeyFresh(items);
    if i < n - 1 {
      assert items[i] == pre[i];
      ParsedContents(pre, env, i);
      assert items[i].0 != items[n - 1].0;
    } else {
      var before := ParseConcentrations(pre, env).value;
      if !Eligible(items[i].1, env) {
        ParsedKeysAmong(pre, env);
        assert items[i].0 !in Keys(before);
      }
    }
  }

  /** Every parsed key is an input key. */
  lemma ParsedKeysAmong(items: Entries<PyValue>, env: PyEnv)
    requires ParseConcentrations(items, env).Some?
    ensures forall k :: k in Keys(ParseConcentrations(items, env).value) ==> k in Keys(items)
  {
    var parsed := ParseConcentrations(items, env).value;
    ParsedFromInput(items, env);
    forall k | k in Keys(parsed) ensures k in Keys(items) {
      var j :| 0 <= j < |parsed| && parsed[j].0 == k;
      assert parsed[j] in parsed;
      var i :| 0 <= i < |items| && items[i].0 == k && Eligible(items[i].1, env) && ToFloat(items[i].1, env) == Some(parsed[j].1);
      assert Keys(items)[i] == k;
    }
  }

  // ----- the response -----

  const InvalidInputMessage: string :=
    "Invalid input: heavyMetalConcentrations is required and should be an object with metal concentrations."
  const InvalidNumbersMessage: string := "Invalid numeric values in heavyMetalConcentrations."
  const NoNumbersMessage: string := "Please provide at least one numeric metal concentration."
  const EnginePrefix: string := "Internal server error while calculating indices: "

  /** `{'error': ...}`, the engine's result, or Flask's page for an exception the handler does not catch. */
  datatype Body = ErrorBody(error: string) | Indices(result: PyValue) | Unhandled

  datatype Response = Response(status: int, body: Body)

  /**
   * `calculate_hmpi`. `json` is `request.get_json(silent=True)` (None when
   * the body is not JSON); `calculate` is `calculate_indices`, giving its
   * result or the text of the exception it raised.
   */
  function CalculateHmpi(json: Option<PyValue>, env: PyEnv, calculate: Entries<Number> -> Result<PyValue, string>): Response {
    var data := if json.Some? && PyTruthy(json.value) then json.value else PDict([]);
    if !data.PDict? then Response(500, Unhandled)
    else
      var hmc := Concentrations(data.fields);
      if !PyTruthy(hmc) || !hmc.PDict? then Response(400, ErrorBody(InvalidInputMessage))
      else match ParseConcentrations(hmc.fields, env)
        case None => Response(400, ErrorBody(InvalidNumbersMessage))
        case Some(parsed) =>
          if |parsed| == 0 then Response(400, ErrorBody(NoNumbersMessage))
          else match calculate(parsed)
            case Ok(result) => Response(200, Indices(result))
            case Err(e) => Response(500, ErrorBody(EnginePrefix + e))
  }

  /** The concentrations the handler reads from a JSON object body, or PNone. */
  function Concentrations(fields: Entries<PyValue>): PyValue {
    Lookup(fields, "heavyMetalConcentrations").GetOr(PNone)
  }

  /**
   * The outcomes for an object body: a missing, empty or non-dict field is
   * 400 "Invalid input"; a rejected number 400 "Invalid numeric values";
   * nothing numeric 400 "at least one numeric metal concentration";
   * otherwise the engine's result with 200, or 500 with its message when
   * it raises.
   */
  lemma CalculateHmpiSpec(fields: Entries<PyValue>, env: PyEnv, calculate: Entries<Number> -> Result<PyValue, string>)
    requires |fields| > 0
    ensures var r := CalculateHmpi(Some(PDict(fields)), env, calculate);
      var hmc := Concentrations(fields);
      (r == Response(400, ErrorBody(InvalidInputMessage)) <==> !hmc.PDict? || |hmc.fields| == 0)
      && (hmc.PDict? && |hmc.fields| > 0 ==>
            (r == Response(400, ErrorBody(InvalidNumbersMessage)) <==>
              exists i :: 0 <= i < |hmc.fields| && Eligible(hmc.fields[i].1, env) && ToFloat(hmc.fields[i].1, env).None?))
      && (r.status == 200 <==>
            hmc.PDict? && |hmc.fields| > 0 && ParseConcentrations(hmc.fields, env).Some?
            && |ParseConcentrations(hmc.fields, env).value| > 0
            && calculate(ParseConcentrations(hmc.fields, env).value).Ok?)
      && (r.status == 200 ==> r.body == Indices(calculate(ParseConcentrations(hmc.fields, env).value).value))
      && (hmc.PDict? && |hmc.fields| > 0 && ParseConcentrations(hmc.fields, env) == Some([]) ==>
            r == Response(400, ErrorBody(NoNumbersMessage)))
      && (hmc.PDict? && |hmc.fields| > 0 && ParseConcentrations(hmc.fields, env).Some?
          && |ParseConcentrations(hmc.fields, env).value| > 0
          && calculate(ParseConcentrations(hmc.fields, env).value).Err? ==>
            r == Response(500, ErrorBody(EnginePrefix + calculate(ParseConcentrations(hmc.fields, env).value).error)))
  {
    var hmc := Concentrations(fields);
    if hmc.PDict? && |hmc.fields| > 0 {
      ParseFailsIff(hmc.fields, env);
    }
  }

  /** A body that is not JSON, or is falsy, is treated as `{}` and gets 400 "Invalid input". */
  lemma EmptyBodyInvalid(json: Option<PyValue>, env: PyEnv, calculate: Entries<Number> -> Result<PyValue, string>)
    requires json.None? || !PyTruthy(json.value)
    ensures CalculateHmpi(json, env, calculate) == Response(400, ErrorBody(InvalidInputMessage))
  {
  }

  /** A truthy body that is not an object makes `data.get` raise, which the handler does not catch. */
  lemma NonObjectBodyUnhandled(json: PyValue, env: PyEnv, calculate: Entries<Number> -> Result<PyValue, string>)
    requires PyTruthy(json) && !json.PDict?
    ensures CalculateHmpi(Some(json), env, calculate) == Response(500, Unhandled)
  {
  }
}
