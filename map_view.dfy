/**
 * The map page (src/components/mapView.js): which stored records get a
 * marker, the HPI each marker reads, its Safe/Unsafe label and its icon.
 * `parse` stands for `parseFloat` (Js.ParseValueWith).
 */
module MapView {
  import opened Wrappers
  import opened Objects
  import opened Js

  const ReferenceErrorMessage: string := "ReferenceError: blueIcon is not defined"

  /** Both coordinates parse to numbers, the latitude in [-90, 90] and the longitude in [-180, 180]. */
  predicate HasValidCoordinates(rec: Entries<Value>, parse: Value -> Number) {
    Within(parse(Get(rec, "latitude")), -90.0, 90.0) && Within(parse(Get(rec, "longitude")), -180.0, 180.0)
  }

  /** Indices strictly increase along `ix`. */
  predicate StrictlyIncreasing(ix: seq<nat>) {
    forall j, k :: 0 <= j < k < |ix| ==> ix[j] < ix[k]
  }

  /** The positions `records.filter` keeps. */
  function ValidIndices(records: seq<Entries<Value>>, parse: Value -> Number): (ix: seq<nat>)
    ensures forall j :: 0 <= j < |ix| ==> ix[j] < |records| && HasValidCoordinates(records[ix[j]], parse)
  {
    if |records| == 0 then []
    else
      var n := |records|;
      var pre := ValidIndices(records[..n - 1], parse);
      assert forall j :: 0 <= j < |pre| ==> records[..n - 1][pre[j]] == records[pre[j]];
      if HasValidCoordinates(records[n - 1], parse) then pre + [n - 1] else pre
  }

  /** The filter keeps the records' order. */
  lemma {:induction false} ValidIndicesIncrease(records: seq<Entries<Value>>, parse: Value -> Number)
    ensures StrictlyIncreasing(ValidIndices(records, parse))
  {
    if |records| > 0 {
      var n := |records|;
      var pre := ValidIndices(records[..n - 1], parse);
      ValidIndicesIncrease(records[..n - 1], parse);
      if HasValidCoordinates(records[n - 1], parse) {
        var ix := pre + [n - 1];
        assert ValidIndices(records, parse) == ix;
        forall j, k | 0 <= j < k < |ix| ensures ix[j] < ix[k] {
          if k == |pre| {
            assert ix[j] == pre[j];
          } else {
            assert ix[j] == pre[j] && ix[k] == pre[k];
          }
        }
      }
    }
  }

  /** Every record with valid coordinates is kept. */
  lemma {:induction false} ValidIndicesComplete(records: seq<Entries<Value>>, i: nat, parse: Value -> Number)
    requires i < |records| && HasValidCoordinates(records[i], parse)
    ensures i in ValidIndices(records, parse)
  {
    var n := |records|;
    if i < n - 1 {
      assert records[..n - 1][i] == records[i];
      ValidIndicesComplete(records[..n - 1], i, parse);
    }
  }

  /** `records.filter(...)`: the records at the kept positions, in order. */
  function ValidRecords(records: seq<Entries<Value>>, parse: Value -> Number): (valid: seq<Entries<Value>>)
    ensures forall j :: 0 <= j < |valid| ==> HasValidCoordinates(valid[j], parse)
  {
    var ix := ValidIndices(records, parse);
    seq(|ix|, j requires 0 <= j < |ix| => records[ix[j]])
  }

  /**
   * A record is kept exactly when its coordinates are valid, and the kept
   * records are the originals, in their original order.
   */
  lemma ValidRecordsSpec(records: seq<Entries<Value>>, parse: Value -> Number, i: nat)
    requires i < |records|
    ensures HasValidCoordinates(records[i], parse) <==> i in ValidIndices(records, parse)
    ensures var ix := ValidIndices(records, parse);
      StrictlyIncreasing(ix) && |ValidRecords(records, parse)| == |ix|
      && forall j :: 0 <= j < |ix| ==> ValidRecords(records, parse)[j] == records[ix[j]]
  {
    ValidIndicesIncrease(records, parse);
    if HasValidCoordinates(records[i], parse) {
      ValidIndicesComplete(records, i, parse);
    }
  }

  // ----- HPI and the Safe/Unsafe label -----

  /** `rec.HPI ?? rec.hpi ?? rec.outputs?.HPI ?? rec.result?.HPI ?? 0`. */
  function HpiValue(rec: Entries<Value>): Value {
    Coalesce(Coalesce(Coalesce(Coalesce(Get(rec, "HPI"), Get(rec, "hpi")),
      Member(Get(rec, "outputs"), "HPI")), Member(Get(rec, "result"), "HPI")), Num(Finite(0.0)))
  }

  /** The places the HPI is looked for, in order. */
  function HpiCandidates(rec: Entries<Value>): seq<Value> {
    [Get(rec, "HPI"), Get(rec, "hpi"), Member(Get(rec, "outputs"), "HPI"), Member(Get(rec, "result"), "HPI")]
  }

  /** Position of the first candidate that is neither null nor undefined, or 4. */
  function FirstPresentIndex(vs: seq<Value>): (i: nat)
    ensures i <= |vs|
    ensures i < |vs| ==> !Nullish(vs[i])
    ensures forall j :: 0 <= j < i ==> Nullish(vs[j])
  {
    if |vs| == 0 then 0 else if !Nullish(vs[0]) then 0 else 1 + FirstPresentIndex(vs[1..])
  }

  /** The HPI is the first candidate that is not null or undefined (0 and "" count), else 0. */
  lemma HpiFirstPresent(rec: Entries<Value>)
    ensures var vs := HpiCandidates(rec);
      var i := FirstPresentIndex(vs);
      HpiValue(rec) == if i < |vs| then vs[i] else Num(Finite(0.0))
  {
    var vs := HpiCandidates(rec);
    var t1, t2, t3 := vs[1..], vs[1..][1..], vs[1..][1..][1..];
    assert t1[0] == vs[1] && t2[0] == vs[2] && t3[0] == vs[3] && t3[1..] == [];
    assert FirstPresentIndex(t3) == if !Nullish(vs[3]) then 0 else 1;
    assert FirstPresentIndex(t2) == if !Nullish(vs[2]) then 0 else 1 + FirstPresentIndex(t3);
    assert FirstPresentIndex(t1) == if !Nullish(vs[1]) then 0 else 1 + FirstPresentIndex(t2);
  }

  datatype Safety = Safe | Unsafe

  /** `hpi > 100 ? "Unsafe" : "Safe"`, with JavaScript's numeric comparison. */
  function Classify(hpi: Value, env: Env): (c: Safety)
    ensures c == Unsafe <==> Above(ToNumber(hpi, env), 100.0)
  {
    if Above(ToNumber(hpi, env), 100.0) then Unsafe else Safe
  }

  /** A numeric HPI is Unsafe exactly above 100; 100 itself is Safe, and NaN is Safe. */
  lemma ClassifyNumbers(x: real, env: Env)
    ensures Classify(Num(Finite(x)), env) == Unsafe <==> x > 100.0
    ensures Classify(Num(Finite(100.0)), env) == Safe
    ensures Classify(Num(NaN), env) == Safe
  {
  }

  // ----- the icon -----

  datatype Icon = Red | Green | Blue

  /**
   * The icon branch as written: red when Unsafe, green when Safe with
   * `hpi > 0`, and otherwise a read of `blueIcon`, which is declared
   * nowhere, so rendering throws a ReferenceError.
   */
  function IconAsWritten(hpi: Value, env: Env): (r: Result<Icon, string>)
    ensures r.Err? <==> !Above(ToNumber(hpi, env), 0.0)
  {
    if Classify(hpi, env) == Unsafe then Ok(Red)
    else if Above(ToNumber(hpi, env), 0.0) then Ok(Green)
    else Err(ReferenceErrorMessage)
  }

  /** The icon as evidently intended: blue for unknown or non-positive HPI. */
  function IconIntended(hpi: Value, env: Env): (icon: Icon)
    ensures icon == Red <==> Classify(hpi, env) == Unsafe
    ensures icon == Green <==> Classify(hpi, env) == Safe && Above(ToNumber(hpi, env), 0.0)
    ensures icon == Blue <==> !Above(ToNumber(hpi, env), 0.0)
  {
    if Classify(hpi, env) == Unsafe then Red
    else if Above(ToNumber(hpi, env), 0.0) then Green
    else Blue
  }

  /** Where the written code picks an icon it is the intended one; it fails exactly where blue is meant. */
  lemma IconAgrees(hpi: Value, env: Env)
    ensures IconAsWritten(hpi, env).Ok? ==> IconAsWritten(hpi, env).value == IconIntended(hpi, env)
    ensures IconAsWritten(hpi, env).Err? <==> IconIntended(hpi, env) == Blue
  {
  }

  // ----- the page -----

  datatype MapMarker = MapMarker(key: nat, lat: Number, lng: Number, safety: Safety, icon: Icon)

  /** The placeholder when no record has valid coordinates, else the markers. */
  datatype View = Placeholder | Markers(markers: seq<MapMarker>)

  function MarkerFor(rec: Entries<Value>, key: nat, parse: Value -> Number, env: Env): (m: MapMarker)
    ensures m.key == key && m.safety == Classify(HpiValue(rec), env) && m.icon == IconIntended(HpiValue(rec), env)
  {
    MapMarker(key, parse(Get(rec, "latitude")), parse(Get(rec, "longitude")),
      Classify(HpiValue(rec), env), IconIntended(HpiValue(rec), env))
  }

  /** The page with the intended icons. */
  function Render(records: seq<Entries<Value>>, parse: Value -> Number, env: Env): (v: View)
    ensures v.Placeholder? <==> |ValidIndices(records, parse)| == 0
    ensures v.Markers? ==> |v.markers| == |ValidIndices(records, parse)|
  {
    var valid := ValidRecords(records, parse);
    if |valid| == 0 then Placeholder
    else Markers(seq(|valid|, j requires 0 <= j < |valid| => MarkerFor(valid[j], j, parse, env)))
  }

  /** Every marker sits on valid coordinates, with the label and icon its HPI calls for. */
  lemma RenderMarkers(records: seq<Entries<Value>>, parse: Value -> Number, env: Env, j: nat)
    requires Render(records, parse, env).Markers? && j < |Render(records, parse, env).markers|
    ensures var m := Render(records, parse, env).markers[j];
      var rec := ValidRecords(records, parse)[j];
      m.key == j && Within(m.lat, -90.0, 90.0) && Within(m.lng, -180.0, 180.0)
      && (m.safety == Unsafe <==> Above(ToNumber(HpiValue(rec), env), 100.0))
      && m.icon == IconIntended(HpiValue(rec), env)
  {
  }

  /**
   * The page as written, as far as the icon choice goes: the first marker
   * that would be blue throws instead.
   */
  function RenderAsWritten(records: seq<Entries<Value>>, parse: Value -> Number, env: Env): Result<View, string> {
    var valid := ValidRecords(records, parse);
    if |valid| == 0 then Ok(Placeholder)
    else if exists j :: 0 <= j < |valid| && IconAsWritten(HpiValue(valid[j]), env).Err? then Err(ReferenceErrorMessage)
    else Ok(Render(records, parse, env))
  }

  /**
   * The icon choice as written throws exactly when some shown record's HPI
   * is not above 0; otherwise the page equals the intended one.
   */
  lemma RenderAsWrittenSpec(records: seq<Entries<Value>>, parse: Value -> Number, env: Env)
    ensures RenderAsWritten(records, parse, env).Err? <==>
      exists j :: 0 <= j < |ValidRecords(records, parse)| && !Above(ToNumber(HpiValue(ValidRecords(records, parse)[j]), env), 0.0)
    ensures RenderAsWritten(records, parse, env).Ok? ==> RenderAsWritten(records, parse, env).value == Render(records, parse, env)
  {
  }

  /**
   * A record with valid coordinates and no HPI anywhere reads HPI 0, and the
   * written page throws on it.
   */
  lemma MissingHpiThrows(records: seq<Entries<Value>>, i: nat, parse: Value -> Number, env: Env)
    requires i < |records| && HasValidCoordinates(records[i], parse)
    requires forall c :: c in HpiCandidates(records[i]) ==> Nullish(c)
    ensures RenderAsWritten(records, parse, env).Err?
  {
    NoHpiIsZero(records[i]);
    var j := ShownAt(records, i, parse);
    assert IconAsWritten(HpiValue(ValidRecords(records, parse)[j]), env).Err?;
  }

  /** Where a record with valid coordinates appears among the kept ones. */
  lemma ShownAt(records: seq<Entries<Value>>, i: nat, parse: Value -> Number) returns (j: nat)
    requires i < |records| && HasValidCoordinates(records[i], parse)
    ensures j < |ValidRecords(records, parse)| && ValidRecords(records, parse)[j] == records[i]
  {
    ValidIndicesComplete(records, i, parse);
    var ix := ValidIndices(records, parse);
    j :| 0 <= j < |ix| && ix[j] == i;
  }

  /** With every candidate missing, the HPI read is the default 0. */
  lemma NoHpiIsZero(rec: Entries<Value>)
    requires forall c :: c in HpiCandidates(rec) ==> Nullish(c)
    ensures HpiValue(rec) == Num(Finite(0.0))
  {
    var vs := HpiCandidates(rec);
    assert Nullish(vs[0]) && Nullish(vs[1]) && Nullish(vs[2]) && Nullish(vs[3]);
  }
}
