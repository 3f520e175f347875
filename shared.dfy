/**
 * The helpers every analysis shares (sim_shared.js): guards on sensor and result counts,
 * the area-weighted score of a result set, the area-weighted UHI mean, road noise levels,
 * and the scenic positions of the visibility analysis.
 *
 * The geometry kernel's answers (the polygons of a type, their areas, the positions of a
 * divided edge) are inputs.
 */
module SimShared {
  import opened Js

  /** The error a guard throws, with the counts its message reports. */
  datatype SimError =
    | NoSensorsOrObstructions(simName: string, numRays: nat, numObs: nat)
    | MissingResults(simName: string)
    | ResultCountMismatch(simName: string, expected: nat, numResults: nat)

  /** What the analyses read of a polygon: its `type` and `obstruction` attributes and its area. */
  datatype Pgon = Pgon(id: nat, typ: string, obstruction: bool, area: real)

  // ---------------------------------------------------------------------------------------------
  // Guards

  /** `checkErrorBeforSim`: throws when there is no sensor ray or no obstruction. */
  function CheckBeforeSim(simName: string, numRays: nat, numObs: nat): (r: Option<SimError>)
    ensures r.None? <==> numRays > 0 && numObs > 0
    ensures r.Some? ==> r.value == NoSensorsOrObstructions(simName, numRays, numObs)
  {
    if numRays == 0 || numObs == 0 then Some(NoSensorsOrObstructions(simName, numRays, numObs))
    else None
  }

  /** `checkErrorAfterSim`: throws when the results are missing (`!values`; an array, even
      an empty one, is truthy) or when there is not one result per sensor ray. */
  function CheckAfterSim(simName: string, numRays: nat, values: Option<seq<real>>): (r: Option<SimError>)
    ensures r.None? <==> values.Some? && |values.value| == numRays
    ensures values.None? ==> r == Some(MissingResults(simName))
    ensures values.Some? && |values.value| != numRays ==>
              r == Some(ResultCountMismatch(simName, numRays, |values.value|))
  {
    match values
    case None => Some(MissingResults(simName))
    case Some(vs) => if numRays != |vs| then Some(ResultCountMismatch(simName, numRays, |vs|)) else None
  }

  /** `sim.query.Filter(pgons, 'type', '==', t)`, keeping the order. */
  function OfType(pgons: seq<Pgon>, t: string): (r: seq<Pgon>)
    ensures |r| <= |pgons|
    ensures forall p :: p in r <==> p in pgons && p.typ == t
  {
    if |pgons| == 0 then []
    else OfType(pgons[..|pgons| - 1], t) + (if pgons[|pgons| - 1].typ == t then [pgons[|pgons| - 1]] else [])
  }

  /** `sim.query.Filter(pgons, 'obstruction', '==', true)`, keeping the order. */
  function Obstructions(pgons: seq<Pgon>): (r: seq<Pgon>)
    ensures |r| <= |pgons|
    ensures forall p :: p in r <==> p in pgons && p.obstruction
  {
    if |pgons| == 0 then []
    else Obstructions(pgons[..|pgons| - 1]) + (if pgons[|pgons| - 1].obstruction then [pgons[|pgons| - 1]] else [])
  }

  /** `getSensorPgons`: the polygons of the sensor type, provided there is one per value. */
  function GetSensorPgons(simName: string, allPgons: seq<Pgon>, sensType: string, values: seq<real>)
    : (r: Result<seq<Pgon>, SimError>)
    ensures r.Success? <==> |OfType(allPgons, sensType)| == |values|
    ensures r.Success? ==> r.value == OfType(allPgons, sensType) && forall p :: p in r.value ==> p.typ == sensType
    ensures r.Failure? ==> r.error == ResultCountMismatch(simName, |OfType(allPgons, sensType)|, |values|)
  {
    var sensPgons := OfType(allPgons, sensType);
    if |sensPgons| != |values| then Failure(ResultCountMismatch(simName, |sensPgons|, |values|))
    else Success(sensPgons)
  }

  // ---------------------------------------------------------------------------------------------
  // Scoring

  /** `val < des_min || val > des_max`; an undefined value compares false both ways and so
      counts as desirable. */
  predicate Undesirable(val: JsNum, desMin: JsNum, desMax: JsNum) {
    Lt(val, desMin) || Lt(desMax, val)
  }

  /** The area of the first n sensor polygons whose value lies in the desirable range. */
  function DesArea(values: seq<real>, areas: seq<real>, desMin: JsNum, desMax: JsNum, n: nat): real
    requires n <= |areas|
  {
    if n == 0 then 0.0
    else DesArea(values, areas, desMin, desMax, n - 1)
         + (if Undesirable(At(values, n - 1), desMin, desMax) then 0.0 else areas[n - 1])
  }

  /** The area of the first n sensor polygons whose value lies outside the desirable range. */
  function UndesArea(values: seq<real>, areas: seq<real>, desMin: JsNum, desMax: JsNum, n: nat): real
    requires n <= |areas|
  {
    if n == 0 then 0.0
    else UndesArea(values, areas, desMin, desMax, n - 1)
         + (if Undesirable(At(values, n - 1), desMin, desMax) then areas[n - 1] else 0.0)
  }

  /** `100 * des_area / (des_area + undes_area)`, NaN when both areas are 0. */
  function Percentage(des: real, undes: real): JsNum {
    if des + undes == 0.0 then NaN else Num(100.0 * des / (des + undes))
  }

  /** `calcScore`: the desirable area and the percentage of the sensor area it makes up.
      `areas[i]` is the area of sensor polygon i. */
  method CalcScore(values: seq<real>, areas: seq<real>, desRange: (JsNum, JsNum))
    returns (desArea: real, score: JsNum)
    ensures desArea == DesArea(values, areas, desRange.0, desRange.1, |areas|)
    ensures score == Percentage(desArea, UndesArea(values, areas, desRange.0, desRange.1, |areas|))
  {
    var (desMin, desMax) := desRange;
    desArea := 0.0;
    var undesArea := 0.0;
    var i := 0;
    while i < |areas|
      invariant 0 <= i <= |areas|
      invariant desArea == DesArea(values, areas, desMin, desMax, i)
      invariant undesArea == UndesArea(values, areas, desMin, desMax, i)
    {
      var val := At(values, i);
      var area := areas[i];
      if Lt(val, desMin) || Lt(desMax, val) {
        undesArea := undesArea + area;
      } else {
        desArea := desArea + area;
      }
      i := i + 1;
    }
    score := if desArea + undesArea == 0.0 then NaN else Num(100.0 * desArea / (desArea + undesArea));
  }

  /** Every polygon's area is counted exactly once, as desirable or as undesirable. */
  lemma {:induction false} AreaPartition(values: seq<real>, areas: seq<real>, desMin: JsNum, desMax: JsNum, n: nat)
    requires n <= |areas|
    ensures DesArea(values, areas, desMin, desMax, n) + UndesArea(values, areas, desMin, desMax, n)
            == SumOf(areas[..n])
  {
    if n > 0 {
      AreaPartition(values, areas, desMin, desMax, n - 1);
      assert areas[..n][..n - 1] == areas[..n - 1];
    }
  }

  lemma {:induction false} AreasNonNegative(values: seq<real>, areas: seq<real>, desMin: JsNum, desMax: JsNum, n: nat)
    requires n <= |areas| && NonNegative(areas)
    ensures DesArea(values, areas, desMin, desMax, n) >= 0.0
    ensures UndesArea(values, areas, desMin, desMax, n) >= 0.0
  {
    if n > 0 {
      AreasNonNegative(values, areas, desMin, desMax, n - 1);
    }
  }

  /** With non-negative areas and some sensor area, the score is a percentage. */
  lemma ScoreBounds(values: seq<real>, areas: seq<real>, desMin: JsNum, desMax: JsNum)
    requires NonNegative(areas) && SumOf(areas) > 0.0
    ensures var p := Percentage(DesArea(values, areas, desMin, desMax, |areas|),
                                UndesArea(values, areas, desMin, desMax, |areas|));
            p.Num? && 0.0 <= p.value <= 100.0
  {
    var des := DesArea(values, areas, desMin, desMax, |areas|);
    var undes := UndesArea(values, areas, desMin, desMax, |areas|);
    AreaPartition(values, areas, desMin, desMax, |areas|);
    assert areas[..|areas|] == areas;
    AreasNonNegative(values, areas, desMin, desMax, |areas|);
    DivBetween(100.0 * des, des + undes, 0.0, 100.0);
  }

  /** Every value lies in the range, or the range has a missing bound (a configuration key
      that does not exist), so that no comparison can fail. */
  predicate AllDesirable(values: seq<real>, desMin: JsNum, desMax: JsNum, n: nat) {
    forall i :: 0 <= i < n ==> !Undesirable(At(values, i), desMin, desMax)
  }

  lemma {:induction false} AllDesirableArea(values: seq<real>, areas: seq<real>, desMin: JsNum, desMax: JsNum, n: nat)
    requires n <= |areas| && AllDesirable(values, desMin, desMax, n)
    ensures DesArea(values, areas, desMin, desMax, n) == SumOf(areas[..n])
    ensures UndesArea(values, areas, desMin, desMax, n) == 0.0
  {
    if n > 0 {
      AllDesirableArea(values, areas, desMin, desMax, n - 1);
      assert areas[..n][..n - 1] == areas[..n - 1];
    }
  }

  /** When every value is in range the score is 100. */
  lemma AllDesirableScore(values: seq<real>, areas: seq<real>, lo: real, hi: real)
    requires |values| == |areas| && SumOf(areas) != 0.0
    requires forall i :: 0 <= i < |values| ==> lo <= values[i] <= hi
    ensures Percentage(DesArea(values, areas, Num(lo), Num(hi), |areas|),
                       UndesArea(values, areas, Num(lo), Num(hi), |areas|)) == Num(100.0)
  {
    AllDesirableArea(values, areas, Num(lo), Num(hi), |areas|);
    assert areas[..|areas|] == areas;
    WholePercentage(SumOf(areas));
  }

  lemma WholePercentage(total: real)
    requires total != 0.0
    ensures Percentage(total, 0.0) == Num(100.0)
  {
    assert 100.0 * total / total == 100.0;
  }

  /** A range with an undefined bound, such as one read from a missing configuration key,
      counts every polygon as desirable. */
  lemma UndefinedRangeAllDesirable(values: seq<real>, areas: seq<real>)
    requires SumOf(areas) != 0.0
    ensures Percentage(DesArea(values, areas, Undefined, Undefined, |areas|),
                       UndesArea(values, areas, Undefined, Undefined, |areas|)) == Num(100.0)
  {
    AllDesirableArea(values, areas, Undefined, Undefined, |areas|);
    assert areas[..|areas|] == areas;
    WholePercentage(SumOf(areas));
  }

  /** Widening the desirable range never shrinks the desirable area. */
  lemma {:induction false} WideningMonotone(values: seq<real>, areas: seq<real>, lo: real, hi: real,
                                            lo': real, hi': real, n: nat)
    requires n <= |areas| && NonNegative(areas) && lo' <= lo && hi <= hi'
    ensures DesArea(values, areas, Num(lo), Num(hi), n) <= DesArea(values, areas, Num(lo'), Num(hi'), n)
  {
    if n > 0 {
      WideningMonotone(values, areas, lo, hi, lo', hi', n - 1);
    }
  }

  /** The indices, in order, of the first n polygons `crossSensPgons` marks with a cross. */
  function CrossedIndices(values: seq<real>, desMin: JsNum, desMax: JsNum, n: nat): seq<nat> {
    if n == 0 then []
    else CrossedIndices(values, desMin, desMax, n - 1)
         + (if Undesirable(At(values, n - 1), desMin, desMax) then [n - 1] else [])
  }

  /** Every index is below n, and the indices strictly ascend. */
  predicate AscendingBelow(r: seq<nat>, n: nat) {
    (forall k :: 0 <= k < |r| ==> r[k] < n) &&
    (forall a, b :: 0 <= a < b < |r| ==> r[a] < r[b])
  }

  /** The crosses are drawn in polygon order, each polygon at most once, all below the polygon count. */
  lemma {:induction false} CrossedAscending(values: seq<real>, desMin: JsNum, desMax: JsNum, n: nat)
    ensures AscendingBelow(CrossedIndices(values, desMin, desMax, n), n)
  {
    if n > 0 {
      CrossedAscending(values, desMin, desMax, n - 1);
      var r' := CrossedIndices(values, desMin, desMax, n - 1);
      if Undesirable(At(values, n - 1), desMin, desMax) {
        var r := r' + [n - 1];
        assert CrossedIndices(values, desMin, desMax, n) == r;
        assert forall k :: 0 <= k < |r'| ==> r[k] == r'[k] && r'[k] < n - 1;
      } else {
        assert CrossedIndices(values, desMin, desMax, n) == r' + [];
        assert r' + [] == r';
      }
    }
  }

  /** A polygon gets a cross exactly when its value is outside the desirable range. */
  lemma {:induction false} CrossedMembership(values: seq<real>, desMin: JsNum, desMax: JsNum, n: nat)
    ensures forall i: nat :: i in CrossedIndices(values, desMin, desMax, n) <==>
              i < n && Undesirable(At(values, i), desMin, desMax)
  {
    if n > 0 {
      CrossedMembership(values, desMin, desMax, n - 1);
    }
  }

  /** The loop of `crossSensPgons`: the indices of the sensor polygons that get a cross. */
  method CrossSensPgons(values: seq<real>, numPgons: nat, desRange: (JsNum, JsNum)) returns (crossed: seq<nat>)
    ensures crossed == CrossedIndices(values, desRange.0, desRange.1, numPgons)
  {
    var (desMin, desMax) := desRange;
    crossed := [];
    var i := 0;
    while i < numPgons
      invariant 0 <= i <= numPgons
      invariant crossed == CrossedIndices(values, desMin, desMax, i)
    {
      var val := At(values, i);
      if Lt(val, desMin) || Lt(desMax, val) {
        crossed := crossed + [i];
      }
      i := i + 1;
    }
  }

  /** The sum of `areas` over a list of indices. */
  /** Every index in idx is below m, peeled from the end like `AreaAt`. */
  predicate Below(idx: seq<nat>, m: nat) {
    |idx| == 0 || (Below(idx[..|idx| - 1], m) && idx[|idx| - 1] < m)
  }

  function AreaAt(areas: seq<real>, idx: seq<nat>): real
    requires Below(idx, |areas|)
  {
    if |idx| == 0 then 0.0 else AreaAt(areas, idx[..|idx| - 1]) + areas[idx[|idx| - 1]]
  }

  lemma AreaAtSnoc(areas: seq<real>, idx: seq<nat>, j: nat)
    requires Below(idx, |areas|)
    requires j < |areas|
    ensures Below(idx + [j], |areas|)
    ensures AreaAt(areas, idx + [j]) == AreaAt(areas, idx) + areas[j]
  {
    assert (idx + [j])[..|idx|] == idx;
  }

  /** The crossed polygons are exactly those whose area `calcScore` counts as undesirable. */
  lemma {:induction false} CrossedAreIndesirable(values: seq<real>, areas: seq<real>, desMin: JsNum, desMax: JsNum, n: nat)
    requires n <= |areas|
    ensures var c := CrossedIndices(values, desMin, desMax, n);
            Below(c, |areas|) && AreaAt(areas, c) == UndesArea(values, areas, desMin, desMax, n)
  {
    if n > 0 {
      CrossedAreIndesirable(values, areas, desMin, desMax, n - 1);
      var c' := CrossedIndices(values, desMin, desMax, n - 1);
      var u := Undesirable(At(values, n - 1), desMin, desMax);
      CrossedStep(values, areas, desMin, desMax, n);
      CrossedArea(areas, c', CrossedIndices(values, desMin, desMax, n), n - 1, u,
                  UndesArea(values, areas, desMin, desMax, n - 1), UndesArea(values, areas, desMin, desMax, n));
    }
  }

  /** One step of `CrossedIndices` and `UndesArea` together. */
  lemma CrossedStep(values: seq<real>, areas: seq<real>, desMin: JsNum, desMax: JsNum, n: nat)
    requires 0 < n <= |areas|
    ensures var u := Undesirable(At(values, n - 1), desMin, desMax);
            CrossedIndices(values, desMin, desMax, n) ==
              CrossedIndices(values, desMin, desMax, n - 1) + (if u then [n - 1] else []) &&
            UndesArea(values, areas, desMin, desMax, n) ==
              UndesArea(values, areas, desMin, desMax, n - 1) + (if u then areas[n - 1] else 0.0)
  {
  }

  lemma CrossedArea(areas: seq<real>, c: seq<nat>, c': seq<nat>, j: nat, u: bool, undes: real, undes': real)
    requires Below(c, |areas|) && j < |areas| && AreaAt(areas, c) == undes
    requires c' == c + (if u then [j] else [])
    requires undes' == undes + (if u then areas[j] else 0.0)
    ensures Below(c', |areas|) && AreaAt(areas, c') == undes'
  {
    if u {
      AreaAtSnoc(areas, c, j);
    } else {
      assert c + [] == c;
    }
  }

  // ---------------------------------------------------------------------------------------------
  // UHI mean

  /** Σ values[i] * areas[i] over the first n polygons. */
  function WeightedSum(values: seq<real>, areas: seq<real>, n: nat): real
    requires n <= |values| && n <= |areas|
  {
    if n == 0 then 0.0 else WeightedSum(values, areas, n - 1) + values[n - 1] * areas[n - 1]
  }

  /** `total_uhi / total_area`, NaN when the total area is 0. */
  function AreaMean(values: seq<real>, areas: seq<real>): JsNum
    requires |values| == |areas|
  {
    if SumOf(areas) == 0.0 then NaN else Num(WeightedSum(values, areas, |areas|) / SumOf(areas))
  }

  /** `calcUHI`: the area-weighted mean of the values. */
  method CalcUHI(values: seq<real>, areas: seq<real>) returns (meanUhiScore: JsNum)
    requires |values| == |areas|
    ensures meanUhiScore == AreaMean(values, areas)
  {
    var totalArea := 0.0;
    var totalUhi := 0.0;
    var i := 0;
    while i < |areas|
      invariant 0 <= i <= |areas|
      invariant totalArea == SumOf(areas[..i])
      invariant totalUhi == WeightedSum(values, areas, i)
    {
      assert areas[..i + 1][..i] == areas[..i];
      var uhi := values[i];
      var area := areas[i];
      totalArea := totalArea + area;
      totalUhi := totalUhi + uhi * area;
      i := i + 1;
    }
    assert areas[..|areas|] == areas;
    meanUhiScore := if totalArea == 0.0 then NaN else Num(totalUhi / totalArea);
  }

  lemma {:induction false} WeightedSumBetween(values: seq<real>, areas: seq<real>, lo: real, hi: real, n: nat)
    requires n <= |values| && n <= |areas| && NonNegative(areas)
    requires forall i :: 0 <= i < n ==> lo <= values[i] <= hi
    ensures lo * SumOf(areas[..n]) <= WeightedSum(values, areas, n) <= hi * SumOf(areas[..n])
  {
    if n > 0 {
      WeightedSumBetween(values, areas, lo, hi, n - 1);
      assert areas[..n][..n - 1] == areas[..n - 1];
      var v, a, total := values[n - 1], areas[n - 1], SumOf(areas[..n - 1]);
      assert SumOf(areas[..n]) == total + a;
      ScaledBetween(v, a, lo, hi);
      assert lo * (total + a) == lo * total + lo * a;
      assert hi * (total + a) == hi * total + hi * a;
    }
  }

  lemma ScaledBetween(v: real, a: real, lo: real, hi: real)
    requires a >= 0.0 && lo <= v <= hi
    ensures lo * a <= v * a <= hi * a
  {
    assert (v - lo) * a >= 0.0;
    assert (hi - v) * a >= 0.0;
  }

  /** With non-negative areas that are not all 0, the mean lies between the smallest and
      the largest value; in particular constant values give back that constant. */
  lemma MeanBetween(values: seq<real>, areas: seq<real>, lo: real, hi: real)
    requires |values| == |areas| && NonNegative(areas) && SumOf(areas) > 0.0
    requires forall i :: 0 <= i < |values| ==> lo <= values[i] <= hi
    ensures AreaMean(values, areas).Num? && lo <= AreaMean(values, areas).value <= hi
  {
    WeightedSumBetween(values, areas, lo, hi, |areas|);
    assert areas[..|areas|] == areas;
    DivBetween(WeightedSum(values, areas, |areas|), SumOf(areas), lo, hi);
  }

  lemma ConstantMean(values: seq<real>, areas: seq<real>, c: real)
    requires |values| == |areas| && NonNegative(areas) && SumOf(areas) > 0.0
    requires forall i :: 0 <= i < |values| ==> values[i] == c
    ensures AreaMean(values, areas) == Num(c)
  {
    MeanBetween(values, areas, c, c);
  }

  // ---------------------------------------------------------------------------------------------
  // Roads

  /** A polyline and its `type` attribute, which may be missing. */
  datatype Pline = Pline(id: nat, typ: Option<string>)

  predicate IsRoad(p: Pline) {
    p.typ.Some? && StartsWith(p.typ.value, "road")
  }

  /** `parseFloat(att_parts[att_parts.length - 1])` with `att_parts = att_type.split('_')` */
  function NoiseLevel(attType: string): JsNum {
    ParseFloat(LastPart(attType, "_"))
  }

  /** The road polylines, in order. */
  function Roads(plines: seq<Pline>): (r: seq<Pline>)
    ensures forall p :: p in r <==> p in plines && IsRoad(p)
    ensures forall k :: 0 <= k < |r| ==> IsRoad(r[k])
  {
    if |plines| == 0 then []
    else Roads(plines[..|plines| - 1]) + (if IsRoad(plines[|plines| - 1]) then [plines[|plines| - 1]] else [])
  }

  /** `getRoads`: the road polylines and, aligned with them, their noise levels. */
  method GetRoads(plines: seq<Pline>) returns (roads: seq<nat>, noiseLvls: seq<JsNum>)
    ensures |roads| == |noiseLvls| == |Roads(plines)|
    ensures forall k :: 0 <= k < |roads| ==>
              roads[k] == Roads(plines)[k].id && noiseLvls[k] == NoiseLevel(Roads(plines)[k].typ.value)
  {
    roads := [];
    noiseLvls := [];
    var n := 0;
    while n < |plines|
      invariant 0 <= n <= |plines|
      invariant |roads| == |noiseLvls| == |Roads(plines[..n])|
      invariant forall k :: 0 <= k < |roads| ==>
                  roads[k] == Roads(plines[..n])[k].id && noiseLvls[k] == NoiseLevel(Roads(plines[..n])[k].typ.value)
    {
      var pline := plines[n];
      assert plines[..n + 1][..n] == plines[..n];
      var attType := pline.typ;
      if attType.Some? && StartsWith(attType.value, "road") {
        roads := roads + [pline.id];
        noiseLvls := noiseLvls + [NoiseLevel(attType.value)];
      }
      n := n + 1;
    }
    assert plines[..|plines|] == plines;
  }

  /** A road typed `road_<n>` carries a noise level of n dB. */
  lemma RoadNoise(n: nat)
    ensures IsRoad(Pline(0, Some("road_" + NatToString(n))))
    ensures NoiseLevel("road_" + NatToString(n)) == Num(n as real)
  {
    var d := NatToString(n);
    assert "road_" + d == "road" + "_" + d;
    SplitAt("road", "_", d);
    SplitNone(d, "_");
    ParseFloatNatPrefix(n, "");
    assert d + "" == d;
  }

  // ---------------------------------------------------------------------------------------------
  // Scenic positions

  /** The groups of positions concatenated in order. */
  function Flatten(groups: seq<seq<nat>>): seq<nat> {
    if |groups| == 0 then [] else Flatten(groups[..|groups| - 1]) + groups[|groups| - 1]
  }

  /** The distinct elements of xs in order of first occurrence, as `Array.from(new Set(xs))`. */
  function Dedup(xs: seq<nat>): seq<nat> {
    if |xs| == 0 then []
    else
      var d := Dedup(xs[..|xs| - 1]);
      if xs[|xs| - 1] in xs[..|xs| - 1] then d else d + [xs[|xs| - 1]]
  }

  lemma {:induction false} DedupProperties(xs: seq<nat>)
    ensures forall x :: x in Dedup(xs) <==> x in xs
    ensures forall i, j :: 0 <= i < j < |Dedup(xs)| ==> Dedup(xs)[i] != Dedup(xs)[j]
  {
    if |xs| > 0 {
      DedupProperties(xs[..|xs| - 1]);
      assert xs == xs[..|xs| - 1] + [xs[|xs| - 1]];
    }
  }

  /** Adding one element to the set: it is appended exactly when it was not yet a member. */
  lemma DedupAdd(xs: seq<nat>, x: nat)
    ensures Dedup(xs + [x]) == if x in Dedup(xs) then Dedup(xs) else Dedup(xs) + [x]
  {
    assert (xs + [x])[..|xs|] == xs;
    DedupMember(xs, x);
  }

  lemma {:induction false} DedupMember(xs: seq<nat>, x: nat)
    ensures x in Dedup(xs) <==> x in xs
  {
    if |xs| > 0 {
      DedupMember(xs[..|xs| - 1], x);
      assert xs == xs[..|xs| - 1] + [xs[|xs| - 1]];
    }
  }

  lemma ExtendPrefix(seen: seq<nat>, posis: seq<nat>, k: nat)
    requires k < |posis|
    ensures seen + posis[..k + 1] == (seen + posis[..k]) + [posis[k]]
  {
    assert posis[..k + 1] == posis[..k] + [posis[k]];
  }

  /** Adds each position to the insertion-ordered set `posisSet`, as `Set.prototype.add`. */
  method AddAll(posisSet: seq<nat>, ghost seen: seq<nat>, posis: seq<nat>) returns (r: seq<nat>)
    requires posisSet == Dedup(seen)
    ensures r == Dedup(seen + posis)
  {
    r := posisSet;
    var k := 0;
    assert seen + posis[..0] == seen;
    while k < |posis|
      invariant 0 <= k <= |posis|
      invariant r == Dedup(seen + posis[..k])
    {
      DedupAdd(seen + posis[..k], posis[k]);
      ExtendPrefix(seen, posis, k);
      if posis[k] !in r {
        r := r + [posis[k]];
      }
      k := k + 1;
    }
    assert posis[..|posis|] == posis;
  }

  lemma FlattenPrefix(pre: seq<nat>, groups: seq<seq<nat>>, h: nat)
    requires h < |groups|
    ensures pre + Flatten(groups[..h + 1]) == (pre + Flatten(groups[..h])) + groups[h]
  {
    assert groups[..h + 1][..h] == groups[..h];
  }

  /** `getVisPosis`: the positions of the divided scenic polygons, then of the divided
      scenic polylines, each kept once, in order of first appearance. */
  method GetVisPosis(pgonPosis: seq<seq<nat>>, plinePosis: seq<seq<nat>>) returns (posis: seq<nat>)
    ensures posis == Dedup(Flatten(pgonPosis) + Flatten(plinePosis))
    ensures forall p :: p in posis <==> p in Flatten(pgonPosis) + Flatten(plinePosis)
    ensures forall i, j :: 0 <= i < j < |posis| ==> posis[i] != posis[j]
  {
    var posisSet: seq<nat> := [];
    var g := 0;
    while g < |pgonPosis|
      invariant 0 <= g <= |pgonPosis|
      invariant posisSet == Dedup(Flatten(pgonPosis[..g]))
    {
      FlattenPrefix([], pgonPosis, g);
      assert [] + Flatten(pgonPosis[..g]) == Flatten(pgonPosis[..g]);
      assert [] + Flatten(pgonPosis[..g + 1]) == Flatten(pgonPosis[..g + 1]);
      posisSet := AddAll(posisSet, Flatten(pgonPosis[..g]), pgonPosis[g]);
      g := g + 1;
    }
    assert pgonPosis[..|pgonPosis|] == pgonPosis;
    var h := 0;
    assert Flatten(pgonPosis) + Flatten(plinePosis[..0]) == Flatten(pgonPosis);
    while h < |plinePosis|
      invariant 0 <= h <= |plinePosis|
      invariant posisSet == Dedup(Flatten(pgonPosis) + Flatten(plinePosis[..h]))
    {
      FlattenPrefix(Flatten(pgonPosis), plinePosis, h);
      posisSet := AddAll(posisSet, Flatten(pgonPosis) + Flatten(plinePosis[..h]), plinePosis[h]);
      h := h + 1;
    }
    assert plinePosis[..|plinePosis|] == plinePosis;
    posis := posisSet;
    DedupProperties(Flatten(pgonPosis) + Flatten(plinePosis));
  }
}
