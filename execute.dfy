/**
 * Running one analysis on a generated model (sim_execute.js in the browser, and its batch
 * twin genScript/sim_execute_single.js): the settings and desirable ranges, the post-processing
 * of each analysis' raw exposures, the tile window fetched around a site, the choice of the
 * nearest weather station, and the dispatch on the analysis type.
 *
 * The geometry kernel's analyses (Sun, Sky, Wind) are inputs: the exposures they return.
 */
module Execute {
  import opened Js
  import opened Tiles
  import opened SimShared

  // ---------------------------------------------------------------------------------------------
  // Settings and configuration

  const SolarFacadeMaxVal: real := 0.6945730087671974
  const SkyFacadeMaxVal: real := 0.5989617186548527
  const AnalysisRadius: real := 1000.0
  const WindNumRays: nat := 4
  const WindRadius: real := 200.0
  const WindLayers: seq<real> := [1.0, 18.0, 4.0]

  /** The `config` table of desirable ranges and the site's latitude and longitude. */
  const Config: map<string, real> := map[
    "latitude" := 1.298759, "longitude" := 103.778329,
    "g_solar_min" := 0.0, "g_solar_max" := 50.0,
    "g_sky_min" := 50.0, "g_sky_max" := 100.0,
    "g_uhi_min" := 0.0, "g_uhi_max" := 4.0,
    "g_wind_min" := 60.0, "g_wind_max" := 100.0,
    "g_irr_min" := 0.0, "g_irr_max" := 800.0,
    "g_irr_rad_min" := 0.0, "g_irr_rad_max" := 800.0,
    "f_solar_min" := 0.0, "f_solar_max" := 50.0,
    "f_sky_min" := 50.0, "f_sky_max" := 100.0,
    "f_irr_min" := 0.0, "f_irr_max" := 500.0,
    "f_irr_rad_min" := 0.0, "f_irr_rad_max" := 500.0,
    "f_noise_min" := 0.0, "f_noise_max" := 60.0,
    "f_unob_min" := 80.0, "f_unob_max" := 100.0,
    "f_visib_min" := 0.0, "f_visib_max" := 60.0]

  /** `config[key]`: undefined for a missing key. */
  function Lookup(key: string): JsNum {
    if key in Config then Num(Config[key]) else Undefined
  }

  /** `[config[sens_type[0] + '_X_min'], config[sens_type[0] + '_X_max']]`; for an empty
      sensor type `sens_type[0]` is undefined and the key starts with "undefined". */
  function DesRange(sensType: string, analysis: string): (JsNum, JsNum) {
    var c := if |sensType| > 0 then [sensType[0]] else "undefined";
    (Lookup(c + "_" + analysis + "_min"), Lookup(c + "_" + analysis + "_max"))
  }

  /** The ground ranges the analyses use. */
  lemma GroundRanges()
    ensures DesRange("ground", "solar") == (Num(0.0), Num(50.0))
    ensures DesRange("ground", "sky") == (Num(50.0), Num(100.0))
    ensures DesRange("ground", "uhi") == (Num(0.0), Num(4.0))
    ensures DesRange("ground", "wind") == (Num(60.0), Num(100.0))
  {
    GroundSolarRange();
    GroundSkyRange();
    GroundUhiRange();
    GroundWindRange();
  }

  /** The façade has solar and sky ranges but no UHI or wind range, so every façade UHI
      or wind value would count as desirable. */
  lemma FacadeRanges()
    ensures DesRange("facade", "solar") == (Num(0.0), Num(50.0))
    ensures DesRange("facade", "sky") == (Num(50.0), Num(100.0))
    ensures DesRange("facade", "uhi") == (Undefined, Undefined)
    ensures DesRange("facade", "wind") == (Undefined, Undefined)
  {
    FacadeSolarRange();
    FacadeSkyRange();
    FacadeUhiRange();
    FacadeWindRange();
  }

  lemma GroundSolarRange()
    ensures DesRange("ground", "solar") == (Num(0.0), Num(50.0))
  {
    assert ["ground"[0]] + "_" + "solar" + "_min" == "g_solar_min";
    assert ["ground"[0]] + "_" + "solar" + "_max" == "g_solar_max";
  }

  lemma GroundSkyRange()
    ensures DesRange("ground", "sky") == (Num(50.0), Num(100.0))
  {
    assert ["ground"[0]] + "_" + "sky" + "_min" == "g_sky_min";
    assert ["ground"[0]] + "_" + "sky" + "_max" == "g_sky_max";
  }

  lemma GroundUhiRange()
    ensures DesRange("ground", "uhi") == (Num(0.0), Num(4.0))
  {
    assert ["ground"[0]] + "_" + "uhi" + "_min" == "g_uhi_min";
    assert ["ground"[0]] + "_" + "uhi" + "_max" == "g_uhi_max";
  }

  lemma GroundWindRange()
    ensures DesRange("ground", "wind") == (Num(60.0), Num(100.0))
  {
    assert ["ground"[0]] + "_" + "wind" + "_min" == "g_wind_min";
    assert ["ground"[0]] + "_" + "wind" + "_max" == "g_wind_max";
  }

  lemma FacadeSolarRange()
    ensures DesRange("facade", "solar") == (Num(0.0), Num(50.0))
  {
    assert ["facade"[0]] + "_" + "solar" + "_min" == "f_solar_min";
    assert ["facade"[0]] + "_" + "solar" + "_max" == "f_solar_max";
  }

  lemma FacadeSkyRange()
    ensures DesRange("facade", "sky") == (Num(50.0), Num(100.0))
  {
    assert ["facade"[0]] + "_" + "sky" + "_min" == "f_sky_min";
    assert ["facade"[0]] + "_" + "sky" + "_max" == "f_sky_max";
  }

  lemma FacadeUhiRange()
    ensures DesRange("facade", "uhi") == (Undefined, Undefined)
  {
    assert ["facade"[0]] + "_" + "uhi" + "_min" == "f_uhi_min";
    assert ["facade"[0]] + "_" + "uhi" + "_max" == "f_uhi_max";
  }

  lemma FacadeWindRange()
    ensures DesRange("facade", "wind") == (Undefined, Undefined)
  {
    assert ["facade"[0]] + "_" + "wind" + "_min" == "f_wind_min";
    assert ["facade"[0]] + "_" + "wind" + "_max" == "f_wind_max";
  }

  /** Only the first letter of the sensor type selects the range. */
  lemma FirstLetterOnly(t: string, u: string, analysis: string)
    requires |t| > 0 && |u| > 0 && t[0] == u[0]
    ensures DesRange(t, analysis) == DesRange(u, analysis)
  {
    assert [t[0]] == [u[0]];
  }

  // ---------------------------------------------------------------------------------------------
  // Post-processing of raw exposures

  /** `sens_type === 'facade' ? FACADE_MAX_VAL : 1` */
  function MaxVal(sensType: string, facadeMaxVal: real): real {
    if sensType == "facade" then facadeMaxVal else 1.0
  }

  /** `Math.min(Math.max(v / max_val, 0), 1) * 100` */
  function Percent(v: real, maxVal: real): (r: real)
    requires maxVal > 0.0
    ensures 0.0 <= r <= 100.0
    ensures v <= 0.0 ==> r == 0.0
    ensures v >= maxVal ==> r == 100.0
  {
    Min(Max(v / maxVal, 0.0), 1.0) * 100.0
  }

  /** A larger raw exposure never gives a smaller percentage. */
  lemma PercentMonotone(v: real, w: real, maxVal: real)
    requires maxVal > 0.0 && v <= w
    ensures Percent(v, maxVal) <= Percent(w, maxVal)
  {
    assert v / maxVal <= w / maxVal by {
      CancelDiv(v, maxVal);
      CancelDiv(w, maxVal);
      MulMonotone(w / maxVal, v / maxVal, maxVal);
    }
  }

  /** The UHI regression for Singapore, `-6.51 * v + 7.13`, for an unweighted sky exposure v. */
  function Uhi(v: real): real {
    -6.51 * v + 7.13
  }

  /** A fully open sky gives 0.62 degrees and a fully closed one 7.13; more sky, less heat. */
  lemma UhiProperties(v: real, w: real)
    ensures Uhi(1.0) == 0.62 && Uhi(0.0) == 7.13
    ensures v < w ==> Uhi(w) < Uhi(v)
    ensures 0.0 <= v <= 1.0 ==> 0.62 <= Uhi(v) <= 7.13
  {
  }

  /** `Math.min(Math.max(v, 0), 1) * 100` for the wind analysis. */
  function WindPercent(v: real): (r: real)
    ensures r == Percent(v, 1.0)
  {
    Min(Max(v, 0.0), 1.0) * 100.0
  }

  /** The wind post-processing on every raw value: the percentage of a maximum of 1. */
  function WindValues(raw: seq<real>): (r: seq<real>)
    ensures r == MapPercent(raw, 1.0)
  {
    seq(|raw|, i requires 0 <= i < |raw| => WindPercent(raw[i]))
  }

  /** `values.map(f)` for the post-processing f of an analysis. */
  function MapPercent(exposure: seq<real>, maxVal: real): (r: seq<real>)
    requires maxVal > 0.0
    ensures |r| == |exposure|
    ensures forall i :: 0 <= i < |r| ==> r[i] == Percent(exposure[i], maxVal) && 0.0 <= r[i] <= 100.0
  {
    seq(|exposure|, i requires 0 <= i < |exposure| => Percent(exposure[i], maxVal))
  }

  function MapUhi(exposure: seq<real>): (r: seq<real>)
    ensures |r| == |exposure|
    ensures forall i :: 0 <= i < |r| ==> r[i] == Uhi(exposure[i])
  {
    seq(|exposure|, i requires 0 <= i < |exposure| => Uhi(exposure[i]))
  }

  /** The sky analysis' site UHII:
      `Math.round((-6.51 * Σ values / (values.length * 100) + 7.13) * 10) / 10`,
      NaN when there are no values. */
  function SkyUhii(values: seq<real>): JsNum {
    if |values| == 0 then NaN
    else Num(RoundTenth(-6.51 * SumOf(values) / (|values| as real * 100.0) + 7.13))
  }

  /** The UHII is the regression applied to the mean sky percentage over 100, to one
      decimal place. */
  lemma SkyUhiiIsRegressionOfMean(values: seq<real>)
    requires |values| > 0
    ensures SkyUhii(values) == Num(RoundTenth(Uhi(SumOf(values) / |values| as real / 100.0)))
  {
    SkyRegression(SumOf(values), |values| as real);
  }

  lemma SkyRegression(s: real, n: real)
    requires n > 0.0
    ensures -6.51 * s / (n * 100.0) + 7.13 == Uhi(s / n / 100.0)
  {
    var m := s / n;
    assert s == m * n;
    assert s / (n * 100.0) == m / 100.0;
    assert -6.51 * s / (n * 100.0) == -6.51 * (s / (n * 100.0));
  }

  // ---------------------------------------------------------------------------------------------
  // The evaluations

  /** The record an evaluation returns; `meanUhi` is the `other` field of the UHI analysis
      and `uhii` the sky analysis' extra information. */
  datatype EvalResult = EvalResult(simName: string, sensType: string, values: seq<real>, unit: string,
                                   desRange: (JsNum, JsNum), desArea: real, score: JsNum,
                                   meanUhi: Option<JsNum>, uhii: Option<JsNum>)

  function AreasOf(pgons: seq<Pgon>): (r: seq<real>)
    ensures |r| == |pgons| && forall i :: 0 <= i < |pgons| ==> r[i] == pgons[i].area
  {
    seq(|pgons|, i requires 0 <= i < |pgons| => pgons[i].area)
  }

  /** `sim.query.Filter(pgons, 'type', '!=', t)`, keeping the order. */
  function NotOfType(pgons: seq<Pgon>, t: string): (r: seq<Pgon>)
    ensures forall p :: p in r <==> p in pgons && p.typ != t
  {
    if |pgons| == 0 then []
    else NotOfType(pgons[..|pgons| - 1], t) + (if pgons[|pgons| - 1].typ != t then [pgons[|pgons| - 1]] else [])
  }

  /** What an evaluation scores: the values against the range, over the sensor polygons' areas. */
  ghost predicate Scored(r: EvalResult, sensPgons: seq<Pgon>) {
    var (lo, hi) := r.desRange;
    && r.desArea == DesArea(r.values, AreasOf(sensPgons), lo, hi, |sensPgons|)
    && r.score == Percentage(r.desArea, UndesArea(r.values, AreasOf(sensPgons), lo, hi, |sensPgons|))
  }

  /** The common tail of every evaluation: the count check, then `calcScore`. */
  method CheckAndScore(simName: string, sensType: string, sensPgons: seq<Pgon>, values: seq<real>,
                       unit: string, desRange: (JsNum, JsNum))
    returns (r: Result<EvalResult, SimError>)
    ensures CheckAfterSim(simName, |sensPgons|, Some(values)).Some? ==>
              r == Failure(CheckAfterSim(simName, |sensPgons|, Some(values)).value)
    ensures r.Success? <==> |values| == |sensPgons|
    ensures r.Success? ==> r.value.simName == simName && r.value.sensType == sensType
                           && r.value.values == values && r.value.unit == unit
                           && r.value.desRange == desRange && Scored(r.value, sensPgons)
                           && r.value.meanUhi.None? && r.value.uhii.None?
  {
    var err := CheckAfterSim(simName, |sensPgons|, Some(values));
    if err.Some? {
      return Failure(err.value);
    }
    var desArea, score := CalcScore(values, AreasOf(sensPgons), desRange);
    r := Success(EvalResult(simName, sensType, values, unit, desRange, desArea, score, None, None));
  }

  /** `eval_solar`: `exposure` is what the Sun analysis returns for the sensor rays. */
  method EvalSolar(pgons: seq<Pgon>, sensType: string, exposure: seq<real>)
    returns (r: Result<EvalResult, SimError>)
    ensures var simName := "Solar Exposure (" + sensType + ")";
            var sens := OfType(pgons, sensType);
            var before := CheckBeforeSim(simName, |sens|, |Obstructions(pgons)|);
            && (before.Some? ==> r == Failure(before.value))
            && (r.Success? <==> before.None? && |exposure| == |sens|)
            && (r.Success? ==> (r.value.simName == simName
                              && r.value.values == MapPercent(exposure, MaxVal(sensType, SolarFacadeMaxVal))
                              && r.value.desRange == DesRange(sensType, "solar")
                              && Scored(r.value, sens)))
  {
    var simName := "Solar Exposure (" + sensType + ")";
    var sensPgons := OfType(pgons, sensType);
    var obsPgons := Obstructions(pgons);
    var before := CheckBeforeSim(simName, |sensPgons|, |obsPgons|);
    if before.Some? {
      return Failure(before.value);
    }
    var maxVal := if sensType == "facade" then SolarFacadeMaxVal else 1.0;
    var values := MapPercent(exposure, maxVal);
    var desRange := DesRange(sensType, "solar");
    r := CheckAndScore(simName, sensType, sensPgons, values, "%", desRange);
  }

  /** `eval_sky`; the browser version also reports the site UHII. */
  method EvalSky(pgons: seq<Pgon>, sensType: string, exposure: seq<real>)
    returns (r: Result<EvalResult, SimError>)
    ensures var simName := "Sky Exposure (" + sensType + ")";
            var sens := OfType(pgons, sensType);
            var before := CheckBeforeSim(simName, |sens|, |Obstructions(pgons)|);
            && (before.Some? ==> r == Failure(before.value))
            && (r.Success? <==> before.None? && |exposure| == |sens|)
            && (r.Success? ==> (r.value.simName == simName
                              && r.value.values == MapPercent(exposure, MaxVal(sensType, SkyFacadeMaxVal))
                              && r.value.desRange == DesRange(sensType, "sky")
                              && r.value.uhii == Some(SkyUhii(r.value.values))
                              && Scored(r.value, sens)))
  {
    var simName := "Sky Exposure (" + sensType + ")";
    var sensPgons := OfType(pgons, sensType);
    var obsPgons := Obstructions(pgons);
    var before := CheckBeforeSim(simName, |sensPgons|, |obsPgons|);
    if before.Some? {
      return Failure(before.value);
    }
    var maxVal := if sensType == "facade" then SkyFacadeMaxVal else 1.0;
    var values := MapPercent(exposure, maxVal);
    var desRange := DesRange(sensType, "sky");
    r := CheckAndScore(simName, sensType, sensPgons, values, "%", desRange);
    if r.Success? {
      r := Success(r.value.(uhii := Some(SkyUhii(values))));
    }
  }

  /** `eval_uhi`: `exposure` is the unweighted sky exposure, each in [0, 1]. */
  method EvalUhi(pgons: seq<Pgon>, sensType: string, exposure: seq<real>)
    returns (r: Result<EvalResult, SimError>)
    ensures var simName := "Urban Heat Island (" + sensType + ")";
            var sens := OfType(pgons, sensType);
            var before := CheckBeforeSim(simName, |sens|, |Obstructions(pgons)|);
            && (before.Some? ==> r == Failure(before.value))
            && (r.Success? <==> before.None? && |exposure| == |sens|)
            && (r.Success? ==> (r.value.simName == simName
                              && r.value.values == MapUhi(exposure)
                              && r.value.desRange == DesRange(sensType, "uhi")
                              && r.value.meanUhi == Some(AreaMean(r.value.values, AreasOf(sens)))
                              && Scored(r.value, sens)))
  {
    var simName := "Urban Heat Island (" + sensType + ")";
    var sensPgons := OfType(pgons, sensType);
    var obsPgons := Obstructions(pgons);
    var before := CheckBeforeSim(simName, |sensPgons|, |obsPgons|);
    if before.Some? {
      return Failure(before.value);
    }
    var values := MapUhi(exposure);
    var desRange := DesRange(sensType, "uhi");
    r := CheckAndScore(simName, sensType, sensPgons, values, "deg", desRange);
    if r.Success? {
      var meanUhi := CalcUHI(values, AreasOf(sensPgons));
      r := Success(r.value.(meanUhi := Some(meanUhi)));
    }
  }

  /** `eval_wind`: ground sensors only, and walkways do not block the wind. `raw` is what the
      Wind analysis returns for the sensor rays. */
  method EvalWind(pgons: seq<Pgon>, raw: seq<real>) returns (r: Result<EvalResult, SimError>)
    ensures var simName := "Wind Permeability (ground)";
            var sens := OfType(pgons, "ground");
            var obs := NotOfType(Obstructions(pgons), "walkway");
            var before := CheckBeforeSim(simName, |sens|, |obs|);
            && (before.Some? ==> r == Failure(before.value))
            && (r.Success? <==> before.None? && |raw| == |sens|)
            && (r.Success? ==> (r.value.simName == simName
                              && r.value.values == MapPercent(raw, 1.0)
                              && r.value.desRange == DesRange("ground", "wind")
                              && Scored(r.value, sens)))
  {
    var sensType := "ground";
    var sensPgons := OfType(pgons, sensType);
    var obsPgons := Obstructions(pgons);
    var obsNoWalkway := NotOfType(obsPgons, "walkway");
    var simName := "Wind Permeability (" + sensType + ")";
    assert simName == "Wind Permeability (ground)";
    var before := CheckBeforeSim(simName, |sensPgons|, |obsNoWalkway|);
    if before.Some? {
      return Failure(before.value);
    }
    var values := WindValues(raw);
    var desRange := DesRange(sensType, "wind");
    r := CheckAndScore(simName, sensType, sensPgons, values, "%", desRange);
  }

  /** A site whose only obstructions are walkways cannot be evaluated for wind. */
  lemma WalkwaysOnlyFailsWind(pgons: seq<Pgon>)
    requires forall p :: p in pgons && p.obstruction ==> p.typ == "walkway"
    ensures NotOfType(Obstructions(pgons), "walkway") == []
  {
    NotOfTypeEmpty(Obstructions(pgons), "walkway");
  }

  lemma {:induction false} NotOfTypeEmpty(pgons: seq<Pgon>, t: string)
    requires forall p :: p in pgons ==> p.typ == t
    ensures NotOfType(pgons, t) == []
  {
    if |pgons| > 0 {
      assert pgons[|pgons| - 1] in pgons;
      NotOfTypeEmpty(pgons[..|pgons| - 1], t);
    }
  }

  // ---------------------------------------------------------------------------------------------
  // The site's bounding box and tile window

  /** The running bounds `minCoord`/`maxCoord` over the first n projected site points,
      starting from ±99999. */
  function MinCoord(coords: seq<(real, real)>, n: nat): (real, real)
    requires n <= |coords|
  {
    if n == 0 then (99999.0, 99999.0)
    else var m := MinCoord(coords, n - 1); (Min(coords[n - 1].0, m.0), Min(coords[n - 1].1, m.1))
  }

  function MaxCoord(coords: seq<(real, real)>, n: nat): (real, real)
    requires n <= |coords|
  {
    if n == 0 then (-99999.0, -99999.0)
    else var m := MaxCoord(coords, n - 1); (Max(coords[n - 1].0, m.0), Max(coords[n - 1].1, m.1))
  }

  /** The bounding-box loop of `simExecute`. */
  method BBox(coords: seq<(real, real)>) returns (minCoord: (real, real), maxCoord: (real, real))
    ensures minCoord == MinCoord(coords, |coords|) && maxCoord == MaxCoord(coords, |coords|)
  {
    minCoord := (99999.0, 99999.0);
    maxCoord := (-99999.0, -99999.0);
    var n := 0;
    while n < |coords|
      invariant 0 <= n <= |coords|
      invariant minCoord == MinCoord(coords, n) && maxCoord == MaxCoord(coords, n)
    {
      var coord := coords[n];
      minCoord := (Min(coord.0, minCoord.0), Min(coord.1, minCoord.1));
      maxCoord := (Max(coord.0, maxCoord.0), Max(coord.1, maxCoord.1));
      n := n + 1;
    }
  }

  /** Every point lies in the box, so a non-empty site has min <= max on both axes. */
  lemma {:induction false} BBoxContains(coords: seq<(real, real)>, n: nat)
    requires n <= |coords|
    ensures forall k :: 0 <= k < n ==>
              MinCoord(coords, n).0 <= coords[k].0 <= MaxCoord(coords, n).0 &&
              MinCoord(coords, n).1 <= coords[k].1 <= MaxCoord(coords, n).1
    ensures n > 0 ==> MinCoord(coords, n).0 <= MaxCoord(coords, n).0 && MinCoord(coords, n).1 <= MaxCoord(coords, n).1
  {
    if n > 0 {
      BBoxContains(coords, n - 1);
      assert MinCoord(coords, n).0 <= coords[n - 1].0 <= MaxCoord(coords, n).0;
    }
  }

  /** For a non-empty site within ±99999 m of the projection origin, the box's x bounds are
      coordinates of actual points (the initial ±99999 never survives). */
  lemma {:induction false} BBoxAttained(coords: seq<(real, real)>, n: nat)
    requires 0 < n <= |coords|
    requires forall k :: 0 <= k < n ==> -99999.0 <= coords[k].0 <= 99999.0
    ensures exists k :: 0 <= k < n && MinCoord(coords, n).0 == coords[k].0
    ensures exists k :: 0 <= k < n && MaxCoord(coords, n).0 == coords[k].0
  {
    var c := coords[n - 1];
    if n == 1 {
      assert -99999.0 <= c.0 <= 99999.0;
      assert MinCoord(coords, 1).0 == Min(c.0, MinCoord(coords, 0).0) == c.0;
      assert MaxCoord(coords, 1).0 == Max(c.0, MaxCoord(coords, 0).0) == c.0;
    } else {
      BBoxAttained(coords, n - 1);
      var lo, hi := MinCoord(coords, n - 1), MaxCoord(coords, n - 1);
      var k1 :| 0 <= k1 < n - 1 && lo.0 == coords[k1].0;
      var k2 :| 0 <= k2 < n - 1 && hi.0 == coords[k2].0;
      if c.0 <= lo.0 { assert MinCoord(coords, n).0 == coords[n - 1].0; }
      else { assert MinCoord(coords, n).0 == coords[k1].0; }
      if c.0 >= hi.0 { assert MaxCoord(coords, n).0 == coords[n - 1].0; }
      else { assert MaxCoord(coords, n).0 == coords[k2].0; }
    }
  }

  /** The tile indices (i, j) for iLo <= i <= iHi and jLo <= j <= jHi, i major, j minor. */
  function Window(iLo: int, iHi: int, jLo: int, jHi: int): seq<(int, int)>
    decreases if iHi < iLo then 0 else iHi - iLo + 1
  {
    if iHi < iLo then [] else Window(iLo, iHi - 1, jLo, jHi) + Row(iHi, jLo, jHi)
  }

  function Row(i: int, jLo: int, jHi: int): seq<(int, int)>
    decreases if jHi < jLo then 0 else jHi - jLo + 1
  {
    if jHi < jLo then [] else Row(i, jLo, jHi - 1) + [(i, jHi)]
  }

  /** The URL fetched for tile (i, j). */
  function TileUrl(t: (int, int)): string {
    "assets/models/" + TileFileName(t.0 * TileSize, t.1 * TileSize)
  }

  /** The tile indices one tile beyond the bounding box on every side. */
  function WindowBounds(minCoord: (real, real), maxCoord: (real, real)): (int, int, int, int) {
    ((minCoord.0 / TileSize as real).Floor - 1, (maxCoord.0 / TileSize as real).Floor + 1,
     (minCoord.1 / TileSize as real).Floor - 1, (maxCoord.1 / TileSize as real).Floor + 1)
  }

  /** The nested loop of `simExecute` that fetches the model of every tile around the site. */
  method TileWindow(minCoord: (real, real), maxCoord: (real, real)) returns (urls: seq<string>)
    ensures var (iLo, iHi, jLo, jHi) := WindowBounds(minCoord, maxCoord);
            urls == TileUrls(Window(iLo, iHi, jLo, jHi))
  {
    var (iLo, iHi, jLo, jHi) := WindowBounds(minCoord, maxCoord);
    urls := [];
    var i := iLo;
    while i <= iHi
      invariant iLo <= i <= if iHi < iLo then iLo else iHi + 1
      invariant urls == TileUrls(Window(iLo, i - 1, jLo, jHi))
      decreases iHi - i
    {
      var row := RowUrls(i, jLo, jHi);
      ghost var w, r := Window(iLo, i - 1, jLo, jHi), Row(i, jLo, jHi);
      assert Window(iLo, i, jLo, jHi) == w + r;
      TileUrlsAppend(w, r);
      urls := urls + row;
      i := i + 1;
    }
  }

  /** The inner loop: the URLs of the tiles of one column of the window. */
  method RowUrls(i: int, jLo: int, jHi: int) returns (urls: seq<string>)
    ensures urls == TileUrls(Row(i, jLo, jHi))
  {
    urls := [];
    var j := jLo;
    while j <= jHi
      invariant jLo <= j <= if jHi < jLo then jLo else jHi + 1
      invariant urls == TileUrls(Row(i, jLo, j - 1))
      decreases jHi - j
    {
      var url := "assets/models/data_" + FillString(i * TileSize) + "_" + FillString(j * TileSize) + ".sim";
      UrlOfTile(i, j);
      ghost var r := Row(i, jLo, j - 1);
      assert Row(i, jLo, j) == r + [(i, j)];
      TileUrlsAppend(r, [(i, j)]);
      urls := urls + [url];
      j := j + 1;
    }
  }

  /** The URL of each tile of a sequence, in order. */
  function TileUrls(ts: seq<(int, int)>): seq<string> {
    ForEachTile(TileUrl, ts)
  }

  function ForEachTile<T>(f: ((int, int)) -> T, ts: seq<(int, int)>): seq<T> {
    seq(|ts|, k requires 0 <= k < |ts| => f(ts[k]))
  }

  lemma TileUrlsAppend(a: seq<(int, int)>, b: seq<(int, int)>)
    ensures TileUrls(a + b) == TileUrls(a) + TileUrls(b)
  {
    ForEachTileAppend(TileUrl, a, b);
  }

  lemma ForEachTileAppend<T>(f: ((int, int)) -> T, a: seq<(int, int)>, b: seq<(int, int)>)
    ensures ForEachTile(f, a + b) == ForEachTile(f, a) + ForEachTile(f, b)
  {
    assert forall k :: 0 <= k < |b| ==> (a + b)[|a| + k] == b[k];
  }

  lemma UrlOfTile(i: int, j: int)
    ensures "assets/models/data_" + FillString(i * TileSize) + "_" + FillString(j * TileSize) + ".sim" == TileUrl((i, j))
  {
    UrlParts(FillString(i * TileSize), FillString(j * TileSize));
  }

  lemma UrlParts(a: string, b: string)
    ensures "assets/models/data_" + a + "_" + b + ".sim" == "assets/models/" + ("data_" + a + "_" + b + ".sim")
  {
  }

  lemma {:induction false} RowMembers(i: int, jLo: int, jHi: int)
    ensures forall t :: t in Row(i, jLo, jHi) <==> t.0 == i && jLo <= t.1 <= jHi
    ensures forall a, b :: 0 <= a < b < |Row(i, jLo, jHi)| ==> Row(i, jLo, jHi)[a].1 < Row(i, jLo, jHi)[b].1
    decreases if jHi < jLo then 0 else jHi - jLo + 1
  {
    if jHi >= jLo {
      RowMembers(i, jLo, jHi - 1);
    }
  }

  /** Tile indices in strictly increasing order, i first, so none is repeated. */
  predicate Ascending(w: seq<(int, int)>) {
    forall a, b :: 0 <= a < b < |w| ==> w[a].0 < w[b].0 || (w[a].0 == w[b].0 && w[a].1 < w[b].1)
  }

  /** The window holds every tile index in the range and nothing else, each exactly once
      (in strictly increasing order, i first). */
  lemma {:induction false} WindowMembers(iLo: int, iHi: int, jLo: int, jHi: int)
    ensures forall t :: t in Window(iLo, iHi, jLo, jHi) <==> iLo <= t.0 <= iHi && jLo <= t.1 <= jHi
    ensures Ascending(Window(iLo, iHi, jLo, jHi))
    decreases if iHi < iLo then 0 else iHi - iLo + 1
  {
    if iHi >= iLo {
      WindowMembers(iLo, iHi - 1, jLo, jHi);
      RowMembers(iHi, jLo, jHi);
      var w, r := Window(iLo, iHi - 1, jLo, jHi), Row(iHi, jLo, jHi);
      var wr := w + r;
      assert Ascending(w);
      forall a, b | 0 <= a < b < |wr| ensures wr[a].0 < wr[b].0 || (wr[a].0 == wr[b].0 && wr[a].1 < wr[b].1) {
        if b < |w| {
          assert wr[a] == w[a] && wr[b] == w[b];
        } else if a < |w| {
          assert wr[a] == w[a] && w[a] in w;
          assert wr[b] == r[b - |w|] && r[b - |w|] in r;
          assert w[a].0 <= iHi - 1 && r[b - |w|].0 == iHi;
        } else {
          assert wr[a] == r[a - |w|] && wr[b] == r[b - |w|];
          assert r[a - |w|] in r && r[b - |w|] in r;
          assert r[a - |w|].0 == iHi == r[b - |w|].0;
          assert r[a - |w|].1 < r[b - |w|].1;
        }
      }
      assert Ascending(wr);
    }
  }

  // ---------------------------------------------------------------------------------------------
  // Weather station selection

  datatype Station = Station(id: string, coord: (real, real))

  /** `distx * distx + disty * disty` for a station and the parsed tile coordinates. */
  function Dist2(stn: Station, filecoord: seq<JsNum>): JsNum {
    var distx := Sub(Num(stn.coord.0), Get(filecoord, 0));
    var disty := Sub(Num(stn.coord.1), Get(filecoord, 1));
    Add(Mul(distx, distx), Mul(disty, disty))
  }

  /** `closest_stn` after the first n stations: starts as S24 with no distance (null), and a
      station replaces it when the recorded distance is falsy or larger. */
  function Closest(stations: seq<Station>, filecoord: seq<JsNum>, n: nat): (string, JsNum)
    requires n <= |stations|
  {
    if n == 0 then ("S24", Undefined)
    else
      var (id, dist2) := Closest(stations, filecoord, n - 1);
      var d := Dist2(stations[n - 1], filecoord);
      if !Truthy(dist2) || Lt(d, dist2) then (stations[n - 1].id, d) else (id, dist2)
  }

  /** The station loop of `run` (and of `simExecute`). */
  method SelectStation(stations: seq<Station>, filecoord: seq<JsNum>) returns (id: string)
    ensures id == Closest(stations, filecoord, |stations|).0
  {
    var closestId, closestDist2 := "S24", Undefined;
    var n := 0;
    while n < |stations|
      invariant 0 <= n <= |stations|
      invariant (closestId, closestDist2) == Closest(stations, filecoord, n)
    {
      var stn := stations[n];
      var distx := Sub(Num(stn.coord.0), Get(filecoord, 0));
      var disty := Sub(Num(stn.coord.1), Get(filecoord, 1));
      var dist2 := Add(Mul(distx, distx), Mul(disty, disty));
      if !Truthy(closestDist2) || Lt(dist2, closestDist2) {
        closestId, closestDist2 := stn.id, dist2;
      }
      n := n + 1;
    }
    id := closestId;
  }

  /** The squared distance of station k to a numeric point. */
  function D(stations: seq<Station>, p: (real, real), k: nat): real
    requires k < |stations|
  {
    var dx := stations[k].coord.0 - p.0;
    var dy := stations[k].coord.1 - p.1;
    dx * dx + dy * dy
  }

  /** Station k is the first station nearest to p among the first n. */
  ghost predicate FirstNearest(stations: seq<Station>, p: (real, real), n: nat, k: nat)
    requires n <= |stations|
  {
    && k < n
    && (forall j :: 0 <= j < n ==> D(stations, p, k) <= D(stations, p, j))
    && (forall j :: 0 <= j < k ==> D(stations, p, j) > D(stations, p, k))
  }

  /** With a numeric tile corner and no station exactly at it, the loop keeps the first
      nearest station (ties keep the earlier one). */
  lemma {:induction false} SelectsFirstNearest(stations: seq<Station>, p: (real, real), n: nat)
    requires 0 < n <= |stations|
    requires forall j :: 0 <= j < n ==> D(stations, p, j) != 0.0
    ensures exists k: nat :: FirstNearest(stations, p, n, k) &&
              Closest(stations, [Num(p.0), Num(p.1)], n) == (stations[k].id, Num(D(stations, p, k)))
  {
    var fc := [Num(p.0), Num(p.1)];
    if n == 1 {
      FirstStationTaken(stations, p);
      assert FirstNearest(stations, p, 1, 0);
    } else {
      SelectsFirstNearest(stations, p, n - 1);
      var k: nat :| FirstNearest(stations, p, n - 1, k) &&
               Closest(stations, fc, n - 1) == (stations[k].id, Num(D(stations, p, k)));
      ClosestStep(stations, p, n, stations[k].id, D(stations, p, k));
      NearestStep(stations, p, n, k);
    }
  }

  /** One step of the loop when the distance so far is a non-zero number. */
  lemma ClosestStep(stations: seq<Station>, p: (real, real), n: nat, id: string, d: real)
    requires 0 < n <= |stations| && d != 0.0
    requires Closest(stations, [Num(p.0), Num(p.1)], n - 1) == (id, Num(d))
    ensures Closest(stations, [Num(p.0), Num(p.1)], n)
              == if D(stations, p, n - 1) < d then (stations[n - 1].id, Num(D(stations, p, n - 1))) else (id, Num(d))
  {
    assert Dist2(stations[n - 1], [Num(p.0), Num(p.1)]) == Num(D(stations, p, n - 1));
  }

  /** The first nearest station among n is the new station when it is strictly nearer, and
      the previous one otherwise. */
  lemma NearestStep(stations: seq<Station>, p: (real, real), n: nat, k: nat)
    requires 0 < n <= |stations| && FirstNearest(stations, p, n - 1, k)
    ensures D(stations, p, n - 1) < D(stations, p, k) ==> FirstNearest(stations, p, n, n - 1)
    ensures D(stations, p, n - 1) >= D(stations, p, k) ==> FirstNearest(stations, p, n, k)
  {
  }

  /** As written, a station exactly at the tile corner counts as "no distance yet", so the
      next station takes its place although it is farther away. */
  lemma ZeroDistanceReplaced(stations: seq<Station>, p: (real, real), n: nat)
    requires n < |stations| && Closest(stations, [Num(p.0), Num(p.1)], n).1 == Num(0.0)
    ensures Closest(stations, [Num(p.0), Num(p.1)], n + 1) == (stations[n].id, Num(D(stations, p, n)))
  {
    assert Dist2(stations[n], [Num(p.0), Num(p.1)]) == Num(D(stations, p, n));
  }

  /** The first station is always taken, with its distance. */
  lemma FirstStationTaken(stations: seq<Station>, p: (real, real))
    requires 0 < |stations|
    ensures Closest(stations, [Num(p.0), Num(p.1)], 1) == (stations[0].id, Num(D(stations, p, 0)))
  {
    assert Dist2(stations[0], [Num(p.0), Num(p.1)]) == Num(D(stations, p, 0));
  }

  /** A concrete instance: A sits on the tile corner, B is 5 m away. */
  const CornerStations := [Station("A", (0.0, 0.0)), Station("B", (3.0, 4.0))]

  /** A is the nearest station. */
  lemma CornerNearest()
    ensures D(CornerStations, (0.0, 0.0), 0) == 0.0 && D(CornerStations, (0.0, 0.0), 1) == 25.0
    ensures FirstNearest(CornerStations, (0.0, 0.0), 2, 0)
  {
  }

  /** B is selected nonetheless. */
  lemma ZeroDistanceExample()
    ensures Closest(CornerStations, [Num(0.0), Num(0.0)], 2).0 == "B"
  {
    FirstStationTaken(CornerStations, (0.0, 0.0));
    assert D(CornerStations, (0.0, 0.0), 0) == 0.0;
    ZeroDistanceReplaced(CornerStations, (0.0, 0.0), 1);
  }

  /** In the browser the tile corner is an array, so every distance is NaN and the last
      station always wins. */
  lemma {:induction false} NaNSelectsLast(stations: seq<Station>, n: nat)
    requires 0 < n <= |stations|
    ensures Closest(stations, [NaN, NaN], n) == (stations[n - 1].id, NaN)
  {
    if n > 1 {
      NaNSelectsLast(stations, n - 1);
    }
  }

  /** The station loop with the evident intent: a station replaces the current one when no
      distance is recorded yet (null) or it is strictly nearer. */
  method SelectNearestStation(stations: seq<Station>, p: (real, real)) returns (id: string)
    ensures |stations| == 0 ==> id == "S24"
    ensures |stations| > 0 ==> exists k: nat :: FirstNearest(stations, p, |stations|, k) && id == stations[k].id
  {
    var closestId := "S24";
    var closestDist2: Option<real> := None;
    ghost var best := 0;
    var n := 0;
    while n < |stations|
      invariant 0 <= n <= |stations|
      invariant n == 0 <==> closestDist2.None?
      invariant n == 0 ==> closestId == "S24"
      invariant n > 0 ==> FirstNearest(stations, p, n, best) && closestId == stations[best].id
                          && closestDist2 == Some(D(stations, p, best))
    {
      var stn := stations[n];
      var distx := stn.coord.0 - p.0;
      var disty := stn.coord.1 - p.1;
      var dist2 := distx * distx + disty * disty;
      assert dist2 == D(stations, p, n);
      if closestDist2.None? || closestDist2.value > dist2 {
        closestId, closestDist2 := stn.id, Some(dist2);
        best := n;
      }
      n := n + 1;
    }
    id := closestId;
  }

  // ---------------------------------------------------------------------------------------------
  // Dispatch of the batch run

  /** What `run(type, filename)` does, on the ground sensors of the generated model:
      - `solar` writes the raw JSON result and returns;
      - `sky`, `uhi` and `wind` export the evaluated ground model, wind with its chosen
        weather station;
      - a wind run whose file name has no `data_` throws before evaluating;
      - an evaluation whose check before or after the simulation fails throws before
        anything is written or exported;
      - any other type returns without a result.
      `simValues` is what the analysis engine returns for the sensor rays. */
  datatype RunOutcome =
    | RawSolarWritten
    | ModelExported(analysis: string, station: Option<string>)
    | FileNameError
    | EvalFailed(error: SimError)
    | NoResult

  /** The name the batch evaluation of an analysis reports its errors under, spelled as the
      evaluation builds it from the sensor type `ground`. */
  function BatchSimName(analysisType: string): string {
    if analysisType == "solar" then "Solar Exposure (" + "ground" + ")"
    else if analysisType == "sky" then "Sky Exposure (" + "ground" + ")"
    else if analysisType == "uhi" then "Urban Heat Island (" + "ground" + ")"
    else "Wind Permeability (ground)"
  }

  /** The obstructions the batch evaluation checks: walkways do not count for wind. */
  function BatchObstructions(analysisType: string, pgons: seq<Pgon>): seq<Pgon> {
    if analysisType == "wind" then NotOfType(Obstructions(pgons), "walkway") else Obstructions(pgons)
  }

  /** `checkErrorBeforSim` of the batch evaluation. */
  function BatchBefore(analysisType: string, pgons: seq<Pgon>): Option<SimError> {
    CheckBeforeSim(BatchSimName(analysisType), |OfType(pgons, "ground")|, |BatchObstructions(analysisType, pgons)|)
  }

  /** Both checks of the batch evaluation pass. */
  predicate BatchEvalPasses(analysisType: string, pgons: seq<Pgon>, simValues: seq<real>) {
    BatchBefore(analysisType, pgons).None? && |simValues| == |OfType(pgons, "ground")|
  }

  method Run(analysisType: string, filename: string, stations: seq<Station>, pgons: seq<Pgon>,
             simValues: seq<real>) returns (r: RunOutcome)
    ensures analysisType in {"solar", "sky", "uhi"} ==>
              if BatchEvalPasses(analysisType, pgons, simValues) then
                r == (if analysisType == "solar" then RawSolarWritten else ModelExported(analysisType, None))
              else r.EvalFailed?
    ensures analysisType == "wind" ==>
              match ParseSimFileName(filename)
              case None => r == FileNameError
              case Some(fc) =>
                if BatchEvalPasses("wind", pgons, simValues)
                then r == ModelExported("wind", Some(Closest(stations, fc, |stations|).0))
                else r.EvalFailed?
    ensures r.EvalFailed? && BatchBefore(analysisType, pgons).Some? ==>
              r.error == BatchBefore(analysisType, pgons).value
    ensures r == NoResult <==> analysisType !in {"solar", "sky", "uhi", "wind"}
  {
    if analysisType == "solar" {
      var result := EvalSolar(pgons, "ground", simValues);
      if result.Failure? {
        return EvalFailed(result.error);
      }
      return RawSolarWritten;
    } else if analysisType == "sky" {
      var result := EvalSky(pgons, "ground", simValues);
      if result.Failure? {
        return EvalFailed(result.error);
      }
      r := ModelExported("sky", None);
    } else if analysisType == "uhi" {
      var result := EvalUhi(pgons, "ground", simValues);
      if result.Failure? {
        return EvalFailed(result.error);
      }
      r := ModelExported("uhi", None);
    } else if analysisType == "wind" {
      var filecoord := ParseSimFileName(filename);
      if filecoord.None? {
        return FileNameError;
      }
      var id := SelectStation(stations, filecoord.value);
      var result := EvalWind(pgons, simValues);
      if result.Failure? {
        return EvalFailed(result.error);
      }
      r := ModelExported("wind", Some(id));
    } else {
      return NoResult;
    }
  }
}
