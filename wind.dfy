/**
 * Wind permeability (analyze_wind.js).
 *
 * Every sensor ray is lifted to a series of vertical layers. From each layer a fan of
 * horizontal directions is cast in every wind-rose sector. A direction pointing behind the
 * sensor is skipped. A ray that escapes adds the sector's full share of the wind-rose
 * frequency. A ray that hits an obstruction at distance d adds that share scaled by
 * d / far.
 *
 * The three.js raycaster is the oracle `cast(origin, direction)`: None for no hit, or the
 * distance of the nearest hit, which the raycaster keeps within [near, far]. Math.sin and
 * Math.cos are the parameters `sin` and `cos`.
 */
module Wind {
  import opened Js

  const Eps: real := 0.000001
  const Pi: real := 3.141592653589793

  datatype Vec3 = Vec3(x: real, y: real, z: real)

  function Dot(a: Vec3, b: Vec3): real {
    a.x * b.x + a.y * b.y + a.z * b.z
  }

  /** A sensor: a point just off the sensor surface and the surface's outward direction. */
  datatype Ray = Ray(origin: Vec3, dir: Vec3)

  type Caster = (Vec3, Vec3) -> Option<real>

  /** The raycaster reports only hits whose distance lies in [near, far]. */
  ghost predicate Bounded(cast: Caster, near: real, far: real) {
    forall o, v :: cast(o, v).Some? ==> near <= cast(o, v).value <= far
  }

  /** No obstruction is ever hit. */
  ghost predicate Unobstructed(cast: Caster) {
    forall o, v :: cast(o, v).None?
  }

  // ---------------------------------------------------------------------------------------------
  // Argument normalisation in `Wind`

  /** A number, or an array of numbers: `radius` and `layers` accept either. */
  datatype NumOrList = Scalar(n: real) | List(items: seq<real>)

  /** `Array.isArray(radius) ? radius : [1, radius]` */
  function NormaliseRadius(radius: NumOrList): (r: seq<real>)
    ensures radius.Scalar? ==> r == [1.0, radius.n]
    ensures radius.List? ==> r == radius.items
  {
    match radius
    case Scalar(far) => [1.0, far]
    case List(items) => items
  }

  /** A scalar L becomes [0, L, 1] and a pair [a, b] becomes [a, b, 1]; any other array is
      kept as it is. */
  function NormaliseLayers(layers: NumOrList): (r: seq<real>)
    ensures layers.Scalar? ==> r == [0.0, layers.n, 1.0]
    ensures layers.List? && |layers.items| == 2 ==> r == layers.items + [1.0]
    ensures layers.List? && |layers.items| != 2 ==> r == layers.items
  {
    var l := if layers.List? then layers.items else [0.0, layers.n, 1.0];
    if |l| == 2 then [l[0], l[1], 1.0] else l
  }

  /** Normalising an already normalised argument changes nothing. */
  lemma NormaliseIdempotent(radius: NumOrList, layers: NumOrList)
    ensures NormaliseRadius(List(NormaliseRadius(radius))) == NormaliseRadius(radius)
    ensures NormaliseLayers(List(NormaliseLayers(layers))) == NormaliseLayers(layers)
  {
  }

  // ---------------------------------------------------------------------------------------------
  // `_windVecs`: the fans of directions

  /** The angle of direction k of sector i, for `numWinds` sectors of `numVecs` directions. */
  function FanAngle(numWinds: nat, numVecs: nat, i: nat, k: nat): real
    requires numWinds > 0 && numVecs > 0
  {
    var windAng := 2.0 * Pi / numWinds as real;
    var angInc := windAng / numVecs as real;
    -(windAng / 2.0) + angInc / 2.0 + windAng * i as real + angInc * k as real
  }

  /** The horizontal direction at angle `a`, measured clockwise from +y. */
  function DirVec(sin: real -> real, cos: real -> real, a: real): (v: Vec3)
    ensures v.z == 0.0
  {
    Vec3(sin(a), cos(a), 0.0)
  }

  /** The directions of sector i. */
  function Fan(numWinds: nat, numVecs: nat, i: nat, sin: real -> real, cos: real -> real): (vecs: seq<Vec3>)
    requires numWinds > 0 && numVecs > 0
    ensures |vecs| == numVecs
  {
    seq(numVecs, k requires 0 <= k < numVecs => DirVec(sin, cos, FanAngle(numWinds, numVecs, i, k)))
  }

  /** The fans `_windVecs` builds: one group of `numVecs` directions per sector. */
  function Fans(numVecs: nat, numWinds: nat, sin: real -> real, cos: real -> real): (dirs: seq<seq<Vec3>>)
    requires numVecs > 0
    ensures |dirs| == numWinds
    ensures forall i :: 0 <= i < numWinds ==> dirs[i] == Fan(numWinds, numVecs, i, sin, cos)
  {
    seq(numWinds, i requires 0 <= i < numWinds => Fan(numWinds, numVecs, i, sin, cos))
  }

  /** `_windVecs(num_vecs, wind_rose)`; `Wind` always asks for at least one direction. */
  method WindVecs(numVecs: nat, windRose: seq<real>, sin: real -> real, cos: real -> real)
    returns (dirs: seq<seq<Vec3>>)
    requires numVecs > 0
    ensures dirs == Fans(numVecs, |windRose|, sin, cos)
  {
    var numWinds := |windRose|;
    // JavaScript divides by zero here when there are no sectors; the quotient is then never
    // used, since no fan is built.
    var windAng := if numWinds > 0 then 2.0 * Pi / numWinds as real else 0.0;
    var angInc := windAng / numVecs as real;
    var angStart := -(windAng / 2.0) + angInc / 2.0;
    dirs := [];
    var windI := 0;
    while windI < numWinds
      invariant 0 <= windI <= numWinds && |dirs| == windI
      invariant forall j :: 0 <= j < windI ==> dirs[j] == Fan(numWinds, numVecs, j, sin, cos)
    {
      var vecsWindDir := [];
      var vecI := 0;
      while vecI < numVecs
        invariant 0 <= vecI <= numVecs && |vecsWindDir| == vecI
        invariant forall k :: 0 <= k < vecI ==>
          vecsWindDir[k] == DirVec(sin, cos, FanAngle(numWinds, numVecs, windI, k))
      {
        var ang := angStart + windAng * windI as real + angInc * vecI as real;
        assert ang == FanAngle(numWinds, numVecs, windI, vecI);
        vecsWindDir := vecsWindDir + [Vec3(sin(ang), cos(ang), 0.0)];
        vecI := vecI + 1;
      }
      assert vecsWindDir == Fan(numWinds, numVecs, windI, sin, cos);
      dirs := dirs + [vecsWindDir];
      windI := windI + 1;
    }
  }

  /** Every direction of every fan is horizontal. */
  lemma FansHorizontal(numVecs: nat, numWinds: nat, sin: real -> real, cos: real -> real)
    requires numVecs > 0
    ensures var dirs := Fans(numVecs, numWinds, sin, cos);
            forall i, k :: 0 <= i < |dirs| && 0 <= k < |dirs[i]| ==> dirs[i][k].z == 0.0
  {
  }

  /** Within a sector the angles rise by `windAng / numVecs` from one direction to the next. */
  lemma FanStep(numWinds: nat, numVecs: nat, i: nat, k: nat)
    requires numWinds > 0 && numVecs > 0
    ensures FanAngle(numWinds, numVecs, i, k + 1) - FanAngle(numWinds, numVecs, i, k)
            == (2.0 * Pi / numWinds as real) / numVecs as real
  {
  }

  /** The first and last directions of sector i sit half a step inside the sector's edges,
      and the fan is symmetric about the sector's centre `i * windAng`. */
  lemma FanEndsAndSymmetry(numWinds: nat, numVecs: nat, i: nat, k: nat)
    requires numWinds > 0 && 0 <= k < numVecs
    ensures var windAng := 2.0 * Pi / numWinds as real;
            var angInc := windAng / numVecs as real;
            var centre := windAng * i as real;
            && FanAngle(numWinds, numVecs, i, 0) == centre - windAng / 2.0 + angInc / 2.0
            && FanAngle(numWinds, numVecs, i, numVecs - 1) == centre + windAng / 2.0 - angInc / 2.0
            && FanAngle(numWinds, numVecs, i, k) + FanAngle(numWinds, numVecs, i, numVecs - 1 - k) == 2.0 * centre
  {
    var windAng := 2.0 * Pi / numWinds as real;
    var angInc := windAng / numVecs as real;
    assert angInc * numVecs as real == windAng;
    assert angInc * (numVecs - 1) as real == windAng - angInc;
    assert angInc * k as real + angInc * (numVecs - 1 - k) as real == windAng - angInc;
  }

  // ---------------------------------------------------------------------------------------------
  // `_calcWind`: the accumulation

  /** What `_calcWind` works from besides the sensors and the raycaster: the fans, the wind
      rose, the layers [start, end, step), the divisor `numLayers` of the sector weights,
      and the far radius. */
  datatype Setup = Setup(dirs: seq<seq<Vec3>>, rose: seq<real>, start: real, end: real,
                         step: real, numLayers: nat, far: real)
  {
    ghost predicate Valid() {
      && |dirs| == |rose|
      && (forall i :: 0 <= i < |dirs| ==> |dirs[i]| > 0)
      && step > 0.0 && numLayers > 0 && far > 0.0
    }

    /** `wind_rose[i] / (dir_vecs[i].length * num_layers)` */
    function Weight(i: nat): real
      requires Valid() && i < |rose|
    {
      rose[i] / (|dirs[i]| as real * numLayers as real)
    }
  }

  /** The smallest integer at or above x. */
  function Ceil(x: real): (c: int)
    ensures x <= c as real < x + 1.0
  {
    var f := x.Floor;
    if f as real == x then f else f + 1
  }

  /** How many times `for (z = start; z < end; z += step)` runs. */
  function LayerIterations(start: real, end: real, step: real): (n: nat)
    requires step > 0.0
  {
    if end <= start then 0 else Ceil((end - start) / step)
  }

  /** The loop runs exactly while `start + k * step < end`. */
  lemma LayerIterationsExact(start: real, end: real, step: real, k: nat)
    requires step > 0.0
    ensures start + k as real * step < end <==> k < LayerIterations(start, end, step)
  {
    if end > start {
      var q := (end - start) / step;
      assert q * step == end - start;
      MulMonotone(k as real, q, step);
    }
  }

  /** `Math.round((layers[1] - layers[0]) / layers[2])`, the divisor the source uses. */
  function RoundedLayers(start: real, end: real, step: real): int
    requires step > 0.0
  {
    Round((end - start) / step)
  }

  function LayerOrigin(p: Vec3, z: real): Vec3 {
    Vec3(p.x, p.y, p.z + z)
  }

  /** One direction's contribution: nothing when it points behind the sensor, the full
      weight on a miss, the weight times distance / far on a hit. */
  function Term(origin: Vec3, sensorDir: Vec3, v: Vec3, w: real, far: real, cast: Caster): real
    requires far > 0.0
  {
    if Dot(v, sensorDir) < -Eps then 0.0
    else match cast(origin, v)
      case None => w
      case Some(d) => HitShare(w, d, far)
  }

  /** A hit at distance d keeps the fraction d / far of the weight w. */
  function HitShare(w: real, d: real, far: real): real
    requires far > 0.0
  {
    w * (d / far)
  }

  /** The contributions of the directions `vecs` of one sector, summed in order. */
  function SectorSum(origin: Vec3, sensorDir: Vec3, vecs: seq<Vec3>, w: real, far: real, cast: Caster): real
    requires far > 0.0
  {
    if |vecs| == 0 then 0.0
    else SectorSum(origin, sensorDir, vecs[..|vecs| - 1], w, far, cast)
         + Term(origin, sensorDir, vecs[|vecs| - 1], w, far, cast)
  }

  /** The contributions of the first n sectors from one layer origin. */
  function LayerSum(origin: Vec3, sensorDir: Vec3, s: Setup, cast: Caster, n: nat): real
    requires s.Valid() && n <= |s.rose|
  {
    if n == 0 then 0.0
    else LayerSum(origin, sensorDir, s, cast, n - 1)
         + SectorSum(origin, sensorDir, s.dirs[n - 1], s.Weight(n - 1), s.far, cast)
  }

  /** The height of layer j above the sensor. */
  function LayerZ(s: Setup, j: nat): real {
    s.start + j as real * s.step
  }

  /** One sensor's value after its first k layers. */
  function SensorSum(ray: Ray, s: Setup, cast: Caster, k: nat): real
    requires s.Valid()
  {
    if k == 0 then 0.0
    else SensorSum(ray, s, cast, k - 1)
         + LayerSum(LayerOrigin(ray.origin, LayerZ(s, k - 1)), ray.dir, s, cast, |s.rose|)
  }

  /** The value `_calcWind` pushes for one sensor. */
  function SensorValue(ray: Ray, s: Setup, cast: Caster): real
    requires s.Valid()
  {
    SensorSum(ray, s, cast, LayerIterations(s.start, s.end, s.step))
  }

  /** `_calcWind`: one value per sensor, in order. */
  method CalcWind(sensors: seq<Ray>, s: Setup, cast: Caster) returns (results: seq<real>)
    requires s.Valid()
    ensures |results| == |sensors|
    ensures forall n :: 0 <= n < |sensors| ==> results[n] == SensorValue(sensors[n], s, cast)
  {
    results := [];
    var n := 0;
    while n < |sensors|
      invariant 0 <= n <= |sensors| && |results| == n
      invariant forall m :: 0 <= m < n ==> results[m] == SensorValue(sensors[m], s, cast)
    {
      var sensorResult := SensorWind(sensors[n], s, cast);
      results := results + [sensorResult];
      n := n + 1;
    }
  }

  /** The body of `_calcWind`'s loop over sensors: layers, then sectors, then directions. */
  method SensorWind(ray: Ray, s: Setup, cast: Caster) returns (sensorResult: real)
    requires s.Valid()
    ensures sensorResult == SensorValue(ray, s, cast)
  {
    ghost var iters := LayerIterations(s.start, s.end, s.step);
    var sensorXyz, sensorDir := ray.origin, ray.dir;
    sensorResult := 0.0;
    var z := s.start;
    ghost var k: nat := 0;
    while z < s.end
      invariant z == LayerZ(s, k) && k <= iters
      invariant sensorResult == SensorSum(ray, s, cast, k)
      decreases iters - k
    {
      LayerIterationsExact(s.start, s.end, s.step, k);
      var rayStart := LayerOrigin(sensorXyz, z);
      sensorResult := LayerWind(sensorResult, rayStart, sensorDir, s, cast);
      assert SensorSum(ray, s, cast, k + 1)
          == SensorSum(ray, s, cast, k) + LayerSum(rayStart, sensorDir, s, cast, |s.rose|);
      z := z + s.step;
      k := k + 1;
    }
    LayerIterationsExact(s.start, s.end, s.step, k);
  }

  /** The loop over the sectors for one layer origin, adding onto the sensor's value. */
  method LayerWind(acc: real, rayStart: Vec3, sensorDir: Vec3, s: Setup, cast: Caster) returns (sensorResult: real)
    requires s.Valid()
    ensures sensorResult == acc + LayerSum(rayStart, sensorDir, s, cast, |s.rose|)
  {
    sensorResult := acc;
    var i := 0;
    while i < |s.rose|
      invariant 0 <= i <= |s.rose|
      invariant sensorResult == acc + LayerSum(rayStart, sensorDir, s, cast, i)
    {
      var windFreq := s.Weight(i);
      var vecs := s.dirs[i];
      sensorResult := SectorWind(sensorResult, rayStart, sensorDir, vecs, windFreq, s.far, cast);
      i := i + 1;
    }
  }

  /** The loop over the directions of one sector, adding onto the sensor's value. */
  method SectorWind(acc: real, rayStart: Vec3, sensorDir: Vec3, vecs: seq<Vec3>, windFreq: real, far: real,
                    cast: Caster) returns (sensorResult: real)
    requires far > 0.0
    ensures sensorResult == acc + SectorSum(rayStart, sensorDir, vecs, windFreq, far, cast)
  {
    sensorResult := acc;
    var m := 0;
    while m < |vecs|
      invariant 0 <= m <= |vecs|
      invariant sensorResult == acc + SectorSum(rayStart, sensorDir, vecs[..m], windFreq, far, cast)
    {
      var rayDir := vecs[m];
      assert vecs[..m + 1][..m] == vecs[..m];
      if Dot(rayDir, sensorDir) < -Eps {
        m := m + 1;
        continue;
      }
      var isect := cast(rayStart, rayDir);
      if isect.None? {
        sensorResult := sensorResult + windFreq;
      } else {
        sensorResult := sensorResult + HitShare(windFreq, isect.value, far);
      }
      m := m + 1;
    }
    assert vecs[..|vecs|] == vecs;
  }

  /** The setup `Wind` hands to `_calcWind`: `num_rays + 1` directions per sector and the
      normalised radius and layers, with the given divisor. */
  function WindSetup(radius: NumOrList, numRays: nat, layers: NumOrList, windRose: seq<real>,
                     sin: real -> real, cos: real -> real, numLayers: nat): Setup
    requires |NormaliseRadius(radius)| >= 2 && |NormaliseLayers(layers)| >= 3
  {
    var r := NormaliseRadius(radius);
    var l := NormaliseLayers(layers);
    Setup(Fans(numRays + 1, |windRose|, sin, cos), windRose, l[0], l[1], l[2], numLayers, r[1])
  }

  /** `Wind` as written: the divisor is `Math.round((end - start) / step)`. */
  method Wind(sensors: seq<Ray>, radius: NumOrList, numRays: nat, layers: NumOrList,
              windRose: seq<real>, cast: Caster, sin: real -> real, cos: real -> real)
    returns (results: seq<real>)
    requires |NormaliseRadius(radius)| >= 2 && NormaliseRadius(radius)[1] > 0.0
    requires var l := NormaliseLayers(layers); |l| >= 3 && l[2] > 0.0 && RoundedLayers(l[0], l[1], l[2]) > 0
    ensures var l := NormaliseLayers(layers);
            var s := WindSetup(radius, numRays, layers, windRose, sin, cos, RoundedLayers(l[0], l[1], l[2]));
            s.Valid() && |results| == |sensors| &&
            forall n :: 0 <= n < |sensors| ==> results[n] == SensorValue(sensors[n], s, cast)
  {
    var r := NormaliseRadius(radius);
    var l := NormaliseLayers(layers);
    var dirVecs := WindVecs(numRays + 1, windRose, sin, cos);
    var numLayers := Round((l[1] - l[0]) / l[2]);
    results := CalcWind(sensors, Setup(dirVecs, windRose, l[0], l[1], l[2], numLayers, r[1]), cast);
  }

  /** `Wind` with the divisor it evidently intends: the number of layers the loop visits. */
  method WindCorrected(sensors: seq<Ray>, radius: NumOrList, numRays: nat, layers: NumOrList,
                       windRose: seq<real>, cast: Caster, sin: real -> real, cos: real -> real)
    returns (results: seq<real>)
    requires |NormaliseRadius(radius)| >= 2 && NormaliseRadius(radius)[1] > 0.0
    requires var l := NormaliseLayers(layers); |l| >= 3 && l[2] > 0.0 && LayerIterations(l[0], l[1], l[2]) > 0
    ensures var l := NormaliseLayers(layers);
            var s := WindSetup(radius, numRays, layers, windRose, sin, cos, LayerIterations(l[0], l[1], l[2]));
            s.Valid() && |results| == |sensors| &&
            forall n :: 0 <= n < |sensors| ==> results[n] == SensorValue(sensors[n], s, cast)
  {
    var r := NormaliseRadius(radius);
    var l := NormaliseLayers(layers);
    var dirVecs := WindVecs(numRays + 1, windRose, sin, cos);
    var numLayers := LayerIterations(l[0], l[1], l[2]);
    results := CalcWind(sensors, Setup(dirVecs, windRose, l[0], l[1], l[2], numLayers, r[1]), cast);
  }

  // ---------------------------------------------------------------------------------------------
  // Properties of the accumulation

  /** A hit never adds more than a miss would, and never less than nothing. */
  lemma TermBounds(origin: Vec3, sensorDir: Vec3, v: Vec3, w: real, near: real, far: real, cast: Caster)
    requires far > 0.0 && 0.0 <= near && w >= 0.0 && Bounded(cast, near, far)
    ensures 0.0 <= Term(origin, sensorDir, v, w, far, cast) <= w
  {
    if Dot(v, sensorDir) >= -Eps && cast(origin, v).Some? {
      var d := cast(origin, v).value;
      assert 0.0 <= d / far <= 1.0;
      assert w * (d / far) <= w * 1.0;
    }
  }

  lemma {:induction false} SectorSumBounds(origin: Vec3, sensorDir: Vec3, vecs: seq<Vec3>, w: real,
                                           near: real, far: real, cast: Caster)
    requires far > 0.0 && 0.0 <= near && w >= 0.0 && Bounded(cast, near, far)
    ensures 0.0 <= SectorSum(origin, sensorDir, vecs, w, far, cast) <= |vecs| as real * w
  {
    if |vecs| > 0 {
      SectorSumBounds(origin, sensorDir, vecs[..|vecs| - 1], w, near, far, cast);
      TermBounds(origin, sensorDir, vecs[|vecs| - 1], w, near, far, cast);
    }
  }

  lemma {:induction false} LayerSumBounds(origin: Vec3, sensorDir: Vec3, s: Setup, near: real, cast: Caster, n: nat)
    requires s.Valid() && n <= |s.rose| && NonNegative(s.rose)
    requires 0.0 <= near && Bounded(cast, near, s.far)
    ensures 0.0 <= LayerSum(origin, sensorDir, s, cast, n) <= SumOf(s.rose[..n]) / s.numLayers as real
  {
    if n > 0 {
      LayerSumBounds(origin, sensorDir, s, near, cast, n - 1);
      SectorShare(origin, sensorDir, s, near, cast, n - 1);
      SumOfPrefix(s.rose, n);
      DivAdd(SumOf(s.rose[..n - 1]), s.rose[n - 1], s.numLayers as real);
    }
  }

  /** A sector adds at least nothing and at most its frequency divided by the layer divisor. */
  lemma SectorShare(origin: Vec3, sensorDir: Vec3, s: Setup, near: real, cast: Caster, i: nat)
    requires s.Valid() && i < |s.rose| && s.rose[i] >= 0.0
    requires 0.0 <= near && Bounded(cast, near, s.far)
    ensures 0.0 <= SectorSum(origin, sensorDir, s.dirs[i], s.Weight(i), s.far, cast) <= s.rose[i] / s.numLayers as real
  {
    WeightShare(s, i);
    SectorSumBounds(origin, sensorDir, s.dirs[i], s.Weight(i), near, s.far, cast);
  }

  /** A sector's weight is non-negative, and its directions together carry the sector's
      frequency divided by the layer divisor. */
  lemma WeightShare(s: Setup, i: nat)
    requires s.Valid() && i < |s.rose|
    ensures s.rose[i] >= 0.0 ==> s.Weight(i) >= 0.0
    ensures |s.dirs[i]| as real * s.Weight(i) == s.rose[i] / s.numLayers as real
  {
    var len, nl := |s.dirs[i]| as real, s.numLayers as real;
    assert len * nl > 0.0;
  }

  /** Each sensor's raw value lies between 0 and (layers visited / divisor) times the total
      wind-rose frequency. */
  lemma {:induction false} SensorSumBounds(ray: Ray, s: Setup, near: real, cast: Caster, k: nat)
    requires s.Valid() && NonNegative(s.rose)
    requires 0.0 <= near && Bounded(cast, near, s.far)
    ensures 0.0 <= SensorSum(ray, s, cast, k) <= k as real * (SumOf(s.rose) / s.numLayers as real)
  {
    if k > 0 {
      SensorSumBounds(ray, s, near, cast, k - 1);
      LayerSumBounds(LayerOrigin(ray.origin, LayerZ(s, k - 1)), ray.dir, s, near, cast, |s.rose|);
      assert s.rose[..|s.rose|] == s.rose;
    }
  }

  /** No direction of any fan points behind this sensor. */
  ghost predicate Unculled(ray: Ray, s: Setup) {
    forall i, m :: 0 <= i < |s.dirs| && 0 <= m < |s.dirs[i]| ==> Dot(s.dirs[i][m], ray.dir) >= -Eps
  }

  lemma {:induction false} OpenSectorSum(origin: Vec3, sensorDir: Vec3, vecs: seq<Vec3>, w: real, far: real, cast: Caster)
    requires far > 0.0 && Unobstructed(cast)
    requires forall m :: 0 <= m < |vecs| ==> Dot(vecs[m], sensorDir) >= -Eps
    ensures SectorSum(origin, sensorDir, vecs, w, far, cast) == |vecs| as real * w
  {
    if |vecs| > 0 {
      OpenSectorSum(origin, sensorDir, vecs[..|vecs| - 1], w, far, cast);
      assert cast(origin, vecs[|vecs| - 1]).None?;
    }
  }

  lemma {:induction false} OpenLayerSum(ray: Ray, origin: Vec3, s: Setup, cast: Caster, n: nat)
    requires s.Valid() && n <= |s.rose| && Unobstructed(cast) && Unculled(ray, s)
    ensures LayerSum(origin, ray.dir, s, cast, n) == SumOf(s.rose[..n]) / s.numLayers as real
  {
    if n > 0 {
      OpenLayerSum(ray, origin, s, cast, n - 1);
      OpenSector(ray, origin, s, cast, n - 1);
      SumOfPrefix(s.rose, n);
      DivAdd(SumOf(s.rose[..n - 1]), s.rose[n - 1], s.numLayers as real);
    }
  }

  /** An open, unculled sector adds exactly its frequency divided by the layer divisor. */
  lemma OpenSector(ray: Ray, origin: Vec3, s: Setup, cast: Caster, i: nat)
    requires s.Valid() && i < |s.rose| && Unobstructed(cast) && Unculled(ray, s)
    ensures SectorSum(origin, ray.dir, s.dirs[i], s.Weight(i), s.far, cast) == s.rose[i] / s.numLayers as real
  {
    OpenSectorSum(origin, ray.dir, s.dirs[i], s.Weight(i), s.far, cast);
    WeightShare(s, i);
  }

  /** With nothing in the way and no direction culled, each visited layer adds the whole
      wind rose divided by the divisor. */
  lemma {:induction false} OpenSensorSum(ray: Ray, s: Setup, cast: Caster, k: nat)
    requires s.Valid() && Unobstructed(cast) && Unculled(ray, s)
    ensures SensorSum(ray, s, cast, k) == k as real * (SumOf(s.rose) / s.numLayers as real)
  {
    if k > 0 {
      OpenSensorSum(ray, s, cast, k - 1);
      OpenLayerSum(ray, LayerOrigin(ray.origin, LayerZ(s, k - 1)), s, cast, |s.rose|);
      assert s.rose[..|s.rose|] == s.rose;
    }
  }

  /** A ground sensor faces straight up, so no horizontal direction is ever behind it. */
  lemma UpwardSensorUnculled(ray: Ray, s: Setup)
    requires ray.dir.x == 0.0 && ray.dir.y == 0.0
    requires forall i, m :: 0 <= i < |s.dirs| && 0 <= m < |s.dirs[i]| ==> s.dirs[i][m].z == 0.0
    ensures Unculled(ray, s)
  {
  }

  /** The layers [1, 18, 4] the wind analysis uses visit z = 1, 5, 9, 13, 17 (five layers)
      but divide each sector's weight by Math.round(17 / 4) = 4. */
  lemma LayerCountMismatch()
    ensures LayerIterations(1.0, 18.0, 4.0) == 5 && RoundedLayers(1.0, 18.0, 4.0) == 4
  {
    assert (18.0 - 1.0) / 4.0 == 4.25;
    assert (4.25).Floor == 4;
    assert (4.25 + 0.5).Floor == 4;
  }

  /** As written, an open ground sensor under the wind analysis' layers scores 5/4 of the
      total wind-rose frequency, so a rose summing to 1 yields a raw value of 1.25. */
  lemma OpenSensorOverCounted(ray: Ray, radius: NumOrList, layers: NumOrList, windRose: seq<real>,
                              cast: Caster, sin: real -> real, cos: real -> real)
    requires NormaliseRadius(radius) == [1.0, 200.0] && NormaliseLayers(layers) == [1.0, 18.0, 4.0]
    requires Unobstructed(cast) && ray.dir.x == 0.0 && ray.dir.y == 0.0
    ensures var s := WindSetup(radius, 4, layers, windRose, sin, cos, RoundedLayers(1.0, 18.0, 4.0));
            s.Valid() && SensorValue(ray, s, cast) == 1.25 * SumOf(windRose)
  {
    LayerCountMismatch();
    var s := WindSetup(radius, 4, layers, windRose, sin, cos, RoundedLayers(1.0, 18.0, 4.0));
    assert s.start == 1.0 && s.end == 18.0 && s.step == 4.0 && s.numLayers == 4 && s.rose == windRose;
    FansHorizontal(5, |windRose|, sin, cos);
    UpwardSensorUnculled(ray, s);
    OverCountedSum(ray, s, cast);
    assert SensorValue(ray, s, cast) == SensorSum(ray, s, cast, 5);
  }

  /** Five open layers, each weighted by a quarter of the rose. */
  lemma OverCountedSum(ray: Ray, s: Setup, cast: Caster)
    requires s.Valid() && s.numLayers == 4 && Unobstructed(cast) && Unculled(ray, s)
    ensures SensorSum(ray, s, cast, 5) == 1.25 * SumOf(s.rose)
  {
    OpenSensorSum(ray, s, cast, 5);
  }

  /** With the corrected divisor the wind rose is conserved: an open, unculled sensor scores
      exactly the total wind-rose frequency, whatever the layers. */
  lemma CorrectedConserves(ray: Ray, s: Setup, cast: Caster)
    requires s.Valid() && s.numLayers == LayerIterations(s.start, s.end, s.step)
    requires Unobstructed(cast) && Unculled(ray, s)
    ensures SensorValue(ray, s, cast) == SumOf(s.rose)
  {
    OpenSensorSum(ray, s, cast, s.numLayers);
    CancelDiv(SumOf(s.rose), s.numLayers as real);
  }
}
