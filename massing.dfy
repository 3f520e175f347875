/**
 * Reading an uploaded massing model, src/app/viewer/util/viewer.readMassingFile.ts:
 * - deciding what kind of upload a list of files is;
 * - dispatching to the right reader;
 * - turning a Collada scene into triangles;
 * - the shapefile reprojection flag and extent;
 * - the roof/wall split;
 * - the building-height fallback.
 * The file contents, the shapefile and Collada parsers, the projections, the polygon union
 * and mobius-sim's geometry are outside the model: file names, scene trees, bounding boxes,
 * normals and property maps are inputs.
 */
module Massing {
  import opened Js

  // ---------------------------------------------------------------------------------------------
  // `checkUploadedFilesType`

  datatype FileKind = Skp | Dae | Shp | Unidentified

  /** The verdict on an upload. The model file (for skp/dae) and the shapefile parts are
      identified by their position in the file list. */
  datatype FileCheck = FileCheck(status: bool, kind: FileKind, file: Option<nat>, shp: Option<nat>, dbf: Option<nat>)

  predicate IsModelFile(name: string) {
    EndsWith(name, ".skp") || EndsWith(name, ".dae")
  }

  /** The first file (among the first n) that is a SketchUp or Collada model. */
  function ModelIndex(names: seq<string>, n: nat): (r: Option<nat>)
    requires n <= |names|
    ensures r.Some? ==> r.value < n && IsModelFile(names[r.value])
  {
    if n == 0 then None
    else if ModelIndex(names, n - 1).Some? then ModelIndex(names, n - 1)
    else if IsModelFile(names[n - 1]) then Some(n - 1)
    else None
  }

  /** The last file (among the first n) whose name ends with `ext`. */
  function LastIndex(names: seq<string>, n: nat, ext: string): (r: Option<nat>)
    requires n <= |names|
    ensures r.Some? ==> r.value < n && EndsWith(names[r.value], ext)
  {
    if n == 0 then None
    else if EndsWith(names[n - 1], ext) then Some(n - 1)
    else LastIndex(names, n - 1, ext)
  }

  /** What an upload is: the first model file decides alone; otherwise any `.shp` or `.dbf`
      makes it a shapefile upload, complete only when both parts are present. */
  function Expected(names: seq<string>): FileCheck {
    var m := ModelIndex(names, |names|);
    if m.Some? then
      FileCheck(true, if EndsWith(names[m.value], ".skp") then Skp else Dae, m, None, None)
    else
      var s, d := LastIndex(names, |names|, ".shp"), LastIndex(names, |names|, ".dbf");
      if s.Some? || d.Some? then FileCheck(s.Some? && d.Some?, Shp, None, s, d)
      else FileCheck(false, Unidentified, None, None, None)
  }

  lemma {:induction false} ModelIndexStable(names: seq<string>, i: nat, n: nat)
    requires i <= n <= |names| && ModelIndex(names, i).Some?
    ensures ModelIndex(names, n) == ModelIndex(names, i)
  {
    if i < n {
      ModelIndexStable(names, i, n - 1);
    }
  }

  /** Two different extensions of the same length cannot both end a name. */
  lemma ExtensionsExclusive(name: string, a: string, b: string)
    requires |a| == |b| && a != b
    ensures !(EndsWith(name, a) && EndsWith(name, b))
  {
  }

  /** The loop over the uploaded files, returning as soon as a model file is met. */
  method CheckUploadedFilesType(names: seq<string>) returns (r: FileCheck)
    ensures r == Expected(names)
  {
    var fileType := Unidentified;
    var shp: Option<nat> := None;
    var dbf: Option<nat> := None;
    var i := 0;
    while i < |names|
      invariant 0 <= i <= |names|
      invariant ModelIndex(names, i) == None
      invariant shp == LastIndex(names, i, ".shp") && dbf == LastIndex(names, i, ".dbf")
      invariant fileType == if shp.Some? || dbf.Some? then Shp else Unidentified
    {
      var name := names[i];
      if EndsWith(name, ".skp") {
        ModelIndexStable(names, i + 1, |names|);
        return FileCheck(true, Skp, Some(i), None, None);
      } else if EndsWith(name, ".dae") {
        ModelIndexStable(names, i + 1, |names|);
        ExtensionsExclusive(name, ".skp", ".dae");
        return FileCheck(true, Dae, Some(i), None, None);
      } else if EndsWith(name, ".shp") {
        ExtensionsExclusive(name, ".shp", ".dbf");
        fileType := Shp;
        shp := Some(i);
      } else if EndsWith(name, ".dbf") {
        fileType := Shp;
        dbf := Some(i);
      }
      i := i + 1;
    }
    if fileType == Shp {
      return FileCheck(shp.Some? && dbf.Some?, Shp, None, shp, dbf);
    }
    return FileCheck(false, Unidentified, None, None, None);
  }

  lemma {:induction false} ModelIndexProperties(names: seq<string>, n: nat)
    requires n <= |names|
    ensures ModelIndex(names, n).None? <==> forall k :: 0 <= k < n ==> !IsModelFile(names[k])
    ensures ModelIndex(names, n).Some? ==>
              var m := ModelIndex(names, n).value;
              m < n && IsModelFile(names[m]) && forall k :: 0 <= k < m ==> !IsModelFile(names[k])
  {
    if n > 0 {
      ModelIndexProperties(names, n - 1);
    }
  }

  lemma {:induction false} LastIndexProperties(names: seq<string>, n: nat, ext: string)
    requires n <= |names|
    ensures LastIndex(names, n, ext).Some? <==> exists k :: 0 <= k < n && EndsWith(names[k], ext)
    ensures LastIndex(names, n, ext).Some? ==>
              var m := LastIndex(names, n, ext).value;
              m < n && EndsWith(names[m], ext) && forall k :: m < k < n ==> !EndsWith(names[k], ext)
  {
    if n > 0 {
      LastIndexProperties(names, n - 1, ext);
    }
  }

  /** The three outcomes of a check:
      - a model file makes it succeed with the first such file;
      - a shapefile upload succeeds exactly when both a `.shp` and a `.dbf` are present;
      - an upload with none of the four extensions is unidentified and fails. */
  lemma UploadOutcomes(names: seq<string>)
    ensures var r := Expected(names);
      && (r.kind in {Skp, Dae} <==> exists k :: 0 <= k < |names| && IsModelFile(names[k]))
      && (r.kind in {Skp, Dae} ==> r.status && r.file.Some? && r.file.value < |names|
                                   && IsModelFile(names[r.file.value])
                                   && forall k :: 0 <= k < r.file.value ==> !IsModelFile(names[k]))
      && (r.kind == Shp ==>
            (r.status <==> (exists k :: 0 <= k < |names| && EndsWith(names[k], ".shp"))
                           && (exists k :: 0 <= k < |names| && EndsWith(names[k], ".dbf"))))
      && (r.kind == Unidentified <==>
            forall k :: 0 <= k < |names| ==>
              !IsModelFile(names[k]) && !EndsWith(names[k], ".shp") && !EndsWith(names[k], ".dbf"))
      && (r.kind == Unidentified ==> !r.status)
  {
    ModelIndexProperties(names, |names|);
    LastIndexProperties(names, |names|, ".shp");
    LastIndexProperties(names, |names|, ".dbf");
  }

  lemma {:induction false} ModelIndexPrefix(names: seq<string>, rest: seq<string>, n: nat)
    requires n <= |names|
    ensures ModelIndex(names + rest, n) == ModelIndex(names, n)
  {
    if n > 0 {
      ModelIndexPrefix(names, rest, n - 1);
      assert (names + rest)[n - 1] == names[n - 1];
    }
  }

  /** Files after the first model file do not change the verdict. */
  lemma FirstModelWins(names: seq<string>, rest: seq<string>)
    requires ModelIndex(names, |names|).Some?
    ensures Expected(names + rest) == Expected(names)
  {
    ModelIndexPrefix(names, rest, |names|);
    ModelIndexStable(names + rest, |names|, |names + rest|);
    ModelIndexProperties(names, |names|);
    assert (names + rest)[ModelIndex(names, |names|).value] == names[ModelIndex(names, |names|).value];
  }

  // ---------------------------------------------------------------------------------------------
  // `readMassingFiles`

  /** The reader `readMassingFiles` hands the upload to. */
  datatype Reader = ReadDae(file: nat) | ReadShp(shp: nat, dbf: nat)

  /** Nothing is read for a failed check or a SketchUp file. */
  function Dispatch(r: FileCheck): Option<Reader> {
    if !r.status then None
    else if r.kind == Dae && r.file.Some? then Some(ReadDae(r.file.value))
    else if r.kind == Shp && r.shp.Some? && r.dbf.Some? then Some(ReadShp(r.shp.value, r.dbf.value))
    else None
  }

  /** `readMassingFiles` gives up exactly on a failed check or a SketchUp file; otherwise it
      reads a Collada file, or a `.shp` together with a `.dbf`. */
  lemma DispatchOutcome(names: seq<string>)
    ensures Dispatch(Expected(names)).None? <==> !Expected(names).status || Expected(names).kind == Skp
    ensures Dispatch(Expected(names)).Some? ==> ReadsNamed(names, Dispatch(Expected(names)).value)
  {
    var m := ModelIndex(names, |names|);
    if m.Some? && !EndsWith(names[m.value], ".skp") {
      assert EndsWith(names[m.value], ".dae");
    }
  }

  /** The reader is given files of the right kinds. */
  predicate ReadsNamed(names: seq<string>, d: Reader) {
    match d
    case ReadDae(f) => f < |names| && EndsWith(names[f], ".dae")
    case ReadShp(s, b) => s < |names| && EndsWith(names[s], ".shp") && b < |names| && EndsWith(names[b], ".dbf")
  }

  // ---------------------------------------------------------------------------------------------
  // `getThreeGeomCoords`

  type Vec3 = (real, real, real)

  /** A node of the loaded Collada scene: a group of children, a mesh with or without a
      vertex-position attribute, or any other kind of object. */
  datatype SceneObject = Group(children: seq<SceneObject>) | Mesh(position: Option<seq<Vec3>>) | OtherObject

  /** A vertex as read, divided by 39.37 on every axis when the file's unit is inches. */
  function Convert(v: Vec3, inch: bool): Vec3 {
    if inch then (v.0 / 39.37, v.1 / 39.37, v.2 / 39.37) else v
  }

  /** Inches are turned into metres; any other unit is kept. */
  lemma ConvertUnits(v: Vec3)
    ensures Convert(v, false) == v
    ensures Convert(v, true).0 * 39.37 == v.0 && Convert(v, true).1 * 39.37 == v.1 && Convert(v, true).2 * 39.37 == v.2
  {
  }

  /** Consecutive vertices taken three at a time; one or two left over are dropped. */
  function Triangles(vs: seq<Vec3>, inch: bool): seq<seq<Vec3>> {
    seq(|vs| / 3, t requires 0 <= t < |vs| / 3 =>
      [Convert(vs[3 * t], inch), Convert(vs[3 * t + 1], inch), Convert(vs[3 * t + 2], inch)])
  }

  function Concat<T>(xss: seq<seq<T>>): seq<T> {
    if |xss| == 0 then [] else Concat(xss[..|xss| - 1]) + xss[|xss| - 1]
  }

  /** The triangles of a scene: a group yields its children's triangles in order, a mesh its
      vertex triangles, anything else (or a mesh without positions) nothing. */
  function Coords(o: SceneObject, inch: bool): seq<seq<Vec3>>
    decreases o
  {
    match o
    case Group(cs) => Concat(seq(|cs|, k requires 0 <= k < |cs| => Coords(cs[k], inch)))
    case Mesh(p) => if p.Some? then Triangles(p.value, inch) else []
    case OtherObject => []
  }

  /** The mesh loop with its `pgonPos` / `pgonVertCount` counters. */
  method MeshTriangles(vs: seq<Vec3>, inch: bool) returns (pgons: seq<seq<Vec3>>)
    ensures pgons == Triangles(vs, inch)
  {
    pgons := [];
    var pgonPos: seq<Vec3> := [];
    var pgonVertCount := 0;
    for i := 0 to |vs|
      invariant 0 <= pgonVertCount < 3 && 3 * |pgons| + pgonVertCount == i
      invariant pgonPos == seq(pgonVertCount, k requires 0 <= k < pgonVertCount => Convert(vs[3 * |pgons| + k], inch))
      invariant forall t :: 0 <= t < |pgons| ==>
                  pgons[t] == [Convert(vs[3 * t], inch), Convert(vs[3 * t + 1], inch), Convert(vs[3 * t + 2], inch)]
    {
      var coord := Convert(vs[i], inch);
      pgonPos := pgonPos + [coord];
      pgonVertCount := pgonVertCount + 1;
      if pgonVertCount == 3 {
        pgonVertCount := 0;
        pgons := pgons + [pgonPos];
        pgonPos := [];
      }
    }
  }

  /** `getThreeGeomCoords`: recursive over groups, concatenating the children's results. */
  method GeomCoords(o: SceneObject, inch: bool) returns (pgons: seq<seq<Vec3>>)
    ensures pgons == Coords(o, inch)
    decreases o
  {
    match o {
      case Group(cs) =>
        ghost var parts := seq(|cs|, k requires 0 <= k < |cs| => Coords(cs[k], inch));
        pgons := [];
        for k := 0 to |cs|
          invariant pgons == Concat(parts[..k])
        {
          var more := GeomCoords(cs[k], inch);
          assert parts[..k + 1][..k] == parts[..k];
          pgons := pgons + more;
        }
        assert parts[..|cs|] == parts;
      case Mesh(p) =>
        if p.None? {
          return [];
        }
        pgons := MeshTriangles(p.value, inch);
      case OtherObject =>
        pgons := [];
    }
  }

  lemma {:induction false} ConcatAppend<T>(a: seq<seq<T>>, b: seq<seq<T>>)
    ensures Concat(a + b) == Concat(a) + Concat(b)
  {
    if |b| == 0 {
      assert a + b == a;
    } else {
      ConcatAppend(a, b[..|b| - 1]);
      assert (a + b)[..|a + b| - 1] == a + b[..|b| - 1];
    }
  }

  /** Splitting a group's children splits its triangles the same way. */
  lemma GroupConcat(a: seq<SceneObject>, b: seq<SceneObject>, inch: bool)
    ensures Coords(Group(a + b), inch) == Coords(Group(a), inch) + Coords(Group(b), inch)
  {
    var pa := seq(|a|, k requires 0 <= k < |a| => Coords(a[k], inch));
    var pb := seq(|b|, k requires 0 <= k < |b| => Coords(b[k], inch));
    var ab := a + b;
    assert seq(|ab|, k requires 0 <= k < |ab| => Coords(ab[k], inch)) == pa + pb;
    ConcatAppend(pa, pb);
  }

  lemma {:induction false} TrianglesPrefix(vs: seq<Vec3>, m: nat)
    requires m <= |vs| / 3
    ensures Concat(Triangles(vs, false)[..m]) == vs[..3 * m]
  {
    if m > 0 {
      TrianglesPrefix(vs, m - 1);
      var ts := Triangles(vs, false);
      assert ts[..m][..m - 1] == ts[..m - 1];
      assert vs[..3 * m] == vs[..3 * (m - 1)] + [vs[3 * (m - 1)], vs[3 * (m - 1) + 1], vs[3 * (m - 1) + 2]];
    }
  }

  /** Laid end to end, a mesh's triangles give back its vertices in order, less the one or two
      left over at the end. */
  lemma TrianglesCoverVertices(vs: seq<Vec3>)
    ensures |Triangles(vs, false)| == |vs| / 3
    ensures Concat(Triangles(vs, false)) == vs[..|vs| - |vs| % 3]
  {
    var ts := Triangles(vs, false);
    TrianglesPrefix(vs, |vs| / 3);
    assert ts[..|vs| / 3] == ts;
  }

  // ---------------------------------------------------------------------------------------------
  // `readSHP`

  /** The loop over the shapefile's bounding box: reproject from SVY21 as soon as a coordinate
      exceeds 180 (it cannot be a longitude or latitude). */
  method NeedsReprojection(bbox: seq<real>) returns (boundTransf: bool)
    ensures boundTransf <==> exists k :: 0 <= k < |bbox| && bbox[k] > 180.0
  {
    boundTransf := false;
    var k := 0;
    while k < |bbox|
      invariant 0 <= k <= |bbox|
      invariant forall j :: 0 <= j < k ==> bbox[j] <= 180.0
    {
      if bbox[k] > 180.0 {
        boundTransf := true;
        break;
      }
      k := k + 1;
    }
  }

  /** A feature extent `[minX, minY, maxX, maxY]`. */
  type Box = (real, real, real, real)

  /** The loop that widens `extent` (from `[99999, 99999, -99999, -99999]`) by each feature's
      extent: the result is the smallest box holding every feature and the starting box's
      corners, each side coming from the start or from some feature. */
  method AccumulateExtent(boxes: seq<Box>) returns (e: Box)
    ensures e.0 <= 99999.0 && e.1 <= 99999.0 && e.2 >= -99999.0 && e.3 >= -99999.0
    ensures forall k :: 0 <= k < |boxes| ==>
              e.0 <= boxes[k].0 && e.1 <= boxes[k].1 && e.2 >= boxes[k].2 && e.3 >= boxes[k].3
    ensures e.0 == 99999.0 || exists k :: 0 <= k < |boxes| && e.0 == boxes[k].0
    ensures e.1 == 99999.0 || exists k :: 0 <= k < |boxes| && e.1 == boxes[k].1
    ensures e.2 == -99999.0 || exists k :: 0 <= k < |boxes| && e.2 == boxes[k].2
    ensures e.3 == -99999.0 || exists k :: 0 <= k < |boxes| && e.3 == boxes[k].3
  {
    e := (99999.0, 99999.0, -99999.0, -99999.0);
    for i := 0 to |boxes|
      invariant e.0 <= 99999.0 && e.1 <= 99999.0 && e.2 >= -99999.0 && e.3 >= -99999.0
      invariant forall k :: 0 <= k < i ==>
                  e.0 <= boxes[k].0 && e.1 <= boxes[k].1 && e.2 >= boxes[k].2 && e.3 >= boxes[k].3
      invariant e.0 == 99999.0 || exists k :: 0 <= k < i && e.0 == boxes[k].0
      invariant e.1 == 99999.0 || exists k :: 0 <= k < i && e.1 == boxes[k].1
      invariant e.2 == -99999.0 || exists k :: 0 <= k < i && e.2 == boxes[k].2
      invariant e.3 == -99999.0 || exists k :: 0 <= k < i && e.3 == boxes[k].3
    {
      var g := boxes[i];
      e := (Min(e.0, g.0), Min(e.1, g.1), Max(e.2, g.2), Max(e.3, g.3));
    }
  }

  // ---------------------------------------------------------------------------------------------
  // The roof/wall split of `readSHP` and `readDAE`

  /** The polygons whose normal points up (z above 0.5). */
  function Roofs<P>(pgons: seq<P>, normalZ: P -> real): seq<P> {
    if |pgons| == 0 then []
    else Roofs(pgons[..|pgons| - 1], normalZ) + if normalZ(pgons[|pgons| - 1]) > 0.5 then [pgons[|pgons| - 1]] else []
  }

  /** The other polygons. */
  function Walls<P>(pgons: seq<P>, normalZ: P -> real): seq<P> {
    if |pgons| == 0 then []
    else Walls(pgons[..|pgons| - 1], normalZ) + if normalZ(pgons[|pgons| - 1]) > 0.5 then [] else [pgons[|pgons| - 1]]
  }

  /** The loop over all polygons pushing each into `roofs` or `walls`. */
  method SplitRoofsWalls<P>(pgons: seq<P>, normalZ: P -> real) returns (roofs: seq<P>, walls: seq<P>)
    ensures roofs == Roofs(pgons, normalZ) && walls == Walls(pgons, normalZ)
  {
    roofs, walls := [], [];
    for i := 0 to |pgons|
      invariant roofs == Roofs(pgons[..i], normalZ) && walls == Walls(pgons[..i], normalZ)
    {
      assert pgons[..i + 1][..i] == pgons[..i];
      if normalZ(pgons[i]) > 0.5 {
        roofs := roofs + [pgons[i]];
      } else {
        walls := walls + [pgons[i]];
      }
    }
    assert pgons[..|pgons|] == pgons;
  }

  /** Every polygon lands in exactly one of the two lists. */
  lemma {:induction false} RoofWallPartition<P>(pgons: seq<P>, normalZ: P -> real)
    ensures multiset(Roofs(pgons, normalZ)) + multiset(Walls(pgons, normalZ)) == multiset(pgons)
  {
    if |pgons| > 0 {
      var n := |pgons| - 1;
      RoofWallPartition(pgons[..n], normalZ);
      assert pgons == pgons[..n] + [pgons[n]];
    }
  }

  /** Roofs face up (normal z above 0.5); walls do not. */
  lemma {:induction false} RoofWallNormals<P>(pgons: seq<P>, normalZ: P -> real)
    ensures forall p :: p in Roofs(pgons, normalZ) ==> normalZ(p) > 0.5
    ensures forall p :: p in Walls(pgons, normalZ) ==> normalZ(p) <= 0.5
  {
    if |pgons| > 0 {
      RoofWallNormals(pgons[..|pgons| - 1], normalZ);
    }
  }

  // ---------------------------------------------------------------------------------------------
  // The building height of `simImportFeature`

  /** `properties[key]`: undefined when missing. */
  function Prop(props: map<string, JsNum>, key: string): JsNum {
    if key in props then props[key] else Undefined
  }

  const HeightKeys: seq<string> := ["h", "H", "height", "Height", "AGL"]

  /** `a || b || ...`: the first truthy value, or the last one when none is. */
  function FirstTruthy(props: map<string, JsNum>, keys: seq<string>): JsNum
    requires |keys| > 0
  {
    if |keys| == 1 || Truthy(Prop(props, keys[0])) then Prop(props, keys[0])
    else FirstTruthy(props, keys[1..])
  }

  /** `pgonHeight`; the footprint is extruded only when it is truthy. */
  function PgonHeight(props: map<string, JsNum>): JsNum {
    FirstTruthy(props, HeightKeys)
  }

  lemma {:induction false} FirstTruthyProperties(props: map<string, JsNum>, keys: seq<string>)
    requires |keys| > 0
    ensures Truthy(FirstTruthy(props, keys)) <==> exists i :: 0 <= i < |keys| && Truthy(Prop(props, keys[i]))
    ensures Truthy(FirstTruthy(props, keys)) ==>
              exists i :: 0 <= i < |keys| && FirstTruthy(props, keys) == Prop(props, keys[i])
                          && forall j :: 0 <= j < i ==> !Truthy(Prop(props, keys[j]))
  {
    if |keys| > 1 && !Truthy(Prop(props, keys[0])) {
      FirstTruthyProperties(props, keys[1..]);
      if Truthy(FirstTruthy(props, keys)) {
        var i :| 0 <= i < |keys| - 1 && FirstTruthy(props, keys[1..]) == Prop(props, keys[1..][i])
                 && forall j :: 0 <= j < i ==> !Truthy(Prop(props, keys[1..][j]));
        assert forall j :: 0 <= j < i + 1 ==> !Truthy(Prop(props, keys[j])) by {
          forall j | 0 <= j < i + 1
            ensures !Truthy(Prop(props, keys[j]))
          {
            if j > 0 {
              assert keys[j] == keys[1..][j - 1];
            }
          }
        }
      }
      if exists i :: 0 <= i < |keys| && Truthy(Prop(props, keys[i])) {
        var i :| 0 <= i < |keys| && Truthy(Prop(props, keys[i]));
        assert i > 0 && keys[1..][i - 1] == keys[i];
      }
    }
  }

  /** The height is taken from the first of `h`, `H`, `height`, `Height`, `AGL` that is truthy,
      and a footprint is extruded exactly when one of them is. */
  lemma HeightFallback(props: map<string, JsNum>)
    ensures Truthy(PgonHeight(props)) <==> exists i :: 0 <= i < 5 && Truthy(Prop(props, HeightKeys[i]))
    ensures Truthy(PgonHeight(props)) ==>
              exists i :: 0 <= i < 5 && PgonHeight(props) == Prop(props, HeightKeys[i])
                          && forall j :: 0 <= j < i ==> !Truthy(Prop(props, HeightKeys[j]))
  {
    FirstTruthyProperties(props, HeightKeys);
  }
}
