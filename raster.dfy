/**
 * The conversion of a raster result (from the Python analyses) into the viewer's model,
 * src/app/viewer/simulation-js/sim_convert_py_result.js.
 * - `raster_to_sim` turns every data cell into a rectangle, keeping those that meet the
 *   site boundary. It then either extrudes them with a running colour range (shapefile
 *   results) or reports the UHI increment of the kept values.
 * - `raster_to_sim_sky` paints every cell with a colour ramp and reports the UHI increment
 *   of all cells.
 * The projection (proj4) and the geometry calls (mobius-sim) are outside the model. The
 * projected extent corners are inputs. The boundary intersection is an oracle saying
 * whether anything of a cell's rectangle lies inside the site.
 */
module Raster {
  import opened Js
  import Execute
  import Heatmap

  // ---------------------------------------------------------------------------------------------
  // The extent string

  /** `extent`: the raster's bounds as the string `"left bottom right top"` gives them. */
  datatype Extent = Extent(left: JsNum, bottom: JsNum, right: JsNum, top: JsNum)

  /** `Number(extentSplit[i])`: NaN past the end (`Number(undefined)`). */
  function ExtentPart(parts: seq<string>, i: nat): JsNum {
    if i < |parts| then NumberOf(parts[i]) else NaN
  }

  /** `data.extent.split(' ')`, read positionally. */
  function ParseExtent(s: string): Extent {
    var parts := Split(s, " ");
    Extent(ExtentPart(parts, 0), ExtentPart(parts, 1), ExtentPart(parts, 2), ExtentPart(parts, 3))
  }

  /** Four space-free fields are read as left, bottom, right and top, in that order. */
  lemma {:induction false} ExtentPositional(a: string, b: string, c: string, d: string)
    requires Avoids(a, " ") && Avoids(b, " ") && Avoids(c, " ") && Avoids(d, " ")
    ensures ParseExtent(a + " " + b + " " + c + " " + d) == Extent(NumberOf(a), NumberOf(b), NumberOf(c), NumberOf(d))
  {
    assert a + " " + b + " " + c + " " + d == a + " " + (b + " " + (c + " " + d));
    assert b + " " + (c + " " + d) == b + " " + (c + " " + d);
    SplitAt(c, " ", d);
    SplitNone(d, " ");
    SplitAt(b, " ", c + " " + d);
    SplitAt(a, " ", b + " " + (c + " " + d));
  }

  /** An extent written from integers is read back exactly. */
  lemma ExtentRoundTrip(l: int, b: int, r: int, t: int)
    ensures ParseExtent(IntToString(l) + " " + IntToString(b) + " " + IntToString(r) + " " + IntToString(t))
              == Extent(Num(l as real), Num(b as real), Num(r as real), Num(t as real))
  {
    IntToStringAvoids(l, " ");
    IntToStringAvoids(b, " ");
    IntToStringAvoids(r, " ");
    IntToStringAvoids(t, " ");
    ExtentPositional(IntToString(l), IntToString(b), IntToString(r), IntToString(t));
    IntToStringNumber(l);
    IntToStringNumber(b);
    IntToStringNumber(r);
    IntToStringNumber(t);
  }

  // ---------------------------------------------------------------------------------------------
  // The cell grid of `raster_to_sim`

  /** `width`, `height`: the extent divided by the number of columns (of the first row) and
      of rows; None when there is no row (reading `data.data[0]` fails) or no column. */
  function CellSize(bottomLeft: (real, real), topRight: (real, real), grid: seq<seq<real>>): (r: Option<(real, real)>)
    ensures r.Some? <==> |grid| > 0 && |grid[0]| > 0
    ensures r.Some? ==> r.value.0 * |grid[0]| as real == topRight.0 - bottomLeft.0
                        && r.value.1 * |grid| as real == topRight.1 - bottomLeft.1
    ensures r.Some? && bottomLeft.0 < topRight.0 && bottomLeft.1 < topRight.1 ==> r.value.0 > 0.0 && r.value.1 > 0.0
  {
    if |grid| == 0 || |grid[0]| == 0 then None
    else Some(((topRight.0 - bottomLeft.0) / |grid[0]| as real, (topRight.1 - bottomLeft.1) / |grid| as real))
  }

  /** `pos`: the cell rectangle of column `col` drawn at display row `dispRow`,
      counter-clockwise from its lower-left corner. */
  function Corners(width: real, height: real, col: nat, dispRow: nat): (r: seq<(real, real)>)
    ensures |r| == 4
  {
    [(width * col as real, height * dispRow as real),
     (width * (col + 1) as real, height * dispRow as real),
     (width * (col + 1) as real, height * (dispRow + 1) as real),
     (width * col as real, height * (dispRow + 1) as real)]
  }

  /** A kept cell: where it sits in the raster, its value, and the rectangle drawn for it. */
  datatype Cell = Cell(row: nat, col: nat, value: real, corners: seq<(real, real)>)

  /** The cell of raster row `row`, drawn at `disp_row = data.data.length - 1 - row`, so the
      first row of the raster (its northern edge) is drawn at the top. */
  function CellAt(grid: seq<seq<real>>, width: real, height: real, row: nat, col: nat): Cell
    requires row < |grid| && col < |grid[row]|
  {
    Cell(row, col, grid[row][col], Corners(width, height, col, |grid| - 1 - row))
  }

  /** The test of the inner loop: a data cell whose rectangle meets the site. */
  predicate Keeps(grid: seq<seq<real>>, nodata: real, width: real, height: real,
                  meets: seq<(real, real)> -> bool, row: nat, col: nat)
    requires row < |grid| && col < |grid[row]|
  {
    grid[row][col] != nodata && meets(CellAt(grid, width, height, row, col).corners)
  }

  /** The kept cells of row `row` among its first c columns, left to right. */
  function RowKept(grid: seq<seq<real>>, nodata: real, width: real, height: real,
                   meets: seq<(real, real)> -> bool, row: nat, c: nat): seq<Cell>
    requires row < |grid| && c <= |grid[row]|
  {
    if c == 0 then []
    else RowKept(grid, nodata, width, height, meets, row, c - 1)
         + if Keeps(grid, nodata, width, height, meets, row, c - 1) then [CellAt(grid, width, height, row, c - 1)] else []
  }

  /** The kept cells of the first r rows, in row-major order. */
  function RowsKept(grid: seq<seq<real>>, nodata: real, width: real, height: real,
                    meets: seq<(real, real)> -> bool, r: nat): seq<Cell>
    requires r <= |grid|
  {
    if r == 0 then []
    else RowsKept(grid, nodata, width, height, meets, r - 1) + RowKept(grid, nodata, width, height, meets, r - 1, |grid[r - 1]|)
  }

  function Reverse<T>(s: seq<T>): (r: seq<T>)
    ensures |r| == |s|
  {
    if |s| == 0 then [] else [s[|s| - 1]] + Reverse(s[..|s| - 1])
  }

  lemma {:induction false} ReverseMembership<T>(s: seq<T>, x: T)
    ensures x in Reverse(s) <==> x in s
  {
    if |s| > 0 {
      ReverseMembership(s[..|s| - 1], x);
      assert s == s[..|s| - 1] + [s[|s| - 1]];
    }
  }

  lemma {:induction false} ReverseAppend<T>(s: seq<T>, t: seq<T>)
    ensures Reverse(s + t) == Reverse(t) + Reverse(s)
  {
    if |t| == 0 {
      assert s + t == s;
    } else {
      var n := |t| - 1;
      ReverseAppend(s, t[..n]);
      assert (s + t)[..|s + t| - 1] == s + t[..n];
    }
  }

  lemma ReverseSnoc<T>(s: seq<T>, x: T)
    ensures Reverse(s + [x]) == [x] + Reverse(s)
  {
    assert (s + [x])[..|s|] == s;
  }

  /** The double loop of `raster_to_sim`. Each kept cell is spliced in at the front of
      `keepPgons`, so the list ends up in reverse row-major order. */
  method KeepCells(grid: seq<seq<real>>, nodata: real, width: real, height: real,
                   meets: seq<(real, real)> -> bool) returns (kept: seq<Cell>)
    ensures kept == Reverse(RowsKept(grid, nodata, width, height, meets, |grid|))
  {
    kept := [];
    var row := 0;
    while row < |grid|
      invariant 0 <= row <= |grid|
      invariant kept == Reverse(RowsKept(grid, nodata, width, height, meets, row))
    {
      kept := KeepRow(grid, nodata, width, height, meets, row, kept);
      ReverseAppend(RowsKept(grid, nodata, width, height, meets, row),
                    RowKept(grid, nodata, width, height, meets, row, |grid[row]|));
      row := row + 1;
    }
  }

  /** The inner loop of `raster_to_sim` over the columns of one row. */
  method KeepRow(grid: seq<seq<real>>, nodata: real, width: real, height: real,
                 meets: seq<(real, real)> -> bool, row: nat, front: seq<Cell>) returns (kept: seq<Cell>)
    requires row < |grid|
    ensures kept == Reverse(RowKept(grid, nodata, width, height, meets, row, |grid[row]|)) + front
  {
    kept := front;
    var col := 0;
    while col < |grid[row]|
      invariant 0 <= col <= |grid[row]|
      invariant kept == Reverse(RowKept(grid, nodata, width, height, meets, row, col)) + front
    {
      ghost var before := RowKept(grid, nodata, width, height, meets, row, col);
      ghost var keeps := Keeps(grid, nodata, width, height, meets, row, col);
      assert RowKept(grid, nodata, width, height, meets, row, col + 1)
             == before + if keeps then [CellAt(grid, width, height, row, col)] else [];
      if grid[row][col] != nodata {
        var dispRow := |grid| - 1 - row;
        var pos := Corners(width, height, col, dispRow);
        if meets(pos) {
          var cell := Cell(row, col, grid[row][col], pos);
          assert keeps && cell == CellAt(grid, width, height, row, col);
          ReverseSnoc(before, cell);
          kept := [cell] + kept;
          assert kept == Reverse(before + [cell]) + front;
        } else {
          assert !keeps && before + [] == before;
        }
      } else {
        assert !keeps && before + [] == before;
      }
      col := col + 1;
    }
  }

  /** Only data cells that meet the site are kept, each with its own rectangle. */
  lemma {:induction false} KeptAreData(grid: seq<seq<real>>, nodata: real, width: real, height: real,
                                       meets: seq<(real, real)> -> bool, r: nat, cell: Cell)
    requires r <= |grid|
    requires cell in RowsKept(grid, nodata, width, height, meets, r)
    ensures cell.row < r && cell.col < |grid[cell.row]|
    ensures cell == CellAt(grid, width, height, cell.row, cell.col)
    ensures cell.value != nodata && meets(cell.corners)
  {
    var front := RowsKept(grid, nodata, width, height, meets, r - 1);
    if cell in front {
      KeptAreData(grid, nodata, width, height, meets, r - 1, cell);
    } else {
      KeptInRow(grid, nodata, width, height, meets, r - 1, |grid[r - 1]|, cell);
    }
  }

  lemma {:induction false} KeptInRow(grid: seq<seq<real>>, nodata: real, width: real, height: real,
                                     meets: seq<(real, real)> -> bool, row: nat, c: nat, cell: Cell)
    requires row < |grid| && c <= |grid[row]|
    requires cell in RowKept(grid, nodata, width, height, meets, row, c)
    ensures cell.row == row && cell.col < c
    ensures cell == CellAt(grid, width, height, row, cell.col)
    ensures cell.value != nodata && meets(cell.corners)
  {
    if cell !in RowKept(grid, nodata, width, height, meets, row, c - 1) {
      assert cell == CellAt(grid, width, height, row, c - 1);
    } else {
      KeptInRow(grid, nodata, width, height, meets, row, c - 1, cell);
    }
  }

  /** Every data cell that meets the site is kept. */
  lemma {:induction false} DataIsKept(grid: seq<seq<real>>, nodata: real, width: real, height: real,
                                      meets: seq<(real, real)> -> bool, r: nat, row: nat, col: nat)
    requires r <= |grid| && row < r && col < |grid[row]|
    requires Keeps(grid, nodata, width, height, meets, row, col)
    ensures CellAt(grid, width, height, row, col) in RowsKept(grid, nodata, width, height, meets, r)
  {
    if row < r - 1 {
      DataIsKept(grid, nodata, width, height, meets, r - 1, row, col);
    } else {
      DataIsKeptInRow(grid, nodata, width, height, meets, row, |grid[row]|, col);
    }
  }

  lemma {:induction false} DataIsKeptInRow(grid: seq<seq<real>>, nodata: real, width: real, height: real,
                                           meets: seq<(real, real)> -> bool, row: nat, c: nat, col: nat)
    requires row < |grid| && c <= |grid[row]| && col < c
    requires Keeps(grid, nodata, width, height, meets, row, col)
    ensures CellAt(grid, width, height, row, col) in RowKept(grid, nodata, width, height, meets, row, c)
  {
    if col < c - 1 {
      DataIsKeptInRow(grid, nodata, width, height, meets, row, c - 1, col);
    }
  }

  /** The result of `KeepCells` holds exactly the data cells whose rectangle meets the site. */
  lemma KeptExactly(grid: seq<seq<real>>, nodata: real, width: real, height: real,
                    meets: seq<(real, real)> -> bool, cell: Cell)
    ensures cell in Reverse(RowsKept(grid, nodata, width, height, meets, |grid|))
            <==> cell.row < |grid| && cell.col < |grid[cell.row]|
                 && cell == CellAt(grid, width, height, cell.row, cell.col)
                 && Keeps(grid, nodata, width, height, meets, cell.row, cell.col)
  {
    ReverseMembership(RowsKept(grid, nodata, width, height, meets, |grid|), cell);
    if cell in RowsKept(grid, nodata, width, height, meets, |grid|) {
      KeptAreData(grid, nodata, width, height, meets, |grid|, cell);
    } else if cell.row < |grid| && cell.col < |grid[cell.row]| && Keeps(grid, nodata, width, height, meets, cell.row, cell.col) {
      DataIsKept(grid, nodata, width, height, meets, |grid|, cell.row, cell.col);
    }
  }

  /** A point strictly inside a cell rectangle. */
  predicate Inside(p: (real, real), corners: seq<(real, real)>)
    requires |corners| == 4
  {
    corners[0].0 < p.0 < corners[1].0 && corners[0].1 < p.1 < corners[2].1
  }

  /** The rectangles of different grid positions do not overlap (for a positive cell size). */
  lemma CellsDisjoint(width: real, height: real, c1: nat, d1: nat, c2: nat, d2: nat, p: (real, real))
    requires width > 0.0 && height > 0.0 && (c1, d1) != (c2, d2)
    ensures !(Inside(p, Corners(width, height, c1, d1)) && Inside(p, Corners(width, height, c2, d2)))
  {
    if Inside(p, Corners(width, height, c1, d1)) && Inside(p, Corners(width, height, c2, d2)) {
      SameSlot(width, c1, c2, p.0);
      SameSlot(height, d1, d2, p.1);
    }
  }

  /** A coordinate strictly inside two slots of a grid of spacing s is in the same slot. */
  lemma SameSlot(s: real, a: nat, b: nat, x: real)
    requires s > 0.0
    requires s * a as real < x < s * (a + 1) as real && s * b as real < x < s * (b + 1) as real
    ensures a == b
  {
    ScaledBelow(s, a as real, (b + 1) as real, x);
    ScaledBelow(s, b as real, (a + 1) as real, x);
  }

  lemma ScaledBelow(s: real, p: real, q: real, x: real)
    requires s > 0.0 && s * p < x && x < s * q
    ensures p < q
  {
    MulMonotone(p, q, s);
    assert s * p == p * s && s * q == q * s;
  }

  /** The rows are flipped: distinct raster rows are drawn at distinct display rows, the
      first at the top and the last at the bottom. */
  lemma DisplayRows(grid: seq<seq<real>>, width: real, height: real, r1: nat, r2: nat, col1: nat, col2: nat)
    requires r1 < |grid| && col1 < |grid[r1]| && r2 < |grid| && col2 < |grid[r2]|
    requires width > 0.0 && height > 0.0
    ensures CellAt(grid, width, height, r1, col1).corners[0].1 == height * (|grid| - 1 - r1) as real
    ensures r1 < r2 ==> CellAt(grid, width, height, r2, col2).corners[2].1 <= CellAt(grid, width, height, r1, col1).corners[0].1
  {
    if r1 < r2 {
      var d1, d2 := |grid| - 1 - r1, |grid| - 1 - r2;
      assert d2 + 1 <= d1;
      if d2 + 1 < d1 {
        MulMonotone((d2 + 1) as real, d1 as real, height);
      }
    }
  }

  // ---------------------------------------------------------------------------------------------
  // The colour range of a shapefile result

  /** `range[1]` after the loop: the largest of `col_range[0]` and the kept values. */
  function MaxOf(lo: real, values: seq<real>): real {
    if |values| == 0 then lo else Max(values[|values| - 1], MaxOf(lo, values[..|values| - 1]))
  }

  /** The shapefile branch's loop over the kept polygons: `range[1] = Math.max(v, range[1])`. */
  method ShpRange(colRange: (real, real), values: seq<real>) returns (range: (real, real))
    ensures range == (colRange.0, MaxOf(colRange.0, values))
  {
    range := (colRange.0, colRange.0);
    var k := 0;
    while k < |values|
      invariant 0 <= k <= |values|
      invariant range == (colRange.0, MaxOf(colRange.0, values[..k]))
    {
      assert values[..k + 1][..k] == values[..k];
      range := (range.0, Max(values[k], range.1));
      k := k + 1;
    }
    assert values[..k] == values;
  }

  /** The range starts at `col_range[0]` and ends at the largest value (or at `col_range[0]`
      when no value exceeds it), so it covers every value above its start. */
  lemma {:induction false} MaxOfProperties(lo: real, values: seq<real>)
    ensures MaxOf(lo, values) >= lo
    ensures forall k :: 0 <= k < |values| ==> values[k] <= MaxOf(lo, values)
    ensures MaxOf(lo, values) == lo || exists k :: 0 <= k < |values| && MaxOf(lo, values) == values[k]
  {
    if |values| > 0 {
      var n := |values| - 1;
      MaxOfProperties(lo, values[..n]);
      assert forall k :: 0 <= k < n ==> values[..n][k] == values[k];
      if MaxOf(lo, values) != lo && MaxOf(lo, values) != values[n] {
        var k :| 0 <= k < n && MaxOf(lo, values[..n]) == values[..n][k];
        assert MaxOf(lo, values) == values[k];
      }
    }
  }

  // ---------------------------------------------------------------------------------------------
  // The UHI increment

  /** `Math.round((-6.51 * Σ values / values.length + 7.13) * 10) / 10`; NaN for no values. */
  function RasterUhii(values: seq<real>): JsNum {
    if |values| == 0 then NaN
    else Num(RoundTenth(-6.51 * SumOf(values) / |values| as real + 7.13))
  }

  lemma {:induction false} SumBetween(values: seq<real>, lo: real, hi: real)
    requires forall k :: 0 <= k < |values| ==> lo <= values[k] <= hi
    ensures lo * |values| as real <= SumOf(values) <= hi * |values| as real
  {
    if |values| > 0 {
      var n := |values| - 1;
      assert forall k :: 0 <= k < n ==> values[..n][k] == values[k];
      SumBetween(values[..n], lo, hi);
      assert lo * |values| as real == lo * n as real + lo;
      assert hi * |values| as real == hi * n as real + hi;
    }
  }

  /** The increment is the UHI regression of the mean value, to one decimal place; for
      values in [0, 1] it lies within 0.05 of [0.62, 7.13]. */
  lemma RasterUhiiIsRegressionOfMean(values: seq<real>)
    requires |values| > 0
    ensures RasterUhii(values) == Num(RoundTenth(Execute.Uhi(SumOf(values) / |values| as real)))
    ensures (forall k :: 0 <= k < |values| ==> 0.0 <= values[k] <= 1.0) ==>
              0.57 < RasterUhii(values).value <= 7.18
  {
    var n := |values| as real;
    var s := SumOf(values);
    MeanRegression(s, n);
    if forall k :: 0 <= k < |values| ==> 0.0 <= values[k] <= 1.0 {
      SumBetween(values, 0.0, 1.0);
      DivBetween(s, n, 0.0, 1.0);
      RoundedUhiBounds(s / n);
    }
  }

  lemma MeanRegression(s: real, n: real)
    requires n > 0.0
    ensures -6.51 * s / n + 7.13 == Execute.Uhi(s / n)
  {
    assert -6.51 * s / n == -6.51 * (s / n);
  }

  lemma RoundedUhiBounds(m: real)
    requires 0.0 <= m <= 1.0
    ensures 0.57 < RoundTenth(Execute.Uhi(m)) <= 7.18
  {
    Execute.UhiProperties(m, m);
  }

  // ---------------------------------------------------------------------------------------------
  // `raster_to_sim` as a whole

  /** The values attached to the kept polygons. */
  function ValuesOf(cells: seq<Cell>): (r: seq<real>)
    ensures |r| == |cells| && forall k :: 0 <= k < |cells| ==> r[k] == cells[k].value
  {
    if |cells| == 0 then [] else ValuesOf(cells[..|cells| - 1]) + [cells[|cells| - 1].value]
  }

  /** What `raster_to_sim` hands back besides the model: for a shapefile result the kept cells
      with the widened colour range, otherwise the kept cells with the UHI increment. */
  datatype RasterResult =
    | ShpResult(cells: seq<Cell>, range: (real, real))
    | UhiResult(cells: seq<Cell>, uhii: JsNum)

  /** `raster_to_sim` on the projected extent corners. */
  method RasterToSim(grid: seq<seq<real>>, nodata: real, bottomLeft: (real, real), topRight: (real, real),
                     meets: seq<(real, real)> -> bool, isShp: bool, colRange: (real, real))
    returns (r: Option<RasterResult>)
    ensures r.None? <==> CellSize(bottomLeft, topRight, grid).None?
    ensures r.Some? ==>
      var size := CellSize(bottomLeft, topRight, grid).value;
      var kept := Reverse(RowsKept(grid, nodata, size.0, size.1, meets, |grid|));
      r.value == if isShp then ShpResult(kept, (colRange.0, MaxOf(colRange.0, ValuesOf(kept))))
                 else UhiResult(kept, RasterUhii(ValuesOf(kept)))
  {
    var size := CellSize(bottomLeft, topRight, grid);
    if size.None? {
      return None;
    }
    var kept := KeepCells(grid, nodata, size.value.0, size.value.1, meets);
    if isShp {
      var range := ShpRange(colRange, ValuesOf(kept));
      r := Some(ShpResult(kept, range));
    } else {
      r := Some(UhiResult(kept, RasterUhii(ValuesOf(kept))));
    }
  }

  // ---------------------------------------------------------------------------------------------
  // `raster_to_sim_sky`

  /** The cells of the raster in row-major order. */
  function Flatten(grid: seq<seq<real>>): seq<real> {
    if |grid| == 0 then [] else Flatten(grid[..|grid| - 1]) + grid[|grid| - 1]
  }

  /** `colorVal = [v * 20 + 235, v * 145 + 110, v * 255]`: the ramp of the sky canvas. */
  function SkyColour(v: real): (real, real, real) {
    (v * 20.0 + 235.0, v * 145.0 + 110.0, v * 255.0)
  }

  /** The ramp runs from #EB6E00 at 0 to white at 1, every channel growing with v and staying
      in [0, 255] for v in [0, 1]. */
  lemma SkyRamp(v: real, w: real)
    ensures SkyColour(0.0) == (235.0, 110.0, 0.0) && SkyColour(1.0) == (255.0, 255.0, 255.0)
    ensures Heatmap.HexBytes([235, 110, 0]) == "eb6e00"
    ensures v < w ==> SkyColour(v).0 < SkyColour(w).0 && SkyColour(v).1 < SkyColour(w).1 && SkyColour(v).2 < SkyColour(w).2
    ensures 0.0 <= v <= 1.0 ==>
              235.0 <= SkyColour(v).0 <= 255.0 && 110.0 <= SkyColour(v).1 <= 255.0 && 0.0 <= SkyColour(v).2 <= 255.0
  {
    OrangeHex();
  }

  /** #EB6E00 is the colour of the bytes (235, 110, 0). */
  lemma OrangeHex()
    ensures Heatmap.HexBytes([235, 110, 0]) == "eb6e00"
  {
    var cs := Heatmap.Channels([235, 110, 0]);
    assert cs == ["eb", "6e", "00"] by {
      assert Heatmap.ByteHex(235) == "eb" by {
        assert Heatmap.HexNat(14) == "e";
      }
      assert Heatmap.ByteHex(110) == "6e" by {
        assert Heatmap.HexNat(6) == "6";
      }
      assert Heatmap.ByteHex(0) == "00";
    }
    assert cs[..2] == ["eb", "6e"] && cs[..2][..1] == ["eb"] && cs[..2][..1][..0] == [];
    assert Heatmap.Join(cs[..2][..1]) == "eb";
    assert Heatmap.Join(cs[..2]) == "eb6e";
  }

  /** The double loop of `raster_to_sim_sky`: every cell's value is collected in row-major
      order (no-data cells included) and painted with the ramp. */
  method SkyCells(grid: seq<seq<real>>) returns (values: seq<real>, colours: seq<(real, real, real)>)
    ensures values == Flatten(grid)
    ensures |colours| == |values| && forall k :: 0 <= k < |values| ==> colours[k] == SkyColour(values[k])
  {
    values, colours := [], [];
    var i := 0;
    while i < |grid|
      invariant 0 <= i <= |grid|
      invariant values == Flatten(grid[..i])
      invariant |colours| == |values| && forall k :: 0 <= k < |values| ==> colours[k] == SkyColour(values[k])
    {
      var j := 0;
      while j < |grid[i]|
        invariant 0 <= j <= |grid[i]|
        invariant values == Flatten(grid[..i]) + grid[i][..j]
        invariant |colours| == |values| && forall k :: 0 <= k < |values| ==> colours[k] == SkyColour(values[k])
      {
        var v := grid[i][j];
        assert grid[i][..j + 1] == grid[i][..j] + [v];
        values := values + [v];
        colours := colours + [SkyColour(v)];
        j := j + 1;
      }
      assert grid[i][..j] == grid[i];
      assert grid[..i + 1][..i] == grid[..i];
      i := i + 1;
    }
    assert grid[..i] == grid;
  }

  /** The sky conversion: the painted cells and the UHI increment of all cells. An empty
      raster has no first row to size the canvas by, and the conversion throws (None). */
  method RasterToSimSky(grid: seq<seq<real>>) returns (r: Option<(seq<(real, real, real)>, JsNum)>)
    ensures r.None? <==> |grid| == 0
    ensures r.Some? ==> |r.value.0| == |Flatten(grid)|
    ensures r.Some? ==> forall k :: 0 <= k < |r.value.0| ==> r.value.0[k] == SkyColour(Flatten(grid)[k])
    ensures r.Some? ==> r.value.1 == RasterUhii(Flatten(grid))
  {
    if |grid| == 0 {
      return None;
    }
    var values, colours := SkyCells(grid);
    r := Some((colours, RasterUhii(values)));
  }
}
