# UCDL simulation: a Dafny model of the scoring engine

This project models the scoring engine of the UCDL urban-climate simulation viewer. It covers:
- **Tiles and their files.** The city is cut into 500 m tiles. A tile's model file is named
  `data_<x>_<y>.sim`, with zero-padded coordinates.
- **Analyses.** Each tile, or an uploaded site, is evaluated for solar exposure, sky exposure,
  urban heat island (UHI) and wind permeability.
- **Scoring.** Each analysis scores the sensor polygons against a desirable range:
  - `des_area` is the area of the sensors inside the range;
  - `score` is its percentage of the total sensor area.
- **Batch scripts.** These bucket the building footprints into tiles with their eight
  neighbours, run one analysis per tile, and paint the results into one heat-map image.
- **Raster results.** Results from the Python services are converted into polygons.
- **Uploaded massing models.** These are classified and read.

Each source file is one module:

| module | source |
|---|---|
| `Js` | JavaScript runtime behaviour the code relies on: `undefined`/`NaN` (`JsNum`), truthiness, `Number()`, `parseFloat`, `split`, `toString`, `Math.round` |
| `Tiles` | tile size, `fillString`, the tile file names and the `x__y` tile keys |
| `Wind` | `analyze_wind.js`: argument normalisation, direction fans, the accumulation over sensors, layers, sectors and rays |
| `SimShared` | `sim_shared.js`: error checks, sensor selection, `calcScore`, `crossSensPgons`, `calcUHI`, `getRoads`, `getVisPosis` |
| `Execute` | `sim_execute.js` and `genScript/sim_execute_single.js`: settings, desirable ranges, the four evaluations, the bounding box, the tile window and the station choice, run dispatch |
| `ReadShp` | `genScript/readshp.js`: the tile index (a class over the `geom` map), the 3×3 gathering, the output paths |
| `Heatmap` | `genScript/result_to_heatmap.js`: the canvas geometry, pixel placement, the RGB→hex colour |
| `Raster` | `sim_convert_py_result.js`: the extent, the kept cell rectangles, the colour range, the UHI increment, the sky ramp |
| `Massing` | `viewer.readMassingFile.ts`: upload classification, reader dispatch, the scene-to-triangles walk, the reprojection flag, the extent, the roof/wall split, the height fallback |

Some code changes state step by step. That code is written as methods with loops, each
proved equal to a specification function. The properties are then proved about that
function:
- the accumulation loops (score, UHI mean, wind);
- the tile window;
- the tile-index class;
- the raster double loops;
- the upload loop.

Library and oracle inputs:
- **Geometry kernel.** The results of mobius-sim (`analyze.Sun`/`Sky`, `calc.Area`,
  `calc.Normal`, `poly2d.Boolean`) are inputs.
- **Raycaster.** three.js's raycaster is an oracle `cast(origin, dir)`, giving no hit or a
  distance within `[near, far]`.
- **Trigonometry and projections.** `Math.sin`/`Math.cos` and the proj4 projections are
  function parameters or inputs.

## Model

| member | source | states |
|---|---|---|
| Tiles.FillString | src/app/viewer/simulation-js/sim_execute.js:79-86 | A coordinate below 100000 in magnitude is written as five zero-padded digits, with a leading '-' when negative; the output holds only digits and '-' |
| Tiles.FillStringNumber | genScript/readshp.js:50-57 | Reading a padded coordinate back with `Number` gives the coordinate |
| Tiles.FillStringTruncates | src/app/viewer/simulation-js/sim_execute.js:79-86 | Only the last five characters are kept, so 100000 is written like 0, as "00000" |
| Tiles.SimFileNameRoundTrip | genScript/sim_execute_single.js:220 | Parsing `data_<x>_<y>.sim` by splitting on `.sim`, `data_` and `_` gives back [x, y] |
| Tiles.ResultFileNameRoundTrip | genScript/result_to_heatmap.js:159 | `file.slice(5, -4).split('_')` of a tile file name gives back [x, y] |
| Tiles.TileKeyRoundTrip | genScript/readshp.js:65 | Splitting an `x__y` tile key on `__` gives back [x, y] |
| Tiles.TileKeyInjective | genScript/readshp.js:119 | Different tiles have different keys |
| Wind.NormaliseRadius | src/app/viewer/simulation-js/analyze_wind.js:38 | A scalar radius r becomes [1, r]; a list is kept |
| Wind.NormaliseLayers | src/app/viewer/simulation-js/analyze_wind.js:39-40 | A scalar L becomes [0, L, 1]; a pair [a, b] becomes [a, b, 1]; other lists are kept |
| Wind.NormaliseIdempotent | src/app/viewer/simulation-js/analyze_wind.js:38-40 | Normalising normalised arguments changes nothing |
| Wind.WindVecs | src/app/viewer/simulation-js/analyze_wind.js:149-167 | The loop builds one fan of `num_vecs` directions per wind-rose sector |
| Wind.FansHorizontal | src/app/viewer/simulation-js/analyze_wind.js:160 | Every direction vector has z = 0 |
| Wind.FanStep | src/app/viewer/simulation-js/analyze_wind.js:151-159 | Within a sector consecutive angles differ by `ang_inc = wind_ang / num_vecs` |
| Wind.FanEndsAndSymmetry | src/app/viewer/simulation-js/analyze_wind.js:151-159 | The first and last angles sit half a step inside the sector's edges, and the fan is symmetric about the sector's centre |
| Wind.LayerIterationsExact | src/app/viewer/simulation-js/analyze_wind.js:81 | The layer loop visits exactly the heights start + k·step below end |
| Wind.CalcWind | src/app/viewer/simulation-js/analyze_wind.js:59-147 | One result per sensor, in sensor order, each the sum over layers, sectors and rays of the specification |
| Wind.SensorWind | src/app/viewer/simulation-js/analyze_wind.js:76-119 | The per-sensor nested loops compute that sensor's sum |
| Wind.LayerWind | src/app/viewer/simulation-js/analyze_wind.js:88-116 | One height layer adds exactly that layer's sum over every wind direction to the running result |
| Wind.SectorWind | src/app/viewer/simulation-js/analyze_wind.js:89-115 | One wind direction adds its weight for each unobstructed vector and weight × hit distance / radius for each blocked one, skipping vectors behind the sensor |
| Wind.Wind | src/app/viewer/simulation-js/analyze_wind.js:28-57 | `Wind` normalises its arguments, casts `num_rays + 1` directions per sector, and divides by `Math.round((end - start) / step)` |
| Wind.TermBounds | src/app/viewer/simulation-js/analyze_wind.js:93-111 | A culled ray adds 0, a miss adds the full weight, and a hit adds a share of it in [0, weight] |
| Wind.SectorSumBounds | src/app/viewer/simulation-js/analyze_wind.js:89-112 | A sector adds between 0 and its rays times the weight |
| Wind.LayerSumBounds | src/app/viewer/simulation-js/analyze_wind.js:83-115 | A layer adds between 0 and the rose total over the divisor |
| Wind.SensorSumBounds | src/app/viewer/simulation-js/analyze_wind.js:76-119 | A sensor's value lies between 0 and (layers visited) × (rose total) / divisor |
| Wind.OpenSensorSum | src/app/viewer/simulation-js/analyze_wind.js:100-103 | With no obstruction and no culling, a sensor's value is exactly (layers visited) × (rose total) / divisor |
| Wind.UpwardSensorUnculled | src/app/viewer/simulation-js/analyze_wind.js:93-94 | A sensor facing straight up culls no horizontal direction |
| Wind.LayerCountMismatch | src/app/viewer/simulation-js/analyze_wind.js:70 | For layers [1, 18, 4] the loop visits 5 layers but the divisor is 4 |
| Wind.OpenSensorOverCounted | src/app/viewer/simulation-js/analyze_wind.js:70 | As written, an open upward ground sensor scores 1.25 × the rose total |
| Wind.WindCorrected | src/app/viewer/simulation-js/analyze_wind.js:28-57 | `Wind` with the divisor set to the number of layers the loop visits |
| Wind.CorrectedConserves | src/app/viewer/simulation-js/analyze_wind.js:59-147 | With that divisor an open, unculled sensor scores exactly the rose total |
| SimShared.CheckBeforeSim | src/app/viewer/simulation-js/sim_shared.js:62-70 | Fails exactly when there are no sensor rays or no obstructions, with the counts in the message |
| SimShared.CheckAfterSim | src/app/viewer/simulation-js/sim_shared.js:78-92 | Fails exactly when the results are missing or their count differs from the number of rays |
| SimShared.OfType | src/app/viewer/simulation-js/sim_shared.js:173-187 | Keeps exactly the polygons of the given type |
| SimShared.Obstructions | src/app/viewer/simulation-js/sim_shared.js:173-187 | Keeps exactly the obstruction polygons |
| SimShared.GetSensorPgons | src/app/viewer/simulation-js/sim_shared.js:173-187 | Succeeds, with the sensors of the type, exactly when their count equals the number of values; otherwise it reports both counts |
| SimShared.CalcScore | src/app/viewer/simulation-js/sim_shared.js:226-242 | The loop sums the desirable and undesirable areas; the score is the desirable percentage of their total |
| SimShared.AreaPartition | src/app/viewer/simulation-js/sim_shared.js:231-239 | Desirable plus undesirable area is the total sensor area |
| SimShared.AreasNonNegative | src/app/viewer/simulation-js/sim_shared.js:231-239 | Both areas are non-negative for non-negative polygon areas |
| SimShared.ScoreBounds | src/app/viewer/simulation-js/sim_shared.js:240 | For a positive total area the score is a number in [0, 100] |
| SimShared.AllDesirableArea | src/app/viewer/simulation-js/sim_shared.js:231-239 | When every value is in range, the whole area is desirable |
| SimShared.AllDesirableScore | src/app/viewer/simulation-js/sim_shared.js:240 | Then the score is 100 |
| SimShared.UndefinedRangeAllDesirable | src/app/viewer/simulation-js/sim_shared.js:234 | An undefined range (facade UHI and wind) makes every sensor desirable |
| SimShared.WideningMonotone | src/app/viewer/simulation-js/sim_shared.js:231-239 | Widening the range never lowers the desirable area |
| SimShared.CrossedAscending | src/app/viewer/simulation-js/sim_shared.js:198-213 | The crossed indices are below the polygon count and strictly ascending |
| SimShared.CrossedMembership | src/app/viewer/simulation-js/sim_shared.js:203 | An index is crossed exactly when its value is out of range |
| SimShared.CrossSensPgons | src/app/viewer/simulation-js/sim_shared.js:198-213 | The loop collects exactly those indices, in order |
| SimShared.CrossedAreIndesirable | src/app/viewer/simulation-js/sim_shared.js:198-242 | The crossed polygons' areas add up to the undesirable area |
| SimShared.CalcUHI | src/app/viewer/simulation-js/sim_shared.js:254-265 | The loop computes the area-weighted mean of the values (NaN for zero total area) |
| SimShared.MeanBetween | src/app/viewer/simulation-js/sim_shared.js:254-265 | The mean lies between the smallest and largest possible values |
| SimShared.ConstantMean | src/app/viewer/simulation-js/sim_shared.js:254-265 | The mean of a constant is that constant |
| SimShared.Roads | src/app/viewer/simulation-js/sim_shared.js:274-288 | Keeps exactly the polylines whose type starts with `road` |
| SimShared.GetRoads | src/app/viewer/simulation-js/sim_shared.js:274-288 | Returns the roads in order, each with the noise level parsed from its type name |
| SimShared.RoadNoise | src/app/viewer/simulation-js/sim_shared.js:283 | `road_<n>` is a road with noise level n |
| SimShared.DedupProperties | src/app/viewer/simulation-js/sim_shared.js:298-316 | Deduplication keeps every element once and adds nothing |
| SimShared.DedupAdd | src/app/viewer/simulation-js/sim_shared.js:304 | `Set.prototype.add` on the insertion-ordered set: a position is appended exactly when it is not yet a member |
| SimShared.DedupMember | src/app/viewer/simulation-js/sim_shared.js:299-315 | A position is in the set exactly when it was added |
| SimShared.AddAll | src/app/viewer/simulation-js/sim_shared.js:303-305 | Adding positions to the seen set extends the deduplicated list |
| SimShared.GetVisPosis | src/app/viewer/simulation-js/sim_shared.js:298-316 | The visible positions are all positions of polygons and polylines, each once, in first-seen order |
| Execute.GroundRanges | src/app/viewer/simulation-js/sim_execute.js:30-59 | Ground desirable ranges: solar [0, 50], sky [50, 100], UHI [0, 4], wind [60, 100] |
| Execute.FacadeRanges | src/app/viewer/simulation-js/sim_execute.js:30-59 | Facade ranges: solar [0, 50], sky [50, 100]; UHI and wind undefined |
| Execute.FirstLetterOnly | src/app/viewer/simulation-js/sim_execute.js:102 | The range depends only on the first letter of the sensor type |
| Execute.Percent | src/app/viewer/simulation-js/sim_execute.js:99 | `min(max(v / max_val, 0), 1) * 100` lies in [0, 100], is 0 at or below 0 and 100 at or above max_val |
| Execute.PercentMonotone | src/app/viewer/simulation-js/sim_execute.js:99 | That mapping is monotone |
| Execute.UhiProperties | src/app/viewer/simulation-js/sim_execute.js:158 | `-6.51 v + 7.13` is 7.13 at 0 and 0.62 at 1, strictly decreasing, within [0.62, 7.13] on [0, 1] |
| Execute.WindPercent | src/app/viewer/simulation-js/sim_execute.js:193 | Wind values are clamped percentages of 1 |
| Execute.MapPercent | src/app/viewer/simulation-js/sim_execute.js:127 | Element-wise clamped percentages, each in [0, 100] |
| Execute.MapUhi | src/app/viewer/simulation-js/sim_execute.js:158 | Element-wise UHI regression |
| Execute.SkyUhiiIsRegressionOfMean | src/app/viewer/simulation-js/sim_execute.js:132 | The sky UHII is the UHI regression of the mean sky percentage / 100, to one decimal |
| Execute.CheckAndScore | src/app/viewer/simulation-js/sim_execute.js:98-102 | Fails with the after-simulation error exactly when counts differ; otherwise scores |
| Execute.EvalSolar | src/app/viewer/simulation-js/sim_execute.js:88-115 | Error cases in order, then facade-normalised percentages scored against the solar range |
| Execute.EvalSky | src/app/viewer/simulation-js/sim_execute.js:116-146 | As solar with the sky range, plus the site UHII |
| Execute.EvalUhi | src/app/viewer/simulation-js/sim_execute.js:148-177 | UHI values, the UHI range and the area-weighted mean |
| Execute.EvalWind | src/app/viewer/simulation-js/sim_execute.js:178-209 | Ground sensors only; walkways are not obstructions; clamped percentages against the wind range |
| Execute.WalkwaysOnlyFailsWind | src/app/viewer/simulation-js/sim_execute.js:188 | A site whose only obstructions are walkways has none left for wind |
| Execute.NotOfType | src/app/viewer/simulation-js/sim_execute.js:188 | Keeps exactly the polygons not of the type |
| Execute.BBox | src/app/viewer/simulation-js/sim_execute.js:257-267 | The loop computes the componentwise min and max from ±99999 |
| Execute.BBoxContains | src/app/viewer/simulation-js/sim_execute.js:257-267 | Every point lies in the box, so a non-empty site has min <= max on both axes |
| Execute.BBoxAttained | src/app/viewer/simulation-js/sim_execute.js:257-267 | Within ±99999 the x bounds are coordinates of actual points: the ±99999 start values never survive |
| Execute.TileWindow | src/app/viewer/simulation-js/sim_execute.js:272-283 | The URLs of the window's tiles around the box, in row-major order |
| Execute.RowUrls | src/app/viewer/simulation-js/sim_execute.js:273-282 | The inner loop: the URLs of one row's tiles, column by column |
| Execute.RowMembers | src/app/viewer/simulation-js/sim_execute.js:273-282 | A row holds exactly its columns, ascending |
| Execute.WindowMembers | src/app/viewer/simulation-js/sim_execute.js:272-283 | The window holds exactly the tiles in its ranges, in ascending row-major order |
| Execute.SelectStation | genScript/sim_execute_single.js:218-230 | The loop picks the station the `!dist2 \|\| dist2 > d` rule picks |
| Execute.SelectsFirstNearest | genScript/sim_execute_single.js:222-230 | With no zero distance, it picks the first nearest station |
| Execute.ZeroDistanceReplaced | genScript/sim_execute_single.js:226 | A current best at distance 0 counts as unset and is replaced |
| Execute.FirstStationTaken | genScript/sim_execute_single.js:218-230 | The first station is always taken |
| Execute.CornerNearest | genScript/sim_execute_single.js:222-230 | In the two-station example, station A is at distance 0 and so the nearest |
| Execute.ZeroDistanceExample | genScript/sim_execute_single.js:226 | Yet the loop picks station B |
| Execute.NaNSelectsLast | src/app/viewer/simulation-js/sim_execute.js:320-329 | With NaN distances (the browser subtracts an array) the last station is picked |
| Execute.SelectNearestStation | src/app/viewer/simulation-js/sim_execute.js:320-329 | The corrected choice: the first nearest station, S24 when there is none |
| Execute.Run | genScript/sim_execute_single.js:185-254 | Dispatch on the analysis type over the ground sensors: solar writes its raw result, sky, uhi and wind export the model (wind with the station the file name selects), a file name without `data_` fails before evaluating, a failed check before or after the simulation fails the run with that error, and any other type produces nothing |
| ReadShp.Corner | genScript/readshp.js:116 | The tile corner is the multiple of 500 at or below the coordinate |
| ReadShp.Nine | genScript/readshp.js:117-124 | Nine keys with the feature's own tile in the middle |
| ReadShp.NineAt | genScript/readshp.js:117-124 | Key (i, j) is the tile offset by (i·500, j·500) |
| ReadShp.NineMembership | genScript/readshp.js:117-124 | A key is among the nine exactly when it is a tile corner within one tile in each direction |
| ReadShp.TileIndex.constructor | genScript/readshp.js:102 | The index starts empty |
| ReadShp.TileIndex.Add | genScript/readshp.js:116-125 | Adding a feature creates its nine keys (empty if new) and appends it to its own tile only |
| ReadShp.TileIndex.CreateBlock | genScript/readshp.js:117-124 | Creates missing keys of the nine as empty lists, leaving existing ones |
| ReadShp.BucketMembership | genScript/readshp.js:125 | A tile's list holds exactly the features in that tile |
| ReadShp.KeysNearFeatures | genScript/readshp.js:117-124 | A key exists exactly when it neighbours some feature's tile; keys are multiples of 500 |
| ReadShp.BucketsGrow | genScript/readshp.js:104-126 | Reading more features only extends lists and keys |
| ReadShp.ReadFeatures | genScript/readshp.js:104-126 | The read loop builds a valid index of all features |
| ReadShp.Gather | genScript/readshp.js:67-73 | The gather loop concatenates the nine tiles' lists |
| ReadShp.GatheredMembership | genScript/readshp.js:67-73 | The gathered features are exactly those whose tile is among the keys |
| ReadShp.TileModelContents | genScript/readshp.js:58-99 | A tile's model holds exactly the features within one tile of it |
| ReadShp.ProcessData | genScript/readshp.js:58-99 | Writes `src/assets/simdata/data_<x>_<y>.sim` with the gathered features |
| ReadShp.ProcessAll | genScript/readshp.js:128-133 | One output per key |
| ReadShp.ReadSource | genScript/readshp.js:101-134 | Reading then processing produces one model per key, each with its neighbourhood |
| Heatmap.TileOriginOnGrid | genScript/result_to_heatmap.js:39-41 | The canvas is the box / 10; a tile's pixel origin is on the 50-pixel grid and inside the canvas for tiles in the box |
| Heatmap.PgonNumberOfId | genScript/result_to_heatmap.js:170 | `Number(id.split('pg')[1])` of `pg<n>` is n |
| Heatmap.PolygonOffsetInjective | genScript/result_to_heatmap.js:171-172 | Polygons 0..2499 get distinct offsets within a 50 × 50 block |
| Heatmap.PixelsDistinct | genScript/result_to_heatmap.js:160-172 | Different (tile, polygon) pairs paint different pixels |
| Heatmap.HexNatValue | genScript/result_to_heatmap.js:178-180 | `toString(16)` reads back as the number |
| Heatmap.ByteHexRoundTrip | genScript/result_to_heatmap.js:177-180 | A channel is written as two hex digits that read back as the channel |
| Heatmap.ChannelBytes | genScript/result_to_heatmap.js:177 | Channels in [0, 1] round into [0, 255] |
| Heatmap.ColourRoundTrip | genScript/result_to_heatmap.js:176-182 | The colour is '#' plus two digits per channel and decodes to the rounded channels |
| Heatmap.HexBytesRoundTrip | genScript/result_to_heatmap.js:176-182 | The hex digits decode pairwise to the bytes |
| Raster.ExtentPositional | src/app/viewer/simulation-js/sim_convert_py_result.js:31-37 | The fields of the extent string are left, bottom, right, top |
| Raster.ExtentRoundTrip | src/app/viewer/simulation-js/sim_convert_py_result.js:31-37 | An extent written from integers reads back exactly |
| Raster.CellSize | src/app/viewer/simulation-js/sim_convert_py_result.js:43-44 | Cell width × columns and height × rows span the extent; both positive for a proper extent |
| Raster.KeepCells | src/app/viewer/simulation-js/sim_convert_py_result.js:63-81 | The loop keeps the cells in reverse row-major order, because it prepends |
| Raster.KeepRow | src/app/viewer/simulation-js/sim_convert_py_result.js:65-80 | The inner loop prepends the kept cells of one row |
| Raster.KeptAreData | src/app/viewer/simulation-js/sim_convert_py_result.js:66-77 | A kept cell is a data cell meeting the site, with its own rectangle |
| Raster.DataIsKept | src/app/viewer/simulation-js/sim_convert_py_result.js:66-77 | Every data cell meeting the site is kept |
| Raster.KeptExactly | src/app/viewer/simulation-js/sim_convert_py_result.js:63-81 | The result holds exactly those cells |
| Raster.CellsDisjoint | src/app/viewer/simulation-js/sim_convert_py_result.js:67-72 | Rectangles of distinct positions do not overlap |
| Raster.DisplayRows | src/app/viewer/simulation-js/sim_convert_py_result.js:64 | Row r is drawn at n-1-r, so later rows are drawn below earlier ones |
| Raster.ShpRange | src/app/viewer/simulation-js/sim_convert_py_result.js:82-89 | The loop's range runs from `col_range[0]` to the running maximum |
| Raster.MaxOfProperties | src/app/viewer/simulation-js/sim_convert_py_result.js:89 | That maximum bounds every value and is the start or some value |
| Raster.RasterUhiiIsRegressionOfMean | src/app/viewer/simulation-js/sim_convert_py_result.js:102-103 | The UHII is the regression of the mean, to one decimal; within 0.05 of [0.62, 7.13] for values in [0, 1] |
| Raster.ValuesOf | src/app/viewer/simulation-js/sim_convert_py_result.js:101 | The kept polygons' values, in order |
| Raster.RasterToSim | src/app/viewer/simulation-js/sim_convert_py_result.js:28-108 | Shapefile results get the widened range; others the UHII of the kept values |
| Raster.SkyRamp | src/app/viewer/simulation-js/sim_convert_py_result.js:159 | The ramp runs from #EB6E00 (hex `eb6e00`) to white, increasing, within [0, 255] |
| Raster.SkyCells | src/app/viewer/simulation-js/sim_convert_py_result.js:154-167 | All cells in row-major order, each painted with the ramp |
| Raster.RasterToSimSky | src/app/viewer/simulation-js/sim_convert_py_result.js:110-182 | An empty raster fails (no first row sizes the canvas); otherwise every cell painted with the sky ramp, in row-major order, and the UHII of all cells |
| Massing.CheckUploadedFilesType | src/app/viewer/util/viewer.readMassingFile.ts:30-71 | The loop returns the verdict of the first-model / shapefile-parts rule |
| Massing.ModelIndexProperties | src/app/viewer/util/viewer.readMassingFile.ts:36-47 | The model file is the first `.skp`/`.dae` |
| Massing.LastIndexProperties | src/app/viewer/util/viewer.readMassingFile.ts:48-56 | The kept `.shp`/`.dbf` is the last of its kind |
| Massing.UploadOutcomes | src/app/viewer/util/viewer.readMassingFile.ts:30-71 | Model files succeed; shapefiles succeed iff both parts exist; anything else is unidentified and fails |
| Massing.FirstModelWins | src/app/viewer/util/viewer.readMassingFile.ts:36-47 | Files after the first model file change nothing |
| Massing.DispatchOutcome | src/app/viewer/util/viewer.readMassingFile.ts:15-29 | Nothing is read exactly for a failed check or SketchUp; readers get files of their kind |
| Massing.ConvertUnits | src/app/viewer/util/viewer.readMassingFile.ts:280-285 | Inches are divided by 39.37 on every axis; other units are kept |
| Massing.MeshTriangles | src/app/viewer/util/viewer.readMassingFile.ts:271-294 | The counter loop yields consecutive vertex triples |
| Massing.GeomCoords | src/app/viewer/util/viewer.readMassingFile.ts:263-300 | Groups concatenate their children; meshes give triangles; the rest gives nothing |
| Massing.GroupConcat | src/app/viewer/util/viewer.readMassingFile.ts:265-270 | Splitting a group's children splits its triangles |
| Massing.TrianglesCoverVertices | src/app/viewer/util/viewer.readMassingFile.ts:277-293 | floor(count/3) triangles that, laid end to end, are the vertices less 1–2 at the end |
| Massing.NeedsReprojection | src/app/viewer/util/viewer.readMassingFile.ts:77-82 | Reproject exactly when some bbox value exceeds 180 |
| Massing.AccumulateExtent | src/app/viewer/util/viewer.readMassingFile.ts:84-101 | The extent contains the start box and every feature, and each side is attained |
| Massing.SplitRoofsWalls | src/app/viewer/util/viewer.readMassingFile.ts:110-118 | The loop pushes each polygon to roofs or walls |
| Massing.RoofWallPartition | src/app/viewer/util/viewer.readMassingFile.ts:220-228 | Roofs and walls together are all the polygons |
| Massing.RoofWallNormals | src/app/viewer/util/viewer.readMassingFile.ts:113 | Roofs have normal z > 0.5; walls do not |
| Massing.HeightFallback | src/app/viewer/util/viewer.readMassingFile.ts:304-306 | The height is the first truthy `h`/`H`/`height`/`Height`/`AGL`; extrusion happens iff one is truthy |

## Left out

- **Geometry, rendering and I/O.**
  - mobius-sim geometry (the Sun, Sky and Ray analyses, polygon areas and normals, extrusion,
    Boolean intersection, visualisation) is left out. It is a foreign library. Its results
    are inputs or oracles.
  - three.js raycasting, `Math.sin`/`Math.cos`, proj4 and SVY21 are left out. They are
    foreign; they are an oracle and function parameters.
  - Files, fetch, canvas painting, console output and the HTML `extra_info` strings are
    left out. They are I/O.
- **Number parsing.** `Number()` and `parseFloat` are modelled for optional signs, digits
  and one decimal point. Whitespace, exponents, hex literals and `Infinity` are not
  modelled.
- **Infinities and degenerate inputs.**
  - `SimShared.ScoreBounds` assumes non-negative areas. With negative areas the source can
    divide by zero and produce ±Infinity, which is not modelled.
  - `SimShared.CalcUHI` requires values and areas of equal length. The source reads
    `undefined` past the end, which turns the sum into NaN.
  - `Wind.Wind` requires a positive step and a positive divisor. A zero divisor gives
    Infinity in the source.
  - `Raster.CellSize` returns None for an empty first row. The source divides by zero there,
    giving Infinity or NaN, and carries on.
- **Order.**
  - JavaScript key order and the order of written output files are not modelled.
    `ReadShp.ProcessAll` produces a map keyed by tile.
  - `Raster.RasterToSim`'s UHII is taken over the kept cells. The source reads the values
    back in the model's own polygon order, which does not change the sum.
- **Intersections.** The intersection of a cell with the site can be several polygons, each
  carrying the cell's value. `Raster.KeepCells` keeps one rectangle per cell, so the model
  does not capture:
  - the clipped shape;
  - the extra weight that split cells get in the UHII.
- **Features the scripts skip or handle elsewhere.**
  - The batch script `genScript/sim_execute_single.js` computes no sky UHII, and its
    `eval_*` are otherwise the same as the browser's. `Execute.EvalSky` follows the
    browser.
  - `visSimResults` and `northSign` are presentation only.
  - The `generate_lines` branch is left out.
  - In `processData`, the extrusion by `AGL` and the site rectangle are geometry.
  - `writeModel` (genScript/readshp.js:22-49) is not called. It gathers like `processData` but
    writes to `src/assets/models/`, and only its file name is covered, by `Tiles.FillString`.
  - `readDAE` is left out: its parsing of the `<unit>` tag, the clipper union of upward
    faces and its translation to the current location.
- **Massing inputs.**
  - `Massing.HeightFallback` treats properties as numbers. A non-empty string height, which
    is truthy in JavaScript, is not modelled.
  - In `simImportFeature`, the closing-vertex test compares coordinate arrays by reference,
    which a model over values cannot express. It is left out.
- **Floating point.** JavaScript numbers are IEEE doubles. The model computes with exact
  reals, so the following hold only in that idealisation:
  - `Wind.LayerIterations` counts the heights the layer loop visits as
    `ceil((end - start) / step)`. The source adds the step repeatedly in doubles and can
    visit one more height when the step is not exactly representable. Layers [0, 1, 0.1]
    visit 11 heights there, and the model counts 10. The wind settings [1, 18, 4] are exact
    in doubles.
  - `Wind.LayerIterationsExact` is exact in reals only, for the same reason.
  - `Execute.UhiProperties` states that the regression gives exactly 0.62 at 1. In doubles,
    -6.51 + 7.13 is 0.6200000000000001.
  - `Js.RoundTenth` rounds an exact real value. A rounding error in the doubles before
    `Math.round` can move a value that lies on a half-tenth boundary.
  - `Raster.RasterUhiiIsRegressionOfMean` inherits the same idealisation of the rounding.
  - `Execute.SkyUhiiIsRegressionOfMean` inherits it too.
- **Other.** `Heatmap.TileOriginOnGrid` covers tiles whose coordinates are below 100000 in
  magnitude, the range `fillString` pads faithfully.

## Findings

| source | as written | input that shows it | evidently intended | confidence | as-written member | corrected member |
|---|---|---|---|---|---|---|
| src/app/viewer/simulation-js/analyze_wind.js:70 | The sector weights are divided by `Math.round((end - start) / step)`. The layer loop, however, visits `ceil((end - start) / step)` heights. | Layers [1, 18, 4] (the wind settings) visit 1, 5, 9, 13 and 17, but divide by 4. An open upward sensor scores 1.25 × the rose total. | Divide by the number of layers visited, so that an open sensor scores the rose total. | not executed | Wind.OpenSensorOverCounted | Wind.CorrectedConserves |
| src/app/viewer/simulation-js/sim_execute.js:322-323 | `coords` holds points, so `stn.coord[0] - coords[0]` subtracts an array. Every distance is NaN, `!NaN` is true, and every station replaces the current one. | Any site with two or more stations: the last station is chosen. | Measure the distance from the site and pick the nearest station. | not executed | Execute.NaNSelectsLast | Execute.SelectNearestStation |
| genScript/sim_execute_single.js:226 | `!closest_stn.dist2` treats a best distance of 0 as unset, so the next station replaces it. | Stations A at (0, 0) and B at (3, 4), with the tile at (0, 0): B is chosen although A is at distance 0. | Test for "no station yet" rather than falsiness. | not executed | Execute.ZeroDistanceExample | Execute.SelectNearestStation |
