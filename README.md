# Railway line scripts: a verified model

The railways repository is a set of scripts that work on the suburban rail
network of Mumbai. They:

- fetch the railway ways and their nodes from OpenStreetMap, look up node
  elevations in batches, draw an elevation heatmap and export the lines as
  GeoJSON (`getting-coordinates.py`);
- fill in the missing elevations of a GeoJSON file in batches
  (`geojson-processing.py`);
- let a QGIS user trace an arc, measure its length, radius, curvature and
  angle, and append the metrics to a CSV file (`curvature-tool-qgis.py`);
- recompute the metric columns of that CSV with a least-squares circle fit
  (`curve-update.py`);
- draw the heatmap of the GeoJSON file with the measured curves on top
  (`elevation_heatmap_and_curvature.py`);
- total the lengths of the hand-drawn lines and of the OpenStreetMap lines
  (`stats.py`).

The Dafny project models the sequential core of these scripts. It covers:

- the curve metrics both curve scripts compute;
- the scanner that reads `POINT(x y)` pairs back from the CSV;
- the row loop of the CSV update;
- the batching, selection and write-back of the elevation fill;
- the partition, elevation join, segment pairing and export of the
  OpenStreetMap data;
- the flattening of GeoJSON lines into numbered nodes and the curve
  overlay;
- the name-based partition and distance totals of the statistics;
- the measuring, saving and pruning of the QGIS tool.

Modules:

- `Common`: `Option`, `Result`, the Python exceptions the scripts raise, points, and the numeric primitives (`math.dist`, `math.sqrt`, π) as parameters with the laws the code relies on.
- `CurveMetrics`: arc length, the three-point circumradius fit, the sentinel rule of the least-squares fit, and curvature and angle.
- `PointText`: `re.findall` with the pattern `POINT\(([-\d\.]+) ([-\d\.]+)\)`, and Python's `float()` on the captured tokens.
- `Batching`: `chunk_list`.
- `GeoJson`: positions `[longitude, latitude, elevation]` (section 3.1.1 of RFC 7946) and LineString features.
- `RailGraph`: the node dictionary with its insertion order, `min`/`max`, the log-scale offset, and segment pairing.
- `ElevationFill` (geojson-processing.py), `OsmElevation` (getting-coordinates.py), `CurveHeatmap` (elevation_heatmap_and_curvature.py), `RailStats` (stats.py), `CurveUpdate` (curve-update.py) and `CurvatureTool` (curvature-tool-qgis.py): one module per script.

Where a script changes state step by step, the model is imperative:

- `ElevationFill.Document`, `OsmElevation.OsmData`, `CurveUpdate.Workspace` and `CurvatureTool.Tool` are classes whose fields the methods update.
- Loops are `while` loops with invariants.
- Each method is proved equal to a specification function, and the properties are lemmas about those functions.

## Model

| member | source | states |
|---|---|---|
| CurveMetrics.ArcLength | curve-update.py:29-34 | the arc length is never negative and is 0 for fewer than two points |
| CurveMetrics.CalculateArcLength | curve-update.py:29-34 | the accumulating loop returns the sum of the consecutive distances |
| CurveMetrics.ArcLengthAppend | curve-update.py:31-33 | appending a point adds exactly the distance from the old last point |
| CurveMetrics.ArcLengthPrepend | curve-update.py:31-33 | prepending a point adds exactly the distance to the old first point |
| CurveMetrics.ArcLengthReverse | curve-update.py:29-34 | tracing the polyline backwards gives the same arc length |
| CurveMetrics.FitIndices | curvature-tool-qgis.py:36 | first, middle and last index are ordered and in range, and strictly increasing for three or more points |
| CurveMetrics.TriangleArea | curvature-tool-qgis.py:40-41 | the clamped Heron area is never negative, and is zero exactly when the radicand is not positive |
| CurveMetrics.HeronDegenerate | curvature-tool-qgis.py:40-41 | a zero side with the other two equal gives a zero radicand |
| CurveMetrics.ThreePointRadius | curvature-tool-qgis.py:34-42 | infinite exactly when the radicand of the three chosen points is not positive; otherwise a positive R with R·4·area = A·B·C |
| CurveMetrics.CircleFromSides | curvature-tool-qgis.py:42 | A·B·C/(4·area) when the area is non-zero, else the sentinel; a finite radius is positive |
| CurveMetrics.CircleFromSidesSymmetric | curvature-tool-qgis.py:37-42 | swapping the first and last side changes neither the radicand nor the radius |
| CurveMetrics.Sides | curvature-tool-qgis.py:36-39 | the three side lengths are non-negative |
| CurveMetrics.ZeroSideFlat | curvature-tool-qgis.py:37-41 | two coincident chosen points make the radicand zero |
| CurveMetrics.Circumradius | curvature-tool-qgis.py:42 | with positive sides and area the radius is positive and satisfies R·4·area = A·B·C |
| CurveMetrics.ThreePointRadiusReverse | curvature-tool-qgis.py:36 | for an odd number of points, reversing the polyline gives the same radius |
| CurveMetrics.LeastSquaresRadius | curve-update.py:8-27 | IndexError exactly for no points; infinite exactly when the solver's r ≤ 0; otherwise the solver's r, which is positive |
| CurveMetrics.Measure | curve-update.py:57-58 | infinite radius gives curvature 0 and angle 0; a finite R gives curvature·R = 1 and angle·π = arc·curvature·180; both are non-negative for a non-negative arc |
| CurveMetrics.MeasureRule | curve-update.py:57-58 | metrics that `Measure` computed follow the curvature and angle rule, and are non-negative for a non-negative arc |
| PointText.RunLengthSpec | curve-update.py:37 | the greedy run of `[-\d\.]` characters is maximal |
| PointText.MatchPrefix | curve-update.py:37 | a match starts with `POINT(` and captures two non-empty tokens of the class |
| PointText.MatchedText | curve-update.py:37 | a match covers exactly `POINT(x y)` with its two groups |
| PointText.FindAll | curve-update.py:37 | every extracted pair consists of two non-empty tokens of `[-\d\.]` |
| PointText.FindAllMatched | curve-update.py:37 | where the pattern matches, one pair is taken and the scan resumes after the match |
| PointText.FindAllUnmatched | curve-update.py:37 | where it does not match, the scan moves on by one character |
| PointText.PairsAtMostKeywords | curve-update.py:37 | there are no more pairs than occurrences of `POINT(` |
| PointText.NoKeywordNoPairs | curve-update.py:37 | text without `POINT(` yields no pair |
| PointText.MatchPoint | curve-update.py:37 | `POINT(x y)` with two tokens matches and captures exactly x and y |
| PointText.FindAllPoint | curve-update.py:37 | such a match contributes exactly `(x, y)` before the pairs of the rest |
| PointText.FindAllItems | curve-update.py:37 | scanning a list of point reprs yields their pairs, left to right |
| PointText.FindAllListRepr | curve-update.py:37 | scanning `str()` of a list of points gives back exactly its pairs, in order |
| PointText.ParseFloatAccepts | curve-update.py:38 | `float()` accepts a captured token exactly when it is an optional `-` followed by a decimal with at most one `.` and at least one digit |
| PointText.ParseFloat | curve-update.py:38 | the definition of `float()` on a captured token: an optional `-`, then digits with at most one `.`; its properties are ParseFloatAccepts, ParseDigits, ParseDecimal and ParseNegated |
| PointText.UnsignedSound | curve-update.py:38 | a token whose digits `float()` reads is a decimal token |
| PointText.UnsignedComplete | curve-update.py:38 | `float()` reads the digits of every decimal token |
| PointText.ParseDigits | curve-update.py:38 | a digit string reads as the whole number it spells |
| PointText.ParseNegated | curve-update.py:38 | a leading `-` negates the value and accepts exactly what the unsigned token accepts |
| PointText.ParseDecimal | curve-update.py:38 | `a.b` reads as a plus b tenths, hundredths and so on |
| PointText.ConvertPairs | curve-update.py:38 | on success there is one point per pair; a failure is a ValueError |
| PointText.ConvertPairsAccepts | curve-update.py:38 | the conversion succeeds exactly when every token is a decimal |
| PointText.ConvertPairsValues | curve-update.py:38 | on success point k holds the `float()` values of pair k |
| PointText.ParseQgsPointList | curve-update.py:36-38 | a parsed cell has no more points than occurrences of `POINT(` |
| PointText.ParseToolCell | curve-update.py:36-38 | a cell written as `str()` of a list of decimal points parses back to exactly those values, in order |
| PointText.TwoDotsRejected | curve-update.py:37-38 | `1.2.3` is captured by the pattern and then `float()` raises ValueError for the whole cell |
| Batching.Chunks | geojson-processing.py:13-15 | the definition: the slices `lst[i:i + n]` for i = 0, n, 2n, …; its properties are the lemmas below |
| Batching.ChunkList | geojson-processing.py:13-15 | the loop returns the slices `lst[i:i + n]` for i = 0, n, 2n, … |
| Batching.ChunksConcat | getting-coordinates.py:54-57 | joining the chunks gives back the input |
| Batching.ChunkSizes | geojson-processing.py:13-15 | every chunk but the last has exactly n elements, and the last has 1 to n |
| Batching.ChunkCount | geojson-processing.py:14 | the number of chunks is the length divided by n, rounded up; empty input gives no chunk |
| Batching.ChunksMembers | getting-coordinates.py:56-57 | every element of every chunk comes from the input |
| Batching.ChunkAt | geojson-processing.py:13-15 | element j of chunk b is element b·n + j of the input, with j < n |
| GeoJson.WithElevation | getting-coordinates.py:177-181 | the position `[lon, lat, elevation]` carries exactly that elevation as its third component |
| ElevationFill.MissingCoords | geojson-processing.py:29-34 | each selected entry names this feature and an existing coordinate |
| ElevationFill.MissingIn | geojson-processing.py:24-34 | the definition of `locations_to_fetch`: the missing positions of the features with id 1..99, feature by feature; its properties are SelectedIff, MissingInValid and MissingInOrdered |
| ElevationFill.MissingInValid | geojson-processing.py:24-34 | every entry of `locations_to_fetch` names an existing coordinate |
| ElevationFill.MissingInSnoc | geojson-processing.py:24-34 | taking one more feature appends exactly its entries when its id is in range, and nothing otherwise |
| ElevationFill.MissingCoordsIff | geojson-processing.py:29-34 | a coordinate of the feature is selected exactly when it has no elevation |
| ElevationFill.SelectedIff | geojson-processing.py:24-34 | an entry is selected exactly when its feature's id is present and within 1..99 and its coordinate has no third component or a null one |
| ElevationFill.MissingCoordsOrdered | geojson-processing.py:29-34 | one feature's entries are in coordinate order |
| ElevationFill.MissingInOrdered | geojson-processing.py:24-34 | the entries are in document order, each coordinate at most once |
| ElevationFill.ValidLocsShape | geojson-processing.py:52-54 | entries stay valid across a write-back, which keeps every feature's length |
| ElevationFill.SetCoord | geojson-processing.py:54 | assigning one coordinate changes that coordinate and nothing else |
| ElevationFill.WriteOneAt | geojson-processing.py:51-54 | one pair writes `[lon, lat, elev]` at its own coordinate when elev is not None, and leaves every other coordinate as it was |
| ElevationFill.WriteBack | geojson-processing.py:49-54 | the zip loop keeps every feature and every coordinate count |
| ElevationFill.WriteBackFrame | geojson-processing.py:49-54 | a coordinate that no pair of the zip writes keeps its value |
| ElevationFill.WriteBackWrites | geojson-processing.py:49-54 | when no two entries of the batch name the same position, a pair whose elevation is not None leaves `[lon, lat, elev]` at its coordinate, with the original lon and lat |
| ElevationFill.WriteFromFrame | geojson-processing.py:49-54 | a coordinate that no remaining pair of the zip writes keeps its value |
| ElevationFill.WriteFromWrites | geojson-processing.py:49-54 | with distinct entries, a remaining pair whose elevation is not None leaves `[lon, lat, elev]` at its coordinate |
| ElevationFill.WriteBackLoop | geojson-processing.py:49-54 | the in-place zip loop returns the write-back of the batch |
| ElevationFill.FillBatches | geojson-processing.py:42-61 | the batch loop keeps every feature and every coordinate count |
| ElevationFill.FillFrame | geojson-processing.py:42-61 | a coordinate that no answered batch writes (its request raised, came back without results, paired it with `None`, or the zip stopped before it) is left as it was |
| ElevationFill.UnnamedNeverWritten | geojson-processing.py:42-61 | a coordinate that no batch names is written by no answer, whatever the requests return |
| ElevationFill.FillBatchesStep | geojson-processing.py:42-61 | one batch step keeps every entry valid and leaves the remaining loop to the following batches |
| ElevationFill.Batches | geojson-processing.py:42 | every batch holds only valid entries |
| ElevationFill.UnselectedUnchanged | geojson-processing.py:28-34 | a coordinate outside the id range, or one that already has an elevation, is never changed |
| ElevationFill.BatchesDistinct | geojson-processing.py:24-42 | the batches sent name every position at most once, within a batch and across batches |
| ElevationFill.FillBatchesFirst | geojson-processing.py:42-61 | the first round writes back batch 0's answer (or nothing) and the loop goes on with the rest, all entries still valid |
| ElevationFill.FillWritesFirst | geojson-processing.py:42-61 | an elevation answered for the first batch survives the rest of the loop |
| ElevationFill.FillWrites | geojson-processing.py:42-61 | with distinct batches, an entry whose answer carries an elevation ends the loop as `[lon, lat, elev]` with the position's own lon and lat |
| ElevationFill.FilledElevation | geojson-processing.py:24-61 | every entry sent names a selected position, and when its request answers with an elevation the whole run leaves `[lon, lat, elev]` there |
| ElevationFill.UnfilledUnchanged | geojson-processing.py:24-61 | every entry sent names a selected position, and when its request raises, answers without results, pairs it with `None` or stops the zip before it, the whole run leaves that position unchanged and still without elevation |
| ElevationFill.MissingPositions | geojson-processing.py:29-34 | the inner selection loop returns that feature's entries |
| ElevationFill.Document.SelectMissing | geojson-processing.py:24-34 | the nested selection loop returns `locations_to_fetch` |
| ElevationFill.Document.ApplyResults | geojson-processing.py:49-54 | the in-place zip loop leaves the write-back of the batch |
| ElevationFill.Document.FetchAll | geojson-processing.py:40-61 | the batch loop, with batches numbered from 1, leaves the features of the batch-by-batch write-back |
| ElevationFill.Document.FillElevations | geojson-processing.py:24-62 | selection and fetch loop leave the features of the batch loop |
| OsmElevation.NodesOf | getting-coordinates.py:40-44 | the node table is well formed |
| OsmElevation.NodesOfLookup | getting-coordinates.py:41-42 | a node id maps to the lat and lon of its last node element |
| OsmElevation.NodesOfAbsent | getting-coordinates.py:40-44 | an id that no node element carries is not in the table |
| OsmElevation.WaysOfAppend | getting-coordinates.py:43-44 | ways are appended in element order |
| OsmElevation.WaysOfSingle | getting-coordinates.py:41-44 | a way element adds itself, and any other element adds nothing |
| OsmElevation.Locations | getting-coordinates.py:59 | one `(lat, lon)` per node, in insertion order |
| OsmElevation.CollectResults | getting-coordinates.py:65-80 | the fetch loop collects the results of every answered batch, in order |
| OsmElevation.ElevationMapLookup | getting-coordinates.py:83-86 | a location maps to the elevation of its last result |
| OsmElevation.ElevationMapAbsent | getting-coordinates.py:83-86 | a location that no result echoes is not a key |
| OsmElevation.EnrichTable | getting-coordinates.py:88-93 | enrichment keeps the table well formed |
| OsmElevation.EnrichTableSpec | getting-coordinates.py:88-93 | ids, order, lat and lon are unchanged, and every node gets the looked-up elevation, or None when its location is absent |
| OsmElevation.ExportCoordsAppend | getting-coordinates.py:173-181 | the export of a node list is the export of its parts, in order |
| OsmElevation.ExportCoordsSingle | getting-coordinates.py:174-181 | a node id gives `[lon, lat, elevation]` when the node exists, and nothing otherwise |
| OsmElevation.ExportAfterEnrich | getting-coordinates.py:180 | after enrichment a node without elevation is exported with None, never with the default 0 |
| OsmElevation.ExportCoordinates | getting-coordinates.py:172-181 | the inner export loop returns the export of the way's node ids |
| OsmElevation.NodeLists | getting-coordinates.py:127-129 | one node-id list per way, in way order |
| OsmElevation.OsmData.Partition | getting-coordinates.py:40-44 | the loop leaves the node table and the way list of the elements |
| OsmElevation.OsmData.Enrich | getting-coordinates.py:88-93 | the in-place loop leaves the enriched table and the same ways |
| OsmElevation.OsmData.Segments | getting-coordinates.py:127-157 | the drawing loops return the segments of all ways |
| OsmElevation.OsmData.Export | getting-coordinates.py:169-194 | one feature per way, in way order, each the export of its way |
| RailGraph.Put | getting-coordinates.py:42 | `nodes[id] = node` overwrites an existing key in place and appends a new one |
| RailGraph.Values | getting-coordinates.py:59 | `nodes.values()` lists the nodes in insertion order |
| RailGraph.KnownElevations | getting-coordinates.py:104 | exactly the elevations of the nodes that have one |
| RailGraph.MinOf | getting-coordinates.py:106 | `min` is a member and at most every member |
| RailGraph.MaxOf | getting-coordinates.py:107 | `max` is a member and at least every member |
| RailGraph.Offset | getting-coordinates.py:111 | the definition of `offset`: `-min + 1` when the minimum is not positive, else 0; its property is ShiftedPositive |
| RailGraph.ShiftedPositive | getting-coordinates.py:111 | every elevation plus the offset is positive, and the minimum shifts to exactly 1 when it is not positive |
| RailGraph.AveragePositive | getting-coordinates.py:138-139 | the mean of two elevations plus the offset is positive |
| RailGraph.WaySegmentsBound | getting-coordinates.py:130-137 | a way of k nodes gives at most k − 1 segments |
| RailGraph.WaySegmentsSound | getting-coordinates.py:130-137 | every segment joins two consecutive node ids of the way that both exist and both have an elevation |
| RailGraph.SegmentShiftedPositive | getting-coordinates.py:137-139 | a segment's shifted mean elevation is positive, so its logarithm is defined |
| RailGraph.AllSegmentsShiftedPositive | getting-coordinates.py:127-139 | the same for the segments of all ways |
| RailGraph.DrawSegments | getting-coordinates.py:127-137 | the nested loops return the segments of all ways |
| CurveHeatmap.IdRange | elevation_heatmap_and_curvature.py:24-31 | the ids are consecutive from the first one |
| CurveHeatmap.TableOf | elevation_heatmap_and_curvature.py:17-31 | node i is stored under id i + 1, in order |
| CurveHeatmap.AllCoordsPrefix | elevation_heatmap_and_curvature.py:18-22 | the coordinates of the first features are a prefix of all coordinates |
| CurveHeatmap.AllCoordsAt | elevation_heatmap_and_curvature.py:18-31 | a feature's coordinates sit right after those of the features before it |
| CurveHeatmap.WayNodesAreCoords | elevation_heatmap_and_curvature.py:21-36 | node j of way k exists and holds coordinate j of feature k |
| CurveHeatmap.FlattenCoords | elevation_heatmap_and_curvature.py:22-31 | the inner loop numbers one feature's coordinates consecutively, or raises ValueError |
| CurveHeatmap.Flatten | elevation_heatmap_and_curvature.py:17-36 | succeeds exactly when every coordinate has three components; then the nodes are numbered 1, 2, 3, … in document order and each way lists its feature's ids and `id` property |
| CurveHeatmap.MapCentre | elevation_heatmap_and_curvature.py:39-50 | the centre is the midpoint of the latitude and longitude ranges; no nodes gives ValueError |
| CurveHeatmap.CentreWithinBounds | elevation_heatmap_and_curvature.py:39-50 | the centre lies between the smallest and the largest latitude and longitude of the nodes |
| CurveHeatmap.ColourSegments | elevation_heatmap_and_curvature.py:56-91 | no scale without known elevations; otherwise the offset of the minimum and the segments of all ways |
| CurveHeatmap.HeatmapLogDefined | elevation_heatmap_and_curvature.py:62-84 | every drawn segment has a positive shifted mean, so its logarithm is defined |
| CurveHeatmap.ParseQgisCoords | elevation_heatmap_and_curvature.py:96-112 | one `(lat, lon)` per `POINT(x y)` match, in match order, or the ValueError of the first bad token |
| CurveHeatmap.FirstRejected | elevation_heatmap_and_curvature.py:105-106 | the first pair `float()` refuses decides the error |
| CurveHeatmap.Label | elevation_heatmap_and_curvature.py:121-127 | an absent column or `N/A` stays `N/A`; any other value is formatted to 2 decimals, or raises ValueError |
| CurveHeatmap.RowOverlay | elevation_heatmap_and_curvature.py:117-147 | the definition of one row's overlay: KeyError without `Coordinates`, the parse error, nothing for at most one point, else the unprojected curve with its two labels or their ValueError; its property is RowOverlayLabels |
| CurveHeatmap.Overlays | elevation_heatmap_and_curvature.py:114-151 | the definition of the overlay loop: the rows' overlays in order until the first error; its properties are OverlaysStop and OverlaysShape |
| CurveHeatmap.DrawRow | elevation_heatmap_and_curvature.py:117-147 | the loop body computes the row's overlay |
| CurveHeatmap.DrawCurves | elevation_heatmap_and_curvature.py:114-151 | a missing file draws nothing; otherwise the overlays of the rows, in order, or the first error |
| CurveHeatmap.OverlaysStop | elevation_heatmap_and_curvature.py:114-151 | an error in the first rows is the outcome of the whole file |
| CurveHeatmap.OverlaysShape | elevation_heatmap_and_curvature.py:120 | every overlaid curve has at least two points and comes from a row; there are no more curves than rows |
| CurveHeatmap.RowOverlayLabels | elevation_heatmap_and_curvature.py:120-127 | a drawn curve's labels are `N/A` when the column is absent, otherwise the 2-decimal formatting |
| RailStats.StripLeftSpec | stats.py:25 | `lstrip` removes exactly the leading whitespace |
| RailStats.StripRightSpec | stats.py:25 | `rstrip` removes exactly the trailing whitespace |
| RailStats.StripSpec | stats.py:25 | `strip` leaves the text between the leading and the trailing whitespace |
| RailStats.IsAdded | stats.py:25 | the definition of the name test: `.get("name", "").strip().lower() == "line added"`; its properties are NameTestIgnoresPadding and UnnamedNotAdded |
| RailStats.StripLeftPadding | stats.py:25 | `lstrip` removes exactly a whitespace prefix in front of text that does not start with whitespace |
| RailStats.StripRightPadding | stats.py:25 | `rstrip` removes exactly a whitespace suffix after text that does not end with whitespace |
| RailStats.NameTestIgnoresPadding | stats.py:23-25 | for every whitespace prefix and suffix and every text that lower-cases to "line added", a feature with that padded name passes the name test |
| RailStats.AddedExample | stats.py:25 | one instance: the name ` Line Added\n` passes the name test |
| RailStats.UnnamedNotAdded | stats.py:23-25 | an unnamed feature counts as `""` and lands in the second group |
| RailStats.GroupIndicesIncreasing | stats.py:21-28 | a group keeps feature order |
| RailStats.GroupIndicesMembers | stats.py:21-28 | a feature is in group 1 exactly when its stripped, lower-cased name is `line added` |
| RailStats.GroupByIndices | stats.py:21-28 | a group's entries are the coordinate lists of its features |
| RailStats.GroupsPartition | stats.py:21-28 | every feature lands in exactly one group |
| RailStats.PartitionByName | stats.py:21-28 | the loop returns the two groups |
| RailStats.TotalDistance | stats.py:30-37 | the definition of `total_distance`: one haversine term per consecutive pair of every line, line after line |
| RailStats.TotalDistanceLoop | stats.py:30-37 | the nested loops return the sum of one distance per consecutive pair |
| RailStats.LinePair | stats.py:34-36 | a two-point line makes exactly one call, with latitude first |
| RailStats.TotalDistanceAppend | stats.py:30-37 | the total is additive over concatenated line lists |
| RailStats.TotalDistanceSnoc | stats.py:30-37 | one more line adds exactly its own distance |
| RailStats.AllLines | stats.py:21-28 | one coordinate list per feature, in feature order |
| RailStats.GroupsTotal | stats.py:40-41 | the two group totals add up to the total over every feature's coordinate list, so the partition drops no line and counts none twice |
| RailStats.TotalDistanceNonNegative | stats.py:30-37 | a non-negative distance gives a non-negative total |
| RailStats.ShortLinesZero | stats.py:30-37 | no lines, or only lines of fewer than two points, total 0 |
| CurveUpdate.RecomputeRow | curve-update.py:54-63 | the definition of one row's recomputation: KeyError without `Coordinates`, the parse or fit error, else the four formatted metrics; its properties are RecomputeRowSpec and MissingMetricColumn |
| CurveUpdate.RecomputeRowSpec | curve-update.py:53-63 | a row recomputes exactly when it has a `Coordinates` cell that parses to at least one point; then only the four metric cells change, to the formatted metrics |
| CurveUpdate.SetMetrics | curve-update.py:59-63 | the four metric cells hold the new texts, the other cells keep theirs, and the four keys are added when absent |
| CurveUpdate.WriteRow | curve-update.py:65 | `writerow` raises ValueError exactly when the row has a field outside the header; otherwise it writes the header's fields, blank where missing |
| CurveUpdate.Step | curve-update.py:53-65 | the loop body is defined for every row and is the row's processing |
| CurveUpdate.Loop | curve-update.py:53-65 | the definition of the row loop: rows processed in order until the first error; its properties are LoopSuccess, LoopLength, LoopFailure, LoopStop and LoopSnoc |
| CurveUpdate.Rewrite | curve-update.py:53-65 | the row loop of `update_curve_csv`: `Loop` with the row processing as its body |
| CurveUpdate.LoopSuccess | curve-update.py:53-65 | on success every row is written exactly once, in input order |
| CurveUpdate.LoopLength | curve-update.py:53-65 | never more rows than the input, and all of them on success |
| CurveUpdate.LoopFailure | curve-update.py:53-65 | on failure the output holds the rows before the failing one, and the failing row's error is the outcome |
| CurveUpdate.LoopStop | curve-update.py:53-65 | a failure in the first rows is the outcome of the whole run |
| CurveUpdate.LoopSnoc | curve-update.py:53-65 | one more row stops the run with that row's error, or appends the row it writes |
| CurveUpdate.MissingMetricColumn | curve-update.py:48-65 | without the arc-length column, a first row that recomputes stops the run with ValueError and only the header is written |
| CurveUpdate.RegularRowsPassThrough | curve-update.py:53-65 | with the metric columns in the header, each row is written exactly as recomputed |
| CurveUpdate.ProcessRow | curve-update.py:54-65 | the loop body computes the row's processing |
| CurveUpdate.Workspace.UpdateCurveCsv | curve-update.py:40-65 | a missing input raises FileNotFoundError and writes nothing; otherwise the output path, which defaults to the input, holds the header and the rows written |
| CurveUpdate.OutputPath | curve-update.py:41-42 | the output path is the given one, or the input path when none is given |
| CurveUpdate.InPlaceUpdate | curve-update.py:41-53 | an in-place update keeps the field names and writes one recomputed row per input row |
| CurvatureTool.MaxFeatureId | curvature-tool-qgis.py:52 | the loop returns the largest feature id |
| CurvatureTool.LatestFid | curvature-tool-qgis.py:52 | the chosen id is a member and at least every id |
| CurvatureTool.Transform | curvature-tool-qgis.py:56-59 | one transformed vertex per vertex, in order |
| CurvatureTool.Prepare | curvature-tool-qgis.py:47-71 | the definition of the guards and the measurement; its properties are GuardsChangeNothing and MeasuresLatest |
| CurvatureTool.PrepareReady | curvature-tool-qgis.py:52-71 | past the guards, the layer has features and the latest one, with at least three transformed vertices, is measured |
| CurvatureTool.AppendRecord | curvature-tool-qgis.py:91-93 | appending creates a missing file and adds exactly one record; the empty path raises FileNotFoundError |
| CurvatureTool.SaveTo | curvature-tool-qgis.py:83-93 | the save step once a path is in effect: a freshly chosen path gets the header then the record, an earlier path gets the record appended |
| CurvatureTool.SaveAsWritten | curvature-tool-qgis.py:82-93 | the save step as written: a cancelled dialog stores `''` in `save_file`; its properties are CancelThenFails and EmptyPathSticks |
| CurvatureTool.SaveStep | curvature-tool-qgis.py:82-93 | the save step as intended: a cancelled dialog leaves `save_file` unset; its properties are NeverFails and CancelThenAsksAgain |
| CurvatureTool.Annotate | curvature-tool-qgis.py:74-80 | only the measured feature's attributes change |
| CurvatureTool.CalculateCurvatureAsWritten | curvature-tool-qgis.py:44-107 | the definition of `calculate_curvature` as written, with SaveAsWritten as its save step |
| CurvatureTool.CalculateCurvatureFixed | curvature-tool-qgis.py:44-107 | the same call with the corrected save step; its properties are SavedState, CancelledState, NeverFails and CancelThenAsksAgain |
| CurvatureTool.GuardsChangeNothing | curvature-tool-qgis.py:47-63 | without a layer or features, or with fewer than three vertices on the latest feature, the call warns and changes nothing |
| CurvatureTool.MeasuresLatest | curvature-tool-qgis.py:52-71 | the feature with the largest id is measured from its transformed vertices: arc length, three-point radius, and metrics equal to `Measure` of them, so curvature·R = 1, angle·π = arc·curvature·180, both 0 for the sentinel and both non-negative |
| CurvatureTool.SavedState | curvature-tool-qgis.py:74-107 | after a save only the measured feature remains, with its metrics; the save file gains exactly one record, after a fresh header when the path was chosen in this call; no other file changes |
| CurvatureTool.CancelledState | curvature-tool-qgis.py:82-86 | cancelling the dialog keeps every feature, stores the metrics, and writes no file |
| CurvatureTool.NeverFails | curvature-tool-qgis.py:82-93 | with the corrected save step the save path never becomes empty, and no call fails |
| CurvatureTool.CancelThenFails | curvature-tool-qgis.py:83-93 | as written, a cancelled dialog leaves `''` as the save path, and the next measurement that passes the guards fails with FileNotFoundError |
| CurvatureTool.EmptyPathSticks | curvature-tool-qgis.py:83-93 | as written, once the save path is `''` every call, on any layer and with any dialog answer, keeps it `''`, and every call that passes the guards fails with FileNotFoundError |
| CurvatureTool.CancelThenAsksAgain | curvature-tool-qgis.py:83-93 | with the correction, the next measurement asks again and saves |
| CurvatureTool.Tool.ResetLayer | curvature-tool-qgis.py:109-115 | resetting empties the layer, if there is one |
| CurvatureTool.Tool.DeleteOthers | curvature-tool-qgis.py:103-107 | the deletion loop leaves exactly the measured feature |
| CurvatureTool.Tool.CalculateCurvature | curvature-tool-qgis.py:44-107 | the action leaves the state and outcome of the corrected model of `calculate_curvature` |

## Left out

- Floating point is modelled as `real`. Rounding is not modelled.
- The numeric primitives are parameters with the laws the code needs:
  - `math.dist`: non-negative, symmetric and zero exactly on equal points.
  - `math.sqrt`: non-negative, zero exactly at zero.
  - π: positive.
- The haversine formula is a parameter. Only its non-negativity is assumed where a lemma needs it.
- The inverse Web Mercator latitude (`arctan` of `exp`) is a parameter. The longitude formula is written out.
- The least-squares solver and its centroid initial guess are a parameter returning the fitted r.
- Float-to-text formatting (`:.2f`, `:.6f`, `:.8f`, `inf`) is a parameter.
- HTTP requests to the Overpass and OpenTopoData services are parameters returning an exception, a reply without results, or the results. Also left out: `time.sleep`, and the JSON and CSV decoding of files and replies. The progress messages are not modelled.
- Map and colour-map rendering (folium, branca) is left out. The model keeps the segments and overlays that would be drawn, with the values they are coloured and labelled by.
- The QGIS layer is left out except for its features, ids, vertices and four metric attributes:
  - layer creation and fields;
  - the toolbar, message boxes and the CRS transform (a parameter);
  - the file dialog (its answer is a parameter).
- Batching.ChunkList: requires n > 0. Python's `range` with step 0 raises ValueError; both scripts pass the constant 100.
- CurveMetrics.ThreePointRadius: requires at least one point. The only caller checks for three first.
- RailStats.Lower: lower-cases the ASCII capitals only. The outcome of the comparison with `line added` is still exact. Outside ASCII, only the Kelvin sign lower-cases to an ASCII letter (`k`, which `line added` does not contain). `İ` lower-cases to `i` plus a combining dot, two characters, so it cannot match either.
- PointText.ParseFloat, PointText.IsTokenChar, PointText.FindAll: `\d` is ASCII digits only. Python's `re` lets `\d` (curve-update.py:37, elevation_heatmap_and_curvature.py:103) match any Unicode decimal digit and `float()` accepts those, so tokens with non-ASCII digits are not modelled.
- Features with a `null` name in stats.py (`None.strip()` raises AttributeError) are not modelled. A name is a string or absent.
- Feature ids that are not integers are not modelled: `Feature.id` is an optional integer. geojson-processing.py:27 compares whatever JSON value the id is, so a float such as `5.5` or `true` would be range-checked as a number, and a string would raise TypeError.
- Positions with fewer than two numbers are not modelled: `Position` always has a longitude and a latitude. geojson-processing.py:29 would raise ValueError on unpacking such a position.
- The text of the ValueError that `writerow` raises for extra keys is a fixed string; Python's message lists the extra keys.
- CSV rows with more or fewer cells than the header, and an empty CSV (no field names), are not modelled: rows are dictionaries, and the header is a list of names.
- ElevationFill.Document.ApplyResults: models the whole zip loop of a batch as one step. An exception in the middle of a batch, after some coordinates were written, is not modelled; an exception is modelled only for the request or decoding.
- CurveMetrics.ThreePointRadiusReverse: holds for an odd number of points only. For an even number the middle index of the reversed polyline is a different point, so the three-point fit is not invariant under reversal.

## Findings

| source | as written | input that shows it | evidently intended | confidence | as-written member | corrected member |
|---|---|---|---|---|---|---|
| curvature-tool-qgis.py:83-86 | the dialog's answer is stored in `save_file` before the cancel test, so a cancel leaves `''` there; later calls skip the dialog (`save_file is None` is false) and `open('', 'a')` raises FileNotFoundError | a drawn arc of three or more vertices, "Find Curvature" with the dialog cancelled, then "Find Curvature" again | a cancel skips saving this once and the next measurement asks for a path again | not executed | CurvatureTool.CancelThenFails | CurvatureTool.NeverFails |
