# Clustering engine of the risk map (D3Map.jsx)

The risk map plots observations tagged Low, Medium or High. Each one is located
twice, once by ZIP code and once by IP address. To keep the map legible at every
zoom level, `calculateClusters` recomputes the clusters on every zoom tick:

- It clears every point's `clustered` flag.
- Below scale 6 it runs a greedy assignment pass over the projected points.
- It then runs a merge pass over the provisional clusters.

The renderer is meant to draw each multi-member cluster as a circle. The circle's
radius comes from the spread of the members around the centroid, and its colour is
meant to come from the most severe member. A point whose flag stays clear is meant to
be drawn as its own glyph, with one to three lines according to its severity. The
code falls short of this in several ways:

- The fill colour callback throws a ReferenceError on the first multi-member cluster (see "## Findings"). By then the circles are appended with their position and radius, but none gets a fill or a stroke, and `renderClusters` stops before it removes stale circles.
- After a zoom no singleton is drawn, and at first render IP singletons are not drawn (the singleton-dispatch line under "## Left out").
- From scale 6 on no clusters are returned and every flag is clear, so nothing is drawn from the clusters.
- A point without a projection is in no cluster and is never drawn.

This project models that engine in Dafny and proves properties of the model.

- `Base` (base.dfy): the point record, coordinates, severity tags and colours, and a positive `Scale`.
- `DataPoints` (data_points.dfy): `prepareDataPoints`, `flattenDataPoints` and the concatenation into `plotData`.
- `SeverityColor` (severity.dfy): `determineClusterColor` and the `numLines` switch.
- `ClusterSpec` (cluster_spec.dfy): the clustering rule as functions of the projected points, and lemmas about what they return.
- `ClusterEngine` (cluster_engine.dfy): `calculateClusters` as the source runs it. The flags are an `array<bool>` indexed by point. The loops are nested. `AddPoint`, `MergeProvisional`, `AssignPass`, `MergePass` and `CalculateClusters` are each proved equal to a `ClusterSpec` function (`AssignPoint`, `MergeOne`, `Provisional`, `MergeUpTo`, `Clusters`); `TakePoint` and `MarkAll` are specified by their own post-state.
- `ClusterDisplay` (cluster_display.dfy): the radius rule of `renderClusters`.
- `ClusterScenarios` (cluster_scenarios.dfy): the radius floor and where it stops holding, a worked example of the scans without early exit, and a cluster count that falls as the zoom grows.

Points are identified by their index in `plotData`. `proj[j]` stands for
`projection([point.lon, point.lat])` of point j, and `None` stands for the
projection's `null`. The distance is a parameter `dist`. The code uses the
Euclidean distance (lines 119 and 147). The general lemmas and methods hold for every
distance. The worked scenarios place all points on the x-axis and hold for every
distance that equals |x1 - x2| there (`ExactOnXAxis`), which the Euclidean distance
does.

Some documented behaviour of this engine differs from D3Map.jsx. In each case the
model follows the code:

- Neither scan stops at the first match. A point joins every provisional cluster in range, and a provisional cluster is appended to every merged cluster in range. So a point can be in several clusters, and it can even appear twice in one merged cluster (`PointJoinsEveryClusterInRange`).
- The centroid update reads the member count after the push, so it computes `(c*n + p)/(n+1)` with n the new size. That equals the running mean only when the new point lies exactly on the centroid (`BlendIsNotMean`).
- The absorption radius is never below 10 + size. So a point less than 11 from a one-member cluster's centroid always joins it, and two points closer than 11 form one cluster at every zoom below 6 (`CloseTwoPointsAlwaysCluster`). With more points this no longer holds: absorbing a point moves the centroid, and two neighbours 9.5 apart can end in different clusters (`CloseNeighboursCanEndApart`).
- The cluster count can fall as the zoom grows, although the threshold `baseRadius / scale` shrinks. Centroid drift and the scans without early exit both contribute: four points on a line give two clusters at zoom 2 and one at zoom 3 (`FewerClustersAtHigherZoom`).
- An unrecognised severity tag is coloured Low through the default of line 84, not rejected (`DetermineClusterColor`).
- The colour rule decides by priority only. The tallies matter only through "greater than zero".

## Model

| member | source | states |
|---|---|---|
| DataPoints.PrepareDataPoints | D3Map.jsx:221-238 | one ZIP/IP pair per input record (the pair's contents are stated by FlattenPrepared) |
| DataPoints.FlattenDataPoints | D3Map.jsx:240-245 | the result has two points per pair, and positions 2k and 2k+1 hold pair k's ZIP point and then its IP point, in input order |
| DataPoints.FlattenPrepared | D3Map.jsx:221-245 | preparing and flattening a group gives 2n points that alternate ZIP ('ZIP') and IP ('I'), all tagged with the group's severity, built from record k's ZIP fields and IP fields |
| DataPoints.PlotDataLayout | D3Map.jsx:248-255 | plotData has two points per record of all six groups, alternates ZIP and IP throughout, and tags every point with a recognised severity |
| SeverityColor.CountTag | D3Map.jsx:75-82 | a tag's tally is at most the number of points, and it is positive exactly when some point carries the tag |
| SeverityColor.TallySeverities | D3Map.jsx:75-82 | the tally loop returns, for each of Low, Medium and High, the number of members with that tag |
| SeverityColor.DetermineClusterColor | D3Map.jsx:74-104 | any High member gives High's colour; otherwise any Medium member gives Medium's; otherwise (including an empty list or unrecognised tags) Low's colour; so the counts matter only through "> 0" |
| SeverityColor.DetermineClusterColorAsWritten | D3Map.jsx:84-103 | as written, every path assigns or reads the undeclared `maxR`, so the function always fails with a ReferenceError |
| SeverityColor.AsWrittenThrowsWhereIntendedColours | D3Map.jsx:84-103 | for the members [Low, High] the as-written function fails where the intended rule gives High's colour |
| SeverityColor.NumLines | D3Map.jsx:282-295 | a glyph has one line per priority rank (Low 1, Medium 2, High 3) and none for an unrecognised tag |
| SeverityColor.ColorMatchesMostSevereGlyph | D3Map.jsx:74-104 | a cluster's colour is the colour of the member tag with the most glyph lines, and Low's when no member has a recognised tag |
| ClusterSpec.AssignPointMembers | D3Map.jsx:113-140 | after a point is assigned, the clusters hold exactly the old members plus that point; the list grows by one cluster exactly when no cluster absorbed the point |
| ClusterSpec.AssignUpToWellFormed | D3Map.jsx:113-140 | every provisional cluster is non-empty, names only earlier points that have a projection, and its first member is in no other provisional cluster |
| ClusterSpec.AssignUpToCovers | D3Map.jsx:114-138 | a point is in some provisional cluster exactly when it has been scanned and has a projection; a null projection is never clustered |
| ClusterSpec.MergeOneMembers | D3Map.jsx:143-158 | merging one provisional cluster keeps every old member and adds exactly that cluster's members; the list grows by one only when no merged cluster was in range |
| ClusterSpec.MergeUpToMembers | D3Map.jsx:142-161 | the merge pass loses no member and invents none, and returns no more clusters than it was given |
| ClusterSpec.MergeUpToSingletons | D3Map.jsx:142-161 | the lone member of a one-member merged cluster is in no other merged cluster and in no provisional cluster still to be merged |
| ClusterSpec.ClustersCover | D3Map.jsx:106-164 | a point is in some returned cluster exactly when the scale is below 6 and the point has a projection |
| ClusterSpec.ClustersNoMoreThanProvisional | D3Map.jsx:142-161 | the result is never longer than the provisional list |
| ClusterSpec.SingletonFilterSound | D3Map.jsx:106-164 | every returned cluster is non-empty; its first member belongs to a multi-member cluster (so its flag ends set) exactly when the cluster has more than one member, as the singleton filter at line 344 assumes |
| ClusterSpec.BlendIsNotMean | D3Map.jsx:126-127 | for every centroid, point and size, the update with the post-push count equals the running mean (the update with the pre-push count) exactly when the point equals the centroid; a cluster at 0 taking a point at 3 moves to 1, not to the mean 1.5 |
| ClusterEngine.MarkAll | D3Map.jsx:152 | every listed point's flag is set, and all other flags are unchanged |
| ClusterEngine.TakePoint | D3Map.jsx:121-130 | the absorbing cluster becomes its members plus the point, with centroid (c*n + p)/(n+1) for the new size n; every other cluster is unchanged; the flags still mark exactly the members of multi-member clusters and only go from false to true |
| ClusterEngine.AddPoint | D3Map.jsx:114-138 | every cluster whose centroid is closer than max(50/scale, 10 + size) gets the point appended after its members, and its centroid becomes (c*n + p)/(n+1) with n the new size; every other cluster is unchanged; with no taker, one new cluster holds just the point at its projection; flags only go from false to true, and a flag is set exactly for members of multi-member clusters |
| ClusterEngine.MergeProvisional | D3Map.jsx:143-158 | every merged cluster within 50/scale gets the provisional members appended after its own, and its centroid becomes (mc*L + c)/(L+1) with L the new size; all its members are flagged; with no taker the provisional cluster is appended unchanged; flags only go from false to true |
| ClusterEngine.AssignPass | D3Map.jsx:113-140 | starting from clear flags, the pass returns the provisional clusters of the specification, every cluster non-empty and naming only real points, and leaves a flag set exactly for members of multi-member provisional clusters |
| ClusterEngine.MergePass | D3Map.jsx:142-161 | the pass returns the merged clusters of the specification, and a flag set exactly for members of multi-member provisional clusters ends set exactly for members of multi-member merged clusters |
| ClusterEngine.CalculateClusters | D3Map.jsx:106-164 | the result is the clustering the specification functions define, and from 6 on it is empty with every flag clear; on exit a point's flag is set exactly when it is in a returned cluster with more than one member, whatever the flags were on entry, so recomputing gives the same clusters and flags |
| ClusterDisplay.ClusterRadius | D3Map.jsx:179-191 | a one-member cluster has radius 10; any other has a radius of at least 10 and at least every member's distance plus 10, and the radius equals 10 or some member's distance plus 10 |
| ClusterScenarios.CloseTwoPointsAlwaysCluster | D3Map.jsx:120-127 | at any scale below 6 and for any distance, two projectable points less than 11 apart form one cluster, with centroid (2*p0 + p1)/3 |
| ClusterScenarios.CloseNeighboursCanEndApart | D3Map.jsx:117-158 | for every distance that is the difference of x-coordinates on the x-axis: points at x = 0, 10.5, 20 at zoom 5 end as clusters [0, 1] at 3.5 and [2] at 20, although points 1 and 2 are less than 11 apart |
| ClusterScenarios.FewerClustersAtHigherZoom | D3Map.jsx:106-164 | for every distance that is the difference of x-coordinates on the x-axis: for points at x = 0, 17, 31, 6, the result has two clusters at zoom 2 and one at zoom 3 |
| ClusterScenarios.ZoomProbeAtTwo | D3Map.jsx:113-161 | for every distance that is the difference of x-coordinates on the x-axis: at zoom 2 those points end as clusters [0, 1, 3] at 5.75 and [2] at 31: point 1 pulls the centroid to 17/3, leaving point 2 outside the radius of 25, and 25.25 blocks the merge |
| ClusterScenarios.ZoomProbeAtThree | D3Map.jsx:113-161 | for every distance that is the difference of x-coordinates on the x-axis: at zoom 3 point 3 joins both provisional clusters [0] and [1, 2], and the two merge into one cluster [0, 3, 1, 2, 3] at 4.625 |
| ClusterScenarios.PointJoinsEveryClusterInRange | D3Map.jsx:117-155 | for every distance that is the difference of x-coordinates on the x-axis: points at x = 0, 60, 30 at zoom 1 give provisional clusters [0, 2] and [1, 2], which merge into one cluster listing point 2 twice |

## Left out

- React lifecycle, loading state and the JSX return (D3Map.jsx:14-31, 425-450): framework plumbing with no behaviour to state.
- All drawing (D3Map.jsx:33-70, 168-199, 259-337, 355-424): SVG creation, zoom wiring, the selections in `renderClusters`, glyph drawing, the base map and the legend. These are calls into D3 and the DOM. Of `renderClusters`, only the radius rule is modelled. The fill colour callback is modelled by `DetermineClusterColor`.
- The projection `d3.geoAlbersUsa` (line 72) is a library function. The model takes its results as the sequence `proj`.
- `Math.sqrt` and IEEE-754 rounding: arithmetic is on `real`, and the distance is the parameter `dist`.
- Tooltip handlers (lines 203-219) and `console.log`: user interface and I/O.
- The singleton dispatch (lines 54-57 and 346-350) compares `type` with "prop1" and "prop2" after a zoom (lines 54-57), and with "ZIP" and "IP" at first render (lines 346-350). Only "ZIP" matches a tag the points carry; "IP" differs from the 'I' tag of line 231. So at first render only ZIP singletons are drawn, IP singletons are never drawn, and after a zoom no singleton is drawn at all. This is rendering glue and is not modelled.
- Glyph line offsets (lines 297-300): drawing geometry.
- Cluster objects are updated in place in the source (`centroid[0]`, `points.push`). The model replaces the cluster value in a local sequence instead. No aliasing is lost: the provisional list is discarded after the merge pass, and each centroid array is a fresh projection result.
- ClusterDisplay.ClusterRadius: requires every member to have a projection. The source would throw a TypeError otherwise. Every cluster `calculateClusters` returns meets this (ClusterSpec.ClustersCover).
- `Scale` is any positive real. The zoom controller's range [1, 8] (line 67) is not enforced, and the model needs only that the divisor is positive.
- The unused `maxCount` variable of `determineClusterColor` is not modelled.

## Findings

| source | as written | input that shows it | evidently intended | confidence | as-written member | corrected member |
|---|---|---|---|---|---|---|
| D3Map.jsx:84-103 | the branches assign, and the return reads, `maxR`, which is never declared (line 84 declares `max`); module code runs in strict mode, so this throws a ReferenceError | a cluster with members tagged [Low, High] (any multi-member cluster whose circle is filled) | assign and return the declared variable: colour by severity priority | high; not executed | SeverityColor.DetermineClusterColorAsWritten, SeverityColor.AsWrittenThrowsWhereIntendedColours | SeverityColor.DetermineClusterColor |
