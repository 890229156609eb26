# Infrastructure annotator core, modelled in Dafny

The annotator is a floor-plan tool in the browser. On a background image the user:

- draws a building **perimeter** (a polygon that is open until it is closed);
- draws a **scale line** of known length in metres, which gives the metres per pixel;
- draws rectangular **zones**, each with a ceiling height, a shelf height and a colour from a five-entry palette;
- places wireless **antennas** by hand, or lets `populateAntennasInZone` place them on a rule-based grid inside a zone;
- draws **measures**.

The whole document can be exported and imported again. A viewport store keeps pan and zoom. A settings store keeps the grid-snap options used by the line snapper and the export options.

This project models five source files:

- the annotation document store (`annotations.dfy`, with its pure rules in `annotation_rules.dfy`);
- the geometry helpers (`geometry.dfy`);
- the line snapper (`grid_snapping.dfy`);
- the viewport store (`canvas.dfy`);
- the settings store (`settings.dfy`).

`types.dfy` holds the shapes the stores share.

Each store is a class whose fields are the store's state, with methods that update those fields in place:

- `Annotations.AnnotationStore` for the document;
- `Canvas.Viewport` for pan and zoom;
- `Settings.SettingsStore` and `GridSnapping.GridSnapper` for the settings.

Every method of the document store states its whole new state as an update of the old one, through `State()`. Every method also keeps `Valid()`: every id in an array is below that array's id counter, so a freshly drawn id is never in use.

Loops in the source are `while` loops here, each with invariants:

- the ray-casting loop;
- the minimum over the perimeter edges;
- the coverage sampling;
- the reverse splice loops;
- the grid walk;
- the spacing scan over the antennas (`TooClose`);
- the import `forEach` loops.

The perimeter test, the distance and coverage loops, the splice loops and the import loops are each proved equal to a recursive specification function, and the properties are proved about that function. Two loops are treated differently:

- `TooClose` is proved to return true exactly when some antenna lies inside the clearance, an `exists` over the antennas.
- The grid walk (`PlaceGrid` and `PlaceColumn`, each step through `TryPlace`) is proved sound only. Every antenna it appends passes the inside, wall and spacing checks, and the state before it is kept. No function is given that the walk equals.

Modelling conventions:

- Coordinates are `real`.
- Distances are compared **squared**. `Geometry.Dist2` is the squared distance. A source comparison `d < t` with `t >= 0` becomes `d2 < Sq(t)`. The 1000 sentinel of `getDistanceToPerimeter` becomes `Sq(1000)`.
- JavaScript's truncating `%` is written out: `GridSnapping.JsRem360` for reals and `AnnotationRules.JsIntRem` for ints.
- `Math.round` is `floor(v + 1/2)`.
- JavaScript truthiness (`x || default`, `if (x)`) is written out case by case.

## Model

| member | source | states |
|---|---|---|
| Geometry.IsPointInPerimeter | jrtech-infra-annotator/src/utils/geometry.ts:3-24 | the loop's result is `Inside`: true for an open perimeter or one with fewer than 3 points, otherwise the parity of the number of edges (i, i-1 mod n) that straddle y with the crossing to the right of x |
| Geometry.CrossingsCountEdges | jrtech-infra-annotator/src/utils/geometry.ts:13-22 | the toggle count equals the size of the set of crossing edges, so the parity is that of the crossing edge set |
| Geometry.SquareExample | jrtech-infra-annotator/src/utils/geometry.ts:11-23 | for a closed 10×10 square the centre is inside and (15, 5) is outside |
| Geometry.PointToLineDistance | jrtech-infra-annotator/src/utils/geometry.ts:80-99 | the squared segment distance is never negative |
| Geometry.ProjectionParameter | jrtech-infra-annotator/src/utils/geometry.ts:94 | the projection parameter is clamped into [0, 1] |
| Geometry.Clamp01 | jrtech-infra-annotator/src/utils/geometry.ts:94 | `max(0, min(1, v))` lies in [0, 1] and keeps a v already there |
| Geometry.SegmentDistanceMinimal | jrtech-infra-annotator/src/utils/geometry.ts:94-98 | the clamped projection is the nearest point of the segment: its distance is at most the distance to any point x1 + u·d with u in [0, 1] |
| Geometry.SegmentEndpoints | jrtech-infra-annotator/src/utils/geometry.ts:94-98 | on a segment of non-zero length the distance is at most the distance to either endpoint |
| Geometry.PointToLineDistanceBounds | jrtech-infra-annotator/src/utils/geometry.ts:88-98 | a zero-length segment gives the distance to its point; the distance never exceeds the distance to either endpoint and is 0 at an endpoint |
| Geometry.ClampIsNearest | jrtech-infra-annotator/src/utils/geometry.ts:94 | clamping s into [0, 1] gives the point of [0, 1] nearest to s |
| Geometry.QuadraticMonotone | jrtech-infra-annotator/src/utils/geometry.ts:94-98 | the squared distance along the line grows with the parameter's distance from the unclamped projection |
| Geometry.AlongSegment | jrtech-infra-annotator/src/utils/geometry.ts:94-98 | the squared distance to the point at parameter u is a quadratic in u centred at the projection |
| Geometry.MinEdgeDistance | jrtech-infra-annotator/src/utils/geometry.ts:70-75 | the running minimum over the first k edges is at most every edge distance and equal to one of them |
| Geometry.DistanceToPerimeter | jrtech-infra-annotator/src/utils/geometry.ts:60-78 | the sentinel 1000 (squared) for an open or degenerate perimeter; otherwise at most the distance to every edge, including the closing edge from the last point to the first, and equal to one of them |
| Geometry.GetDistanceToPerimeter | jrtech-infra-annotator/src/utils/geometry.ts:60-78 | the loop returns `DistanceToPerimeter` |
| Geometry.PointsInRing | jrtech-infra-annotator/src/utils/geometry.ts:43 | the centre ring has one sample, every other ring has 16 |
| Geometry.RingInside | jrtech-infra-annotator/src/utils/geometry.ts:45-54 | the inside count of a ring is at most the number of samples tested |
| Geometry.SamplesBeforeClosedForm | jrtech-infra-annotator/src/utils/geometry.ts:41-55 | after r rings, 1 + 16·(r - 1) samples have been taken |
| Geometry.TotalSamples | jrtech-infra-annotator/src/utils/geometry.ts:38-55 | the sampling takes exactly 1 + 8·16 = 129 samples |
| Geometry.InsideBefore | jrtech-infra-annotator/src/utils/geometry.ts:41-55 | the inside count never exceeds the samples taken |
| Geometry.CoverageEfficiency | jrtech-infra-annotator/src/utils/geometry.ts:26-58 | 1.0 for an open or degenerate perimeter, otherwise inside/total, which lies in [0, 1] |
| Geometry.CalculateCoverageEfficiency | jrtech-infra-annotator/src/utils/geometry.ts:26-58 | the nested ring and angle loops return `CoverageEfficiency`, which lies in [0, 1] |
| Geometry.IsPointInRect | jrtech-infra-annotator/src/utils/geometry.ts:101-107 | true exactly when each coordinate lies between the two corners' coordinates, whichever is larger |
| Geometry.PointInRectSymmetric | jrtech-infra-annotator/src/utils/geometry.ts:101-107 | swapping the corners does not change the answer, and both corners are inside |
| GridSnapping.JsRem360 | jrtech-infra-annotator/src/utils/grid-snapping.ts:37 | JavaScript `a % 360`: in (-360, 360), with the sign of a, and it differs from a by a multiple of 360 |
| GridSnapping.PositiveRem360 | jrtech-infra-annotator/src/utils/grid-snapping.ts:37 | for a >= 0, the remainder lies in [0, 360) and differs from a by a multiple of 360 |
| GridSnapping.NormalizeAngle | jrtech-infra-annotator/src/utils/grid-snapping.ts:37 | `((a % 360) + 360) % 360` lies in [0, 360), differs from a by a multiple of 360, keeps an angle already in [0, 360) and adds 360 to one in (-360, 0) |
| GridSnapping.MultipleOf360Sum | jrtech-infra-annotator/src/utils/grid-snapping.ts:37 | the sum of two multiples of 360 is one |
| GridSnapping.CloseToAngleIsCircular | jrtech-infra-annotator/src/utils/grid-snapping.ts:106-113 | for angles in [0, 360), `isCloseToAngle` holds exactly when the circular distance is within the tolerance, and it is symmetric |
| GridSnapping.WrapAroundExample | jrtech-infra-annotator/src/utils/grid-snapping.ts:106-113 | 359° is within 1° of 0°, while 358° is not |
| GridSnapping.AverageDelta | jrtech-infra-annotator/src/utils/grid-snapping.ts:73 | the averaged delta is non-negative, and positive unless both deltas are 0 |
| GridSnapping.ScaledSign | jrtech-infra-annotator/src/utils/grid-snapping.ts:74-75 | a positive scale times `Math.sign(v)` has the sign of v and magnitude a |
| GridSnapping.MergeGridSnap | jrtech-infra-annotator/src/utils/grid-snapping.ts:17-19 | each supplied field replaces the current one; each missing field is kept |
| GridSnapping.MergeGridSnapIdentity | jrtech-infra-annotator/src/utils/grid-snapping.ts:17-19 | an empty update changes nothing, and applying the same update twice is the same as once |
| GridSnapping.GridSnapper.constructor | jrtech-infra-annotator/src/utils/grid-snapping.ts:13-15 | the snapper starts with the given settings |
| GridSnapping.GridSnapper.UpdateSettings | jrtech-infra-annotator/src/utils/grid-snapping.ts:17-19 | the settings become the merge of the old settings with the update |
| GridSnapping.GridSnapper.SnapLine | jrtech-infra-annotator/src/utils/grid-snapping.ts:24-104 | snapped exactly when a snap type is reported. Otherwise the end point is returned, in particular whenever snapping is disabled. Horizontal exactly when enabled and near 0°/180°; it keeps x = endX and sets y = startY. Vertical exactly when enabled, not horizontal and near 90°/270°; it sets x = startX and keeps y = endY. No diagonal snap when the diagonal snap is disabled. 45° exactly when enabled, neither horizontal nor vertical, the diagonal snap enabled and near 45°/225°. 135° exactly when, in addition, not near 45° but near 135°/315°. So when no test matches the line is left unsnapped at its end point. A 45° snap moves each coordinate by the averaged delta with the sign of its own delta. A 135° snap has y - startY = -(x - startX) |
| GridSnapping.DiagonalSnapIsSquare | jrtech-infra-annotator/src/utils/grid-snapping.ts:66-99 | when the angle is the true direction of the deltas, a 45° snap only occurs with both deltas non-zero and gives \|x - startX\| = \|y - startY\| = (\|Δx\| + \|Δy\|)/2; the same holds for a 135° snap |
| Settings.ToggleEnabled | jrtech-infra-annotator/src/stores/settings.ts:25-27 | only `enabled` changes, and it flips |
| Settings.ToggleTwice | jrtech-infra-annotator/src/stores/settings.ts:21-27 | toggling twice restores the settings; a toggle equals the partial update that supplies only the flipped `enabled`; a toggle always changes the settings |
| Settings.SettingsStore.constructor | jrtech-infra-annotator/src/stores/settings.ts:6-19 | the dialog flag starts closed; all five export options start true; snapping starts enabled with 15° orthogonal and 10° diagonal tolerance and the diagonal snap enabled |
| Settings.SettingsStore.UpdateGridSnapSettings | jrtech-infra-annotator/src/stores/settings.ts:21-23 | gridSnap becomes the merge with the supplied fields; nothing else changes |
| Settings.SettingsStore.ToggleGridSnap | jrtech-infra-annotator/src/stores/settings.ts:25-27 | gridSnap becomes its toggle; nothing else changes |
| Settings.DefaultSnapExamples | jrtech-infra-annotator/src/stores/settings.ts:14-19 | with the default settings, a line given the angle 10° snaps horizontal and one given 80° snaps vertical. A line with deltas (5, 6), given its 50° direction, snaps to (5.5, 5.5) on the 45° diagonal. One given 30° is left alone. The angles are those passed in, not measured from the deltas; the deltas of the other three point at about 5.7°, 84.3° and 31.0°, which give the same verdicts |
| Canvas.ScreenWorldInverse | jrtech-infra-annotator/src/stores/canvas.ts:34-35 | for a non-zero zoom, `(screen - pan)/zoom` and `zoom·world + pan` are inverse to each other in both directions |
| Canvas.ClampZoom | jrtech-infra-annotator/src/stores/canvas.ts:14-15 | the result lies in [1, 10], keeps a value already there, and clamps to the nearer bound otherwise |
| Canvas.BoundedPanProperties | jrtech-infra-annotator/src/stores/canvas.ts:72-102 | an axis whose scaled image fits is centred at (canvas - scaled)/2 whatever was requested. Otherwise the pan lies in [canvas - scaled, 0], so the image covers the canvas, and a request already in that range is kept |
| Canvas.BoundedPanIdempotent | jrtech-infra-annotator/src/stores/canvas.ts:105-108 | clamping an already clamped pan changes nothing |
| Canvas.Viewport.constructor | jrtech-infra-annotator/src/stores/canvas.ts:8-11 | the view starts at pan (0, 0) and zoom 1 |
| Canvas.Viewport.CanvasCoords | jrtech-infra-annotator/src/stores/canvas.ts:23-37 | the world point returned maps back, under the current transform, to the given screen point |
| Canvas.Viewport.Pan | jrtech-infra-annotator/src/stores/canvas.ts:52-103 | the zoom is unchanged. Without truthy image sizes the deltas are simply added. With them, both axes are centred when both fit; otherwise each axis is the bounded pan of its requested value |
| Canvas.Viewport.ClampPan | jrtech-infra-annotator/src/stores/canvas.ts:105-108 | the current pan is replaced by its bounded version for the image; a zero image size leaves the pan alone |
| Canvas.Viewport.ZoomAt | jrtech-infra-annotator/src/stores/canvas.ts:110-147 | the zoom becomes the clamped product, so it lies in [1, 10]. If that equals the old zoom nothing changes. Otherwise the pan keeps the world point under the cursor in place, then is bounded when truthy image sizes are given |
| Canvas.CursorAnchored | jrtech-infra-annotator/src/stores/canvas.ts:127-140 | after the new pan the world point that was under the cursor maps to the same screen point at the new zoom |
| Canvas.Viewport.ResetView | jrtech-infra-annotator/src/stores/canvas.ts:149-154 | pan (0, 0) and zoom 1 |
| Canvas.Viewport.FitToView | jrtech-infra-annotator/src/stores/canvas.ts:156-175 | the zoom is the smallest of the two padded fit ratios and 1, so it never exceeds 1. The scaled image fits inside the padded canvas and is centred in both axes |
| AnnotationRules.GetAntennaPlacementRules | jrtech-infra-annotator/src/stores/annotations.ts:48-79 | a ceiling of at least 4 over shelves of at most 2.1 gives 12/14/6/7 with radius (14/2)·1.15; every other input gives 10/12/5/6 with radius (12/2)·1.15; the radius is always half the larger spacing times 1.15 and every distance is positive |
| AnnotationRules.MetersPerPx | jrtech-infra-annotator/src/stores/annotations.ts:21-30 | a value exactly when start, end and positive metres are present and the ends differ (non-zero pixel length); the value is positive and times the pixel length gives the metres |
| AnnotationRules.ZeroLengthIffSamePoint | jrtech-infra-annotator/src/stores/annotations.ts:23-26 | the scale line's pixel length is 0 exactly when its ends coincide |
| AnnotationRules.NatToString | jrtech-infra-annotator/src/stores/annotations.ts:159 | a non-empty string of decimal digits |
| AnnotationRules.NatToStringSpells | jrtech-infra-annotator/src/stores/annotations.ts:159 | the printed digits spell exactly n (read most significant first) and a number of two or more digits has no leading zero |
| AnnotationRules.LabelExamples | jrtech-infra-annotator/src/stores/annotations.ts:159-213 | the first zone is labelled "Zone 1", the twelfth "Zone 12", and the hundredth antenna "A100" |
| AnnotationRules.JsIntRem | jrtech-infra-annotator/src/stores/annotations.ts:184 | JavaScript's `%`: in [0, m) for a non-negative dividend, in (-m, 0] for a negative one, and a - r is a multiple of m; together these fix the value |
| AnnotationRules.ColorStepInPalette | jrtech-infra-annotator/src/stores/annotations.ts:181-185 | from a palette index, a step of ±1 stays in [0, 5), and the opposite step undoes it |
| AnnotationRules.ColorStepNegativeExample | jrtech-infra-annotator/src/stores/annotations.ts:184 | from an index outside the palette the step can leave it: -7 stepped by -1 gives -3 |
| AnnotationRules.IndexOf | jrtech-infra-annotator/src/stores/annotations.ts:169 | `findIndex`: -1 exactly when the id is absent, otherwise the first position holding it |
| AnnotationRules.WithoutZoneKeeps | jrtech-infra-annotator/src/stores/annotations.ts:173-177 | an antenna survives the zone removal exactly when it was present and is not of that zone |
| AnnotationRules.WithoutZoneAppend | jrtech-infra-annotator/src/stores/annotations.ts:173-177 | the removal distributes over concatenation, so the survivors keep their relative order |
| AnnotationRules.WithoutZoneIdempotent | jrtech-infra-annotator/src/stores/annotations.ts:281-285 | removing a zone's antennas twice is the same as once |
| AnnotationRules.WithoutIdsKeeps | jrtech-infra-annotator/src/stores/annotations.ts:263-268 | an antenna survives exactly when it was present and its id is not selected |
| AnnotationRules.WithoutIdsAppend | jrtech-infra-annotator/src/stores/annotations.ts:263-268 | the removal distributes over concatenation, so the survivors keep their order |
| AnnotationRules.Round | jrtech-infra-annotator/src/stores/annotations.ts:298-299 | `Math.round` gives an integer within half a unit: v - 0.5 < r <= v + 0.5 |
| AnnotationRules.SpacingX | jrtech-infra-annotator/src/stores/annotations.ts:288 | the horizontal grid step is positive, so the walk advances |
| AnnotationRules.SpacingY | jrtech-infra-annotator/src/stores/annotations.ts:289 | the vertical grid step is positive |
| AnnotationRules.MinWallDistancePx | jrtech-infra-annotator/src/stores/annotations.ts:313-315 | the smaller wall distance in pixels is positive |
| AnnotationRules.StepsLeftDecrease | jrtech-infra-annotator/src/stores/annotations.ts:295-296 | each step of a grid loop decreases the number of positions left, so both grid loops terminate |
| AnnotationRules.PlacedFromAppend | jrtech-infra-annotator/src/stores/annotations.ts:333-335 | appending an antenna that passed the three checks keeps the placement record |
| AnnotationRules.RepopulateReplaces | jrtech-infra-annotator/src/stores/annotations.ts:280-285 | removing the zone's antennas after adding only antennas of that zone gives back the first removal: re-populating replaces rather than appends |
| AnnotationRules.WithoutZoneAllInZone | jrtech-infra-annotator/src/stores/annotations.ts:280-285 | removing a zone from antennas all of that zone leaves nothing |
| AnnotationRules.AssignId | jrtech-infra-annotator/src/stores/annotations.ts:390-392 | a truthy imported id is kept and may raise the maximum; a missing one is drawn from the counter, which then advances |
| AnnotationRules.ZoneDefaults | jrtech-infra-annotator/src/stores/annotations.ts:391-403 | falsy fields take their defaults: w = h = 100, ceilingHeight 3, shelfHeight 2.1, coverageRadius 6, colorIndex 0, label "Zone n"; a truthy width is kept; showCoverage only when true |
| AnnotationRules.AntennaFromInput | jrtech-infra-annotator/src/stores/annotations.ts:411-417 | the record takes the assigned id and keeps the zone id as given |
| AnnotationRules.MeasureFromInput | jrtech-infra-annotator/src/stores/annotations.ts:425-429 | the record takes the assigned id |
| AnnotationRules.RepairCounter | jrtech-infra-annotator/src/stores/annotations.ts:434-436 | the repaired counter is above the largest imported id and not below the old counter |
| AnnotationRules.ImportZonesIds | jrtech-infra-annotator/src/stores/annotations.ts:388-405 | one zone per item, in order, each built from its item with its position for the default label; a truthy id is kept; every id is at most the recorded maximum or below the final counter, and the counter never falls |
| AnnotationRules.ImportAntennasIds | jrtech-infra-annotator/src/stores/annotations.ts:408-419 | the same for antennas |
| AnnotationRules.ImportMeasuresIds | jrtech-infra-annotator/src/stores/annotations.ts:422-431 | the same for measures |
| AnnotationRules.ImportMayRepeatIds | jrtech-infra-annotator/src/stores/annotations.ts:388-405 | the counter is not reset, so a record without id followed by one with id 1 gives two zones with id 1 |
| AnnotationRules.ZonesAsInput | jrtech-infra-annotator/src/stores/annotations.ts:345 | the exported zones read back as inputs one to one |
| AnnotationRules.AntennasAsInput | jrtech-infra-annotator/src/stores/annotations.ts:346 | the exported antennas read back as inputs one to one |
| AnnotationRules.MeasuresAsInput | jrtech-infra-annotator/src/stores/annotations.ts:347 | the exported measures read back as inputs one to one |
| AnnotationRules.ZoneRoundTrip | jrtech-infra-annotator/src/stores/annotations.ts:341-403 | a zone with no falsy field imports as itself |
| AnnotationRules.ImportZonesOfExport | jrtech-infra-annotator/src/stores/annotations.ts:345-405 | exported zones with no falsy field import as themselves and leave the counter alone |
| AnnotationRules.ImportAntennasOfExport | jrtech-infra-annotator/src/stores/annotations.ts:346-419 | exported antennas with a truthy id and label import as themselves |
| AnnotationRules.ImportMeasuresOfExport | jrtech-infra-annotator/src/stores/annotations.ts:347-431 | exported measures with a truthy id import as themselves |
| AnnotationRules.ZeroWidthComesBackDefault | jrtech-infra-annotator/src/stores/annotations.ts:395 | a zone of width 0 comes back from export and import with width 100 |
| Annotations.ImportRepairsCounters | jrtech-infra-annotator/src/stores/annotations.ts:387-436 | after an import every id in each array is below its counter, and no counter falls |
| Annotations.ExportImportRoundTrip | jrtech-infra-annotator/src/stores/annotations.ts:341-443 | importing an export restores perimeter, scale, zones, antennas and measures when no record has a falsy field; the selection is empty and the counters only grow |
| Annotations.AnnotationStore.constructor | jrtech-infra-annotator/src/stores/annotations.ts:13-45 | an empty open perimeter, an empty scale line, empty arrays, counters at 1 and no selection |
| Annotations.AnnotationStore.AddPerimeterPoint | jrtech-infra-annotator/src/stores/annotations.ts:118-120 | the point is appended to the perimeter; nothing else changes |
| Annotations.AnnotationStore.ClosePerimeter | jrtech-infra-annotator/src/stores/annotations.ts:122-124 | the perimeter is closed; nothing else changes |
| Annotations.AnnotationStore.ClearPerimeter | jrtech-infra-annotator/src/stores/annotations.ts:126-129 | the perimeter is empty and open; nothing else changes |
| Annotations.AnnotationStore.SetScaleLine | jrtech-infra-annotator/src/stores/annotations.ts:132-135 | both ends of the scale line are set and its length kept |
| Annotations.AnnotationStore.SetScaleMeters | jrtech-infra-annotator/src/stores/annotations.ts:137-139 | the length in metres is set, the ends kept |
| Annotations.AnnotationStore.AddZone | jrtech-infra-annotator/src/stores/annotations.ts:142-166 | one zone is appended with the counter's id, which no zone uses, then the counter advances. Its colour is the zone count mod 5, its label is numbered after the zones present, and its coverage radius comes from the placement rules; nothing else changes |
| Annotations.AnnotationStore.DeleteZone | jrtech-infra-annotator/src/stores/annotations.ts:168-179 | an unknown id changes nothing. Otherwise the first zone with the id is spliced out and exactly the antennas of that zone go, the rest in order |
| Annotations.AnnotationStore.RemoveZoneAntennas | jrtech-infra-annotator/src/stores/annotations.ts:173-177 | the reverse splice loop leaves exactly the antennas not of the zone, in order |
| Annotations.AnnotationStore.ChangeZoneColor | jrtech-infra-annotator/src/stores/annotations.ts:181-185 | an unknown id changes nothing; otherwise only the first such zone's colour index moves by the step around the palette |
| Annotations.AnnotationStore.UpdateZoneAt | jrtech-infra-annotator/src/stores/annotations.ts:182-196 | writing a zone back in place, keeping its id, changes only that position |
| Annotations.AnnotationStore.UpdateZoneParameters | jrtech-infra-annotator/src/stores/annotations.ts:188-197 | an unknown id changes nothing. Otherwise the zone takes the new heights and exactly the placement rules' coverage radius for them |
| Annotations.AnnotationStore.ToggleZoneCoverage | jrtech-infra-annotator/src/stores/annotations.ts:200-205 | only that zone's coverage flag flips |
| Annotations.AnnotationStore.AddAntenna | jrtech-infra-annotator/src/stores/annotations.ts:208-216 | one antenna is appended with the counter's id (unused by any antenna) and the label "A" + (count + 1); the counter advances; nothing else changes |
| Annotations.AnnotationStore.DeleteAntenna | jrtech-infra-annotator/src/stores/annotations.ts:218-224 | an unknown id changes nothing; otherwise the first antenna with the id is spliced out and the id leaves the selection |
| Annotations.AnnotationStore.UpdateAntennaPosition | jrtech-infra-annotator/src/stores/annotations.ts:226-232 | only the first such antenna's coordinates change |
| Annotations.AnnotationStore.AddMeasure | jrtech-infra-annotator/src/stores/annotations.ts:235-241 | one measure is appended with the counter's id (unused by any measure), and the counter advances |
| Annotations.AnnotationStore.DeleteMeasure | jrtech-infra-annotator/src/stores/annotations.ts:243-248 | an unknown id changes nothing; otherwise the first measure with the id is spliced out |
| Annotations.AnnotationStore.SelectAntenna | jrtech-infra-annotator/src/stores/annotations.ts:251-253 | the id joins the selection |
| Annotations.AnnotationStore.DeselectAntenna | jrtech-infra-annotator/src/stores/annotations.ts:255-257 | the id leaves the selection |
| Annotations.AnnotationStore.ClearSelection | jrtech-infra-annotator/src/stores/annotations.ts:259-261 | the selection is empty |
| Annotations.AnnotationStore.DeleteSelectedAntennas | jrtech-infra-annotator/src/stores/annotations.ts:263-270 | exactly the antennas whose id was selected go, the rest keep their order, and the selection ends empty |
| Annotations.AnnotationStore.TooClose | jrtech-infra-annotator/src/stores/annotations.ts:322-331 | true exactly when some present antenna lies closer than the minimum distance |
| Annotations.AnnotationStore.PopulateAntennasInZone | jrtech-infra-annotator/src/stores/annotations.ts:273-338 | a complete no-op when the zone is unknown or there is no scale. Otherwise the zone's antennas are removed and the others kept in order; the walk then appends antennas with consecutive fresh ids and running labels. Each appended antenna carries the zone id, has integer coordinates, is inside the perimeter, is at least half the smaller wall distance from it, and is at least 0.7 of the smaller spacing from every antenna before it |
| Annotations.AnnotationStore.PlaceGrid | jrtech-infra-annotator/src/stores/annotations.ts:287-337 | the outer grid loop only appends, and every appended antenna meets the placement record |
| Annotations.AnnotationStore.PlaceColumn | jrtech-infra-annotator/src/stores/annotations.ts:296-336 | one column of the walk only appends antennas that meet the placement record |
| Annotations.AnnotationStore.TryPlace | jrtech-infra-annotator/src/stores/annotations.ts:298-335 | a grid point is appended only after the inside, wall and spacing checks pass |
| Annotations.AnnotationStore.ImportData | jrtech-infra-annotator/src/stores/annotations.ts:351-443 | false exactly for a non-object, and then nothing changes. Otherwise the store becomes `ImportedState`: perimeter and arrays refilled with defaults, the selection empty, the scale line overwritten only where the data has truthy parts, and each counter moved past the largest imported id |
| Annotations.AnnotationStore.ClearForImport | jrtech-infra-annotator/src/stores/annotations.ts:358-385 | the clearing, perimeter and scale part of the import |
| Annotations.AnnotationStore.ImportZoneRecords | jrtech-infra-annotator/src/stores/annotations.ts:388-405 | the `forEach` over the zones leaves `ImportZones` of the items in the array and the counter, and returns its maximum id |
| Annotations.AnnotationStore.ImportAntennaRecords | jrtech-infra-annotator/src/stores/annotations.ts:408-419 | the same for antennas |
| Annotations.AnnotationStore.ImportMeasureRecords | jrtech-infra-annotator/src/stores/annotations.ts:422-431 | the same for measures |
| Annotations.AnnotationStore.RepairCounters | jrtech-infra-annotator/src/stores/annotations.ts:433-436 | each counter is moved past the largest imported id when it is not already above it |

## Left out

- `Math.hypot`, `Math.atan2`, `Math.cos` and `Math.sin` are not computed.
  - Distances are compared squared.
  - The scale line's pixel length is a parameter of `MetersPerPx` and `PopulateAntennasInZone`. `ScaleLengthOk` ties it to the squared distance.
  - The snapper takes the atan2 angle in degrees as a parameter. `AngleOnAxes` states what is known about it.
  - The coverage sampling takes its 16 directions as a parameter.
- IEEE floating point (rounding, NaN, infinities) is not modelled. Arithmetic is exact over the reals.
- `getBoundingClientRect` scaling, `setTransform`, `initCanvas` and the "no canvas" early returns are DOM work. The canvas is taken as present with its on-screen size equal to its pixel size.
- Canvas.Viewport.ZoomAt requires a non-zero zoom. A fit on a canvas exactly 80 px wide or high leaves the zoom at 0, and a smaller one makes it negative (canvas.ts:157-169), and the source then divides by zero when it computes the world point (canvas.ts:127-128). The resulting infinities are not modelled.
- Canvas.Viewport.FitToView requires positive image sizes. The source would divide by zero and produce infinities.
- AnnotationStore.ChangeZoneColor takes an integer direction. A fractional direction would give a fractional index, which the model does not represent.
- ColorStepInPalette is stated for a direction of ±1, the only one the interface passes.
- `Partial<GridSnapSettings>` with an explicit `undefined` field is not modelled. A supplied field is `Some`, a missing one `None`.
- `importData`: a null or undefined record entry makes the source throw partway through the import, after clearing. That is not modelled. A number or string entry reads every field as missing and imports as an all-defaults record, which the model gives with all-`None` inputs. Non-numeric values in numeric fields and the `try`/`catch` logging are not modelled either. Values of the wrong kind count as missing.
- Annotations.AnnotationStore.PopulateAntennasInZone does not state completeness. The contract says every added antenna meets the three checks. It does not say that every grid point meeting them is added.
- GridSnapping.GridSnapper.SnapLine states the equal magnitudes of a 45° or 135° snap only through DiagonalSnapIsSquare. That lemma needs the angle to be the true direction of the deltas.
- `isPositionValid` and `isWithinWallDistanceLimit` (annotations.ts:82-115) are never called, so they are not modelled.
- The selection box, `openImportExportDialog` and `tools.ts` are UI state only.
- Canvas painting (`useCanvasRenderer.ts`), image loading (`image.ts`), file download (`export.ts`), DOM listeners, routing and authentication are rendering and I/O. They are not part of this model.
- Vue/Pinia reactivity and `computed` are framework plumbing. `metersPerPx` is a function of the scale line here.
- `addZone`'s default arguments (3 and 2.1) are explicit parameters of `AddZone`.
- The zone colour palette is represented only by its size, 5 (constants.ts:18-24).
- The code's rule table has three branches. The first (ceiling at most 3) returns the same values as the fallback, so the contract states two rule sets.
- An imported zone without a coverage radius gets 6. A zone added by hand gets the rules' (12/2)·1.15 = 6.9. Both follow the code.
