# Earthquake map styling: a Dafny model

The repository draws one week of earthquakes from a GeoJSON feed as circle
markers on a web map, and it shows a colour legend beside them. Apart from the
mapping-library calls, all of its logic is a small styling layer in
`static/js/logic.js`. This project models that layer:

- `getColor(depth)` sorts an event's depth (in kilometres) into one of six
  colour bands. Each band has an exclusive lower bound of 10, 30, 50, 70 or 90.
  This is `Markers.GetColor`.
- `getRadius(magnitude)` draws a circle of radius four times the magnitude.
  A magnitude of exactly zero gets radius 1. This is `Markers.GetRadius`.
- `styleInfo(feature)` builds the circle's path options. The fill comes from
  the depth, the radius comes from the magnitude, and every other option is a
  constant. This is `Style.StyleInfo`.
- The legend has two parallel tables: the grades `[-10, 10, 30, 50, 70, 90]` and
  the six swatch colours. A loop labels each band `lo–hi`, or `lo+` when the next
  grade is falsy in JavaScript. These are `Legend.Grades`, `Legend.LegendColors`,
  `Legend.LabelAt` and `Legend.BuildLegend`.

Colours are an enumeration, `Colors.Color`, ordered from green (band 0) to red
(band 5). `Colors.Hex` gives the CSS string that the source returns for each one.
Depths and magnitudes are `real`. The classifier also has an independent
reference definition, `Markers.Exceeded`: the number of thresholds that lie
strictly below the depth. The monotonicity and legend-agreement proofs go
through this definition.

Modules: `Colors` (palette), `Markers` (getColor, getRadius), `Style`
(styleInfo) and `Legend` (legend tables and label loop).

The comment above `getColor` (static/js/logic.js:21) says the colour depends on
magnitude. The code and its caller (static/js/logic.js:59) use depth, and the
model follows the code.

## Model

| member | source | states |
|---|---|---|
| Colors.Rank | static/js/logic.js:100-107 | each colour has a band position below six, in the legend's order from green to red |
| Colors.OfRank | static/js/logic.js:100-107 | each band position 0..5 has exactly one colour, and that colour's position is the band position (inverse of Rank) |
| Colors.HexInjective | static/js/logic.js:24-35 | the six hex strings are pairwise distinct, so a fill string identifies its band; every spelling is in the six-string palette |
| Markers.GetColor | static/js/logic.js:22-36 | the classifier is total: every depth gets a colour whose hex string is one of exactly six, #FF0000, #FF4500, #FFA500, #FFFF00, #90EE90, #00FF00 |
| Markers.GetRadius | static/js/logic.js:41-47 | a positive magnitude gives a positive radius, and away from zero the radius divided by 4 is the magnitude |
| Markers.BandRules | static/js/logic.js:22-36 | both directions of the band rules with exclusive lower bounds: red iff d > 90, orange-red iff 70 < d <= 90, orange iff 50 < d <= 70, yellow iff 30 < d <= 50, light green iff 10 < d <= 30, green iff d <= 10 (negatives included) |
| Markers.GetColorCountsThresholds | static/js/logic.js:23-36 | the band index of the colour equals the number of thresholds 10, 30, 50, 70, 90 that the depth strictly exceeds |
| Markers.ExceededMonotone | static/js/logic.js:23-36 | for any threshold table, raising the depth never lowers the number of thresholds it exceeds; this is the monotone core of the classifier |
| Markers.ExceededInBand | static/js/logic.js:99-107 | for any strictly increasing boundary table, a depth in (ts[k-1], ts[k]] exceeds exactly k boundaries; below the first it exceeds none, above the last all; this is the general form of the legend/classifier agreement |
| Markers.GetColorMonotone | static/js/logic.js:23-36 | a deeper event never gets a lower-band colour |
| Markers.RadiusRule | static/js/logic.js:41-47 | radius is 1 at magnitude 0; at every other magnitude it is 4·m, and dividing it by 4 gives back the magnitude |
| Markers.RadiusPositiveIncreasing | static/js/logic.js:42-46 | for positive magnitudes the radius is positive and strictly increasing |
| Markers.RadiusEdgeCases | static/js/logic.js:40-46 | because of the zero special case, magnitude 0 draws larger than 0.1 and the same size as 0.25; with no guard, a negative magnitude gives a negative radius |
| Style.StyleInfo | static/js/logic.js:52-64 | the fill is one of the six palette strings; when the position has a depth it is the classifier's colour for that depth, and when the third coordinate is missing it is green (every `undefined > n` test fails); the radius is the magnitude rule's |
| Style.StyleConstantFields | static/js/logic.js:55-60 | opacity 0.8, fillOpacity 0.6, stroke on, weight 0.5 and outline #000000 are the same for every feature |
| Style.StyleDeterminedByDepthAndMagnitude | static/js/logic.js:52-64 | two features with equal depth and magnitude get identical styles, and the fill string names exactly the colour the classifier gives |
| Style.DistinctBandsDistinctFills | static/js/logic.js:59 | events in different depth bands get different fill strings |
| Legend.BuildLegend | static/js/logic.js:110-118 | one entry per grade, in order; entry i has colour i and the label `grades[i]–grades[i+1]` when the next grade is truthy, else `grades[i]+`; if no later grade is 0, exactly the last entry is open-ended |
| Legend.ShippedLegend | static/js/logic.js:99-118 | the shipped tables produce green -10–10, light green 10–30, yellow 30–50, orange 50–70, orange-red 70–90 and red 90+ |
| Legend.TablesWellFormed | static/js/logic.js:99-107 | both tables have length 6, the grades are strictly increasing, the grades after the first are the classifier's thresholds, and colour i is band i |
| Legend.ShippedLabels | static/js/logic.js:115 | the label structures of the six shipped entries |
| Legend.OnlyLastOpenEnded | static/js/logic.js:115 | when no grade after the first is 0, an entry is open-ended iff it is the last one; every other entry ranges to the next grade |
| Legend.ZeroGradeCutsLabel | static/js/logic.js:115 | a grade of 0 is falsy, so the entry before it is labelled open-ended |
| Legend.LegendAgreesWithClassifier | static/js/logic.js:99-107 | a depth gets legend colour i iff it lies in legend band i: d <= 10 for band 0, (grades[i], grades[i+1]] for bands 1 to 4, d > 90 for band 5 |
| Legend.LabelsDescribeBands | static/js/logic.js:113-115 | every depth inside the interval a label names is drawn in that entry's swatch colour; one direction only, since depths at or below -10 are green but lie outside the `-10–10` label |

## Left out

- Map and tile-layer construction, the circle-marker factory and the `addTo` calls (static/js/logic.js:2-16, 67-75, 91-93, 123). They are mapping-library calls with no logic of their own.
- The fetch of the GeoJSON feed and its asynchronous callback (static/js/logic.js:19). This is network I/O.
- The popup text (static/js/logic.js:78-87) and the legend's HTML strings and DOM updates (static/js/logic.js:97, 111-117). They depend on JavaScript's number-to-string formatting and on DOM side effects. Only the structure of each label is modelled (`Legend.Label`), over integers.
- IEEE-754 behaviour and `NaN`. Depths and magnitudes are exact reals, and the style constants 0.8, 0.6 and 0.5 are exact rationals.
- An `undefined` or `null` magnitude. A `null` magnitude fails the `=== 0` test and `null * 4` is 0, so it gives radius 0; an `undefined` one gives `NaN`, which the reals cannot represent. Both are left out. A missing depth is modelled: every comparison against `undefined` is false, so the fill falls through to green (`Style.StyleInfo`, through `Style.FillFor`).
- Legend.BuildLegend: requires at least as many colours as grades. The source never indexes past its colour table, which has exactly as many colours as grades.
