# Earthquake map: magnitude styling and legend

A verified Dafny model of the deterministic logic of a web page that draws a
week of earthquakes and the tectonic plate boundaries on a map. Each
earthquake becomes a circle marker. Its radius and fill colour come from its
magnitude, and a popup gives its place, time and magnitude. A legend shows
one colour swatch per magnitude bucket.

Modules, all taken from `static/js/logic.js`:

- `Magnitude` (magnitude.dfy): the classifier `magnitudeColor`. Six colour
  buckets are picked by a first-match test against the thresholds 5, 4, 3, 2
  and 1, tried in descending order. An independent reference, `BucketOf`,
  counts how many thresholds a magnitude reaches.
- `Scaler` (scaler.dfy): the scaler `magnitudeSize`, magnitude times 30000,
  and its inverse.
- `Marker` (marker.dfy): the circle options that `pointToLayer` passes to the
  map library.
- `Popup` (popup.dfy): the popup text that `onFeature` binds to each marker.
  Timestamp rendering and number-to-text conversion are function parameters.
- `Decimal` (decimal.dfy): the decimal text JavaScript produces when a scale
  value is concatenated to a string.
- `Legend` (legend.dfy): the legend's `onAdd` loop, as a method that
  accumulates the HTML the loop writes into the legend's container with
  `div.innerHTML +=`. This is the text as written, not what `innerHTML` gives
  back: the browser re-parses and re-serialises the container on every
  append, so a read-back shows "–" where the loop wrote `&ndash;`.

Magnitudes and radii are Dafny `real`s. The comparisons against the integer
thresholds are exact in IEEE doubles, so the classifier model is exact. The
scaler model is the exact-real idealisation of `m * 30000`.

## Model

| member | source | states |
|---|---|---|
| Magnitude.MagnitudeColor | static/js/logic.js:23-38 | every magnitude, negative ones included, gets a seven-character "#rrggbb" token; no input is rejected |
| Magnitude.ColorInPalette | static/js/logic.js:23-38 | every magnitude, negative ones included, gets one of the six colour tokens |
| Magnitude.BucketOf | static/js/logic.js:24-36 | the bucket index is the number of thresholds 1..5 reached and is below six |
| Magnitude.Reached | static/js/logic.js:24-36 | a magnitude reaches at most as many thresholds as there are |
| Magnitude.BucketExactly | static/js/logic.js:24-36 | the six buckets partition the reals: bucket k is the bucket of m exactly when m lies in k's range (below 1; [k, k+1); 5 and above) |
| Magnitude.ColorMatchesBucket | static/js/logic.js:24-36 | the classifier's first-match chain returns the palette entry of the reference bucket |
| Magnitude.ColorExactly | static/js/logic.js:24-36 | token k is returned if and only if the magnitude lies in bucket k's range: m >= 5, 4 <= m < 5, 3 <= m < 4, 2 <= m < 3, 1 <= m < 2, m < 1 |
| Magnitude.PaletteDistinct | static/js/logic.js:26-36 | the six tokens are pairwise distinct |
| Magnitude.SameColorSameBucket | static/js/logic.js:24-36 | two magnitudes get the same colour exactly when they share a bucket |
| Magnitude.ReachedMonotone | static/js/logic.js:24-36 | a larger magnitude reaches at least as many thresholds |
| Magnitude.BucketMonotone | static/js/logic.js:24-36 | if a <= b then the bucket of a is at most the bucket of b |
| Magnitude.ClassifierSamples | static/js/logic.js:24-36 | 5 is in the top bucket, 4.9 in the one below, -1 in the default bucket |
| Scaler.MagnitudeSize | static/js/logic.js:42-44 | dividing the radius by 30000 gives back the magnitude |
| Scaler.SizeToMagnitude | static/js/logic.js:42-44 | the reference inverse r / 30000 (a definition with no contract of its own); its round trip is proved by SizeUnclamped |
| Scaler.SizeUnclamped | static/js/logic.js:42-44 | every real radius is the size of some magnitude, so nothing is clamped |
| Scaler.SizeSign | static/js/logic.js:42-44 | the size is 0 exactly at magnitude 0 and negative exactly for negative magnitudes |
| Scaler.SizeStrictlyIncreasing | static/js/logic.js:42-44 | the scaler is strictly increasing and one-to-one |
| Scaler.SizeLinear | static/js/logic.js:42-44 | the scaler preserves sums and scalings |
| Marker.PointToLayer | static/js/logic.js:61-68 | the circle is drawn at the given position; its fill colour is the palette entry of the magnitude's bucket; its radius reads back as the magnitude; opacity 0.8, stroke #000000 and weight 0.5 for every feature |
| Marker.StyleDependsOnlyOnMagnitude | static/js/logic.js:61-68 | two markers have the same options exactly when their earthquakes have the same magnitude; place, time and position do not matter |
| Marker.LargerCircleNeverCooler | static/js/logic.js:61-68 | a circle at least as large as another is never in a lower colour bucket, and its fill colour is the classifier's colour of the magnitude read off its radius |
| Popup.Header | static/js/logic.js:51 | the opening fragment is "<h3>", the place verbatim, then "</h3><hr><p>" |
| Popup.Footer | static/js/logic.js:53 | the closing fragment is "<h3>", "Magnitude: " with the formatted magnitude verbatim, then "</h3>" |
| Popup.PopupHtml | static/js/logic.js:51-53 | the popup opens with the place as a heading, ends with the formatted magnitude as a heading, and is exactly as long as header, time, separator and footer |
| Popup.PopupShowsPlace | static/js/logic.js:51 | the place occurs verbatim right after the opening "<h3>" |
| Popup.PopupShowsTime | static/js/logic.js:51-52 | the formatted time occurs verbatim right after the place's heading and rule |
| Popup.PopupShowsSeparator | static/js/logic.js:52-53 | the separator "</p><hr><p>" occurs right after the formatted time |
| Popup.PopupShowsMagnitude | static/js/logic.js:53 | "Magnitude: " followed by the formatted magnitude occurs verbatim just before the closing "</h3>" |
| Popup.PopupShowsFields | static/js/logic.js:51-53 | the place, the formatted time and "Magnitude: " followed by the formatted magnitude all occur verbatim |
| Popup.PopupDeterminesPlace | static/js/logic.js:51-53 | when time and magnitude render alike, two popups are equal exactly when the places are |
| Popup.PopupSample | static/js/logic.js:51-53 | the popup for "10km N of X" with magnitude 4.2 contains "10km N of X", and "4.2" when the formatter renders 4.2 so |
| Decimal.NatToString | static/js/logic.js:150 | the text of a number is a non-empty string of decimal digits with no leading zero |
| Decimal.NatToStringRoundTrip | static/js/logic.js:150 | reading the digits back gives the number |
| Legend.At | static/js/logic.js:150 | reading the scale yields a number exactly inside the scale and undefined past its end |
| Legend.Truthy | static/js/logic.js:150 | JavaScript truthiness of a scale read: `undefined` and 0 are false, every other number is true (a definition; TruthyNext states the test it decides) |
| Legend.TruthyNext | static/js/logic.js:150 | the test `magnitude_scale[i + 1] ? ... : '+'` takes the range branch exactly when there is a next scale value and it is not 0 |
| Legend.Swatch | static/js/logic.js:149 | the swatch fragment around a colour (a definition; SwatchShape states its shape) |
| Legend.SwatchShape | static/js/logic.js:149 | a swatch is `<i style="background:`, the colour verbatim, then `"></i> ` |
| Legend.Row | static/js/logic.js:148-150 | the loop body as written, with the truthiness test on the next scale value (a definition; RowShape states its shape) |
| Legend.RowShape | static/js/logic.js:148-150 | a row opens with the swatch of its value's colour and the value's text; it ends with "&ndash;", the next value and "<br>" when the next value is truthy and with "+" otherwise, so its last character is '+' exactly when the next value is not truthy |
| Legend.Rows | static/js/logic.js:146-152 | the text after n iterations, the first n rows concatenated (a definition; RowsOnlyAppend and RowsAt state its properties) |
| Legend.RowsAt | static/js/logic.js:146-152 | row i stands in the text after any later iteration exactly where the text after i iterations ends: rows appear in scale order |
| Legend.LegendOnAdd | static/js/logic.js:137-154 | the loop accumulates, in order, one row per scale value onto an empty text |
| Legend.RowsOnlyAppend | static/js/logic.js:146-152 | each iteration only appends: the text after i rows is a prefix of the text after any later row |
| Legend.NextTruthyUnlessLast | static/js/logic.js:150 | the test on the next scale value is true on every row but the last |
| Legend.RowMatchesDesign | static/js/logic.js:148-150 | row i is bucket i's colour swatch followed by "i&ndash;(i+1)<br>", or by "5+" for the last row |
| Legend.LegendIsDesignedRows | static/js/logic.js:142-152 | the scale is 0..5 in ascending order and the legend is the six designed rows in that order |
| Legend.ScaleDigits | static/js/logic.js:150 | the scale values 0..5 are written as their single digits |
| Legend.RangeEndTexts | static/js/logic.js:150 | the label ends are "&ndash;1<br>" ... "&ndash;5<br>" and "+" |
| Legend.DesignedRowTexts | static/js/logic.js:148-150 | each designed row is its bucket's literal colour swatch followed by its literal range label |
| Legend.RangeLabelTexts | static/js/logic.js:150 | the six range labels are "0&ndash;1<br>" ... "4&ndash;5<br>" and "5+" |
| Legend.LegendText | static/js/logic.js:137-154 | the legend text is the six swatches #7dcea0 ... #d35400 with the labels 0&ndash;1 ... 5+ |
| Legend.SwatchAgreesWithClassifier | static/js/logic.js:148-150 | every non-negative magnitude lies in exactly one row's labelled range, that row is its bucket, and the row's swatch colour equals the classifier's colour of the magnitude |
| Legend.NegativeMagnitudeUnlabelled | static/js/logic.js:33-36 | a negative magnitude lies in no row's range yet gets the first row's colour |
| Legend.TruthinessLabelsZeroAsLast | static/js/logic.js:150 | the label test is truthiness: a row followed by a 0 would end in "+" even when it is not the last |

## Left out

- The two `d3.json` fetches and their nested callbacks (lines 6-20): network I/O and asynchrony.
- The Leaflet constructors `L.geoJSON`, `L.circle`, `L.tileLayer`, `L.map`, `L.control.layers` and `L.control` (lines 57-131, 135): foreign library calls. Only the options record given to `L.circle` is modelled, and not the iteration over features inside `L.geoJSON`.
- The fault-line `style` callback that returns `L.polyline(...)` (lines 75-80): its effect lies entirely inside the map library.
- Tile URLs, attributions, the access key, the map centre and zoom (lines 88-127): configuration only.
- The DOM: `L.DomUtil.create`, `innerHTML` and `addTo`. The legend is the HTML the loop writes into the container, not a DOM node, and not the re-serialised text that reading `innerHTML` would return (where `&ndash;` comes back as "–").
- `new Date(...)` rendering and number-to-string conversion in the popup: the formatters are function parameters.
- `console.log` (line 7).
- Scaler.MagnitudeSize: exact-real product; IEEE-754 rounding of `magnitude * 30000` is not modelled. Marker.StyleDependsOnlyOnMagnitude (its "only if" direction) and Marker.LargerCircleNeverCooler go from radius order back to magnitude order through strict monotonicity, which holds for the exact product but only non-strictly for a rounded one.
- Magnitude.MagnitudeColor: a missing or `NaN` magnitude is not modelled (`Earthquake.mag` is a `real`); in the source every comparison with such a value is false, so it falls to the default bucket like a magnitude below 1.
- Scaler.MagnitudeSize: a missing magnitude is not modelled; in the source `null * 30000` is 0 and `undefined * 30000` is `NaN`.
- Marker.PointToLayer: a feature without a magnitude is not modelled; the source still draws it, with the default colour and the radius above.
- Popup.PopupHtml: a missing magnitude is not modelled; the source writes the text "null" or "undefined" in its place.
