# Temperature wave: a Dafny model of the data path

`generate_image.py` downloads global temperature-anomaly records and draws
them as a horizontal wave of coloured dots on a 1200x800 image. This project
models the pure part of `draw_visualization` and the hue computation of
`get_color_from_temperature`:

- **Records** (`records.dfy`): the JSON entries of the `result` array. It
  also models Python's `float()` on each kind of JSON value. The filter loop
  converts `entry['station']` and then `entry['time']`. It skips an entry on
  `KeyError` or `ValueError`. Any other failure is a `TypeError` that the loop
  does not catch, so the run stops.
- **Extrema** (`extrema.dfy`): `min(temps)` and `max(temps)`, each as a
  left-to-right scan.
- **Layout** (`layout.dfy`): the constants 1200, 800, 200 and 50, the
  horizontal position from the index, the vertical position from the
  anomaly, the dot radius, the dot's bounding box and the gray zero line.
- **Colour** (`colour.dfy`): normalising a temperature between the extremes
  and turning it into a hue from 0.66 (blue) down to 0 (red). The division
  raises `ZeroDivisionError` when the extremes are equal. The point keeps the
  HSV triple `(hue, 0.9, 0.95)`.
- **Visualization** (`visualization.dfy`): the whole run, ending in one of
  these outcomes:
  - no data;
  - an uncaught `TypeError` at a given entry;
  - nothing left after filtering;
  - a `ZeroDivisionError`;
  - the list of dots handed to the rasteriser.

Python's `float()` on a string is a parameter `Parser = string -> Option<real>`,
with `None` standing for `ValueError`. Arithmetic is exact (`real`), where
the program uses IEEE doubles.

Three behaviours of the code are easy to miss:
- The filter loop catches only `ValueError` and `KeyError`. So a `null`,
  array or object under `station` or `time`, or an entry that is not an
  object, raises `TypeError` and ends the run. The evaluation order matters
  here. A `station` that fails with `ValueError` skips the entry whatever
  `time` holds. A parsed `station` followed by a `null` `time` raises.
- The code has no fallback for equal extremes. A single valid record, or any
  input whose valid temperatures are all equal, raises `ZeroDivisionError`
  before the first dot (`SingleRecordRaises`, `ZeroDivisionIff`).
- The formula `50 + (i/n)*1100` with `i < n` keeps `x` strictly below 1150.

## Model

| member | source | states |
|---|---|---|
| Records.ToFloat | generate_image.py:57-58 | `float()` raises `TypeError` exactly for null and compound values. It raises `ValueError` only for a string the parser rejects. A JSON number converts to itself. Booleans become 1.0 or 0.0. |
| Records.ReadEntry | generate_image.py:55-61 | An entry is kept exactly when it is an object with both keys present and both values convertible. The measurement holds the converted station and time. A missing `station`, or a `ValueError` on it, skips the entry. A skip only happens for an object. The entry raises `TypeError` exactly when it is not an object, when its `station` is null or compound, or when its `station` parses and its `time` is null or compound. So a missing or unparseable `time` skips. |
| Records.Filter | generate_image.py:54-61 | The loop finishes exactly when no entry raises. It never keeps more measurements than entries. When it stops, it stops at the first entry that raises `TypeError`. |
| Records.FilterAppend | generate_image.py:54-61 | Filtering `a + b` is filtering `a` then `b`: kept measurements keep their input order, and the first `TypeError` wins. |
| Records.FilterSingle | generate_image.py:55-61 | One entry yields its measurement, nothing, or a `TypeError` at index 0. |
| Records.FilterKeepsExactly | generate_image.py:54-61 | Every kept measurement comes from some entry. Every convertible entry's measurement is kept. |
| Records.FilterEmptyIff | generate_image.py:54-65 | When the loop finishes, its output is empty exactly when every entry was skipped. |
| Records.FilterAllConvertible | generate_image.py:54-61 | When every entry converts, the output is one measurement per entry, in the same order. |
| Extrema.Min | generate_image.py:68 | `min` returns an element of the list that is at most every element. |
| Extrema.Max | generate_image.py:68 | `max` returns an element of the list that is at least every element. |
| Extrema.ExtremesOf | generate_image.py:67-68 | `min_temp <= t <= max_temp` for every kept temperature. Both bounds are attained by some measurement. |
| Extrema.DegenerateIffConstant | generate_image.py:67-68 | The extremes coincide exactly when all kept temperatures are equal. |
| Layout.X | generate_image.py:78-90 | `50 <= x < 1150`, and `x == 50` exactly for the first point. |
| Layout.XStrictlyIncreasing | generate_image.py:90 | A later index is drawn strictly further right. |
| Layout.XEvenlySpaced | generate_image.py:90 | Neighbouring points are `1100 / n` apart. |
| Layout.Y | generate_image.py:92 | `y == 400` (the gray centre line) exactly at zero anomaly, and `y < 400` exactly for a positive anomaly. |
| Layout.YRoundTrip | generate_image.py:92 | The height determines the anomaly and the anomaly determines the height. |
| Layout.YStrictlyDecreasing | generate_image.py:92 | A larger anomaly is drawn strictly higher. |
| Layout.Radius | generate_image.py:95 | The radius is at least 4, and equals 4 exactly at zero anomaly. |
| Layout.RadiusSymmetricMonotone | generate_image.py:95 | Opposite anomalies get equal radii. One radius is at most another exactly when the same holds for the absolute anomalies. |
| Layout.DotBox | generate_image.py:98 | The ellipse's box is a square of side `2 * radius` centred on the point. |
| Layout.ZeroAnomalyOnCenterLine | generate_image.py:83-84 | A dot's centre lies on the gray line from `(50, 400)` to `(1150, 400)` exactly when its anomaly is zero. |
| Colour.Normalize | generate_image.py:41 | The division fails exactly when `min_temp == max_temp`. Otherwise the result times the range width is `temp - min_temp`. Inside the range it lies in `[0, 1]`: 0 at the minimum, 1 at the maximum. |
| Colour.Hue | generate_image.py:41-42 | The hue fails exactly for equal extremes. Inside the range it lies in `[0, 0.66]`, with 0.66 at the minimum and 0 at the maximum. |
| Colour.HueStrictlyDecreasing | generate_image.py:41-42 | A warmer temperature gets a strictly smaller (redder) hue. |
| Colour.HueRoundTrip | generate_image.py:41-42 | With distinct extremes, the hue determines the temperature it came from. |
| Colour.ColourOf | generate_image.py:41-43 | The HSV triple fails exactly for equal extremes. Otherwise it carries the hue, saturation 0.9 and value 0.95. |
| Visualization.PointAt | generate_image.py:87-95 | A dot fails exactly for equal extremes. Otherwise it sits at the index's `x` and the anomaly's `y`, and has the anomaly's hue and radius. |
| Visualization.MapPoints | generate_image.py:86-95 | The loop either raises on its first dot (equal extremes) or yields one dot per measurement, in order. |
| Visualization.Draw | generate_image.py:47-99 | The run ends with no data exactly for an empty input. A `TypeError` names the first raising entry. A drawn run has between 1 and `len(data)` dots. |
| Visualization.DrawnLayout | generate_image.py:47-98 | A completed run draws one dot per kept measurement. The first dot is at `x = 50` and the rest are strictly to its right. Each dot has its measurement's height and radius. |
| Visualization.DrawnHues | generate_image.py:63-94 | In a completed run every hue lies in `[0, 0.66]`. The coldest dot gets 0.66 (blue) and the warmest gets 0 (red). |
| Visualization.PointsLayout | generate_image.py:86-95 | The finished loop yields one dot per measurement, in order. The first dot is at `x = 50`. Each dot has its measurement's height and radius. |
| Visualization.PointsLeftToRight | generate_image.py:86-90 | The dots of the finished loop run strictly left to right. |
| Visualization.PointsHues | generate_image.py:67-94 | Coloured against their own extremes, all hues lie in `[0, 0.66]`. The coldest dot gets 0.66 (blue) and the warmest gets 0 (red). |
| Visualization.FilteredEmptyIff | generate_image.py:63-65 | The run stops at "filtered data is empty" exactly when the input is non-empty and every entry is skipped. |
| Visualization.ZeroDivisionIff | generate_image.py:41-68 | The run raises `ZeroDivisionError` exactly when filtering keeps at least one measurement and all kept temperatures are equal. |
| Visualization.SingleRecordRaises | generate_image.py:41 | One valid record is enough to make the colour formula divide by zero. |
| Visualization.ThreeRecords | generate_image.py:47-95 | Three records with anomalies 0.5, -0.3 and 1.1 give dots at `x = 50, 50 + 1100/3, 50 + 2200/3` and `y = 300, 460, 180`. Their hues are `0.66*3/7`, 0.66 and 0, and their radii 5.5, 4.9 and 7.3. |
| Visualization.MissingStationSkipped | generate_image.py:54-61 | Among three records, the one without `station` is skipped without raising, and two measurements remain. |

## Left out

- `fetch_temperature_data` and `main` are left out: they are the HTTP request, its timeout, JSON decoding and progress messages. The model starts from the decoded `result` array. That array is taken to be a JSON array, and a `None` from a failed fetch never reaches `draw_visualization`.
- `colorsys.hsv_to_rgb` and the `int(x * 255)` truncation are left out: they are floating-point library code. A dot carries the HSV triple instead of the RGB triple.
- The Pillow calls `Image.new`, `draw.line`, `draw.ellipse` and `image.save` are left out: they rasterise and write the PNG file. The model stops at the centre line's endpoints and each dot's centre, colour, radius and bounding box. The print statements are left out too.
- Python's string-to-float grammar is left out. It is an abstract `Parser` parameter.
- Values `float()` accepts but a `real` cannot hold are left out: `"nan"`, `"inf"`, and integers too large for a double, which raise `OverflowError`.
- IEEE-754 rounding is left out: all arithmetic is exact. For example, the second of three dots sits at exactly `50 + 1100/3` here, where the program's `50 + (1/3) * 1100` is rounded twice, once for `1/3` and once for the product.
- JSON arrays and objects under a key are one value, `Compound`, because `float()` treats them alike.
