# GNSS precision analysis — a Dafny model

`GNSS_precision.py` reads a KML recording exported by the uBlox UConnect software and reports three
figures for a receiver: *precision* (half the spread of distances over a
stationary window), *accuracy* (measured first-to-last distance against a
target line length) and *straightness* (a root-mean-square deviation from an
ideal straight line). This project models the parts of the script with real
logic, over Dafny `real`:

- `text.dfy` (`Text`): Python's `str.strip()` and `str.split(sep)` with a `join`
  partner and a round trip in both directions.
- `read_ublox.dfy` (`ReadUblox`): the line filter of `read_ublox` (keep the lines
  with exactly three comma-separated fields, parse them, drop the first 30).
- `line_straightness.dfy` (`LineStraightness`): the ideal-line loop, the
  squared-residual loop, the column sums, the means, the combined figure and its
  square root.
- `precision.dfy` (`Precision`): the stationary window of `main`, its shared
  `zip` iterator (`ZipCursor`), the pair enumeration, the distance loop and the
  max/min scan.
- `accuracy.dfy` (`Accuracy`): the first-to-last distance of `main` against the
  target line length.
- `analysis.dfy` (`Analysis`): the order in which `main` runs these steps and
  which exception ends the run.
- `frame.dfy` (`Frame`): the data-frame row, the coordinate pair and the errors.

The model follows the code as written, including behaviour that differs from
the tool's intended design:

- The guard `i != len(ideal_line-1)` compares `i` with the row count (`ideal_line-1`
  subtracts 1 from every cell), so it never excludes the last row. With a step of
  `range / n`, the ideal line ends one step short of the measured endpoint
  (`IdealEndpointShort`), and an evenly spaced straight track does not score 0
  (`EvenlySpacedTrackNotZero`).
- `deg_to_meter` multiplies a mean of squared degrees once, not squared
  (`CombinedMseLinearInFactor`).
- Both `enumerate(cords)` loops draw from one `zip` iterator, so only the pairs
  (sample 0, sample k) for k = 2..n-1 are formed, not every ordered pair
  (`AllCombos`, `OnlyFirstSamplePaired`).
- `minimum - cord[2]` is evaluated and discarded, so `minimum` stays 0 and the
  bound is half the running maximum seeded at 0 (`ScanMaxMin`).
- No error is raised for a short window: fewer than three samples give a bound of 0.
  An empty frame fails with `IndexError` in the accuracy step, before the
  straightness step would have failed on it.

The geodesic distance (`position_diff`, that is `geopy.distance.distance(...).m`)
is a parameter `dist`. Nothing is assumed about it: not symmetry, not
non-negativity, not `dist(a, a) == 0`, except where a lemma says so in its
`requires`. `float()` is a parameter `parse: string -> Option<real>`, where `None`
stands for its `ValueError`. `deg_to_meter` (`2·π·R/360` with `R` the WGS-84
equatorial radius) is a parameter `degToMeter`. `math.sqrt` is a parameter
`sqrt` of which only its defining property on non-negative reals is required:
`sqrt(x)` is non-negative and squares to `x`.

## Model

| member | source | states |
|---|---|---|
| Text.StripStartRemovesLeadingSpaces | GNSS_precision.py:52 | `lstrip` part of `line.strip()`: the result is a suffix of the line, only whitespace is removed, and it does not start with whitespace |
| Text.StripEndRemovesTrailingSpaces | GNSS_precision.py:52 | `rstrip` part of `line.strip()`: the result is a prefix, only whitespace is removed, and it does not end with whitespace |
| Text.SplitFields | GNSS_precision.py:47-53 | `split(sep)` yields one more field than there are separators, and no field contains the separator |
| Text.JoinSplit | GNSS_precision.py:47-53 | joining the fields of a split with the separator gives back the original string |
| Text.SplitJoin | GNSS_precision.py:47-53 | splitting a join of separator-free fields gives back the fields |
| Text.ThreeFieldsIffTwoSeparators | GNSS_precision.py:52-53 | a line passes `len(cordinates) == 3` exactly when it holds two commas |
| ReadUblox.CoordinateLinesAppend | GNSS_precision.py:51-56 | the line filter distributes over concatenation, so kept lines stay in input order |
| ReadUblox.CoordinateLinesComplete | GNSS_precision.py:51-56 | every line with exactly three fields after stripping is kept |
| ReadUblox.CoordinateLinesSound | GNSS_precision.py:51-56 | everything kept comes from an input line with exactly those three fields |
| ReadUblox.CollectColumns | GNSS_precision.py:48-56 | the loop fills `lat`, `long`, `alt` with the parsed fields 0, 1, 2 of each kept line, in order, and fails exactly when `float()` fails on a kept field |
| ReadUblox.DropFirst | GNSS_precision.py:59-61 | `xs[30:]` has length max(0, len − 30) and element k is element k + 30 |
| ReadUblox.ReadCoordinates | GNSS_precision.py:47-65 | `ValueError` exactly when a kept field does not parse; otherwise a frame of max(0, k − 30) rows for k kept lines, row j built from kept line j + 30 |
| LineStraightness.RangeOf | GNSS_precision.py:103-115 | the range is ≥ 0 and, in the direction chosen (`DOWN` exactly when start > stop, ties `UP`), leads from start to stop |
| LineStraightness.IdealCoordinateStep | GNSS_precision.py:121-130 | each ideal coordinate is the previous one plus or minus `range / n`, depending on the direction |
| LineStraightness.BuildIdealLine | GNSS_precision.py:119-130 | the in-place loop over a copy of the frame yields the closed form: row i is `start ± i·range/n` on both axes, with altitude copied |
| LineStraightness.IdealLineShape | GNSS_precision.py:120-130 | the ideal line has the frame's length, row 0 equal to the measured row 0, and the measured altitude column |
| LineStraightness.IdealEndpointShort | GNSS_precision.py:122-130 | the last ideal point is `stop ∓ range/n`, which is `start ± (n−1)·range/n`; it equals the measured endpoint only when the range is 0 |
| LineStraightness.Square | GNSS_precision.py:135-136 | `math.pow(x, 2)` is non-negative |
| LineStraightness.ComputeError | GNSS_precision.py:133-136 | the loop fills the `error` frame with the squared deviation per axis and keeps the altitude column |
| LineStraightness.SumNonNegative | GNSS_precision.py:139 | a column sum of non-negative cells is non-negative |
| LineStraightness.SumZero | GNSS_precision.py:139 | a sum of non-negative cells is zero exactly when every cell is zero |
| LineStraightness.MseNonNegative | GNSS_precision.py:139-141 | both per-axis mean squares are ≥ 0 |
| LineStraightness.FirstResidualZero | GNSS_precision.py:133-136 | the residuals of row 0 are 0 on both axes |
| LineStraightness.MseLatitudeZeroOnIdealLine | GNSS_precision.py:133-141 | if every measured latitude equals the ideal one, the latitude mean square is 0 |
| LineStraightness.MseLongitudeZeroOnIdealLine | GNSS_precision.py:133-141 | if every measured longitude equals the ideal one, the longitude mean square is 0 |
| LineStraightness.CombinedMseZeroOnIdealLine | GNSS_precision.py:133-152 | a frame lying on its ideal line has a combined figure of 0 for any conversion factor |
| LineStraightness.CombinedMseNonNegative | GNSS_precision.py:143-155 | with a non-negative `deg_to_meter` the combined figure is ≥ 0, so `math.sqrt` is defined on it |
| LineStraightness.CombinedMseLinearInFactor | GNSS_precision.py:145-152 | `deg_to_meter` enters once, not squared: the combined figure is linear in it |
| LineStraightness.EvenlySpacedTrackNotZero | GNSS_precision.py:97-152 | for latitudes 0, 1, 2 at a fixed longitude the ideal latitudes are 0, 2/3, 4/3 and the combined figure is 5·K/54, not 0 |
| LineStraightness.ComputeStraightness | GNSS_precision.py:97-155 | `IndexError` exactly for an empty frame, `ValueError` from `math.sqrt` exactly when `combined_mse` is negative; otherwise the ideal line, the `error` frame, both mean squares, `combined_mse = (mse_lat·K + mse_long·K)/2` and an `rmse` that is non-negative and squares to `combined_mse` |
| LineStraightness.SquareRootUnique | GNSS_precision.py:155 | a non-negative square root is unique, so the `rmse` that `ComputeStraightness` returns is the only value it could return for that `combined_mse` |
| Precision.WindowCoords | GNSS_precision.py:200-202 | the window is the first min(60, n) rows, as (latitude, longitude) pairs |
| Precision.ZipCursor.constructor | GNSS_precision.py:202 | `zip(lat, long)` pairs the lists up to the shorter one and starts at position 0 |
| Precision.ZipCursor.Next | GNSS_precision.py:202 | the shared iterator yields the next pair and advances, or yields nothing forever once exhausted |
| Precision.AllCombos | GNSS_precision.py:221-226 | with one shared iterator, the pairs are exactly (sample 0, sample k) for k = 2..n−1, in order: max(0, n−2) pairs |
| Precision.AppendDistances | GNSS_precision.py:228-230 | one distance per pair, in the same order, entry k being `dist` of pair k |
| Precision.MaxFromZero | GNSS_precision.py:232-237 | a running maximum seeded at 0 ends ≥ 0, ≥ every value, and equal to one of them when not 0 |
| Precision.ScanMaxMin | GNSS_precision.py:232-239 | the scan leaves `maximum` as the maximum seeded at 0 and `minimum` at 0 |
| Precision.EstimatePrecision | GNSS_precision.py:196-241 | the printed bound is `(maximum − minimum)/2` over the distances from sample 0 to samples 2..n−1 of the window |
| Precision.PrecisionBoundCharacterised | GNSS_precision.py:233-241 | the bound is ≥ 0, at least half of each such distance, and, when positive, half of one of them |
| Precision.IdenticalWindowZero | GNSS_precision.py:233-241 | a window of coinciding samples has bound 0 when the distance from a point to itself is 0 |
| Precision.OnlyFirstSamplePaired | GNSS_precision.py:221-241 | samples p, q, p with d(p, q) = 1 give bound 0: a pair not involving sample 0 is never compared |
| Accuracy.EstimateAccuracy | GNSS_precision.py:247-253 | `IndexError` exactly for an empty frame; otherwise the first-to-last distance and a delta that is negative exactly when the measured length exceeds the target |
| Analysis.Analyse | GNSS_precision.py:186-260 | `ValueError` when a kept field does not parse, `IndexError` when the frame is empty, `ValueError` when `combined_mse` is negative, otherwise the precision bound, the accuracy figures and the whole straightness result (ideal line, `error` frame, both mean squares, `combined_mse` and its square root) |

## Left out

- KML parsing with pykml and opening the file (GNSS_precision.py:37-44) are I/O. The
  `<coordinates>` text is the input string. The `cordinates.join(str(tag))` at :44
  is not modelled, so the input is whatever text that loop produced.
- `float()` (GNSS_precision.py:54-56) is the parameter `parse`. Its grammar is not modelled.
- `geopy.distance.distance` (GNSS_precision.py:81) is the parameter `dist`, an
  ellipsoidal computation done by a foreign library. `dist` is total here: the
  `ValueError` geopy raises on a non-finite coordinate or a latitude outside
  [-90, 90] is not modelled, so `AppendDistances`, `EstimateAccuracy` and
  `Analyse` never fail where the distance loop (:230) or the accuracy step
  (:248) would stop on such a frame.
- `geopy.distance.ELLIPSOIDS['WGS-84']` and `math.pi` (GNSS_precision.py:145-147)
  are folded into the parameter `degToMeter`. π is not a Dafny `real`.
- `math.sqrt` (GNSS_precision.py:155) is the parameter `sqrt`, because Dafny has no
  real square root; its rounding is not modelled.
- IEEE-754 double arithmetic: every value is an exact `real`, so rounding is not modelled.
- pandas: a data frame is a `seq<Row>` and its copies are arrays. `iterrows` is
  taken to yield the labels 0..n-1, which is what the default index built by
  `read_ublox` gives.
- Precision.AppendDistances: the in-place `all_combos[i].append(...)` at :230 is
  modelled as a new sequence of (pair, distance) triples instead of extending each
  pair list in place.
- Plotting (GNSS_precision.py:157-173, 204-219) and printing in `main` are presentation only.
- Argument handling and the dwell-time check (GNSS_precision.py:177-184), and the `__main__` hook
  (:264-266), are driver code. `line_length_meters` is the integer parameter `lineLengthMeters`.
