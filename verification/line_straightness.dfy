/** `line_straightness`: builds an "ideal" straight line from the first and last
    rows of the frame, squares each row's deviation from it in the longitude and
    latitude columns, and combines the two mean squares into one figure in meters. */
module LineStraightness {
  import opened Frame

  datatype Direction = Up | Down

  /** `'DOWN'` exactly when the axis value decreases from first to last row; a tie is `'UP'`. */
  function DirectionOf(start: real, stop: real): Direction
  {
    if start > stop then Down else Up
  }

  /** `max(start, stop) - min(start, stop)`: the distance the axis covers, and the
      amount that, taken in the axis' direction, leads from `start` to `stop`. */
  function RangeOf(start: real, stop: real): (r: real)
    ensures r >= 0.0
    ensures stop == if DirectionOf(start, stop) == Up then start + r else start - r
  {
    (if start >= stop then start else stop) - (if start <= stop then start else stop)
  }

  /** The value the ideal line has on one axis at row `i` of an `n`-row frame:
      `i` steps of `range / n` from `start`, in the axis' direction. */
  function IdealCoordinate(start: real, stop: real, n: nat, i: nat): real
    requires n > 0
  {
    var step := RangeOf(start, stop) / n as real;
    if DirectionOf(start, stop) == Up then start + i as real * step else start - i as real * step
  }

  /** The ideal line as a whole: longitude and latitude from `IdealCoordinate`, altitude copied. */
  function IdealLine(cordf: seq<Row>): seq<Row>
    requires |cordf| > 0
  {
    var n := |cordf|;
    seq(n, i requires 0 <= i < n =>
      Row(IdealCoordinate(cordf[0].longitude, cordf[n - 1].longitude, n, i),
          IdealCoordinate(cordf[0].latitude, cordf[n - 1].latitude, n, i),
          cordf[i].altitude))
  }

  /** `ideal_line - 1`: every cell less one, so the same number of rows. */
  function MinusOne(frame: seq<Row>): (r: seq<Row>)
    ensures |r| == |frame|
  {
    seq(|frame|, i requires 0 <= i < |frame| =>
      Row(frame[i].longitude - 1.0, frame[i].latitude - 1.0, frame[i].altitude - 1.0))
  }

  /** Each ideal coordinate is the previous one moved by one step in the axis' direction. */
  lemma IdealCoordinateStep(start: real, stop: real, n: nat, i: nat)
    requires n > 0 && i > 0
    ensures var step := RangeOf(start, stop) / n as real;
      IdealCoordinate(start, stop, n, i) ==
        if DirectionOf(start, stop) == Up then IdealCoordinate(start, stop, n, i - 1) + step
        else IdealCoordinate(start, stop, n, i - 1) - step
  {
    var step := RangeOf(start, stop) / n as real;
    assert (i - 1) as real * step + step == i as real * step;
  }

  /** The loop of `line_straightness` that fills the ideal line: a copy of the frame
      whose rows 1..n-1 are rewritten, each from the row before it. The guard
      `i != len(ideal_line-1)` compares `i` with the row count, which `i` never
      reaches, so the last row is rewritten too. */
  method BuildIdealLine(cordf: seq<Row>) returns (ideal: seq<Row>)
    requires |cordf| > 0
    ensures ideal == IdealLine(cordf)
  {
    var n := |cordf|;
    var latStart, latStop := cordf[0].latitude, cordf[n - 1].latitude;
    var longStart, longStop := cordf[0].longitude, cordf[n - 1].longitude;
    var latDir, longDir := DirectionOf(latStart, latStop), DirectionOf(longStart, longStop);
    var latRange, longRange := RangeOf(latStart, latStop), RangeOf(longStart, longStop);
    var a := new Row[n](k requires 0 <= k < n => cordf[k]);
    var i := 0;
    while i < n
      invariant 0 <= i <= n
      invariant forall k :: 0 <= k < i ==> a[k] == IdealLine(cordf)[k]
      invariant forall k :: i <= k < n ==> a[k] == cordf[k]
    {
      if i != 0 && i != |MinusOne(a[..])| {
        IdealCoordinateStep(latStart, latStop, n, i);
        IdealCoordinateStep(longStart, longStop, n, i);
        if latDir == Up {
          a[i] := a[i].(latitude := a[i - 1].latitude + latRange / n as real);
        } else {
          a[i] := a[i].(latitude := a[i - 1].latitude - latRange / n as real);
        }
        if longDir == Up {
          a[i] := a[i].(longitude := a[i - 1].longitude + longRange / n as real);
        } else {
          a[i] := a[i].(longitude := a[i - 1].longitude - longRange / n as real);
        }
      }
      i := i + 1;
    }
    ideal := a[..];
  }

  /** The ideal line has the frame's length, starts at the frame's first row, and
      keeps the frame's altitude column. */
  lemma IdealLineShape(cordf: seq<Row>)
    requires |cordf| > 0
    ensures |IdealLine(cordf)| == |cordf|
    ensures IdealLine(cordf)[0] == cordf[0]
    ensures forall i :: 0 <= i < |cordf| ==> IdealLine(cordf)[i].altitude == cordf[i].altitude
  {
  }

  /** On each axis the ideal line ends one step short of the measured last value:
      at `start ± (n-1)·range/n`, not at `stop`. */
  lemma IdealEndpointShort(start: real, stop: real, n: nat)
    requires n > 0
    ensures var step := RangeOf(start, stop) / n as real;
      IdealCoordinate(start, stop, n, n - 1) ==
        if DirectionOf(start, stop) == Up then stop - step else stop + step
    ensures IdealCoordinate(start, stop, n, n - 1) == stop <==> start == stop
  {
    var range := RangeOf(start, stop);
    var step := range / n as real;
    assert (n - 1) as real * step == range - step;
    assert step == 0.0 <==> range == 0.0;
  }

  /** Python's `math.pow(x, 2)`. */
  function Square(x: real): (r: real)
    ensures r >= 0.0
  {
    x * x
  }

  /** The `error` frame: a copy of the measured frame whose longitude and latitude
      cells hold the squared deviation from the ideal line. */
  function SquaredResiduals(ideal: seq<Row>, cordf: seq<Row>): seq<Row>
    requires |ideal| == |cordf|
  {
    seq(|cordf|, i requires 0 <= i < |cordf| =>
      Row(Square(ideal[i].longitude - cordf[i].longitude),
          Square(ideal[i].latitude - cordf[i].latitude),
          cordf[i].altitude))
  }

  /** The loop of `line_straightness` that fills the `error` frame cell by cell. */
  method ComputeError(ideal: seq<Row>, cordf: seq<Row>) returns (error: seq<Row>)
    requires |ideal| == |cordf|
    ensures error == SquaredResiduals(ideal, cordf)
  {
    var n := |cordf|;
    var e := new Row[n](k requires 0 <= k < n => cordf[k]);
    var i := 0;
    while i < n
      invariant 0 <= i <= n
      invariant forall k :: 0 <= k < i ==> e[k] == SquaredResiduals(ideal, cordf)[k]
      invariant forall k :: i <= k < n ==> e[k] == cordf[k]
    {
      e[i] := e[i].(latitude := Square(ideal[i].latitude - cordf[i].latitude));
      e[i] := e[i].(longitude := Square(ideal[i].longitude - cordf[i].longitude));
      i := i + 1;
    }
    error := e[..];
  }

  function Sum(xs: seq<real>): real
  {
    if xs == [] then 0.0 else xs[0] + Sum(xs[1..])
  }

  lemma {:induction false} SumNonNegative(xs: seq<real>)
    requires forall k :: 0 <= k < |xs| ==> xs[k] >= 0.0
    ensures Sum(xs) >= 0.0
  {
    if xs != [] {
      SumNonNegative(xs[1..]);
    }
  }

  /** A sum of non-negative terms is zero exactly when every term is zero. */
  lemma {:induction false} SumZero(xs: seq<real>)
    requires forall k :: 0 <= k < |xs| ==> xs[k] >= 0.0
    ensures Sum(xs) == 0.0 <==> forall k :: 0 <= k < |xs| ==> xs[k] == 0.0
  {
    if xs != [] {
      SumZero(xs[1..]);
      SumNonNegative(xs[1..]);
    }
  }

  function Longitudes(frame: seq<Row>): seq<real>
  {
    seq(|frame|, i requires 0 <= i < |frame| => frame[i].longitude)
  }

  function Latitudes(frame: seq<Row>): seq<real>
  {
    seq(|frame|, i requires 0 <= i < |frame| => frame[i].latitude)
  }

  function Altitudes(frame: seq<Row>): seq<real>
  {
    seq(|frame|, i requires 0 <= i < |frame| => frame[i].altitude)
  }

  /** `error.sum()`: the sum of each column. */
  function ColumnSums(frame: seq<Row>): Row
  {
    Row(Sum(Longitudes(frame)), Sum(Latitudes(frame)), Sum(Altitudes(frame)))
  }

  /** `mse_lat` before the conversion to meters: the mean squared latitude deviation. */
  function MseLatitude(cordf: seq<Row>): real
    requires |cordf| > 0
  {
    ColumnSums(SquaredResiduals(IdealLine(cordf), cordf)).latitude / |cordf| as real
  }

  /** `mse_long` before the conversion to meters: the mean squared longitude deviation. */
  function MseLongitude(cordf: seq<Row>): real
    requires |cordf| > 0
  {
    ColumnSums(SquaredResiduals(IdealLine(cordf), cordf)).longitude / |cordf| as real
  }

  /** `combined_mse`: each axis' mean square multiplied once by `deg_to_meter`, then averaged. */
  function CombinedMse(cordf: seq<Row>, degToMeter: real): real
    requires |cordf| > 0
  {
    (MseLatitude(cordf) * degToMeter + MseLongitude(cordf) * degToMeter) / 2.0
  }

  /** What `line_straightness` computes, with its intermediate frames and figures. */
  datatype Straightness = Straightness(
    idealLine: seq<Row>,
    error: seq<Row>,
    mseLat: real,       // mean squared latitude deviation, in square degrees
    mseLong: real,      // mean squared longitude deviation, in square degrees
    combinedMse: real,  // the per-axis figures times `deg_to_meter`, averaged
    rmse: real)         // the returned value, `math.sqrt(combined_mse)`

  /** `line_straightness` without the plot. `degToMeter` is the script's
      `2·π·R/360` with `R` the WGS-84 equatorial radius in meters, and `sqrt` is
      `math.sqrt` on the non-negative reals, where it is defined. An empty frame
      fails on `cordf.iloc[0,1]`; a negative `combined_mse` (possible only with a
      negative factor) fails in `math.sqrt` with a `ValueError`. */
  method ComputeStraightness(cordf: seq<Row>, degToMeter: real, sqrt: real -> real)
    returns (r: Result<Straightness>)
    requires forall x :: x >= 0.0 ==> IsSquareRoot(sqrt(x), x)
    ensures cordf == [] ==> r == Err(IndexError)
    ensures cordf != [] && CombinedMse(cordf, degToMeter) < 0.0 ==> r == Err(ValueError)
    ensures r.Ok? <==> cordf != [] && CombinedMse(cordf, degToMeter) >= 0.0
    ensures r.Ok? ==>
      r.value.idealLine == IdealLine(cordf) &&
      r.value.error == SquaredResiduals(IdealLine(cordf), cordf) &&
      r.value.mseLat == MseLatitude(cordf) && r.value.mseLong == MseLongitude(cordf) &&
      r.value.combinedMse == CombinedMse(cordf, degToMeter)
    ensures r.Ok? ==> IsSquareRoot(r.value.rmse, r.value.combinedMse)
  {
    if |cordf| == 0 {
      return Err(IndexError);
    }
    var idealLine := BuildIdealLine(cordf);
    var error := ComputeError(idealLine, cordf);
    var mse := ColumnSums(error);
    var mseLat := mse.latitude / |error| as real;
    var mseLong := mse.longitude / |error| as real;
    var combinedMse := (mseLat * degToMeter + mseLong * degToMeter) / 2.0;
    if combinedMse < 0.0 {
      return Err(ValueError);
    }
    var rmse := sqrt(combinedMse);
    r := Ok(Straightness(idealLine, error, mseLat, mseLong, combinedMse, rmse));
  }

  /** Both mean squares are non-negative. */
  lemma MseNonNegative(cordf: seq<Row>)
    requires |cordf| > 0
    ensures MseLatitude(cordf) >= 0.0 && MseLongitude(cordf) >= 0.0
  {
    var e := SquaredResiduals(IdealLine(cordf), cordf);
    SumNonNegative(Latitudes(e));
    SumNonNegative(Longitudes(e));
  }

  /** With a non-negative conversion factor the combined figure is non-negative, so
      the square root taken of it is defined. */
  lemma CombinedMseNonNegative(cordf: seq<Row>, degToMeter: real)
    requires |cordf| > 0 && degToMeter >= 0.0
    ensures CombinedMse(cordf, degToMeter) >= 0.0
  {
    MseNonNegative(cordf);
  }

  /** The conversion factor enters once, not squared: the combined figure is linear in it. */
  lemma CombinedMseLinearInFactor(cordf: seq<Row>, degToMeter: real)
    requires |cordf| > 0
    ensures CombinedMse(cordf, degToMeter) == degToMeter * CombinedMse(cordf, 1.0)
  {
  }

  /** Row 0 of the ideal line is the measured row 0, so its residuals are zero. */
  lemma FirstResidualZero(cordf: seq<Row>)
    requires |cordf| > 0
    ensures SquaredResiduals(IdealLine(cordf), cordf)[0].latitude == 0.0
    ensures SquaredResiduals(IdealLine(cordf), cordf)[0].longitude == 0.0
  {
    IdealLineShape(cordf);
  }

  /** If every measured latitude equals the ideal one, the mean squared latitude
      deviation is zero. */
  lemma MseLatitudeZeroOnIdealLine(cordf: seq<Row>)
    requires |cordf| > 0
    requires forall i :: 0 <= i < |cordf| ==> cordf[i].latitude == IdealLine(cordf)[i].latitude
    ensures MseLatitude(cordf) == 0.0
  {
    var ideal := IdealLine(cordf);
    var lats := Latitudes(SquaredResiduals(ideal, cordf));
    forall k | 0 <= k < |lats| ensures lats[k] == 0.0 {
      assert ideal[k].latitude - cordf[k].latitude == 0.0;
    }
    SumZero(lats);
  }

  /** If every measured longitude equals the ideal one, the mean squared longitude
      deviation is zero. */
  lemma MseLongitudeZeroOnIdealLine(cordf: seq<Row>)
    requires |cordf| > 0
    requires forall i :: 0 <= i < |cordf| ==> cordf[i].longitude == IdealLine(cordf)[i].longitude
    ensures MseLongitude(cordf) == 0.0
  {
    var ideal := IdealLine(cordf);
    var longs := Longitudes(SquaredResiduals(ideal, cordf));
    forall k | 0 <= k < |longs| ensures longs[k] == 0.0 {
      assert ideal[k].longitude - cordf[k].longitude == 0.0;
    }
    SumZero(longs);
  }

  /** A frame that lies on its own ideal line has a combined figure of zero,
      whatever the conversion factor. */
  lemma CombinedMseZeroOnIdealLine(cordf: seq<Row>, degToMeter: real)
    requires |cordf| > 0
    requires forall i :: 0 <= i < |cordf| ==>
      cordf[i].latitude == IdealLine(cordf)[i].latitude &&
      cordf[i].longitude == IdealLine(cordf)[i].longitude
    ensures CombinedMse(cordf, degToMeter) == 0.0
  {
    MseLatitudeZeroOnIdealLine(cordf);
    MseLongitudeZeroOnIdealLine(cordf);
  }

  /** A track that is exactly straight and evenly spaced, latitude 0, 1, 2 at a fixed
      longitude, still has a non-zero figure: the ideal line steps by 2/3, not 1. */
  lemma EvenlySpacedTrackNotZero(degToMeter: real)
    ensures var cordf := [Row(0.0, 0.0, 0.0), Row(0.0, 1.0, 0.0), Row(0.0, 2.0, 0.0)];
      IdealLine(cordf) == [Row(0.0, 0.0, 0.0), Row(0.0, 2.0 / 3.0, 0.0), Row(0.0, 4.0 / 3.0, 0.0)] &&
      MseLatitude(cordf) == 5.0 / 27.0 && MseLongitude(cordf) == 0.0 &&
      CombinedMse(cordf, degToMeter) == 5.0 * degToMeter / 54.0
  {
    var cordf := [Row(0.0, 0.0, 0.0), Row(0.0, 1.0, 0.0), Row(0.0, 2.0, 0.0)];
    var ideal := IdealLine(cordf);
    assert ideal == [Row(0.0, 0.0, 0.0), Row(0.0, 2.0 / 3.0, 0.0), Row(0.0, 4.0 / 3.0, 0.0)];
    var e := SquaredResiduals(ideal, cordf);
    assert Latitudes(e) == [0.0, 1.0 / 9.0, 4.0 / 9.0];
    assert Longitudes(e) == [0.0, 0.0, 0.0];
  }

  /** `rmse` is a square root of `x`: non-negative, with square `x`. */
  predicate IsSquareRoot(rmse: real, x: real)
  {
    rmse >= 0.0 && rmse * rmse == x
  }

  /** The square root, where it exists, is unique, so the `rmse` of a result is
      determined by its `combined_mse`. */
  lemma SquareRootUnique(a: real, b: real, x: real)
    requires IsSquareRoot(a, x) && IsSquareRoot(b, x)
    ensures a == b
  {
    if a < b {
      SquareIncreasing(a, b);
    } else if b < a {
      SquareIncreasing(b, a);
    }
  }

  lemma SquareIncreasing(x: real, y: real)
    requires 0.0 <= x < y
    ensures x * x < y * y
  {
    ProductPositive(y - x, y + x);
    assert (y - x) * (y + x) == y * y - x * x;
  }

  lemma ProductPositive(a: real, b: real)
    requires a > 0.0 && b > 0.0
    ensures a * b > 0.0
  {
  }
}
