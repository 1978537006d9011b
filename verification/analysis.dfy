/** The order in which `main` runs the analysis on a recording: read the frame,
    then precision, then accuracy, then straightness. The first exception raised
    ends the run. Argument parsing, printing and plotting are not modelled. */
module Analysis {
  import opened Frame
  import opened Text
  import ReadUblox
  import Precision
  import Accuracy
  import LineStraightness

  datatype Report = Report(
    precision: real,
    accuracy: Accuracy.LineLength,
    straightness: LineStraightness.Straightness)

  /** Every kept field of the recording parses, so `read_ublox` raises nothing. */
  predicate Readable(text: string, parse: string -> Option<real>)
  {
    ReadUblox.AllParse(ReadUblox.CoordinateLines(Split(text, '\n')), parse)
  }

  /** One run of `main` on the coordinate text of a recording; `sqrt` is `math.sqrt`. */
  method Analyse(text: string, parse: string -> Option<real>, dist: (Coord, Coord) -> real,
                 lineLengthMeters: int, degToMeter: real, sqrt: real -> real)
    returns (r: Result<Report>)
    requires forall x :: x >= 0.0 ==> LineStraightness.IsSquareRoot(sqrt(x), x)
    ensures !Readable(text, parse) ==> r == Err(ValueError)
    ensures Readable(text, parse) && ReadUblox.ParsedFrame(text, parse) == [] ==>
      r == Err(IndexError)
    ensures Readable(text, parse) && ReadUblox.ParsedFrame(text, parse) != [] ==>
      (r.Ok? <==> LineStraightness.CombinedMse(ReadUblox.ParsedFrame(text, parse), degToMeter) >= 0.0)
    ensures Readable(text, parse) && ReadUblox.ParsedFrame(text, parse) != [] && r.Err? ==>
      r.error == ValueError
    ensures r.Ok? ==> Readable(text, parse) && ReadUblox.ParsedFrame(text, parse) != []
    ensures r.Ok? ==>
      r.value.precision == Precision.PrecisionBound(ReadUblox.ParsedFrame(text, parse), dist)
    ensures r.Ok? ==>
      Accuracy.EstimateAccuracy(ReadUblox.ParsedFrame(text, parse), lineLengthMeters, dist) == Ok(r.value.accuracy)
    ensures r.Ok? ==>
      var file := ReadUblox.ParsedFrame(text, parse);
      var ideal := LineStraightness.IdealLine(file);
      var combined := LineStraightness.CombinedMse(file, degToMeter);
      r.value.straightness == LineStraightness.Straightness(
        ideal, LineStraightness.SquaredResiduals(ideal, file),
        LineStraightness.MseLatitude(file), LineStraightness.MseLongitude(file),
        combined, r.value.straightness.rmse) &&
      LineStraightness.IsSquareRoot(r.value.straightness.rmse, combined)
  {
    var read := ReadUblox.ReadCoordinates(text, parse);
    if read.Err? {
      return Err(read.error);
    }
    var file := read.value;
    var precision := Precision.EstimatePrecision(file, dist);
    var accuracy := Accuracy.EstimateAccuracy(file, lineLengthMeters, dist);
    if accuracy.Err? {
      return Err(accuracy.error);
    }
    // `line_straightness` would fail on an empty frame too, but the accuracy step
    // has already failed on it.
    var straightness := LineStraightness.ComputeStraightness(file, degToMeter, sqrt);
    if straightness.Err? {
      return Err(straightness.error);
    }
    r := Ok(Report(precision, accuracy.value, straightness.value));
  }
}
