/** The accuracy step of the script's `main`: the measured distance from the
    first row of the frame to the last, against the target line length. The
    geodesic distance `position_diff` is the parameter `dist`. */
module Accuracy {
  import opened Frame

  /** The accuracy report: the measured first-to-last distance and the target less it. */
  datatype LineLength = LineLength(measured: real, delta: real)

  /** The accuracy part of `main`: `position_diff` from the first row to the last,
      as (latitude, longitude) pairs, and `line_length_meters - length`. An empty
      frame fails on `file.iloc[0,1]`. */
  function EstimateAccuracy(file: seq<Row>, lineLengthMeters: int, dist: (Coord, Coord) -> real): (r: Result<LineLength>)
    ensures r.Err? <==> file == []
    ensures r.Err? ==> r.error == IndexError
    ensures r.Ok? ==>
      var first, last := file[0], file[|file| - 1];
      r.value.measured == dist((first.latitude, first.longitude), (last.latitude, last.longitude)) &&
      r.value.measured + r.value.delta == lineLengthMeters as real &&
      (r.value.delta < 0.0 <==> r.value.measured > lineLengthMeters as real)
  {
    if file == [] then Err(IndexError)
    else
      var length := dist((file[0].latitude, file[0].longitude),
                         (file[|file| - 1].latitude, file[|file| - 1].longitude));
      Ok(LineLength(length, lineLengthMeters as real - length))
  }
}
