/** Values shared by the whole model: a row of the coordinate data frame,
    a (latitude, longitude) coordinate pair, and the error outcomes of the script. */
module Frame {

  /** One row of the data frame built by `read_ublox`. The column names are the
      script's own: column 0 is "Longitude", column 1 "Latitude", column 2 "Altitude". */
  datatype Row = Row(longitude: real, latitude: real, altitude: real)

  /** A point handed to `position_diff`: (latitude, longitude), in that order. */
  type Coord = (real, real)

  /** The exceptions the modelled code can raise. */
  datatype Error =
    | IndexError   // `iloc[0, …]` on an empty data frame
    | ValueError   // `float()` applied to a field that is not a number

  datatype Result<T> = Ok(value: T) | Err(error: Error)

  datatype Option<T> = None | Some(value: T)

  /** Python's `max(0, k - m)`: the length of `xs[m:]` for a list of length k. */
  function DropLength(k: nat, m: nat): nat
  {
    if k <= m then 0 else k - m
  }
}
