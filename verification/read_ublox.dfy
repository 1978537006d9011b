/** `read_ublox`: turns the text that its loop over the KML `<coordinates>`
    elements builds into the coordinate data frame, one row per line that holds
    exactly three comma-separated fields, without the first 30 such rows. */
module ReadUblox {
  import opened Frame
  import opened Text

  /** Rows dropped from the start of the recording (`lat[30:]` and friends). */
  const WarmUpRows: nat := 30

  /** The comma-separated fields of one line, after stripping surrounding spaces. */
  function Fields(line: string): seq<string>
  {
    Split(Strip(line), ',')
  }

  /** The three text fields of a coordinate line. */
  datatype CoordinateFields = CoordinateFields(f0: string, f1: string, f2: string)

  /** What one line contributes: its fields when there are exactly three, else nothing. */
  function Kept(line: string): seq<CoordinateFields>
  {
    var fields := Fields(line);
    if |fields| == 3 then [CoordinateFields(fields[0], fields[1], fields[2])] else []
  }

  /** Concatenates what `keep` gives for each line, in line order. */
  function FlatMap(lines: seq<string>, keep: string -> seq<CoordinateFields>): seq<CoordinateFields>
  {
    if lines == [] then [] else FlatMap(lines[..|lines| - 1], keep) + keep(lines[|lines| - 1])
  }

  /** The fields of the lines that have exactly three fields, in line order. */
  function CoordinateLines(lines: seq<string>): seq<CoordinateFields>
  {
    FlatMap(lines, Kept)
  }

  lemma {:induction false} FlatMapAppend(a: seq<string>, b: seq<string>, keep: string -> seq<CoordinateFields>)
    ensures FlatMap(a + b, keep) == FlatMap(a, keep) + FlatMap(b, keep)
  {
    if b != [] {
      var b' := b[..|b| - 1];
      FlatMapAppend(a, b', keep);
      assert (a + b)[..|a + b| - 1] == a + b';
      assert (a + b)[|a + b| - 1] == b[|b| - 1];
    } else {
      assert a + b == a;
    }
  }

  /** Filtering distributes over concatenation, so the kept lines stay in input order. */
  lemma CoordinateLinesAppend(a: seq<string>, b: seq<string>)
    ensures CoordinateLines(a + b) == CoordinateLines(a) + CoordinateLines(b)
  {
    FlatMapAppend(a, b, Kept);
  }

  /** Every line with exactly three fields is kept. */
  lemma {:induction false} CoordinateLinesComplete(lines: seq<string>, i: nat)
    requires i < |lines|
    requires var fields := Fields(lines[i]); |fields| == 3
    ensures var fields := Fields(lines[i]);
      CoordinateFields(fields[0], fields[1], fields[2]) in CoordinateLines(lines)
  {
    var init := lines[..|lines| - 1];
    assert CoordinateLines(lines) == CoordinateLines(init) + Kept(lines[|lines| - 1]);
    if i < |lines| - 1 {
      assert lines[i] == init[i];
      CoordinateLinesComplete(init, i);
    }
  }

  /** Everything kept comes from an input line that has exactly three fields. */
  lemma {:induction false} CoordinateLinesSound(lines: seq<string>, c: CoordinateFields)
    requires c in CoordinateLines(lines)
    ensures exists i :: 0 <= i < |lines| && Fields(lines[i]) == [c.f0, c.f1, c.f2]
  {
    var init := lines[..|lines| - 1];
    assert CoordinateLines(lines) == CoordinateLines(init) + Kept(lines[|lines| - 1]);
    if c in CoordinateLines(init) {
      CoordinateLinesSound(init, c);
      var i :| 0 <= i < |init| && Fields(init[i]) == [c.f0, c.f1, c.f2];
      assert lines[i] == init[i];
    } else {
      var fields := Fields(lines[|lines| - 1]);
      assert |fields| == 3 && c == CoordinateFields(fields[0], fields[1], fields[2]);
      assert fields == [c.f0, c.f1, c.f2];
    }
  }

  /** `float()` succeeds on every field of every kept line. */
  predicate AllParse(q: seq<CoordinateFields>, parse: string -> Option<real>)
  {
    forall k :: 0 <= k < |q| ==> parse(q[k].f0).Some? && parse(q[k].f1).Some? && parse(q[k].f2).Some?
  }

  /** The row that a parsed coordinate line becomes: the script's list `lat` takes
      field 0 and lands in column "Longitude", `long` takes field 1 and lands in
      column "Latitude", `alt` takes field 2. */
  function ParsedRow(c: CoordinateFields, parse: string -> Option<real>): Row
    requires parse(c.f0).Some? && parse(c.f1).Some? && parse(c.f2).Some?
  {
    Row(parse(c.f0).value, parse(c.f1).value, parse(c.f2).value)
  }

  /** The frame made from the kept lines `q` once the first 30 are dropped. */
  function FrameOf(q: seq<CoordinateFields>, parse: string -> Option<real>): (frame: seq<Row>)
    requires AllParse(q, parse)
    ensures |frame| == DropLength(|q|, WarmUpRows)
    ensures forall k :: 0 <= k < |frame| ==> frame[k] == ParsedRow(q[k + WarmUpRows], parse)
  {
    var n := DropLength(|q|, WarmUpRows);
    seq(n, k requires 0 <= k < n => ParsedRow(q[k + WarmUpRows], parse))
  }

  /** The frame `read_ublox` returns when every field parses. */
  function ParsedFrame(text: string, parse: string -> Option<real>): seq<Row>
    requires AllParse(CoordinateLines(Split(text, '\n')), parse)
  {
    FrameOf(CoordinateLines(Split(text, '\n')), parse)
  }

  /** The script's three lists hold the parsed fields 0, 1 and 2 of the kept lines `q`. */
  predicate Columns(q: seq<CoordinateFields>, parse: string -> Option<real>,
                    lat: seq<real>, long: seq<real>, alt: seq<real>)
  {
    AllParse(q, parse) && |lat| == |q| && |long| == |q| && |alt| == |q| &&
    forall k :: 0 <= k < |q| ==> Row(lat[k], long[k], alt[k]) == ParsedRow(q[k], parse)
  }

  /** Reads the coordinate text as `read_ublox` does. `parse` stands for Python's
      `float()`, with `None` for the `ValueError` it raises on a field that is not
      a number; the raised error ends the whole read. */
  method ReadCoordinates(text: string, parse: string -> Option<real>) returns (r: Result<seq<Row>>)
    ensures r.Err? <==> !AllParse(CoordinateLines(Split(text, '\n')), parse)
    ensures r.Err? ==> r.error == ValueError
    ensures r.Ok? ==>
      var q := CoordinateLines(Split(text, '\n'));
      |r.value| == DropLength(|q|, WarmUpRows) &&
      forall k :: 0 <= k < |r.value| ==> r.value[k] == ParsedRow(q[k + WarmUpRows], parse)
    ensures r.Ok? ==> r.value == ParsedFrame(text, parse)
  {
    var lines := Split(text, '\n');
    var ok, lat, long, alt := CollectColumns(lines, parse);
    if !ok {
      return Err(ValueError);
    }
    // Drop the warm-up rows, then zip the three lists into the frame's rows.
    lat, long, alt := DropFirst(lat, WarmUpRows), DropFirst(long, WarmUpRows), DropFirst(alt, WarmUpRows);
    var frame := seq(|lat|, k requires 0 <= k < |lat| => Row(lat[k], long[k], alt[k]));
    assert frame == FrameOf(CoordinateLines(lines), parse);
    r := Ok(frame);
  }

  /** The loop over the lines: the lists `lat`, `long` and `alt` grow by the parsed
      fields 0, 1 and 2 of each line that has exactly three fields. `ok` is false
      when `float()` fails on one of them. */
  method CollectColumns(lines: seq<string>, parse: string -> Option<real>)
    returns (ok: bool, lat: seq<real>, long: seq<real>, alt: seq<real>)
    ensures ok <==> AllParse(CoordinateLines(lines), parse)
    ensures ok ==> Columns(CoordinateLines(lines), parse, lat, long, alt)
  {
    lat, long, alt := [], [], [];
    var i := 0;
    while i < |lines|
      invariant 0 <= i <= |lines|
      invariant Columns(CoordinateLines(lines[..i]), parse, lat, long, alt)
    {
      ghost var p := CoordinateLines(lines[..i]);
      CoordinatePrefixStep(lines, i);
      var fields := Fields(lines[i]);
      if |fields| == 3 {
        var f0, f1, f2 := parse(fields[0]), parse(fields[1]), parse(fields[2]);
        if f0.None? || f1.None? || f2.None? {
          CoordinateLinesComplete(lines, i);
          return false, lat, long, alt;
        }
        ColumnsExtend(p, CoordinateFields(fields[0], fields[1], fields[2]), parse, lat, long, alt);
        lat, long, alt := lat + [f0.value], long + [f1.value], alt + [f2.value];
      }
      i := i + 1;
    }
    assert lines[..i] == lines;
    ok := true;
  }

  lemma CoordinatePrefixStep(lines: seq<string>, i: nat)
    requires i < |lines|
    ensures CoordinateLines(lines[..i + 1]) == CoordinateLines(lines[..i]) + Kept(lines[i])
  {
    assert lines[..i + 1][..i] == lines[..i];
  }

  lemma ColumnsExtend(p: seq<CoordinateFields>, c: CoordinateFields, parse: string -> Option<real>,
                      lat: seq<real>, long: seq<real>, alt: seq<real>)
    requires Columns(p, parse, lat, long, alt)
    requires parse(c.f0).Some? && parse(c.f1).Some? && parse(c.f2).Some?
    ensures Columns(p + [c], parse, lat + [parse(c.f0).value], long + [parse(c.f1).value], alt + [parse(c.f2).value])
  {
  }

  /** Python's `xs[m:]`, which is empty when `xs` is shorter than `m`. */
  function DropFirst<T>(xs: seq<T>, m: nat): (r: seq<T>)
    ensures |r| == DropLength(|xs|, m)
    ensures forall k :: 0 <= k < |r| ==> r[k] == xs[k + m]
  {
    if |xs| <= m then [] else xs[m..]
  }
}
