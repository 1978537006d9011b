/** The precision step of the script's `main`: the bound over the first 60 rows.
    The geodesic distance `position_diff` (`geopy.distance.distance(...).m`) is
    the parameter `dist`; no property of it is assumed unless a lemma states it
    as a requirement. */
module Precision {
  import opened Frame

  /** Rows of the stationary window (`file.iloc[:60, …]`). */
  const WindowRows: nat := 60

  /** `zip(lat, long)` over the window's latitude and longitude columns. */
  function WindowCoords(file: seq<Row>): (w: seq<Coord>)
    ensures |w| == if |file| < WindowRows then |file| else WindowRows
    ensures forall k :: 0 <= k < |w| ==> w[k] == (file[k].latitude, file[k].longitude)
  {
    var n := if |file| < WindowRows then |file| else WindowRows;
    seq(n, k requires 0 <= k < n => (file[k].latitude, file[k].longitude))
  }

  /** The single-pass iterator returned by `zip`: every consumer draws from one
      shared position, and once exhausted it stays exhausted. */
  class ZipCursor {
    const items: seq<Coord>
    var pos: nat

    ghost predicate Valid()
      reads this
    {
      pos <= |items|
    }

    /** `zip(lat, long)`: pairs up the two lists, as far as the shorter one goes. */
    constructor (lat: seq<real>, long: seq<real>)
      ensures Valid() && pos == 0
      ensures |items| == (if |lat| < |long| then |lat| else |long|)
      ensures forall k :: 0 <= k < |items| ==> items[k] == (lat[k], long[k])
    {
      var n := if |lat| < |long| then |lat| else |long|;
      items := seq(n, k requires 0 <= k < n => (lat[k], long[k]));
      pos := 0;
    }

    /** `next()`: the item at the shared position and a step forward, or nothing
        (Python's `StopIteration`) once every item has been drawn. */
    method Next() returns (item: Option<Coord>)
      requires Valid()
      modifies this
      ensures Valid()
      ensures old(pos) < |items| ==> item == Some(items[old(pos)]) && pos == old(pos) + 1
      ensures old(pos) == |items| ==> item == None && pos == old(pos)
    {
      if pos < |items| {
        item := Some(items[pos]);
        pos := pos + 1;
      } else {
        item := None;
      }
    }
  }

  /** The nested loops that build `all_combos`. Both `enumerate(cords)` loops draw
      from the same `zip` iterator: the outer loop takes sample 0, the inner loop
      drains samples 1..n-1 with `j` counting from 0, and `j != i` drops only
      sample 1. The outer loop then finds the iterator empty. So the result is the
      pairs (sample 0, sample k) for k = 2..n-1, in that order. */
  method AllCombos(lat: seq<real>, long: seq<real>) returns (combos: seq<(Coord, Coord)>)
    requires |lat| == |long|
    ensures |combos| == DropLength(|lat|, 2)
    ensures forall k :: 0 <= k < |combos| ==> combos[k] == ((lat[0], long[0]), (lat[k + 2], long[k + 2]))
  {
    var cords := new ZipCursor(lat, long);
    ghost var w := cords.items;
    combos := [];
    var i := 0;
    var cord1 := cords.Next();
    while cord1.Some?
      invariant cords.Valid() && cords.items == w
      invariant cord1.Some? ==> i == 0 && cords.pos == 1 && cord1.value == w[0] && combos == []
      invariant cord1.None? ==> |combos| == DropLength(|w|, 2)
      invariant forall k :: 0 <= k < |combos| ==> combos[k] == (w[0], w[k + 2])
      decreases if cord1.Some? then 1 else 0
    {
      var j := 0;
      var cord2 := cords.Next();
      while cord2.Some?
        invariant cords.Valid() && cords.items == w
        invariant 1 + j <= |w|
        invariant cord2.Some? ==> 1 + j < |w| && cord2.value == w[1 + j] && cords.pos == 2 + j
        invariant cord2.None? ==> 1 + j == |w| && cords.pos == |w|
        invariant |combos| == DropLength(j, 1)
        invariant forall k :: 0 <= k < |combos| ==> combos[k] == (w[0], w[k + 2])
        decreases |w| - j
      {
        if j != i {
          combos := combos + [(cord1.value, cord2.value)];
        }
        j := j + 1;
        cord2 := cords.Next();
      }
      i := i + 1;
      cord1 := cords.Next();
    }
  }

  /** The loop that appends `position_diff(cord[0], cord[1])` to each pair. */
  method AppendDistances(combos: seq<(Coord, Coord)>, dist: (Coord, Coord) -> real)
    returns (measured: seq<(Coord, Coord, real)>)
    ensures |measured| == |combos|
    ensures forall k :: 0 <= k < |measured| ==>
      measured[k] == (combos[k].0, combos[k].1, dist(combos[k].0, combos[k].1))
  {
    measured := [];
    var i := 0;
    while i < |combos|
      invariant 0 <= i <= |combos| && |measured| == i
      invariant forall k :: 0 <= k < i ==>
        measured[k] == (combos[k].0, combos[k].1, dist(combos[k].0, combos[k].1))
    {
      measured := measured + [(combos[i].0, combos[i].1, dist(combos[i].0, combos[i].1))];
      i := i + 1;
    }
  }

  /** The largest of the values and 0: what a running maximum seeded at 0 ends with. */
  function MaxFromZero(ds: seq<real>): (m: real)
    ensures m >= 0.0
    ensures forall k :: 0 <= k < |ds| ==> ds[k] <= m
    ensures m == 0.0 || exists k :: 0 <= k < |ds| && ds[k] == m
  {
    if ds == [] then 0.0
    else
      var m := MaxFromZero(ds[..|ds| - 1]);
      if ds[|ds| - 1] > m then ds[|ds| - 1] else m
  }

  /** The loop that tracks `maximum` and `minimum`. Its `elif` branch evaluates
      `minimum - cord[2]` and discards it, so `minimum` keeps its initial 0. */
  method ScanMaxMin(measured: seq<(Coord, Coord, real)>) returns (maximum: real, minimum: real)
    ensures maximum == MaxFromZero(Distances(measured))
    ensures minimum == 0.0
  {
    maximum := 0.0;
    minimum := 0.0;
    var i := 0;
    while i < |measured|
      invariant 0 <= i <= |measured|
      invariant maximum == MaxFromZero(Distances(measured)[..i])
      invariant minimum == 0.0
    {
      assert Distances(measured)[..i + 1][..i] == Distances(measured)[..i];
      var d := measured[i].2;
      if d > maximum {
        maximum := d;
      } else if d < minimum {
        var discarded := minimum - d;
      }
      i := i + 1;
    }
    assert Distances(measured)[..i] == Distances(measured);
  }

  /** The third component of each measured pair. */
  function Distances(measured: seq<(Coord, Coord, real)>): (ds: seq<real>)
    ensures |ds| == |measured|
    ensures forall k :: 0 <= k < |ds| ==> ds[k] == measured[k].2
  {
    seq(|measured|, k requires 0 <= k < |measured| => measured[k].2)
  }

  /** The distances the script actually compares: from sample 0 of the window to
      each of samples 2..n-1. */
  function FirstSampleDistances(w: seq<Coord>, dist: (Coord, Coord) -> real): (ds: seq<real>)
    ensures |ds| == DropLength(|w|, 2)
    ensures forall k :: 0 <= k < |ds| ==> ds[k] == dist(w[0], w[k + 2])
  {
    var n := DropLength(|w|, 2);
    seq(n, k requires 0 <= k < n => dist(w[0], w[k + 2]))
  }

  /** The figure printed as "Max delta = +/- …m": `(maximum - minimum) / 2`. */
  function PrecisionBound(file: seq<Row>, dist: (Coord, Coord) -> real): real
  {
    (MaxFromZero(FirstSampleDistances(WindowCoords(file), dist)) - 0.0) / 2.0
  }

  /** The precision part of `main`, without the scatter plot and the printing. */
  method EstimatePrecision(file: seq<Row>, dist: (Coord, Coord) -> real) returns (bound: real)
    ensures bound == PrecisionBound(file, dist)
  {
    var n := if |file| < WindowRows then |file| else WindowRows;
    var lat := seq(n, k requires 0 <= k < n => file[k].latitude);
    var long := seq(n, k requires 0 <= k < n => file[k].longitude);
    var combos := AllCombos(lat, long);
    var measured := AppendDistances(combos, dist);
    var maximum, minimum := ScanMaxMin(measured);
    assert Distances(measured) == FirstSampleDistances(WindowCoords(file), dist);
    bound := (maximum - minimum) / 2.0;
  }

  /** The bound is half the largest distance from sample 0 to samples 2..n-1 of the
      window, or 0 when none is positive: it is at least 0 and at least half of each
      such distance, and when positive it is half of one of them. */
  lemma PrecisionBoundCharacterised(file: seq<Row>, dist: (Coord, Coord) -> real)
    ensures var w := WindowCoords(file); var b := PrecisionBound(file, dist);
      b >= 0.0 &&
      (forall k :: 2 <= k < |w| ==> dist(w[0], w[k]) <= 2.0 * b) &&
      (b == 0.0 || exists k :: 2 <= k < |w| && dist(w[0], w[k]) == 2.0 * b)
  {
    var w := WindowCoords(file);
    var ds := FirstSampleDistances(w, dist);
    var b := PrecisionBound(file, dist);
    forall k | 2 <= k < |w| ensures dist(w[0], w[k]) <= 2.0 * b {
      assert ds[k - 2] == dist(w[0], w[k]);
    }
    if b != 0.0 {
      var k :| 0 <= k < |ds| && ds[k] == MaxFromZero(ds);
      assert dist(w[0], w[k + 2]) == 2.0 * b;
    }
  }

  /** A window whose samples all coincide gives a bound of 0, provided the distance
      from a point to itself is 0. */
  lemma IdenticalWindowZero(file: seq<Row>, dist: (Coord, Coord) -> real)
    requires forall k :: 0 <= k < |file| ==> file[k].latitude == file[0].latitude && file[k].longitude == file[0].longitude
    requires forall c: Coord :: dist(c, c) == 0.0
    ensures PrecisionBound(file, dist) == 0.0
  {
    var w := WindowCoords(file);
    PrecisionBoundCharacterised(file, dist);
    forall k | 2 <= k < |w| ensures dist(w[0], w[k]) == 0.0 {
      assert w[k] == w[0];
    }
  }

  /** Only sample 0 is paired: three samples p, q, p with d(p, q) = 1 give a bound
      of 0, although two of the samples are 1 apart. */
  lemma OnlyFirstSamplePaired()
    ensures var dist := (a: Coord, b: Coord) => if a == b then 0.0 else 1.0;
      var file := [Row(0.0, 0.0, 0.0), Row(1.0, 0.0, 0.0), Row(0.0, 0.0, 0.0)];
      PrecisionBound(file, dist) == 0.0 && dist((0.0, 0.0), (0.0, 1.0)) == 1.0
  {
    var dist := (a: Coord, b: Coord) => if a == b then 0.0 else 1.0;
    var file := [Row(0.0, 0.0, 0.0), Row(1.0, 0.0, 0.0), Row(0.0, 0.0, 0.0)];
    var w := WindowCoords(file);
    assert w == [(0.0, 0.0), (0.0, 1.0), (0.0, 0.0)];
    assert FirstSampleDistances(w, dist) == [0.0];
  }
}
