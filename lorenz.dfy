/** The particles of the Lorenz attractor demos: each particle moves one
    integration step at a time and keeps a bounded trail of its most recent
    positions, newest first, whose colour fades with the age of the point. */
module Lorenz {
  import opened Wrappers
  import opened JavaInt

  /** A colour component accepted by java.awt.Color. */
  type Component = c: int | 0 <= c <= 255

  datatype Color = Color(red: Component, green: Component, blue: Component, alpha: Component)

  /** `new Color(r, g, b, a)`: refused unless every component is in 0..255. */
  function NewColor(r: int, g: int, b: int, a: int): (c: Result<Color>)
    ensures c.Success? <==> 0 <= r <= 255 && 0 <= g <= 255 && 0 <= b <= 255 && 0 <= a <= 255
    ensures c.Success? ==> c.value.red == r && c.value.green == g && c.value.blue == b && c.value.alpha == a
  {
    if 0 <= r <= 255 && 0 <= g <= 255 && 0 <= b <= 255 && 0 <= a <= 255
    then Success(Color(r, g, b, a))
    else Failure(IllegalColorComponent)
  }

  /** A position in 3D space (the doubles of a RealPoint). */
  datatype Point = Point(x: real, y: real, z: real)

  /** Number of points a trail of capacity `length` keeps out of `n` added ones. */
  function Kept(n: nat, length: int): nat
  {
    if length <= 0 then 0 else if n < length then n else length
  }

  /** The contents a trail of capacity `length` must have once the points of
      `added` were added in order: the most recent ones, newest first. */
  function Window(added: seq<Point>, length: int): (w: seq<Point>)
    ensures |w| == Kept(|added|, length) <= |added|
    ensures forall i :: 0 <= i < |w| ==> w[i] == added[|added| - 1 - i]
  {
    var k := Kept(|added|, length);
    seq(k, i requires 0 <= i < k => added[|added| - 1 - i])
  }

  /** Adding a point puts it in front and, once the trail is over capacity,
      drops exactly the oldest point. */
  lemma WindowAdd(added: seq<Point>, length: int, p: Point)
    ensures var w := Window(added, length);
      Window(added + [p], length) == if |w| + 1 > length then ([p] + w)[..|w|] else [p] + w
  {
    var w := Window(added, length);
    var w' := Window(added + [p], length);
    var e := if |w| + 1 > length then ([p] + w)[..|w|] else [p] + w;
    assert |w'| == |e|;
    forall i | 0 <= i < |w'|
      ensures w'[i] == e[i]
    {
      if i > 0 {
        assert e[i] == w[i - 1];
        assert w[i - 1] == added[|added| - 1 - (i - 1)];
      }
    }
  }

  /** The bounded trail of a particle. */
  class Trail {
    const length: Int32
    const r: Component
    const g: Component
    const b: Component
    const a: Component
    var points: seq<Point>
    /** Every point ever added, oldest first. */
    ghost var added: seq<Point>

    ghost predicate Valid()
      reads this
    {
      points == Window(added, length)
    }

    constructor (length: Int32, color: Color)
      ensures Valid() && points == [] && added == []
      ensures this.length == length
      ensures r == color.red && g == color.green && b == color.blue && a == color.alpha
    {
      this.length := length;
      r, g, b, a := color.red, color.green, color.blue, color.alpha;
      points, added := [], [];
    }

    /** Puts (a copy of) `point` in front and removes the last point when the
        trail holds more than `length` points. */
    method AddPoint(point: Point)
      requires Valid()
      modifies this
      ensures Valid() && added == old(added) + [point]
      ensures points == if |old(points)| + 1 > length
                        then ([point] + old(points))[..|old(points)|]
                        else [point] + old(points)
    {
      WindowAdd(added, length, point);
      points := [point] + points;
      if |points| > length {
        points := points[..|points| - 1];
      }
      added := added + [point];
    }

    /** A copy of the points, newest first; later additions do not change it. */
    method GetPoints() returns (copy: seq<Point>)
      requires Valid()
      ensures |copy| == Kept(|added|, length)
      ensures forall i :: 0 <= i < |copy| ==> copy[i] == added[|added| - 1 - i]
    {
      copy := points;
    }

    /** The colour of the point at `index`: the trail colour with alpha
        `255 - a * index / length` in Java int arithmetic. What this guarantees for
        the indices of held points is proved in `ColorsOfHeldPoints`, `AlphaInRange`
        and `AlphaFades`. */
    function GetColor(index: Int32): (c: Result<Color>)
      reads this
      ensures length == 0 ==> c == Failure(DivisionByZero)
      ensures length != 0 ==> c == NewColor(r, g, b, Alpha(a, index, length))
    {
      if length == 0 then Failure(DivisionByZero)
      else NewColor(r, g, b, Alpha(a, index, length))
    }

    /** Every point a trail can hold gets a valid colour: the trail's own colour
        with an alpha between 255 - a and 255, fading with the index. */
    lemma ColorsOfHeldPoints(i: int, j: int)
      requires 0 <= i <= j < length <= IntMax / 255
      ensures GetColor(i).Success? && GetColor(j).Success?
      ensures GetColor(i).value.red == r && GetColor(i).value.green == g && GetColor(i).value.blue == b
      ensures 255 - a <= GetColor(j).value.alpha <= GetColor(i).value.alpha <= 255
    {
      AlphaInRange(a, i, length);
      AlphaInRange(a, j, length);
      AlphaFades(a, i, j, length);
    }
  }

  /** `255 - (a * index / length)` with 32-bit wrap-around and truncating division. */
  function Alpha(a: Component, index: Int32, length: Int32): Int32
    requires length != 0
  {
    Sub32(255, Div32(Mul32(a, index), length))
  }

  /** Without overflow, the alpha is the plain `255 - a * index / length`. */
  lemma AlphaWithoutOverflow(a: Component, index: int, length: int)
    requires 0 <= index < length <= IntMax / 255
    ensures Alpha(a, index, length) == 255 - (a * index) / length
  {
    MulBelow(a, index, length);
    var m := a * index;
    assert Mul32(a, index) == m;
    TruncAgreesOnNonNegative(m, length);
    DivMonotone(0, m, length);
    var d := m / length;
    assert d <= m by {
      DivAtMost(m, length);
    }
    assert Div32(m, length) == d;
  }

  /** Without overflow, the alpha of a point of the trail lies in [255 - a, 255]
      (strictly above 255 - a when a > 0): the newest point has alpha 255, and
      the colour is always a valid one. */
  lemma AlphaInRange(a: Component, index: int, length: int)
    requires 0 <= index < length <= IntMax / 255
    ensures 255 - a <= Alpha(a, index, length) <= 255
    ensures a > 0 ==> 255 - a < Alpha(a, index, length)
    ensures index == 0 ==> Alpha(a, index, length) == 255
  {
    AlphaWithoutOverflow(a, index, length);
    MulBelow(a, index, length);
    DivMonotone(0, a * index, length);
    if a > 0 {
      MulStrict(a, index, length);
      DivBelow(a * index, a, length);
    } else {
      assert a * index == 0;
    }
  }

  /** Older points are never more opaque than newer ones. */
  lemma AlphaFades(a: Component, i: int, j: int, length: int)
    requires 0 <= i <= j < length <= IntMax / 255
    ensures Alpha(a, j, length) <= Alpha(a, i, length)
  {
    AlphaWithoutOverflow(a, i, length);
    AlphaWithoutOverflow(a, j, length);
    MulBelow(a, i, length);
    MulBelow(a, j, length);
    MulMonotone(a, i, j);
    DivMonotone(a * i, a * j, length);
  }

  lemma DivAtMost(x: nat, length: nat)
    requires 0 < length
    ensures x / length <= x
  {
    var q := x / length;
    assert length * q <= x;
    MulMonotone(q, 1, length);
  }

  lemma MulBelow(a: Component, index: int, length: int)
    requires 0 <= index < length <= IntMax / 255
    ensures 0 <= a * index <= 255 * index < 255 * length <= IntMax
  {
  }

  lemma MulMonotone(a: nat, i: nat, j: nat)
    requires i <= j
    ensures a * i <= a * j
  {
    assert a * j == a * i + a * (j - i);
  }

  lemma MulStrict(a: nat, i: nat, j: nat)
    requires a > 0 && i < j
    ensures a * i < a * j
  {
    assert a * j == a * i + a * (j - i);
    MulMonotone(a, 1, j - i);
  }

  lemma DivBelow(x: nat, a: nat, length: nat)
    requires 0 < length && x < a * length
    ensures x / length < a
  {
    var q := x / length;
    assert length * q <= x;
    if q >= a {
      MulMonotone(length, a, q);
      assert false;
    }
  }

  lemma DivMonotone(x: nat, y: nat, length: nat)
    requires 0 < length && x <= y
    ensures x / length <= y / length
  {
    var p, q := x / length, y / length;
    assert length * p <= x;
    assert y < length * q + length;
    assert length * (q + 1) == length * q + length;
  }

  const TrailCapacity := 900

  /** A particle: its position, its trail of capacity 900, and the counter that
      decides every how many steps the position joins the trail. */
  class Particle {
    const name: string
    const color: Color
    const trail: Trail
    var trailStep: int
    var step: int
    var position: Point
    /** Number of steps taken since construction. */
    ghost var steps: nat

    ghost predicate Valid()
      reads this, trail
    {
      trail.Valid() && trail.length == TrailCapacity
      && 1 <= trailStep <= IntMax && 0 <= step < trailStep
      && steps == trailStep * |trail.added| + step
      && (|trail.added| > 0 && step == 0 ==> trail.added[|trail.added| - 1] == position)
    }

    constructor (x: real, y: real, z: real, name: string, color: Color)
      ensures Valid() && fresh(trail)
      ensures position == Point(x, y, z) && this.name == name && this.color == color
      ensures trailStep == 1 && step == 0 && steps == 0 && trail.points == []
      ensures trail.r == color.red && trail.g == color.green && trail.b == color.blue && trail.a == color.alpha
    {
      this.name := name;
      this.color := color;
      position := Point(x, y, z);
      trail := new Trail(TrailCapacity, color);
      trailStep := 1;
      step := 0;
      steps := 0;
    }

    /** One integration step: `advance` stands for the Runge-Kutta update of the
        position; every `trailStep`-th step adds the new position to the trail. */
    method Step(advance: Point -> Point)
      requires Valid()
      modifies this, trail
      ensures Valid() && trailStep == old(trailStep)
      ensures position == advance(old(position)) && steps == old(steps) + 1
      ensures old(step) + 1 == trailStep ==>
                step == 0 && trail.added == old(trail.added) + [position]
      ensures old(step) + 1 < trailStep ==>
                step == old(step) + 1 && trail.added == old(trail.added) && trail.points == old(trail.points)
    {
      NextMultiple(trailStep, |trail.added|);
      CounterWraps(step + 1, trailStep);
      position := advance(position);
      step := step + 1;
      steps := steps + 1;
      if step % trailStep == 0 {
        step := 0;
        trail.AddPoint(position);
      }
    }

    /** With the default `trailStep` of 1, after n steps the trail holds the
        last min(n, 900) positions, newest first, the first being the current one. */
    lemma TrailHoldsLatestPositions()
      requires Valid() && trailStep == 1
      ensures |trail.points| == if steps < TrailCapacity then steps else TrailCapacity
      ensures steps > 0 ==> trail.points[0] == position
    {
    }
  }

  lemma NextMultiple(t: int, k: nat)
    ensures t * (k + 1) == t * k + t
  {
  }

  /** A counter in 1 .. t is a multiple of t exactly when it reached t. */
  lemma CounterWraps(s: int, t: int)
    requires 1 <= s <= t
    ensures s % t == 0 <==> s == t
  {
    if s < t {
      assert s % t == s;
    }
  }
}
