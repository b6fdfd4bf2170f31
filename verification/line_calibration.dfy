/**
  The two-point linear calibration `lineCalibration` of tilt2mqtt.py: the
  straight line through two reference points, evaluated exactly over the
  reals.
 */
module LineCalibration {
  import opened Wrappers

  /** A reference point `(x, y)`: raw reading `x` is known to mean `y`. */
  datatype Point = Point(x: real, y: real)

  /** The pair of reference points a `lineCalibration` object is built from. */
  datatype Line = Line(p1: Point, p2: Point) {
    /** Both points share an x, so the slope divides by zero. */
    predicate Degenerate() {
      p1.x == p2.x
    }
  }

  /** The exception Python raises when the slope divides by zero. */
  datatype CalibrationError = ZeroDivisionError

  /** The property `a`: rise over run between the two reference points. */
  function Slope(l: Line): (a: real)
    requires !l.Degenerate()
    ensures a * (l.p2.x - l.p1.x) == l.p2.y - l.p1.y
  {
    (l.p2.y - l.p1.y) / (l.p2.x - l.p1.x)
  }

  /** The property `b`: where the line crosses x = 0. */
  function Intercept(l: Line): (b: real)
    requires !l.Degenerate()
    ensures b + Slope(l) * l.p1.x == l.p1.y
  {
    l.p1.y - Slope(l) * l.p1.x
  }

  /**
    The method `y(x) = b + a*x`. Its contract says the line passes through
    both reference points and has the point-slope form around the first.
   */
  function Y(l: Line, x: real): (y: real)
    requires !l.Degenerate()
    ensures x == l.p1.x ==> y == l.p1.y
    ensures x == l.p2.x ==> y == l.p2.y
    ensures y - l.p1.y == Slope(l) * (x - l.p1.x)
  {
    EvalThroughSecond(l, x);
    Intercept(l) + Slope(l) * x
  }

  /** Evaluating at the second point's x gives its y. */
  lemma EvalThroughSecond(l: Line, x: real)
    requires !l.Degenerate()
    ensures x == l.p2.x ==> Intercept(l) + Slope(l) * x == l.p2.y
  {
    var a := Slope(l);
    calc {
      Intercept(l) + a * l.p2.x;
      l.p1.y + a * (l.p2.x - l.p1.x);
      l.p1.y + (l.p2.y - l.p1.y);
    }
  }

  /**
    Calling `y(x)` in Python on any pair of points: a degenerate pair raises
    the division error, any other pair yields the line's value.
   */
  function Evaluate(l: Line, x: real): (r: Result<real, CalibrationError>)
    ensures r.Failure? <==> l.Degenerate()
    ensures r.Success? ==> (x == l.p1.x ==> r.value == l.p1.y) && (x == l.p2.x ==> r.value == l.p2.y)
    ensures r.Success? ==> r.value - l.p1.y == Slope(l) * (x - l.p1.x)
  {
    if l.Degenerate() then Failure(ZeroDivisionError) else Success(Y(l, x))
  }

  /**
    The line is the only affine map through both points: any slope and
    intercept that hit both reference points are `a` and `b`.
   */
  lemma LineUnique(l: Line, a: real, b: real)
    requires !l.Degenerate()
    requires b + a * l.p1.x == l.p1.y
    requires b + a * l.p2.x == l.p2.y
    ensures a == Slope(l)
    ensures b == Intercept(l)
  {
    var dx := l.p2.x - l.p1.x;
    assert a * dx == l.p2.y - l.p1.y;
    assert Slope(l) * dx == l.p2.y - l.p1.y;
    assert (a - Slope(l)) * dx == 0.0;
  }

  /** Swapping the two reference points describes the same line. */
  lemma LineSymmetric(p1: Point, p2: Point, x: real)
    requires p1.x != p2.x
    ensures Y(Line(p1, p2), x) == Y(Line(p2, p1), x)
  {
    var l, m := Line(p1, p2), Line(p2, p1);
    assert Intercept(m) + Slope(m) * p2.x == p2.y;
    assert Intercept(m) + Slope(m) * p1.x == p1.y by {
      EvalThroughSecond(m, p1.x);
    }
    LineUnique(l, Slope(m), Intercept(m));
  }

  /** A line rising between its points keeps rising: y is increasing in x. */
  lemma IncreasingLine(l: Line, x: real, x': real)
    requires l.p1.x < l.p2.x && l.p1.y < l.p2.y
    requires x < x'
    ensures Y(l, x) < Y(l, x')
  {
    var a := Slope(l);
    assert a > 0.0;
    assert Y(l, x') - Y(l, x) == a * (x' - x);
  }
}
