/**
 The full accumulator: mean and variance updated one data point at a time, over exact reals, and the plain
 definitions that they must equal. A data point may stand for several samples of the same value.
 */
module RuntimeStatistics {
  import opened Wrappers

  datatype Point = Point(value: real, samples: nat)

  // ---------------------------------------------------------------- plain definitions

  function Square(x: real): real { x * x }

  function Scaled(x: real, k: real): real { x * k }

  predicate Positive(points: seq<Point>) { forall i :: 0 <= i < |points| ==> points[i].samples > 0 }

  predicate Single(points: seq<Point>) { forall i :: 0 <= i < |points| ==> points[i].samples == 1 }

  function Count(points: seq<Point>): (n: nat)
    ensures points != [] && Positive(points) ==> n > 0
    ensures Single(points) ==> n == |points|
  {
    if points == [] then 0 else Count(points[..|points| - 1]) + points[|points| - 1].samples
  }

  function Sum(points: seq<Point>): real {
    if points == [] then 0.0
    else
      var p := points[|points| - 1];
      Sum(points[..|points| - 1]) + Scaled(p.value, p.samples as real)
  }

  function Mean(points: seq<Point>): real
    requires Count(points) > 0
  {
    Sum(points) / Count(points) as real
  }


  /** The squared deviations of all the samples from `c`. */
  function Deviations(points: seq<Point>, c: real): real {
    if points == [] then 0.0
    else
      var p := points[|points| - 1];
      Deviations(points[..|points| - 1], c) + Scaled(Square(p.value - c), p.samples as real)
  }

  function Squares(points: seq<Point>): real {
    if points == [] then 0.0
    else
      var p := points[|points| - 1];
      Squares(points[..|points| - 1]) + Scaled(Square(p.value), p.samples as real)
  }

  // ---------------------------------------------------------------- deviations from any centre

  function Around(squares: real, sum: real, n: real, c: real): real {
    squares - 2.0 * c * sum + c * c * n
  }

  lemma OneTerm(q: real, s: real, n: real, x: real, k: real, c: real)
    ensures Around(q + Square(x) * k, s + x * k, n + k, c) == Around(q, s, n, c) + Square(x - c) * k
  {
    var p := x * k;
    assert Square(x - c) == x * x - 2.0 * c * x + c * c;
    assert Square(x - c) * k == x * x * k - 2.0 * c * x * k + c * c * k;
    assert 2.0 * c * x * k == 2.0 * c * p;
    assert 2.0 * c * (s + p) == 2.0 * c * s + 2.0 * c * p;
    assert c * c * (n + k) == c * c * n + c * c * k;
  }

  lemma AroundAdds(q: real, s: real, n: real, x: real, k: real, c: real)
    ensures Around(q + Scaled(Square(x), k), s + Scaled(x, k), n + k, c)
            == Around(q, s, n, c) + Scaled(Square(x - c), k)
  {
    hide Around, Square;
    OneTerm(q, s, n, x, k, c);
  }

  lemma {:induction false} DeviationsExpand(points: seq<Point>, c: real)
    ensures Deviations(points, c) == Around(Squares(points), Sum(points), Count(points) as real, c)
  {
    hide Around, Square, Scaled;
    if points == [] {
      AroundNothing(c);
    } else {
      var rest, p := points[..|points| - 1], points[|points| - 1];
      DeviationsExpand(rest, c);
      AroundAdds(Squares(rest), Sum(rest), Count(rest) as real, p.value, p.samples as real, c);
      assert Count(points) as real == Count(rest) as real + p.samples as real;
    }
  }

  lemma AroundNothing(c: real)
    ensures Around(0.0, 0.0, 0.0, c) == 0.0
  {
  }

  /** Around the mean the middle term takes the last one away. */
  lemma AroundMean(q: real, s: real, n: real, m: real)
    requires Scaled(m, n) == s
    ensures Around(q, s, n, m) == q - Scaled(m, s)
  {
    assert m * m * n == m * s;
  }

  lemma DeviationsAroundMean(points: seq<Point>, m: real)
    requires Scaled(m, Count(points) as real) == Sum(points)
    ensures Deviations(points, m) == Squares(points) - Scaled(m, Sum(points))
  {
    hide *;
    DeviationsExpand(points, m);
    AroundMean(Squares(points), Sum(points), Count(points) as real, m);
  }

  // ---------------------------------------------------------------- one more point

  /** The mean moves towards the new value. */
  function Moved(m: real, x: real, k: real, n: real): real
    requires n > 0.0
  {
    m + (x - m) * k / n
  }


  /** Welford's step for the mean. */
  lemma NextMean(m: real, n: real, s: real, x: real, k: real, m': real)
    requires Scaled(m, n) == s && n + k > 0.0 && m' == Moved(m, x, k, n + k)
    ensures Scaled(m', n + k) == s + Scaled(x, k)
  {
    var f := (x - m) * k / (n + k);
    assert f * (n + k) == (x - m) * k;
    assert m' * (n + k) == m * (n + k) + f * (n + k);
    assert m * (n + k) == m * n + m * k;
    assert (x - m) * k == x * k - m * k;
  }

  /** The deviations grow by the step of the code, once for each sample of the point. */
  lemma NextDeviations(m: real, n: real, s: real, x: real, k: real, m': real)
    requires Scaled(m, n) == s && Scaled(m', n + k) == s + Scaled(x, k)
    ensures Scaled(Square(x), k) - Scaled(m', s + Scaled(x, k)) + Scaled(m, s) == Scaled(Scaled(x - m, x - m'), k)
  {
    var t := x * k;
    assert m * (m' * (n + k)) == m * (s + t) == m * s + m * t;
    assert m * (m' * (n + k)) == m * m' * n + m * m' * k;
    assert m * m' * n == m' * s by { assert m * m' * n == m' * (m * n); }
    assert (x - m) * (x - m') == x * x - x * m' - m * x + m * m';
    assert k * ((x - m) * (x - m')) == x * x * k - t * m' - m * t + m * m' * k;
    assert m' * (s + t) == m' * s + m' * t;
  }

  function Share(d: real, n: real, k: real): real
    requires k > 0.0
  {
    Square(d) * n / k
  }

  /** What the code adds to M2, as the textbook writes it. */
  lemma StepIsSquare(m: real, n: real, x: real, k: real, m': real)
    requires n + k > 0.0 && m' == Moved(m, x, k, n + k)
    ensures Scaled(x - m, x - m') == Share(x - m, n, n + k)
  {
    var d := x - m;
    var f := d * k / (n + k);
    assert f * (n + k) == d * k;
    assert (d - f) * (n + k) == d * n;
    assert d * (d - f) * (n + k) == d * d * n;
  }

  // ---------------------------------------------------------------- what is lost

  /** The squared distance of a point from the mean before it, as it enters the deviations. */
  function Distance(rest: seq<Point>, p: Point): real
    requires Count(rest) + p.samples > 0
  {
    if Count(rest) == 0 then 0.0
    else Share(p.value - Mean(rest), Count(rest) as real, Count(rest) as real + p.samples as real)
  }

  /** Every sum of samples from the first point on is positive, so every mean is defined. */
  predicate Defined(points: seq<Point>) { points != [] ==> points[0].samples > 0 }

  lemma {:induction false} DefinedCounts(points: seq<Point>)
    requires Defined(points) && points != []
    ensures Count(points) > 0
  {
    if |points| > 1 { DefinedCounts(points[..|points| - 1]); }
  }

  /** A point of several samples should count its distance that often, but counts it once. */
  function Lost(points: seq<Point>): real
    requires Defined(points)
  {
    if points == [] then 0.0
    else
      var rest, p := points[..|points| - 1], points[|points| - 1];
      DefinedCounts(points);
      Lost(rest) + Scaled(Distance(rest, p), p.samples as real - 1.0)
  }

  /** Every point is one sample, or the first, or at the mean of those before it. */
  predicate Faithful(points: seq<Point>)
    requires Positive(points)
  {
    forall i :: 0 < i < |points| ==>
                  points[i].samples == 1 || (Count(points[..i]) > 0 && points[i].value == Mean(points[..i]))
  }

  lemma SquareSign(d: real)
    ensures Square(d) >= 0.0 && (Square(d) == 0.0 <==> d == 0.0)
  {
    ScaledSign(if d < 0.0 then -d else d, if d < 0.0 then -d else d);
  }

  lemma ScaledSign(a: real, b: real)
    requires a >= 0.0 && b >= 0.0
    ensures Scaled(a, b) >= 0.0 && (Scaled(a, b) == 0.0 <==> a == 0.0 || b == 0.0)
  {
    if a > 0.0 && b > 0.0 { assert a * b > 0.0; }
  }

  lemma ShareSign(d: real, n: real, k: real)
    requires n > 0.0 && k > 0.0
    ensures Share(d, n, k) >= 0.0 && (Share(d, n, k) == 0.0 <==> d == 0.0)
  {
    hide Square;
    SquareSign(d);
    ScaledSign(Square(d), n);
    var a := Scaled(Square(d), n);
    assert Share(d, n, k) == a / k;
    assert a / k * k == a;
  }

  lemma DistanceSign(rest: seq<Point>, p: Point)
    requires Count(rest) + p.samples > 0
    ensures Distance(rest, p) >= 0.0
    ensures Distance(rest, p) == 0.0 <==> Count(rest) == 0 || p.value == Mean(rest)
  {
    hide Share, Mean;
    if Count(rest) > 0 {
      ShareSign(p.value - Mean(rest), Count(rest) as real, Count(rest) as real + p.samples as real);
    }
  }

  lemma FaithfulSplits(points: seq<Point>, n: nat)
    requires Positive(points) && |points| == n + 1
    ensures Faithful(points) <==>
            Faithful(points[..n])
            && (n == 0 || points[n].samples == 1 || (Count(points[..n]) > 0 && points[n].value == Mean(points[..n])))
  {
    hide Count, Mean;
    forall i | 0 < i < n
      ensures points[..n][..i] == points[..i]
    {
    }
  }

  /** For positive sample counts M2 is never too large, and right exactly for faithful points. */
  lemma {:induction false} NothingLost(points: seq<Point>)
    requires Positive(points)
    ensures Lost(points) >= 0.0 && (Lost(points) == 0.0 <==> Faithful(points))
  {
    hide Scaled, Distance, Mean, Faithful;
    if points == [] {
      NothingUnfaithful();
    } else {
      var n := |points| - 1;
      var rest, p := points[..n], points[n];
      NothingLost(rest);
      FaithfulSplits(points, n);
      DistanceSign(rest, p);
      ScaledSign(Distance(rest, p), p.samples as real - 1.0);
    }
  }

  /** Samples 0, 1 and 1, the last two as one point: M2 holds 1/3 where the squared deviations are 2/3. */
  lemma RepeatedSampleIsLost()
    ensures var points := [Point(0.0, 1), Point(1.0, 2)];
      Lost(points) == 1.0 / 3.0 && Deviations(points, Mean(points)) == 2.0 / 3.0
  {
    var points, first := [Point(0.0, 1), Point(1.0, 2)], [Point(0.0, 1)];
    assert points[..1] == first && first[..0] == [];
    assert Mean(first) == 0.0 && Distance([], first[0]) == 0.0;
    assert Lost(first) == 0.0;
    assert Distance(first, points[1]) == 1.0 / 3.0;
    assert Sum(points) == 2.0 && Count(points) == 3;
    var m := Mean(points);
    assert m == 2.0 / 3.0;
    assert Deviations(first, m) == 4.0 / 9.0;
    assert Square(1.0 - m) == 1.0 / 9.0;
  }

  lemma NothingUnfaithful()
    ensures Faithful([])
  {
  }

  // ---------------------------------------------------------------- the accumulator

  lemma LastPoint(points: seq<Point>, p: Point)
    requires Defined(points) && Count(points) + p.samples > 0
    ensures Defined(points + [p]) && Count(points + [p]) == Count(points) + p.samples
    ensures Sum(points + [p]) == Sum(points) + Scaled(p.value, p.samples as real)
    ensures Squares(points + [p]) == Squares(points) + Scaled(Square(p.value), p.samples as real)
    ensures Lost(points + [p]) == Lost(points) + Scaled(Distance(points, p), p.samples as real - 1.0)
  {
    hide Scaled, Square, Distance;
    assert (points + [p])[..|points|] == points;
  }

  /** The mean that the code keeps, and the distance that it adds. */
  lemma MeanIs(points: seq<Point>, m: real)
    requires Scaled(m, Count(points) as real) == Sum(points) && Count(points) > 0
    ensures m == Mean(points)
  {
    hide Sum, Count;
    DivideBack(m, Count(points) as real);
  }

  lemma DivideBack(m: real, n: real)
    requires n > 0.0
    ensures Scaled(m, n) / n == m
  {
  }

  lemma StepIsDistance(points: seq<Point>, p: Point, m: real, m': real)
    requires Scaled(m, Count(points) as real) == Sum(points) && Count(points) + p.samples > 0
    requires Count(points) as real + p.samples as real > 0.0
    requires m' == Moved(m, p.value, p.samples as real, Count(points) as real + p.samples as real)
    ensures Scaled(p.value - m, p.value - m') == Distance(points, p)
  {
    hide Mean, Sum, Scaled, Share, Moved;
    StepIsSquare(m, Count(points) as real, p.value, p.samples as real, m');
    if Count(points) > 0 {
      MeanIs(points, m);
    } else {
      NoShare(p.value - m, p.samples as real);
    }
  }

  lemma NoShare(d: real, k: real)
    requires k > 0.0
    ensures Share(d, 0.0, 0.0 + k) == 0.0
  {
  }

  lemma OneLess(d: real, k: real)
    ensures Scaled(d, k) - Scaled(d, k - 1.0) == d
  {
  }

  /** A double: a number, or what a division by zero leaves behind. */
  datatype Double = NaN | Number(value: real)

  class FullAccumulator {
    var count: nat
    var mean: Double
    var m2: Double
    ghost var points: seq<Point>  // since the last clear

    /** No mean is defined over no samples at all: a first point of none spoils everything until the next clear. */
    ghost predicate Valid()
      reads this
    {
      && count == Count(points)
      && if Defined(points)
         then
           && mean.Number? && m2.Number? && Scaled(mean.value, count as real) == Sum(points)
           && m2.value == Squares(points) - Scaled(mean.value, Sum(points)) - Lost(points)
         else mean == NaN && m2 == NaN
    }

    constructor ()
      ensures Valid() && points == []
    {
      count, mean, m2, points := 0, Number(0.0), Number(0.0), [];
    }

    /** Any value and any number of samples. */
    method AddDataPoint(data: real, samples: nat)
      requires Valid()
      modifies this
      ensures Valid() && points == old(points) + [Point(data, samples)]
    {
      if count + samples == 0 || mean.NaN? {
        Spoiled(points, Point(data, samples));
        count, mean, m2, points := count + samples, NaN, NaN, points + [Point(data, samples)];
      } else {
        AddNumber(data, samples);
      }
    }

    method AddNumber(data: real, samples: nat)
      requires Valid() && Defined(points) && count + samples > 0
      modifies this
      ensures Valid() && points == old(points) + [Point(data, samples)]
    {
      hide Scaled, Square, Distance, Sum, Squares, Lost, Count, Defined, Moved;
      ghost var n, k, p := count as real, samples as real, Point(data, samples);
      LastPoint(points, p);
      count := count + samples;
      assert count as real == n + k;
      var before := mean.value;
      var after := Moved(before, data, samples as real, count as real);
      mean, m2 := Number(after), Number(m2.value + Scaled(data - before, data - after));
      NextMean(before, n, Sum(points), data, k, after);
      NextDeviations(before, n, Sum(points), data, k, after);
      StepIsDistance(points, p, before, after);
      OneLess(Distance(points, p), k);
      points := points + [p];
    }

    function GetMean(): (r: Option<Double>)
      requires Valid()
      reads this
      ensures r == if Count(points) == 0 then None
                   else if Defined(points) then Some(Number(Mean(points))) else Some(NaN)
    {
      if count < 1 then None
      else
        assert Defined(points) ==> mean == Number(Mean(points)) by {
          if Defined(points) { MeanIs(points, mean.value); }
        }
        Some(mean)
    }

    function Variance(): (r: Option<Double>)
      requires Valid()
      reads this
      ensures r == if Count(points) < 2 then None
                   else if Defined(points) then Some(Number(KeptVariance(points))) else Some(NaN)
    {
      if count < 2 then None
      else if m2.NaN? then Some(NaN)
      else
        MeanIs(points, mean.value);
        DeviationsAroundMean(points, mean.value);
        Some(Number(m2.value / (count as real - 1.0)))
    }

    method Clear()
      modifies this
      ensures Valid() && points == []
    {
      count, mean, m2, points := 0, Number(0.0), Number(0.0), [];
    }
  }

  /** What the accumulator makes of the variance: the deviations less what is lost, over the count less one. */
  function KeptVariance(points: seq<Point>): real
    requires Defined(points) && Count(points) > 1
  {
    (Deviations(points, Mean(points)) - Lost(points)) / (Count(points) as real - 1.0)
  }

  lemma Spoiled(points: seq<Point>, p: Point)
    requires !Defined(points) || Count(points) + p.samples == 0
    ensures !Defined(points + [p]) && Count(points + [p]) == Count(points) + p.samples
  {
    assert (points + [p])[..|points|] == points;
    if points != [] && Defined(points) { DefinedCounts(points); }
  }

  // ---------------------------------------------------------------- every sequence of points

  function SampleVariance(points: seq<Point>): real
    requires Count(points) > 1
  {
    Deviations(points, Mean(points)) / (Count(points) as real - 1.0)
  }

  lemma SingleIsFaithful(points: seq<Point>)
    requires Single(points)
    ensures Positive(points) && Faithful(points)
  {
  }

  lemma Lessened(a: real, b: real, n: real)
    requires n > 0.0 && b >= 0.0
    ensures (a - b) / n <= a / n && ((a - b) / n == a / n <==> b == 0.0)
  {
    assert (a - b) / n == a / n - b / n;
    var q := b / n;
    assert q * n == b;
    if q < 0.0 { ScaledSign(-q, n); } else { ScaledSign(q, n); }
  }

  /** The mean is the weighted mean. For positive sample counts the variance is the sample variance exactly for
      faithful points, and never larger. */
  method Summarize(points: seq<Point>) returns (mean: Option<Double>, variance: Option<Double>)
    ensures mean == if Count(points) == 0 then None
                    else if Defined(points) then Some(Number(Mean(points))) else Some(NaN)
    ensures variance == if Count(points) < 2 then None
                        else if Defined(points) then Some(Number(KeptVariance(points))) else Some(NaN)
    ensures Positive(points) && Count(points) > 1 ==>
              && variance.value.Number? && variance.value.value <= SampleVariance(points)
              && (variance.value.value == SampleVariance(points) <==> Faithful(points))
    ensures Single(points) && Count(points) > 1 ==> variance == Some(Number(SampleVariance(points)))
  {
    hide Mean, Deviations, Lost, Sum, Squares, Faithful;
    var accumulator := new FullAccumulator();
    for i := 0 to |points|
      invariant fresh(accumulator) && accumulator.Valid() && accumulator.points == points[..i]
    {
      accumulator.AddDataPoint(points[i].value, points[i].samples);
    }
    assert points[..|points|] == points;
    mean, variance := accumulator.GetMean(), accumulator.Variance();
    if Single(points) { SingleIsFaithful(points); }
    if Positive(points) && Count(points) > 1 {
      NothingLost(points);
      Lessened(Deviations(points, Mean(points)), Lost(points), Count(points) as real - 1.0);
    }
  }
}
