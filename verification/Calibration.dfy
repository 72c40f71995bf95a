// Online least squares (adaptive/calibration.cpp), over exact reals.
module Calibration {
  import opened Wrappers

  const MIN_SAMPLES := 3

  datatype Fit = Fit(n: nat, sum_x: real, sum_y: real, sum_xx: real, sum_xy: real)

  function Denominator(f: Fit): real
  {
    f.n as real * f.sum_xx - f.sum_x * f.sum_x
  }

  function Scale(f: Fit): real
  {
    if f.n < MIN_SAMPLES then 1.0
    else if Denominator(f) == 0.0 then 0.0
    else (f.n as real * f.sum_xy - f.sum_x * f.sum_y) / Denominator(f)
  }

  function Bias(f: Fit): real
  {
    if f.n < MIN_SAMPLES then 0.0
    else if Denominator(f) == 0.0 then f.sum_y / f.n as real
    else (f.sum_y - Scale(f) * f.sum_x) / f.n as real
  }

  // One more observation in the running sums.
  function Observe(f: Fit, x: real, y: real): Fit
  {
    Fit(f.n + 1, f.sum_x + x, f.sum_y + y, f.sum_xx + x * x, f.sum_xy + x * y)
  }

  const NO_FIT := Fit(0, 0.0, 0.0, 0.0, 0.0)

  datatype Sample = Sample(x: real, y: real)

  // The sums after a sequence of observations.
  function FitOf(samples: seq<Sample>): (f: Fit)
    ensures f.n == |samples|
  {
    if samples == [] then NO_FIT
    else Observe(FitOf(samples[..|samples| - 1]), samples[|samples| - 1].x, samples[|samples| - 1].y)
  }

  function Square(x: real): real
  {
    x * x
  }

  // The value of a line.
  function Line(a: real, b: real, x: real): real
  {
    a * x + b
  }

  function Times(u: real, v: real): real
  {
    u * v
  }

  // Total squared error of the line y = a x + b.
  function Error(samples: seq<Sample>, a: real, b: real): real
  {
    if samples == [] then 0.0
    else Error(samples[..|samples| - 1], a, b) + Square(samples[|samples| - 1].y - Line(a, b, samples[|samples| - 1].x))
  }

  lemma FitSnoc(samples: seq<Sample>, s: Sample)
    ensures FitOf(samples + [s]) == Observe(FitOf(samples), s.x, s.y)
  {
    assert (samples + [s])[..|samples + [s]| - 1] == samples;
  }

  class CalibrationModel {
    var fits: map<string, Fit>
    ghost var history: map<string, seq<Sample>>

    // The running sums are those of every observation made.
    ghost predicate Valid()
      reads this
    {
      fits.Keys == history.Keys && forall k :: k in fits ==> fits[k] == FitOf(history[k])
    }

    constructor ()
      ensures Valid() && history == map[]
    {
      fits, history := map[], map[];
    }

    method RecordObservation(kind: string, predicted_cost: real, actual_ms: real)
      requires Valid()
      modifies this
      ensures Valid()
      ensures history
        == old(history)[kind :=
                        (if kind in old(history) then old(history)[kind] else []) + [Sample(predicted_cost, actual_ms)]]
    {
      hide Observe;
      var f := if kind in fits then fits[kind] else NO_FIT;
      ghost var seen := if kind in history then history[kind] else [];
      FitSnoc(seen, Sample(predicted_cost, actual_ms));
      fits := fits[kind := Observe(f, predicted_cost, actual_ms)];
      history := history[kind := seen + [Sample(predicted_cost, actual_ms)]];
    }

    // The best line's value once three samples are in, the cost itself before.
    method CalibratedEstimateMs(kind: string, predicted_cost: real) returns (ms: real)
      requires Valid()
      ensures kind !in history || |history[kind]| < MIN_SAMPLES ==> ms == predicted_cost
      ensures kind in history && |history[kind]| >= MIN_SAMPLES ==>
        var f := FitOf(history[kind]);
        Minimises(history[kind], Scale(f), Bias(f)) && ms == Scale(f) * predicted_cost + Bias(f)
    {
      if kind !in fits || fits[kind].n < MIN_SAMPLES {
        return predicted_cost;
      }
      hide Minimises, Scale, Bias, FitOf;
      FitMinimises(history[kind]);
      ms := Scale(fits[kind]) * predicted_cost + Bias(fits[kind]);
    }
  }

  ghost predicate Minimises(samples: seq<Sample>, a: real, b: real)
  {
    forall c, d :: Error(samples, a, b) <= Error(samples, c, d)
  }

  // ---- The error of any line, relative to another ----

  // How far two lines differ on the samples, squared.
  function Gap(samples: seq<Sample>, d: real, e: real): (r: real)
    ensures r >= 0.0
  {
    if samples == [] then 0.0
    else
      SquareZero(Line(d, e, samples[|samples| - 1].x));
      Gap(samples[..|samples| - 1], d, e) + Square(Line(d, e, samples[|samples| - 1].x))
  }

  // The sum of (d x + e)(y - a x - b): zero at the normal equations.
  function Cross(f: Fit, a: real, b: real, d: real, e: real): real
  {
    d * Slope(f, a, b) + e * Level(f, a, b)
  }

  function Slope(f: Fit, a: real, b: real): real
  {
    f.sum_xy - a * f.sum_xx - b * f.sum_x
  }

  function Level(f: Fit, a: real, b: real): real
  {
    f.sum_y - a * f.sum_x - b * f.n as real
  }

  lemma SquareShift(u: real, v: real)
    ensures Square(u - v) == Square(u) - 2.0 * Times(u, v) + Square(v)
  {
  }

  lemma CrossStep(f: Fit, x: real, y: real, a: real, b: real, d: real, e: real)
    ensures Cross(Observe(f, x, y), a, b, d, e) == Cross(f, a, b, d, e) + Times(y - Line(a, b, x), Line(d, e, x))
  {
    hide Slope, Level;
    var u := y - Line(a, b, x);
    SlopeStep(f, x, y, a, b);
    LevelStep(f, x, y, a, b);
    Distribute(d, Slope(f, a, b), x * u);
    Distribute(e, Level(f, a, b), u);
    Regroup(d, x, e, u);
  }

  lemma Distribute(c: real, a: real, b: real)
    ensures c * (a + b) == c * a + c * b
  {
  }

  lemma Regroup(d: real, x: real, e: real, u: real)
    ensures d * (x * u) + e * u == Times(u, Line(d, e, x))
  {
    assert d * (x * u) == (d * x) * u;
  }

  lemma SlopeStep(f: Fit, x: real, y: real, a: real, b: real)
    ensures Slope(Observe(f, x, y), a, b) == Slope(f, a, b) + x * (y - Line(a, b, x))
  {
    assert a * (f.sum_xx + x * x) == a * f.sum_xx + a * (x * x);
    assert b * (f.sum_x + x) == b * f.sum_x + b * x;
    assert x * (y - a * x - b) == x * y - x * (a * x) - x * b;
    assert a * (x * x) == x * (a * x);
  }

  lemma LevelStep(f: Fit, x: real, y: real, a: real, b: real)
    ensures Level(Observe(f, x, y), a, b) == Level(f, a, b) + (y - Line(a, b, x))
  {
    assert a * (f.sum_x + x) == a * f.sum_x + a * x;
    assert b * (f.n as real + 1.0) == b * f.n as real + b;
  }

  lemma LineMoves(a: real, b: real, d: real, e: real, x: real)
    ensures Line(a + d, b + e, x) == Line(a, b, x) + Line(d, e, x)
  {
  }

  // Moving from line (a, b) by (d, e).
  lemma {:induction false} ErrorMoves(samples: seq<Sample>, a: real, b: real, d: real, e: real)
    ensures Error(samples, a + d, b + e)
      == Error(samples, a, b) - 2.0 * Cross(FitOf(samples), a, b, d, e) + Gap(samples, d, e)
  {
    if samples == [] {
      assert Slope(NO_FIT, a, b) == 0.0 && Level(NO_FIT, a, b) == 0.0;
    } else {
      hide Square, Cross, Line, Times, Observe;
      var front, s := samples[..|samples| - 1], samples[|samples| - 1];
      ErrorMoves(front, a, b, d, e);
      LineMoves(a, b, d, e, s.x);
      SquareShift(s.y - Line(a, b, s.x), Line(d, e, s.x));
      CrossStep(FitOf(front), s.x, s.y, a, b, d, e);
    }
  }

  // ---- The denominator ----

  // How far n x is from the sum of the costs.
  function Off(f: Fit, x: real): real
  {
    f.n as real * x - f.sum_x
  }

  function Deviations(samples: seq<Sample>, f: Fit): (r: real)
    ensures r >= 0.0
  {
    if samples == [] then 0.0
    else
      SquareZero(Off(f, samples[|samples| - 1].x));
      Deviations(samples[..|samples| - 1], f) + Square(Off(f, samples[|samples| - 1].x))
  }

  lemma OffSquared(f: Fit, x: real)
    ensures Square(Off(f, x))
      == Times(Square(f.n as real), x * x) - 2.0 * Times(f.n as real * f.sum_x, x) + Times(Square(f.sum_x), 1.0)
  {
    var n, s := f.n as real, f.sum_x;
    SquareShift(n * x, s);
    SquareProduct(n, x);
    assert (n * x) * s == (n * s) * x;
  }

  lemma TimesSum(c: real, a: real, b: real)
    ensures Times(c, a + b) == Times(c, a) + Times(c, b)
  {
  }

  // The deviations of some samples, from their sums.
  lemma {:induction false} DeviationsSum(samples: seq<Sample>, f: Fit)
    ensures Deviations(samples, f)
         == Times(Square(f.n as real), FitOf(samples).sum_xx) - 2.0 * Times(f.n as real * f.sum_x, FitOf(samples).sum_x)
            + Times(Square(f.sum_x), |samples| as real)
  {
    if samples != [] {
      hide Square, Off, Times;
      var front, x := samples[..|samples| - 1], samples[|samples| - 1].x;
      DeviationsSum(front, f);
      OffSquared(f, x);
      TimesSum(Square(f.n as real), FitOf(front).sum_xx, x * x);
      TimesSum(f.n as real * f.sum_x, FitOf(front).sum_x, x);
      TimesSum(Square(f.sum_x), |front| as real, 1.0);
    }
  }

  lemma SquareProduct(a: real, b: real)
    ensures Square(a * b) == Square(a) * (b * b)
  {
    assert (a * b) * (a * b) == a * (b * (a * b));
    assert b * (a * b) == a * (b * b);
    assert a * (a * (b * b)) == (a * a) * (b * b);
  }

  lemma DenominatorIsSpread(samples: seq<Sample>)
    ensures Times(FitOf(samples).n as real, Denominator(FitOf(samples))) == Deviations(samples, FitOf(samples))
  {
    hide FitOf, Deviations;
    var f := FitOf(samples);
    var n, s := f.n as real, f.sum_x;
    DeviationsSum(samples, f);
    assert n * (n * f.sum_xx - s * s) == n * (n * f.sum_xx) - n * (s * s);
    assert n * (n * f.sum_xx) == Square(n) * f.sum_xx;
    assert (n * s) * s == n * (s * s);
  }

  ghost predicate AllEqual(samples: seq<Sample>)
  {
    forall i, j :: 0 <= i < |samples| && 0 <= j < |samples| ==> samples[i].x == samples[j].x
  }

  lemma {:induction false} NoDeviation(samples: seq<Sample>, f: Fit)
    ensures Deviations(samples, f) == 0.0 <==> forall i :: 0 <= i < |samples| ==> Off(f, samples[i].x) == 0.0
  {
    hide Off, Square;
    if samples != [] {
      var front, x := samples[..|samples| - 1], samples[|samples| - 1].x;
      NoDeviation(front, f);
      SquareZero(Off(f, x));
      assert forall i :: 0 <= i < |front| ==> front[i] == samples[i];
    }
  }

  lemma SquareZero(x: real)
    ensures Square(x) >= 0.0 && (Square(x) == 0.0 <==> x == 0.0)
  {
    SquareOfZero();
    hide Square;
    if x > 0.0 {
      PositiveSquare(x);
    } else if x < 0.0 {
      PositiveSquare(-x);
      SquareOfNegation(x);
    }
  }

  lemma SquareOfZero()
    ensures Square(0.0) == 0.0
  {
  }

  lemma PositiveSquare(x: real)
    requires x > 0.0
    ensures Square(x) > 0.0
  {
    assert Square(x) == Times(x, x);
    hide Square, Times;
    PositiveProduct(x, x);
  }

  lemma PositiveProduct(a: real, b: real)
    requires a > 0.0 && b > 0.0
    ensures Times(a, b) > 0.0
  {
  }

  lemma SquareOfNegation(x: real)
    ensures Square(-x) == Square(x)
  {
  }

  lemma {:induction false} SumOfEqual(samples: seq<Sample>, c: real)
    requires forall i :: 0 <= i < |samples| ==> samples[i].x == c
    ensures FitOf(samples).sum_x == Times(c, |samples| as real)
      && FitOf(samples).sum_xy == Times(c, FitOf(samples).sum_y)
  {
    if samples != [] {
      var front, s := samples[..|samples| - 1], samples[|samples| - 1];
      SumOfEqual(front, c);
      Distribute(c, |front| as real, 1.0);
      Distribute(c, FitOf(front).sum_y, s.y);
    }
  }

  // The denominator is never negative, and zero exactly when all costs are equal.
  lemma DenominatorZero(samples: seq<Sample>)
    ensures Denominator(FitOf(samples)) >= 0.0
    ensures Denominator(FitOf(samples)) == 0.0 <==> AllEqual(samples)
  {
    if samples != [] {
      hide Denominator, Times, Off, Deviations, FitOf;
      var f := FitOf(samples);
      DenominatorIsSpread(samples);
      NoDeviation(samples, f);
      PositiveTimes(f.n as real, Denominator(f));
      EqualOffs(samples);
    }
  }

  lemma EqualOffs(samples: seq<Sample>)
    requires samples != []
    ensures AllEqual(samples) <==> forall i :: 0 <= i < |samples| ==> Off(FitOf(samples), samples[i].x) == 0.0
  {
    hide FitOf;
    var f := FitOf(samples);
    if AllEqual(samples) {
      SumOfEqual(samples, samples[0].x);
    }
    forall i, j | 0 <= i < |samples| && 0 <= j < |samples| && Off(f, samples[i].x) == 0.0 && Off(f, samples[j].x) == 0.0
      ensures samples[i].x == samples[j].x
    {
      Cancel(f.n as real, samples[i].x, samples[j].x);
    }
  }

  lemma PositiveTimes(n: real, d: real)
    requires n > 0.0
    ensures Times(n, d) >= 0.0 ==> d >= 0.0
    ensures Times(n, d) == 0.0 <==> d == 0.0
  {
    assert d > 0.0 ==> n * d > 0.0;
    assert d < 0.0 ==> n * d < 0.0 by { var e := -d; assert e > 0.0 ==> n * e > 0.0; assert n * e == -(n * d); }
  }

  lemma Cancel(n: real, a: real, b: real)
    requires n > 0.0 && n * a == n * b
    ensures a == b
  {
    PositiveTimes(n, a - b);
    assert n * (a - b) == n * a - n * b;
  }

  // ---- The fitted line ----

  // The fitted line meets the normal equations.
  lemma NormalEquations(samples: seq<Sample>)
    requires |samples| >= MIN_SAMPLES
    ensures var f := FitOf(samples); Slope(f, Scale(f), Bias(f)) == 0.0 && Level(f, Scale(f), Bias(f)) == 0.0
  {
    hide Denominator, Scale, Bias, Slope, Level, FitOf, Times;
    var f := FitOf(samples);
    DenominatorZero(samples);
    if Denominator(f) == 0.0 {
      SumOfEqual(samples, samples[0].x);
      FlatFit(f, samples[0].x);
    } else {
      SlopedFit(f);
    }
  }

  lemma FlatFit(f: Fit, c: real)
    requires f.n >= MIN_SAMPLES && Denominator(f) == 0.0 && f.sum_x == Times(c, f.n as real)
      && f.sum_xy == Times(c, f.sum_y)
    ensures Slope(f, Scale(f), Bias(f)) == 0.0 && Level(f, Scale(f), Bias(f)) == 0.0
  {
    hide Denominator;
    var n, b := f.n as real, Bias(f);
    assert b * n == f.sum_y;
    assert b * (c * n) == (b * n) * c;
  }

  lemma SlopedFit(f: Fit)
    requires f.n >= MIN_SAMPLES && Denominator(f) != 0.0
    ensures Slope(f, Scale(f), Bias(f)) == 0.0 && Level(f, Scale(f), Bias(f)) == 0.0
  {
    var n, a, b := f.n as real, Scale(f), Bias(f);
    assert b * n == f.sum_y - a * f.sum_x;
    assert a * Denominator(f) == n * f.sum_xy - f.sum_x * f.sum_y;
    hide Scale, Bias;
    SlopeTimesN(f, n, a, b);
    PositiveTimes(n, Slope(f, a, b));
  }

  lemma SlopeTimesN(f: Fit, n: real, a: real, b: real)
    requires n == f.n as real && b * n == f.sum_y - a * f.sum_x
      && a * Denominator(f) == n * f.sum_xy - f.sum_x * f.sum_y
    ensures Times(n, Slope(f, a, b)) == 0.0
  {
    var s := f.sum_x;
    assert n * (f.sum_xy - a * f.sum_xx - b * s) == n * f.sum_xy - n * (a * f.sum_xx) - n * (b * s);
    assert n * (b * s) == (b * n) * s;
    assert (f.sum_y - a * s) * s == f.sum_y * s - (a * s) * s;
    assert a * (n * f.sum_xx - s * s) == a * (n * f.sum_xx) - a * (s * s);
    assert a * (n * f.sum_xx) == n * (a * f.sum_xx);
    assert (a * s) * s == a * (s * s);
  }

  // At the normal equations the error of another line is larger by the gap.
  lemma ErrorFromBest(samples: seq<Sample>, c: real, d: real)
    requires |samples| >= MIN_SAMPLES
    ensures var f := FitOf(samples);
      Error(samples, c, d) == Error(samples, Scale(f), Bias(f)) + Gap(samples, c - Scale(f), d - Bias(f))
  {
    hide Slope, Level, Error, Gap, Scale, Bias, FitOf;
    var f := FitOf(samples);
    var a, b := Scale(f), Bias(f);
    NormalEquations(samples);
    ErrorMoves(samples, a, b, c - a, d - b);
    assert a + (c - a) == c && b + (d - b) == d;
  }

  // From three samples on, no line has a smaller total squared error.
  lemma FitMinimises(samples: seq<Sample>)
    requires |samples| >= MIN_SAMPLES
    ensures Minimises(samples, Scale(FitOf(samples)), Bias(FitOf(samples)))
  {
    hide Error, Gap, Scale, Bias, FitOf;
    var a, b := Scale(FitOf(samples)), Bias(FitOf(samples));
    forall c, d ensures Error(samples, a, b) <= Error(samples, c, d) {
      ErrorFromBest(samples, c, d);
    }
  }

  // The fitted line is the only best one unless all costs are equal.
  lemma BestLineUnique(samples: seq<Sample>, c: real, d: real)
    requires |samples| >= MIN_SAMPLES && Minimises(samples, c, d) && !AllEqual(samples)
    ensures c == Scale(FitOf(samples)) && d == Bias(FitOf(samples))
  {
    hide Error, Gap, Scale, Bias, FitOf, Line;
    var a, b := Scale(FitOf(samples)), Bias(FitOf(samples));
    ErrorFromBest(samples, c, d);
    assert Error(samples, c, d) <= Error(samples, a, b);
    NoGap(samples, c - a, d - b);
    var i, j :| 0 <= i < |samples| && 0 <= j < |samples| && samples[i].x != samples[j].x;
    TwoRoots(c - a, d - b, samples[i].x, samples[j].x);
  }

  lemma {:induction false} NoGap(samples: seq<Sample>, d: real, e: real)
    requires Gap(samples, d, e) == 0.0
    ensures forall i :: 0 <= i < |samples| ==> Line(d, e, samples[i].x) == 0.0
  {
    hide Line, Square;
    if samples != [] {
      var front, x := samples[..|samples| - 1], samples[|samples| - 1].x;
      SquareZero(Line(d, e, x));
      NoGap(front, d, e);
      assert forall i :: 0 <= i < |front| ==> front[i] == samples[i];
    }
  }

  lemma TwoRoots(d: real, e: real, x: real, y: real)
    requires Line(d, e, x) == 0.0 && Line(d, e, y) == 0.0 && x != y
    ensures d == 0.0 && e == 0.0
  {
    var g := if x > y then x - y else y - x;
    assert g * d == 0.0 by { assert d * (x - y) == d * x - d * y; assert d * (y - x) == d * y - d * x; }
    PositiveTimes(g, d);
  }
}
