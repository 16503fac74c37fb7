/** Predicting transfer durations from sizes and sizes from durations, by straight lines between
  measured points in log-log space. */
module TransferInterpolator {

  /** The line through (x0, y0) and (x1, y1). */
  function Line(x0: real, y0: real, x1: real, y1: real, u: real): real
    requires x0 < x1
  {
    y0 + (y1 - y0) / (x1 - x0) * (u - x0)
  }

  ghost predicate Increasing(xs: seq<real>) {
    forall i, j :: 0 <= i < j < |xs| ==> xs[i] < xs[j]
  }

  /** The last i with xs[i] <= u among the first k, where np.interp looks. */
  function Locate(xs: seq<real>, u: real, k: nat): (i: nat)
    requires 0 < k <= |xs| && xs[0] <= u
    ensures i < k && xs[i] <= u && (i + 1 < k ==> u < xs[i + 1])
  {
    if k == 1 || xs[k - 1] <= u then k - 1 else Locate(xs, u, k - 1)
  }

  /** One prediction in log space: beyond the measured range the outermost line goes on. */
  function Predict(xs: seq<real>, ys: seq<real>, u: real): real
    requires |xs| == |ys| >= 2 && Increasing(xs)
  {
    var n := |xs|;
    if u < xs[0] then Line(xs[0], ys[0], xs[1], ys[1], u)
    else if u > xs[n - 1] then ys[n - 1] + (ys[n - 1] - ys[n - 2]) / (xs[n - 1] - xs[n - 2]) * (u - xs[n - 1])
    else
      var i := Locate(xs, u, n);
      if i == n - 1 then ys[i] else Line(xs[i], ys[i], xs[i + 1], ys[i + 1], u)
  }

  // ---------------------------------------------------------------------------
  // One line
  // ---------------------------------------------------------------------------

  lemma Ratio(a: real, b: real)
    requires a > 0.0 && b > 0.0
    ensures a / b > 0.0 && a / b * b == a && a / b * (b / a) == 1.0
  {
    assert a / b * (b / a) == (a / b * b) / a;
  }

  /** Swapping the axes of a rising line inverts it. */
  lemma LineInverts(x0: real, y0: real, x1: real, y1: real, u: real)
    requires x0 < x1 && y0 < y1
    ensures Line(y0, x0, y1, x1, Line(x0, y0, x1, y1, u)) == u
  {
    var m, w := (y1 - y0) / (x1 - x0), (x1 - x0) / (y1 - y0);
    Ratio(y1 - y0, x1 - x0);
    assert m * w == 1.0;
    assert w * (m * (u - x0)) == (m * w) * (u - x0);
  }

  lemma Quotient(a: real, b: real)
    requires b > 0.0
    ensures a / b * b == a
  {
  }

  lemma LineEnds(x0: real, y0: real, x1: real, y1: real)
    requires x0 < x1
    ensures Line(x0, y0, x1, y1, x0) == y0 && Line(x0, y0, x1, y1, x1) == y1
  {
    var m := (y1 - y0) / (x1 - x0);
    Quotient(y1 - y0, x1 - x0);
    assert Line(x0, y0, x1, y1, x0) == y0 + m * 0.0;
    assert Line(x0, y0, x1, y1, x1) == y0 + m * (x1 - x0);
  }

  /** (u, v) is on the straight line through (x0, y0) and (x1, y1). */
  ghost predicate Collinear(x0: real, y0: real, x1: real, y1: real, u: real, v: real) {
    (v - y0) * (x1 - x0) == (y1 - y0) * (u - x0)
  }

  lemma LineSlope(x0: real, y0: real, x1: real, y1: real, u: real)
    requires x0 < x1
    ensures Collinear(x0, y0, x1, y1, u, Line(x0, y0, x1, y1, u))
  {
    var m := (y1 - y0) / (x1 - x0);
    Quotient(y1 - y0, x1 - x0);
    assert m * (u - x0) * (x1 - x0) == m * (x1 - x0) * (u - x0);
  }

  lemma LineRises(x0: real, y0: real, x1: real, y1: real, u: real, v: real)
    requires x0 < x1 && y0 < y1 && u < v
    ensures Line(x0, y0, x1, y1, u) < Line(x0, y0, x1, y1, v)
  {
    var m := (y1 - y0) / (x1 - x0);
    Ratio(y1 - y0, x1 - x0);
    ScaledLess(m, u - x0, v - x0);
    assert Line(x0, y0, x1, y1, u) == y0 + m * (u - x0);
    assert Line(x0, y0, x1, y1, v) == y0 + m * (v - x0);
  }

  lemma ScaledLess(m: real, a: real, b: real)
    requires m > 0.0 && a < b
    ensures m * a < m * b
  {
    assert m * b - m * a == m * (b - a);
  }

  // ---------------------------------------------------------------------------
  // All lines
  // ---------------------------------------------------------------------------

  /** u is on the i-th line: between its ends, or beyond an outermost one. */
  ghost predicate OnLine(xs: seq<real>, i: int, u: real) {
    0 <= i < |xs| - 1 && (i == 0 || xs[i] <= u) && (i == |xs| - 2 || u <= xs[i + 1])
  }

  ghost predicate Points(xs: seq<real>, ys: seq<real>) {
    |xs| == |ys| >= 2 && Increasing(xs)
  }

  ghost predicate Measured(xs: seq<real>, ys: seq<real>) {
    |xs| == |ys| >= 2 && Increasing(xs) && Increasing(ys)
  }

  lemma Ordered(xs: seq<real>, a: int, b: int)
    requires Increasing(xs) && 0 <= a <= b < |xs|
    ensures xs[a] <= xs[b] && (a < b ==> xs[a] < xs[b])
  {
  }

  function Least(a: int, b: int): int { if a < b then a else b }

  lemma LocateOnLine(xs: seq<real>, i: int, u: real)
    requires |xs| >= 2 && Increasing(xs) && OnLine(xs, i, u) && xs[0] <= u <= xs[|xs| - 1]
    ensures var k := Locate(xs, u, |xs|); k == i || (k == i + 1 && u == xs[k])
  {
    var k := Locate(xs, u, |xs|);
    Ordered(xs, Least(k + 1, i), i);
    Ordered(xs, Least(i + 1, k), k);
  }

  /** The prediction is on every line its argument is on. */
  lemma OnItsLine(xs: seq<real>, ys: seq<real>, i: int, u: real)
    requires Points(xs, ys) && OnLine(xs, i, u)
    ensures Predict(xs, ys, u) == Line(xs[i], ys[i], xs[i + 1], ys[i + 1], u)
  {
    var n := |xs|;
    Ordered(xs, 0, i);
    Ordered(xs, i + 1, n - 1);
    if u > xs[n - 1] {
      AboveRange(xs, ys, u);
    } else if u >= xs[0] {
      WithinRange(xs, ys, i, u);
    }
  }

  lemma AboveRange(xs: seq<real>, ys: seq<real>, u: real)
    requires Points(xs, ys) && u > xs[|xs| - 1]
    ensures var i := |xs| - 2; Predict(xs, ys, u) == Line(xs[i], ys[i], xs[i + 1], ys[i + 1], u)
  {
    var n := |xs|;
    Ordered(xs, 0, n - 1);
    LastLine(xs[n - 2], ys[n - 2], xs[n - 1], ys[n - 1], u);
  }

  lemma WithinRange(xs: seq<real>, ys: seq<real>, i: int, u: real)
    requires Points(xs, ys) && OnLine(xs, i, u) && xs[0] <= u <= xs[|xs| - 1]
    ensures Predict(xs, ys, u) == Line(xs[i], ys[i], xs[i + 1], ys[i + 1], u)
  {
    LocateOnLine(xs, i, u);
    if Locate(xs, u, |xs|) == i + 1 { AtKnot(xs, ys, i, u); }
  }

  /** At a measured point both lines give the measured value. */
  lemma AtKnot(xs: seq<real>, ys: seq<real>, i: int, u: real)
    requires Points(xs, ys) && 0 <= i < |xs| - 1 && u == xs[i + 1]
    requires xs[0] <= u <= xs[|xs| - 1] && Locate(xs, u, |xs|) == i + 1
    ensures Predict(xs, ys, u) == ys[i + 1] == Line(xs[i], ys[i], xs[i + 1], ys[i + 1], u)
  {
    LineEnds(xs[i], ys[i], xs[i + 1], ys[i + 1]);
    if i + 2 < |xs| { LineEnds(xs[i + 1], ys[i + 1], xs[i + 2], ys[i + 2]); }
  }

  /** The last line written from its other end. */
  lemma LastLine(x0: real, y0: real, x1: real, y1: real, u: real)
    requires x0 < x1
    ensures y1 + (y1 - y0) / (x1 - x0) * (u - x1) == Line(x0, y0, x1, y1, u)
  {
    var m := (y1 - y0) / (x1 - x0);
    Quotient(y1 - y0, x1 - x0);
    assert m * (u - x0) == m * (u - x1) + m * (x1 - x0);
  }

  /** Every argument is on some line. */
  lemma SomeLine(xs: seq<real>, u: real) returns (i: int)
    requires |xs| >= 2 && Increasing(xs)
    ensures OnLine(xs, i, u)
  {
    if u < xs[0] {
      i := 0;
    } else {
      var k := Locate(xs, u, |xs|);
      i := if k == |xs| - 1 then k - 1 else k;
    }
  }

  /** A point on the i-th line is predicted on the i-th line of the inverse. */
  lemma ImageOnLine(xs: seq<real>, ys: seq<real>, i: int, u: real)
    requires Measured(xs, ys) && OnLine(xs, i, u)
    ensures OnLine(ys, i, Line(xs[i], ys[i], xs[i + 1], ys[i + 1], u))
  {
    LineEnds(xs[i], ys[i], xs[i + 1], ys[i + 1]);
    if xs[i] < u { LineRises(xs[i], ys[i], xs[i + 1], ys[i + 1], xs[i], u); }
    if u < xs[i + 1] { LineRises(xs[i], ys[i], xs[i + 1], ys[i + 1], u, xs[i + 1]); }
  }

  /** Predicting there and back again changes nothing, inside and outside the measured range. */
  lemma PredictInverts(xs: seq<real>, ys: seq<real>, u: real)
    requires Measured(xs, ys)
    ensures Predict(ys, xs, Predict(xs, ys, u)) == u
  {
    var i := SomeLine(xs, u);
    OnItsLine(xs, ys, i, u);
    ImageOnLine(xs, ys, i, u);
    OnItsLine(ys, xs, i, Predict(xs, ys, u));
    LineInverts(xs[i], ys[i], xs[i + 1], ys[i + 1], u);
  }

  lemma LaterLine(xs: seq<real>, ys: seq<real>, i: int, j: int, u: real, v: real)
    requires Measured(xs, ys) && OnLine(xs, i, u) && OnLine(xs, j, v) && i < j && u < v
    ensures Line(xs[i], ys[i], xs[i + 1], ys[i + 1], u) < Line(xs[j], ys[j], xs[j + 1], ys[j + 1], v)
  {
    Ordered(xs, i + 1, j);
    Ordered(ys, i + 1, j);
    LineEnds(xs[i], ys[i], xs[i + 1], ys[i + 1]);
    LineEnds(xs[j], ys[j], xs[j + 1], ys[j + 1]);
    if u < xs[i + 1] { LineRises(xs[i], ys[i], xs[i + 1], ys[i + 1], u, xs[i + 1]); }
    if xs[j] < v { LineRises(xs[j], ys[j], xs[j + 1], ys[j + 1], xs[j], v); }
  }

  lemma PredictRises(xs: seq<real>, ys: seq<real>, u: real, v: real)
    requires Measured(xs, ys) && u < v
    ensures Predict(xs, ys, u) < Predict(xs, ys, v)
  {
    var i := SomeLine(xs, u);
    var j := SomeLine(xs, v);
    OnItsLine(xs, ys, i, u);
    OnItsLine(xs, ys, j, v);
    Ordered(xs, Least(j + 1, i), i);
    if i == j {
      LineRises(xs[i], ys[i], xs[i + 1], ys[i + 1], u, v);
    } else {
      LaterLine(xs, ys, i, j, u, v);
    }
  }

  // ---------------------------------------------------------------------------
  // The two predictions
  // ---------------------------------------------------------------------------

  /** Natural logarithm and exponential, as far as the predictions rely on them. */
  ghost predicate LogAndExp(log: real -> real, exp: real -> real) {
    && (forall x: real :: x > 0.0 ==> exp(log(x)) == x)
    && (forall y: real :: exp(y) > 0.0 && log(exp(y)) == y)
    && forall x: real, y: real :: 0.0 < x < y ==> log(x) < log(y)
  }

  function RationalLog(x: real): real {
    if x >= 1.0 then x - 1.0 else if x > 0.0 then 1.0 - 1.0 / x else 0.0
  }

  function RationalExp(y: real): real { if y >= 0.0 then y + 1.0 else 1.0 / (1.0 - y) }

  /** It asks for nothing impossible: a pair of rational functions has these properties too. */
  lemma LogAndExpExist()
    ensures LogAndExp(RationalLog, RationalExp)
  {
    forall x: real | 0.0 < x < 1.0 ensures RationalExp(RationalLog(x)) == x { ReciprocalBelow(x, 1.0); }
    forall y: real | y < 0.0 ensures 0.0 < RationalExp(y) < 1.0 && RationalLog(RationalExp(y)) == y {
      ReciprocalBelow(1.0, 1.0 - y);
    }
    forall x: real, y: real | 0.0 < x < y ensures RationalLog(x) < RationalLog(y) {
      if x < 1.0 {
        ReciprocalBelow(x, 1.0);
        if y < 1.0 { ReciprocalBelow(x, y); }
      }
    }
  }

  lemma ReciprocalBelow(a: real, b: real)
    requires 0.0 < a < b
    ensures 0.0 < 1.0 / b < 1.0 / a && 1.0 / (1.0 / a) == a && 1.0 / (1.0 / b) == b
  {
    Ratio(1.0, a);
    Ratio(1.0, b);
    Ratio(b, a);
    assert 1.0 / a - 1.0 / b == (b - a) / (a * b);
    Ratio(b - a, a * b);
  }

  /** The measured sizes, in order, with their durations. */
  datatype Measurements = Measurements(bytes: seq<real>, durations: seq<real>) {
    /** What the constructor makes sure of. */
    ghost predicate Valid() {
      && |bytes| == |durations| > 0 && Increasing(bytes)
      && (forall i :: 0 <= i < |bytes| ==> bytes[i] > 0.0 && durations[i] > 0.0)
    }
  }

  datatype Prediction = Predicted(value: real) | NotPositive

  function Logs(xs: seq<real>, log: real -> real): (r: seq<real>)
    ensures |r| == |xs| && forall i :: 0 <= i < |xs| ==> r[i] == log(xs[i])
  {
    seq(|xs|, i requires 0 <= i < |xs| => log(xs[i]))
  }

  lemma LogsIncrease(xs: seq<real>, log: real -> real, exp: real -> real)
    requires LogAndExp(log, exp) && Increasing(xs) && forall i :: 0 <= i < |xs| ==> xs[i] > 0.0
    ensures Increasing(Logs(xs, log))
  {
  }

  function BytesToDuration(m: Measurements, log: real -> real, exp: real -> real, size: real): Prediction
    requires m.Valid() && LogAndExp(log, exp)
  {
    if size <= 0.0 then NotPositive
    else if |m.bytes| == 1 then Predicted(m.durations[0])
    else
      LogsIncrease(m.bytes, log, exp);
      Predicted(exp(Predict(Logs(m.bytes, log), Logs(m.durations, log), log(size))))
  }

  function DurationToBytes(m: Measurements, log: real -> real, exp: real -> real, duration: real): Prediction
    requires m.Valid() && LogAndExp(log, exp) && Increasing(m.durations)
  {
    if duration <= 0.0 then NotPositive
    else if |m.durations| == 1 then Predicted(m.bytes[0])
    else
      LogsIncrease(m.durations, log, exp);
      Predicted(exp(Predict(Logs(m.durations, log), Logs(m.bytes, log), log(duration))))
  }

  // What the predictions are.

  /** Nothing is predicted for an argument that is not positive, and for every other one something is. */
  lemma PositiveArgumentsOnly(m: Measurements, log: real -> real, exp: real -> real, x: real)
    requires m.Valid() && LogAndExp(log, exp)
    ensures BytesToDuration(m, log, exp, x) == NotPositive <==> x <= 0.0
    ensures Increasing(m.durations) ==> (DurationToBytes(m, log, exp, x) == NotPositive <==> x <= 0.0)
  {
  }

  /** A measured size is predicted its measured duration. */
  lemma MeasuredSizesAreMet(m: Measurements, log: real -> real, exp: real -> real, i: nat)
    requires m.Valid() && LogAndExp(log, exp) && i < |m.bytes|
    ensures BytesToDuration(m, log, exp, m.bytes[i]) == Predicted(m.durations[i])
  {
    if |m.bytes| > 1 {
      LogsIncrease(m.bytes, log, exp);
      PointIsMet(Logs(m.bytes, log), Logs(m.durations, log), i);
    }
  }

  /** With longer durations for larger sizes, a measured duration is predicted its measured size. */
  lemma MeasuredDurationsAreMet(m: Measurements, log: real -> real, exp: real -> real, i: nat)
    requires m.Valid() && LogAndExp(log, exp) && Increasing(m.durations) && i < |m.bytes|
    ensures DurationToBytes(m, log, exp, m.durations[i]) == Predicted(m.bytes[i])
  {
    if |m.bytes| > 1 {
      LogsIncrease(m.durations, log, exp);
      PointIsMet(Logs(m.durations, log), Logs(m.bytes, log), i);
    }
  }

  lemma PointIsMet(xs: seq<real>, ys: seq<real>, i: nat)
    requires Points(xs, ys) && i < |xs|
    ensures Predict(xs, ys, xs[i]) == ys[i]
  {
    var k := if i < |xs| - 1 then i else i - 1;
    assert OnLine(xs, k, xs[i]);
    OnItsLine(xs, ys, k, xs[i]);
    LineEnds(xs[k], ys[k], xs[k + 1], ys[k + 1]);
  }

  /** Between two neighbouring measurements, and beyond the outermost two, size and predicted
      duration are in log-log space on the straight line through the two measurements. */
  lemma DurationsFollowLines(m: Measurements, log: real -> real, exp: real -> real, i: int, x: real)
    requires m.Valid() && LogAndExp(log, exp) && |m.bytes| >= 2 && x > 0.0 && OnLine(m.bytes, i, x)
    ensures var d := BytesToDuration(m, log, exp, x);
            && d.Predicted? && d.value > 0.0
            && Collinear(log(m.bytes[i]), log(m.durations[i]), log(m.bytes[i + 1]), log(m.durations[i + 1]), log(x), log(d.value))
  {
    LogsIncrease(m.bytes, log, exp);
    PredictedOnLine(m.bytes, Logs(m.durations, log), log, exp, i, x);
  }

  lemma SizesFollowLines(m: Measurements, log: real -> real, exp: real -> real, i: int, x: real)
    requires m.Valid() && LogAndExp(log, exp) && Increasing(m.durations)
    requires |m.bytes| >= 2 && x > 0.0 && OnLine(m.durations, i, x)
    ensures var b := DurationToBytes(m, log, exp, x);
            && b.Predicted? && b.value > 0.0
            && Collinear(log(m.durations[i]), log(m.bytes[i]), log(m.durations[i + 1]), log(m.bytes[i + 1]), log(x), log(b.value))
  {
    LogsIncrease(m.durations, log, exp);
    PredictedOnLine(m.durations, Logs(m.bytes, log), log, exp, i, x);
  }

  lemma PredictedOnLine(xs: seq<real>, ys: seq<real>, log: real -> real, exp: real -> real, i: int, x: real)
    requires LogAndExp(log, exp) && Increasing(xs) && (forall k :: 0 <= k < |xs| ==> xs[k] > 0.0)
    requires Points(Logs(xs, log), ys) && x > 0.0 && OnLine(xs, i, x)
    ensures Collinear(log(xs[i]), ys[i], log(xs[i + 1]), ys[i + 1], log(x), log(exp(Predict(Logs(xs, log), ys, log(x)))))
  {
    hide Collinear, Predict, Increasing;
    LogsOnLine(xs, log, exp, i, x);
    CollinearWithEnds(Logs(xs, log), ys, i, log(x));
    assert log(exp(Predict(Logs(xs, log), ys, log(x)))) == Predict(Logs(xs, log), ys, log(x));
  }

  lemma LogsOnLine(xs: seq<real>, log: real -> real, exp: real -> real, i: int, x: real)
    requires LogAndExp(log, exp) && (forall k :: 0 <= k < |xs| ==> xs[k] > 0.0) && x > 0.0 && OnLine(xs, i, x)
    ensures OnLine(Logs(xs, log), i, log(x))
  {
  }

  lemma CollinearWithEnds(xs: seq<real>, ys: seq<real>, i: int, u: real)
    requires Points(xs, ys) && OnLine(xs, i, u)
    ensures Collinear(xs[i], ys[i], xs[i + 1], ys[i + 1], u, Predict(xs, ys, u))
  {
    hide Predict, Line, Collinear;
    OnItsLine(xs, ys, i, u);
    LineSlope(xs[i], ys[i], xs[i + 1], ys[i + 1], u);
  }

  /** One measurement is predicted for every positive argument. */
  lemma OneMeasurement(m: Measurements, log: real -> real, exp: real -> real, x: real)
    requires m.Valid() && LogAndExp(log, exp) && |m.bytes| == 1 && x > 0.0
    ensures BytesToDuration(m, log, exp, x) == Predicted(m.durations[0])
    ensures DurationToBytes(m, log, exp, x) == Predicted(m.bytes[0])
  {
  }

  /** With two measurements or more and longer durations for larger sizes, predicting a duration
      and then the size for it gives the size back, and the other way round, for every positive
      argument; and larger arguments give larger predictions. */
  lemma PredictionsInvert(m: Measurements, log: real -> real, exp: real -> real, x: real)
    requires m.Valid() && LogAndExp(log, exp) && Increasing(m.durations) && |m.bytes| >= 2 && x > 0.0
    ensures var d := BytesToDuration(m, log, exp, x);
            d.Predicted? && d.value > 0.0 && DurationToBytes(m, log, exp, d.value) == Predicted(x)
    ensures var b := DurationToBytes(m, log, exp, x);
            b.Predicted? && b.value > 0.0 && BytesToDuration(m, log, exp, b.value) == Predicted(x)
  {
    var xs, ys := Logs(m.bytes, log), Logs(m.durations, log);
    LogsIncrease(m.bytes, log, exp);
    LogsIncrease(m.durations, log, exp);
    PredictInverts(xs, ys, log(x));
    PredictInverts(ys, xs, log(x));
  }

  lemma PredictionsRise(m: Measurements, log: real -> real, exp: real -> real, x: real, y: real)
    requires m.Valid() && LogAndExp(log, exp) && Increasing(m.durations) && |m.bytes| >= 2 && 0.0 < x < y
    ensures BytesToDuration(m, log, exp, x).value < BytesToDuration(m, log, exp, y).value
    ensures DurationToBytes(m, log, exp, x).value < DurationToBytes(m, log, exp, y).value
  {
    var xs, ys := Logs(m.bytes, log), Logs(m.durations, log);
    LogsIncrease(m.bytes, log, exp);
    LogsIncrease(m.durations, log, exp);
    PredictRises(xs, ys, log(x), log(y));
    PredictRises(ys, xs, log(x), log(y));
    ExpRises(log, exp, Predict(xs, ys, log(x)), Predict(xs, ys, log(y)));
    ExpRises(log, exp, Predict(ys, xs, log(x)), Predict(ys, xs, log(y)));
  }

  lemma ExpRises(log: real -> real, exp: real -> real, u: real, v: real)
    requires LogAndExp(log, exp) && u < v
    ensures exp(u) < exp(v)
  {
    assert log(exp(u)) == u && log(exp(v)) == v;
  }
}
