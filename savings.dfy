/** The savings growth calculator: the future value of a fixed monthly
    contribution compounded monthly, and its value at the end of each year. */
module Savings {
  import opened Amortization

  /** Value after `n` months of depositing `m` at the end of each month at
      monthly rate `r`: `m * n` at a zero rate, otherwise
      `m * ((1 + r)^n - 1) / r`. */
  function FutureValue(m: real, r: real, n: nat): (fv: real)
    ensures n == 0 ==> fv == 0.0
    ensures m == 0.0 ==> fv == 0.0
  {
    if r == 0.0 then m * n as real else m * ((Pow(1.0 + r, n) - 1.0) / r)
  }

  /** Solving g * r == q - 1 for g. */
  lemma DivideByRate(g: real, r: real, q: real)
    requires r != 0.0 && g * r == q - 1.0
    ensures g == (q - 1.0) / r
  {
  }

  /** The closed form is the month-by-month account balance: each month the
      balance earns interest and then the contribution is added. */
  lemma {:induction false} FutureValueAccumulates(m: real, r: real, n: nat)
    ensures FutureValue(m, r, n) == m * Growth(r, n)
  {
    if r == 0.0 {
      GrowthAtZeroRate(n);
    } else {
      GrowthTimesRate(r, n);
      DivideByRate(Growth(r, n), r, Pow(1.0 + r, n));
    }
  }

  /** One point of the growth chart. */
  datatype Point = Point(year: nat, value: real)

  /** The growth chart: one point per year from year 0 to `years`, each the
      future value after that many whole years. */
  function Chart(m: real, r: real, years: nat): (c: seq<Point>)
    ensures |c| == years + 1
    ensures forall i :: 0 <= i < |c| ==> c[i].year == i && c[i].value == FutureValue(m, r, 12 * i)
  {
    seq(years + 1, i requires 0 <= i => Point(i, FutureValue(m, r, i * 12)))
  }

  /** What the calculator shows: the projected future value and the chart. */
  datatype Projection = Projection(futureValue: real, chart: seq<Point>)

  /** The calculator for a monthly contribution, an annual rate in percent and
      a number of years. */
  function Project(monthly: real, annualRatePercent: real, years: nat): (p: Projection)
    ensures |p.chart| == years + 1
    ensures p.chart[0] == Point(0, 0.0)
    ensures p.chart[years] == Point(years, p.futureValue)
    ensures p.futureValue == monthly * Growth(MonthlyRate(annualRatePercent), 12 * years)
    ensures annualRatePercent == 0.0 ==>
              forall i :: 0 <= i < |p.chart| ==> p.chart[i].value == monthly * (12 * i) as real
  {
    var r := MonthlyRate(annualRatePercent);
    FutureValueAccumulates(monthly, r, 12 * years);
    Projection(FutureValue(monthly, r, years * 12), Chart(monthly, r, years))
  }

  /** Scaling by a non-negative amount keeps the order. */
  lemma ScaleMonotone(m: real, a: real, b: real, ma: real, mb: real)
    requires m >= 0.0 && a <= b && ma == m * a && mb == m * b
    ensures ma <= mb
  {
    assert mb - ma == m * (b - a);
  }

  /** Contributions accumulated over more months are never smaller. */
  lemma AccumulatedMonotone(m: real, r: real, j: nat, k: nat, fj: real, fk: real)
    requires m >= 0.0 && r >= 0.0 && j <= k
    requires fj == m * Growth(r, j) && fk == m * Growth(r, k)
    ensures fj <= fk
  {
    GrowthMonotone(r, j, k);
    ScaleMonotone(m, Growth(r, j), Growth(r, k), fj, fk);
  }

  /** With non-negative contributions and rate, saving longer never ends with less. */
  lemma FutureValueMonotone(m: real, r: real, j: nat, k: nat)
    requires m >= 0.0 && r >= 0.0 && j <= k
    ensures FutureValue(m, r, j) <= FutureValue(m, r, k)
  {
    FutureValueAccumulates(m, r, j);
    FutureValueAccumulates(m, r, k);
    AccumulatedMonotone(m, r, j, k, FutureValue(m, r, j), FutureValue(m, r, k));
  }

  /** With non-negative contributions and rate the chart never goes down. */
  lemma ChartNondecreasing(monthly: real, annualRatePercent: real, years: nat)
    requires monthly >= 0.0 && annualRatePercent >= 0.0
    ensures var c := Project(monthly, annualRatePercent, years).chart;
            forall i, j :: 0 <= i <= j < |c| ==> c[i].value <= c[j].value
  {
    var r := MonthlyRate(annualRatePercent);
    var c := Project(monthly, annualRatePercent, years).chart;
    forall i, j | 0 <= i <= j < |c|
      ensures c[i].value <= c[j].value
    {
      FutureValueMonotone(monthly, r, 12 * i, 12 * j);
    }
  }

  /** Without contributions every point of the chart is zero, whatever the rate. */
  lemma NoContributionNoGrowth(annualRatePercent: real, years: nat)
    ensures var p := Project(0.0, annualRatePercent, years);
            p.futureValue == 0.0 && forall i :: 0 <= i < |p.chart| ==> p.chart[i].value == 0.0
  {
  }
}
