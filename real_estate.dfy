/** The real-estate deal calculator: a year-one income waterfall from rent
    to cash flow, the return ratios built on it, and how the DSCR and cash
    flow figures are flagged and coloured. */
module RealEstate {
  import opened Amortization

  datatype Option<T> = None | Some(value: T)

  /** The deal as entered: money amounts, percentages (5 means 5%) and the
      loan term in years. */
  datatype Deal = Deal(
    purchasePrice: real,
    closingCosts: real,
    rehabCosts: real,
    monthlyRent: real,
    otherIncome: real,
    vacancyPercent: real,
    opExPercent: real,
    downPaymentPercent: real,
    annualRatePercent: real,
    termYears: int)

  /** The year-one figures. `capRate` and `cashOnCash` are fractions
      (0.06 is 6%); `dscr` is a plain ratio. */
  datatype Metrics = Metrics(
    loanAmount: real,
    downPayment: real,
    monthlyDebtService: real,
    annualDebtService: real,
    gsi: real,
    vacancyLoss: real,
    egi: real,
    opEx: real,
    noi: real,
    totalCashInvested: real,
    capRate: real,
    annualCashFlow: real,
    cashOnCash: real,
    dscr: real)

  /** Metrics are produced only for a positive price and a positive term,
      which makes the loan at least twelve months long. */
  predicate Computable(d: Deal): (c: bool)
    ensures c ==> d.purchasePrice > 0.0 && LoanMonths(d) >= 12
  {
    d.purchasePrice > 0.0 && d.termYears > 0
  }

  /** The loan's monthly rate and number of months. */
  function LoanRate(d: Deal): real
  {
    MonthlyRate(d.annualRatePercent)
  }

  function LoanMonths(d: Deal): int
  {
    d.termYears * 12
  }

  /** A quotient that is 0 unless its divisor is positive, as each of the
      three ratios is computed. */
  function GuardedRatio(num: real, den: real): (q: real)
    ensures den > 0.0 ==> q * den == num
    ensures den <= 0.0 ==> q == 0.0
  {
    if den > 0.0 then num / den else 0.0
  }

  /** The year-one income figures, from gross scheduled income down to NOI. */
  datatype Income = Income(gsi: real, vacancyLoss: real, egi: real, opEx: real, noi: real)

  /** The income side of the deal: gross scheduled income is a year of rent
      and other income, vacancy is taken off it to give effective gross
      income, and operating expenses are taken off that to give NOI. */
  function YearOneIncome(d: Deal): (w: Income)
    ensures w.gsi == (d.monthlyRent + d.otherIncome) * 12.0
    ensures w.vacancyLoss + w.egi == w.gsi && w.opEx + w.noi == w.egi
    ensures w.egi == w.gsi * (1.0 - d.vacancyPercent / 100.0)
    ensures w.noi == w.egi * (1.0 - d.opExPercent / 100.0)
    ensures w.noi == (d.monthlyRent + d.otherIncome) * 12.0
                     * (1.0 - d.vacancyPercent / 100.0) * (1.0 - d.opExPercent / 100.0)
  {
    var gsi := (d.monthlyRent + d.otherIncome) * 12.0;
    var vacancyLoss := gsi * (d.vacancyPercent / 100.0);
    var egi := gsi - vacancyLoss;
    var opEx := egi * (d.opExPercent / 100.0);
    var noi := egi - opEx;
    assert egi == gsi * (1.0 - d.vacancyPercent / 100.0);
    Income(gsi, vacancyLoss, egi, opEx, noi)
  }

  /** The calculator's result: `None` when the deal cannot be computed,
      otherwise every figure of the waterfall. The debt service is the
      annuity payment on the loan with no guard on the loan amount. */
  function Analyze(d: Deal): (res: Option<Metrics>)
    requires Computable(d) ==> Admissible(LoanRate(d), LoanMonths(d))
    ensures res.Some? <==> Computable(d)
    ensures res.Some? ==>
      var m, w := res.value, YearOneIncome(d);
      && m.loanAmount + m.downPayment == d.purchasePrice
      && m.downPayment == d.purchasePrice * (d.downPaymentPercent / 100.0)
      && m.gsi == w.gsi && m.vacancyLoss == w.vacancyLoss && m.egi == w.egi
      && m.opEx == w.opEx && m.noi == w.noi
      && m.totalCashInvested == m.downPayment + d.closingCosts + d.rehabCosts
      && m.annualDebtService == 12.0 * m.monthlyDebtService
      && m.annualCashFlow == m.noi - m.annualDebtService
      && m.capRate == GuardedRatio(m.noi, d.purchasePrice)
      && m.cashOnCash == GuardedRatio(m.annualCashFlow, m.totalCashInvested)
      && m.dscr == GuardedRatio(m.noi, m.annualDebtService)
  {
    if d.purchasePrice > 0.0 && d.termYears > 0 then
      var loanAmount := d.purchasePrice * (1.0 - d.downPaymentPercent / 100.0);
      var downPayment := d.purchasePrice * (d.downPaymentPercent / 100.0);
      var monthlyDebtService := AnnuityPayment(loanAmount, LoanRate(d), LoanMonths(d));
      var annualDebtService := monthlyDebtService * 12.0;
      var w := YearOneIncome(d);
      var totalCashInvested := downPayment + d.closingCosts + d.rehabCosts;
      var capRate := GuardedRatio(w.noi, d.purchasePrice);
      var annualCashFlow := w.noi - annualDebtService;
      var cashOnCash := GuardedRatio(annualCashFlow, totalCashInvested);
      var dscr := GuardedRatio(w.noi, annualDebtService);
      Some(Metrics(loanAmount, downPayment, monthlyDebtService, annualDebtService, w.gsi,
                   w.vacancyLoss, w.egi, w.opEx, w.noi, totalCashInvested, capRate, annualCashFlow,
                   cashOnCash, dscr))
    else None
  }

  /** The monthly debt service retires the loan over the term. */
  lemma DebtServiceRetiresLoan(d: Deal)
    requires Computable(d) && Admissible(LoanRate(d), LoanMonths(d))
    ensures var m := Analyze(d).value;
            Balance(m.loanAmount, LoanRate(d), m.monthlyDebtService, LoanMonths(d)) == 0.0
  {
    var m := Analyze(d).value;
    ClearingPayment(m.loanAmount, LoanRate(d), m.monthlyDebtService, LoanMonths(d));
  }

  /** How the DSCR figure is flagged. */
  function DscrEmphasis(dscr: real): (e: string)
    ensures e == "bad" <==> dscr < 1.2
    ensures e == "warn" <==> 1.2 <= dscr < 1.3
    ensures e == "good" <==> dscr >= 1.3
  {
    if dscr < 1.2 then "bad" else if dscr < 1.3 then "warn" else "good"
  }

  /** The thresholds on both sides of each boundary. */
  lemma DscrThresholds()
    ensures DscrEmphasis(1.15) == "bad" && DscrEmphasis(1.19) == "bad"
    ensures DscrEmphasis(1.2) == "warn" && DscrEmphasis(1.25) == "warn" && DscrEmphasis(1.29) == "warn"
    ensures DscrEmphasis(1.3) == "good" && DscrEmphasis(1.35) == "good"
  {
  }

  /** How the annual cash flow figure is flagged. */
  function CashFlowEmphasis(annualCashFlow: real): (e: string)
    ensures e == "bad" <==> annualCashFlow < 0.0
    ensures e == "good" <==> annualCashFlow >= 0.0
  {
    if annualCashFlow < 0.0 then "bad" else "good"
  }

  const DefaultColour: string := "text-slate-900"
  const GoodColour: string := "text-emerald-600"
  const BadColour: string := "text-rose-600"
  const WarnColour: string := "text-amber-600"

  /** The colour a metric tile uses for its `emphasize` label (`None` when the
      tile is given none): each of the three labels has its own colour, and
      anything else keeps the default. */
  function MetricColour(emphasize: Option<string>): (c: string)
    ensures emphasize == Some("good") ==> c == GoodColour
    ensures emphasize == Some("bad") ==> c == BadColour
    ensures emphasize == Some("warn") ==> c == WarnColour
    ensures c == DefaultColour <==>
              emphasize != Some("good") && emphasize != Some("bad") && emphasize != Some("warn")
  {
    var c0 := DefaultColour;
    var c1 := if emphasize == Some("good") then GoodColour else c0;
    var c2 := if emphasize == Some("bad") then BadColour else c1;
    if emphasize == Some("warn") then WarnColour else c2
  }

  /** What the DSCR tile shows in colour, in terms of the ratio itself. */
  lemma DscrTileColour(dscr: real)
    ensures MetricColour(Some(DscrEmphasis(dscr))) == BadColour <==> dscr < 1.2
    ensures MetricColour(Some(DscrEmphasis(dscr))) == WarnColour <==> 1.2 <= dscr < 1.3
    ensures MetricColour(Some(DscrEmphasis(dscr))) == GoodColour <==> dscr >= 1.3
  {
  }

  /** The order facts behind `FlagsAgree`, over plain numbers. */
  lemma CoverageAlgebra(noi: real, ads: real, dscr: real)
    requires ads > 0.0 && dscr * ads == noi
    ensures noi - ads < 0.0 <==> dscr < 1.0
  {
  }

  /** When there is debt service, the two flags agree: cash flow is negative
      exactly when DSCR is below 1, so a "bad" cash flow always comes with a
      "bad" DSCR and a "good" DSCR with a "good" cash flow. Without debt
      service the DSCR is 0 and flagged "bad". */
  lemma FlagsAgree(d: Deal)
    requires Computable(d) && Admissible(LoanRate(d), LoanMonths(d))
    ensures var m := Analyze(d).value;
      m.annualDebtService > 0.0 ==>
        && (CashFlowEmphasis(m.annualCashFlow) == "bad" <==> m.dscr < 1.0)
        && (CashFlowEmphasis(m.annualCashFlow) == "bad" ==> DscrEmphasis(m.dscr) == "bad")
        && (DscrEmphasis(m.dscr) == "good" ==> CashFlowEmphasis(m.annualCashFlow) == "good")
    ensures var m := Analyze(d).value;
      m.annualDebtService <= 0.0 ==> DscrEmphasis(m.dscr) == "bad"
  {
    var m := Analyze(d).value;
    if m.annualDebtService > 0.0 {
      CoverageAlgebra(m.noi, m.annualDebtService, m.dscr);
    }
  }

  /** A deal bought outright (100% down) has no loan and no debt service, so
      its cash flow is its NOI and its DSCR is shown as 0 and flagged "bad". */
  lemma AllCashDeal(d: Deal)
    requires Computable(d) && d.downPaymentPercent == 100.0
    ensures Admissible(LoanRate(d), LoanMonths(d)) ==>
      var m := Analyze(d).value;
      && m.loanAmount == 0.0 && m.annualDebtService == 0.0
      && m.annualCashFlow == m.noi && m.dscr == 0.0
      && DscrEmphasis(m.dscr) == "bad"
  {
  }

  /** A worked deal: $300,000 price, $2,500 rent, 5% vacancy, 35% operating
      expenses, 20% down at 6.5% over 30 years. */
  lemma ExampleDeal()
    ensures var d := Deal(300000.0, 9000.0, 15000.0, 2500.0, 0.0, 5.0, 35.0, 20.0, 6.5, 30);
      Admissible(LoanRate(d), LoanMonths(d)) &&
      var m := Analyze(d).value;
      && m.loanAmount == 240000.0 && m.downPayment == 60000.0
      && m.gsi == 30000.0 && m.vacancyLoss == 1500.0 && m.egi == 28500.0
      && m.opEx == 9975.0 && m.noi == 18525.0 && m.totalCashInvested == 84000.0
      && m.capRate == 0.06175
  {
    var d := Deal(300000.0, 9000.0, 15000.0, 2500.0, 0.0, 5.0, 35.0, 20.0, 6.5, 30);
    AdmissibleAboveMinusOne(LoanRate(d), LoanMonths(d));
  }
}
