# Financial calculator suite — verified model of the calculation core

The suite is a single-page React application with six calculators: real-estate
deal return (cap rate, cash-on-cash, DSCR, cash flow), monthly budget split,
auto loan, mortgage, single-debt payoff and savings growth. Each calculator
parses its text fields into numbers and evaluates a few formulas while
rendering. This project lifts those formulas out of the components and models
them in Dafny over exact `real` numbers:

- `amortization.dfy` (module `Amortization`): the monthly rate
  `annual% / 100 / 12`, a recursive `Pow` for `(1 + r)^n` with a whole-number
  exponent, the annuity rule `P / n` at a zero rate and
  `P * (r / (1 - 1 / (1 + r)^n))` otherwise, the same rule guarded by
  "principal > 0 and months > 0" as the auto-loan and mortgage calculators
  write it, the month-by-month loan balance (interest accrues, the rest of the
  payment repays principal), and `Growth`, the value of depositing 1 at the end
  of every month. The annuity rule is proved to be exactly the level payment
  that brings the balance to zero after `n` months.
- `real_estate.dfy` (module `RealEstate`): the deal waterfall from rent to
  cash flow, the three guarded ratios, the DSCR and cash-flow flags and the
  flag-to-colour mapping of the metric tile.
- `budget.dfy` (module `Budget`): income times each of three percentages.
- `loans.dfy` (module `Loans`): the auto-loan and mortgage quotes.
- `debt_payoff.dfy` (module `DebtPayoff`): the payoff loop as a `method`
  (`Simulate`) with loop invariants, proved against the balance schedule of
  `Amortization`, with the 600-month cap as its termination measure, and the
  calculator around it (`Payoff`), which runs the loop only under the payoff
  condition and reports months, years and interest.
- `savings.dfy` (module `Savings`): the future value of a monthly contribution
  and the year-by-year chart series.

Money amounts and percentages are `real`; percentages are taken as entered
(5 means 5%). Terms in months or years are `int` where the calculator guards
them with `> 0`, so non-positive terms take the zero-payment path (auto loan,
mortgage) or the no-result path (real estate) as they do in the source; the savings years are a `nat`.

The annuity rule divides by `1 - (1 + r)^-n`. In exact arithmetic that is
defined when the rate is zero or when `(1 + r)^n` is neither 0 nor 1; the
predicate `Amortization.Admissible` says exactly that, and every rate above
-100% a month satisfies it (`Amortization.AdmissibleAboveMinusOne`). The
calculators that evaluate the rule require it only on the path where the rule
is evaluated.

Notes on the code (`financial-calculator.jsx`) that shape the model:

- The real-estate debt service (line 78) applies the annuity rule to the loan
  amount with no guard on the loan amount; a 100% down payment gives zero debt
  service. More than 100% gives a negative loan amount, and with it a negative
  debt service at every monthly rate above -200% (other than the excluded
  -100%). Below -200% a month the even number of months (12 per year) makes
  the rate factor `r / (1 - (1 + r)^-n)` negative, so the debt service is
  positive instead. The auto-loan and mortgage
  calculators (lines 455-460, 509-514) guard the same rule with
  "principal > 0 and months > 0".
- The cash-on-cash and DSCR guards are "divisor > 0" (lines 93-96), so a
  negative divisor also yields 0.
- The cap rate and cash-on-cash are fractions (0.06), not percentages.
- The debt calculator simulates one debt month by month for at most 600
  months; it has no multi-debt aggregation, weighted rate, logarithmic payoff
  formula or avalanche/snowball ordering.
- The savings calculator has only a monthly contribution compounded monthly:
  no initial deposit, no compounding-frequency choice and no split of each
  chart point into contributions and interest.
- The budget calculator splits income by three chosen percentages; it has no
  expense lines and no comparison with 50/30/20 targets.
- The mortgage calculator takes monthly taxes and insurance as entered; it
  has no mortgage-insurance surcharge, no regional defaults and no
  affordability ratios.

## Model

| member | source | states |
|---|---|---|
| `Amortization.MonthlyRate` | financial-calculator.jsx:452 | the monthly rate `annual% / 100 / 12` (also at lines 506, 571, 639 and, split over lines 65 and 74, in the real-estate calculator): twelve months of it times 100 give the annual percentage, and it is zero, non-negative or above -100% a month exactly when the annual percentage is zero, non-negative or above -1200% |
| `Amortization.AnnuityPayment` | financial-calculator.jsx:457-459 | the annuity rule shared with lines 78 and 511-513: `P / n` at a zero rate and `P * (r / (1 - (1 + r)^-n))` otherwise; a zero principal gives a zero payment and at a zero rate `n` payments repay the principal exactly; `ClearingPayment` proves it is the one level payment that retires the loan |
| `Amortization.ClearingPayment` | financial-calculator.jsx:455-460 | after `n` payments of `pmt` the loan balance is zero if and only if `pmt` is the annuity payment: the rule is the unique level payment that retires the loan |
| `Amortization.LevelPaymentClears` | financial-calculator.jsx:455-460 | any level payment `a` with `a * Growth(r, n) = P (1 + r)^n` is the one and only payment that leaves nothing owed after `n` months |
| `Amortization.PaymentTimesGrowth` | financial-calculator.jsx:78 | payment times the accumulation factor equals the principal grown for `n` months, and that factor is nonzero, so the zero-rate and non-zero-rate branches never divide by zero |
| `Amortization.Balance` | financial-calculator.jsx:580-582 | reference definition of `remaining` after `k` months of the loop body: each month the balance loses the payment less that month's interest; `BalanceClosedForm` gives its closed form and `ClearingPayment` ties it to the annuity rule |
| `Amortization.InterestPaid` | financial-calculator.jsx:583 | reference definition of `totalInterest` after `k` months of the loop body: the sum of each month's interest on the balance then owed; `PaymentsSplit` relates it to `Balance` |
| `Amortization.BalanceClosedForm` | financial-calculator.jsx:580-582 | the balance after `k` months of the interest-then-principal recurrence is `P (1 + r)^k - pmt * Growth(r, k)` |
| `Amortization.PaymentsSplit` | financial-calculator.jsx:580-584 | interest accrued plus principal repaid after `k` months equals `k` payments |
| `Amortization.GrowthTimesRate` | financial-calculator.jsx:642-643 | the month-by-month accumulation of unit deposits times `r` is `(1 + r)^n - 1`, the closed form the calculators use |
| `Amortization.AdmissibleAboveMinusOne` | financial-calculator.jsx:78 | for a positive term the annuity rule is defined at every monthly rate above -100% |
| `Amortization.RepaidAtLeastPrincipal` | financial-calculator.jsx:462-463 | at a non-negative rate `n` annuity payments on a non-negative principal add up to at least the principal |
| `Amortization.LevelPaymentCovers` | financial-calculator.jsx:462-463 | at a non-negative rate such a level payment, paid `n` times, adds up to at least a non-negative principal |
| `Amortization.GrowthBounds` | financial-calculator.jsx:642-643 | at a non-negative rate the accumulation factor lies between `n` and `n (1 + r)^n` |
| `Amortization.PaymentExceedsInterest` | financial-calculator.jsx:455-460 | at a positive rate the annuity payment exceeds the first month's interest `P * r` |
| `Amortization.GuardedPayment` | financial-calculator.jsx:455-460 | 0 when principal <= 0 or months <= 0; otherwise a payment that retires the loan in `n` months, and at a zero rate `n` payments equal the principal |
| `Amortization.GrowthMonotone` | financial-calculator.jsx:648-650 | at a non-negative rate the accumulated value of unit deposits never decreases with more months |
| `Loans.AutoLoan` | financial-calculator.jsx:451-463 | amount financed is price - down; total paid is monthly times months; interest is total paid less amount financed; payment and total paid are 0 unless financed > 0 and months > 0; otherwise the payment retires the loan over the term |
| `Loans.AutoLoanZeroRate` | financial-calculator.jsx:455-463 | at 0% with something financed over a positive term, total paid equals the amount financed and total interest is 0 |
| `Loans.AutoLoanInterestNonNegative` | financial-calculator.jsx:462-463 | at a non-negative rate the total interest of a ready quote is never negative |
| `Loans.Mortgage` | financial-calculator.jsx:505-516 | monthly total is principal-and-interest + taxes + insurance; principal-and-interest is 0 when loan <= 0 or term <= 0, otherwise it retires the loan over `12 * years` months |
| `Loans.MortgageZeroRate` | financial-calculator.jsx:509-514 | at 0% principal-and-interest times the number of months equals the loan |
| `DebtPayoff.CanPayOff` | financial-calculator.jsx:578 | the condition under which the payoff loop runs: balance and payment positive and the payment above the first month's interest, which holds exactly when the first simulated month leaves less owed than the starting balance |
| `DebtPayoff.Simulate` | financial-calculator.jsx:579-585 | once the payoff condition holds the loop runs 1 to 600 months, every month it charges begins with a positive balance, it stops with the balance <= 0 unless the cap is hit, and balance and interest follow the schedule |
| `DebtPayoff.Payoff` | financial-calculator.jsx:570-588 | without the payoff condition months = 0 and interest = 0; with it 1 <= months <= 600, the balance is positive and falls every simulated month, the loop stops at the first month the balance is <= 0 unless the cap is hit, balance and interest follow the schedule, interest + principal repaid = months * payment, years = months / 12 |
| `DebtPayoff.BalanceFalls` | financial-calculator.jsx:578-582 | under the payoff condition a positive balance strictly decreases in the next month, for any sign of the rate |
| `DebtPayoff.BalanceFallsFromStart` | financial-calculator.jsx:578-582 | at a non-negative rate with the payment above the first month's interest the balance never exceeds its start and falls every month |
| `DebtPayoff.BalanceFallsBetween` | financial-calculator.jsx:579-585 | at a non-negative rate the balance after more months is strictly lower |
| `DebtPayoff.AnnuityScheduleEndsAtTerm` | financial-calculator.jsx:578-585 | paying a loan's own annuity payment at a non-negative rate meets the payoff condition, leaves a positive balance before month `n` and exactly zero at month `n` |
| `DebtPayoff.AnnuityPaidOffInTerm` | financial-calculator.jsx:574-586 | the payoff loop, fed a loan's annuity payment at a non-negative rate and a term up to 600 months, reports exactly that term |
| `DebtPayoff.CapLeavesBalance` | financial-calculator.jsx:579 | $1,000 at 0% paid $1 a month meets the payoff condition but still owes $400 when the 600-month cap stops the loop |
| `DebtPayoff.CapReportsFullTerm` | financial-calculator.jsx:578-588 | the payoff calculator on $1,000 at 0% paid $1 a month reports 600 months, $400 still owed and no interest |
| `RealEstate.Computable` | financial-calculator.jsx:70 | the guard under which the deal metrics exist: price > 0 and term > 0, so the loan runs at least 12 months; `Analyze` returns a result exactly when it holds |
| `RealEstate.YearOneIncome` | financial-calculator.jsx:82-87 | gsi = 12 * (rent + other); vacancy loss + egi = gsi and opex + noi = egi; egi = gsi * (1 - vacancy%), noi = egi * (1 - opex%), so noi = 12 * (rent + other) * (1 - vacancy%) * (1 - opex%) |
| `RealEstate.GuardedRatio` | financial-calculator.jsx:91-96 | a ratio is the quotient (ratio * divisor = numerator) when the divisor is positive and 0 otherwise, so no ratio divides by zero |
| `RealEstate.Analyze` | financial-calculator.jsx:68-114 | a result exactly when price > 0 and term > 0; loan + down payment = price; the income figures are those of the year-one waterfall; cash invested = down + closing + rehab; annual debt service = 12 * monthly; cash flow = noi - annual debt service; cap rate, cash-on-cash and dscr are the guarded ratios noi / price, cash flow / cash invested and noi / annual debt service |
| `RealEstate.DebtServiceRetiresLoan` | financial-calculator.jsx:74-78 | the monthly debt service retires the loan amount over `12 * years` months |
| `RealEstate.AllCashDeal` | financial-calculator.jsx:71-96 | at 100% down the loan and debt service are 0, cash flow equals noi and dscr is 0, flagged "bad" |
| `RealEstate.ExampleDeal` | financial-calculator.jsx:70-91 | the $300,000 / $2,500 rent / 5% vacancy / 35% opex / 20% down deal gives gsi 30000, vacancy loss 1500, egi 28500, opex 9975, noi 18525, cap rate 0.06175 |
| `RealEstate.DscrEmphasis` | financial-calculator.jsx:239 | "bad" iff dscr < 1.2, "warn" iff 1.2 <= dscr < 1.3, "good" iff dscr >= 1.3 |
| `RealEstate.DscrThresholds` | financial-calculator.jsx:239 | the flag on both sides of the 1.2 and 1.3 boundaries |
| `RealEstate.CashFlowEmphasis` | financial-calculator.jsx:245 | "bad" iff annual cash flow < 0, "good" iff it is >= 0 |
| `RealEstate.MetricColour` | financial-calculator.jsx:313-317 | "good", "bad" and "warn" each get their own colour; the default colour is kept exactly when the label is none of them |
| `RealEstate.DscrTileColour` | financial-calculator.jsx:236-240 | the DSCR tile is rose iff dscr < 1.2, amber iff 1.2 <= dscr < 1.3, emerald iff dscr >= 1.3 |
| `RealEstate.FlagsAgree` | financial-calculator.jsx:236-246 | with positive debt service cash flow is "bad" exactly when dscr < 1, so a "bad" cash flow implies a "bad" DSCR and a "good" DSCR a "good" cash flow; without debt service DSCR is "bad" |
| `Budget.Allocate` | financial-calculator.jsx:346-353 | each bucket is income times its percentage; the three buckets add up to income times the sum of the percentages |
| `Budget.WholeIncomeAllocated` | financial-calculator.jsx:351-353 | percentages adding up to 100 allocate exactly the whole income |
| `Budget.Chart` | financial-calculator.jsx:355-359 | three bars named needs, wants, savings, in that order, whose values add up to the whole split |
| `Budget.ChartOfAllocation` | financial-calculator.jsx:346-359 | the chart of an allocation shows each bucket as income times its percentage and in total income times the percentages' sum, which is the whole income when they add up to 100 |
| `Savings.FutureValue` | financial-calculator.jsx:642-643 | the future-value formula also used for every chart point (lines 649-650): `m * n` at a zero rate, `m * ((1 + r)^n - 1) / r` otherwise; nothing is accumulated over zero months or from zero contributions, and `FutureValueAccumulates` proves it equals the month-by-month balance |
| `Savings.FutureValueAccumulates` | financial-calculator.jsx:642-643 | the future-value formula equals the month-by-month balance of end-of-month contributions |
| `Savings.Chart` | financial-calculator.jsx:645-653 | `years + 1` points; point `i` has year `i` and the future value after `12 * i` months |
| `Savings.Project` | financial-calculator.jsx:638-653 | chart has `years + 1` points, point 0 is (0, 0), the last point is (years, fv), fv is the accumulated contributions over `12 * years` months; at 0% point `i` is the contribution times `12 * i` |
| `Savings.FutureValueMonotone` | financial-calculator.jsx:642-643 | with non-negative contribution and rate the future value after more months is never smaller |
| `Savings.AccumulatedMonotone` | financial-calculator.jsx:642-643 | with non-negative contribution and rate the month-by-month accumulated balance is never smaller after more months |
| `Savings.ChartNondecreasing` | financial-calculator.jsx:645-653 | with non-negative contribution and rate the chart values never decrease from one year to the next |
| `Savings.NoContributionNoGrowth` | financial-calculator.jsx:638-653 | with no contribution the future value and every chart point are 0 |

## Left out

- Rendering: all JSX, the `useState` setters, the `Field`, `RoiField`, `RoiRow`, `Metric`, `Row` and `NavButton` components, the tab and menu state of `FinancialCalculatorApp`, the Recharts charts and `main.jsx` (the React DOM bootstrap). They hold no calculation.
- Parsing and formatting: `parseNumber`, `formatCurrency`, `formatPercent` and the `x || 0` display fallbacks depend on JavaScript's `parseFloat`, `String.replace`, `toLocaleString` and `toFixed`. Every calculator takes already-parsed numbers.
- Floating point: the source computes in IEEE-754 doubles; the model uses exact reals and claims identities, guards and bounds, not bit-for-bit results. Consequently no numeric approximation such as "about 1798.65 a month for $300,000 at 6% over 30 years" is stated.
- Rates outside `Admissible` (exactly -100% a month, or -200% a month with an even number of months), where JavaScript returns 0 or a non-finite value (`Infinity`, `-Infinity` or `NaN`) through its infinity arithmetic and exact division is undefined, are excluded by the requires of `AnnuityPayment` and of the calculators that evaluate it.
- Fractional terms: `Math.pow` with a fractional exponent (a term of 2.5 years, or fractional months) is not modelled; terms are integers.
- The savings chart length uses `parseInt(years)` and the truthiness of the text field while the future value uses the parsed number; the model takes one whole number of years for both.
- The multi-debt payoff plan, avalanche/snowball ordering, mortgage insurance, regional tax and insurance defaults, affordability ratios and scenario save/load: the code has none of them.
