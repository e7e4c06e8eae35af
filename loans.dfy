/** The auto-loan and mortgage calculators: the guarded annuity payment on
    price minus down payment, and the totals each calculator shows. */
module Loans {
  import opened Amortization

  /** What the auto-loan calculator shows: the amount financed, the monthly
      payment, the total paid over the term and the total interest. */
  datatype AutoLoanQuote = AutoLoanQuote(financed: real, monthly: real, totalPaid: real, interest: real)

  /** A loan is quoted only when there is something to finance over a positive term. */
  predicate Ready(principal: real, n: int)
  {
    principal > 0.0 && n > 0
  }

  /** The auto-loan calculator for a vehicle price, down payment, annual rate
      in percent and term in months. */
  function AutoLoan(price: real, down: real, annualRatePercent: real, termMonths: int): (q: AutoLoanQuote)
    requires Ready(price - down, termMonths) ==> Admissible(MonthlyRate(annualRatePercent), termMonths)
    ensures q.financed == price - down
    ensures q.totalPaid == q.monthly * termMonths as real
    ensures q.interest + q.financed == q.totalPaid
    ensures !Ready(q.financed, termMonths) ==> q.monthly == 0.0 && q.totalPaid == 0.0
    ensures Ready(q.financed, termMonths) ==>
              Balance(q.financed, MonthlyRate(annualRatePercent), q.monthly, termMonths) == 0.0
  {
    var principal := price - down;
    var monthly := GuardedPayment(principal, MonthlyRate(annualRatePercent), termMonths);
    var totalPaid := monthly * termMonths as real;
    AutoLoanQuote(principal, monthly, totalPaid, totalPaid - principal)
  }

  /** At a zero rate the payments add up to exactly the amount financed, so
      the total interest is zero. */
  lemma AutoLoanZeroRate(price: real, down: real, termMonths: int)
    requires Ready(price - down, termMonths)
    ensures AutoLoan(price, down, 0.0, termMonths).totalPaid == price - down
    ensures AutoLoan(price, down, 0.0, termMonths).interest == 0.0
  {
    assert MonthlyRate(0.0) == 0.0;
    var q := AutoLoan(price, down, 0.0, termMonths);
    assert q.monthly * termMonths as real == price - down;
  }

  /** At a non-negative rate the total interest is never negative. */
  lemma AutoLoanInterestNonNegative(price: real, down: real, annualRatePercent: real, termMonths: int)
    requires Ready(price - down, termMonths) && annualRatePercent >= 0.0
    ensures Admissible(MonthlyRate(annualRatePercent), termMonths)
    ensures AutoLoan(price, down, annualRatePercent, termMonths).interest >= 0.0
  {
    RepaidAtLeastPrincipal(price - down, MonthlyRate(annualRatePercent), termMonths);
  }

  /** What the mortgage calculator shows. */
  datatype MortgageQuote = MortgageQuote(loan: real, principalAndInterest: real, taxes: real,
                                         insurance: real, monthly: real)

  /** The mortgage calculator for a home price, down payment, annual rate in
      percent, term in years and monthly taxes and insurance. */
  function Mortgage(price: real, down: real, annualRatePercent: real, termYears: int,
                    taxes: real, insurance: real): (q: MortgageQuote)
    requires Ready(price - down, termYears * 12) ==>
               Admissible(MonthlyRate(annualRatePercent), termYears * 12)
    ensures q.loan == price - down && q.taxes == taxes && q.insurance == insurance
    ensures q.monthly == q.principalAndInterest + taxes + insurance
    ensures q.loan <= 0.0 || termYears <= 0 ==> q.principalAndInterest == 0.0
    ensures q.loan > 0.0 && termYears > 0 ==>
              Balance(q.loan, MonthlyRate(annualRatePercent), q.principalAndInterest, termYears * 12) == 0.0
  {
    var loan := price - down;
    var pi := GuardedPayment(loan, MonthlyRate(annualRatePercent), termYears * 12);
    MortgageQuote(loan, pi, taxes, insurance, pi + taxes + insurance)
  }

  /** At a zero rate principal and interest is the loan spread evenly over the months. */
  lemma MortgageZeroRate(price: real, down: real, termYears: int, taxes: real, insurance: real)
    requires price - down > 0.0 && termYears > 0
    ensures Mortgage(price, down, 0.0, termYears, taxes, insurance).principalAndInterest
            * (termYears * 12) as real == price - down
  {
    assert MonthlyRate(0.0) == 0.0;
  }
}
