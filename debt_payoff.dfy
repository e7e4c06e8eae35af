/** The single-debt payoff calculator: a month-by-month simulation that
    charges interest on the remaining balance, applies the rest of a fixed
    payment to principal, and stops when the balance is cleared or after
    `MaxMonths` months. */
module DebtPayoff {
  import opened Amortization

  /** The simulation stops after this many months even if a balance is left. */
  const MaxMonths: nat := 600

  /** The calculator simulates only when the balance and the payment are
      positive and the payment exceeds the first month's interest, that is,
      when the first month leaves less owed than the starting balance. */
  predicate CanPayOff(balance: real, r: real, payment: real): (c: bool)
    ensures c <==> balance > 0.0 && payment > 0.0 && Balance(balance, r, payment, 1) < balance
  {
    balance > 0.0 && payment > 0.0 && payment > balance * r
  }

  /** At a non-negative rate, once the payment covers the first month's
      interest, the balance never rises above its start and falls every month. */
  lemma {:induction false} BalanceFallsFromStart(balance: real, r: real, payment: real, k: nat)
    requires r >= 0.0 && payment > balance * r
    ensures Balance(balance, r, payment, k) <= balance
    ensures Balance(balance, r, payment, k + 1) < Balance(balance, r, payment, k)
  {
    if k > 0 {
      BalanceFallsFromStart(balance, r, payment, k - 1);
    }
    var b := Balance(balance, r, payment, k);
    assert b * r <= balance * r;
  }

  /** While a balance is owed, each simulated month reduces it, whatever the
      sign of the rate. */
  lemma BalanceFalls(balance: real, r: real, payment: real, k: nat)
    requires CanPayOff(balance, r, payment) && Balance(balance, r, payment, k) > 0.0
    ensures Balance(balance, r, payment, k + 1) < Balance(balance, r, payment, k)
  {
    if r >= 0.0 {
      BalanceFallsFromStart(balance, r, payment, k);
    } else {
      var b := Balance(balance, r, payment, k);
      assert b * r < 0.0;
    }
  }

  /** Every month in which a balance was owed reduced it. */
  lemma OwedMonthsFall(balance: real, r: real, payment: real, months: nat)
    requires CanPayOff(balance, r, payment)
    requires forall k :: 0 <= k < months ==> Balance(balance, r, payment, k) > 0.0
    ensures forall k :: 0 <= k < months ==>
              Balance(balance, r, payment, k + 1) < Balance(balance, r, payment, k)
  {
    forall k | 0 <= k < months
      ensures Balance(balance, r, payment, k + 1) < Balance(balance, r, payment, k)
    {
      BalanceFalls(balance, r, payment, k);
    }
  }

  /** The month-by-month loop, run once the payoff condition holds: it stops
      at the first month that leaves nothing owed, or at `MaxMonths`. */
  method Simulate(balance: real, r: real, payment: real)
    returns (months: nat, totalInterest: real, remaining: real)
    requires CanPayOff(balance, r, payment)
    ensures 1 <= months <= MaxMonths
    ensures remaining == Balance(balance, r, payment, months)
    ensures totalInterest == InterestPaid(balance, r, payment, months)
    ensures forall k :: 0 <= k < months ==> Balance(balance, r, payment, k) > 0.0
    ensures months < MaxMonths ==> remaining <= 0.0
  {
    months := 0;
    remaining := balance;
    totalInterest := 0.0;
    while remaining > 0.0 && months < MaxMonths
      invariant months <= MaxMonths
      invariant remaining == Balance(balance, r, payment, months)
      invariant totalInterest == InterestPaid(balance, r, payment, months)
      invariant forall k :: 0 <= k < months ==> Balance(balance, r, payment, k) > 0.0
      invariant months == 0 ==> remaining > 0.0
      decreases MaxMonths - months
    {
      var interestPortion := remaining * r;
      var principalPortion := payment - interestPortion;
      remaining := remaining - principalPortion;
      totalInterest := totalInterest + interestPortion;
      months := months + 1;
    }
  }

  /** The payoff calculator. `months`, `years` and `totalInterest` are what
      it shows; `remaining` is the balance the simulation ends with. */
  method Payoff(balance: real, annualRatePercent: real, payment: real)
    returns (months: nat, years: real, totalInterest: real, remaining: real)
    ensures !CanPayOff(balance, MonthlyRate(annualRatePercent), payment) ==>
              months == 0 && totalInterest == 0.0 && remaining == balance
    ensures CanPayOff(balance, MonthlyRate(annualRatePercent), payment) ==>
              1 <= months <= MaxMonths
    ensures CanPayOff(balance, MonthlyRate(annualRatePercent), payment) ==>
              forall k :: 0 <= k < months ==>
                && Balance(balance, MonthlyRate(annualRatePercent), payment, k) > 0.0
                && Balance(balance, MonthlyRate(annualRatePercent), payment, k + 1)
                   < Balance(balance, MonthlyRate(annualRatePercent), payment, k)
    ensures CanPayOff(balance, MonthlyRate(annualRatePercent), payment) && months < MaxMonths ==>
              remaining <= 0.0
    ensures remaining == Balance(balance, MonthlyRate(annualRatePercent), payment, months)
    ensures totalInterest == InterestPaid(balance, MonthlyRate(annualRatePercent), payment, months)
    ensures totalInterest + (balance - remaining) == months as real * payment
    ensures years * 12.0 == months as real
  {
    var r := MonthlyRate(annualRatePercent);
    months, totalInterest, remaining := 0, 0.0, balance;
    if balance > 0.0 && payment > 0.0 && payment > balance * r {
      months, totalInterest, remaining := Simulate(balance, r, payment);
      OwedMonthsFall(balance, r, payment, months);
    }
    PaymentsSplit(balance, r, payment, months);
    years := months as real / 12.0;
  }

  /** At a non-negative rate the schedule falls strictly over any span of months. */
  lemma {:induction false} BalanceFallsBetween(balance: real, r: real, payment: real, j: nat, k: nat)
    requires r >= 0.0 && payment > balance * r && j < k
    ensures Balance(balance, r, payment, k) < Balance(balance, r, payment, j)
  {
    BalanceFallsFromStart(balance, r, payment, k - 1);
    if j < k - 1 {
      BalanceFallsBetween(balance, r, payment, j, k - 1);
    }
  }

  /** Paying a loan's own annuity payment at a non-negative rate, the payoff
      condition holds, some balance is owed before the last month, and the
      balance is exactly zero after `n` months. */
  lemma AnnuityScheduleEndsAtTerm(principal: real, r: real, n: nat)
    requires principal > 0.0 && r >= 0.0 && n > 0
    ensures Admissible(r, n)
    ensures CanPayOff(principal, r, AnnuityPayment(principal, r, n))
    ensures Balance(principal, r, AnnuityPayment(principal, r, n), n) == 0.0
    ensures forall k :: 0 <= k < n ==> Balance(principal, r, AnnuityPayment(principal, r, n), k) > 0.0
  {
    AdmissibleAboveMinusOne(r, n);
    var pmt := AnnuityPayment(principal, r, n);
    if r > 0.0 {
      PaymentExceedsInterest(principal, r, n);
    }
    ClearingPayment(principal, r, pmt, n);
    forall k | 0 <= k < n
      ensures Balance(principal, r, pmt, k) > 0.0
    {
      BalanceFallsBetween(principal, r, pmt, k, n);
    }
  }

  /** The simulator and the annuity rule agree: a loan of up to `MaxMonths`
      months paid at its annuity payment is reported paid off in exactly its
      term. */
  method AnnuityPaidOffInTerm(principal: real, annualRatePercent: real, n: nat)
    returns (months: nat)
    requires principal > 0.0 && annualRatePercent >= 0.0 && 0 < n <= MaxMonths
    ensures months == n
  {
    var r := MonthlyRate(annualRatePercent);
    AnnuityScheduleEndsAtTerm(principal, r, n);
    var years, interest, remaining;
    months, years, interest, remaining := Payoff(principal, annualRatePercent, AnnuityPayment(principal, r, n));
  }

  /** The cap can end the simulation with a balance still owed: $1,000 at 0%
      paid $1 a month satisfies the payoff condition, yet $400 remain after
      600 months. */
  lemma CapLeavesBalance()
    ensures CanPayOff(1000.0, 0.0, 1.0)
    ensures forall k :: 0 <= k < MaxMonths ==> Balance(1000.0, 0.0, 1.0, k) > 0.0
    ensures Balance(1000.0, 0.0, 1.0, MaxMonths) == 400.0
  {
    forall k: nat | k <= MaxMonths
      ensures Balance(1000.0, 0.0, 1.0, k) == 1000.0 - k as real
    {
      BalanceClosedForm(1000.0, 0.0, 1.0, k);
      PowOfOne(k);
      GrowthAtZeroRate(k);
    }
  }

  /** On that debt the calculator stops at the cap: it reports 600 months with
      $400 still owed and no interest. */
  method CapReportsFullTerm() returns (months: nat, totalInterest: real, remaining: real)
    ensures months == MaxMonths && remaining == 400.0 && totalInterest == 0.0
  {
    CapLeavesBalance();
    var years;
    months, years, totalInterest, remaining := Payoff(1000.0, 0.0, 1.0);
    assert MonthlyRate(0.0) == 0.0;
  }
}
