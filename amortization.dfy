/** Fixed-payment loan arithmetic shared by the auto-loan, mortgage, real-estate,
    debt-payoff and savings calculators, over exact reals.

    The calculators convert an annual percentage to a monthly rate `r`, raise
    `1 + r` to a whole number of months, and either compute the level payment
    that retires a principal (the annuity rule) or run the month-by-month
    balance recurrence. Both are defined here once, together with the facts
    that connect them. */
module Amortization {

  /** The monthly rate that every calculator derives from an annual
      percentage: twelve months of it make the annual rate, and it has the
      sign of the annual percentage. */
  function MonthlyRate(annualPercent: real): (r: real)
    ensures r * 1200.0 == annualPercent
    ensures r == 0.0 <==> annualPercent == 0.0
    ensures r >= 0.0 <==> annualPercent >= 0.0
    ensures r > -1.0 <==> annualPercent > -1200.0
  {
    annualPercent / 100.0 / 12.0
  }

  /** `x` to the power `n`: `Math.pow` with a whole-number exponent. */
  function Pow(x: real, n: nat): real
  {
    if n == 0 then 1.0 else x * Pow(x, n - 1)
  }

  lemma {:induction false} PowOfOne(n: nat)
    ensures Pow(1.0, n) == 1.0
  {
    if n > 0 {
      PowOfOne(n - 1);
    }
  }

  lemma {:induction false} PowPositive(x: real, n: nat)
    requires x > 0.0
    ensures Pow(x, n) > 0.0
  {
    if n > 0 {
      PowPositive(x, n - 1);
      assert x * Pow(x, n - 1) > 0.0;
    }
  }

  lemma {:induction false} PowAtLeastOne(x: real, n: nat)
    requires x >= 1.0
    ensures Pow(x, n) >= 1.0
  {
    if n > 0 {
      PowAtLeastOne(x, n - 1);
      var p := Pow(x, n - 1);
      assert x * p >= 1.0 * p;
    }
  }

  lemma {:induction false} PowAboveOne(x: real, n: nat)
    requires x > 1.0 && n > 0
    ensures Pow(x, n) > 1.0
  {
    var p := Pow(x, n - 1);
    PowAtLeastOne(x, n - 1);
    assert x * p > 1.0 * p;
  }

  lemma {:induction false} PowBelowOne(x: real, n: nat)
    requires 0.0 < x < 1.0 && n > 0
    ensures Pow(x, n) < 1.0
  {
    var p := Pow(x, n - 1);
    PowPositive(x, n - 1);
    if n > 1 {
      PowBelowOne(x, n - 1);
    }
    assert p <= 1.0;
    assert x * p < 1.0 * p;
  }

  /** Value, after `n` months at monthly rate `r`, of depositing 1 at the end of
      every month: the accumulation factor of an ordinary annuity. */
  function Growth(r: real, n: nat): real
  {
    if n == 0 then 0.0 else Growth(r, n - 1) * (1.0 + r) + 1.0
  }

  /** The closed form the calculators use: Growth * r == (1 + r)^n - 1. */
  lemma {:induction false} GrowthTimesRate(r: real, n: nat)
    ensures Growth(r, n) * r == Pow(1.0 + r, n) - 1.0
  {
    if n > 0 {
      GrowthTimesRate(r, n - 1);
      var g, q := Growth(r, n - 1), Pow(1.0 + r, n - 1);
      calc {
        Growth(r, n) * r;
        (g * (1.0 + r) + 1.0) * r;
        (g * r) * (1.0 + r) + r;
        (q - 1.0) * (1.0 + r) + r;
        (1.0 + r) * q - 1.0;
      }
    }
  }

  lemma {:induction false} GrowthAtZeroRate(n: nat)
    ensures Growth(0.0, n) == n as real
  {
    if n > 0 {
      GrowthAtZeroRate(n - 1);
    }
  }

  /** One month of `GrowthBounds`, over plain numbers: m <= g <= m q gives
      m + 1 <= g (1 + r) + 1 <= (m + 1) q1 when q1 == (1 + r) q >= 1. */
  lemma GrowthStepBounds(m: real, r: real, g: real, q: real, q1: real)
    requires r >= 0.0 && 0.0 <= m <= g <= m * q && q1 == (1.0 + r) * q && q1 >= 1.0
    ensures m + 1.0 <= g * (1.0 + r) + 1.0 <= (m + 1.0) * q1
  {
    assert g * (1.0 + r) >= g;
    assert g * (1.0 + r) <= (m * q) * (1.0 + r);
  }

  /** For a non-negative rate: n <= Growth(r, n) <= n * (1 + r)^n. */
  lemma {:induction false} GrowthBounds(r: real, n: nat)
    requires r >= 0.0
    ensures n as real <= Growth(r, n) <= n as real * Pow(1.0 + r, n)
  {
    if n > 0 {
      GrowthBounds(r, n - 1);
      PowAtLeastOne(1.0 + r, n);
      GrowthStepBounds((n - 1) as real, r, Growth(r, n - 1), Pow(1.0 + r, n - 1), Pow(1.0 + r, n));
    }
  }

  /** For a non-negative rate, Growth never decreases as months are added. */
  lemma {:induction false} GrowthMonotone(r: real, j: nat, k: nat)
    requires r >= 0.0 && j <= k
    ensures Growth(r, j) <= Growth(r, k)
  {
    if j < k {
      GrowthMonotone(r, j, k - 1);
      GrowthBounds(r, k - 1);
      var g := Growth(r, k - 1);
      assert g * (1.0 + r) >= g;
    }
  }

  /** Balance of a loan of `principal` after `k` monthly payments of `pmt` at
      monthly rate `r`: each month the interest `b * r` accrues and the part of
      the payment left after interest reduces the balance. */
  function Balance(principal: real, r: real, pmt: real, k: nat): real
  {
    if k == 0 then principal
    else
      var b := Balance(principal, r, pmt, k - 1);
      b - (pmt - b * r)
  }

  /** Interest accrued over the first `k` months of that schedule. */
  function InterestPaid(principal: real, r: real, pmt: real, k: nat): real
  {
    if k == 0 then 0.0
    else InterestPaid(principal, r, pmt, k - 1) + Balance(principal, r, pmt, k - 1) * r
  }

  /** Every payment is split into interest and principal:
      interest so far + principal repaid so far == k payments. */
  lemma {:induction false} PaymentsSplit(principal: real, r: real, pmt: real, k: nat)
    ensures InterestPaid(principal, r, pmt, k) + (principal - Balance(principal, r, pmt, k))
            == k as real * pmt
  {
    if k > 0 {
      PaymentsSplit(principal, r, pmt, k - 1);
    }
  }

  /** The ring identity behind one month of the closed form. */
  lemma ClosedFormStep(principal: real, r: real, pmt: real, q: real, g: real)
    ensures var b := principal * q - pmt * g;
            b - (pmt - b * r) == principal * (q * (1.0 + r)) - pmt * (g * (1.0 + r) + 1.0)
  {
  }

  /** Closed form of the schedule: B_k == P (1 + r)^k - pmt * Growth(r, k). */
  lemma {:induction false} BalanceClosedForm(principal: real, r: real, pmt: real, k: nat)
    ensures Balance(principal, r, pmt, k)
            == principal * Pow(1.0 + r, k) - pmt * Growth(r, k)
  {
    if k > 0 {
      BalanceClosedForm(principal, r, pmt, k - 1);
      ClosedFormStep(principal, r, pmt, Pow(1.0 + r, k - 1), Growth(r, k - 1));
    }
  }

  /** A rate for which the annuity rule is defined in exact arithmetic: the
      rate is zero, or (1 + r)^n is neither 0 (which would make (1 + r)^-n
      undefined) nor 1 (which would make the divisor 1 - (1 + r)^-n zero). */
  predicate Admissible(r: real, n: nat)
  {
    r == 0.0 || (Pow(1.0 + r, n) != 0.0 && Pow(1.0 + r, n) != 1.0)
  }

  /** Every rate above -100% a month is admissible for a positive term. */
  lemma AdmissibleAboveMinusOne(r: real, n: nat)
    requires r > -1.0 && n > 0
    ensures Admissible(r, n)
  {
    if r > 0.0 {
      PowAboveOne(1.0 + r, n);
    } else if r < 0.0 {
      PowPositive(1.0 + r, n);
      PowBelowOne(1.0 + r, n);
    }
  }

  /** The level monthly payment on `principal` over `n` months: `P / n` at a
      zero rate, otherwise `P * (r / (1 - (1 + r)^-n))`. It has no guard on the
      principal; `GuardedPayment` adds the one the auto-loan and mortgage
      calculators apply. */
  function AnnuityPayment(principal: real, r: real, n: nat): (a: real)
    requires n > 0 && Admissible(r, n)
    ensures principal == 0.0 ==> a == 0.0
    ensures r == 0.0 ==> a * n as real == principal
  {
    if r == 0.0 then principal / n as real
    else
      var q := Pow(1.0 + r, n);
      assert 1.0 / q != 1.0;
      principal * (r / (1.0 - 1.0 / q))
  }

  /** The division identity behind the annuity rule: if g * r == q - 1 then
      r / (1 - 1/q) is the payment per unit of principal that g * payment == q. */
  lemma AnnuityAlgebra(principal: real, r: real, q: real, g: real)
    requires r != 0.0 && q != 0.0 && q != 1.0 && g * r == q - 1.0
    ensures 1.0 - 1.0 / q != 0.0
    ensures principal * (r / (1.0 - 1.0 / q)) * g == principal * q
  {
  }

  /** The payment times the accumulation factor equals the principal grown for n months. */
  lemma PaymentTimesGrowth(principal: real, r: real, n: nat)
    requires n > 0 && Admissible(r, n)
    ensures AnnuityPayment(principal, r, n) * Growth(r, n) == principal * Pow(1.0 + r, n)
    ensures Growth(r, n) != 0.0
  {
    var q, g := Pow(1.0 + r, n), Growth(r, n);
    if r == 0.0 {
      assert g == n as real by { GrowthAtZeroRate(n); }
      assert q == 1.0 by { PowOfOne(n); }
      assert principal / n as real * n as real == principal;
    } else {
      assert g * r == q - 1.0 by { GrowthTimesRate(r, n); }
      AnnuityAlgebra(principal, r, q, g);
    }
  }

  /** Cancelling a nonzero factor: if b == P q - pmt g and a g == P q, then
      b is zero exactly when pmt == a. */
  lemma CancelGrowth(b: real, principal: real, q: real, pmt: real, a: real, g: real)
    requires b == principal * q - pmt * g && a * g == principal * q && g != 0.0
    ensures b == 0.0 <==> pmt == a
  {
    assert b == (a - pmt) * g;
  }

  /** A level payment `a` with a * Growth(r, n) == P * (1 + r)^n is the only
      payment that leaves nothing owed after n months. */
  lemma LevelPaymentClears(principal: real, r: real, pmt: real, n: nat, a: real)
    requires a * Growth(r, n) == principal * Pow(1.0 + r, n) && Growth(r, n) != 0.0
    ensures Balance(principal, r, pmt, n) == 0.0 <==> pmt == a
  {
    BalanceClosedForm(principal, r, pmt, n);
    CancelGrowth(Balance(principal, r, pmt, n), principal, Pow(1.0 + r, n), pmt, a, Growth(r, n));
  }

  /** The annuity rule is exactly the level payment that retires the loan:
      after n payments of `pmt` the balance is zero if and only if `pmt` is
      the annuity payment. */
  lemma ClearingPayment(principal: real, r: real, pmt: real, n: nat)
    requires n > 0 && Admissible(r, n)
    ensures Balance(principal, r, pmt, n) == 0.0 <==> pmt == AnnuityPayment(principal, r, n)
  {
    PaymentTimesGrowth(principal, r, n);
    LevelPaymentClears(principal, r, pmt, n, AnnuityPayment(principal, r, n));
  }

  /** The order facts behind `RepaidAtLeastPrincipal`, over plain numbers. */
  lemma RepaidAlgebra(principal: real, pmt: real, n: real, q: real, g: real)
    requires principal >= 0.0 && q >= 1.0 && 0.0 < g <= n * q && pmt * g == principal * q
    ensures pmt * n >= principal
  {
  }

  /** At a non-negative rate, any level payment that grows into the principal's
      future value adds up to at least the principal over the term. */
  lemma LevelPaymentCovers(principal: real, r: real, n: nat, pmt: real)
    requires n > 0 && r >= 0.0 && principal >= 0.0
    requires pmt * Growth(r, n) == principal * Pow(1.0 + r, n)
    ensures pmt * n as real >= principal
  {
    GrowthBounds(r, n);
    PowAtLeastOne(1.0 + r, n);
    RepaidAlgebra(principal, pmt, n as real, Pow(1.0 + r, n), Growth(r, n));
  }

  /** At a non-negative rate a non-negative principal never costs less than
      itself: n payments add up to at least the principal. */
  lemma RepaidAtLeastPrincipal(principal: real, r: real, n: nat)
    requires n > 0 && r >= 0.0 && principal >= 0.0
    ensures Admissible(r, n) && AnnuityPayment(principal, r, n) * n as real >= principal
  {
    AdmissibleAboveMinusOne(r, n);
    PaymentTimesGrowth(principal, r, n);
    LevelPaymentCovers(principal, r, n, AnnuityPayment(principal, r, n));
  }

  /** At a positive rate the payment exceeds the first month's interest, so
      the balance falls from the first payment on. */
  lemma PaymentExceedsInterest(principal: real, r: real, n: nat)
    requires n > 0 && r > 0.0 && principal > 0.0
    ensures Admissible(r, n) && AnnuityPayment(principal, r, n) > principal * r
  {
    AdmissibleAboveMinusOne(r, n);
    var q := Pow(1.0 + r, n);
    PowAboveOne(1.0 + r, n);
    assert 1.0 - 1.0 / q == (q - 1.0) / q;
    assert 0.0 < (q - 1.0) / q < 1.0;
    assert r / ((q - 1.0) / q) > r;
  }

  /** The auto-loan and mortgage form of the rule: 0 unless the principal and
      the number of months are both positive. */
  function GuardedPayment(principal: real, r: real, n: int): (pmt: real)
    requires principal > 0.0 && n > 0 ==> Admissible(r, n)
    ensures principal <= 0.0 || n <= 0 ==> pmt == 0.0
    ensures principal > 0.0 && n > 0 ==> Balance(principal, r, pmt, n) == 0.0
    ensures principal > 0.0 && n > 0 && r == 0.0 ==> pmt * n as real == principal
  {
    if principal > 0.0 && n > 0 then
      ClearingPayment(principal, r, AnnuityPayment(principal, r, n), n);
      AnnuityPayment(principal, r, n)
    else 0.0
  }
}
