/** The fixed-installment (annuity) formula that the calculator page, the
    financing store and the personal-financing page each compute. */
module Annuity {
  import opened Common

  /** What a financing screen shows: the installment, the sum of all
      installments and the profit above the principal. */
  datatype Totals = Totals(monthlyPayment: real, totalPayment: real, totalProfit: real)

  /** The formula divides by (1 + r)^n - 1; where that is 0 the source
      produces NaN or Infinity instead of a payment. */
  predicate Defined(r: real, n: nat)
  {
    Pow(1.0 + r, n) != 1.0
  }

  /** principal * r * (1 + r)^n / ((1 + r)^n - 1), before any rounding. */
  function Payment(principal: real, r: real, n: nat): (pay: real)
    requires Defined(r, n)
    ensures pay * (Pow(1.0 + r, n) - 1.0) == principal * r * Pow(1.0 + r, n)
  {
    principal * r * Pow(1.0 + r, n) / (Pow(1.0 + r, n) - 1.0)
  }

  /** The balance still owed after k installments of `pay`, each month first
      growing by the factor x = 1 + r: the schedule the payment must clear. */
  function Balance(principal: real, x: real, pay: real, k: nat): real
    decreases k
  {
    if k == 0 then principal else Balance(principal, x, pay, k - 1) * x - pay
  }

  /** A zero rate leaves the formula at 0/0: the source guards nothing. */
  lemma ZeroRateUndefined(n: nat)
    ensures !Defined(0.0, n)
  {
    PowOfOne(n);
  }

  lemma PositiveRateDefined(r: real, n: nat)
    requires r > 0.0 && n >= 1
    ensures Defined(r, n) && Pow(1.0 + r, n) > 1.0
  {
    PowAtLeastOne(1.0 + r, n);
  }

  lemma {:induction false} BalanceClosedForm(principal: real, x: real, pay: real, k: nat)
    ensures Balance(principal, x, pay, k) == principal * Pow(x, k) - pay * GeomSum(x, k)
  {
    if k > 0 {
      BalanceClosedForm(principal, x, pay, k - 1);
      Regroup(principal, pay, Pow(x, k - 1), GeomSum(x, k - 1), x);
    }
  }

  /** One month of the schedule, as ring arithmetic on plain numbers. */
  lemma Regroup(principal: real, pay: real, g: real, s: real, x: real)
    ensures (principal * g - pay * s) * x - pay == principal * (x * g) - pay * (x * s + 1.0)
  {
  }

  /** Before rounding, the payment satisfies
      payment * ((1 + r)^n - 1) == principal * r * (1 + r)^n, and, dividing
      out r, the n payments grown to the end of the term equal the principal
      grown over the term. */
  lemma PaymentEquation(principal: real, r: real, n: nat)
    requires r > 0.0 && n >= 1
    ensures Defined(r, n)
    ensures Payment(principal, r, n) * (Pow(1.0 + r, n) - 1.0) == principal * r * Pow(1.0 + r, n)
    ensures Payment(principal, r, n) * GeomSum(1.0 + r, n) == principal * Pow(1.0 + r, n)
  {
    PositiveRateDefined(r, n);
    var g, s := Pow(1.0 + r, n), GeomSum(1.0 + r, n);
    var pay := Payment(principal, r, n);
    assert pay * (g - 1.0) == principal * r * g;
    PowMinusOne(1.0 + r, n);
    assert g - 1.0 == r * s;
    assert r * (pay * s) == r * (principal * g);
  }

  /** The installment clears the loan: after n payments nothing is owed. */
  lemma PaymentRepaysLoan(principal: real, r: real, n: nat)
    requires r > 0.0 && n >= 1
    ensures Defined(r, n) && Balance(principal, 1.0 + r, Payment(principal, r, n), n) == 0.0
  {
    PaymentEquation(principal, r, n);
    BalanceClosedForm(principal, 1.0 + r, Payment(principal, r, n), n);
  }

  /** A positive principal at a positive rate gives a positive installment. */
  lemma PaymentPositive(principal: real, r: real, n: nat)
    requires principal > 0.0 && r > 0.0 && n >= 1
    ensures Defined(r, n) && Payment(principal, r, n) > 0.0
  {
    PositiveRateDefined(r, n);
    var g := Pow(1.0 + r, n);
    ScaleKeepsSign(principal, r);
    ScaleKeepsSign(principal * r, g);
    ScaleKeepsSign(principal * r * g, 1.0 / (g - 1.0));
  }

  /** With a positive rate the n installments add up to more than the
      principal: the total repayment covers it and the profit is positive. */
  lemma PaymentCoversPrincipal(principal: real, r: real, n: nat)
    requires principal > 0.0 && r > 0.0 && n >= 1
    ensures Defined(r, n) && Payment(principal, r, n) * (n as real) > principal
  {
    var pay, s, g := PaymentTimesSum(principal, r, n);
    PaymentPositive(principal, r, n);
    GeomSumBelow(1.0 + r, n);
    PowAtLeastOne(1.0 + r, n);
    CoveredBySum(pay, s, g, principal, n as real);
  }

  /** From pay * s == principal * g and s < m * g, with pay and g positive,
      m installments exceed the principal. */
  lemma CoveredBySum(pay: real, s: real, g: real, principal: real, m: real)
    requires pay > 0.0 && g > 0.0
    requires pay * s == principal * g && s < m * g
    ensures pay * m > principal
  {
    ScaleKeepsSign(pay, m * g - s);
    assert pay * s < pay * (m * g);
    assert principal * g < (pay * m) * g;
    if pay * m <= principal {
      ScaleKeepsOrder(g, pay * m, principal);
      assert false;
    }
  }

  /** A higher rate means a higher installment, for the same principal and
      term. */
  lemma PaymentIncreasesWithRate(principal: real, r: real, r': real, n: nat)
    requires principal > 0.0 && 0.0 < r < r' && n >= 1
    ensures Defined(r, n) && Defined(r', n)
    ensures Payment(principal, r, n) < Payment(principal, r', n)
  {
    var pay, sx, px := PaymentTimesSum(principal, r, n);
    var pay', sy, py := PaymentTimesSum(principal, r', n);
    CrossGeomSum(1.0 + r, 1.0 + r', n);
    CrossMultiplied(pay, sx, px, pay', sy, py, principal);
  }

  /** The geometric-sum form of the payment equation on its own. */
  lemma PaymentTimesSum(principal: real, r: real, n: nat) returns (pay: real, s: real, g: real)
    requires r > 0.0 && n >= 1
    ensures Defined(r, n) && pay == Payment(principal, r, n)
    ensures s == GeomSum(1.0 + r, n) && g == Pow(1.0 + r, n)
    ensures s >= 1.0 && pay * s == principal * g
  {
    PaymentEquation(principal, r, n);
    GeomSumBelow(1.0 + r, n);
    pay, s, g := Payment(principal, r, n), GeomSum(1.0 + r, n), Pow(1.0 + r, n);
  }

  /** From pay * sx == k * px and pay' * sy == k * py, with k > 0 and the
      cross products ordered, pay < pay'. */
  lemma CrossMultiplied(pay: real, sx: real, px: real, pay': real, sy: real, py: real, k: real)
    requires sx > 0.0 && sy > 0.0 && k > 0.0
    requires pay * sx == k * px
    requires pay' * sy == k * py
    requires px * sy < py * sx
    ensures pay < pay'
  {
    ScaleKeepsSign(k, py * sx - px * sy);
    assert k * (px * sy) < k * (py * sx);
    assert (pay * sx) * sy == k * (px * sy);
    assert (pay' * sy) * sx == k * (py * sx);
    assert (sx * sy) * pay' == (pay' * sy) * sx;
    assert (sx * sy) * pay == (pay * sx) * sy;
    ScaleKeepsSign(sx, sy);
    if pay' <= pay {
      ScaleKeepsOrder(sx * sy, pay', pay);
      assert false;
    }
  }

  /** Over a single month the installment is the principal plus one month's profit. */
  lemma OneMonthPayment(principal: real, r: real)
    requires r != 0.0
    ensures Defined(r, 1) && Payment(principal, r, 1) == principal * (1.0 + r)
  {
    assert Pow(1.0 + r, 1) == (1.0 + r) * Pow(1.0 + r, 0) == 1.0 + r;
  }
}
