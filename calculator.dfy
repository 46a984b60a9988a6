/** The three calculators of the calculator page: zakat, investment
    projection and fixed-installment financing. Form fields arrive parsed;
    `None` is a field whose text did not parse (NaN). */
module Calculator {
  import opened Common
  import opened Annuity

  /** The nisab threshold in RM and the zakat rate of 2.5%. */
  const Nisab: real := 4000.0
  const ZakatRate: real := 0.025

  datatype ZakatForm = ZakatForm(cash: Option<real>, savings: Option<real>,
                                 investments: Option<real>, gold: Option<real>,
                                 debts: Option<real>)

  /** Cash, savings, investments and gold, less debts; a field that does not
      parse counts as 0. */
  function NetWealth(z: ZakatForm): real
  {
    OrDefault(z.cash, 0.0) + OrDefault(z.savings, 0.0) + OrDefault(z.investments, 0.0)
      + OrDefault(z.gold, 0.0) - OrDefault(z.debts, 0.0)
  }

  /** The zakat due, before formatting to two decimals. */
  function Zakat(z: ZakatForm): (due: real)
    ensures due == 0.0 <==> NetWealth(z) < Nisab
    ensures due != 0.0 ==> due == NetWealth(z) * ZakatRate && due >= 100.0
    ensures 0.0 <= due
  {
    var wealth := NetWealth(z);
    if wealth >= Nisab then wealth * ZakatRate else 0.0
  }

  /** A form with every field left empty. */
  const EmptyForm := ZakatForm(None, None, None, None, None)

  /** Boundary cases: exactly the nisab gives 100, just below gives 0, and
      debts that pull the net wealth under the nisab cancel the zakat. */
  lemma ZakatBoundaries()
    ensures Zakat(EmptyForm.(cash := Some(4000.0))) == 100.0
    ensures Zakat(EmptyForm.(cash := Some(3999.99))) == 0.0
    ensures Zakat(EmptyForm.(cash := Some(5000.0), debts := Some(1500.0))) == 0.0
    ensures Zakat(EmptyForm) == 0.0
  {
  }

  /** More of any asset never lowers the zakat; more debt never raises it. */
  lemma ZakatMonotone(z: ZakatForm, cash: real, savings: real, investments: real,
                      gold: real, debts: real)
    requires cash >= 0.0 && savings >= 0.0 && investments >= 0.0 && gold >= 0.0 && debts >= 0.0
    ensures Zakat(z) <= Zakat(ZakatForm(Some(OrDefault(z.cash, 0.0) + cash),
                                        Some(OrDefault(z.savings, 0.0) + savings),
                                        Some(OrDefault(z.investments, 0.0) + investments),
                                        Some(OrDefault(z.gold, 0.0) + gold),
                                        z.debts))
    ensures Zakat(ZakatForm(z.cash, z.savings, z.investments, z.gold,
                            Some(OrDefault(z.debts, 0.0) + debts))) <= Zakat(z)
  {
    var grown := ZakatForm(Some(OrDefault(z.cash, 0.0) + cash),
                           Some(OrDefault(z.savings, 0.0) + savings),
                           Some(OrDefault(z.investments, 0.0) + investments),
                           Some(OrDefault(z.gold, 0.0) + gold),
                           z.debts);
    assert NetWealth(z) + cash + savings + investments + gold == NetWealth(grown);
    ZakatGrowsWithWealth(z, grown);
    var indebted := ZakatForm(z.cash, z.savings, z.investments, z.gold,
                              Some(OrDefault(z.debts, 0.0) + debts));
    assert NetWealth(indebted) == NetWealth(z) - debts;
    ZakatGrowsWithWealth(indebted, z);
  }

  lemma ZakatGrowsWithWealth(a: ZakatForm, b: ZakatForm)
    requires NetWealth(a) <= NetWealth(b)
    ensures Zakat(a) <= Zakat(b)
  {
  }

  /** Future value and return of the investment projection. */
  datatype Projection = Projection(futureValue: real, totalReturn: real)

  /** The number of years used: an empty or unparseable period counts as 0. */
  function YearsOrZero(years: Option<nat>): nat
  {
    match years case None => 0 case Some(y) => y
  }

  /** `principal * (1 + rate)^years`. An unparseable amount or period counts
      as 0. An unparseable rate makes the base NaN, and so both figures,
      except over 0 years: NaN to the power 0 is 1, so the principal comes
      back with no return. */
  function CalculateInvestment(amount: Option<real>, ratePercent: Option<real>, years: Option<nat>)
    : (r: Option<Projection>)
    ensures r.Some? <==> ratePercent.Some? || YearsOrZero(years) == 0
    ensures r.Some? ==> r.value.totalReturn == r.value.futureValue - OrDefault(amount, 0.0)
    ensures r.Some? && ratePercent.Some? ==>
              r.value.futureValue == OrDefault(amount, 0.0) * Pow(1.0 + ratePercent.value / 100.0, YearsOrZero(years))
    ensures YearsOrZero(years) == 0 ==>
              r == Some(Projection(OrDefault(amount, 0.0), 0.0))
  {
    var principal := OrDefault(amount, 0.0);
    var n := YearsOrZero(years);
    match ratePercent
    case None =>
      if n == 0 then Some(Projection(principal, 0.0)) else None
    case Some(pct) =>
      var fv := principal * Pow(1.0 + pct / 100.0, n);
      Some(Projection(fv, fv - principal))
  }

  /** A non-negative amount at a non-negative rate never loses value. */
  lemma InvestmentReturnNonNegative(amount: real, ratePercent: real, years: nat)
    requires amount >= 0.0 && ratePercent >= 0.0
    ensures CalculateInvestment(Some(amount), Some(ratePercent), Some(years)).value.totalReturn >= 0.0
  {
    var g := Pow(1.0 + ratePercent / 100.0, years);
    PowAtLeastOne(1.0 + ratePercent / 100.0, years);
    ScaleKeepsOrder(amount, 1.0, g);
  }

  /** RM1000 at 5.5% for five years grows to exactly 1306.960006409375. */
  lemma InvestmentExample()
    ensures CalculateInvestment(Some(1000.0), Some(5.5), Some(5)).value.futureValue == 1306.960006409375
  {
    assert Pow(1.055, 5) == 1.306960006409375 by {
      assert Pow(1.055, 1) == 1.055;
      assert Pow(1.055, 2) == 1.113025;
      assert Pow(1.055, 3) == 1.174241375;
      assert Pow(1.055, 4) == 1.238824650625;
    }
  }

  /** The financing calculator: the term is entered in years and turned into
      months, the profit rate is annual. An unparseable amount counts as 0,
      an unparseable rate or term gives NaN (None), and so does a rate or
      term for which the annuity formula divides by zero. */
  function CalculateFinancing(amount: Option<real>, ratePercent: Option<real>, termYears: Option<nat>)
    : (r: Option<Totals>)
    ensures r.Some? <==> ratePercent.Some? && termYears.Some?
                         && Defined(ratePercent.value / 100.0 / 12.0, termYears.value * 12)
    ensures r.Some? ==>
              && r.value.monthlyPayment
                 == Payment(OrDefault(amount, 0.0), ratePercent.value / 100.0 / 12.0, termYears.value * 12)
              && r.value.totalPayment == r.value.monthlyPayment * ((termYears.value * 12) as real)
              && r.value.totalProfit == r.value.totalPayment - OrDefault(amount, 0.0)
  {
    if ratePercent.None? || termYears.None? then None
    else
      var principal := OrDefault(amount, 0.0);
      var rate := ratePercent.value / 100.0 / 12.0;
      var months: nat := termYears.value * 12;
      if !Defined(rate, months) then None
      else
        var payment := Payment(principal, rate, months);
        var total := payment * (months as real);
        Some(Totals(payment, total, total - principal))
  }

  /** A rate of 0% has no result: the formula is 0/0. */
  lemma FinancingZeroRate(amount: Option<real>, termYears: Option<nat>)
    ensures CalculateFinancing(amount, Some(0.0), termYears).None?
  {
    if termYears.Some? {
      ZeroRateUndefined(termYears.value * 12);
    }
  }

  /** For a positive amount, rate and term the calculator always has a
      result: the installments clear the loan and the profit is positive. */
  lemma FinancingWellBehaved(amount: real, ratePercent: real, termYears: nat)
    requires amount > 0.0 && ratePercent > 0.0 && termYears >= 1
    ensures CalculateFinancing(Some(amount), Some(ratePercent), Some(termYears)).Some?
    ensures var t := CalculateFinancing(Some(amount), Some(ratePercent), Some(termYears)).value;
            && t.monthlyPayment > 0.0 && t.totalProfit > 0.0
            && Balance(amount, 1.0 + ratePercent / 100.0 / 12.0, t.monthlyPayment, termYears * 12) == 0.0
  {
    var rate := ratePercent / 100.0 / 12.0;
    var months: nat := termYears * 12;
    PaymentPositive(amount, rate, months);
    PaymentCoversPrincipal(amount, rate, months);
    PaymentRepaysLoan(amount, rate, months);
  }
}
