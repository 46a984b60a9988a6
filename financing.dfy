/** The financing-application store: the monthly payment it computes for a
    new application and the values it writes for it. */
module FinancingStore {
  import opened Common
  import opened Annuity

  /** The store's payment helper before its rounding to two decimals:
      the annual rate is a percentage, made monthly as rate / 100 / 12.
      None where the formula divides by zero (NaN or Infinity). */
  function MonthlyPayment(principal: real, annualRate: real, termMonths: nat): (r: Option<real>)
    ensures r.Some? <==> Defined(annualRate / 100.0 / 12.0, termMonths)
    ensures r.Some? ==> r.value == Payment(principal, annualRate / 100.0 / 12.0, termMonths)
  {
    var monthlyRate := annualRate / 100.0 / 12.0;
    if Defined(monthlyRate, termMonths) then Some(Payment(principal, monthlyRate, termMonths)) else None
  }

  /** For a positive principal, rate and term the payment exists, is
      positive, repays the loan over the term and in total exceeds the
      principal. */
  lemma MonthlyPaymentWellBehaved(principal: real, annualRate: real, termMonths: nat)
    requires principal > 0.0 && annualRate > 0.0 && termMonths >= 1
    ensures MonthlyPayment(principal, annualRate, termMonths).Some?
    ensures var pay := MonthlyPayment(principal, annualRate, termMonths).value;
            && pay > 0.0
            && pay * (termMonths as real) > principal
            && Balance(principal, 1.0 + annualRate / 1200.0, pay, termMonths) == 0.0
  {
    var rate := annualRate / 100.0 / 12.0;
    assert rate == annualRate / 1200.0;
    PaymentPositive(principal, rate, termMonths);
    PaymentCoversPrincipal(principal, rate, termMonths);
    PaymentRepaysLoan(principal, rate, termMonths);
  }

  /** Over one month the payment is the principal plus one month's profit. */
  lemma OneMonthTerm(principal: real, annualRate: real)
    requires annualRate != 0.0
    ensures MonthlyPayment(principal, annualRate, 1) == Some(principal * (1.0 + annualRate / 1200.0))
  {
    var rate := annualRate / 100.0 / 12.0;
    assert rate == annualRate / 1200.0 && rate != 0.0;
    OneMonthPayment(principal, rate);
    assert MonthlyPayment(principal, annualRate, 1) == Some(Payment(principal, rate, 1));
    assert Payment(principal, rate, 1) == principal * (1.0 + rate);
    assert principal * (1.0 + rate) == principal * (1.0 + annualRate / 1200.0);
  }

  /** What a client submits for a new application. */
  datatype ApplicationInput = ApplicationInput(
    userId: string, financingType: string, amount: real, termMonths: nat,
    profitRate: real, purpose: Option<string>, takafulIncluded: bool,
    shariahContractType: string)

  /** The nine values inserted as a new application row. */
  datatype ApplicationRow = ApplicationRow(
    userId: string, financingType: string, amount: real, termMonths: nat,
    profitRate: real, purpose: Option<string>, monthlyPayment: Option<real>,
    takafulIncluded: bool, shariahContractType: string)

  /** The row a new application is stored as: the monthly payment is the
      helper's result for its own amount, rate and term, and a missing or
      empty purpose is stored as null (`|| null`). */
  function NewApplicationRow(a: ApplicationInput): (row: ApplicationRow)
    ensures row.monthlyPayment == MonthlyPayment(a.amount, a.profitRate, a.termMonths)
    ensures row.purpose.None? <==> a.purpose.None? || a.purpose == Some("")
    ensures row.purpose.Some? ==> row.purpose == a.purpose
    ensures row.userId == a.userId && row.amount == a.amount && row.termMonths == a.termMonths
            && row.profitRate == a.profitRate && row.financingType == a.financingType
            && row.takafulIncluded == a.takafulIncluded
            && row.shariahContractType == a.shariahContractType
  {
    ApplicationRow(
      a.userId, a.financingType, a.amount, a.termMonths, a.profitRate,
      if a.purpose.Some? && a.purpose.value != "" then a.purpose else None,
      MonthlyPayment(a.amount, a.profitRate, a.termMonths),
      a.takafulIncluded, a.shariahContractType)
  }
}
