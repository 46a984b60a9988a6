/** The personal-financing page: its live payment preview and form state. */
module PersonalFinancing {
  import opened Common
  import opened Annuity
  import FinancingStore

  /** The page's fixed profit rate: 6.5% a year, applied monthly. */
  const AnnualRatePercent: real := 6.5
  const MonthlyRate: real := AnnualRatePercent / 100.0 / 12.0

  /** The term used when the field is empty, unparseable or 0. */
  const DefaultTermMonths: int := 12

  /** The preview installment. `amount` is the parsed amount field and
      `termMonths` the integer parsed from the term field. */
  function MonthlyPreview(amount: Option<real>, termMonths: Option<int>): (pay: real)
    ensures OrDefault(amount, 0.0) <= 0.0 ==> pay == 0.0
    ensures IntOrDefault(termMonths, DefaultTermMonths) <= 0 ==> pay == 0.0
    ensures OrDefault(amount, 0.0) > 0.0 && IntOrDefault(termMonths, DefaultTermMonths) > 0 ==>
              Defined(MonthlyRate, IntOrDefault(termMonths, DefaultTermMonths) as nat)
              && pay == Payment(OrDefault(amount, 0.0), MonthlyRate,
                                IntOrDefault(termMonths, DefaultTermMonths) as nat)
              && pay > 0.0
  {
    var principal := OrDefault(amount, 0.0);
    var months := IntOrDefault(termMonths, DefaultTermMonths);
    if principal > 0.0 && months > 0 then
      PaymentPositive(principal, MonthlyRate, months as nat);
      Payment(principal, MonthlyRate, months as nat)
    else 0.0
  }

  /** The preview's three figures; the total multiplies by the same
      defaulted term, the profit subtracts the defaulted amount. */
  function Preview(amount: Option<real>, termMonths: Option<int>): (t: Totals)
    ensures t.monthlyPayment == MonthlyPreview(amount, termMonths)
    ensures t.totalPayment
            == t.monthlyPayment * (IntOrDefault(termMonths, DefaultTermMonths) as real)
    ensures t.totalProfit == t.totalPayment - OrDefault(amount, 0.0)
  {
    var pay := MonthlyPreview(amount, termMonths);
    var total := pay * (IntOrDefault(termMonths, DefaultTermMonths) as real);
    Totals(pay, total, total - OrDefault(amount, 0.0))
  }

  /** An empty term and a term of 0 both mean twelve months. */
  lemma EmptyOrZeroTermIsTwelve(amount: Option<real>)
    ensures Preview(amount, None) == Preview(amount, Some(0)) == Preview(amount, Some(12))
  {
  }

  /** With an empty or unparseable amount everything shown is 0. */
  lemma EmptyAmountShowsZero(termMonths: Option<int>)
    ensures Preview(None, termMonths) == Totals(0.0, 0.0, 0.0)
  {
  }

  /** For a positive amount and term the preview installments clear the
      loan, and the profit shown is positive. */
  lemma PreviewRepaysLoan(amount: real, termMonths: int)
    requires amount > 0.0 && termMonths > 0
    ensures var t := Preview(Some(amount), Some(termMonths));
            && Balance(amount, 1.0 + MonthlyRate, t.monthlyPayment, termMonths as nat) == 0.0
            && t.totalProfit > 0.0
  {
    PaymentRepaysLoan(amount, MonthlyRate, termMonths as nat);
    PaymentCoversPrincipal(amount, MonthlyRate, termMonths as nat);
  }

  /** The preview is the payment the financing store computes for an
      application at 6.5% over the same term, before the store rounds it. */
  lemma PreviewMatchesStoredPayment(amount: real, termMonths: int)
    requires amount > 0.0 && termMonths > 0
    ensures FinancingStore.MonthlyPayment(amount, AnnualRatePercent, termMonths as nat)
            == Some(MonthlyPreview(Some(amount), Some(termMonths)))
  {
  }

  /** The application form; every field holds the text typed into it. */
  datatype Field = Amount | TermMonths | Purpose | MonthlyIncome | EmploymentType | ExistingCommitments

  datatype FormData = FormData(amount: string, termMonths: string, purpose: string,
                               monthlyIncome: string, employmentType: string,
                               existingCommitments: string)

  const EmptyFormData := FormData("", "", "", "", "", "")

  function Get(f: FormData, field: Field): string
  {
    match field
    case Amount => f.amount
    case TermMonths => f.termMonths
    case Purpose => f.purpose
    case MonthlyIncome => f.monthlyIncome
    case EmploymentType => f.employmentType
    case ExistingCommitments => f.existingCommitments
  }

  /** Typing into one field replaces that field and keeps every other. */
  function InputChange(f: FormData, field: Field, value: string): (g: FormData)
    ensures Get(g, field) == value
    ensures forall other: Field :: other != field ==> Get(g, other) == Get(f, other)
  {
    match field
    case Amount => f.(amount := value)
    case TermMonths => f.(termMonths := value)
    case Purpose => f.(purpose := value)
    case MonthlyIncome => f.(monthlyIncome := value)
    case EmploymentType => f.(employmentType := value)
    case ExistingCommitments => f.(existingCommitments := value)
  }
}
