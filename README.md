# SalamWealth rules, modelled in Dafny

SalamWealth is an Islamic-finance web application. Under its pages and
database calls sit a handful of small, exact rules, and this project models
those rules and proves what they promise:

- **Islamic-finance arithmetic** (`calculator.dfy`, `annuity.dfy`,
  `financing.dfy`, `personal.dfy`, `asb.dfy`). This covers zakat on net wealth
  with a nisab of RM4000 and a rate of 2.5%, compound future value, and the
  fixed-installment (annuity) payment with its totals. It also covers ASB units,
  the projected dividend, the RM10 minimum and fund utilisation. The arithmetic
  is over exact `real`, with natural-number exponents.
- **Simulated integrations** (`credit.dfy`, `epf.dfy`, `mykad.dfy`). The credit
  score is derived from a character-code hash of the MyKad number, and so are
  its status bands and factor list. The simulated EPF account, its seven-day
  cache token and the MyKad format check with its verification flow are also
  here. The registry's response, the cache and the clock are parameters.
- **Small data and state logic** (`prayer.dfy`, `health.dfy`,
  `investments.dfy`, `users.dfy`, `notifications.dfy`, `auth.dfy`). This covers
  12-hour prayer-time parsing and choosing the current prayer, and the
  financial-health score. It covers the portfolio summary and the numbered
  `UPDATE users SET` builder. It also has the notification bell and the demo
  sign-in session. The last two are classes whose methods update their fields.

`common.dfy` holds the shared pieces. These are `Option`, JavaScript's
`x || d` on a parsed number, and exact powers. `jstext.dfy` models the
JavaScript string operations the rules use: `split`, `substring`, `Number()` on
digit strings, printing a number, and the character-code sum.

Form text arrives already parsed. `None` stands for the NaN of a failed parse.
A division by zero, whose result would be NaN or Infinity, is also `None`.

The model follows the code as written:

- The code has no zero-rate special case in the annuity formula. A 0% rate
  gives 0/0, and `Annuity.ZeroRateUndefined` and
  `Calculator.FinancingZeroRate` record this.
- The code raises no invalid-input error for negative amounts. The model
  computes with them as the code does.
- RM1000 at 5.5% for five years is exactly 1306.960006409375
  (`Calculator.InvestmentExample`).
- The credit score lies in [300, 849]. The source's comment says it goes up to
  850 (`Credit.ScoreOf`).

## Model

| member | source | states |
|---|---|---|
| `Common.OrDefault` | app/calculator/page.tsx:37-41 | a parsed number that is NaN or 0 gives the default, and any other value is kept |
| `Common.IntOrDefault` | app/financing/personal/page.tsx:43 | an integer that is NaN or 0 gives the default, and any other value is kept |
| `Calculator.Zakat` | app/calculator/page.tsx:35-49 | zakat is 0 exactly when net wealth is below the 4000 nisab, and otherwise it is 2.5% of net wealth and at least 100 |
| `Calculator.ZakatBoundaries` | app/calculator/page.tsx:43-48 | exactly 4000 gives 100; 3999.99 gives 0; 5000 with 1500 of debt gives 0; an empty form gives 0 |
| `Calculator.ZakatMonotone` | app/calculator/page.tsx:35-49 | adding to any asset never lowers the zakat, and adding to debts never raises it |
| `Calculator.ZakatGrowsWithWealth` | app/calculator/page.tsx:43-48 | zakat is monotone in net wealth |
| `Calculator.CalculateInvestment` | app/calculator/page.tsx:51-60 | there is a result iff the rate parses or the term is 0 years (NaN to the power 0 is 1); future value = principal × (1 + rate/100)^years; the return is the future value less the principal; with 0 or unparseable years the future value is the principal and the return is 0 |
| `Calculator.InvestmentReturnNonNegative` | app/calculator/page.tsx:56-59 | a non-negative principal at a non-negative rate has a non-negative return |
| `Calculator.InvestmentExample` | app/calculator/page.tsx:51-60 | RM1000 at 5.5% for 5 years grows to exactly 1306.960006409375 |
| `Calculator.CalculateFinancing` | app/calculator/page.tsx:63-76 | months = years × 12; the payment is the annuity formula at rate/100/12; total = payment × months; profit = total − principal; no result when the rate or the term does not parse or the formula divides by zero |
| `Calculator.FinancingZeroRate` | app/calculator/page.tsx:65-68 | a 0% rate has no result, because the formula is 0/0 |
| `Calculator.FinancingWellBehaved` | app/calculator/page.tsx:63-75 | for positive amount, rate and term there is a result; the payment and the profit are positive and the payments clear the loan |
| `Annuity.ZeroRateUndefined` | lib/db/financing.ts:87-88 | at rate 0 the formula's denominator is 0 |
| `Annuity.Payment` | lib/db/financing.ts:87-88 | the payment P·r·(1+r)^n / ((1+r)^n − 1) satisfies payment × ((1+r)^n − 1) = P·r·(1+r)^n |
| `Annuity.PaymentIncreasesWithRate` | lib/db/financing.ts:86-88 | for the same principal and term, a higher positive rate gives a strictly higher payment |
| `Annuity.PaymentEquation` | lib/db/financing.ts:86-88 | for r > 0 and n ≥ 1, payment × ((1+r)^n − 1) = P·r·(1+r)^n, and n payments grown to the end of the term equal P grown over the term |
| `Annuity.PaymentRepaysLoan` | lib/db/financing.ts:87-88 | after n months of growth by 1+r and n payments, the balance owed is exactly 0 |
| `Annuity.PaymentPositive` | lib/db/financing.ts:87-88 | a positive principal at a positive rate over at least one month gives a positive payment |
| `Annuity.PaymentCoversPrincipal` | lib/db/financing.ts:87-88 | with r > 0, payment × n exceeds the principal |
| `Annuity.OneMonthPayment` | lib/db/financing.ts:87-88 | over one month the payment is principal × (1 + r) |
| `FinancingStore.MonthlyPayment` | lib/db/financing.ts:85-90 | the monthly rate is annualRate/100/12 and the payment is the annuity formula at that rate; no result where it divides by zero |
| `FinancingStore.MonthlyPaymentWellBehaved` | lib/db/financing.ts:87-88 | for positive principal, rate and term the payment exists, is positive, exceeds the principal over the term and clears the loan |
| `FinancingStore.OneMonthTerm` | lib/db/financing.ts:87-88 | a one-month term gives principal × (1 + annualRate/1200) |
| `FinancingStore.NewApplicationRow` | lib/db/financing.ts:33-66 | the stored monthly_payment is the helper's result for the row's own amount, rate and term; a missing or empty purpose is null; the other fields are copied |
| `PersonalFinancing.MonthlyPreview` | app/financing/personal/page.tsx:41-52 | an amount that is non-positive, empty or unparseable, or a non-positive term, gives 0; otherwise the payment is the annuity formula at 6.5/100/12 and is positive |
| `PersonalFinancing.Preview` | app/financing/personal/page.tsx:90-92 | total = payment × the term (12 by default), and profit = total − amount |
| `PersonalFinancing.EmptyOrZeroTermIsTwelve` | app/financing/personal/page.tsx:41-92 | an empty term and a term of 0 both mean twelve months |
| `PersonalFinancing.EmptyAmountShowsZero` | app/financing/personal/page.tsx:41-92 | an empty amount shows a payment, total and profit of 0 |
| `PersonalFinancing.PreviewRepaysLoan` | app/financing/personal/page.tsx:46-49 | for a positive amount and term the installments clear the loan and the profit is positive |
| `PersonalFinancing.PreviewMatchesStoredPayment` | app/financing/personal/page.tsx:44-49 | the preview is the store's payment at 6.5% over the same term, before rounding |
| `PersonalFinancing.InputChange` | app/financing/personal/page.tsx:37-39 | typing into a field replaces that field and keeps every other field |
| `Asb.Units` | SalamWealth/app/investment/asb/page.tsx:52-55 | units × price = amount, where an unparseable amount counts as 0; no result at price 0 |
| `Asb.ProjectedDividend` | SalamWealth/app/investment/asb/page.tsx:57-60 | dividend × 100 = units × dividend rate |
| `Asb.DefaultPriceUnits` | SalamWealth/app/investment/asb/page.tsx:26-60 | at the default price of 1.0 the units equal the amount; an empty amount buys 0; RM1000 yields RM55 |
| `Asb.HandleInvest` | SalamWealth/app/investment/asb/page.tsx:62-72 | the sign-in check comes first; the amount is submitted iff the field is non-empty and its parsed value is not below 10 |
| `Asb.MinimumEdges` | SalamWealth/app/investment/asb/page.tsx:63-72 | 10 passes; 9.99 and an empty field are rejected; unparseable text passes; a signed-out user is redirected |
| `Asb.Utilisation` | SalamWealth/app/investment/asb/page.tsx:250-258 | the utilisation lies in [0, 100] when 0 ≤ available ≤ total; it is 0 when all units are available and 100 when none are |
| `Asb.DefaultUtilisation` | SalamWealth/app/investment/asb/page.tsx:26-33 | the default figures show 80% utilisation |
| `Credit.ScoreOf` | SalamWealth/lib/credit/ctos-integration.ts:22-23 | the score is 300 + hash mod 550, so it lies in [300, 849] |
| `Credit.StatusOf` | SalamWealth/lib/credit/ctos-integration.ts:25-30 | each status band is given by strict thresholds at 750, 700, 650 and 600 |
| `Credit.StatusMonotone` | SalamWealth/lib/credit/ctos-integration.ts:26-30 | a higher score never has a lower status |
| `Credit.FactorsOf` | SalamWealth/lib/credit/ctos-integration.ts:32-44 | the list is never empty; each adverse factor appears iff its condition holds; the two defaults appear iff none holds |
| `Credit.UtilisationImpliesLimitedHistory` | SalamWealth/lib/credit/ctos-integration.ts:34-35 | "High credit utilization" is only reported together with "Limited credit history" |
| `Credit.CheckCreditScore` | SalamWealth/lib/credit/ctos-integration.ts:12-45 | the score, status and factors derive from the character-code hash; the report id is "CTOS-", the clock, "-" and the first six characters |
| `Credit.SwappedHalvesSameScore` | SalamWealth/lib/credit/ctos-integration.ts:22-23 | the hash ignores order, so swapping the two halves of an id keeps its score |
| `Epf.EpfNumber` | lib/epf/integration.ts:49 | the account number starts with "EPF"; for an id of at least 12 characters it is "EPF", characters 0–5 and characters 9–11, 12 characters in all |
| `Epf.EpfNumberOfDashedId` | lib/epf/integration.ts:49 | for a dashed MyKad number the account number is "EPF", the first six digits, then "-" and digits 10–11 |
| `Epf.Simulate` | lib/epf/integration.ts:49-72 | account1 lies in [50000, 199999] and account2 in [10000, 49999]; total = account1 + account2; the contribution lies in [1100, 1999] and is dated 30 days back; housing iff account1 > 50000, education iff account1 > 100000, retirement never |
| `Epf.IsTokenValid` | lib/epf/integration.ts:95-99 | a token is valid iff it has an expiry strictly after now |
| `Epf.RowOf` | lib/epf/integration.ts:74-86 | the stored token expires seven days after now |
| `Epf.GetEpfData` | lib/epf/integration.ts:23-88 | a stored row is used iff it exists and its token is valid, and nothing is upserted then; otherwise a fresh simulation is returned and upserted; the total is always account1 + account2 |
| `Epf.CachedWithinSevenDays` | lib/epf/integration.ts:30-86 | what one call stores is returned unchanged by any call in the next seven days, and is replaced once the token expires |
| `MyKad.Matches` | lib/auth/mykad-verification.ts:18 | a string that matches a token pattern has exactly the pattern's width in characters |
| `MyKad.ValidFormat` | lib/auth/mykad-verification.ts:18 | a string in the MyKad format has 14 characters |
| `MyKad.ValidFormatPositions` | lib/auth/mykad-verification.ts:18 | the pattern holds iff the string has 14 characters, dashes at positions 6 and 9, and digits everywhere else |
| `MyKad.FormatExamples` | lib/auth/mykad-verification.ts:18 | "850123-14-5678" matches; the undashed and the short forms do not |
| `MyKad.Verify` | lib/auth/mykad-verification.ts:12-87 | a bad format fails before any call; a response that is not ok or that throws fails; a throwing cache fails; verified iff the identity is present, which is then the cached one or the simulated one |
| `MyKad.CacheReplaysVerification` | lib/auth/mykad-verification.ts:44-83 | the simulated path stores its identity last, and the stored entry answers the next verification with the same result |
| `Prayer.MinuteOfDay` | SalamWealth/components/features/PrayerTimes.tsx:76 | a clock reading within the day maps into [0, 1440) |
| `Prayer.To24Hour` | SalamWealth/components/features/PrayerTimes.tsx:80-81 | PM adds 12 to hours other than 12, 12 PM stays 12, 12 AM becomes 0, other AM hours are unchanged, the modifier's case is ignored, and hours 1–12 land in [0, 24) |
| `Prayer.ParseTime` | SalamWealth/components/features/PrayerTimes.tsx:77-83 | reading throws iff the string has no space, so the modifier is undefined |
| `Prayer.ParseTimeOf` | SalamWealth/components/features/PrayerTimes.tsx:77-83 | "h:mm MOD" made of digit strings reads as the minute of the day after the 12-hour conversion |
| `Prayer.ParseAll` | SalamWealth/components/features/PrayerTimes.tsx:77-83 | the list reads iff every string reads, element by element |
| `Prayer.Begun` | SalamWealth/components/features/PrayerTimes.tsx:85 | a NaN time never counts as begun; a parsed time has begun iff its minute is at or before now |
| `Prayer.CurrentPrayer` | SalamWealth/components/features/PrayerTimes.tsx:84-87 | the result is the last index whose time has begun; if none has begun it is the last index; an empty list gives −1 |
| `Prayer.GetCurrentPrayer` | SalamWealth/components/features/PrayerTimes.tsx:75-88 | the whole selection at hours × 60 + minutes, throwing iff some time string throws |
| `Prayer.DefaultTimesParse` | SalamWealth/components/features/PrayerTimes.tsx:67-73 | the default timetable reads as 345, 795, 990, 1155 and 1245, in strictly increasing order |
| `Prayer.MissingModifierThrows` | SalamWealth/components/features/PrayerTimes.tsx:78-80 | "5:45" without AM/PM throws |
| `FinancialHealth.EmergencyPoints` | SalamWealth/components/features/FinancialHealth.tsx:33-34 | 40 iff months ≥ 6, 20 iff 3 ≤ months < 6, and 0 otherwise |
| `FinancialHealth.DebtPoints` | SalamWealth/components/features/FinancialHealth.tsx:36-37 | 30 iff DTI ≤ 30, 15 iff 30 < DTI ≤ 40, and 0 otherwise |
| `FinancialHealth.ZakatAddsThirty` | SalamWealth/components/features/FinancialHealth.tsx:39 | with the same months and debt-to-income ratio, a compliant score is exactly 30 above a non-compliant one |
| `FinancialHealth.Score` | SalamWealth/components/features/FinancialHealth.tsx:32-39 | the score lies in [0, 100] and is 100 iff all three parts are at their best |
| `FinancialHealth.CalculateScore` | SalamWealth/components/features/FinancialHealth.tsx:31-41 | the `+=` accumulation yields the score |
| `FinancialHealth.ScoreMonotone` | SalamWealth/components/features/FinancialHealth.tsx:33-37 | more months never lower the score, and a higher DTI never raises it |
| `FinancialHealth.ScoreLabel` | SalamWealth/components/features/FinancialHealth.tsx:55-59 | Excellent iff ≥ 80, Good iff in [60, 80), and Needs Improvement below 60 |
| `FinancialHealth.ScoreColour` | SalamWealth/components/features/FinancialHealth.tsx:49-53 | green iff ≥ 80, yellow iff in [60, 80), and red below 60 |
| `FinancialHealth.ColourMatchesLabel` | SalamWealth/components/features/FinancialHealth.tsx:49-59 | the colour and the label always name the same band |
| `FinancialHealth.SampleScore` | SalamWealth/components/features/FinancialHealth.tsx:21-39 | the sample data (4 months, 30% DTI, not compliant) scores 50, labelled Needs Improvement |
| `Investments.TypeOrder` | lib/db/investments.ts:90-95 | the summary's keys are exactly the types present, each once |
| `Investments.AverageReturn` | lib/db/investments.ts:101 | 0 when nothing is invested; otherwise return × invested = (current − invested) × 100, non-negative iff current ≥ invested |
| `Investments.Total` | lib/db/investments.ts:86-98 | the running total of a column is not negative when no account's figure is negative |
| `Investments.TypeTotal` | lib/db/investments.ts:86-98 | with no negative figures, one type's total lies between 0 and the column's total |
| `Investments.Summarize` | lib/db/investments.ts:74-109 | the totals are the sums of amounts and of current values; there is one entry per type present, holding that type's sums |
| `Investments.TypeTotalsAddUp` | lib/db/investments.ts:86-98 | the per-type sums add up to the overall totals |
| `Investments.NewAccountRow` | lib/db/investments.ts:28-56 | current value = amount; a missing or 0 profit rate or risk rating is null; halal defaults to true only when omitted |
| `Users.NewUserRow` | SalamWealth/lib/db/users.ts:34-62 | a missing or empty phone or address is null; bumiputera is false unless given as true |
| `Users.Changes` | SalamWealth/lib/db/users.ts:77-95 | at most four changes, with distinct columns and non-empty values |
| `Users.ChangesAreNewValues` | SalamWealth/lib/db/users.ts:77-95 | the changes are exactly the non-empty supplied fields, each with its value |
| `Users.BuildUpdate` | SalamWealth/lib/db/users.ts:64-108 | with no non-empty field the user is re-read by id; otherwise the changes are bound to $1..$k in order, the SET list ends with `updated_at = NOW()`, and the id is value k+1 for WHERE $(k+1) |
| `Users.PlaceholdersMatchValues` | SalamWealth/lib/db/users.ts:77-105 | every SET placeholder is below the WHERE placeholder and picks its own column's value, and the WHERE placeholder picks the id |
| `Users.AssignsExactlySupplied` | SalamWealth/lib/db/users.ts:77-95 | a column is assigned iff it was supplied non-empty |
| `Notifications.MarkRead` | SalamWealth/components/notification-center.tsx:58 | the length and order are kept; notifications with that id become read; all others are unchanged |
| `Notifications.MarkAllRead` | SalamWealth/components/notification-center.tsx:72 | every notification becomes read and nothing else changes |
| `Notifications.MarkAllReadIdempotent` | SalamWealth/components/notification-center.tsx:72-74 | marking all read twice is the same as once, and leaves nothing unread |
| `Notifications.MarkReadCount` | SalamWealth/components/notification-center.tsx:58-60 | with unique ids, marking an unread item lowers the unread count by one, and marking a read item changes nothing |
| `Notifications.BadgeLabel` | SalamWealth/components/notification-center.tsx:102-116 | the badge is hidden at 0, shows "9+" above 9 and the number otherwise; "Mark all read" shows exactly with the badge |
| `Notifications.NotificationCenter.constructor` | SalamWealth/components/notification-center.tsx:30-31 | the state starts with an empty list and a count of 0 |
| `Notifications.NotificationCenter.Load` | SalamWealth/components/notification-center.tsx:39-50 | an ok response replaces both fields, and anything else leaves them |
| `Notifications.NotificationCenter.MarkAsRead` | SalamWealth/components/notification-center.tsx:52-64 | a thrown request changes nothing; otherwise the id is marked read and the count drops by one, never below 0 |
| `Notifications.NotificationCenter.MarkAllAsRead` | SalamWealth/components/notification-center.tsx:66-78 | a thrown request changes nothing; otherwise all are marked read and the count is 0; a consistent state stays consistent |
| `Notifications.NotificationCenter.Click` | SalamWealth/components/notification-center.tsx:125-132 | clicking a read item calls nothing; an unread item is marked read and the unread count drops by one (not below 0) unless the request throws; a non-empty link is followed; the count stays in step with the list |
| `Auth.FindDemoUser` | lib/auth-context.tsx:89 | the first demo user with that email, or none |
| `Auth.DemoAccountsFound` | lib/auth-context.tsx:23-38 | each demo account is found by its own email |
| `Auth.AuthProvider.constructor` | lib/auth-context.tsx:66-69 | the provider starts with no user, loading and not mounted |
| `Auth.AuthProvider.Mount` | lib/auth-context.tsx:41-54 | a stored user is restored; corrupt storage is removed and leaves no user; loading ends |
| `Auth.AuthProvider.BeginLogin` | lib/auth-context.tsx:81-82 | a sign-in starts loading and changes nothing else |
| `Auth.AuthProvider.FinishLogin` | lib/auth-context.tsx:84-103 | success iff the email is a demo user's and the password is "password123"; success signs in and stores that user; failure leaves the user and storage unchanged; loading is off either way |
| `Auth.AuthProvider.Logout` | lib/auth-context.tsx:106-109 | the user and the stored copy are cleared, whatever the state before, so a second sign-out changes nothing |

## Left out

- IEEE-754 doubles. All arithmetic is over exact reals. This leaves out
  rounding, `toFixed(2)` and the `parseFloat(toFixed(2))` of the financing
  store and the investment summary.
- Turning form text into numbers. `Number.parseFloat` and `Number.parseInt`
  results arrive as `Option` values. Years in the calculator are natural
  numbers, so `Math.pow` with a fractional exponent is not modelled.
- JsText.NumberOf: reads only plain decimal digit strings (the empty string
  reads as 0). `Number()` also trims whitespace and accepts signs, decimals and
  hexadecimal, and these read as NaN here.
- JsText.CharCodeSum: sums Unicode scalar values, while `charCodeAt` sums
  UTF-16 code units. The two agree on every character below U+10000, which
  covers the MyKad and EPF identifiers.
- Persistence and the network: the SQL and Supabase queries, `getUserById`,
  bcrypt hashing of the password, the fetch calls to JPN and the EPF and
  notification endpoints, and `localStorage`. Their answers are parameters
  (`RegistryReply`, `CacheReply`, the stored EPF row, the storage `Slot`). The
  values that would be written are results.
- The clock and delays. `Date.now()` is a parameter in milliseconds, and the
  `setTimeout` delays are dropped. ISO-8601 date text is not modelled: dates
  are millisecond numbers, and `lastUpdated` is omitted.
- Epf.GetEpfData: the `catch` that returns null when the store throws is not
  modelled. The JSON text of the contribution and eligibility columns is kept
  as the records themselves.
- Credit.CheckCreditScore: the `catch` that rethrows is not modelled, because
  nothing in the simulated path throws.
- Auth.AuthProvider.FinishLogin: the `catch` branch is not modelled, because
  nothing in the demo check throws. A login is split into `BeginLogin` and
  `FinishLogin` around the delay.
- Notifications.NotificationCenter.Click: `markAsRead` is not awaited (notification-center.tsx:127), so in the source the read flag and count are updated after `window.location.href` is set. The model collapses the two into one step.
- Notifications.NotificationCenter.MarkAsRead: only a thrown request blocks the
  update. The source does not check `response.ok`, so a response that is not
  ok still marks the item read.
- The `typeof window === "undefined"` server-render guards in the session code
  are not modelled. The model is the browser side.
- UI rendering, routing, icons and the toasts are not modelled. The market-data
  fluctuation is not modelled either, because it uses `Math.random`.
