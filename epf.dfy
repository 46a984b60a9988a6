/** The simulated EPF (Employees Provident Fund) integration: an account
    derived from a hash of the MyKad number, cached with a seven-day token.
    The cache row and the clock (milliseconds) are inputs; the row to
    upsert is an output. */
module Epf {
  import opened Common
  import opened JsText
  import MyKad

  const DayMs: int := 24 * 60 * 60 * 1000
  /** How long a stored token stays valid, and how far back the simulated
      last contribution lies. */
  const TokenLifetimeMs: int := 7 * DayMs
  const ContributionAgeMs: int := 30 * DayMs

  datatype Contribution = Contribution(dateMs: int, amount: int, employer: string)
  datatype Eligibility = Eligibility(housing: bool, education: bool, retirement: bool)

  datatype EpfData = EpfData(accountNumber: string, account1Balance: int, account2Balance: int,
                             totalBalance: int, lastContribution: Contribution,
                             withdrawalEligibility: Eligibility)

  /** The stored row. The contribution and eligibility columns are the JSON
      text of those records; here they hold the records themselves. The
      expiry is None when the column is empty or is not a date. */
  datatype EpfRow = EpfRow(epfNumber: string, account1Balance: int, account2Balance: int,
                           lastContribution: Contribution, withdrawalEligibility: Eligibility,
                           lastUpdatedMs: int, tokenExpiresAtMs: Option<int>)

  /** "EPF", then characters [0, 6) and [9, 12) of the MyKad number. */
  function EpfNumber(myKadId: string): (n: string)
    ensures |n| >= 3 && n[..3] == "EPF"
    ensures |myKadId| >= 12 ==> n == "EPF" + myKadId[0..6] + myKadId[9..12] && |n| == 12
  {
    "EPF" + Substring(myKadId, 0, 6) + Substring(myKadId, 9, 12)
  }

  /** For a number in the dashed format the second piece starts at the
      second dash: the account number keeps that dash and the two digits
      after it. */
  lemma EpfNumberOfDashedId(myKadId: string)
    requires MyKad.ValidFormat(myKadId)
    ensures EpfNumber(myKadId) == "EPF" + myKadId[..6] + "-" + myKadId[10..12]
    ensures |EpfNumber(myKadId)| == 12
  {
    MyKad.ValidFormatPositions(myKadId);
    assert myKadId[9..12] == [myKadId[9]] + myKadId[10..12];
  }

  /** The account a MyKad number is simulated as, at time `now`. */
  function Simulate(myKadId: string, now: int): (d: EpfData)
    ensures 50000 <= d.account1Balance <= 199999
    ensures 10000 <= d.account2Balance <= 49999
    ensures d.totalBalance == d.account1Balance + d.account2Balance
    ensures 1100 <= d.lastContribution.amount <= 1999
    ensures d.lastContribution.dateMs == now - ContributionAgeMs
    ensures d.withdrawalEligibility.housing <==> d.account1Balance > 50000
    ensures d.withdrawalEligibility.education <==> d.account1Balance > 100000
    ensures !d.withdrawalEligibility.retirement
    ensures d.accountNumber == EpfNumber(myKadId)
  {
    var hash := CharCodeSum(myKadId);
    var account1 := 50000 + hash % 150000;
    var account2 := 10000 + hash % 40000;
    EpfData(EpfNumber(myKadId), account1, account2, account1 + account2,
            Contribution(now - ContributionAgeMs, 1100 + hash % 900, "Example Sdn Bhd"),
            Eligibility(account1 > 50000, account1 > 100000, false))
  }

  /** A token is valid when it has an expiry strictly after now. */
  function IsTokenValid(expiresAtMs: Option<int>, now: int): (valid: bool)
    ensures valid <==> expiresAtMs.Some? && expiresAtMs.value > now
  {
    match expiresAtMs
    case None => false
    case Some(t) => t > now
  }

  /** The row a fresh simulation is stored as. */
  function RowOf(d: EpfData, now: int): (row: EpfRow)
    ensures row.tokenExpiresAtMs == Some(now + TokenLifetimeMs)
  {
    EpfRow(d.accountNumber, d.account1Balance, d.account2Balance, d.lastContribution,
           d.withdrawalEligibility, now, Some(now + TokenLifetimeMs))
  }

  /** What `getEPFData` returns and what it upserts. */
  datatype Fetch = Fetch(data: EpfData, upsert: Option<EpfRow>)

  /** A stored row with a valid token is returned as it is, its total
      recomputed; otherwise a fresh account is simulated and upserted. */
  function GetEpfData(stored: Option<EpfRow>, myKadId: string, now: int): (f: Fetch)
    ensures f.data.totalBalance == f.data.account1Balance + f.data.account2Balance
    ensures f.upsert.None? <==> stored.Some? && IsTokenValid(stored.value.tokenExpiresAtMs, now)
    ensures f.upsert.None? ==> f.data.account1Balance == stored.value.account1Balance
                               && f.data.account2Balance == stored.value.account2Balance
                               && f.data.accountNumber == stored.value.epfNumber
    ensures f.upsert.Some? ==> f.data == Simulate(myKadId, now) && f.upsert == Some(RowOf(f.data, now))
  {
    if stored.Some? && IsTokenValid(stored.value.tokenExpiresAtMs, now) then
      var row := stored.value;
      Fetch(EpfData(row.epfNumber, row.account1Balance, row.account2Balance,
                    row.account1Balance + row.account2Balance,
                    row.lastContribution, row.withdrawalEligibility), None)
    else
      var d := Simulate(myKadId, now);
      Fetch(d, Some(RowOf(d, now)))
  }

  /** The cache round trip: what one call simulates and stores, any call in
      the next seven days returns unchanged, without storing again; from
      the moment the token expires a new simulation replaces it. */
  lemma CachedWithinSevenDays(stored: Option<EpfRow>, myKadId: string, now: int, later: int)
    requires stored.None? || !IsTokenValid(stored.value.tokenExpiresAtMs, now)
    ensures var first := GetEpfData(stored, myKadId, now);
            first.upsert.Some?
            && (now <= later < now + TokenLifetimeMs ==>
                  GetEpfData(first.upsert, myKadId, later) == Fetch(first.data, None))
            && (later >= now + TokenLifetimeMs ==>
                  GetEpfData(first.upsert, myKadId, later).upsert.Some?)
  {
  }
}
