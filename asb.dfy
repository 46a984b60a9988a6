/** The ASB unit-trust page: unit and dividend estimates, the minimum
    investment guard and the fund-utilisation bar. */
module Asb {
  import opened Common

  datatype MarketData = MarketData(currentPrice: real, dividend: real, totalUnits: real,
                                   availableUnits: real, lastDividend: string,
                                   nextDividend: string)

  /** The figures shown until the market-data request answers. */
  const DefaultMarket := MarketData(1.0, 5.5, 12500000000.0, 2500000000.0, "2023", "2024")

  /** The smallest investment accepted, in RM. */
  const MinimumInvestment: real := 10.0

  /** Units bought: amount / price, an unparseable amount counting as 0.
      A price of 0 divides by zero (None). */
  function Units(amount: Option<real>, m: MarketData): (u: Option<real>)
    ensures u.Some? <==> m.currentPrice != 0.0
    ensures u.Some? ==> u.value * m.currentPrice == OrDefault(amount, 0.0)
  {
    if m.currentPrice == 0.0 then None else Some(OrDefault(amount, 0.0) / m.currentPrice)
  }

  /** The yearly dividend on those units: units * dividend% / 100. */
  function ProjectedDividend(amount: Option<real>, m: MarketData): (d: Option<real>)
    ensures d.Some? <==> Units(amount, m).Some?
    ensures d.Some? ==> d.value * 100.0 == Units(amount, m).value * m.dividend
  {
    match Units(amount, m)
    case None => None
    case Some(units) => Some(units * m.dividend / 100.0)
  }

  /** At the default price of RM1.00 a unit costs one ringgit: units equal
      the amount, an empty amount buys nothing, and the default 5.5%
      dividend on RM1000 is RM55. */
  lemma DefaultPriceUnits(amount: Option<real>)
    ensures Units(amount, DefaultMarket) == Some(OrDefault(amount, 0.0))
    ensures Units(None, DefaultMarket) == Some(0.0)
    ensures ProjectedDividend(Some(1000.0), DefaultMarket) == Some(55.0)
  {
  }

  /** What pressing "invest" does. */
  datatype InvestAction = RedirectToSignIn | RejectBelowMinimum | Submit(amountText: string)

  /** The invest handler: sign-in is checked first, then the amount. The
      amount check rejects an empty field or a parsed amount below 10; a
      non-empty text that does not parse compares as NaN, which is not
      below 10, so it is submitted. */
  function HandleInvest(authenticated: bool, amountText: string, parsed: Option<real>): (a: InvestAction)
    ensures !authenticated <==> a == RedirectToSignIn
    ensures a.Submit? <==> authenticated && amountText != ""
                           && (parsed.None? || parsed.value >= MinimumInvestment)
    ensures a.Submit? ==> a.amountText == amountText
  {
    if !authenticated then RedirectToSignIn
    else if amountText == "" || (parsed.Some? && parsed.value < MinimumInvestment) then RejectBelowMinimum
    else Submit(amountText)
  }

  /** The guard's edges: exactly RM10 passes, less is rejected, and text
      that does not parse is not stopped. */
  lemma MinimumEdges()
    ensures HandleInvest(true, "10", Some(10.0)) == Submit("10")
    ensures HandleInvest(true, "9.99", Some(9.99)) == RejectBelowMinimum
    ensures HandleInvest(true, "", None) == RejectBelowMinimum
    ensures HandleInvest(true, "abc", None) == Submit("abc")
    ensures HandleInvest(false, "100", Some(100.0)) == RedirectToSignIn
  {
  }

  /** Percentage of the fund's units already taken up; a fund of 0 units
      divides by zero (None). */
  function Utilisation(m: MarketData): (p: Option<real>)
    ensures p.Some? <==> m.totalUnits != 0.0
    ensures p.Some? && 0.0 <= m.availableUnits <= m.totalUnits ==> 0.0 <= p.value <= 100.0
    ensures p.Some? && m.availableUnits == m.totalUnits ==> p.value == 0.0
    ensures p.Some? && m.availableUnits == 0.0 ==> p.value == 100.0
  {
    if m.totalUnits == 0.0 then None
    else
      var p := (m.totalUnits - m.availableUnits) / m.totalUnits * 100.0;
      assert 0.0 <= m.availableUnits <= m.totalUnits ==> 0.0 <= p <= 100.0 by {
        if 0.0 <= m.availableUnits <= m.totalUnits {
          ShareInUnitRange(m.totalUnits - m.availableUnits, m.totalUnits);
        }
      }
      Some(p)
  }

  lemma ShareInUnitRange(part: real, whole: real)
    requires 0.0 <= part <= whole && whole > 0.0
    ensures 0.0 <= part / whole <= 1.0
  {
    var q := part / whole;
    assert q * whole == part;
    assert (1.0 - q) * whole == whole - part;
  }

  /** With the default figures 80% of the fund is taken. */
  lemma DefaultUtilisation()
    ensures Utilisation(DefaultMarket) == Some(80.0)
  {
  }
}
