/** The financial-health card: a score out of 100 built from three parts,
    and the label and colour band it is shown with. */
module FinancialHealth {

  /** Emergency fund: 40 points from six months up, 20 from three. */
  function EmergencyPoints(months: real): (p: int)
    ensures p == 40 <==> months >= 6.0
    ensures p == 20 <==> 3.0 <= months < 6.0
    ensures p == 0 <==> months < 3.0
  {
    if months >= 6.0 then 40 else if months >= 3.0 then 20 else 0
  }

  /** Debt-to-income ratio (percent): 30 points up to 30, 15 up to 40. */
  function DebtPoints(debtToIncome: real): (p: int)
    ensures p == 30 <==> debtToIncome <= 30.0
    ensures p == 15 <==> 30.0 < debtToIncome <= 40.0
    ensures p == 0 <==> debtToIncome > 40.0
  {
    if debtToIncome <= 30.0 then 30 else if debtToIncome <= 40.0 then 15 else 0
  }

  /** Zakat compliance is worth 30 points. */
  function ZakatPoints(compliant: bool): (p: int)
    ensures p == 30 <==> compliant
    ensures p == 0 <==> !compliant
  {
    if compliant then 30 else 0
  }

  /** The score the card computes. */
  function Score(months: real, debtToIncome: real, compliant: bool): (s: int)
    ensures 0 <= s <= 100
    ensures s == 100 <==> months >= 6.0 && debtToIncome <= 30.0 && compliant
  {
    EmergencyPoints(months) + DebtPoints(debtToIncome) + ZakatPoints(compliant)
  }

  /** The accumulation as the card performs it, one `+=` per rule. */
  method CalculateScore(months: real, debtToIncome: real, compliant: bool) returns (score: int)
    ensures score == Score(months, debtToIncome, compliant)
  {
    score := 0;
    if months >= 6.0 { score := score + 40; }
    else if months >= 3.0 { score := score + 20; }

    if debtToIncome <= 30.0 { score := score + 30; }
    else if debtToIncome <= 40.0 { score := score + 15; }

    if compliant { score := score + 30; }
  }

  /** More months of emergency fund never lower the score; a higher
      debt-to-income ratio never raises it. */
  lemma ScoreMonotone(months: real, months': real, dti: real, dti': real, compliant: bool)
    requires months <= months' && dti' <= dti
    ensures Score(months, dti, compliant) <= Score(months', dti', compliant)
  {
  }

  /** Being up to date with zakat adds exactly 30 points, whatever the
      other two parts. */
  lemma ZakatAddsThirty(months: real, debtToIncome: real)
    ensures Score(months, debtToIncome, true) == Score(months, debtToIncome, false) + 30
  {
  }

  datatype Label = Excellent | Good | NeedsImprovement
  datatype Colour = Green | Yellow | Red

  function ScoreLabel(score: int): (l: Label)
    ensures l == Excellent <==> score >= 80
    ensures l == Good <==> 60 <= score < 80
    ensures l == NeedsImprovement <==> score < 60
  {
    if score >= 80 then Excellent else if score >= 60 then Good else NeedsImprovement
  }

  function ScoreColour(score: int): (c: Colour)
    ensures c == Green <==> score >= 80
    ensures c == Yellow <==> 60 <= score < 80
    ensures c == Red <==> score < 60
  {
    if score >= 80 then Green else if score >= 60 then Yellow else Red
  }

  /** The colour and the label always name the same band. */
  lemma ColourMatchesLabel(score: int)
    ensures ScoreColour(score) == Green <==> ScoreLabel(score) == Excellent
    ensures ScoreColour(score) == Yellow <==> ScoreLabel(score) == Good
    ensures ScoreColour(score) == Red <==> ScoreLabel(score) == NeedsImprovement
  {
  }

  /** The card's sample data: four months, a 30% ratio and zakat not up to
      date score 50, shown as needing improvement. */
  lemma SampleScore()
    ensures Score(4.0, 30.0, false) == 50
    ensures ScoreLabel(Score(4.0, 30.0, false)) == NeedsImprovement
  {
  }
}
