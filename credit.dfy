/** The simulated CTOS/CCRIS credit check: a score, a status and the
    factors behind it, all derived from a hash of the MyKad number. */
module Credit {
  import opened JsText

  datatype Status = Excellent | VeryGood | Good | Fair | Poor

  function StatusLabel(s: Status): string
  {
    match s
    case Excellent => "Excellent"
    case VeryGood => "Very Good"
    case Good => "Good"
    case Fair => "Fair"
    case Poor => "Poor"
  }

  /** Position of a status on the scale, Poor lowest. */
  function Rank(s: Status): nat
  {
    match s
    case Poor => 0
    case Fair => 1
    case Good => 2
    case VeryGood => 3
    case Excellent => 4
  }

  const HighUtilisation := "High credit utilization"
  const LimitedHistory := "Limited credit history"
  const RecentInquiries := "Recent credit inquiries"
  const PaymentIssues := "Payment history issues"
  /** Reported when no adverse factor applies. */
  const DefaultFactors := ["Good payment history", "Low credit utilization"]

  /** 300 + hash mod 550: at most 849, although the source's comment
      promises scores up to 850. */
  function ScoreOf(hash: nat): (score: int)
    ensures 300 <= score <= 849
    ensures score == 300 + hash % 550
  {
    300 + hash % 550
  }

  /** The status bands; every threshold is strict. */
  function StatusOf(score: int): (s: Status)
    ensures s == Excellent <==> score > 750
    ensures s == VeryGood <==> 700 < score <= 750
    ensures s == Good <==> 650 < score <= 700
    ensures s == Fair <==> 600 < score <= 650
    ensures s == Poor <==> score <= 600
  {
    if score > 750 then Excellent
    else if score > 700 then VeryGood
    else if score > 650 then Good
    else if score > 600 then Fair
    else Poor
  }

  /** A higher score never has a lower status. */
  lemma StatusMonotone(a: int, b: int)
    requires a <= b
    ensures Rank(StatusOf(a)) <= Rank(StatusOf(b))
  {
  }

  /** The adverse factors that apply, in the order they are checked. */
  function AdverseFactors(score: int, hash: nat): seq<string>
  {
    (if score < 650 then [HighUtilisation] else [])
    + (if score < 700 then [LimitedHistory] else [])
    + (if hash % 5 == 0 then [RecentInquiries] else [])
    + (if hash % 7 == 0 then [PaymentIssues] else [])
  }

  /** The factor list reported: the adverse factors, or the two positive
      defaults when there are none. */
  function FactorsOf(score: int, hash: nat): (f: seq<string>)
    ensures |f| > 0
    ensures HighUtilisation in f <==> score < 650
    ensures LimitedHistory in f <==> score < 700
    ensures RecentInquiries in f <==> hash % 5 == 0
    ensures PaymentIssues in f <==> hash % 7 == 0
    ensures f == DefaultFactors <==> score >= 700 && hash % 5 != 0 && hash % 7 != 0
  {
    var adverse := AdverseFactors(score, hash);
    if |adverse| > 0 then adverse else DefaultFactors
  }

  /** High utilisation is only ever reported together with a limited history. */
  lemma UtilisationImpliesLimitedHistory(score: int, hash: nat)
    ensures HighUtilisation in FactorsOf(score, hash) ==> LimitedHistory in FactorsOf(score, hash)
  {
  }

  datatype CreditCheck = CreditCheck(score: int, status: Status, reportId: string,
                                     factors: seq<string>)

  /** The check itself. `now` is the clock reading in milliseconds that
      the report id embeds; the simulated delay is left out. */
  method CheckCreditScore(myKadId: string, now: nat) returns (r: CreditCheck)
    ensures r.score == ScoreOf(CharCodeSum(myKadId))
    ensures r.status == StatusOf(r.score)
    ensures r.factors == FactorsOf(r.score, CharCodeSum(myKadId))
    ensures r.reportId == "CTOS-" + NatToString(now) + "-" + Substring(myKadId, 0, 6)
  {
    var hash := CharCodeSum(myKadId);
    var score := 300 + hash % 550;

    var status := Poor;
    if score > 750 { status := Excellent; }
    else if score > 700 { status := VeryGood; }
    else if score > 650 { status := Good; }
    else if score > 600 { status := Fair; }

    var factors: seq<string> := [];
    if score < 650 { factors := factors + [HighUtilisation]; }
    if score < 700 { factors := factors + [LimitedHistory]; }
    if hash % 5 == 0 { factors := factors + [RecentInquiries]; }
    if hash % 7 == 0 { factors := factors + [PaymentIssues]; }
    assert factors == AdverseFactors(score, hash);

    r := CreditCheck(score, status, "CTOS-" + NatToString(now) + "-" + Substring(myKadId, 0, 6),
                     if |factors| > 0 then factors else DefaultFactors);
  }

  /** Swapping the two halves of an id keeps its score. */
  lemma SwappedHalvesSameScore(x: string, y: string)
    ensures ScoreOf(CharCodeSum(x + y)) == ScoreOf(CharCodeSum(y + x))
  {
    CharCodeSumAppend(x, y);
    CharCodeSumAppend(y, x);
  }
}
