/**
 * The rating brackets of the command-line report (backend/main.py): the
 * growth rating, the FCF-quality score and its label, the fair value and
 * upside from a multiple, and the five-way recommendation. Rendering is
 * not modelled; the labels are the words the report shows.
 */
module Ratings {
  import opened Wrappers
  import opened Numbers

  // ---------------------------------------------------------------------
  // get_growth_rating
  // ---------------------------------------------------------------------

  datatype GrowthRating = Low | Moderate | Good | VeryGood | Excellent {
    /** Position from worst (0) to best (4). */
    function Rank(): nat {
      match this
        case Low => 0
        case Moderate => 1
        case Good => 2
        case VeryGood => 3
        case Excellent => 4
    }
  }

  /** Strict thresholds 20, 15, 10 and 5 on the growth rate in percent. */
  function RateGrowth(growthRate: real): (r: GrowthRating)
    ensures r == Excellent <==> growthRate > 20.0
    ensures r == VeryGood <==> 15.0 < growthRate <= 20.0
    ensures r == Good <==> 10.0 < growthRate <= 15.0
    ensures r == Moderate <==> 5.0 < growthRate <= 10.0
    ensures r == Low <==> growthRate <= 5.0
  {
    if growthRate > 20.0 then Excellent
    else if growthRate > 15.0 then VeryGood
    else if growthRate > 10.0 then Good
    else if growthRate > 5.0 then Moderate
    else Low
  }

  /** A higher growth rate never gets a lower rating. */
  lemma RateGrowthMonotone(g1: real, g2: real)
    requires g1 <= g2
    ensures RateGrowth(g1).Rank() <= RateGrowth(g2).Rank()
  {
  }

  // ---------------------------------------------------------------------
  // get_fcf_quality_rating
  // ---------------------------------------------------------------------

  /** The FCF-to-income contribution: +2 above 90, +1 above 80, -1 below 70, else 0. */
  function IncomePoints(fcfToIncome: real): int {
    if fcfToIncome > 90.0 then 2 else if fcfToIncome > 80.0 then 1 else if fcfToIncome < 70.0 then -1 else 0
  }

  /** The debt-to-FCF contribution: +2 below 3, +1 below 5, otherwise (5 itself and +inf included) -1. */
  function DebtPoints(debtToFcf: Ext): int {
    if debtToFcf.Below(3.0) then 2 else if debtToFcf.Below(5.0) then 1 else -1
  }

  /** One point when the working-capital change is small against the FCF-to-income ratio. */
  function WorkingCapitalPoints(workingCapitalChange: real, fcfToIncome: real): int {
    if Abs(workingCapitalChange) < 0.1 * fcfToIncome then 1 else 0
  }

  /** The summed score of the quality figures. */
  function QualityScore(fcfToIncome: real, debtToFcf: Ext, workingCapitalChange: real): (score: int)
    ensures -2 <= score <= 5
  {
    IncomePoints(fcfToIncome) + DebtPoints(debtToFcf) + WorkingCapitalPoints(workingCapitalChange, fcfToIncome)
  }

  datatype QualityLabel = LowQuality | AverageQuality | GoodQuality | HighQuality

  /** High from 4, Good from 2, Average from 0, Low below. */
  function LabelOf(score: int): (l: QualityLabel)
    ensures l == HighQuality <==> score >= 4
    ensures l == GoodQuality <==> 2 <= score < 4
    ensures l == AverageQuality <==> 0 <= score < 2
    ensures l == LowQuality <==> score < 0
  {
    if score >= 4 then HighQuality else if score >= 2 then GoodQuality else if score >= 0 then AverageQuality else LowQuality
  }

  /** `get_fcf_quality_rating`: the score built up step by step, then labelled. */
  method RateFcfQuality(fcfToIncome: real, debtToFcf: Ext, workingCapitalChange: real)
    returns (score: int, rating: QualityLabel)
    ensures score == QualityScore(fcfToIncome, debtToFcf, workingCapitalChange)
    ensures rating == LabelOf(score)
  {
    score := 0;
    if fcfToIncome > 90.0 {
      score := score + 2;
    } else if fcfToIncome > 80.0 {
      score := score + 1;
    } else if fcfToIncome < 70.0 {
      score := score - 1;
    }
    if debtToFcf.Below(3.0) {
      score := score + 2;
    } else if debtToFcf.Below(5.0) {
      score := score + 1;
    } else {
      score := score - 1;
    }
    if Abs(workingCapitalChange) < 0.1 * fcfToIncome {
      score := score + 1;
    }
    if score >= 4 {
      rating := HighQuality;
    } else if score >= 2 {
      rating := GoodQuality;
    } else if score >= 0 {
      rating := AverageQuality;
    } else {
      rating := LowQuality;
    }
  }

  /**
   * The extremes: the fallback quality figures (0, +inf, 0) score -2, Low;
   * a ratio above 90, debt below 3 times FCF and a small working-capital
   * change score 5, High.
   */
  lemma QualityScoreExtremes(fcfToIncome: real, debt: real, workingCapitalChange: real)
    ensures QualityScore(0.0, PosInf, 0.0) == -2 && LabelOf(-2) == LowQuality
    ensures fcfToIncome > 90.0 && debt < 3.0 && Abs(workingCapitalChange) < 0.1 * fcfToIncome ==>
      QualityScore(fcfToIncome, Finite(debt), workingCapitalChange) == 5
  {
  }

  // ---------------------------------------------------------------------
  // Valuation and recommendation in display_analysis
  // ---------------------------------------------------------------------

  /** Division by zero aborts the report. */
  datatype ReportError = ZeroShares | ZeroPrice

  /** Fair value per share from the multiple, and the upside against the price in percent. */
  datatype Estimate = Estimate(fcfPerShare: real, fairValue: real, upside: real)

  function EstimateValue(latestFcf: real, shares: real, multiple: real, currentPrice: real): (r: Result<Estimate, ReportError>)
    ensures r == Err(ZeroShares) <==> shares == 0.0
    ensures r == Err(ZeroPrice) <==> shares != 0.0 && currentPrice == 0.0
    ensures r.Ok? ==> r.value.fairValue * shares == latestFcf * multiple
    ensures r.Ok? ==> (r.value.upside / 100.0 + 1.0) * currentPrice == r.value.fairValue
  {
    if shares == 0.0 then Err(ZeroShares)
    else
      var fcfPerShare := latestFcf / shares;
      var fairValue := fcfPerShare * multiple;
      if currentPrice == 0.0 then Err(ZeroPrice)
      else Ok(Estimate(fcfPerShare, fairValue, (fairValue / currentPrice - 1.0) * 100.0))
  }

  datatype Recommendation = StrongSell | Sell | Hold | Buy | StrongBuy {
    function Rank(): nat {
      match this
        case StrongSell => 0
        case Sell => 1
        case Hold => 2
        case Buy => 3
        case StrongBuy => 4
    }
  }

  /** The five brackets of the upside: above 20, above 5, above -5, above -20, the rest. */
  function Recommend(upside: real): (r: Recommendation)
    ensures r == StrongBuy <==> upside > 20.0
    ensures r == Buy <==> 5.0 < upside <= 20.0
    ensures r == Hold <==> -5.0 < upside <= 5.0
    ensures r == Sell <==> -20.0 < upside <= -5.0
    ensures r == StrongSell <==> upside <= -20.0
  {
    if upside > 20.0 then StrongBuy
    else if upside > 5.0 then Buy
    else if upside > -5.0 then Hold
    else if upside > -20.0 then Sell
    else StrongSell
  }

  /** A larger upside never gets a weaker recommendation. */
  lemma RecommendMonotone(u1: real, u2: real)
    requires u1 <= u2
    ensures Recommend(u1).Rank() <= Recommend(u2).Rank()
  {
  }

  /** A price below the fair value means a positive upside, and so at least Hold. */
  lemma UnderpricedAtLeastHold(latestFcf: real, shares: real, multiple: real, currentPrice: real)
    requires currentPrice > 0.0 && shares != 0.0
    requires latestFcf / shares * multiple > currentPrice
    ensures EstimateValue(latestFcf, shares, multiple, currentPrice).value.upside > 0.0
    ensures Recommend(EstimateValue(latestFcf, shares, multiple, currentPrice).value.upside).Rank() >= Hold.Rank()
  {
    var fair := latestFcf / shares * multiple;
    DivAboveOne(fair, currentPrice);
  }

  lemma DivAboveOne(a: real, b: real)
    requires b > 0.0 && a > b
    ensures a / b > 1.0
  {
    assert a / b * b == a;
  }
}
