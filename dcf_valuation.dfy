/**
 * The valuation arithmetic of backend/dcf_model.py: the helper formulas
 * `calculate_owners_earnings`, `calculate_terminal_value` and
 * `calculate_npv`, and `calculate_intrinsic_value` with its inner
 * `calculate_present_value`, fed with the record the normaliser returns.
 */
module DcfValuation {
  import opened Wrappers
  import opened Numbers
  import opened DcfNormalize

  /** The errors raised on the valuation path. */
  datatype ValuationError =
    | InvalidRate              // gordon: discount rate <= perpetual growth
    | EmptyProjection          // `cash_flows[-1]` on an empty projection (years < 1)
    | InvalidDiscountRate      // present value with rate <= -1
    | NoShares                 // shares outstanding <= 0
    | NonPositiveValue         // per-share value <= 0
    | ZeroDivision             // Python's ZeroDivisionError in a helper formula

  /** `calculate_owners_earnings`: operating cash flow less maintenance capex. */
  function OwnersEarnings(operatingCashflow: real, maintenanceCapex: real): (r: real)
    ensures r + maintenanceCapex == operatingCashflow
  {
    operatingCashflow - maintenanceCapex
  }

  /** Each FCF the normaliser produces is the owner's earnings of that period's report. */
  lemma NormalizerFcfIsOwnersEarnings(cashFlows: seq<Report>, n: nat, i: nat)
    requires i < n <= |cashFlows|
    ensures FcfSeries(cashFlows, n)[i]
      == OwnersEarnings(Field(cashFlows[i], "operatingCashflow"), Field(cashFlows[i], "capitalExpenditures"))
  {
    FcfSeriesAt(cashFlows, n);
  }

  // ---------------------------------------------------------------------
  // Helper formulas
  // ---------------------------------------------------------------------

  /** Terminal growth of the standalone helper: half the growth rate, capped at 4%. */
  function HelperTerminalGrowth(growthRate: real): real {
    Min(growthRate / 2.0, 0.04)
  }

  /**
   * `calculate_terminal_value`: Gordon growth with the 4% cap and no guard
   * (a zero denominator raises, a negative one yields a negative value), or
   * a 15x multiple for any other method.
   */
  function HelperTerminalValue(finalCashflow: real, growthRate: real, discountRate: real, terminalMethod: string): (r: Result<real, ValuationError>)
    ensures terminalMethod == "gordon" ==> (r.Err? <==> discountRate == HelperTerminalGrowth(growthRate))
    ensures terminalMethod == "gordon" && r.Ok? ==>
      r.value * (discountRate - HelperTerminalGrowth(growthRate)) == finalCashflow * (1.0 + HelperTerminalGrowth(growthRate))
    ensures terminalMethod != "gordon" ==> r == Ok(finalCashflow * 15.0)
  {
    if terminalMethod == "gordon" then
      var terminalGrowth := HelperTerminalGrowth(growthRate);
      if discountRate - terminalGrowth == 0.0 then Err(ZeroDivision)
      else Ok(finalCashflow * (1.0 + terminalGrowth) / (discountRate - terminalGrowth))
    else Ok(finalCashflow * 15.0)
  }

  /** `sum(cf / (1 + rate) ** (i + 1) for i, cf in enumerate(cash_flows))` */
  function Npv(cashFlows: seq<real>, rate: real): real
    requires rate != -1.0
    decreases |cashFlows|
  {
    if cashFlows == [] then 0.0
    else
      PowNonZero(1.0 + rate, |cashFlows|);
      Npv(cashFlows[..|cashFlows| - 1], rate) + cashFlows[|cashFlows| - 1] / Pow(1.0 + rate, |cashFlows|)
  }

  /** `calculate_npv`: raises ZeroDivisionError exactly when a flow is divided by (1 + -1) ** k. */
  function CalculateNpv(cashFlows: seq<real>, rate: real): (r: Result<real, ValuationError>)
    ensures r.Err? <==> (cashFlows != [] && rate == -1.0)
    ensures cashFlows == [] ==> r == Ok(0.0)
  {
    if rate == -1.0 then (if cashFlows == [] then Ok(0.0) else Err(ZeroDivision))
    else Ok(Npv(cashFlows, rate))
  }

  lemma DivPositive(a: real, b: real)
    requires a > 0.0 && b > 0.0
    ensures a / b > 0.0
  {
  }

  /** Positive flows discounted at a rate above -100% have a positive NPV. */
  lemma {:induction false} NpvPositive(cashFlows: seq<real>, rate: real)
    requires rate > -1.0 && cashFlows != []
    requires forall i :: 0 <= i < |cashFlows| ==> cashFlows[i] > 0.0
    ensures Npv(cashFlows, rate) > 0.0
    decreases |cashFlows|
  {
    var n := |cashFlows|;
    PowPositive(1.0 + rate, n);
    DivPositive(cashFlows[n - 1], Pow(1.0 + rate, n));
    if n > 1 {
      NpvPositive(cashFlows[..n - 1], rate);
    }
  }

  /** `calculate_present_value`: the amount whose growth at `rate` over `year` years is `futureValue`. */
  function PresentValue(futureValue: real, rate: real, year: nat): (r: Result<real, ValuationError>)
    ensures r.Err? <==> rate <= -1.0
    ensures r.Ok? ==> r.value * Pow(1.0 + rate, year) == futureValue
  {
    if rate <= -1.0 then Err(InvalidDiscountRate)
    else
      PowPositive(1.0 + rate, year);
      Ok(futureValue / Pow(1.0 + rate, year))
  }

  // ---------------------------------------------------------------------
  // Growth schedule and projection
  // ---------------------------------------------------------------------

  /** The historical growth clamped to [2%, 20%], used when no rate is given. */
  function ClampGrowth(historical: real): (g: real)
    ensures 0.02 <= g <= 0.20
    ensures 0.02 <= historical <= 0.20 ==> g == historical
    ensures historical < 0.02 ==> g == 0.02
    ensures historical > 0.20 ==> g == 0.20
  {
    Max(Min(historical, 0.20), 0.02)
  }

  function ResolveGrowth(requested: Option<real>, historical: real): real {
    match requested
    case Some(g) => g
    case None => ClampGrowth(historical)
  }

  /** The growth applied in `year`: the rate itself for years 1-5, then a linear fade floored at 3%. */
  function YearGrowth(growthRate: real, year: nat): real {
    if year <= 5 then growthRate
    else Max(growthRate * (1.0 - (year - 5) as real / 10.0), 0.03)
  }

  lemma YearGrowthSchedule(growthRate: real, year: nat)
    ensures year <= 5 ==> YearGrowth(growthRate, year) == growthRate
    ensures year > 5 ==> YearGrowth(growthRate, year) >= 0.03
    ensures growthRate >= 0.0 ==> YearGrowth(growthRate, year) >= 0.0
    ensures growthRate >= 0.03 ==> YearGrowth(growthRate, year) <= growthRate
  {
  }

  /** After year 5 the rate only fades (for a non-negative rate), and it never rises above the rate or 3%. */
  lemma YearGrowthFades(growthRate: real, y1: nat, y2: nat)
    requires growthRate >= 0.0 && 5 < y1 <= y2
    ensures YearGrowth(growthRate, y2) <= YearGrowth(growthRate, y1) <= Max(growthRate, 0.03)
  {
    var f1 := 1.0 - (y1 - 5) as real / 10.0;
    var f2 := 1.0 - (y2 - 5) as real / 10.0;
    assert f2 <= f1 <= 1.0;
    assert growthRate * f2 <= growthRate * f1 <= growthRate;
  }

  /** The worked example: 10% growth gives 9% in year 6, 5% in year 10 and the 3% floor in year 15. */
  lemma YearGrowthExample()
    ensures YearGrowth(0.10, 6) == 0.09
    ensures YearGrowth(0.10, 10) == 0.05
    ensures YearGrowth(0.10, 15) == 0.03
  {
  }

  /** The flow projected for `year`: compounded at that year's own rate. */
  function ProjectedFlow(baseFcf: real, growthRate: real, year: nat): real {
    baseFcf * Pow(1.0 + YearGrowth(growthRate, year), year)
  }

  /** The flows of years 1..n. */
  function Projection(baseFcf: real, growthRate: real, n: nat): (flows: seq<real>)
    ensures |flows| == n
    decreases n
  {
    if n == 0 then [] else Projection(baseFcf, growthRate, n - 1) + [ProjectedFlow(baseFcf, growthRate, n)]
  }

  lemma {:induction false} ProjectionAt(baseFcf: real, growthRate: real, n: nat)
    ensures forall i :: 0 <= i < n ==> Projection(baseFcf, growthRate, n)[i] == ProjectedFlow(baseFcf, growthRate, i + 1)
    decreases n
  {
    if n > 0 {
      ProjectionAt(baseFcf, growthRate, n - 1);
    }
  }

  function Horizon(years: int): nat {
    if years < 0 then 0 else years
  }

  /** The `for year in range(1, years + 1)` loop that appends each projected flow. */
  method ProjectCashFlows(baseFcf: real, growthRate: real, years: int) returns (flows: seq<real>)
    ensures |flows| == Horizon(years)
    ensures flows == Projection(baseFcf, growthRate, Horizon(years))
  {
    flows := [];
    var year: nat := 1;
    while year <= years
      invariant 1 <= year <= Horizon(years) + 1
      invariant flows == Projection(baseFcf, growthRate, year - 1)
    {
      // projected_fcf = base_fcf * (1 + year_growth) ** year
      flows := flows + [ProjectedFlow(baseFcf, growthRate, year)];
      year := year + 1;
    }
  }

  /** With a positive base and a non-negative rate every projected flow is positive. */
  lemma ProjectionPositive(baseFcf: real, growthRate: real, n: nat)
    requires baseFcf > 0.0 && growthRate >= 0.0
    ensures forall i :: 0 <= i < n ==> Projection(baseFcf, growthRate, n)[i] > 0.0
  {
    ProjectionAt(baseFcf, growthRate, n);
    forall i | 0 <= i < n
      ensures Projection(baseFcf, growthRate, n)[i] > 0.0
    {
      YearGrowthSchedule(growthRate, i + 1);
      PowPositive(1.0 + YearGrowth(growthRate, i + 1), i + 1);
    }
  }

  // ---------------------------------------------------------------------
  // Terminal value and the whole valuation
  // ---------------------------------------------------------------------

  /** Perpetual growth of the inline path: half the growth rate, capped at 3%. */
  function PerpetualGrowth(growthRate: real): real {
    Min(growthRate / 2.0, 0.03)
  }

  /** The terminal value of `calculate_intrinsic_value`: Gordon with the 3% cap and its guard, or 12x the last flow. */
  function TerminalValue(flows: seq<real>, growthRate: real, discountRate: real, terminalMethod: string): (r: Result<real, ValuationError>)
    ensures terminalMethod == "gordon" ==> (r == Err(InvalidRate) <==> discountRate <= PerpetualGrowth(growthRate))
    ensures r.Ok? ==> flows != []
    ensures terminalMethod == "gordon" && r.Ok? ==>
      r.value * (discountRate - PerpetualGrowth(growthRate)) == flows[|flows| - 1] * (1.0 + PerpetualGrowth(growthRate))
    ensures terminalMethod != "gordon" ==> r == (if flows == [] then Err(EmptyProjection) else Ok(12.0 * flows[|flows| - 1]))
  {
    if terminalMethod == "gordon" then
      var perpetual := PerpetualGrowth(growthRate);
      if discountRate <= perpetual then Err(InvalidRate)
      else if flows == [] then Err(EmptyProjection)
      else Ok(flows[|flows| - 1] * (1.0 + perpetual) / (discountRate - perpetual))
    else if flows == [] then Err(EmptyProjection)
    else Ok(flows[|flows| - 1] * 12.0)
  }

  /** The worked example: a last flow of 1,000,000 under the exit multiple gives 12,000,000. */
  lemma ExitMultipleExample()
    ensures TerminalValue([1000000.0], 0.10, 0.10, "multiple") == Ok(12000000.0)
  {
  }

  /** The `dcf_analysis` record of the source (before rounding). */
  datatype DcfAnalysis = DcfAnalysis(
    baseFcf: real,
    growthRate: real,
    discountRate: real,
    projectedCashFlows: seq<real>,
    terminalValue: real,
    npvCashFlows: real,
    npvTerminal: real,
    totalValue: real,
    perShareValue: real)

  /** The present values, their total and the per-share value, once the terminal value is known. */
  function Discounted(base: real, g: real, flows: seq<real>, terminal: real, discountRate: real, shares: real): Result<DcfAnalysis, ValuationError> {
    if discountRate <= -1.0 then Err(InvalidDiscountRate)
    else
      PowPositive(1.0 + discountRate, |flows|);
      var npvFlows := Npv(flows, discountRate);
      var npvTerminal := terminal / Pow(1.0 + discountRate, |flows|);
      var total := npvFlows + npvTerminal;
      if shares <= 0.0 then Err(NoShares)
      else if total / shares <= 0.0 then Err(NonPositiveValue)
      else Ok(DcfAnalysis(base, g, discountRate, flows, terminal, npvFlows, npvTerminal, total, total / shares))
  }

  /** `calculate_intrinsic_value` as a value, checks in the order the source makes them. */
  function Intrinsic(fin: Financials, growthRate: Option<real>, discountRate: real, years: int, terminalMethod: string): Result<DcfAnalysis, ValuationError> {
    var g := ResolveGrowth(growthRate, fin.historicalGrowth);
    var flows := Projection(fin.averageFcf, g, Horizon(years));
    match TerminalValue(flows, g, discountRate, terminalMethod)
    case Err(e) => Err(e)
    case Ok(terminal) => Discounted(fin.averageFcf, g, flows, terminal, discountRate, fin.market.sharesOutstanding)
  }

  /** The present-value generator of the source: flow k (from 1) divided by (1 + rate) ** k, summed. */
  method DiscountFlows(flows: seq<real>, rate: real) returns (npv: real)
    requires rate > -1.0
    ensures npv == Npv(flows, rate)
  {
    npv := 0.0;
    var k := 0;
    while k < |flows|
      invariant 0 <= k <= |flows|
      invariant npv == Npv(flows[..k], rate)
    {
      assert flows[..k + 1][..k] == flows[..k];
      PowPositive(1.0 + rate, k + 1);
      npv := npv + flows[k] / Pow(1.0 + rate, k + 1);
      k := k + 1;
    }
    assert flows[..|flows|] == flows;
  }

  /**
   * `calculate_intrinsic_value`, with the projection loop and the
   * present-value generator written as loops.
   */
  method IntrinsicValue(fin: Financials, growthRate: Option<real>, discountRate: real, years: int, terminalMethod: string)
    returns (r: Result<DcfAnalysis, ValuationError>)
    ensures r == Intrinsic(fin, growthRate, discountRate, years, terminalMethod)
  {
    var base := fin.averageFcf;
    var g := if growthRate.Some? then growthRate.value else Max(Min(fin.historicalGrowth, 0.20), 0.02);
    var flows := ProjectCashFlows(base, g, years);
    var terminal := TerminalValue(flows, g, discountRate, terminalMethod);
    if terminal.Err? {
      return Err(terminal.error);
    }
    if discountRate <= -1.0 {
      return Err(InvalidDiscountRate);
    }
    var npvFlows := DiscountFlows(flows, discountRate);
    var npvTerminal := PresentValue(terminal.value, discountRate, |flows|).value;
    var total := npvFlows + npvTerminal;
    var shares := fin.market.sharesOutstanding;
    if shares <= 0.0 {
      return Err(NoShares);
    }
    var perShare := total / shares;
    if perShare <= 0.0 {
      return Err(NonPositiveValue);
    }
    r := Ok(DcfAnalysis(base, g, discountRate, flows, terminal.value, npvFlows, npvTerminal, total, perShare));
  }

  /**
   * What a returned valuation guarantees: a positive per-share value equal to
   * the two present values over the share count, `years` projected flows
   * whose NPV is `calculate_npv` of them, and a terminal value discounted
   * over `years` years.
   */
  lemma IntrinsicResult(fin: Financials, growthRate: Option<real>, discountRate: real, years: int, terminalMethod: string)
    requires Intrinsic(fin, growthRate, discountRate, years, terminalMethod).Ok?
    ensures var a := Intrinsic(fin, growthRate, discountRate, years, terminalMethod).value;
      && years >= 1
      && a.perShareValue > 0.0
      && fin.market.sharesOutstanding > 0.0
      && a.perShareValue == (a.npvCashFlows + a.npvTerminal) / fin.market.sharesOutstanding
      && |a.projectedCashFlows| == years
      && (forall i :: 0 <= i < years ==> a.projectedCashFlows[i] == ProjectedFlow(a.baseFcf, a.growthRate, i + 1))
      && CalculateNpv(a.projectedCashFlows, discountRate) == Ok(a.npvCashFlows)
      && PresentValue(a.terminalValue, discountRate, years) == Ok(a.npvTerminal)
  {
    var g := ResolveGrowth(growthRate, fin.historicalGrowth);
    ProjectionAt(fin.averageFcf, g, Horizon(years));
  }

  /** The error raised for each failing input, in the order the source checks. */
  lemma IntrinsicErrors(fin: Financials, growthRate: Option<real>, discountRate: real, years: int, terminalMethod: string)
    ensures var g := ResolveGrowth(growthRate, fin.historicalGrowth);
      var r := Intrinsic(fin, growthRate, discountRate, years, terminalMethod);
      && (terminalMethod == "gordon" && discountRate <= PerpetualGrowth(g) ==> r == Err(InvalidRate))
      && (!(terminalMethod == "gordon" && discountRate <= PerpetualGrowth(g)) && years < 1 ==> r == Err(EmptyProjection))
      && (!(terminalMethod == "gordon" && discountRate <= PerpetualGrowth(g)) && years >= 1 && discountRate <= -1.0 ==> r == Err(InvalidDiscountRate))
      && (!(terminalMethod == "gordon" && discountRate <= PerpetualGrowth(g)) && years >= 1 && discountRate > -1.0 && fin.market.sharesOutstanding <= 0.0 ==> r == Err(NoShares))
  {
  }

  /**
   * A viable company always gets a valuation: positive average FCF and share
   * count, a non-negative growth rate (or the clamped historical one), at
   * least one projected year, and a discount rate above the perpetual growth
   * (Gordon) or above -100% (exit multiple).
   */
  lemma ViableInputsAreValued(fin: Financials, growthRate: Option<real>, discountRate: real, years: int, terminalMethod: string)
    requires fin.averageFcf > 0.0 && fin.market.sharesOutstanding > 0.0
    requires growthRate.None? || growthRate.value >= 0.0
    requires years >= 1
    requires terminalMethod == "gordon" ==> discountRate > PerpetualGrowth(ResolveGrowth(growthRate, fin.historicalGrowth))
    requires discountRate > -1.0
    ensures Intrinsic(fin, growthRate, discountRate, years, terminalMethod).Ok?
  {
    var g := ResolveGrowth(growthRate, fin.historicalGrowth);
    var flows := Projection(fin.averageFcf, g, years);
    ProjectionPositive(fin.averageFcf, g, years);
    var terminal := TerminalValue(flows, g, discountRate, terminalMethod);
    TerminalPositive(flows, g, discountRate, terminalMethod);
    DiscountedPositive(fin.averageFcf, g, flows, terminal.value, discountRate, fin.market.sharesOutstanding);
  }

  lemma TerminalPositive(flows: seq<real>, growthRate: real, discountRate: real, terminalMethod: string)
    requires flows != [] && flows[|flows| - 1] > 0.0 && growthRate >= 0.0
    requires terminalMethod == "gordon" ==> discountRate > PerpetualGrowth(growthRate)
    ensures TerminalValue(flows, growthRate, discountRate, terminalMethod).Ok?
    ensures TerminalValue(flows, growthRate, discountRate, terminalMethod).value > 0.0
  {
    if terminalMethod == "gordon" {
      var p := PerpetualGrowth(growthRate);
      var last := flows[|flows| - 1];
      DivPositive(last * (1.0 + p), discountRate - p);
    }
  }

  lemma DiscountedPositive(base: real, g: real, flows: seq<real>, terminal: real, discountRate: real, shares: real)
    requires flows != [] && terminal > 0.0 && discountRate > -1.0 && shares > 0.0
    requires forall i :: 0 <= i < |flows| ==> flows[i] > 0.0
    ensures Discounted(base, g, flows, terminal, discountRate, shares).Ok?
  {
    NpvPositive(flows, discountRate);
    PowPositive(1.0 + discountRate, |flows|);
    DivPositive(terminal, Pow(1.0 + discountRate, |flows|));
    var total := Npv(flows, discountRate) + terminal / Pow(1.0 + discountRate, |flows|);
    DivPositive(total, shares);
  }

  /** Both terminal-value formulas agree under Gordon whenever the growth cap does not bite; the helper's multiple is 15/12 of the inline one. */
  lemma HelperAgreesWithInline(flows: seq<real>, growthRate: real, discountRate: real, terminalMethod: string)
    requires flows != [] && growthRate / 2.0 <= 0.03
    requires TerminalValue(flows, growthRate, discountRate, terminalMethod).Ok?
    ensures terminalMethod == "gordon" ==>
      HelperTerminalValue(flows[|flows| - 1], growthRate, discountRate, terminalMethod) == TerminalValue(flows, growthRate, discountRate, terminalMethod)
    ensures terminalMethod != "gordon" ==>
      HelperTerminalValue(flows[|flows| - 1], growthRate, discountRate, terminalMethod).value
        == TerminalValue(flows, growthRate, discountRate, terminalMethod).value * 15.0 / 12.0
  {
    var p := growthRate / 2.0;
    assert HelperTerminalGrowth(growthRate) == PerpetualGrowth(growthRate) == p;
    var last := flows[|flows| - 1];
    if terminalMethod == "gordon" {
      var h := HelperTerminalValue(last, growthRate, discountRate, terminalMethod);
      var t := TerminalValue(flows, growthRate, discountRate, terminalMethod);
      assert h.Ok? && h.value == last * (1.0 + p) / (discountRate - p);
      assert t.Ok? && t.value == last * (1.0 + p) / (discountRate - p);
    }
  }
}
