/**
 * The valuation rules of `YahooFinanceAPI` (backend/yahoo_finance.py):
 * compound growth, the FCF quality ratios, the CAPM/WACC estimate, the
 * bracketed FCF multiple and the free-cash-flow history extracted from a
 * cash-flow statement, with the statements and the `info` fields passed in
 * as values.
 */
module YahooFinance {
  import opened Wrappers
  import opened Numbers
  import opened Text
  import opened Frames

  // ---------------------------------------------------------------------
  // Alias scans over statement rows
  // ---------------------------------------------------------------------

  const NetIncomeAliases: seq<string> := ["Net Income", "Net Income Common Stockholders"]

  const OcfAliases: seq<string> := [
    "Total Cash From Operating Activities",
    "Operating Cash Flow",
    "Cash Flow From Operating Activities",
    "Net Operating Cash Flow",
    "Cash Flow from Operating Activities"]

  const CapexAliases: seq<string> := [
    "Capital Expenditures",
    "Purchase Of Plant And Equipment",
    "Purchase Of Property And Equipment",
    "Property Plant And Equipment",
    "Capex",
    "Capital Expenditure"]

  const DebtAliases: seq<string> := ["Total Debt", "Long Term Debt", "Short Long Term Debt", "Current Debt"]

  const InterestAliases: seq<string> := ["Interest Expense", "Interest Expense Non Operating", "Interest Expense Net"]

  const WorkingCapitalAliases: seq<string> := ["Change In Working Capital", "Changes In Working Capital"]

  /**
   * The `for field in aliases: if field in df.index: ...; break` scan: the
   * latest value of the first alias, in list order, that the statement has.
   */
  function FirstAlias(f: Frame, aliases: seq<string>): (r: Lookup)
    ensures r.Missing? <==> forall i :: 0 <= i < |aliases| ==> !Has(f, aliases[i])
    ensures !r.Missing? ==>
      exists i :: 0 <= i < |aliases| && Has(f, aliases[i]) && r == Latest(f, aliases[i]) &&
        forall k :: 0 <= k < i ==> !Has(f, aliases[k])
    decreases |aliases|
  {
    if aliases == [] then Missing
    else if Has(f, aliases[0]) then Latest(f, aliases[0])
    else
      var r := FirstAlias(f, aliases[1..]);
      if r.Missing? then r
      else
        ghost var i :| 0 <= i < |aliases[1..]| && Has(f, aliases[1..][i]) && r == Latest(f, aliases[1..][i]) &&
          forall k :: 0 <= k < i ==> !Has(f, aliases[1..][k]);
        assert forall k :: 0 <= k < i + 1 ==> !Has(f, aliases[k]) by {
          forall k | 0 <= k < i + 1
            ensures !Has(f, aliases[k])
          {
            if k > 0 {
              assert aliases[k] == aliases[1..][k - 1];
            }
          }
        }
        r
  }

  method FindFirstAlias(f: Frame, aliases: seq<string>) returns (r: Lookup)
    ensures r == FirstAlias(f, aliases)
  {
    r := Missing;
    var i := 0;
    while i < |aliases|
      invariant 0 <= i <= |aliases|
      invariant FirstAlias(f, aliases) == FirstAlias(f, aliases[i..])
    {
      assert aliases[i..][1..] == aliases[i + 1..];
      if Has(f, aliases[i]) {
        r := Latest(f, aliases[i]);
        return;
      }
      i := i + 1;
    }
  }

  /**
   * The `total += float(df.loc[field].iloc[0])` scan over every alias the
   * statement has (absolute values when `absolute`); `None` when one of the
   * values read is NaN.
   */
  function AliasTotal(f: Frame, aliases: seq<string>, absolute: bool): Option<real>
    decreases |aliases|
  {
    if aliases == [] then Some(0.0)
    else match AliasTotal(f, aliases[..|aliases| - 1], absolute)
      case None => None
      case Some(t) => match Latest(f, aliases[|aliases| - 1])
        case Missing => Some(t)
        case NotANumber => None
        case Found(x) => Some(t + if absolute then Abs(x) else x)
  }

  method SumAliases(f: Frame, aliases: seq<string>, absolute: bool) returns (r: Option<real>)
    ensures r == AliasTotal(f, aliases, absolute)
  {
    var total := 0.0;
    for i := 0 to |aliases|
      invariant AliasTotal(f, aliases[..i], absolute) == Some(total)
    {
      assert aliases[..i + 1][..i] == aliases[..i];
      match Latest(f, aliases[i])
      case Missing =>
      case NotANumber =>
        NaNStaysFailed(f, aliases, i + 1, absolute);
        return None;
      case Found(x) =>
        total := total + if absolute then Abs(x) else x;
    }
    assert aliases[..|aliases|] == aliases;
    r := Some(total);
  }

  /** Once a NaN has been read, no longer alias list recovers a total. */
  lemma {:induction false} NaNStaysFailed(f: Frame, aliases: seq<string>, i: nat, absolute: bool)
    requires i <= |aliases|
    requires AliasTotal(f, aliases[..i], absolute).None?
    ensures AliasTotal(f, aliases, absolute).None?
    decreases |aliases| - i
  {
    if i < |aliases| {
      assert aliases[..i + 1][..i] == aliases[..i];
      NaNStaysFailed(f, aliases, i + 1, absolute);
    } else {
      assert aliases[..i] == aliases;
    }
  }

  /** A single alias contributes its value when present and nothing when absent. */
  lemma AliasTotalSingle(f: Frame, name: string, absolute: bool)
    ensures !Has(f, name) ==> AliasTotal(f, [name], absolute) == Some(0.0)
    ensures Latest(f, name).Found? ==>
      AliasTotal(f, [name], absolute) == Some(if absolute then Abs(Latest(f, name).v) else Latest(f, name).v)
  {
    assert [name][..0] == [];
  }

  /**
   * The total over a longer alias list is the total over its parts: every
   * present alias is added, not only the first one.
   */
  lemma {:induction false} AliasTotalConcat(f: Frame, a: seq<string>, b: seq<string>, absolute: bool)
    ensures AliasTotal(f, a + b, absolute).Some? <==>
      AliasTotal(f, a, absolute).Some? && AliasTotal(f, b, absolute).Some?
    ensures AliasTotal(f, a + b, absolute).Some? ==>
      AliasTotal(f, a + b, absolute).value == AliasTotal(f, a, absolute).value + AliasTotal(f, b, absolute).value
    decreases |b|
  {
    if b == [] {
      assert a + b == a;
    } else {
      var b' := b[..|b| - 1];
      assert (a + b)[..|a + b| - 1] == a + b';
      assert (a + b)[|a + b| - 1] == b[|b| - 1];
      AliasTotalConcat(f, a, b', absolute);
    }
  }

  /** Summing absolute values never gives a negative total. */
  lemma {:induction false} AbsoluteTotalNonNegative(f: Frame, aliases: seq<string>)
    ensures AliasTotal(f, aliases, true).Some? ==> AliasTotal(f, aliases, true).value >= 0.0
    decreases |aliases|
  {
    if aliases != [] {
      AbsoluteTotalNonNegative(f, aliases[..|aliases| - 1]);
    }
  }

  // ---------------------------------------------------------------------
  // calculate_quality_metrics
  // ---------------------------------------------------------------------

  /** The three quality figures; `debtToFcf` is `float('inf')` when FCF is zero. */
  datatype Quality = Quality(fcfToIncome: real, debtToFcf: Ext, workingCapitalChange: real)

  /** What any failure returns. */
  const QualityFallback := Quality(0.0, PosInf, 0.0)

  /** The ratios computed from the values read, with `fcf = ocf + capex`. */
  function Ratios(netIncome: real, ocf: real, capex: real, totalDebt: real, workingCapital: real): (q: Quality)
    ensures netIncome == 0.0 ==> q.fcfToIncome == 0.0
    ensures netIncome != 0.0 ==> q.fcfToIncome * netIncome == (ocf + capex) * 100.0
    ensures q.debtToFcf.PosInf? <==> ocf + capex == 0.0
    ensures q.debtToFcf.Finite? ==> q.debtToFcf.value * (ocf + capex) == totalDebt
    ensures q.workingCapitalChange == workingCapital
  {
    var fcf := ocf + capex;
    Quality(
      if netIncome != 0.0 then fcf / netIncome * 100.0 else 0.0,
      if fcf != 0.0 then Finite(totalDebt / fcf) else PosInf,
      workingCapital)
  }

  /** `stock.income_stmt`, falling back to `stock.financials` when it is empty. */
  function IncomeStatement(incomeStmt: Frame, financials: Frame): Frame {
    if incomeStmt.IsEmpty() then financials else incomeStmt
  }

  /** The quality figures of a company, from its income, balance and cash-flow statements. */
  function QualityOf(incomeStmt: Frame, financials: Frame, balance: Frame, cashFlow: Frame): Quality {
    var income := IncomeStatement(incomeStmt, financials);
    if income.IsEmpty() || balance.IsEmpty() || cashFlow.IsEmpty() then QualityFallback
    else
      var netIncome := FirstAlias(income, NetIncomeAliases);
      var ocf := FirstAlias(cashFlow, OcfAliases);
      var capex := FirstAlias(cashFlow, CapexAliases);
      var debt := AliasTotal(balance, DebtAliases, false);
      var workingCapital := FirstAlias(cashFlow, WorkingCapitalAliases);
      if !netIncome.Found? || !ocf.Found? || capex.NotANumber? || debt.None? || workingCapital.NotANumber?
      then QualityFallback
      else Ratios(netIncome.v, ocf.v, capex.Or(0.0), debt.value, workingCapital.Or(0.0))
  }

  method CalculateQualityMetrics(incomeStmt: Frame, financials: Frame, balance: Frame, cashFlow: Frame)
    returns (q: Quality)
    ensures q == QualityOf(incomeStmt, financials, balance, cashFlow)
  {
    var income := incomeStmt;
    if income.IsEmpty() {
      income := financials;
    }
    if income.IsEmpty() || balance.IsEmpty() || cashFlow.IsEmpty() {
      return QualityFallback;
    }
    var netIncome := FindFirstAlias(income, NetIncomeAliases);
    if !netIncome.Found? {
      return QualityFallback;
    }
    var ocf := FindFirstAlias(cashFlow, OcfAliases);
    if !ocf.Found? {
      return QualityFallback;
    }
    var capex := FindFirstAlias(cashFlow, CapexAliases);
    if capex.NotANumber? {
      return QualityFallback;
    }
    var debt := SumAliases(balance, DebtAliases, false);
    if debt.None? {
      return QualityFallback;
    }
    var workingCapital := FindFirstAlias(cashFlow, WorkingCapitalAliases);
    if workingCapital.NotANumber? {
      return QualityFallback;
    }
    q := Ratios(netIncome.v, ocf.v, capex.Or(0.0), debt.value, workingCapital.Or(0.0));
  }

  /** The fallback cases: an empty statement, or no net-income or operating-cash-flow alias. */
  lemma QualityFallbackCases(incomeStmt: Frame, financials: Frame, balance: Frame, cashFlow: Frame)
    ensures var income := IncomeStatement(incomeStmt, financials);
      income.IsEmpty() || balance.IsEmpty() || cashFlow.IsEmpty() ==>
      QualityOf(incomeStmt, financials, balance, cashFlow) == QualityFallback
    ensures (forall i :: 0 <= i < |NetIncomeAliases| ==> !Has(IncomeStatement(incomeStmt, financials), NetIncomeAliases[i])) ==>
      QualityOf(incomeStmt, financials, balance, cashFlow) == QualityFallback
    ensures (forall i :: 0 <= i < |OcfAliases| ==> !Has(cashFlow, OcfAliases[i])) ==>
      QualityOf(incomeStmt, financials, balance, cashFlow) == QualityFallback
  {
    var income := IncomeStatement(incomeStmt, financials);
    if forall i :: 0 <= i < |NetIncomeAliases| ==> !Has(income, NetIncomeAliases[i]) {
      assert FirstAlias(income, NetIncomeAliases).Missing?;
    }
    if forall i :: 0 <= i < |OcfAliases| ==> !Has(cashFlow, OcfAliases[i]) {
      assert FirstAlias(cashFlow, OcfAliases).Missing?;
    }
  }

  /**
   * With every statement present and net income and operating cash flow
   * found, the figures are the ratios of the first aliases found, with capex
   * and working capital 0 when no alias of theirs is present.
   */
  lemma QualityDefaults(incomeStmt: Frame, financials: Frame, balance: Frame, cashFlow: Frame)
    requires !IncomeStatement(incomeStmt, financials).IsEmpty() && !balance.IsEmpty() && !cashFlow.IsEmpty()
    requires FirstAlias(IncomeStatement(incomeStmt, financials), NetIncomeAliases).Found?
    requires FirstAlias(cashFlow, OcfAliases).Found?
    requires AliasTotal(balance, DebtAliases, false).Some?
    requires forall i :: 0 <= i < |CapexAliases| ==> !Has(cashFlow, CapexAliases[i])
    requires forall i :: 0 <= i < |WorkingCapitalAliases| ==> !Has(cashFlow, WorkingCapitalAliases[i])
    ensures QualityOf(incomeStmt, financials, balance, cashFlow) ==
      Ratios(FirstAlias(IncomeStatement(incomeStmt, financials), NetIncomeAliases).v, FirstAlias(cashFlow, OcfAliases).v,
        0.0, AliasTotal(balance, DebtAliases, false).value, 0.0)
  {
    var capex := FirstAlias(cashFlow, CapexAliases);
    var workingCapital := FirstAlias(cashFlow, WorkingCapitalAliases);
    assert capex.Missing? && capex.Or(0.0) == 0.0;
    assert workingCapital.Missing? && workingCapital.Or(0.0) == 0.0;
  }

  // ---------------------------------------------------------------------
  // calculate_wacc
  // ---------------------------------------------------------------------

  /** A value of `stock.info`: key absent, `None`, or a number. */
  datatype InfoField = Absent | Null | Num(x: real) {
    /** Python truthiness of the value `info.get(key)` returns. */
    predicate Truthy() {
      Num? && x != 0.0
    }
  }

  /** The `stock.info` fields the valuation reads. */
  datatype Info = Info(
    currentPrice: InfoField,
    regularMarketPrice: InfoField,
    sharesOutstanding: InfoField,
    beta: InfoField,
    marketCap: InfoField)

  const RiskFreeRate := 0.0425
  const MarketPremium := 0.06
  const TaxRate := 0.21
  const DefaultWacc := 8.0

  /** `info.get(key, default)` as a number: `None` when the key holds `None`. */
  function InfoNumber(field: InfoField, default: real): Option<real> {
    match field
      case Absent => Some(default)
      case Null => None
      case Num(x) => Some(x)
  }

  /** The share of equity in the capital structure; all equity when capital is not positive. */
  function EquityWeight(marketCap: real, totalDebt: real): (w: real)
    ensures marketCap + totalDebt <= 0.0 ==> w == 1.0
    ensures marketCap + totalDebt > 0.0 ==> w * (marketCap + totalDebt) == marketCap
    ensures marketCap >= 0.0 && totalDebt >= 0.0 ==> 0.0 <= w <= 1.0
  {
    var capital := marketCap + totalDebt;
    if capital > 0.0 then marketCap / capital else 1.0
  }

  /** CAPM cost of equity. */
  function CostOfEquity(beta: real): real {
    RiskFreeRate + beta * MarketPremium
  }

  /** Interest over debt after tax; nothing when there is no positive debt. */
  function AfterTaxCostOfDebt(interest: real, totalDebt: real): (c: real)
    ensures totalDebt <= 0.0 ==> c == 0.0
    ensures totalDebt > 0.0 ==> c * totalDebt == interest * (1.0 - TaxRate)
  {
    (if totalDebt > 0.0 then interest / totalDebt else 0.0) * (1.0 - TaxRate)
  }

  /** WACC in percent from the figures read. */
  function WaccFormula(beta: real, marketCap: real, totalDebt: real, interest: real): real {
    var w := EquityWeight(marketCap, totalDebt);
    (CostOfEquity(beta) * w + AfterTaxCostOfDebt(interest, totalDebt) * (1.0 - w)) * 100.0
  }

  /** The WACC of a company, or `DefaultWacc` on any failure. */
  function WaccOf(info: Info, balance: Frame, incomeStmt: Frame, financials: Frame): real {
    var income := IncomeStatement(incomeStmt, financials);
    if balance.IsEmpty() || income.IsEmpty() then DefaultWacc
    else
      var beta := InfoNumber(info.beta, 1.0);
      var debt := AliasTotal(balance, DebtAliases, false);
      var interest := AliasTotal(income, InterestAliases, true);
      var marketCap := InfoNumber(info.marketCap, 0.0);
      if beta.None? || debt.None? || interest.None? || marketCap.None? then DefaultWacc
      else WaccFormula(beta.value, marketCap.value, debt.value, interest.value)
  }

  method CalculateWacc(info: Info, balance: Frame, incomeStmt: Frame, financials: Frame) returns (wacc: real)
    ensures wacc == WaccOf(info, balance, incomeStmt, financials)
  {
    var income := incomeStmt;
    if income.IsEmpty() {
      income := financials;
    }
    if balance.IsEmpty() || income.IsEmpty() {
      return DefaultWacc;
    }
    var beta := InfoNumber(info.beta, 1.0);
    if beta.None? {
      return DefaultWacc;
    }
    var costOfEquity := CostOfEquity(beta.value);
    var totalDebt := SumAliases(balance, DebtAliases, false);
    if totalDebt.None? {
      return DefaultWacc;
    }
    var interestExpense := SumAliases(income, InterestAliases, true);
    if interestExpense.None? {
      return DefaultWacc;
    }
    var afterTaxCostOfDebt := AfterTaxCostOfDebt(interestExpense.value, totalDebt.value);
    var marketCap := InfoNumber(info.marketCap, 0.0);
    if marketCap.None? {
      return DefaultWacc;
    }
    var equityWeight := EquityWeight(marketCap.value, totalDebt.value);
    var debtWeight := 1.0 - equityWeight;
    wacc := (costOfEquity * equityWeight + afterTaxCostOfDebt * debtWeight) * 100.0;
  }

  /** With no debt the WACC is the CAPM cost of equity, whatever the market cap. */
  lemma WaccWithoutDebt(beta: real, marketCap: real, interest: real)
    ensures WaccFormula(beta, marketCap, 0.0, interest) == (RiskFreeRate + beta * MarketPremium) * 100.0
  {
  }

  /**
   * With a non-negative market cap and debt the WACC is a weighted mean of the
   * two costs, so it lies between them.
   */
  lemma WaccBetweenCosts(beta: real, marketCap: real, totalDebt: real, interest: real)
    requires marketCap >= 0.0 && totalDebt >= 0.0
    ensures var e := CostOfEquity(beta) * 100.0;
      var d := AfterTaxCostOfDebt(interest, totalDebt) * 100.0;
      Min(e, d) <= WaccFormula(beta, marketCap, totalDebt, interest) <= Max(e, d)
  {
    var w := EquityWeight(marketCap, totalDebt);
    var e := CostOfEquity(beta) * 100.0;
    var d := AfterTaxCostOfDebt(interest, totalDebt) * 100.0;
    assert WaccFormula(beta, marketCap, totalDebt, interest) == e * w + d * (1.0 - w);
    ConvexBetween(e, d, w);
  }

  lemma ConvexBetween(e: real, d: real, w: real)
    requires 0.0 <= w <= 1.0
    ensures Min(e, d) <= e * w + d * (1.0 - w) <= Max(e, d)
  {
    if e <= d {
      assert e * w + d * (1.0 - w) == e + (d - e) * (1.0 - w);
      MulMono(0.0, 0.0, d - e, 1.0 - w);
      MulMono(d - e, 1.0 - w, d - e, 1.0);
    } else {
      assert e * w + d * (1.0 - w) == d + (e - d) * w;
      MulMono(0.0, 0.0, e - d, w);
      MulMono(e - d, w, e - d, 1.0);
    }
  }

  /**
   * The failure cases return exactly 8.0: an empty statement, a `None` beta
   * or market cap; an absent beta is read as 1.0 and an absent market cap as 0.
   */
  lemma WaccDefaults(info: Info, balance: Frame, incomeStmt: Frame, financials: Frame)
    ensures balance.IsEmpty() || IncomeStatement(incomeStmt, financials).IsEmpty() ==>
      WaccOf(info, balance, incomeStmt, financials) == DefaultWacc
    ensures info.beta.Null? || info.marketCap.Null? ==> WaccOf(info, balance, incomeStmt, financials) == DefaultWacc
    ensures var income := IncomeStatement(incomeStmt, financials);
      var debt := AliasTotal(balance, DebtAliases, false);
      var interest := AliasTotal(income, InterestAliases, true);
      !balance.IsEmpty() && !income.IsEmpty() && info.beta.Absent? && info.marketCap.Absent? &&
      debt.Some? && interest.Some? ==>
      WaccOf(info, balance, incomeStmt, financials) == WaccFormula(1.0, 0.0, debt.value, interest.value)
  {
  }

  // ---------------------------------------------------------------------
  // get_dynamic_multiple
  // ---------------------------------------------------------------------

  /** The base multiple from the growth rate in percent: strict thresholds 15, 10 and 5. */
  function BaseMultiple(growthRate: real): (m: real)
    ensures m == 8.0 || m == 10.0 || m == 12.0 || m == 15.0
    ensures m == 15.0 <==> growthRate > 15.0
    ensures m == 8.0 <==> growthRate <= 5.0
  {
    if growthRate > 15.0 then 15.0
    else if growthRate > 10.0 then 12.0
    else if growthRate > 5.0 then 10.0
    else 8.0
  }

  /** The quality factor: ±0.2 for FCF/income above 90 or below 70, ±0.2 for debt/FCF below 3 or above 5. */
  function QualityScore(fcfToIncome: real, debtToFcf: Ext): (s: real)
    ensures s == 0.6 || s == 0.8 || s == 1.0 || s == 1.2 || s == 1.4
    ensures debtToFcf.PosInf? ==> s == (if fcfToIncome > 90.0 then 1.0 else if fcfToIncome < 70.0 then 0.6 else 0.8)
  {
    var s := 1.0 + (if fcfToIncome > 90.0 then 0.2 else if fcfToIncome < 70.0 then -0.2 else 0.0);
    s + (if debtToFcf.Below(3.0) then 0.2 else if debtToFcf.Above(5.0) then -0.2 else 0.0)
  }

  /** The WACC factor: 1.1 below 8%, 0.9 above 12%. */
  function WaccAdjustment(wacc: real): (a: real)
    ensures a == 0.9 || a == 1.0 || a == 1.1
    ensures a == 1.1 <==> wacc < 8.0
    ensures a == 0.9 <==> wacc > 12.0
  {
    if wacc < 8.0 then 1.1 else if wacc > 12.0 then 0.9 else 1.0
  }

  const DefaultMultiple := 10.0

  /**
   * The multiple for a growth rate, the quality figures (a `None` is a key
   * the dictionary lacks) and a WACC.
   */
  function MultipleOf(growthRate: real, fcfToIncome: Option<real>, debtToFcf: Option<Ext>, wacc: real): real {
    if fcfToIncome.None? || debtToFcf.None? then DefaultMultiple
    else BaseMultiple(growthRate) * QualityScore(fcfToIncome.value, debtToFcf.value) * WaccAdjustment(wacc)
  }

  method DynamicMultiple(growthRate: real, fcfToIncome: Option<real>, debtToFcf: Option<Ext>, wacc: real)
    returns (multiple: real)
    ensures multiple == MultipleOf(growthRate, fcfToIncome, debtToFcf, wacc)
  {
    var baseMultiple;
    if growthRate > 15.0 {
      baseMultiple := 15.0;
    } else if growthRate > 10.0 {
      baseMultiple := 12.0;
    } else if growthRate > 5.0 {
      baseMultiple := 10.0;
    } else {
      baseMultiple := 8.0;
    }
    if fcfToIncome.None? {
      return DefaultMultiple;
    }
    var qualityScore := 1.0;
    if fcfToIncome.value > 90.0 {
      qualityScore := qualityScore + 0.2;
    } else if fcfToIncome.value < 70.0 {
      qualityScore := qualityScore - 0.2;
    }
    if debtToFcf.None? {
      return DefaultMultiple;
    }
    if debtToFcf.value.Below(3.0) {
      qualityScore := qualityScore + 0.2;
    } else if debtToFcf.value.Above(5.0) {
      qualityScore := qualityScore - 0.2;
    }
    var waccAdjustment := 1.0;
    if wacc < 8.0 {
      waccAdjustment := 1.1;
    } else if wacc > 12.0 {
      waccAdjustment := 0.9;
    }
    multiple := baseMultiple * qualityScore * waccAdjustment;
  }

  /** A higher growth rate never gets a lower base multiple. */
  lemma BaseMultipleMonotone(g1: real, g2: real)
    requires g1 <= g2
    ensures BaseMultiple(g1) <= BaseMultiple(g2)
  {
  }

  lemma MulMono(a: real, b: real, c: real, d: real)
    requires 0.0 <= a <= c && 0.0 <= b <= d
    ensures a * b <= c * d
  {
    assert a * b <= c * b;
    assert c * b <= c * d;
  }

  /** Every multiple lies in [8·0.6·0.9, 15·1.4·1.1] = [4.32, 23.1]. */
  lemma MultipleBounds(growthRate: real, fcfToIncome: Option<real>, debtToFcf: Option<Ext>, wacc: real)
    ensures 4.32 <= MultipleOf(growthRate, fcfToIncome, debtToFcf, wacc) <= 23.1
  {
    if fcfToIncome.Some? && debtToFcf.Some? {
      var b := BaseMultiple(growthRate);
      var q := QualityScore(fcfToIncome.value, debtToFcf.value);
      var a := WaccAdjustment(wacc);
      MulMono(8.0, 0.6, b, q);
      MulMono(8.0 * 0.6, 0.9, b * q, a);
      MulMono(b, q, 15.0, 1.4);
      MulMono(b * q, a, 15.0 * 1.4, 1.1);
    }
  }

  // ---------------------------------------------------------------------
  // calculate_cagr
  // ---------------------------------------------------------------------

  /**
   * `pow(x, 1/n)`: Dafny has no real n-th root, so the root is a parameter of
   * the growth rules; `IsRoot` says when it is the genuine positive root.
   */
  type Root = (real, nat) -> real

  ghost predicate IsRoot(root: Root) {
    forall x: real, n: nat :: x > 0.0 && n >= 1 ==> root(x, n) > 0.0 && Pow(root(x, n), n) == x
  }

  /**
   * Compound growth in percent of `values` (newest first) over `years`
   * years; 0 with fewer than two values, fewer than one year or a
   * non-positive oldest value.
   */
  function Cagr(values: seq<real>, years: int, root: Root): (r: real)
    ensures |values| < 2 || years < 1 ==> r == 0.0
    ensures |values| >= 2 && values[|values| - 1] <= 0.0 ==> r == 0.0
    ensures |values| >= 2 && years >= 1 && values[|values| - 1] > 0.0 ==>
      r + 100.0 == root(values[0] / values[|values| - 1], years) * 100.0
  {
    if |values| < 2 || years < 1 then 0.0
    else
      var startValue := values[|values| - 1];
      var endValue := values[0];
      if startValue <= 0.0 then 0.0
      else (root(endValue / startValue, years as nat) - 1.0) * 100.0
  }

  /** The growth `_get_data_sync` computes as written: `len(history)` years. */
  function FcfGrowthAsWritten(history: seq<real>, root: Root): real {
    Cagr(history, |history|, root)
  }

  /** The growth of a history of n yearly values: n - 1 years between the oldest and the newest. */
  function FcfGrowth(history: seq<real>, root: Root): real {
    Cagr(history, |history| - 1, root)
  }

  lemma {:induction false} PowStrictlyMonotone(a: real, b: real, n: nat)
    requires 0.0 < a < b && n >= 1
    ensures Pow(a, n) < Pow(b, n)
    decreases n
  {
    if n > 1 {
      PowStrictlyMonotone(a, b, n - 1);
      PowPositive(a, n - 1);
      MulMono(a, Pow(a, n - 1), b, Pow(b, n - 1));
      assert a * Pow(a, n - 1) < b * Pow(a, n - 1);
    }
  }

  /** A positive number has one positive n-th root. */
  lemma RootUnique(root: Root, y: real, n: nat)
    requires IsRoot(root) && y > 0.0 && n >= 1
    ensures root(Pow(y, n), n) == y
  {
    PowPositive(y, n);
    var z := root(Pow(y, n), n);
    assert z > 0.0 && Pow(z, n) == Pow(y, n);
    if z < y {
      PowStrictlyMonotone(z, y, n);
    } else if y < z {
      PowStrictlyMonotone(y, z, n);
    }
  }

  /** Each value is `q` times the one a year older (values newest first). */
  predicate GrowsBy(history: seq<real>, q: real) {
    forall i :: 0 <= i < |history| - 1 ==> YearOnYear(history, q, i)
  }

  predicate YearOnYear(history: seq<real>, q: real, i: nat)
    requires i < |history| - 1
  {
    history[i] == q * history[i + 1]
  }

  /** The ratio of the newest to the oldest value of a history growing by `q` a year. */
  lemma {:induction false} GeometricRatio(history: seq<real>, q: real)
    requires |history| >= 1 && GrowsBy(history, q)
    ensures history[0] == Pow(q, |history| - 1) * history[|history| - 1]
    decreases |history|
  {
    if |history| > 1 {
      var n := |history| - 1;
      var last := history[n];
      var rest := history[1..];
      forall i | 0 <= i < |rest| - 1
        ensures YearOnYear(rest, q, i)
      {
        assert YearOnYear(history, q, i + 1);
        assert rest[i] == history[i + 1] && rest[i + 1] == history[i + 2];
      }
      GeometricRatio(rest, q);
      assert rest[0] == history[1] && rest[|rest| - 1] == last;
      assert YearOnYear(history, q, 0);
      assert history[0] == q * (Pow(q, n - 1) * last);
      assert q * (Pow(q, n - 1) * last) == (q * Pow(q, n - 1)) * last;
    }
  }

  /** A history that grows by the factor q every year has growth (q - 1)·100 percent. */
  lemma GeometricGrowth(history: seq<real>, q: real, root: Root)
    requires IsRoot(root)
    requires |history| >= 2 && q > 0.0 && history[|history| - 1] > 0.0 && GrowsBy(history, q)
    ensures FcfGrowth(history, root) == (q - 1.0) * 100.0
  {
    var last := history[|history| - 1];
    GeometricRatio(history, q);
    assert history[0] / last == Pow(q, |history| - 1);
    RootUnique(root, q, |history| - 1);
  }

  /**
   * As written, a history growing exactly 10% a year (121, 110, 100) is not
   * reported as 10% growth: the cube root of 1.21 is taken instead of the
   * square root.
   */
  lemma AsWrittenMisreadsSteadyGrowth(root: Root)
    requires IsRoot(root)
    ensures FcfGrowth([121.0, 110.0, 100.0], root) == 10.0
    ensures FcfGrowthAsWritten([121.0, 110.0, 100.0], root) != 10.0
  {
    var h := [121.0, 110.0, 100.0];
    assert YearOnYear(h, 1.1, 0) && YearOnYear(h, 1.1, 1);
    GeometricGrowth(h, 1.1, root);
    var y := root(1.21, 3);
    assert h[0] / h[|h| - 1] == 1.21;
    assert Pow(y, 3) == 1.21;
    assert Pow(1.1, 3) == 1.331;
  }

  // ---------------------------------------------------------------------
  // Free-cash-flow history of _get_data_sync
  // ---------------------------------------------------------------------

  const FreeCashFlowRow := "Free Cash Flow"
  const CapitalExpenditureRow := "Capital Expenditure"
  const OcfTerms: seq<string> := ["operating", "operations"]
  const CapexTerms: seq<string> := ["capex", "capital expenditure", "fixed assets"]

  /** `any(term in field.lower() for term in terms)` */
  predicate Mentions(name: string, terms: seq<string>)
    decreases |terms|
  {
    terms != [] && (Contains(Lower(name), terms[0]) || Mentions(name, terms[1..]))
  }

  /** The non-NaN cells of `row` in the first `n` periods, in period order. */
  function PresentCells(row: Row, n: nat): (r: seq<real>)
    ensures |r| <= n
  {
    if n == 0 then []
    else PresentCells(row, n - 1) + match Cell(row, n - 1) case None => [] case Some(x) => [x]
  }

  /** The history read straight off the 'Free Cash Flow' row. */
  function DirectHistory(cf: Frame): seq<real> {
    match RowIndex(cf.rows, FreeCashFlowRow)
      case None => []
      case Some(i) => PresentCells(cf.rows[i], cf.columns)
  }

  /**
   * The fuzzy scan of one period: the value in period `j` of the first row
   * mentioning one of `terms` whose cell there is not NaN.
   */
  function ScanRows(rows: seq<Row>, j: nat, terms: seq<string>): Option<real>
    decreases |rows|
  {
    if rows == [] then None
    else if Mentions(rows[0].name, terms) && Cell(rows[0], j).Some? then Cell(rows[0], j)
    else ScanRows(rows[1..], j, terms)
  }

  /**
   * The scan finds the value of the first row, in index order, that mentions
   * a term and has a value in the period, and finds nothing exactly when no
   * such row exists.
   */
  lemma {:induction false} ScanRowsFirstMatch(rows: seq<Row>, j: nat, terms: seq<string>)
    ensures var r := ScanRows(rows, j, terms);
      r.Some? ==> exists i :: (0 <= i < |rows| && Mentions(rows[i].name, terms) && Cell(rows[i], j) == r &&
        forall k :: 0 <= k < i ==> !Mentions(rows[k].name, terms) || Cell(rows[k], j).None?)
    ensures ScanRows(rows, j, terms).None? <==>
      forall i :: 0 <= i < |rows| ==> !Mentions(rows[i].name, terms) || Cell(rows[i], j).None?
    decreases |rows|
  {
    if rows != [] && !(Mentions(rows[0].name, terms) && Cell(rows[0], j).Some?) {
      ScanRowsFirstMatch(rows[1..], j, terms);
      var r := ScanRows(rows[1..], j, terms);
      assert forall i :: 1 <= i < |rows| ==> rows[i] == rows[1..][i - 1];
      if r.Some? {
        var i :| 0 <= i < |rows[1..]| && Mentions(rows[1..][i].name, terms) && Cell(rows[1..][i], j) == r &&
          forall k :: 0 <= k < i ==> !Mentions(rows[1..][k].name, terms) || Cell(rows[1..][k], j).None?;
        assert rows[i + 1] == rows[1..][i];
      }
    }
  }

  /** Capex of period `j`: the exact 'Capital Expenditure' row, else the fuzzy scan, else 0. */
  function PeriodCapex(cf: Frame, j: nat): real {
    match At(cf, CapitalExpenditureRow, j)
      case Some(x) => x
      case None => ScanRows(cf.rows, j, CapexTerms).GetOr(0.0)
  }

  /** FCF of period `j` as `ocf + capex`; nothing when no operating row has a value there. */
  function ComputedFcf(cf: Frame, j: nat): Option<real> {
    match ScanRows(cf.rows, j, OcfTerms)
      case None => None
      case Some(ocf) => Some(ocf + PeriodCapex(cf, j))
  }

  /** The computed FCF of the first `n` periods that have one, in period order. */
  function ComputedHistory(cf: Frame, n: nat): (r: seq<real>)
    ensures |r| <= n
  {
    if n == 0 then []
    else ComputedHistory(cf, n - 1) + match ComputedFcf(cf, n - 1) case None => [] case Some(x) => [x]
  }

  /** The FCF history, newest first: the direct row when it yields values, else the computed one. */
  function FcfHistory(cf: Frame): (r: seq<real>)
    ensures |r| <= cf.columns
  {
    var direct := DirectHistory(cf);
    if direct != [] then direct else ComputedHistory(cf, cf.columns)
  }

  method FindTermRow(cf: Frame, j: nat, terms: seq<string>) returns (r: Option<real>)
    ensures r == ScanRows(cf.rows, j, terms)
  {
    var i := 0;
    while i < |cf.rows|
      invariant 0 <= i <= |cf.rows|
      invariant ScanRows(cf.rows, j, terms) == ScanRows(cf.rows[i..], j, terms)
    {
      assert cf.rows[i..][1..] == cf.rows[i + 1..];
      var field := cf.rows[i];
      if Mentions(field.name, terms) {
        var value := Cell(field, j);
        if value.Some? {
          return value;
        }
      }
      i := i + 1;
    }
    return None;
  }

  /** The loop over the periods of the 'Free Cash Flow' row. */
  method ReadDirectHistory(cf: Frame) returns (history: seq<real>)
    ensures history == DirectHistory(cf)
  {
    history := [];
    if Has(cf, FreeCashFlowRow) {
      var row := cf.rows[RowIndex(cf.rows, FreeCashFlowRow).value];
      for period := 0 to cf.columns
        invariant history == PresentCells(row, period)
      {
        var value := Cell(row, period);
        if value.Some? {
          history := history + [value.value];
        }
      }
    }
  }

  /** One period of the computed history: operating cash flow plus capex. */
  method ComputePeriodFcf(cf: Frame, period: nat) returns (fcf: Option<real>)
    ensures fcf == ComputedFcf(cf, period)
  {
    var ocf := FindTermRow(cf, period, OcfTerms);
    var capex := At(cf, CapitalExpenditureRow, period);
    if capex.None? {
      capex := FindTermRow(cf, period, CapexTerms);
    }
    if capex.None? {
      capex := Some(0.0);
    }
    fcf := None;
    if ocf.Some? {
      fcf := Some(ocf.value + capex.value);
    }
  }

  method ExtractFcfHistory(cf: Frame) returns (history: seq<real>)
    ensures history == FcfHistory(cf)
  {
    history := ReadDirectHistory(cf);
    if history == [] {
      for period := 0 to cf.columns
        invariant history == ComputedHistory(cf, period)
      {
        var fcf := ComputePeriodFcf(cf, period);
        if fcf.Some? {
          history := history + [fcf.value];
        }
      }
    }
  }

  /** With every period of the 'Free Cash Flow' row filled, the history is that row, period by period. */
  lemma {:induction false} DirectRowComplete(row: Row, n: nat)
    requires forall j :: 0 <= j < n ==> Cell(row, j).Some?
    ensures |PresentCells(row, n)| == n
    ensures forall j :: 0 <= j < n ==> PresentCells(row, n)[j] == Cell(row, j).value
  {
    if n > 0 {
      DirectRowComplete(row, n - 1);
    }
  }

  /** With an operating value in every period, each period contributes its ocf + capex, in period order. */
  lemma {:induction false} ComputedComplete(cf: Frame, n: nat)
    requires forall j :: 0 <= j < n ==> ComputedFcf(cf, j).Some?
    ensures |ComputedHistory(cf, n)| == n
    ensures forall j :: 0 <= j < n ==> ComputedHistory(cf, n)[j] == ComputedFcf(cf, j).value
  {
    if n > 0 {
      ComputedComplete(cf, n - 1);
      var fcf := ComputedFcf(cf, n - 1);
      assert fcf.Some?;
      assert ComputedHistory(cf, n) == ComputedHistory(cf, n - 1) + [fcf.value];
    }
  }

  /** Every computed entry is the ocf + capex of one of the periods scanned. */
  lemma {:induction false} ComputedEntries(cf: Frame, n: nat)
    ensures forall k :: 0 <= k < |ComputedHistory(cf, n)| ==>
      exists j :: 0 <= j < n && ComputedFcf(cf, j) == Some(ComputedHistory(cf, n)[k])
  {
    if n > 0 {
      ComputedEntries(cf, n - 1);
      var prev := ComputedHistory(cf, n - 1);
      var fcf := ComputedFcf(cf, n - 1);
      var extra: seq<real> := if fcf.Some? then [fcf.value] else [];
      assert ComputedHistory(cf, n) == prev + extra;
      forall k | 0 <= k < |ComputedHistory(cf, n)|
        ensures exists j :: 0 <= j < n && ComputedFcf(cf, j) == Some(ComputedHistory(cf, n)[k])
      {
        if k < |prev| {
          assert ComputedHistory(cf, n)[k] == prev[k];
          var j :| 0 <= j < n - 1 && ComputedFcf(cf, j) == Some(prev[k]);
          assert 0 <= j < n;
        } else {
          assert ComputedFcf(cf, n - 1) == Some(ComputedHistory(cf, n)[k]);
        }
      }
    } else {
      assert ComputedHistory(cf, n) == [];
    }
  }

  /** The direct row wins whenever it yields a value; without that row the history is the computed one. */
  lemma HistorySources(cf: Frame)
    ensures DirectHistory(cf) != [] ==> FcfHistory(cf) == DirectHistory(cf)
    ensures !Has(cf, FreeCashFlowRow) ==> FcfHistory(cf) == ComputedHistory(cf, cf.columns)
  {
  }

  /** Capex falls back from the exact row to the fuzzy scan and then to 0. */
  lemma CapexFallbacks(cf: Frame, j: nat)
    ensures At(cf, CapitalExpenditureRow, j).Some? ==> PeriodCapex(cf, j) == At(cf, CapitalExpenditureRow, j).value
    ensures At(cf, CapitalExpenditureRow, j).None? && ScanRows(cf.rows, j, CapexTerms).None? ==> PeriodCapex(cf, j) == 0.0
  {
  }

  // ---------------------------------------------------------------------
  // _get_data_sync
  // ---------------------------------------------------------------------

  /** What yfinance offers for one ticker: `info`, the four annual statements and the quarterly cash flow. */
  datatype Stock = Stock(
    info: Info,
    incomeStmt: Frame,
    financials: Frame,
    balance: Frame,
    cashFlow: Frame,
    quarterlyCashFlow: Frame)

  /** The figures handed on to the valuation. */
  datatype StockData = StockData(
    latestFcf: real,
    fcfHistory: seq<real>,
    growthRate: real,
    quality: Quality,
    sharesOutstanding: real,
    currentPrice: real,
    wacc: real,
    multiple: real)

  datatype FetchError = NoBasicInfo | NoCashFlowData | NoFcfHistory

  /** `info.get('currentPrice') or info.get('regularMarketPrice')` */
  function PriceField(info: Info): InfoField {
    if info.currentPrice.Truthy() then info.currentPrice else info.regularMarketPrice
  }

  /** The cash-flow statement the history is read from: the annual one, else the quarterly one. */
  function CashFlowUsed(stock: Stock): (cf: Option<Frame>)
    ensures cf.None? <==> stock.cashFlow.IsEmpty() && stock.quarterlyCashFlow.IsEmpty()
    ensures cf.Some? ==> !cf.value.IsEmpty()
    ensures !stock.cashFlow.IsEmpty() ==> cf == Some(stock.cashFlow)
  {
    if !stock.cashFlow.IsEmpty() then Some(stock.cashFlow)
    else if !stock.quarterlyCashFlow.IsEmpty() then Some(stock.quarterlyCashFlow)
    else None
  }

  /** The data gathered for one ticker, or the first error raised. */
  function StockDataOf(stock: Stock, root: Root): Result<StockData, FetchError> {
    var price := PriceField(stock.info);
    var shares := stock.info.sharesOutstanding;
    if !price.Truthy() || !shares.Truthy() then Err(NoBasicInfo)
    else match CashFlowUsed(stock)
    case None => Err(NoCashFlowData)
    case Some(cashFlow) =>
      var history := FcfHistory(cashFlow);
      if history == [] then Err(NoFcfHistory)
      else
        var growth := FcfGrowthAsWritten(history, root);
        var quality := QualityOf(stock.incomeStmt, stock.financials, stock.balance, stock.cashFlow);
        var wacc := WaccOf(stock.info, stock.balance, stock.incomeStmt, stock.financials);
        Ok(StockData(
          history[0], history, growth, quality, shares.x, price.x, wacc,
          MultipleOf(growth, Some(quality.fcfToIncome), Some(quality.debtToFcf), wacc)))
  }

  method GetDataSync(stock: Stock, root: Root) returns (r: Result<StockData, FetchError>)
    ensures r == StockDataOf(stock, root)
  {
    var info := stock.info;
    var currentPrice := PriceField(info);
    var sharesOutstanding := info.sharesOutstanding;
    if !currentPrice.Truthy() || !sharesOutstanding.Truthy() {
      return Err(NoBasicInfo);
    }
    var cashFlow := stock.cashFlow;
    if cashFlow.IsEmpty() {
      cashFlow := stock.quarterlyCashFlow;
      if cashFlow.IsEmpty() {
        return Err(NoCashFlowData);
      }
    }
    var fcfHistory := ExtractFcfHistory(cashFlow);
    if fcfHistory == [] {
      return Err(NoFcfHistory);
    }
    var growthRate := FcfGrowthAsWritten(fcfHistory, root);
    var quality := CalculateQualityMetrics(stock.incomeStmt, stock.financials, stock.balance, stock.cashFlow);
    var wacc := CalculateWacc(info, stock.balance, stock.incomeStmt, stock.financials);
    var multiple := DynamicMultiple(growthRate, Some(quality.fcfToIncome), Some(quality.debtToFcf), wacc);
    r := Ok(StockData(
      fcfHistory[0], fcfHistory, growthRate, quality,
      sharesOutstanding.x, currentPrice.x, wacc, multiple));
  }

  /**
   * Gathered data always has a non-zero price and share count, a non-empty
   * history, read from the annual cash flow when it is not empty, whose
   * first entry is the latest FCF, at most one entry per period, a growth
   * rate taken over as many years as the history has values, and a
   * multiple within [4.32, 23.1]; a falsy price or share count is rejected
   * first, then two empty cash-flow statements.
   */
  lemma StockDataOutcome(stock: Stock, root: Root)
    ensures !PriceField(stock.info).Truthy() || !stock.info.sharesOutstanding.Truthy() ==>
      StockDataOf(stock, root) == Err(NoBasicInfo)
    ensures (PriceField(stock.info).Truthy() && stock.info.sharesOutstanding.Truthy() &&
      stock.cashFlow.IsEmpty() && stock.quarterlyCashFlow.IsEmpty()) ==>
      StockDataOf(stock, root) == Err(NoCashFlowData)
    ensures StockDataOf(stock, root).Ok? ==>
      var d := StockDataOf(stock, root).value;
      d.currentPrice != 0.0 && d.sharesOutstanding != 0.0 &&
      CashFlowUsed(stock).Some? &&
      d.fcfHistory == FcfHistory(CashFlowUsed(stock).value) && d.fcfHistory != [] &&
      |d.fcfHistory| <= CashFlowUsed(stock).value.columns &&
      d.latestFcf == d.fcfHistory[0] &&
      d.growthRate == FcfGrowthAsWritten(d.fcfHistory, root) &&
      4.32 <= d.multiple <= 23.1
  {
    var r := StockDataOf(stock, root);
    if r.Ok? {
      var d := r.value;
      MultipleBounds(d.growthRate, Some(d.quality.fcfToIncome), Some(d.quality.debtToFcf), d.wacc);
    }
  }
}
