/**
 * The buy rule of `StockAnalyzer.analyze_stock` (backend/stock_analyzer.py):
 * a fair value of ten times FCF per share, a 30% margin of safety, and
 * BUY exactly when the price is at or below the discounted fair value. The
 * gathered data is the value `YahooFinance.StockDataOf` produces.
 */
module StockAnalyzer {
  import opened Wrappers
  import opened YahooFinance
  import Ratings

  const FairMultiple := 10.0
  const MarginFactor := 0.7

  datatype Verdict = BUY | HOLD

  datatype Analysis = Analysis(
    recommendation: Verdict,
    currentPrice: real,
    fairValue: real,
    buyBelow: real,
    upsidePotential: real,
    fcfPerShare: real,
    sharesOutstanding: real,
    totalFcf: real)

  datatype AnalysisError = ZeroShares | ZeroPrice

  /**
   * `list(data['cash_flow']['free_cashflow'].values())[0]`: the mapping is
   * built as latest, history, growth rate, so its first value is the latest FCF.
   */
  function FirstFreeCashflowValue(data: StockData): real {
    data.latestFcf
  }

  function Analyze(data: StockData): (r: Result<Analysis, AnalysisError>)
    ensures r == Err(ZeroShares) <==> data.sharesOutstanding == 0.0
    ensures r == Err(ZeroPrice) <==> data.sharesOutstanding != 0.0 && data.currentPrice == 0.0
    ensures r.Ok? ==>
      var a := r.value;
      && a.fairValue * data.sharesOutstanding == FairMultiple * data.latestFcf
      && a.buyBelow == MarginFactor * a.fairValue
      && (a.recommendation == BUY <==> data.currentPrice <= a.buyBelow)
      && a.upsidePotential * data.currentPrice == (a.fairValue - data.currentPrice) * 100.0
  {
    var fcf := FirstFreeCashflowValue(data);
    var shares := data.sharesOutstanding;
    var currentPrice := data.currentPrice;
    if shares == 0.0 then Err(ZeroShares)
    else
      var fcfPerShare := fcf / shares;
      var fairValue := fcfPerShare * FairMultiple;
      var buyPrice := fairValue * MarginFactor;
      var isGoodBuy := currentPrice <= buyPrice;
      if currentPrice == 0.0 then Err(ZeroPrice)
      else
        var upsidePotential := (fairValue - currentPrice) / currentPrice * 100.0;
        Ok(Analysis(if isGoodBuy then BUY else HOLD, currentPrice, fairValue, buyPrice, upsidePotential,
          fcfPerShare, shares, fcf))
  }

  /** With a positive price, BUY means an upside of at least (1/0.7 - 1)·100 = 300/7 percent. */
  lemma BuyImpliesUpside(data: StockData)
    requires data.currentPrice > 0.0
    requires Analyze(data).Ok? && Analyze(data).value.recommendation == BUY
    ensures Analyze(data).value.upsidePotential >= 300.0 / 7.0
  {
    var a := Analyze(data).value;
    MarginBound(a.fairValue, data.currentPrice);
  }

  lemma MarginBound(fair: real, price: real)
    requires price > 0.0 && price <= MarginFactor * fair
    ensures (fair - price) / price * 100.0 >= 300.0 / 7.0
  {
    assert fair - price >= price * (3.0 / 7.0);
    DivMonotone(price * (3.0 / 7.0), fair - price, price);
    assert price * (3.0 / 7.0) / price == 3.0 / 7.0;
  }

  /** The analyser's upside is the report's upside for a multiple of ten. */
  lemma UpsideAgreesWithReport(data: StockData)
    requires Analyze(data).Ok?
    ensures var e := Ratings.EstimateValue(data.latestFcf, data.sharesOutstanding, FairMultiple, data.currentPrice);
      e.Ok? && e.value.fairValue == Analyze(data).value.fairValue &&
      e.value.upside == Analyze(data).value.upsidePotential
  {
    RelativeChange(Analyze(data).value.fairValue, data.currentPrice);
  }

  lemma RelativeChange(f: real, p: real)
    requires p != 0.0
    ensures f / p - 1.0 == (f - p) / p
  {
    assert (f - p) / p == f / p - p / p;
    assert p / p == 1.0;
  }

  lemma DivMonotone(a: real, b: real, p: real)
    requires p > 0.0 && a <= b
    ensures a / p <= b / p
  {
    assert b / p - a / p == (b - a) / p;
  }

  /** Data gathered for a ticker always has a non-zero price and share count, so it can always be analysed. */
  lemma GatheredDataAnalyses(stock: Stock, root: Root)
    requires StockDataOf(stock, root).Ok?
    ensures Analyze(StockDataOf(stock, root).value).Ok?
    ensures Analyze(StockDataOf(stock, root).value).value.totalFcf == StockDataOf(stock, root).value.fcfHistory[0]
  {
    StockDataOutcome(stock, root);
  }
}
