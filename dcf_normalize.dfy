/**
 * The normalisation arithmetic of `DCFModel.fetch_financials`
 * (backend/dcf_model.py): Alpha Vantage annual reports, already fetched,
 * are turned into the free-cash-flow series, the revenue-growth series,
 * the recency-weighted average FCF and the market snapshot, with the
 * viability checks that end the computation.
 */
module DcfNormalize {
  import opened Wrappers
  import opened Numbers
  import opened Text

  /** A JSON field of a report: missing key, `null`, a JSON number or a JSON string. */
  datatype Raw = Absent | Null | Num(x: real) | Str(s: string)

  /** One annual report (or the company overview): field name to raw value. */
  type Report = map<string, Raw>

  /** `report.get(key)` */
  function Get(report: Report, key: string): Raw {
    if key in report then report[key] else Absent
  }

  // ---------------------------------------------------------------------
  // Decimal text, as Python's `float(text)` reads it: surrounding white
  // space, a sign, digits with a decimal point, an exponent
  // ---------------------------------------------------------------------

  function DigitValue(c: char): nat
    requires IsDigit(c)
  {
    c as int - '0' as int
  }

  /** The value of a string of decimal digits, most significant first. */
  function DigitsValue(s: string): nat
    requires AllDigits(s)
    decreases |s|
  {
    if s == [] then 0 else DigitsValue(s[..|s| - 1]) * 10 + DigitValue(s[|s| - 1])
  }

  function Pow10(n: nat): (r: nat)
    ensures r >= 1
  {
    if n == 0 then 1 else 10 * Pow10(n - 1)
  }

  /** Index of the first character of `s` that is one of `cs`. */
  function FindAny(s: string, cs: set<char>): (r: Option<nat>)
    ensures r.Some? ==> r.value < |s| && s[r.value] in cs
    ensures r.Some? ==> forall i :: 0 <= i < r.value ==> s[i] !in cs
    ensures r.None? ==> forall i :: 0 <= i < |s| ==> s[i] !in cs
    decreases |s|
  {
    if s == [] then None
    else if s[0] in cs then Some(0)
    else match FindAny(s[1..], cs)
      case None => None
      case Some(k) => Some(k + 1)
  }

  const Dot: set<char> := {'.'}
  const ExponentMarks: set<char> := {'e', 'E'}

  /** The value of digits `whole` before a decimal point and digits `frac` after it. */
  function DecimalValue(whole: string, frac: string): real
    requires AllDigits(whole) && AllDigits(frac)
  {
    DigitsValue(whole) as real + DigitsValue(frac) as real / Pow10(|frac|) as real
  }

  /** Digits with an optional decimal point and at least one digit: "12", "12.5", ".5", "12." */
  function ParseUnsigned(s: string): Option<real> {
    match FindAny(s, Dot)
    case None =>
      if |s| > 0 && AllDigits(s) then Some(DigitsValue(s) as real) else None
    case Some(k) =>
      var whole, frac := s[..k], s[k + 1..];
      if AllDigits(whole) && AllDigits(frac) && |whole| + |frac| > 0
      then Some(DecimalValue(whole, frac))
      else None
  }

  /** The exponent after 'e' or 'E': an optional sign and at least one digit. */
  function ParseExponent(s: string): Option<int> {
    if |s| > 0 && (s[0] == '-' || s[0] == '+') then
      var digits := s[1..];
      if |digits| > 0 && AllDigits(digits)
      then Some(if s[0] == '-' then -(DigitsValue(digits) as int) else DigitsValue(digits))
      else None
    else if |s| > 0 && AllDigits(s) then Some(DigitsValue(s))
    else None
  }

  /** m · 10^e */
  function Scaled(m: real, e: int): real {
    if e >= 0 then m * Pow10(e) as real else m / Pow10(-e) as real
  }

  /** An unsigned decimal with an optional exponent: "12.5", "1e3", ".5E-2" */
  function ParseMagnitude(s: string): Option<real> {
    match FindAny(s, ExponentMarks)
    case None => ParseUnsigned(s)
    case Some(k) =>
      match (ParseUnsigned(s[..k]), ParseExponent(s[k + 1..]))
      case (Some(m), Some(e)) => Some(Scaled(m, e))
      case _ => None
  }

  /**
   * `float(text)` for decimal text: white space around it is ignored, then
   * an optional sign, digits with an optional point and an optional
   * exponent; any other text is a ValueError.
   */
  function ParseNumber(s: string): (r: Option<real>)
    ensures r.Some? ==> |Strip(s)| > 0
  {
    var t := Strip(s);
    if |t| > 0 && t[0] == '-' then
      match ParseMagnitude(t[1..])
      case None => None
      case Some(v) => Some(-v)
    else if |t| > 0 && t[0] == '+' then ParseMagnitude(t[1..])
    else ParseMagnitude(t)
  }

  /** Decimal text of a natural number, as `str(n)` writes it. */
  function NatText(n: nat): (t: string)
    ensures |t| > 0 && AllDigits(t)
  {
    if n < 10 then [('0' as int + n) as char]
    else NatText(n / 10) + [('0' as int + n % 10) as char]
  }

  /** Decimal text of an integer, as `str(n)` writes it. */
  function IntText(n: int): string {
    if n < 0 then "-" + NatText(-n) else NatText(n)
  }

  lemma {:induction false} NatTextValue(n: nat)
    ensures DigitsValue(NatText(n)) == n
    decreases n
  {
    if n >= 10 {
      var t := NatText(n);
      assert t[..|t| - 1] == NatText(n / 10);
      NatTextValue(n / 10);
    }
  }

  /** Digits alone read as their value: no point, no exponent. */
  lemma DigitsMagnitude(t: string)
    requires |t| > 0 && AllDigits(t)
    ensures ParseMagnitude(t) == Some(DigitsValue(t) as real)
  {
    assert forall i :: 0 <= i < |t| ==> t[i] !in ExponentMarks && t[i] !in Dot by {
      forall i | 0 <= i < |t| ensures t[i] !in ExponentMarks && t[i] !in Dot {
        assert IsDigit(t[i]);
      }
    }
    assert FindAny(t, ExponentMarks).None? && FindAny(t, Dot).None?;
  }

  /** Parsing the text that `str` prints for an integer gives the integer back. */
  lemma IntTextRoundTrip(n: int)
    ensures ParseNumber(IntText(n)) == Some(n as real)
  {
    var m: nat := if n < 0 then -n else n;
    NatTextValue(m);
    var t := NatText(m);
    DigitsMagnitude(t);
    var s := IntText(n);
    assert !IsSpace(s[0]) && !IsSpace(s[|s| - 1]);
    assert Strip(s) == s;
    if n < 0 {
      assert s[1..] == t;
    }
  }

  /** Alpha Vantage writes "None" for an unknown figure; it is not a number. */
  lemma NoneTextIsNotANumber()
    ensures ParseNumber("None") == None
  {
    var s := "None";
    assert !IsSpace(s[0]) && !IsSpace(s[3]);
    assert Strip(s) == s;
    assert s[0] !in ExponentMarks && s[1] !in ExponentMarks && s[2] !in ExponentMarks;
    assert FindAny(s, ExponentMarks) == Some(3);
    assert s[..3] == "Non";
    assert FindAny("Non", Dot) == None;
    assert !IsDigit("Non"[0]);
  }

  /** Digits, a point at position k and digits read as the whole part plus the fraction. */
  lemma PointValue(s: string, k: nat)
    requires k < |s| && s[k] == '.'
    requires AllDigits(s[..k]) && AllDigits(s[k + 1..]) && |s| > 1
    ensures ParseUnsigned(s) == Some(DecimalValue(s[..k], s[k + 1..]))
  {
    forall i | 0 <= i < k ensures s[i] !in Dot {
      assert IsDigit(s[..k][i]);
    }
    var r := FindAny(s, Dot);
    assert s[k] in Dot;
    assert r.Some? && r.value <= k;
    assert r.value == k by {
      assert s[r.value] in Dot;
    }
  }

  /** A mantissa before position k, an exponent mark at k and an exponent after it read as the scaled mantissa. */
  lemma ExponentValue(s: string, k: nat)
    requires k < |s| && s[k] in ExponentMarks
    requires forall i :: 0 <= i < k ==> s[i] !in ExponentMarks
    requires ParseUnsigned(s[..k]).Some? && ParseExponent(s[k + 1..]).Some?
    ensures ParseMagnitude(s) == Some(Scaled(ParseUnsigned(s[..k]).value, ParseExponent(s[k + 1..]).value))
  {
    var r := FindAny(s, ExponentMarks);
    assert r.Some? && r.value <= k;
    assert r.value == k by {
      assert s[r.value] in ExponentMarks;
    }
  }

  /** `float` ignores the white space around the digits. */
  lemma SurroundingSpaceExample()
    ensures ParseNumber(" 12\n") == Some(12.0)
  {
    assert StripLeft(" 12\n") == "12\n";
    assert StripRight("12\n") == "12";
    DigitsMagnitude("12");
    assert DigitsValue("12") == 12 by { assert "12"[..1] == "1"; }
  }

  /** An exponent scales the mantissa: "1e3" is 1000. */
  lemma ExponentExample()
    ensures ParseNumber("1e3") == Some(1000.0)
  {
    var b := "1e3";
    assert StripLeft(b) == b && StripRight(b) == b;
    assert b[0] !in ExponentMarks && b[1] in ExponentMarks;
    assert FindAny(b, ExponentMarks) == Some(1);
    assert b[..1] == "1" && b[2..] == "3";
    DigitsMagnitude("1");
    assert ParseUnsigned("1") == Some(1.0);
    assert ParseExponent("3") == Some(3);
  }

  /** "2.5" reads as 2.5. */
  lemma PointExample()
    ensures ParseUnsigned("2.5") == Some(2.5)
  {
    var m := "2.5";
    assert m[..1] == "2" && m[2..] == "5";
    PointValue(m, 1);
    assert DigitsValue("2") == 2 && DigitsValue("5") == 5 && Pow10(1) == 10;
    assert DecimalValue("2", "5") == 2.5;
  }

  /** "2.5E-1": a point and a negative exponent read as 0.25. */
  lemma PointAndNegativeExponent()
    ensures ParseMagnitude("2.5E-1") == Some(0.25)
  {
    var d := "2.5E-1";
    assert d[..3] == "2.5";
    PointExample();
    assert d[4..] == "-1" && "-1"[1..] == "1";
    assert ParseExponent("-1") == Some(-1);
    assert d[0] !in ExponentMarks && d[1] !in ExponentMarks && d[2] !in ExponentMarks;
    ExponentValue(d, 3);
  }

  /** A sign, a point and a negative exponent together: "-2.5E-1" is -0.25. */
  lemma NegativeExponentExample()
    ensures ParseNumber("-2.5E-1") == Some(-0.25)
  {
    var c := "-2.5E-1";
    assert StripLeft(c) == c && StripRight(c) == c;
    assert c[1..] == "2.5E-1";
    PointAndNegativeExponent();
  }

  /** An exponent mark needs digits after it: "1e" is not a number. */
  lemma DanglingExponentExample()
    ensures ParseNumber("1e") == None
  {
    var e := "1e";
    assert StripLeft(e) == e && StripRight(e) == e;
    assert e[0] !in ExponentMarks && e[1] in ExponentMarks;
    assert FindAny(e, ExponentMarks) == Some(1);
    assert e[2..] == "";
  }

  /**
   * `safe_float(value, default)`: the default for a missing or falsy value
   * (absent, null, 0, the empty string) and for text that is not a number;
   * the number otherwise.
   */
  function SafeFloat(v: Raw, default: real): (r: real)
    ensures v.Absent? || v.Null? || v == Num(0.0) || v == Str("") ==> r == default
    ensures v.Num? && v.x != 0.0 ==> r == v.x
    ensures v.Str? && v.s != "" && ParseNumber(v.s).None? ==> r == default
    ensures v.Str? && v.s != "" && ParseNumber(v.s).Some? ==> r == ParseNumber(v.s).value
  {
    match v
    case Absent => default
    case Null => default
    case Num(x) => if x == 0.0 then default else x
    case Str(s) => if s == "" then default else ParseNumber(s).GetOr(default)
  }

  /** The field of a report read through `safe_float` with default 0.0. */
  function Field(report: Report, key: string): real {
    SafeFloat(Get(report, key), 0.0)
  }

  // ---------------------------------------------------------------------
  // The per-period series
  // ---------------------------------------------------------------------

  /** FCF of one cash-flow report: operating cash flow minus capital expenditures, as reported (no sign change). */
  function PeriodFcf(cashFlow: Report): real {
    Field(cashFlow, "operatingCashflow") - Field(cashFlow, "capitalExpenditures")
  }

  /** The FCF values of the first `n` cash-flow reports, most recent first. */
  function FcfSeries(cashFlows: seq<Report>, n: nat): (r: seq<real>)
    requires n <= |cashFlows|
    ensures |r| == n
    decreases n
  {
    if n == 0 then [] else FcfSeries(cashFlows, n - 1) + [PeriodFcf(cashFlows[n - 1])]
  }

  lemma {:induction false} FcfSeriesAt(cashFlows: seq<Report>, n: nat)
    requires n <= |cashFlows|
    ensures |FcfSeries(cashFlows, n)| == n
    ensures forall i :: 0 <= i < n ==> FcfSeries(cashFlows, n)[i] == PeriodFcf(cashFlows[i])
    decreases n
  {
    if n > 0 {
      FcfSeriesAt(cashFlows, n - 1);
    }
  }

  /** Growth of period i over the older period i+1, produced only when the older revenue is positive. */
  function PairGrowth(incomes: seq<Report>, i: nat): Option<real>
    requires i + 1 < |incomes|
  {
    var current := Field(incomes[i], "totalRevenue");
    var previous := Field(incomes[i + 1], "totalRevenue");
    if previous > 0.0 then Some((current - previous) / previous) else None
  }

  /** The revenue growth entries of the first `k` adjacent pairs, in order. */
  function GrowthSeries(incomes: seq<Report>, k: nat): seq<real>
    requires k < |incomes|
    decreases k
  {
    if k == 0 then []
    else GrowthSeries(incomes, k - 1) + (match PairGrowth(incomes, k - 1) case Some(g) => [g] case None => [])
  }

  /** At most one entry per pair; every entry is the growth of a pair whose older revenue is positive; none is skipped when all revenues are positive. */
  lemma {:induction false} GrowthSeriesShape(incomes: seq<Report>, k: nat)
    requires k < |incomes|
    ensures |GrowthSeries(incomes, k)| <= k
    ensures forall j :: 0 <= j < |GrowthSeries(incomes, k)| ==>
      exists i :: 0 <= i < k && PairGrowth(incomes, i) == Some(GrowthSeries(incomes, k)[j])
    ensures (forall i :: 0 < i <= k ==> Field(incomes[i], "totalRevenue") > 0.0) ==> |GrowthSeries(incomes, k)| == k
    decreases k
  {
    if k > 0 {
      GrowthSeriesShape(incomes, k - 1);
      var prev := GrowthSeries(incomes, k - 1);
      var g := GrowthSeries(incomes, k);
      forall j | 0 <= j < |g|
        ensures exists i :: 0 <= i < k && PairGrowth(incomes, i) == Some(g[j])
      {
        if j < |prev| {
          assert g[j] == prev[j];
          var i :| 0 <= i < k - 1 && PairGrowth(incomes, i) == Some(prev[j]);
        } else {
          assert PairGrowth(incomes, k - 1) == Some(g[j]);
        }
      }
    }
  }

  /** `historical_growth`: the mean of the growth entries, or 3% when there are none. */
  function HistoricalGrowth(growth: seq<real>): real {
    if growth == [] then 0.03 else Sum(growth) / |growth| as real
  }

  // ---------------------------------------------------------------------
  // The recency-weighted average
  // ---------------------------------------------------------------------

  const Weights: seq<real> := [1.0, 0.8, 0.6, 0.4, 0.2]

  /** `sum(fcf * w for fcf, w in zip(xs, weights))` */
  function WeightedSum(xs: seq<real>): real
    requires |xs| <= |Weights|
    decreases |xs|
  {
    if xs == [] then 0.0 else WeightedSum(xs[..|xs| - 1]) + xs[|xs| - 1] * Weights[|xs| - 1]
  }

  /** `sum(weights[:n])`; at least the first weight, 1.0, once any value is averaged. */
  function WeightTotal(n: nat): (r: real)
    requires n <= |Weights|
    ensures n > 0 ==> r >= 1.0
    decreases n
  {
    if n == 0 then 0.0 else WeightTotal(n - 1) + Weights[n - 1]
  }

  /** `avg_fcf` of the source for 1 to 5 values. */
  function WeightedAverage(xs: seq<real>): real
    requires 1 <= |xs| <= |Weights|
  {
    WeightedSum(xs) / WeightTotal(|xs|)
  }

  lemma ScaleBetween(lo: real, x: real, hi: real, w: real)
    requires lo <= x <= hi && w >= 0.0
    ensures lo * w <= x * w <= hi * w
  {
  }

  lemma {:induction false} WeightedSumBetween(xs: seq<real>, lo: real, hi: real)
    requires |xs| <= |Weights|
    requires forall i :: 0 <= i < |xs| ==> lo <= xs[i] <= hi
    ensures lo * WeightTotal(|xs|) <= WeightedSum(xs) <= hi * WeightTotal(|xs|)
    decreases |xs|
  {
    if xs != [] {
      var n := |xs|;
      WeightedSumBetween(xs[..n - 1], lo, hi);
      ScaleBetween(lo, xs[n - 1], hi, Weights[n - 1]);
    }
  }

  lemma DivideBetween(lo: real, s: real, hi: real, t: real)
    requires t > 0.0 && lo * t <= s <= hi * t
    ensures lo <= s / t <= hi
  {
  }

  /** The weighted average never leaves the range of the values it averages. */
  lemma AverageBetween(xs: seq<real>, lo: real, hi: real)
    requires 1 <= |xs| <= |Weights|
    requires forall i :: 0 <= i < |xs| ==> lo <= xs[i] <= hi
    ensures lo <= WeightedAverage(xs) <= hi
  {
    WeightedSumBetween(xs, lo, hi);
    DivideBetween(lo, WeightedSum(xs), hi, WeightTotal(|xs|));
  }

  /** A constant series averages to that constant. */
  lemma AverageOfConstant(xs: seq<real>, c: real)
    requires 1 <= |xs| <= |Weights|
    requires forall i :: 0 <= i < |xs| ==> xs[i] == c
    ensures WeightedAverage(xs) == c
  {
    AverageBetween(xs, c, c);
  }

  /** The worked example: [100, 80, 60] gives (100 + 64 + 36) / 2.4 = 250/3. */
  lemma AverageExample()
    ensures WeightedAverage([100.0, 80.0, 60.0]) == 250.0 / 3.0
  {
    var xs := [100.0, 80.0, 60.0];
    assert xs[..2] == [100.0, 80.0] && xs[..2][..1] == [100.0] && xs[..2][..1][..0] == [];
    assert WeightedSum([100.0]) == 100.0;
    assert WeightedSum([100.0, 80.0]) == 164.0;
    assert WeightedSum(xs) == 200.0;
    assert WeightTotal(3) == 2.4;
  }

  // ---------------------------------------------------------------------
  // The normaliser
  // ---------------------------------------------------------------------

  datatype MarketData = MarketData(
    marketCap: real,
    sharesOutstanding: real,
    beta: real,
    peRatio: real,
    marketPrice: real)

  /** The `processed_data` record of the source, less the descriptive metadata. */
  datatype Financials = Financials(
    recentFreeCashFlows: seq<real>,
    averageFcf: real,
    operatingCashFlow: real,
    capitalExpenditure: real,
    freeCashFlow: real,
    revenue: real,
    operatingIncome: real,
    netIncome: real,
    historicalGrowth: real,
    market: MarketData)

  /**
   * A cash-flow or income-statement response: an empty JSON object, or an
   * object whose `annualReports` list (empty when the key is missing) is kept.
   */
  datatype Response = EmptyResponse | Response(annualReports: seq<Report>)

  /** `response.get('annualReports', [])`; nothing for an empty response. */
  function AnnualReports(response: Response): seq<Report> {
    if response.EmptyResponse? then [] else response.annualReports
  }

  /** The `ValueError`s raised on the normalisation path. */
  datatype DataError =
    | MissingData(cashFlow: bool, income: bool, overview: bool)  // which responses came back empty
    | NoAnnualReports          // no annual cash-flow or income reports
    | NonPositiveAverageFcf    // weighted average FCF <= 0
    | NoSharesOutstanding      // shares outstanding <= 0

  /** `num_years = min(5, len(cash_flow_reports), len(income_reports))` */
  function PeriodCount(cashFlows: seq<Report>, incomes: seq<Report>): (n: nat)
    ensures n <= 5 && n <= |cashFlows| && n <= |incomes|
    ensures n == 5 || n == |cashFlows| || n == |incomes|
  {
    if |cashFlows| <= |incomes| && |cashFlows| <= 5 then |cashFlows|
    else if |incomes| <= 5 then |incomes|
    else 5
  }

  function Market(overview: Report): MarketData {
    MarketData(
      Field(overview, "MarketCapitalization"),
      Field(overview, "SharesOutstanding"),
      Field(overview, "Beta"),
      Field(overview, "PERatio"),
      Field(overview, "52WeekHigh"))
  }

  /** The whole normalisation as a value: what `Normalize` computes step by step. */
  function Normalized(cashFlow: Response, income: Response, overview: Report): Result<Financials, DataError> {
    if cashFlow.EmptyResponse? || income.EmptyResponse? || overview == map[] then
      Err(MissingData(cashFlow.EmptyResponse?, income.EmptyResponse?, overview == map[]))
    else FromReports(AnnualReports(cashFlow), AnnualReports(income), overview)
  }

  /** The normalisation once all three responses are present: from the annual-report lists on. */
  function FromReports(cashFlows: seq<Report>, incomes: seq<Report>, overview: Report): Result<Financials, DataError> {
    if cashFlows == [] || incomes == [] then Err(NoAnnualReports)
    else
      var n := PeriodCount(cashFlows, incomes);
      var fcf := FcfSeries(cashFlows, n);
      var avg := WeightedAverage(fcf);
      var market := Market(overview);
      if avg <= 0.0 then Err(NonPositiveAverageFcf)
      else if market.sharesOutstanding <= 0.0 then Err(NoSharesOutstanding)
      else Ok(Financials(
        fcf, avg,
        Field(cashFlows[0], "operatingCashflow"),
        Field(cashFlows[0], "capitalExpenditures"),
        fcf[0],
        Field(incomes[0], "totalRevenue"),
        Field(incomes[0], "operatingIncome"),
        Field(incomes[0], "netIncome"),
        HistoricalGrowth(GrowthSeries(incomes, n - 1)),
        market))
  }

  /** The three responses are checked first, then their annual reports are normalised. */
  method Normalize(cashFlow: Response, income: Response, overview: Report)
    returns (r: Result<Financials, DataError>)
    ensures r == Normalized(cashFlow, income, overview)
  {
    if cashFlow.EmptyResponse? || income.EmptyResponse? || overview == map[] {
      return Err(MissingData(cashFlow.EmptyResponse?, income.EmptyResponse?, overview == map[]));
    }
    r := NormalizeReports(AnnualReports(cashFlow), AnnualReports(income), overview);
  }

  /**
   * The loop of the source: for each of the `num_years` periods append its
   * FCF and, for every pair but the last period, the revenue growth when the
   * older revenue is positive.
   */
  method NormalizeReports(cashFlows: seq<Report>, incomes: seq<Report>, overview: Report)
    returns (r: Result<Financials, DataError>)
    ensures r == FromReports(cashFlows, incomes, overview)
  {
    if cashFlows == [] || incomes == [] {
      return Err(NoAnnualReports);
    }
    var n := PeriodCount(cashFlows, incomes);
    FcfSeriesAt(cashFlows, 0);
    var fcfValues: seq<real> := [];
    var revenueGrowth: seq<real> := [];
    for i := 0 to n
      invariant fcfValues == FcfSeries(cashFlows, i)
      invariant revenueGrowth == GrowthSeries(incomes, if i < n then i else n - 1)
    {
      fcfValues := fcfValues + [PeriodFcf(cashFlows[i])];
      if i < n - 1 {
        var current := Field(incomes[i], "totalRevenue");
        var previous := Field(incomes[i + 1], "totalRevenue");
        if previous > 0.0 {
          revenueGrowth := revenueGrowth + [(current - previous) / previous];
        }
      }
    }
    FcfSeriesAt(cashFlows, n);
    var avg := WeightedAverage(fcfValues);
    var growth := HistoricalGrowth(revenueGrowth);
    var market := Market(overview);
    if avg <= 0.0 {
      return Err(NonPositiveAverageFcf);
    }
    if market.sharesOutstanding <= 0.0 {
      return Err(NoSharesOutstanding);
    }
    r := Ok(Financials(
      fcfValues, avg,
      Field(cashFlows[0], "operatingCashflow"),
      Field(cashFlows[0], "capitalExpenditures"),
      fcfValues[0],
      Field(incomes[0], "totalRevenue"),
      Field(incomes[0], "operatingIncome"),
      Field(incomes[0], "netIncome"),
      growth, market));
  }

  /**
   * What a successful normalisation guarantees: exactly min(5, #cash-flow,
   * #income) periods, FCF entry i from report i, the weighted average of
   * those, positive, and a positive share count; and the error cases in the
   * order the source checks them: any empty response first, naming every
   * empty one, then an empty list of annual reports.
   */
  lemma NormalizedOutcome(cashFlow: Response, income: Response, overview: Report)
    ensures (cashFlow.EmptyResponse? || income.EmptyResponse? || overview == map[]) ==>
      Normalized(cashFlow, income, overview).Err? &&
      var e := Normalized(cashFlow, income, overview).error;
      e.MissingData? && (e.cashFlow <==> cashFlow.EmptyResponse?) && (e.income <==> income.EmptyResponse?) &&
      (e.overview <==> overview == map[])
    ensures (cashFlow.Response? && income.Response? && overview != map[] &&
      (cashFlow.annualReports == [] || income.annualReports == [])) ==>
      Normalized(cashFlow, income, overview) == Err(NoAnnualReports)
    ensures Normalized(cashFlow, income, overview).Ok? ==>
      var cashFlows, incomes := AnnualReports(cashFlow), AnnualReports(income);
      var f := Normalized(cashFlow, income, overview).value;
      var n := PeriodCount(cashFlows, incomes);
      && 1 <= n <= 5 && n <= |cashFlows| && n <= |incomes|
      && (n == 5 || n == |cashFlows| || n == |incomes|)
      && |f.recentFreeCashFlows| == n
      && (forall i :: 0 <= i < n ==> f.recentFreeCashFlows[i] == Field(cashFlows[i], "operatingCashflow") - Field(cashFlows[i], "capitalExpenditures"))
      && f.averageFcf == WeightedAverage(f.recentFreeCashFlows) > 0.0
      && f.freeCashFlow == f.recentFreeCashFlows[0]
      && f.market.sharesOutstanding > 0.0
  {
    var cashFlows, incomes := AnnualReports(cashFlow), AnnualReports(income);
    if cashFlow.Response? && income.Response? && overview != map[] && cashFlows != [] && incomes != [] {
      FcfSeriesAt(cashFlows, PeriodCount(cashFlows, incomes));
    }
  }

  /** With no usable revenue pair the growth series is empty, so the historical growth is exactly 3%. */
  lemma {:induction false} DefaultHistoricalGrowth(incomes: seq<Report>, k: nat)
    requires k < |incomes|
    requires forall i :: 0 < i <= k ==> Field(incomes[i], "totalRevenue") <= 0.0
    ensures GrowthSeries(incomes, k) == []
    ensures HistoricalGrowth(GrowthSeries(incomes, k)) == 0.03
    decreases k
  {
    if k > 0 {
      DefaultHistoricalGrowth(incomes, k - 1);
    }
  }
}
