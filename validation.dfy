/**
 * The request schemas of backend/schemas/validation.py: field constraints
 * (length and range), the enum of terminal-value methods and the field
 * validators that check membership and normalise case. A request either
 * becomes a validated value or is refused with every failing field, in
 * declaration order, as a schema library reports them.
 */
module Validation {
  import opened Wrappers
  import opened Text

  /** The fields a request can be refused on. */
  datatype Field = Ticker | GrowthRate | DiscountRate | TerminalMethodField | MarginOfSafety | PreferredSource
                 | Period | Interval

  /** The fields of `fields` that are in `failed`, in the order of `fields`. */
  function Failing(fields: seq<Field>, failed: set<Field>): (r: seq<Field>)
    ensures forall f :: f in r <==> f in fields && f in failed
    decreases |fields|
  {
    if fields == [] then []
    else (if fields[0] in failed then [fields[0]] else []) + Failing(fields[1..], failed)
  }

  // ---------------------------------------------------------------------
  // ValuationRequest
  // ---------------------------------------------------------------------

  /** `TerminalMethod`: the two accepted spellings, case-sensitive. */
  datatype TerminalMethod = Gordon | Multiple

  function ParseTerminalMethod(v: string): (r: Option<TerminalMethod>)
    ensures r == Some(Gordon) <==> v == "gordon"
    ensures r == Some(Multiple) <==> v == "multiple"
  {
    if v == "gordon" then Some(Gordon) else if v == "multiple" then Some(Multiple) else None
  }

  const ValidSources: seq<string> := ["yahoo", "alpha_vantage", "both"]

  /** A request as received: `None` where the client left a defaulted field out. */
  datatype ValuationInput = ValuationInput(
    ticker: string,
    growthRate: real,
    discountRate: real,
    terminalMethod: Option<string>,
    marginOfSafety: real,
    preferredSource: Option<string>)

  /** A validated request. */
  datatype ValuationRequest = ValuationRequest(
    ticker: string,
    growthRate: real,
    discountRate: real,
    terminalMethod: TerminalMethod,
    marginOfSafety: real,
    preferredSource: string)

  /** `Field(..., ge=0.0, le=1.0)` */
  predicate InUnitRange(x: real) {
    0.0 <= x <= 1.0
  }

  /** The ticker constraint (1-10 characters) and its validator (alphanumeric, stored upper-cased). */
  function ValidateTicker(v: string): (r: Option<string>)
    ensures r.Some? <==> 1 <= |v| <= 10 && IsAlnumString(v)
    ensures r.Some? ==> r.value == Upper(v)
  {
    if 1 <= |v| <= 10 && IsAlnumString(v) then Some(Upper(v)) else None
  }

  /** The source validator: case-insensitive membership, stored lower-cased; 'yahoo' when left out. */
  function ValidateSource(v: Option<string>): (r: Option<string>)
    ensures v.None? ==> r == Some("yahoo")
    ensures v.Some? ==> (r.Some? <==> Lower(v.value) in ValidSources)
    ensures v.Some? && r.Some? ==> r.value == Lower(v.value)
    ensures r.Some? ==> r.value in ValidSources
  {
    match v
      case None => Some("yahoo")
      case Some(s) => if Lower(s) in ValidSources then Some(Lower(s)) else None
  }

  /** The terminal method, 'gordon' when left out. */
  function ValidateTerminalMethod(v: Option<string>): Option<TerminalMethod> {
    match v
      case None => Some(Gordon)
      case Some(s) => ParseTerminalMethod(s)
  }

  const ValuationFields: seq<Field> :=
    [Ticker, GrowthRate, DiscountRate, TerminalMethodField, MarginOfSafety, PreferredSource]

  /** Whether the rule of one field of a valuation request fails. */
  predicate ValuationFieldFails(input: ValuationInput, f: Field) {
    match f
      case Ticker => ValidateTicker(input.ticker).None?
      case GrowthRate => !InUnitRange(input.growthRate)
      case DiscountRate => !InUnitRange(input.discountRate)
      case TerminalMethodField => ValidateTerminalMethod(input.terminalMethod).None?
      case MarginOfSafety => !InUnitRange(input.marginOfSafety)
      case PreferredSource => ValidateSource(input.preferredSource).None?
      case _ => false
  }

  /** The fields of a valuation request whose rule fails. */
  function ValuationFailures(input: ValuationInput): (failed: set<Field>)
    ensures forall f :: f in failed <==> f in ValuationFields && ValuationFieldFails(input, f)
  {
    (if ValuationFieldFails(input, Ticker) then {Ticker} else {}) +
    (if ValuationFieldFails(input, GrowthRate) then {GrowthRate} else {}) +
    (if ValuationFieldFails(input, DiscountRate) then {DiscountRate} else {}) +
    (if ValuationFieldFails(input, TerminalMethodField) then {TerminalMethodField} else {}) +
    (if ValuationFieldFails(input, MarginOfSafety) then {MarginOfSafety} else {}) +
    (if ValuationFieldFails(input, PreferredSource) then {PreferredSource} else {})
  }

  /** The fields of a valuation request that fail, in declaration order. */
  function ValuationErrors(input: ValuationInput): seq<Field> {
    Failing(ValuationFields, ValuationFailures(input))
  }

  function ValidateValuationRequest(input: ValuationInput): (r: Result<ValuationRequest, seq<Field>>)
    ensures r.Err? <==> ValuationErrors(input) != []
    ensures r.Err? ==> r.error == ValuationErrors(input)
  {
    var errors := ValuationErrors(input);
    if errors != [] then Err(errors)
    else
      Ok(ValuationRequest(
      ValidateTicker(input.ticker).value,
      input.growthRate,
      input.discountRate,
      ValidateTerminalMethod(input.terminalMethod).value,
      input.marginOfSafety,
      ValidateSource(input.preferredSource).value))
  }

  /** A field is reported exactly when its own rule fails. */
  lemma ValuationFieldReported(input: ValuationInput, f: Field)
    requires f in ValuationFields
    ensures f in ValuationErrors(input) <==> ValuationFieldFails(input, f)
  {
  }

  /**
   * The rules field by field: the three rates must lie in [0, 1] inclusive,
   * the ticker must have 1-10 alphanumeric characters, the method must be
   * 'gordon' or 'multiple', the source one of the three names in any case.
   */
  lemma ValuationFieldRules(input: ValuationInput)
    ensures ValuationFieldFails(input, GrowthRate) <==> !(0.0 <= input.growthRate <= 1.0)
    ensures ValuationFieldFails(input, DiscountRate) <==> !(0.0 <= input.discountRate <= 1.0)
    ensures ValuationFieldFails(input, MarginOfSafety) <==> !(0.0 <= input.marginOfSafety <= 1.0)
    ensures ValuationFieldFails(input, Ticker) <==> !(1 <= |input.ticker| <= 10 && IsAlnumString(input.ticker))
    ensures ValuationFieldFails(input, TerminalMethodField) <==>
      input.terminalMethod.Some? && input.terminalMethod.value != "gordon" && input.terminalMethod.value != "multiple"
    ensures ValuationFieldFails(input, PreferredSource) <==>
      input.preferredSource.Some? && Lower(input.preferredSource.value) !in ValidSources
  {
  }

  /**
   * An accepted request keeps the three rates as given, each in [0, 1]; its
   * ticker is the input upper-cased, 1-10 alphanumeric characters, and
   * validates to itself again; a given method is the one named, a given
   * source is the input lower-cased and listed; defaults are 'gordon' and
   * 'yahoo'.
   */
  lemma AcceptedValuationRequest(input: ValuationInput)
    requires ValidateValuationRequest(input).Ok?
    ensures var v := ValidateValuationRequest(input).value;
      v.growthRate == input.growthRate && v.discountRate == input.discountRate &&
      v.marginOfSafety == input.marginOfSafety &&
      InUnitRange(v.growthRate) && InUnitRange(v.discountRate) && InUnitRange(v.marginOfSafety) &&
      1 <= |v.ticker| <= 10 && v.ticker == Upper(input.ticker) && ValidateTicker(v.ticker) == Some(v.ticker) &&
      v.preferredSource in ValidSources &&
      (input.terminalMethod.None? ==> v.terminalMethod == Gordon) &&
      (input.terminalMethod.Some? ==> Some(v.terminalMethod) == ParseTerminalMethod(input.terminalMethod.value)) &&
      (input.preferredSource.None? ==> v.preferredSource == "yahoo") &&
      (input.preferredSource.Some? ==> v.preferredSource == Lower(input.preferredSource.value))
  {
    var v := ValidateValuationRequest(input).value;
    assert ValuationErrors(input) == [];
    assert ValidateTicker(input.ticker).Some?;
    UpperKeepsAlnum(input.ticker);
    UpperIdempotent(input.ticker);
  }

  lemma UpperKeepsAlnum(s: string)
    requires IsAlnumString(s)
    ensures IsAlnumString(Upper(s))
  {
    forall i | 0 <= i < |s|
      ensures IsAlnum(Upper(s)[i])
    {
      assert IsAlnum(s[i]);
    }
  }

  /** The source is matched without regard to case. */
  lemma SourceCaseInsensitive(s: string)
    ensures ValidateSource(Some(Upper(s))) == ValidateSource(Some(s))
  {
    LowerOfUpper(s);
  }

  /** The values the tests refuse: growth 2.0, discount -0.1 and method 'invalid' are each reported. */
  lemma RefusedValuationExamples(input: ValuationInput)
    ensures input.growthRate == 2.0 ==> GrowthRate in ValuationErrors(input)
    ensures input.discountRate == -0.1 ==> DiscountRate in ValuationErrors(input)
    ensures input.terminalMethod == Some("invalid") ==> TerminalMethodField in ValuationErrors(input)
  {
    ValuationFieldReported(input, GrowthRate);
    ValuationFieldReported(input, DiscountRate);
    ValuationFieldReported(input, TerminalMethodField);
    if input.terminalMethod == Some("invalid") {
      assert "invalid" != "gordon" && "invalid" != "multiple";
    }
  }

  /** A Brazilian ticker such as 'PETR4.SA' is refused: '.' is not alphanumeric. */
  lemma SuffixTickerRefused()
    ensures ValidateTicker("PETR4.SA").None?
  {
    assert !IsAlnum("PETR4.SA"[5]);
  }

  // ---------------------------------------------------------------------
  // HistoricalDataRequest
  // ---------------------------------------------------------------------

  const ValidPeriods: seq<string> := ["1d", "5d", "1mo", "3mo", "6mo", "1y", "2y", "5y", "10y", "ytd", "max"]

  const ValidIntervals: seq<string> :=
    ["1m", "2m", "5m", "15m", "30m", "60m", "90m", "1h", "1d", "5d", "1wk", "1mo", "3mo"]

  datatype HistoricalInput = HistoricalInput(ticker: string, period: Option<string>, interval: Option<string>)

  datatype HistoricalDataRequest = HistoricalDataRequest(ticker: string, period: string, interval: string)

  /** A value from `allowed`, or `default` when left out. */
  function Choose(v: Option<string>, allowed: seq<string>, default: string): (r: Option<string>)
    ensures v.None? ==> r == Some(default)
    ensures v.Some? ==> (r.Some? <==> v.value in allowed) && (r.Some? ==> r.value == v.value)
  {
    match v
      case None => Some(default)
      case Some(s) => if s in allowed then Some(s) else None
  }

  const HistoricalFields: seq<Field> := [Ticker, Period, Interval]

  /** Whether the rule of one field of a historical-data request fails. */
  predicate HistoricalFieldFails(input: HistoricalInput, f: Field) {
    match f
      case Ticker => !(1 <= |input.ticker| <= 10)
      case Period => Choose(input.period, ValidPeriods, "5y").None?
      case Interval => Choose(input.interval, ValidIntervals, "1d").None?
      case _ => false
  }

  function HistoricalFailures(input: HistoricalInput): (failed: set<Field>)
    ensures forall f :: f in failed <==> f in HistoricalFields && HistoricalFieldFails(input, f)
  {
    (if HistoricalFieldFails(input, Ticker) then {Ticker} else {}) +
    (if HistoricalFieldFails(input, Period) then {Period} else {}) +
    (if HistoricalFieldFails(input, Interval) then {Interval} else {})
  }

  /** The fields of a historical-data request that fail, in declaration order. */
  function HistoricalErrors(input: HistoricalInput): seq<Field> {
    Failing(HistoricalFields, HistoricalFailures(input))
  }

  function ValidateHistoricalRequest(input: HistoricalInput): (r: Result<HistoricalDataRequest, seq<Field>>)
    ensures r.Err? <==> HistoricalErrors(input) != []
    ensures r.Err? ==> r.error == HistoricalErrors(input)
  {
    var errors := HistoricalErrors(input);
    if errors != [] then Err(errors)
    else Ok(HistoricalDataRequest(
      input.ticker,
      Choose(input.period, ValidPeriods, "5y").value,
      Choose(input.interval, ValidIntervals, "1d").value))
  }

  /**
   * An accepted historical request has a period among the eleven and an
   * interval among the thirteen, '5y' and '1d' when left out; the ticker is
   * kept as given.
   */
  lemma AcceptedHistoricalRequest(input: HistoricalInput)
    requires ValidateHistoricalRequest(input).Ok?
    ensures var v := ValidateHistoricalRequest(input).value;
      v.period in ValidPeriods && v.interval in ValidIntervals && v.ticker == input.ticker &&
      1 <= |v.ticker| <= 10 &&
      (input.period.None? ==> v.period == "5y") && (input.interval.None? ==> v.interval == "1d") &&
      (input.period.Some? ==> v.period == input.period.value) &&
      (input.interval.Some? ==> v.interval == input.interval.value)
  {
    assert HistoricalErrors(input) == [];
    assert "5y" in ValidPeriods;
    assert "1d" in ValidIntervals;
  }

  /** Each field is reported exactly when its own rule fails. */
  lemma HistoricalFieldsReported(input: HistoricalInput)
    ensures Ticker in HistoricalErrors(input) <==> !(1 <= |input.ticker| <= 10)
    ensures Period in HistoricalErrors(input) <==> input.period.Some? && input.period.value !in ValidPeriods
    ensures Interval in HistoricalErrors(input) <==> input.interval.Some? && input.interval.value !in ValidIntervals
  {
  }
}
