# Stock valuation rules, modelled in Dafny

This project models the deterministic core of a stock-valuation backend. The
network data (Alpha Vantage reports, yfinance statements, `info` fields, a
language model's reply, the clock) is taken as input values. The model covers
the arithmetic and rules the backend applies to that data:

- **DCF engine** (`backend/dcf_model.py`):
  - the normaliser of `fetch_financials`: `safe_float`, the period count, the FCF and revenue-growth series, the recency-weighted average FCF and the viability checks;
  - `calculate_intrinsic_value`: the growth clamp, the 5-years-flat-then-fading projection, the Gordon or exit-multiple terminal value, discounting and the per-share checks;
  - the helper formulas `calculate_owners_earnings`, `calculate_terminal_value` and `calculate_npv`.
- **Quality, WACC and multiple rules** (`backend/yahoo_finance.py`):
  - statements are frames: an ordered sequence of named rows of optional cells;
  - first-alias lookups and summed-alias totals;
  - the quality ratios (with `float('inf')` as a tag), CAPM/WACC with its 8% fallback, and the bracketed dynamic multiple;
  - the guards of `calculate_cagr`;
  - the FCF-history extraction and the price and share guards of `_get_data_sync`.
- **Sliding-window rate limiter** (`backend/middleware/rate_limiter.py`): a class over `map<string, seq<real>>`, with `now` passed to each call.
- **Ticker rules** (`backend/ticker_finder.py`): `is_valid_ticker` and the tagged-line parser of the reply.
- **Request validators** (`backend/schemas/validation.py`).
- **Rating brackets** (`backend/main.py`) and the BUY/HOLD rule of `backend/stock_analyzer.py`.

Loops of the source are methods with loop invariants. Each method is proved
equal to a specification function, and the properties are proved as lemmas
about those functions. Quantities are `real`.

Three facts of the DCF normaliser that the model keeps as the code has them:

- FCF is `operatingCashflow - capitalExpenditures`, with no sign normalisation of capex.
- The weights `[1.0, 0.8, 0.6, 0.4, 0.2]` fall linearly.
- `[100, 80, 60]` averages to 200/2.4 = 250/3 (`DcfNormalize.AverageExample`).

Files:

| file | module | models |
|---|---|---|
| wrappers.dfy | Wrappers | `Option`, `Result` |
| numbers.dfy | Numbers | `Pow`, `Sum`, `Min`, `Max`, `Abs`, Python's `int()` truncation, the `Finite(x) \| PosInf` tag for `float('inf')` |
| text.dfy | Text | ASCII `strip`, `upper`, `lower`, `startswith`, `endswith`, `in`, `replace(tag, '')`, `split` |
| dcf_normalize.dfy | DcfNormalize | the normaliser of `fetch_financials` |
| dcf_valuation.dfy | DcfValuation | the helper formulas and `calculate_intrinsic_value` |
| frames.dfy | Frames | statements as labelled rows: `field in df.index`, `df.loc[field].iloc[0]`, `df.loc[field, period]` |
| yahoo_finance.dfy | YahooFinance | quality metrics, WACC, dynamic multiple, CAGR, FCF history, `_get_data_sync` |
| rate_limiter.dfy | RateLimiting | `RateLimiter` |
| ticker_finder.dfy | TickerFinder | `is_valid_ticker`, reply parsing |
| validation.dfy | Validation | `ValuationRequest`, `HistoricalDataRequest`, `TerminalMethod` |
| ratings.dfy | Ratings | the rating and recommendation brackets of `main.py` |
| stock_analyzer.dfy | StockAnalyzer | `analyze_stock` |

## Model

| member | source | states |
|---|---|---|
| DcfNormalize.SafeFloat | backend/dcf_model.py:87-91 | the default for a missing, `None`, zero or empty value and for text that is not a number; the number or parsed text otherwise |
| DcfNormalize.IntTextRoundTrip | backend/dcf_model.py:89 | `float` reads back every integer from the decimal text `str` writes for it |
| DcfNormalize.NoneTextIsNotANumber | backend/dcf_model.py:88-91 | the text "None" that the API writes for unknown figures is not a number, so it falls to the default |
| DcfNormalize.PointValue | backend/dcf_model.py:89 | digits, a point and digits read as the whole part plus the fraction over the matching power of ten |
| DcfNormalize.ExponentValue | backend/dcf_model.py:89 | a mantissa, an exponent mark and a signed exponent read as the mantissa scaled by that power of ten |
| DcfNormalize.SurroundingSpaceExample | backend/dcf_model.py:89 | `float` ignores white space around the number: " 12\n" reads as 12 |
| DcfNormalize.ExponentExample | backend/dcf_model.py:89 | `float` reads an exponent: "1e3" is 1000 |
| DcfNormalize.PointExample | backend/dcf_model.py:89 | "2.5" reads as 2.5 |
| DcfNormalize.PointAndNegativeExponent | backend/dcf_model.py:89 | "2.5E-1" reads as 0.25 |
| DcfNormalize.NegativeExponentExample | backend/dcf_model.py:89 | a sign, a point and a negative exponent together: "-2.5E-1" is −0.25 |
| DcfNormalize.DanglingExponentExample | backend/dcf_model.py:89-91 | an exponent mark without digits, "1e", is not a number |
| DcfNormalize.PeriodCount | backend/dcf_model.py:102 | the period count is at most 5 and at most each report count, and it equals one of them |
| DcfNormalize.FcfSeriesAt | backend/dcf_model.py:112-121 | the FCF series has one entry per period, and entry i is operating cash flow minus capital expenditures of report i |
| DcfNormalize.GrowthSeriesShape | backend/dcf_model.py:123-129 | at most one growth entry per adjacent pair; each entry is the growth of a pair whose older revenue is positive; none is skipped when all older revenues are positive |
| DcfNormalize.DefaultHistoricalGrowth | backend/dcf_model.py:139-145 | with no pair whose older revenue is positive the growth series is empty and the historical growth is exactly 3% |
| DcfNormalize.AverageBetween | backend/dcf_model.py:132-135 | the weighted average FCF lies between any lower and upper bound of the values averaged |
| DcfNormalize.AverageOfConstant | backend/dcf_model.py:132-135 | a constant series averages to that constant |
| DcfNormalize.AverageExample | backend/dcf_model.py:133-135 | [100, 80, 60] averages to 250/3 under the linear weights |
| DcfNormalize.Normalize | backend/dcf_model.py:72-185 | the response check followed by the report normalisation computes the normalised record or the first error |
| DcfNormalize.NormalizeReports | backend/dcf_model.py:94-185 | the period loop appending FCF and growth entries computes the normalised record or the first error, from the annual-report lists on |
| DcfNormalize.NormalizedOutcome | backend/dcf_model.py:72-176 | an empty cash-flow, income or overview response is refused first, naming exactly the empty ones; then empty annual-report lists; a result uses min(5, #cash-flow, #income) periods, FCF entry i from report i, a positive weighted average and a positive share count |
| DcfValuation.OwnersEarnings | backend/dcf_model.py:266-268 | owner's earnings plus maintenance capex give back the operating cash flow |
| DcfValuation.NormalizerFcfIsOwnersEarnings | backend/dcf_model.py:118-121 | each FCF of the normaliser is the owner's earnings of that report |
| DcfValuation.HelperTerminalValue | backend/dcf_model.py:270-278 | Gordon with the 4% cap fails exactly on a zero denominator and otherwise satisfies TV·(r − g) = last·(1 + g); any other method gives 15 × the last flow |
| DcfValuation.CalculateNpv | backend/dcf_model.py:280-282 | division by zero exactly when there are flows and the rate is −1; an empty list is worth 0 |
| DcfValuation.NpvPositive | backend/dcf_model.py:280-282 | positive flows at a rate above −100% have a positive NPV |
| DcfValuation.PresentValue | backend/dcf_model.py:340-343 | fails exactly when the rate is ≤ −1; otherwise the value grown at the rate over the years is the future value |
| DcfValuation.ClampGrowth | backend/dcf_model.py:308-309 | the default growth rate is the historical one clamped to [2%, 20%] |
| DcfValuation.YearGrowthSchedule | backend/dcf_model.py:315-320 | years 1-5 use the rate itself; later years never go below 3% nor, for a rate of at least 3%, above the rate |
| DcfValuation.YearGrowthFades | backend/dcf_model.py:319-320 | after year 5 the yearly rate never rises |
| DcfValuation.YearGrowthExample | backend/dcf_model.py:320 | 10% growth becomes 9% in year 6, 5% in year 10 and the 3% floor in year 15 |
| DcfValuation.ProjectionAt | backend/dcf_model.py:313-323 | flow y of the projection is the base FCF compounded at year y's rate for y years |
| DcfValuation.ProjectCashFlows | backend/dcf_model.py:313-323 | the `for year` loop yields exactly `years` flows, equal to the projection |
| DcfValuation.ProjectionPositive | backend/dcf_model.py:313-323 | a positive base and a non-negative rate give only positive flows |
| DcfValuation.TerminalValue | backend/dcf_model.py:326-337 | Gordon with the 3% cap raises exactly when the discount rate is at or below the perpetual growth, and otherwise TV·(r − g) = last·(1 + g); the exit path is 12 × the last flow; an empty projection has no last flow |
| DcfValuation.ExitMultipleExample | backend/dcf_model.py:334-337 | a last flow of 1,000,000 gives a terminal value of 12,000,000 |
| DcfValuation.DiscountFlows | backend/dcf_model.py:346-348 | the present-value generator sums flow k over (1 + r)^k, which is the NPV of the helper formula |
| DcfValuation.IntrinsicValue | backend/dcf_model.py:284-363 | the valuation computed step by step is the valuation function of the inputs |
| DcfValuation.IntrinsicResult | backend/dcf_model.py:346-363 | a returned valuation has at least one year, a positive per-share value equal to the two present values over a positive share count, `years` projected flows, an NPV equal to `calculate_npv`, and the terminal value discounted over `years` years |
| DcfValuation.IntrinsicErrors | backend/dcf_model.py:326-358 | which error each failing input raises, in the order the checks are made |
| DcfValuation.ViableInputsAreValued | backend/dcf_model.py:308-363 | positive average FCF and shares, non-negative growth, at least one year and a feasible discount rate always give a valuation |
| DcfValuation.HelperAgreesWithInline | backend/dcf_model.py:270-278 | the helper and inline terminal values agree under Gordon when the cap does not bite; the helper's multiple is 15/12 of the inline one |
| Frames.RowIndex | backend/yahoo_finance.py:47-48 | a label is found at its first row, and not found exactly when no row carries it |
| Frames.Latest | backend/yahoo_finance.py:48 | the latest value is missing exactly when the statement lacks the row |
| YahooFinance.FirstAlias | backend/yahoo_finance.py:44-83 | missing exactly when no alias is present; otherwise the latest value of the first present alias in list order |
| YahooFinance.FindFirstAlias | backend/yahoo_finance.py:46-49 | the `for ... break` scan returns that first-alias value |
| YahooFinance.SumAliases | backend/yahoo_finance.py:145-166 | the accumulating scan returns the alias total, or failure on a NaN cell |
| YahooFinance.AliasTotalConcat | backend/yahoo_finance.py:87-97 | the total over a list is the sum of the totals of its parts, so every present alias is added, not only the first |
| YahooFinance.AliasTotalSingle | backend/yahoo_finance.py:95-97 | an absent alias adds nothing and a present one adds its value (its absolute value for interest) |
| YahooFinance.AbsoluteTotalNonNegative | backend/yahoo_finance.py:164-166 | the interest total of absolute values is never negative |
| YahooFinance.Ratios | backend/yahoo_finance.py:85-101 | FCF/income is 0 for zero net income and otherwise (ocf + capex)·100 over net income; debt/FCF is +inf exactly when ocf + capex = 0, and otherwise debt over FCF |
| YahooFinance.CalculateQualityMetrics | backend/yahoo_finance.py:30-125 | the statement scans compute the quality figures of the company |
| YahooFinance.QualityFallbackCases | backend/yahoo_finance.py:32-69 | an empty statement, or no net-income or no operating-cash-flow alias, gives the fallback (0, +inf, 0) |
| YahooFinance.QualityDefaults | backend/yahoo_finance.py:71-118 | when no capex or working-capital alias is present, both count as 0 in the ratios |
| YahooFinance.EquityWeight | backend/yahoo_finance.py:174-177 | the equity weight is market cap over total capital, 1 when capital is not positive, and in [0, 1] for non-negative inputs |
| YahooFinance.AfterTaxCostOfDebt | backend/yahoo_finance.py:168-171 | zero without positive debt; otherwise the interest after 21% tax, over debt |
| YahooFinance.CalculateWacc | backend/yahoo_finance.py:127-184 | the step-by-step WACC equals the WACC of the company, 8.0 on any failure |
| YahooFinance.WaccWithoutDebt | backend/yahoo_finance.py:139-180 | with no debt the WACC is (0.0425 + beta·0.06)·100 |
| YahooFinance.WaccBetweenCosts | backend/yahoo_finance.py:173-181 | with non-negative market cap and debt the WACC lies between the cost of equity and the after-tax cost of debt |
| YahooFinance.WaccDefaults | backend/yahoo_finance.py:133-184 | an empty statement or a `None` beta or market cap gives 8.0; an absent beta counts as 1.0 and an absent market cap as 0 |
| YahooFinance.BaseMultiple | backend/yahoo_finance.py:189-197 | the base multiple is one of 8, 10, 12, 15; it is 15 exactly above 15% growth and 8 exactly at or below 5% |
| YahooFinance.BaseMultipleMonotone | backend/yahoo_finance.py:189-197 | a higher growth rate never gets a lower base multiple |
| YahooFinance.QualityScore | backend/yahoo_finance.py:199-209 | the quality factor is one of 0.6 to 1.4 in steps of 0.2; an infinite debt/FCF costs 0.2 |
| YahooFinance.WaccAdjustment | backend/yahoo_finance.py:211-216 | the WACC factor is 1.1 exactly below 8%, 0.9 exactly above 12%, and 1.0 otherwise |
| YahooFinance.DynamicMultiple | backend/yahoo_finance.py:186-221 | the step-by-step multiple equals base × quality × WACC factor, or 10 for a missing quality key |
| YahooFinance.MultipleBounds | backend/yahoo_finance.py:186-221 | every multiple lies in [4.32, 23.1] |
| YahooFinance.Cagr | backend/yahoo_finance.py:17-28 | 0 with fewer than two values, fewer than one year or a non-positive oldest value; otherwise the root of newest over oldest, minus one, in percent |
| YahooFinance.GeometricGrowth | backend/yahoo_finance.py:17-26 | a history of n values growing by the factor q a year has a growth rate of (q − 1)·100 over n − 1 years |
| YahooFinance.AsWrittenMisreadsSteadyGrowth | backend/yahoo_finance.py:353 | 121, 110, 100 has growth 10% over two years but not over the three years passed as written |
| YahooFinance.ScanRowsFirstMatch | backend/yahoo_finance.py:299-309 | the fuzzy scan takes the first row, in index order, that mentions a term and has a value in the period, and finds nothing exactly when there is no such row |
| YahooFinance.FindTermRow | backend/yahoo_finance.py:322-332 | the row loop returns that fuzzy-scan value |
| YahooFinance.ReadDirectHistory | backend/yahoo_finance.py:274-285 | the period loop over the 'Free Cash Flow' row collects its non-NaN values in period order |
| YahooFinance.DirectRowComplete | backend/yahoo_finance.py:276-282 | a fully filled 'Free Cash Flow' row yields its values, period by period |
| YahooFinance.ComputePeriodFcf | backend/yahoo_finance.py:290-341 | one period's FCF is operating cash flow plus capex, and absent when no operating row has a value |
| YahooFinance.CapexFallbacks | backend/yahoo_finance.py:311-336 | capex comes from the exact 'Capital Expenditure' row, then the fuzzy scan, then 0 |
| YahooFinance.ComputedComplete | backend/yahoo_finance.py:288-346 | with an operating value in every period, the computed history is ocf + capex of each period in order |
| YahooFinance.ComputedEntries | backend/yahoo_finance.py:288-346 | every computed entry is ocf + capex of one scanned period |
| YahooFinance.FcfHistory | backend/yahoo_finance.py:270-346 | the history has at most one entry per period |
| YahooFinance.HistorySources | backend/yahoo_finance.py:274-288 | the direct row wins whenever it yields a value; without that row the history is the computed one |
| YahooFinance.ExtractFcfHistory | backend/yahoo_finance.py:270-346 | the direct-then-computed extraction equals the FCF history of the statement |
| YahooFinance.CashFlowUsed | backend/yahoo_finance.py:240-264 | the annual cash flow when not empty, else the quarterly one, and none exactly when both are empty |
| YahooFinance.GetDataSync | backend/yahoo_finance.py:223-391 | the gathering steps compute the data of the ticker, or the first error raised |
| YahooFinance.StockDataOutcome | backend/yahoo_finance.py:230-369 | a falsy price or share count and two empty cash-flow statements are refused first; gathered data has non-zero price and shares, a non-empty history whose first entry is the latest FCF, a growth rate taken over `len(history)` years as written, and a multiple in [4.32, 23.1] |
| RateLimiting.Recent | backend/middleware/rate_limiter.py:14-21 | the kept timestamps are exactly those under 60 seconds old, never more than before |
| RateLimiting.RecentAppend | backend/middleware/rate_limiter.py:18-21 | cleaning distributes over concatenation, so the kept timestamps keep their order |
| RateLimiting.RecentKeepsWindow | backend/middleware/rate_limiter.py:18-21 | cleaning leaves a list entirely inside the window unchanged |
| RateLimiting.RecentIdempotent | backend/middleware/rate_limiter.py:14-21 | cleaning twice at the same instant is cleaning once |
| RateLimiting.RateLimiter.constructor | backend/middleware/rate_limiter.py:10-12 | a new limiter has the given limit and an empty table |
| RateLimiting.RateLimiter.CleanOldRequests | backend/middleware/rate_limiter.py:14-21 | only a known client's list is replaced, by its cleaned list |
| RateLimiting.RateLimiter.CheckRateLimit | backend/middleware/rate_limiter.py:23-51 | allowed exactly when the cleaned list is below the limit, and then `now` is appended; otherwise the list is only cleaned and the reset is the truncated time until the oldest kept request leaves the window, in (0, 60]; other clients unchanged; no list exceeds the limit |
| RateLimiting.SixtyFirstRequestRefused | backend/middleware/rate_limiter.py:35-50 | 61 requests within a minute against the default limit of 60: the first 60 pass and the 61st is refused |
| TickerFinder.IsValidTicker | backend/ticker_finder.py:87-111 | an empty input is refused; a valid stripped ticker has 1 to 9 characters |
| TickerFinder.ValidTickerForms | backend/ticker_finder.py:96-111 | valid exactly when the stripped, upper-cased input is 1-5 letters, or a 4-6 character base of letters and a final digit followed by `.SA` |
| TickerFinder.SuffixNeverUs | backend/ticker_finder.py:96-111 | a `.SA` form never meets the US rule |
| TickerFinder.UpperCaseInsensitive | backend/ticker_finder.py:93 | upper-casing the input never changes the verdict |
| TickerFinder.LowerCaseInsensitive | backend/ticker_finder.py:93 | lower-casing the input never changes the verdict |
| TickerFinder.AcceptedExamples | backend/ticker_finder.py:87-111 | "AAPL" and " petr4.sa " are accepted |
| TickerFinder.RefusedExamples | backend/ticker_finder.py:87-111 | "PETR4", "BRK B", "GOOGLE" and "AB1.SA" are refused |
| TickerFinder.ReadLine | backend/ticker_finder.py:53-59 | a line starting with a tag sets that tag's field (the first matching tag in order) to the line without the tag, stripped; other lines change nothing |
| TickerFinder.ParseReply | backend/ticker_finder.py:44-64 | no result exactly when the final ticker field is empty, otherwise all three fields read |
| TickerFinder.ParseTickerReply | backend/ticker_finder.py:44-64 | the line loop overwriting the `info` entries computes the parsed reply |
| TickerFinder.TickerUntouched | backend/ticker_finder.py:53-59 | lines without the ticker tag never change the ticker |
| TickerFinder.MarketUntouched | backend/ticker_finder.py:53-59 | lines without the market tag never change the market |
| TickerFinder.NoteUntouched | backend/ticker_finder.py:53-59 | lines without the note tag never change the note |
| TickerFinder.UntaggedFieldsEmpty | backend/ticker_finder.py:47-59 | a parsed reply without a market line has an empty market, and without a note line an empty note |
| TickerFinder.ReadLinesAppend | backend/ticker_finder.py:53 | reading two blocks of lines is reading the second from where the first left off |
| TickerFinder.LastTickerLineWins | backend/ticker_finder.py:53-55 | the last ticker line decides the ticker |
| TickerFinder.NoTickerLineNoResult | backend/ticker_finder.py:61-62 | a reply with no ticker line gives no result |
| Validation.ParseTerminalMethod | backend/schemas/validation.py:5-7 | exactly 'gordon' and 'multiple' are methods, case-sensitive |
| Validation.ValidateTicker | backend/schemas/validation.py:17-21 | a ticker is accepted exactly when it has 1-10 alphanumeric characters, and is stored upper-cased |
| Validation.ValidateSource | backend/schemas/validation.py:23-28 | accepted exactly when its lower-case form is a listed source; the stored value is the input lower-cased; 'yahoo' by default |
| Validation.ValuationFailures | backend/schemas/validation.py:9-28 | a field is in the failure set exactly when its own rule fails |
| Validation.ValidateValuationRequest | backend/schemas/validation.py:9-28 | a request is refused exactly when some field fails, with every failing field listed |
| Validation.ValuationFieldReported | backend/schemas/validation.py:9-28 | a field is reported exactly when its own rule fails |
| Validation.ValuationFieldRules | backend/schemas/validation.py:10-15 | the three rates must lie in [0, 1] inclusive; the ticker, method and source rules are as above |
| Validation.AcceptedValuationRequest | backend/schemas/validation.py:9-28 | an accepted request keeps the three rates as given, each in [0, 1]; its ticker is the input upper-cased and validates to itself again; a given method is the one named and a given source is the input lower-cased and listed; 'gordon' and 'yahoo' are the defaults |
| Validation.SourceCaseInsensitive | backend/schemas/validation.py:26-28 | the source is matched without regard to case |
| Validation.RefusedValuationExamples | backend/schemas/validation.py:11-13 | growth 2.0, discount −0.1 and method 'invalid' are each reported |
| Validation.SuffixTickerRefused | backend/schemas/validation.py:19-20 | 'PETR4.SA' is refused for its '.' |
| Validation.Choose | backend/schemas/validation.py:35-47 | a value is accepted exactly when it is listed and is kept as given; the default when left out |
| Validation.HistoricalFailures | backend/schemas/validation.py:30-47 | a field is in the failure set exactly when its own rule fails |
| Validation.ValidateHistoricalRequest | backend/schemas/validation.py:30-47 | refused exactly when some field fails, with every failing field listed |
| Validation.HistoricalFieldsReported | backend/schemas/validation.py:31-47 | the ticker needs 1-10 characters, the period one of the 11 values and the interval one of the 13 |
| Validation.AcceptedHistoricalRequest | backend/schemas/validation.py:30-47 | an accepted request keeps the ticker and has a listed period and interval, '5y' and '1d' by default |
| Ratings.RateGrowth | backend/main.py:44-55 | Excellent above 20, Very Good above 15, Good above 10, Moderate above 5, Low otherwise, each exactly on its interval |
| Ratings.RateGrowthMonotone | backend/main.py:44-55 | a higher growth rate never gets a lower rating |
| Ratings.QualityScore | backend/main.py:59-79 | the quality score always lies in [−2, 5] |
| Ratings.LabelOf | backend/main.py:81-88 | High from 4, Good from 2, Average from 0, Low below, each exactly on its interval |
| Ratings.RateFcfQuality | backend/main.py:57-88 | the accumulated score and its label are the score of the figures and its label |
| Ratings.QualityScoreExtremes | backend/main.py:57-88 | the fallback figures (0, +inf, 0) score −2, Low; income ratio above 90, debt below 3 and a small working-capital change score 5 |
| Ratings.EstimateValue | backend/main.py:107-109 | division by zero shares or a zero price is an error; otherwise fair value·shares = FCF·multiple and (upside/100 + 1)·price = fair value |
| Ratings.Recommend | backend/main.py:145-154 | every upside gets exactly one of the five recommendations, each exactly on its interval |
| Ratings.RecommendMonotone | backend/main.py:145-154 | a larger upside never gets a weaker recommendation |
| Ratings.UnderpricedAtLeastHold | backend/main.py:107-154 | a price below the fair value gives a positive upside and at least Hold |
| StockAnalyzer.Analyze | backend/stock_analyzer.py:20-39 | zero shares or a zero price is an error; otherwise fair value·shares = 10·FCF, buy-below = 0.7·fair value, BUY exactly when the price is at or below it, and upside·price = (fair value − price)·100 |
| StockAnalyzer.BuyImpliesUpside | backend/stock_analyzer.py:31-35 | at a positive price a BUY means an upside of at least (1/0.7 − 1)·100 = 300/7 percent |
| StockAnalyzer.UpsideAgreesWithReport | backend/stock_analyzer.py:25-35 | the analyser's fair value and upside equal the report's formula for a multiple of 10 |
| StockAnalyzer.GatheredDataAnalyses | backend/stock_analyzer.py:17-22 | data gathered for a ticker can always be analysed, and its total FCF is the first history entry |

## Left out

- Network, cache and database I/O: the retry loop, `_fetch_data`, `_get_from_cache` and `_save_to_cache` of `backend/dcf_model.py`, the yfinance calls and the executor and async wrappers of `backend/yahoo_finance.py`, `backend/database.py`. The fetched reports, statements and `info` fields are parameters.
- The company-overview metadata strings of `fetch_financials` and the descriptive fields of its result: they are copied through unchanged.
- Python exceptions raised by the yfinance and pandas calls are not modelled. The model's errors are the explicit checks of the source.
- The n-th root `pow(x, 1/years)` of `calculate_cagr` is a function parameter. The proofs about it assume it is the genuine positive root. The complex result Python gives for a negative ratio is not modelled.
- Floating point: quantities are exact reals. `round(...)` in the result records is not modelled, and neither are float overflow or rounding.
- NaN cells: a NaN value read by a first-alias lookup or an alias sum, and a `None` beta or market cap, are treated as the failure path. Quality then returns its fallback and WACC returns 8.0. The source would instead carry NaN into the arithmetic. The comparisons of the multiple and rating rules on NaN are not modelled.
- Duplicate row labels in a statement: the first row with the label is used, where pandas would return several rows.
- Strings are ASCII: `strip`, `upper`, `lower`, `isalpha`, `isdigit` and `isalnum` know no Unicode classes.
- The timestamp rendering `datetime.fromtimestamp(...).isoformat()` of the rate limiter is kept as the raw reset time. `time.time()` is the parameter `now`. `rate_limit_middleware` is not part of this model (it builds a fresh limiter for every request).
- A `requests_per_minute` of 0 or less: the source indexes an empty list and raises `IndexError`. This is modelled as the `IndexError` outcome.
- Rendering: the rich tables, panels and console output of `backend/main.py`, `display_ticker_info`, and every print and log call.
- The OpenAI request of `get_company_ticker` and `AIAnalyst` (`backend/ai_analysis.py`). The reply text is the parser's input.
- The Typer CLI commands of `backend/main.py`, `backend/middleware/error_handler.py` and `backend/test_yahoo.py`.
- DcfNormalize.SafeFloat: reads as not-a-number three text forms that Python's `float` accepts: digits grouped with underscores ("1_000"), the special values "inf", "infinity" and "nan" in any case (a real has no such value), and non-ASCII digits or white space.
- DcfNormalize.Normalized: the `Dados financeiros ausentes` error keeps which responses were empty as three flags, not the message text.
- Pydantic's error messages: a refused request reports the list of failing fields, not message text. Missing required fields are not modelled, because every required field is a parameter.

## Findings

| source | as written | input that shows it | evidently intended | confidence | as-written member | corrected member |
|---|---|---|---|---|---|---|
| backend/yahoo_finance.py:353 | `calculate_cagr(fcf_history, len(fcf_history))` takes as many years as there are values | a history 121, 110, 100 (newest first) growing exactly 10% a year is reported as 1.21^(1/3) − 1 ≈ 6.6% | n yearly values span n − 1 years, so the growth should be taken over `len(fcf_history) - 1` years and give 10% | medium, not executed | YahooFinance.AsWrittenMisreadsSteadyGrowth | YahooFinance.GeometricGrowth |
