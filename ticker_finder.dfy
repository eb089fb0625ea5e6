/**
 * The string rules of `TickerFinder` (backend/ticker_finder.py): the
 * shape test for Brazilian `.SA` and US tickers, and the reading of the
 * three tagged lines of the assistant's reply. The request to the language
 * model itself is not part of this model; its reply text is the input.
 */
module TickerFinder {
  import opened Wrappers
  import opened Text

  // ---------------------------------------------------------------------
  // is_valid_ticker
  // ---------------------------------------------------------------------

  const BrazilSuffix := ".SA"

  /** The rule for a stripped, upper-cased ticker ending in `.SA`: a 4-6 character base, letters then one digit. */
  predicate BrazilianShape(s: string)
    requires EndsWith(s, BrazilSuffix)
  {
    var base := s[..|s| - 3];
    4 <= |base| <= 6 && IsDigit(base[|base| - 1]) && AllAlpha(base[..|base| - 1])
  }

  /** The rule for any other stripped, upper-cased ticker: 1-5 letters, no space. */
  predicate UsShape(s: string) {
    1 <= |s| <= 5 && ' ' !in s && AllAlpha(s)
  }

  /** `is_valid_ticker`: the verdict on the stripped, upper-cased input. */
  function IsValidTicker(input: string): (valid: bool)
    ensures input == [] ==> !valid
    ensures valid ==> 1 <= |Strip(input)| <= 9
  {
    if input == [] then false
    else
      var s := Upper(Strip(input));
      if EndsWith(s, BrazilSuffix) then BrazilianShape(s) else UsShape(s)
  }

  /** Only the stripped, upper-cased form decides, so upper-casing the input changes nothing. */
  lemma UpperCaseInsensitive(input: string)
    ensures IsValidTicker(Upper(input)) == IsValidTicker(input)
  {
    StripUpper(input);
    UpperIdempotent(Strip(input));
  }

  /** Lower-casing the input changes nothing either. */
  lemma LowerCaseInsensitive(input: string)
    ensures IsValidTicker(Lower(input)) == IsValidTicker(input)
  {
    StripLower(input);
    UpperOfLower(Strip(input));
  }

  /**
   * A `.SA` form never passes the US rule (its '.' is not a letter), so the
   * two rules never both apply and an `.SA` input is judged by its own rule alone.
   */
  lemma SuffixNeverUs(s: string)
    requires EndsWith(s, BrazilSuffix)
    ensures !UsShape(s)
  {
    assert s[|s| - 3] == '.';
  }

  /** The two accepted forms of a stripped, upper-cased ticker, spelled out character by character. */
  predicate AcceptedForm(s: string) {
    || (1 <= |s| <= 5 && forall i :: 0 <= i < |s| ==> IsAlpha(s[i]))
    || (7 <= |s| <= 9 && s[|s| - 3..] == BrazilSuffix && IsDigit(s[|s| - 4]) &&
        forall i :: 0 <= i < |s| - 4 ==> IsAlpha(s[i]))
  }

  /**
   * A ticker is valid exactly when its stripped, upper-cased form is 1-5
   * letters (so no digit and no space), or a base of 3-5 letters and one
   * final digit followed by `.SA`.
   */
  lemma ValidTickerForms(input: string)
    ensures IsValidTicker(input) <==> input != [] && AcceptedForm(Upper(Strip(input)))
  {
    if input != [] {
      var s := Upper(Strip(input));
      if EndsWith(s, BrazilSuffix) {
        var base := s[..|s| - 3];
        assert s[|s| - 3..] == BrazilSuffix;
        assert forall i :: 0 <= i < |s| - 4 ==> s[i] == base[..|base| - 1][i];
        assert !IsAlpha(s[|s| - 3]);
      }
      if 1 <= |s| <= 5 && (forall i :: 0 <= i < |s| ==> IsAlpha(s[i])) {
        assert ' ' !in s by {
          forall i | 0 <= i < |s| ensures s[i] != ' ' {
            assert IsAlpha(s[i]);
          }
        }
      }
    }
  }

  /** A plain US ticker and a padded, lower-case Brazilian one are accepted. */
  lemma AcceptedExamples()
    ensures IsValidTicker("AAPL")
    ensures IsValidTicker(" petr4.sa ")
  {
    assert Upper(Strip("AAPL")) == "AAPL";
    assert "AAPL"[1..] != BrazilSuffix by {
      assert "AAPL"[1] != '.';
    }
    assert Strip(" petr4.sa ") == "petr4.sa" by {
      assert StripLeft(" petr4.sa ") == "petr4.sa ";
      assert StripRight("petr4.sa ") == "petr4.sa";
    }
    assert Upper("petr4.sa") == "PETR4.SA";
  }

  /** A digit without the suffix, a space, six letters, or a 3-character base are refused. */
  lemma RefusedExamples()
    ensures !IsValidTicker("PETR4")
    ensures !IsValidTicker("BRK B")
    ensures !IsValidTicker("GOOGLE")
    ensures !IsValidTicker("AB1.SA")
  {
    assert Upper(Strip("PETR4")) == "PETR4";
    assert "PETR4"[4] == '4';
    assert Upper(Strip("BRK B")) == "BRK B";
    assert "BRK B"[3] == ' ';
    assert Upper(Strip("GOOGLE")) == "GOOGLE";
    assert Upper(Strip("AB1.SA")) == "AB1.SA";
  }

  // ---------------------------------------------------------------------
  // Reply parsing in get_company_ticker
  // ---------------------------------------------------------------------

  const TickerTag := "TICKER_PRINCIPAL:"
  const MarketTag := "MERCADO:"
  const NoteTag := "NOTA:"

  /** The `info` dictionary: main ticker, market and note. */
  datatype TickerInfo = TickerInfo(ticker: string, market: string, note: string)

  const EmptyInfo := TickerInfo("", "", "")

  /** The value of a tagged line: the line with every copy of the tag removed, stripped. */
  function TagValue(line: string, tag: string): string
    requires |tag| > 0
  {
    Strip(RemoveAll(line, tag))
  }

  /** One line of the reply: a tagged line overwrites its own field and no other. */
  function ReadLine(info: TickerInfo, line: string): (r: TickerInfo)
    ensures StartsWith(line, TickerTag) ==> r == info.(ticker := TagValue(line, TickerTag))
    ensures !StartsWith(line, TickerTag) && StartsWith(line, MarketTag) ==> r == info.(market := TagValue(line, MarketTag))
    ensures !StartsWith(line, TickerTag) && !StartsWith(line, MarketTag) && StartsWith(line, NoteTag) ==>
      r == info.(note := TagValue(line, NoteTag))
    ensures !StartsWith(line, TickerTag) && !StartsWith(line, MarketTag) && !StartsWith(line, NoteTag) ==> r == info
  {
    if StartsWith(line, TickerTag) then info.(ticker := TagValue(line, TickerTag))
    else if StartsWith(line, MarketTag) then info.(market := TagValue(line, MarketTag))
    else if StartsWith(line, NoteTag) then info.(note := TagValue(line, NoteTag))
    else info
  }

  /** The lines read in order, starting from `info`. */
  function ReadLines(info: TickerInfo, lines: seq<string>): TickerInfo
    decreases |lines|
  {
    if lines == [] then info else ReadLine(ReadLines(info, lines[..|lines| - 1]), lines[|lines| - 1])
  }

  /** The parsed reply: `None` when no non-empty ticker was read. */
  function ParseReply(content: string): (r: Option<TickerInfo>)
    ensures r.None? <==> ReadLines(EmptyInfo, Split(Strip(content), '\n')).ticker == ""
    ensures r.Some? ==> r.value == ReadLines(EmptyInfo, Split(Strip(content), '\n'))
  {
    var info := ReadLines(EmptyInfo, Split(Strip(content), '\n'));
    if info.ticker == "" then None else Some(info)
  }

  method ParseTickerReply(content: string) returns (r: Option<TickerInfo>)
    ensures r == ParseReply(content)
  {
    var result := Strip(content);
    var lines := Split(result, '\n');
    var info := EmptyInfo;
    for i := 0 to |lines|
      invariant info == ReadLines(EmptyInfo, lines[..i])
    {
      assert lines[..i + 1][..i] == lines[..i];
      var line := lines[i];
      if StartsWith(line, TickerTag) {
        info := info.(ticker := Strip(RemoveAll(line, TickerTag)));
      } else if StartsWith(line, MarketTag) {
        info := info.(market := Strip(RemoveAll(line, MarketTag)));
      } else if StartsWith(line, NoteTag) {
        info := info.(note := Strip(RemoveAll(line, NoteTag)));
      }
    }
    assert lines[..|lines|] == lines;
    if info.ticker == "" {
      return None;
    }
    r := Some(info);
  }

  /** Lines that do not start with the ticker tag leave the ticker as it was. */
  lemma {:induction false} TickerUntouched(info: TickerInfo, lines: seq<string>)
    requires forall i :: 0 <= i < |lines| ==> !StartsWith(lines[i], TickerTag)
    ensures ReadLines(info, lines).ticker == info.ticker
    decreases |lines|
  {
    if lines != [] {
      TickerUntouched(info, lines[..|lines| - 1]);
    }
  }

  /** Lines that do not start with the market tag leave the market as it was. */
  lemma {:induction false} MarketUntouched(info: TickerInfo, lines: seq<string>)
    requires forall i :: 0 <= i < |lines| ==> !StartsWith(lines[i], MarketTag)
    ensures ReadLines(info, lines).market == info.market
    decreases |lines|
  {
    if lines != [] {
      MarketUntouched(info, lines[..|lines| - 1]);
    }
  }

  /** Lines that do not start with the note tag leave the note as it was. */
  lemma {:induction false} NoteUntouched(info: TickerInfo, lines: seq<string>)
    requires forall i :: 0 <= i < |lines| ==> !StartsWith(lines[i], NoteTag)
    ensures ReadLines(info, lines).note == info.note
    decreases |lines|
  {
    if lines != [] {
      NoteUntouched(info, lines[..|lines| - 1]);
    }
  }

  lemma {:induction false} ReadLinesAppend(info: TickerInfo, a: seq<string>, b: seq<string>)
    ensures ReadLines(info, a + b) == ReadLines(ReadLines(info, a), b)
    decreases |b|
  {
    if b == [] {
      assert a + b == a;
    } else {
      assert (a + b)[..|a + b| - 1] == a + b[..|b| - 1];
      ReadLinesAppend(info, a, b[..|b| - 1]);
    }
  }

  /** The last line carrying the ticker tag decides the ticker: later lines overwrite earlier ones. */
  lemma LastTickerLineWins(info: TickerInfo, before: seq<string>, line: string, after: seq<string>)
    requires StartsWith(line, TickerTag)
    requires forall i :: 0 <= i < |after| ==> !StartsWith(after[i], TickerTag)
    ensures ReadLines(info, before + [line] + after).ticker == TagValue(line, TickerTag)
  {
    ReadLinesAppend(info, before + [line], after);
    ReadLinesAppend(info, before, [line]);
    assert [line][..0] == [];
    TickerUntouched(ReadLines(info, before + [line]), after);
  }

  /** A parsed reply with no market line, or no note line, has that field empty. */
  lemma UntaggedFieldsEmpty(content: string)
    ensures (ParseReply(content).Some? &&
      forall line :: line in Split(Strip(content), '\n') ==> !StartsWith(line, MarketTag)) ==>
      ParseReply(content).value.market == ""
    ensures (ParseReply(content).Some? &&
      forall line :: line in Split(Strip(content), '\n') ==> !StartsWith(line, NoteTag)) ==>
      ParseReply(content).value.note == ""
  {
    var lines := Split(Strip(content), '\n');
    if forall line :: line in lines ==> !StartsWith(line, MarketTag) {
      MarketUntouched(EmptyInfo, lines);
    }
    if forall line :: line in lines ==> !StartsWith(line, NoteTag) {
      NoteUntouched(EmptyInfo, lines);
    }
  }

  /** A reply without any ticker line parses to nothing. */
  lemma NoTickerLineNoResult(content: string)
    requires forall line :: line in Split(Strip(content), '\n') ==> !StartsWith(line, TickerTag)
    ensures ParseReply(content).None?
  {
    TickerUntouched(EmptyInfo, Split(Strip(content), '\n'));
  }
}
