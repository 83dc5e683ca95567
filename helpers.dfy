/**
 * The text-to-value normalisers of utils/helpers.py: price, rating and integer extraction,
 * text cleaning, truncation, e-mail recognition and percentage change. All pure.
 */
module Helpers {
  import opened Wrappers
  import opened Text
  import opened Seqs

  // ---------------------------------------------------------------------------
  // Prices
  // ---------------------------------------------------------------------------

  predicate IsPriceChar(c: char) { IsDigit(c) || c == ',' || c == '.' }

  predicate AllPriceChars(s: string) { forall i :: 0 <= i < |s| ==> IsPriceChar(s[i]) }

  /** `re.sub(r'[^\d,.]', '', s)`: keep digits, commas and periods. */
  function KeepPriceChars(s: string): (r: string)
    ensures AllPriceChars(r) && |r| <= |s|
  {
    if s == [] then [] else (if IsPriceChar(s[0]) then [s[0]] else []) + KeepPriceChars(s[1..])
  }

  predicate FloatChars(s: string) { forall i :: 0 <= i < |s| ==> IsDigit(s[i]) || s[i] == '.' }

  /**
   * Python's `float(s)` on a string of digits, commas and periods: the digits before the
   * period are the integer part and those after it the fraction; `None` is the ValueError.
   */
  function ParseFloat(s: string): Option<real> {
    if !FloatChars(s) then None
    else
      var parts := Split(s, '.');
      if |parts| == 1 then
        if parts[0] == "" then None else Some(DigitsValue(parts[0]) as real)
      else if |parts| == 2 then
        if parts[0] == "" && parts[1] == "" then None
        else Some(DigitsValue(parts[0]) as real + DigitsValue(parts[1]) as real / Pow10(|parts[1]|) as real)
      else None
  }

  /** The value of the decimal numeral `whole.frac`. */
  function Decimal(whole: string, frac: string): real {
    DigitsValue(whole) as real + DigitsValue(frac) as real / Pow10(|frac|) as real
  }

  /** The separator rewriting of format_price, applied to the cleaned text. */
  function RewriteSeparators(clean: string): string {
    if ',' in clean && '.' in clean then
      if LastIndexOf(clean, ',') > LastIndexOf(clean, '.') then
        ReplaceChar(RemoveChar(clean, '.'), ',', '.')
      else clean
    else if ',' in clean then
      var parts := Split(clean, ',');
      if |parts| == 2 && |parts[1]| <= 2 then ReplaceChar(clean, ',', '.') else clean
    else clean
  }

  /** format_price: the price in a text, or 0.0 when the rewritten text is not a float. */
  function FormatPrice(text: string): (r: real)
    ensures r >= 0.0
  {
    if text == "" then 0.0
    else
      var clean := KeepPriceChars(text);
      if clean == "" then 0.0
      else
        ValueOrZero(ParseFloat(RewriteSeparators(clean)))
  }

  /** The `except ValueError: return 0.0` of format_price. */
  function ValueOrZero(v: Option<real>): (r: real)
    requires v.Some? ==> v.value >= 0.0
    ensures r >= 0.0
  {
    match v
    case Some(x) => x
    case None => 0.0
  }

  // ---------------------------------------------------------------------------
  // Ratings and numbers
  // ---------------------------------------------------------------------------

  /** The text from its first digit on, or "" when it has no digit. */
  function FromFirstDigit(s: string): (r: string)
    ensures r == [] || IsDigit(r[0])
    ensures |r| <= |s|
  {
    if s == [] then [] else if IsDigit(s[0]) then s else FromFirstDigit(s[1..])
  }

  /** The longest prefix made of digits (`\d+` matched greedily). */
  function DigitRun(s: string): (r: string)
    ensures AllDigits(r) && |r| <= |s| && r == s[..|r|]
    ensures |r| < |s| ==> !IsDigit(s[|r|])
  {
    if s != [] && IsDigit(s[0]) then [s[0]] + DigitRun(s[1..]) else []
  }

  /** What `\d+[.,]?\d*` matches at the start of a text that begins with a digit. */
  function RatingToken(s: string): string {
    var whole := DigitRun(s);
    var rest := s[|whole|..];
    if rest != [] && (rest[0] == '.' || rest[0] == ',') then whole + [rest[0]] + DigitRun(rest[1..])
    else whole
  }

  function CountStars(s: string): nat { CountChar(s, '\U{2605}') + CountChar(s, '\U{2B50}') }

  /** Values above 5 are read on a 10-point scale; the result is clamped to [0, 5]. */
  function NormaliseRating(v: real): (r: real)
    ensures 0.0 <= r <= 5.0
  {
    var half := if v > 5.0 then v / 2.0 else v;
    if half > 5.0 then 5.0 else if half < 0.0 then 0.0 else half
  }

  function StarRating(text: string): real {
    var stars := CountStars(text);
    if stars > 0 then (if stars < 5 then stars as real else 5.0) else 0.0
  }

  /** extract_rating: the first numeric token normalised to [0, 5], else the star count. */
  function ExtractRating(text: string): (r: real)
    ensures 0.0 <= r <= 5.0
  {
    if text == "" then 0.0
    else
      var t := FromFirstDigit(text);
      if t != [] then
        match ParseFloat(ReplaceChar(RatingToken(t), ',', '.'))
        case Some(v) => NormaliseRating(v)
        case None => StarRating(text)
      else StarRating(text)
  }

  /** extract_number: the first maximal run of digits as an integer, or 0. */
  function ExtractNumber(text: string): nat {
    if text == "" then 0
    else
      var t := FromFirstDigit(text);
      if t == [] then 0 else DigitsValue(DigitRun(t))
  }

  // ---------------------------------------------------------------------------
  // Text cleaning and truncation
  // ---------------------------------------------------------------------------

  /** The characters `[\x00-\x1f\x7f-\x9f]` that clean_text deletes. */
  predicate IsControl(c: char) { c <= '\U{1F}' || ('\U{7F}' <= c <= '\U{9F}') }

  predicate IsCurlyQuote(c: char) { c == '\U{201C}' || c == '\U{201D}' || c == '\U{2018}' || c == '\U{2019}' }

  /** `re.sub(r'\s+', ' ', s)`. */
  function CollapseSpaces(s: string): string
    decreases |s|
  {
    if s == [] then []
    else if IsSpace(s[0]) then [' '] + CollapseSpaces(TrimLeft(s[1..]))
    else [s[0]] + CollapseSpaces(s[1..])
  }

  function RemoveControls(s: string): (r: string)
    ensures forall i :: 0 <= i < |r| ==> !IsControl(r[i])
    ensures forall c :: c in r ==> c in s
  {
    if s == [] then [] else (if IsControl(s[0]) then [] else [s[0]]) + RemoveControls(s[1..])
  }

  function StraightQuote(c: char): char {
    if c == '\U{201C}' || c == '\U{201D}' then '"' else if c == '\U{2018}' || c == '\U{2019}' then '\'' else c
  }

  function StraightenQuotes(s: string): (r: string)
    ensures |r| == |s| && forall i :: 0 <= i < |s| ==> r[i] == StraightQuote(s[i])
  {
    if s == [] then [] else [StraightQuote(s[0])] + StraightenQuotes(s[1..])
  }

  /** clean_text: strip, collapse whitespace runs, delete control characters, straighten quotes. */
  function CleanText(text: string): (r: string)
    ensures forall i :: 0 <= i < |r| ==> !IsControl(r[i]) && !IsCurlyQuote(r[i])
    ensures forall i :: 0 <= i < |r| && IsSpace(r[i]) ==> r[i] == ' '
  {
    if text == "" then "" else StraightenQuotes(RemoveControls(CollapseSpaces(Strip(text))))
  }

  /** truncate_text, as written. */
  function TruncateText(text: string, maxLength: int, suffix: string): string {
    if text == "" || |text| <= maxLength then text
    else PyTake(text, maxLength - |suffix|) + suffix
  }

  /** truncate_text with the cut clamped at 0 and the result clamped to max_length. */
  function TruncateTextBounded(text: string, maxLength: int, suffix: string): (r: string)
    ensures |text| > maxLength ==> |r| <= (if maxLength >= 0 then maxLength else 0)
    ensures text == "" || |text| <= maxLength ==> r == text
  {
    if text == "" || |text| <= maxLength then text
    else
      var keep := if maxLength - |suffix| >= 0 then maxLength - |suffix| else 0;
      var full := text[..keep] + suffix;
      var bound := if maxLength >= 0 then maxLength else 0;
      if |full| <= bound then full else full[..bound]
  }

  // ---------------------------------------------------------------------------
  // E-mail and percentages
  // ---------------------------------------------------------------------------

  predicate IsLocalChar(c: char) { IsAsciiLetter(c) || IsDigit(c) || c in "._%+-" }

  predicate IsDomainChar(c: char) { IsAsciiLetter(c) || IsDigit(c) || c == '.' || c == '-' }

  function IndexOf(s: string, c: char): (r: int)
    ensures -1 <= r < |s|
    ensures r >= 0 ==> s[r] == c && c !in s[..r]
    ensures r < 0 ==> c !in s
  {
    if s == [] then -1
    else if s[0] == c then 0
    else var k := IndexOf(s[1..], c); if k < 0 then -1 else k + 1
  }

  predicate AllLocal(x: string) { forall i :: 0 <= i < |x| ==> IsLocalChar(x[i]) }

  predicate AllDomain(x: string) { forall i :: 0 <= i < |x| ==> IsDomainChar(x[i]) }

  predicate AllLetters(x: string) { forall i :: 0 <= i < |x| ==> IsAsciiLetter(x[i]) }

  /** `[a-zA-Z0-9.-]+\.[a-zA-Z]{2,}` matched against the whole text: split at the last period. */
  predicate DomainMatches(rest: string) {
    var d := LastIndexOf(rest, '.');
    AllDomain(rest) && d >= 1 && |rest| - (d + 1) >= 2 && AllLetters(rest[d + 1..])
  }

  /** The pattern anchored by `^` and `$` (no trailing newline): the local part ends at the first `@`. */
  predicate EmailBodyMatches(body: string) {
    var k := IndexOf(body, '@');
    k >= 1 && AllLocal(body[..k]) && DomainMatches(body[k + 1..])
  }

  /** validate_email: `re.match` accepts the pattern, where `$` also matches before a final newline. */
  function ValidateEmail(email: string): bool {
    if email == "" then false
    else if email[|email| - 1] == '\n' then EmailBodyMatches(email[..|email| - 1])
    else EmailBodyMatches(email)
  }

  /** calculate_percentage_change: 0 for a zero baseline; otherwise the change in percent. */
  function CalculatePercentageChange(oldValue: real, newValue: real): (r: real)
    ensures oldValue == 0.0 ==> r == 0.0
    ensures oldValue != 0.0 ==> oldValue + oldValue * r / 100.0 == newValue
    ensures oldValue > 0.0 ==> (r > 0.0 <==> newValue > oldValue)
  {
    if oldValue == 0.0 then 0.0 else ((newValue - oldValue) / oldValue) * 100.0
  }

  // ---------------------------------------------------------------------------
  // Facts: float parsing
  // ---------------------------------------------------------------------------

  lemma ParseOnePiece(s: string)
    requires FloatChars(s) && '.' !in s
    ensures ParseFloat(s).Some? <==> HasDigit(s)
  {
    SplitNoSeparator(s, '.');
    if s != [] {
      assert IsDigit(s[0]);
    }
  }

  lemma ParseTwoPieces(x: string, y: string)
    requires FloatChars(x + "." + y) && '.' !in x && '.' !in y
    ensures ParseFloat(x + "." + y).Some? <==> HasDigit(x + "." + y)
  {
    var s := x + "." + y;
    SplitConcat(x, '.', y);
    SplitNoSeparator(y, '.');
    if x != "" {
      assert s[0] == x[0] && s[0] != '.';
    } else if y != "" {
      assert s[1] == y[0] && s[1] != '.';
    }
    if HasDigit(s) {
      var i :| 0 <= i < |s| && IsDigit(s[i]);
      assert i != |x|;
    }
  }

  lemma SplitTwoPieces(s: string, c: char)
    requires |Split(s, c)| == 2
    ensures s == Split(s, c)[0] + [c] + Split(s, c)[1]
  {
    var parts := Split(s, c);
    SplitJoinBack(s, c);
    assert parts == [parts[0]] + [parts[1]];
    JoinCons(parts[0], [parts[1]], c);
  }

  /** `float` accepts exactly the texts over digits and periods with at most one period and some digit. */
  lemma ParseFloatDefined(s: string)
    ensures ParseFloat(s).Some? <==> FloatChars(s) && CountChar(s, '.') <= 1 && HasDigit(s)
  {
    if FloatChars(s) {
      var parts := Split(s, '.');
      SplitCount(s, '.');
      SplitPieces(s, '.');
      if |parts| == 1 {
        SplitJoinBack(s, '.');
        assert s == parts[0];
        ParseOnePiece(s);
      } else if |parts| == 2 {
        SplitTwoPieces(s, '.');
        ParseTwoPieces(parts[0], parts[1]);
      }
    }
  }

  lemma ParseFloatDecimal(whole: string, frac: string)
    requires AllDigits(whole) && AllDigits(frac) && whole + frac != ""
    ensures ParseFloat(whole + "." + frac) == Some(Decimal(whole, frac))
  {
    var s := whole + "." + frac;
    assert '.' !in whole && '.' !in frac;
    SplitConcat(whole, '.', frac);
    SplitNoSeparator(frac, '.');
    assert FloatChars(s) by {
      forall i | 0 <= i < |s| ensures IsDigit(s[i]) || s[i] == '.' {
        if i < |whole| {
          assert s[i] == whole[i];
        } else if i > |whole| {
          assert s[i] == frac[i - |whole| - 1];
        }
      }
    }
  }

  lemma ParseFloatInteger(whole: string)
    requires AllDigits(whole) && whole != ""
    ensures ParseFloat(whole) == Some(DigitsValue(whole) as real)
  {
    assert '.' !in whole;
    SplitNoSeparator(whole, '.');
  }

  lemma ParseFloatComma(s: string)
    requires ',' in s
    ensures ParseFloat(s) == None
  {
    var i :| 0 <= i < |s| && s[i] == ',';
  }

  // ---------------------------------------------------------------------------
  // Facts: format_price
  // ---------------------------------------------------------------------------

  lemma {:induction false} KeepPriceCharsIdentity(s: string)
    requires AllPriceChars(s)
    ensures KeepPriceChars(s) == s
  {
    if s != [] {
      KeepPriceCharsIdentity(s[1..]);
      assert [s[0]] + s[1..] == s;
    }
  }

  /** Currency symbols, letters and spaces do not affect the price read from a text. */
  lemma FormatPriceIgnoresOtherChars(text: string)
    ensures FormatPrice(text) == FormatPrice(KeepPriceChars(text))
  {
    KeepPriceCharsIdentity(KeepPriceChars(text));
  }

  lemma DigitsNoSeparators(x: string)
    requires AllDigits(x)
    ensures AllPriceChars(x) && '.' !in x && ',' !in x
  {
  }

  lemma PriceCharsConcat(x: string, y: string)
    requires AllPriceChars(x) && AllPriceChars(y)
    ensures AllPriceChars(x + y)
  {
    forall i | 0 <= i < |x + y| ensures IsPriceChar((x + y)[i]) {
      if i >= |x| {
        assert (x + y)[i] == y[i - |x|];
      }
    }
  }

  /** A price text built from digit runs and the given separators is already clean. */
  lemma CleanPriceText(a: string, p: char, b: string, q: char, c: string)
    requires AllDigits(a) && AllDigits(b) && AllDigits(c)
    requires p == '.' || p == ','
    requires q == '.' || q == ','
    ensures KeepPriceChars(a + [p] + b + [q] + c) == a + [p] + b + [q] + c
  {
    PriceCharsConcat(a, [p]);
    PriceCharsConcat(a + [p], b);
    PriceCharsConcat(a + [p] + b, [q]);
    PriceCharsConcat(a + [p] + b + [q], c);
    KeepPriceCharsIdentity(a + [p] + b + [q] + c);
  }

  /** Once a text is clean, format_price is the float of its rewriting, or 0. */
  lemma FormatPriceOfClean(s: string)
    requires s != "" && KeepPriceChars(s) == s
    ensures FormatPrice(s) == ValueOrZero(ParseFloat(RewriteSeparators(s)))
  {
  }

  lemma RewriteLastComma(s: string)
    requires ',' in s && '.' in s && LastIndexOf(s, ',') > LastIndexOf(s, '.')
    ensures RewriteSeparators(s) == ReplaceChar(RemoveChar(s, '.'), ',', '.')
  {
  }

  lemma RewriteBrazilian(a: string, b: string, c: string)
    requires '.' !in a && '.' !in b && '.' !in c && ',' !in a && ',' !in b && ',' !in c
    ensures RewriteSeparators(a + "." + b + "," + c) == (a + b) + "." + c
  {
    var y := b + [','] + c;
    var s := a + ['.'] + y;
    assert s == a + "." + b + "," + c;
    LastIndexAfter(a, '.', y);
    assert s == (a + ['.'] + b) + [','] + c;
    LastIndexAfter(a + ['.'] + b, ',', c);
    RewriteLastComma(s);
    RemoveOne(a, '.', y);
    ConcatRegroup(a, b, [','], c);
    CommaToPeriod(a + b, c);
  }

  lemma CleanPriceText1(a: string, p: char, c: string)
    requires AllDigits(a) && AllDigits(c)
    requires p == '.' || p == ','
    ensures KeepPriceChars(a + [p] + c) == a + [p] + c
  {
    var s := a + [p] + c;
    forall i | 0 <= i < |s| ensures IsPriceChar(s[i]) {
      if i < |a| {
        assert s[i] == a[i];
      } else if i > |a| {
        assert s[i] == c[i - |a| - 1];
      }
    }
    KeepPriceCharsIdentity(s);
  }

  lemma CommaToPeriod(x: string, c: string)
    requires ',' !in x && ',' !in c
    ensures ReplaceChar(x + "," + c, ',', '.') == x + "." + c
  {
  }

  /** Brazilian notation: periods group thousands and the comma marks the decimals ("1.234,56"). */
  lemma FormatPriceBrazilian(a: string, b: string, c: string)
    requires AllDigits(a) && AllDigits(b) && AllDigits(c) && a != ""
    ensures FormatPrice(a + "." + b + "," + c) == Decimal(a + b, c)
  {
    DigitsNoSeparators(a);
    DigitsNoSeparators(b);
    DigitsNoSeparators(c);
    CleanPriceText(a, '.', b, ',', c);
    FormatPriceOfClean(a + "." + b + "," + c);
    RewriteBrazilian(a, b, c);
    ParseFloatDecimal(a + b, c);
  }

  /** A period after the last comma ("1,234.56") leaves the comma in place, so the price reads as 0. */
  lemma FormatPricePeriodAfterComma(a: string, b: string, c: string)
    requires AllDigits(a) && AllDigits(b) && AllDigits(c)
    ensures FormatPrice(a + "," + b + "." + c) == 0.0
  {
    DigitsNoSeparators(a);
    DigitsNoSeparators(b);
    DigitsNoSeparators(c);
    var y := b + ['.'] + c;
    var s := a + [','] + y;
    assert s == a + "," + b + "." + c;
    CleanPriceText(a, ',', b, '.', c);
    LastIndexAfter(a, ',', y);
    assert s == (a + [','] + b) + ['.'] + c;
    LastIndexAfter(a + [','] + b, '.', c);
    assert RewriteSeparators(s) == s;
    ParseFloatComma(s);
  }

  /** A single comma followed by at most two digits is the decimal separator ("99,90"). */
  lemma FormatPriceCommaDecimals(a: string, c: string)
    requires AllDigits(a) && AllDigits(c) && a != "" && |c| <= 2
    ensures FormatPrice(a + "," + c) == Decimal(a, c)
  {
    DigitsNoSeparators(a);
    DigitsNoSeparators(c);
    var s := a + [','] + c;
    assert s == a + "," + c;
    CleanPriceText1(a, ',', c);
    FormatPriceOfClean(s);
    RewriteCommaDecimals(a, c);
    ParseFloatDecimal(a, c);
  }

  lemma RewriteCommaDecimals(a: string, c: string)
    requires '.' !in a && '.' !in c && ',' !in a && ',' !in c && |c| <= 2
    ensures RewriteSeparators(a + "," + c) == a + "." + c
  {
    var s := a + [','] + c;
    assert s == a + "," + c;
    assert '.' !in s;
    SplitConcat(a, ',', c);
    SplitNoSeparator(c, ',');
    CommaToPeriod(a, c);
  }

  /** A single comma followed by three or more digits stays, so the price reads as 0 ("1,234"). */
  lemma FormatPriceCommaGrouping(a: string, c: string)
    requires AllDigits(a) && AllDigits(c) && |c| >= 3
    ensures FormatPrice(a + "," + c) == 0.0
  {
    DigitsNoSeparators(a);
    DigitsNoSeparators(c);
    var s := a + [','] + c;
    assert s == a + "," + c;
    CleanPriceText1(a, ',', c);
    SplitConcat(a, ',', c);
    SplitNoSeparator(c, ',');
    assert RewriteSeparators(s) == s;
    ParseFloatComma(s);
  }

  /** A lone period is always the decimal point ("1.999" reads as 1.999). */
  lemma FormatPricePeriodDecimals(a: string, c: string)
    requires AllDigits(a) && AllDigits(c) && a != ""
    ensures FormatPrice(a + "." + c) == Decimal(a, c)
  {
    DigitsNoSeparators(a);
    DigitsNoSeparators(c);
    var s := a + ['.'] + c;
    assert s == a + "." + c;
    CleanPriceText1(a, '.', c);
    assert RewriteSeparators(s) == s;
    ParseFloatDecimal(a, c);
  }

  /** Two periods and no comma ("1.2.3") are not a float, so the price reads as 0. */
  lemma FormatPriceTwoPeriods(a: string, b: string, c: string)
    requires AllDigits(a) && AllDigits(b) && AllDigits(c)
    ensures FormatPrice(a + "." + b + "." + c) == 0.0
  {
    DigitsNoSeparators(a);
    DigitsNoSeparators(b);
    DigitsNoSeparators(c);
    var y := b + ['.'] + c;
    var s := a + ['.'] + y;
    assert s == a + "." + b + "." + c;
    CleanPriceText(a, '.', b, '.', c);
    assert RewriteSeparators(s) == s;
    SplitConcat(a, '.', y);
    SplitConcat(b, '.', c);
    assert |Split(s, '.')| >= 3;
  }

  lemma FormatPriceInteger(a: string)
    requires AllDigits(a) && a != ""
    ensures FormatPrice(a) == DigitsValue(a) as real
  {
    DigitsNoSeparators(a);
    KeepPriceCharsIdentity(a);
    ParseFloatInteger(a);
  }

  // ---------------------------------------------------------------------------
  // Facts: extract_rating and extract_number
  // ---------------------------------------------------------------------------

  lemma {:induction false} FromFirstDigitSkip(pre: string, t: string)
    requires !HasDigit(pre) && t != [] && IsDigit(t[0])
    ensures FromFirstDigit(pre + t) == t
  {
    if pre == [] {
      assert pre + t == t;
    } else {
      assert !IsDigit(pre[0]);
      assert (pre + t)[1..] == pre[1..] + t;
      assert !HasDigit(pre[1..]) by {
        forall i | 0 <= i < |pre[1..]| ensures !IsDigit(pre[1..][i]) {
          assert pre[1..][i] == pre[i + 1];
        }
      }
      FromFirstDigitSkip(pre[1..], t);
    }
  }

  lemma {:induction false} FromFirstDigitNone(s: string)
    requires !HasDigit(s)
    ensures FromFirstDigit(s) == []
  {
    if s != [] {
      assert !IsDigit(s[0]);
      assert !HasDigit(s[1..]) by {
        forall i | 0 <= i < |s[1..]| ensures !IsDigit(s[1..][i]) {
          assert s[1..][i] == s[i + 1];
        }
      }
      FromFirstDigitNone(s[1..]);
    }
  }

  lemma {:induction false} DigitRunPrefix(d: string, rest: string)
    requires AllDigits(d) && (rest == [] || !IsDigit(rest[0]))
    ensures DigitRun(d + rest) == d
  {
    if d == [] {
      assert d + rest == rest;
    } else {
      assert (d + rest)[1..] == d[1..] + rest;
      DigitRunPrefix(d[1..], rest);
      assert [d[0]] + d[1..] == d;
    }
  }

  lemma RatingTokenOf(whole: string, sep: char, frac: string, post: string)
    requires AllDigits(whole) && whole != "" && (sep == '.' || sep == ',') && AllDigits(frac)
    requires post == [] || !IsDigit(post[0])
    ensures RatingToken(whole + [sep] + frac + post) == whole + [sep] + frac
  {
    var t := whole + [sep] + frac + post;
    DigitRunPrefix(whole, [sep] + frac + post);
    assert t == whole + ([sep] + frac + post);
    assert t[|whole|..] == [sep] + frac + post;
    assert ([sep] + frac + post)[1..] == frac + post;
    DigitRunPrefix(frac, post);
  }

  lemma {:induction false} RatingTokenWhole(whole: string, post: string)
    requires AllDigits(whole) && whole != ""
    requires post == [] || !(IsDigit(post[0]) || post[0] == '.' || post[0] == ',')
    ensures RatingToken(whole + post) == whole
  {
    DigitRunPrefix(whole, post);
    assert (whole + post)[|whole|..] == post;
  }

  /** A token `whole[.,]frac` is read as the decimal `whole.frac`. */
  lemma TokenFloat(whole: string, sep: char, frac: string)
    requires AllDigits(whole) && AllDigits(frac) && whole != "" && (sep == '.' || sep == ',')
    ensures ParseFloat(ReplaceChar(whole + [sep] + frac, ',', '.')) == Some(Decimal(whole, frac))
  {
    DigitsNoSeparators(whole);
    DigitsNoSeparators(frac);
    ReplaceCharConcat(whole + [sep], frac, ',', '.');
    ReplaceCharConcat(whole, [sep], ',', '.');
    ReplaceCharAbsent(whole, ',', '.');
    ReplaceCharAbsent(frac, ',', '.');
    assert ReplaceChar([sep], ',', '.') == ".";
    ParseFloatDecimal(whole, frac);
  }

  lemma TokenInteger(whole: string)
    requires AllDigits(whole) && whole != ""
    ensures ParseFloat(ReplaceChar(whole, ',', '.')) == Some(DigitsValue(whole) as real)
  {
    DigitsNoSeparators(whole);
    ReplaceCharAbsent(whole, ',', '.');
    ParseFloatInteger(whole);
  }

  /** A rating written as digits, a period or comma, and digits reads as that decimal, normalised. */
  lemma ExtractRatingDecimal(pre: string, whole: string, sep: char, frac: string, post: string)
    requires !HasDigit(pre) && AllDigits(whole) && whole != "" && (sep == '.' || sep == ',')
    requires AllDigits(frac) && (post == [] || !IsDigit(post[0]))
    ensures ExtractRating(pre + whole + [sep] + frac + post) == NormaliseRating(Decimal(whole, frac))
  {
    var t := whole + [sep] + frac + post;
    assert pre + whole + [sep] + frac + post == pre + t;
    FromFirstDigitSkip(pre, t);
    RatingTokenOf(whole, sep, frac, post);
    TokenFloat(whole, sep, frac);
  }

  /** A rating written as a bare integer reads as that integer, normalised ("9 de 10" gives 4.5). */
  lemma ExtractRatingWhole(pre: string, whole: string, post: string)
    requires !HasDigit(pre) && AllDigits(whole) && whole != ""
    requires post == [] || !(IsDigit(post[0]) || post[0] == '.' || post[0] == ',')
    ensures ExtractRating(pre + whole + post) == NormaliseRating(DigitsValue(whole) as real)
  {
    var t := whole + post;
    assert pre + whole + post == pre + t;
    FromFirstDigitSkip(pre, t);
    RatingTokenWhole(whole, post);
    TokenInteger(whole);
  }

  /** The `ValueError` branch of extract_rating is dead: every matched token is a float. */
  lemma RatingTokenParses(t: string)
    requires t != [] && IsDigit(t[0])
    ensures ParseFloat(ReplaceChar(RatingToken(t), ',', '.')).Some?
  {
    var whole := DigitRun(t);
    assert whole != [];
    var rest := t[|whole|..];
    if rest != [] && (rest[0] == '.' || rest[0] == ',') {
      var frac := DigitRun(rest[1..]);
      assert RatingToken(t) == whole + [rest[0]] + frac;
      TokenFloat(whole, rest[0], frac);
    } else {
      assert RatingToken(t) == whole;
      TokenInteger(whole);
    }
  }

  /** Stars are counted only in a text with no digit, and at most 5 of them count. */
  lemma ExtractRatingStars(text: string)
    requires !HasDigit(text)
    ensures ExtractRating(text) == if CountStars(text) >= 5 then 5.0 else CountStars(text) as real
  {
    FromFirstDigitNone(text);
  }

  /** extract_number reads the first maximal digit run. */
  lemma ExtractNumberFirstRun(pre: string, digits: string, post: string)
    requires !HasDigit(pre) && AllDigits(digits) && digits != ""
    requires post == [] || !IsDigit(post[0])
    ensures ExtractNumber(pre + digits + post) == DigitsValue(digits)
  {
    var t := digits + post;
    assert pre + digits + post == pre + t;
    FromFirstDigitSkip(pre, t);
    DigitRunPrefix(digits, post);
  }

  /** Writing a number with `str` and reading it back with extract_number gives it back. */
  lemma ExtractNumberRoundTrip(pre: string, n: nat, post: string)
    requires !HasDigit(pre) && (post == [] || !IsDigit(post[0]))
    ensures ExtractNumber(pre + NatToString(n) + post) == n
  {
    NatToStringDigits(n);
    ExtractNumberFirstRun(pre, NatToString(n), post);
  }

  lemma ExtractNumberNoDigit(text: string)
    requires !HasDigit(text)
    ensures ExtractNumber(text) == 0
  {
    FromFirstDigitNone(text);
  }

  // ---------------------------------------------------------------------------
  // Facts: clean_text
  // ---------------------------------------------------------------------------

  /** Text clean_text leaves alone: single blanks only, none at the ends, no control character, no curly quote. */
  predicate IsCleanText(s: string) {
    && (forall i :: 0 <= i < |s| ==> !IsControl(s[i]) && !IsCurlyQuote(s[i]))
    && (forall i :: 0 <= i < |s| - 1 ==> !(s[i] == ' ' && s[i + 1] == ' '))
    && (s == [] || (s[0] != ' ' && s[|s| - 1] != ' '))
  }

  lemma {:induction false} CollapseSpacesIdentity(s: string)
    requires forall i :: 0 <= i < |s| ==> !IsControl(s[i])
    requires forall i :: 0 <= i < |s| - 1 ==> !(s[i] == ' ' && s[i + 1] == ' ')
    ensures CollapseSpaces(s) == s
    decreases |s|
  {
    if s != [] {
      var t := s[1..];
      assert forall i :: 0 <= i < |t| ==> t[i] == s[i + 1];
      CollapseSpacesIdentity(t);
      if IsSpace(s[0]) {
        TrimLeftNoSpace(t);
      }
      assert [s[0]] + t == s;
    }
  }

  lemma {:induction false} RemoveControlsIdentity(s: string)
    requires forall i :: 0 <= i < |s| ==> !IsControl(s[i])
    ensures RemoveControls(s) == s
  {
    if s != [] {
      RemoveControlsIdentity(s[1..]);
      assert [s[0]] + s[1..] == s;
    }
  }

  /** clean_text changes nothing in a text that is already clean. */
  lemma CleanTextFixpoint(s: string)
    requires IsCleanText(s)
    ensures CleanText(s) == s
  {
    StripIdentity(s);
    CollapseSpacesIdentity(s);
    RemoveControlsIdentity(s);
    assert StraightenQuotes(s) == s;
  }

  /** A control character between two blanks is deleted after the blanks are collapsed, leaving two. */
  lemma CleanTextKeepsDoubleBlank()
    ensures CleanText("a \U{1} b") == "a  b"
  {
    var s := "a \U{1} b";
    StripIdentity(s);
    CollapseKeepsControlled();
    RemoveControlsExample();
    StraightenQuotesIdentity("a  b");
  }

  lemma CollapseKeepsControlled()
    ensures CollapseSpaces("a \U{1} b") == "a \U{1} b"
  {
    var s := "a \U{1} b";
    assert TrimLeft("b") == "b";
    assert CollapseSpaces("b") == "b";
    assert CollapseSpaces(" b") == " b";
    assert TrimLeft(s[2..]) == s[2..];
    assert CollapseSpaces(s[2..]) == "\U{1} b";
    assert CollapseSpaces(s[1..]) == " \U{1} b";
  }

  lemma RemoveControlsExample()
    ensures RemoveControls("a \U{1} b") == "a  b"
  {
    var s := "a \U{1} b";
    assert RemoveControls("b") == "b";
    assert RemoveControls(s[3..]) == " b";
    assert RemoveControls(s[2..]) == " b";
  }

  lemma StraightenQuotesIdentity(s: string)
    requires forall i :: 0 <= i < |s| ==> !IsCurlyQuote(s[i])
    ensures StraightenQuotes(s) == s
  {
  }

  // ---------------------------------------------------------------------------
  // Facts: truncate_text
  // ---------------------------------------------------------------------------

  lemma TruncateTextShort(text: string, maxLength: int, suffix: string)
    requires |text| <= maxLength
    ensures TruncateText(text, maxLength, suffix) == text
  {
  }

  /** With room for the suffix, a long text keeps its first `max_length - len(suffix)` characters. */
  lemma TruncateTextCuts(text: string, maxLength: int, suffix: string)
    requires |suffix| <= maxLength < |text|
    ensures TruncateText(text, maxLength, suffix) == text[..maxLength - |suffix|] + suffix
    ensures |TruncateText(text, maxLength, suffix)| == maxLength
  {
  }

  /** When the suffix is longer than max_length the negative slice keeps most of the text. */
  lemma TruncateTextOverflows(text: string, maxLength: int, suffix: string)
    requires 0 <= maxLength < |suffix| && maxLength < |text|
    ensures |TruncateText(text, maxLength, suffix)| > maxLength
  {
  }

  lemma TruncateTextOverflowExample()
    ensures TruncateText("abcdef", 2, "...") == "abcde..."
  {
    assert PyTake("abcdef", -1) == "abcde";
  }

  /** The bounded version agrees with truncate_text whenever the suffix fits. */
  lemma TruncateTextBoundedAgrees(text: string, maxLength: int, suffix: string)
    requires maxLength >= |suffix|
    ensures TruncateTextBounded(text, maxLength, suffix) == TruncateText(text, maxLength, suffix)
  {
  }

  // ---------------------------------------------------------------------------
  // Facts: validate_email
  // ---------------------------------------------------------------------------

  /** `local@domain.tld` as the pattern spells it out. */
  predicate EmailParts(s: string, local: string, domain: string, tld: string) {
    && s == local + "@" + domain + "." + tld
    && |local| >= 1 && AllLocal(local)
    && |domain| >= 1 && AllDomain(domain)
    && |tld| >= 2 && AllLetters(tld)
  }

  ghost predicate EmailPattern(s: string) {
    exists local, domain, tld :: EmailParts(s, local, domain, tld)
  }

  lemma IndexOfAt(s: string, c: char, k: int)
    requires 0 <= k < |s| && s[k] == c && c !in s[..k]
    ensures IndexOf(s, c) == k
  {
    var r := IndexOf(s, c);
    assert s[k] in s;
    assert forall j :: 0 <= j < k ==> s[j] == s[..k][j];
    assert forall j :: 0 <= j < r ==> s[j] == s[..r][j];
  }

  lemma DomainSplits(rest: string)
    requires DomainMatches(rest)
    ensures var d := LastIndexOf(rest, '.');
      && rest == rest[..d] + "." + rest[d + 1..]
      && |rest[..d]| >= 1 && AllDomain(rest[..d])
  {
    var d := LastIndexOf(rest, '.');
    SliceAround(rest, d);
    assert [rest[d]] == ".";
    DomainPrefix(rest, d);
  }

  lemma DomainPrefix(s: string, k: nat)
    requires AllDomain(s) && k <= |s|
    ensures AllDomain(s[..k])
  {
    forall i | 0 <= i < k ensures IsDomainChar(s[..k][i]) {
      assert s[..k][i] == s[i];
    }
  }

  lemma DomainConcat(x: string, y: string)
    requires AllDomain(x) && AllDomain(y)
    ensures AllDomain(x + y)
  {
    forall i | 0 <= i < |x + y| ensures IsDomainChar((x + y)[i]) {
      if i >= |x| {
        assert (x + y)[i] == y[i - |x|];
      }
    }
  }

  lemma LettersAreDomain(x: string)
    requires AllLetters(x)
    ensures AllDomain(x) && '.' !in x
  {
    forall i | 0 <= i < |x| ensures IsDomainChar(x[i]) && x[i] != '.' {
      assert IsAsciiLetter(x[i]);
    }
  }

  lemma DomainJoins(domain: string, tld: string)
    requires |domain| >= 1 && AllDomain(domain) && |tld| >= 2 && AllLetters(tld)
    ensures DomainMatches(domain + "." + tld)
  {
    var rest := domain + ['.'] + tld;
    LettersAreDomain(tld);
    LastIndexAfter(domain, '.', tld);
    DomainConcat(domain, ".");
    DomainConcat(domain + ".", tld);
    assert rest[|domain| + 1..] == tld;
  }

  lemma LocalSplits(s: string)
    requires EmailBodyMatches(s)
    ensures var k := IndexOf(s, '@');
      s == s[..k] + "@" + s[k + 1..] && |s[..k]| >= 1 && AllLocal(s[..k]) && DomainMatches(s[k + 1..])
  {
    SliceAround(s, IndexOf(s, '@'));
  }

  lemma PartsOf(s: string, local: string, domain: string, tld: string)
    requires s == local + "@" + (domain + "." + tld)
    requires |local| >= 1 && AllLocal(local) && |domain| >= 1 && AllDomain(domain)
    requires |tld| >= 2 && AllLetters(tld)
    ensures EmailPattern(s)
  {
    ConcatRegroup(local + "@", domain, ".", tld);
    assert EmailParts(s, local, domain, tld);
  }

  lemma BodyMatchesParts(s: string)
    requires EmailBodyMatches(s)
    ensures EmailPattern(s)
  {
    LocalSplits(s);
    var k := IndexOf(s, '@');
    var rest := s[k + 1..];
    DomainSplits(rest);
    var d := LastIndexOf(rest, '.');
    PartsOf(s, s[..k], rest[..d], rest[d + 1..]);
  }

  lemma LocalHasNoAt(local: string)
    requires AllLocal(local)
    ensures '@' !in local
  {
    forall i | 0 <= i < |local| ensures local[i] != '@' {
      assert IsLocalChar(local[i]);
    }
  }

  lemma PartsBodyMatches(s: string, local: string, domain: string, tld: string)
    requires EmailParts(s, local, domain, tld)
    ensures EmailBodyMatches(s)
  {
    LocalHasNoAt(local);
    var rest := domain + "." + tld;
    ConcatRegroup(local + "@", domain, ".", tld);
    assert s == local + ['@'] + rest;
    assert s[..|local|] == local;
    assert s[|local| + 1..] == rest;
    IndexOfAt(s, '@', |local|);
    DomainJoins(domain, tld);
  }

  lemma BodyMatchesIff(s: string)
    ensures EmailBodyMatches(s) <==> EmailPattern(s)
  {
    if EmailBodyMatches(s) {
      BodyMatchesParts(s);
    }
    if EmailPattern(s) {
      var local, domain, tld :| EmailParts(s, local, domain, tld);
      PartsBodyMatches(s, local, domain, tld);
    }
  }

  /** A text of the pattern ends with a letter of its top-level domain. */
  lemma EmailPatternEndsWithLetter(s: string)
    requires EmailPattern(s)
    ensures s != "" && IsAsciiLetter(s[|s| - 1])
  {
    var local, domain, tld :| EmailParts(s, local, domain, tld);
    assert s[|s| - 1] == tld[|tld| - 1];
  }

  /** validate_email accepts exactly `local@domain.tld`, optionally followed by one newline. */
  lemma ValidateEmailMeaning(email: string)
    ensures ValidateEmail(email) <==>
      EmailPattern(email) || (email != "" && email[|email| - 1] == '\n' && EmailPattern(email[..|email| - 1]))
  {
    BodyMatchesIff(email);
    if email != "" && email[|email| - 1] == '\n' {
      BodyMatchesIff(email[..|email| - 1]);
      if EmailPattern(email) {
        EmailPatternEndsWithLetter(email);
      }
    }
  }
}
