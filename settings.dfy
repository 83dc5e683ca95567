/**
 * The validators and lookups of config/settings.py: the comma-separated list fields, the
 * `HH:MM` check of the daily execution time, the log-level check, the required e-mail
 * settings and the per-site configuration table.
 */
module Settings {
  import opened Wrappers
  import opened Text

  /** The settings the rest of the model reads, with their declared defaults in `Defaults`. */
  datatype Config = Config(
    emailUser: string,
    emailPassword: string,
    emailRecipients: seq<string>,
    sendDailySummary: bool,
    scrapingDelay: real,
    requestTimeout: int,
    dailyExecutionTime: string,
    enableScheduling: bool,
    amazonBaseUrl: string,
    amazonSearchUrl: string,
    ebayBaseUrl: string,
    ebaySearchUrl: string,
    mercadolivreBaseUrl: string,
    mercadolivreSearchUrl: string)

  const Defaults := Config(
    emailUser := "",
    emailPassword := "",
    emailRecipients := [],
    sendDailySummary := true,
    scrapingDelay := 2.0,
    requestTimeout := 30,
    dailyExecutionTime := "09:00",
    enableScheduling := false,
    amazonBaseUrl := "https://www.amazon.com.br",
    amazonSearchUrl := "https://www.amazon.com.br/s",
    ebayBaseUrl := "https://www.ebay.com",
    ebaySearchUrl := "https://www.ebay.com/sch/i.html",
    mercadolivreBaseUrl := "https://www.mercadolivre.com.br",
    mercadolivreSearchUrl := "https://lista.mercadolivre.com.br")

  // ---------------------------------------------------------------------------
  // parse_email_recipients / parse_proxy_list
  // ---------------------------------------------------------------------------

  /** The raw value the list validators receive: `None`, a string, or an already-built list. */
  datatype RawList = NoValue | Str(s: string) | Items(items: seq<string>)

  /** `[p.strip() for p in pieces if p.strip()]`. */
  function Stripped(pieces: seq<string>): (r: seq<string>)
    ensures |r| <= |pieces|
    ensures forall i :: 0 <= i < |r| ==> r[i] != "" && Strip(r[i]) == r[i]
  {
    if pieces == [] then []
    else
      var p := Strip(pieces[0]);
      StripIdempotent(pieces[0]);
      (if p != "" then [p] else []) + Stripped(pieces[1..])
  }

  /**
   * Both list validators: `None` and "" give the empty list, a string gives its stripped,
   * non-empty comma-separated pieces, and anything else passes through.
   */
  function ParseList(v: RawList): (r: seq<string>)
    ensures v.NoValue? || v == Str("") ==> r == []
    ensures v.Items? ==> r == v.items
    ensures v.Str? ==> forall i :: 0 <= i < |r| ==> r[i] != "" && Strip(r[i]) == r[i] && ',' !in r[i]
  {
    match v
    case NoValue => []
    case Str(s) =>
      if s == "" then []
      else
        SplitPieces(s, ',');
        StrippedKeepsOut(Split(s, ','), ',');
        Stripped(Split(s, ','))
    case Items(xs) => xs
  }

  /** Stripping never adds a character, so a piece without `c` stays without it. */
  lemma {:induction false} StrippedKeepsOut(pieces: seq<string>, c: char)
    requires forall i :: 0 <= i < |pieces| ==> c !in pieces[i]
    ensures forall i :: 0 <= i < |Stripped(pieces)| ==> c !in Stripped(pieces)[i]
    decreases |pieces|
  {
    if pieces != [] {
      StrippedKeepsOut(pieces[1..], c);
      StripSubstring(pieces[0]);
    }
  }

  lemma StripIdempotent(s: string)
    ensures Strip(Strip(s)) == Strip(s)
  {
    StripShape(s);
    StripIdentity(Strip(s));
  }

  /** A list of clean, comma-free entries survives being written out comma-separated and parsed back. */
  lemma {:induction false} ParseListJoin(xs: seq<string>)
    requires xs != []
    requires forall i :: 0 <= i < |xs| ==> xs[i] != "" && ',' !in xs[i] && Strip(xs[i]) == xs[i]
    ensures ParseList(Str(Join(xs, ','))) == xs
  {
    SplitJoin(xs, ',');
    StrippedClean(xs);
    assert Join(xs, ',') != "" by {
      JoinNonEmpty(xs, ',');
    }
  }

  lemma {:induction false} StrippedClean(xs: seq<string>)
    requires forall i :: 0 <= i < |xs| ==> xs[i] != "" && Strip(xs[i]) == xs[i]
    ensures Stripped(xs) == xs
    decreases |xs|
  {
    if xs != [] {
      StrippedClean(xs[1..]);
      assert [xs[0]] + xs[1..] == xs;
    }
  }

  lemma JoinNonEmpty(xs: seq<string>, c: char)
    requires xs != [] && xs[0] != ""
    ensures Join(xs, c) != ""
  {
    if |xs| > 1 {
      assert |Join(xs, c)| >= |xs[0]|;
    }
  }

  /** Blank entries and the spaces around entries are dropped: " a@x.com, ,b@y.com " gives two addresses. */
  lemma ParseListBlankPieces(a: string, b: string)
    requires a != "" && b != "" && ',' !in a && ',' !in b
    requires Strip(a) == a && Strip(b) == b
    ensures ParseList(Str(" " + a + ", ," + b + " ")) == [a, b]
  {
    SplitBlankPieces(a, b);
    StripLeadingBlank(a);
    StripTrailingBlank(b);
    assert Strip(" ") == "" by {
      assert TrimLeft(" ") == TrimLeft("");
    }
    assert Stripped([b + " "]) == [b];
    assert Stripped([" ", b + " "]) == [b];
    assert Stripped([" " + a, " ", b + " "]) == [a] + [b];
  }

  lemma SplitBlankPieces(a: string, b: string)
    requires ',' !in a && ',' !in b
    ensures Split(" " + a + ", ," + b + " ", ',') == [" " + a, " ", b + " "]
  {
    var s := " " + a + ", ," + b + " ";
    assert s == (" " + a) + [','] + (" ," + b + " ");
    SplitConcat(" " + a, ',', " ," + b + " ");
    assert " ," + b + " " == " " + [','] + (b + " ");
    SplitConcat(" ", ',', b + " ");
    SplitNoSeparator(b + " ", ',');
  }

  lemma StripLeadingBlank(a: string)
    requires a != "" && Strip(a) == a
    ensures Strip(" " + a) == a
  {
    StripShape(a);
    assert TrimLeft(" " + a) == TrimLeft(a) by {
      assert (" " + a)[1..] == a;
    }
    TrimLeftNoSpace(a);
    TrimRightNoSpace(a);
  }

  /** One character after a stripped text is dropped by `strip` when it is a space or a newline. */
  lemma StripTrailingBlank(b: string)
    requires b != "" && Strip(b) == b
    ensures Strip(b + " ") == b && Strip(b + "\n") == b
  {
    StripShape(b);
    TrimLeftNoSpace(b + " ");
    TrimLeftNoSpace(b + "\n");
    assert TrimRight(b + " ") == TrimRight(b) by {
      assert (b + " ")[..|b + " "| - 1] == b;
    }
    assert TrimRight(b + "\n") == TrimRight(b) by {
      assert (b + "\n")[..|b + "\n"| - 1] == b;
    }
    TrimRightNoSpace(b);
  }

  // ---------------------------------------------------------------------------
  // validate_time_format
  // ---------------------------------------------------------------------------

  /** `[01]?[0-9]|2[0-3]`: one digit, or two with the first 0 or 1, or 20 to 23. */
  predicate HourText(h: string) {
    (|h| == 1 && IsDigit(h[0]))
    || (|h| == 2 && IsDigit(h[1]) && (h[0] == '0' || h[0] == '1' || (h[0] == '2' && h[1] <= '3')))
  }

  /** `[0-5][0-9]`. */
  predicate MinuteText(m: string) {
    |m| == 2 && '0' <= m[0] <= '5' && IsDigit(m[1])
  }

  /** The text the pattern's `$` leaves for the rest: Python's `$` also matches before one final newline. */
  function BeforeEnd(v: string): string {
    if v != "" && v[|v| - 1] == '\n' then v[..|v| - 1] else v
  }

  /** `re.match(r'^([01]?[0-9]|2[0-3]):[0-5][0-9]$', v)`. */
  predicate TimeMatches(v: string) {
    var core := BeforeEnd(v);
    |core| >= 4 && core[|core| - 3] == ':' && HourText(core[..|core| - 3]) && MinuteText(core[|core| - 2..])
  }

  /** `validate_time_format`: the value unchanged when it matches, else `ValueError`. */
  function ValidateTimeFormat(v: string): (r: Result<string, string>)
    ensures r.Ok? <==> TimeMatches(v)
    ensures r.Ok? ==> r.value == v
    ensures r.Err? ==> r.error == "ValueError"
  {
    if TimeMatches(v) then Ok(v) else Err("ValueError")
  }

  /** `int(s)` on a string that is ASCII digits once stripped; anything else raises `ValueError`. */
  function ParseInt(s: string): (r: Option<nat>)
    ensures r.Some? <==> Strip(s) != "" && AllDigits(Strip(s))
    ensures r.Some? ==> r.value == DigitsValue(Strip(s))
  {
    var t := Strip(s);
    if t != "" && AllDigits(t) then Some(DigitsValue(t)) else None
  }

  /** `hour, minute = map(int, t.split(':'))` of the scheduler: exactly two pieces, each an int. */
  function ParseTime(t: string): (r: Result<(nat, nat), string>)
    ensures r.Ok? <==> |Split(t, ':')| == 2 && ParseInt(Split(t, ':')[0]).Some? && ParseInt(Split(t, ':')[1]).Some?
    ensures r.Ok? ==> r.value == (ParseInt(Split(t, ':')[0]).value, ParseInt(Split(t, ':')[1]).value)
  {
    var parts := Split(t, ':');
    if |parts| != 2 then Err("ValueError")
    else
      var h := ParseInt(parts[0]);
      var m := ParseInt(parts[1]);
      if h.Some? && m.Some? then Ok((h.value, m.value)) else Err("ValueError")
  }

  /**
   * Every time the validator accepts is split by the scheduler into an hour in [0,23] and a
   * minute in [0,59], the values the text spells.
   */
  lemma TimeFormatBounds(v: string)
    requires ValidateTimeFormat(v).Ok?
    ensures ParseTime(v).Ok?
    ensures var (h, m) := ParseTime(v).value; 0 <= h <= 23 && 0 <= m <= 59
  {
    var core := BeforeEnd(v);
    var hs := core[..|core| - 3];
    var ms := core[|core| - 2..];
    var tail := if v != "" && v[|v| - 1] == '\n' then "\n" else "";
    SplitTime(v, hs, ms, tail);
    HourValue(hs);
    MinuteValue(ms);
    StripIdentity(hs);
    StripIdentity(ms);
    if tail != "" {
      StripTrailingBlank(ms);
    } else {
      assert ms + tail == ms;
    }
  }

  /** A time the pattern accepts splits at its one colon into the hour and the rest. */
  lemma SplitTime(v: string, hs: string, ms: string, tail: string)
    requires TimeMatches(v)
    requires hs == BeforeEnd(v)[..|BeforeEnd(v)| - 3] && ms == BeforeEnd(v)[|BeforeEnd(v)| - 2..]
    requires tail == if v != "" && v[|v| - 1] == '\n' then "\n" else ""
    ensures Split(v, ':') == [hs, ms + tail]
  {
    var core := BeforeEnd(v);
    assert v == hs + [':'] + (ms + tail);
    assert ':' !in hs;
    assert ':' !in ms + tail;
    SplitConcat(hs, ':', ms + tail);
    SplitNoSeparator(ms + tail, ':');
  }

  lemma HourValue(h: string)
    requires HourText(h)
    ensures AllDigits(h) && h != "" && DigitsValue(h) <= 23
  {
    if |h| == 2 {
      assert h[..1] == [h[0]] && [h[0]][..0] == [];
      assert DigitsValue([h[0]]) == DigitValue(h[0]);
      assert DigitsValue(h) == DigitsValue(h[..1]) * 10 + DigitValue(h[1]);
    } else {
      assert h[..0] == [];
    }
  }

  lemma MinuteValue(m: string)
    requires MinuteText(m)
    ensures AllDigits(m) && m != "" && DigitsValue(m) <= 59
  {
    assert m[..1] == [m[0]] && [m[0]][..0] == [];
    assert DigitsValue([m[0]]) == DigitValue(m[0]);
    assert DigitsValue(m) == DigitsValue(m[..1]) * 10 + DigitValue(m[1]);
  }

  /** The default execution time is valid, and so is a time with a final newline; "24:00" and "9:5" are not. */
  lemma TimeFormatExamples()
    ensures ValidateTimeFormat("09:00").Ok? && ValidateTimeFormat("7:30\n").Ok?
    ensures ValidateTimeFormat("24:00").Err? && ValidateTimeFormat("9:5").Err?
  {
    assert BeforeEnd("7:30\n") == "7:30";
  }

  // ---------------------------------------------------------------------------
  // validate_log_level, validate_required_settings, get_site_config
  // ---------------------------------------------------------------------------

  const LogLevels: seq<string> := ["DEBUG", "INFO", "WARNING", "ERROR", "CRITICAL"]

  /** `validate_log_level`: the upper-cased level when it is one of the five, else `ValueError`. */
  function ValidateLogLevel(v: string): (r: Result<string, string>)
    ensures r.Ok? <==> Upper(v) in LogLevels
    ensures r.Ok? ==> r.value == Upper(v) && r.value in LogLevels
    ensures r.Err? ==> r.error == "ValueError"
  {
    if Upper(v) in LogLevels then Ok(Upper(v)) else Err("ValueError")
  }

  /** A normalised level passes the validator again unchanged. */
  lemma ValidateLogLevelIdempotent(v: string)
    requires ValidateLogLevel(v).Ok?
    ensures ValidateLogLevel(ValidateLogLevel(v).value) == ValidateLogLevel(v)
  {
    var u := Upper(v);
    assert forall i :: 0 <= i < |u| ==> UpperChar(u[i]) == u[i];
    assert Upper(u) == u;
  }

  /**
   * `validate_required_settings`: with recipients configured, "EMAIL_USER" when the user is
   * empty and then "EMAIL_PASSWORD" when the password is empty; nothing without recipients.
   */
  method ValidateRequiredSettings(c: Config) returns (missing: seq<string>)
    ensures c.emailRecipients == [] ==> missing == []
    ensures "EMAIL_USER" in missing <==> c.emailRecipients != [] && c.emailUser == ""
    ensures "EMAIL_PASSWORD" in missing <==> c.emailRecipients != [] && c.emailPassword == ""
    ensures forall m :: m in missing ==> m == "EMAIL_USER" || m == "EMAIL_PASSWORD"
    ensures |missing| <= 2 && (|missing| == 2 ==> missing == ["EMAIL_USER", "EMAIL_PASSWORD"])
  {
    missing := [];
    if c.emailRecipients != [] {
      if c.emailUser == "" {
        missing := missing + ["EMAIL_USER"];
      }
      if c.emailPassword == "" {
        missing := missing + ["EMAIL_PASSWORD"];
      }
    }
  }

  /** One entry of the site-configuration table. */
  datatype SiteConfig = SiteConfig(baseUrl: string, searchUrl: string, delay: real, timeout: int)

  /** `get_site_config`: the entry of one of the three canonical names, else the empty dict (`None`). */
  function GetSiteConfig(c: Config, site: string): (r: Option<SiteConfig>)
    ensures r.Some? <==> site == "amazon" || site == "ebay" || site == "mercadolivre"
    ensures r.Some? ==> r.value.delay == c.scrapingDelay && r.value.timeout == c.requestTimeout
    ensures site == "amazon" ==> r == Some(SiteConfig(c.amazonBaseUrl, c.amazonSearchUrl, c.scrapingDelay, c.requestTimeout))
    ensures site == "ebay" ==> r == Some(SiteConfig(c.ebayBaseUrl, c.ebaySearchUrl, c.scrapingDelay, c.requestTimeout))
    ensures site == "mercadolivre" ==> r == Some(SiteConfig(c.mercadolivreBaseUrl, c.mercadolivreSearchUrl, c.scrapingDelay, c.requestTimeout))
  {
    if site == "amazon" then Some(SiteConfig(c.amazonBaseUrl, c.amazonSearchUrl, c.scrapingDelay, c.requestTimeout))
    else if site == "ebay" then Some(SiteConfig(c.ebayBaseUrl, c.ebaySearchUrl, c.scrapingDelay, c.requestTimeout))
    else if site == "mercadolivre" then Some(SiteConfig(c.mercadolivreBaseUrl, c.mercadolivreSearchUrl, c.scrapingDelay, c.requestTimeout))
    else None
  }

  /** The registry's aliases have no site configuration. */
  lemma SiteConfigAliases(c: Config)
    ensures GetSiteConfig(c, "ml").None? && GetSiteConfig(c, "mercado_livre").None?
  {
  }
}
