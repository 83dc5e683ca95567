/**
 * The eBay adapter (scrapers/ebay_scraper.py): the query of each result page, and how one
 * result element becomes a product dict, with eBay's title, price-range, shipping and
 * auction rules.
 */
module Ebay {
  import opened Wrappers
  import opened Text
  import opened Helpers
  import opened Models
  import opened BaseScraper
  import opened Scraping

  /**
   * One result element as its selectors see it, each `seq` in selector order (see the Amazon
   * element). `timeLeft` is the first time-left match, `None` when the element has none.
   */
  datatype Element = Element(
    titles: seq<Option<string>>,
    urls: seq<Option<string>>,
    prices: seq<Option<string>>,
    timeLeft: Option<string>,
    sellers: seq<Option<string>>,
    locations: seq<Option<string>>,
    shipping: seq<Option<string>>,
    images: seq<string>,
    conditions: seq<Option<string>>,
    watchers: Option<string>)

  // ---------------------------------------------------------------------------
  // The query
  // ---------------------------------------------------------------------------

  /**
   * The parameters of the request for page `n`. A price bound whose key is present is copied
   * as given; one present with `None` is dropped when the request is encoded, as `requests`
   * drops `None` values. `LH_BIN=1` asks for Buy It Now listings only.
   */
  function SearchParams(term: string, n: nat, f: Filters): (params: map<string, ParamValue>)
    ensures {"_nkw", "_pgn", "_skc", "rt"} <= params.Keys
    ensures params["_nkw"] == PStr(term) && params["_pgn"] == PInt(n) && params["_skc"] == PInt(0) && params["rt"] == PStr("nc")
    ensures "_udlo" in params <==> f.minPrice.Given?
    ensures "_udlo" in params ==> params["_udlo"] == PReal(f.minPrice.value)
    ensures "_udhi" in params <==> f.maxPrice.Given?
    ensures "_udhi" in params ==> params["_udhi"] == PReal(f.maxPrice.value)
    ensures "LH_BIN" in params <==> f.buyItNowOnly == Given(true)
    ensures "LH_BIN" in params ==> params["LH_BIN"] == PInt(1)
    ensures params.Keys <= {"_nkw", "_pgn", "_skc", "rt", "_udlo", "_udhi", "LH_BIN"}
  {
    var base := map["_nkw" := PStr(term), "_pgn" := PInt(n), "_skc" := PInt(0), "rt" := PStr("nc")];
    var withMin := if f.minPrice.Given? then base["_udlo" := PReal(f.minPrice.value)] else base;
    var withMax := if f.maxPrice.Given? then withMin["_udhi" := PReal(f.maxPrice.value)] else withMin;
    if f.buyItNowOnly == Given(true) then withMax["LH_BIN" := PInt(1)] else withMax
  }

  // ---------------------------------------------------------------------------
  // Titles and conditions: the first accepted text, else the last one tried
  // ---------------------------------------------------------------------------

  /** What stops a selector loop over texts. */
  datatype Rule = TitleRule | ConditionRule

  /** A title other than the "New Listing" banner; a condition naming new, used or refurbished. */
  predicate Accepts(rule: Rule, t: string) {
    t != "" &&
    match rule
    case TitleRule => Lower(t) != "new listing"
    case ConditionRule => Contains(Lower(t), "new") || Contains(Lower(t), "used") || Contains(Lower(t), "refurbished")
  }

  /**
   * A loop that overwrites its variable with each text and breaks on an accepted one: the
   * first accepted text, or the last text tried when none is accepted ("" when there is none).
   */
  function PickText(texts: seq<string>, rule: Rule): (t: string)
    ensures texts == [] ==> t == ""
    ensures texts != [] ==> t in texts
    ensures (exists i :: 0 <= i < |texts| && Accepts(rule, texts[i])) ==> Accepts(rule, t)
  {
    if texts == [] then ""
    else if Accepts(rule, texts[0]) || |texts| == 1 then texts[0]
    else PickText(texts[1..], rule)
  }

  /** Which text the loop ends on: the first accepted one, or else the last one. */
  lemma {:induction false} PickTextIsFirstAccepted(texts: seq<string>, rule: Rule, i: nat)
    requires i < |texts| && Accepts(rule, texts[i]) && forall j :: 0 <= j < i ==> !Accepts(rule, texts[j])
    ensures PickText(texts, rule) == texts[i]
    decreases i
  {
    if i > 0 {
      PickTextIsFirstAccepted(texts[1..], rule, i - 1);
    }
  }

  lemma {:induction false} PickTextIsLast(texts: seq<string>, rule: Rule)
    requires texts != [] && forall j :: 0 <= j < |texts| ==> !Accepts(rule, texts[j])
    ensures PickText(texts, rule) == texts[|texts| - 1]
    decreases |texts|
  {
    if |texts| > 1 {
      PickTextIsLast(texts[1..], rule);
    }
  }

  /** The title the loop settles on is rejected when empty or a banner ("new listing", "shop on ebay"). */
  predicate UsableTitle(t: string) {
    t != "" && Lower(t) != "new listing" && Lower(t) != "shop on ebay"
  }

  // ---------------------------------------------------------------------------
  // Prices
  // ---------------------------------------------------------------------------

  /** The characters of the `[\d,]+` part of the price pattern. */
  predicate MoneyChar(c: char) { IsDigit(c) || c == ',' }

  /** The end of the run of digits and commas that starts at `i`. */
  function RunEnd(s: string, i: nat): (j: nat)
    requires i <= |s|
    ensures i <= j <= |s|
    ensures j < |s| ==> !MoneyChar(s[j])
    ensures forall k :: i <= k < j ==> MoneyChar(s[k])
    decreases |s| - i
  {
    if i < |s| && MoneyChar(s[i]) then RunEnd(s, i + 1) else i
  }

  /** A text the pattern `[\d,]+\.\d{2}` matches entirely. */
  predicate MoneyShaped(m: string) {
    |m| >= 4 && m[|m| - 3] == '.' && IsDigit(m[|m| - 2]) && IsDigit(m[|m| - 1])
    && forall k :: 0 <= k < |m| - 3 ==> MoneyChar(m[k])
  }

  /** The pattern matches at `k`: a run of digits and commas, a period and two digits. */
  predicate MatchAt(s: string, k: nat) {
    k < |s| && MoneyChar(s[k])
    && RunEnd(s, k) + 2 < |s| && s[RunEnd(s, k)] == '.' && IsDigit(s[RunEnd(s, k) + 1]) && IsDigit(s[RunEnd(s, k) + 2])
  }

  /**
   * Where the first match of `[\d,]+\.\d{2}` at or after `i` starts, as `re.findall(...)[0]`
   * finds it. A match can only start where a run of digits and commas starts, and must take
   * that whole run, since the pattern cannot leave it early; so each run is tried once.
   */
  function FindMoney(s: string, i: nat): (start: Option<nat>)
    requires i <= |s|
    ensures start.Some? ==> i <= start.value && MatchAt(s, start.value)
    decreases |s| - i
  {
    if i == |s| then None
    else if !MoneyChar(s[i]) then FindMoney(s, i + 1)
    else if MatchAt(s, i) then Some(i)
    else FindMoney(s, RunEnd(s, i))
  }

  /** What the pattern matches at `k` has the pattern's shape. */
  lemma MatchShaped(s: string, k: nat)
    requires MatchAt(s, k)
    ensures MoneyShaped(s[k..RunEnd(s, k) + 3])
  {
    var j := RunEnd(s, k);
    var m := s[k..j + 3];
    assert m[|m| - 3] == s[j];
    assert forall t :: 0 <= t < |m| - 3 ==> m[t] == s[k + t];
  }

  /** The first amount of a text, `re.findall(r'[\d,]+\.\d{2}', s)[0]` when there is one. */
  function FirstAmount(s: string): (m: Option<string>)
    ensures m.Some? ==> MoneyShaped(m.value)
  {
    var start := FindMoney(s, 0);
    if start.Some? then
      MatchShaped(s, start.value);
      Some(s[start.value..RunEnd(s, start.value) + 3])
    else None
  }

  /** The first amount in a text is found when nothing before it looks like a number. */
  lemma {:induction false} FirstAmountOf(pre: string, a: string, b: string, post: string)
    requires forall k :: 0 <= k < |pre| ==> !MoneyChar(pre[k])
    requires a != [] && (forall k :: 0 <= k < |a| ==> MoneyChar(a[k]))
    requires |b| == 2 && IsDigit(b[0]) && IsDigit(b[1])
    ensures FirstAmount(pre + a + "." + b + post) == Some(a + "." + b)
  {
    var s := pre + a + "." + b + post;
    assert s[|pre| + |a|] == '.';
    assert forall k :: |pre| <= k < |pre| + |a| ==> s[k] == a[k - |pre|];
    RunEndOver(s, |pre|, |pre| + |a|);
    assert MatchAt(s, |pre|);
    assert s[|pre|..|pre| + |a| + 3] == a + "." + b;
    SkipNonMoney(s, 0, |pre|);
  }

  lemma {:induction false} RunEndOver(s: string, i: nat, j: nat)
    requires i <= j < |s| && !MoneyChar(s[j]) && forall k :: i <= k < j ==> MoneyChar(s[k])
    ensures RunEnd(s, i) == j
    decreases j - i
  {
    if i < j {
      RunEndOver(s, i + 1, j);
    }
  }

  lemma {:induction false} SkipNonMoney(s: string, i: nat, p: nat)
    requires i <= p <= |s| && forall k :: i <= k < p ==> !MoneyChar(s[k])
    ensures FindMoney(s, i) == FindMoney(s, p)
    decreases p - i
  {
    if i < p {
      SkipNonMoney(s, i + 1, p);
    }
  }

  /**
   * One price text: a range ("to" in any case) is read from its first amount, when it has one;
   * any other text is read whole. An empty text, or a range without an amount, leaves 0.
   */
  function PriceCandidate(text: string): (p: real)
    ensures p >= 0.0
    ensures text == "" ==> p == 0.0
    ensures text != "" && !Contains(Lower(text), "to") ==> p == FormatPrice(text)
  {
    if text == "" then 0.0
    else if Contains(Lower(text), "to") then
      var m := FirstAmount(text);
      if m.Some? then FormatPrice(m.value) else 0.0
    else FormatPrice(text)
  }

  /** A range whose first amount has no thousands separator is read as that amount ("$10.00 to $20.00" costs 10). */
  lemma PriceCandidateRange(pre: string, a: string, b: string, post: string)
    requires forall k :: 0 <= k < |pre| ==> !MoneyChar(pre[k])
    requires a != "" && AllDigits(a) && |b| == 2 && AllDigits(b)
    requires Contains(Lower(pre + a + "." + b + post), "to")
    ensures PriceCandidate(pre + a + "." + b + post) == Decimal(a, b)
  {
    FirstAmountOf(pre, a, b, post);
    FormatPricePeriodDecimals(a, b);
  }

  /** A range whose first amount has a thousands comma reads as 0: "$1,299.99 to $1,499.99" gives no price. */
  lemma PriceCandidateGroupedRange(pre: string, a: string, c: string, b: string, post: string)
    requires forall k :: 0 <= k < |pre| ==> !MoneyChar(pre[k])
    requires a != "" && AllDigits(a) && AllDigits(c) && |b| == 2 && AllDigits(b)
    requires Contains(Lower(pre + a + "," + c + "." + b + post), "to")
    ensures PriceCandidate(pre + a + "," + c + "." + b + post) == 0.0
  {
    var amount := a + "," + c;
    assert forall k :: 0 <= k < |amount| ==> MoneyChar(amount[k]) by {
      forall k | 0 <= k < |amount| ensures MoneyChar(amount[k]) {
        if k < |a| { assert amount[k] == a[k]; }
        else if k > |a| { assert amount[k] == c[k - |a| - 1]; }
      }
    }
    assert pre + a + "," + c + "." + b + post == pre + amount + "." + b + post;
    FirstAmountOf(pre, amount, b, post);
    FormatPricePeriodAfterComma(a, c, b);
  }

  function PriceCandidates(texts: seq<string>): (r: seq<real>)
    ensures |r| == |texts|
    ensures forall i :: 0 <= i < |r| ==> r[i] == PriceCandidate(texts[i]) && r[i] >= 0.0
  {
    if texts == [] then [] else [PriceCandidate(texts[0])] + PriceCandidates(texts[1..])
  }

  /** What a price selector yields: the price candidate of its text. */
  function SelectorPrice(matched: Option<string>): real {
    PriceCandidate(ExtractText(matched))
  }

  /** The price loop: the first price candidate above zero, else 0. */
  function PriceOf(e: Element): (p: real)
    ensures p >= 0.0
    ensures p > 0.0 <==> exists i :: 0 <= i < |e.prices| && PriceCandidate(ExtractText(e.prices[i])) > 0.0
    ensures p > 0.0 ==> exists i :: 0 <= i < |e.prices| && p == SelectorPrice(e.prices[i]) && forall j :: 0 <= j < i ==> SelectorPrice(e.prices[j]) == 0.0
  {
    var cands := PriceCandidates(ExtractTexts(e.prices));
    assert forall i :: 0 <= i < |e.prices| ==> cands[i] == PriceCandidate(ExtractText(e.prices[i]));
    assert forall i :: 0 <= i < |e.prices| ==> cands[i] == SelectorPrice(e.prices[i]);
    FirstPositiveOf(e.prices, cands, SelectorPrice);
    FirstPositive(cands)
  }

  // ---------------------------------------------------------------------------
  // One result element
  // ---------------------------------------------------------------------------

  /** The shipping text offers free shipping ("free" or "grátis", in any case). */
  predicate FreeShipping(shipping: string) {
    Contains(Lower(shipping), "free") || Contains(Lower(shipping), "grátis")
  }

  /** The watcher count: extract_number of the watchers text when there is one. */
  function WatchersOf(e: Element): (n: nat)
    ensures ExtractText(e.watchers) == "" ==> n == 0
  {
    var text := ExtractText(e.watchers);
    if text != "" then ExtractNumber(text) else 0
  }

  /** The site-specific keys of an eBay product. */
  function ExtrasOf(e: Element): map<ExtraKey, Extra> {
    var auction := e.timeLeft.Some?;
    map[AuctionType := Text(if auction then "Auction" else "Buy It Now"),
        TimeLeft := Text(if auction then ExtractText(e.timeLeft) else ""),
        Seller := Text(FirstText(e.sellers)),
        Location := Text(FirstText(e.locations)),
        ShippingCost := Text(FirstText(e.shipping)),
        Condition := Text(PickText(ExtractTexts(e.conditions), ConditionRule)),
        Watchers := Count(WatchersOf(e))]
  }

  /** The title the title loop settles on. */
  function TitleOf(e: Element): string {
    PickText(ExtractTexts(e.titles), TitleRule)
  }

  /**
   * `_parse_product_element`: `None` when the title loop ends on an empty or banner title;
   * otherwise the fields its selector loops pick, free shipping from the shipping text, and
   * the auction flag from the time-left element. No rating, review count or original price.
   */
  function ParseElement(e: Element): (r: Option<ProductData>)
    ensures r.Some? <==> UsableTitle(TitleOf(e)) && UrlLoop(e.urls).Some?
    ensures r.Some? ==> r.value.title == Given(TitleOf(e)) && r.value.price == Given(PriceOf(e))
    ensures r.Some? ==> r.value.site == Given("eBay") && r.value.currency == Given("USD")
    ensures r.Some? ==> r.value.freeShipping == Given(FreeShipping(FirstText(e.shipping)))
    ensures r.Some? ==> r.value.originalPrice.Missing? && r.value.rating.Missing? && r.value.numReviews.Missing?
    ensures r.Some? ==> r.value.inStock.Missing? && r.value.externalId.Missing? && r.value.asin.Missing?
    ensures r.Some? ==> r.value.extras == ExtrasOf(e)
    ensures r.Some? ==> r.value.url == Given(UrlLoop(e.urls).value) && r.value.imageUrl == Given(FirstNonEmpty(e.images))
  {
    var title := TitleOf(e);
    if !UsableTitle(title) then None
    else
      var url := UrlLoop(e.urls);
      if url.None? then None
      else
        Some(ProductData(
          title := Given(title),
          price := Given(PriceOf(e)),
          originalPrice := Missing,
          url := Given(url.value),
          imageUrl := Given(FirstNonEmpty(e.images)),
          rating := Missing,
          numReviews := Missing,
          freeShipping := Given(FreeShipping(FirstText(e.shipping))),
          inStock := Missing,
          site := Given("eBay"),
          externalId := Missing,
          asin := Missing,
          currency := Given("USD"),
          extras := ExtrasOf(e)))
  }

  /** The listing is an auction exactly when it has a time-left element, and only then has a time left. */
  lemma AuctionFlag(e: Element)
    ensures ExtrasOf(e)[AuctionType] == Text(if e.timeLeft.Some? then "Auction" else "Buy It Now")
    ensures e.timeLeft.None? ==> ExtrasOf(e)[TimeLeft] == Text("")
    ensures e.timeLeft.Some? ==> ExtrasOf(e)[TimeLeft] == Text(ExtractText(e.timeLeft))
  {
    var m := ExtrasOf(e);
    if e.timeLeft.Some? {
      assert m[AuctionType] == Text("Auction") && m[TimeLeft] == Text(ExtractText(e.timeLeft));
    } else {
      assert m[AuctionType] == Text("Buy It Now") && m[TimeLeft] == Text("");
    }
  }

  /** A title loop that meets only empty texts and "New Listing" banners drops the element. */
  lemma ParseElementOnlyBanners(e: Element)
    requires forall i :: 0 <= i < |e.titles| ==> !Accepts(TitleRule, ExtractText(e.titles[i]))
    ensures ParseElement(e).None?
  {
    var texts := ExtractTexts(e.titles);
    if texts != [] {
      PickTextIsLast(texts, TitleRule);
      assert !Accepts(TitleRule, texts[|texts| - 1]);
    }
  }

  /** The loop stops at "Shop on eBay", which the element check then rejects. */
  lemma ParseElementShopBanner(e: Element, i: nat)
    requires i < |e.titles| && Lower(ExtractText(e.titles[i])) == "shop on ebay"
    requires forall j :: 0 <= j < i ==> !Accepts(TitleRule, ExtractText(e.titles[j]))
    ensures ParseElement(e).None?
  {
    var texts := ExtractTexts(e.titles);
    assert Lower(texts[i]) == "shop on ebay";
    assert texts[i] != "";
    PickTextIsFirstAccepted(texts, TitleRule, i);
  }
}
