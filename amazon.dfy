/**
 * The Amazon adapter (scrapers/amazon_scraper.py): the query of each result page, the
 * price-range parameter in cents, and how one result element becomes a product dict.
 */
module Amazon {
  import opened Wrappers
  import opened Text
  import opened Helpers
  import opened Models
  import opened BaseScraper
  import opened Scraping

  /**
   * One result element as its selectors see it. Each `seq` holds, in selector order, what one
   * selector yields: the matched text (`None` when it matched nothing); for links, the matched
   * element's `href` (`None` when nothing matched, "" when it has none); for images, the URL
   * `_extract_image_url` resolves ("" when none).
   */
  datatype Element = Element(
    titles: seq<Option<string>>,
    urls: seq<Option<string>>,
    prices: seq<Option<string>>,
    originalPrices: seq<Option<string>>,
    ratings: seq<Option<string>>,
    reviews: seq<Option<string>>,
    images: seq<string>,
    freeShippingBadge: bool,
    primeBadge: bool,
    availability: Option<string>,
    asin: Option<string>)

  // ---------------------------------------------------------------------------
  // The query
  // ---------------------------------------------------------------------------

  /** `int(p * 100) if p else 0`: a falsy bound (`None` or 0) gives the fallback. */
  function Cents(bound: Option<real>, fallback: int): (c: int)
    ensures bound.None? || bound.value == 0.0 ==> c == fallback
    ensures bound.Some? && bound.value > 0.0 ==> c as real <= bound.value * 100.0 < c as real + 1.0
  {
    if bound.Some? && bound.value != 0.0 then TruncToInt(bound.value * 100.0) else fallback
  }

  /** `_build_price_filter`: `rh=p_36:<min cents>-<max cents>` when either bound is not `None`. */
  function BuildPriceFilter(f: Filters): (rh: Option<string>)
    ensures rh.Some? <==> Get(f.minPrice).Some? || Get(f.maxPrice).Some?
    ensures rh.Some? ==> rh.value == "p_36:" + IntToString(Cents(Get(f.minPrice), 0)) + "-" + IntToString(Cents(Get(f.maxPrice), 999999999))
  {
    var minPrice := Get(f.minPrice);
    var maxPrice := Get(f.maxPrice);
    if minPrice.Some? || maxPrice.Some? then
      Some("p_36:" + IntToString(Cents(minPrice, 0)) + "-" + IntToString(Cents(maxPrice, 999999999)))
    else None
  }

  /** The parameters of the request for page `n`. */
  function SearchParams(term: string, n: nat, f: Filters): (params: map<string, ParamValue>)
    ensures params.Keys == {"k", "page", "ref"} + (if BuildPriceFilter(f).Some? then {"rh"} else {})
    ensures params["k"] == PStr(term) && params["page"] == PInt(n) && params["ref"] == PStr("sr_pg_" + NatToString(n))
    ensures "rh" in params ==> params["rh"] == PStr(BuildPriceFilter(f).value)
  {
    var base := map["k" := PStr(term), "page" := PInt(n), "ref" := PStr("sr_pg_" + NatToString(n))];
    var rh := BuildPriceFilter(f);
    if rh.Some? then base["rh" := PStr(rh.value)] else base
  }

  /** A search between R$ 100 and R$ 250 asks for 10000 to 25000 cents. */
  lemma BuildPriceFilterExample()
    ensures BuildPriceFilter(NoFilters.(minPrice := Given(100.0), maxPrice := Given(250.0))) == Some("p_36:10000-25000")
  {
    assert TruncToInt(100.0 * 100.0) == 10000;
    assert TruncToInt(250.0 * 100.0) == 25000;
    assert IntToString(10000) == "10000" by {
      assert NatToString(1) == "1";
      assert NatToString(10) == "10";
      assert NatToString(100) == "100";
      assert NatToString(1000) == "1000";
      assert NatToString(10000) == "10000";
    }
    assert IntToString(25000) == "25000" by {
      assert NatToString(2) == "2";
      assert NatToString(25) == "25";
      assert NatToString(250) == "250";
      assert NatToString(2500) == "2500";
      assert NatToString(25000) == "25000";
    }
    assert "p_36:" + "10000" + "-" + "25000" == "p_36:10000-25000";
  }

  /** With no bound given at all, or only `None`s, no price range is sent. */
  lemma BuildPriceFilterNone(f: Filters)
    requires !f.minPrice.Given? && !f.maxPrice.Given?
    ensures BuildPriceFilter(f).None? && "rh" !in SearchParams("notebook", 1, f)
  {
  }

  // ---------------------------------------------------------------------------
  // One result element
  // ---------------------------------------------------------------------------

  /** The review counts of the review selectors: only a non-empty text with a digit is read. */
  function ReviewCandidates(texts: seq<string>): (r: seq<nat>)
    ensures |r| == |texts|
    ensures forall i :: 0 <= i < |r| ==> r[i] == if texts[i] != "" && HasDigit(texts[i]) then ExtractNumber(texts[i]) else 0
  {
    if texts == [] then []
    else [if texts[0] != "" && HasDigit(texts[0]) then ExtractNumber(texts[0]) else 0] + ReviewCandidates(texts[1..])
  }

  /** The availability text mentions stock ("estoque") or availability ("disponível"), in any case. */
  predicate InStock(availability: string) {
    Contains(Lower(availability), "estoque") || Contains(Lower(availability), "disponível")
  }

  /** What a review selector yields: extract_number of its text when that has a digit, else 0. */
  function SelectorReviews(matched: Option<string>): nat {
    var text := ExtractText(matched);
    if text != "" && HasDigit(text) then ExtractNumber(text) else 0
  }

  /** The review loop: the first text with a digit whose extract_number is above zero, else 0. */
  function ReviewsOf(e: Element): (n: nat)
    ensures n > 0 <==> exists i :: 0 <= i < |e.reviews| && HasDigit(ExtractText(e.reviews[i])) && ExtractNumber(ExtractText(e.reviews[i])) > 0
    ensures n > 0 ==> exists i :: 0 <= i < |e.reviews| && n == SelectorReviews(e.reviews[i]) && forall j :: 0 <= j < i ==> SelectorReviews(e.reviews[j]) == 0
  {
    var texts := ExtractTexts(e.reviews);
    var cands := ReviewCandidates(texts);
    assert forall i :: 0 <= i < |e.reviews| ==> cands[i] == if texts[i] != "" && HasDigit(texts[i]) then ExtractNumber(texts[i]) else 0;
    assert forall i :: 0 <= i < |e.reviews| ==> texts[i] == ExtractText(e.reviews[i]);
    assert forall i :: 0 <= i < |e.reviews| ==> cands[i] == SelectorReviews(e.reviews[i]);
    FirstPositiveCountOf(e.reviews, cands, SelectorReviews);
    FirstPositiveCount(cands)
  }

  /**
   * `_parse_product_element`: `None` when no title selector yields text; otherwise each field
   * is what its selector loop picks, the original price is kept only above the price, and the
   * element's flags and ASIN (default "") are copied.
   */
  function ParseElement(e: Element): (r: Option<ProductData>)
    ensures r.Some? <==> FirstText(e.titles) != "" && UrlLoop(e.urls).Some?
    ensures r.Some? ==> r.value.title == Given(FirstText(e.titles)) && r.value.price == Given(FirstPrice(e.prices))
    ensures r.Some? ==> r.value.originalPrice == OriginalPriceEntry(FirstPrice(e.originalPrices), FirstPrice(e.prices))
    ensures r.Some? ==> r.value.rating == Given(FirstRating(e.ratings)) && r.value.numReviews == Given(ReviewsOf(e))
    ensures r.Some? ==> r.value.site == Given("Amazon") && r.value.currency == Given("BRL")
    ensures r.Some? ==> r.value.inStock == Given(InStock(ExtractText(e.availability))) && r.value.freeShipping == Given(e.freeShippingBadge)
    ensures r.Some? ==> r.value.asin == Given(if e.asin.Some? then e.asin.value else "") && r.value.externalId.Missing?
    ensures r.Some? ==> r.value.extras == map[IsPrime := Flag(e.primeBadge)]
    ensures r.Some? ==> r.value.url == Given(UrlLoop(e.urls).value) && r.value.imageUrl == Given(FirstNonEmpty(e.images))
  {
    var title := FirstText(e.titles);
    if title == "" then None
    else
      var url := UrlLoop(e.urls);
      if url.None? then None
      else
        var price := FirstPrice(e.prices);
        Some(ProductData(
          title := Given(title),
          price := Given(price),
          originalPrice := OriginalPriceEntry(FirstPrice(e.originalPrices), price),
          url := Given(url.value),
          imageUrl := Given(FirstNonEmpty(e.images)),
          rating := Given(FirstRating(e.ratings)),
          numReviews := Given(ReviewsOf(e)),
          freeShipping := Given(e.freeShippingBadge),
          inStock := Given(InStock(ExtractText(e.availability))),
          site := Given("Amazon"),
          externalId := Missing,
          asin := Given(if e.asin.Some? then e.asin.value else ""),
          currency := Given("BRL"),
          extras := map[IsPrime := Flag(e.primeBadge)]))
  }

  /** A parsed element keeps an original price only when it is strictly above the price. */
  lemma ParseElementOriginalPrice(e: Element)
    requires ParseElement(e).Some?
    ensures var p := ParseElement(e).value;
      (p.originalPrice.Given? <==> FirstPrice(e.originalPrices) > FirstPrice(e.prices)) && (p.originalPrice.Given? ==> p.originalPrice.value > p.price.value)
      && (!p.originalPrice.Given? ==> p.originalPrice.Null?)
  {
  }

  /** An element whose first title selector matched nothing, but whose second did, keeps the second title. */
  lemma ParseElementFallbackTitle(e: Element, t: string)
    requires |e.titles| >= 2 && e.titles[0].None? && e.titles[1] == Some(t) && CleanText(t) != ""
    ensures ParseElement(e).Some? <==> UrlLoop(e.urls).Some?
    ensures ParseElement(e).Some? ==> ParseElement(e).value.title == Given(CleanText(t))
  {
    assert ExtractTexts(e.titles)[0] == "";
    assert ExtractTexts(e.titles)[1] == CleanText(t);
  }

  /**
   * A titled element whose first URL selector matched nothing is rejected, whatever the later
   * URL selectors find: the unassigned `url` raises inside `_extract_url`.
   */
  lemma ParseElementUrlMiss(e: Element)
    requires e.urls != [] && e.urls[0].None?
    ensures ParseElement(e).None?
  {
    assert UrlLoop(e.urls).None?;
  }
}
