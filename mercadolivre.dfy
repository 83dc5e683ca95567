/**
 * The Mercado Livre adapter (scrapers/mercadolivre_scraper.py): the search URL with the term
 * in its path, the page offset, the whole-real price bounds, and how one result element
 * becomes a product dict.
 */
module MercadoLivre {
  import opened Wrappers
  import opened Text
  import opened Helpers
  import opened Models
  import opened BaseScraper
  import opened Scraping

  /** One result element as its selectors see it, each `seq` in selector order (see the Amazon element). */
  datatype Element = Element(
    titles: seq<Option<string>>,
    urls: seq<Option<string>>,
    prices: seq<Option<string>>,
    originalPrices: seq<Option<string>>,
    discount: Option<string>,
    shipping: Option<string>,
    shippingLabel: bool,
    sellers: seq<Option<string>>,
    location: Option<string>,
    ratings: seq<Option<string>>,
    reviews: seq<Option<string>>,
    images: seq<string>,
    leader: bool,
    condition: Option<string>,
    installments: Option<string>)

  // ---------------------------------------------------------------------------
  // The query
  // ---------------------------------------------------------------------------

  /** The search term goes in the path, each space written as a hyphen. */
  function SearchUrl(searchUrl: string, term: string): (url: string)
    ensures url == searchUrl + "/" + ReplaceChar(term, ' ', '-')
    ensures ' ' !in url[|searchUrl| + 1..] && |url| == |searchUrl| + 1 + |term|
  {
    var path := ReplaceChar(term, ' ', '-');
    assert (searchUrl + "/" + path)[|searchUrl| + 1..] == path;
    searchUrl + "/" + path
  }

  /** `_build_price_filter`: each bound that is not `None`, truncated to an integer. */
  function BuildPriceFilter(f: Filters): (params: map<string, ParamValue>)
    ensures "precio_desde" in params <==> Get(f.minPrice).Some?
    ensures "precio_desde" in params ==> params["precio_desde"] == PInt(TruncToInt(Get(f.minPrice).value))
    ensures "precio_hasta" in params <==> Get(f.maxPrice).Some?
    ensures "precio_hasta" in params ==> params["precio_hasta"] == PInt(TruncToInt(Get(f.maxPrice).value))
    ensures params.Keys <= {"precio_desde", "precio_hasta"}
  {
    var withMin := if Get(f.minPrice).Some? then map["precio_desde" := PInt(TruncToInt(Get(f.minPrice).value))] else map[];
    if Get(f.maxPrice).Some? then withMin["precio_hasta" := PInt(TruncToInt(Get(f.maxPrice).value))] else withMin
  }

  /** The item offset of page `n`: 50 items a page, counted from 1. */
  function Offset(n: nat): (from: int)
    requires n >= 2
    ensures from == (n - 1) * 50 + 1 && from >= 51
  {
    (n - 1) * 50 + 1
  }

  /** The parameters of the request for page `n`: the offset from page 2 on, and the price bounds. */
  function SearchParams(n: nat, f: Filters): (params: map<string, ParamValue>)
    ensures "_from" in params <==> n > 1
    ensures n > 1 ==> params["_from"] == PInt(Offset(n))
    ensures forall k :: k in params && k != "_from" ==> k in BuildPriceFilter(f) && params[k] == BuildPriceFilter(f)[k]
    ensures forall k :: k in BuildPriceFilter(f) ==> k in params
  {
    var prices := BuildPriceFilter(f);
    if n > 1 then prices["_from" := PInt(Offset(n))] else prices
  }

  /** Page 3 starts at item 101; the first page sends no offset. */
  lemma OffsetExamples(f: Filters)
    ensures Offset(3) == 101 && Offset(2) == 51
    ensures "_from" !in SearchParams(1, f)
  {
  }

  /** A bound of 99.9 is sent as 99: the fraction is cut, not rounded. */
  lemma BuildPriceFilterTruncates()
    ensures BuildPriceFilter(NoFilters.(minPrice := Given(99.9))) == map["precio_desde" := PInt(99)]
  {
    assert TruncToInt(99.9) == 99;
  }

  // ---------------------------------------------------------------------------
  // One result element
  // ---------------------------------------------------------------------------

  /** What a review selector yields: extract_number of its non-empty text, else 0. */
  function SelectorReviews(matched: Option<string>): nat {
    var text := ExtractText(matched);
    if text != "" then ExtractNumber(text) else 0
  }

  /** The review loop: the first non-empty text whose extract_number is above zero, else 0. */
  function ReviewsOf(e: Element): (n: nat)
    ensures n > 0 <==> exists i :: 0 <= i < |e.reviews| && ExtractText(e.reviews[i]) != "" && ExtractNumber(ExtractText(e.reviews[i])) > 0
    ensures n > 0 ==> exists i :: 0 <= i < |e.reviews| && n == SelectorReviews(e.reviews[i]) && forall j :: 0 <= j < i ==> SelectorReviews(e.reviews[j]) == 0
  {
    var texts := ExtractTexts(e.reviews);
    var cands := ReviewCandidates(texts);
    assert forall i :: 0 <= i < |e.reviews| ==> cands[i] == if texts[i] != "" then ExtractNumber(texts[i]) else 0;
    assert forall i :: 0 <= i < |e.reviews| ==> texts[i] == ExtractText(e.reviews[i]);
    assert forall i :: 0 <= i < |e.reviews| ==> cands[i] == SelectorReviews(e.reviews[i]);
    FirstPositiveCountOf(e.reviews, cands, SelectorReviews);
    FirstPositiveCount(cands)
  }

  function ReviewCandidates(texts: seq<string>): (r: seq<nat>)
    ensures |r| == |texts|
    ensures forall i :: 0 <= i < |r| ==> r[i] == if texts[i] != "" then ExtractNumber(texts[i]) else 0
  {
    if texts == [] then [] else [if texts[0] != "" then ExtractNumber(texts[0]) else 0] + ReviewCandidates(texts[1..])
  }

  /** Free shipping needs the shipping element and "grátis", in any case, in its text. */
  predicate FreeShipping(shipping: Option<string>) {
    shipping.Some? && Contains(Lower(ExtractText(shipping)), "grátis")
  }

  /** "Novo" when the condition text mentions "novo", else "Usado" when it mentions "usado", else "". */
  function ConditionOf(text: string): (c: string)
    ensures c == "Novo" <==> Contains(Lower(text), "novo")
    ensures c == "Usado" <==> !Contains(Lower(text), "novo") && Contains(Lower(text), "usado")
    ensures c == "" <==> !Contains(Lower(text), "novo") && !Contains(Lower(text), "usado")
  {
    if Contains(Lower(text), "novo") then "Novo" else if Contains(Lower(text), "usado") then "Usado" else ""
  }

  /** The site-specific keys of a Mercado Livre product. */
  function ExtrasOf(e: Element): map<ExtraKey, Extra> {
    var discountText := ExtractText(e.discount);
    map[Discount := Count(if discountText != "" then ExtractNumber(discountText) else 0),
        MercadoEnvios := Flag(e.shippingLabel),
        Seller := Text(FirstText(e.sellers)),
        Location := Text(ExtractText(e.location)),
        IsLeader := Flag(e.leader),
        Condition := Text(ConditionOf(ExtractText(e.condition))),
        Installments := Text(ExtractText(e.installments))]
  }

  /**
   * `_parse_product_element`: `None` when no title selector yields text; otherwise the fields
   * its selector loops pick, the original price kept only above the price, and free shipping
   * from the shipping element.
   */
  function ParseElement(e: Element): (r: Option<ProductData>)
    ensures r.Some? <==> FirstText(e.titles) != "" && UrlLoop(e.urls).Some?
    ensures r.Some? ==> r.value.title == Given(FirstText(e.titles)) && r.value.price == Given(FirstPrice(e.prices))
    ensures r.Some? ==> r.value.originalPrice == OriginalPriceEntry(FirstPrice(e.originalPrices), FirstPrice(e.prices))
    ensures r.Some? ==> r.value.rating == Given(FirstRating(e.ratings)) && r.value.numReviews == Given(ReviewsOf(e))
    ensures r.Some? ==> r.value.site == Given("Mercado Livre") && r.value.currency == Given("BRL")
    ensures r.Some? ==> r.value.freeShipping == Given(FreeShipping(e.shipping))
    ensures r.Some? ==> r.value.inStock.Missing? && r.value.externalId.Missing? && r.value.asin.Missing?
    ensures r.Some? ==> r.value.extras == ExtrasOf(e)
    ensures r.Some? ==> r.value.url == Given(UrlLoop(e.urls).value) && r.value.imageUrl == Given(FirstNonEmpty(e.images))
  {
    var title := FirstText(e.titles);
    if title == "" then None
    else
      var url := UrlLoop(e.urls);
      if url.None? then None
      else
        var price := FirstPrice(e.prices);
        Some(ProductData(
          title := Given(title),
          price := Given(price),
          originalPrice := OriginalPriceEntry(FirstPrice(e.originalPrices), price),
          url := Given(url.value),
          imageUrl := Given(FirstNonEmpty(e.images)),
          rating := Given(FirstRating(e.ratings)),
          numReviews := Given(ReviewsOf(e)),
          freeShipping := Given(FreeShipping(e.shipping)),
          inStock := Missing,
          site := Given("Mercado Livre"),
          externalId := Missing,
          asin := Missing,
          currency := Given("BRL"),
          extras := ExtrasOf(e)))
  }

  /** Without a shipping element there is no free shipping, whatever else the element shows. */
  lemma NoShippingElement(e: Element)
    requires e.shipping.None? && ParseElement(e).Some?
    ensures ParseElement(e).value.freeShipping == Given(false)
  {
  }

  /** The condition key is exactly one of "Novo", "Usado" and "". */
  lemma ConditionValues(e: Element)
    ensures ExtrasOf(e)[Condition].text in {"Novo", "Usado", ""}
  {
  }
}
