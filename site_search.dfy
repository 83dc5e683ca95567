/**
 * What the three adapters share beyond their parsers: `_extract_products_from_page` (the
 * first layout that matched, each element parsed and validated in turn) and `search_products`
 * (the page loop, then `_apply_filters`), for the site each adapter is.
 */
module SiteSearch {
  import opened Wrappers
  import opened Models
  import opened Seqs
  import opened BaseScraper
  import opened Scraping
  import opened Pagination
  import Amazon
  import Ebay
  import MercadoLivre

  datatype Site = AmazonSite | EbaySite | MercadoLivreSite

  /** The `site` value each adapter writes into its products. */
  function SiteName(s: Site): string {
    match s
    case AmazonSite => "Amazon"
    case EbaySite => "eBay"
    case MercadoLivreSite => "Mercado Livre"
  }

  /** A result element of one of the three sites' pages. */
  datatype Item = AmazonItem(a: Amazon.Element) | EbayItem(e: Ebay.Element) | MercadoLivreItem(m: MercadoLivre.Element)

  predicate OfSite(site: Site, item: Item) {
    match item
    case AmazonItem(_) => site == AmazonSite
    case EbayItem(_) => site == EbaySite
    case MercadoLivreItem(_) => site == MercadoLivreSite
  }

  /** The adapter's `_parse_product_element`; an element of another site's markup yields nothing. */
  function ParseItem(site: Site, item: Item): (r: Option<ProductData>)
    ensures !OfSite(site, item) ==> r.None?
  {
    if !OfSite(site, item) then None
    else
      match item
      case AmazonItem(a) => Amazon.ParseElement(a)
      case EbayItem(e) => Ebay.ParseElement(e)
      case MercadoLivreItem(m) => MercadoLivre.ParseElement(m)
  }

  /** Each adapter writes its own site name into what it parses. */
  lemma ParseItemSite(site: Site, item: Item)
    ensures ParseItem(site, item).Some? ==> ParseItem(site, item).value.site == Given(SiteName(site))
  {
  }

  /** What one element contributes: its product, when it parses and validates. */
  function ItemProducts(site: Site, item: Item): (ps: seq<ProductData>)
    ensures |ps| <= 1
    ensures forall p :: p in ps ==> ValidateProduct(p) && p.site == Given(SiteName(site))
  {
    var p := ParseItem(site, item);
    ParseItemSite(site, item);
    if p.Some? && ValidateProduct(p.value) then [p.value] else []
  }

  /** The loop of `_extract_products_from_page`: each element that parses and validates, in page order. */
  function PageProducts(site: Site, items: seq<Item>): (ps: seq<ProductData>)
    ensures |ps| <= |items|
    ensures forall p :: p in ps ==> ValidateProduct(p) && p.site == Given(SiteName(site))
  {
    if items == [] then []
    else ItemProducts(site, items[0]) + PageProducts(site, items[1..])
  }

  /** A page's products are exactly the products of its elements that validate. */
  lemma {:induction false} PageProductsMembers(site: Site, items: seq<Item>, d: ProductData)
    ensures d in PageProducts(site, items) <==> exists it :: it in items && ParseItem(site, it) == Some(d) && ValidateProduct(d)
    decreases |items|
  {
    if items != [] {
      PageProductsMembers(site, items[1..], d);
      var p := ParseItem(site, items[0]);
      assert PageProducts(site, items) == ItemProducts(site, items[0]) + PageProducts(site, items[1..]);
      assert ItemProducts(site, items[0]) == if p.Some? && ValidateProduct(p.value) then [p.value] else [];
      if exists it :: it in items && ParseItem(site, it) == Some(d) && ValidateProduct(d) {
        var it :| it in items && ParseItem(site, it) == Some(d) && ValidateProduct(d);
        if it != items[0] {
          assert it in items[1..];
        }
      }
      if exists it :: it in items[1..] && ParseItem(site, it) == Some(d) && ValidateProduct(d) {
        var it :| it in items[1..] && ParseItem(site, it) == Some(d) && ValidateProduct(d);
        assert it in items;
      }
    }
  }

  /** The URL and query parameters of the request for one page. */
  datatype Query = Query(url: string, params: map<string, ParamValue>)

  function QueryOf(site: Site, searchUrl: string, term: string, n: nat, f: Filters): (q: Query)
    ensures site != MercadoLivreSite ==> q.url == searchUrl
    ensures site == MercadoLivreSite ==> q.url == MercadoLivre.SearchUrl(searchUrl, term)
  {
    match site
    case AmazonSite => Query(searchUrl, Amazon.SearchParams(term, n, f))
    case EbaySite => Query(searchUrl, Ebay.SearchParams(term, n, f))
    case MercadoLivreSite => Query(MercadoLivre.SearchUrl(searchUrl, term), MercadoLivre.SearchParams(n, f))
  }

  /** One page request read as the loop sees it: the products of a page, or why it stopped. */
  function PageOf(site: Site, raw: RawPage<Item>): (o: PageOutcome<ProductData>)
    ensures raw.Html? <==> o.Page?
    ensures raw.Html? ==> o.items == PageProducts(site, FirstLayout(raw.layouts))
    ensures raw.Failed? <==> o.Failed?
  {
    if raw.Html? then Page(PageProducts(site, FirstLayout(raw.layouts)))
    else if raw.NoResponse? then PageOutcome.NoResponse
    else PageOutcome.Failed(raw.error)
  }

  /** Page n of a search, given what the site answers to each query. */
  function Fetch(site: Site, searchUrl: string, term: string, f: Filters, server: Query -> RawPage<Item>): nat -> PageOutcome<ProductData> {
    (n: nat) => PageOf(site, server(QueryOf(site, searchUrl, term, n, f)))
  }

  /**
   * `search_products`: `max_results` defaults to 50 and compares with the item count, so a
   * `None` raises before any request. Pages are requested as `Paginate` says, then the
   * collected products go through `_apply_filters`.
   */
  method SearchProducts(site: Site, searchUrl: string, term: string, f: Filters, server: Query -> RawPage<Item>)
    returns (r: Result<seq<ProductData>, string>, appended: nat, requested: nat)
    ensures f.maxResults.Null? ==> r == Err("TypeError") && appended == 0 && requested == 0
    ensures !f.maxResults.Null? ==>
      var target := GetOr(f.maxResults, 50).value;
      var fetch := Fetch(site, searchUrl, term, f, server);
      && appended <= requested <= 10
      && WholePages(fetch, target, appended)
      && requested == (if appended == 10 || |Pages(fetch, appended)| >= target then appended else appended + 1)
      && (requested == appended + 1 ==> !Appendable(fetch(requested)))
      && r == ApplyFilters(Pages(fetch, appended), f)
  {
    if f.maxResults.Null? {
      return Err("TypeError"), 0, 0;
    }
    var target := GetOr(f.maxResults, 50).value;
    var items;
    items, appended, requested := Paginate(target, Fetch(site, searchUrl, term, f, server));
    r := ApplyFilters(items, f);
  }

  /** Every product collected from the pages validates and carries the site's name. */
  lemma PagesProducts(site: Site, searchUrl: string, term: string, f: Filters, server: Query -> RawPage<Item>, k: nat, d: ProductData)
    requires d in Pages(Fetch(site, searchUrl, term, f, server), k)
    ensures ValidateProduct(d) && d.site == Given(SiteName(site))
  {
    var fetch := Fetch(site, searchUrl, term, f, server);
    var n := PagesSource(fetch, k, d);
    var raw := server(QueryOf(site, searchUrl, term, n, f));
    assert fetch(n) == PageOf(site, raw);
    PageOfProducts(site, raw, d);
  }

  /** The products read from one answer validate and carry the site's name. */
  lemma PageOfProducts(site: Site, raw: RawPage<Item>, d: ProductData)
    requires d in ItemsOf(PageOf(site, raw))
    ensures ValidateProduct(d) && d.site == Given(SiteName(site))
  {
  }

  /**
   * What a search returns: valid products of the site, each passing the filters, no more than
   * `max_results` of them when that is given; with no bound given, every collected product that
   * passes the filters is kept. The cut keeps the first passing products in page order.
   */
  lemma SearchResultSound(site: Site, searchUrl: string, term: string, f: Filters, server: Query -> RawPage<Item>, k: nat, d: ProductData)
    requires ApplyFilters(Pages(Fetch(site, searchUrl, term, f, server), k), f).Ok?
    ensures var xs := Pages(Fetch(site, searchUrl, term, f, server), k);
      var ys := ApplyFilters(xs, f).value;
      && (d in ys ==> ValidateProduct(d) && d.site == Given(SiteName(site)) && Passes(f, d))
      && (Get(f.maxResults).Some? && Get(f.maxResults).value >= 0 ==> |ys| <= Get(f.maxResults).value)
      && (Get(f.maxResults).None? ==> (d in ys <==> d in xs && Passes(f, d)))
      && (Get(f.maxResults).Some? ==> ys == PyTake(Passing(xs, f), Get(f.maxResults).value))
  {
    var xs := Pages(Fetch(site, searchUrl, term, f, server), k);
    ApplyFiltersSound(xs, f, d);
    if d in ApplyFilters(xs, f).value {
      SubseqMembers(ApplyFilters(xs, f).value, xs, d);
      PagesProducts(site, searchUrl, term, f, server, k, d);
    }
  }

  /**
   * The default of 50 stops the page loop but is not a slice bound: without `max_results` and
   * without other filters, every product of every page read is returned, 50 or more.
   */
  lemma DefaultKeepsEveryPage(xs: seq<ProductData>)
    ensures ApplyFilters(xs, NoFilters) == Ok(xs)
  {
  }
}
