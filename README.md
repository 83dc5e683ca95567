# web-scraper-automatizado: a verified model of the extraction-and-persistence pipeline

This Dafny project models the core of the web-scraper-automatizado system. That system scrapes product listings from Amazon, eBay and Mercado Livre. It normalises the listings and stores them with a price history. A scheduler then sweeps a fixed set of searches, watches prices and cleans up old rows. The model covers six parts:

- **Text normalisers** (module `Helpers`, from `utils/helpers.py`): `format_price`, `extract_rating`, `extract_number`, `clean_text`, `truncate_text`, `validate_email` and `calculate_percentage_change`.
  - Prices are `real`.
  - A cleaned price text is a valid float iff it has no comma, at most one period and at least one digit.
- **Decorators** (module `Decorators`): `retry` and `rate_limit`.
  - Both run against an explicit clock, and the wrapped function is an oracle of call outcomes.
  - `rate_limit` keeps its `last_called` cell as a field of class `RateLimiter`.
- **Scraper adapters**:
  - `BaseScraper`: `_validate_product`, the `_apply_filters` comprehension chain, the robots decision, and `_make_request` as the rate-limit gate around the retry wrapper.
  - `Amazon`, `Ebay` and `MercadoLivre`: the query parameters and the field derivation of `_parse_product_element`.
  - `Pagination` and `SiteSearch`: the shared paging loop of `search_products`.
  - `ScraperFactory`: the mutable registry, as class `Registry`.
  - An HTML element is a record of the text each selector found, and BeautifulSoup stays out.
- **Records** (module `Models`, from `database/models.py`): the rows and dict shapes with their defaults, plus `create_product_from_dict` and `create_price_history_from_product`.
- **Store** (class `Database.DatabaseManager` and modules `ProductStore`, `PriceQueries`, `Sorting`): the tables as sequences, with integer ids and timestamps in integer seconds. It models:
  - the batch upsert `save_products`, including the flush visibility and the rollback on a storage error;
  - the price-change report, the cleanup and the session and e-mail log writes;
  - the queries `get_products`, `get_price_history` and `get_recent_sessions`.
- **Scheduler** (class `Scheduler.ScrapingScheduler`): the job table of `_setup_default_jobs`, `remove_job`, the daily sweep with per-search failure isolation, and the cleanup, summary and price-monitoring jobs.
- **Settings** (module `Settings`, from `config/settings.py`): the validators and the site table.

Helper modules: `Wrappers` (Option, Result, and `Entry` for a dict key that is absent, `None` or a value), `Text` (Python string primitives on ASCII) and `Seqs` (comprehensions and subsequences).

Where the code and its tests disagree, the model follows the code:

- `format_price("1.999")` is `1.999`, although the Amazon parsing test expects 1999.0 (`tests/test_scrapers.py:228`). A lone period is always read as the decimal point (`Helpers.FormatPricePeriodDecimals`).
- `format_price("1,234.56")` is `0.0`. The text is left unchanged and `float()` rejects it (`Helpers.FormatPricePeriodAfterComma`). As a result an eBay price range such as "$1,299.99 to $1,499.99" gives price 0 (`Ebay.PriceCandidateGroupedRange`).

## Model

| member | source | states |
|---|---|---|
| Helpers.KeepPriceChars | utils/helpers.py:165 | the cleaned text holds only digits, commas and periods and is no longer than the input |
| Helpers.KeepPriceCharsIdentity | utils/helpers.py:165 | cleaning a text that has only digits, commas and periods changes nothing |
| Helpers.FormatPrice | utils/helpers.py:151-184 | a price read from text is never negative |
| Helpers.ParseFloatDefined | utils/helpers.py:182-184 | `float()` accepts a cleaned text iff it has no comma, at most one period and some digit |
| Helpers.ParseFloatDecimal | utils/helpers.py:182 | `whole.frac` over digits reads as the decimal `whole.frac` |
| Helpers.ParseFloatInteger | utils/helpers.py:182 | a digit string reads as its integer value |
| Helpers.ParseFloatComma | utils/helpers.py:182-184 | any text with a comma is rejected by `float()` |
| Helpers.FormatPriceIgnoresOtherChars | utils/helpers.py:164-165 | currency symbols, letters and spaces do not change the price |
| Helpers.FormatPriceOfClean | utils/helpers.py:161-184 | for a clean non-empty text the price is the float of the rewritten text, or 0 when `float()` rejects it |
| Helpers.RewriteLastComma | utils/helpers.py:172-175 | with both separators and the last comma after the last period, periods are dropped and commas become periods |
| Helpers.RewriteBrazilian | utils/helpers.py:172-175 | `a.b,c` is rewritten to `ab.c` |
| Helpers.FormatPriceBrazilian | utils/helpers.py:172-175 | Brazilian notation "1.234,56" reads as 1234.56 |
| Helpers.FormatPricePeriodAfterComma | utils/helpers.py:172-184 | "1,234.56" (period after the last comma) reads as 0 |
| Helpers.RewriteCommaDecimals | utils/helpers.py:176-180 | one comma followed by at most two digits is rewritten to a period |
| Helpers.FormatPriceCommaDecimals | utils/helpers.py:176-182 | "99,90" reads as 99.9: one comma with at most two digits after it is the decimal separator |
| Helpers.FormatPriceCommaGrouping | utils/helpers.py:176-184 | "1,234" reads as 0: a comma followed by three or more digits stays and `float()` fails |
| Helpers.FormatPricePeriodDecimals | utils/helpers.py:172-182 | a lone period is the decimal point: "1.999" reads as 1.999 |
| Helpers.FormatPriceTwoPeriods | utils/helpers.py:182-184 | "1.2.3" reads as 0 |
| Helpers.FormatPriceInteger | utils/helpers.py:182 | a bare digit string reads as its integer value |
| Helpers.DigitRun | utils/helpers.py:235 | the greedy `\d+` match: a digit prefix not followed by a digit |
| Helpers.RatingTokenOf | utils/helpers.py:201 | the `\d+[.,]?\d*` match of `whole sep frac post` is `whole sep frac` |
| Helpers.RatingTokenWhole | utils/helpers.py:201 | the match of a bare integer followed by a non-separator is the integer |
| Helpers.TokenFloat | utils/helpers.py:205 | the token `whole[.,]frac` with the comma mapped to a period reads as the decimal `whole.frac` |
| Helpers.TokenInteger | utils/helpers.py:205 | an integer token reads as its value |
| Helpers.NormaliseRating | utils/helpers.py:207-209 | the normalised rating lies in [0, 5] |
| Helpers.ExtractRating | utils/helpers.py:187-218 | every rating lies in [0, 5] |
| Helpers.ExtractRatingDecimal | utils/helpers.py:197-209 | the first decimal token is read, halved above 5 and clamped ("4,5 de 5 estrelas" gives 4.5) |
| Helpers.ExtractRatingWhole | utils/helpers.py:197-209 | the first integer token is read and normalised ("12" gives 5.0) |
| Helpers.RatingTokenParses | utils/helpers.py:203-211 | every matched token parses, so the `ValueError` branch is dead |
| Helpers.ExtractRatingStars | utils/helpers.py:213-218 | stars count only in a text with no digit, capped at 5 |
| Helpers.ExtractNumberFirstRun | utils/helpers.py:235-239 | the first maximal digit run is read ("1.234 avaliações" gives 1) |
| Helpers.ExtractNumberRoundTrip | utils/helpers.py:221-243 | a number written with `str` and read back gives the number |
| Helpers.ExtractNumberNoDigit | utils/helpers.py:231-243 | a text with no digit gives 0 |
| Helpers.RemoveControls | utils/helpers.py:142 | no control character survives and nothing new is introduced |
| Helpers.StraightenQuotes | utils/helpers.py:145-146 | each character is replaced by its straight quote, position by position |
| Helpers.CleanText | utils/helpers.py:125-148 | the result has no control character, no curly quote and no whitespace other than a blank |
| Helpers.CollapseSpacesIdentity | utils/helpers.py:139 | whitespace collapsing leaves a text with single blanks alone |
| Helpers.RemoveControlsIdentity | utils/helpers.py:142 | deleting control characters leaves a text without them alone |
| Helpers.StraightenQuotesIdentity | utils/helpers.py:145-146 | quote straightening leaves a text without curly quotes alone |
| Helpers.CleanTextFixpoint | utils/helpers.py:135-148 | `clean_text` changes nothing in a text that is already clean |
| Helpers.CollapseKeepsControlled | utils/helpers.py:139 | collapsing runs first keeps the blanks around a control character |
| Helpers.RemoveControlsExample | utils/helpers.py:142 | deleting that control character then leaves two blanks |
| Helpers.CleanTextKeepsDoubleBlank | utils/helpers.py:139-142 | because collapsing runs before control deletion, "a \x01 b" cleans to "a  b" with two blanks |
| Helpers.TruncateTextShort | utils/helpers.py:285-286 | a text within `max_length` is returned unchanged |
| Helpers.TruncateTextCuts | utils/helpers.py:288 | a long text keeps its first `max_length - len(suffix)` characters plus the suffix, exactly `max_length` long |
| Helpers.TruncateTextOverflows | utils/helpers.py:288 | with a suffix longer than `max_length` the result is longer than `max_length` |
| Helpers.TruncateTextOverflowExample | utils/helpers.py:288 | `truncate_text("abcdef", 2, "...")` is "abcde..." |
| Helpers.TruncateTextBounded | utils/helpers.py:273-288 | the corrected truncation never exceeds `max_length` and leaves short texts alone |
| Helpers.TruncateTextBoundedAgrees | utils/helpers.py:285-288 | the corrected truncation agrees with `truncate_text` whenever the suffix fits |
| Helpers.LocalSplits | utils/helpers.py:339 | a text the anchored pattern accepts splits at its first `@` into a local part and a matching domain |
| Helpers.DomainJoins | utils/helpers.py:339 | a domain, a period and a top-level domain of two or more letters match `[a-zA-Z0-9.-]+\.[a-zA-Z]{2,}` |
| Helpers.BodyMatchesIff | utils/helpers.py:339 | the anchored pattern accepts a text iff it is `local@domain.tld` |
| Helpers.EmailPatternEndsWithLetter | utils/helpers.py:339 | an accepted address ends with a letter |
| Helpers.ValidateEmailMeaning | utils/helpers.py:326-340 | `validate_email` accepts exactly `local@domain.tld`, optionally followed by one newline, which `$` allows |
| Helpers.CalculatePercentageChange | utils/helpers.py:378-395 | 0 for a zero baseline; otherwise `old + old·r/100 = new`, and for a positive baseline the change is positive iff the value rose |
| Decorators.BackoffDelays | utils/helpers.py:99-112 | the k-th sleep of `retry` is `delay·backoff^k` |
| Decorators.Retry | utils/helpers.py:96-115 | at most `max_attempts` calls; the first value returned wins; on giving up every call raised and the last exception is kept; the sleeps are `delay·backoff^k` for all but the last call |
| Decorators.BackoffGrows | utils/helpers.py:110-112 | each sleep is the previous one multiplied by `backoff` |
| Decorators.DefaultBackoff | scrapers/base_scraper.py:109-111 | `_make_request`'s retry (3 attempts, delay 1, backoff 2) sleeps 1 then 2 seconds |
| Decorators.GateWait | utils/helpers.py:47-51 | the wait is `period - (now - last)` when positive, else 0, so the call starts no earlier than `last + period` |
| Decorators.RateLimiter.constructor | utils/helpers.py:30-31 | the gate starts with `last_called = 0` |
| Decorators.RateLimiter.Call | utils/helpers.py:46-55 | the call starts after the gate wait; `last_called` moves to the return time only when the call returned normally |
| Decorators.GateStart | utils/helpers.py:47-51 | a call starts at `now`, or at `last + period` if that is later |
| Decorators.SuccessiveStartsSpaced | utils/helpers.py:46-55 | two successive successful calls through one gate start at least `period` apart |
| BaseScraper.RaiseForStatus | scrapers/base_scraper.py:125-139 | a response passes iff the request returned with a status outside 400-599 |
| BaseScraper.MakeRequest | scrapers/base_scraper.py:109-139 | one gate wait per request, not per retry; 1 to 3 attempts; success iff an attempt passed `raise_for_status`; sleeps 1, 2; the gate moves only on success |
| BaseScraper.RobotsAllowed | scrapers/base_scraper.py:335-359 | scraping is refused iff a 200 response contains both "Disallow: /" and "User-agent: *"; any failure allows it |
| BaseScraper.ValidateProduct | scrapers/base_scraper.py:264-293 | valid iff the title is non-empty, the price is present and positive, and the URL starts with http:// or https:// |
| BaseScraper.ValidateProductExamples | tests/test_scrapers.py:130-162 | the valid product, and the products with no title, zero price or no URL, as the tests state them |
| BaseScraper.KeyValue | scrapers/base_scraper.py:311-321 | `p.get('price', 0)`: an absent price reads as 0, and a present `None` is not comparable |
| BaseScraper.Keep | scrapers/base_scraper.py:311-326 | a comprehension keeps no more items than it was given |
| BaseScraper.Stage | scrapers/base_scraper.py:310-321 | a comparison stage fails (TypeError) iff some item holds `None` for the key; otherwise it keeps the satisfying items |
| BaseScraper.KeepSubseq | scrapers/base_scraper.py:306-326 | a comprehension keeps an order-preserving subsequence |
| BaseScraper.KeepMembers | scrapers/base_scraper.py:306-326 | an item is kept iff it was given and satisfies the condition |
| BaseScraper.Conds | scrapers/base_scraper.py:309-326 | at most four predicate stages |
| BaseScraper.CondsMeaning | scrapers/base_scraper.py:309-326 | the stages together hold iff min price, max price, min rating and free shipping all pass |
| BaseScraper.ChainSound | scrapers/base_scraper.py:306-326 | the chain keeps an order-preserving subsequence, and exactly the items passing every stage |
| BaseScraper.ApplyFiltersSound | scrapers/base_scraper.py:306-333 | the result is an order-preserving subsequence of the input; every item in it passes every active filter; without `max_results` it is exactly the passing items, and with it the first `max_results` of the passing items (a slice taken after filtering, Python negative slice ends included) |
| BaseScraper.PassingMeaning | scrapers/base_scraper.py:306-328 | the items passing all four filters are an order-preserving subsequence of the input, and an item is among them iff it is in the input and passes |
| BaseScraper.ChainKeepsAll | scrapers/base_scraper.py:306-328 | the filter chain, when it succeeds, keeps exactly the items satisfying every condition, in input order |
| BaseScraper.KeepAllConds | scrapers/base_scraper.py:306-328 | the conditions built from the filters keep exactly the items that pass them, in order |
| BaseScraper.ApplyFiltersCutsLast | scrapers/base_scraper.py:316-333 | with `max_price` 100 and `max_results` 1, a list whose first item costs 150 yields the cheaper second item: the cut comes after the filters |
| BaseScraper.ChainTotal | scrapers/base_scraper.py:309-326 | with no `None` price or rating every stage succeeds |
| BaseScraper.ApplyFiltersTotal | scrapers/base_scraper.py:295-333 | with no `None` price or rating `_apply_filters` does not raise |
| BaseScraper.ApplyFiltersNullPrice | scrapers/base_scraper.py:310-311 | a `None` price under a `min_price` filter raises |
| BaseScraper.ApplyFiltersMaxPriceCase | tests/test_scrapers.py:164-174 | prices 50/150/100 under `max_price=100` keep the first and third products |
| BaseScraper.ExtractPrice | scrapers/base_scraper.py:177-199 | a selector's price is never negative |
| BaseScraper.FirstNonEmpty | scrapers/mercadolivre_scraper.py:190-194 | the first-match loop returns the first non-empty candidate, or "" when all are empty |
| BaseScraper.FirstPositive | scrapers/mercadolivre_scraper.py:217-221 | the first-match loop returns the first positive candidate, or 0 when none is positive |
| BaseScraper.FirstPositiveCount | scrapers/mercadolivre_scraper.py:281-287 | the same rule for review counts |
| BaseScraper.RatingCandidates | scrapers/mercadolivre_scraper.py:268-274 | each selector contributes `extract_rating` of its text, or 0 for an empty text, all in [0, 5] |
| BaseScraper.FirstText | scrapers/amazon_scraper.py:196-203 | the title is the first selector text that is non-empty after cleaning |
| BaseScraper.FirstPrice | scrapers/amazon_scraper.py:224-228 | the price is the first selector price above 0, or 0 |
| BaseScraper.FirstRating | scrapers/amazon_scraper.py:247-254 | the rating is in [0, 5]; it is positive iff some non-empty rating text reads above 0, and then it is the reading of the first selector whose text reads above 0, every earlier one yielding 0 |
| BaseScraper.FirstPositiveOf | scrapers/amazon_scraper.py:247-254 | a first-positive loop over selectors settles, when positive, on the value of some selector with every earlier selector yielding 0 |
| BaseScraper.FirstPositiveCountOf | scrapers/amazon_scraper.py:256-267 | the same for count loops |
| BaseScraper.UrlLoop | scrapers/base_scraper.py:214-228 | `_extract_url` over the URL selectors as written: it raises iff some selector matched nothing before any link was found; otherwise it is the first non-empty `href`, or "" iff every selector matched an element without one |
| BaseScraper.UrlOutcomeStep | scrapers/base_scraper.py:217-218 | a matched element without an `href` leaves the outcome of the remaining selectors unchanged |
| BaseScraper.IntendedUrl | scrapers/base_scraper.py:214-228 | the loop as evidently intended: non-empty iff some matched element has a non-empty `href`, and then the first such, every earlier selector having matched nothing or an element without one |
| BaseScraper.UrlLoopAgrees | scrapers/base_scraper.py:214-228 | whenever the loop as written does not raise, it yields the intended URL |
| BaseScraper.UrlLoopRaisesOnMiss | scrapers/base_scraper.py:216-220 | a first selector matching nothing makes the loop raise, although a later selector finds "/dp/B0", which the intended loop returns |
| Scraping.FirstLayout | scrapers/amazon_scraper.py:158-172 | the element list of the first layout selector that matches anything, or none |
| Scraping.TruncToInt | scrapers/mercadolivre_scraper.py:143-146 | Python's `int()` on a real truncates toward zero |
| Scraping.IntToString | scrapers/amazon_scraper.py:151 | `str()` of an integer, with a leading minus for negatives |
| Scraping.OriginalPriceEntry | scrapers/amazon_scraper.py:300 | the original price is kept iff it is strictly above the price, else `None` |
| Pagination.Paginate | scrapers/amazon_scraper.py:88-131 | at most 10 pages requested; whole pages appended while the count is below `max_results`; one more page requested only when neither cap is reached, and that page was empty, failed or had no response |
| Pagination.WholePagesMeaning | scrapers/amazon_scraper.py:92-120 | every appended page was non-empty and was requested while the count was below the target |
| Pagination.PagesGrow | scrapers/amazon_scraper.py:120 | the accumulated list only grows, each stage a prefix of the next |
| Pagination.WholePagesCount | scrapers/amazon_scraper.py:92-127 | each appended page adds at least one item, and no more pages are appended than the target |
| Pagination.PagesSource | scrapers/amazon_scraper.py:120 | every accumulated item comes from one of the appended pages |
| SiteSearch.ParseItemSite | scrapers/amazon_scraper.py:295-311 | a parsed element carries its adapter's site name |
| SiteSearch.ItemProducts | scrapers/amazon_scraper.py:174-182 | an element contributes at most one product, and only a valid one of its site |
| SiteSearch.PageProducts | scrapers/amazon_scraper.py:155-184 | a page yields at most one product per element, each valid and of the adapter's site |
| SiteSearch.PageProductsMembers | scrapers/amazon_scraper.py:174-182 | a product is on the page iff some element parses to it and it validates |
| SiteSearch.QueryOf | scrapers/mercadolivre_scraper.py:89-104 | Amazon and eBay query the search URL; Mercado Livre queries the URL with the term appended |
| SiteSearch.PageOf | scrapers/amazon_scraper.py:107-118 | a page that answered yields the products of its first matching layout; a failed request is a failure |
| SiteSearch.SearchProducts | scrapers/amazon_scraper.py:75-137 | `search_products`: a `None` `max_results` raises TypeError; otherwise the paging bounds of `Paginate` hold (default target 50); when the loop stops one page past the last appended page, that page was not appendable; the result is `_apply_filters` of the accumulated pages |
| SiteSearch.PagesProducts | scrapers/amazon_scraper.py:120 | every accumulated product is valid and carries the adapter's site |
| SiteSearch.PageOfProducts | scrapers/amazon_scraper.py:174-182 | every product of one page is valid and carries the adapter's site |
| SiteSearch.SearchResultSound | scrapers/amazon_scraper.py:133-137 | every result is valid, of the site and passes the filters; with `max_results` the result is exactly the first `max_results` of the passing valid products, so the cut follows the filters |
| SiteSearch.DefaultKeepsEveryPage | scrapers/base_scraper.py:306-333 | with no filters every accumulated product is returned |
| Amazon.Cents | scrapers/amazon_scraper.py:148-149 | a falsy bound gives the fallback; otherwise the truncation of `price·100` |
| Amazon.BuildPriceFilter | scrapers/amazon_scraper.py:139-153 | `rh` is sent iff a bound is given, as "p_36:min-max" in cents, with 0 and 999999999 for falsy bounds |
| Amazon.SearchParams | scrapers/amazon_scraper.py:95-105 | page n sends k, page=n and ref="sr_pg_"+n, plus `rh` exactly when the filter builds one |
| Amazon.BuildPriceFilterExample | scrapers/amazon_scraper.py:146-151 | bounds 100 and 250 give "p_36:10000-25000" |
| Amazon.BuildPriceFilterNone | scrapers/amazon_scraper.py:101-105 | without price bounds no `rh` is sent |
| Amazon.ReviewCandidates | scrapers/amazon_scraper.py:256-267 | a review text counts only when it holds a digit, and is read with `extract_number` |
| Amazon.ReviewsOf | scrapers/amazon_scraper.py:256-267 | the review count is positive iff some selector text with a digit reads above 0, and then it is the reading of the first such selector, every earlier one yielding 0 |
| Amazon.ParseElement | scrapers/amazon_scraper.py:186-313 | rejected iff no title or the URL loop raises (`UrlLoop` is `None`); otherwise title, first positive price, original price only if above it, the URL `UrlLoop` settles on, image URL from the first selector yielding one, rating, reviews, in-stock from the availability text, free shipping, prime, asin defaulting to "", site "Amazon", currency "BRL" |
| Amazon.ParseElementOriginalPrice | scrapers/amazon_scraper.py:230-239 | the original price is kept iff strictly above the price, else `None` |
| Amazon.ParseElementFallbackTitle | scrapers/amazon_scraper.py:196-203 | a missing first title selector falls through to the second: the element is kept iff the URL loop does not raise, with the second title |
| Amazon.ParseElementUrlMiss | scrapers/amazon_scraper.py:205-215 | an element whose first URL selector matches nothing is rejected, whatever its title |
| Ebay.SearchParams | scrapers/ebay_scraper.py:92-107 | page n sends _nkw, _pgn=n, _skc=0, rt="nc"; _udlo/_udhi iff the bound is given (`requests` drops a `None` value); LH_BIN=1 iff buy-it-now-only is truthy; nothing else |
| Ebay.PickText | scrapers/ebay_scraper.py:181-185 | the title loop's result is some candidate, and an accepted one when any is accepted |
| Ebay.PickTextIsFirstAccepted | scrapers/ebay_scraper.py:181-185 | the first candidate that is non-empty and not "new listing" wins |
| Ebay.PickTextIsLast | scrapers/ebay_scraper.py:181-185 | with no acceptable candidate the loop leaves the last one |
| Ebay.FirstAmount | scrapers/ebay_scraper.py:214 | the first `[\d,]+\.\d{2}` match has that shape |
| Ebay.FirstAmountOf | scrapers/ebay_scraper.py:214 | in `pre a.bb post` with no money character in `pre` the match is `a.bb` |
| Ebay.PriceCandidate | scrapers/ebay_scraper.py:209-218 | never negative; an empty text gives 0; a text without "to" is read whole with `format_price` |
| Ebay.PriceCandidateRange | scrapers/ebay_scraper.py:213-216 | in a range text the first amount is read ("$299.99 to …" gives 299.99) |
| Ebay.PriceCandidateGroupedRange | scrapers/ebay_scraper.py:213-216 | a range whose first amount has a thousands comma reads as 0 |
| Ebay.PriceCandidates | scrapers/ebay_scraper.py:208-220 | each selector text gives its price candidate, none negative |
| Ebay.PriceOf | scrapers/ebay_scraper.py:208-220 | the price is non-negative and positive iff some candidate is, and then it is the first positive candidate, every earlier one being 0 |
| Ebay.ParseElement | scrapers/ebay_scraper.py:172-316 | rejected iff the title is empty, "new listing" or "shop on ebay", or the URL loop raises; otherwise the title, the price, the URL `UrlLoop` settles on, image URL from the first selector yielding one, free shipping from the shipping text, site "eBay", currency "USD", and no keys the adapter does not set |
| Ebay.AuctionFlag | scrapers/ebay_scraper.py:222-230 | `auction_type` is "Auction" iff a time-left element exists, and `time_left` is read only then |
| Ebay.ParseElementOnlyBanners | scrapers/ebay_scraper.py:181-188 | an element whose titles are all unacceptable is rejected |
| Ebay.ParseElementShopBanner | scrapers/ebay_scraper.py:181-188 | a "Shop on eBay" banner reached by the loop is rejected |
| MercadoLivre.SearchUrl | scrapers/mercadolivre_scraper.py:89 | the search URL is `search_url/term` with every space replaced by "-" |
| MercadoLivre.BuildPriceFilter | scrapers/mercadolivre_scraper.py:135-148 | precio_desde and precio_hasta are `int()` of the bounds, each sent iff that bound is not `None` |
| MercadoLivre.Offset | scrapers/mercadolivre_scraper.py:94-95 | page n > 1 starts at `(n-1)·50+1` |
| MercadoLivre.SearchParams | scrapers/mercadolivre_scraper.py:92-101 | `_from` iff page > 1, plus the price filter keys unchanged |
| MercadoLivre.OffsetExamples | scrapers/mercadolivre_scraper.py:94-95 | pages 2 and 3 start at 51 and 101; page 1 sends no `_from` |
| MercadoLivre.BuildPriceFilterTruncates | scrapers/mercadolivre_scraper.py:142-143 | a minimum of 99.9 is sent as 99 |
| MercadoLivre.ReviewCandidates | scrapers/mercadolivre_scraper.py:277-287 | each non-empty review text is read with `extract_number` |
| MercadoLivre.ReviewsOf | scrapers/mercadolivre_scraper.py:277-287 | the review count is positive iff some non-empty text reads above 0, and then it is the reading of the first such selector, every earlier one yielding 0 |
| MercadoLivre.ConditionOf | scrapers/mercadolivre_scraper.py:304-305 | "Novo" iff the text contains "novo"; else "Usado" iff it contains "usado"; else "" |
| MercadoLivre.ParseElement | scrapers/mercadolivre_scraper.py:181-330 | rejected iff no title or the URL loop raises; otherwise title, first positive price, original price only if above it, the URL `UrlLoop` settles on, image URL from the first selector yielding one, rating, reviews, free shipping, site "Mercado Livre", currency "BRL" |
| MercadoLivre.NoShippingElement | scrapers/mercadolivre_scraper.py:241-244 | without a shipping element there is no free shipping |
| MercadoLivre.ConditionValues | scrapers/mercadolivre_scraper.py:305 | the condition is one of "Novo", "Usado" and "" |
| ScraperFactory.Registry.constructor | scrapers/scraper_factory.py:25-31 | the registry starts with amazon, ebay, mercadolivre, mercado_livre and ml, in that order |
| ScraperFactory.Registry.CreateScraper | scrapers/scraper_factory.py:34-56 | the name is lower-cased then stripped; a known key gives its class; otherwise ValueError, exactly when `is_site_supported` is false |
| ScraperFactory.Registry.GetSupportedSites | scrapers/scraper_factory.py:67-75 | the registry keys, each once |
| ScraperFactory.Registry.RegisterScraper | scrapers/scraper_factory.py:78-92 | a non-scraper class raises TypeError and changes nothing; otherwise key `lower(name)` is set, a new key going last |
| ScraperFactory.NormalizeIdentity | scrapers/scraper_factory.py:48 | normalisation leaves a lower-case key without surrounding whitespace alone |
| ScraperFactory.PlainKeyReaches | scrapers/scraper_factory.py:48-56 | such a registered key is reached by `create_scraper` |
| ScraperFactory.MercadoLivreAliases | scrapers/scraper_factory.py:25-31 | "mercadolivre", "mercado_livre" and "ml" all map to the Mercado Livre adapter |
| ScraperFactory.NormalizeShape | scrapers/scraper_factory.py:48 | a normalised name has no whitespace at either end |
| ScraperFactory.PaddedNameUnreachable | scrapers/scraper_factory.py:48-92 | a name registered with surrounding whitespace is never produced by normalisation, so it cannot be reached |
| Models.OrElse | database/models.py:285 | Python's `a or b` |
| Models.ExternalIdOf | database/models.py:285 | `external_id` when truthy, else `asin` |
| Models.CreateProductFromDict | database/models.py:271-295 | the object before the flush: id and timestamps as assigned; `external_id or asin`; the price defaults to 0.0; the original price is as given |
| Models.ColumnDefault | database/models.py:43-52 | an INSERT replaces a `None` in a column declared with `default=` by that default, and stores any other value as it is |
| Models.NewProductRow | database/database.py:119-121 | the row the flush of a new product writes: currency, rating, review count, in-stock and free shipping are the given value, else their column default ('BRL', 0.0, 0, True, False), even when the key holds `None`; title and image URL are the given value, NULL for `None`, "" when absent; the row meets NOT NULL iff none of title, url, site and price is `None` |
| Models.CreateProductDefaults | database/models.py:281-294 | absent keys take the declared defaults ("" / 0.0 / "BRL" / 0 / True / False, no original price) |
| Models.CreateProductKeepsNull | database/models.py:35-52 | a `None` title or price stays NULL and the row breaks NOT NULL, while a `None` currency or in-stock is stored as 'BRL' or True |
| Models.CreateProductStorable | database/models.py:35-41 | a dict without `None` in the NOT NULL keys makes a storable row |
| Models.DiscountPercent | database/models.py:308-310 | positive iff the original price is positive and above the current price; in [0, 100] for a non-negative current price |
| Models.DiscountBounds | database/models.py:308-310 | the discount quotient's sign and upper bound |
| Models.CreatePriceHistoryFromProduct | database/models.py:297-318 | the row copies price, original price and session, is stamped now, and carries the discount of the original over the current price (0 without an original); a NULL price is refused |
| Models.HistoryRow | database/models.py:103-113 | a history row built by the constructor alone has discount 0.0 and is stamped now |
| Models.NewSession | database/models.py:152-175 | a new session has zero counts, success False, started now, and nothing completed |
| ProductStore.FirstMatch | database/database.py:169-180 | `.first()`: the first row that matches by URL, or by external id and site |
| ProductStore.FindExisting | database/database.py:152-184 | a URL match wins whatever the site, and the first one; only without a URL match is the first (external id, site) match taken; none iff no row matches either way |
| ProductStore.KeepOr | database/database.py:204-211 | `get(key, current)`: an absent key keeps the current value, `None` clears it |
| ProductStore.UpdatedProduct | database/database.py:200-212 | url, site, external id, currency and first-seen never change; `last_updated` is now; the price defaults to 0.0; the original price is cleared when absent; for each of title, image URL, rating, review count, in-stock and free shipping, a given value is stored, a `None` clears the field, and an absent key keeps the stored value |
| ProductStore.SaveOneAccepts | database/database.py:109-132 | a record is stored iff its new or updated row satisfies the NOT NULL constraints |
| ProductStore.SaveOneUpdates | database/database.py:186-226 | an update rewrites the matched row in place and appends a history row iff the stored price moved by more than 0.01 |
| ProductStore.SaveOneInserts | database/database.py:117-132 | a new record is appended with the next id and one initial history row |
| ProductStore.SaveOneKeeps | database/database.py:107-132 | saving one record keeps ids unique and below the counters, and only extends the tables |
| ProductStore.SaveAll | database/database.py:103-134 | a stored batch returns one product id per record |
| ProductStore.SaveAllStep | database/database.py:107-132 | each record is saved against the tables left by the earlier records of the batch |
| ProductStore.SaveAllStops | database/database.py:142-148 | an error at any record fails the whole batch with that error |
| ProductStore.SaveAllKeeps | database/database.py:103-134 | a stored batch keeps the tables consistent and only extends them |
| ProductStore.NewRecordOneHistoryRow | database/database.py:117-130 | a new product gets exactly one history row, with its price and the session |
| ProductStore.ResaveInserted | database/database.py:119-121 | after the flush, saving the same record with a URL again finds the inserted row, keeps its id and adds no history row |
| ProductStore.SameRecordTwice | database/database.py:119-121 | a batch with the same record (with a URL) twice creates one product and one history row and returns the same id twice |
| ProductStore.UpdateHistoryIffMoved | database/database.py:214-222 | an update adds a history row iff the stored price and the new price differ by more than 0.01 |
| Database.NoFiltersMatchAll | database/database.py:241-259 | without filters every product matches |
| Database.SessionsSince | database/database.py:531-533 | a session survives the cleanup iff it started at or after the cutoff |
| Database.EmailsSince | database/database.py:536-538 | an e-mail log survives iff it was sent at or after the cutoff |
| Database.ApplySessionUpdate | database/database.py:397-405 | a `None` `completed_at` raises TypeError, nothing else does; id, site, start, name and search term never change; each count and `success` takes the given value, else keeps its own; `error_message` takes a given value, is cleared by `None`, and is kept when absent; a given `completed_at` is stored with duration `completed_at - started_at`, an absent one keeps both |
| Database.EmptyUpdateUnchanged | database/database.py:397-405 | an empty update changes nothing |
| Database.SessionIndex | database/database.py:392 | `.first()` of the session with that id |
| Database.NewEmailLog | database/database.py:453-462 | the log takes the `.get` defaults; the count and the status are the given value, else the column default 0 or False, even when the key holds `None`; a `None` subject breaks NOT NULL (IntegrityError) |
| Database.EmailLogNullDefaults | database/models.py:225-233 | `None` count and status are stored as 0 and False; a `None` type, without a column default, stays NULL |
| Database.EmailLogDefaults | database/database.py:453-462 | an empty dict gives subject "", type "unknown", count 0, not sent |
| Database.SaveBatch | database/database.py:103-134 | the loop over the batch computes exactly `SaveAll` |
| Database.DatabaseManager.constructor | database/database.py:34-74 | the tables start empty and ids start at 1 |
| Database.DatabaseManager.SaveProducts | database/database.py:92-150 | the batch is stored and one id per record returned, or on any error (bad record or storage failure) nothing changes and an error is returned |
| Database.DatabaseManager.GetPriceChanges | database/database.py:307-340 | the report of `PriceChanges` with cutoff `now - hours` |
| Database.DatabaseManager.CleanupOldData | database/database.py:514-547 | rows strictly older than `now - days` are deleted from the history, session and e-mail tables; products are untouched; a storage error rolls back |
| Database.DatabaseManager.CreateScrapingSession | database/database.py:346-377 | a new session with the next id is appended; a missing site breaks NOT NULL; a failure changes nothing |
| Database.DatabaseManager.UpdateScrapingSession | database/database.py:379-418 | an unknown id gives `None` and changes nothing; otherwise the session is updated in place, or on error nothing changes |
| Database.DatabaseManager.LogEmailSent | database/database.py:441-476 | a log with the next id is appended, or on error nothing changes |
| Database.DatabaseManager.GetProducts | database/database.py:242-263 | only matching products, sorted newest update first; the result is the `OFFSET`/`LIMIT` window of a newest-first ordering of exactly the matching products, each as often as stored, so no row repeats beyond its count; the count is exactly what `OFFSET`/`LIMIT` leave of the matching products; without an offset no matching product left out was updated later than one returned; without a window exactly the matching products |
| Database.Matching | database/database.py:244-259 | a product is selected iff it is stored and satisfies every given filter, each selected product as often as it is stored; the search folds ASCII capitals only, as SQLite's `lower()`/`LIKE` do |
| Database.SearchFoldsAsciiOnly | database/database.py:257-259 | on SQLite, `ilike` does not fold accented capitals: "ação" is not found in "AÇÃO", "aç" is found in "Aç" |
| Database.NullInStockFound | database/database.py:119-121 | a new record saved with `in_stock` `None` is stored as in stock, so an `in_stock: True` filter finds it |
| Database.DatabaseManager.GetPriceHistory | database/database.py:284-305 | a row is returned iff it belongs to the product and was recorded at or after `now - days`; oldest first; never more rows than stored |
| Database.DatabaseManager.PriceHistoryRows | database/database.py:284-305 | the query returns each selected row exactly as often as it is stored (multiset equality with `ProductHistorySince`) |
| Database.ProductHistorySince | database/database.py:296-300 | the `WHERE product_id = … AND recorded_at >= cutoff` selection: a row is kept iff stored, of that product and not older than the cutoff |
| Database.ProductHistoryCounts | database/database.py:296-300 | the selection keeps each selected row as often as stored and no other row |
| Database.HistoryQuery | database/database.py:296-303 | the selection sorted by `recorded_at`: ascending, the same rows with the same counts |
| Database.DatabaseManager.GetRecentSessions | database/database.py:431-435 | the first `limit` of a newest-start-first ordering of exactly the stored sessions, so no session repeats beyond its count; sessions sorted newest start first, exactly `min(limit, count)` of them, none left out started later than one returned, all of them when the limit does not cut |
| Database.CleanupCutoffStrict | database/database.py:523-528 | a row stamped exactly at the cutoff survives; one a second earlier is deleted |
| PriceQueries.RecentHistory | database/database.py:321-323 | only rows recorded at or after the cutoff |
| PriceQueries.RecentHistoryMembers | database/database.py:321-323 | a row is recent iff it is recorded at or after the cutoff |
| PriceQueries.Previous | database/database.py:328-333 | the latest row of the product strictly before the given time, or none iff there is no earlier row |
| PriceQueries.ProductById | database/database.py:336 | the product with that id, or none iff there is none |
| PriceQueries.ChangeAt | database/database.py:326-338 | a recent row is reported iff it has a predecessor more than 0.01 away and its product exists |
| PriceQueries.ChangesOf | database/database.py:325-340 | every reported change comes from one of the rows, as `ChangeAt` decides |
| PriceQueries.ChangesOfStep | database/database.py:326-338 | each row appends its change, if any, at the end |
| PriceQueries.ChangesOfComplete | database/database.py:325-340 | every row with a change is reported |
| PriceQueries.PriceChangesSound | database/database.py:318-340 | a change pairs a recent row with the latest strictly earlier row of its product, more than 0.01 apart, and an existing product |
| PriceQueries.PriceChangesComplete | database/database.py:318-340 | every such recent row is reported |
| PriceQueries.FirstRowNotReported | database/database.py:328-335 | a product's first row is never reported |
| Sorting.SortDescSorted | database/database.py:261 | `ORDER BY ... DESC` orders the rows and keeps exactly the rows it was given |
| Sorting.Window | database/database.py:261 | `OFFSET`/`LIMIT`: a prefix of the rows after the offset; at most `limit` rows, exactly `limit` when enough remain, everything after the offset when the limit does not cut |
| Sorting.WindowSorted | database/database.py:261 | a window of sorted rows is sorted and holds only rows it was cut from |
| Sorting.WindowTop | database/database.py:261 | a `LIMIT` cut from rows sorted by a descending key keeps the top: no row left out has a larger key than a row kept |
| Sorting.WindowMultiset | database/database.py:261 | a window holds each row at most as often as the rows it was cut from |
| Settings.Stripped | config/settings.py:107 | only non-empty stripped pieces are kept |
| Settings.ParseList | config/settings.py:100-118 | `None` or "" gives []; a list passes through; a string gives non-empty stripped pieces without commas |
| Settings.StrippedKeepsOut | config/settings.py:107 | stripping then dropping empties introduces no comma |
| Settings.ParseListJoin | config/settings.py:102-108 | a comma-joined list of clean names parses back to the list |
| Settings.StrippedClean | config/settings.py:107 | clean pieces are kept unchanged |
| Settings.ParseListBlankPieces | config/settings.py:104-108 | " a, ,b " parses to [a, b] |
| Settings.ValidateTimeFormat | config/settings.py:139-146 | the value is accepted unchanged iff it matches `^([01]?[0-9]\|2[0-3]):[0-5][0-9]$`, else ValueError |
| Settings.ParseInt | scheduler.py:94 | `int()` accepts a string iff, once stripped, it is non-empty digits, and gives their value |
| Settings.ParseTime | scheduler.py:94 | `map(int, t.split(':'))` succeeds iff there are two pieces and both parse |
| Settings.TimeFormatBounds | config/settings.py:141-146 | every accepted time splits into hour 0-23 and minute 0-59 as the scheduler parses it |
| Settings.TimeFormatExamples | config/settings.py:141-146 | "09:00" and "7:30\n" are accepted; "24:00" and "9:5" are refused |
| Settings.ValidateLogLevel | config/settings.py:148-155 | accepted iff the upper-cased level is one of the five, and returned upper-cased; else ValueError |
| Settings.ValidateLogLevelIdempotent | config/settings.py:148-155 | validating an accepted level again gives the same level |
| Settings.ValidateRequiredSettings | config/settings.py:189-200 | nothing without recipients; otherwise EMAIL_USER iff the user is empty and EMAIL_PASSWORD iff the password is empty, in that order, and nothing else is reported |
| Settings.GetSiteConfig | config/settings.py:164-187 | the four settings for amazon, ebay and mercadolivre, nothing for any other name |
| Settings.SiteConfigAliases | config/settings.py:164-187 | the factory aliases "ml" and "mercado_livre" have no site configuration |
| Scheduler.WithoutId | scheduler.py:344-361 | `remove_job`: the table minus the job with that id |
| Scheduler.WithJob | scheduler.py:96-102 | `add_job(..., replace_existing=True)`: the new job replaces any job with its id |
| Scheduler.JobIdsWithout | scheduler.py:355 | removing a job removes exactly its id |
| Scheduler.WithJobDistinct | scheduler.py:96-102 | adding with replacement keeps ids unique and adds exactly the new id |
| Scheduler.WithJobsDistinct | scheduler.py:88-136 | a sequence of replacing adds keeps ids unique and adds exactly the added ids |
| Scheduler.DefaultSearchesRegistered | scheduler.py:148-162 | every site of the daily sweep is a plain registry key, so `create_scraper` finds it |
| Scheduler.DailyScraping | scheduler.py:92-107 | the daily job exists iff scheduling is enabled, as a daily cron (no weekday) whose hour is 0-23 and minute 0-59 |
| Scheduler.DefaultJobIds | scheduler.py:88-136 | the job ids are daily_scraping iff scheduling is enabled, weekly_cleanup, daily_summary iff the summary is enabled, and price_monitoring |
| Scheduler.CloseUpdate | scheduler.py:187-195 | the closing update sets products found and saved to the batch size, success True and the completion time, and nothing else |
| Scheduler.StoreAfter | scheduler.py:168-197 | an entry that opened no session, or whose save failed, leaves the product tables as they were |
| Scheduler.StoreAfterKeeps | scheduler.py:168-197 | one entry keeps the product tables consistent and only extends them |
| Scheduler.AfterSavesKeeps | scheduler.py:154-206 | the whole sweep keeps the product tables consistent and only extends them: no product deleted or re-keyed, no history row lost |
| Scheduler.AfterSavesIdle | scheduler.py:154-206 | a sweep in which no entry opened a session leaves the product tables as they were |
| Scheduler.ScrapingScheduler.constructor | scheduler.py:44-80 | the scheduler starts with no job, its settings and its store |
| Scheduler.ScrapingScheduler.AddJob | scheduler.py:96-102 | a job is added, replacing any job with its id |
| Scheduler.ScrapingScheduler.SetupDefaultJobs | scheduler.py:88-136 | the default jobs are added with replacement, adding exactly their ids |
| Scheduler.ScrapingScheduler.RemoveJob | scheduler.py:344-361 | True iff a job with that id existed, which is then removed; never raises |
| Scheduler.ScrapingScheduler.RunSearch | scheduler.py:157-206 | a failed scrape or an empty result creates no session and leaves the product tables alone; otherwise the session "Agendado - term" is created first; the search ends at the session iff the store refuses it, at the save iff the store refuses the save or `save_products` fails, and the product tables are those the save produced whenever it got past the save |
| Scheduler.ScrapingScheduler.OpenAndSave | scheduler.py:168-197 | for a non-empty result: the session is refused iff the store refuses it; a refused or failed save leaves the product tables as they were, otherwise they are the tables `save_products` produced |
| Scheduler.ScrapingScheduler.SaveAndClose | scheduler.py:181-197 | the save fails iff the store refuses it or `save_products` fails, and then nothing changes; otherwise the product tables are those of the save; the update fails iff the store refuses it for an existing session; on completion the session is updated in place with the products found and saved, success and the completion time; no session is added |
| Scheduler.ScrapingScheduler.DailyScrapingJob | scheduler.py:140-221 | the three fixed searches run in order, each failure isolated; one session per non-empty result; the product tables are what the successive saves made them; the collected products are those of the completed searches in order; the report is sent iff products were collected and recipients exist |
| Scheduler.ScrapingScheduler.RunSearches | scheduler.py:154-206 | the loop over the searches keeps every outcome faithful to its search, only appends sessions, collects products in order, and leaves the product tables as the entries' saves, one after the other, made them |
| Scheduler.ScrapingScheduler.WeeklyCleanupJob | scheduler.py:223-237 | the cleanup runs with 90 days; a storage error is caught and the job fails with nothing deleted |
| Scheduler.ScrapingScheduler.DailySummaryJob | scheduler.py:239-267 | the five most recently started sessions are summarised, each at most as often as stored, none left out starting later than one kept; the summary is sent iff recipients exist |
| Scheduler.ScrapingScheduler.PriceMonitoringJob | scheduler.py:269-302 | the changes of the last 4 hours; an alert iff there are changes and recipients |

## Left out

- HTML parsing (BeautifulSoup `select`/`select_one`) is not modelled. An element is the list of texts its selectors found, and absolute URLs are given. `_extract_url` is modelled as `BaseScraper.UrlLoop` on the `href`s its selectors found, without `urljoin`. `_extract_image_url`, `get_site_name`, `normalize_url`, `is_valid_url` and `get_domain` depend on `urljoin`/`urlparse` and are not part of this model.
- `safe_get` and `format_currency` are not modelled. Nothing in the core calls them, and `format_currency` depends on float formatting.
- The network, the clock and sleeping are parameters.
  - An HTTP answer is an oracle (`nat -> CallOutcome`), and so is a page server (`Query -> RawPage`).
  - The time is an integer in seconds, or a `real` for the decorators.
  - Storage failures are a `storageFails` flag per write. The scheduler's scrape results and storage faults are parameters of its jobs.
- Only the synchronous wrappers of `retry` and `rate_limit` are modelled; the async ones have the same logic. The `calls` argument of `rate_limit` is unused by the source and not modelled.
- Binary floating point is not modelled. Prices are `real`, so the 0.01 threshold and `int(price*100)` behave exactly.
- Characters are ASCII, except `lower()` on Latin-1 capitals. Unicode `\d`, `\s` and case folding are not modelled.
- `int()` accepting signs and underscores is not modelled (`Settings.ParseInt`). After `validate_time_format` neither can occur.
- `requests` rendering of parameter values is not modelled. Values are typed (`PStr`/`PInt`/`PReal`), not strings.
- SQL `ilike` wildcards in `get_products` are not modelled. The search filter is a plain substring test, folded as SQLite folds it (ASCII letters only), the default database (config/settings.py:33); other database engines fold differently.
- `ORDER BY` ties keep table order (a stable sort), while SQLite leaves the tie order unspecified.
- `get_statistics`, `get_product_by_id`, `get_scraper_info`, `add_custom_job`, `get_product_details`, the job-event listeners, `start`/`stop`/`run_forever` and signal handling are not modelled. They are logging, reporting or library runtime.
- The APScheduler runtime is not modelled: triggers firing, the weekday meaning of `day_of_week=0`, misfire handling and concurrency. A job is a record of its id and trigger, and its body is a method called directly.
- E-mail sending is represented by its decision (the `reportSent`, `sent` and `alerted` results). The message itself, SMTP and its failures are left out.
- `validate_database_url`, `create_log_dir` and the logger configuration are not modelled. They create directories and files.
- Database.ApplySessionUpdate: the update record models only the seven keys the visible callers pass (`products_found`, `products_saved`, `new_products`, `price_changes`, `success`, `error_message`, `completed_at`); the source's `setattr` loop at database/database.py:397-400 sets any attribute the session has.
- Database.DatabaseManager.LogEmailSent: the `recipients`, `has_attachments` and `error_message` columns are not modelled.
- Database.DatabaseManager.CreateScrapingSession: the JSON `filters_applied` column is not modelled.
- Scheduler.ScrapingScheduler.DailySummaryJob: the statistics part of the summary is not modelled, since `get_statistics` is left out.
- SiteSearch.SearchProducts: the `max_results` comparison assumes an integer `max_results`, and other Python types are not modelled.

## Findings

| source | as written | input that shows it | evidently intended | confidence | as-written member | corrected member |
|---|---|---|---|---|---|---|
| utils/helpers.py:288 | `text[:max_length - len(suffix)] + suffix`: when the suffix is longer than `max_length`, the slice bound is negative and counts from the end | `truncate_text("abcdef", 2, "...")` returns "abcde..." (8 characters) | the result never exceeds `max_length` | not executed | Helpers.TruncateTextOverflows, Helpers.TruncateTextOverflowExample | Helpers.TruncateTextBounded, Helpers.TruncateTextBoundedAgrees |
| scrapers/base_scraper.py:214-228 | `url` is assigned only when `select_one` finds an element, and the `except` clause catches only `AttributeError` and `TypeError`, so a selector that matches nothing raises `UnboundLocalError` out of `_extract_url`; the adapters' `except Exception` then drop the whole element | an Amazon result with a title whose first link selector `h2 a` matches nothing while `.s-link-style` finds "/dp/B0": `Amazon.ParseElementUrlMiss` rejects it | a selector that matches nothing falls through to the next one | not executed | BaseScraper.UrlLoop, BaseScraper.UrlLoopRaisesOnMiss, Amazon.ParseElementUrlMiss | BaseScraper.IntendedUrl, BaseScraper.UrlLoopAgrees |
