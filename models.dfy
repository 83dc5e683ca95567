/**
 * The records of database/models.py and the dict shape the scrapers hand to the store.
 * Columns that may hold NULL are `Option`s; timestamps are integer seconds.
 */
module Models {
  import opened Wrappers

  /**
   * The site-specific keys of a product dict, which the store does not read: `is_prime`;
   * `auction_type`, `time_left`, `seller`, `location`, `shipping_cost`, `condition`, `watchers`;
   * `discount_percent`, `mercado_envios`, `is_leader`, `installments`.
   */
  datatype ExtraKey =
    | IsPrime | AuctionType | TimeLeft | Seller | Location | ShippingCost | Condition | Watchers
    | Discount | MercadoEnvios | IsLeader | Installments

  /** A value of one of the site-specific keys. */
  datatype Extra = Text(text: string) | Flag(flag: bool) | Count(count: int)

  /**
   * A product dict as the adapters return it and `save_products` receives it. Every key the
   * store reads is an `Entry`: absent, present with `None`, or present with a value.
   */
  datatype ProductData = ProductData(
    title: Entry<string>,
    price: Entry<real>,
    originalPrice: Entry<real>,
    url: Entry<string>,
    imageUrl: Entry<string>,
    rating: Entry<real>,
    numReviews: Entry<int>,
    freeShipping: Entry<bool>,
    inStock: Entry<bool>,
    site: Entry<string>,
    externalId: Entry<string>,
    asin: Entry<string>,
    currency: Entry<string>,
    extras: map<ExtraKey, Extra>)

  /** A dict with none of the keys the store reads. */
  const EmptyData := ProductData(Missing, Missing, Missing, Missing, Missing, Missing, Missing,
                                 Missing, Missing, Missing, Missing, Missing, Missing, map[])

  /** A row of `products`. `title`, `url`, `site` and `current_price` are NOT NULL in the schema. */
  datatype Product = Product(
    id: int,
    title: Option<string>,
    url: Option<string>,
    site: Option<string>,
    externalId: Option<string>,
    currentPrice: Option<real>,
    originalPrice: Option<real>,
    currency: Option<string>,
    imageUrl: Option<string>,
    rating: Option<real>,
    numReviews: Option<int>,
    inStock: Option<bool>,
    freeShipping: Option<bool>,
    firstSeen: int,
    lastUpdated: int)

  /** The NOT NULL constraints of `products`: a row that breaks one is refused at flush. */
  predicate StorableProduct(p: Product) {
    p.title.Some? && p.url.Some? && p.site.Some? && p.currentPrice.Some?
  }

  /** A row of `price_history`; `price` is NOT NULL. */
  datatype PriceHistory = PriceHistory(
    id: int,
    productId: int,
    price: real,
    originalPrice: Option<real>,
    discountPercent: real,
    recordedAt: int,
    sessionId: Option<int>)

  /** A row of `scraping_sessions`; `site` is NOT NULL. */
  datatype ScrapingSession = ScrapingSession(
    id: int,
    sessionName: Option<string>,
    site: string,
    searchTerm: Option<string>,
    productsFound: int,
    productsSaved: int,
    newProducts: int,
    priceChanges: int,
    success: bool,
    errorMessage: Option<string>,
    startedAt: int,
    completedAt: Option<int>,
    durationSeconds: Option<int>)

  /** A row of `email_logs`; `subject` is NOT NULL. */
  datatype EmailLog = EmailLog(
    id: int,
    subject: string,
    emailType: Option<string>,
    productsCount: Option<int>,
    sentSuccessfully: Option<bool>,
    sentAt: int,
    sessionId: Option<int>)

  /** Python truthiness of an optional string. */
  predicate Truthy(s: Option<string>) { s.Some? && s.value != "" }

  /** Python's `a or b` on optional strings: `a` when it is truthy, else `b` whatever it is. */
  function OrElse(a: Option<string>, b: Option<string>): (r: Option<string>)
    ensures Truthy(a) ==> r == a
    ensures !Truthy(a) ==> r == b
  {
    if Truthy(a) then a else b
  }

  /** The identifier `save_products` and `create_product_from_dict` read: `external_id or asin`. */
  function ExternalIdOf(d: ProductData): (r: Option<string>)
    ensures Truthy(Get(d.externalId)) ==> r == Get(d.externalId)
    ensures !Truthy(Get(d.externalId)) ==> r == Get(d.asin)
  {
    OrElse(Get(d.externalId), Get(d.asin))
  }

  /**
   * create_product_from_dict, with the id the insert assigns and the clock for the
   * `first_seen`/`last_updated` defaults.
   */
  function CreateProductFromDict(d: ProductData, id: int, now: int): (p: Product)
    ensures p.id == id && p.firstSeen == now && p.lastUpdated == now
    ensures p.externalId == ExternalIdOf(d)
    ensures p.currentPrice == GetOr(d.price, 0.0) && p.originalPrice == Get(d.originalPrice)
  {
    Product(id, GetOr(d.title, ""), GetOr(d.url, ""), GetOr(d.site, ""), ExternalIdOf(d),
            GetOr(d.price, 0.0), Get(d.originalPrice), GetOr(d.currency, "BRL"), GetOr(d.imageUrl, ""),
            GetOr(d.rating, 0.0), GetOr(d.numReviews, 0), GetOr(d.inStock, true), GetOr(d.freeShipping, false),
            now, now)
  }

  /** Absent keys take the documented defaults. */
  lemma CreateProductDefaults(id: int, now: int)
    ensures var p := CreateProductFromDict(EmptyData, id, now);
      p.title == Some("") && p.url == Some("") && p.site == Some("") && p.currentPrice == Some(0.0)
      && p.currency == Some("BRL") && p.imageUrl == Some("") && p.rating == Some(0.0)
      && p.numReviews == Some(0) && p.inStock == Some(true) && p.freeShipping == Some(false)
      && p.originalPrice == None && p.externalId == None
  {
  }

  /**
   * What an INSERT stores in a column declared with `default=`: the ORM leaves an attribute
   * holding `None` out of the statement, so the database receives the column default, not NULL.
   */
  function ColumnDefault<T>(v: Option<T>, default: T): (r: Option<T>)
    ensures r.Some?
    ensures v.Some? ==> r == v
    ensures v.None? ==> r == Some(default)
  {
    if v.Some? then v else Some(default)
  }

  /**
   * The `products` row the flush of a new `create_product_from_dict` object writes: the columns
   * with a declared default (`currency`, `rating`, `num_reviews`, `in_stock`, `free_shipping`)
   * take it in place of `None`; every other column holds what the object holds.
   */
  function NewProductRow(d: ProductData, id: int, now: int): (p: Product)
    ensures p.id == id && p.firstSeen == now && p.lastUpdated == now
    ensures p.externalId == ExternalIdOf(d)
    ensures p.currentPrice == GetOr(d.price, 0.0) && p.originalPrice == Get(d.originalPrice)
    ensures (d.title.Null? ==> p.title.None?) && (d.title.Given? ==> p.title == Some(d.title.value))
      && (d.title.Missing? ==> p.title == Some(""))
    ensures (d.imageUrl.Null? ==> p.imageUrl.None?) && (d.imageUrl.Given? ==> p.imageUrl == Some(d.imageUrl.value))
      && (d.imageUrl.Missing? ==> p.imageUrl == Some(""))
    ensures p.currency == Some(if d.currency.Given? then d.currency.value else "BRL")
    ensures p.rating == Some(if d.rating.Given? then d.rating.value else 0.0)
    ensures p.numReviews == Some(if d.numReviews.Given? then d.numReviews.value else 0)
    ensures p.inStock == Some(if d.inStock.Given? then d.inStock.value else true)
    ensures p.freeShipping == Some(if d.freeShipping.Given? then d.freeShipping.value else false)
    ensures StorableProduct(p) <==> !d.title.Null? && !d.url.Null? && !d.site.Null? && !d.price.Null?
  {
    var o := CreateProductFromDict(d, id, now);
    o.(currency := ColumnDefault(o.currency, "BRL"),
       rating := ColumnDefault(o.rating, 0.0),
       numReviews := ColumnDefault(o.numReviews, 0),
       inStock := ColumnDefault(o.inStock, true),
       freeShipping := ColumnDefault(o.freeShipping, false))
  }

  /**
   * A key present with `None` stays NULL in a column without a default, and a NULL title or
   * price makes the row break NOT NULL; in a defaulted column it is stored as the default.
   */
  lemma CreateProductKeepsNull(d: ProductData, id: int, now: int)
    requires d.title.Null? && d.price.Null? && d.currency.Null? && d.inStock.Null?
    ensures var p := NewProductRow(d, id, now);
      p.title == None && p.currentPrice == None && p.currency == Some("BRL") && p.inStock == Some(true)
      && !StorableProduct(p)
  {
  }

  /** A dict with every NOT NULL key absent or given still makes a storable row. */
  lemma CreateProductStorable(d: ProductData, id: int, now: int)
    requires !d.title.Null? && !d.url.Null? && !d.site.Null? && !d.price.Null?
    ensures StorableProduct(NewProductRow(d, id, now))
  {
  }

  /** The discount of create_price_history_from_product: only when the original price is truthy and above. */
  function DiscountPercent(original: real, current: real): (r: real)
    ensures current >= 0.0 ==> 0.0 <= r <= 100.0
    ensures r > 0.0 <==> original > 0.0 && original > current
    ensures r == 0.0 <==> !(original != 0.0 && original > current)
  {
    if original != 0.0 && original > current then
      DiscountBounds(original, current);
      (original - current) / original * 100.0
    else 0.0
  }

  lemma DiscountBounds(original: real, current: real)
    requires original != 0.0 && original > current
    ensures original > 0.0 ==> 0.0 < (original - current) / original * 100.0
    ensures original < 0.0 ==> (original - current) / original * 100.0 < 0.0
    ensures current >= 0.0 ==> (original - current) / original * 100.0 <= 100.0
  {
    var q := (original - current) / original;
    assert q * original == original - current;
    if original > 0.0 {
      assert q > 0.0;
      if current >= 0.0 {
        assert (q - 1.0) * original == 0.0 - current;
        if q > 1.0 {
          assert (q - 1.0) * original > 0.0;
        }
      }
    } else {
      assert q < 0.0;
    }
  }

  /**
   * create_price_history_from_product. A NULL current price either raises TypeError (when the
   * original price is truthy) or gives a row the NOT NULL `price` column refuses: both are `Err`.
   */
  function CreatePriceHistoryFromProduct(p: Product, sessionId: Option<int>, id: int, now: int): (r: Result<PriceHistory, string>)
    ensures r.Ok? <==> p.currentPrice.Some?
    ensures r.Ok? ==> r.value.productId == p.id && r.value.price == p.currentPrice.value
    ensures r.Ok? ==> r.value.originalPrice == p.originalPrice && r.value.sessionId == sessionId
    ensures r.Ok? ==> r.value.recordedAt == now
    ensures r.Ok? ==> r.value.discountPercent
                      == if p.originalPrice.Some? then DiscountPercent(p.originalPrice.value, p.currentPrice.value) else 0.0
  {
    if p.currentPrice.None? then Err("TypeError")
    else
      var discount := if p.originalPrice.Some? then DiscountPercent(p.originalPrice.value, p.currentPrice.value) else 0.0;
      Ok(PriceHistory(id, p.id, p.currentPrice.value, p.originalPrice, discount, now, sessionId))
  }

  /** A history row built by the constructor alone: `discount_percent` keeps its default 0.0. */
  function HistoryRow(id: int, productId: int, price: real, originalPrice: Option<real>, sessionId: Option<int>, now: int): (h: PriceHistory)
    ensures h.discountPercent == 0.0 && h.recordedAt == now
    ensures h.productId == productId && h.price == price && h.originalPrice == originalPrice && h.sessionId == sessionId
  {
    PriceHistory(id, productId, price, originalPrice, 0.0, now, sessionId)
  }

  /** A session as create_scraping_session builds it: no counts, not successful, started now. */
  function NewSession(id: int, name: Option<string>, site: string, term: Option<string>, now: int): (s: ScrapingSession)
    ensures s.productsFound == 0 && s.productsSaved == 0 && s.newProducts == 0 && s.priceChanges == 0
    ensures !s.success && s.startedAt == now && s.completedAt.None? && s.durationSeconds.None?
    ensures s.id == id && s.site == site && s.sessionName == name && s.searchTerm == term
  {
    ScrapingSession(id, name, site, term, 0, 0, 0, 0, false, None, now, None, None)
  }
}
