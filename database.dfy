/**
 * `DatabaseManager` (database/database.py): the four tables in place, the writes that change
 * them in one transaction each, and the read queries. Every write takes `storageFails`, the
 * engine refusing the commit: the transaction rolls back and the tables stay as they were.
 * Timestamps are integer seconds and `now` is the clock's reading.
 */
module Database {
  import opened Wrappers
  import opened Text
  import opened Models
  import opened Seqs
  import opened Sorting
  import opened ProductStore
  import opened PriceQueries

  const SecondsPerHour := 3600
  const SecondsPerDay := 86400

  // ---------------------------------------------------------------------------
  // get_products filters
  // ---------------------------------------------------------------------------

  /** The keys of the `filters` dict of `get_products`; an absent key adds no condition. */
  datatype ProductFilters = ProductFilters(
    site: Entry<string>,
    minPrice: Entry<real>,
    maxPrice: Entry<real>,
    inStock: Entry<bool>,
    search: Entry<string>)

  const NoProductFilters := ProductFilters(Missing, Missing, Missing, Missing, Missing)

  /** `column == value`, which SQLAlchemy renders as `IS NULL` for `None`. */
  predicate EqualsEntry<T(==)>(column: Option<T>, e: Entry<T>) {
    match e
    case Missing => true
    case Null => column.None?
    case Given(v) => column == Some(v)
  }

  /** `column >= value`: a comparison with NULL holds for no row. */
  predicate AtLeast(column: Option<real>, e: Entry<real>) {
    match e
    case Missing => true
    case Null => false
    case Given(v) => column.Some? && column.value >= v
  }

  predicate AtMost(column: Option<real>, e: Entry<real>) {
    match e
    case Missing => true
    case Null => false
    case Given(v) => column.Some? && column.value <= v
  }

  /** The text inside `%...%`: Python formats `None` as "None". */
  function SearchText(e: Entry<string>): string {
    match e
    case Given(v) => v
    case _ => "None"
  }

  /**
   * `title ILIKE '%term%'` as SQLite runs it, `lower(title) LIKE lower(term)`: the title contains
   * the term, ignoring the case of ASCII letters only.
   */
  predicate TitleLike(title: Option<string>, term: string) {
    title.Some? && Contains(AsciiLower(title.value), AsciiLower(term))
  }

  /** Accented capitals do not fold: "ação" is not found in "AÇÃO", while "aç" is found in "Aç". */
  lemma SearchFoldsAsciiOnly()
    ensures !TitleLike(Some("AÇÃO"), "ação")
    ensures TitleLike(Some("Aç"), "aç")
  {
    var t := AsciiLower("AÇÃO");
    assert t[0] == 'a' && t[1] == 'Ç' && t[2] == 'Ã' && t[3] == 'o';
    assert 'ç' !in t;
    var u := AsciiLower("ação");
    assert u[1] == 'ç';
    if Contains(t, u) {
      ContainsKeepsChars(t, u, 'ç');
    }
    var v := AsciiLower("Aç");
    assert v[0] == 'a' && v[1] == 'ç';
    assert v == "aç";
    assert AsciiLower("aç") == v;
    ContainsSelf(v);
  }


  predicate ProductMatches(p: Product, f: ProductFilters) {
    && EqualsEntry(p.site, f.site)
    && AtLeast(p.currentPrice, f.minPrice)
    && AtMost(p.currentPrice, f.maxPrice)
    && EqualsEntry(p.inStock, f.inStock)
    && (f.search.Missing? || TitleLike(p.title, SearchText(f.search)))
  }

  /** Without filters every product matches. */
  lemma NoFiltersMatchAll(p: Product)
    ensures ProductMatches(p, NoProductFilters)
  {
  }

  /**
   * A new record saved with `in_stock` set to `None` is stored with the column default `True`,
   * so an `in_stock` filter of `True` finds it.
   */
  lemma NullInStockFound()
    ensures var d := EmptyData.(title := Given("T"), url := Given("http://x"), site := Given("Amazon"),
                                price := Given(10.0), inStock := Null);
      var r := SaveOne(Tables([], [], 1, 1), d, None, 0);
      && r.Ok? && |r.value.tables.products| == 1
      && ProductMatches(r.value.tables.products[0], ProductFilters(Missing, Missing, Missing, Given(true), Missing))
  {
  }

  /** The products a filter set matches, in table order. */
  function Matching(ps: seq<Product>, f: ProductFilters): (r: seq<Product>)
    ensures forall p :: p in r <==> p in ps && ProductMatches(p, f)
    ensures forall p :: multiset(r)[p] == if ProductMatches(p, f) then multiset(ps)[p] else 0
  {
    FilterMembers(ps, (p: Product) => ProductMatches(p, f));
    FilterMultiset(ps, (p: Product) => ProductMatches(p, f));
    Filter(ps, (p: Product) => ProductMatches(p, f))
  }

  /** The rows of one product recorded at or after the cutoff, in table order. */
  function ProductHistorySince(h: seq<PriceHistory>, productId: int, cutoff: int): (r: seq<PriceHistory>)
    ensures forall x :: x in r <==> x in h && x.productId == productId && x.recordedAt >= cutoff
    ensures |r| <= |h|
  {
    FilterMembers(h, (x: PriceHistory) => x.productId == productId && x.recordedAt >= cutoff);
    Filter(h, (x: PriceHistory) => x.productId == productId && x.recordedAt >= cutoff)
  }

  /** Every copy of a selected row is kept, and no copy of another. */
  lemma ProductHistoryCounts(h: seq<PriceHistory>, productId: int, cutoff: int)
    ensures forall x :: multiset(ProductHistorySince(h, productId, cutoff))[x] == if x.productId == productId && x.recordedAt >= cutoff then multiset(h)[x] else 0
  {
    FilterMultiset(h, (x: PriceHistory) => x.productId == productId && x.recordedAt >= cutoff);
  }

  /** The history query's rows: the selected rows, each as often as stored, in ascending time. */
  lemma HistoryQuery(h: seq<PriceHistory>, productId: int, cutoff: int)
    ensures var r := SortDesc(ProductHistorySince(h, productId, cutoff), EarliestFirst);
      && (forall x :: x in r <==> x in h && x.productId == productId && x.recordedAt >= cutoff)
      && (forall i, j :: 0 <= i < j < |r| ==> r[i].recordedAt <= r[j].recordedAt)
      && |r| <= |h|
      && multiset(r) == multiset(ProductHistorySince(h, productId, cutoff))
  {
    var rows := ProductHistorySince(h, productId, cutoff);
    SortDescSorted(rows, EarliestFirst);
    var r := SortDesc(rows, EarliestFirst);
    assert forall i, j :: 0 <= i < j < |r| ==> EarliestFirst(r[i]) >= EarliestFirst(r[j]);
  }

  function LastUpdated(p: Product): int { p.lastUpdated }
  function StartedAt(s: ScrapingSession): int { s.startedAt }
  function EarliestFirst(h: PriceHistory): int { -h.recordedAt }

  // ---------------------------------------------------------------------------
  // cleanup_old_data
  // ---------------------------------------------------------------------------

  function SessionsSince(ss: seq<ScrapingSession>, cutoff: int): (r: seq<ScrapingSession>)
    ensures forall s :: s in r <==> s in ss && s.startedAt >= cutoff
  {
    FilterMembers(ss, (s: ScrapingSession) => s.startedAt >= cutoff);
    Filter(ss, (s: ScrapingSession) => s.startedAt >= cutoff)
  }

  function EmailsSince(es: seq<EmailLog>, cutoff: int): (r: seq<EmailLog>)
    ensures forall e :: e in r <==> e in es && e.sentAt >= cutoff
  {
    FilterMembers(es, (e: EmailLog) => e.sentAt >= cutoff);
    Filter(es, (e: EmailLog) => e.sentAt >= cutoff)
  }

  // ---------------------------------------------------------------------------
  // update_scraping_session
  // ---------------------------------------------------------------------------

  /**
   * The `updates` dict: each count and `success` is set when given; `error_message` and
   * `completed_at` may also be given as `None`.
   */
  datatype SessionUpdate = SessionUpdate(
    productsFound: Option<int>,
    productsSaved: Option<int>,
    newProducts: Option<int>,
    priceChanges: Option<int>,
    success: Option<bool>,
    errorMessage: Entry<string>,
    completedAt: Entry<int>)

  const NoUpdate := SessionUpdate(None, None, None, None, None, Missing, Missing)

  function Assign<T>(given: Option<T>, current: T): T {
    if given.Some? then given.value else current
  }

  /**
   * The `setattr` loop, then the duration when `completed_at` was among the updates;
   * a `None` completion time cannot be subtracted and raises `TypeError`.
   */
  function ApplySessionUpdate(s: ScrapingSession, u: SessionUpdate): (r: Result<ScrapingSession, string>)
    ensures r.Ok? <==> !u.completedAt.Null?
    ensures r.Ok? ==> r.value.id == s.id && r.value.site == s.site && r.value.startedAt == s.startedAt
    ensures r.Ok? ==> r.value.sessionName == s.sessionName && r.value.searchTerm == s.searchTerm
    ensures u.completedAt.Given? ==>
      r.value.completedAt == Some(u.completedAt.value) && r.value.durationSeconds == Some(u.completedAt.value - s.startedAt)
    ensures u.completedAt.Missing? ==> r.value.completedAt == s.completedAt && r.value.durationSeconds == s.durationSeconds
    ensures r.Ok? && u.success.Some? ==> r.value.success == u.success.value
    ensures r.Ok? && u.success.None? ==> r.value.success == s.success
    ensures r.Ok? && u.productsFound.Some? ==> r.value.productsFound == u.productsFound.value
    ensures r.Ok? && u.productsFound.None? ==> r.value.productsFound == s.productsFound
    ensures r.Ok? && u.productsSaved.Some? ==> r.value.productsSaved == u.productsSaved.value
    ensures r.Ok? && u.productsSaved.None? ==> r.value.productsSaved == s.productsSaved
    ensures r.Ok? && u.newProducts.Some? ==> r.value.newProducts == u.newProducts.value
    ensures r.Ok? && u.newProducts.None? ==> r.value.newProducts == s.newProducts
    ensures r.Ok? && u.priceChanges.Some? ==> r.value.priceChanges == u.priceChanges.value
    ensures r.Ok? && u.priceChanges.None? ==> r.value.priceChanges == s.priceChanges
    ensures r.Ok? && u.errorMessage.Missing? ==> r.value.errorMessage == s.errorMessage
    ensures r.Ok? && u.errorMessage.Null? ==> r.value.errorMessage.None?
    ensures r.Ok? && u.errorMessage.Given? ==> r.value.errorMessage == Some(u.errorMessage.value)
  {
    var updated := s.(productsFound := Assign(u.productsFound, s.productsFound),
      productsSaved := Assign(u.productsSaved, s.productsSaved),
      newProducts := Assign(u.newProducts, s.newProducts),
      priceChanges := Assign(u.priceChanges, s.priceChanges),
      success := Assign(u.success, s.success),
      errorMessage := KeepOr(u.errorMessage, s.errorMessage),
      completedAt := KeepOr(u.completedAt, s.completedAt));
    match u.completedAt
    case Missing => Ok(updated)
    case Null => Err("TypeError")
    case Given(t) => Ok(updated.(durationSeconds := Some(t - updated.startedAt)))
  }

  /** An empty update leaves the session as it was. */
  lemma EmptyUpdateUnchanged(s: ScrapingSession)
    ensures ApplySessionUpdate(s, NoUpdate) == Ok(s)
  {
  }

  /** The first session with that id. */
  function SessionIndex(ss: seq<ScrapingSession>, id: int): (r: Option<nat>)
    ensures r.Some? ==> r.value < |ss| && ss[r.value].id == id && forall j :: 0 <= j < r.value ==> ss[j].id != id
    ensures r.None? <==> forall j :: 0 <= j < |ss| ==> ss[j].id != id
  {
    if ss == [] then None
    else if ss[0].id == id then Some(0)
    else
      var r := SessionIndex(ss[1..], id);
      if r.Some? then Some(r.value + 1) else None
  }

  // ---------------------------------------------------------------------------
  // log_email_sent
  // ---------------------------------------------------------------------------

  /** The keys of `email_data` the log row stores. */
  datatype EmailData = EmailData(
    subject: Entry<string>,
    emailType: Entry<string>,
    productsCount: Entry<int>,
    sentSuccessfully: Entry<bool>,
    sessionId: Entry<int>)

  /**
   * The log row the INSERT stores, with the `.get` defaults and, for a `None` count or status,
   * the column defaults; a `None` subject breaks NOT NULL and is refused.
   */
  function NewEmailLog(e: EmailData, id: int, now: int): (r: Result<EmailLog, string>)
    ensures r.Ok? <==> !e.subject.Null?
    ensures r.Err? ==> r.error == "IntegrityError"
    ensures r.Ok? ==> r.value.id == id && r.value.sentAt == now && r.value.sessionId == Get(e.sessionId)
    ensures r.Ok? ==> Some(r.value.subject) == GetOr(e.subject, "") && r.value.emailType == GetOr(e.emailType, "unknown")
    ensures r.Ok? ==> r.value.productsCount == Some(if e.productsCount.Given? then e.productsCount.value else 0)
    ensures r.Ok? ==> r.value.sentSuccessfully == Some(if e.sentSuccessfully.Given? then e.sentSuccessfully.value else false)
  {
    var subject := GetOr(e.subject, "");
    if subject.None? then Err("IntegrityError")
    else Ok(EmailLog(id, subject.value, GetOr(e.emailType, "unknown"), ColumnDefault(GetOr(e.productsCount, 0), 0),
                     ColumnDefault(GetOr(e.sentSuccessfully, false), false), now, Get(e.sessionId)))
  }

  /**
   * `None` for the count and the status is stored as their column defaults; a `None` type,
   * whose column has none, stays NULL.
   */
  lemma EmailLogNullDefaults(id: int, now: int)
    ensures NewEmailLog(EmailData(Given("s"), Null, Null, Null, Null), id, now)
         == Ok(EmailLog(id, "s", None, Some(0), Some(false), now, None))
  {
  }

  /** An empty `email_data` logs an unsent email of unknown type with an empty subject. */
  lemma EmailLogDefaults(id: int, now: int)
    ensures NewEmailLog(EmailData(Missing, Missing, Missing, Missing, Missing), id, now)
         == Ok(EmailLog(id, "", Some("unknown"), Some(0), Some(false), now, None))
  {
  }

  // ---------------------------------------------------------------------------
  // The save_products loop
  // ---------------------------------------------------------------------------

  /**
   * The loop of `save_products` inside its transaction: each record looked up and saved over
   * what the records before it left, stopping at the first one refused.
   */
  method SaveBatch(start: Tables, batch: seq<ProductData>, sessionId: Option<int>, now: int)
    returns (r: Result<(Tables, seq<int>), string>)
    ensures r == SaveAll(start, batch, sessionId, now)
  {
    var t := start;
    var ids: seq<int> := [];
    var i := 0;
    while i < |batch|
      invariant 0 <= i <= |batch|
      invariant SaveAll(start, batch[..i], sessionId, now) == Ok((t, ids))
    {
      SaveAllStep(start, batch, i, sessionId, now, t, ids);
      var step := SaveOne(t, batch[i], sessionId, now);
      if step.Err? {
        SaveAllStops(start, batch, i + 1, sessionId, now);
        return Err(step.error);
      }
      t, ids := step.value.tables, ids + [step.value.id];
      i := i + 1;
    }
    assert batch[..|batch|] == batch;
    r := Ok((t, ids));
  }

  // ---------------------------------------------------------------------------
  // The manager
  // ---------------------------------------------------------------------------

  class DatabaseManager {
    var products: seq<Product>
    var history: seq<PriceHistory>
    var sessions: seq<ScrapingSession>
    var emails: seq<EmailLog>
    var nextProductId: int
    var nextHistoryId: int
    var nextSessionId: int
    var nextEmailId: int

    /** The product tables are consistent, and every session and log id is below the next one. */
    ghost predicate Valid()
      reads this
    {
      && Consistent(Store())
      && (forall i :: 0 <= i < |sessions| ==> sessions[i].id < nextSessionId)
      && (forall i :: 0 <= i < |emails| ==> emails[i].id < nextEmailId)
    }

    /** The tables `save_products` writes. */
    function Store(): Tables
      reads this
    {
      Tables(products, history, nextProductId, nextHistoryId)
    }

    /** An empty database; autoincrement ids start at 1. */
    constructor ()
      ensures Valid()
      ensures products == [] && history == [] && sessions == [] && emails == []
      ensures nextProductId == 1 && nextHistoryId == 1 && nextSessionId == 1 && nextEmailId == 1
    {
      products, history, sessions, emails := [], [], [], [];
      nextProductId, nextHistoryId, nextSessionId, nextEmailId := 1, 1, 1, 1;
    }

    /**
     * `save_products`: the records in order, in one transaction. The ids of the saved products,
     * one per record, when every record was accepted and the commit went through; otherwise the
     * error, with every table as it was.
     */
    method SaveProducts(batch: seq<ProductData>, sessionId: Option<int>, now: int, storageFails: bool)
      returns (r: Result<seq<int>, string>)
      requires Valid()
      modifies this
      ensures Valid()
      ensures sessions == old(sessions) && emails == old(emails)
      ensures nextSessionId == old(nextSessionId) && nextEmailId == old(nextEmailId)
      ensures var s := SaveAll(old(Store()), batch, sessionId, now);
        if s.Ok? && !storageFails then r == Ok(s.value.1) && Store() == s.value.0
        else r.Err? && Store() == old(Store())
      ensures SaveAll(old(Store()), batch, sessionId, now).Err? ==> r == Err(SaveAll(old(Store()), batch, sessionId, now).error)
    {
      var saved := SaveBatch(Store(), batch, sessionId, now);
      if saved.Err? {
        return Err(saved.error);
      }
      if storageFails {
        return Err("SQLAlchemyError");
      }
      SaveAllKeeps(Store(), batch, sessionId, now);
      var (t, ids) := saved.value;
      products, history, nextProductId, nextHistoryId := t.products, t.history, t.nextProductId, t.nextHistoryId;
      r := Ok(ids);
    }

    /** `get_price_changes`: the changes among the rows of the last `hours` hours. */
    method GetPriceChanges(now: int, hours: int) returns (changes: seq<Change>)
      ensures changes == PriceChanges(history, products, now - hours * SecondsPerHour)
    {
      var recent := RecentHistory(history, now - hours * SecondsPerHour);
      changes := [];
      var i := 0;
      while i < |recent|
        invariant 0 <= i <= |recent|
        invariant changes == ChangesOf(history, products, recent[..i])
      {
        ChangesOfStep(history, products, recent, i);
        var reported := ChangeAt(history, products, recent[i]);
        if reported.Some? {
          changes := changes + [reported.value];
        }
        i := i + 1;
      }
      assert recent[..|recent|] == recent;
    }

    /**
     * `cleanup_old_data`: history rows, sessions and email logs strictly older than `days`
     * days are deleted; products are kept.
     */
    method CleanupOldData(now: int, days: int, storageFails: bool) returns (r: Result<(), string>)
      requires Valid()
      modifies this
      ensures Valid()
      ensures products == old(products)
      ensures nextProductId == old(nextProductId) && nextHistoryId == old(nextHistoryId)
      ensures nextSessionId == old(nextSessionId) && nextEmailId == old(nextEmailId)
      ensures storageFails ==> r.Err? && history == old(history) && sessions == old(sessions) && emails == old(emails)
      ensures !storageFails ==>
        var cutoff := now - days * SecondsPerDay;
        && r == Ok(())
        && history == RecentHistory(old(history), cutoff)
        && sessions == SessionsSince(old(sessions), cutoff)
        && emails == EmailsSince(old(emails), cutoff)
    {
      if storageFails {
        return Err("SQLAlchemyError");
      }
      var cutoff := now - days * SecondsPerDay;
      history := RecentHistory(history, cutoff);
      sessions := SessionsSince(sessions, cutoff);
      emails := EmailsSince(emails, cutoff);
      r := Ok(());
    }

    /**
     * `create_scraping_session`: a new session row, with no counts and started now; a session
     * without a site breaks NOT NULL and is refused.
     */
    method CreateScrapingSession(name: Option<string>, site: Option<string>, term: Option<string>, now: int, storageFails: bool)
      returns (r: Result<ScrapingSession, string>)
      requires Valid()
      modifies this
      ensures Valid()
      ensures Store() == old(Store()) && emails == old(emails) && nextEmailId == old(nextEmailId)
      ensures site.None? ==> r == Err("IntegrityError")
      ensures r.Err? ==> sessions == old(sessions) && nextSessionId == old(nextSessionId)
      ensures site.Some? && !storageFails ==>
        && r == Ok(NewSession(old(nextSessionId), name, site.value, term, now))
        && sessions == old(sessions) + [r.value]
        && nextSessionId == old(nextSessionId) + 1
      ensures storageFails ==> r.Err?
    {
      if site.None? {
        return Err("IntegrityError");
      }
      if storageFails {
        return Err("SQLAlchemyError");
      }
      var s := NewSession(nextSessionId, name, site.value, term, now);
      sessions := sessions + [s];
      nextSessionId := nextSessionId + 1;
      r := Ok(s);
    }

    /**
     * `update_scraping_session`: `None` for an unknown id; otherwise the session with the
     * updates applied, replacing the stored one, unless the update raised or the commit failed.
     */
    method UpdateScrapingSession(id: int, u: SessionUpdate, storageFails: bool)
      returns (r: Result<Option<ScrapingSession>, string>)
      requires Valid()
      modifies this
      ensures Valid()
      ensures Store() == old(Store()) && emails == old(emails)
      ensures nextSessionId == old(nextSessionId) && nextEmailId == old(nextEmailId)
      ensures SessionIndex(old(sessions), id).None? ==> r == Ok(None) && sessions == old(sessions)
      ensures r.Err? ==> sessions == old(sessions)
      ensures SessionIndex(old(sessions), id).Some? ==>
        var i := SessionIndex(old(sessions), id).value;
        var applied := ApplySessionUpdate(old(sessions)[i], u);
        && (applied.Err? ==> r == Err(applied.error))
        && (applied.Ok? && storageFails ==> r.Err?)
        && (applied.Ok? && !storageFails ==> r == Ok(Some(applied.value)) && sessions == old(sessions)[i := applied.value])
    {
      var index := SessionIndex(sessions, id);
      if index.None? {
        return Ok(None);
      }
      var applied := ApplySessionUpdate(sessions[index.value], u);
      if applied.Err? {
        return Err(applied.error);
      }
      if storageFails {
        return Err("SQLAlchemyError");
      }
      sessions := sessions[index.value := applied.value];
      r := Ok(Some(applied.value));
    }

    /** `log_email_sent`: a new log row sent now, unless the row or the commit is refused. */
    method LogEmailSent(e: EmailData, now: int, storageFails: bool) returns (r: Result<EmailLog, string>)
      requires Valid()
      modifies this
      ensures Valid()
      ensures Store() == old(Store()) && sessions == old(sessions) && nextSessionId == old(nextSessionId)
      ensures r.Err? ==> emails == old(emails) && nextEmailId == old(nextEmailId)
      ensures NewEmailLog(e, old(nextEmailId), now).Err? ==> r == NewEmailLog(e, old(nextEmailId), now)
      ensures NewEmailLog(e, old(nextEmailId), now).Ok? && !storageFails ==>
        && r == NewEmailLog(e, old(nextEmailId), now)
        && emails == old(emails) + [r.value]
        && nextEmailId == old(nextEmailId) + 1
      ensures storageFails ==> r.Err?
    {
      var log := NewEmailLog(e, nextEmailId, now);
      if log.Err? {
        return log;
      }
      if storageFails {
        return Err("SQLAlchemyError");
      }
      emails := emails + [log.value];
      nextEmailId := nextEmailId + 1;
      r := log;
    }

    /**
     * `get_products`: the matching products, most recently updated first, then `offset` and
     * `limit`; with no offset and no limit, every matching product. Without an offset the page
     * holds the newest matching products: none left out was updated later than one kept.
     */
    function GetProducts(f: ProductFilters, limit: int, offset: int): (r: seq<Product>)
      reads this
      ensures forall p :: p in r ==> p in products && ProductMatches(p, f)
      ensures SortedDesc(r, LastUpdated)
      ensures limit >= 0 ==> |r| <= limit
      ensures var n := |Matching(products, f)|; var s := WindowStart(n, offset);
        |r| == if limit < 0 || limit >= n - s then n - s else limit
      ensures offset <= 0 && limit < 0 ==> forall p :: p in r <==> p in products && ProductMatches(p, f)
      ensures offset <= 0 ==>
        forall p, q :: p in r && q in products && ProductMatches(q, f) && q !in r ==> q.lastUpdated <= p.lastUpdated
      ensures multiset(r) <= multiset(Matching(products, f))
      ensures exists t :: SortedDesc(t, LastUpdated) && multiset(t) == multiset(Matching(products, f)) && r == Window(t, offset, limit)
    {
      var matching := Matching(products, f);
      var sorted := SortDesc(matching, LastUpdated);
      SortDescSorted(matching, LastUpdated);
      WindowSorted(sorted, LastUpdated, offset, limit);
      WindowTop(sorted, LastUpdated, limit);
      WindowMultiset(sorted, offset, limit);
      Window(sorted, offset, limit)
    }

    /** `get_price_history`: the product's rows of the last `days` days, earliest first. */
    function GetPriceHistory(productId: int, days: int, now: int): (r: seq<PriceHistory>)
      reads this
      ensures forall x :: x in r <==> x in history && x.productId == productId && x.recordedAt >= now - days * SecondsPerDay
      ensures forall i, j :: 0 <= i < j < |r| ==> r[i].recordedAt <= r[j].recordedAt
      ensures |r| <= |history|
    {
      var cutoff := now - days * SecondsPerDay;
      HistoryQuery(history, productId, cutoff);
      SortDesc(ProductHistorySince(history, productId, cutoff), EarliestFirst)
    }

    /** The history query returns every selected row exactly as often as it is stored. */
    lemma PriceHistoryRows(productId: int, days: int, now: int)
      ensures multiset(GetPriceHistory(productId, days, now)) == multiset(ProductHistorySince(history, productId, now - days * SecondsPerDay))
    {
      HistoryQuery(history, productId, now - days * SecondsPerDay);
    }

    /**
     * `get_recent_sessions`: the latest `limit` sessions, latest first; no session left out
     * started later than one kept.
     */
    function GetRecentSessions(limit: int): (r: seq<ScrapingSession>)
      reads this
      ensures forall s :: s in r ==> s in sessions
      ensures SortedDesc(r, StartedAt)
      ensures limit >= 0 ==> |r| == if limit <= |sessions| then limit else |sessions|
      ensures limit < 0 || limit >= |sessions| ==> multiset(r) == multiset(sessions)
      ensures forall s, t :: s in r && t in sessions && t !in r ==> t.startedAt <= s.startedAt
      ensures multiset(r) <= multiset(sessions)
      ensures exists t :: SortedDesc(t, StartedAt) && multiset(t) == multiset(sessions) && r == Window(t, 0, limit)
    {
      var sorted := SortDesc(sessions, StartedAt);
      SortDescSorted(sessions, StartedAt);
      WindowSorted(sorted, StartedAt, 0, limit);
      WindowTop(sorted, StartedAt, limit);
      WindowMultiset(sorted, 0, limit);
      Window(sorted, 0, limit)
    }
  }

  /** A row recorded exactly at the cleanup cutoff survives; one a second earlier does not. */
  lemma CleanupCutoffStrict(h: seq<PriceHistory>, x: PriceHistory, now: int, days: int)
    requires x in h
    ensures x.recordedAt == now - days * SecondsPerDay ==> x in RecentHistory(h, now - days * SecondsPerDay)
    ensures x.recordedAt == now - days * SecondsPerDay - 1 ==> x !in RecentHistory(h, now - days * SecondsPerDay)
  {
    RecentHistoryMembers(h, now - days * SecondsPerDay, x);
  }
}
