/**
 * What one `save_products` transaction does to the `products` and `price_history` tables
 * (database/database.py): each record is looked up, by URL first and then by its identifier on
 * its site, and either updates the row it finds or becomes a new row with an initial history
 * row. The tables are values here; `Database.DatabaseManager` holds them.
 */
module ProductStore {
  import opened Wrappers
  import opened Models

  /** The two tables a save writes, with the ids the next inserts receive. */
  datatype Tables = Tables(products: seq<Product>, history: seq<PriceHistory>, nextProductId: int, nextHistoryId: int)

  /** Every stored product meets the NOT NULL constraints, and every id is below the next one. */
  predicate Consistent(t: Tables) {
    && (forall i :: 0 <= i < |t.products| ==> StorableProduct(t.products[i]) && t.products[i].id < t.nextProductId)
    && (forall i :: 0 <= i < |t.history| ==> t.history[i].id < t.nextHistoryId)
  }

  // ---------------------------------------------------------------------------
  // _find_existing_product
  // ---------------------------------------------------------------------------

  /** The URL lookup: the record has a non-empty URL and the row stores that URL. */
  predicate UrlMatch(p: Product, d: ProductData) {
    Truthy(Get(d.url)) && p.url == Get(d.url)
  }

  /** The identifier lookup: `external_id or asin` and `site` are both non-empty and the row stores both. */
  predicate IdMatch(p: Product, d: ProductData) {
    Truthy(ExternalIdOf(d)) && Truthy(Get(d.site)) && p.externalId == ExternalIdOf(d) && p.site == Get(d.site)
  }

  predicate Matches(p: Product, d: ProductData, byUrl: bool) {
    if byUrl then UrlMatch(p, d) else IdMatch(p, d)
  }

  /** `.first()` of one lookup query: the first matching row in table order. */
  function FirstMatch(ps: seq<Product>, d: ProductData, byUrl: bool): (r: Option<nat>)
    ensures r.Some? ==> r.value < |ps| && Matches(ps[r.value], d, byUrl)
    ensures r.Some? ==> forall j :: 0 <= j < r.value ==> !Matches(ps[j], d, byUrl)
    ensures r.None? ==> forall j :: 0 <= j < |ps| ==> !Matches(ps[j], d, byUrl)
  {
    if ps == [] then None
    else if Matches(ps[0], d, byUrl) then Some(0)
    else
      var r := FirstMatch(ps[1..], d, byUrl);
      if r.Some? then Some(r.value + 1) else None
  }

  /**
   * `_find_existing_product`: the row of the first URL match, whatever its site; failing that,
   * the first identifier match; failing both, nothing.
   */
  function FindExisting(ps: seq<Product>, d: ProductData): (r: Option<nat>)
    ensures r.Some? ==> r.value < |ps| && (UrlMatch(ps[r.value], d) || IdMatch(ps[r.value], d))
    ensures r.None? <==> forall j :: 0 <= j < |ps| ==> !UrlMatch(ps[j], d) && !IdMatch(ps[j], d)
    ensures (exists j :: 0 <= j < |ps| && UrlMatch(ps[j], d)) ==>
      r.Some? && UrlMatch(ps[r.value], d) && forall j :: 0 <= j < r.value ==> !UrlMatch(ps[j], d)
    ensures (forall j :: 0 <= j < |ps| ==> !UrlMatch(ps[j], d)) && r.Some? ==>
      forall j :: 0 <= j < r.value ==> !IdMatch(ps[j], d)
  {
    var byUrl := FirstMatch(ps, d, true);
    if byUrl.Some? then byUrl else FirstMatch(ps, d, false)
  }

  // ---------------------------------------------------------------------------
  // _update_existing_product and the insert
  // ---------------------------------------------------------------------------

  /** `d.get(key, current)`: an absent key keeps the stored value, `None` clears it. */
  function KeepOr<T>(e: Entry<T>, current: Option<T>): (r: Option<T>)
    ensures e.Missing? ==> r == current
    ensures e.Null? ==> r.None?
    ensures e.Given? ==> r == Some(e.value)
  {
    match e
    case Missing => current
    case Null => None
    case Given(v) => Some(v)
  }

  function Abs(x: real): real {
    if x < 0.0 then -x else x
  }

  /** The change that records a history row: more than one cent either way. */
  predicate PriceMoved(before: real, after: real) {
    Abs(before - after) > 0.01
  }

  /** The row after `_update_existing_product` assigned its fields. */
  function UpdatedProduct(p: Product, d: ProductData, now: int): (q: Product)
    ensures q.id == p.id && q.url == p.url && q.site == p.site && q.externalId == p.externalId
    ensures q.currency == p.currency && q.firstSeen == p.firstSeen && q.lastUpdated == now
    ensures q.currentPrice == GetOr(d.price, 0.0) && q.originalPrice == Get(d.originalPrice)
    ensures (d.title.Missing? ==> q.title == p.title) && (d.title.Null? ==> q.title.None?)
      && (d.title.Given? ==> q.title == Some(d.title.value))
    ensures (d.imageUrl.Missing? ==> q.imageUrl == p.imageUrl) && (d.imageUrl.Null? ==> q.imageUrl.None?)
      && (d.imageUrl.Given? ==> q.imageUrl == Some(d.imageUrl.value))
    ensures (d.rating.Missing? ==> q.rating == p.rating) && (d.rating.Null? ==> q.rating.None?)
      && (d.rating.Given? ==> q.rating == Some(d.rating.value))
    ensures (d.numReviews.Missing? ==> q.numReviews == p.numReviews) && (d.numReviews.Null? ==> q.numReviews.None?)
      && (d.numReviews.Given? ==> q.numReviews == Some(d.numReviews.value))
    ensures (d.inStock.Missing? ==> q.inStock == p.inStock) && (d.inStock.Null? ==> q.inStock.None?)
      && (d.inStock.Given? ==> q.inStock == Some(d.inStock.value))
    ensures (d.freeShipping.Missing? ==> q.freeShipping == p.freeShipping) && (d.freeShipping.Null? ==> q.freeShipping.None?)
      && (d.freeShipping.Given? ==> q.freeShipping == Some(d.freeShipping.value))
  {
    p.(title := KeepOr(d.title, p.title),
       currentPrice := GetOr(d.price, 0.0),
       originalPrice := Get(d.originalPrice),
       imageUrl := KeepOr(d.imageUrl, p.imageUrl),
       rating := KeepOr(d.rating, p.rating),
       numReviews := KeepOr(d.numReviews, p.numReviews),
       inStock := KeepOr(d.inStock, p.inStock),
       freeShipping := KeepOr(d.freeShipping, p.freeShipping),
       lastUpdated := now)
  }

  /** The tables after one saved record, and the id of the product that record was saved as. */
  datatype Saved = Saved(tables: Tables, id: int)

  /**
   * One record of the batch. An update compares the stored price with the new one (a `None`
   * on either side raises `TypeError`), logs the title when the price moved (a `None` title
   * raises there) and records a history row exactly when it moved; a row that breaks NOT NULL is
   * refused. A new record is inserted with the next id and one initial history row.
   */
  function SaveOne(t: Tables, d: ProductData, sessionId: Option<int>, now: int): (r: Result<Saved, string>) {
    match FindExisting(t.products, d)
    case Some(i) =>
      var p := t.products[i];
      var q := UpdatedProduct(p, d, now);
      if p.currentPrice.None? || q.currentPrice.None? then Err("TypeError")
      else
        var moved := PriceMoved(p.currentPrice.value, q.currentPrice.value);
        if moved && q.title.None? then Err("TypeError")
        else if !StorableProduct(q) then Err("IntegrityError")
        else
          var row := if moved then [HistoryRow(t.nextHistoryId, p.id, q.currentPrice.value, Get(d.originalPrice), sessionId, now)] else [];
          Ok(Saved(t.(products := t.products[i := q], history := t.history + row, nextHistoryId := t.nextHistoryId + |row|), p.id))
    case None =>
      var p := NewProductRow(d, t.nextProductId, now);
      if !StorableProduct(p) then Err("IntegrityError")
      else
        var row := HistoryRow(t.nextHistoryId, p.id, p.currentPrice.value, p.originalPrice, sessionId, now);
        Ok(Saved(Tables(t.products + [p], t.history + [row], t.nextProductId + 1, t.nextHistoryId + 1), p.id))
  }

  /**
   * A new record is accepted exactly when the row it makes meets NOT NULL; an update exactly
   * when the stored price is there and the rewritten row meets NOT NULL.
   */
  lemma SaveOneAccepts(t: Tables, d: ProductData, sessionId: Option<int>, now: int)
    ensures FindExisting(t.products, d).None? ==>
      (SaveOne(t, d, sessionId, now).Ok? <==> StorableProduct(NewProductRow(d, t.nextProductId, now)))
    ensures FindExisting(t.products, d).Some? ==>
      var p := t.products[FindExisting(t.products, d).value];
      (SaveOne(t, d, sessionId, now).Ok? <==> p.currentPrice.Some? && StorableProduct(UpdatedProduct(p, d, now)))
  {
  }

  /**
   * An update rewrites the matched row as `UpdatedProduct` says, under its own id, and appends
   * one history row of the new price exactly when the price moved.
   */
  lemma SaveOneUpdates(t: Tables, d: ProductData, sessionId: Option<int>, now: int)
    requires FindExisting(t.products, d).Some? && SaveOne(t, d, sessionId, now).Ok?
    ensures var i := FindExisting(t.products, d).value;
      var r := SaveOne(t, d, sessionId, now).value;
      var q := UpdatedProduct(t.products[i], d, now);
      && t.products[i].currentPrice.Some? && q.currentPrice.Some?
      && r.id == t.products[i].id
      && r.tables.products == t.products[i := q]
      && r.tables.nextProductId == t.nextProductId
      && (PriceMoved(t.products[i].currentPrice.value, q.currentPrice.value) ==>
            r.tables.history == t.history + [HistoryRow(t.nextHistoryId, q.id, q.currentPrice.value, q.originalPrice, sessionId, now)])
      && (!PriceMoved(t.products[i].currentPrice.value, q.currentPrice.value) ==> r.tables.history == t.history)
  {
  }

  /** A new record is appended under the next id, followed by its initial history row. */
  lemma SaveOneInserts(t: Tables, d: ProductData, sessionId: Option<int>, now: int)
    requires FindExisting(t.products, d).None? && SaveOne(t, d, sessionId, now).Ok?
    ensures var r := SaveOne(t, d, sessionId, now).value;
      var p := NewProductRow(d, t.nextProductId, now);
      && p.currentPrice.Some?
      && r.id == t.nextProductId
      && r.tables.products == t.products + [p]
      && r.tables.history == t.history + [HistoryRow(t.nextHistoryId, p.id, p.currentPrice.value, p.originalPrice, sessionId, now)]
  {
  }

  /**
   * A record saved over a consistent store leaves it consistent; the rows it does not create
   * keep their id, URL, site and identifier, and old history rows stay as they were.
   */
  lemma SaveOneKeeps(t: Tables, d: ProductData, sessionId: Option<int>, now: int)
    requires Consistent(t) && SaveOne(t, d, sessionId, now).Ok?
    ensures Consistent(SaveOne(t, d, sessionId, now).value.tables)
    ensures Extends(t, SaveOne(t, d, sessionId, now).value.tables)
  {
    match FindExisting(t.products, d)
    case Some(i) =>
      var p := t.products[i];
      var q := UpdatedProduct(p, d, now);
      var moved := PriceMoved(p.currentPrice.value, q.currentPrice.value);
      var row := if moved then [HistoryRow(t.nextHistoryId, p.id, q.currentPrice.value, Get(d.originalPrice), sessionId, now)] else [];
      var u := t.(products := t.products[i := q], history := t.history + row, nextHistoryId := t.nextHistoryId + |row|);
      assert SaveOne(t, d, sessionId, now) == Ok(Saved(u, p.id));
      ConsistentRewrite(t, i, q, row);
      assert u.history[..|t.history|] == t.history;
    case None =>
      var p := NewProductRow(d, t.nextProductId, now);
      var row := HistoryRow(t.nextHistoryId, p.id, p.currentPrice.value, p.originalPrice, sessionId, now);
      var u := Tables(t.products + [p], t.history + [row], t.nextProductId + 1, t.nextHistoryId + 1);
      assert SaveOne(t, d, sessionId, now) == Ok(Saved(u, p.id));
      ConsistentAppend(t, p, row);
      assert u.history[..|t.history|] == t.history;
      assert forall j :: 0 <= j < |t.products| ==> u.products[j] == t.products[j];
  }

  /** Rewriting a row under its own id, with new history rows numbered from the next id, keeps the store consistent. */
  lemma ConsistentRewrite(t: Tables, i: nat, q: Product, row: seq<PriceHistory>)
    requires Consistent(t) && i < |t.products| && StorableProduct(q) && q.id == t.products[i].id
    requires forall j :: 0 <= j < |row| ==> row[j].id < t.nextHistoryId + |row|
    ensures Consistent(t.(products := t.products[i := q], history := t.history + row, nextHistoryId := t.nextHistoryId + |row|))
  {
    var h := t.history + row;
    forall j | 0 <= j < |h| ensures h[j].id < t.nextHistoryId + |row| {
      if j < |t.history| {
        assert h[j] == t.history[j];
      } else {
        assert h[j] == row[j - |t.history|];
      }
    }
  }

  /** Appending a row under the next id, with its history row under the next history id, keeps the store consistent. */
  lemma ConsistentAppend(t: Tables, p: Product, row: PriceHistory)
    requires Consistent(t) && StorableProduct(p) && p.id == t.nextProductId && row.id == t.nextHistoryId
    ensures Consistent(Tables(t.products + [p], t.history + [row], t.nextProductId + 1, t.nextHistoryId + 1))
  {
    var ps := t.products + [p];
    var h := t.history + [row];
    assert forall j :: 0 <= j < |t.products| ==> ps[j] == t.products[j];
    assert forall j :: 0 <= j < |t.history| ==> h[j] == t.history[j];
  }

  /**
   * `u` is `t` after saves: the counters have not gone back, no row was removed, every old row
   * keeps its key columns and the old history is a prefix of the new.
   */
  predicate Extends(t: Tables, u: Tables) {
    && t.nextProductId <= u.nextProductId && t.nextHistoryId <= u.nextHistoryId
    && |t.products| <= |u.products| && |t.history| <= |u.history| && u.history[..|t.history|] == t.history
    && forall i :: 0 <= i < |t.products| ==> KeyOf(u.products[i]) == KeyOf(t.products[i])
  }

  lemma ExtendsTrans(a: Tables, b: Tables, c: Tables)
    requires Extends(a, b) && Extends(b, c)
    ensures Extends(a, c)
  {
    assert c.history[..|b.history|][..|a.history|] == c.history[..|a.history|];
  }

  /** The columns a save never rewrites. */
  datatype Key = Key(id: int, url: Option<string>, site: Option<string>, externalId: Option<string>)

  function KeyOf(p: Product): Key {
    Key(p.id, p.url, p.site, p.externalId)
  }

  // ---------------------------------------------------------------------------
  // The save_products loop
  // ---------------------------------------------------------------------------

  /** The batch saved record after record; the first refused record fails the whole batch. */
  function SaveAll(t: Tables, batch: seq<ProductData>, sessionId: Option<int>, now: int): (r: Result<(Tables, seq<int>), string>)
    ensures r.Ok? ==> |r.value.1| == |batch|
    decreases |batch|
  {
    if batch == [] then Ok((t, []))
    else
      var prefix := SaveAll(t, batch[..|batch| - 1], sessionId, now);
      if prefix.Err? then Err(prefix.error)
      else
        var step := SaveOne(prefix.value.0, batch[|batch| - 1], sessionId, now);
        if step.Err? then Err(step.error)
        else Ok((step.value.tables, prefix.value.1 + [step.value.id]))
  }

  /** The batch one record longer: that record saved over what the shorter batch left. */
  lemma SaveAllStep(t: Tables, batch: seq<ProductData>, i: nat, sessionId: Option<int>, now: int, mid: Tables, ids: seq<int>)
    requires i < |batch| && SaveAll(t, batch[..i], sessionId, now) == Ok((mid, ids))
    ensures SaveOne(mid, batch[i], sessionId, now).Err? ==>
      SaveAll(t, batch[..i + 1], sessionId, now) == Err(SaveOne(mid, batch[i], sessionId, now).error)
    ensures SaveOne(mid, batch[i], sessionId, now).Ok? ==>
      var step := SaveOne(mid, batch[i], sessionId, now).value;
      SaveAll(t, batch[..i + 1], sessionId, now) == Ok((step.tables, ids + [step.id]))
  {
    assert batch[..i + 1][..i] == batch[..i] && batch[..i + 1][i] == batch[i];
  }

  /** Once a record of the batch is refused, the batch fails with that record's error. */
  lemma {:induction false} SaveAllStops(t: Tables, batch: seq<ProductData>, k: nat, sessionId: Option<int>, now: int)
    requires k <= |batch| && SaveAll(t, batch[..k], sessionId, now).Err?
    ensures SaveAll(t, batch, sessionId, now) == Err(SaveAll(t, batch[..k], sessionId, now).error)
    decreases |batch|
  {
    if k < |batch| {
      var init := batch[..|batch| - 1];
      assert init[..k] == batch[..k];
      SaveAllStops(t, init, k, sessionId, now);
    } else {
      assert batch[..k] == batch;
    }
  }

  /** A saved batch keeps the store consistent, keeps every old row's key columns and only appends history. */
  lemma {:induction false} SaveAllKeeps(t: Tables, batch: seq<ProductData>, sessionId: Option<int>, now: int)
    requires Consistent(t) && SaveAll(t, batch, sessionId, now).Ok?
    ensures Consistent(SaveAll(t, batch, sessionId, now).value.0)
    ensures Extends(t, SaveAll(t, batch, sessionId, now).value.0)
    decreases |batch|
  {
    if batch == [] {
      assert t.history[..|t.history|] == t.history;
    } else {
      var prefix := SaveAll(t, batch[..|batch| - 1], sessionId, now);
      SaveAllKeeps(t, batch[..|batch| - 1], sessionId, now);
      var mid := prefix.value.0;
      SaveOneKeeps(mid, batch[|batch| - 1], sessionId, now);
      var u := SaveOne(mid, batch[|batch| - 1], sessionId, now).value.tables;
      assert SaveAll(t, batch, sessionId, now).value.0 == u;
      ExtendsTrans(t, mid, u);
    }
  }

  /** A record is new when nothing matches it; it is then inserted with exactly one history row, of its own price. */
  lemma NewRecordOneHistoryRow(t: Tables, d: ProductData, sessionId: Option<int>, now: int)
    requires FindExisting(t.products, d).None? && SaveOne(t, d, sessionId, now).Ok?
    ensures var u := SaveOne(t, d, sessionId, now).value.tables;
      && |u.products| == |t.products| + 1 && |u.history| == |t.history| + 1
      && u.history[|t.history|].productId == u.products[|t.products|].id == t.nextProductId
      && Some(u.history[|t.history|].price) == GetOr(d.price, 0.0)
      && u.history[|t.history|].sessionId == sessionId
  {
  }

  /**
   * The flush makes an inserted record visible to the rest of the batch: a record with a URL
   * saved twice over a store that has neither its URL nor its identifier is inserted once, then
   * updated in place with no second history row.
   */
  lemma SameRecordTwice(t: Tables, d: ProductData, sessionId: Option<int>, now: int)
    requires Truthy(Get(d.url)) && FindExisting(t.products, d).None?
    requires SaveOne(t, d, sessionId, now).Ok?
    ensures SaveAll(t, [d, d], sessionId, now).Ok?
    ensures var (u, ids) := SaveAll(t, [d, d], sessionId, now).value;
      && |u.products| == |t.products| + 1 && |u.history| == |t.history| + 1
      && ids == [t.nextProductId, t.nextProductId]
  {
    var two := [d, d];
    SaveOneInserts(t, d, sessionId, now);
    var mid := SaveOne(t, d, sessionId, now).value.tables;
    assert two[..0] == [];
    SaveAllStep(t, two, 0, sessionId, now, t, []);
    assert [] + [t.nextProductId] == [t.nextProductId];
    ResaveInserted(t, d, sessionId, now);
    SaveAllStep(t, two, 1, sessionId, now, mid, [t.nextProductId]);
    assert two[..2] == two;
  }

  /** Saving an inserted record again finds the inserted row by its URL and rewrites it without a history row. */
  lemma ResaveInserted(t: Tables, d: ProductData, sessionId: Option<int>, now: int)
    requires Truthy(Get(d.url)) && FindExisting(t.products, d).None?
    requires SaveOne(t, d, sessionId, now).Ok?
    ensures var mid := SaveOne(t, d, sessionId, now).value.tables;
      var again := SaveOne(mid, d, sessionId, now);
      && again.Ok? && again.value.id == t.nextProductId
      && |again.value.tables.products| == |mid.products| && again.value.tables.history == mid.history
  {
    SaveOneInserts(t, d, sessionId, now);
    var mid := SaveOne(t, d, sessionId, now).value.tables;
    var k := |t.products|;
    assert FindExisting(mid.products, d) == Some(k) by {
      assert UrlMatch(mid.products[k], d);
      forall j | 0 <= j < k ensures !UrlMatch(mid.products[j], d) {
        assert mid.products[j] == t.products[j];
      }
    }
    SaveOneAccepts(mid, d, sessionId, now);
    SaveOneUpdates(mid, d, sessionId, now);
  }

  /** The history row of an update is there exactly when the price moved by more than a cent. */
  lemma UpdateHistoryIffMoved(t: Tables, d: ProductData, sessionId: Option<int>, now: int)
    requires FindExisting(t.products, d).Some? && SaveOne(t, d, sessionId, now).Ok?
    ensures var i := FindExisting(t.products, d).value;
      var u := SaveOne(t, d, sessionId, now).value.tables;
      (|u.history| == |t.history| + 1 <==> PriceMoved(t.products[i].currentPrice.value, GetOr(d.price, 0.0).value))
      && |u.history| <= |t.history| + 1
  {
  }
}
