/**
 * The `search_products` loop the three adapters share: pages are requested in turn until
 * enough items are held, a page comes back empty or fails, or page 10 has been read.
 */
module Pagination {

  /** What one page request ends in: a page of items, a falsy response, or an exception. */
  datatype PageOutcome<T> = Page(items: seq<T>) | NoResponse | Failed(error: string)

  predicate Appendable<T>(o: PageOutcome<T>) { o.Page? && o.items != [] }

  function ItemsOf<T>(o: PageOutcome<T>): seq<T> { if o.Page? then o.items else [] }

  /** The items of pages 1..k, in page order. */
  function Pages<T>(fetch: nat -> PageOutcome<T>, k: nat): seq<T> {
    if k == 0 then [] else Pages(fetch, k - 1) + ItemsOf(fetch(k))
  }

  /** Pages 1..k were each non-empty and each was requested while fewer than `target` items were held. */
  predicate WholePages<T>(fetch: nat -> PageOutcome<T>, target: int, k: nat)
    decreases k
  {
    k == 0 || (WholePages(fetch, target, k - 1) && Appendable(fetch(k)) && |Pages(fetch, k - 1)| < target)
  }

  /**
   * The `search_products` loop of every adapter: while fewer than `maxResults` items are held,
   * request the next page; stop on a falsy response, an exception or an empty page, and after
   * page 10. `fetch(n)` is what requesting page n ends in; `requested` pages were requested and
   * the first `appended` of them were appended whole.
   */
  method Paginate<T>(maxResults: int, fetch: nat -> PageOutcome<T>) returns (items: seq<T>, appended: nat, requested: nat)
    ensures appended <= requested <= 10
    ensures items == Pages(fetch, appended)
    ensures WholePages(fetch, maxResults, appended)
    ensures requested == if appended == 10 || |items| >= maxResults then appended else appended + 1
    ensures requested == appended + 1 ==> !Appendable(fetch(requested))
  {
    items := [];
    appended := 0;
    requested := 0;
    var page := 1;
    while |items| < maxResults
      invariant page == appended + 1 && requested == appended && appended < 10
      invariant items == Pages(fetch, appended)
      invariant WholePages(fetch, maxResults, appended)
      decreases 10 - appended
    {
      requested := requested + 1;
      var outcome := fetch(page);
      if !outcome.Page? || outcome.items == [] {
        break;
      }
      items := items + outcome.items;
      appended := appended + 1;
      page := page + 1;
      if page > 10 {
        break;
      }
    }
  }

  /** The recursive definition unfolded: every appended page was non-empty and was requested below the target. */
  lemma {:induction false} WholePagesMeaning<T>(fetch: nat -> PageOutcome<T>, target: int, k: nat, n: nat)
    requires WholePages(fetch, target, k) && 1 <= n <= k
    ensures Appendable(fetch(n)) && |Pages(fetch, n - 1)| < target
    decreases k
  {
    if n < k {
      WholePagesMeaning(fetch, target, k - 1, n);
    }
  }

  /** Appending pages never loses items: the item list only grows from page to page. */
  lemma {:induction false} PagesGrow<T>(fetch: nat -> PageOutcome<T>, j: nat, k: nat)
    requires j <= k
    ensures |Pages(fetch, j)| <= |Pages(fetch, k)|
    ensures Pages(fetch, j) == Pages(fetch, k)[..|Pages(fetch, j)|]
    decreases k
  {
    if j < k {
      PagesGrow(fetch, j, k - 1);
    }
  }

  /**
   * Every appended page holds at least one item, so `k` whole pages hold at least `k` items,
   * and no more than `target` pages are ever appended whole.
   */
  lemma {:induction false} WholePagesCount<T>(fetch: nat -> PageOutcome<T>, target: int, k: nat)
    requires WholePages(fetch, target, k)
    ensures k <= |Pages(fetch, k)|
    ensures k >= 1 ==> k <= target
    decreases k
  {
    if k >= 1 {
      WholePagesCount(fetch, target, k - 1);
    }
  }

  /** Every collected item comes from one of the pages read. */
  lemma {:induction false} PagesSource<T>(fetch: nat -> PageOutcome<T>, k: nat, x: T) returns (n: nat)
    requires x in Pages(fetch, k)
    ensures 1 <= n <= k && x in ItemsOf(fetch(n))
    decreases k
  {
    assert Pages(fetch, k) == Pages(fetch, k - 1) + ItemsOf(fetch(k));
    if x in ItemsOf(fetch(k)) {
      n := k;
    } else {
      n := PagesSource(fetch, k - 1, x);
    }
  }
}
