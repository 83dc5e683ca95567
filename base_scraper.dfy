/**
 * The shared logic of scrapers/base_scraper.py: product validation, the filter chain, the
 * robots.txt decision, the decorator stack of `_make_request`, the first-match selection
 * rules every adapter uses, and the pagination loop the three adapters share.
 */
module BaseScraper {
  import opened Wrappers
  import opened Text
  import opened Helpers
  import opened Decorators
  import opened Models
  import opened Seqs

  // ---------------------------------------------------------------------------
  // Fetching
  // ---------------------------------------------------------------------------

  /** An HTTP response: status code and body text. */
  datatype Response = Response(status: int, body: string)

  /** `response.raise_for_status()`: a 4xx or 5xx status raises, everything else passes through. */
  function RaiseForStatus(http: CallOutcome<Response>): (r: CallOutcome<Response>)
    ensures r.Returned? <==> http.Returned? && !(400 <= http.value.status < 600)
    ensures r.Returned? ==> r.value == http.value
  {
    match http
    case Returned(resp) => if 400 <= resp.status < 600 then Raised("HTTPError") else http
    case Raised(_) => http
  }

  /**
   * `_make_request`: `rate_limit(period=2)` around `retry(max_attempts=3, delay=1.0)` around one
   * GET. `http(i)` is what the i-th GET does; `elapsed` is how long the retry wrapper ran. The
   * gate is consulted once per request, before the first attempt, and is moved only when the
   * wrapper returns a response.
   */
  method MakeRequest(gate: RateLimiter, now: real, http: nat -> CallOutcome<Response>, elapsed: real)
    returns (outcome: RetryOutcome<Response>, startedAt: real, calls: nat, sleeps: seq<real>)
    requires gate.period == 2.0
    modifies gate
    ensures startedAt == now + GateWait(2.0, old(gate.lastCalled), now)
    ensures 1 <= calls <= 3
    ensures outcome.Succeeded? <==> RaiseForStatus(http(calls - 1)).Returned?
    ensures outcome.Succeeded? ==> outcome.value == http(calls - 1).value && !(400 <= outcome.value.status < 600)
    ensures forall j :: 0 <= j < calls - 1 ==> RaiseForStatus(http(j)).Raised?
    ensures outcome.GaveUp? ==> calls == 3 && outcome.lastError.Some?
    ensures sleeps == BackoffDelays(1.0, 2.0, calls - 1)
    ensures gate.lastCalled == if outcome.Succeeded? then startedAt + elapsed else old(gate.lastCalled)
  {
    startedAt := now + GateWait(gate.period, gate.lastCalled, now);
    var attempt := (i: nat) => RaiseForStatus(http(i));
    outcome, calls, sleeps := Retry(3, 1.0, 2.0, attempt);
    assert forall j :: 0 <= j < calls - 1 ==> attempt(j) == RaiseForStatus(http(j));
    if outcome.Succeeded? {
      assert attempt(calls - 1) == RaiseForStatus(http(calls - 1));
      gate.lastCalled := startedAt + elapsed;
    }
  }

  /**
   * check_robots_txt given what `_make_request` did for /robots.txt: scraping is refused only
   * for a 200 response whose body has both "Disallow: /" and "User-agent: *"; a request that
   * raised counts as allowed.
   */
  function RobotsAllowed(outcome: RetryOutcome<Response>): (allowed: bool)
    ensures !allowed <==> outcome.Succeeded? && outcome.value.status == 200
                          && Contains(outcome.value.body, "Disallow: /") && Contains(outcome.value.body, "User-agent: *")
  {
    match outcome
    case GaveUp(_) => true
    case Succeeded(resp) =>
      // A Response is truthy exactly when raise_for_status would not raise.
      var truthy := !(400 <= resp.status < 600);
      if truthy && resp.status == 200 then
        !(Contains(resp.body, "Disallow: /") && Contains(resp.body, "User-agent: *"))
      else true
  }

  // ---------------------------------------------------------------------------
  // _validate_product
  // ---------------------------------------------------------------------------

  /** Python truthiness of a dict value read with `.get`. */
  predicate TruthyText(e: Entry<string>) { e.Given? && e.value != "" }
  predicate TruthyNumber(e: Entry<real>) { e.Given? && e.value != 0.0 }

  /** `_validate_product`: the required keys, then the price, then the URL scheme. */
  function ValidateProduct(d: ProductData): (ok: bool)
    ensures ok <==> d.title.Given? && d.title.value != "" && d.price.Given? && d.price.value > 0.0
                    && d.url.Given? && (StartsWith(d.url.value, "http://") || StartsWith(d.url.value, "https://"))
  {
    var required := TruthyText(d.title) && TruthyNumber(d.price) && TruthyText(d.url);
    if !required then false
    else if d.price.value <= 0.0 then false
    else StartsWith(d.url.value, "http://") || StartsWith(d.url.value, "https://")
  }

  /** The tests' valid product and the three invalid ones (no title, price 0, no URL). */
  lemma ValidateProductExamples()
    ensures var url := Given("https://example.com/produto");
      ValidateProduct(EmptyData.(title := Given("Produto Teste"), price := Given(99.99), url := url))
      && !ValidateProduct(EmptyData.(price := Given(99.99), url := url))
      && !ValidateProduct(EmptyData.(title := Given("Produto"), price := Given(0.0), url := url))
      && !ValidateProduct(EmptyData.(title := Given("Produto"), price := Given(99.99)))
  {
    var url := "https://example.com/produto";
    assert url[..8] == "https://";
  }

  // ---------------------------------------------------------------------------
  // _apply_filters
  // ---------------------------------------------------------------------------

  /** The keyword filters a search accepts, each absent, `None` or given. */
  datatype Filters = Filters(
    minPrice: Entry<real>,
    maxPrice: Entry<real>,
    minRating: Entry<real>,
    freeShippingOnly: Entry<bool>,
    maxResults: Entry<int>,
    buyItNowOnly: Entry<bool>)

  const NoFilters := Filters(Missing, Missing, Missing, Missing, Missing, Missing)

  /** The keys a comparison reads. */
  datatype Key = PriceOf | RatingOf

  /** `p.get('price', 0)` or `p.get('rating', 0)`: `None` when the key holds `None`. */
  function KeyValue(k: Key, d: ProductData): (v: Option<real>)
    ensures d.price.Missing? && k == PriceOf ==> v == Some(0.0)
    ensures v.None? <==> (if k == PriceOf then d.price.Null? else d.rating.Null?)
  {
    if k == PriceOf then GetOr(d.price, 0.0) else GetOr(d.rating, 0.0)
  }

  /** One condition of the chain: a bound on a key, or the free-shipping flag. */
  datatype Cond = AtLeast(key: Key, bound: real) | AtMost(key: Key, bound: real) | FreeShippingOnly

  /** Whether a product meets a condition; `p.get('free_shipping', False)` must be truthy. */
  predicate Holds(c: Cond, d: ProductData) {
    match c
    case AtLeast(k, b) => KeyValue(k, d).Some? && KeyValue(k, d).value >= b
    case AtMost(k, b) => KeyValue(k, d).Some? && KeyValue(k, d).value <= b
    case FreeShippingOnly => d.freeShipping == Given(true)
  }

  /** Comparing `None` with a number raises TypeError; the flag test never raises. */
  predicate Comparable(c: Cond, d: ProductData) {
    c.FreeShippingOnly? || KeyValue(c.key, d).Some?
  }

  /** `[p for p in xs if cond(p)]`, for a list on which the condition raises nowhere. */
  function Keep(xs: seq<ProductData>, c: Cond): (r: seq<ProductData>)
    ensures |r| <= |xs|
  {
    if xs == [] then [] else (if Holds(c, xs[0]) then [xs[0]] else []) + Keep(xs[1..], c)
  }

  /** One stage of `_apply_filters`: TypeError as soon as one product cannot be compared. */
  function Stage(xs: seq<ProductData>, c: Cond): (r: Result<seq<ProductData>, string>)
    ensures r.Ok? <==> forall i :: 0 <= i < |xs| ==> Comparable(c, xs[i])
    ensures r.Ok? ==> r.value == Keep(xs, c)
  {
    if exists i :: 0 <= i < |xs| && !Comparable(c, xs[i]) then Err("TypeError") else Ok(Keep(xs, c))
  }

  /** A comprehension keeps the order of its list. */
  lemma {:induction false} KeepSubseq(xs: seq<ProductData>, c: Cond)
    ensures Subseq(Keep(xs, c), xs)
    decreases |xs|
  {
    if xs != [] {
      KeepSubseq(xs[1..], c);
      var rest := Keep(xs[1..], c);
      if Holds(c, xs[0]) {
        assert Keep(xs, c) == [xs[0]] + rest;
        assert ([xs[0]] + rest)[1..] == rest;
      } else {
        assert Keep(xs, c) == rest;
      }
    }
  }

  /** A comprehension keeps exactly the products that meet its condition. */
  lemma {:induction false} KeepMembers(xs: seq<ProductData>, c: Cond, d: ProductData)
    ensures d in Keep(xs, c) <==> d in xs && Holds(c, d)
    decreases |xs|
  {
    if xs != [] {
      KeepMembers(xs[1..], c, d);
      assert xs == [xs[0]] + xs[1..];
    }
  }

  /** The conditions a filter set switches on, in the order `_apply_filters` applies them. */
  function Conds(f: Filters): (cs: seq<Cond>)
    ensures |cs| <= 4
  {
    (if Get(f.minPrice).Some? then [AtLeast(PriceOf, Get(f.minPrice).value)] else [])
    + (if Get(f.maxPrice).Some? then [AtMost(PriceOf, Get(f.maxPrice).value)] else [])
    + (if Get(f.minRating).Some? then [AtLeast(RatingOf, Get(f.minRating).value)] else [])
    + (if f.freeShippingOnly == Given(true) then [FreeShippingOnly] else [])
  }

  /** The stages run one after the other; the first that raises ends the chain. */
  function Chain(xs: seq<ProductData>, cs: seq<Cond>): (r: Result<seq<ProductData>, string>)
    decreases |cs|
  {
    if cs == [] then Ok(xs)
    else
      var s := Stage(xs, cs[0]);
      if s.Err? then s else Chain(s.value, cs[1..])
  }

  /** `_apply_filters`: the stages in order, then `[:max_results]` when that is not `None`. */
  function ApplyFilters(xs: seq<ProductData>, f: Filters): Result<seq<ProductData>, string> {
    var kept := Chain(xs, Conds(f));
    if kept.Err? then kept
    else if Get(f.maxResults).Some? then Ok(PyTake(kept.value, Get(f.maxResults).value))
    else kept
  }

  /** Every condition of a list holds. */
  predicate HoldsAll(cs: seq<Cond>, d: ProductData) {
    forall i :: 0 <= i < |cs| ==> Holds(cs[i], d)
  }

  /** Every condition the filters impose, with an absent price or rating read as 0. */
  predicate Passes(f: Filters, d: ProductData) {
    (Get(f.minPrice).Some? ==> KeyValue(PriceOf, d).Some? && KeyValue(PriceOf, d).value >= Get(f.minPrice).value)
    && (Get(f.maxPrice).Some? ==> KeyValue(PriceOf, d).Some? && KeyValue(PriceOf, d).value <= Get(f.maxPrice).value)
    && (Get(f.minRating).Some? ==> KeyValue(RatingOf, d).Some? && KeyValue(RatingOf, d).value >= Get(f.minRating).value)
    && (f.freeShippingOnly == Given(true) ==> d.freeShipping == Given(true))
  }

  /** The condition list means the same as the filter set. */
  lemma CondsMeaning(f: Filters, d: ProductData)
    ensures HoldsAll(Conds(f), d) <==> Passes(f, d)
  {
    var cs := Conds(f);
    var c1 := if Get(f.minPrice).Some? then [AtLeast(PriceOf, Get(f.minPrice).value)] else [];
    var c2 := if Get(f.maxPrice).Some? then [AtMost(PriceOf, Get(f.maxPrice).value)] else [];
    var c3 := if Get(f.minRating).Some? then [AtLeast(RatingOf, Get(f.minRating).value)] else [];
    var c4 := if f.freeShippingOnly == Given(true) then [FreeShippingOnly] else [];
    assert cs == c1 + c2 + c3 + c4;
    forall c | c in cs ensures c in c1 || c in c2 || c in c3 || c in c4 {
    }
    if Passes(f, d) {
      forall i | 0 <= i < |cs| ensures Holds(cs[i], d) {
        assert cs[i] in cs;
      }
    }
    if HoldsAll(cs, d) {
      if Get(f.minPrice).Some? { assert cs[0] == c1[0]; }
      if Get(f.maxPrice).Some? { assert cs[|c1|] == c2[0]; }
      if Get(f.minRating).Some? { assert cs[|c1| + |c2|] == c3[0]; }
      if f.freeShippingOnly == Given(true) { assert cs[|c1| + |c2| + |c3|] == c4[0]; }
    }
  }

  /**
   * The chain keeps the order of its list and keeps exactly the products that meet every
   * condition.
   */
  lemma {:induction false} ChainSound(xs: seq<ProductData>, cs: seq<Cond>, d: ProductData)
    requires Chain(xs, cs).Ok?
    ensures Subseq(Chain(xs, cs).value, xs)
    ensures d in Chain(xs, cs).value <==> d in xs && HoldsAll(cs, d)
    decreases |cs|
  {
    if cs == [] {
      SubseqRefl(xs);
    } else {
      var s := Keep(xs, cs[0]);
      ChainSound(s, cs[1..], d);
      KeepSubseq(xs, cs[0]);
      SubseqTrans(Chain(xs, cs).value, s, xs);
      KeepMembers(xs, cs[0], d);
      assert HoldsAll(cs, d) <==> Holds(cs[0], d) && HoldsAll(cs[1..], d) by {
        if Holds(cs[0], d) && HoldsAll(cs[1..], d) {
          forall i | 0 <= i < |cs| ensures Holds(cs[i], d) {
            if i > 0 { assert cs[i] == cs[1..][i - 1]; }
          }
        }
        if HoldsAll(cs, d) {
          forall i | 0 <= i < |cs[1..]| ensures Holds(cs[1..][i], d) {
            assert cs[1..][i] == cs[i + 1];
          }
        }
      }
    }
  }

  /**
   * What `_apply_filters` promises: an order-preserving subsequence of its input whose every
   * item passes every filter, no longer than `max_results` when that is a non-negative number,
   * and, when `max_results` is `None` or absent, missing nothing that passes. Exactly: the
   * passing products, cut to their first `max_results` only after every filter has run.
   */
  lemma ApplyFiltersSound(xs: seq<ProductData>, f: Filters, d: ProductData)
    requires ApplyFilters(xs, f).Ok?
    ensures Subseq(ApplyFilters(xs, f).value, xs)
    ensures d in ApplyFilters(xs, f).value ==> Passes(f, d)
    ensures Get(f.maxResults).Some? && Get(f.maxResults).value >= 0 ==> |ApplyFilters(xs, f).value| <= Get(f.maxResults).value
    ensures Get(f.maxResults).None? ==> (d in ApplyFilters(xs, f).value <==> d in xs && Passes(f, d))
    ensures Get(f.maxResults).None? ==> ApplyFilters(xs, f).value == Passing(xs, f)
    ensures Get(f.maxResults).Some? ==> ApplyFilters(xs, f).value == PyTake(Passing(xs, f), Get(f.maxResults).value)
    ensures Get(f.maxResults).Some? && Get(f.maxResults).value >= 0 ==>
      ApplyFilters(xs, f).value == Passing(xs, f)[..if Get(f.maxResults).value <= |Passing(xs, f)| then Get(f.maxResults).value else |Passing(xs, f)|]
  {
    ChainKeepsAll(xs, Conds(f));
    KeepAllConds(xs, f);
    var kept := Chain(xs, Conds(f)).value;
    ChainSound(xs, Conds(f), d);
    CondsMeaning(f, d);
    if Get(f.maxResults).Some? {
      var n := PyCut(|kept|, Get(f.maxResults).value);
      PrefixSubseq(kept, n);
      SubseqTrans(kept[..n], kept, xs);
    }
  }

  /** The products that meet every condition of a list, in order. */
  function KeepAll(xs: seq<ProductData>, cs: seq<Cond>): (r: seq<ProductData>)
    ensures |r| <= |xs|
  {
    if xs == [] then [] else (if HoldsAll(cs, xs[0]) then [xs[0]] else []) + KeepAll(xs[1..], cs)
  }

  /** The products that pass every filter, in their order: what the comprehensions leave. */
  function Passing(xs: seq<ProductData>, f: Filters): (r: seq<ProductData>)
    ensures |r| <= |xs|
  {
    if xs == [] then [] else (if Passes(f, xs[0]) then [xs[0]] else []) + Passing(xs[1..], f)
  }

  /** The passing products form an order-preserving subsequence holding exactly the passing items. */
  lemma {:induction false} PassingMeaning(xs: seq<ProductData>, f: Filters, d: ProductData)
    ensures Subseq(Passing(xs, f), xs)
    ensures d in Passing(xs, f) <==> d in xs && Passes(f, d)
    decreases |xs|
  {
    if xs != [] {
      PassingMeaning(xs[1..], f, d);
      var rest := Passing(xs[1..], f);
      assert xs == [xs[0]] + xs[1..];
      if Passes(f, xs[0]) {
        assert Passing(xs, f) == [xs[0]] + rest;
        assert ([xs[0]] + rest)[1..] == rest;
      } else {
        assert Passing(xs, f) == rest;
      }
    }
  }

  lemma HoldsAllCons(c: Cond, cs: seq<Cond>, d: ProductData)
    ensures HoldsAll([c] + cs, d) <==> Holds(c, d) && HoldsAll(cs, d)
  {
    var all := [c] + cs;
    if Holds(c, d) && HoldsAll(cs, d) {
      forall i | 0 <= i < |all| ensures Holds(all[i], d) {
        if i > 0 { assert all[i] == cs[i - 1]; }
      }
    }
    if HoldsAll(all, d) {
      assert Holds(all[0], d);
      forall i | 0 <= i < |cs| ensures Holds(cs[i], d) {
        assert cs[i] == all[i + 1];
      }
    }
  }

  /** Running one stage and then the rest keeps what running them together keeps. */
  lemma {:induction false} KeepThenKeepAll(xs: seq<ProductData>, c: Cond, cs: seq<Cond>)
    ensures KeepAll(Keep(xs, c), cs) == KeepAll(xs, [c] + cs)
    decreases |xs|
  {
    if xs != [] {
      KeepThenKeepAll(xs[1..], c, cs);
      HoldsAllCons(c, cs, xs[0]);
      if Holds(c, xs[0]) {
        assert Keep(xs, c) == [xs[0]] + Keep(xs[1..], c);
        assert ([xs[0]] + Keep(xs[1..], c))[1..] == Keep(xs[1..], c);
      } else {
        assert Keep(xs, c) == Keep(xs[1..], c);
      }
    }
  }

  lemma {:induction false} KeepAllNone(xs: seq<ProductData>)
    ensures KeepAll(xs, []) == xs
    decreases |xs|
  {
    if xs != [] {
      KeepAllNone(xs[1..]);
      assert HoldsAll([], xs[0]);
    }
  }

  /** A chain that raises nowhere keeps exactly the products that meet all its conditions. */
  lemma {:induction false} ChainKeepsAll(xs: seq<ProductData>, cs: seq<Cond>)
    requires Chain(xs, cs).Ok?
    ensures Chain(xs, cs).value == KeepAll(xs, cs)
    decreases |cs|
  {
    if cs == [] {
      KeepAllNone(xs);
    } else {
      ChainKeepsAll(Keep(xs, cs[0]), cs[1..]);
      KeepThenKeepAll(xs, cs[0], cs[1..]);
      assert [cs[0]] + cs[1..] == cs;
    }
  }

  lemma {:induction false} KeepAllConds(xs: seq<ProductData>, f: Filters)
    ensures KeepAll(xs, Conds(f)) == Passing(xs, f)
    decreases |xs|
  {
    if xs != [] {
      KeepAllConds(xs[1..], f);
      CondsMeaning(f, xs[0]);
    }
  }

  /** The chain raises exactly when a stage it reaches finds a product it cannot compare. */
  lemma {:induction false} ChainTotal(xs: seq<ProductData>, cs: seq<Cond>)
    requires forall i :: 0 <= i < |xs| ==> !xs[i].price.Null? && !xs[i].rating.Null?
    ensures Chain(xs, cs).Ok?
    decreases |cs|
  {
    if cs != [] {
      var s := Keep(xs, cs[0]);
      forall i | 0 <= i < |s| ensures !s[i].price.Null? && !s[i].rating.Null? {
        KeepMembers(xs, cs[0], s[i]);
      }
      ChainTotal(s, cs[1..]);
    }
  }

  /** Only a `None` price or rating can make the chain raise. */
  lemma ApplyFiltersTotal(xs: seq<ProductData>, f: Filters)
    requires forall i :: 0 <= i < |xs| ==> !xs[i].price.Null? && !xs[i].rating.Null?
    ensures ApplyFilters(xs, f).Ok?
  {
    ChainTotal(xs, Conds(f));
  }

  /** A product with a `None` price makes a price filter raise TypeError. */
  lemma ApplyFiltersNullPrice(xs: seq<ProductData>, f: Filters, i: nat)
    requires i < |xs| && xs[i].price.Null? && Get(f.minPrice).Some?
    ensures ApplyFilters(xs, f).Err?
  {
    assert Conds(f)[0] == AtLeast(PriceOf, Get(f.minPrice).value);
    assert !Comparable(Conds(f)[0], xs[i]);
  }

  /** The test list: prices 50/150/100 with ratings 4.5/3.0/4.8. */
  function Listing(title: string, price: real, rating: real): ProductData {
    EmptyData.(title := Given(title), price := Given(price), rating := Given(rating))
  }

  /** The `_apply_filters` test: `max_price=100` keeps the first and third of the three products. */
  lemma ApplyFiltersMaxPriceCase()
    ensures var xs := [Listing("Produto 1", 50.0, 4.5), Listing("Produto 2", 150.0, 3.0), Listing("Produto 3", 100.0, 4.8)];
      ApplyFilters(xs, NoFilters.(maxPrice := Given(100.0))) == Ok([xs[0], xs[2]])
  {
    var xs := [Listing("Produto 1", 50.0, 4.5), Listing("Produto 2", 150.0, 3.0), Listing("Produto 3", 100.0, 4.8)];
    var f := NoFilters.(maxPrice := Given(100.0));
    assert Conds(f) == [AtMost(PriceOf, 100.0)];
    assert xs[1..][1..][1..] == [];
    assert Keep(xs, AtMost(PriceOf, 100.0)) == [xs[0], xs[2]];
  }

  /** `[:max_results]` runs after the filters: a cut of one keeps the first product that passes. */
  lemma ApplyFiltersCutsLast()
    ensures var xs := [Listing("Caro", 150.0, 4.0), Listing("Barato", 50.0, 4.0)];
      ApplyFilters(xs, NoFilters.(maxPrice := Given(100.0), maxResults := Given(1))) == Ok([xs[1]])
  {
    var xs := [Listing("Caro", 150.0, 4.0), Listing("Barato", 50.0, 4.0)];
    var f := NoFilters.(maxPrice := Given(100.0), maxResults := Given(1));
    assert Conds(f) == [AtMost(PriceOf, 100.0)];
    assert xs[1..][1..] == [];
    assert Keep(xs, AtMost(PriceOf, 100.0)) == [xs[1]];
    assert Chain(xs, Conds(f)) == Ok([xs[1]]);
    assert PyTake([xs[1]], 1) == [xs[1]];
  }

  // ---------------------------------------------------------------------------
  // Selection rules of the adapters
  // ---------------------------------------------------------------------------

  /** `_extract_text` of a selector: the cleaned text of the first match, "" when nothing matched. */
  function ExtractText(matched: Option<string>): string {
    if matched.Some? then CleanText(matched.value) else ""
  }

  /** `_extract_price` of a selector: format_price of the first match, 0.0 when nothing matched. */
  function ExtractPrice(matched: Option<string>): (r: real)
    ensures r >= 0.0
  {
    if matched.Some? then FormatPrice(matched.value) else 0.0
  }

  /** A loop over selectors that stops at the first non-empty text. */
  function FirstNonEmpty(cands: seq<string>): (r: string)
    ensures r != "" <==> exists i :: 0 <= i < |cands| && cands[i] != ""
    ensures r != "" ==> exists i :: 0 <= i < |cands| && cands[i] == r && forall j :: 0 <= j < i ==> cands[j] == ""
  {
    if cands == [] then ""
    else if cands[0] != "" then cands[0]
    else
      var r := FirstNonEmpty(cands[1..]);
      assert r != "" ==> exists i :: 1 <= i < |cands| && cands[i] == r && forall j :: 0 <= j < i ==> cands[j] == "" by {
        if r != "" {
          var k :| 0 <= k < |cands[1..]| && cands[1..][k] == r && forall j :: 0 <= j < k ==> cands[1..][j] == "";
          assert cands[k + 1] == r;
        }
      }
      r
  }

  /**
   * What the URL loop yields for those candidates: it raises (`None`) exactly when a selector
   * matched nothing before any link was found; otherwise it yields the first non-empty `href`,
   * or "" when every selector matched an element without one.
   */
  predicate UrlOutcome(cands: seq<Option<string>>, r: Option<string>) {
    && (r.None? <==> exists i :: 0 <= i < |cands| && cands[i].None? && forall j :: 0 <= j < i ==> cands[j] == Some(""))
    && (r.Some? && r.value != "" ==> exists i :: 0 <= i < |cands| && cands[i] == r && forall j :: 0 <= j < i ==> cands[j] == Some(""))
    && (r == Some("") <==> forall i :: 0 <= i < |cands| ==> cands[i] == Some(""))
  }

  /** A leading matched element without an `href` does not change the outcome of the rest. */
  lemma UrlOutcomeStep(cands: seq<Option<string>>, r: Option<string>)
    requires cands != [] && cands[0] == Some("")
    requires UrlOutcome(cands[1..], r)
    ensures UrlOutcome(cands, r)
  {
    assert forall i :: 1 <= i < |cands| ==> cands[1..][i - 1] == cands[i];
    if r.None? {
      var k :| 0 <= k < |cands[1..]| && cands[1..][k].None? && forall j :: 0 <= j < k ==> cands[1..][j] == Some("");
      assert cands[k + 1].None?;
    }
    if r.Some? && r.value != "" {
      var k :| 0 <= k < |cands[1..]| && cands[1..][k] == r && forall j :: 0 <= j < k ==> cands[1..][j] == Some("");
      assert cands[k + 1] == r;
    }
  }

  /**
   * `_extract_url`'s selector loop as written. Each candidate is what one selector matched: `None`
   * when it matched nothing, else the element's `href` ("" when it has none). A selector that
   * matched nothing leaves `url` unassigned, so reading it raises `UnboundLocalError`.
   * `_extract_url` does not catch that, so the loop raises (`None` here). Otherwise the result
   * is the first non-empty `href`, or "" when every selector matched an element without one.
   */
  function UrlLoop(cands: seq<Option<string>>): (r: Option<string>)
    ensures UrlOutcome(cands, r)
  {
    if cands == [] then Some("")
    else if cands[0].None? then None
    else if cands[0].value != "" then cands[0]
    else
      var r := UrlLoop(cands[1..]);
      UrlOutcomeStep(cands, r);
      r
  }

  /**
   * The URL loop as evidently intended: a selector that matched nothing falls through to the
   * next one, so the result is the first non-empty `href` of a matched element, else "".
   */
  function IntendedUrl(cands: seq<Option<string>>): (u: string)
    ensures u != "" <==> exists i :: 0 <= i < |cands| && cands[i].Some? && cands[i].value != ""
    ensures u != "" ==> exists i :: 0 <= i < |cands| && cands[i] == Some(u) && forall j :: 0 <= j < i ==> cands[j].None? || cands[j] == Some("")
  {
    if cands == [] then ""
    else if cands[0].Some? && cands[0].value != "" then cands[0].value
    else
      var u := IntendedUrl(cands[1..]);
      assert u != "" ==> exists i :: 1 <= i < |cands| && cands[i] == Some(u) && forall j :: 0 <= j < i ==> cands[j].None? || cands[j] == Some("") by {
        if u != "" {
          var k :| 0 <= k < |cands[1..]| && cands[1..][k] == Some(u) && forall j :: 0 <= j < k ==> cands[1..][j].None? || cands[1..][j] == Some("");
          assert cands[k + 1] == Some(u);
        }
      }
      assert (exists i :: 1 <= i < |cands| && cands[i].Some? && cands[i].value != "") ==> u != "" by {
        if exists i :: 1 <= i < |cands| && cands[i].Some? && cands[i].value != "" {
          var i :| 1 <= i < |cands| && cands[i].Some? && cands[i].value != "";
          assert cands[1..][i - 1] == cands[i];
        }
      }
      u
  }

  /** Whenever the loop as written does not raise, it settles on the intended URL. */
  lemma {:induction false} UrlLoopAgrees(cands: seq<Option<string>>)
    requires UrlLoop(cands).Some?
    ensures UrlLoop(cands).value == IntendedUrl(cands)
  {
    if cands != [] && cands[0] == Some("") {
      UrlLoopAgrees(cands[1..]);
    }
  }

  /**
   * The loop as written rejects an element whose first URL selector matched nothing even when
   * a later one finds a link; the intended loop would use that link.
   */
  lemma UrlLoopRaisesOnMiss()
    ensures UrlLoop([None, Some("/dp/B0")]).None?
    ensures IntendedUrl([None, Some("/dp/B0")]) == "/dp/B0"
  {
    assert [None, Some("/dp/B0")][1..] == [Some("/dp/B0")];
  }

  /** A loop over selectors that stops at the first value above zero, 0 when there is none. */
  function FirstPositive(cands: seq<real>): (r: real)
    requires forall i :: 0 <= i < |cands| ==> cands[i] >= 0.0
    ensures r >= 0.0
    ensures r > 0.0 <==> exists i :: 0 <= i < |cands| && cands[i] > 0.0
    ensures r > 0.0 ==> exists i :: 0 <= i < |cands| && cands[i] == r && forall j :: 0 <= j < i ==> cands[j] == 0.0
  {
    if cands == [] then 0.0
    else if cands[0] > 0.0 then cands[0]
    else
      var r := FirstPositive(cands[1..]);
      assert r > 0.0 ==> exists i :: 1 <= i < |cands| && cands[i] == r && forall j :: 0 <= j < i ==> cands[j] == 0.0 by {
        if r > 0.0 {
          var k :| 0 <= k < |cands[1..]| && cands[1..][k] == r && forall j :: 0 <= j < k ==> cands[1..][j] == 0.0;
          assert cands[k + 1] == r;
        }
      }
      r
  }

  /** The same rule over counts. */
  function FirstPositiveCount(cands: seq<nat>): (r: nat)
    ensures r > 0 <==> exists i :: 0 <= i < |cands| && cands[i] > 0
    ensures r > 0 ==> exists i :: 0 <= i < |cands| && cands[i] == r && forall j :: 0 <= j < i ==> cands[j] == 0
  {
    if cands == [] then 0
    else if cands[0] > 0 then cands[0]
    else
      var r := FirstPositiveCount(cands[1..]);
      assert r > 0 ==> exists i :: 1 <= i < |cands| && cands[i] == r && forall j :: 0 <= j < i ==> cands[j] == 0 by {
        if r > 0 {
          var k :| 0 <= k < |cands[1..]| && cands[1..][k] == r && forall j :: 0 <= j < k ==> cands[1..][j] == 0;
          assert cands[k + 1] == r;
        }
      }
      r
  }

  /** The prices a list of optional selector matches yields, in selector order. */
  function ExtractPrices(matched: seq<Option<string>>): (r: seq<real>)
    ensures |r| == |matched|
    ensures forall i :: 0 <= i < |r| ==> r[i] == ExtractPrice(matched[i]) && r[i] >= 0.0
  {
    if matched == [] then [] else [ExtractPrice(matched[0])] + ExtractPrices(matched[1..])
  }

  /** The texts a list of optional selector matches yields, in selector order. */
  function ExtractTexts(matched: seq<Option<string>>): (r: seq<string>)
    ensures |r| == |matched|
    ensures forall i :: 0 <= i < |r| ==> r[i] == ExtractText(matched[i])
  {
    if matched == [] then [] else [ExtractText(matched[0])] + ExtractTexts(matched[1..])
  }

  /** The ratings of the rating selectors: extract_rating of each non-empty text, else 0. */
  function RatingCandidates(texts: seq<string>): (r: seq<real>)
    ensures |r| == |texts|
    ensures forall i :: 0 <= i < |r| ==> r[i] == (if texts[i] != "" then ExtractRating(texts[i]) else 0.0) && 0.0 <= r[i] <= 5.0
  {
    if texts == [] then [] else [if texts[0] != "" then ExtractRating(texts[0]) else 0.0] + RatingCandidates(texts[1..])
  }

  /** A selector loop that stops at the first text: the cleaned text of the first selector yielding any, else "". */
  function FirstText(matched: seq<Option<string>>): (t: string)
    ensures t != "" <==> exists i :: 0 <= i < |matched| && ExtractText(matched[i]) != ""
    ensures t != "" ==> exists i :: 0 <= i < |matched| && ExtractText(matched[i]) == t
                                     && forall j :: 0 <= j < i ==> ExtractText(matched[j]) == ""
  {
    var texts := ExtractTexts(matched);
    assert forall i :: 0 <= i < |matched| ==> texts[i] == ExtractText(matched[i]);
    FirstNonEmpty(texts)
  }

  /** A selector loop that stops at the first price above zero, else 0. */
  function FirstPrice(matched: seq<Option<string>>): (p: real)
    ensures p >= 0.0
    ensures p > 0.0 <==> exists i :: 0 <= i < |matched| && ExtractPrice(matched[i]) > 0.0
    ensures p > 0.0 ==> exists i :: 0 <= i < |matched| && ExtractPrice(matched[i]) == p
                                   && forall j :: 0 <= j < i ==> ExtractPrice(matched[j]) == 0.0
  {
    var prices := ExtractPrices(matched);
    assert forall i :: 0 <= i < |matched| ==> prices[i] == ExtractPrice(matched[i]);
    FirstPositive(prices)
  }

  /** What a rating selector yields: extract_rating of its non-empty text, else 0. */
  function SelectorRating(matched: Option<string>): real {
    if ExtractText(matched) != "" then ExtractRating(ExtractText(matched)) else 0.0
  }

  /** A rating loop: the first non-empty rating text whose extract_rating is above zero, else 0. */
  function FirstRating(matched: seq<Option<string>>): (r: real)
    ensures 0.0 <= r <= 5.0
    ensures r > 0.0 <==> exists i :: 0 <= i < |matched| && ExtractText(matched[i]) != "" && ExtractRating(ExtractText(matched[i])) > 0.0
    ensures r > 0.0 ==> exists i :: 0 <= i < |matched| && r == SelectorRating(matched[i]) && forall j :: 0 <= j < i ==> SelectorRating(matched[j]) == 0.0
  {
    var cands := RatingCandidates(ExtractTexts(matched));
    assert forall i :: 0 <= i < |matched| ==> cands[i] == SelectorRating(matched[i]);
    FirstPositiveOf(matched, cands, SelectorRating);
    FirstPositive(cands)
  }

  /** The first-positive rule read back through what each selector yields. */
  lemma FirstPositiveOf<T>(xs: seq<T>, cands: seq<real>, val: T -> real)
    requires |cands| == |xs| && forall i :: 0 <= i < |xs| ==> cands[i] == val(xs[i]) && cands[i] >= 0.0
    ensures FirstPositive(cands) > 0.0 ==> exists i :: 0 <= i < |xs| && FirstPositive(cands) == val(xs[i]) && forall j :: 0 <= j < i ==> val(xs[j]) == 0.0
  {
    var r := FirstPositive(cands);
    if r > 0.0 {
      var i :| 0 <= i < |cands| && cands[i] == r && forall j :: 0 <= j < i ==> cands[j] == 0.0;
      assert forall j :: 0 <= j < i ==> val(xs[j]) == cands[j];
    }
  }

  /** The same read-back over counts. */
  lemma FirstPositiveCountOf<T>(xs: seq<T>, cands: seq<nat>, val: T -> nat)
    requires |cands| == |xs| && forall i :: 0 <= i < |xs| ==> cands[i] == val(xs[i])
    ensures FirstPositiveCount(cands) > 0 ==> exists i :: 0 <= i < |xs| && FirstPositiveCount(cands) == val(xs[i]) && forall j :: 0 <= j < i ==> val(xs[j]) == 0
  {
    var r := FirstPositiveCount(cands);
    if r > 0 {
      var i :| 0 <= i < |cands| && cands[i] == r && forall j :: 0 <= j < i ==> cands[j] == 0;
      assert forall j :: 0 <= j < i ==> val(xs[j]) == cands[j];
    }
  }
}
