/**
 * The price-change report of `get_price_changes` (database/database.py) over the history
 * table: for each recent row, the latest strictly earlier row of the same product, reported
 * when the two prices differ by more than a cent and the product still exists.
 */
module PriceQueries {
  import opened Wrappers
  import opened Models
  import opened Seqs
  import opened ProductStore

  /** The rows recorded at or after the cutoff, in table order. */
  function RecentHistory(h: seq<PriceHistory>, cutoff: int): (r: seq<PriceHistory>)
    ensures forall x :: x in r ==> x in h && x.recordedAt >= cutoff
  {
    Filter(h, (x: PriceHistory) => x.recordedAt >= cutoff)
  }

  /** No row at or after the cutoff is left out. */
  lemma RecentHistoryMembers(h: seq<PriceHistory>, cutoff: int, x: PriceHistory)
    ensures x in RecentHistory(h, cutoff) <==> x in h && x.recordedAt >= cutoff
  {
    if x in h && x.recordedAt >= cutoff {
      FilterComplete(h, (y: PriceHistory) => y.recordedAt >= cutoff, x);
    }
  }

  /** A row of product `pid` recorded strictly before `t`. */
  predicate Earlier(x: PriceHistory, pid: int, t: int) {
    x.productId == pid && x.recordedAt < t
  }

  /**
   * The `previous` query: the latest row of the product strictly before `t`; among rows with
   * that timestamp, the first in table order.
   */
  function Previous(h: seq<PriceHistory>, pid: int, t: int): (r: Option<PriceHistory>)
    ensures r.Some? ==> r.value in h && Earlier(r.value, pid, t)
    ensures r.Some? ==> forall x :: x in h && Earlier(x, pid, t) ==> x.recordedAt <= r.value.recordedAt
    ensures r.None? <==> forall x :: x in h ==> !Earlier(x, pid, t)
  {
    if h == [] then None
    else
      var rest := Previous(h[1..], pid, t);
      assert forall x :: x in h ==> x == h[0] || x in h[1..];
      if Earlier(h[0], pid, t) && (rest.None? || rest.value.recordedAt <= h[0].recordedAt) then Some(h[0]) else rest
  }

  /** `.first()` of the product query: the first row with that id. */
  function ProductById(ps: seq<Product>, id: int): (r: Option<Product>)
    ensures r.Some? ==> r.value in ps && r.value.id == id
    ensures r.None? <==> forall p :: p in ps ==> p.id != id
  {
    if ps == [] then None
    else if ps[0].id == id then Some(ps[0])
    else
      assert forall p :: p in ps ==> p == ps[0] || p in ps[1..];
      ProductById(ps[1..], id)
  }

  /** One reported change: the product, the earlier row and the recent row. */
  datatype Change = Change(product: Product, previous: PriceHistory, current: PriceHistory)

  /** What the loop body reports for one recent row, if anything. */
  function ChangeAt(h: seq<PriceHistory>, ps: seq<Product>, c: PriceHistory): (r: Option<Change>)
    ensures r.Some? ==> r.value.current == c && Previous(h, c.productId, c.recordedAt) == Some(r.value.previous)
    ensures r.Some? ==> PriceMoved(r.value.previous.price, c.price) && ProductById(ps, c.productId) == Some(r.value.product)
    ensures r.None? <==>
      Previous(h, c.productId, c.recordedAt).None?
      || !PriceMoved(Previous(h, c.productId, c.recordedAt).value.price, c.price)
      || ProductById(ps, c.productId).None?
  {
    var previous := Previous(h, c.productId, c.recordedAt);
    if previous.Some? && PriceMoved(previous.value.price, c.price) then
      var product := ProductById(ps, c.productId);
      if product.Some? then Some(Change(product.value, previous.value, c)) else None
    else None
  }

  /** The changes of the given rows, in their order. */
  function ChangesOf(h: seq<PriceHistory>, ps: seq<Product>, rows: seq<PriceHistory>): (r: seq<Change>)
    ensures |r| <= |rows|
    ensures forall ch :: ch in r ==> ch.current in rows && ChangeAt(h, ps, ch.current) == Some(ch)
    decreases |rows|
  {
    if rows == [] then []
    else
      var last := rows[|rows| - 1];
      var rest := ChangesOf(h, ps, rows[..|rows| - 1]);
      assert forall x :: x in rows[..|rows| - 1] ==> x in rows;
      rest + (if ChangeAt(h, ps, last).Some? then [ChangeAt(h, ps, last).value] else [])
  }

  /** One more row adds its change, if it has one, at the end. */
  lemma ChangesOfStep(h: seq<PriceHistory>, ps: seq<Product>, rows: seq<PriceHistory>, i: nat)
    requires i < |rows|
    ensures ChangesOf(h, ps, rows[..i + 1])
         == ChangesOf(h, ps, rows[..i]) + (if ChangeAt(h, ps, rows[i]).Some? then [ChangeAt(h, ps, rows[i]).value] else [])
  {
    assert rows[..i + 1][..i] == rows[..i] && rows[..i + 1][i] == rows[i];
  }

  /** Every row that has a change to report is reported. */
  lemma {:induction false} ChangesOfComplete(h: seq<PriceHistory>, ps: seq<Product>, rows: seq<PriceHistory>, x: PriceHistory)
    requires x in rows && ChangeAt(h, ps, x).Some?
    ensures ChangeAt(h, ps, x).value in ChangesOf(h, ps, rows)
    decreases |rows|
  {
    var last := rows[|rows| - 1];
    if x != last {
      assert rows == rows[..|rows| - 1] + [last];
      assert x in rows[..|rows| - 1];
      ChangesOfComplete(h, ps, rows[..|rows| - 1], x);
    }
  }

  /** `get_price_changes` with `cutoff = now - hours`. */
  function PriceChanges(h: seq<PriceHistory>, ps: seq<Product>, cutoff: int): (r: seq<Change>)
    ensures |r| <= |h|
  {
    ChangesOf(h, ps, RecentHistory(h, cutoff))
  }

  /**
   * A reported change pairs a recent row with the latest strictly earlier row of the same
   * product, more than a cent apart, and with a product that has that id.
   */
  lemma PriceChangesSound(h: seq<PriceHistory>, ps: seq<Product>, cutoff: int, ch: Change)
    requires ch in PriceChanges(h, ps, cutoff)
    ensures ch.current in h && ch.current.recordedAt >= cutoff
    ensures ch.previous in h && ch.previous.productId == ch.current.productId && ch.previous.recordedAt < ch.current.recordedAt
    ensures forall x :: x in h && Earlier(x, ch.current.productId, ch.current.recordedAt) ==> x.recordedAt <= ch.previous.recordedAt
    ensures PriceMoved(ch.previous.price, ch.current.price)
    ensures ch.product in ps && ch.product.id == ch.current.productId
  {
  }

  /** Every recent row with an earlier row more than a cent away, of a product that exists, is reported. */
  lemma PriceChangesComplete(h: seq<PriceHistory>, ps: seq<Product>, cutoff: int, x: PriceHistory)
    requires x in h && x.recordedAt >= cutoff
    requires Previous(h, x.productId, x.recordedAt).Some? && PriceMoved(Previous(h, x.productId, x.recordedAt).value.price, x.price)
    requires ProductById(ps, x.productId).Some?
    ensures Change(ProductById(ps, x.productId).value, Previous(h, x.productId, x.recordedAt).value, x) in PriceChanges(h, ps, cutoff)
  {
    RecentHistoryMembers(h, cutoff, x);
    ChangesOfComplete(h, ps, RecentHistory(h, cutoff), x);
  }

  /** A product's first row is never reported: it has nothing earlier to be compared with. */
  lemma FirstRowNotReported(h: seq<PriceHistory>, ps: seq<Product>, cutoff: int, x: PriceHistory)
    requires forall y :: y in h ==> !Earlier(y, x.productId, x.recordedAt)
    ensures forall ch :: ch in PriceChanges(h, ps, cutoff) ==> ch.current != x
  {
  }
}
