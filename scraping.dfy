/**
 * Pieces the three site adapters share: query-parameter values, what a page request returns
 * before parsing, the choice among alternative page layouts, Python's `int()` on a float,
 * and the "kept only if greater" rule for an original price.
 */
module Scraping {
  import opened Wrappers
  import opened Text

  /** A query-parameter value before `requests` renders it: a string, an int or a float. */
  datatype ParamValue = PStr(s: string) | PInt(i: int) | PReal(r: real)

  /** What requesting one result page ends in, before parsing: the elements each layout selector matched. */
  datatype RawPage<E> = Html(layouts: seq<seq<E>>) | NoResponse | Failed(error: string)

  /** The elements of the first layout selector that matched anything; none when none did. */
  function FirstLayout<E>(layouts: seq<seq<E>>): (r: seq<E>)
    ensures r != [] <==> exists i :: 0 <= i < |layouts| && layouts[i] != []
    ensures r != [] ==> exists i :: 0 <= i < |layouts| && layouts[i] == r && forall j :: 0 <= j < i ==> layouts[j] == []
  {
    if layouts == [] then []
    else if layouts[0] != [] then layouts[0]
    else
      var r := FirstLayout(layouts[1..]);
      assert r != [] ==> exists i :: 1 <= i < |layouts| && layouts[i] == r && forall j :: 0 <= j < i ==> layouts[j] == [] by {
        if r != [] {
          var k :| 0 <= k < |layouts[1..]| && layouts[1..][k] == r && forall j :: 0 <= j < k ==> layouts[1..][j] == [];
          assert layouts[k + 1] == r;
        }
      }
      r
  }

  /** Python's `int(x)` on a float: truncation toward zero. */
  function TruncToInt(x: real): (r: int)
    ensures x >= 0.0 ==> r as real <= x < r as real + 1.0
    ensures x < 0.0 ==> r as real - 1.0 < x <= r as real
  {
    if x >= 0.0 then x.Floor else -((-x).Floor)
  }

  /** `str(i)` for any integer. */
  function IntToString(i: int): (r: string)
    ensures i >= 0 ==> r == NatToString(i)
    ensures i < 0 ==> r == "-" + NatToString(-i)
  {
    if i >= 0 then NatToString(i) else "-" + NatToString(-i)
  }

  /** `original_price if original_price > price else None`. */
  function OriginalPriceEntry(original: real, price: real): (e: Entry<real>)
    ensures e.Given? <==> original > price
    ensures e.Given? ==> e.value == original
    ensures !e.Given? ==> e.Null?
  {
    if original > price then Given(original) else Null
  }
}
