/**
 * Priced lots (`Stock`) and slices of them, from pkg/accounting/cost_distribution.go.
 *
 * Quantities and prices are integers counted in units of 1e-8, and every input
 * is taken to be on that grid. `round` rounds to 8 decimals, so on this grid it
 * is the identity and `zero(a)` is `a == 0`.
 */
module Lots {

  /**
   * The fields of a trade that the inventory reads. `Stock` is the same record
   * (the source declares `type Stock types.Trade`).
   */
  datatype Trade = Trade(
    symbol: string,
    price: int,
    quantity: int,
    fee: int,
    feeCurrency: string,
    isBuyer: bool)

  type Stock = Trade

  function Min(a: int, b: int): int { if a <= b then a else b }

  /**
   * `Stock.Consume`: take up to `q` from the lot. Returns the lot afterwards and
   * the amount taken.
   */
  function Consume(lot: Stock, q: int): (r: (Stock, int))
    ensures r.1 <= lot.quantity && r.1 <= q
    ensures r.1 == lot.quantity || r.1 == q
    ensures r.0 == lot.(quantity := lot.quantity - r.1)
    ensures r.0.quantity >= 0
    ensures r.0.quantity == 0 || r.1 == q
  {
    var taken := Min(lot.quantity, q);
    (lot.(quantity := lot.quantity - taken), taken)
  }

  /** Total quantity of a slice (`StockSlice.Quantity`). */
  function Sum(lots: seq<Stock>): int
  {
    if lots == [] then 0 else Sum(lots[..|lots| - 1]) + lots[|lots| - 1].quantity
  }

  /** Total quantity of the lots priced strictly below `price`. */
  function SumBelow(lots: seq<Stock>, price: int): int
  {
    if lots == [] then 0
    else
      var last := lots[|lots| - 1];
      SumBelow(lots[..|lots| - 1], price) + (if last.price < price then last.quantity else 0)
  }

  /** Total quantity of the lots priced at or above `price`. */
  function SumAtOrAbove(lots: seq<Stock>, price: int): int
  {
    if lots == [] then 0
    else
      var last := lots[|lots| - 1];
      SumAtOrAbove(lots[..|lots| - 1], price) + (if last.price >= price then last.quantity else 0)
  }

  predicate NonNegative(lots: seq<Stock>)
  {
    forall i :: 0 <= i < |lots| ==> lots[i].quantity >= 0
  }

  /** `StockSlice.QuantityBelowPrice`: the loop over the slice. */
  method QuantityBelowPrice(slice: seq<Stock>, price: int) returns (quantity: int)
    ensures quantity == SumBelow(slice, price)
    ensures NonNegative(slice) ==> 0 <= quantity <= Sum(slice)
  {
    quantity := 0;
    for i := 0 to |slice|
      invariant quantity == SumBelow(slice[..i], price)
    {
      assert slice[..i + 1][..i] == slice[..i];
      if slice[i].price < price {
        quantity := quantity + slice[i].quantity;
      }
    }
    assert slice[..|slice|] == slice;
    if NonNegative(slice) {
      BelowAtMostTotal(slice, price);
    }
  }

  /** `StockSlice.Quantity`: the loop over the slice. */
  method Quantity(slice: seq<Stock>) returns (total: int)
    ensures total == Sum(slice)
    ensures NonNegative(slice) ==> total >= 0
  {
    total := 0;
    for i := 0 to |slice|
      invariant total == Sum(slice[..i])
    {
      assert slice[..i + 1][..i] == slice[..i];
      total := total + slice[i].quantity;
    }
    assert slice[..|slice|] == slice;
    if NonNegative(slice) {
      SumNonNegative(slice);
    }
  }

  /** The quantity below a price and the quantity at or above it make up the total. */
  lemma {:induction false} BelowPlusAboveIsTotal(lots: seq<Stock>, price: int)
    ensures SumBelow(lots, price) + SumAtOrAbove(lots, price) == Sum(lots)
  {
    if lots != [] {
      BelowPlusAboveIsTotal(lots[..|lots| - 1], price);
    }
  }

  lemma {:induction false} SumNonNegative(lots: seq<Stock>)
    requires NonNegative(lots)
    ensures Sum(lots) >= 0
  {
    if lots != [] {
      SumNonNegative(lots[..|lots| - 1]);
    }
  }

  lemma {:induction false} AboveNonNegative(lots: seq<Stock>, price: int)
    requires NonNegative(lots)
    ensures SumAtOrAbove(lots, price) >= 0 && SumBelow(lots, price) >= 0
  {
    if lots != [] {
      AboveNonNegative(lots[..|lots| - 1], price);
    }
  }

  /** With no negative lot, the quantity below any price is at most the total. */
  lemma BelowAtMostTotal(lots: seq<Stock>, price: int)
    requires NonNegative(lots)
    ensures 0 <= SumBelow(lots, price) <= Sum(lots)
  {
    BelowPlusAboveIsTotal(lots, price);
    AboveNonNegative(lots, price);
  }

  lemma {:induction false} SumAppend(a: seq<Stock>, b: seq<Stock>)
    ensures Sum(a + b) == Sum(a) + Sum(b)
  {
    if b == [] {
      assert a + b == a;
    } else {
      assert (a + b)[..|a + b| - 1] == a + b[..|b| - 1];
      SumAppend(a, b[..|b| - 1]);
    }
  }

  /** Replacing one lot changes the total by the difference of the two quantities. */
  lemma {:induction false} SumUpdate(lots: seq<Stock>, k: nat, lot: Stock)
    requires k < |lots|
    ensures Sum(lots[k := lot]) == Sum(lots) - lots[k].quantity + lot.quantity
  {
    var n := |lots|;
    if k == n - 1 {
      assert lots[k := lot][..n - 1] == lots[..n - 1];
    } else {
      assert lots[k := lot][..n - 1] == lots[..n - 1][k := lot];
      SumUpdate(lots[..n - 1], k, lot);
    }
  }
}
