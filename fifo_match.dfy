/**
 * The lot-matching policy of `StockDistribution.consume`
 * (pkg/accounting/cost_distribution.go), stated as functions on values.
 *
 * A sell is matched in two passes over the lots, newest to oldest: first
 * against the lots priced strictly below the sell price, then, if the sell
 * is not yet filled, against every lot. Lots whose quantity is zero are skipped.
 */
module FifoMatch {
  import opened Lots

  /**
   * The outcome of one pass: the lots afterwards, what is left of the sell, and
   * whether the pass stopped because the sell was filled (the early `return`).
   */
  datatype Drained = Drained(lots: seq<Stock>, sell: Stock, done: bool)

  /** Whether a pass may touch `lot`: the first pass only takes lots priced below the sell. */
  predicate Eligible(lot: Stock, sellPrice: int, belowOnly: bool)
  {
    !belowOnly || lot.price < sellPrice
  }

  /** One pass over the lots at indices i-1 down to 0 (one of the two loops of `consume`). */
  function Drain(lots: seq<Stock>, sell: Stock, i: nat, belowOnly: bool): (r: Drained)
    requires i <= |lots|
    ensures |r.lots| == |lots|
    decreases i
  {
    if i == 0 then Drained(lots, sell, false)
    else
      var k := i - 1;
      if !Eligible(lots[k], sell.price, belowOnly) || lots[k].quantity == 0 then
        Drain(lots, sell, k, belowOnly)
      else
        var (lot, delta) := Consume(lots[k], sell.quantity);
        var (rest, _) := Consume(sell, delta);
        if rest.quantity == 0 then Drained(lots[k := lot], rest, true)
        else Drain(lots[k := lot], rest, k, belowOnly)
  }

  /** Both passes of `consume`; the second runs only when the first did not fill the sell. */
  function MatchSell(lots: seq<Stock>, sell: Stock): (m: Drained)
    ensures |m.lots| == |lots|
  {
    var first := Drain(lots, sell, |lots|, true);
    if first.done then first else Drain(first.lots, first.sell, |lots|, false)
  }

  /** Same lots in the same order with the same prices; only quantities may differ. */
  predicate SameLots(before: seq<Stock>, after: seq<Stock>)
  {
    |after| == |before| &&
    forall k :: 0 <= k < |before| ==> after[k] == before[k].(quantity := after[k].quantity)
  }

  /**
   * A pass keeps every lot but its quantity, keeps the sell but its quantity,
   * and leaves alone the lots it does not visit, may not take, or finds empty.
   */
  lemma {:induction false} DrainShape(lots: seq<Stock>, sell: Stock, i: nat, belowOnly: bool)
    requires i <= |lots|
    ensures var r := Drain(lots, sell, i, belowOnly);
      && SameLots(lots, r.lots)
      && r.sell == sell.(quantity := r.sell.quantity)
      && (forall k :: i <= k < |lots| ==> r.lots[k] == lots[k])
      && (forall k :: 0 <= k < |lots| && (!Eligible(lots[k], sell.price, belowOnly) || lots[k].quantity == 0) ==>
            r.lots[k] == lots[k])
    decreases i
  {
    if i > 0 {
      var k := i - 1;
      if !Eligible(lots[k], sell.price, belowOnly) || lots[k].quantity == 0 {
        DrainShape(lots, sell, k, belowOnly);
      } else {
        var (lot, delta) := Consume(lots[k], sell.quantity);
        var (rest, _) := Consume(sell, delta);
        if rest.quantity != 0 {
          DrainShape(lots[k := lot], rest, k, belowOnly);
        }
      }
    }
  }

  /** What a pass removes from the lots is exactly what it removes from the sell. */
  lemma {:induction false} DrainConserves(lots: seq<Stock>, sell: Stock, i: nat, belowOnly: bool)
    requires i <= |lots|
    ensures var r := Drain(lots, sell, i, belowOnly);
      Sum(lots) - Sum(r.lots) == sell.quantity - r.sell.quantity
    decreases i
  {
    if i > 0 {
      var k := i - 1;
      if !Eligible(lots[k], sell.price, belowOnly) || lots[k].quantity == 0 {
        DrainConserves(lots, sell, k, belowOnly);
      } else {
        var (lot, delta) := Consume(lots[k], sell.quantity);
        var (rest, _) := Consume(sell, delta);
        SumUpdate(lots, k, lot);
        if rest.quantity != 0 {
          DrainConserves(lots[k := lot], rest, k, belowOnly);
        }
      }
    }
  }

  /**
   * A pass either fills the sell (and then nothing is left of it) or leaves
   * every lot it may take empty.
   */
  lemma {:induction false} DrainExhausts(lots: seq<Stock>, sell: Stock, i: nat, belowOnly: bool)
    requires i <= |lots|
    ensures var r := Drain(lots, sell, i, belowOnly);
      && (r.done ==> r.sell.quantity == 0)
      && (!r.done ==> forall k :: 0 <= k < i && Eligible(lots[k], sell.price, belowOnly) ==> r.lots[k].quantity == 0)
    decreases i
  {
    if i > 0 {
      var k := i - 1;
      if !Eligible(lots[k], sell.price, belowOnly) || lots[k].quantity == 0 {
        DrainExhausts(lots, sell, k, belowOnly);
        DrainShape(lots, sell, k, belowOnly);
      } else {
        var (lot, delta) := Consume(lots[k], sell.quantity);
        var (rest, _) := Consume(sell, delta);
        if rest.quantity != 0 {
          assert lot.quantity == 0;
          DrainExhausts(lots[k := lot], rest, k, belowOnly);
          DrainShape(lots[k := lot], rest, k, belowOnly);
        }
      }
    }
  }

  /** Within a pass, a lot is touched only once every newer lot it may take is empty. */
  lemma {:induction false} DrainNewestFirst(lots: seq<Stock>, sell: Stock, i: nat, belowOnly: bool)
    requires i <= |lots|
    ensures var r := Drain(lots, sell, i, belowOnly);
      forall j, m ::
        (0 <= j < m < i && Eligible(lots[j], sell.price, belowOnly) &&
         Eligible(lots[m], sell.price, belowOnly) && r.lots[j] != lots[j]) ==> r.lots[m].quantity == 0
    decreases i
  {
    if i > 0 {
      var k := i - 1;
      var r := Drain(lots, sell, i, belowOnly);
      if !Eligible(lots[k], sell.price, belowOnly) || lots[k].quantity == 0 {
        DrainNewestFirst(lots, sell, k, belowOnly);
        DrainShape(lots, sell, k, belowOnly);
      } else {
        var (lot, delta) := Consume(lots[k], sell.quantity);
        var (rest, _) := Consume(sell, delta);
        if rest.quantity != 0 {
          assert lot.quantity == 0;
          DrainNewestFirst(lots[k := lot], rest, k, belowOnly);
          DrainShape(lots[k := lot], rest, k, belowOnly);
        }
      }
    }
  }

  /**
   * With no negative lot and a non-negative sell, a pass only lowers quantities
   * and keeps every quantity, and the rest of the sell, non-negative.
   */
  lemma {:induction false} DrainBounds(lots: seq<Stock>, sell: Stock, i: nat, belowOnly: bool)
    requires i <= |lots|
    requires NonNegative(lots) && sell.quantity >= 0
    ensures var r := Drain(lots, sell, i, belowOnly);
      && NonNegative(r.lots)
      && (forall k :: 0 <= k < |lots| ==> r.lots[k].quantity <= lots[k].quantity)
      && 0 <= r.sell.quantity <= sell.quantity
    decreases i
  {
    if i > 0 {
      var k := i - 1;
      if !Eligible(lots[k], sell.price, belowOnly) || lots[k].quantity == 0 {
        DrainBounds(lots, sell, k, belowOnly);
      } else {
        var (lot, delta) := Consume(lots[k], sell.quantity);
        var (rest, _) := Consume(sell, delta);
        if rest.quantity != 0 {
          DrainBounds(lots[k := lot], rest, k, belowOnly);
        }
      }
    }
  }

  /** The rest of a sell is never negative once the sell itself is not. */
  lemma {:induction false} DrainRemainderNonNegative(lots: seq<Stock>, sell: Stock, i: nat, belowOnly: bool)
    requires i <= |lots|
    requires sell.quantity >= 0
    ensures Drain(lots, sell, i, belowOnly).sell.quantity >= 0
    decreases i
  {
    if i > 0 {
      var k := i - 1;
      if !Eligible(lots[k], sell.price, belowOnly) || lots[k].quantity == 0 {
        DrainRemainderNonNegative(lots, sell, k, belowOnly);
      } else {
        var (lot, delta) := Consume(lots[k], sell.quantity);
        var (rest, _) := Consume(sell, delta);
        if rest.quantity != 0 {
          DrainRemainderNonNegative(lots[k := lot], rest, k, belowOnly);
        }
      }
    }
  }

  // ----- the two passes together -----

  /** Matching keeps lot order, count and prices, and the sell's price. */
  lemma MatchSellShape(lots: seq<Stock>, sell: Stock)
    ensures var m := MatchSell(lots, sell);
      SameLots(lots, m.lots) && m.sell == sell.(quantity := m.sell.quantity)
  {
    var first := Drain(lots, sell, |lots|, true);
    DrainShape(lots, sell, |lots|, true);
    if !first.done {
      DrainShape(first.lots, first.sell, |lots|, false);
    }
  }

  /** Conservation: what is taken from the lots plus what is left of the sell is the sell. */
  lemma MatchSellConserves(lots: seq<Stock>, sell: Stock)
    ensures var m := MatchSell(lots, sell);
      (Sum(lots) - Sum(m.lots)) + m.sell.quantity == sell.quantity
  {
    var first := Drain(lots, sell, |lots|, true);
    DrainConserves(lots, sell, |lots|, true);
    if !first.done {
      DrainConserves(first.lots, first.sell, |lots|, false);
    }
  }

  /** Part of the sell is left over only when every lot is empty. */
  lemma MatchSellLeavesRemainderOnlyWhenEmpty(lots: seq<Stock>, sell: Stock)
    ensures var m := MatchSell(lots, sell);
      m.sell.quantity != 0 ==> forall k :: 0 <= k < |m.lots| ==> m.lots[k].quantity == 0
  {
    var first := Drain(lots, sell, |lots|, true);
    DrainExhausts(lots, sell, |lots|, true);
    if !first.done {
      DrainExhausts(first.lots, first.sell, |lots|, false);
    }
  }

  /** A non-negative sell leaves a non-negative rest. */
  lemma MatchSellRemainderNonNegative(lots: seq<Stock>, sell: Stock)
    requires sell.quantity >= 0
    ensures MatchSell(lots, sell).sell.quantity >= 0
  {
    var first := Drain(lots, sell, |lots|, true);
    DrainRemainderNonNegative(lots, sell, |lots|, true);
    if !first.done {
      DrainRemainderNonNegative(first.lots, first.sell, |lots|, false);
    }
  }

  /** With non-negative quantities, matching only lowers lot quantities. */
  lemma MatchSellBounds(lots: seq<Stock>, sell: Stock)
    requires NonNegative(lots) && sell.quantity >= 0
    ensures var m := MatchSell(lots, sell);
      && NonNegative(m.lots)
      && (forall k :: 0 <= k < |lots| ==> 0 <= m.lots[k].quantity <= lots[k].quantity)
      && 0 <= m.sell.quantity <= sell.quantity
  {
    var first := Drain(lots, sell, |lots|, true);
    DrainBounds(lots, sell, |lots|, true);
    if !first.done {
      DrainBounds(first.lots, first.sell, |lots|, false);
    }
  }

  /**
   * Profit first: a lot priced at or above the sell price is touched only when
   * every lot priced below it has been emptied.
   */
  lemma MatchSellProfitFirst(lots: seq<Stock>, sell: Stock)
    ensures var m := MatchSell(lots, sell);
      forall i, j ::
        (0 <= i < |lots| && 0 <= j < |lots| &&
         lots[i].price < sell.price <= lots[j].price && m.lots[j] != lots[j]) ==> m.lots[i].quantity == 0
  {
    var first := Drain(lots, sell, |lots|, true);
    DrainShape(lots, sell, |lots|, true);
    if !first.done {
      DrainExhausts(lots, sell, |lots|, true);
      DrainShape(first.lots, first.sell, |lots|, false);
    }
  }

  /**
   * Newest first: when a lot is touched, every newer lot that the same pass may
   * take is empty afterwards. A lot below the sell price is taken in the first
   * pass, so a touched lot below the price empties the newer lots below it; a
   * touched lot at or above the price empties every newer lot.
   */
  lemma MatchSellNewestFirst(lots: seq<Stock>, sell: Stock)
    ensures var m := MatchSell(lots, sell);
      forall j, i ::
        (0 <= j < i < |lots| && m.lots[j] != lots[j] &&
         (lots[i].price < sell.price || lots[j].price >= sell.price)) ==> m.lots[i].quantity == 0
  {
    var n := |lots|;
    var first := Drain(lots, sell, n, true);
    var m := MatchSell(lots, sell);
    DrainShape(lots, sell, n, true);
    DrainNewestFirst(lots, sell, n, true);
    if !first.done {
      DrainExhausts(lots, sell, n, true);
      DrainShape(first.lots, first.sell, n, false);
      DrainNewestFirst(first.lots, first.sell, n, false);
      forall j, i | 0 <= j < i < n && m.lots[j] != lots[j] &&
          (lots[i].price < sell.price || lots[j].price >= sell.price)
        ensures m.lots[i].quantity == 0
      {
        if lots[j].price < sell.price {
          // pass two finds lot j empty, so it was pass one that touched it
          assert first.lots[j] != lots[j];
          if lots[i].price < sell.price {
            assert first.lots[i].quantity == 0;
          }
        } else {
          assert first.lots[j] == lots[j];
          if lots[i].price < sell.price {
            assert first.lots[i].quantity == 0;
          } else {
            assert m.lots[j] != first.lots[j];
          }
        }
      }
    }
  }
}
