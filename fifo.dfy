/**
 * The state of a `StockDistribution` (pkg/accounting/cost_distribution.go) and
 * what each of its operations does to it, as functions on values. The class in
 * cost_distribution.dfy is proved to change its fields exactly as these say.
 */
module Fifo {
  import opened Text
  import opened Lots
  import opened FifoMatch

  /** The lots, oldest first, and the queue of sells that found no inventory. */
  datatype Inventory = Inventory(stocks: seq<Stock>, pendingSells: seq<Stock>)

  /** The symbol a distribution tracks and the currency its trading fees are paid in. */
  datatype Market = Market(symbol: string, tradingFeeCurrency: string)

  /** Inventory held minus inventory owed to queued sells. */
  function Net(inv: Inventory): int
  {
    Sum(inv.stocks) - Sum(inv.pendingSells)
  }

  predicate PendingNonNegative(inv: Inventory)
  {
    NonNegative(inv.pendingSells)
  }

  /**
   * No sell waits in the queue while some lot still holds a quantity: either
   * the queue is empty or every lot is.
   */
  predicate Settled(inv: Inventory)
  {
    inv.pendingSells == [] || forall k :: 0 <= k < |inv.stocks| ==> inv.stocks[k].quantity == 0
  }

  /** `consume`: queue the sell when there are no lots, otherwise match it and queue a positive rest. */
  function AfterConsume(inv: Inventory, sell: Stock): (r: Inventory)
    ensures |r.stocks| == |inv.stocks|
    ensures |inv.pendingSells| <= |r.pendingSells| <= |inv.pendingSells| + 1
    ensures r.pendingSells[..|inv.pendingSells|] == inv.pendingSells
  {
    if inv.stocks == [] then Inventory(inv.stocks, inv.pendingSells + [sell])
    else
      var m := MatchSell(inv.stocks, sell);
      Inventory(m.lots, inv.pendingSells + if m.sell.quantity > 0 then [m.sell] else [])
  }

  /** Consuming the sells one after another, first to last. */
  function ConsumeEach(inv: Inventory, sells: seq<Stock>): (r: Inventory)
    ensures |r.stocks| == |inv.stocks|
    ensures |inv.pendingSells| <= |r.pendingSells| <= |inv.pendingSells| + |sells|
    ensures r.pendingSells[..|inv.pendingSells|] == inv.pendingSells
  {
    if sells == [] then inv
    else AfterConsume(ConsumeEach(inv, sells[..|sells| - 1]), sells[|sells| - 1])
  }

  /** `flushPendingSells`: replay the queue against the lots, if there is something to replay it against. */
  function AfterFlush(inv: Inventory): (r: Inventory)
    ensures |r.stocks| == |inv.stocks|
    ensures |r.pendingSells| <= |inv.pendingSells|
  {
    if inv.stocks == [] || inv.pendingSells == [] then inv
    else ConsumeEach(Inventory(inv.stocks, []), inv.pendingSells)
  }

  /** `stock`: append the lot, then flush the queue. */
  function AfterStock(inv: Inventory, lot: Stock): (r: Inventory)
    ensures |r.stocks| == |inv.stocks| + 1
    ensures |r.pendingSells| <= |inv.pendingSells|
  {
    AfterFlush(Inventory(inv.stocks + [lot], inv.pendingSells))
  }

  /** `squash`: the lots whose quantity is not zero, in their order. */
  function Squashed(lots: seq<Stock>): (r: seq<Stock>)
    ensures |r| <= |lots|
    ensures forall k :: 0 <= k < |r| ==> r[k].quantity != 0
  {
    if lots == [] then []
    else
      var last := lots[|lots| - 1];
      Squashed(lots[..|lots| - 1]) + if last.quantity != 0 then [last] else []
  }

  // ----- trades -----

  /**
   * `toStock`: when the symbol starts with the fee currency the fee is paid in
   * the traded asset and is folded into the quantity, and the fee is cleared.
   */
  function ToStock(t: Trade): (s: Stock)
    ensures HasPrefix(t.symbol, t.feeCurrency) ==> s.fee == 0
    ensures HasPrefix(t.symbol, t.feeCurrency) && t.isBuyer ==> s.quantity == t.quantity - t.fee
    ensures HasPrefix(t.symbol, t.feeCurrency) && !t.isBuyer ==> s.quantity == t.quantity + t.fee
    ensures !HasPrefix(t.symbol, t.feeCurrency) ==> s == t
    ensures s == t.(quantity := s.quantity, fee := s.fee)
  {
    if HasPrefix(t.symbol, t.feeCurrency) then
      t.(quantity := if t.isBuyer then t.quantity - t.fee else t.quantity + t.fee, fee := 0)
    else t
  }

  /** Base-asset quantity a lot or sell stands for: positive for a buy, negative for a sell. */
  function Signed(t: Trade): int
  {
    if t.isBuyer then t.quantity else -t.quantity
  }

  /**
   * The first step of `AddTrades`: a trade of another market whose fee was paid
   * in this distribution's fee currency becomes a sell of the fee.
   */
  function FeeTradeAsSell(m: Market, t: Trade): (r: Trade)
    ensures t.symbol == m.symbol ==> r == t
    ensures r.symbol == m.symbol <==>
      t.symbol == m.symbol || (HasPrefix(m.symbol, m.tradingFeeCurrency) && t.feeCurrency == m.tradingFeeCurrency)
    ensures r.symbol != m.symbol ==> r == t
    ensures t.symbol != m.symbol && r.symbol == m.symbol ==>
      !r.isBuyer && r.quantity == t.fee && r.fee == 0 && r.price == t.price && r.feeCurrency == t.feeCurrency
  {
    if t.symbol != m.symbol && HasPrefix(m.symbol, m.tradingFeeCurrency) && t.feeCurrency == m.tradingFeeCurrency
    then t.(symbol := m.symbol, isBuyer := false, quantity := t.fee, fee := 0)
    else t
  }

  /** Whether the trade is, after conversion, a buy of the tracked symbol. */
  predicate IsOwnBuy(m: Market, t: Trade)
  {
    var c := FeeTradeAsSell(m, t);
    c.symbol == m.symbol && c.isBuyer
  }

  /** One pass of the `AddTrades` loop. */
  function ApplyTrade(m: Market, inv: Inventory, t: Trade): (r: Inventory)
    ensures |r.stocks| == |inv.stocks| + if IsOwnBuy(m, t) then 1 else 0
    ensures FeeTradeAsSell(m, t).symbol != m.symbol ==> r == inv
  {
    var c := FeeTradeAsSell(m, t);
    if c.symbol != m.symbol then inv
    else if c.isBuyer then AfterStock(inv, ToStock(c))
    else AfterConsume(inv, ToStock(c))
  }

  /** What the tracked inventory gains (buy) or loses (sell) from one trade. */
  function TradeDelta(m: Market, t: Trade): int
  {
    var c := FeeTradeAsSell(m, t);
    if c.symbol != m.symbol then 0 else Signed(ToStock(c))
  }

  function TotalDelta(m: Market, trades: seq<Trade>): int
  {
    if trades == [] then 0
    else TotalDelta(m, trades[..|trades| - 1]) + TradeDelta(m, trades[|trades| - 1])
  }

  /** The inventory after the loop of `AddTrades` has seen `trades`. */
  function Replay(m: Market, inv: Inventory, trades: seq<Trade>): (r: Inventory)
    ensures |inv.stocks| <= |r.stocks|
  {
    if trades == [] then inv
    else ApplyTrade(m, Replay(m, inv, trades[..|trades| - 1]), trades[|trades| - 1])
  }

  /** The checkpoints the loop of `AddTrades` collects over `trades`. */
  function Checkpoints(m: Market, inv: Inventory, trades: seq<Trade>): (r: seq<int>)
    ensures forall k :: 0 <= k < |r| ==> 0 < r[k] < |trades|
  {
    if trades == [] then []
    else
      var n := |trades| - 1;
      Checkpoints(m, inv, trades[..n]) +
        if n > 0 && IsOwnBuy(m, trades[n]) && Replay(m, inv, trades[..n]).stocks == [] then [n] else []
  }

  /** The inventory `AddTrades` leaves: the loop, a final flush, then `squash`. */
  function AfterAddTrades(m: Market, inv: Inventory, trades: seq<Trade>): (r: Inventory)
    ensures forall k :: 0 <= k < |r.stocks| ==> r.stocks[k].quantity != 0
    ensures |r.pendingSells| <= |Replay(m, inv, trades).pendingSells|
  {
    var flushed := AfterFlush(Replay(m, inv, trades));
    Inventory(Squashed(flushed.stocks), flushed.pendingSells)
  }

  // ----- consume -----

  /** With no lots, `consume` queues the sell unchanged and touches nothing else. */
  lemma ConsumeWithoutLots(inv: Inventory, sell: Stock)
    requires inv.stocks == []
    ensures AfterConsume(inv, sell) == Inventory([], inv.pendingSells + [sell])
  {
  }

  /**
   * `consume` keeps the lots (order, count, prices), keeps the queue as a prefix,
   * and adds at most one entry: the sell itself when there are no lots, or the
   * positive rest of the sell once every lot is empty.
   */
  lemma ConsumeQueuesOnlyAPositiveRest(inv: Inventory, sell: Stock)
    ensures var r := AfterConsume(inv, sell);
      && SameLots(inv.stocks, r.stocks)
      && |inv.pendingSells| <= |r.pendingSells| <= |inv.pendingSells| + 1
      && r.pendingSells[..|inv.pendingSells|] == inv.pendingSells
      && (|r.pendingSells| > |inv.pendingSells| && inv.stocks != [] ==>
            var rest := r.pendingSells[|inv.pendingSells|];
            rest == sell.(quantity := rest.quantity) && rest.quantity > 0 &&
            forall k :: 0 <= k < |r.stocks| ==> r.stocks[k].quantity == 0)
  {
    var r := AfterConsume(inv, sell);
    assert r.pendingSells[..|inv.pendingSells|] == inv.pendingSells;
    if inv.stocks != [] {
      MatchSellShape(inv.stocks, sell);
      MatchSellLeavesRemainderOnlyWhenEmpty(inv.stocks, sell);
    }
  }

  /** Conservation: a non-negative sell lowers held-minus-owed inventory by exactly its quantity. */
  lemma ConsumeConservesNet(inv: Inventory, sell: Stock)
    requires sell.quantity >= 0
    ensures Net(AfterConsume(inv, sell)) == Net(inv) - sell.quantity
  {
    if inv.stocks == [] {
      SumAppend(inv.pendingSells, [sell]);
    } else {
      var m := MatchSell(inv.stocks, sell);
      MatchSellConserves(inv.stocks, sell);
      MatchSellRemainderNonNegative(inv.stocks, sell);
      SumAppend(inv.pendingSells, if m.sell.quantity > 0 then [m.sell] else []);
    }
  }

  lemma ConsumeKeepsPendingNonNegative(inv: Inventory, sell: Stock)
    requires PendingNonNegative(inv) && sell.quantity >= 0
    ensures PendingNonNegative(AfterConsume(inv, sell))
  {
    if inv.stocks != [] {
      MatchSellRemainderNonNegative(inv.stocks, sell);
    }
  }

  /** Matching against lots that are all empty changes nothing but the queue. */
  lemma ConsumeAgainstEmptyLots(inv: Inventory, sell: Stock)
    requires forall k :: 0 <= k < |inv.stocks| ==> inv.stocks[k].quantity == 0
    ensures AfterConsume(inv, sell).stocks == inv.stocks
  {
    if inv.stocks != [] {
      var n := |inv.stocks|;
      var first := Drain(inv.stocks, sell, n, true);
      DrainShape(inv.stocks, sell, n, true);
      assert first.lots == inv.stocks;
      if !first.done {
        DrainShape(first.lots, first.sell, n, false);
      }
    }
  }

  lemma ConsumeKeepsSettled(inv: Inventory, sell: Stock)
    requires Settled(inv)
    ensures Settled(AfterConsume(inv, sell))
  {
    var r := AfterConsume(inv, sell);
    if inv.stocks != [] {
      MatchSellLeavesRemainderOnlyWhenEmpty(inv.stocks, sell);
      if inv.pendingSells != [] {
        ConsumeAgainstEmptyLots(inv, sell);
      }
    }
  }

  // ----- flush and stock -----

  lemma {:induction false} ConsumeEachKeepsLotCount(inv: Inventory, sells: seq<Stock>)
    ensures |ConsumeEach(inv, sells).stocks| == |inv.stocks|
  {
    if sells != [] {
      ConsumeEachKeepsLotCount(inv, sells[..|sells| - 1]);
      MatchSellShape(ConsumeEach(inv, sells[..|sells| - 1]).stocks, sells[|sells| - 1]);
    }
  }

  lemma {:induction false} ConsumeEachConservesNet(inv: Inventory, sells: seq<Stock>)
    requires NonNegative(sells) && PendingNonNegative(inv)
    ensures Net(ConsumeEach(inv, sells)) == Net(inv) - Sum(sells)
    ensures PendingNonNegative(ConsumeEach(inv, sells))
  {
    if sells != [] {
      var front := sells[..|sells| - 1];
      ConsumeEachConservesNet(inv, front);
      ConsumeConservesNet(ConsumeEach(inv, front), sells[|sells| - 1]);
      ConsumeKeepsPendingNonNegative(ConsumeEach(inv, front), sells[|sells| - 1]);
    }
  }

  lemma {:induction false} ConsumeEachSettles(inv: Inventory, sells: seq<Stock>)
    requires Settled(inv)
    ensures Settled(ConsumeEach(inv, sells))
  {
    if sells != [] {
      ConsumeEachSettles(inv, sells[..|sells| - 1]);
      ConsumeKeepsSettled(ConsumeEach(inv, sells[..|sells| - 1]), sells[|sells| - 1]);
    }
  }

  /** Flushing with no lots or no queued sells changes nothing. */
  lemma FlushNoop(inv: Inventory)
    requires inv.stocks == [] || inv.pendingSells == []
    ensures AfterFlush(inv) == inv
  {
  }

  /**
   * Flushing keeps the number of lots and held-minus-owed inventory, and
   * leaves the distribution settled whenever there is a lot.
   */
  lemma FlushConservesAndSettles(inv: Inventory)
    requires PendingNonNegative(inv)
    ensures var r := AfterFlush(inv);
      && |r.stocks| == |inv.stocks|
      && Net(r) == Net(inv)
      && PendingNonNegative(r)
      && (inv.stocks != [] || Settled(inv) ==> Settled(r))
  {
    if inv.stocks != [] && inv.pendingSells != [] {
      var start := Inventory(inv.stocks, []);
      ConsumeEachKeepsLotCount(start, inv.pendingSells);
      ConsumeEachConservesNet(start, inv.pendingSells);
      ConsumeEachSettles(start, inv.pendingSells);
    }
  }

  /** `stock` adds one lot and the lot's quantity, and leaves the distribution settled. */
  lemma StockAddsLot(inv: Inventory, lot: Stock)
    requires PendingNonNegative(inv)
    ensures var r := AfterStock(inv, lot);
      && |r.stocks| == |inv.stocks| + 1
      && Net(r) == Net(inv) + lot.quantity
      && PendingNonNegative(r)
      && Settled(r)
  {
    SumAppend(inv.stocks, [lot]);
    FlushConservesAndSettles(Inventory(inv.stocks + [lot], inv.pendingSells));
  }

  // ----- squash -----

  /** `squash` keeps exactly the non-empty lots. */
  lemma {:induction false} SquashedKeepsNonEmpty(lots: seq<Stock>)
    ensures forall x :: x in Squashed(lots) <==> x in lots && x.quantity != 0
  {
    if lots != [] {
      var front := lots[..|lots| - 1];
      SquashedKeepsNonEmpty(front);
      assert lots == front + [lots[|lots| - 1]];
    }
  }

  /** `squash` keeps relative order: it distributes over concatenation. */
  lemma {:induction false} SquashedAppend(a: seq<Stock>, b: seq<Stock>)
    ensures Squashed(a + b) == Squashed(a) + Squashed(b)
  {
    if b == [] {
      assert a + b == a;
    } else {
      assert (a + b)[..|a + b| - 1] == a + b[..|b| - 1];
      SquashedAppend(a, b[..|b| - 1]);
    }
  }

  lemma {:induction false} SquashedIdempotent(lots: seq<Stock>)
    ensures Squashed(Squashed(lots)) == Squashed(lots)
  {
    if lots != [] {
      var last := lots[|lots| - 1];
      var front := lots[..|lots| - 1];
      SquashedIdempotent(front);
      SquashedAppend(Squashed(front), if last.quantity != 0 then [last] else []);
      if last.quantity != 0 {
        assert Squashed([last]) == Squashed([]) + [last];
      }
    }
  }

  /** `squash` removes only empty lots, so the total quantity is unchanged. */
  lemma {:induction false} SquashedKeepsSum(lots: seq<Stock>)
    ensures Sum(Squashed(lots)) == Sum(lots)
  {
    if lots != [] {
      var last := lots[|lots| - 1];
      SquashedKeepsSum(lots[..|lots| - 1]);
      SumAppend(Squashed(lots[..|lots| - 1]), if last.quantity != 0 then [last] else []);
    }
  }

  // ----- AddTrades -----

  /** A trade that is not a converted fee trade keeps its symbol and side. */
  lemma OwnBuyIsBuyOfSymbol(m: Market, t: Trade)
    ensures IsOwnBuy(m, t) <==> t.symbol == m.symbol && t.isBuyer
  {
  }

  /** The number of lots grows by one on each own buy and is otherwise unchanged. */
  lemma ApplyTradeLotCount(m: Market, inv: Inventory, t: Trade)
    ensures |ApplyTrade(m, inv, t).stocks| == |inv.stocks| + if IsOwnBuy(m, t) then 1 else 0
  {
    var c := FeeTradeAsSell(m, t);
    if c.symbol == m.symbol {
      if c.isBuyer {
        var grown := Inventory(inv.stocks + [ToStock(c)], inv.pendingSells);
        if grown.pendingSells != [] {
          ConsumeEachKeepsLotCount(Inventory(grown.stocks, []), grown.pendingSells);
        }
      } else if inv.stocks != [] {
        MatchSellShape(inv.stocks, ToStock(c));
      }
    }
  }

  lemma {:induction false} ReplayNeverEmptiesLots(m: Market, inv: Inventory, trades: seq<Trade>)
    ensures |Replay(m, inv, trades).stocks| >= |inv.stocks|
  {
    if trades != [] {
      ReplayNeverEmptiesLots(m, inv, trades[..|trades| - 1]);
      ApplyTradeLotCount(m, Replay(m, inv, trades[..|trades| - 1]), trades[|trades| - 1]);
    }
  }

  /** Checkpoints lie strictly inside the batch: after the first trade and before its end. */
  lemma {:induction false} CheckpointsInRange(m: Market, inv: Inventory, trades: seq<Trade>)
    ensures forall c :: c in Checkpoints(m, inv, trades) ==> 0 < c < |trades|
  {
    if trades != [] {
      CheckpointsInRange(m, inv, trades[..|trades| - 1]);
    }
  }

  predicate StrictlyIncreasing(s: seq<int>)
  {
    forall i, j :: 0 <= i < j < |s| ==> s[i] < s[j]
  }

  /** Checkpoints are strictly increasing. */
  lemma {:induction false} CheckpointsIncreasing(m: Market, inv: Inventory, trades: seq<Trade>)
    ensures StrictlyIncreasing(Checkpoints(m, inv, trades))
  {
    if trades != [] {
      var n := |trades| - 1;
      CheckpointsIncreasing(m, inv, trades[..n]);
      CheckpointsInRange(m, inv, trades[..n]);
      var cs := Checkpoints(m, inv, trades);
      var front := Checkpoints(m, inv, trades[..n]);
      forall i, j | 0 <= i < j < |cs| ensures cs[i] < cs[j] {
        if j < |front| {
          assert cs[i] == front[i] && cs[j] == front[j];
        } else {
          assert cs[j] == n && cs[i] == front[i] && front[i] in front;
          assert front[i] < |trades[..n]| == n;
        }
      }
    }
  }

  /**
   * A checkpoint is exactly the index of an own buy, other than the first trade,
   * that found no lots.
   */
  lemma {:induction false} CheckpointsExact(m: Market, inv: Inventory, trades: seq<Trade>, c: int)
    ensures c in Checkpoints(m, inv, trades) <==>
      0 < c < |trades| && IsOwnBuy(m, trades[c]) && Replay(m, inv, trades[..c]).stocks == []
  {
    if trades != [] {
      var n := |trades| - 1;
      CheckpointsExact(m, inv, trades[..n], c);
      CheckpointsInRange(m, inv, trades[..n]);
      if 0 <= c < n {
        assert trades[..n][..c] == trades[..c];
      }
    }
  }

  lemma {:induction false} CheckpointMeansLots(m: Market, inv: Inventory, trades: seq<Trade>)
    ensures Checkpoints(m, inv, trades) != [] ==> Replay(m, inv, trades).stocks != []
  {
    if trades != [] {
      var n := |trades| - 1;
      CheckpointMeansLots(m, inv, trades[..n]);
      ApplyTradeLotCount(m, Replay(m, inv, trades[..n]), trades[n]);
    }
  }

  /**
   * Lots are only removed by the final `squash`, so once one buy has found
   * no lots, no later buy of the same batch can: a batch has at most one checkpoint.
   */
  lemma {:induction false} AtMostOneCheckpoint(m: Market, inv: Inventory, trades: seq<Trade>)
    ensures |Checkpoints(m, inv, trades)| <= 1
  {
    if trades != [] {
      var n := |trades| - 1;
      AtMostOneCheckpoint(m, inv, trades[..n]);
      CheckpointMeansLots(m, inv, trades[..n]);
    }
  }

  /** Trades as the feed delivers them: no negative quantity or fee. */
  predicate WellFormed(trades: seq<Trade>)
  {
    forall i :: 0 <= i < |trades| ==> trades[i].quantity >= 0 && trades[i].fee >= 0
  }

  lemma SellQuantityNonNegative(m: Market, t: Trade)
    requires t.quantity >= 0 && t.fee >= 0
    ensures var c := FeeTradeAsSell(m, t); !c.isBuyer ==> ToStock(c).quantity >= 0
  {
  }

  /**
   * Conservation over a batch: held-minus-owed inventory moves by exactly the
   * signed, fee-adjusted quantities of the trades of this market.
   */
  lemma {:induction false} ReplayConservesNet(m: Market, inv: Inventory, trades: seq<Trade>)
    requires WellFormed(trades) && PendingNonNegative(inv)
    ensures Net(Replay(m, inv, trades)) == Net(inv) + TotalDelta(m, trades)
    ensures PendingNonNegative(Replay(m, inv, trades))
  {
    if trades != [] {
      var n := |trades| - 1;
      var before := Replay(m, inv, trades[..n]);
      var t := trades[n];
      ReplayConservesNet(m, inv, trades[..n]);
      var c := FeeTradeAsSell(m, t);
      if c.symbol == m.symbol {
        if c.isBuyer {
          StockAddsLot(before, ToStock(c));
        } else {
          SellQuantityNonNegative(m, t);
          ConsumeConservesNet(before, ToStock(c));
          ConsumeKeepsPendingNonNegative(before, ToStock(c));
        }
      }
    }
  }

  /** No batch leaves a sell waiting while some lot still holds a quantity. */
  lemma {:induction false} ReplayKeepsSettled(m: Market, inv: Inventory, trades: seq<Trade>)
    requires Settled(inv)
    ensures Settled(Replay(m, inv, trades))
  {
    if trades != [] {
      var n := |trades| - 1;
      var before := Replay(m, inv, trades[..n]);
      ReplayKeepsSettled(m, inv, trades[..n]);
      var c := FeeTradeAsSell(m, t := trades[n]);
      if c.symbol == m.symbol {
        if c.isBuyer {
          var grown := Inventory(before.stocks + [ToStock(c)], before.pendingSells);
          if grown.pendingSells != [] {
            ConsumeEachSettles(Inventory(grown.stocks, []), grown.pendingSells);
          }
        } else {
          ConsumeKeepsSettled(before, ToStock(c));
        }
      }
    }
  }

  /**
   * The whole of `AddTrades`: inventory moves by the batch's signed quantities,
   * no empty lot is left, and no sell waits while a lot holds a quantity.
   */
  lemma AddTradesConservesNet(m: Market, inv: Inventory, trades: seq<Trade>)
    requires WellFormed(trades) && PendingNonNegative(inv) && Settled(inv)
    ensures var r := AfterAddTrades(m, inv, trades);
      && Net(r) == Net(inv) + TotalDelta(m, trades)
      && (forall k :: 0 <= k < |r.stocks| ==> r.stocks[k].quantity != 0)
      && Settled(r)
  {
    var replayed := Replay(m, inv, trades);
    var flushed := AfterFlush(replayed);
    ReplayConservesNet(m, inv, trades);
    ReplayKeepsSettled(m, inv, trades);
    FlushConservesAndSettles(replayed);
    SquashedKeepsSum(flushed.stocks);
    SquashedKeepsNonEmpty(flushed.stocks);
    var r := AfterAddTrades(m, inv, trades);
    assert forall k :: 0 <= k < |r.stocks| ==> r.stocks[k] in Squashed(flushed.stocks);
  }
}
