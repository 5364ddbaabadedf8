/**
 * `StockDistribution` (pkg/accounting/cost_distribution.go): the lots of one
 * symbol, oldest first, and the queue of sells that found no inventory. Each
 * method changes the two fields exactly as the matching function of module
 * Fifo says; the properties are proved there, about those functions.
 */
module CostDistribution {
  import opened Text
  import opened Lots
  import opened FifoMatch
  import opened Fifo

  class StockDistribution {
    const Symbol: string
    const TradingFeeCurrency: string
    var Stocks: seq<Stock>
    var PendingSells: seq<Stock>

    function State(): Inventory
      reads this
    {
      Inventory(Stocks, PendingSells)
    }

    function MarketOf(): Market
    {
      Market(Symbol, TradingFeeCurrency)
    }

    constructor (symbol: string, tradingFeeCurrency: string)
      ensures Symbol == symbol && TradingFeeCurrency == tradingFeeCurrency
      ensures Stocks == [] && PendingSells == []
    {
      Symbol := symbol;
      TradingFeeCurrency := tradingFeeCurrency;
      Stocks := [];
      PendingSells := [];
    }

    /** `consume`: the two matching passes, newest lot first, then queue what is left. */
    method Consume(sell: Stock)
      modifies this
      ensures State() == AfterConsume(old(State()), sell)
    {
      if |Stocks| == 0 {
        PendingSells := PendingSells + [sell];
        return;
      }
      ghost var lots0 := Stocks;
      ghost var first := Drain(lots0, sell, |lots0|, true);
      var rest := sell;

      // profit-seeking pass: only lots priced below the sell
      for idx := |Stocks| downto 0
        invariant |Stocks| == |lots0| && PendingSells == old(PendingSells)
        invariant Drain(Stocks, rest, idx, true) == first
      {
        var stock := Stocks[idx];
        if stock.price >= rest.price {
          continue;
        }
        if stock.quantity == 0 {
          continue;
        }
        var (consumed, delta) := Lots.Consume(stock, rest.quantity);
        rest := Lots.Consume(rest, delta).0;
        Stocks := Stocks[idx := consumed];
        if rest.quantity == 0 {
          return;
        }
      }

      // liquidation pass: any lot
      ghost var second := Drain(Stocks, rest, |Stocks|, false);
      for idx := |Stocks| downto 0
        invariant |Stocks| == |lots0| && PendingSells == old(PendingSells)
        invariant Drain(Stocks, rest, idx, false) == second
      {
        var stock := Stocks[idx];
        if stock.quantity == 0 {
          continue;
        }
        var (consumed, delta) := Lots.Consume(stock, rest.quantity);
        rest := Lots.Consume(rest, delta).0;
        Stocks := Stocks[idx := consumed];
        if rest.quantity == 0 {
          return;
        }
      }

      if rest.quantity > 0 {
        PendingSells := PendingSells + [rest];
      }
    }

    /** `flushPendingSells`: take the queue and consume its sells again, first to last. */
    method FlushPendingSells()
      modifies this
      ensures State() == AfterFlush(old(State()))
    {
      if |Stocks| == 0 || |PendingSells| == 0 {
        return;
      }
      var pendingSells := PendingSells;
      PendingSells := [];
      for i := 0 to |pendingSells|
        invariant State() == ConsumeEach(Inventory(old(Stocks), []), pendingSells[..i])
      {
        assert pendingSells[..i + 1][..i] == pendingSells[..i];
        Consume(pendingSells[i]);
      }
      assert pendingSells[..|pendingSells|] == pendingSells;
    }

    /** `stock`: append a lot, then flush the queue against the new inventory. */
    method StockLot(lot: Stock)
      modifies this
      ensures State() == AfterStock(old(State()), lot)
    {
      Stocks := Stocks + [lot];
      FlushPendingSells();
    }

    /** `squash`: rebuild the lots without the empty ones. */
    method Squash()
      modifies this
      ensures Stocks == Squashed(old(Stocks)) && PendingSells == old(PendingSells)
    {
      var squashed: seq<Stock> := [];
      for i := 0 to |Stocks|
        invariant squashed == Squashed(Stocks[..i])
      {
        assert Stocks[..i + 1][..i] == Stocks[..i];
        if Stocks[i].quantity != 0 {
          squashed := squashed + [Stocks[i]];
        }
      }
      assert Stocks[..|Stocks|] == Stocks;
      Stocks := squashed;
    }

    /**
     * `AddTrades`: feed the trades of this symbol (and the fee trades of other
     * markets, as sells) through `stock` and `consume`; collect the indices where
     * a buy found no lots; then flush and squash.
     */
    method AddTrades(trades: seq<Trade>) returns (checkpoints: seq<int>)
      modifies this
      ensures checkpoints == Checkpoints(MarketOf(), old(State()), trades)
      ensures State() == AfterAddTrades(MarketOf(), old(State()), trades)
      ensures StrictlyIncreasing(checkpoints) && |checkpoints| <= 1
      ensures forall c :: c in checkpoints ==>
        0 < c < |trades| && trades[c].symbol == Symbol && trades[c].isBuyer
    {
      ghost var start := State();
      var feeSymbol := HasPrefix(Symbol, TradingFeeCurrency);
      checkpoints := [];
      for idx := 0 to |trades|
        invariant State() == Replay(MarketOf(), start, trades[..idx])
        invariant checkpoints == Checkpoints(MarketOf(), start, trades[..idx])
      {
        assert trades[..idx + 1][..idx] == trades[..idx];
        var trade := trades[idx];
        if trade.symbol != Symbol {
          if feeSymbol && trade.feeCurrency == TradingFeeCurrency {
            trade := trade.(symbol := Symbol, isBuyer := false, quantity := trade.fee, fee := 0);
          }
        }
        if trade.symbol != Symbol {
          continue;
        }
        if trade.isBuyer {
          if idx > 0 && |Stocks| == 0 {
            checkpoints := checkpoints + [idx];
          }
          StockLot(ToStock(trade));
        } else {
          Consume(ToStock(trade));
        }
      }
      assert trades[..|trades|] == trades;
      FlushPendingSells();
      Squash();
      CheckpointsIncreasing(MarketOf(), start, trades);
      AtMostOneCheckpoint(MarketOf(), start, trades);
      forall c | c in checkpoints
        ensures 0 < c < |trades| && trades[c].symbol == Symbol && trades[c].isBuyer
      {
        CheckpointsExact(MarketOf(), start, trades, c);
      }
    }
  }
}
