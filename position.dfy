/**
 * The weighted-average-cost `Position` that pkg/bbgo/position_test.go pins down:
 * signed base, cumulative quote cash flow, and one blended average cost, updated
 * trade by trade. Quantities and prices are exact reals.
 */
module Positions {

  datatype Side = Buy | Sell

  /** The fields of a trade that a position reads. */
  datatype Trade = Trade(
    side: Side,
    price: real,
    quantity: real,
    quoteQuantity: real,
    fee: real,
    feeCurrency: string)

  /** The instrument: which fee currency is the base asset and which the quote asset. */
  datatype Instrument = Instrument(symbol: string, baseCurrency: string, quoteCurrency: string)

  datatype Snapshot = Snapshot(base: real, quote: real, averageCost: real)

  /** What one trade or one batch of trades did: the new state and the profit realized. */
  datatype Outcome = Outcome(after: Snapshot, profit: real, realized: bool)

  /** How a trade relates to the open position. */
  datatype Kind = Extend | Reduce | Flip

  const Flat := Snapshot(0.0, 0.0, 0.0)

  function Abs(x: real): real { if x < 0.0 then -x else x }

  /** Base quantity the trade moves: a fee paid in the base asset is not received. */
  function NetQuantity(ins: Instrument, t: Trade): (q: real)
    ensures t.feeCurrency != ins.baseCurrency ==> q == t.quantity
    ensures t.fee >= 0.0 ==> q <= t.quantity
  {
    if t.feeCurrency == ins.baseCurrency then t.quantity - t.fee else t.quantity
  }

  /**
   * Cash the trade moves: a fee paid in the quote asset makes a buy cost more
   * and a sell bring in less.
   */
  function Notional(ins: Instrument, t: Trade): (n: real)
    ensures t.feeCurrency == ins.baseCurrency || t.feeCurrency != ins.quoteCurrency ==> n == t.quoteQuantity
    ensures t.fee >= 0.0 && t.side == Buy ==> n >= t.quoteQuantity
    ensures t.fee >= 0.0 && t.side == Sell ==> n <= t.quoteQuantity
  {
    if t.feeCurrency != ins.baseCurrency && t.feeCurrency == ins.quoteCurrency then
      (if t.side == Buy then t.quoteQuantity + t.fee else t.quoteQuantity - t.fee)
    else t.quoteQuantity
  }

  /** Base moved, signed: up for a buy, down for a sell. */
  function SignedQuantity(ins: Instrument, t: Trade): real
  {
    if t.side == Buy then NetQuantity(ins, t) else -NetQuantity(ins, t)
  }

  /** Cash moved, signed: out for a buy, in for a sell. */
  function SignedCash(ins: Instrument, t: Trade): real
  {
    if t.side == Buy then -Notional(ins, t) else Notional(ins, t)
  }

  /**
   * The decision: a trade on the side of the position (or from flat) extends it;
   * an opposite trade no larger than the position reduces it; a larger one flips it.
   */
  function Classify(base: real, side: Side, q: real): (k: Kind)
    ensures k == Extend <==> (side == Buy && base >= 0.0) || (side == Sell && base <= 0.0)
    ensures k == Reduce <==> (side == Buy && base < 0.0 && q <= Abs(base)) || (side == Sell && base > 0.0 && q <= Abs(base))
    ensures k == Flip <==> (side == Buy && base < 0.0 && q > Abs(base)) || (side == Sell && base > 0.0 && q > Abs(base))
  {
    match side
    case Buy => if base < 0.0 then (if base + q > 0.0 then Flip else Reduce) else Extend
    case Sell => if base > 0.0 then (if base - q < 0.0 then Flip else Reduce) else Extend
  }

  /** One trade (`Position.AddTrade`). */
  function Apply(ins: Instrument, s: Snapshot, t: Trade): (o: Outcome)
    ensures o.after.base == s.base + SignedQuantity(ins, t)
    ensures o.after.quote == s.quote + SignedCash(ins, t)
    ensures !o.realized ==> o.profit == 0.0
    ensures o.realized == (Classify(s.base, t.side, NetQuantity(ins, t)) != Extend)
  {
    var q := NetQuantity(ins, t);
    var base := s.base + SignedQuantity(ins, t);
    var quote := s.quote + SignedCash(ins, t);
    match Classify(s.base, t.side, q)
    case Extend =>
      var size := Abs(s.base) + q;
      var cost := if size == 0.0 then s.averageCost else (s.averageCost * Abs(s.base) + Notional(ins, t)) / size;
      Outcome(Snapshot(base, quote, cost), 0.0, false)
    case Reduce =>
      var gain := if t.side == Sell then (t.price - s.averageCost) * q else (s.averageCost - t.price) * q;
      Outcome(Snapshot(base, quote, s.averageCost), gain, true)
    case Flip =>
      var gain := if t.side == Sell then (t.price - s.averageCost) * s.base else (s.averageCost - t.price) * -s.base;
      Outcome(Snapshot(base, quote, t.price), gain, true)
  }

  /** A batch of trades (`Position.AddTrades`): the profits realized add up. */
  function ApplyAll(ins: Instrument, s: Snapshot, trades: seq<Trade>): (o: Outcome)
    ensures !o.realized ==> o.profit == 0.0
  {
    if trades == [] then Outcome(s, 0.0, false)
    else
      var before := ApplyAll(ins, s, trades[..|trades| - 1]);
      var step := Apply(ins, before.after, trades[|trades| - 1]);
      Outcome(step.after, before.profit + (if step.realized then step.profit else 0.0),
              before.realized || step.realized)
  }

  function TotalQuantity(ins: Instrument, trades: seq<Trade>): real
  {
    if trades == [] then 0.0
    else TotalQuantity(ins, trades[..|trades| - 1]) + SignedQuantity(ins, trades[|trades| - 1])
  }

  function TotalCash(ins: Instrument, trades: seq<Trade>): real
  {
    if trades == [] then 0.0
    else TotalCash(ins, trades[..|trades| - 1]) + SignedCash(ins, trades[|trades| - 1])
  }

  class Position {
    const Symbol: string
    const BaseCurrency: string
    const QuoteCurrency: string
    var Base: real
    var Quote: real
    var AverageCost: real

    function Instr(): Instrument
    {
      Instrument(Symbol, BaseCurrency, QuoteCurrency)
    }

    function State(): Snapshot
      reads this
    {
      Snapshot(Base, Quote, AverageCost)
    }

    /** A new, flat position, as the test builds it. */
    constructor (symbol: string, baseCurrency: string, quoteCurrency: string)
      ensures Symbol == symbol && BaseCurrency == baseCurrency && QuoteCurrency == quoteCurrency
      ensures State() == Flat
    {
      Symbol, BaseCurrency, QuoteCurrency := symbol, baseCurrency, quoteCurrency;
      Base, Quote, AverageCost := 0.0, 0.0, 0.0;
    }

    method AddTrade(t: Trade) returns (profit: real, realized: bool)
      modifies this
      ensures Outcome(State(), profit, realized) == Apply(Instr(), old(State()), t)
    {
      var q := NetQuantity(Instr(), t);
      var notional := Notional(Instr(), t);
      match Classify(Base, t.side, q) {
        case Extend =>
          var size := Abs(Base) + q;
          if size != 0.0 {
            AverageCost := (AverageCost * Abs(Base) + notional) / size;
          }
          profit, realized := 0.0, false;
        case Reduce =>
          profit := if t.side == Sell then (t.price - AverageCost) * q else (AverageCost - t.price) * q;
          realized := true;
        case Flip =>
          profit := if t.side == Sell then (t.price - AverageCost) * Base else (AverageCost - t.price) * -Base;
          realized := true;
          AverageCost := t.price;
      }
      Base := Base + SignedQuantity(Instr(), t);
      Quote := Quote + SignedCash(Instr(), t);
    }

    method AddTrades(trades: seq<Trade>) returns (profitAmount: real, profit: bool)
      modifies this
      ensures Outcome(State(), profitAmount, profit) == ApplyAll(Instr(), old(State()), trades)
    {
      ghost var start := State();
      profitAmount, profit := 0.0, false;
      for i := 0 to |trades|
        invariant Outcome(State(), profitAmount, profit) == ApplyAll(Instr(), start, trades[..i])
      {
        assert trades[..i + 1][..i] == trades[..i];
        var amount, realized := AddTrade(trades[i]);
        if realized {
          profitAmount := profitAmount + amount;
          profit := true;
        }
      }
      assert trades[..|trades|] == trades;
    }
  }

  // ----- properties of one trade -----

  /** Opening or extending blends the cost: the new cost over the new size is the old cost plus the cash paid. */
  lemma ExtendBlendsCost(ins: Instrument, s: Snapshot, t: Trade)
    requires Classify(s.base, t.side, NetQuantity(ins, t)) == Extend
    requires Abs(s.base) + NetQuantity(ins, t) != 0.0
    ensures var o := Apply(ins, s, t);
      && o.after.averageCost * (Abs(s.base) + NetQuantity(ins, t)) == s.averageCost * Abs(s.base) + Notional(ins, t)
      && !o.realized
  {
    var size := Abs(s.base) + NetQuantity(ins, t);
    var num := s.averageCost * Abs(s.base) + Notional(ins, t);
    assert (num / size) * size == num;
  }

  /** Reducing keeps the cost and realizes (exit - cost) per unit for a sell, (cost - exit) for a buy. */
  lemma ReduceKeepsCost(ins: Instrument, s: Snapshot, t: Trade)
    requires Classify(s.base, t.side, NetQuantity(ins, t)) == Reduce
    ensures var o := Apply(ins, s, t); var q := NetQuantity(ins, t);
      && o.after.averageCost == s.averageCost
      && o.realized
      && o.profit == (if t.side == Sell then t.price - s.averageCost else s.averageCost - t.price) * q
      && (s.base > 0.0 ==> 0.0 <= o.after.base < s.base || q <= 0.0)
      && (s.base < 0.0 ==> s.base < o.after.base <= 0.0 || q <= 0.0)
  {
  }

  /**
   * Flipping closes the whole old position at the old cost, opens the rest on
   * the other side, and takes the trade price as the new cost.
   */
  lemma FlipResetsCost(ins: Instrument, s: Snapshot, t: Trade)
    requires Classify(s.base, t.side, NetQuantity(ins, t)) == Flip
    ensures var o := Apply(ins, s, t);
      && o.after.averageCost == t.price
      && o.realized
      && o.profit == (t.price - s.averageCost) * s.base
      && (s.base > 0.0 ==> o.after.base < 0.0)
      && (s.base < 0.0 ==> o.after.base > 0.0)
  {
    if t.side == Buy {
      assert (s.averageCost - t.price) * -s.base == (t.price - s.averageCost) * s.base;
    }
  }

  /** Closing a long exactly flattens the position and realizes the profit. */
  lemma ExactCloseFlattens(ins: Instrument, s: Snapshot, t: Trade)
    requires s.base > 0.0 && t.side == Sell && NetQuantity(ins, t) == s.base
    ensures var o := Apply(ins, s, t);
      o.after.base == 0.0 && o.realized && o.profit == (t.price - s.averageCost) * s.base
  {
  }

  /** Buying back a short exactly flattens it too, realizing (cost - price) per unit. */
  lemma ExactCoverFlattens(ins: Instrument, s: Snapshot, t: Trade)
    requires s.base < 0.0 && t.side == Buy && NetQuantity(ins, t) == -s.base
    ensures var o := Apply(ins, s, t);
      o.after.base == 0.0 && o.realized && o.profit == (s.averageCost - t.price) * -s.base
  {
  }

  /** From flat, a trade without a quote fee opens at its own price. */
  lemma OpenFromFlatAtPrice(ins: Instrument, s: Snapshot, t: Trade)
    requires s.base == 0.0 && NetQuantity(ins, t) > 0.0
    requires Notional(ins, t) == t.price * NetQuantity(ins, t)
    ensures Apply(ins, s, t).after.averageCost == t.price && !Apply(ins, s, t).realized
  {
    var q := NetQuantity(ins, t);
    assert (s.averageCost * 0.0 + t.price * q) / q == t.price;
  }

  // ----- properties of a batch -----

  /** Base is the starting base plus the fee-adjusted signed quantities; quote likewise for cash. */
  lemma {:induction false} BalancesAreSums(ins: Instrument, s: Snapshot, trades: seq<Trade>)
    ensures ApplyAll(ins, s, trades).after.base == s.base + TotalQuantity(ins, trades)
    ensures ApplyAll(ins, s, trades).after.quote == s.quote + TotalCash(ins, trades)
  {
    if trades != [] {
      BalancesAreSums(ins, s, trades[..|trades| - 1]);
    }
  }

  predicate AllBuys(ins: Instrument, trades: seq<Trade>)
  {
    forall i :: 0 <= i < |trades| ==> trades[i].side == Buy && NetQuantity(ins, trades[i]) >= 0.0
  }

  /** Buys into a flat or long position only open or extend it: no profit is ever realized. */
  lemma {:induction false} OpeningOnlyNeverRealizes(ins: Instrument, s: Snapshot, trades: seq<Trade>)
    requires s.base >= 0.0 && AllBuys(ins, trades)
    ensures !ApplyAll(ins, s, trades).realized && ApplyAll(ins, s, trades).profit == 0.0
    ensures ApplyAll(ins, s, trades).after.base >= 0.0
  {
    if trades != [] {
      OpeningOnlyNeverRealizes(ins, s, trades[..|trades| - 1]);
    }
  }
}

/** The six cases of `TestPosition` (pkg/bbgo/position_test.go), on a fresh BTCUSDT position. */
module PositionScenarios {
  import opened Positions

  const BtcUsdt := Instrument("BTCUSDT", "BTC", "USDT")

  /** 0.05% */
  const FeeRate: real := 0.05 * 0.01

  function NoFee(side: Side, price: real, quantity: real): Trade
  {
    Trade(side, price, quantity, price * quantity, 0.0, "")
  }

  /** The test checks the profit only when the position reports one. */
  predicate Expect(o: Outcome, averageCost: real, base: real, quote: real, profit: real)
  {
    o.after == Snapshot(base, quote, averageCost) && (o.realized ==> o.profit == profit)
  }

  lemma ScenarioBaseFee()
    ensures Expect(
      ApplyAll(BtcUsdt, Flat, [Trade(Buy, 1000.0, 0.01, 1000.0 * 0.01, 0.01 * 0.05 * 0.01, "BTC")]),
      (1000.0 * 0.01) / (0.01 * (1.0 - FeeRate)), 0.01 - 0.01 * FeeRate, 0.0 - 1000.0 * 0.01, 0.0)
  {
    var ts := [Trade(Buy, 1000.0, 0.01, 1000.0 * 0.01, 0.01 * 0.05 * 0.01, "BTC")];
    assert ts[..0] == [];
  }

  lemma ScenarioQuoteFee()
    ensures Expect(
      ApplyAll(BtcUsdt, Flat, [Trade(Sell, 1000.0, 0.01, 1000.0 * 0.01, (1000.0 * 0.01) * FeeRate, "USDT")]),
      (1000.0 * 0.01 * (1.0 - FeeRate)) / 0.01, -0.01, 0.0 + 1000.0 * 0.01 * (1.0 - FeeRate), 0.0)
  {
    var ts := [Trade(Sell, 1000.0, 0.01, 1000.0 * 0.01, (1000.0 * 0.01) * FeeRate, "USDT")];
    assert ts[..0] == [];
  }

  lemma ScenarioLong()
    ensures Expect(
      ApplyAll(BtcUsdt, Flat, [NoFee(Buy, 1000.0, 0.01), NoFee(Buy, 2000.0, 0.03)]),
      (1000.0 * 0.01 + 2000.0 * 0.03) / 0.04, 0.01 + 0.03, 0.0 - 1000.0 * 0.01 - 2000.0 * 0.03, 0.0)
  {
    var ts := [NoFee(Buy, 1000.0, 0.01), NoFee(Buy, 2000.0, 0.03)];
    assert ts[..1] == [ts[0]] && ts[..1][..0] == [];
  }

  lemma ScenarioLongAndSell()
    ensures Expect(
      ApplyAll(BtcUsdt, Flat, [NoFee(Buy, 1000.0, 0.01), NoFee(Buy, 2000.0, 0.03), NoFee(Sell, 3000.0, 0.01)]),
      (1000.0 * 0.01 + 2000.0 * 0.03) / 0.04, 0.03, 0.0 - 1000.0 * 0.01 - 2000.0 * 0.03 + 3000.0 * 0.01,
      (3000.0 - (1000.0 * 0.01 + 2000.0 * 0.03) / 0.04) * 0.01)
  {
    AfterLong(NoFee(Sell, 3000.0, 0.01));
    assert Classify(0.04, Sell, 0.01) == Reduce;
  }

  lemma ScenarioLongToShort()
    ensures Expect(
      ApplyAll(BtcUsdt, Flat, [NoFee(Buy, 1000.0, 0.01), NoFee(Buy, 2000.0, 0.03), NoFee(Sell, 3000.0, 0.10)]),
      3000.0, -0.06, -1000.0 * 0.01 - 2000.0 * 0.03 + 3000.0 * 0.1,
      (3000.0 - (1000.0 * 0.01 + 2000.0 * 0.03) / 0.04) * 0.04)
  {
    AfterLong(NoFee(Sell, 3000.0, 0.10));
    SellFlipsLong();
  }

  /** A third trade after the two buys of `ScenarioLong` acts on the 0.04 long at 1750. */
  lemma AfterLong(last: Trade)
    ensures var step := Apply(BtcUsdt, Snapshot(0.04, -70.0, 1750.0), last);
      ApplyAll(BtcUsdt, Flat, [NoFee(Buy, 1000.0, 0.01), NoFee(Buy, 2000.0, 0.03), last])
        == Outcome(step.after, if step.realized then step.profit else 0.0, step.realized)
  {
    var ts := [NoFee(Buy, 1000.0, 0.01), NoFee(Buy, 2000.0, 0.03), last];
    assert ts[..2] == [ts[0], ts[1]];
    ScenarioLong();
    OpeningOnlyNeverRealizes(BtcUsdt, Flat, ts[..2]);
  }

  /** The last step of `ScenarioLongToShort`: selling 0.10 out of a 0.04 long. */
  lemma SellFlipsLong()
    ensures Apply(BtcUsdt, Snapshot(0.04, -70.0, 1750.0), NoFee(Sell, 3000.0, 0.10))
         == Outcome(Snapshot(-0.06, 230.0, 3000.0), 1250.0 * 0.04, true)
  {
    assert NetQuantity(BtcUsdt, NoFee(Sell, 3000.0, 0.10)) == 0.10;
    assert Classify(0.04, Sell, 0.10) == Flip;
  }

  lemma ScenarioShort()
    ensures Expect(
      ApplyAll(BtcUsdt, Flat, [NoFee(Sell, 2000.0, 0.01), NoFee(Sell, 3000.0, 0.03)]),
      (2000.0 * 0.01 + 3000.0 * 0.03) / (0.01 + 0.03), 0.0 - 0.01 - 0.03, 2000.0 * 0.01 + 3000.0 * 0.03, 0.0)
  {
    var ts := [NoFee(Sell, 2000.0, 0.01), NoFee(Sell, 3000.0, 0.03)];
    assert ts[..1] == [ts[0]] && ts[..1][..0] == [];
  }
}
