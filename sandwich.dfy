/**
  The cross-chain MEV ("sandwich") scenarios: the attacker buys before the
  victim's IBC packet lands, the victim's arrival moves the market, and the
  attacker sells afterwards. Both variants judge the attempt by the block
  heights of the buy, the receipt and the sell; the DEX variant also runs the
  three trades through the simulated pool and reports the profit.
*/
module Sandwich {
  import opened Wrappers
  import opened TxRecords
  import opened Heights
  import opened Amm
  import Correlation

  // ---------------------------------------------------------------------------
  // The sequence check
  // ---------------------------------------------------------------------------

  /**
    The sandwich order: all three records found and buy <= recv <= sell by
    parsed height, so placements in one block count.
  */
  predicate SequenceHolds(buy: Option<TxResponse>, recv: Option<TxResponse>, sell: Option<TxResponse>)
  {
    && buy.Some? && recv.Some? && sell.Some?
    && ParseHeight(buy.value.height) <= ParseHeight(recv.value.height)
    && ParseHeight(recv.value.height) <= ParseHeight(sell.value.height)
  }

  /** The `validSequence` flag: set, then cleared by a missing record or an out-of-order height. */
  method CheckSequence(buy: Option<TxResponse>, recv: Option<TxResponse>, sell: Option<TxResponse>)
    returns (validSequence: bool)
    ensures validSequence == SequenceHolds(buy, recv, sell)
  {
    validSequence := true;
    if buy.None? || recv.None? || sell.None? {
      validSequence := false;
    } else {
      var buyHeight := ParseHeight(buy.value.height);
      var recvHeight := ParseHeight(recv.value.height);
      var sellHeight := ParseHeight(sell.value.height);
      if !(buyHeight <= recvHeight && recvHeight <= sellHeight) {
        validSequence := false;
      }
    }
  }

  /** With canonical heights the check is exactly the block order buy <= recv <= sell. */
  lemma CanonicalSequence(buy: TxResponse, recv: TxResponse, sell: TxResponse, b: nat, r: nat, s: nat)
    requires b <= MaxInt64 && r <= MaxInt64 && s <= MaxInt64
    requires buy.height == DecimalString(b) && recv.height == DecimalString(r) && sell.height == DecimalString(s)
    ensures SequenceHolds(Some(buy), Some(recv), Some(sell)) <==> b <= r <= s
  {
    DecimalRoundTrip(b);
    DecimalRoundTrip(r);
    DecimalRoundTrip(s);
  }

  /** All three in one block is a valid sandwich; any record missing never is. */
  lemma SameBlockAndMissing(buy: TxResponse, recv: TxResponse, sell: TxResponse)
    requires buy.height == recv.height == sell.height
    ensures SequenceHolds(Some(buy), Some(recv), Some(sell))
    ensures !SequenceHolds(None, Some(recv), Some(sell))
    ensures !SequenceHolds(Some(buy), None, Some(sell))
    ensures !SequenceHolds(Some(buy), Some(recv), None)
  {
  }

  // ---------------------------------------------------------------------------
  // The DEX variant: the three trades on the simulated pool
  // ---------------------------------------------------------------------------

  /** What the three simulated trades produce, and the pool they leave. */
  datatype SandwichRun = SandwichRun(
    stakeBought: int,     // stake the attacker's buy yields
    victimStake: int,     // stake the victim's swap yields
    ibcBack: int,         // IBC the attacker's sell yields
    profit: int,          // ibcBack minus the IBC the buy spent
    reserveIBC: int,
    reserveStake: int)

  /**
    The trades from the 2000/2000 pool: buy stake with `buyIbc` IBC, the victim
    swaps half (rounded down) of `victimTransfer` IBC for stake, then sell
    `sellStake` stake for IBC.
  */
  function SandwichOutcome(buyIbc: nat, victimTransfer: nat, sellStake: nat): SandwichRun
  {
    var ibc0, stake0 := InitialReserveIBC, InitialReserveStake;
    var bought := SwapOutput(buyIbc, ibc0, stake0);
    OutputBelowReserve(buyIbc, ibc0, stake0);
    var ibc1, stake1 := ibc0 + buyIbc, stake0 - bought;

    var victimSwap := victimTransfer / 2;
    var victimOut := SwapOutput(victimSwap, ibc1, stake1);
    OutputBelowReserve(victimSwap, ibc1, stake1);
    var ibc2, stake2 := ibc1 + victimSwap, stake1 - victimOut;

    var back := SwapOutput(sellStake, stake2, ibc2);
    SandwichRun(bought, victimOut, back, back - buyIbc, ibc2 - back, stake2 + sellStake)
  }

  /**
    Whatever the amounts, the profit is the IBC returned minus the IBC spent,
    the pool stays solvent, and its product never falls below the initial K.
  */
  lemma SandwichKeepsPoolSolvent(buyIbc: nat, victimTransfer: nat, sellStake: nat)
    ensures var run := SandwichOutcome(buyIbc, victimTransfer, sellStake);
      && run.profit == run.ibcBack - buyIbc
      && run.reserveIBC > 0 && run.reserveStake > 0
      && run.reserveIBC * run.reserveStake >= InitialReserveIBC * InitialReserveStake
  {
    var ibc0, stake0 := InitialReserveIBC, InitialReserveStake;
    var bought := SwapOutput(buyIbc, ibc0, stake0);
    OutputBelowReserve(buyIbc, ibc0, stake0);
    var ibc1, stake1 := ibc0 + buyIbc, stake0 - bought;
    assert ibc1 * stake1 >= ibc0 * stake0 by {
      ProductNonDecreasing(buyIbc, ibc0, stake0);
    }

    var victimSwap := victimTransfer / 2;
    var victimOut := SwapOutput(victimSwap, ibc1, stake1);
    OutputBelowReserve(victimSwap, ibc1, stake1);
    var ibc2, stake2 := ibc1 + victimSwap, stake1 - victimOut;
    assert ibc2 * stake2 >= ibc1 * stake1 by {
      ProductNonDecreasing(victimSwap, ibc1, stake1);
    }

    var back := SwapOutput(sellStake, stake2, ibc2);
    OutputBelowReserve(sellStake, stake2, ibc2);
    var stake3, ibc3 := stake2 + sellStake, ibc2 - back;
    assert ibc3 * stake3 >= ibc2 * stake2 by {
      ProductNonDecreasing(sellStake, stake2, ibc2);
      assert ibc3 * stake3 == stake3 * ibc3;
      assert stake2 * ibc2 == ibc2 * stake2;
    }
  }

  /**
    The configured run: 100 IBC buys 95 stake, the victim's 2500 IBC buys
    1035 stake, 190 stake sells for 824 IBC, a profit of 724, and the pool
    ends at 3776 IBC / 1060 stake.
  */
  lemma ConfiguredSandwich()
    ensures SandwichOutcome(100, 5000, 190) == SandwichRun(95, 1035, 824, 724, 3776, 1060)
  {
    assert SwapOutput(100, 2000, 2000) == 95;
    assert SwapOutput(2500, 2100, 1905) == 1035;
    assert SwapOutput(190, 870, 4600) == 824;
  }

  /**
    The simulation part of the DEX scenario's `main`: initialise the pool,
    then for each trade compute the price impact and run the swap. The fatal
    exits on a price-impact or attacker-swap error cannot be taken: the
    reserves stay positive and the pool is initialised.
  */
  method SimulateSandwich(buyIbc: nat, victimTransfer: nat, sellStake: nat) returns (run: SandwichRun, dex: Dex)
    ensures fresh(dex) && dex.pool != null && fresh(dex.pool)
    ensures run == SandwichOutcome(buyIbc, victimTransfer, sellStake)
    ensures dex.pool.reserveIBC == run.reserveIBC && dex.pool.reserveStake == run.reserveStake
    ensures dex.pool.Balanced()
  {
    dex := new Dex();
    dex.InitializeLiquidityPool();
    var pool := dex.pool;

    var impact1 := PriceImpactReserves(buyIbc, pool.reserveIBC, pool.reserveStake);
    assert impact1.Ok?;
    var bought := dex.SimulateSwapIBCForStake(buyIbc);
    OutputBelowReserve(buyIbc, InitialReserveIBC, InitialReserveStake);
    var ibc1, stake1 := pool.reserveIBC, pool.reserveStake;

    var victimSwap := victimTransfer / 2;
    var victimOut := dex.SimulateSwapIBCForStake(victimSwap);
    OutputBelowReserve(victimSwap, ibc1, stake1);
    var ibc2, stake2 := pool.reserveIBC, pool.reserveStake;

    var impact2 := PriceImpactReserves(sellStake, pool.reserveStake, pool.reserveIBC);
    assert impact2.Ok?;
    var back := dex.SimulateSwapStakeForIBC(sellStake);
    run := SandwichRun(bought.value, victimOut.value, back.value, back.value - buyIbc, pool.reserveIBC, pool.reserveStake);
  }

  /** The DEX scenario's closing verdict. */
  datatype MevOutcome = Profit | Loss | SequenceFailed

  function MevVerdict(validSequence: bool, profit: int): MevOutcome
  {
    if validSequence then (if profit > 0 then Profit else Loss) else SequenceFailed
  }

  /**
    PROFIT is reported exactly for a valid sandwich with a positive profit;
    an invalid or incomplete sequence is never reported as PROFIT or LOSS,
    whatever the profit.
  */
  lemma ProfitOnlyForValidSandwich(buy: Option<TxResponse>, recv: Option<TxResponse>, sell: Option<TxResponse>, profit: int)
    ensures MevVerdict(SequenceHolds(buy, recv, sell), profit) == Profit <==> SequenceHolds(buy, recv, sell) && profit > 0
    ensures MevVerdict(SequenceHolds(buy, recv, sell), profit) == SequenceFailed <==> !SequenceHolds(buy, recv, sell)
  {
  }

  /** With the configured trades, every valid sequence is reported as PROFIT. */
  lemma ConfiguredRunProfits(buy: Option<TxResponse>, recv: Option<TxResponse>, sell: Option<TxResponse>)
    requires SequenceHolds(buy, recv, sell)
    ensures MevVerdict(SequenceHolds(buy, recv, sell), SandwichOutcome(100, 5000, 190).profit) == Profit
  {
    ConfiguredSandwich();
  }

  // ---------------------------------------------------------------------------
  // The mocked variant
  // ---------------------------------------------------------------------------

  datatype MockedOutcome =
    | Aborted         // a fatal step ended the program
    | Executed        // sequence valid
    | Incomplete      // sequence FAILED or incomplete

  /**
    The mocked scenario from the attacker's pre-emptive buy onwards. The buy,
    the victim's transfer, the sequence lookup, the receipt lookup and the
    sell are fatal on failure; the relay's result is only logged; the three
    closing record queries discard their errors, so a missing record only
    invalidates the sequence.
  */
  function MockedRun(
    buySend: Result<string, string>, victimSend: Result<string, string>, sequenceQuery: Result<TxResponse, string>, srcChannel: string,
    relay: Option<string>, receiptSearch: Result<seq<TxResponse>, string>, dstChannel: string,
    sellSend: Result<string, string>,
    buyInfo: Option<TxResponse>, recvInfo: Option<TxResponse>, sellInfo: Option<TxResponse>): MockedOutcome
  {
    if buySend.Err? || victimSend.Err? then Aborted
    else
      var sequence := Correlation.PacketSequenceOnChannel(sequenceQuery, srcChannel);
      if sequence.Err? then Aborted
      else if Correlation.ReceiptOnChannel(receiptSearch, dstChannel, sequence.value).Err? then Aborted
      else if sellSend.Err? then Aborted
      else if SequenceHolds(buyInfo, recvInfo, sellInfo) then Executed
      else Incomplete
  }

  /**
    A relay failure never changes the outcome, a failed buy or a missing
    receipt on the destination chain always aborts, and a completed run
    reports `Executed` exactly when the sandwich order holds.
  */
  lemma MockedRunProperties(
    buySend: Result<string, string>, victimSend: Result<string, string>, sequenceQuery: Result<TxResponse, string>, srcChannel: string,
    relay: Option<string>, otherRelay: Option<string>,
    receiptSearch: Result<seq<TxResponse>, string>, dstChannel: string,
    sellSend: Result<string, string>,
    buyInfo: Option<TxResponse>, recvInfo: Option<TxResponse>, sellInfo: Option<TxResponse>)
    ensures MockedRun(buySend, victimSend, sequenceQuery, srcChannel, relay, receiptSearch, dstChannel, sellSend, buyInfo, recvInfo, sellInfo)
      == MockedRun(buySend, victimSend, sequenceQuery, srcChannel, otherRelay, receiptSearch, dstChannel, sellSend, buyInfo, recvInfo, sellInfo)
    ensures buySend.Err? ==>
      MockedRun(buySend, victimSend, sequenceQuery, srcChannel, relay, receiptSearch, dstChannel, sellSend, buyInfo, recvInfo, sellInfo) == Aborted
    ensures receiptSearch.Err? || (receiptSearch.Ok? && |receiptSearch.value| == 0) ==>
      MockedRun(buySend, victimSend, sequenceQuery, srcChannel, relay, receiptSearch, dstChannel, sellSend, buyInfo, recvInfo, sellInfo) == Aborted
    ensures MockedRun(buySend, victimSend, sequenceQuery, srcChannel, relay, receiptSearch, dstChannel, sellSend, buyInfo, recvInfo, sellInfo) == Executed
      <==> MockedRun(buySend, victimSend, sequenceQuery, srcChannel, relay, receiptSearch, dstChannel, sellSend, buyInfo, recvInfo, sellInfo) != Aborted
           && SequenceHolds(buyInfo, recvInfo, sellInfo)
  {
  }
}
