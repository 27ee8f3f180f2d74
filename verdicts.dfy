/**
  Height verdicts of the relayer front-running and channel-ordering
  scenarios. Heights arrive as the decimal text a chain reports and are
  parsed with `strconv.ParseInt`, errors discarded (Heights.ParseHeight), so
  an unparseable height compares as 0.
*/
module Verdicts {
  import opened Wrappers
  import opened TxRecords
  import opened Heights
  import Correlation

  /** The result of a block-height comparison of a front-running attempt. */
  datatype FrontrunVerdict =
    | Success       // attacker's block strictly earlier
    | SameBlock     // same block: reported, not counted as success
    | Failure       // attacker's block later
    | NotCompared   // attacker info or receipt missing: no heights compared

  /**
    The attacker's transaction against the victim's receipt. Both scenarios
    use the same three-way comparison once both records are at hand.
  */
  function FrontrunVerdictOf(attacker: Result<TxResponse, string>, receipt: Result<TxResponse, Correlation.LookupError>)
    : FrontrunVerdict
  {
    if attacker.Err? || receipt.Err? then NotCompared
    else
      var a := ParseHeight(attacker.value.height);
      var r := ParseHeight(receipt.value.height);
      if a < r then Success
      else if a == r then SameBlock
      else Failure
  }

  /** Each verdict, spelled out as the condition that produces it. */
  lemma FrontrunVerdictCases(attacker: Result<TxResponse, string>, receipt: Result<TxResponse, Correlation.LookupError>)
    ensures FrontrunVerdictOf(attacker, receipt) == NotCompared <==> attacker.Err? || receipt.Err?
    ensures FrontrunVerdictOf(attacker, receipt) == Success <==>
      attacker.Ok? && receipt.Ok? && ParseHeight(attacker.value.height) < ParseHeight(receipt.value.height)
    ensures FrontrunVerdictOf(attacker, receipt) == SameBlock <==>
      attacker.Ok? && receipt.Ok? && ParseHeight(attacker.value.height) == ParseHeight(receipt.value.height)
    ensures FrontrunVerdictOf(attacker, receipt) == Failure <==>
      attacker.Ok? && receipt.Ok? && ParseHeight(attacker.value.height) > ParseHeight(receipt.value.height)
  {
  }

  /**
    With heights in the canonical decimal form a chain reports, the verdict is
    the true order of the two blocks.
  */
  lemma CanonicalHeightsDecide(attacker: TxResponse, receipt: TxResponse, a: nat, r: nat)
    requires a <= MaxInt64 && r <= MaxInt64
    requires attacker.height == DecimalString(a) && receipt.height == DecimalString(r)
    ensures FrontrunVerdictOf(Ok(attacker), Ok(receipt)) == Success <==> a < r
    ensures FrontrunVerdictOf(Ok(attacker), Ok(receipt)) == SameBlock <==> a == r
    ensures FrontrunVerdictOf(Ok(attacker), Ok(receipt)) == Failure <==> a > r
  {
    DecimalRoundTrip(a);
    DecimalRoundTrip(r);
  }

  /**
    An attacker record whose height does not parse compares as block 0 and
    is reported as a successful front-run against any receipt at a positive
    canonical height.
  */
  lemma UnparsedAttackerHeightLooksEarliest(attacker: TxResponse, receipt: TxResponse, r: nat)
    requires Unsigned(attacker.height) == ""
    requires 0 < r <= MaxInt64 && receipt.height == DecimalString(r)
    ensures FrontrunVerdictOf(Ok(attacker), Ok(receipt)) == Success
  {
    DecimalRoundTrip(r);
  }

  /** Swapping the two records turns an earlier block into a later one. */
  lemma FrontrunVerdictSwapped(x: TxResponse, y: TxResponse)
    ensures FrontrunVerdictOf(Ok(x), Ok(y)) == Success <==> FrontrunVerdictOf(Ok(y), Ok(x)) == Failure
    ensures FrontrunVerdictOf(Ok(x), Ok(y)) == SameBlock <==> FrontrunVerdictOf(Ok(y), Ok(x)) == SameBlock
  {
  }

  /**
    The relayer front-running scenario compares heights only when the
    receipt was found and the attacker's record was queried; a failure of
    either query is a warning, never an abort.
  */
  function RelayerFrontrunVerdict(
    attackerInfo: Result<TxResponse, string>, search: Result<seq<TxResponse>, string>,
    dstChannel: string, sequence: string): FrontrunVerdict
  {
    FrontrunVerdictOf(attackerInfo, Correlation.ReceiptOnChannel(search, dstChannel, sequence))
  }

  /** A reported success rests on a validated receipt for the packet and an earlier attacker block. */
  lemma RelayerFrontrunSuccess(
    attackerInfo: Result<TxResponse, string>, search: Result<seq<TxResponse>, string>,
    dstChannel: string, sequence: string)
    requires RelayerFrontrunVerdict(attackerInfo, search, dstChannel, sequence) == Success
    ensures attackerInfo.Ok? && search.Ok? && |search.value| > 0
    ensures Correlation.ReceiptOnChannel(search, dstChannel, sequence) == Ok(search.value[0])
    ensures ParseHeight(attackerInfo.value.height) < ParseHeight(search.value[0].height)
  {
  }

  // ---------------------------------------------------------------------------
  // The channel-ordering scenario
  // ---------------------------------------------------------------------------

  /** The delivery-order check of the two victim packets. */
  datatype OrderCheck =
    | Violation           // ORDERED channel, packet 1 in a later block than packet 2
    | OrderedSameBlock    // ORDERED channel, same block: informational only
    | InOrder             // ORDERED channel, packet 1 in an earlier block
    | AnyOrder            // UNORDERED channel: informational only
    | NotChecked          // other channel type, or a receipt missing

  const Ordered: string := "ORDERED"
  const Unordered: string := "UNORDERED"

  function OrderedChannelCheck(
    channelType: string,
    receipt1: Result<TxResponse, Correlation.LookupError>,
    receipt2: Result<TxResponse, Correlation.LookupError>): OrderCheck
  {
    if channelType == Ordered && receipt1.Ok? && receipt2.Ok? then
      var p1 := ParseHeight(receipt1.value.height);
      var p2 := ParseHeight(receipt2.value.height);
      if p1 > p2 then Violation
      else if p1 == p2 then OrderedSameBlock
      else InOrder
    else if channelType == Unordered && receipt1.Ok? && receipt2.Ok? then AnyOrder
    else NotChecked
  }

  /**
    A violation is reported exactly on an ORDERED channel with both receipts
    found and packet 1 parsed to a later block than packet 2; an unordered
    channel or a missing receipt never reports one.
  */
  lemma ViolationExactly(
    channelType: string,
    receipt1: Result<TxResponse, Correlation.LookupError>,
    receipt2: Result<TxResponse, Correlation.LookupError>)
    ensures OrderedChannelCheck(channelType, receipt1, receipt2) == Violation <==>
      channelType == Ordered && receipt1.Ok? && receipt2.Ok? &&
      ParseHeight(receipt1.value.height) > ParseHeight(receipt2.value.height)
    ensures channelType == Unordered || receipt1.Err? || receipt2.Err? ==>
      OrderedChannelCheck(channelType, receipt1, receipt2) != Violation
  {
  }

  /** With canonical heights the ordered-channel check reports the true delivery order. */
  lemma CanonicalOrderDecides(channelType: string, rx1: TxResponse, rx2: TxResponse, h1: nat, h2: nat)
    requires channelType == Ordered
    requires h1 <= MaxInt64 && h2 <= MaxInt64
    requires rx1.height == DecimalString(h1) && rx2.height == DecimalString(h2)
    ensures OrderedChannelCheck(channelType, Ok(rx1), Ok(rx2)) == Violation <==> h1 > h2
    ensures OrderedChannelCheck(channelType, Ok(rx1), Ok(rx2)) == OrderedSameBlock <==> h1 == h2
    ensures OrderedChannelCheck(channelType, Ok(rx1), Ok(rx2)) == InOrder <==> h1 < h2
  {
    DecimalRoundTrip(h1);
    DecimalRoundTrip(h2);
  }

  /** The steps whose failure ends the channel-ordering run early. */
  datatype Step = SendPacket1 | SendPacket2 | FindSequence1 | FindSequence2 | AttackerSend

  datatype TestReport =
    | Aborted(step: Step)
    | Finished(frontrun: FrontrunVerdict, order: OrderCheck)

  /**
    The inputs of one channel-ordering run: the results of the commands and
    queries it issues, in the order it issues them. A send yields its
    transaction hash; a relay yields None for success or Some(error).
  */
  datatype RunInputs = RunInputs(
    send1: Result<string, string>,
    send2: Result<string, string>,
    sequenceQuery1: Result<TxResponse, string>,
    sequenceQuery2: Result<TxResponse, string>,
    relay1: Option<string>,
    attackerSend: Result<string, string>,
    relay2: Option<string>,
    attackerInfo: Result<TxResponse, string>,
    receiptSearch1: Result<seq<TxResponse>, string>,
    receiptSearch2: Result<seq<TxResponse>, string>)

  /** runFrontRunTest: early exits first, then the two verdicts. */
  function FrontRunTest(channelType: string, srcChannel: string, dstChannel: string, run: RunInputs): TestReport
  {
    if run.send1.Err? then Aborted(SendPacket1)
    else if run.send2.Err? then Aborted(SendPacket2)
    else
      var seq1 := Correlation.PacketSequenceOnChannel(run.sequenceQuery1, srcChannel);
      if seq1.Err? then Aborted(FindSequence1)
      else
        var seq2 := Correlation.PacketSequenceOnChannel(run.sequenceQuery2, srcChannel);
        if seq2.Err? then Aborted(FindSequence2)
        else if run.attackerSend.Err? then Aborted(AttackerSend)
        else
          var receipt1 := Correlation.ReceiptOnChannel(run.receiptSearch1, dstChannel, seq1.value);
          var receipt2 := Correlation.ReceiptOnChannel(run.receiptSearch2, dstChannel, seq2.value);
          Finished(FrontrunVerdictOf(run.attackerInfo, receipt2), OrderedChannelCheck(channelType, receipt1, receipt2))
  }

  /**
    The run ends without a verdict exactly when a send, a sequence lookup or
    the attacker's transaction fails, and the step reported is the first one
    that failed.
  */
  lemma AbortsExactly(channelType: string, srcChannel: string, dstChannel: string, run: RunInputs)
    ensures FrontRunTest(channelType, srcChannel, dstChannel, run).Aborted? <==>
      run.send1.Err? || run.send2.Err? ||
      Correlation.PacketSequenceOnChannel(run.sequenceQuery1, srcChannel).Err? ||
      Correlation.PacketSequenceOnChannel(run.sequenceQuery2, srcChannel).Err? ||
      run.attackerSend.Err?
    ensures FrontRunTest(channelType, srcChannel, dstChannel, run) == Aborted(AttackerSend) ==>
      run.send1.Ok? && run.send2.Ok? &&
      Correlation.PacketSequenceOnChannel(run.sequenceQuery1, srcChannel).Ok? &&
      Correlation.PacketSequenceOnChannel(run.sequenceQuery2, srcChannel).Ok?
  {
  }

  /** Relay failures are warnings only: they never change the report. */
  lemma RelayFailuresIgnored(channelType: string, srcChannel: string, dstChannel: string, run: RunInputs, e1: Option<string>, e2: Option<string>)
    ensures FrontRunTest(channelType, srcChannel, dstChannel, run.(relay1 := e1, relay2 := e2))
      == FrontRunTest(channelType, srcChannel, dstChannel, run)
  {
  }

  /**
    A finished run judges the front-run on packet 2's receipt only, and an
    attacker query or packet-2 receipt failure leaves it inconclusive.
  */
  lemma FinishedJudgesPacket2(channelType: string, srcChannel: string, dstChannel: string, run: RunInputs)
    requires FrontRunTest(channelType, srcChannel, dstChannel, run).Finished?
    ensures var seq2 := Correlation.PacketSequenceOnChannel(run.sequenceQuery2, srcChannel);
      && seq2.Ok?
      && FrontRunTest(channelType, srcChannel, dstChannel, run).frontrun ==
         FrontrunVerdictOf(run.attackerInfo, Correlation.ReceiptOnChannel(run.receiptSearch2, dstChannel, seq2.value))
    ensures run.attackerInfo.Err? ==> FrontRunTest(channelType, srcChannel, dstChannel, run).frontrun == NotCompared
  {
  }
}
