/**
  Packet correlation: from the transaction that sent an IBC packet, recover the
  packet's sequence number (a `send_packet` event), and from the transactions a
  chain returns for a sequence query, pick the one that received the packet
  (a `recv_packet` event). The shared helpers match on source/destination port
  and channel and also walk the top-level event list; the per-scenario copies
  match on the channel only and walk the log entries only.

  The node queries themselves (`query tx`, `query txs`) are inputs here: a
  queried transaction or search result is given as an Ok value, and a failed
  command or undecodable answer as an Err carrying its message.
*/
module Correlation {
  import opened Wrappers
  import opened TxRecords
  import opened EventScan

  datatype LookupError =
    | QueryFailed(message: string)
    | TxFailed(code: int)
    | SequenceNotFound
    | NoCandidates
    | AttributesMismatch

  const SendPacket: string := "send_packet"
  const RecvPacket: string := "recv_packet"
  const SrcPortKey: string := "packet_src_port"
  const SrcChannelKey: string := "packet_src_channel"
  const DstPortKey: string := "packet_dst_port"
  const DstChannelKey: string := "packet_dst_channel"
  const SequenceKey: string := "packet_sequence"

  /** The shared helper's test on a `send_packet` event: port and channel match, sequence present. */
  function SendFilter(port: string, channel: string): Filter
  {
    Filter(SendPacket, [Equals(SrcPortKey, port), Equals(SrcChannelKey, channel), NonEmpty(SequenceKey)])
  }

  /** The per-scenario test on a `send_packet` event: channel matches, sequence present. */
  function SendChannelFilter(channel: string): Filter
  {
    Filter(SendPacket, [Equals(SrcChannelKey, channel), NonEmpty(SequenceKey)])
  }

  /** The shared helper's test on a `recv_packet` event: port, channel and sequence all match. */
  function RecvFilter(port: string, channel: string, sequence: string): Filter
  {
    Filter(RecvPacket, [Equals(DstPortKey, port), Equals(DstChannelKey, channel), Equals(SequenceKey, sequence)])
  }

  /** The per-scenario test on a `recv_packet` event: channel and sequence match. */
  function RecvChannelFilter(channel: string, sequence: string): Filter
  {
    Filter(RecvPacket, [Equals(DstChannelKey, channel), Equals(SequenceKey, sequence)])
  }

  /**
    What a sequence lookup returns: the query's own failure, a failure for a
    transaction with a non-zero result code, otherwise the sequence read from
    the first qualifying `send_packet` event (always the filter's last test).
  */
  function SequenceFrom(queried: Result<TxResponse, string>, f: Filter, withTopLevel: bool): (r: Result<string, LookupError>)
    requires |f.reqs| > 0 && f.reqs[|f.reqs| - 1].NonEmpty?
    ensures r.Ok? <==>
      queried.Ok? && queried.value.code == 0 && !NoneQualify(ScannedEvents(queried.value, withTopLevel), f)
    ensures r.Ok? ==> r.value != ""
    ensures queried.Ok? && queried.value.code != 0 ==> r == Err(TxFailed(queried.value.code))
  {
    match queried
    case Err(m) => Err(QueryFailed(m))
    case Ok(tx) =>
      if tx.code != 0 then Err(TxFailed(tx.code))
      else
        match FirstHit(ScannedEvents(tx, withTopLevel), f)
        case Some(vals) =>
          assert Holds(f.reqs[|f.reqs| - 1], vals[|vals| - 1]);
          Ok(vals[|vals| - 1])
        case None => Err(SequenceNotFound)
  }

  /** The shared helper's lookup (port, channel; logs, then top-level events). */
  function PacketSequence(queried: Result<TxResponse, string>, port: string, channel: string): Result<string, LookupError>
  {
    SequenceFrom(queried, SendFilter(port, channel), true)
  }

  /** The per-scenario lookup (channel only; logs only). */
  function PacketSequenceOnChannel(queried: Result<TxResponse, string>, channel: string): Result<string, LookupError>
  {
    SequenceFrom(queried, SendChannelFilter(channel), false)
  }

  /**
    What a receipt lookup returns: the query's own failure, a failure when no
    candidate came back, otherwise the first candidate if one of its scanned
    events passes the filter, else a mismatch. Later candidates are never
    examined.
  */
  function ReceiptFrom(search: Result<seq<TxResponse>, string>, f: Filter, withTopLevel: bool): (r: Result<TxResponse, LookupError>)
    ensures r.Ok? <==>
      search.Ok? && |search.value| > 0 && !NoneQualify(ScannedEvents(search.value[0], withTopLevel), f)
    ensures search.Ok? && search.value == [] ==> r == Err(NoCandidates)
  {
    match search
    case Err(m) => Err(QueryFailed(m))
    case Ok(txs) =>
      if |txs| == 0 then Err(NoCandidates)
      else if FirstHit(ScannedEvents(txs[0], withTopLevel), f).Some? then Ok(txs[0])
      else Err(AttributesMismatch)
  }

  function Receipt(search: Result<seq<TxResponse>, string>, port: string, channel: string, sequence: string): Result<TxResponse, LookupError>
  {
    ReceiptFrom(search, RecvFilter(port, channel, sequence), true)
  }

  function ReceiptOnChannel(search: Result<seq<TxResponse>, string>, channel: string, sequence: string): Result<TxResponse, LookupError>
  {
    ReceiptFrom(search, RecvChannelFilter(channel, sequence), false)
  }

  // ---------------------------------------------------------------------------
  // The lookups as the scripts run them
  // ---------------------------------------------------------------------------

  method SequenceLookup(queried: Result<TxResponse, string>, f: Filter, withTopLevel: bool) returns (r: Result<string, LookupError>)
    requires |f.reqs| > 0 && f.reqs[|f.reqs| - 1].NonEmpty?
    ensures r == SequenceFrom(queried, f, withTopLevel)
  {
    if queried.Err? {
      return Err(QueryFailed(queried.error));
    }
    var tx := queried.value;
    if tx.code != 0 {
      return Err(TxFailed(tx.code));
    }
    var hit := ScanTx(tx, f, withTopLevel);
    if hit.Some? {
      return Ok(hit.value[|hit.value| - 1]);
    }
    return Err(SequenceNotFound);
  }

  /** findPacketSequenceFromTx of the shared helpers. */
  method FindPacketSequenceFromTx(queried: Result<TxResponse, string>, port: string, channel: string)
    returns (r: Result<string, LookupError>)
    ensures r == PacketSequence(queried, port, channel)
  {
    r := SequenceLookup(queried, SendFilter(port, channel), true);
  }

  /** findPacketSequenceFromTx of the scenario programs. */
  method FindPacketSequenceOnChannel(queried: Result<TxResponse, string>, channel: string)
    returns (r: Result<string, LookupError>)
    ensures r == PacketSequenceOnChannel(queried, channel)
  {
    r := SequenceLookup(queried, SendChannelFilter(channel), false);
  }

  method ReceiptLookup(search: Result<seq<TxResponse>, string>, f: Filter, withTopLevel: bool)
    returns (r: Result<TxResponse, LookupError>)
    ensures r == ReceiptFrom(search, f, withTopLevel)
  {
    if search.Err? {
      return Err(QueryFailed(search.error));
    }
    var txs := search.value;
    if |txs| == 0 {
      return Err(NoCandidates);
    }
    var candidate := txs[0];
    var hit := ScanTx(candidate, f, withTopLevel);
    if hit.Some? {
      return Ok(candidate);
    }
    return Err(AttributesMismatch);
  }

  /** findRecvPacketTx of the shared helpers. */
  method FindRecvPacketTx(search: Result<seq<TxResponse>, string>, port: string, channel: string, sequence: string)
    returns (r: Result<TxResponse, LookupError>)
    ensures r == Receipt(search, port, channel, sequence)
  {
    r := ReceiptLookup(search, RecvFilter(port, channel, sequence), true);
  }

  /** findRecvPacketTx of the scenario programs. */
  method FindRecvPacketTxOnChannel(search: Result<seq<TxResponse>, string>, channel: string, sequence: string)
    returns (r: Result<TxResponse, LookupError>)
    ensures r == ReceiptOnChannel(search, channel, sequence)
  {
    r := ReceiptLookup(search, RecvChannelFilter(channel, sequence), false);
  }

  // ---------------------------------------------------------------------------
  // Properties of the lookups
  // ---------------------------------------------------------------------------

  /**
    A sequence the shared helper returns was read from a `send_packet` event
    among the scanned events whose source port and channel are the ones asked for.
  */
  lemma PacketSequenceSound(queried: Result<TxResponse, string>, port: string, channel: string) returns (e: Event)
    requires PacketSequence(queried, port, channel).Ok?
    ensures queried.Ok? && e in ScannedEvents(queried.value, true)
    ensures e.kind == SendPacket
    ensures AttrValue(e.attributes, SrcPortKey) == port
    ensures AttrValue(e.attributes, SrcChannelKey) == channel
    ensures AttrValue(e.attributes, SequenceKey) == PacketSequence(queried, port, channel).value
  {
    var evs := ScannedEvents(queried.value, true);
    var i := FirstHitPosition(evs, SendFilter(port, channel));
    e := evs[i];
    var vals := Values(e.attributes, SendFilter(port, channel).reqs);
    assert Holds(SendFilter(port, channel).reqs[0], vals[0]);
    assert Holds(SendFilter(port, channel).reqs[1], vals[1]);
  }

  /**
    Any `send_packet` event in a log entry of a successful transaction that
    carries the asked-for port and channel and a sequence makes the lookup succeed.
  */
  lemma PacketSequenceComplete(tx: TxResponse, port: string, channel: string, li: int, ei: int)
    requires tx.code == 0
    requires 0 <= li < |tx.logs| && 0 <= ei < |tx.logs[li].events|
    requires tx.logs[li].events[ei].kind == SendPacket
    requires AttrValue(tx.logs[li].events[ei].attributes, SrcPortKey) == port
    requires AttrValue(tx.logs[li].events[ei].attributes, SrcChannelKey) == channel
    requires AttrValue(tx.logs[li].events[ei].attributes, SequenceKey) != ""
    ensures PacketSequence(Ok(tx), port, channel).Ok?
  {
    var f := SendFilter(port, channel);
    var e := tx.logs[li].events[ei];
    assert Qualifies(e, f);
    LogEventsAround(tx.logs, li);
    var at := |LogEvents(tx.logs[..li])| + ei;
    assert ScannedEvents(tx, true)[at] == e;
  }

  /**
    The top-level events are consulted only as a fallback: once some log entry
    holds a qualifying event, the answer is the same with or without them.
  */
  lemma LogsTakePrecedence(tx: TxResponse, f: Filter)
    requires |f.reqs| > 0 && f.reqs[|f.reqs| - 1].NonEmpty?
    requires !NoneQualify(LogEvents(tx.logs), f)
    ensures SequenceFrom(Ok(tx), f, true) == SequenceFrom(Ok(tx), f, false)
  {
    assert ScannedEvents(tx, false) == LogEvents(tx.logs);
    FirstHitKeep(LogEvents(tx.logs), tx.events, f);
  }

  /**
    A transaction whose events appear only at top level (newer node versions)
    yields a sequence to the shared helper but none to the scenario copies.
  */
  lemma TopLevelOnlyMissedOnChannel(tx: TxResponse, port: string, channel: string)
    requires tx.code == 0 && tx.logs == []
    requires PacketSequence(Ok(tx), port, channel).Ok?
    ensures PacketSequenceOnChannel(Ok(tx), channel) == Err(SequenceNotFound)
  {
    assert ScannedEvents(tx, false) == [];
  }

  /**
    A receipt the shared helper returns is the first candidate, and one of its
    scanned events is a `recv_packet` for exactly the asked-for port, channel
    and sequence.
  */
  lemma ReceiptSound(search: Result<seq<TxResponse>, string>, port: string, channel: string, sequence: string)
    returns (e: Event)
    requires Receipt(search, port, channel, sequence).Ok?
    ensures search.Ok? && |search.value| > 0
    ensures Receipt(search, port, channel, sequence).value == search.value[0]
    ensures e in ScannedEvents(search.value[0], true) && e.kind == RecvPacket
    ensures AttrValue(e.attributes, DstPortKey) == port
    ensures AttrValue(e.attributes, DstChannelKey) == channel
    ensures AttrValue(e.attributes, SequenceKey) == sequence
  {
    var f := RecvFilter(port, channel, sequence);
    var evs := ScannedEvents(search.value[0], true);
    var i := FirstHitPosition(evs, f);
    e := evs[i];
    var vals := Values(e.attributes, f.reqs);
    assert Holds(f.reqs[0], vals[0]) && Holds(f.reqs[1], vals[1]) && Holds(f.reqs[2], vals[2]);
  }

  /** Only the first candidate is examined: dropping the rest changes nothing. */
  lemma OnlyFirstCandidate(txs: seq<TxResponse>, f: Filter, withTopLevel: bool)
    requires |txs| > 0
    ensures ReceiptFrom(Ok(txs), f, withTopLevel) == ReceiptFrom(Ok(txs[..1]), f, withTopLevel)
  {
    assert txs[..1][0] == txs[0];
  }

  /**
    The scenario copies drop the port test: a log-entry receipt the full test
    accepts is accepted by the channel-and-sequence test too.
  */
  lemma ChannelTestIsWeaker(search: Result<seq<TxResponse>, string>, port: string, channel: string, sequence: string)
    requires ReceiptFrom(search, RecvFilter(port, channel, sequence), false).Ok?
    ensures ReceiptOnChannel(search, channel, sequence) == ReceiptFrom(search, RecvFilter(port, channel, sequence), false)
  {
    var full := RecvFilter(port, channel, sequence);
    var weak := RecvChannelFilter(channel, sequence);
    var evs := ScannedEvents(search.value[0], false);
    var i := FirstHitPosition(evs, full);
    var vals := Values(evs[i].attributes, full.reqs);
    var wvals := Values(evs[i].attributes, weak.reqs);
    assert Holds(full.reqs[1], vals[1]) && Holds(full.reqs[2], vals[2]);
    assert wvals[0] == vals[1] && wvals[1] == vals[2];
    assert Qualifies(evs[i], weak);
  }
}
