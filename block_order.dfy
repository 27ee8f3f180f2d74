/**
  The validator-fee front-running scenario's order check. When the attacker's
  transaction and the packet receipt landed at the same height, the block is
  fetched and its raw transaction list (base64 strings) is walked: each entry
  is decoded, hashed with SHA-256 and rendered as upper-case hex, and the
  positions of the two target hashes are recorded. The attacker wins when it
  sits strictly before the receipt.

  base64 decoding and the SHA-256 hex digest are library calls: they are the
  parameters `decode` (None when an entry is not valid base64) and `hexDigest`.
*/
module BlockOrder {
  import opened Wrappers
  import opened Text
  import opened TxRecords
  import Correlation

  /** The hash a block entry is compared under, or None when it does not decode. */
  function EntryHash(entry: string, decode: string -> Option<seq<bv8>>, hexDigest: seq<bv8> -> string): Option<string>
  {
    match decode(entry)
    case None => None
    case Some(bytes) => Some(Upper(hexDigest(bytes)))
  }

  /**
    The index the loop leaves for `target`: the last position whose entry
    hashes to it, or -1. Undecodable entries match nothing but keep their
    position.
  */
  function LastIndexOf(txs: seq<string>, target: string, decode: string -> Option<seq<bv8>>, hexDigest: seq<bv8> -> string)
    : (idx: int)
    ensures -1 <= idx < |txs|
    ensures idx >= 0 ==> EntryHash(txs[idx], decode, hexDigest) == Some(target)
    ensures forall j :: idx < j < |txs| ==> EntryHash(txs[j], decode, hexDigest) != Some(target)
  {
    if |txs| == 0 then -1
    else if EntryHash(txs[|txs| - 1], decode, hexDigest) == Some(target) then |txs| - 1
    else
      var idx := LastIndexOf(txs[..|txs| - 1], target, decode, hexDigest);
      assert forall j :: idx < j < |txs| - 1 ==> txs[j] == txs[..|txs| - 1][j];
      idx
  }

  /** An entry that does not decode, put in front of the list, shifts every found index by one. */
  lemma {:induction false} UndecodableKeepsPosition(
    bad: string, txs: seq<string>, target: string,
    decode: string -> Option<seq<bv8>>, hexDigest: seq<bv8> -> string)
    requires decode(bad).None?
    ensures var before := LastIndexOf(txs, target, decode, hexDigest);
      LastIndexOf([bad] + txs, target, decode, hexDigest) == if before == -1 then -1 else before + 1
    decreases |txs|
  {
    var all := [bad] + txs;
    if |txs| == 0 {
      assert all[..0] == [];
    } else {
      assert all[|all| - 1] == txs[|txs| - 1];
      assert all[..|all| - 1] == [bad] + txs[..|txs| - 1];
      UndecodableKeepsPosition(bad, txs[..|txs| - 1], target, decode, hexDigest);
    }
  }

  /**
    The loop over the block's entries, with no early exit: each entry that
    decodes is hashed and compared with both targets.
  */
  method ResolveTxIndices(
    txs: seq<string>, attackerHash: string, recvHash: string,
    decode: string -> Option<seq<bv8>>, hexDigest: seq<bv8> -> string)
    returns (attackerIdx: int, recvIdx: int)
    ensures attackerIdx == LastIndexOf(txs, attackerHash, decode, hexDigest)
    ensures recvIdx == LastIndexOf(txs, recvHash, decode, hexDigest)
  {
    attackerIdx, recvIdx := -1, -1;
    var i := 0;
    while i < |txs|
      invariant 0 <= i <= |txs|
      invariant attackerIdx == LastIndexOf(txs[..i], attackerHash, decode, hexDigest)
      invariant recvIdx == LastIndexOf(txs[..i], recvHash, decode, hexDigest)
    {
      assert txs[..i + 1][..i] == txs[..i];
      var bytes := decode(txs[i]);
      if bytes.Some? {
        var hash := Upper(hexDigest(bytes.value));
        if hash == attackerHash {
          attackerIdx := i;
        }
        if hash == recvHash {
          recvIdx := i;
        }
      }
      i := i + 1;
    }
    assert txs[..i] == txs;
  }

  datatype Outcome =
    | Aborted                                  // a fatal query failure ended the program
    | DifferentBlocks                          // FAILURE: heights differ, block never fetched
    | AttackerFirst(attackerIdx: nat, recvIdx: nat)      // SUCCESS
    | AttackerNotFirst(attackerIdx: nat, recvIdx: nat)   // FAILURE
    | NotLocated(attackerFound: bool, recvFound: bool)   // ERROR: no order claimed

  /** The verdict on the two recorded indices. */
  function IndexVerdict(attackerIdx: int, recvIdx: int): (o: Outcome)
    requires attackerIdx >= -1 && recvIdx >= -1
  {
    if attackerIdx != -1 && recvIdx != -1 then
      if attackerIdx < recvIdx then AttackerFirst(attackerIdx, recvIdx)
      else AttackerNotFirst(attackerIdx, recvIdx)
    else NotLocated(attackerIdx != -1, recvIdx != -1)
  }

  /**
    The check as a whole. The attacker's hash is the one its send returned;
    the receipt's hash is the receipt's own. Heights are compared as strings.
  */
  function IntraBlockOutcome(
    attackerHash: string, attackerInfo: Result<TxResponse, string>,
    receipt: Result<TxResponse, Correlation.LookupError>, block: Result<seq<string>, string>,
    decode: string -> Option<seq<bv8>>, hexDigest: seq<bv8> -> string): Outcome
  {
    if attackerInfo.Err? || receipt.Err? then Aborted
    else if attackerInfo.value.height != receipt.value.height then DifferentBlocks
    else if block.Err? then Aborted
    else
      IndexVerdict(
        LastIndexOf(block.value, Upper(attackerHash), decode, hexDigest),
        LastIndexOf(block.value, Upper(receipt.value.txHash), decode, hexDigest))
  }

  method VerifyIntraBlockOrder(
    attackerHash: string, attackerInfo: Result<TxResponse, string>,
    receipt: Result<TxResponse, Correlation.LookupError>, block: Result<seq<string>, string>,
    decode: string -> Option<seq<bv8>>, hexDigest: seq<bv8> -> string)
    returns (o: Outcome)
    ensures o == IntraBlockOutcome(attackerHash, attackerInfo, receipt, block, decode, hexDigest)
  {
    if attackerInfo.Err? || receipt.Err? {
      return Aborted;
    }
    if attackerInfo.value.height != receipt.value.height {
      return DifferentBlocks;
    }
    if block.Err? {
      return Aborted;
    }
    var attackerIdx, recvIdx := ResolveTxIndices(
      block.value, Upper(attackerHash), Upper(receipt.value.txHash), decode, hexDigest);
    if attackerIdx != -1 && recvIdx != -1 {
      if attackerIdx < recvIdx {
        return AttackerFirst(attackerIdx, recvIdx);
      }
      return AttackerNotFirst(attackerIdx, recvIdx);
    }
    return NotLocated(attackerIdx != -1, recvIdx != -1);
  }

  /**
    A SUCCESS verdict means both transactions share a height, both hashes were
    found in that block, the attacker's last occurrence is strictly before the
    receipt's, and nothing after either position matches it.
  */
  lemma AttackerFirstMeaning(
    attackerHash: string, attackerInfo: Result<TxResponse, string>,
    receipt: Result<TxResponse, Correlation.LookupError>, block: Result<seq<string>, string>,
    decode: string -> Option<seq<bv8>>, hexDigest: seq<bv8> -> string)
    requires IntraBlockOutcome(attackerHash, attackerInfo, receipt, block, decode, hexDigest).AttackerFirst?
    ensures attackerInfo.Ok? && receipt.Ok? && block.Ok?
    ensures attackerInfo.value.height == receipt.value.height
    ensures var o := IntraBlockOutcome(attackerHash, attackerInfo, receipt, block, decode, hexDigest);
      && o.attackerIdx < o.recvIdx < |block.value|
      && EntryHash(block.value[o.attackerIdx], decode, hexDigest) == Some(Upper(attackerHash))
      && EntryHash(block.value[o.recvIdx], decode, hexDigest) == Some(Upper(receipt.value.txHash))
      && (forall j :: o.attackerIdx < j < |block.value| ==>
            EntryHash(block.value[j], decode, hexDigest) != Some(Upper(attackerHash)))
  {
  }

  /** With the heights apart the block is never consulted: any block gives the same outcome. */
  lemma DifferentHeightsIgnoreBlock(
    attackerHash: string, attackerInfo: Result<TxResponse, string>,
    receipt: Result<TxResponse, Correlation.LookupError>, b1: Result<seq<string>, string>, b2: Result<seq<string>, string>,
    decode: string -> Option<seq<bv8>>, hexDigest: seq<bv8> -> string)
    requires attackerInfo.Ok? && receipt.Ok? && attackerInfo.value.height != receipt.value.height
    ensures IntraBlockOutcome(attackerHash, attackerInfo, receipt, b1, decode, hexDigest) == DifferentBlocks
    ensures IntraBlockOutcome(attackerHash, attackerInfo, receipt, b2, decode, hexDigest) == DifferentBlocks
  {
  }

  /** Hash matching ignores the letter case of the attacker's hash. */
  lemma HashCaseIgnored(
    attackerHash: string, attackerInfo: Result<TxResponse, string>,
    receipt: Result<TxResponse, Correlation.LookupError>, block: Result<seq<string>, string>,
    decode: string -> Option<seq<bv8>>, hexDigest: seq<bv8> -> string)
    ensures IntraBlockOutcome(Lower(attackerHash), attackerInfo, receipt, block, decode, hexDigest)
      == IntraBlockOutcome(attackerHash, attackerInfo, receipt, block, decode, hexDigest)
  {
    UpperIgnoresCase(attackerHash);
  }

  /** A transaction found at two positions is recorded at the later one. */
  lemma LastOccurrenceWins(
    txs: seq<string>, target: string, i: int, j: int,
    decode: string -> Option<seq<bv8>>, hexDigest: seq<bv8> -> string)
    requires 0 <= i < j < |txs|
    requires EntryHash(txs[i], decode, hexDigest) == Some(target)
    requires EntryHash(txs[j], decode, hexDigest) == Some(target)
    ensures LastIndexOf(txs, target, decode, hexDigest) >= j
  {
  }
}
