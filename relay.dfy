/**
  Relaying one packet: the scripts run the relayer and, when the command
  fails, look through its lower-cased error output for phrases that mean the
  packet was already handled; such a failure is tolerated and reported as
  success. Each program carries its own list of tolerated phrases.

  The relayer command itself is an input: whether it failed and what it wrote
  to its error stream. The result follows Go's `error`: None for nil, Some(m)
  for an error carrying the error output m.
*/
module Relay {
  import opened Wrappers
  import opened Text

  /** The shared helper's list. */
  const SharedTolerated: seq<string> := [
    "no packets to relay found",
    "already relayed",
    "0/0 packets relayed",
    "light client state is not within trust period",
    "failed to send messages: 0/1 messages failed",
    "result does not exist"
  ]

  /** The validator-fee front-running scenario's list. */
  const ValidatorFeeTolerated: seq<string> := [
    "no packets to relay found",
    "already relayed",
    "acknowledgement from chain"
  ]

  /** The channel-ordering scenario's list. */
  const ChannelOrderTolerated: seq<string> := [
    "no packets to relay found",
    "already relayed",
    "light client state is not within trust period",
    "failed to send messages: 0/1 messages failed"
  ]

  /** The mocked cross-chain MEV scenario's list. */
  const MevMockedTolerated: seq<string> := [
    "no packets to relay found",
    "already relayed"
  ]

  /** The relayer front-running scenario tolerates nothing: it hands the error back unchanged. */
  const RelayerFrontrunTolerated: seq<string> := []

  /** The chain of `strings.Contains(text, p) || ...` over the phrases, left to right. */
  function MentionsAny(text: string, phrases: seq<string>): bool
  {
    if |phrases| == 0 then false
    else Contains(text, phrases[0]) || MentionsAny(text, phrases[1..])
  }

  lemma {:induction false} MentionsAnyExactly(text: string, phrases: seq<string>)
    ensures MentionsAny(text, phrases) <==> exists i :: 0 <= i < |phrases| && Contains(text, phrases[i])
    decreases |phrases|
  {
    if |phrases| > 0 {
      MentionsAnyExactly(text, phrases[1..]);
      if exists i :: 0 <= i < |phrases| && Contains(text, phrases[i]) {
        var i :| 0 <= i < |phrases| && Contains(text, phrases[i]);
        if i > 0 { assert phrases[1..][i - 1] == phrases[i]; }
      }
    }
  }

  /**
    relaySpecificPacket: a command that succeeded is success; a failed one is
    tolerated exactly when its lower-cased error output contains one of the
    phrases, and otherwise reported with its error output.
  */
  function RelayResult(failed: bool, stderr: string, phrases: seq<string>): (r: Option<string>)
    ensures r.None? <==> !failed || exists i :: 0 <= i < |phrases| && Contains(Lower(stderr), phrases[i])
    ensures r.Some? ==> r.value == stderr
  {
    MentionsAnyExactly(Lower(stderr), phrases);
    if failed && !MentionsAny(Lower(stderr), phrases) then Some(stderr) else None
  }

  /**
    The match ignores letter case: error output containing any upper/lower-case
    spelling of a tolerated phrase is tolerated.
  */
  lemma ToleranceIgnoresCase(stderr: string, spelled: string, phrases: seq<string>)
    requires Contains(stderr, spelled)
    requires Lower(spelled) in phrases
    ensures RelayResult(true, stderr, phrases).None?
  {
    ContainsIgnoringCase(stderr, spelled);
    var i :| 0 <= i < |phrases| && phrases[i] == Lower(spelled);
  }

  /** A longer list tolerates at least what a shorter one does. */
  lemma ToleranceMonotone(failed: bool, stderr: string, fewer: seq<string>, more: seq<string>)
    requires forall p :: p in fewer ==> p in more
    requires RelayResult(failed, stderr, fewer).None?
    ensures RelayResult(failed, stderr, more).None?
  {
    if failed {
      var i :| 0 <= i < |fewer| && Contains(Lower(stderr), fewer[i]);
      assert fewer[i] in fewer;
      var j :| 0 <= j < |more| && more[j] == fewer[i];
    }
  }

  /**
    The scenario lists are nested: what the mocked MEV scenario tolerates the
    channel-ordering scenario tolerates, and what that one tolerates the
    shared helper tolerates; the relayer front-running scenario tolerates nothing.
  */
  lemma ScenarioListsNested(failed: bool, stderr: string)
    ensures RelayResult(failed, stderr, MevMockedTolerated).None? ==> RelayResult(failed, stderr, ChannelOrderTolerated).None?
    ensures RelayResult(failed, stderr, ChannelOrderTolerated).None? ==> RelayResult(failed, stderr, SharedTolerated).None?
    ensures RelayResult(failed, stderr, RelayerFrontrunTolerated).None? <==> !failed
  {
    if RelayResult(failed, stderr, MevMockedTolerated).None? {
      ToleranceMonotone(failed, stderr, MevMockedTolerated, ChannelOrderTolerated);
    }
    if RelayResult(failed, stderr, ChannelOrderTolerated).None? {
      ToleranceMonotone(failed, stderr, ChannelOrderTolerated, SharedTolerated);
    }
  }

  /** The validator-fee list's acknowledgement phrase is already lower case. */
  lemma AcknowledgementPhraseIsLower()
    ensures Lower(ValidatorFeeTolerated[2]) == ValidatorFeeTolerated[2]
  {
    var phrase := ValidatorFeeTolerated[2];
    assert forall i :: 0 <= i < |phrase| ==> !('A' <= phrase[i] <= 'Z');
    LowerOfLowerText(phrase);
  }

  /** The validator-fee list's acknowledgement phrase has neither an 's' nor a 'y'. */
  lemma AcknowledgementPhraseLacksSAndY()
    ensures 's' !in ValidatorFeeTolerated[2] && 'y' !in ValidatorFeeTolerated[2]
  {
  }

  /** A phrase holding a character the text lacks does not occur in it. */
  lemma AbsentCharRulesOut(text: string, phrase: string, j: int)
    requires 0 <= j < |phrase| && phrase[j] !in text
    ensures !Contains(text, phrase)
  {
    ContainsKeepsChars(text, phrase, phrase[j]);
  }

  /** Each shared phrase holds an 's' or a 'y', so none occurs in a text without both letters. */
  lemma SharedMissesText(text: string)
    requires 's' !in text && 'y' !in text
    ensures forall i :: 0 <= i < |SharedTolerated| ==> !Contains(text, SharedTolerated[i])
  {
    var at := [9, 6, 10, 13, 10, 2];
    forall i | 0 <= i < |SharedTolerated|
      ensures !Contains(text, SharedTolerated[i])
    {
      assert SharedTolerated[i][at[i]] in "sy";
      AbsentCharRulesOut(text, SharedTolerated[i], at[i]);
    }
  }

  /**
    The validator-fee list tolerates what the shared helper reports: an error
    output that lower-cases to a text holding the acknowledgement phrase but
    neither 's' nor 'y' (the phrase itself in any letter case, by
    the two lemmas above).
  */
  lemma ToleranceDiffers(stderr: string, text: string)
    requires Lower(stderr) == text && 's' !in text && 'y' !in text
    requires Contains(text, ValidatorFeeTolerated[2])
    ensures RelayResult(true, stderr, ValidatorFeeTolerated).None?
    ensures RelayResult(true, stderr, SharedTolerated) == Some(stderr)
  {
    SharedMissesText(text);
  }

  // ---------------------------------------------------------------------------
  // Each program's classifier, phrase by phrase
  // ---------------------------------------------------------------------------

  /** The shared helper tolerates a failure exactly when one of its six phrases occurs. */
  lemma SharedRelayPhrases(failed: bool, stderr: string)
    ensures RelayResult(failed, stderr, SharedTolerated).None? <==>
      var t := Lower(stderr);
      !failed || Contains(t, "no packets to relay found") || Contains(t, "already relayed") ||
      Contains(t, "0/0 packets relayed") || Contains(t, "light client state is not within trust period") ||
      Contains(t, "failed to send messages: 0/1 messages failed") || Contains(t, "result does not exist")
  {
    var t := Lower(stderr);
    assert Contains(t, SharedTolerated[0]) || Contains(t, SharedTolerated[1]) || Contains(t, SharedTolerated[2]) || Contains(t, SharedTolerated[3]) || Contains(t, SharedTolerated[4]) || Contains(t, SharedTolerated[5]) ==> RelayResult(true, stderr, SharedTolerated).None?;
    assert RelayResult(true, stderr, SharedTolerated).None? ==> Contains(t, SharedTolerated[0]) || Contains(t, SharedTolerated[1]) || Contains(t, SharedTolerated[2]) || Contains(t, SharedTolerated[3]) || Contains(t, SharedTolerated[4]) || Contains(t, SharedTolerated[5]);
  }

  /** The validator-fee scenario tolerates a failure exactly when one of its three phrases occurs. */
  lemma ValidatorFeeRelayPhrases(failed: bool, stderr: string)
    ensures RelayResult(failed, stderr, ValidatorFeeTolerated).None? <==>
      var t := Lower(stderr);
      !failed || Contains(t, "no packets to relay found") || Contains(t, "already relayed") ||
      Contains(t, "acknowledgement from chain")
  {
    var t := Lower(stderr);
    assert Contains(t, ValidatorFeeTolerated[0]) || Contains(t, ValidatorFeeTolerated[1]) || Contains(t, ValidatorFeeTolerated[2]) ==> RelayResult(true, stderr, ValidatorFeeTolerated).None?;
    assert RelayResult(true, stderr, ValidatorFeeTolerated).None? ==> Contains(t, ValidatorFeeTolerated[0]) || Contains(t, ValidatorFeeTolerated[1]) || Contains(t, ValidatorFeeTolerated[2]);
  }

  /** The channel-ordering scenario tolerates a failure exactly when one of its four phrases occurs. */
  lemma ChannelOrderRelayPhrases(failed: bool, stderr: string)
    ensures RelayResult(failed, stderr, ChannelOrderTolerated).None? <==>
      var t := Lower(stderr);
      !failed || Contains(t, "no packets to relay found") || Contains(t, "already relayed") ||
      Contains(t, "light client state is not within trust period") ||
      Contains(t, "failed to send messages: 0/1 messages failed")
  {
    var t := Lower(stderr);
    assert Contains(t, ChannelOrderTolerated[0]) || Contains(t, ChannelOrderTolerated[1]) || Contains(t, ChannelOrderTolerated[2]) || Contains(t, ChannelOrderTolerated[3]) ==> RelayResult(true, stderr, ChannelOrderTolerated).None?;
    assert RelayResult(true, stderr, ChannelOrderTolerated).None? ==> Contains(t, ChannelOrderTolerated[0]) || Contains(t, ChannelOrderTolerated[1]) || Contains(t, ChannelOrderTolerated[2]) || Contains(t, ChannelOrderTolerated[3]);
  }

  /** The mocked MEV scenario tolerates a failure exactly when one of its two phrases occurs. */
  lemma MevMockedRelayPhrases(failed: bool, stderr: string)
    ensures RelayResult(failed, stderr, MevMockedTolerated).None? <==>
      var t := Lower(stderr);
      !failed || Contains(t, "no packets to relay found") || Contains(t, "already relayed")
  {
    var t := Lower(stderr);
    assert Contains(t, MevMockedTolerated[0]) || Contains(t, MevMockedTolerated[1]) ==> RelayResult(true, stderr, MevMockedTolerated).None?;
    assert RelayResult(true, stderr, MevMockedTolerated).None? ==> Contains(t, MevMockedTolerated[0]) || Contains(t, MevMockedTolerated[1]);
  }

  /** The relayer front-running scenario hands back every failure, with its error output. */
  lemma RelayerFrontrunRelayUnchanged(failed: bool, stderr: string)
    ensures RelayResult(failed, stderr, RelayerFrontrunTolerated) == if failed then Some(stderr) else None
  {
  }
}
