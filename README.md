# IBC front-running testbed: verified model of its decision logic

The testbed drives two Cosmos chains joined by an IBC relayer. It stages
front-running and MEV scenarios:
- a relayer front-run;
- a validator-fee front-run;
- a cross-chain "sandwich" against a simulated constant-product DEX, in a DEX variant and a mocked variant;
- a front-run against ordered and unordered channels.

It then decides from on-chain records whether each attack worked. This project models those decisions as Dafny over plain records, and proves properties about them:

- **Event records** (`tx_records.dfy`): transactions, log entries, events, attributes and coins, as the chain's JSON gives them. An attribute read gives the last value of a repeated key.
- **Packet correlation** (`event_scan.dfy`, `correlation.dfy`):
  - The nested loops over `Logs[].Events[].Attributes[]`, and also over the top-level `Events[]` in the shared helper. These are written once as a scanner, parameterised by event kind and attribute tests.
  - The sequence lookup (`findPacketSequenceFromTx`) and the receipt re-validation (`findRecvPacketTx`) are built on that scanner.
  - The shared helpers in `main/utils.go` test port, channel and sequence, and fall back to top-level events.
  - The per-scenario copies in `main/case1_relayer_frontrun.go`, `main/case2_validator_fee_frontrun.go`, `main/case3_cross_chain_mev_mocked.go` and `main/case4_channel_order_frontrun.go` test channel and sequence only, over log entries only. They behave alike, so they share one definition (`PacketSequenceOnChannel`, `ReceiptOnChannel`).
- **Relay outcome** (`relay.dfy`): whether a failed relayer command counts as "already relayed". The test looks for phrases in the lower-cased error output, and each program has its own phrase list.
- **Balances** (`balances.dfy`): the shared helper's reading of a `query bank balances` result, and the relayer front-run's own single-denom variant.
- **Heights** (`heights.dfy`): `strconv.ParseInt(h, 10, 64)` with its error discarded. That call is how every scenario turns a reported height into a number, so an unparseable height becomes 0 and an out-of-range one is clamped.
- **Pool simulator** (`amm.dfy`):
  - The fee-free x·y=k pool of the DEX scenario is the global `dexPool`, modelled as a `Dex` object holding a nullable `LiquidityPool`.
  - Its swaps update reserves and `K` in place. Integer (floor) output uses Euclidean division, as `big.Int.Div` does.
  - The integer part of `calculatePriceImpact` is modelled too.
- **Verdicts** (`verdicts.dfy`, `sandwich.dfy`, `block_order.dfy`):
  - the three-way block-height verdicts;
  - the ordered-channel violation check;
  - the early exits of the channel-order run;
  - the buy ≤ recv ≤ sell sandwich check with the profit verdict, and the mocked scenario's outcome;
  - the validator-fee scenario's intra-block index walk. The walk base64-decodes each entry, hashes it with SHA-256 and compares the upper-cased hex with the two targets.

External commands and queries (`queryTx`, the tx search, `bankSend`, `ibcTransfer`, the relayer, `queryBlock`) are not modelled as calls. Their results are inputs: a `Result` for a call that returns an error, and an `Option` where the program ignores the error and keeps a possibly nil record. JSON decoding results are inputs too. The base64 decoder and the SHA-256 hex digest are function parameters (`decode`, `hexDigest`).

Choices in the code that the model keeps as written:
- The swap quote floors the quotient, so it is non-decreasing in the input but not strictly increasing: `Amm.OutputNotStrictlyIncreasing` shows inputs 0 and 1 both yield 0 from the 2000/2000 pool.
- The scenarios treat a same-block placement without index data differently:
  - the relayer front-run reports INFO;
  - the channel-order run reports POTENTIAL;
  - the sandwich check counts a same block as a valid order (`Verdicts.FrontrunVerdictOf`, `Sandwich.SameBlockAndMissing`).
- In the DEX scenario the attacker sells 190 stake but its buy yielded 95. The reported profit of 724 therefore counts IBC received for stake the buy did not produce (`Sandwich.ConfiguredSandwich`).
- `simulateSwapStakeForIBC` and `simulateSwapIBCForStake` (`main/case3_cross_chain_mev_dex.go:79-121`) do not reject a zero or negative input, nor an output that empties a reserve, and the model's swap methods accept both too. They only require a non-zero denominator, because `big.Int` division by zero panics.

## Model

| member | source | states |
|---|---|---|
| TxRecords.AttrValue | main/utils.go:220-235 | the value the attribute loop leaves in a local for a key: the last attribute's value under that key, or ""; its properties are `TxRecords.LastValueWins`, `TxRecords.AbsentKeyIsEmpty` and `TxRecords.AttrValueSource` |
| TxRecords.LastValueWins | main/utils.go:227-235 | within one event, a key's value is the one from its last attribute with that key |
| TxRecords.AbsentKeyIsEmpty | main/utils.go:220-235 | a key that no attribute carries reads as the empty string |
| TxRecords.AttrValueSource | main/utils.go:227-235 | a non-empty value read for a key is carried by some attribute with that key |
| TxRecords.LogEventsAppend | main/utils.go:217-218 | flattening log entries distributes over concatenation of the entry list |
| EventScan.FirstHit | main/utils.go:217-268 | no hit exactly when no scanned event qualifies; a hit has one value per attribute test, and each value passes its test |
| EventScan.FirstHitPosition | main/utils.go:217-268 | a hit comes from a qualifying event, and every earlier event fails to qualify |
| EventScan.FirstHitSkip | main/utils.go:217-242 | events that cannot qualify, placed in front, do not change the answer |
| EventScan.FirstHitHere | main/utils.go:237-239 | a qualifying first event is the answer, with its own attribute values |
| EventScan.FirstHitKeep | main/utils.go:217-266 | once a hit is found among the log events, the top-level events appended after cannot change it |
| EventScan.LogEventsAround | main/utils.go:217-218 | the flattened log events split around entry `li` into the events before it, its own and the ones after |
| EventScan.ReadAttributes | main/utils.go:220-236 | the attribute loop leaves, for each tested key, the value that key reads as |
| EventScan.ScanEvents | main/utils.go:245-266 | the loop over one event list returns the first qualifying event's values, or nothing |
| EventScan.ScanTx | main/utils.go:217-268 | the nested loops over log entries, then top-level events, return the first hit over the whole scanned sequence |
| Correlation.SequenceFrom | main/utils.go:207-268 | success exactly when the query succeeded, the code is 0 and some scanned event qualifies; the sequence is non-empty; a non-zero code always fails |
| Correlation.PacketSequence | main/utils.go:207-268 | the shared sequence lookup: `send_packet` tested on source port and channel, over log events then top-level events; its properties are `Correlation.PacketSequenceSound`, `Correlation.PacketSequenceComplete` and `Correlation.LogsTakePrecedence` |
| Correlation.PacketSequenceOnChannel | main/case1_relayer_frontrun.go:317-345 | the scenario copies' sequence lookup: `send_packet` tested on channel and non-empty sequence, over log events only; `Correlation.TopLevelOnlyMissedOnChannel` states how it differs from the shared one |
| Correlation.ReceiptFrom | main/utils.go:295-367 | success exactly when the search returned a first candidate and one of its scanned events qualifies; an empty list fails with no candidates |
| Correlation.Receipt | main/utils.go:295-367 | the shared receipt lookup: the first candidate, kept when a `recv_packet` event carries the destination port, channel and sequence; its properties are `Correlation.ReceiptSound` and `Correlation.OnlyFirstCandidate` |
| Correlation.ReceiptOnChannel | main/case1_relayer_frontrun.go:359-404 | the scenario copies' receipt lookup: the first candidate, tested on channel and sequence over log events only; `Correlation.ChannelTestIsWeaker` relates it to the shared one |
| Correlation.SequenceLookup | main/utils.go:207-268 | the lookup procedure returns exactly what the sequence specification gives |
| Correlation.FindPacketSequenceFromTx | main/utils.go:207-268 | the shared helper: `send_packet` by source port and channel, log events then top-level events |
| Correlation.FindPacketSequenceOnChannel | main/case1_relayer_frontrun.go:317-345 | the scenario copy: `send_packet` by source channel and non-empty sequence, log events only |
| Correlation.ReceiptLookup | main/utils.go:314-367 | the re-validation procedure returns exactly what the receipt specification gives |
| Correlation.FindRecvPacketTx | main/utils.go:295-367 | the shared helper: `recv_packet` by destination port, channel and sequence on the first candidate |
| Correlation.FindRecvPacketTxOnChannel | main/case1_relayer_frontrun.go:359-404 | the scenario copy: destination channel and sequence on the first candidate, log events only |
| Correlation.PacketSequenceSound | main/utils.go:219-264 | a returned sequence comes from a scanned `send_packet` event with the requested port and channel |
| Correlation.PacketSequenceComplete | main/utils.go:217-239 | any matching `send_packet` event in a log entry of a successful tx makes the lookup succeed |
| Correlation.LogsTakePrecedence | main/utils.go:217-268 | when a log entry qualifies, the top-level fallback never changes the answer |
| Correlation.TopLevelOnlyMissedOnChannel | main/case1_relayer_frontrun.go:323-345 | a tx whose events are only top-level yields a sequence to the shared helper and none to the scenario copies |
| Correlation.ReceiptSound | main/utils.go:322-365 | a returned receipt is the first candidate and holds a `recv_packet` with exactly the requested port, channel and sequence |
| Correlation.OnlyFirstCandidate | main/utils.go:314-322 | only the first search result is examined; later results never matter |
| Correlation.ChannelTestIsWeaker | main/case4_channel_order_frontrun.go:360-381 | every log-entry receipt the full port test accepts is also accepted by the scenario copies' channel-and-sequence test |
| Relay.MentionsAnyExactly | main/utils.go:280-285 | the chain of `Contains` calls holds exactly when some listed phrase occurs |
| Relay.RelayResult | main/utils.go:276-292 | nil exactly when the command succeeded or the lower-cased error output contains a listed phrase; otherwise an error carrying that output |
| Relay.ToleranceIgnoresCase | main/utils.go:279-285 | error output containing any letter-case spelling of a listed phrase is tolerated |
| Relay.ToleranceMonotone | main/utils.go:280-288 | a longer phrase list tolerates everything a shorter one does |
| Relay.ScenarioListsNested | main/case3_cross_chain_mev_mocked.go:330-342 | the mocked MEV list is within the channel-order list, which is within the shared list; the relayer front-run tolerates nothing |
| Relay.SharedMissesText | main/utils.go:280-285 | none of the six shared phrases occurs in a text that has neither 's' nor 'y' (the acknowledgement message is one) |
| Relay.ToleranceDiffers | main/case2_validator_fee_frontrun.go:395-405 | a failure whose lower-cased error output is such a text holding the acknowledgement phrase (the acknowledgement message in any letter case) is tolerated by the validator-fee list but reported with its output by the shared helper |
| Relay.SharedRelayPhrases | main/utils.go:276-292 | the shared helper tolerates a failure exactly when one of its six phrases occurs |
| Relay.ValidatorFeeRelayPhrases | main/case2_validator_fee_frontrun.go:395-405 | the validator-fee copy tolerates a failure exactly when one of its three phrases occurs |
| Relay.ChannelOrderRelayPhrases | main/case4_channel_order_frontrun.go:343-357 | the channel-order copy tolerates a failure exactly when one of its four phrases occurs |
| Relay.MevMockedRelayPhrases | main/case3_cross_chain_mev_mocked.go:330-342 | the mocked MEV copy tolerates a failure exactly when one of its two phrases occurs |
| Relay.RelayerFrontrunRelayUnchanged | main/case1_relayer_frontrun.go:348-356 | the relayer front-run copy returns every command error unchanged |
| Balances.AmountOf | main/utils.go:404-415 | the amount is never empty, and it is "0" when no coin has the denom |
| Balances.FirstCoinDecides | main/utils.go:404-411 | the first coin of the denom decides: its amount, or "0" when that amount is empty |
| Balances.LookupDenom | main/utils.go:404-415 | the loop over the decoded balances returns the amount the specification gives |
| Balances.BalanceQuery | main/utils.go:370-415 | a failed command reads as "0" exactly when a not-found / no-balance / zero-amount hint appears; undecodable output reads as "0" exactly when blank, an empty list or `{}`; decoded output gives the denom's amount |
| Balances.QueryBalance | main/utils.go:370-415 | the query procedure returns exactly what the specification gives |
| Balances.SingleDenomBalance | main/case1_relayer_frontrun.go:407-447 | a matching coin gives its amount as is; a non-matching coin gives "0" exactly without an exec error; undecodable output gives "0" exactly with a not-found / no-balance exec error |
| Balances.EmptyAmountReadings | main/case1_relayer_frontrun.go:440-442 | for an empty amount the shared helper answers "0" and the relayer front-run's query answers "" |
| Heights.ParseHeight | main/case4_channel_order_frontrun.go:197-198 | the parsed height always lies within the signed 64-bit range |
| Heights.DecimalRoundTrip | main/case4_channel_order_frontrun.go:197-198 | the canonical decimal text of a height in range parses back to that height |
| Heights.MalformedHeightIsZero | main/case4_channel_order_frontrun.go:197-198 | text with a non-digit among its first twenty characters after the sign parses as 0 |
| Heights.EmptyHeightIsZero | main/case1_relayer_frontrun.go:157-158 | empty text, or a bare sign, parses as 0 |
| Amm.SwapOutput | main/case3_cross_chain_mev_dex.go:71-76 | with a positive denominator the output is the largest integer whose product with (inputReserve + input) does not exceed input·outputReserve |
| Amm.OutputBelowReserve | main/case3_cross_chain_mev_dex.go:73-75 | for a positive input reserve and a non-negative input, 0 ≤ output < outputReserve |
| Amm.OutputMonotone | main/case3_cross_chain_mev_dex.go:71-76 | for fixed reserves the output is non-decreasing in the input |
| Amm.OutputNotStrictlyIncreasing | main/case3_cross_chain_mev_dex.go:71-76 | from the 2000/2000 pool, inputs 0 and 1 both yield 0 |
| Amm.ProductNonDecreasing | main/case3_cross_chain_mev_dex.go:88-95 | the reserve product after a swap is at least the product before it |
| Amm.LiquidityPool.constructor | main/case3_cross_chain_mev_dex.go:57-61 | reserves as given, and K equal to their product |
| Amm.Dex.constructor | main/case3_cross_chain_mev_dex.go:36 | the global pool starts out nil |
| Amm.Dex.InitializeLiquidityPool | main/case3_cross_chain_mev_dex.go:47-66 | a fresh pool of 2000 stake / 2000 IBC with K = 4,000,000 |
| Amm.Dex.SimulateSwapStakeForIBC | main/case3_cross_chain_mev_dex.go:79-99 | without a pool: an error and no change. Otherwise: output equals the swap quote, stake reserve up by exactly the input, IBC reserve down by exactly the output, K reset to the new product and at least the old one |
| Amm.Dex.SimulateSwapIBCForStake | main/case3_cross_chain_mev_dex.go:101-121 | the mirror image: IBC reserve up by the input, stake reserve down by the output, K reset and non-decreasing |
| Amm.PriceImpactReserves | main/case3_cross_chain_mev_dex.go:123-134 | an error exactly when a reserve is zero; otherwise the post-trade reserves built from the swap quote, without touching the pool |
| Amm.PriceImpactNonNegative | main/case3_cross_chain_mev_dex.go:128-140 | for positive reserves and a non-negative input, the post-trade price is at most the pre-trade price |
| Amm.PriceImpactMatchesSwap | main/case3_cross_chain_mev_dex.go:286-294 | for the IBC→stake buy, the hypothetical reserves equal those the real swap then leaves, and the quoted output equals the swap's |
| Amm.PriceImpactMatchesSellSwap | main/case3_cross_chain_mev_dex.go:383-394 | for the stake→IBC sell, with the reserves passed stake first, the hypothetical reserves equal those the real swap then leaves, and the quoted output equals the swap's |
| Verdicts.FrontrunVerdictOf | main/case4_channel_order_frontrun.go:196-213 | the three-way height comparison shared by the relayer and channel-order front-runs (also `main/case1_relayer_frontrun.go:154-168`); its cases are stated by `Verdicts.FrontrunVerdictCases` and `Verdicts.FrontrunVerdictSwapped` |
| Verdicts.FrontrunVerdictCases | main/case1_relayer_frontrun.go:149-168 | no comparison exactly when the attacker record or the receipt is missing; otherwise SUCCESS / SAME BLOCK / FAILURE exactly for <, =, > of the parsed heights |
| Verdicts.CanonicalHeightsDecide | main/case4_channel_order_frontrun.go:196-210 | with canonical decimal heights, the verdict is the true order of the two blocks |
| Verdicts.UnparsedAttackerHeightLooksEarliest | main/case4_channel_order_frontrun.go:197-202 | an attacker height that does not parse compares as 0 and is reported as a successful front-run against any positive canonical receipt height |
| Verdicts.FrontrunVerdictSwapped | main/case1_relayer_frontrun.go:157-168 | exchanging the two records exchanges SUCCESS and FAILURE and keeps SAME BLOCK |
| Verdicts.RelayerFrontrunVerdict | main/case1_relayer_frontrun.go:139-168 | the relayer front-run's verdict: the comparison on the attacker's record and the channel-tested receipt; `Verdicts.RelayerFrontrunSuccess` states what a SUCCESS rests on |
| Verdicts.RelayerFrontrunSuccess | main/case1_relayer_frontrun.go:141-160 | a reported SUCCESS rests on the validated first search result and a strictly earlier attacker block |
| Verdicts.OrderedChannelCheck | main/case4_channel_order_frontrun.go:216-236 | the packet-order check: on ORDERED with both receipts, violation / same block / in order by parsed height; on UNORDERED with both, any order; otherwise nothing; its cases are stated by `Verdicts.ViolationExactly` and `Verdicts.CanonicalOrderDecides` |
| Verdicts.ViolationExactly | main/case4_channel_order_frontrun.go:216-236 | a violation exactly on an ORDERED channel with both receipts and packet 1 in a later parsed block; never on an unordered channel or with a receipt missing |
| Verdicts.CanonicalOrderDecides | main/case4_channel_order_frontrun.go:216-230 | with canonical heights on an ORDERED channel: violation, same block or in order exactly as h1 >, =, < h2 |
| Verdicts.FrontRunTest | main/case4_channel_order_frontrun.go:90-236 | `runFrontRunTest`: its early returns in order, then the front-run verdict on packet 2 and the order check; its properties are `Verdicts.AbortsExactly`, `Verdicts.RelayFailuresIgnored` and `Verdicts.FinishedJudgesPacket2` |
| Verdicts.AbortsExactly | main/case4_channel_order_frontrun.go:94-150 | the run ends without a verdict exactly when a send, a sequence lookup or the attacker's tx fails; an attacker-send abort means all earlier steps succeeded |
| Verdicts.RelayFailuresIgnored | main/case4_channel_order_frontrun.go:130-182 | relay failures never change the report |
| Verdicts.FinishedJudgesPacket2 | main/case4_channel_order_frontrun.go:186-213 | a finished run judges the front-run on packet 2's receipt alone; a failed attacker query leaves it inconclusive |
| Sandwich.SequenceHolds | main/case3_cross_chain_mev_mocked.go:181-200 | the sandwich order: all three records present and buy ≤ recv ≤ sell by parsed height (also `main/case3_cross_chain_mev_dex.go:441-458`); `Sandwich.CheckSequence` computes it and `Sandwich.CanonicalSequence`/`Sandwich.SameBlockAndMissing` state its meaning |
| Sandwich.CheckSequence | main/case3_cross_chain_mev_mocked.go:181-200 | the flag is set exactly when all three records exist and buy ≤ recv ≤ sell by parsed height |
| Sandwich.CanonicalSequence | main/case3_cross_chain_mev_dex.go:441-458 | with canonical heights, the check holds exactly when the blocks are in the order b ≤ r ≤ s |
| Sandwich.SameBlockAndMissing | main/case3_cross_chain_mev_mocked.go:182-199 | three records in one block form a valid sandwich; a missing record never does |
| Sandwich.SandwichOutcome | main/case3_cross_chain_mev_dex.go:281-463 | the three swaps of the DEX scenario from the 2000/2000 pool and the profit they report; `Sandwich.SandwichKeepsPoolSolvent` and `Sandwich.ConfiguredSandwich` state its properties, and `Sandwich.SimulateSandwich` ties it to the pool object |
| Sandwich.SandwichKeepsPoolSolvent | main/case3_cross_chain_mev_dex.go:281-463 | profit is the IBC returned minus the IBC spent; both reserves stay positive; the reserve product never falls below the initial K |
| Sandwich.ConfiguredSandwich | main/case3_cross_chain_mev_dex.go:14-20 | the configured run: 100 IBC buys 95 stake, the victim's 2500 IBC buys 1035 stake, 190 stake sells for 824 IBC; profit 724; pool ends at 3776 / 1060 |
| Sandwich.SimulateSandwich | main/case3_cross_chain_mev_dex.go:281-394 | the pool after the three swaps holds exactly the reserves of the specification, with K equal to their product |
| Sandwich.MevVerdict | main/case3_cross_chain_mev_dex.go:480-488 | PROFIT, LOSS or FAILED from the sequence flag and the profit's sign; `Sandwich.ProfitOnlyForValidSandwich` states its cases |
| Sandwich.ProfitOnlyForValidSandwich | main/case3_cross_chain_mev_dex.go:480-488 | PROFIT exactly for a valid sequence with positive profit; an invalid sequence is reported as failed, whatever the profit |
| Sandwich.ConfiguredRunProfits | main/case3_cross_chain_mev_dex.go:461-488 | with the configured trades, every valid sequence is reported as PROFIT |
| Sandwich.MockedRun | main/case3_cross_chain_mev_mocked.go:94-205 | the mocked scenario: the buy, the victim's transfer, the sequence and receipt lookups and the sell are fatal in that order, then the sequence check decides; `Sandwich.MockedRunProperties` states its properties |
| Sandwich.MockedRunProperties | main/case3_cross_chain_mev_mocked.go:94-205 | a relay failure never changes the outcome; a failed pre-emptive buy and a missing receipt always abort; a completed run reports success exactly when the sandwich order holds |
| BlockOrder.LastIndexOf | main/case2_validator_fee_frontrun.go:192-214 | -1 ≤ index < length; a found index hashes to the target; no later entry does |
| BlockOrder.UndecodableKeepsPosition | main/case2_validator_fee_frontrun.go:199-204 | an entry that does not decode still occupies its position: putting one in front shifts every found index by one |
| BlockOrder.ResolveTxIndices | main/case2_validator_fee_frontrun.go:192-214 | the loop leaves, for each target, the last matching position or -1 |
| BlockOrder.IndexVerdict | main/case2_validator_fee_frontrun.go:219-230 | SUCCESS when both indices were found and the attacker's is smaller, FAILURE when both were found otherwise, ERROR with the two found flags when one is missing; `BlockOrder.AttackerFirstMeaning` states what SUCCESS implies |
| BlockOrder.IntraBlockOutcome | main/case2_validator_fee_frontrun.go:164-230 | the whole order check: fatal query failures, FAILURE on differing height strings, otherwise the index verdict over the block; its properties are `BlockOrder.AttackerFirstMeaning`, `BlockOrder.DifferentHeightsIgnoreBlock` and `BlockOrder.HashCaseIgnored` |
| BlockOrder.VerifyIntraBlockOrder | main/case2_validator_fee_frontrun.go:164-230 | the check returns exactly the outcome the specification gives |
| BlockOrder.AttackerFirstMeaning | main/case2_validator_fee_frontrun.go:178-223 | SUCCESS means: equal height strings, both hashes found in the block, and the attacker's last occurrence strictly before the receipt's |
| BlockOrder.DifferentHeightsIgnoreBlock | main/case2_validator_fee_frontrun.go:178-183 | with the height strings different the verdict is FAILURE, whatever the block holds |
| BlockOrder.HashCaseIgnored | main/case2_validator_fee_frontrun.go:196-206 | the letter case of the attacker's hash does not change the outcome |
| BlockOrder.LastOccurrenceWins | main/case2_validator_fee_frontrun.go:199-214 | a hash found at two positions is recorded at the later one |

## Left out

- Process execution, CLI argument assembly, `executeCommand`, `ibcTransfer`, `bankSend`, `queryTx`, the tx search, `queryBlock` and `getKeyAddress`: their results are inputs to the model, not modelled calls.
- JSON decoding: decoded records, or None for output that does not decode, are inputs.
- `time.Sleep` waits and all logging: fixed delays and output only.
- The goroutine and `select` timeout in main/case2_validator_fee_frontrun.go:122-156: concurrency.
- SHA-256 and base64 (`sha256HashBytes`, `getTxHashFromBytes`, and the decoding in the validator-fee loop): foreign library calls, taken as the function parameters `hexDigest` and `decode`.
- The `big.Float` price-impact and profit percentages (main/case3_cross_chain_mev_dex.go:129-142, 474-478): floating point. Only the integer reserves they are built from are modelled (`Amm.PriceImpactReserves`).
- The parse-error branches of `initializeLiquidityPool` and of the amount constants in the DEX `main`: the amounts are constant decimal literals, so these branches are never taken. The constants are used directly.
- `executeSwapTransaction`, `executeRealSwapTransaction`, `initializeDEXWithRealReserves` (apart from its call to `initializeLiquidityPool`), `logBalance` and `setupCase3`: on-chain transfer plumbing.
- main/config.go and main/validate_setup.go: environment loading, path expansion and connectivity checks.
- `queryBalance` in main/case3_cross_chain_mev_mocked.go:368-395: it compares a string with nil, so it does not type-check and has no behaviour to model.
- Letter case: `strings.ToLower`/`ToUpper` are modelled on ASCII letters only; other Unicode case mappings are not modelled.
- Sandwich.SimulateSandwich: the price-impact and attacker-swap error exits of the DEX `main` are proved unreachable and not modelled as outcomes. The victim's swap warning is likewise never triggered.
- The channel-ordering run models only the decisions of `runFrontRunTest`. Which transactions the receipt searches return is an input, so the link between a sent packet and its on-chain receipt is assumed rather than modelled.
