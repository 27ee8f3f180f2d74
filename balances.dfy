/**
  Balance queries: turn the output of `query bank balances` into an amount
  string. The command's outcome (whether it failed, what it wrote to its
  output and error streams) and the result of decoding its output as JSON are
  inputs; the decode is None when the output is not valid JSON of the
  expected shape. The returned amount is a decimal text, or an error.
*/
module Balances {
  import opened Wrappers
  import opened Text
  import opened TxRecords

  datatype BalanceError = CommandFailed(stderr: string) | Undecodable(stdout: string) | DenomMismatch

  const NotFoundHint: string := "not found"
  const NoBalanceHint: string := "no balance"
  const ZeroAmountBare: string := "amount:\"0\""
  const ZeroAmountQuoted: string := "amount\":\"0\""
  const EmptyBalances: string := "\"balances\":[]"

  /**
    The amount of the first coin of `denom` in a decoded balances list: "0"
    for an empty amount, "0" when no coin has that denom.
  */
  function AmountOf(coins: seq<Coin>, denom: string): (amount: string)
    ensures amount != ""
    ensures (forall j :: 0 <= j < |coins| ==> coins[j].denom != denom) ==> amount == "0"
  {
    if |coins| == 0 then "0"
    else if coins[0].denom == denom then (if coins[0].amount == "" then "0" else coins[0].amount)
    else AmountOf(coins[1..], denom)
  }

  /** The first coin of `denom` decides; later coins of the same denom are ignored. */
  lemma {:induction false} FirstCoinDecides(coins: seq<Coin>, denom: string, i: int)
    requires 0 <= i < |coins| && coins[i].denom == denom
    requires forall j :: 0 <= j < i ==> coins[j].denom != denom
    ensures AmountOf(coins, denom) == if coins[i].amount == "" then "0" else coins[i].amount
    decreases i
  {
    if i > 0 {
      FirstCoinDecides(coins[1..], denom, i - 1);
    }
  }

  /** The loop over the decoded balances: return at the first coin of `denom`. */
  method LookupDenom(coins: seq<Coin>, denom: string) returns (amount: string)
    ensures amount == AmountOf(coins, denom)
  {
    var k := 0;
    while k < |coins|
      invariant 0 <= k <= |coins|
      invariant AmountOf(coins, denom) == AmountOf(coins[k..], denom)
    {
      if coins[k].denom == denom {
        if coins[k].amount == "" {
          return "0";
        }
        return coins[k].amount;
      }
      assert coins[k..][1..] == coins[k + 1..];
      k := k + 1;
    }
    return "0";
  }

  /**
    The shared helper's balance query: a failed command reads as zero only
    when its error output says "not found"/"no balance" or its output shows a
    zero amount; output that does not decode reads as zero only when it is
    blank, an empty balances list, or `{}`; otherwise the decoded list decides.
  */
  function BalanceQuery(failed: bool, stdout: string, stderr: string, decoded: Option<seq<Coin>>, denom: string)
    : (r: Result<string, BalanceError>)
    ensures r.Ok? ==> r.value != ""
    ensures failed ==> (r.Ok? <==>
      Contains(stderr, NotFoundHint) || Contains(stderr, NoBalanceHint) ||
      Contains(stdout, ZeroAmountBare) || Contains(stdout, ZeroAmountQuoted))
    ensures failed && r.Ok? ==> r.value == "0"
    ensures !failed && decoded.None? ==> (r.Ok? <==>
      IsBlank(stdout) || Contains(stdout, EmptyBalances) || stdout == "{}")
    ensures !failed && decoded.Some? ==> r == Ok(AmountOf(decoded.value, denom))
  {
    TrimSpaceEmpty(stdout);
    if failed then
      if Contains(stderr, NotFoundHint) || Contains(stderr, NoBalanceHint) ||
         Contains(stdout, ZeroAmountBare) || Contains(stdout, ZeroAmountQuoted)
      then Ok("0")
      else Err(CommandFailed(stderr))
    else
      match decoded
      case None =>
        if TrimSpace(stdout) == "" || Contains(stdout, EmptyBalances) || stdout == "{}" then Ok("0")
        else Err(Undecodable(stdout))
      case Some(coins) => Ok(AmountOf(coins, denom))
  }

  method QueryBalance(failed: bool, stdout: string, stderr: string, decoded: Option<seq<Coin>>, denom: string)
    returns (r: Result<string, BalanceError>)
    ensures r == BalanceQuery(failed, stdout, stderr, decoded, denom)
  {
    if failed {
      if Contains(stderr, NotFoundHint) || Contains(stderr, NoBalanceHint) ||
         Contains(stdout, ZeroAmountBare) || Contains(stdout, ZeroAmountQuoted) {
        return Ok("0");
      }
      return Err(CommandFailed(stderr));
    }
    if decoded.None? {
      if TrimSpace(stdout) == "" || Contains(stdout, EmptyBalances) || stdout == "{}" {
        return Ok("0");
      }
      return Err(Undecodable(stdout));
    }
    var amount := LookupDenom(decoded.value, denom);
    return Ok(amount);
  }

  /**
    The relayer front-running scenario's own query, which asks for one denom
    and decodes a single coin. `execError` is the command's error message
    (None when it succeeded). A matching coin's amount is returned as is,
    even when empty.
  */
  function SingleDenomBalance(execError: Option<string>, decoded: Option<Coin>, denom: string)
    : (r: Result<string, BalanceError>)
    ensures decoded.Some? && decoded.value.denom == denom ==> r == Ok(decoded.value.amount)
    ensures decoded.Some? && decoded.value.denom != denom ==> (r.Ok? <==> execError.None?)
    ensures decoded.None? ==> (r.Ok? <==>
      execError.Some? && (Contains(execError.value, NotFoundHint) || Contains(execError.value, NoBalanceHint)))
    ensures r.Ok? && !(decoded.Some? && decoded.value.denom == denom) ==> r.value == "0"
  {
    match decoded
    case None =>
      if execError.Some? && (Contains(execError.value, NotFoundHint) || Contains(execError.value, NoBalanceHint))
      then Ok("0")
      else Err(Undecodable(""))
    case Some(coin) =>
      if coin.denom == denom then Ok(coin.amount)
      else if execError.None? then Ok("0")
      else Err(DenomMismatch)
  }

  /**
    The two queries disagree on an empty amount: the shared helper reads a
    matching coin with an empty amount as "0", the scenario's own query hands
    back the empty text.
  */
  lemma EmptyAmountReadings(denom: string)
    ensures BalanceQuery(false, "", "", Some([Coin(denom, "")]), denom) == Ok("0")
    ensures SingleDenomBalance(None, Some(Coin(denom, "")), denom) == Ok("")
  {
    assert AmountOf([Coin(denom, "")], denom) == "0";
  }
}
