/**
  The mock DEX of the cross-chain MEV scenario: a fee-free constant-product
  pool over a stake token and an IBC token, with integer (floor) swap maths.
  The pool is a single global that both swap directions update in place; here
  the global is the `pool` field of a `Dex` object, and each `*big.Int` field
  of the pool record is an unbounded `int` field of a `LiquidityPool` object.
*/
module Amm {
  import opened Wrappers

  const InitialReserveStake: int := 2000
  const InitialReserveIBC: int := 2000

  /**
    calculateSwapOutput: input * outputReserve / (inputReserve + input), with
    big.Int's Euclidean division (the same as Dafny's). A zero denominator
    makes Go panic, hence the precondition.
  */
  function SwapOutput(input: int, inputReserve: int, outputReserve: int): (out: int)
    requires inputReserve + input != 0
    ensures inputReserve + input > 0 ==>
      out * (inputReserve + input) <= input * outputReserve < (out + 1) * (inputReserve + input)
  {
    (input * outputReserve) / (inputReserve + input)
  }

  lemma MulLeftMonotone(c: int, x: int, y: int)
    requires c >= 0 && x <= y
    ensures x * c <= y * c
  {
    assert y * c - x * c == (y - x) * c;
  }

  lemma MulStrict(x: int, y: int, c: int)
    requires x < y && c > 0
    ensures x * c < y * c
  {
    assert y * c - x * c == (y - x) * c;
  }

  lemma MulCancel(x: int, y: int, c: int)
    requires c > 0 && x * c <= y * c
    ensures x <= y
  {
    assert (y - x) * c == y * c - x * c;
  }

  lemma MulCancelStrict(x: int, y: int, c: int)
    requires c > 0 && x * c < y * c
    ensures x < y
  {
    assert (y - x) * c == y * c - x * c;
  }

  /** The floor quotient is the greatest q with q * b <= a. */
  lemma FloorIsGreatest(q: int, a: int, b: int)
    requires b > 0 && q * b <= a
    ensures q <= a / b
  {
    var f := a / b;
    assert a == f * b + a % b && a % b < b;
    assert (f + 1) * b == f * b + b;
    MulCancelStrict(q, f + 1, b);
  }

  /** For a non-negative numerator and positive divisors, a smaller ratio gives a smaller floor. */
  lemma FloorDivMonotone(a1: int, b1: int, a2: int, b2: int)
    requires a1 >= 0 && b1 > 0 && b2 > 0
    requires a1 * b2 <= a2 * b1
    ensures a1 / b1 <= a2 / b2
  {
    var q := a1 / b1;
    assert a1 == q * b1 + a1 % b1;
    MulLeftMonotone(b2, q * b1, a1);
    assert (q * b2) * b1 == (q * b1) * b2;
    MulCancel(q * b2, a2, b1);
    FloorIsGreatest(q, a2, b2);
  }

  /**
    The output leaves the pool solvent: it never exceeds the output-side
    reserve, and with a non-empty input-side reserve it is strictly less, so
    that reserve stays positive after the swap.
  */
  lemma OutputBelowReserve(input: int, inputReserve: int, outputReserve: int)
    requires inputReserve > 0 && input >= 0 && outputReserve > 0
    ensures 0 <= SwapOutput(input, inputReserve, outputReserve) < outputReserve
  {
    var out := SwapOutput(input, inputReserve, outputReserve);
    var d := inputReserve + input;
    assert input * outputReserve < d * outputReserve by {
      MulStrict(input, d, outputReserve);
    }
    assert out * d < outputReserve * d;
    MulCancelStrict(out, outputReserve, d);
  }

  /** For fixed reserves, a larger input never yields a smaller output. */
  lemma OutputMonotone(in1: int, in2: int, inputReserve: int, outputReserve: int)
    requires 0 <= in1 <= in2 && inputReserve > 0 && outputReserve >= 0
    ensures SwapOutput(in1, inputReserve, outputReserve) <= SwapOutput(in2, inputReserve, outputReserve)
  {
    var a1, b1 := in1 * outputReserve, inputReserve + in1;
    var a2, b2 := in2 * outputReserve, inputReserve + in2;
    assert a1 * b2 - a2 * b1 == (in1 - in2) * inputReserve * outputReserve;
    assert (in2 - in1) * inputReserve * outputReserve >= 0 by {
      assert (in2 - in1) * inputReserve >= 0;
    }
    FloorDivMonotone(a1, b1, a2, b2);
  }

  /** Output is not strictly increasing: the floor swallows a one-unit trade. */
  lemma OutputNotStrictlyIncreasing()
    ensures SwapOutput(0, InitialReserveIBC, InitialReserveStake) == SwapOutput(1, InitialReserveIBC, InitialReserveStake) == 0
  {
  }

  /**
    The reserve product after a swap is at least the product before it: the
    floor rounds the output in the pool's favour.
  */
  lemma ProductNonDecreasing(input: int, inputReserve: int, outputReserve: int)
    requires inputReserve + input > 0
    ensures (inputReserve + input) * (outputReserve - SwapOutput(input, inputReserve, outputReserve))
      >= inputReserve * outputReserve
  {
    var out := SwapOutput(input, inputReserve, outputReserve);
    var d := inputReserve + input;
    assert d * (outputReserve - out) == inputReserve * outputReserve + input * outputReserve - out * d;
  }

  // ---------------------------------------------------------------------------
  // The pool and the global holding it
  // ---------------------------------------------------------------------------

  class LiquidityPool {
    var reserveStake: int
    var reserveIBC: int
    var k: int

    /** The constant product matches the current reserves. */
    predicate Balanced()
      reads this
    {
      k == reserveStake * reserveIBC
    }

    constructor (stake: int, ibc: int)
      ensures reserveStake == stake && reserveIBC == ibc && k == stake * ibc
      ensures Balanced()
    {
      reserveStake := stake;
      reserveIBC := ibc;
      k := stake * ibc;
    }
  }

  /** The program-wide DEX state: the global `dexPool`, null until initialised. */
  class Dex {
    var pool: LiquidityPool?

    constructor ()
      ensures pool == null
    {
      pool := null;
    }

    /** initializeLiquidityPool: a fresh 2000/2000 pool with K = 4,000,000. */
    method InitializeLiquidityPool()
      modifies this
      ensures pool != null && fresh(pool)
      ensures pool.reserveStake == InitialReserveStake && pool.reserveIBC == InitialReserveIBC
      ensures pool.k == 4000000 && pool.Balanced()
    {
      pool := new LiquidityPool(InitialReserveStake, InitialReserveIBC);
    }

    /**
      simulateSwapStakeForIBC: pay `stakeAmount` stake into the pool, take the
      swap output in IBC out of it, and reset K to the new product. Without a
      pool it fails and changes nothing.
    */
    method SimulateSwapStakeForIBC(stakeAmount: int) returns (r: Result<int, string>)
      requires pool != null ==> pool.reserveStake + stakeAmount != 0
      modifies pool
      ensures pool == old(pool)
      ensures old(pool) == null ==> r.Err?
      ensures pool != null ==>
        && r == Ok(SwapOutput(stakeAmount, old(pool.reserveStake), old(pool.reserveIBC)))
        && pool.reserveStake == old(pool.reserveStake) + stakeAmount
        && pool.reserveIBC == old(pool.reserveIBC) - r.value
        && pool.Balanced()
      ensures pool != null && old(pool.reserveStake) + stakeAmount > 0 ==>
        pool.k >= old(pool.reserveStake) * old(pool.reserveIBC)
    {
      if pool == null {
        return Err("liquidity pool not initialized");
      }
      var ibcOutput := SwapOutput(stakeAmount, pool.reserveStake, pool.reserveIBC);
      if pool.reserveStake + stakeAmount > 0 {
        ProductNonDecreasing(stakeAmount, pool.reserveStake, pool.reserveIBC);
      }
      pool.reserveStake := pool.reserveStake + stakeAmount;
      pool.reserveIBC := pool.reserveIBC - ibcOutput;
      pool.k := pool.reserveStake * pool.reserveIBC;
      return Ok(ibcOutput);
    }

    /** simulateSwapIBCForStake: the mirror image, paying IBC in and taking stake out. */
    method SimulateSwapIBCForStake(ibcAmount: int) returns (r: Result<int, string>)
      requires pool != null ==> pool.reserveIBC + ibcAmount != 0
      modifies pool
      ensures pool == old(pool)
      ensures old(pool) == null ==> r.Err?
      ensures pool != null ==>
        && r == Ok(SwapOutput(ibcAmount, old(pool.reserveIBC), old(pool.reserveStake)))
        && pool.reserveIBC == old(pool.reserveIBC) + ibcAmount
        && pool.reserveStake == old(pool.reserveStake) - r.value
        && pool.Balanced()
      ensures pool != null && old(pool.reserveIBC) + ibcAmount > 0 ==>
        pool.k >= old(pool.reserveStake) * old(pool.reserveIBC)
    {
      if pool == null {
        return Err("liquidity pool not initialized");
      }
      var stakeOutput := SwapOutput(ibcAmount, pool.reserveIBC, pool.reserveStake);
      if pool.reserveIBC + ibcAmount > 0 {
        ProductNonDecreasing(ibcAmount, pool.reserveIBC, pool.reserveStake);
      }
      pool.reserveIBC := pool.reserveIBC + ibcAmount;
      pool.reserveStake := pool.reserveStake - stakeOutput;
      pool.k := pool.reserveStake * pool.reserveIBC;
      return Ok(stakeOutput);
    }
  }

  // ---------------------------------------------------------------------------
  // Price impact (its integer part)
  // ---------------------------------------------------------------------------

  /** The reserves a trade would leave behind, computed without touching the pool. */
  datatype PostTrade = PostTrade(newInputReserve: int, output: int, newOutputReserve: int)

  /**
    calculatePriceImpact up to its floating-point percentage: an error when
    either reserve is zero, otherwise the hypothetical post-trade reserves.
  */
  function PriceImpactReserves(input: int, inputReserve: int, outputReserve: int): (r: Result<PostTrade, string>)
    requires inputReserve == 0 || outputReserve == 0 || inputReserve + input != 0
    ensures r.Err? <==> inputReserve == 0 || outputReserve == 0
    ensures r.Ok? ==>
      && r.value.newInputReserve == inputReserve + input
      && r.value.output == SwapOutput(input, inputReserve, outputReserve)
      && r.value.newOutputReserve == outputReserve - r.value.output
  {
    if inputReserve == 0 || outputReserve == 0 then Err("reserves cannot be zero")
    else
      var out := SwapOutput(input, inputReserve, outputReserve);
      Ok(PostTrade(inputReserve + input, out, outputReserve - out))
  }

  /**
    A buy never makes the output token dearer: with positive reserves and a
    non-negative input, the post-trade price newOutput/newInput is at most the
    pre-trade price output/input (cross-multiplied), so the impact is never negative.
  */
  lemma PriceImpactNonNegative(input: int, inputReserve: int, outputReserve: int)
    requires inputReserve > 0 && outputReserve > 0 && input >= 0
    ensures PriceImpactReserves(input, inputReserve, outputReserve).Ok?
    ensures var t := PriceImpactReserves(input, inputReserve, outputReserve).value;
      t.newOutputReserve * inputReserve <= outputReserve * t.newInputReserve
  {
    var out := SwapOutput(input, inputReserve, outputReserve);
    OutputBelowReserve(input, inputReserve, outputReserve);
    assert (outputReserve - out) * inputReserve <= outputReserve * inputReserve by {
      MulLeftMonotone(inputReserve, outputReserve - out, outputReserve);
    }
    assert outputReserve * inputReserve <= outputReserve * (inputReserve + input) by {
      MulLeftMonotone(outputReserve, inputReserve, inputReserve + input);
    }
  }

  /**
    The buy (IBC paid in, stake out): the post-trade reserves agree with what
    the swap itself leaves in the pool.
  */
  method PriceImpactMatchesSwap(dex: Dex, amount: int) returns (before: Result<PostTrade, string>, got: Result<int, string>)
    requires dex.pool != null && dex.pool.reserveIBC > 0 && dex.pool.reserveStake > 0 && amount >= 0
    modifies dex.pool
    ensures before.Ok? && got.Ok? && dex.pool == old(dex.pool)
    ensures before.value.output == got.value
    ensures before.value.newInputReserve == dex.pool.reserveIBC
    ensures before.value.newOutputReserve == dex.pool.reserveStake
  {
    before := PriceImpactReserves(amount, dex.pool.reserveIBC, dex.pool.reserveStake);
    got := dex.SimulateSwapIBCForStake(amount);
  }

  /**
    The sell (stake paid in, IBC out), with the reserves passed the other way
    round: the post-trade reserves agree with what the swap leaves in the pool.
  */
  method PriceImpactMatchesSellSwap(dex: Dex, amount: int) returns (before: Result<PostTrade, string>, got: Result<int, string>)
    requires dex.pool != null && dex.pool.reserveIBC > 0 && dex.pool.reserveStake > 0 && amount >= 0
    modifies dex.pool
    ensures before.Ok? && got.Ok? && dex.pool == old(dex.pool)
    ensures before.value.output == got.value
    ensures before.value.newInputReserve == dex.pool.reserveStake
    ensures before.value.newOutputReserve == dex.pool.reserveIBC
  {
    before := PriceImpactReserves(amount, dex.pool.reserveStake, dex.pool.reserveIBC);
    got := dex.SimulateSwapStakeForIBC(amount);
  }
}
