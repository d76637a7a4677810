/** The swap pricing used by the swap handler. It takes a 0.3% fee (rounded
    down) from the input and returns, together with that fee,
    `output_reserve * input_reserve / (input_reserve + input_after_fee)`:
    the output reserve that remains once the trade's product is kept constant,
    not the amount the trade removes (that is the conventional quote of the
    `Utils` module; `PostSwapReserveVersusConventionalQuote` relates the two). */
module Curve {
  import opened Primitives
  import opened Arith
  import opened Errors
  import Utils

  /** 0.3% as 3 parts of 1000. */
  const FEE: nat := 3
  const FEE_DENOMINATOR: nat := 1000

  /** The fee is computed with unchecked multiplication, and the new input
      reserve with unchecked addition; both must stay within u64. */
  predicate CurveDefined(inputAmount: U64, inputReserve: U64)
  {
    && inputAmount * FEE <= U64_MAX
    && inputReserve + (inputAmount - FeeAmount(inputAmount)) <= U64_MAX
  }

  /** The fee: the floor of 3/1000 of the input, so never more than the input. */
  function FeeAmount(inputAmount: U64): (fee: U64)
    requires inputAmount * FEE <= U64_MAX
    ensures fee * FEE_DENOMINATOR <= inputAmount * FEE < (fee + 1) * FEE_DENOMINATOR
    ensures fee <= inputAmount
  {
    inputAmount * FEE / FEE_DENOMINATOR
  }

  /** The input reserve after the fee-reduced input is added. */
  function NewInputReserve(inputAmount: U64, inputReserve: U64): (n: U64)
    requires CurveDefined(inputAmount, inputReserve)
    ensures inputReserve <= n <= inputReserve + inputAmount
  {
    inputReserve + (inputAmount - FeeAmount(inputAmount))
  }

  /** Returns `(output, fee)`. Fails with `MathError` exactly when the product
      of the reserves leaves u64 or the new input reserve is zero; otherwise the
      output is the floor of that product over the new input reserve, which is
      never more than the output reserve. */
  function CalculateSwapAmount(inputAmount: U64, inputReserve: U64, outputReserve: U64): (r: Result<(U64, U64), SwapError>)
    requires CurveDefined(inputAmount, inputReserve)
    ensures r.Failure? <==> outputReserve * inputReserve > U64_MAX || NewInputReserve(inputAmount, inputReserve) == 0
    ensures r.Failure? ==> r.error == MathError
    ensures r.Success? ==> r.value.1 == FeeAmount(inputAmount)
    ensures r.Success? ==>
      var d := NewInputReserve(inputAmount, inputReserve);
      r.value.0 * d <= outputReserve * inputReserve < (r.value.0 + 1) * d
    ensures r.Success? ==> r.value.0 <= outputReserve
  {
    var fee := FeeAmount(inputAmount);
    var inputAmountWithFee := inputAmount - fee;
    var newInputReserve := inputReserve + inputAmountWithFee;
    match CheckedMul(outputReserve, inputReserve)
    case None => Failure(MathError)
    case Some(product) =>
      match CheckedDiv(product, newInputReserve)
      case None => Failure(MathError)
      case Some(output) =>
        assert output <= outputReserve by {
          assert product == outputReserve * inputReserve;
          DivBound(outputReserve, inputReserve, newInputReserve);
        }
        Success((output, fee))
  }

  /** Below 334 units of input the fee rounds down to nothing, and from 334 on it is positive. */
  lemma FeeVanishesExactlyBelow334(inputAmount: U64)
    requires inputAmount * FEE <= U64_MAX
    ensures FeeAmount(inputAmount) == 0 <==> inputAmount < 334
  {
  }

  /** With no input and a non-empty input reserve, the output is the whole output reserve. */
  lemma ZeroInputReturnsWholeReserve(inputReserve: U64, outputReserve: U64)
    requires 0 < inputReserve
    requires outputReserve * inputReserve <= U64_MAX
    ensures CalculateSwapAmount(0, inputReserve, outputReserve) == Success((outputReserve, 0))
  {
    assert outputReserve * inputReserve / inputReserve == outputReserve;
  }

  /** A positive output needs an output reserve of at least 2, and then the
      product check bounds the input reserve by half of u64's range: with
      one unit or less of output reserve, the product is at most the input
      reserve, which is below the new input reserve, so the output is 0. */
  lemma PositiveOutputBoundsInputReserve(inputAmount: U64, inputReserve: U64, outputReserve: U64)
    requires CurveDefined(inputAmount, inputReserve) && 0 < inputAmount
    requires CalculateSwapAmount(inputAmount, inputReserve, outputReserve).Success?
    requires CalculateSwapAmount(inputAmount, inputReserve, outputReserve).value.0 > 0
    ensures 2 <= outputReserve
    ensures inputReserve + inputReserve <= U64_MAX
  {
    var output := CalculateSwapAmount(inputAmount, inputReserve, outputReserve).value.0;
    var d := NewInputReserve(inputAmount, inputReserve);
    assert FeeAmount(inputAmount) < inputAmount;
    assert inputReserve < d;
    MulMono(d, 1, output);
    assert d <= outputReserve * inputReserve;
    MulMono(inputReserve, outputReserve, 1);
    MulMono(inputReserve, 2, outputReserve);
  }

  /** The integration test's trade: 50 in against reserves of 500 and 500 gives 454 and no fee. */
  lemma TestVector()
    ensures CalculateSwapAmount(50, 500, 500) == Success((454, 0))
  {
  }

  /** The curve's output plus the conventional quote for the fee-reduced input
      equals the output reserve, up to one unit lost to rounding: the curve
      returns what stays in the pool, not what leaves it. */
  lemma PostSwapReserveVersusConventionalQuote(inputAmount: U64, inputReserve: U64, outputReserve: U64)
    requires CurveDefined(inputAmount, inputReserve)
    requires NewInputReserve(inputAmount, inputReserve) > 0
    requires outputReserve * inputReserve <= U64_MAX
    requires Utils.SwapAmountDefined(inputAmount - FeeAmount(inputAmount), inputReserve, outputReserve)
    ensures CalculateSwapAmount(inputAmount, inputReserve, outputReserve).Success?
    ensures
      var output := CalculateSwapAmount(inputAmount, inputReserve, outputReserve).value.0;
      var quote := Utils.CalculateSwapAmount(inputAmount - FeeAmount(inputAmount), inputReserve, outputReserve);
      output + quote <= outputReserve <= output + quote + 1
  {
    var x := inputAmount - FeeAmount(inputAmount);
    var d := NewInputReserve(inputAmount, inputReserve);
    var output := CalculateSwapAmount(inputAmount, inputReserve, outputReserve).value.0;
    var quote := Utils.CalculateSwapAmount(x, inputReserve, outputReserve);
    assert d == inputReserve + x;
    assert outputReserve * inputReserve + outputReserve * x == outputReserve * d;
    FloorsOfSplit(output, quote, outputReserve * inputReserve, outputReserve * x, outputReserve, d);
  }
}
