/** The conventional constant-product quote, `total_out * amount_in / (total_in + amount_in)`:
    the amount of the output token a trade of `amount_in` removes. The program
    does not compile this module in (its crate root does not declare it); the
    swap handler prices with the curve module instead. */
module Utils {
  import opened Primitives
  import opened Arith

  /** The arithmetic is unchecked, so the callers must keep the sum and the
      product in range and the divisor non-zero; otherwise the program panics. */
  predicate SwapAmountDefined(amountIn: U64, totalIn: U64, totalOut: U64)
  {
    && 0 < totalIn + amountIn <= U64_MAX
    && totalOut * amountIn <= U64_MAX
  }

  /** The floor of `total_out * amount_in / (total_in + amount_in)`; never more than the output reserve. */
  function CalculateSwapAmount(amountIn: U64, totalIn: U64, totalOut: U64): (r: U64)
    requires SwapAmountDefined(amountIn, totalIn, totalOut)
    ensures r * (totalIn + amountIn) <= totalOut * amountIn < (r + 1) * (totalIn + amountIn)
    ensures r <= totalOut
  {
    var d := totalIn + amountIn;
    var q := totalOut * amountIn / d;
    DivBound(totalOut, amountIn, d);
    q
  }

  /** Trading nothing gives nothing. */
  lemma ZeroInputYieldsNothing(totalIn: U64, totalOut: U64)
    requires 0 < totalIn
    ensures CalculateSwapAmount(0, totalIn, totalOut) == 0
  {
  }

  /** For fixed reserves, a larger trade never quotes a smaller output. */
  lemma {:induction false} MonotonicInAmount(a1: U64, a2: U64, totalIn: U64, totalOut: U64)
    requires a1 <= a2
    requires SwapAmountDefined(a1, totalIn, totalOut) && SwapAmountDefined(a2, totalIn, totalOut)
    ensures CalculateSwapAmount(a1, totalIn, totalOut) <= CalculateSwapAmount(a2, totalIn, totalOut)
  {
    var d1, d2 := totalIn + a1, totalIn + a2;
    calc {
      (totalOut * a1) * d2;
    ==
      totalOut * a1 * totalIn + totalOut * a1 * a2;
    <= { MulMono(totalOut * totalIn, a1, a2); }
      totalOut * a2 * totalIn + totalOut * a1 * a2;
    ==
      (totalOut * a2) * d1;
    }
    FloorDivMono(totalOut * a1, d1, totalOut * a2, d2);
  }
}
