/** What the instruction handlers promise, stated on their effect functions:
    which error fires when, how the stored amounts and the token balances
    change, and how the stored amounts relate to the pool's token balances. */
module HandlerProperties {
  import opened Primitives
  import opened Errors
  import opened State
  import opened Token
  import opened Instructions
  import Curve

  /** The user's token accounts are owned by the user and the pool's by the pool account. */
  predicate Owned(s: Snapshot, ctx: LiquidityAccounts)
  {
    && ctx.userTokenA in s.accounts && s.accounts[ctx.userTokenA].owner == ctx.user
    && ctx.userTokenB in s.accounts && s.accounts[ctx.userTokenB].owner == ctx.user
    && ctx.poolTokenA in s.accounts && s.accounts[ctx.poolTokenA].owner == ctx.pool
    && ctx.poolTokenB in s.accounts && s.accounts[ctx.poolTokenB].owner == ctx.pool
  }

  // ---------------------------------------------------------------- deposit

  /** `deposit` fails only when a transfer fails, and then with that
      transfer's error; on success the stored amounts grow by exactly the
      deposited values while the authority stays. */
  lemma DepositCreditsLedger(s: Snapshot, ctx: LiquidityAccounts, amountA: U64, amountB: U64)
    requires DepositFits(s.pool, amountA, amountB)
    ensures var r := DepositSpec(s, ctx, amountA, amountB);
      var moved := TransferBoth(s.accounts, ctx.userTokenA, ctx.poolTokenA, ctx.user, amountA,
                                            ctx.userTokenB, ctx.poolTokenB, ctx.user, amountB);
      && (r.Failure? <==> moved.Failure?)
      && (moved.Failure? ==> r == Failure(Cpi(moved.error)))
      && (r.Success? ==> r.value.pool == PoolRecord(s.pool.authority, s.pool.tokenAAmount + amountA, s.pool.tokenBAmount + amountB))
  {
  }

  /** A successful `deposit` moves the amounts from the user's accounts to the
      pool's, so stored amounts that matched the pool's balances still match. */
  lemma DepositKeepsLedgerInSync(s: Snapshot, ctx: LiquidityAccounts, amountA: U64, amountB: U64)
    requires DepositFits(s.pool, amountA, amountB) && Distinct(ctx)
    requires DepositSpec(s, ctx, amountA, amountB).Success?
    ensures var after := DepositSpec(s, ctx, amountA, amountB).value;
      && after.accounts[ctx.userTokenA].amount + amountA == s.accounts[ctx.userTokenA].amount
      && after.accounts[ctx.userTokenB].amount + amountB == s.accounts[ctx.userTokenB].amount
      && after.accounts[ctx.poolTokenA].amount == s.accounts[ctx.poolTokenA].amount + amountA
      && after.accounts[ctx.poolTokenB].amount == s.accounts[ctx.poolTokenB].amount + amountB
      && (Synced(s, ctx.poolTokenA, ctx.poolTokenB) ==> Synced(after, ctx.poolTokenA, ctx.poolTokenB))
  {
    var afterA := Transfer(s.accounts, ctx.userTokenA, ctx.poolTokenA, ctx.user, amountA).value;
    assert afterA[ctx.userTokenB] == s.accounts[ctx.userTokenB];
    assert afterA[ctx.poolTokenB] == s.accounts[ctx.poolTokenB];
  }

  // ---------------------------------------------------------- add_liquidity

  /** Once both transfers went through, `add_liquidity` fails with `MathError`
      exactly when one of the additions leaves u64, and otherwise the stored
      amounts grow by exactly the deposited values. */
  lemma AddLiquidityOverflow(s: Snapshot, ctx: LiquidityAccounts, amountA: U64, amountB: U64)
    requires TransferBoth(s.accounts, ctx.userTokenA, ctx.poolTokenA, ctx.user, amountA,
                                      ctx.userTokenB, ctx.poolTokenB, ctx.user, amountB).Success?
    ensures var r := AddLiquiditySpec(s, ctx, amountA, amountB);
      && (r == Failure(Custom(MathError)) <==>
            s.pool.tokenAAmount + amountA > U64_MAX || s.pool.tokenBAmount + amountB > U64_MAX)
      && (r.Failure? ==> r.error == Custom(MathError))
      && (r.Success? ==> r.value.pool == PoolRecord(s.pool.authority, s.pool.tokenAAmount + amountA, s.pool.tokenBAmount + amountB))
  {
  }

  /** The only errors of `add_liquidity` are a failed transfer and `MathError`,
      and a failed transfer takes precedence: the transfers run first. */
  lemma AddLiquidityErrors(s: Snapshot, ctx: LiquidityAccounts, amountA: U64, amountB: U64)
    ensures var r := AddLiquiditySpec(s, ctx, amountA, amountB);
      var moved := TransferBoth(s.accounts, ctx.userTokenA, ctx.poolTokenA, ctx.user, amountA,
                                            ctx.userTokenB, ctx.poolTokenB, ctx.user, amountB);
      && (moved.Failure? ==> r == Failure(Cpi(moved.error)))
      && (r.Failure? ==> r.error.Cpi? || r.error == Custom(MathError))
  {
  }

  /** A successful `add_liquidity` keeps matching stored amounts and pool balances matched. */
  lemma AddLiquidityKeepsLedgerInSync(s: Snapshot, ctx: LiquidityAccounts, amountA: U64, amountB: U64)
    requires Distinct(ctx) && Synced(s, ctx.poolTokenA, ctx.poolTokenB)
    requires AddLiquiditySpec(s, ctx, amountA, amountB).Success?
    ensures Synced(AddLiquiditySpec(s, ctx, amountA, amountB).value, ctx.poolTokenA, ctx.poolTokenB)
  {
    var afterA := Transfer(s.accounts, ctx.userTokenA, ctx.poolTokenA, ctx.user, amountA).value;
    assert afterA[ctx.poolTokenB] == s.accounts[ctx.poolTokenB];
  }

  // ------------------------------------------------------- remove_liquidity

  /** `remove_liquidity` fails with `InsufficientLiquidity` exactly when a
      stored amount is below the requested one; its `MathError` branches are
      unreachable, so any other failure is a failed transfer; and on success
      the stored record is unchanged. */
  lemma RemoveLiquidityGuard(s: Snapshot, ctx: LiquidityAccounts, amountA: U64, amountB: U64)
    ensures var r := RemoveLiquiditySpec(s, ctx, amountA, amountB);
      && (r == Failure(Custom(InsufficientLiquidity)) <==>
            s.pool.tokenAAmount < amountA || s.pool.tokenBAmount < amountB)
      && (r.Failure? ==> r.error == Custom(InsufficientLiquidity) || r.error.Cpi?)
      && (r.Success? ==> r.value.pool == s.pool)
  {
  }

  /** The liquidity check reads only the stored record, before any transfer:
      whether it fails does not depend on the token accounts. */
  lemma RemoveLiquidityChecksBeforeTransfers(s1: Snapshot, s2: Snapshot, ctx: LiquidityAccounts, amountA: U64, amountB: U64)
    requires s1.pool == s2.pool
    ensures RemoveLiquiditySpec(s1, ctx, amountA, amountB) == Failure(Custom(InsufficientLiquidity))
        <==> RemoveLiquiditySpec(s2, ctx, amountA, amountB) == Failure(Custom(InsufficientLiquidity))
  {
    RemoveLiquidityGuard(s1, ctx, amountA, amountB);
    RemoveLiquidityGuard(s2, ctx, amountA, amountB);
  }

  /** A successful `remove_liquidity` pays the amounts out of the pool's token
      accounts but leaves the stored amounts as they were, so amounts that
      matched the pool's balances no longer do once anything was removed. */
  lemma RemoveLiquidityDesyncsLedger(s: Snapshot, ctx: LiquidityAccounts, amountA: U64, amountB: U64)
    requires Distinct(ctx)
    requires RemoveLiquiditySpec(s, ctx, amountA, amountB).Success?
    ensures var after := RemoveLiquiditySpec(s, ctx, amountA, amountB).value;
      && after.pool == s.pool
      && after.accounts[ctx.poolTokenA].amount + amountA == s.accounts[ctx.poolTokenA].amount
      && after.accounts[ctx.poolTokenB].amount + amountB == s.accounts[ctx.poolTokenB].amount
      && after.accounts[ctx.userTokenA].amount == s.accounts[ctx.userTokenA].amount + amountA
      && after.accounts[ctx.userTokenB].amount == s.accounts[ctx.userTokenB].amount + amountB
      && (Synced(s, ctx.poolTokenA, ctx.poolTokenB) ==>
            (Synced(after, ctx.poolTokenA, ctx.poolTokenB) <==> amountA == 0 && amountB == 0))
  {
    var afterA := Transfer(s.accounts, ctx.poolTokenA, ctx.userTokenA, ctx.pool, amountA).value;
    assert afterA[ctx.userTokenB] == s.accounts[ctx.userTokenB];
    assert afterA[ctx.poolTokenB] == s.accounts[ctx.poolTokenB];
  }

  /** Depositing and then removing the same amounts gives every token account
      its balance back, while the stored amounts keep the deposit. */
  lemma DepositThenRemoveRestoresAccounts(s: Snapshot, ctx: LiquidityAccounts, amountA: U64, amountB: U64)
    requires DepositFits(s.pool, amountA, amountB) && Distinct(ctx) && Owned(s, ctx)
    requires DepositSpec(s, ctx, amountA, amountB).Success?
    ensures var deposited := DepositSpec(s, ctx, amountA, amountB).value;
      RemoveLiquiditySpec(deposited, ctx, amountA, amountB) == Success(Snapshot(deposited.pool, s.accounts))
  {
    var deposited := DepositSpec(s, ctx, amountA, amountB).value;
    DepositKeepsLedgerInSync(s, ctx, amountA, amountB);
    var m1 := Transfer(s.accounts, ctx.userTokenA, ctx.poolTokenA, ctx.user, amountA).value;
    assert m1[ctx.userTokenB] == s.accounts[ctx.userTokenB];
    assert m1[ctx.poolTokenB] == s.accounts[ctx.poolTokenB];
    var b1 := Transfer(deposited.accounts, ctx.poolTokenA, ctx.userTokenA, ctx.pool, amountA);
    assert b1.Success?;
    var b2 := Transfer(b1.value, ctx.poolTokenB, ctx.userTokenB, ctx.pool, amountB);
    assert b2.Success?;
    assert b2.value == s.accounts by {
      forall k | k in s.accounts ensures b2.value[k] == s.accounts[k] {
      }
    }
  }

  // ------------------------------------------------------------------- swap

  /** The output `swap` computes: the first component of the pricing result,
      with the stored A amount as input reserve and the B amount as output reserve. */
  function SwapOutput(p: PoolRecord, amountIn: U64): (r: Option<U64>)
    requires Curve.CurveDefined(amountIn, p.tokenAAmount)
    ensures r.Some? ==> r.value <= p.tokenBAmount
  {
    match Curve.CalculateSwapAmount(amountIn, p.tokenAAmount, p.tokenBAmount)
    case Failure(_) => None
    case Success(priced) => Some(priced.0)
  }

  /** The checks of `swap`, in order: `InvalidAmount` exactly when an amount is
      zero; then `MathError` from pricing exactly when the product of the
      reserves leaves u64 (a non-zero input never makes the divisor zero);
      then `SlippageError` exactly when the output is below the minimum; then
      `InsufficientLiquidity` exactly when the stored A amount is below the
      input. The second liquidity check can never fire, since the output never
      exceeds the B amount. */
  lemma SwapChecks(s: Snapshot, ctx: SwapAccounts, amountIn: U64, minAmountOut: U64)
    requires SwapFits(s.pool, amountIn, minAmountOut)
    ensures var r := SwapSpec(s, ctx, amountIn, minAmountOut);
      && (r == Failure(Custom(InvalidAmount)) <==> amountIn == 0 || minAmountOut == 0)
      && (amountIn > 0 && minAmountOut > 0 ==>
            && (SwapOutput(s.pool, amountIn).None? <==> s.pool.tokenBAmount * s.pool.tokenAAmount > U64_MAX)
            && (SwapOutput(s.pool, amountIn).None? ==> r == Failure(Custom(MathError)))
            && (SwapOutput(s.pool, amountIn).Some? ==>
                  var output := SwapOutput(s.pool, amountIn).value;
                  && (r == Failure(Custom(SlippageError)) <==> output < minAmountOut)
                  && (r == Failure(Custom(InsufficientLiquidity)) <==>
                        output >= minAmountOut && s.pool.tokenAAmount < amountIn)))
  {
    if amountIn > 0 && minAmountOut > 0 {
      assert Curve.NewInputReserve(amountIn, s.pool.tokenAAmount) > 0;
    }
  }

  /** The validations of `swap` read only the stored record and run before
      any transfer: whether one of them fails does not depend on the token accounts. */
  lemma SwapChecksPrecedeTransfers(s1: Snapshot, s2: Snapshot, ctx: SwapAccounts, amountIn: U64, minAmountOut: U64, e: SwapError)
    requires s1.pool == s2.pool && SwapFits(s1.pool, amountIn, minAmountOut)
    requires e in {InvalidAmount, SlippageError, InsufficientLiquidity}
    ensures SwapSpec(s1, ctx, amountIn, minAmountOut) == Failure(Custom(e))
        <==> SwapSpec(s2, ctx, amountIn, minAmountOut) == Failure(Custom(e))
  {
    SwapChecks(s1, ctx, amountIn, minAmountOut);
    SwapChecks(s2, ctx, amountIn, minAmountOut);
  }

  /** Once its checks have passed and both transfers have gone through,
      `swap` cannot fail: the output is at least the minimum, hence positive,
      which bounds the A amount by half of u64's range, and the input is at
      most the A amount, so the copy's checked addition cannot overflow. */
  lemma SwapCannotFailAfterTransfers(s: Snapshot, ctx: SwapAccounts, amountIn: U64, minAmountOut: U64)
    requires SwapFits(s.pool, amountIn, minAmountOut)
    requires amountIn > 0 && minAmountOut > 0
    requires SwapOutput(s.pool, amountIn).Some?
    requires SwapOutput(s.pool, amountIn).value >= minAmountOut && s.pool.tokenAAmount >= amountIn
    requires TransferBoth(s.accounts, ctx.userTokenIn, ctx.poolTokenIn, ctx.user, amountIn,
                                      ctx.poolTokenOut, ctx.userTokenOut, ctx.pool, SwapOutput(s.pool, amountIn).value).Success?
    ensures s.pool.tokenAAmount + amountIn <= U64_MAX
    ensures SwapSpec(s, ctx, amountIn, minAmountOut).Success?
  {
    Curve.PositiveOutputBoundsInputReserve(amountIn, s.pool.tokenAAmount, s.pool.tokenBAmount);
  }

  /** `swap` fails with `MathError` exactly when pricing does, that is when
      both amounts are non-zero and the product of the reserves leaves u64:
      the arithmetic after the transfers never fails. */
  lemma SwapMathErrorOnlyFromPricing(s: Snapshot, ctx: SwapAccounts, amountIn: U64, minAmountOut: U64)
    requires SwapFits(s.pool, amountIn, minAmountOut)
    ensures SwapSpec(s, ctx, amountIn, minAmountOut) == Failure(Custom(MathError))
        <==> amountIn > 0 && minAmountOut > 0 && s.pool.tokenBAmount * s.pool.tokenAAmount > U64_MAX
  {
    SwapChecks(s, ctx, amountIn, minAmountOut);
    if amountIn > 0 && minAmountOut > 0 && SwapOutput(s.pool, amountIn).Some? {
      var output := SwapOutput(s.pool, amountIn).value;
      if output >= minAmountOut {
        Curve.PositiveOutputBoundsInputReserve(amountIn, s.pool.tokenAAmount, s.pool.tokenBAmount);
      }
    }
  }

  /** A successful `swap` pays at least the minimum out, takes the input from
      the user into the pool and pays the output from the pool to the user,
      and leaves the stored record unchanged. */
  lemma SwapLeavesLedger(s: Snapshot, ctx: SwapAccounts, amountIn: U64, minAmountOut: U64)
    requires SwapFits(s.pool, amountIn, minAmountOut)
    requires ctx.userTokenIn != ctx.poolTokenIn && ctx.userTokenIn != ctx.poolTokenOut && ctx.userTokenIn != ctx.userTokenOut
    requires ctx.poolTokenIn != ctx.poolTokenOut && ctx.poolTokenIn != ctx.userTokenOut && ctx.poolTokenOut != ctx.userTokenOut
    requires SwapSpec(s, ctx, amountIn, minAmountOut).Success?
    ensures SwapOutput(s.pool, amountIn).Some?
    ensures var after := SwapSpec(s, ctx, amountIn, minAmountOut).value;
      var output := SwapOutput(s.pool, amountIn).value;
      && after.pool == s.pool
      && after.accounts.Keys == s.accounts.Keys
      && minAmountOut <= output <= s.pool.tokenBAmount
      && after.accounts[ctx.userTokenIn].amount + amountIn == s.accounts[ctx.userTokenIn].amount
      && after.accounts[ctx.poolTokenIn].amount == s.accounts[ctx.poolTokenIn].amount + amountIn
      && after.accounts[ctx.poolTokenOut].amount + output == s.accounts[ctx.poolTokenOut].amount
      && after.accounts[ctx.userTokenOut].amount == s.accounts[ctx.userTokenOut].amount + output
  {
    var priced := Curve.CalculateSwapAmount(amountIn, s.pool.tokenAAmount, s.pool.tokenBAmount);
    assert priced.Success?;
    var output := priced.value.0;
    var moved := TransferBoth(s.accounts, ctx.userTokenIn, ctx.poolTokenIn, ctx.user, amountIn,
                                          ctx.poolTokenOut, ctx.userTokenOut, ctx.pool, output);
    assert moved.Success?;
    assert SwapSpec(s, ctx, amountIn, minAmountOut) == Success(Snapshot(s.pool, moved.value));
  }

  // -------------------------------------------------------------- scenarios

  /** A key whose 32 bytes are all `n`. */
  function Key(n: byte): (k: Pubkey)
    ensures k[0] == n
  {
    seq(PUBKEY_LEN, _ => n)
  }

  const PAYER: Pubkey := Key(1)
  const USER: Pubkey := Key(2)
  const POOL: Pubkey := Key(3)
  const TEST_ACCOUNTS: LiquidityAccounts := LiquidityAccounts(POOL, USER, Key(4), Key(5), Key(6), Key(7))

  /** A pool right after `initialize_pool`, with a user holding 1000 of each token and empty pool token accounts. */
  function FreshSetup(): (s: Snapshot)
  {
    Snapshot(PoolRecord(PAYER, 0, 0),
      map[Key(4) := TokenAccount(USER, 1000), Key(5) := TokenAccount(USER, 1000),
          Key(6) := TokenAccount(POOL, 0), Key(7) := TokenAccount(POOL, 0)])
  }

  const SWAP_ACCOUNTS: SwapAccounts := SwapAccounts(POOL, USER, Key(4), Key(5), Key(6), Key(7))

  /** Balances of the user's A and B accounts and of the pool's A and B accounts, in that order. */
  function Balances(s: Snapshot): (r: seq<nat>)
  {
    seq(4, i requires 0 <= i < 4 => BalanceOf(s.accounts, Key(4 + i)))
  }

  /** `Balances` spelled out account by account. */
  lemma BalancesListed(s: Snapshot)
    ensures Balances(s) == [BalanceOf(s.accounts, Key(4)), BalanceOf(s.accounts, Key(5)),
                            BalanceOf(s.accounts, Key(6)), BalanceOf(s.accounts, Key(7))]
  {
  }

  lemma KeysDistinct()
    ensures Key(4) != Key(5) && Key(4) != Key(6) && Key(4) != Key(7)
    ensures Key(5) != Key(6) && Key(5) != Key(7) && Key(6) != Key(7)
  {
  }

  /** The deposit test: depositing 100 A and 200 B into a fresh pool records
      exactly those amounts and moves them from the user to the pool. */
  lemma DepositScenario()
    ensures DepositSpec(FreshSetup(), TEST_ACCOUNTS, 100, 200).Success?
    ensures var after := DepositSpec(FreshSetup(), TEST_ACCOUNTS, 100, 200).value;
      after.pool == PoolRecord(PAYER, 100, 200) && Balances(after) == [900, 800, 100, 200]
  {
    KeysDistinct();
  }

  /** The liquidity test: after adding 500 A and 300 B, removing 100 A and
      150 B pays those out of the pool's token accounts while the stored
      amounts still show 500 and 300. */
  lemma RemoveLiquidityScenario()
    ensures AddLiquiditySpec(FreshSetup(), TEST_ACCOUNTS, 500, 300).Success?
    ensures var added := AddLiquiditySpec(FreshSetup(), TEST_ACCOUNTS, 500, 300).value;
      && RemoveLiquiditySpec(added, TEST_ACCOUNTS, 100, 150).Success?
      && var removed := RemoveLiquiditySpec(added, TEST_ACCOUNTS, 100, 150).value;
         removed.pool == PoolRecord(PAYER, 500, 300) && Balances(removed) == [600, 850, 400, 150]
  {
    KeysDistinct();
    var added := AddLiquiditySpec(FreshSetup(), TEST_ACCOUNTS, 500, 300).value;
    assert added.pool == PoolRecord(PAYER, 500, 300);
  }

  /** The swap test: with 500 of each token in the pool, swapping 50 A with a
      minimum of 454 B pays out exactly 454 B; the pool's token accounts then
      hold 550 and 46 while the stored amounts still show 500 and 500. */
  lemma SwapScenario()
    ensures AddLiquiditySpec(FreshSetup(), TEST_ACCOUNTS, 500, 500).Success?
    ensures var added := AddLiquiditySpec(FreshSetup(), TEST_ACCOUNTS, 500, 500).value;
      && SwapFits(added.pool, 50, 454)
      && SwapSpec(added, SWAP_ACCOUNTS, 50, 454).Success?
      && var swapped := SwapSpec(added, SWAP_ACCOUNTS, 50, 454).value;
         swapped.pool == PoolRecord(PAYER, 500, 500) && Balances(swapped) == [450, 954, 550, 46]
  {
    KeysDistinct();
    var added := AddLiquiditySpec(FreshSetup(), TEST_ACCOUNTS, 500, 500).value;
    assert added.pool == PoolRecord(PAYER, 500, 500);
    assert added.accounts[Key(4)].amount == 500 && added.accounts[Key(5)].amount == 500;
    assert added.accounts[Key(6)].amount == 500 && added.accounts[Key(7)].amount == 500;
    assert added.accounts.Keys == FreshSetup().accounts.Keys;
    assert forall k | k in added.accounts :: added.accounts[k].owner == FreshSetup().accounts[k].owner;
    Curve.TestVector();
    assert SwapOutput(added.pool, 50) == Some(454);
    SwapCannotFailAfterTransfers(added, SWAP_ACCOUNTS, 50, 454);
    SwapLeavesLedger(added, SWAP_ACCOUNTS, 50, 454);
    var swapped := SwapSpec(added, SWAP_ACCOUNTS, 50, 454).value;
    assert BalanceOf(swapped.accounts, Key(4)) == 450 && BalanceOf(swapped.accounts, Key(5)) == 954;
    assert BalanceOf(swapped.accounts, Key(6)) == 550 && BalanceOf(swapped.accounts, Key(7)) == 46;
    assert swapped.pool == PoolRecord(PAYER, 500, 500);
    BalancesListed(swapped);
  }
}
