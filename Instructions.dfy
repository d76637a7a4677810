/** The five instruction handlers of the swap program.

    The pool account is the class `Pool`, whose three fields the handlers read
    and write. Token transfers are calls into the token program (`Token`).
    Each handler's effect is also given as a function on a `Snapshot` (the
    pool record together with all token accounts); the method's postcondition
    ties the new state to that function, and the lemmas state what the
    handlers promise in terms of it.

    When a handler returns an error, the runtime discards everything the
    instruction did, transfers included; the methods restore the state they
    had changed before returning the error.

    `remove_liquidity` and `swap` validate against, and do their arithmetic
    on, a copy of the pool record, so they never change the stored amounts
    even though the pool's token accounts change. */
module Instructions {
  import opened Primitives
  import opened Errors
  import opened State
  import opened Token
  import Curve

  /** What a handler fails with: one of the program's own errors or an error of a transfer. */
  datatype ProgramError = Custom(swapError: SwapError) | Cpi(tokenError: TokenError)

  /** The pool record and every token account, before or after a handler. */
  datatype Snapshot = Snapshot(pool: PoolRecord, accounts: Accounts)

  /** The accounts passed to `deposit`, `add_liquidity` and `remove_liquidity`:
      the pool account's address, the signing user, and the user's and the
      pool's token accounts for tokens A and B. */
  datatype LiquidityAccounts = LiquidityAccounts(
    pool: Pubkey, user: Pubkey,
    userTokenA: Pubkey, userTokenB: Pubkey,
    poolTokenA: Pubkey, poolTokenB: Pubkey)

  /** The accounts passed to `swap`. */
  datatype SwapAccounts = SwapAccounts(
    pool: Pubkey, user: Pubkey,
    userTokenIn: Pubkey, userTokenOut: Pubkey,
    poolTokenIn: Pubkey, poolTokenOut: Pubkey)

  /** The four token accounts of a liquidity instruction are different accounts. */
  predicate Distinct(ctx: LiquidityAccounts)
  {
    && ctx.userTokenA != ctx.userTokenB && ctx.userTokenA != ctx.poolTokenA && ctx.userTokenA != ctx.poolTokenB
    && ctx.userTokenB != ctx.poolTokenA && ctx.userTokenB != ctx.poolTokenB
    && ctx.poolTokenA != ctx.poolTokenB
  }

  /** The pool record's amounts equal the balances of the pool's token accounts. */
  predicate Synced(s: Snapshot, poolTokenA: Pubkey, poolTokenB: Pubkey)
  {
    && poolTokenA in s.accounts && poolTokenB in s.accounts
    && s.accounts[poolTokenA].amount == s.pool.tokenAAmount
    && s.accounts[poolTokenB].amount == s.pool.tokenBAmount
  }

  /** Two transfers in sequence; the first error stops the sequence and is
      the result. On success no account appears or disappears, no owner
      changes, and every account other than the four named keeps its balance.
      When the four accounts are different, the pair succeeds exactly when
      each transfer is allowed on the accounts as they were, and each source
      loses and each destination gains exactly its amount. */
  function TransferBoth(accounts: Accounts,
                        from1: Pubkey, to1: Pubkey, authority1: Pubkey, amount1: U64,
                        from2: Pubkey, to2: Pubkey, authority2: Pubkey, amount2: U64): (r: Result<Accounts, TokenError>)
    ensures !TransferAllowed(accounts, from1, to1, authority1, amount1) ==>
      r == Failure(Transfer(accounts, from1, to1, authority1, amount1).error)
    ensures TransferAllowed(accounts, from1, to1, authority1, amount1) ==>
      var moved := Transfer(accounts, from1, to1, authority1, amount1).value;
      !TransferAllowed(moved, from2, to2, authority2, amount2) ==>
        r == Failure(Transfer(moved, from2, to2, authority2, amount2).error)
    ensures r.Success? ==> r.value.Keys == accounts.Keys
    ensures r.Success? ==> forall k :: k in accounts ==> r.value[k].owner == accounts[k].owner
    ensures r.Success? ==> forall k :: k in accounts && k != from1 && k != to1 && k != from2 && k != to2 ==> r.value[k] == accounts[k]
    ensures FourDifferent(from1, to1, from2, to2) ==>
      (r.Success? <==> TransferAllowed(accounts, from1, to1, authority1, amount1)
                       && TransferAllowed(accounts, from2, to2, authority2, amount2))
    ensures FourDifferent(from1, to1, from2, to2) && r.Success? ==>
      && r.value[from1].amount + amount1 == accounts[from1].amount
      && r.value[to1].amount == accounts[to1].amount + amount1
      && r.value[from2].amount + amount2 == accounts[from2].amount
      && r.value[to2].amount == accounts[to2].amount + amount2
  {
    match Transfer(accounts, from1, to1, authority1, amount1)
    case Failure(e) => Failure(e)
    case Success(moved) =>
      assert from2 in accounts && to2 in accounts && FourDifferent(from1, to1, from2, to2) ==>
        moved[from2] == accounts[from2] && moved[to2] == accounts[to2];
      Transfer(moved, from2, to2, authority2, amount2)
  }

  /** Four pairwise different accounts. */
  predicate FourDifferent(a: Pubkey, b: Pubkey, c: Pubkey, d: Pubkey)
  {
    a != b && a != c && a != d && b != c && b != d && c != d
  }

  /** The effect of `deposit`: both user-to-pool transfers, then the stored
      amounts grow by the deposited values. The additions are unchecked, so
      they must stay within u64. */
  predicate DepositFits(p: PoolRecord, amountA: U64, amountB: U64)
  {
    p.tokenAAmount + amountA <= U64_MAX && p.tokenBAmount + amountB <= U64_MAX
  }

  function DepositSpec(s: Snapshot, ctx: LiquidityAccounts, amountA: U64, amountB: U64): (r: Result<Snapshot, ProgramError>)
    requires DepositFits(s.pool, amountA, amountB)
  {
    match TransferBoth(s.accounts, ctx.userTokenA, ctx.poolTokenA, ctx.user, amountA,
                                   ctx.userTokenB, ctx.poolTokenB, ctx.user, amountB)
    case Failure(e) => Failure(Cpi(e))
    case Success(moved) =>
      Success(Snapshot(s.pool.(tokenAAmount := s.pool.tokenAAmount + amountA,
                               tokenBAmount := s.pool.tokenBAmount + amountB), moved))
  }

  /** The effect of `add_liquidity`: both user-to-pool transfers, then checked
      additions to the stored amounts. */
  function AddLiquiditySpec(s: Snapshot, ctx: LiquidityAccounts, amountA: U64, amountB: U64): (r: Result<Snapshot, ProgramError>)
  {
    match TransferBoth(s.accounts, ctx.userTokenA, ctx.poolTokenA, ctx.user, amountA,
                                   ctx.userTokenB, ctx.poolTokenB, ctx.user, amountB)
    case Failure(e) => Failure(Cpi(e))
    case Success(moved) =>
      match CheckedAdd(s.pool.tokenAAmount, amountA)
      case None => Failure(Custom(MathError))
      case Some(a) =>
        match CheckedAdd(s.pool.tokenBAmount, amountB)
        case None => Failure(Custom(MathError))
        case Some(b) => Success(Snapshot(s.pool.(tokenAAmount := a, tokenBAmount := b), moved))
  }

  /** The effect of `remove_liquidity`: the liquidity check, both
      pool-to-user transfers signed by the pool account, then checked
      subtractions on a copy of the record, which is dropped. */
  function RemoveLiquiditySpec(s: Snapshot, ctx: LiquidityAccounts, amountA: U64, amountB: U64): (r: Result<Snapshot, ProgramError>)
  {
    var copy := s.pool;
    if !(copy.tokenAAmount >= amountA && copy.tokenBAmount >= amountB) then Failure(Custom(InsufficientLiquidity))
    else
      match TransferBoth(s.accounts, ctx.poolTokenA, ctx.userTokenA, ctx.pool, amountA,
                                     ctx.poolTokenB, ctx.userTokenB, ctx.pool, amountB)
      case Failure(e) => Failure(Cpi(e))
      case Success(moved) =>
        match CheckedSub(copy.tokenAAmount, amountA)
        case None => Failure(Custom(MathError))
        case Some(_) =>
          match CheckedSub(copy.tokenBAmount, amountB)
          case None => Failure(Custom(MathError))
          case Some(_) => Success(Snapshot(s.pool, moved))
  }

  /** `swap` reaches the pricing function only with both amounts non-zero;
      from there the pricing's unchecked arithmetic must stay within u64. */
  predicate SwapFits(p: PoolRecord, amountIn: U64, minAmountOut: U64)
  {
    amountIn > 0 && minAmountOut > 0 ==> Curve.CurveDefined(amountIn, p.tokenAAmount)
  }

  /** The effect of `swap`. It always prices token A against token B: the
      stored A amount is the input reserve and the B amount the output reserve,
      and the first component of the pricing result is the output. After the
      checks, the user pays `amountIn` into the pool and the pool pays the
      output out; the record is updated only on a copy, which is dropped. */
  function SwapSpec(s: Snapshot, ctx: SwapAccounts, amountIn: U64, minAmountOut: U64): (r: Result<Snapshot, ProgramError>)
    requires SwapFits(s.pool, amountIn, minAmountOut)
  {
    var copy := s.pool;
    if amountIn == 0 then Failure(Custom(InvalidAmount))
    else if minAmountOut == 0 then Failure(Custom(InvalidAmount))
    else
      match Curve.CalculateSwapAmount(amountIn, copy.tokenAAmount, copy.tokenBAmount)
      case Failure(e) => Failure(Custom(e))
      case Success(priced) =>
        var output := priced.0;
        if output < minAmountOut then Failure(Custom(SlippageError))
        else if copy.tokenAAmount < amountIn then Failure(Custom(InsufficientLiquidity))
        else if copy.tokenBAmount < output then Failure(Custom(InsufficientLiquidity))
        else
          match TransferBoth(s.accounts, ctx.userTokenIn, ctx.poolTokenIn, ctx.user, amountIn,
                                         ctx.poolTokenOut, ctx.userTokenOut, ctx.pool, output)
          case Failure(e) => Failure(Cpi(e))
          case Success(moved) =>
            match CheckedAdd(copy.tokenAAmount, amountIn)
            case None => Failure(Custom(MathError))
            case Some(_) =>
              match CheckedSub(copy.tokenBAmount, output)
              case None => Failure(Custom(MathError))
              case Some(_) => Success(Snapshot(s.pool, moved))
  }

  /** A handler's result and its state afterwards agree with its effect
      function: on success the new snapshot, on failure the error and the
      state from before. */
  predicate Commits(pre: Snapshot, effect: Result<Snapshot, ProgramError>, r: Result<(), ProgramError>, post: Snapshot)
  {
    && (effect.Success? ==> r == Success(()) && post == effect.value)
    && (effect.Failure? ==> r == Failure(effect.error) && post == pre)
  }

  /** The pool account. */
  class Pool {
    var authority: Pubkey
    var tokenAAmount: U64
    var tokenBAmount: U64

    /** The stored record. */
    function Record(): (p: PoolRecord)
      reads this
    {
      PoolRecord(authority, tokenAAmount, tokenBAmount)
    }

    /** `initialize_pool`: the account starts zeroed and the payer becomes its authority. */
    constructor InitializePool(payer: Pubkey)
      ensures Record() == PoolRecord(payer, 0, 0)
    {
      tokenAAmount, tokenBAmount := 0, 0;
      authority := payer;
    }

    /** `deposit`: moves both amounts from the user to the pool, then adds them to the stored amounts. */
    method Deposit(tokens: TokenProgram, ctx: LiquidityAccounts, amountA: U64, amountB: U64) returns (r: Result<(), ProgramError>)
      requires DepositFits(Record(), amountA, amountB)
      modifies this, tokens
      ensures Commits(old(Snapshot(Record(), tokens.accounts)),
                      DepositSpec(old(Snapshot(Record(), tokens.accounts)), ctx, amountA, amountB),
                      r, Snapshot(Record(), tokens.accounts))
    {
      var before := tokens.accounts;
      var t := tokens.InvokeTransfer(ctx.userTokenA, ctx.poolTokenA, ctx.user, amountA);
      if t.Failure? {
        return Failure(Cpi(t.error));
      }
      t := tokens.InvokeTransfer(ctx.userTokenB, ctx.poolTokenB, ctx.user, amountB);
      if t.Failure? {
        tokens.accounts := before;  // the runtime undoes the first transfer
        return Failure(Cpi(t.error));
      }
      tokenAAmount := tokenAAmount + amountA;
      tokenBAmount := tokenBAmount + amountB;
      return Success(());
    }

    /** `add_liquidity`: moves both amounts from the user to the pool, then adds them with overflow checks. */
    method AddLiquidity(tokens: TokenProgram, ctx: LiquidityAccounts, amountA: U64, amountB: U64) returns (r: Result<(), ProgramError>)
      modifies this, tokens
      ensures Commits(old(Snapshot(Record(), tokens.accounts)),
                      AddLiquiditySpec(old(Snapshot(Record(), tokens.accounts)), ctx, amountA, amountB),
                      r, Snapshot(Record(), tokens.accounts))
    {
      var before := tokens.accounts;
      var t := tokens.InvokeTransfer(ctx.userTokenA, ctx.poolTokenA, ctx.user, amountA);
      if t.Failure? {
        return Failure(Cpi(t.error));
      }
      t := tokens.InvokeTransfer(ctx.userTokenB, ctx.poolTokenB, ctx.user, amountB);
      if t.Failure? {
        tokens.accounts := before;  // the runtime undoes the first transfer
        return Failure(Cpi(t.error));
      }
      var storedA := tokenAAmount;
      var a := CheckedAdd(tokenAAmount, amountA);
      if a.None? {
        tokens.accounts := before;  // the runtime undoes both transfers
        return Failure(Custom(MathError));
      }
      tokenAAmount := a.value;
      var b := CheckedAdd(tokenBAmount, amountB);
      if b.None? {
        tokenAAmount := storedA;  // the runtime discards the write to the A amount
        tokens.accounts := before;
        return Failure(Custom(MathError));
      }
      tokenBAmount := b.value;
      return Success(());
    }

    /** `remove_liquidity`: checks the stored amounts, moves both amounts from
        the pool to the user, and updates only a copy of the record. */
    method RemoveLiquidity(tokens: TokenProgram, ctx: LiquidityAccounts, amountA: U64, amountB: U64) returns (r: Result<(), ProgramError>)
      modifies tokens
      ensures Commits(old(Snapshot(Record(), tokens.accounts)),
                      RemoveLiquiditySpec(old(Snapshot(Record(), tokens.accounts)), ctx, amountA, amountB),
                      r, Snapshot(Record(), tokens.accounts))
    {
      var copy := Record();
      if !(copy.tokenAAmount >= amountA && copy.tokenBAmount >= amountB) {
        return Failure(Custom(InsufficientLiquidity));
      }
      var before := tokens.accounts;
      var t := tokens.InvokeTransfer(ctx.poolTokenA, ctx.userTokenA, ctx.pool, amountA);
      if t.Failure? {
        return Failure(Cpi(t.error));
      }
      t := tokens.InvokeTransfer(ctx.poolTokenB, ctx.userTokenB, ctx.pool, amountB);
      if t.Failure? {
        tokens.accounts := before;  // the runtime undoes the first transfer
        return Failure(Cpi(t.error));
      }
      var a := CheckedSub(copy.tokenAAmount, amountA);
      if a.None? {
        assert false;  // the liquidity check rules out an underflow
        return Failure(Custom(MathError));
      }
      copy := copy.(tokenAAmount := a.value);
      var b := CheckedSub(copy.tokenBAmount, amountB);
      if b.None? {
        assert false;  // the liquidity check rules out an underflow
        return Failure(Custom(MathError));
      }
      copy := copy.(tokenBAmount := b.value);
      return Success(());
    }

    /** `swap`: validates the amounts, prices token A against token B, checks
        slippage and liquidity, moves the input to the pool and the output to
        the user, and updates only a copy of the record. */
    method Swap(tokens: TokenProgram, ctx: SwapAccounts, amountIn: U64, minAmountOut: U64) returns (r: Result<(), ProgramError>)
      requires SwapFits(Record(), amountIn, minAmountOut)
      modifies tokens
      ensures Commits(old(Snapshot(Record(), tokens.accounts)),
                      SwapSpec(old(Snapshot(Record(), tokens.accounts)), ctx, amountIn, minAmountOut),
                      r, Snapshot(Record(), tokens.accounts))
    {
      var copy := Record();
      if amountIn == 0 {
        return Failure(Custom(InvalidAmount));
      }
      if minAmountOut == 0 {
        return Failure(Custom(InvalidAmount));
      }
      var priced := Curve.CalculateSwapAmount(amountIn, copy.tokenAAmount, copy.tokenBAmount);
      if priced.Failure? {
        return Failure(Custom(priced.error));
      }
      var output := priced.value.0;
      if output < minAmountOut {
        return Failure(Custom(SlippageError));
      }
      if copy.tokenAAmount < amountIn {
        return Failure(Custom(InsufficientLiquidity));
      }
      if copy.tokenBAmount < output {
        return Failure(Custom(InsufficientLiquidity));
      }
      var before := tokens.accounts;
      var t := tokens.InvokeTransfer(ctx.userTokenIn, ctx.poolTokenIn, ctx.user, amountIn);
      if t.Failure? {
        return Failure(Cpi(t.error));
      }
      t := tokens.InvokeTransfer(ctx.poolTokenOut, ctx.userTokenOut, ctx.pool, output);
      if t.Failure? {
        tokens.accounts := before;  // the runtime undoes the first transfer
        return Failure(Cpi(t.error));
      }
      Curve.PositiveOutputBoundsInputReserve(amountIn, copy.tokenAAmount, copy.tokenBAmount);
      var a := CheckedAdd(copy.tokenAAmount, amountIn);
      if a.None? {
        assert false;  // a positive output bounds the A amount by half of u64's range
        return Failure(Custom(MathError));
      }
      copy := copy.(tokenAAmount := a.value);
      var b := CheckedSub(copy.tokenBAmount, output);
      if b.None? {
        assert false;  // the liquidity check rules out an underflow
        return Failure(Custom(MathError));
      }
      copy := copy.(tokenBAmount := b.value);
      return Success(());
    }
  }
}
