# solana_swap: the pool ledger and its pricing, in Dafny

This project models the core of the `solana_swap` Anchor program: a pool
account that records an authority and two token amounts, the five instruction
handlers that read and update it around token transfers, the swap pricing
function, an alternative (unused) pricing formula, and the program's error
enum.

- `Primitives.dfy`: Rust's `u64` as a subset type of `nat`, the checked
  operations the handlers use (`checked_add`, `checked_sub`, `checked_mul`,
  `checked_div`), bytes, 32-byte public keys, and Option/Result.
- `Errors.dfy`: the seven `SwapError` variants, their `#[msg]` texts, and the
  numeric codes Anchor's `#[error_code]` gives them (6000 onwards).
- `State.dfy`: the `Pool` record (`authority`, `token_a_amount`,
  `token_b_amount`), `Pool::LEN`, and the account layout that constant sizes
  (8-byte discriminator, 32-byte key, two little-endian u64s), with both
  round trips of its encoding.
- `Curve.dfy`: `calculate_swap_amount` from `curve.rs`: a 0.3% fee rounded
  down, then `output_reserve * input_reserve / (input_reserve + input_after_fee)`
  with `MathError` on an overflowing product or a zero divisor. The result is
  the output reserve that remains after the trade, not the amount the trade
  removes; `PostSwapReserveVersusConventionalQuote` proves that the two add
  up to the output reserve, up to one unit lost to rounding.
- `Utils.dfy`: `calculate_swap_amount` from `utils.rs`, the conventional
  quote `total_out * amount_in / (total_in + amount_in)`. The crate root does
  not declare this module, so nothing calls it.
- `Token.dfy`: a token transfer as a step that either moves an amount between
  two token accounts or fails and changes nothing, and the `TokenProgram`
  object whose accounts the transfers update.
- `Instructions.dfy`: the pool account as the class `Pool` with the handlers
  `initialize_pool`, `deposit`, `add_liquidity`, `remove_liquidity` and
  `swap` as its constructor and methods. Each handler's effect is also a
  function on a `Snapshot` (pool record plus token accounts). Each method's
  postcondition says that it returns that function's result and leaves that
  function's state, or, on an error, the state from before.
- `HandlerProperties.dfy`: what the handlers promise, proved about those
  effect functions. This covers which error fires when, the new stored amounts
  and balances, and when the stored amounts match the pool's token balances.
  It also replays the three test scenarios: deposit, add then remove
  liquidity, and swap.

Behaviour worth knowing, all taken from the code:

- `remove_liquidity` and `swap` check against and compute on a copy of the
  pool record (`instructions.rs` lines 137 and 193). They never change the
  stored amounts, but the pool's token accounts do change. So the stored amounts
  stop matching the pool's balances (`RemoveLiquidityDesyncsLedger`), and the
  tests expect exactly that. `Pool.RemoveLiquidity` and `Pool.Swap` therefore
  modify only the token accounts.
- `swap` always prices token A against token B: the stored A amount is the
  input reserve and the B amount the output reserve.
- `calculate_swap_amount` returns a pair `(output, fee)`. The swap handler
  uses its result as one number, which as written does not type-check. The
  model uses the first component.
- Of the two liquidity checks in `swap`, the second (output against the B
  amount) can never fail, because the output never exceeds the B amount.
  The `checked_sub` error branches of `remove_liquidity` and `swap` cannot be
  reached either: the methods carry `assert false` there.
- The `checked_add` on the copy in `swap` runs after both transfers, and it
  cannot fail either. An output that passes the slippage check is positive.
  A positive output needs a B amount of at least 2, and then the product
  check bounds the A amount by half of u64's range. The input is at most the
  A amount, so the sum fits (`SwapCannotFailAfterTransfers`). `swap`'s only
  `MathError` comes from pricing (`SwapMathErrorOnlyFromPricing`).

The code has no asset registry and no
registration errors. No handler compares the signer with `pool.authority`. There
is no fee-collector transfer. `swap` and `remove_liquidity` do not write the
new amounts back to the ledger.

## Model

| member | source | states |
|---|---|---|
| `Errors.Message` | programs/solana_swap/src/errors.rs:5-24 | the `#[msg]` text of each variant; every message is a sentence ending in a full stop |
| `Errors.Code` | programs/solana_swap/src/errors.rs:3-25 | each variant's code lies in 6000..6006 and indexes that variant in declaration order |
| `Errors.FromCode` | programs/solana_swap/src/errors.rs:3-25 | a code decodes exactly when it lies in 6000..6006, and decodes to the variant with that code |
| `Errors.CodeRoundTrip` | programs/solana_swap/src/errors.rs:3-25 | decoding a variant's code gives the variant back |
| `Errors.ExactlySevenVariants` | programs/solana_swap/src/errors.rs:4-25 | the enum has seven variants, every variant is listed, and no two list entries are equal |
| `Errors.MessageInjective` | programs/solana_swap/src/errors.rs:5-24 | two variants with the same message are the same variant |
| `Errors.InsufficientLiquidityMessage` | programs/solana_swap/src/errors.rs:11-12 | `InsufficientLiquidity` reads "Insufficient liquidity in the pool." and has code 6002 |
| `State.LayoutOfLen` | programs/solana_swap/src/state.rs:13-17 | `Pool::LEN` is 56: discriminator at 0, authority at 8, token A amount at 40, token B amount at 48 |
| `State.EncodeLE` | programs/solana_swap/src/state.rs:8-9 | a number below 256^n encodes in exactly n little-endian bytes |
| `State.DecodeLE` | programs/solana_swap/src/state.rs:8-9 | n little-endian bytes stand for a number below 256^n |
| `State.DecodeEncodeLE` | programs/solana_swap/src/state.rs:8-9 | decoding the little-endian encoding of a number gives the number back |
| `State.EncodeDecodeLE` | programs/solana_swap/src/state.rs:8-9 | re-encoding the number a byte string stands for gives the byte string back |
| `State.U64FitsEightBytes` | programs/solana_swap/src/state.rs:8-9 | every u64 amount fits in the 8 bytes the layout gives it |
| `State.Serialize` | programs/solana_swap/src/state.rs:5-17 | a pool account is `LEN` bytes, starts with the discriminator and holds the authority in bytes 8 to 40 |
| `State.Deserialize` | programs/solana_swap/src/state.rs:5-17 | reading an account succeeds exactly when it has at least `LEN` bytes and the right discriminator; the authority comes from bytes 8 to 40 |
| `State.SerializeRoundTrip` | programs/solana_swap/src/state.rs:5-17 | reading back a written pool record gives the same record |
| `State.DeserializeRoundTrip` | programs/solana_swap/src/state.rs:5-17 | every `LEN`-byte account with the right discriminator is the encoding of the record read from it |
| `Curve.FeeAmount` | programs/solana_swap/src/curve.rs:9-13 | the fee is the floor of 3/1000 of the input and never exceeds the input, so the subtraction on line 16 cannot underflow |
| `Curve.NewInputReserve` | programs/solana_swap/src/curve.rs:15-19 | the new input reserve lies between the input reserve and the input reserve plus the whole input |
| `Curve.CalculateSwapAmount` | programs/solana_swap/src/curve.rs:3-30 | `MathError` exactly when the reserve product leaves u64 or the new input reserve is 0; otherwise the fee as above and the output as the floor of product over new input reserve, at most the output reserve |
| `Curve.FeeVanishesExactlyBelow334` | programs/solana_swap/src/curve.rs:9-13 | the fee is 0 exactly for inputs below 334 |
| `Curve.ZeroInputReturnsWholeReserve` | programs/solana_swap/src/curve.rs:13-26 | with no input and a non-empty input reserve, the output is the whole output reserve and the fee 0 |
| `Curve.PositiveOutputBoundsInputReserve` | programs/solana_swap/src/curve.rs:13-26 | a positive output requires an output reserve of at least 2 and an input reserve of at most half of u64's range |
| `Curve.TestVector` | programs/solana_swap/src/curve.rs:3-29 | input 50 against reserves 500 and 500 gives output 454 and fee 0 |
| `Curve.PostSwapReserveVersusConventionalQuote` | programs/solana_swap/src/curve.rs:19-26 | the curve's output plus the conventional quote for the fee-reduced input equals the output reserve, or the output reserve minus one |
| `Utils.CalculateSwapAmount` | programs/solana_swap/src/utils.rs:1-4 | the result is the floor of `total_out * amount_in / (total_in + amount_in)` and at most `total_out` |
| `Utils.ZeroInputYieldsNothing` | programs/solana_swap/src/utils.rs:3 | with no input and a non-empty input reserve, the quote is 0 |
| `Utils.MonotonicInAmount` | programs/solana_swap/src/utils.rs:1-4 | for fixed reserves, a larger input never gets a smaller quote |
| `Token.Transfer` | programs/solana_swap/src/instructions.rs:44-50 | a transfer succeeds exactly when both accounts exist, the source has enough, the signer owns the source and the destination stays within u64; then the source loses the amount, the destination gains it, and nothing else changes |
| `Token.TransferBackRestores` | programs/solana_swap/src/instructions.rs:146-152 | sending the same amount back, signed by the receiving account's owner, restores every account |
| `Token.TokenProgram.InvokeTransfer` | programs/solana_swap/src/instructions.rs:49-50 | the transfer call leaves the accounts as `Transfer` says, or unchanged with its error |
| `Instructions.TransferBoth` | programs/solana_swap/src/instructions.rs:43-59 | the first failing transfer's own error is the result; on success no account appears or disappears, no owner changes and only the four named accounts can change; for four different accounts the pair succeeds exactly when both transfers are allowed on the original accounts, each source is debited and each destination credited by exactly its amount |
| `Instructions.Pool.InitializePool` | programs/solana_swap/src/instructions.rs:16-20 | a new pool has the payer as authority and both amounts 0 |
| `Instructions.Pool.Deposit` | programs/solana_swap/src/instructions.rs:39-66 | the result and new state are those of `DepositSpec`: both transfers, then both stored amounts raised; on an error nothing changes |
| `Instructions.Pool.AddLiquidity` | programs/solana_swap/src/instructions.rs:85-117 | the result and new state are those of `AddLiquiditySpec`: both transfers, then checked additions; on an error nothing changes |
| `Instructions.Pool.RemoveLiquidity` | programs/solana_swap/src/instructions.rs:136-174 | the result and new state are those of `RemoveLiquiditySpec`; the method cannot modify the pool record |
| `Instructions.Pool.Swap` | programs/solana_swap/src/instructions.rs:192-250 | the result and new state are those of `SwapSpec`; the method cannot modify the pool record |
| `HandlerProperties.DepositCreditsLedger` | programs/solana_swap/src/instructions.rs:39-66 | `deposit` fails exactly when one of its transfers fails, and then returns that transfer's own error; on success the amounts grow by exactly the deposited values and the authority stays |
| `HandlerProperties.DepositKeepsLedgerInSync` | programs/solana_swap/src/instructions.rs:43-63 | a successful `deposit` moves each amount from the user's account to the pool's, so stored amounts equal to the pool's balances stay equal |
| `HandlerProperties.AddLiquidityOverflow` | programs/solana_swap/src/instructions.rs:106-114 | after successful transfers, `add_liquidity` fails with `MathError` exactly when an addition leaves u64, and otherwise adds exactly the deposited values |
| `HandlerProperties.AddLiquidityErrors` | programs/solana_swap/src/instructions.rs:95-114 | a failed transfer is reported before any arithmetic; the only other error is `MathError` |
| `HandlerProperties.AddLiquidityKeepsLedgerInSync` | programs/solana_swap/src/instructions.rs:88-114 | a successful `add_liquidity` keeps stored amounts equal to the pool's balances when they were |
| `HandlerProperties.RemoveLiquidityGuard` | programs/solana_swap/src/instructions.rs:136-174 | `InsufficientLiquidity` exactly when a stored amount is below the requested one; no `MathError` is possible; on success the stored record is unchanged |
| `HandlerProperties.RemoveLiquidityChecksBeforeTransfers` | programs/solana_swap/src/instructions.rs:137-143 | whether the liquidity check fails depends only on the stored record, not on the token accounts |
| `HandlerProperties.RemoveLiquidityDesyncsLedger` | programs/solana_swap/src/instructions.rs:137-171 | a successful `remove_liquidity` pays both amounts from the pool to the user and keeps the stored amounts, so matching amounts stay matched exactly when nothing was removed |
| `HandlerProperties.DepositThenRemoveRestoresAccounts` | programs/solana_swap/src/instructions.rs:39-174 | depositing then removing the same amounts restores every token account while the stored amounts keep the deposit |
| `HandlerProperties.SwapOutput` | programs/solana_swap/src/instructions.rs:200 | the output `swap` prices, with A as input and B as output reserve, is never more than the B amount |
| `HandlerProperties.SwapChecks` | programs/solana_swap/src/instructions.rs:195-213 | in order: `InvalidAmount` exactly for a zero amount; pricing `MathError` exactly for an overflowing reserve product; `SlippageError` exactly for an output below the minimum; `InsufficientLiquidity` exactly when the A amount is below the input |
| `HandlerProperties.SwapChecksPrecedeTransfers` | programs/solana_swap/src/instructions.rs:195-213 | whether a validation error of `swap` fires depends only on the stored record, not on the token accounts |
| `HandlerProperties.SwapCannotFailAfterTransfers` | programs/solana_swap/src/instructions.rs:239-247 | once the checks have passed and both transfers succeed, the A amount plus the input fits in u64 and `swap` succeeds: the `checked_add` and `checked_sub` on the copy never fail |
| `HandlerProperties.SwapMathErrorOnlyFromPricing` | programs/solana_swap/src/instructions.rs:196-247 | `swap` fails with `MathError` exactly when both amounts are non-zero and the product of the reserves leaves u64, that is only from pricing |
| `HandlerProperties.SwapLeavesLedger` | programs/solana_swap/src/instructions.rs:192-250 | a successful `swap` pays between the minimum and the B amount, moves the input from user to pool and the output from pool to user, keeps the set of token accounts, and leaves the stored record unchanged |
| `HandlerProperties.DepositScenario` | tests/solana_swap.ts:163-224 | depositing 100 A and 200 B into a fresh pool stores 100 and 200 and leaves balances 900, 800, 100, 200 |
| `HandlerProperties.RemoveLiquidityScenario` | tests/solana_swap.ts:341-454 | after adding 500 A and 300 B, removing 100 A and 150 B leaves the record at 500 and 300 and balances 600, 850, 400, 150 |
| `HandlerProperties.SwapScenario` | tests/solana_swap.ts:589-730 | with 500 of each in the pool, swapping 50 A for at least 454 B leaves the record at 500 and 500 and balances 450, 954, 550, 46 |

## Left out

- Anchor's account constraints (`#[derive(Accounts)]`, `init`, `payer`, `mut`), signer checks and the discriminator's value: these are framework behaviour. The discriminator is a parameter of the layout functions.
- An `init` on an account that already exists fails inside the framework; `Instructions.Pool.InitializePool` models only the handler body on a fresh, zeroed account.
- The token program is not modelled beyond one transfer: the missing account, insufficient funds, owner and destination overflow checks. Mint matching, frozen accounts, delegates and whether the signer really signed are left out.
- Whole-transaction rollback is modelled by restoring the state the method changed before it returns an error; the partial write in `add_liquidity` is undone that way.
- `Instructions.Pool.Deposit`: the unchecked `+=` on lines 62-63 is a precondition (no overflow), since the program's overflow-check setting, panic or wrap-around, is not part of this model.
- `Curve.CalculateSwapAmount`: the unchecked multiplication on line 13 and addition on line 19 are preconditions (`CurveDefined`), for the same reason; `swap` passes this on as `SwapFits`.
- `Utils.CalculateSwapAmount`: its unchecked product, sum and division are preconditions (`SwapAmountDefined`); a violation panics.
- `lib.rs` dispatch and the `constants` module it declares are not part of this model; the integration tests' network setup, mint creation and airdrops are left out; only their amounts and expected balances are replayed.
