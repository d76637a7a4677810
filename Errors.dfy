/** The program's error enum (`SwapError`) with the message attached to each
    variant and the numeric code Anchor's `#[error_code]` assigns to it
    (6000, Anchor's offset for user errors, plus the variant's position). */
module Errors {
  import opened Primitives

  datatype SwapError =
    | BumpNotFound
    | MathError
    | InsufficientLiquidity
    | SlippageError
    | InvalidAmount
    | TokenNotFound
    | TokenAlreadyInitialized

  /** Every variant, in declaration order. */
  const AllErrors: seq<SwapError> := [
    BumpNotFound, MathError, InsufficientLiquidity, SlippageError,
    InvalidAmount, TokenNotFound, TokenAlreadyInitialized
  ]

  const ERROR_CODE_OFFSET: nat := 6000

  /** The `#[msg]` text of a variant; each one is a sentence ending in a full stop. */
  function Message(e: SwapError): (m: string)
    ensures |m| > 0 && m[|m| - 1] == '.'
  {
    match e
    case BumpNotFound => "Bump seed not found."
    case MathError => "Math error in calculation."
    case InsufficientLiquidity => "Insufficient liquidity in the pool."
    case SlippageError => "Slippage error."
    case InvalidAmount => "Invalid amount."
    case TokenNotFound => "Token invalid."
    case TokenAlreadyInitialized => "Token already initialized."
  }

  /** The numeric code of a variant: the offset plus its declaration index. */
  function Code(e: SwapError): (c: nat)
    ensures ERROR_CODE_OFFSET <= c < ERROR_CODE_OFFSET + |AllErrors|
    ensures AllErrors[c - ERROR_CODE_OFFSET] == e
  {
    match e
    case BumpNotFound => 6000
    case MathError => 6001
    case InsufficientLiquidity => 6002
    case SlippageError => 6003
    case InvalidAmount => 6004
    case TokenNotFound => 6005
    case TokenAlreadyInitialized => 6006
  }

  /** Decodes a numeric code back into its variant; codes outside the enum's range are unknown. */
  function FromCode(c: nat): (r: Option<SwapError>)
    ensures r.Some? <==> ERROR_CODE_OFFSET <= c < ERROR_CODE_OFFSET + |AllErrors|
    ensures r.Some? ==> Code(r.value) == c
  {
    if ERROR_CODE_OFFSET <= c < ERROR_CODE_OFFSET + |AllErrors| then Some(AllErrors[c - ERROR_CODE_OFFSET]) else None
  }

  /** Decoding the code of any variant gives that variant back. */
  lemma CodeRoundTrip(e: SwapError)
    ensures FromCode(Code(e)) == Some(e)
  {
  }

  /** The enum has exactly seven variants, listed once each. */
  lemma ExactlySevenVariants()
    ensures |AllErrors| == 7
    ensures forall e: SwapError :: e in AllErrors
    ensures forall i, j :: 0 <= i < j < |AllErrors| ==> AllErrors[i] != AllErrors[j]
  {
    forall e: SwapError ensures e in AllErrors {
      assert AllErrors[Code(e) - ERROR_CODE_OFFSET] == e;
    }
  }

  /** No two variants share a message, so a message identifies its error. */
  lemma MessageInjective(e1: SwapError, e2: SwapError)
    ensures Message(e1) == Message(e2) ==> e1 == e2
  {
  }

  /** The message the integration tests assert on for a withdrawal beyond the ledger. */
  lemma InsufficientLiquidityMessage()
    ensures Message(InsufficientLiquidity) == "Insufficient liquidity in the pool."
    ensures Code(InsufficientLiquidity) == 6002
  {
  }
}
