/** The token transfers the handlers request from the token program, as an
    abstract step over the balances of token accounts. A transfer either moves
    `amount` from one account to the other or fails and changes nothing. It
    fails when an account does not exist, when the source holds less than
    `amount`, when the signing authority is not the source's owner, or when the
    destination's balance would leave u64; a transfer from an account to itself
    that passes these checks changes nothing. */
module Token {
  import opened Primitives

  datatype TokenAccount = TokenAccount(owner: Pubkey, amount: U64)

  /** Token accounts by address. */
  type Accounts = map<Pubkey, TokenAccount>

  datatype TokenError = AccountNotFound | InsufficientFunds | OwnerMismatch | Overflow

  /** The conditions under which the token program carries out a transfer. */
  predicate TransferAllowed(accounts: Accounts, from: Pubkey, to: Pubkey, authority: Pubkey, amount: U64)
  {
    && from in accounts && to in accounts
    && amount <= accounts[from].amount
    && accounts[from].owner == authority
    && (from == to || accounts[to].amount + amount <= U64_MAX)
  }

  /** The balance of `key`, reading a missing account as empty. */
  function BalanceOf(accounts: Accounts, key: Pubkey): (b: nat)
  {
    if key in accounts then accounts[key].amount else 0
  }

  /** Moves `amount` from `from` to `to`, signed by `authority`. On success the
      source loses exactly `amount`, the destination gains it, and no other
      balance and no owner changes. */
  function Transfer(accounts: Accounts, from: Pubkey, to: Pubkey, authority: Pubkey, amount: U64): (r: Result<Accounts, TokenError>)
    ensures r.Success? <==> TransferAllowed(accounts, from, to, authority, amount)
    ensures r.Success? ==> r.value.Keys == accounts.Keys
    ensures r.Success? ==> forall k :: k in accounts ==> r.value[k].owner == accounts[k].owner
    ensures r.Success? && from != to ==>
      && r.value[from].amount + amount == accounts[from].amount
      && r.value[to].amount == accounts[to].amount + amount
    ensures r.Success? ==> forall k :: k in accounts && k != from && k != to ==> r.value[k] == accounts[k]
    ensures r.Success? && from == to ==> r.value == accounts
  {
    if from !in accounts || to !in accounts then Failure(AccountNotFound)
    else if accounts[from].amount < amount then Failure(InsufficientFunds)
    else if accounts[from].owner != authority then Failure(OwnerMismatch)
    else if from == to then Success(accounts)
    else if accounts[to].amount + amount > U64_MAX then Failure(Overflow)
    else
      var debited := accounts[from := accounts[from].(amount := accounts[from].amount - amount)];
      Success(debited[to := debited[to].(amount := debited[to].amount + amount)])
  }

  /** Sending the same amount back, signed by the owner of the account that
      received it, restores every balance. */
  lemma TransferBackRestores(accounts: Accounts, from: Pubkey, to: Pubkey, authority: Pubkey, amount: U64)
    requires Transfer(accounts, from, to, authority, amount).Success?
    ensures
      var moved := Transfer(accounts, from, to, authority, amount).value;
      Transfer(moved, to, from, accounts[to].owner, amount) == Success(accounts)
  {
    var moved := Transfer(accounts, from, to, authority, amount).value;
    var back := Transfer(moved, to, from, accounts[to].owner, amount);
    assert back.Success?;
    assert back.value == accounts by {
      assert back.value.Keys == accounts.Keys;
      forall k | k in accounts ensures back.value[k] == accounts[k] {
      }
    }
  }

  /** The host's view of all token accounts, which transfers update in place. */
  class TokenProgram {
    var accounts: Accounts

    constructor (initial: Accounts)
      ensures accounts == initial
    {
      accounts := initial;
    }

    /** A transfer CPI: on success the accounts become `Transfer`'s result, on failure they stay as they were. */
    method InvokeTransfer(from: Pubkey, to: Pubkey, authority: Pubkey, amount: U64) returns (r: Result<(), TokenError>)
      modifies this
      ensures var t := Transfer(old(accounts), from, to, authority, amount);
        && (t.Success? ==> r == Success(()) && accounts == t.value)
        && (t.Failure? ==> r == Failure(t.error) && accounts == old(accounts))
    {
      var t := Transfer(accounts, from, to, authority, amount);
      if t.Failure? {
        return Failure(t.error);
      }
      accounts := t.value;
      return Success(());
    }
  }
}
