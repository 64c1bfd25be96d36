/** Value types shared by the token ledger: account identities, u128 balances,
    the ledger's error enum, the events it emits, and the Option/Result wrappers. */
module Types {

  /** Largest value of the ledger's `Balance` type, which is `u128`. */
  const MAX_BALANCE: int := 0xFFFF_FFFF_FFFF_FFFF_FFFF_FFFF_FFFF_FFFF

  /** An amount of tokens: an unsigned 128-bit integer. */
  type Balance = b: int | 0 <= b <= MAX_BALANCE

  /** An account identity: 32 opaque bytes. The ledger only ever compares them for equality. */
  type AccountId = a: seq<bv8> | |a| == 32 witness seq(32, _ => 0)

  datatype Option<+T> = None | Some(value: T)

  /** The ledger's failures. `InSufficentBalance` and `InsufficientAllowance` are the contract's own
      error enum, spelled as there. `Overflow` stands for the checked-arithmetic panic of the host on
      a `u128` addition that does not fit; the host reverts the whole call, so, like the other two,
      it leaves the ledger unchanged. */
  datatype Error = InSufficentBalance | InsufficientAllowance | Overflow

  datatype Result<+T> = Ok(value: T) | Err(error: Error)

  /** The three events the ledger emits, the contract's `Transfer`, `Approval` and `Burn`. Every
      account field is an `Option`, as in the contract, although the ledger always fills it with
      `Some`. */
  datatype Event =
    | TransferEvent(from: Option<AccountId>, to: Option<AccountId>, value: Balance)
    | ApprovalEvent(owner: Option<AccountId>, spender: Option<AccountId>, value: Balance)
    | BurnEvent(caller: Option<AccountId>, value: Balance)
}
