/** The token ledger: its state, its constructors, its queries and its transitions.

    Every transition is a pure function from the ledger before the call to either the ledger after
    it together with the event it emits, or the error it returns. An error carries no ledger: the
    caller keeps the old one, which is how a failed call leaves all state untouched. The identity
    of the account making the call, which the host supplies, is an explicit `caller` argument. */
module Erc20 {
  import opened Types

  /** The contract's storage. An account missing from `balances`, or an (owner, spender) pair
      missing from `allowances`, holds zero. */
  datatype Ledger = Ledger(
    totalSupply: Balance,
    balances: map<AccountId, Balance>,
    allowances: map<(AccountId, AccountId), Balance>
  )

  /** What a successful transition produces: the new ledger and the event, if any, it emits. */
  datatype Step = Step(ledger: Ledger, event: Option<Event>)

  /** Lookup in a storage map where a missing key stands for zero. */
  function Get<K>(m: map<K, Balance>, k: K): (r: Balance)
    ensures k in m ==> r == m[k]
    ensures k !in m ==> r == 0
  {
    if k in m then m[k] else 0
  }

  // ----- Construction -----

  /** Deploys the ledger: the whole initial supply is credited to the deploying account. */
  function New(caller: AccountId, supply: Balance): (l: Ledger)
    ensures TotalSupply(l) == supply
    ensures BalanceOf(l, caller) == supply
    ensures forall a :: a != caller ==> BalanceOf(l, a) == 0
    ensures forall o, s :: Allowance(l, o, s) == 0
  {
    Ledger(supply, map[caller := supply], map[])
  }

  /** Deploys the ledger with the default `u128`, zero, as initial supply. */
  function Default(caller: AccountId): (l: Ledger)
    ensures TotalSupply(l) == 0
    ensures forall a :: BalanceOf(l, a) == 0
    ensures forall o, s :: Allowance(l, o, s) == 0
  {
    New(caller, 0)
  }

  // ----- Queries -----

  function TotalSupply(l: Ledger): Balance
  {
    l.totalSupply
  }

  /** The balance of `owner`; an account the ledger has never credited holds zero. */
  function BalanceOf(l: Ledger, owner: AccountId): (r: Balance)
    ensures owner !in l.balances ==> r == 0
    ensures owner in l.balances ==> r == l.balances[owner]
  {
    Get(l.balances, owner)
  }

  /** How much `spender` may still move out of `owner`'s balance; zero unless approved. */
  function Allowance(l: Ledger, owner: AccountId, spender: AccountId): (r: Balance)
    ensures (owner, spender) !in l.allowances ==> r == 0
    ensures (owner, spender) in l.allowances ==> r == l.allowances[(owner, spender)]
  {
    Get(l.allowances, (owner, spender))
  }

  // ----- Frame conditions used by the contracts below -----

  /** The balances of `l'` are those of `l` after `value` moved from `from` to `to`: a net no-op
      when the two accounts coincide, and no other account affected. */
  ghost predicate BalancesMoved(l: Ledger, l': Ledger, from: AccountId, to: AccountId, value: Balance)
  {
    && (from != to ==> BalanceOf(l', from) == BalanceOf(l, from) - value)
    && (from != to ==> BalanceOf(l', to) == BalanceOf(l, to) + value)
    && (from == to ==> BalanceOf(l', from) == BalanceOf(l, from))
    && (forall a :: a != from && a != to ==> BalanceOf(l', a) == BalanceOf(l, a))
  }

  /** Every allowance except possibly the one of (`owner`, `spender`) is the same in `l'` as in `l`. */
  ghost predicate OtherAllowancesUnchanged(l: Ledger, l': Ledger, owner: AccountId, spender: AccountId)
  {
    forall o, s :: (o, s) != (owner, spender) ==> Allowance(l', o, s) == Allowance(l, o, s)
  }

  // ----- Transitions -----

  /** `caller` authorises `spender` to move up to `value` of its tokens. The new allowance replaces
      the old one rather than adding to it. */
  function Approve(l: Ledger, caller: AccountId, spender: AccountId, value: Balance): (r: Result<Step>)
    ensures r.Ok?
    ensures Allowance(r.value.ledger, caller, spender) == value
    ensures OtherAllowancesUnchanged(l, r.value.ledger, caller, spender)
    ensures r.value.ledger.balances == l.balances
    ensures TotalSupply(r.value.ledger) == TotalSupply(l)
    ensures r.value.event == Some(ApprovalEvent(Some(caller), Some(spender), value))
  {
    var l' := l.(allowances := l.allowances[(caller, spender) := value]);
    Ok(Step(l', Some(ApprovalEvent(Some(caller), Some(spender), value))))
  }

  /** `caller` moves `value` out of `from`'s balance into `to`'s, spending the allowance `from`
      granted it. The allowance is checked first; it is decreased only once the balance move
      has succeeded. */
  function TransferFrom(l: Ledger, caller: AccountId, from: AccountId, to: AccountId, value: Balance)
    : (r: Result<Step>)
    ensures r == Err(InsufficientAllowance) <==> Allowance(l, from, caller) < value
    ensures r == Err(InSufficentBalance) <==>
              Allowance(l, from, caller) >= value && BalanceOf(l, from) < value
    ensures r.Ok? <==>
              && Allowance(l, from, caller) >= value
              && BalanceOf(l, from) >= value
              && (from == to || BalanceOf(l, to) + value <= MAX_BALANCE)
    ensures r.Ok? ==> Allowance(r.value.ledger, from, caller) == Allowance(l, from, caller) - value
    ensures r.Ok? ==> OtherAllowancesUnchanged(l, r.value.ledger, from, caller)
    ensures r.Ok? ==> BalancesMoved(l, r.value.ledger, from, to, value)
    ensures r.Ok? ==> TotalSupply(r.value.ledger) == TotalSupply(l)
    ensures r.Ok? ==> r.value.event == Some(TransferEvent(Some(from), Some(to), value))
  {
    var allowance := Allowance(l, from, caller);
    if allowance < value then
      Err(InsufficientAllowance)
    else
      match TransferFromTo(l, from, to, value)
      case Err(e) => Err(e)
      case Ok(step) =>
        var l' := step.ledger.(allowances := step.ledger.allowances[(from, caller) := allowance - value]);
        Ok(Step(l', step.event))
  }

  /** `caller` moves `value` of its own tokens to `to`; no allowance is involved. */
  function Transfer(l: Ledger, caller: AccountId, to: AccountId, value: Balance): (r: Result<Step>)
    ensures r == TransferFromTo(l, caller, to, value)
    ensures r == Err(InSufficentBalance) <==> BalanceOf(l, caller) < value
    ensures r.Ok? ==> BalancesMoved(l, r.value.ledger, caller, to, value)
    ensures r.Ok? ==> r.value.ledger.allowances == l.allowances
    ensures r.Ok? ==> TotalSupply(r.value.ledger) == TotalSupply(l)
    ensures r.Ok? ==> r.value.event == Some(TransferEvent(Some(caller), Some(to), value))
  {
    TransferFromTo(l, caller, to, value)
  }

  /** The balance move shared by `Transfer` and `TransferFrom`. The debit of `from` is written
      before the credit of `to` reads its balance, so when `from == to` the two cancel out; the
      Transfer event is emitted all the same. */
  function TransferFromTo(l: Ledger, from: AccountId, to: AccountId, value: Balance): (r: Result<Step>)
    ensures r == Err(InSufficentBalance) <==> BalanceOf(l, from) < value
    ensures r == Err(Overflow) <==>
              BalanceOf(l, from) >= value && from != to && BalanceOf(l, to) + value > MAX_BALANCE
    ensures r.Err? ==> r.error != InsufficientAllowance
    ensures r.Ok? ==> BalancesMoved(l, r.value.ledger, from, to, value)
    ensures r.Ok? ==> r.value.ledger.allowances == l.allowances
    ensures r.Ok? ==> TotalSupply(r.value.ledger) == TotalSupply(l)
    ensures r.Ok? ==> r.value.event == Some(TransferEvent(Some(from), Some(to), value))
  {
    var fromBalance := Get(l.balances, from);
    if fromBalance < value then
      Err(InSufficentBalance)
    else
      var debited := l.balances[from := fromBalance - value];
      var toBalance := Get(debited, to);
      if toBalance + value > MAX_BALANCE then
        Err(Overflow)
      else
        var l' := l.(balances := debited[to := toBalance + value]);
        Ok(Step(l', Some(TransferEvent(Some(from), Some(to), value))))
  }

  /** `caller` destroys `value` of its own tokens. Only its balance goes down: the total supply
      is left as it was. */
  function Burn(l: Ledger, caller: AccountId, value: Balance): (r: Result<Step>)
    ensures r.Err? <==> BalanceOf(l, caller) < value
    ensures r.Err? ==> r.error == InSufficentBalance
    ensures r.Ok? ==> BalanceOf(r.value.ledger, caller) == BalanceOf(l, caller) - value
    ensures r.Ok? ==> forall a :: a != caller ==> BalanceOf(r.value.ledger, a) == BalanceOf(l, a)
    ensures r.Ok? ==> r.value.ledger.allowances == l.allowances
    ensures r.Ok? ==> TotalSupply(r.value.ledger) == TotalSupply(l)
    ensures r.Ok? ==> r.value.event == Some(BurnEvent(Some(caller), value))
  {
    var callerBalance := Get(l.balances, caller);
    if callerBalance < value then
      Err(InSufficentBalance)
    else
      var l' := l.(balances := l.balances[caller := callerBalance - value]);
      Ok(Step(l', Some(BurnEvent(Some(caller), value))))
  }

  /** Raises the total supply by `value`. Anyone may call it, no account is credited, and no event
      is emitted. */
  function Issue(l: Ledger, value: Balance): (r: Result<Step>)
    ensures r.Err? <==> TotalSupply(l) + value > MAX_BALANCE
    ensures r.Err? ==> r.error == Overflow
    ensures r.Ok? ==> TotalSupply(r.value.ledger) == TotalSupply(l) + value
    ensures r.Ok? ==> r.value.ledger.balances == l.balances
    ensures r.Ok? ==> r.value.ledger.allowances == l.allowances
    ensures r.Ok? ==> r.value.event == None
  {
    if l.totalSupply + value > MAX_BALANCE then
      Err(Overflow)
    else
      Ok(Step(l.(totalSupply := l.totalSupply + value), None))
  }
}
