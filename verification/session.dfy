/** The contract as the host drives it: a sequence of messages, each dispatched to one transition,
    each failure rolled back. Two facts about every ledger reachable this way: the supply always
    covers the tokens held, so no transfer ever overflows; and the ledger's behaviour depends only
    on what its queries report, so an explicit zero entry is indistinguishable from a missing one. */
module Session {
  import opened Types
  import opened Erc20
  import opened Accounting

  /** One call to a mutating message of the contract, carrying the caller the host authenticated. */
  datatype Message =
    | ApproveMsg(caller: AccountId, spender: AccountId, value: Balance)
    | TransferMsg(caller: AccountId, to: AccountId, value: Balance)
    | TransferFromMsg(caller: AccountId, from: AccountId, to: AccountId, value: Balance)
    | BurnMsg(caller: AccountId, value: Balance)
    | IssueMsg(value: Balance)

  function Dispatch(l: Ledger, m: Message): Result<Step>
  {
    match m
    case ApproveMsg(caller, spender, value) => Approve(l, caller, spender, value)
    case TransferMsg(caller, to, value) => Transfer(l, caller, to, value)
    case TransferFromMsg(caller, from, to, value) => TransferFrom(l, caller, from, to, value)
    case BurnMsg(caller, value) => Burn(l, caller, value)
    case IssueMsg(value) => Issue(l, value)
  }

  /** The ledger once `m` has been handled: a failed call leaves it exactly as it was. */
  function After(l: Ledger, m: Message): (l': Ledger)
    ensures Dispatch(l, m).Err? ==> l' == l
    ensures Dispatch(l, m).Ok? ==> l' == Dispatch(l, m).value.ledger
  {
    var r := Dispatch(l, m);
    if r.Ok? then r.value.ledger else l
  }

  /** The ledger once every message of `ms` has been handled, in order. */
  function Run(l: Ledger, ms: seq<Message>): Ledger
    decreases |ms|
  {
    if ms == [] then l else Run(After(l, ms[0]), ms[1..])
  }

  // ----- The supply covers the tokens held -----

  /** No single call lets the tokens held outgrow the recorded supply. */
  lemma AfterPreservesCovered(l: Ledger, m: Message)
    requires Covered(l)
    ensures Covered(After(l, m))
  {
    if Dispatch(l, m).Ok? {
      match m
      case ApproveMsg(_, _, _) =>
      case TransferMsg(caller, to, value) => TransferFromToConserves(l, caller, to, value);
      case TransferFromMsg(caller, from, to, value) => TransferFromConserves(l, caller, from, to, value);
      case BurnMsg(caller, value) => BurnSum(l, caller, value);
      case IssueMsg(_) =>
    }
  }

  /** No sequence of calls does either. */
  lemma {:induction false} RunPreservesCovered(l: Ledger, ms: seq<Message>)
    requires Covered(l)
    ensures Covered(Run(l, ms))
    decreases |ms|
  {
    if ms != [] {
      AfterPreservesCovered(l, ms[0]);
      RunPreservesCovered(After(l, ms[0]), ms[1..]);
    }
  }

  /** On every ledger reachable from deployment, the `u128` credit of a transfer never
      overflows: `Transfer` and `TransferFrom` fail only for lack of balance or allowance. */
  lemma ReachableTransferNeverOverflows(deployer: AccountId, supply: Balance, ms: seq<Message>, m: Message)
    requires m.TransferMsg? || m.TransferFromMsg?
    ensures Dispatch(Run(New(deployer, supply), ms), m) != Err(Overflow)
  {
    var l := Run(New(deployer, supply), ms);
    NewSum(deployer, supply);
    RunPreservesCovered(New(deployer, supply), ms);
    match m
    case TransferMsg(caller, to, value) =>
      if BalanceOf(l, caller) >= value {
        CoveredTransferNoOverflow(l, caller, to, value);
      }
    case TransferFromMsg(caller, from, to, value) =>
      if BalanceOf(l, from) >= value {
        CoveredTransferNoOverflow(l, from, to, value);
      }
  }

  // ----- Only the queries' answers matter -----

  /** `l1` and `l2` answer every query alike, whatever their maps store. */
  ghost predicate Equivalent(l1: Ledger, l2: Ledger)
  {
    && TotalSupply(l1) == TotalSupply(l2)
    && (forall a :: BalanceOf(l1, a) == BalanceOf(l2, a))
    && (forall o, s :: Allowance(l1, o, s) == Allowance(l2, o, s))
  }

  /** Two results a caller cannot tell apart: the same error, or the same event together with
      equivalent ledgers. */
  ghost predicate SameOutcome(r1: Result<Step>, r2: Result<Step>)
  {
    && r1.Ok? == r2.Ok?
    && (r1.Err? ==> r1.error == r2.error)
    && (r1.Ok? ==> r1.value.event == r2.value.event && Equivalent(r1.value.ledger, r2.value.ledger))
  }

  /** Storing an explicit zero balance for an account is the same, to every query, as storing
      nothing for it. */
  lemma ZeroBalanceEntryUnobservable(l: Ledger, a: AccountId)
    requires a !in l.balances
    ensures Equivalent(l, l.(balances := l.balances[a := 0]))
  {
  }

  /** Likewise for an explicit zero allowance. */
  lemma ZeroAllowanceEntryUnobservable(l: Ledger, owner: AccountId, spender: AccountId)
    requires (owner, spender) !in l.allowances
    ensures Equivalent(l, l.(allowances := l.allowances[(owner, spender) := 0]))
  {
  }

  /** Ledgers that keep the balance maps of two equivalent ledgers report the same balances. */
  lemma KeptBalancesAgree(l1: Ledger, l2: Ledger, l1': Ledger, l2': Ledger)
    requires Equivalent(l1, l2)
    requires l1'.balances == l1.balances && l2'.balances == l2.balances
    ensures forall a :: BalanceOf(l1', a) == BalanceOf(l2', a)
  {
    forall a ensures BalanceOf(l1', a) == BalanceOf(l2', a) {
      assert BalanceOf(l1, a) == BalanceOf(l2, a);
    }
  }

  /** Ledgers that keep the allowance maps of two equivalent ledgers report the same allowances. */
  lemma KeptAllowancesAgree(l1: Ledger, l2: Ledger, l1': Ledger, l2': Ledger)
    requires Equivalent(l1, l2)
    requires l1'.allowances == l1.allowances && l2'.allowances == l2.allowances
    ensures forall o, s :: Allowance(l1', o, s) == Allowance(l2', o, s)
  {
    forall o, s ensures Allowance(l1', o, s) == Allowance(l2', o, s) {
      assert Allowance(l1, o, s) == Allowance(l2, o, s);
    }
  }

  /** `Approve` treats equivalent ledgers alike. */
  lemma ApproveRespectsEquivalence(l1: Ledger, l2: Ledger, caller: AccountId, spender: AccountId, value: Balance)
    requires Equivalent(l1, l2)
    ensures SameOutcome(Approve(l1, caller, spender, value), Approve(l2, caller, spender, value))
  {
    KeptBalancesAgree(l1, l2, Approve(l1, caller, spender, value).value.ledger, Approve(l2, caller, spender, value).value.ledger);
  }

  /** `TransferFromTo`, and so `Transfer`, treats equivalent ledgers alike. */
  lemma TransferFromToRespectsEquivalence(l1: Ledger, l2: Ledger, from: AccountId, to: AccountId, value: Balance)
    requires Equivalent(l1, l2)
    ensures SameOutcome(TransferFromTo(l1, from, to, value), TransferFromTo(l2, from, to, value))
  {
    assert BalanceOf(l1, from) == BalanceOf(l2, from);
    assert BalanceOf(l1, to) == BalanceOf(l2, to);
    var r1, r2 := TransferFromTo(l1, from, to, value), TransferFromTo(l2, from, to, value);
    if r1.Ok? {
      KeptAllowancesAgree(l1, l2, r1.value.ledger, r2.value.ledger);
    }
  }

  /** `TransferFrom` treats equivalent ledgers alike. */
  lemma TransferFromRespectsEquivalence(l1: Ledger, l2: Ledger, caller: AccountId, from: AccountId, to: AccountId, value: Balance)
    requires Equivalent(l1, l2)
    ensures SameOutcome(TransferFrom(l1, caller, from, to, value), TransferFrom(l2, caller, from, to, value))
  {
  }

  /** `Burn` treats equivalent ledgers alike. */
  lemma BurnRespectsEquivalence(l1: Ledger, l2: Ledger, caller: AccountId, value: Balance)
    requires Equivalent(l1, l2)
    ensures SameOutcome(Burn(l1, caller, value), Burn(l2, caller, value))
  {
    assert BalanceOf(l1, caller) == BalanceOf(l2, caller);
    var r1, r2 := Burn(l1, caller, value), Burn(l2, caller, value);
    if r1.Ok? {
      KeptAllowancesAgree(l1, l2, r1.value.ledger, r2.value.ledger);
    }
  }

  /** `Issue` treats equivalent ledgers alike. */
  lemma IssueRespectsEquivalence(l1: Ledger, l2: Ledger, value: Balance)
    requires Equivalent(l1, l2)
    ensures SameOutcome(Issue(l1, value), Issue(l2, value))
  {
    var r1, r2 := Issue(l1, value), Issue(l2, value);
    if r1.Ok? {
      KeptBalancesAgree(l1, l2, r1.value.ledger, r2.value.ledger);
      KeptAllowancesAgree(l1, l2, r1.value.ledger, r2.value.ledger);
    }
  }

  /** Every message treats equivalent ledgers alike: its success, its error, its event and the
      answers of every query afterwards depend only on the answers of the queries before. */
  lemma DispatchRespectsEquivalence(l1: Ledger, l2: Ledger, m: Message)
    requires Equivalent(l1, l2)
    ensures SameOutcome(Dispatch(l1, m), Dispatch(l2, m))
  {
    match m
    case ApproveMsg(caller, spender, value) => ApproveRespectsEquivalence(l1, l2, caller, spender, value);
    case TransferMsg(caller, to, value) => TransferFromToRespectsEquivalence(l1, l2, caller, to, value);
    case TransferFromMsg(caller, from, to, value) => TransferFromRespectsEquivalence(l1, l2, caller, from, to, value);
    case BurnMsg(caller, value) => BurnRespectsEquivalence(l1, l2, caller, value);
    case IssueMsg(value) => IssueRespectsEquivalence(l1, l2, value);
  }

  /** Hence whole runs treat equivalent ledgers alike. */
  lemma {:induction false} RunRespectsEquivalence(l1: Ledger, l2: Ledger, ms: seq<Message>)
    requires Equivalent(l1, l2)
    ensures Equivalent(Run(l1, ms), Run(l2, ms))
    decreases |ms|
  {
    if ms != [] {
      DispatchRespectsEquivalence(l1, l2, ms[0]);
      RunRespectsEquivalence(After(l1, ms[0]), After(l2, ms[0]), ms[1..]);
    }
  }
}
