/** Properties relating several calls, and worked examples stated for arbitrary accounts. Only
    `DeployScenario` and `IssueScenario` come from the contract's own tests. */
module Scenarios {
  import opened Types
  import opened Erc20
  import opened Session

  /** A second approval of the same spender replaces the first: the ledger is the one a single
      approval of the second amount would give, whatever the first amount was. */
  lemma ApproveOverwrites(l: Ledger, owner: AccountId, spender: AccountId, v1: Balance, v2: Balance)
    ensures After(After(l, ApproveMsg(owner, spender, v1)), ApproveMsg(owner, spender, v2))
         == After(l, ApproveMsg(owner, spender, v2))
    ensures Allowance(After(After(l, ApproveMsg(owner, spender, v1)), ApproveMsg(owner, spender, v2)), owner, spender) == v2
  {
    assert l.allowances[(owner, spender) := v1][(owner, spender) := v2]
        == l.allowances[(owner, spender) := v2];
  }

  /** A successful move keeps what `from` and `to` hold together, also when they coincide. */
  lemma TransferPairConserved(l: Ledger, from: AccountId, to: AccountId, value: Balance)
    requires TransferFromTo(l, from, to, value).Ok?
    ensures var l' := TransferFromTo(l, from, to, value).value.ledger;
            BalanceOf(l', from) + BalanceOf(l', to) == BalanceOf(l, from) + BalanceOf(l, to)
  {
  }

  /** A delegated transfer the balance cannot cover leaves the spender's allowance untouched,
      even though the allowance check passed. */
  lemma FailedTransferFromKeepsAllowance(l: Ledger, caller: AccountId, from: AccountId, to: AccountId, value: Balance)
    requires Allowance(l, from, caller) >= value > BalanceOf(l, from)
    ensures Dispatch(l, TransferFromMsg(caller, from, to, value)) == Err(InSufficentBalance)
    ensures Allowance(After(l, TransferFromMsg(caller, from, to, value)), from, caller) == Allowance(l, from, caller)
  {
  }

  /** A direct transfer never consumes an allowance, not even one its sender granted. */
  lemma TransferKeepsAllowances(l: Ledger, caller: AccountId, to: AccountId, value: Balance, o: AccountId, s: AccountId)
    ensures Allowance(After(l, TransferMsg(caller, to, value)), o, s) == Allowance(l, o, s)
  {
  }

  /** Deploying with 1000 credits all of it to the deployer and nothing to anyone else. */
  lemma DeployScenario(x: AccountId, y: AccountId)
    requires x != y
    ensures TotalSupply(New(x, 1000)) == 1000
    ensures BalanceOf(New(x, 1000), x) == 1000
    ensures BalanceOf(New(x, 1000), y) == 0
  {
  }

  /** Issuing 10 on a ledger deployed with 1000 gives a supply of 1010. */
  lemma IssueScenario(x: AccountId)
    ensures TotalSupply(After(New(x, 1000), IssueMsg(10))) == 1010
  {
  }

  /** The deployer sends 400 of its 1000 to another account and a Transfer event records it. */
  lemma TransferScenario(x: AccountId, y: AccountId)
    requires x != y
    ensures var r := Dispatch(New(x, 1000), TransferMsg(x, y, 400));
            && r.Ok?
            && BalanceOf(r.value.ledger, x) == 600
            && BalanceOf(r.value.ledger, y) == 400
            && r.value.event == Some(TransferEvent(Some(x), Some(y), 400))
  {
  }

  /** The deployer approves 300 to `z`; `z` spends all of it towards `w`, after which a further
      spend of 1 is refused for lack of allowance. */
  lemma DelegationScenario(x: AccountId, z: AccountId, w: AccountId)
    requires x != w
    ensures var l1 := After(New(x, 1000), ApproveMsg(x, z, 300));
            var r2 := Dispatch(l1, TransferFromMsg(z, x, w, 300));
            && r2.Ok?
            && BalanceOf(r2.value.ledger, x) == 700
            && BalanceOf(r2.value.ledger, w) == 300
            && Allowance(r2.value.ledger, x, z) == 0
            && Dispatch(r2.value.ledger, TransferFromMsg(z, x, w, 1)) == Err(InsufficientAllowance)
  {
  }

  /** Sending 51 out of a balance of 50 is refused and changes nothing. */
  lemma OverdraftScenario(l: Ledger, x: AccountId, y: AccountId)
    requires BalanceOf(l, x) == 50
    ensures Dispatch(l, TransferMsg(x, y, 51)) == Err(InSufficentBalance)
    ensures After(l, TransferMsg(x, y, 51)) == l
  {
  }

  /** Burning a whole balance of 200 empties it and emits a Burn event; the supply stays. */
  lemma BurnScenario(l: Ledger, x: AccountId)
    requires BalanceOf(l, x) == 200
    ensures var r := Dispatch(l, BurnMsg(x, 200));
            && r.Ok?
            && BalanceOf(r.value.ledger, x) == 0
            && TotalSupply(r.value.ledger) == TotalSupply(l)
            && r.value.event == Some(BurnEvent(Some(x), 200))
  {
  }
}
