/** Accounting of the tokens held: the sum of all balances, how each transition moves it, and the
    invariant that it never exceeds the recorded total supply.

    The sum does not stay EQUAL to the total supply: `Issue` raises the supply without crediting
    anyone and `Burn` lowers a balance without lowering the supply. What does survive every
    transition is the inequality `Sum(balances) <= totalSupply`, and with it the guarantee that
    the credit in a transfer cannot overflow `u128`. */
module Accounting {
  import opened Types
  import opened Erc20

  /** The number of tokens held across all accounts. Missing accounts and explicit zero entries
      contribute nothing. */
  ghost function Sum(m: map<AccountId, Balance>): nat
    decreases |m|
  {
    if m == map[] then 0
    else
      var k :| k in m;
      assert |(m - {k}).Keys| == |m.Keys - {k}| == |m.Keys| - 1;
      m[k] + Sum(m - {k})
  }

  /** The sum can be split at any key, not only at the one `Sum` happens to pick. */
  lemma {:induction false} SumRemove(m: map<AccountId, Balance>, k: AccountId)
    requires k in m
    ensures Sum(m) == m[k] + Sum(m - {k})
    decreases |m|
  {
    var j :| j in m && Sum(m) == m[j] + Sum(m - {j});
    if j != k {
      assert |(m - {j}).Keys| == |m.Keys - {j}| == |m.Keys| - 1;
      assert |(m - {k}).Keys| == |m.Keys - {k}| == |m.Keys| - 1;
      SumRemove(m - {j}, k);
      SumRemove(m - {k}, j);
      assert m - {j} - {k} == m - {k} - {j};
    }
  }

  /** Storing `v` at `k` changes the sum by `v` minus what `k` held before. */
  lemma SumUpdate(m: map<AccountId, Balance>, k: AccountId, v: Balance)
    ensures Sum(m[k := v]) + Get(m, k) == Sum(m) + v
  {
    SumRemove(m[k := v], k);
    assert m[k := v] - {k} == m - {k};
    if k in m {
      SumRemove(m, k);
    } else {
      assert m - {k} == m;
    }
  }

  /** Two distinct accounts together hold no more than all accounts do. */
  lemma PairBound(m: map<AccountId, Balance>, a: AccountId, b: AccountId)
    requires a != b
    ensures Get(m, a) + Get(m, b) <= Sum(m)
  {
    if a in m {
      SumRemove(m, a);
      if b in m {
        SumRemove(m - {a}, b);
      }
    } else if b in m {
      SumRemove(m, b);
    }
  }

  /** The deploying account holds the whole initial supply, so the sum equals it. */
  lemma NewSum(caller: AccountId, supply: Balance)
    ensures Sum(New(caller, supply).balances) == supply
  {
    var m := New(caller, supply).balances;
    SumRemove(m, caller);
    assert m - {caller} == map[];
  }

  /** A successful balance move neither creates nor destroys tokens, whether or not
      `from == to`. */
  lemma TransferFromToConserves(l: Ledger, from: AccountId, to: AccountId, value: Balance)
    requires TransferFromTo(l, from, to, value).Ok?
    ensures Sum(TransferFromTo(l, from, to, value).value.ledger.balances) == Sum(l.balances)
  {
    var fromBalance := Get(l.balances, from);
    var debited := l.balances[from := fromBalance - value];
    SumUpdate(l.balances, from, fromBalance - value);
    SumUpdate(debited, to, Get(debited, to) + value);
  }

  /** A successful delegated transfer conserves tokens too: it changes balances only through
      `TransferFromTo`. */
  lemma TransferFromConserves(l: Ledger, caller: AccountId, from: AccountId, to: AccountId, value: Balance)
    requires TransferFrom(l, caller, from, to, value).Ok?
    ensures Sum(TransferFrom(l, caller, from, to, value).value.ledger.balances) == Sum(l.balances)
  {
    TransferFromToConserves(l, from, to, value);
  }

  /** A successful burn removes exactly `value` tokens from circulation. */
  lemma BurnSum(l: Ledger, caller: AccountId, value: Balance)
    requires Burn(l, caller, value).Ok?
    ensures Sum(Burn(l, caller, value).value.ledger.balances) + value == Sum(l.balances)
  {
    SumUpdate(l.balances, caller, Get(l.balances, caller) - value);
  }

  /** The recorded supply accounts for every token held. */
  ghost predicate Covered(l: Ledger)
  {
    Sum(l.balances) <= l.totalSupply
  }

  /** On a covered ledger a transfer whose sender holds enough never overflows: the recipient's
      balance plus `value` is at most what sender and recipient hold together. */
  lemma CoveredTransferNoOverflow(l: Ledger, from: AccountId, to: AccountId, value: Balance)
    requires Covered(l)
    requires BalanceOf(l, from) >= value
    ensures TransferFromTo(l, from, to, value).Ok?
  {
    if from != to {
      PairBound(l.balances, from, to);
    }
  }

  /** `Issue` can break the equality of supply and held tokens on a freshly deployed ledger. */
  lemma IssueBreaksSupplyEquality(caller: AccountId, supply: Balance, value: Balance)
    requires 0 < value && supply + value <= MAX_BALANCE
    ensures Sum(New(caller, supply).balances) == TotalSupply(New(caller, supply))
    ensures Issue(New(caller, supply), value).Ok?
    ensures var l' := Issue(New(caller, supply), value).value.ledger;
            Sum(l'.balances) < TotalSupply(l')
  {
    NewSum(caller, supply);
  }

  /** `Burn` breaks that equality as well, in the other direction of the same inequality. */
  lemma BurnBreaksSupplyEquality(caller: AccountId, supply: Balance, value: Balance)
    requires 0 < value <= supply
    ensures Sum(New(caller, supply).balances) == TotalSupply(New(caller, supply))
    ensures Burn(New(caller, supply), caller, value).Ok?
    ensures var l' := Burn(New(caller, supply), caller, value).value.ledger;
            Sum(l'.balances) < TotalSupply(l')
  {
    NewSum(caller, supply);
    BurnSum(New(caller, supply), caller, value);
  }
}
