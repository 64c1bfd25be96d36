# ERC-20 style token ledger (ink! contract `erc20`) in Dafny

This project models the token ledger of the ink! smart contract in `lib.rs`. The ledger's storage
is the `Erc20` struct. It holds a `u128` total supply, a balance map from account to amount, and an
allowance map from an (owner, spender) pair to amount. An absent key in either map means zero.
The messages are `new`, `default`, `total_supply`, `balance_of`, `allowance`, `approve`, `transfer`,
`transfer_from` (with the internal `transfer_from_to`), `burn` and `issue`.

Files and modules:

- `types.dfy` (`Types`): the `u128` `Balance` and 32-byte `AccountId` types, and the `Error` enum.
  It also holds the three events (`TransferEvent`, `ApprovalEvent`, `BurnEvent` for the contract's
  `Transfer`, `Approval` and `Burn`), plus `Option` and `Result`.
- `erc20.dfy` (`Erc20`): the `Ledger` record and every constructor, query and transition.
  Each transition is a pure function that returns `Ok(Step(ledger', event))` or `Err(error)`.
  An error carries no ledger, so a failed call leaves the state as it was. This matches the
  contract: every `Err` return comes before the first write. The caller identity, which the host
  supplies through `env().caller()`, is an explicit `caller` argument. The event is returned as an
  `Option<Event>` instead of being sent to the host.
- `accounting.dfy` (`Accounting`): the ghost sum of all balances and how each transition moves it.
  The invariant `Sum(balances) <= totalSupply` is proved to hold on every reachable ledger.
  The equality `Sum(balances) == totalSupply` does not hold, because `issue` and `burn` break it.
- `session.dfy` (`Session`): message dispatch, the rollback of failed calls, and runs of many
  messages. Two facts hold on every ledger reachable from deployment. First, the `u128` credit in
  a transfer never overflows. Second, behaviour depends only on what the queries report, so an
  explicit zero entry in a map is indistinguishable from a missing one.
- `scenarios.dfy` (`Scenarios`): multi-call properties (approve overwrites, allowance kept on a
  failed delegated transfer) and the worked examples, stated for arbitrary accounts.

Arithmetic. `Balance` is `u128`, modelled as an integer in `[0, 2^128 - 1]`. The subtractions at
`lib.rs` lines 122, 141 and 160 are each guarded by the comparison just before them, so they never
underflow; the subset type `Balance` makes Dafny check this. The additions at lines 143 and 170 are
checked: if the sum leaves the `u128` range, the model returns `Err(Overflow)`. This stands for the
host's overflow panic, which reverts the call. The source's `Error` enum has no such variant.
`Session.ReachableTransferNeverOverflows` shows that the overflow at line 143 cannot occur on any
ledger reachable from `new`. The one at line 170 can occur, because `issue` has no bound.

Three details of the code that the model keeps as written:

- `transfer_from_to` with `from == to` leaves the balance unchanged. The debit is written before
  the credit reads the balance back. A `Transfer` event is still emitted.
- `issue` takes no caller, because the code never reads one. It only raises the supply, and
  it emits no event.
- The balance error keeps the source's spelling, `InSufficentBalance`.

`Erc20.TotalSupply` (`lib.rs:78-81`) is a plain accessor with no contract of its own. It is used
throughout the contracts below. Queries are pure functions, so they cannot change the ledger.

## Model

| member | source | states |
|---|---|---|
| Erc20.New | lib.rs:57-69 | deploying with supply `s` gives total supply `s`, the deployer holds `s`, every other account holds 0 and every allowance is 0 |
| Erc20.Default | lib.rs:71-74 | the default deployment has supply 0, every balance 0 and every allowance 0 |
| Erc20.BalanceOf | lib.rs:83-90 | an account absent from the balance map holds 0; a present one holds its stored amount |
| Erc20.Allowance | lib.rs:92-95 | an (owner, spender) pair absent from the allowance map has allowance 0; a present one has its stored amount |
| Erc20.Approve | lib.rs:97-107 | always succeeds; the allowance of (caller, spender) becomes exactly `value` whatever it was; every other allowance, every balance and the supply are unchanged; emits `Approval{caller, spender, value}` |
| Erc20.TransferFrom | lib.rs:109-124 | fails with `InsufficientAllowance` exactly when `allowance(from, caller) < value`; fails with `InSufficentBalance` exactly when the allowance suffices but `from`'s balance does not; on success `allowance(from, caller)` drops by exactly `value`, no other allowance changes, balances move as in a transfer, supply unchanged, emits `Transfer{from, to, value}` |
| Erc20.Transfer | lib.rs:127-131 | is exactly `transfer_from_to` from the caller: fails with `InSufficentBalance` exactly when the caller holds less than `value`; on success moves `value` to `to` and leaves every allowance and the supply unchanged |
| Erc20.TransferFromTo | lib.rs:135-151 | fails with `InSufficentBalance` exactly when `balance_of(from) < value`, and with `Overflow` exactly when the credit leaves `u128`; on success with `from != to` the sender loses exactly `value` and the recipient gains exactly `value`; with `from == to` the balance is unchanged; no other account, no allowance and not the supply change; emits `Transfer{from, to, value}` even when `from == to` |
| Erc20.Burn | lib.rs:153-166 | fails with `InSufficentBalance` exactly when the caller holds less than `value`; otherwise only the caller's balance changes, down by exactly `value`; allowances and the total supply are unchanged; emits `Burn{caller, value}` |
| Erc20.Issue | lib.rs:168-172 | raises the total supply by exactly `value` and changes no balance and no allowance; fails only when the new supply would exceed `u128` |
| Accounting.NewSum | lib.rs:60-66 | right after deployment the tokens held add up to exactly the initial supply |
| Accounting.TransferFromToConserves | lib.rs:141-143 | a successful balance move leaves the sum of all balances unchanged |
| Accounting.TransferFromConserves | lib.rs:121-122 | a successful delegated transfer leaves the sum of all balances unchanged |
| Accounting.BurnSum | lib.rs:156-160 | a successful burn lowers the sum of all balances by exactly `value` |
| Accounting.CoveredTransferNoOverflow | lib.rs:136-143 | when the supply covers all balances and the sender holds at least `value`, the credit at line 143 fits in `u128` and the move succeeds |
| Accounting.IssueBreaksSupplyEquality | lib.rs:169-171 | on a fresh ledger supply equals the tokens held, and any positive `issue` makes the supply exceed them |
| Accounting.BurnBreaksSupplyEquality | lib.rs:154-165 | on a fresh ledger a positive burn makes the supply exceed the tokens held, because the supply is not lowered |
| Session.AfterPreservesCovered | lib.rs:97-172 | no single message lets the tokens held exceed the total supply |
| Session.RunPreservesCovered | lib.rs:97-172 | no sequence of messages lets the tokens held exceed the total supply |
| Session.ReachableTransferNeverOverflows | lib.rs:141-143 | on every ledger reachable from `new` by any message sequence, `transfer` and `transfer_from` never fail by overflow |
| Session.ZeroBalanceEntryUnobservable | lib.rs:88-90 | storing an explicit zero balance for an absent account changes the answer of no query |
| Session.ZeroAllowanceEntryUnobservable | lib.rs:92-95 | storing an explicit zero allowance for an absent pair changes the answer of no query |
| Session.DispatchRespectsEquivalence | lib.rs:97-172 | two ledgers whose queries agree give every message the same success or error, the same event and ledgers whose queries agree |
| Session.RunRespectsEquivalence | lib.rs:97-172 | two ledgers whose queries agree still agree after any sequence of messages |
| Scenarios.ApproveOverwrites | lib.rs:98-100 | approving `v1` and then `v2` to the same spender leaves the same ledger as approving `v2` alone, so the allowance is `v2` |
| Scenarios.TransferPairConserved | lib.rs:141-143 | a successful move keeps the combined balance of sender and recipient, also when they coincide |
| Scenarios.FailedTransferFromKeepsAllowance | lib.rs:117-122 | when the allowance suffices but the balance does not, `transfer_from` fails with `InSufficentBalance` and the allowance is untouched |
| Scenarios.TransferKeepsAllowances | lib.rs:127-131 | a direct transfer, successful or not, changes no allowance |
| Scenarios.DeployScenario | lib.rs:180-183 | `new(1000)` by X: supply 1000, X holds 1000, any other account holds 0 |
| Scenarios.IssueScenario | lib.rs:185-189 | `new(1000)` then `issue(10)` gives a supply of 1010 |
| Scenarios.TransferScenario | lib.rs:127-150 | after `new(1000)` by X, `transfer(Y, 400)` by X leaves X with 600 and Y with 400 and emits `Transfer{X, Y, 400}` |
| Scenarios.DelegationScenario | lib.rs:97-124 | X approves 300 to Z; Z moves 300 from X to W, leaving X with 700, W with 300 and an allowance of 0; a further `transfer_from` of 1 fails with `InsufficientAllowance` |
| Scenarios.OverdraftScenario | lib.rs:135-139 | with a balance of 50, `transfer` of 51 fails with `InSufficentBalance` and leaves the ledger unchanged |
| Scenarios.BurnScenario | lib.rs:153-166 | burning a whole balance of 200 leaves 0, keeps the total supply and emits `Burn{X, 200}` |

## Left out

- The ink! attributes and macros (`#[ink::contract]`, `#[ink(storage)]`, `#[ink(message)]`, `#[ink(event)]`, `#[ink(topic)]`) and the `no_std` configuration: these bind the code to the host and carry no ledger logic.
- `env().caller()`: the host's authenticated caller is an explicit argument, since where it comes from cannot be seen here.
- `emit_event`: only the event value a call produces is modelled, not its delivery.
- `StorageHashMap` persistence: the maps are Dafny `map`s with zero-default lookup.
- SCALE encoding and the `scale_info::TypeInfo` derive: these serialise values for the host and hold no logic.
- Erc20.Issue: wrap-around is not modelled. A build without overflow checks would wrap the `u128` addition at line 170 modulo 2^128; the model assumes checked arithmetic and returns `Overflow`.
- Erc20.TransferFromTo: wrap-around at line 143 is not modelled either, for the same reason. `Session.ReachableTransferNeverOverflows` shows that this addition cannot overflow on a reachable ledger anyway.
- The invariant "total supply equals the sum of balances": the contract does not keep it (`issue` and `burn` break it). The model proves the weaker inequality that does hold, plus per-operation deltas.
- The test module (`lib.rs:175-190`) does not compile: `issue_works` calls `issue`, which takes `&mut self`, on the immutable binding `erc20`, which is a borrow error. So `create_contruct_works` cannot run either. `issue_works` also lacks a `#[test]` attribute. `Scenarios.DeployScenario` and `Scenarios.IssueScenario` state the assertions these two tests evidently intend.
