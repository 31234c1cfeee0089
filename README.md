# Token wallet ledger

A model of the in-memory token ledger of the `icp_token_wallet` canister.
The wallet keeps one map from account identity (a principal, as a string) to
an unsigned 64-bit balance. An identity without an entry has balance 0. Four
calls act on it:

- `send_tokens` checks that the caller's balance covers the amount. If it
  does not, the call returns `Err("Insufficient balance")`. Otherwise it
  debits the caller and then credits the receiver, each through
  `entry(..).or_insert(0)`.
- `receive_tokens` credits the caller unconditionally. This mints tokens.
- `get_balance` reads the caller's balance.
- `reset` clears the map.

The model has two modules:

- `Ledger` (`ledger.dfy`) works on ledger values. It has the `U64` range,
  the balance lookup `BalanceIn`, and the total supply `Total`, a ghost
  recursive sum over the map's keys. It has the two in-place steps `Debit`
  and `Credit` and the guarded `Transfer` built from them. The lemmas about
  the total supply are here too.
- `Wallet` (`wallet.dfy`) holds the class `TokenWallet`. Its field
  `balances` is rewritten in place by `SendTokens`, `ReceiveTokens` and
  `Reset`, and `GetBalance` only reads it. The contracts of `SendTokens` and
  `ReceiveTokens` tie the new map to the matching `Ledger` function
  (`Transfer`, `Credit`) and also state, through `BalanceOf`, what that
  function is proved to do; the contract of `Reset` ties the new map to the
  empty map. The module also restates the two unit tests
  (src/lib.rs:104-151) as scenario methods.

The host runtime supplies the caller identity through `caller()`. In the
model it is an explicit `caller: string` argument. The test harness switches
the caller with `setup_with`; the scenarios do this by passing a different
identity string. The `SendArgs` record is flattened into `to` and `amount`
arguments.

The balance, frame and conservation properties are stated through balance
queries (`BalanceIn`, `BalanceOf`), not through key presence. This matters
because `or_insert(0)` can leave zero-valued entries behind (for example after a zero-amount send), and no
query can see them (`Ledger.ZeroEntryInvisible`,
`Ledger.ZeroTransferInvisible`).

## Model

| member | source | states |
|---|---|---|
| `Ledger.TotalRemove` | src/lib.rs:11-13 | The total supply equals any one account's balance plus the total of the remaining accounts, whichever account is split off. |
| `Ledger.TotalUpdate` | src/lib.rs:49-51 | Overwriting one account's entry changes the total supply by exactly the new value minus that account's old balance, where a missing entry counts as 0. |
| `Ledger.EmptyLedger` | src/lib.rs:93 | In the empty map every identity's balance is 0 and the total supply is 0. |
| `Ledger.ZeroEntryInvisible` | src/lib.rs:49-51 | A zero entry inserted for an account whose balance is already 0 changes no balance and leaves the total supply unchanged. |
| `Ledger.Debit` | src/lib.rs:49 | With the balance covering the amount, the debit leaves an entry for the account. That balance drops by exactly the amount and cannot go negative. Every other balance is unchanged, and the total supply drops by the amount. |
| `Ledger.Credit` | src/lib.rs:71 | As long as the sum fits in u64, the credit leaves an entry for the account. That balance rises by exactly the amount, every other balance is unchanged, and the total supply rises by the amount. |
| `Ledger.Transfer` | src/lib.rs:37-55 | The transfer fails exactly when the sender's balance, 0 if absent, is below the amount. A failure is `Err("Insufficient balance")` and returns the map unchanged. A success between two distinct accounts moves exactly the amount from sender to receiver. A self-transfer changes no balance. No third account changes, and the total supply is conserved. |
| `Ledger.ZeroTransferInvisible` | src/lib.rs:44-51 | Sending 0 always succeeds and changes no observable balance, even though it may add zero entries. |
| `Wallet.TokenWallet.constructor` | src/lib.rs:10-13 | A new wallet (the derived `Default`) has no entries. |
| `Wallet.TokenWallet.SendTokens` | src/lib.rs:37-55 | The new state and reply are those of `Ledger.Transfer` on the old map. The call fails exactly on an insufficient balance, and then the map is unchanged. On success the sender loses and the receiver gains exactly the amount, or nothing changes for a self-transfer. Others are untouched and the supply is conserved. |
| `Wallet.TokenWallet.ReceiveTokens` | src/lib.rs:66-74 | The call always returns `Ok`, and the new map is `Ledger.Credit` of the old one. The caller's balance rises by exactly the amount, no other identity changes, and the supply grows by the amount. |
| `Wallet.TokenWallet.GetBalance` | src/lib.rs:81-86 | Returns the caller's stored balance when the caller has an entry, and 0 otherwise. Changes nothing. |
| `Wallet.TokenWallet.Reset` | src/lib.rs:91-95 | Afterwards the map is empty, every identity's balance is 0 (including ones credited before), and the total supply is 0. |
| `Wallet.ScenarioSendReceive` | src/lib.rs:104-126 | Starting from any wallet state, the calls reset, receive 100 and send 50 to another principal. Both calls return `Ok` and both principals then read 50. |
| `Wallet.ScenarioInsufficientBalance` | src/lib.rs:129-151 | Starting from any wallet state, the calls reset, receive 40 and try to send 50. The send returns `Err("Insufficient balance")`, the sender reads 40 and the receiver reads 0. |
| `Wallet.ScenarioFreshWallet` | src/lib.rs:81-86 | On a freshly created wallet, any identity's balance reads 0. |

## Left out

- `Ledger.Credit`, `Wallet.TokenWallet.ReceiveTokens`: the `+=` at src/lib.rs:71 has no overflow guard. Rust panics there in a debug build and wraps in a release build. The model instead requires that the new balance stays below 2^64. It does not model either overflow behaviour.
- `Ledger.Transfer`, `Wallet.TokenWallet.SendTokens`: the receiver's `+=` at src/lib.rs:51 is unguarded too. The model requires (`Ledger.TransferFits`) that this credit fits in u64 whenever it runs. The credit runs whenever the balance check has passed, self-transfers included. The requirement applies only to a transfer to an account other than the caller, because on a self-transfer the credit adds back what was just debited and cannot overflow.
- Identity extraction (`caller()` and principal-to-string conversion) is host-runtime work. The identity is a parameter instead.
- The `thread_local!`/`RefCell` wrapper is left out. One `TokenWallet` object stands in for it.
- The `#[update]`/`#[query]` dispatch and the Candid derivations are left out, because they are RPC serialisation in foreign libraries. `SendArgs` is not kept as a wire type.
- The hosting runtime's concurrency and its roll-back of state when a call traps are left out. Each call is one sequential, atomic transition.
- `ic_cdk::setup` and `setup_with` in the tests only select the simulated caller. The scenarios pass the identity directly instead.
- `reset` is callable by anyone; the code at src/lib.rs:90-95 has no access check, and the model keeps it that way.
