# A ledger runtime of three pallets, modelled in Dafny

The system is a minimal state-transition runtime. Three pallets each own a piece of storage:

- **System** holds the block number and a nonce per account.
- **Balances** holds a balance per account. Its `transfer` checks the sender's subtraction and the recipient's addition before it writes anything.
- **Proof of existence** maps claimed content to the account that owns it. Its `create_claim` and `revoke_claim` check existence and ownership.

A `Runtime` owns one instance of each pallet. An extrinsic is a caller plus a call from a closed union. Executing a block does four things, in order:

1. It advances the block number once.
2. It checks the header against the new number.
3. For each extrinsic, in order, it bumps the caller's nonce and then routes the call to its pallet, with the caller as the first argument.
4. It records each call's result without stopping the block.

Layout: `types.dfy` (module `Types`: the concrete account, content and integer types, and the error enumeration), `system.dfy`, `balances.dfy`, `proof_of_existence.dfy` and `runtime.dfy`. Each of the last four models one source file. `Types` models no file of its own: it stands for the inline `mod types` of `src/main.rs:14-25` and for the dispatch result type of the `support` module.

Each pallet is a `class Pallet` whose storage map is a field. Its methods update the field in place. Each method's `ensures` ties the new field to a function on the map value: `TransferIn`, `CreateClaimIn`, `RevokeClaimIn` or `IncNonceIn`. Those functions state what the source promises (error cases, atomicity, which entries change) and are what the lemmas reason about.

The runtime mirrors this design. `State` is the value of all three storages. `DispatchIn`, `ApplyExtrinsic`, `ApplyExtrinsics` and `ExecuteBlockIn` specify block execution. `class Runtime` holds three `const` pallet objects, and its `ExecuteBlock` loop is proved against `ExecuteBlockIn` through a ghost `Model()`.

Concrete types follow `src/main.rs:17-24`:

- accounts and content are strings;
- balances are bounded by 2^128 - 1;
- block numbers and nonces are bounded by 2^32 - 1.

Two consequences of the code are worth stating:

- **Self-transfer mints.** `transfer` reads both balances before it writes. With `caller == to`, the write at `src/balances.rs:34` overwrites the one at line 33, so the account ends at `old + amount`. `Balances.TransferIn` and `Balances.TransferTotal` state this.
- **Scenario names.** The scenario uses the names in `src/main.rs`: alice, bob, charli, my_document and bobs_document.

## Model

| member | source | states |
|---|---|---|
| `System.NonceIn` | src/system.rs:38-40 | an account's nonce is the stored one, or zero when the account was never seen |
| `System.IncNonceIn` | src/system.rs:33-36 | `inc_nonce(who)` raises `who`'s nonce by exactly one (from zero when unseen), changes no other account's nonce, and adds only `who` to the map |
| `System.IncNonceRepeat` | src/system.rs:33-36 | `n` successive `inc_nonce(who)` calls raise `who`'s nonce by exactly `n` (from a fresh pallet: to `n`, as the test at lines 68-75 expects for `n = 2`) and leave every other nonce alone |
| `System.Pallet.constructor` | src/system.rs:17-23 | a new system pallet has block number 0 and reports nonce 0 for every account |
| `System.Pallet.GetBlockNumber` | src/system.rs:25-27 | the current block number, read without changing state |
| `System.Pallet.GetNonce` | src/system.rs:38-40 | `who`'s stored nonce, or zero for an account never seen, read without changing state |
| `System.Pallet.IncBlockNumber` | src/system.rs:29-31 | the block number goes up by exactly one and the nonce map is unchanged |
| `System.Pallet.IncNonce` | src/system.rs:33-36 | the nonce map becomes `IncNonceIn` of the old one: `who` up by one, every other account and the block number unchanged |
| `Balances.BalanceIn` | src/balances.rs:52-54 | an account's balance is the stored one, or zero when it was never written |
| `Balances.CheckedSub` | src/balances.rs:25-27 | the subtraction succeeds exactly when the amount does not exceed the balance, and gives the difference |
| `Balances.CheckedAdd` | src/balances.rs:29-31 | the addition succeeds exactly when the sum stays within the 128-bit maximum, and gives the sum |
| `Balances.TransferIn` | src/balances.rs:16-37 | the sender's shortfall gives `InsufficientBalance` and the recipient's overflow gives `BalanceOverflow`. Either failure leaves the map exactly as it was. The shortfall is reported when both checks fail. The transfer succeeds exactly when both checks pass. Between distinct accounts the amount moves and their sum is conserved. A self-transfer leaves the account at `old + amount`. No third account changes |
| `Balances.TransferZero` | src/balances.rs:22-34 | a transfer of zero always succeeds and every account's balance value stays the same |
| `Balances.TransferTotal` | src/balances.rs:22-34 | for any list of distinct accounts, a successful transfer between distinct accounts changes the list's total only by the amount leaving or entering it. A self-transfer adds `amount` to any list holding the account |
| `Balances.TransferExamples` | src/balances.rs:86-133 | 90 of alice's 100 to bob leaves 10 and 90. 50 of 100 succeeds. 1 from the maximum balance into an empty account succeeds |
| `Balances.Pallet.constructor` | src/balances.rs:42-46 | a new balances pallet reports zero for every account |
| `Balances.Pallet.GetBalance` | src/balances.rs:52-54 | `who`'s stored balance, or zero for an account never written, read without changing state |
| `Balances.Pallet.SetBalance` | src/balances.rs:48-50 | afterwards `who`'s balance is exactly the amount written and every other account's balance is as before |
| `Balances.Pallet.Transfer` | src/balances.rs:16-37 | the result and the new balance map are those of `TransferIn` on the old map |
| `ProofOfExistence.ClaimOwnerIn` | src/proof_of_existence.rs:69-72 | a claim has an owner exactly when the content is in the map, and the owner is the stored account |
| `ProofOfExistence.CreateClaimIn` | src/proof_of_existence.rs:28-39 | claimed content gives `ClaimAlreadyExists` and the map, including the existing owner, is unchanged. Unclaimed content succeeds and becomes the caller's, with no other entry changed |
| `ProofOfExistence.RevokeClaimIn` | src/proof_of_existence.rs:44-55 | unclaimed content gives `ClaimNotFound` and a non-owner gives `NotClaimOwner`, both with the map unchanged. The call succeeds exactly for the owner, and then removes only that claim |
| `ProofOfExistence.CreateThenRevoke` | src/proof_of_existence.rs:28-55 | creating a claim on unclaimed content and revoking it as the same caller restores the original map |
| `ProofOfExistence.ClaimIsProtected` | src/proof_of_existence.rs:28-50 | once `owner` holds a claim, another caller can neither create nor revoke it, and the owner stays `owner` |
| `ProofOfExistence.Pallet.constructor` | src/proof_of_existence.rs:61-66 | a new registry has no claim on any content |
| `ProofOfExistence.Pallet.GetClaim` | src/proof_of_existence.rs:69-72 | the owner of the content, present exactly when it has been claimed, read without changing state |
| `ProofOfExistence.Pallet.CreateClaim` | src/proof_of_existence.rs:28-39 | the result and new claim map are those of `CreateClaimIn` on the old map |
| `ProofOfExistence.Pallet.RevokeClaim` | src/proof_of_existence.rs:44-55 | the result and new claim map are those of `RevokeClaimIn` on the old map |
| `Runtime.DispatchIn` | src/main.rs:57-89 | each call variant is routed to its own pallet, with the extrinsic's caller first and then the call's fields. Dispatch never touches the block number or nonces, never touches the other pallet's storage, and leaves the whole state unchanged when the call fails |
| `Runtime.ApplyExtrinsic` | src/main.rs:42 | the caller's nonce is incremented whatever the call's result. A failing call leaves balances and claims as they were, and the block number does not move |
| `Runtime.ApplyExtrinsics` | src/main.rs:42 | the walk over a block's extrinsics gives one result per extrinsic and leaves the block number alone. Each account's nonce rises by exactly the number of extrinsics it submitted |
| `Runtime.ApplyExtrinsicsSnoc` | src/main.rs:42 | unfolds the definition of `ApplyExtrinsics` once at `exts + [e]`: the last extrinsic runs on exactly the state the ones before it left, and its result is appended last (a helper for `TwoExtrinsicBlock`) |
| `Runtime.ExecuteBlockIn` | src/main.rs:42 | the block number rises by exactly one, even for an empty block. The block executes exactly when its header carries the new number, and then yields one result per extrinsic with each caller's nonce raised by its extrinsic count. A mismatched header changes only the block number |
| `Runtime.TwoExtrinsicBlock` | src/main.rs:42 | a correctly numbered two-extrinsic block runs its first extrinsic on the advanced state and its second on what the first left |
| `Runtime.FailedExtrinsicIsIsolated` | src/main.rs:42 | a failing extrinsic in a block still costs its caller a nonce. It neither aborts the block nor prevents the next extrinsic from succeeding |
| `Runtime.Block1Scenario` | src/main.rs:55-73 | from genesis with alice at 100, block 1 executes with both transfers succeeding. It leaves alice 50, bob 30, charli 20, block number 1 and alice's nonce 2 |
| `Runtime.Block2Scenario` | src/main.rs:75-91 | block 2 executes with both claims succeeding. Both documents are then owned by alice, balances are as block 1 left them, the block number is 2 and alice's nonce is 4 |
| `Runtime.Runtime.constructor` | src/main.rs:43-50 | a new runtime owns one fresh system, one balances and one proof-of-existence pallet, all in their empty initial state |
| `Runtime.Runtime.Dispatch` | src/main.rs:57-89 | the new storage and the result are those of `DispatchIn` on the old storage |
| `Runtime.Runtime.ExecuteBlock` | src/main.rs:42 | the loop over extrinsics (nonce bump, then dispatch) leaves the three pallets in the state `ExecuteBlockIn` gives and returns its outcome |
| `Runtime.RunMain` | src/main.rs:49-91 | genesis funding through `set_balance` outside block execution, then blocks 1 and 2, both executed. Each extrinsic succeeds, giving block number 2, alice's nonce 4, balances 50/30/20 and both documents owned by alice |

## Left out

- Printing the runtime (`println!` and the `Debug` derives) is left out. It is output formatting only.
- The `support` module and the `macros` crate are not part of this model. `#[macros::call]` generates the per-pallet `Call` enums and their `dispatch`. These become `Balances.Call`, `ProofOfExistence.Call` and the routing in `Runtime.DispatchIn`.
- `#[macros::runtime]` generates `execute_block`. The model follows the conventional expansion: increment the block number, compare the header with it, then loop (`inc_nonce`, then dispatch). On a header mismatch it reports `BlockNumberMismatch` without undoing the increment. A per-extrinsic error is recorded in `Executed(results)` and does not fail the block. Printing each error to standard error is replaced by that results list.
- The generic `Config` traits and the `num` trait bounds are replaced by the concrete types of `src/main.rs:17-24`.
- Error strings are replaced by the closed enumeration `Types.Error`. Each variant's comment gives the source text.
- Three tests contradict the code they test and are not encoded: `src/balances.rs:102-115`, `src/balances.rs:117-133` and `src/proof_of_existence.rs:94`. `Balances.TransferExamples` states what the code does for the two balances tests instead.
- The ordering of `BTreeMap` keys is not modelled. The model only uses the maps as maps and never iterates over them.
- System.Pallet.IncBlockNumber: a block number or nonce at the 32-bit maximum is excluded by a precondition. The same holds for `System.Pallet.IncNonce`, `System.IncNonceIn`, `System.IncNonceRepeat`, `Runtime.ApplyExtrinsic`, `Runtime.ApplyExtrinsics`, `Runtime.ExecuteBlockIn` and `Runtime.Runtime.ExecuteBlock`. The source's `+=` / `+ one` would panic or wrap there, so neither behaviour is modelled.
- Balances.TransferTotal: conservation is stated over any list of distinct accounts rather than as a sum over the whole map, which is a finite sum the model never forms.
