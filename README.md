# Vault ledger: a verified model

This project models the vault program of `my_vault_program`: a per-signer
vault record `{ balance: u64, owner }` stored at an address derived from the
signer's key, five instructions that act on it (`init_vault`, `deposit`,
`withdraw`, `close_vault`, `transfer_ownership`), a 1% fee routed to a fee
collector, and the lamport transfers each instruction asks the system program
to make.

Layout:

- `types.dfy` (`VaultTypes`): keys, the `u64` range, lamport-holding addresses
  (a key's wallet, or the vault address derived from the seeds `["vault", key]`),
  the record, errors and events.
- `system_program.dfy` (`SystemProgram`): the lamports of every address, the
  pure transfer `Transferred`, and a `Bank` class whose `Transfer` method is the
  system program's transfer instruction.
- `helpers.dfy` (`Helpers`): `CalculateFee`, `AssertOwner`, `AssertBalance` as
  functions and `SendFees` as a method on the `Bank`.
- `instructions.dfy` (`Instructions`): the meaning of each instruction as a
  function from the whole ledger (records, lamports, event log) to a new ledger
  or an error, and the lemmas about each.
- `program.dfy` (`Program`): the class `VaultProgram`. It holds the record map
  and the event log and shares the `Bank`. Its methods perform the
  instruction's steps in place, in the source's order: account lookup, owner
  guard, fee, transfers, checked arithmetic, record update, event. Each method is
  proved to end in exactly the state, with exactly the outcome, that the
  matching `Instructions` function gives.
- `traces.dfy` (`Traces`): runs of many instructions, each its own transaction,
  and the properties that hold across them.

Conventions taken from the code and its host:

- A record is found by the signer's key (the `seeds` of every account context),
  but authorised by its `owner` field. The two are kept apart, so
  `transfer_ownership` can make them differ.
- Every instruction is all-or-nothing. A failing instruction leaves records,
  lamports and events unchanged (`Commit`). This also holds for an abort after a
  transfer, such as the overflowing `balance += amount`. The class methods
  restore the saved lamports on such late failures.
- `+=`, `-=` and `amount + fee` are checked u64 arithmetic that abort with
  `Overflow`. This assumes the crate is built with overflow checks on. The build
  configuration is not part of this model.
- `send_fees` is called without `?`, so the Rust code drops its result. A failed
  cross-program call still aborts the whole transaction on the host. The model
  therefore treats a failed fee transfer as a failed instruction (`TransferFailed`).
- `close = initializer` is modelled as: after the handler, every lamport left
  at the vault address moves to the signer and the record is deleted.

What the proofs show about the code as written:

- A deposit credits the whole `amount` to the balance and to the vault, and it
  also charges the fee to the signer. The signer pays `amount + amount/100`.
  The computed `net_amount` is never used.
- A withdrawal requires `balance >= amount + fee`. It debits only `amount` from
  the balance, and the fee comes out of the signer's wallet. This is what the
  code asks for; on the host the vault's outgoing transfer is refused, so the
  withdrawal aborts (see "## Left out").
- After `transfer_ownership` to another key, the record is frozen for good. Its
  seed key fails the owner check, and every other key looks up a different
  record. No instruction by anyone changes it or its vault's lamports again
  (`Traces.RunKeepsOrphan`).

Two choices follow the code as written:

- A zero-amount deposit or withdrawal is accepted.
- The error for a missing record or an existing record is the host's account
  error (`NotInitialized`, `AlreadyInUse`).

## Model

| member | source | states |
|---|---|---|
| `SystemProgram.Transferred` | programs/my_vault_program/src/helpers.rs:14-20 | A transfer succeeds exactly when the source holds at least `n` lamports; on success the source loses exactly `n`, the target gains exactly `n`, every other address is unchanged; on failure the error is `TransferFailed` |
| `SystemProgram.TransferNothing` | programs/my_vault_program/src/helpers.rs:14-20 | A transfer of 0 always succeeds and leaves every balance as it was |
| `SystemProgram.Bank.Transfer` | programs/my_vault_program/src/lib.rs:41-47 | The in-place transfer ends with the lamports and outcome of `Transferred`, and leaves the lamports untouched when it fails |
| `Helpers.CalculateFee` | programs/my_vault_program/src/helpers.rs:24-26 | The fee is the floor of amount/100 (`100*fee <= amount < 100*fee + 100`) and never exceeds the amount, so `amount - fee` never underflows |
| `Helpers.FeeExamples` | programs/my_vault_program/src/helpers.rs:24-26 | fee(0) = 0, fee(99) = 0, fee(100) = 1, fee(1000) = 10 |
| `Helpers.FeeMonotone` | programs/my_vault_program/src/helpers.rs:24-26 | A larger amount never has a smaller fee |
| `Helpers.AssertOwner` | programs/my_vault_program/src/helpers.rs:29-32 | Passes iff the record's owner is the signer, otherwise fails with `Unauthorized`; as a function it changes nothing |
| `Helpers.AssertBalance` | programs/my_vault_program/src/helpers.rs:34-37 | Passes iff the balance is at least the amount, otherwise fails with `InsufficientFunds`; changes nothing |
| `Helpers.SendFees` | programs/my_vault_program/src/helpers.rs:7-22 | Succeeds iff the payer's wallet holds the fee; then the payer loses exactly the fee and the collector gains exactly the fee; all other addresses are unchanged; a zero fee changes no balance; a failure changes nothing |
| `Instructions.InitVault` | programs/my_vault_program/src/lib.rs:152-158 | init succeeds exactly when no record exists under the signer's key, and then adds exactly that key; otherwise it fails with `AlreadyInUse` |
| `Instructions.Deposit` | programs/my_vault_program/src/lib.rs:26-59 | A successful deposit was authorised (record under the signer's key, owned by the signer) and keeps the set of records |
| `Instructions.Withdraw` | programs/my_vault_program/src/lib.rs:61-100 | A successful withdrawal was authorised and keeps the set of records |
| `Instructions.CloseHandler` | programs/my_vault_program/src/lib.rs:103-127 | The close handler succeeds only for the authorised signer and does not delete the record itself |
| `Instructions.CloseAccount` | programs/my_vault_program/src/lib.rs:206-210 | Closing the account removes exactly the signer's record and leaves no lamports at its vault address |
| `Instructions.CloseVault` | programs/my_vault_program/src/lib.rs:201-213 | A successful close was authorised and the record no longer exists |
| `Instructions.TransferOwnership` | programs/my_vault_program/src/lib.rs:129-134 | A successful transfer of ownership was authorised and keeps the set of records |
| `Instructions.MissingRecordRejected` | programs/my_vault_program/src/lib.rs:170-172 | Without a record under the signer's key, deposit, withdraw, close and transfer_ownership fail with `NotInitialized` |
| `Instructions.NonOwnerRejected` | programs/my_vault_program/src/lib.rs:27 | The owner guards at lib.rs:27, 62, 104 and 130: if the record's owner is not the signer, deposit, withdraw, close and transfer_ownership fail with `Unauthorized`, so nothing (records, lamports, events) changes |
| `Instructions.InitVaultEffects` | programs/my_vault_program/src/lib.rs:19-23 | A new record has balance 0 and owner = initializer; other records, lamports and events are unchanged |
| `Instructions.InitVaultTwice` | programs/my_vault_program/src/lib.rs:152-158 | A second init for the same key fails with `AlreadyInUse` |
| `Instructions.DepositOutcome` | programs/my_vault_program/src/lib.rs:33-51 | An authorised deposit fails with `TransferFailed` iff the signer holds less than amount (+ fee when the collector is another key). Otherwise it succeeds iff `balance + amount` fits in a u64, and aborts with `Overflow` if not |
| `Instructions.DepositEffects` | programs/my_vault_program/src/lib.rs:29-56 | After a deposit the balance has grown by exactly `amount`, not `net_amount`, and the owner is unchanged. The vault gains `amount` lamports, the collector gains the fee, and the signer pays `amount + fee`. No other address changes, and one DepositEvent is logged |
| `Instructions.WithdrawGuards` | programs/my_vault_program/src/lib.rs:65-69 | An authorised withdrawal aborts with `Overflow` when `amount + fee` exceeds u64. Otherwise it fails with `InsufficientFunds` iff `balance < amount + fee` |
| `Instructions.WithdrawOutcome` | programs/my_vault_program/src/lib.rs:65-88 | On a backed ledger, an authorised withdrawal succeeds iff `amount + fee` fits in a u64, the balance covers it and the signer holds the fee |
| `Instructions.WithdrawEffects` | programs/my_vault_program/src/lib.rs:65-97 | After a withdrawal the balance has dropped by exactly `amount`, not `amount + fee`, so it is still at least the fee. The vault loses `amount`, the signer nets `amount - fee` and the collector gains the fee. No other address changes, and one WithdrawEvent is logged |
| `Instructions.CloseHandlerEffects` | programs/my_vault_program/src/lib.rs:106-125 | With a positive balance, the close handler moves exactly the balance to the signer, zeroes the balance and logs one CloseVaultEvent carrying it. With a zero balance it changes nothing at all |
| `Instructions.CloseVaultOutcome` | programs/my_vault_program/src/lib.rs:103-117 | An authorised close succeeds iff the vault address holds the balance, otherwise fails with `TransferFailed`; on a backed ledger it always succeeds |
| `Instructions.CloseVaultEffects` | programs/my_vault_program/src/lib.rs:103-127 | After close the record is deleted, the vault address is empty and the signer has received every lamport it held. No other address changes, and a close event is logged only for a positive balance |
| `Instructions.CloseVaultTwice` | programs/my_vault_program/src/lib.rs:206-210 | A second close fails with `NotInitialized` |
| `Instructions.TransferOwnershipEffects` | programs/my_vault_program/src/lib.rs:129-134 | transfer_ownership succeeds iff the signer is authorised, and then changes only the owner field: balance, lamports and events are unchanged |
| `Instructions.SurplusUnchanged` | programs/my_vault_program/src/lib.rs:47-92 | deposit, withdraw and transfer_ownership keep the vault's lamports minus its balance constant |
| `Program.VaultProgram.InitVault` | programs/my_vault_program/src/lib.rs:19-23 | The in-place init ends in the state and with the outcome `Instructions.InitVault` gives, and changes nothing on failure |
| `Program.VaultProgram.Deposit` | programs/my_vault_program/src/lib.rs:26-59 | The step-by-step deposit ends in the state and outcome of `Instructions.Deposit`. On a late failure (vault transfer, overflowing `+=`) the host undoes the fee payment |
| `Program.VaultProgram.Withdraw` | programs/my_vault_program/src/lib.rs:61-100 | The step-by-step withdrawal ends in the state and outcome of `Instructions.Withdraw`, undoing the fee payment if the vault transfer fails |
| `Program.VaultProgram.CloseVault` | programs/my_vault_program/src/lib.rs:103-127 | The step-by-step close (handler, sweep, deletion) ends in the state and outcome of `Instructions.CloseVault` |
| `Program.VaultProgram.TransferOwnership` | programs/my_vault_program/src/lib.rs:129-134 | The in-place owner update ends in the state and outcome of `Instructions.TransferOwnership` |
| `Traces.ExecutePreservesBacked` | programs/my_vault_program/src/lib.rs:19-134 | No instruction leaves a balance greater than the lamports at its vault address |
| `Traces.RunPreservesBacked` | programs/my_vault_program/src/lib.rs:19-134 | Across any sequence of transactions every balance stays covered by its vault's lamports |
| `Traces.TransferOwnershipOrphans` | programs/my_vault_program/src/lib.rs:129-134 | Transferring ownership to another key leaves a record whose owner field is not its lookup key |
| `Traces.OrphanedRejects` | programs/my_vault_program/src/lib.rs:218-225 | Every instruction signed by an orphaned record's key fails: init with `AlreadyInUse`, the other four with `Unauthorized` |
| `Traces.ExecuteKeepsOrphan` | programs/my_vault_program/src/lib.rs:26-134 | No instruction, whoever signs it, changes an orphaned record or its vault's lamports |
| `Traces.RunKeepsOrphan` | programs/my_vault_program/src/lib.rs:129-134 | Once orphaned, a record and its vault's lamports stay as they are across any sequence of transactions, so its funds are locked |
| `Traces.Scenario` | programs/my_vault_program/src/lib.rs:19-127 | The run init, deposit 1000, withdraw 500, close ends with the signer at 1985 of 2000 lamports, the collector at 15, and no record. Its event log is deposit 1000, withdraw 500, close 500 |

## Left out

- Account-constraint machinery: the model keeps only its effects. These are
  PDA derivation and bump, `space`, discriminators and the program id. A record
  is keyed by the signer's key, `init` fails if it exists, and `close` deletes
  it. PDA derivation is assumed injective, and a vault address is never a wallet.
- Rent: `init_vault` makes the signer fund the new account, which is not
  modelled; `init_vault` moves no lamports in the model. Rent held by the
  account is returned at close only as part of "every lamport left at the vault
  address".
- Host rules of the system program beyond "move exactly n or fail". Withdraw
  (lib.rs:81-88) and close (lib.rs:110-117) ask the system program to move
  lamports out of the vault, and on the host both requests are refused, for two
  reasons. The vault is a program-owned account that carries data, and the
  system program moves lamports only out of data-free accounts it owns. The
  call is also built with `CpiContext::new`, with no signer seeds, so the vault
  address never signs it. On the host, therefore, every withdraw and every close
  of a positive balance aborts. The model treats these transfers as ordinary
  ones, so its withdraw and close lemmas describe what the code asks for, not
  what the host lets it complete.
- Lamports are unbounded naturals: a u64 overflow of an account's lamports is
  not modelled (balances of records are u64 and checked).
- Public keys are natural numbers; signatures and the `Signer` check are the
  signer argument itself.
- The host's duplicate-account rules: the fee collector may be the signer, and
  the contracts give the exact effect in that case too.
- `emit!` as a mechanism: events are an append-only log in the state.
- Concurrency and scheduling: the host serialises writes, so the model is
  sequential.
- The TypeScript test harness (airdrops, RPC); its init assertions are the
  content of `Instructions.InitVaultEffects`.
