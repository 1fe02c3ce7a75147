/** Values shared by the vault program: keys, the u64 range, addresses that hold
    lamports, the stored vault record, the program's errors and its events. */
module VaultTypes {

  /** Largest value of a Rust `u64`. */
  const U64_MAX: int := 0xFFFF_FFFF_FFFF_FFFF

  /** A Rust `u64`: arithmetic on it is checked, so it never wraps. */
  type U64 = x: int | 0 <= x <= U64_MAX

  /** A public key, abstracted to a number. */
  type Pubkey = nat

  /** An account that holds lamports. A wallet is the account of a key itself;
      the vault of a key lives at the address derived from the seeds
      ["vault", key], which is never a wallet and never another key's vault. */
  datatype Address = Wallet(key: Pubkey) | VaultPda(seed: Pubkey)

  /** The stored record: the bookkept balance and the key allowed to use it. */
  datatype VaultAccount = VaultAccount(balance: U64, owner: Pubkey)

  /** The program's own errors (Unauthorized, InsufficientFunds) and the
      host's: the record already exists or is missing, a checked u64
      operation overflowed, a lamport transfer was refused. */
  datatype Error =
    | Unauthorized
    | InsufficientFunds
    | AlreadyInUse
    | NotInitialized
    | Overflow
    | TransferFailed

  /** The audit events the program emits. */
  datatype Event =
    | DepositEvent(initializer: Pubkey, amount: U64)
    | WithdrawEvent(initializer: Pubkey, amount: U64)
    | CloseVaultEvent(initializer: Pubkey, amount: U64)

  /** The result of a guard or of an instruction that returns nothing. */
  datatype Outcome = Pass | Fail(error: Error)

  /** The result of an operation that yields a value. */
  datatype Result<T> = Ok(value: T) | Err(error: Error) {
    function ToOutcome(): Outcome {
      if Ok? then Pass else Fail(error)
    }
  }
}
