/** What each instruction of the vault program does to the whole ledger: the
    records, the lamports of every address and the event log. Each returns the
    new ledger or an error; the host runs an instruction as one transaction, so
    an error leaves the ledger exactly as it was (see Commit). */
module Instructions {
  import opened VaultTypes
  import opened SystemProgram
  import opened Helpers

  /** The records, keyed by the key of the signer that created them (the
      vault address is derived from that key), the lamports of every address,
      and the events emitted so far. */
  datatype Ledger = Ledger(vaults: map<Pubkey, VaultAccount>, lamports: map<Address, nat>, events: seq<Event>)

  /** The ledger after a transaction: its new state if it succeeded, the old one if it failed. */
  function Commit(s: Ledger, r: Result<Ledger>): Ledger {
    if r.Ok? then r.value else s
  }

  /** The record is looked up under the signer's key and its owner field must
      name the signer: only then do the account lookup and assert_owner pass. */
  predicate Authorized(s: Ledger, initializer: Pubkey) {
    initializer in s.vaults && s.vaults[initializer].owner == initializer
  }

  /** Every record's bookkept balance is covered by the lamports at its vault address. */
  predicate Backed(s: Ledger) {
    forall k :: k in s.vaults ==> s.vaults[k].balance <= Lamports(s.lamports, VaultPda(k))
  }

  /** Lamports at the vault address beyond its bookkept balance. */
  function Surplus(s: Ledger, k: Pubkey): int
    requires k in s.vaults
  {
    Lamports(s.lamports, VaultPda(k)) - s.vaults[k].balance
  }

  // ---------------------------------------------------------------------------
  // The five instructions
  // ---------------------------------------------------------------------------

  /** init_vault: creates the record under the signer's key, empty and owned by the signer. */
  function InitVault(s: Ledger, initializer: Pubkey): (r: Result<Ledger>)
    ensures r.Ok? <==> initializer !in s.vaults
    ensures r.Err? ==> r.error == AlreadyInUse
    ensures r.Ok? ==> r.value.vaults.Keys == s.vaults.Keys + {initializer}
  {
    if initializer in s.vaults then Err(AlreadyInUse)
    else Ok(s.(vaults := s.vaults[initializer := VaultAccount(0, initializer)]))
  }

  /** deposit: the signer pays the fee to the collector and the whole amount
      into the vault, and the balance grows by the amount. */
  function Deposit(s: Ledger, initializer: Pubkey, feeCollector: Pubkey, amount: U64): (r: Result<Ledger>)
    ensures r.Ok? ==> Authorized(s, initializer) && r.value.vaults.Keys == s.vaults.Keys
  {
    if initializer !in s.vaults then Err(NotInitialized)
    else
      var vault := s.vaults[initializer];
      if AssertOwner(vault, initializer).Fail? then Err(Unauthorized)
      else
        var fee := CalculateFee(amount);
        var afterFee := Transferred(s.lamports, Wallet(initializer), Wallet(feeCollector), fee);
        if afterFee.Err? then Err(afterFee.error)
        else
          var afterDeposit := Transferred(afterFee.value, Wallet(initializer), VaultPda(initializer), amount);
          if afterDeposit.Err? then Err(afterDeposit.error)
          else if vault.balance + amount > U64_MAX then Err(Overflow)
          else
            Ok(Ledger(s.vaults[initializer := vault.(balance := vault.balance + amount)],
                      afterDeposit.value,
                      s.events + [DepositEvent(initializer, amount)]))
  }

  /** withdraw: needs a balance covering amount plus fee; the signer pays the
      fee to the collector, the vault pays the amount to the signer, and the
      balance shrinks by the amount. */
  function Withdraw(s: Ledger, initializer: Pubkey, feeCollector: Pubkey, amount: U64): (r: Result<Ledger>)
    ensures r.Ok? ==> Authorized(s, initializer) && r.value.vaults.Keys == s.vaults.Keys
  {
    if initializer !in s.vaults then Err(NotInitialized)
    else
      var vault := s.vaults[initializer];
      if AssertOwner(vault, initializer).Fail? then Err(Unauthorized)
      else
        var fee := CalculateFee(amount);
        if amount + fee > U64_MAX then Err(Overflow)
        else if AssertBalance(vault, amount + fee).Fail? then Err(InsufficientFunds)
        else
          var afterFee := Transferred(s.lamports, Wallet(initializer), Wallet(feeCollector), fee);
          if afterFee.Err? then Err(afterFee.error)
          else
            var afterWithdraw := Transferred(afterFee.value, VaultPda(initializer), Wallet(initializer), amount);
            if afterWithdraw.Err? then Err(afterWithdraw.error)
            else
              Ok(Ledger(s.vaults[initializer := vault.(balance := vault.balance - amount)],
                        afterWithdraw.value,
                        s.events + [WithdrawEvent(initializer, amount)]))
  }

  /** The body of close_vault: pays a positive balance back to the signer,
      zeroes it and logs it; with a zero balance it does nothing. */
  function CloseHandler(s: Ledger, initializer: Pubkey): (r: Result<Ledger>)
    ensures r.Ok? ==> Authorized(s, initializer) && r.value.vaults.Keys == s.vaults.Keys
  {
    if initializer !in s.vaults then Err(NotInitialized)
    else
      var vault := s.vaults[initializer];
      if AssertOwner(vault, initializer).Fail? then Err(Unauthorized)
      else
        var remaining := vault.balance;
        if remaining > 0 then
          var paid := Transferred(s.lamports, VaultPda(initializer), Wallet(initializer), remaining);
          if paid.Err? then Err(paid.error)
          else
            Ok(Ledger(s.vaults[initializer := vault.(balance := 0)],
                      paid.value,
                      s.events + [CloseVaultEvent(initializer, remaining)]))
        else Ok(s)
  }

  /** The `close = initializer` constraint: after the body, the host moves every
      lamport left at the vault address to the signer and deletes the record. */
  function CloseAccount(s: Ledger, initializer: Pubkey): (t: Ledger)
    ensures t.vaults.Keys == s.vaults.Keys - {initializer}
    ensures Lamports(t.lamports, VaultPda(initializer)) == 0
  {
    var swept := Transferred(s.lamports, VaultPda(initializer), Wallet(initializer), Lamports(s.lamports, VaultPda(initializer)));
    Ledger(s.vaults - {initializer}, swept.value, s.events)
  }

  /** close_vault: the body, then the closing of the account. */
  function CloseVault(s: Ledger, initializer: Pubkey): (r: Result<Ledger>)
    ensures r.Ok? ==> Authorized(s, initializer) && initializer !in r.value.vaults
  {
    var handled := CloseHandler(s, initializer);
    if handled.Err? then handled
    else Ok(CloseAccount(handled.value, initializer))
  }

  /** transfer_ownership: rewrites the owner field of the signer's record. */
  function TransferOwnership(s: Ledger, initializer: Pubkey, newOwner: Pubkey): (r: Result<Ledger>)
    ensures r.Ok? ==> Authorized(s, initializer) && r.value.vaults.Keys == s.vaults.Keys
  {
    if initializer !in s.vaults then Err(NotInitialized)
    else
      var vault := s.vaults[initializer];
      if AssertOwner(vault, initializer).Fail? then Err(Unauthorized)
      else Ok(s.(vaults := s.vaults[initializer := vault.(owner := newOwner)]))
  }

  // ---------------------------------------------------------------------------
  // Guards
  // ---------------------------------------------------------------------------

  /** Without a record under the signer's key, every instruction but init fails. */
  lemma MissingRecordRejected(s: Ledger, k: Pubkey, feeCollector: Pubkey, amount: U64, newOwner: Pubkey)
    requires k !in s.vaults
    ensures Deposit(s, k, feeCollector, amount) == Err(NotInitialized)
    ensures Withdraw(s, k, feeCollector, amount) == Err(NotInitialized)
    ensures CloseVault(s, k) == Err(NotInitialized)
    ensures TransferOwnership(s, k, newOwner) == Err(NotInitialized)
  {
  }

  /** A signer whose record names another owner is refused before anything moves. */
  lemma NonOwnerRejected(s: Ledger, k: Pubkey, feeCollector: Pubkey, amount: U64, newOwner: Pubkey)
    requires k in s.vaults && s.vaults[k].owner != k
    ensures Deposit(s, k, feeCollector, amount) == Err(Unauthorized)
    ensures Withdraw(s, k, feeCollector, amount) == Err(Unauthorized)
    ensures CloseVault(s, k) == Err(Unauthorized)
    ensures TransferOwnership(s, k, newOwner) == Err(Unauthorized)
  {
  }

  // ---------------------------------------------------------------------------
  // init_vault
  // ---------------------------------------------------------------------------

  /** A new record holds nothing and is owned by its creator; nothing else changes. */
  lemma InitVaultEffects(s: Ledger, k: Pubkey)
    requires InitVault(s, k).Ok?
    ensures var t := InitVault(s, k).value;
      && k in t.vaults && t.vaults[k] == VaultAccount(0, k)
      && (forall j :: j in s.vaults ==> j in t.vaults && t.vaults[j] == s.vaults[j])
      && t.lamports == s.lamports && t.events == s.events
  {
  }

  /** A second init for the same key fails: the record exists. */
  lemma InitVaultTwice(s: Ledger, k: Pubkey)
    requires InitVault(s, k).Ok?
    ensures InitVault(InitVault(s, k).value, k) == Err(AlreadyInUse)
  {
  }

  // ---------------------------------------------------------------------------
  // deposit
  // ---------------------------------------------------------------------------

  /** What the signer must hold for a deposit: the amount, plus the fee when
      the collector is someone else. */
  function DepositCost(k: Pubkey, feeCollector: Pubkey, amount: U64): nat {
    amount + if feeCollector == k then 0 else CalculateFee(amount)
  }

  /** An authorised deposit succeeds exactly when the signer can pay for it and
      the new balance fits in a u64; a missing lamport fails the transfer, an
      overflowing balance aborts. */
  lemma DepositOutcome(s: Ledger, k: Pubkey, feeCollector: Pubkey, amount: U64)
    requires Authorized(s, k)
    ensures var r := Deposit(s, k, feeCollector, amount);
      && (Lamports(s.lamports, Wallet(k)) < DepositCost(k, feeCollector, amount) ==> r == Err(TransferFailed))
      && (Lamports(s.lamports, Wallet(k)) >= DepositCost(k, feeCollector, amount) ==>
            r.Ok? == (s.vaults[k].balance + amount <= U64_MAX)
            && (r.Err? ==> r.error == Overflow))
  {
  }

  /** A successful deposit credits the balance with the whole amount (not the
      amount net of the fee), moves the amount into the vault and the fee to
      the collector, so the signer pays amount plus fee; nothing else moves. */
  lemma DepositEffects(s: Ledger, k: Pubkey, feeCollector: Pubkey, amount: U64)
    requires Deposit(s, k, feeCollector, amount).Ok?
    ensures var t := Deposit(s, k, feeCollector, amount).value;
      var fee := CalculateFee(amount);
      && t.vaults == s.vaults[k := VaultAccount(s.vaults[k].balance + amount, k)]
      && Lamports(t.lamports, VaultPda(k)) == Lamports(s.lamports, VaultPda(k)) + amount
      && Lamports(t.lamports, Wallet(k)) == Lamports(s.lamports, Wallet(k)) - DepositCost(k, feeCollector, amount)
      && (feeCollector != k ==> Lamports(t.lamports, Wallet(feeCollector)) == Lamports(s.lamports, Wallet(feeCollector)) + fee)
      && (forall a :: a != Wallet(k) && a != Wallet(feeCollector) && a != VaultPda(k) ==>
            Lamports(t.lamports, a) == Lamports(s.lamports, a))
      && t.events == s.events + [DepositEvent(k, amount)]
  {
  }

  // ---------------------------------------------------------------------------
  // withdraw
  // ---------------------------------------------------------------------------

  /** An authorised withdrawal aborts when amount plus fee overflows a u64, and
      otherwise fails with InsufficientFunds exactly when the balance is below
      amount plus fee. */
  lemma WithdrawGuards(s: Ledger, k: Pubkey, feeCollector: Pubkey, amount: U64)
    requires Authorized(s, k)
    ensures var r := Withdraw(s, k, feeCollector, amount);
      var total := amount + CalculateFee(amount);
      && (total > U64_MAX ==> r == Err(Overflow))
      && (total <= U64_MAX ==> (r == Err(InsufficientFunds) <==> s.vaults[k].balance < total))
  {
  }

  /** On a backed ledger the vault can always pay: an authorised withdrawal
      succeeds exactly when amount plus fee fits in a u64, the balance covers
      it and the signer holds the fee. */
  lemma WithdrawOutcome(s: Ledger, k: Pubkey, feeCollector: Pubkey, amount: U64)
    requires Authorized(s, k) && Backed(s)
    ensures var fee := CalculateFee(amount);
      Withdraw(s, k, feeCollector, amount).Ok? <==>
        && amount + fee <= U64_MAX
        && s.vaults[k].balance >= amount + fee
        && Lamports(s.lamports, Wallet(k)) >= fee
  {
  }

  /** A successful withdrawal debits the balance by the amount alone (the fee
      comes from the signer's wallet), so the fee is still covered afterwards;
      the signer nets amount minus fee. */
  lemma WithdrawEffects(s: Ledger, k: Pubkey, feeCollector: Pubkey, amount: U64)
    requires Withdraw(s, k, feeCollector, amount).Ok?
    ensures var t := Withdraw(s, k, feeCollector, amount).value;
      var fee := CalculateFee(amount);
      && s.vaults[k].balance >= amount + fee
      && t.vaults == s.vaults[k := VaultAccount(s.vaults[k].balance - amount, k)]
      && t.vaults[k].balance >= fee
      && Lamports(t.lamports, VaultPda(k)) == Lamports(s.lamports, VaultPda(k)) - amount
      && Lamports(t.lamports, Wallet(k)) == Lamports(s.lamports, Wallet(k)) + amount - (if feeCollector == k then 0 else fee)
      && (feeCollector != k ==> Lamports(t.lamports, Wallet(feeCollector)) == Lamports(s.lamports, Wallet(feeCollector)) + fee)
      && (forall a :: a != Wallet(k) && a != Wallet(feeCollector) && a != VaultPda(k) ==>
            Lamports(t.lamports, a) == Lamports(s.lamports, a))
      && t.events == s.events + [WithdrawEvent(k, amount)]
  {
  }

  // ---------------------------------------------------------------------------
  // close_vault
  // ---------------------------------------------------------------------------

  /** The body of close_vault moves exactly the balance to the signer and logs
      one close event when the balance is positive, and changes nothing when it
      is zero. */
  lemma CloseHandlerEffects(s: Ledger, k: Pubkey)
    requires CloseHandler(s, k).Ok?
    ensures var t := CloseHandler(s, k).value;
      var balance := s.vaults[k].balance;
      && (balance == 0 ==> t == s)
      && (balance > 0 ==>
            && t.vaults == s.vaults[k := VaultAccount(0, k)]
            && Lamports(t.lamports, VaultPda(k)) == Lamports(s.lamports, VaultPda(k)) - balance
            && Lamports(t.lamports, Wallet(k)) == Lamports(s.lamports, Wallet(k)) + balance
            && (forall a :: a != Wallet(k) && a != VaultPda(k) ==> Lamports(t.lamports, a) == Lamports(s.lamports, a))
            && t.events == s.events + [CloseVaultEvent(k, balance)])
  {
  }

  /** An authorised close fails only when the vault address cannot pay out the
      balance, which a backed ledger rules out. */
  lemma CloseVaultOutcome(s: Ledger, k: Pubkey)
    requires Authorized(s, k)
    ensures CloseVault(s, k).Ok? <==> s.vaults[k].balance <= Lamports(s.lamports, VaultPda(k))
    ensures CloseVault(s, k).Err? ==> CloseVault(s, k).error == TransferFailed
    ensures Backed(s) ==> CloseVault(s, k).Ok?
  {
  }

  /** After close_vault the record is gone, every lamport at the vault address
      has gone to the signer, and a close event was logged only for a positive
      balance; nothing else changes. */
  lemma CloseVaultEffects(s: Ledger, k: Pubkey)
    requires CloseVault(s, k).Ok?
    ensures var t := CloseVault(s, k).value;
      var balance := s.vaults[k].balance;
      && t.vaults == s.vaults - {k}
      && Lamports(t.lamports, VaultPda(k)) == 0
      && Lamports(t.lamports, Wallet(k)) == Lamports(s.lamports, Wallet(k)) + Lamports(s.lamports, VaultPda(k))
      && (forall a :: a != Wallet(k) && a != VaultPda(k) ==> Lamports(t.lamports, a) == Lamports(s.lamports, a))
      && t.events == s.events + (if balance > 0 then [CloseVaultEvent(k, balance)] else [])
  {
  }

  /** A second close fails: the first one deleted the record. */
  lemma CloseVaultTwice(s: Ledger, k: Pubkey)
    requires CloseVault(s, k).Ok?
    ensures CloseVault(CloseVault(s, k).value, k) == Err(NotInitialized)
  {
  }

  // ---------------------------------------------------------------------------
  // transfer_ownership
  // ---------------------------------------------------------------------------

  /** transfer_ownership succeeds exactly for the authorised signer and then
      changes the owner field and nothing else. */
  lemma TransferOwnershipEffects(s: Ledger, k: Pubkey, newOwner: Pubkey)
    ensures TransferOwnership(s, k, newOwner).Ok? <==> Authorized(s, k)
    ensures TransferOwnership(s, k, newOwner).Ok? ==>
      var t := TransferOwnership(s, k, newOwner).value;
      && t.vaults == s.vaults[k := VaultAccount(s.vaults[k].balance, newOwner)]
      && t.lamports == s.lamports && t.events == s.events
  {
  }

  // ---------------------------------------------------------------------------
  // The vault's lamports track its balance
  // ---------------------------------------------------------------------------

  /** deposit, withdraw and transfer_ownership keep the lamports at the vault
      address minus the bookkept balance constant. */
  lemma SurplusUnchanged(s: Ledger, k: Pubkey, feeCollector: Pubkey, amount: U64, newOwner: Pubkey)
    requires k in s.vaults
    ensures Deposit(s, k, feeCollector, amount).Ok? ==>
      Surplus(Deposit(s, k, feeCollector, amount).value, k) == Surplus(s, k)
    ensures Withdraw(s, k, feeCollector, amount).Ok? ==>
      Surplus(Withdraw(s, k, feeCollector, amount).value, k) == Surplus(s, k)
    ensures TransferOwnership(s, k, newOwner).Ok? ==>
      Surplus(TransferOwnership(s, k, newOwner).value, k) == Surplus(s, k)
  {
  }
}
