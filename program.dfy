/** The vault program as the host runs it: each instruction mutates the stored
    records, the lamports and the event log step by step (guard, transfers,
    record update, event), and the host undoes every step of an instruction
    that fails. Each method is proved to end in the state, and with the
    outcome, that the matching function of Instructions gives. */
module Program {
  import opened VaultTypes
  import opened SystemProgram
  import opened Helpers
  import opened Instructions

  class VaultProgram {
    /** Records by the key of the signer whose seeds locate them. */
    var vaults: map<Pubkey, VaultAccount>
    /** Events emitted by successful instructions, oldest first. */
    var events: seq<Event>
    /** The host's lamport ledger. */
    const bank: Bank

    /** The whole state the instructions act on. */
    ghost function View(): Ledger
      reads this, bank
    {
      Ledger(vaults, bank.lamports, events)
    }

    constructor (bank: Bank)
      ensures this.bank == bank && vaults == map[] && events == []
      ensures Backed(View())
    {
      this.bank := bank;
      vaults := map[];
      events := [];
    }

    method InitVault(initializer: Pubkey) returns (r: Outcome)
      modifies this
      ensures r == Instructions.InitVault(old(View()), initializer).ToOutcome()
      ensures View() == Commit(old(View()), Instructions.InitVault(old(View()), initializer))
    {
      // the `init` constraint refuses an address that is already in use
      if initializer in vaults {
        return Fail(AlreadyInUse);
      }
      vaults := vaults[initializer := VaultAccount(0, initializer)];
      r := Pass;
    }

    method Deposit(initializer: Pubkey, feeCollector: Pubkey, amount: U64) returns (r: Outcome)
      modifies this, bank
      ensures r == Instructions.Deposit(old(View()), initializer, feeCollector, amount).ToOutcome()
      ensures View() == Commit(old(View()), Instructions.Deposit(old(View()), initializer, feeCollector, amount))
    {
      if initializer !in vaults {
        return Fail(NotInitialized);
      }
      var vault := vaults[initializer];
      r := AssertOwner(vault, initializer);
      if r.Fail? {
        return;
      }
      var fee := CalculateFee(amount);
      var netAmount := amount - fee;  // computed, never used
      var saved := bank.lamports;
      // The Rust code drops the result of send_fees, but a failed
      // cross-program call aborts the whole transaction on the host.
      r := SendFees(bank, initializer, feeCollector, fee);
      if r.Fail? {
        return;
      }
      r := bank.Transfer(Wallet(initializer), VaultPda(initializer), amount);
      if r.Fail? {
        bank.lamports := saved;  // the host reverts the fee payment
        return;
      }
      if vault.balance + amount > U64_MAX {
        bank.lamports := saved;  // checked `+=` aborts; the host reverts both transfers
        return Fail(Overflow);
      }
      vaults := vaults[initializer := vault.(balance := vault.balance + amount)];
      events := events + [DepositEvent(initializer, amount)];
    }

    method Withdraw(initializer: Pubkey, feeCollector: Pubkey, amount: U64) returns (r: Outcome)
      modifies this, bank
      ensures r == Instructions.Withdraw(old(View()), initializer, feeCollector, amount).ToOutcome()
      ensures View() == Commit(old(View()), Instructions.Withdraw(old(View()), initializer, feeCollector, amount))
    {
      if initializer !in vaults {
        return Fail(NotInitialized);
      }
      var vault := vaults[initializer];
      r := AssertOwner(vault, initializer);
      if r.Fail? {
        return;
      }
      var fee := CalculateFee(amount);
      if amount + fee > U64_MAX {
        return Fail(Overflow);  // checked `amount + fee` aborts
      }
      var totalAmount := amount + fee;
      r := AssertBalance(vault, totalAmount);
      if r.Fail? {
        return;
      }
      var saved := bank.lamports;
      r := SendFees(bank, initializer, feeCollector, fee);
      if r.Fail? {
        return;
      }
      r := bank.Transfer(VaultPda(initializer), Wallet(initializer), amount);
      if r.Fail? {
        bank.lamports := saved;  // the host reverts the fee payment
        return;
      }
      vaults := vaults[initializer := vault.(balance := vault.balance - amount)];
      events := events + [WithdrawEvent(initializer, amount)];
    }

    method CloseVault(initializer: Pubkey) returns (r: Outcome)
      modifies this, bank
      ensures r == Instructions.CloseVault(old(View()), initializer).ToOutcome()
      ensures View() == Commit(old(View()), Instructions.CloseVault(old(View()), initializer))
    {
      if initializer !in vaults {
        return Fail(NotInitialized);
      }
      var vault := vaults[initializer];
      r := AssertOwner(vault, initializer);
      if r.Fail? {
        return;
      }
      var remainingBalance := vault.balance;
      if remainingBalance > 0 {
        r := bank.Transfer(VaultPda(initializer), Wallet(initializer), remainingBalance);
        if r.Fail? {
          return;
        }
        vaults := vaults[initializer := vault.(balance := 0)];
        events := events + [CloseVaultEvent(initializer, remainingBalance)];
      }
      // `close = initializer`: every lamport left goes to the signer, then the record is deleted
      r := bank.Transfer(VaultPda(initializer), Wallet(initializer), Lamports(bank.lamports, VaultPda(initializer)));
      vaults := vaults - {initializer};
    }

    method TransferOwnership(initializer: Pubkey, newOwner: Pubkey) returns (r: Outcome)
      modifies this
      ensures r == Instructions.TransferOwnership(old(View()), initializer, newOwner).ToOutcome()
      ensures View() == Commit(old(View()), Instructions.TransferOwnership(old(View()), initializer, newOwner))
    {
      if initializer !in vaults {
        return Fail(NotInitialized);
      }
      var vault := vaults[initializer];
      r := AssertOwner(vault, initializer);
      if r.Fail? {
        return;
      }
      vaults := vaults[initializer := vault.(owner := newOwner)];
    }
  }
}
