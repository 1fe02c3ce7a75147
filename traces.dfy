/** Sequences of instructions, each run as its own transaction, and the
    properties that hold across all of them: vault lamports keep covering the
    balances, and a record whose owner field no longer names its seed key is
    frozen for good. */
module Traces {
  import opened VaultTypes
  import opened SystemProgram
  import opened Helpers
  import opened Instructions

  /** One instruction and its arguments; `initializer` is the signer. */
  datatype Instruction =
    | InitVaultIx(initializer: Pubkey)
    | DepositIx(initializer: Pubkey, feeCollector: Pubkey, amount: U64)
    | WithdrawIx(initializer: Pubkey, feeCollector: Pubkey, amount: U64)
    | CloseVaultIx(initializer: Pubkey)
    | TransferOwnershipIx(initializer: Pubkey, newOwner: Pubkey)

  function Execute(s: Ledger, ix: Instruction): Result<Ledger> {
    match ix
    case InitVaultIx(k) => InitVault(s, k)
    case DepositIx(k, c, n) => Deposit(s, k, c, n)
    case WithdrawIx(k, c, n) => Withdraw(s, k, c, n)
    case CloseVaultIx(k) => CloseVault(s, k)
    case TransferOwnershipIx(k, o) => TransferOwnership(s, k, o)
  }

  /** The ledger after each instruction in turn, failed ones leaving it unchanged. */
  function Run(s: Ledger, txs: seq<Instruction>): Ledger
    decreases |txs|
  {
    if txs == [] then s else Run(Commit(s, Execute(s, txs[0])), txs[1..])
  }

  // ---------------------------------------------------------------------------
  // Every balance stays backed by lamports
  // ---------------------------------------------------------------------------

  /** No instruction leaves a balance that its vault address cannot pay out. */
  lemma ExecutePreservesBacked(s: Ledger, ix: Instruction)
    requires Backed(s)
    ensures Backed(Commit(s, Execute(s, ix)))
  {
  }

  /** Every balance stays backed across any sequence of transactions. */
  lemma {:induction false} RunPreservesBacked(s: Ledger, txs: seq<Instruction>)
    requires Backed(s)
    ensures Backed(Run(s, txs))
    decreases |txs|
  {
    if txs != [] {
      ExecutePreservesBacked(s, txs[0]);
      RunPreservesBacked(Commit(s, Execute(s, txs[0])), txs[1..]);
    }
  }

  // ---------------------------------------------------------------------------
  // A record handed to another owner is frozen
  // ---------------------------------------------------------------------------

  /** The record stored under `k` no longer names `k` as owner. Since the record
      is found by the signer's key but authorised by its owner field, no signer
      passes both checks for it. */
  predicate Orphaned(s: Ledger, k: Pubkey) {
    k in s.vaults && s.vaults[k].owner != k
  }

  /** Handing a record to a different key orphans it. */
  lemma TransferOwnershipOrphans(s: Ledger, k: Pubkey, newOwner: Pubkey)
    requires newOwner != k && TransferOwnership(s, k, newOwner).Ok?
    ensures Orphaned(TransferOwnership(s, k, newOwner).value, k)
  {
  }

  /** Every instruction signed by the orphaned record's key fails. */
  lemma OrphanedRejects(s: Ledger, ix: Instruction)
    requires Orphaned(s, ix.initializer)
    ensures Execute(s, ix).Err?
    ensures ix.InitVaultIx? ==> Execute(s, ix) == Err(AlreadyInUse)
    ensures !ix.InitVaultIx? ==> Execute(s, ix) == Err(Unauthorized)
  {
  }

  /** No instruction, whoever signs it, touches an orphaned record or the
      lamports at its vault address. */
  lemma ExecuteKeepsOrphan(s: Ledger, ix: Instruction, k: Pubkey)
    requires Orphaned(s, k)
    ensures var t := Commit(s, Execute(s, ix));
      && Orphaned(t, k) && t.vaults[k] == s.vaults[k]
      && Lamports(t.lamports, VaultPda(k)) == Lamports(s.lamports, VaultPda(k))
  {
  }

  /** Once orphaned, a record and its vault lamports stay exactly as they are
      through any sequence of transactions: the funds are locked. */
  lemma {:induction false} RunKeepsOrphan(s: Ledger, txs: seq<Instruction>, k: Pubkey)
    requires Orphaned(s, k)
    ensures var t := Run(s, txs);
      && Orphaned(t, k) && t.vaults[k] == s.vaults[k]
      && Lamports(t.lamports, VaultPda(k)) == Lamports(s.lamports, VaultPda(k))
    decreases |txs|
  {
    if txs != [] {
      ExecuteKeepsOrphan(s, txs[0], k);
      RunKeepsOrphan(Commit(s, Execute(s, txs[0])), txs[1..], k);
    }
  }

  // ---------------------------------------------------------------------------
  // A worked sequence
  // ---------------------------------------------------------------------------

  /** Key 1 starts with 2000 lamports and key 2 collects fees. init, deposit
      1000 (fee 10), withdraw 500 (fee 5, needs a balance of 505), close: key 1
      ends with 1985 lamports, the collector with 15, and the record is gone. */
  lemma Scenario()
    ensures var s := Ledger(map[], map[Wallet(1) := 2000], []);
      var t := Run(s, [InitVaultIx(1), DepositIx(1, 2, 1000), WithdrawIx(1, 2, 500), CloseVaultIx(1)]);
      && t.vaults == map[]
      && Lamports(t.lamports, Wallet(1)) == 1985
      && Lamports(t.lamports, Wallet(2)) == 15
      && Lamports(t.lamports, VaultPda(1)) == 0
      && t.events == [DepositEvent(1, 1000), WithdrawEvent(1, 500), CloseVaultEvent(1, 500)]
  {
  }
}
