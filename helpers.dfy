/** The fee rule, the two guards and the fee transfer of the vault program. */
module Helpers {
  import opened VaultTypes
  import opened SystemProgram

  /** One percent of `amount`, rounded down. */
  function CalculateFee(amount: U64): (fee: U64)
    ensures fee <= amount
    ensures 100 * fee <= amount < 100 * fee + 100
  {
    amount / 100
  }

  /** The fee of a few amounts. */
  lemma FeeExamples()
    ensures CalculateFee(0) == 0
    ensures CalculateFee(99) == 0
    ensures CalculateFee(100) == 1
    ensures CalculateFee(1000) == 10
  {
  }

  /** A larger amount never carries a smaller fee. */
  lemma FeeMonotone(a: U64, b: U64)
    requires a <= b
    ensures CalculateFee(a) <= CalculateFee(b)
  {
  }

  /** Passes exactly when the signer is the key recorded as the vault's owner. */
  function AssertOwner(vault: VaultAccount, initializer: Pubkey): (r: Outcome)
    ensures r.Pass? <==> vault.owner == initializer
    ensures r.Fail? ==> r.error == Unauthorized
  {
    if vault.owner == initializer then Pass else Fail(Unauthorized)
  }

  /** Passes exactly when the vault's bookkept balance covers `amount`. */
  function AssertBalance(vault: VaultAccount, amount: U64): (r: Outcome)
    ensures r.Pass? <==> vault.balance >= amount
    ensures r.Fail? ==> r.error == InsufficientFunds
  {
    if vault.balance >= amount then Pass else Fail(InsufficientFunds)
  }

  /** Pays `fee` lamports from the signer's wallet to the fee collector's wallet. */
  method SendFees(bank: Bank, from: Pubkey, to: Pubkey, fee: U64) returns (r: Outcome)
    modifies bank
    ensures r == Transferred(old(bank.lamports), Wallet(from), Wallet(to), fee).ToOutcome()
    ensures r.Pass? ==> bank.lamports == Transferred(old(bank.lamports), Wallet(from), Wallet(to), fee).value
    ensures r.Pass? <==> fee <= Lamports(old(bank.lamports), Wallet(from))
    ensures r.Fail? ==> r.error == TransferFailed && bank.lamports == old(bank.lamports)
    ensures r.Pass? && from != to ==>
      && Lamports(bank.lamports, Wallet(from)) == Lamports(old(bank.lamports), Wallet(from)) - fee
      && Lamports(bank.lamports, Wallet(to)) == Lamports(old(bank.lamports), Wallet(to)) + fee
    ensures forall a :: a != Wallet(from) && a != Wallet(to) ==>
      Lamports(bank.lamports, a) == Lamports(old(bank.lamports), a)
    ensures fee == 0 ==> forall a :: Lamports(bank.lamports, a) == Lamports(old(bank.lamports), a)
  {
    r := bank.Transfer(Wallet(from), Wallet(to), fee);
  }
}
