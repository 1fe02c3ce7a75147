/** The host's lamport ledger and its transfer instruction, as far as the vault
    program relies on them: a transfer moves exactly the requested amount from
    one address to another, or fails and moves nothing. */
module SystemProgram {
  import opened VaultTypes

  /** The lamports held at `a`; an address never funded holds none. */
  function Lamports(m: map<Address, nat>, a: Address): nat {
    if a in m then m[a] else 0
  }

  /** Moves `n` lamports from `from` to `to`; refused when `from` holds fewer. */
  function Transferred(m: map<Address, nat>, from: Address, to: Address, n: nat): (r: Result<map<Address, nat>>)
    ensures r.Ok? <==> n <= Lamports(m, from)
    ensures r.Err? ==> r.error == TransferFailed
    ensures r.Ok? ==> forall a ::
      Lamports(r.value, a) == Lamports(m, a) - (if a == from then n else 0) + (if a == to then n else 0)
  {
    if Lamports(m, from) < n then Err(TransferFailed)
    else
      var debited := m[from := Lamports(m, from) - n];
      Ok(debited[to := Lamports(debited, to) + n])
  }

  /** A transfer of nothing succeeds and leaves every balance as it was. */
  lemma TransferNothing(m: map<Address, nat>, from: Address, to: Address)
    ensures Transferred(m, from, to, 0).Ok?
    ensures forall a :: Lamports(Transferred(m, from, to, 0).value, a) == Lamports(m, a)
  {
  }

  /** The lamports of every address, as the host keeps them. */
  class Bank {
    var lamports: map<Address, nat>

    constructor (initial: map<Address, nat>)
      ensures lamports == initial
    {
      lamports := initial;
    }

    /** The system program's transfer: all or nothing. */
    method Transfer(from: Address, to: Address, n: nat) returns (r: Outcome)
      modifies this
      ensures r == Transferred(old(lamports), from, to, n).ToOutcome()
      ensures r.Pass? ==> lamports == Transferred(old(lamports), from, to, n).value
      ensures r.Fail? ==> lamports == old(lamports)
    {
      if Lamports(lamports, from) < n {
        return Fail(TransferFailed);
      }
      lamports := lamports[from := Lamports(lamports, from) - n];
      lamports := lamports[to := Lamports(lamports, to) + n];
      r := Pass;
    }
  }
}
