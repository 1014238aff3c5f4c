/**
 * The FeeBankCharger's credit ledger: the credit each resolver has left for
 * paying fees. Only the charger's own FeeBank may raise or lower an entry; the
 * settlement charges fees on it directly.
 */
module CreditLedger {
  import opened Bytes
  import opened Wrappers
  import opened FusionTypes

  /** Credit by account; a missing entry is zero credit. */
  type Credits = map<Address, nat>

  function Get(c: Credits, account: Address): nat {
    if account in c then c[account] else 0
  }

  /** The ledger with `amount` more credit for `account`. */
  function Add(c: Credits, account: Address, amount: nat): (r: Credits)
    ensures Get(r, account) == Get(c, account) + amount
    ensures forall a :: a != account ==> Get(r, a) == Get(c, a)
  {
    c[account := Get(c, account) + amount]
  }

  /**
   * The ledger with `amount` less credit for `account`, failing with `short`
   * (and no change) when the account has less than `amount`.
   */
  function Sub(c: Credits, account: Address, amount: nat, short: Error): (r: Result<Credits, Error>)
    ensures r.Success? <==> amount <= Get(c, account)
    ensures r.Failure? ==> r.error == short
    ensures r.Success? ==> Get(r.value, account) + amount == Get(c, account)
    ensures r.Success? ==> forall a :: a != account ==> Get(r.value, a) == Get(c, a)
  {
    if Get(c, account) < amount then Failure(short)
    else Success(c[account := Get(c, account) - amount])
  }

  /** The settlement's fee charge: a fee larger than the resolver's credit fails with NotEnoughCredit. */
  function ChargeFee(c: Credits, resolver: Address, fee: nat): (r: Result<Credits, Error>)
    ensures r.Success? <==> fee <= Get(c, resolver)
    ensures r.Failure? ==> r.error == NotEnoughCredit
  {
    Sub(c, resolver, fee, NotEnoughCredit)
  }

  /** Removing what was just added gives every account its old credit back. */
  lemma AddSubRoundTrip(c: Credits, account: Address, amount: nat, short: Error)
    ensures var r := Sub(Add(c, account, amount), account, amount, short);
      r.Success? && forall a :: Get(r.value, a) == Get(c, a)
  {
    var r := Sub(Add(c, account, amount), account, amount, short);
    assert r.Success?;
    forall a ensures Get(r.value, a) == Get(c, a) {
      if a != account {
        assert Get(Add(c, account, amount), a) == Get(c, a);
      }
    }
  }

  /**
   * The FeeBankCharger contract: the address of its FeeBank and the credit ledger.
   * The two mutators check the caller before anything else.
   */
  class FeeBankCharger {
    const feeBank: Address
    var credit: Credits

    /** A new charger, bound to the FeeBank at `feeBank`, with no credit for anyone. */
    constructor(feeBank: Address)
      ensures this.feeBank == feeBank
      ensures forall a :: Get(credit, a) == 0
    {
      this.feeBank := feeBank;
      credit := map[];
    }

    /** `availableCredit(account)`: what the FeeBank has credited and not yet taken back; an account never credited has none. */
    function AvailableCredit(account: Address): (r: nat)
      reads this
      ensures account !in credit ==> r == 0
      ensures account in credit ==> r == credit[account]
    {
      Get(credit, account)
    }

    /** Raises `account`'s credit by `amount` and returns the new credit; anyone but the FeeBank is refused. */
    method IncreaseAvailableCredit(caller: Address, account: Address, amount: nat) returns (r: Result<nat, Error>)
      modifies this
      ensures caller != feeBank ==> r == Failure(OnlyFeeBankAccess) && credit == old(credit)
      ensures caller == feeBank ==> credit == Add(old(credit), account, amount) && r == Success(AvailableCredit(account))
    {
      if caller != feeBank {
        return Failure(OnlyFeeBankAccess);
      }
      credit := Add(credit, account, amount);
      r := Success(Get(credit, account));
    }

    /**
     * Lowers `account`'s credit by `amount` and returns the new credit; anyone but the
     * FeeBank is refused, and lowering below zero fails with ArithmeticUnderflow.
     */
    method DecreaseAvailableCredit(caller: Address, account: Address, amount: nat) returns (r: Result<nat, Error>)
      modifies this
      ensures caller != feeBank ==> r == Failure(OnlyFeeBankAccess) && credit == old(credit)
      ensures caller == feeBank ==>
        var s := Sub(old(credit), account, amount, ArithmeticUnderflow);
        if s.Success? then credit == s.value && r == Success(AvailableCredit(account))
        else credit == old(credit) && r == Failure(ArithmeticUnderflow)
    {
      if caller != feeBank {
        return Failure(OnlyFeeBankAccess);
      }
      var s := Sub(credit, account, amount, ArithmeticUnderflow);
      if s.Failure? {
        return Failure(s.error);
      }
      credit := s.value;
      r := Success(Get(credit, account));
    }
  }
}
