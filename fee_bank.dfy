/**
 * The FeeBank: it holds the fee token on resolvers' behalf, records each
 * account's deposits and keeps its charger's credit in step with them, one
 * token unit of credit per unit deposited or withdrawn.
 */
module Bank {
  import opened Bytes
  import opened Wrappers
  import opened FusionTypes
  import opened Tokens
  import opened CreditLedger

  /** What a FeeBank call may change: the bank's deposits, the charger's credit and token balances. */
  datatype BankState = BankState(deposits: Credits, credit: Credits, balances: Balances)

  /** No account has more credit than it has deposited. */
  ghost predicate Covered(deposits: Credits, credit: Credits) {
    forall a :: Get(credit, a) <= Get(deposits, a)
  }

  /**
   * `depositFor`: `payer` sends `amount` of the fee token to the bank, and `account`'s
   * deposits and credit both rise by `amount`. A payer without the balance makes the
   * token transfer fail.
   */
  function AfterDepositFor(s: BankState, bank: Address, token: Address, payer: Address, account: Address, amount: nat): (r: Result<BankState, Error>)
    ensures r.Success? <==> amount <= BalanceOf(s.balances, token, payer)
    ensures r.Failure? ==> r.error == TransferFailed
    ensures r.Success? ==>
      && Get(r.value.deposits, account) == Get(s.deposits, account) + amount
      && Get(r.value.credit, account) == Get(s.credit, account) + amount
      && (forall a :: a != account ==> Get(r.value.deposits, a) == Get(s.deposits, a))
      && (forall a :: a != account ==> Get(r.value.credit, a) == Get(s.credit, a))
      && (forall t, h :: BalanceOf(r.value.balances, t, h) == BalanceOf(s.balances, t, h) + Flow(token, payer, bank, amount, t, h))
  {
    var b :- Transfer(s.balances, token, payer, bank, amount);
    Success(BankState(Add(s.deposits, account, amount), Add(s.credit, account, amount), b))
  }

  /**
   * The permit variants first apply the signed permit; an invalid one fails with
   * InvalidPermit before anything moves, a valid one leaves a plain `depositFor`.
   */
  function AfterDepositForWithPermit(s: BankState, bank: Address, token: Address, payer: Address, account: Address, amount: nat, permitValid: bool): (r: Result<BankState, Error>)
    ensures !permitValid ==> r == Failure(InvalidPermit)
    ensures permitValid ==> r == AfterDepositFor(s, bank, token, payer, account, amount)
  {
    if !permitValid then Failure(InvalidPermit) else AfterDepositFor(s, bank, token, payer, account, amount)
  }

  /**
   * `withdrawTo`: the caller's credit and deposits fall by `amount` and the bank sends
   * `amount` of the fee token to `recipient`. The credit decrease comes first, so an
   * amount above the caller's credit fails with ArithmeticUnderflow.
   */
  function AfterWithdrawTo(s: BankState, bank: Address, token: Address, caller: Address, recipient: Address, amount: nat): (r: Result<BankState, Error>)
    ensures amount > Get(s.credit, caller) ==> r == Failure(ArithmeticUnderflow)
    ensures r.Success? <==>
      amount <= Get(s.credit, caller) && amount <= Get(s.deposits, caller) && amount <= BalanceOf(s.balances, token, bank)
    ensures r.Success? ==>
      && Get(r.value.deposits, caller) + amount == Get(s.deposits, caller)
      && Get(r.value.credit, caller) + amount == Get(s.credit, caller)
      && (forall a :: a != caller ==> Get(r.value.deposits, a) == Get(s.deposits, a))
      && (forall a :: a != caller ==> Get(r.value.credit, a) == Get(s.credit, a))
      && (forall t, h :: BalanceOf(r.value.balances, t, h) == BalanceOf(s.balances, t, h) + Flow(token, bank, recipient, amount, t, h))
  {
    var credit :- Sub(s.credit, caller, amount, ArithmeticUnderflow);
    var deposits :- Sub(s.deposits, caller, amount, ArithmeticUnderflow);
    var b :- Transfer(s.balances, token, bank, recipient, amount);
    Success(BankState(deposits, credit, b))
  }

  /** Deposits keep every account's credit covered by its deposits. */
  lemma DepositKeepsCovered(s: BankState, bank: Address, token: Address, payer: Address, account: Address, amount: nat)
    requires Covered(s.deposits, s.credit)
    requires AfterDepositFor(s, bank, token, payer, account, amount).Success?
    ensures var s' := AfterDepositFor(s, bank, token, payer, account, amount).value; Covered(s'.deposits, s'.credit)
  {
    var s' := AfterDepositFor(s, bank, token, payer, account, amount).value;
    forall a ensures Get(s'.credit, a) <= Get(s'.deposits, a) {
      assert Get(s.credit, a) <= Get(s.deposits, a);
    }
  }

  /** Withdrawals keep every account's credit covered by its deposits. */
  lemma WithdrawKeepsCovered(s: BankState, bank: Address, token: Address, caller: Address, recipient: Address, amount: nat)
    requires Covered(s.deposits, s.credit)
    requires AfterWithdrawTo(s, bank, token, caller, recipient, amount).Success?
    ensures var s' := AfterWithdrawTo(s, bank, token, caller, recipient, amount).value; Covered(s'.deposits, s'.credit)
  {
    var s' := AfterWithdrawTo(s, bank, token, caller, recipient, amount).value;
    forall a ensures Get(s'.credit, a) <= Get(s'.deposits, a) {
      assert Get(s.credit, a) <= Get(s.deposits, a);
    }
  }

  /**
   * Depositing an amount for oneself and withdrawing it again restores the
   * account's deposits and credit and every token balance.
   */
  lemma DepositWithdrawRoundTrip(s: BankState, bank: Address, token: Address, account: Address, amount: nat)
    requires AfterDepositFor(s, bank, token, account, account, amount).Success?
    ensures var s1 := AfterDepositFor(s, bank, token, account, account, amount).value;
      var s2 := AfterWithdrawTo(s1, bank, token, account, account, amount);
      && s2.Success?
      && (forall a :: Get(s2.value.deposits, a) == Get(s.deposits, a))
      && (forall a :: Get(s2.value.credit, a) == Get(s.credit, a))
      && (forall t, h :: BalanceOf(s2.value.balances, t, h) == BalanceOf(s.balances, t, h))
  {
    var s1 := AfterDepositFor(s, bank, token, account, account, amount).value;
    assert BalanceOf(s1.balances, token, bank) >= amount by {
      assert BalanceOf(s1.balances, token, bank) == BalanceOf(s.balances, token, bank) + Flow(token, account, bank, amount, token, bank);
    }
    var s2 := AfterWithdrawTo(s1, bank, token, account, account, amount);
    assert s2.Success?;
    forall a ensures Get(s2.value.deposits, a) == Get(s.deposits, a) && Get(s2.value.credit, a) == Get(s.credit, a) {
      if a != account {
        assert Get(s1.deposits, a) == Get(s.deposits, a) && Get(s1.credit, a) == Get(s.credit, a);
      }
    }
    forall t, h ensures BalanceOf(s2.value.balances, t, h) == BalanceOf(s.balances, t, h) {
      assert BalanceOf(s2.value.balances, t, h) == BalanceOf(s1.balances, t, h) + Flow(token, bank, account, amount, t, h);
      assert BalanceOf(s1.balances, t, h) == BalanceOf(s.balances, t, h) + Flow(token, account, bank, amount, t, h);
      FlowOpposite(token, account, bank, amount, t, h);
    }
  }

  /** Nobody has deposits or credit yet. */
  ghost predicate Empty(s: BankState) {
    forall a :: Get(s.deposits, a) == 0 && Get(s.credit, a) == 0
  }

  /**
   * Two accounts each depositing for themselves into an empty bank: each ends up with
   * its own amount as deposits and as credit, untouched by the other's deposit.
   */
  lemma TwoDeposits(s: BankState, bank: Address, token: Address, addr0: Address, addr1: Address, amount0: nat, amount1: nat)
    requires Empty(s) && addr0 != addr1
    requires amount0 <= BalanceOf(s.balances, token, addr0) && amount1 <= BalanceOf(s.balances, token, addr1)
    ensures var s1 := AfterDepositFor(s, bank, token, addr0, addr0, amount0);
      && s1.Success?
      && var s2 := AfterDepositFor(s1.value, bank, token, addr1, addr1, amount1);
      && s2.Success?
      && Get(s2.value.deposits, addr0) == amount0 && Get(s2.value.credit, addr0) == amount0
      && Get(s2.value.deposits, addr1) == amount1 && Get(s2.value.credit, addr1) == amount1
  {
    var s1 := AfterDepositFor(s, bank, token, addr0, addr0, amount0).value;
    assert BalanceOf(s1.balances, token, addr1) == BalanceOf(s.balances, token, addr1) + Flow(token, addr0, bank, amount0, token, addr1);
  }

  /**
   * After depositing into an empty bank, withdrawing part of it to another account
   * lowers the depositor's credit by that part; the recipient gets no credit.
   */
  lemma DepositThenWithdrawTo(s: BankState, bank: Address, token: Address, owner: Address, recipient: Address, deposit: nat, amount: nat)
    requires Empty(s) && owner != recipient
    requires deposit <= BalanceOf(s.balances, token, owner) && amount <= deposit
    ensures var s1 := AfterDepositFor(s, bank, token, owner, owner, deposit);
      && s1.Success?
      && Get(s1.value.credit, owner) == deposit
      && var s2 := AfterWithdrawTo(s1.value, bank, token, owner, recipient, amount);
      && s2.Success?
      && Get(s2.value.credit, owner) == deposit - amount
      && Get(s2.value.credit, recipient) == 0
  {
    var s1 := AfterDepositFor(s, bank, token, owner, owner, deposit).value;
    assert BalanceOf(s1.balances, token, bank) >= amount by {
      assert BalanceOf(s1.balances, token, bank) == BalanceOf(s.balances, token, bank) + Flow(token, owner, bank, deposit, token, bank);
    }
  }

  /** The FeeBank contract: its own address, the fee token, its charger and the deposits it records. */
  class FeeBank {
    const address: Address
    const token: Address
    const charger: FeeBankCharger
    var deposits: Credits

    /** The bank is its charger's only writer and covers every account's credit. */
    ghost predicate Valid()
      reads this, charger
    {
      charger.feeBank == address && Covered(deposits, charger.credit)
    }

    constructor(address: Address, token: Address, charger: FeeBankCharger)
      requires charger.feeBank == address && forall a :: Get(charger.credit, a) == 0
      ensures this.address == address && this.token == token && this.charger == charger
      ensures forall a :: Get(deposits, a) == 0
      ensures Valid()
    {
      this.address := address;
      this.token := token;
      this.charger := charger;
      deposits := map[];
    }

    function State(tokens: TokenLedger): BankState
      reads this, charger, tokens
    {
      BankState(deposits, charger.credit, tokens.balances)
    }

    /** The deposits recorded for `account`; while the bank is valid they cover its credit. */
    function AccountDeposits(account: Address): (r: nat)
      reads this, charger
      ensures Valid() ==> charger.AvailableCredit(account) <= r
    {
      Get(deposits, account)
    }

    /** `depositFor(account, amount)` sent by `caller`; returns the account's new credit. */
    method DepositFor(tokens: TokenLedger, caller: Address, account: Address, amount: nat) returns (r: Result<nat, Error>)
      requires Valid()
      modifies this, charger, tokens
      ensures Valid()
      ensures var s := AfterDepositFor(old(State(tokens)), address, token, caller, account, amount);
        if s.Success? then State(tokens) == s.value && r == Success(charger.AvailableCredit(account))
        else State(tokens) == old(State(tokens)) && r == Failure(s.error)
    {
      var b := Transfer(tokens.balances, token, caller, address, amount);
      if b.Failure? {
        return Failure(b.error);
      }
      DepositKeepsCovered(State(tokens), address, token, caller, account, amount);
      tokens.balances := b.value;
      deposits := Add(deposits, account, amount);
      r := charger.IncreaseAvailableCredit(address, account, amount);
    }

    /** `deposit(amount)`: a deposit the caller makes for itself. */
    method Deposit(tokens: TokenLedger, caller: Address, amount: nat) returns (r: Result<nat, Error>)
      requires Valid()
      modifies this, charger, tokens
      ensures Valid()
      ensures var s := AfterDepositFor(old(State(tokens)), address, token, caller, caller, amount);
        if s.Success? then State(tokens) == s.value && r == Success(charger.AvailableCredit(caller))
        else State(tokens) == old(State(tokens)) && r == Failure(s.error)
    {
      r := DepositFor(tokens, caller, caller, amount);
    }

    /** `depositForWithPermit(account, amount, permit)`; the permit's validity is an input. */
    method DepositForWithPermit(tokens: TokenLedger, caller: Address, account: Address, amount: nat, permitValid: bool) returns (r: Result<nat, Error>)
      requires Valid()
      modifies this, charger, tokens
      ensures Valid()
      ensures var s := AfterDepositForWithPermit(old(State(tokens)), address, token, caller, account, amount, permitValid);
        if s.Success? then State(tokens) == s.value && r == Success(charger.AvailableCredit(account))
        else State(tokens) == old(State(tokens)) && r == Failure(s.error)
    {
      if !permitValid {
        return Failure(InvalidPermit);
      }
      r := DepositFor(tokens, caller, account, amount);
    }

    /** `depositWithPermit(amount, permit)`: a permit deposit the caller makes for itself. */
    method DepositWithPermit(tokens: TokenLedger, caller: Address, amount: nat, permitValid: bool) returns (r: Result<nat, Error>)
      requires Valid()
      modifies this, charger, tokens
      ensures Valid()
      ensures var s := AfterDepositForWithPermit(old(State(tokens)), address, token, caller, caller, amount, permitValid);
        if s.Success? then State(tokens) == s.value && r == Success(charger.AvailableCredit(caller))
        else State(tokens) == old(State(tokens)) && r == Failure(s.error)
    {
      r := DepositForWithPermit(tokens, caller, caller, amount, permitValid);
    }

    /** `withdrawTo(recipient, amount)` sent by `caller`; returns the caller's remaining credit. */
    method WithdrawTo(tokens: TokenLedger, caller: Address, recipient: Address, amount: nat) returns (r: Result<nat, Error>)
      requires Valid()
      modifies this, charger, tokens
      ensures Valid()
      ensures var s := AfterWithdrawTo(old(State(tokens)), address, token, caller, recipient, amount);
        if s.Success? then State(tokens) == s.value && r == Success(charger.AvailableCredit(caller))
        else State(tokens) == old(State(tokens)) && r == Failure(s.error)
    {
      if amount > Get(charger.credit, caller) || amount > Get(deposits, caller) {
        return Failure(ArithmeticUnderflow);
      }
      var b := Transfer(tokens.balances, token, address, recipient, amount);
      if b.Failure? {
        return Failure(b.error);
      }
      WithdrawKeepsCovered(State(tokens), address, token, caller, recipient, amount);
      r := charger.DecreaseAvailableCredit(address, caller, amount);
      deposits := Sub(deposits, caller, amount, ArithmeticUnderflow).value;
      tokens.balances := b.value;
    }
  }

  /**
   * Deploying a FeeBankCharger creates its FeeBank at `feeBankAddress`; that bank is the
   * charger's only authorised writer, and nobody has deposits or credit yet.
   */
  method DeployFeeBankCharger(token: Address, feeBankAddress: Address) returns (charger: FeeBankCharger, bank: FeeBank)
    ensures fresh(charger) && fresh(bank)
    ensures bank.charger == charger && charger.feeBank == bank.address && bank.address == feeBankAddress
    ensures bank.token == token && bank.Valid()
    ensures forall a :: charger.AvailableCredit(a) == 0 && bank.AccountDeposits(a) == 0
  {
    charger := new FeeBankCharger(feeBankAddress);
    bank := new FeeBank(feeBankAddress, token, charger);
  }
}
