/**
 * ERC-20 balances as the settlement and the fee bank see them: a balance per
 * (token, holder), and transfers that fail when the sender's balance is short.
 * Allowances and approvals are not part of this model.
 */
module Tokens {
  import opened Bytes
  import opened Wrappers
  import opened FusionTypes

  datatype Holding = Holding(token: Address, holder: Address)

  /** Balances by token and holder; a missing entry is a zero balance. */
  type Balances = map<Holding, nat>

  function BalanceOf(b: Balances, token: Address, holder: Address): nat {
    if Holding(token, holder) in b then b[Holding(token, holder)] else 0
  }

  /** The change that moving `amount` of `token` from `from` to `to` makes to `holder`'s balance of `t`. */
  function Flow(token: Address, from: Address, to: Address, amount: nat, t: Address, holder: Address): int {
    if t != token || from == to then 0
    else if holder == from then -(amount as int)
    else if holder == to then amount
    else 0
  }

  /**
   * `transferFrom`: succeeds exactly when the sender holds `amount`, and then the
   * sender loses and the receiver gains `amount` of that token, nothing else changes.
   */
  function Transfer(b: Balances, token: Address, from: Address, to: Address, amount: nat): (r: Result<Balances, Error>)
    ensures r.Success? <==> amount <= BalanceOf(b, token, from)
    ensures r.Failure? ==> r.error == TransferFailed
    ensures r.Success? ==> forall t, h :: BalanceOf(r.value, t, h) == BalanceOf(b, t, h) + Flow(token, from, to, amount, t, h)
  {
    var have := BalanceOf(b, token, from);
    if have < amount then Failure(TransferFailed)
    else if from == to then Success(b)
    else
      var b1 := b[Holding(token, from) := have - amount];
      Success(b1[Holding(token, to) := BalanceOf(b1, token, to) + amount])
  }

  /** The flows of a move and of the move back cancel. */
  lemma FlowOpposite(token: Address, from: Address, to: Address, amount: nat, t: Address, holder: Address)
    ensures Flow(token, from, to, amount, t, holder) + Flow(token, to, from, amount, t, holder) == 0
  {
  }

  // ---------------------------------------------------------------- supply

  predicate Distinct(hs: seq<Address>) {
    forall i, j :: 0 <= i < j < |hs| ==> hs[i] != hs[j]
  }

  /** The sum of the balances of `t` held by `hs`. */
  function Total(b: Balances, t: Address, hs: seq<Address>): nat {
    if hs == [] then 0 else BalanceOf(b, t, hs[0]) + Total(b, t, hs[1..])
  }

  function FlowSum(token: Address, from: Address, to: Address, amount: nat, t: Address, hs: seq<Address>): int {
    if hs == [] then 0 else Flow(token, from, to, amount, t, hs[0]) + FlowSum(token, from, to, amount, t, hs[1..])
  }

  /** Over distinct holders a transfer adds `amount` if they include the receiver and removes it if they include the sender. */
  lemma {:induction false} FlowSumValue(token: Address, from: Address, to: Address, amount: nat, t: Address, hs: seq<Address>)
    requires Distinct(hs)
    ensures FlowSum(token, from, to, amount, t, hs)
         == if t != token || from == to then 0
            else (if to in hs then amount else 0) - (if from in hs then amount else 0)
  {
    if hs != [] {
      assert Distinct(hs[1..]) by {
        forall i, j | 0 <= i < j < |hs[1..]| ensures hs[1..][i] != hs[1..][j] {
          assert hs[1..][i] == hs[i + 1] && hs[1..][j] == hs[j + 1];
        }
      }
      FlowSumValue(token, from, to, amount, t, hs[1..]);
      assert hs[0] !in hs[1..] by {
        forall k | 0 <= k < |hs[1..]| ensures hs[1..][k] != hs[0] {
          assert hs[1..][k] == hs[k + 1];
        }
      }
      assert to in hs <==> to == hs[0] || to in hs[1..];
      assert from in hs <==> from == hs[0] || from in hs[1..];
    }
  }

  lemma {:induction false} TotalAfterTransfer(b: Balances, token: Address, from: Address, to: Address, amount: nat, t: Address, hs: seq<Address>)
    requires Transfer(b, token, from, to, amount).Success?
    ensures Total(Transfer(b, token, from, to, amount).value, t, hs)
         == Total(b, t, hs) + FlowSum(token, from, to, amount, t, hs)
  {
    if hs != [] {
      TotalAfterTransfer(b, token, from, to, amount, t, hs[1..]);
    }
  }

  /** A transfer between two of a set of holders leaves their combined holding of every token unchanged. */
  lemma TransferConserves(b: Balances, token: Address, from: Address, to: Address, amount: nat, t: Address, hs: seq<Address>)
    requires Transfer(b, token, from, to, amount).Success?
    requires Distinct(hs) && from in hs && to in hs
    ensures Total(Transfer(b, token, from, to, amount).value, t, hs) == Total(b, t, hs)
  {
    TotalAfterTransfer(b, token, from, to, amount, t, hs);
    FlowSumValue(token, from, to, amount, t, hs);
  }

  // ---------------------------------------------------------------- the ledger object

  /** The token contracts' combined state, updated in place by the fee bank and the settlement. */
  class TokenLedger {
    var balances: Balances

    constructor(initial: Balances)
      ensures balances == initial
    {
      balances := initial;
    }

    function Balance(token: Address, holder: Address): nat
      reads this
    {
      BalanceOf(balances, token, holder)
    }
  }
}
