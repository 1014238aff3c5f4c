/**
 * The settlement engine: a resolver's chain of order fills, each priced by its
 * auction, gated by the whitelist time lock and charged its fee, applied all at
 * once or not at all.
 *
 * One fill runs in the order the limit-order protocol drives it: the maker asset
 * moves from the maker to the resolver, the resolver's interaction runs (the
 * next fill of the chain, or for the innermost fill the resolver's own token
 * calls), the taker asset moves from the resolver to the maker, and the
 * post-interaction hook checks the whitelist and takes the fee.
 */
module SettlementEngine {
  import opened Arithmetic
  import opened Bytes
  import opened Wrappers
  import opened FusionTypes
  import opened AuctionCurve
  import opened FusionUtils
  import opened Tokens
  import opened CreditLedger

  /** Credit units charged per unit of resolver fee rate on a full fill (0.001 of the fee token). */
  const BASE_POINTS: nat := 1_000_000_000_000_000

  /** The integrator fee rate is in units of 1e-9 of the taking amount. */
  const TAKING_FEE_BASE: nat := 1_000_000_000

  datatype Order = Order(maker: Address, makerAsset: Address, takerAsset: Address, makingAmount: nat, takingAmount: nat)

  /**
   * One fill of a chain: the order, its decoded auction and post-interaction data,
   * the resolver's whitelist delay as the whitelist registry reports it, the fill mode
   * and the amount to fill (of the maker asset in making mode, else of the taker asset).
   */
  datatype Fill = Fill(
    order: Order,
    auction: AuctionDetails,
    post: PostInteraction,
    resolverDelay: nat,
    isMakingAmount: bool,
    fillingAmount: nat)

  /** A token call the resolver makes in its innermost interaction, such as `transferFrom`. */
  datatype Call = Call(token: Address, from: Address, to: Address, amount: nat)

  /** A chain of fills: each outer fill's interaction is the next fill; the innermost one runs the resolver's calls. */
  datatype Chain =
    | Innermost(fill: Fill, calls: seq<Call>)
    | Outer(fill: Fill, next: Chain)

  /** Everything a settlement can change: the credit ledger and token balances. */
  datatype World = World(credit: Credits, balances: Balances)

  /** What one fill moves: `making` of the maker asset and `taking` of the taker asset. */
  datatype Amounts = Amounts(making: nat, taking: nat)

  /**
   * The amounts of a fill at time `now`: the filling amount on its own side, the other
   * side priced by the order's rate with the auction's bump. An order with a zero
   * amount cannot be priced.
   */
  function FillAmounts(f: Fill, now: nat): (r: Result<Amounts, Error>)
    ensures r.Success? <==> f.order.makingAmount > 0 && f.order.takingAmount > 0
    ensures r.Failure? ==> r.error == DivisionByZero
    ensures r.Success? && f.isMakingAmount ==> r.value.making == f.fillingAmount
    ensures r.Success? && !f.isMakingAmount ==> r.value.taking == f.fillingAmount
  {
    var o := f.order;
    if o.makingAmount == 0 || o.takingAmount == 0 then Failure(DivisionByZero)
    else
      var bump := RateBump(f.auction, now);
      if f.isMakingAmount then Success(Amounts(f.fillingAmount, TakingAmount(o.makingAmount, o.takingAmount, f.fillingAmount, bump)))
      else Success(Amounts(MakingAmount(o.makingAmount, o.takingAmount, f.fillingAmount, bump), f.fillingAmount))
  }

  /**
   * A fill that takes a whole order in taking mode at the bumped price pays that
   * price and receives the whole making amount.
   */
  lemma FullFillAtBumpedPrice(f: Fill, now: nat)
    requires f.order.makingAmount > 0 && f.order.takingAmount > 0 && !f.isMakingAmount
    requires var bump := RateBump(f.auction, now);
      f.fillingAmount * RATE_BUMP_BASE == f.order.takingAmount * (RATE_BUMP_BASE + bump)
    ensures FillAmounts(f, now) == Success(Amounts(f.order.makingAmount, f.fillingAmount))
  {
    var bump := RateBump(f.auction, now);
    var o := f.order;
    var k := o.takingAmount * (RATE_BUMP_BASE + bump);
    assert o.makingAmount * f.fillingAmount * RATE_BUMP_BASE == o.makingAmount * k;
    MulDivCancel(o.makingAmount, k);
  }

  // ---------------------------------------------------------------- fees

  /**
   * The resolver fee a fill charges on credit: `rate` times BASE_POINTS, scaled by
   * the share of the order's making amount that is filled, rounded down. A full
   * fill is charged exactly `rate` times BASE_POINTS, and no fill more.
   */
  function ResolverFeeAmount(rate: nat, making: nat, orderMaking: nat): (r: nat)
    requires orderMaking > 0
    ensures r * orderMaking <= rate * BASE_POINTS * making < (r + 1) * orderMaking
    ensures making <= orderMaking ==> r <= rate * BASE_POINTS
    ensures making == orderMaking ==> r == rate * BASE_POINTS
  {
    ShareOf(rate * BASE_POINTS, making, orderMaking);
    rate * BASE_POINTS * making / orderMaking
  }

  /** Filling more of an order never lowers the fee, and no fill is charged more than a full fill. */
  lemma FeeMonotone(rate: nat, m1: nat, m2: nat, orderMaking: nat)
    requires orderMaking > 0 && m1 <= m2
    ensures ResolverFeeAmount(rate, m1, orderMaking) <= ResolverFeeAmount(rate, m2, orderMaking)
    ensures m2 <= orderMaking ==> ResolverFeeAmount(rate, m2, orderMaking) <= rate * BASE_POINTS
  {
    var c := rate * BASE_POINTS;
    MulMonotone(m1, m2, c);
    DivMonotone(c * m1, c * m2, orderMaking);
  }

  /**
   * A fill whose share of the order is worth less than one unit of credit is
   * charged nothing.
   */
  lemma SmallFillPaysNothing(rate: nat, making: nat, orderMaking: nat)
    requires orderMaking > 0 && rate * BASE_POINTS * making < orderMaking
    ensures ResolverFeeAmount(rate, making, orderMaking) == 0
  {
  }

  /**
   * The integrator fee: `rate` billionths of the taking amount, rounded down; a rate
   * of at most one billion never takes more than the whole taking amount.
   */
  function IntegratorFeeAmount(taking: nat, rate: nat): (r: nat)
    ensures r * TAKING_FEE_BASE <= taking * rate < (r + 1) * TAKING_FEE_BASE
    ensures rate <= TAKING_FEE_BASE ==> r <= taking
  {
    ShareOf(taking, rate, TAKING_FEE_BASE);
    taking * rate / TAKING_FEE_BASE
  }

  // ---------------------------------------------------------------- one fill

  /** The whitelist time lock: a resolver may settle from the auction start plus its delay on. */
  predicate WhitelistAllows(f: Fill, now: nat) {
    now >= f.post.auctionStartTime + f.resolverDelay
  }

  /** The time lock opens once: a resolver refused now was refused at every earlier time, and one allowed stays allowed. */
  lemma WhitelistOpensOnce(f: Fill, t1: nat, t2: nat)
    requires t1 <= t2
    ensures WhitelistAllows(f, t1) ==> WhitelistAllows(f, t2)
    ensures !WhitelistAllows(f, t2) ==> !WhitelistAllows(f, t1)
  {
  }

  /** The resolver credit one fill charges. */
  function FeeCharged(f: Fill, a: Amounts): nat
    requires f.order.makingAmount > 0
  {
    if f.post.fee.ResolverFee? then ResolverFeeAmount(f.post.fee.rate, a.making, f.order.makingAmount) else 0
  }

  /**
   * The post-interaction hook: the whitelist check first, then the fee: a resolver
   * fee charged on the resolver's credit, or an integrator fee paid by the resolver
   * to the integrator in the taker asset.
   */
  function PostInteractionHook(w: World, resolver: Address, f: Fill, a: Amounts, now: nat): (r: Result<World, Error>)
    requires f.order.makingAmount > 0
    ensures !WhitelistAllows(f, now) ==> r == Failure(ResolverIsNotWhitelisted)
    ensures r.Success? ==> Get(r.value.credit, resolver) + FeeCharged(f, a) == Get(w.credit, resolver)
    ensures r.Success? ==> forall x :: x != resolver ==> Get(r.value.credit, x) == Get(w.credit, x)
    ensures r.Success? && !f.post.fee.IntegratorFee? ==> r.value.balances == w.balances
    ensures r.Failure? ==> r.error in {ResolverIsNotWhitelisted, NotEnoughCredit, TransferFailed}
    ensures WhitelistAllows(f, now) && f.post.fee.NoFee? ==> r == Success(w)
    ensures WhitelistAllows(f, now) && f.post.fee.ResolverFee? ==>
      (r.Success? <==> FeeCharged(f, a) <= Get(w.credit, resolver)) && (r.Failure? ==> r.error == NotEnoughCredit)
    ensures WhitelistAllows(f, now) && f.post.fee.IntegratorFee? ==>
      var fee := IntegratorFeeAmount(a.taking, f.post.fee.rate);
      && (r.Success? <==> fee <= BalanceOf(w.balances, f.order.takerAsset, resolver))
      && (r.Failure? ==> r.error == TransferFailed)
      && (r.Success? ==> r.value.credit == w.credit)
      && (r.Success? ==>
            forall t, h :: BalanceOf(r.value.balances, t, h)
              == BalanceOf(w.balances, t, h) + Flow(f.order.takerAsset, resolver, f.post.fee.integrator, fee, t, h))
  {
    if !WhitelistAllows(f, now) then Failure(ResolverIsNotWhitelisted)
    else match f.post.fee
      case NoFee => Success(w)
      case ResolverFee(rate) =>
        var c :- ChargeFee(w.credit, resolver, FeeCharged(f, a));
        Success(World(c, w.balances))
      case IntegratorFee(integrator, rate) =>
        var b :- Transfer(w.balances, f.order.takerAsset, resolver, integrator, IntegratorFeeAmount(a.taking, rate));
        Success(World(w.credit, b))
  }

  /** A whitelisted fill with an integrator fee whose payment succeeds leaves exactly that payment's balances, credit untouched. */
  lemma HookPaysIntegrator(w: World, resolver: Address, f: Fill, a: Amounts, now: nat, b: Balances)
    requires f.order.makingAmount > 0 && WhitelistAllows(f, now) && f.post.fee.IntegratorFee?
    requires Transfer(w.balances, f.order.takerAsset, resolver, f.post.fee.integrator,
                      IntegratorFeeAmount(a.taking, f.post.fee.rate)) == Success(b)
    ensures PostInteractionHook(w, resolver, f, a, now) == Success(World(w.credit, b))
  {
  }

  /** The resolver's own token calls, one after another; the first that fails aborts. */
  function RunCalls(b: Balances, calls: seq<Call>): (r: Result<Balances, Error>)
    ensures r.Failure? ==> r.error == TransferFailed
    decreases |calls|
  {
    if calls == [] then Success(b)
    else
      var c := calls[0];
      var b1 :- Transfer(b, c.token, c.from, c.to, c.amount);
      RunCalls(b1, calls[1..])
  }

  /**
   * Settles `chain` for `resolver` at time `now`: the new world, or the error that
   * aborts the whole chain. A settlement can only fail for an unpriceable order, a
   * short balance, short credit or a closed time lock.
   */
  function Settle(w: World, resolver: Address, chain: Chain, now: nat): (r: Result<World, Error>)
    ensures r.Failure? ==> r.error in {DivisionByZero, TransferFailed, NotEnoughCredit, ResolverIsNotWhitelisted}
    decreases chain
  {
    var f := chain.fill;
    var a :- FillAmounts(f, now);
    var b1 :- Transfer(w.balances, f.order.makerAsset, f.order.maker, resolver, a.making);
    var w2 :- if chain.Innermost? then
        var b2 :- RunCalls(b1, chain.calls);
        Success(World(w.credit, b2))
      else Settle(World(w.credit, b1), resolver, chain.next, now);
    var b3 :- Transfer(w2.balances, f.order.takerAsset, resolver, f.order.maker, a.taking);
    PostInteractionHook(World(w2.credit, b3), resolver, f, a, now)
  }

  /** One fill of a chain whose transfers and interaction succeed ends in its post-interaction hook. */
  lemma SettleStep(w: World, resolver: Address, chain: Chain, now: nat, a: Amounts, b1: Balances, w2: World, b3: Balances)
    requires FillAmounts(chain.fill, now) == Success(a)
    requires Transfer(w.balances, chain.fill.order.makerAsset, chain.fill.order.maker, resolver, a.making) == Success(b1)
    requires chain.Innermost? ==> RunCalls(b1, chain.calls) == Success(w2.balances) && w2.credit == w.credit
    requires chain.Outer? ==> Settle(World(w.credit, b1), resolver, chain.next, now) == Success(w2)
    requires Transfer(w2.balances, chain.fill.order.takerAsset, resolver, chain.fill.order.maker, a.taking) == Success(b3)
    ensures Settle(w, resolver, chain, now) == PostInteractionHook(World(w2.credit, b3), resolver, chain.fill, a, now)
  {
  }

  /** An outer fill whose nested fill fails fails with the same error. */
  lemma SettleNestedFailure(w: World, resolver: Address, chain: Chain, now: nat, a: Amounts, b1: Balances)
    requires chain.Outer?
    requires FillAmounts(chain.fill, now) == Success(a)
    requires Transfer(w.balances, chain.fill.order.makerAsset, chain.fill.order.maker, resolver, a.making) == Success(b1)
    requires Settle(World(w.credit, b1), resolver, chain.next, now).Failure?
    ensures Settle(w, resolver, chain, now) == Failure(Settle(World(w.credit, b1), resolver, chain.next, now).error)
  {
  }

  /**
   * A chain of two fills whose first three transfers succeed: the inner fill's hook
   * runs first, and its failure aborts the whole chain before the outer fill is paid.
   */
  lemma SettleTwoFills(w: World, resolver: Address, chain: Chain, now: nat, a0: Amounts, a1: Amounts,
                       b1: Balances, b2: Balances, b3: Balances)
    requires chain.Outer? && chain.next.Innermost? && chain.next.calls == []
    requires FillAmounts(chain.fill, now) == Success(a0)
    requires FillAmounts(chain.next.fill, now) == Success(a1)
    requires Transfer(w.balances, chain.fill.order.makerAsset, chain.fill.order.maker, resolver, a0.making) == Success(b1)
    requires Transfer(b1, chain.next.fill.order.makerAsset, chain.next.fill.order.maker, resolver, a1.making) == Success(b2)
    requires Transfer(b2, chain.next.fill.order.takerAsset, resolver, chain.next.fill.order.maker, a1.taking) == Success(b3)
    ensures var inner := PostInteractionHook(World(w.credit, b3), resolver, chain.next.fill, a1, now);
      Settle(w, resolver, chain, now) ==
        if inner.Failure? then Failure(inner.error)
        else match Transfer(inner.value.balances, chain.fill.order.takerAsset, resolver, chain.fill.order.maker, a0.taking)
          case Failure(e) => Failure(e)
          case Success(b4) => PostInteractionHook(World(inner.value.credit, b4), resolver, chain.fill, a0, now)
  {
    assert RunCalls(b2, []) == Success(b2);
    SettleStep(World(w.credit, b1), resolver, chain.next, now, a1, b2, World(w.credit, b2), b3);
    var inner := PostInteractionHook(World(w.credit, b3), resolver, chain.next.fill, a1, now);
    if inner.Failure? {
      SettleNestedFailure(w, resolver, chain, now, a0, b1);
    } else {
      var t := Transfer(inner.value.balances, chain.fill.order.takerAsset, resolver, chain.fill.order.maker, a0.taking);
      if t.Success? {
        SettleStep(w, resolver, chain, now, a0, b1, inner.value, t.value);
      }
    }
  }

  /** A chain of two fills whose transfers and hooks all succeed ends in the outer hook's world. */
  lemma SettleTwoFillsOk(w: World, resolver: Address, chain: Chain, now: nat, a0: Amounts, a1: Amounts,
                         b1: Balances, b2: Balances, b3: Balances, inner: World, b4: Balances, out: World)
    requires chain.Outer? && chain.next.Innermost? && chain.next.calls == []
    requires FillAmounts(chain.fill, now) == Success(a0)
    requires FillAmounts(chain.next.fill, now) == Success(a1)
    requires Transfer(w.balances, chain.fill.order.makerAsset, chain.fill.order.maker, resolver, a0.making) == Success(b1)
    requires Transfer(b1, chain.next.fill.order.makerAsset, chain.next.fill.order.maker, resolver, a1.making) == Success(b2)
    requires Transfer(b2, chain.next.fill.order.takerAsset, resolver, chain.next.fill.order.maker, a1.taking) == Success(b3)
    requires PostInteractionHook(World(w.credit, b3), resolver, chain.next.fill, a1, now) == Success(inner)
    requires Transfer(inner.balances, chain.fill.order.takerAsset, resolver, chain.fill.order.maker, a0.taking) == Success(b4)
    requires PostInteractionHook(World(inner.credit, b4), resolver, chain.fill, a0, now) == Success(out)
    ensures Settle(w, resolver, chain, now) == Success(out)
  {
    SettleTwoFills(w, resolver, chain, now, a0, a1, b1, b2, b3);
  }

  /**
   * Two whitelisted fills with integrator fees, whose transfers and fee payments all
   * succeed, settle on the balances after the last fee payment, credit untouched.
   */
  lemma SettleTwoIntegratorFills(w: World, resolver: Address, chain: Chain, now: nat, a0: Amounts, a1: Amounts,
                                 b1: Balances, b2: Balances, b3: Balances, bi: Balances, b4: Balances, bf: Balances)
    requires chain.Outer? && chain.next.Innermost? && chain.next.calls == []
    requires chain.fill.order.makingAmount > 0 && chain.next.fill.order.makingAmount > 0
    requires WhitelistAllows(chain.fill, now) && WhitelistAllows(chain.next.fill, now)
    requires chain.fill.post.fee.IntegratorFee? && chain.next.fill.post.fee.IntegratorFee?
    requires FillAmounts(chain.fill, now) == Success(a0)
    requires FillAmounts(chain.next.fill, now) == Success(a1)
    requires Transfer(w.balances, chain.fill.order.makerAsset, chain.fill.order.maker, resolver, a0.making) == Success(b1)
    requires Transfer(b1, chain.next.fill.order.makerAsset, chain.next.fill.order.maker, resolver, a1.making) == Success(b2)
    requires Transfer(b2, chain.next.fill.order.takerAsset, resolver, chain.next.fill.order.maker, a1.taking) == Success(b3)
    requires Transfer(b3, chain.next.fill.order.takerAsset, resolver, chain.next.fill.post.fee.integrator,
                      IntegratorFeeAmount(a1.taking, chain.next.fill.post.fee.rate)) == Success(bi)
    requires Transfer(bi, chain.fill.order.takerAsset, resolver, chain.fill.order.maker, a0.taking) == Success(b4)
    requires Transfer(b4, chain.fill.order.takerAsset, resolver, chain.fill.post.fee.integrator,
                      IntegratorFeeAmount(a0.taking, chain.fill.post.fee.rate)) == Success(bf)
    ensures Settle(w, resolver, chain, now) == Success(World(w.credit, bf))
  {
    HookPaysIntegrator(World(w.credit, b3), resolver, chain.next.fill, a1, now, bi);
    HookPaysIntegrator(World(w.credit, b4), resolver, chain.fill, a0, now, bf);
    SettleTwoFillsOk(w, resolver, chain, now, a0, a1, b1, b2, b3, World(w.credit, bi), b4, World(w.credit, bf));
  }

  /**
   * Two whitelisted fills with resolver fees, whose transfers all succeed, fail with
   * NotEnoughCredit when the resolver's credit is below the two fees together.
   */
  lemma SettleTwoFillsShort(w: World, resolver: Address, chain: Chain, now: nat, a0: Amounts, a1: Amounts,
                            b1: Balances, b2: Balances, b3: Balances, b4: Balances)
    requires chain.Outer? && chain.next.Innermost? && chain.next.calls == []
    requires FillAmounts(chain.fill, now) == Success(a0)
    requires FillAmounts(chain.next.fill, now) == Success(a1)
    requires Transfer(w.balances, chain.fill.order.makerAsset, chain.fill.order.maker, resolver, a0.making) == Success(b1)
    requires Transfer(b1, chain.next.fill.order.makerAsset, chain.next.fill.order.maker, resolver, a1.making) == Success(b2)
    requires Transfer(b2, chain.next.fill.order.takerAsset, resolver, chain.next.fill.order.maker, a1.taking) == Success(b3)
    requires Transfer(b3, chain.fill.order.takerAsset, resolver, chain.fill.order.maker, a0.taking) == Success(b4)
    requires chain.fill.post.fee.ResolverFee? && chain.next.fill.post.fee.ResolverFee?
    requires WhitelistAllows(chain.fill, now) && WhitelistAllows(chain.next.fill, now)
    requires Get(w.credit, resolver) < FeeCharged(chain.fill, a0) + FeeCharged(chain.next.fill, a1)
    ensures Settle(w, resolver, chain, now) == Failure(NotEnoughCredit)
  {
    SettleTwoFills(w, resolver, chain, now, a0, a1, b1, b2, b3);
  }

  // ---------------------------------------------------------------- what a settlement guarantees

  /** The resolver credit the whole chain charges, when every fill can be priced. */
  function TotalResolverFee(chain: Chain, now: nat): nat
    decreases chain
  {
    var f := chain.fill;
    var here := match FillAmounts(f, now)
      case Success(a) => FeeCharged(f, a)
      case Failure(_) => 0;
    if chain.Innermost? then here else here + TotalResolverFee(chain.next, now)
  }

  /**
   * A settlement lowers the resolver's credit by exactly the fees of all its fills
   * and leaves every other account's credit alone.
   */
  lemma {:induction false} SettleCharges(w: World, resolver: Address, chain: Chain, now: nat)
    requires Settle(w, resolver, chain, now).Success?
    ensures var w' := Settle(w, resolver, chain, now).value;
      && Get(w'.credit, resolver) + TotalResolverFee(chain, now) == Get(w.credit, resolver)
      && forall x :: x != resolver ==> Get(w'.credit, x) == Get(w.credit, x)
    decreases chain
  {
    var f := chain.fill;
    var a := FillAmounts(f, now).value;
    var b1 := Transfer(w.balances, f.order.makerAsset, f.order.maker, resolver, a.making).value;
    if chain.Outer? {
      SettleCharges(World(w.credit, b1), resolver, chain.next, now);
    }
  }

  /** A resolver whose credit falls short of the chain's fees cannot settle it: nothing changes. */
  lemma NotEnoughCreditAborts(w: World, resolver: Address, chain: Chain, now: nat)
    requires Get(w.credit, resolver) < TotalResolverFee(chain, now)
    ensures Settle(w, resolver, chain, now).Failure?
  {
    if Settle(w, resolver, chain, now).Success? {
      SettleCharges(w, resolver, chain, now);
    }
  }

  /** Every fill of a settled chain passed the whitelist time lock. */
  predicate AllWhitelisted(chain: Chain, now: nat)
    decreases chain
  {
    WhitelistAllows(chain.fill, now) && (chain.Outer? ==> AllWhitelisted(chain.next, now))
  }

  lemma {:induction false} SettleGated(w: World, resolver: Address, chain: Chain, now: nat)
    requires Settle(w, resolver, chain, now).Success?
    ensures AllWhitelisted(chain, now)
    decreases chain
  {
    if chain.Outer? {
      var f := chain.fill;
      var a := FillAmounts(f, now).value;
      var b1 := Transfer(w.balances, f.order.makerAsset, f.order.maker, resolver, a.making).value;
      SettleGated(World(w.credit, b1), resolver, chain.next, now);
    }
  }

  /** Every account a chain moves tokens between is among `hs`. */
  predicate Involved(chain: Chain, resolver: Address, hs: seq<Address>)
    decreases chain
  {
    var f := chain.fill;
    && resolver in hs
    && f.order.maker in hs
    && (f.post.fee.IntegratorFee? ==> f.post.fee.integrator in hs)
    && (chain.Innermost? ==> forall i :: 0 <= i < |chain.calls| ==> chain.calls[i].from in hs && chain.calls[i].to in hs)
    && (chain.Outer? ==> Involved(chain.next, resolver, hs))
  }

  lemma {:induction false} RunCallsConserve(b: Balances, calls: seq<Call>, t: Address, hs: seq<Address>)
    requires RunCalls(b, calls).Success?
    requires Distinct(hs) && forall i :: 0 <= i < |calls| ==> calls[i].from in hs && calls[i].to in hs
    ensures Total(RunCalls(b, calls).value, t, hs) == Total(b, t, hs)
    decreases |calls|
  {
    if calls != [] {
      var c := calls[0];
      TransferConserves(b, c.token, c.from, c.to, c.amount, t, hs);
      var b1 := Transfer(b, c.token, c.from, c.to, c.amount).value;
      assert forall i :: 0 <= i < |calls[1..]| ==> calls[1..][i] == calls[i + 1];
      RunCallsConserve(b1, calls[1..], t, hs);
    }
  }

  lemma HookConserves(w: World, resolver: Address, f: Fill, a: Amounts, now: nat, t: Address, hs: seq<Address>)
    requires f.order.makingAmount > 0
    requires PostInteractionHook(w, resolver, f, a, now).Success?
    requires Distinct(hs) && resolver in hs && (f.post.fee.IntegratorFee? ==> f.post.fee.integrator in hs)
    ensures Total(PostInteractionHook(w, resolver, f, a, now).value.balances, t, hs) == Total(w.balances, t, hs)
  {
    if f.post.fee.IntegratorFee? {
      TransferConserves(w.balances, f.order.takerAsset, resolver, f.post.fee.integrator,
        IntegratorFeeAmount(a.taking, f.post.fee.rate), t, hs);
    }
  }

  /**
   * Conservation: a settled chain only moves tokens among the accounts it involves,
   * so their combined holding of every token is what it was.
   */
  lemma {:induction false} SettleConserves(w: World, resolver: Address, chain: Chain, now: nat, t: Address, hs: seq<Address>)
    requires Settle(w, resolver, chain, now).Success?
    requires Distinct(hs) && Involved(chain, resolver, hs)
    ensures Total(Settle(w, resolver, chain, now).value.balances, t, hs) == Total(w.balances, t, hs)
    decreases chain
  {
    var f := chain.fill;
    var a := FillAmounts(f, now).value;
    TransferConserves(w.balances, f.order.makerAsset, f.order.maker, resolver, a.making, t, hs);
    var b1 := Transfer(w.balances, f.order.makerAsset, f.order.maker, resolver, a.making).value;
    var w2: World;
    if chain.Innermost? {
      RunCallsConserve(b1, chain.calls, t, hs);
      w2 := World(w.credit, RunCalls(b1, chain.calls).value);
    } else {
      SettleConserves(World(w.credit, b1), resolver, chain.next, now, t, hs);
      w2 := Settle(World(w.credit, b1), resolver, chain.next, now).value;
    }
    TransferConserves(w2.balances, f.order.takerAsset, resolver, f.order.maker, a.taking, t, hs);
    var b3 := Transfer(w2.balances, f.order.takerAsset, resolver, f.order.maker, a.taking).value;
    HookConserves(World(w2.credit, b3), resolver, f, a, now, t, hs);
  }

  /**
   * The Settlement contract as far as settling goes: it is the FeeBankCharger whose
   * credit ledger the fees are charged on.
   */
  class Settlement {
    const charger: FeeBankCharger

    constructor(charger: FeeBankCharger)
      ensures this.charger == charger
    {
      this.charger := charger;
    }

    /**
     * `settleOrders` sent by `resolver` at time `now`: all fills of the chain take
     * effect, or on any error none does.
     */
    method SettleOrders(tokens: TokenLedger, resolver: Address, chain: Chain, now: nat) returns (r: Result<(), Error>)
      modifies charger, tokens
      ensures var out := Settle(old(World(charger.credit, tokens.balances)), resolver, chain, now);
        if out.Success? then
          r.Success? && charger.credit == out.value.credit && tokens.balances == out.value.balances
        else
          r == Failure(out.error) && charger.credit == old(charger.credit) && tokens.balances == old(tokens.balances)
      ensures r.Success? ==> AllWhitelisted(chain, now)
      ensures r.Success? ==> Get(charger.credit, resolver) + TotalResolverFee(chain, now) == old(Get(charger.credit, resolver))
    {
      var w := World(charger.credit, tokens.balances);
      var out := Settle(w, resolver, chain, now);
      if out.Failure? {
        return Failure(out.error);
      }
      SettleGated(w, resolver, chain, now);
      SettleCharges(w, resolver, chain, now);
      charger.credit := out.value.credit;
      tokens.balances := out.value.balances;
      r := Success(());
    }
  }
}
