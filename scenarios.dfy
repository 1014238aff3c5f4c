/**
 * The settlement test scenarios as facts about the model: auction prices at the
 * tested times, the fees charged for full, partial and one-wei fills, the
 * opposite-direction swap a resolver settles without capital, the credit
 * shortfall that aborts a chain, and the whitelist time lock.
 */
module Scenarios {
  import opened Arithmetic
  import opened Bytes
  import opened Wrappers
  import opened FusionTypes
  import opened AuctionCurve
  import opened FusionUtils
  import opened Tokens
  import opened CreditLedger
  import opened SettlementEngine

  const ETHER: nat := 1_000_000_000_000_000_000

  // ---------------------------------------------------------------- auction prices

  /** The taking amount for the whole 100-ether order priced at 0.1 ether, at bump `bump`. */
  function TestTaking(bump: nat): nat {
    TakingAmount(100 * ETHER, ETHER / 10, 100 * ETHER, bump)
  }

  /** An auction without points and without an initial bump never bumps the price. */
  lemma FlatAuction(start: nat, duration: nat, t: nat)
    ensures RateBump(AuctionDetails(start, duration, 0, []), t) == 0
  {
    var d := AuctionDetails(start, duration, 0, []);
    if start < t < FinishTime(d) {
      assert RateBump(d, t) == Interpolate(start, 0, FinishTime(d), 0, t);
    }
  }

  /** Before the start (here the start includes a 60-second delay) the price carries the whole initial bump. */
  lemma InitialBumpBeforeStart(start: nat, t: nat)
    requires t <= start + 60
    ensures TestTaking(RateBump(AuctionDetails(start + 60, 1800, 1_000_000, []), t)) == 11 * ETHER / 100
    ensures TestTaking(RateBump(AuctionDetails(start + 60, 1800, 2_000_000, []), t)) == 12 * ETHER / 100
  {
    FullFillTaking(100 * ETHER, ETHER / 10, 1_000_000);
    FullFillTaking(100 * ETHER, ETHER / 10, 2_000_000);
  }

  /** At the point 240 seconds in, the bump is the point's 900000: 0.109 ether. */
  lemma BumpAtPoint(start: nat)
    ensures RateBump(AuctionDetails(start, 1800, 0, [Point(900_000, 240)]), start + 240) == 900_000
    ensures TestTaking(900_000) == 109 * ETHER / 1000
  {
    CurveCanRise(start);
    FullFillTaking(100 * ETHER, ETHER / 10, 900_000);
  }

  /** Halfway to the point the bump is halfway between the initial bump and the point's: 0.1095 ether. */
  lemma BumpBeforePoint(start: nat)
    ensures RateBump(AuctionDetails(start, 1800, 1_000_000, [Point(900_000, 240)]), start + 120) == 950_000
    ensures TestTaking(950_000) == 1095 * ETHER / 10000
  {
    var d := AuctionDetails(start, 1800, 1_000_000, [Point(900_000, 240)]);
    assert RateBump(d, start + 120) == Interpolate(start, 1_000_000, start + 240, 900_000, start + 120);
    FullFillTaking(100 * ETHER, ETHER / 10, 950_000);
  }

  /** After the last point the bump falls linearly to 0 at the finish: 0.106 ether at 760 seconds. */
  lemma BumpAfterPoint(start: nat)
    ensures RateBump(AuctionDetails(start, 1800, 0, [Point(900_000, 240)]), start + 760) == 600_000
    ensures TestTaking(600_000) == 106 * ETHER / 1000
  {
    var d := AuctionDetails(start, 1800, 0, [Point(900_000, 240)]);
    assert RateBump(d, start + 760) == Interpolate(start + 240, 900_000, start + 1800, 0, start + 760);
    FullFillTaking(100 * ETHER, ETHER / 10, 600_000);
  }

  /** The second point's offset counts from the first point (1480 s in), so at 860 s the bump is 300000: 0.103 ether. */
  lemma BumpBetweenPoints(start: nat)
    ensures RateBump(AuctionDetails(start, 1800, 0, [Point(500_000, 240), Point(100_000, 1240)]), start + 860) == 300_000
    ensures TestTaking(300_000) == 103 * ETHER / 1000
  {
    var points := [Point(500_000, 240), Point(100_000, 1240)];
    assert points[1..] == [Point(100_000, 1240)];
    assert BumpFrom(start + 860, start + 240, 500_000, points[1..], start + 1800)
        == Interpolate(start + 240, 500_000, start + 1480, 100_000, start + 860);
    FullFillTaking(100 * ETHER, ETHER / 10, 300_000);
  }

  /** Halfway through a 900-second auction without points, half the initial bump remains: 0.105 ether. */
  lemma HalfwayThroughAuction(start: nat)
    ensures TestTaking(RateBump(AuctionDetails(start, 900, 1_000_000, []), start + 450)) == 105 * ETHER / 1000
  {
    NoPointsLinearDecay(AuctionDetails(start, 900, 1_000_000, []), 100 * ETHER, ETHER / 10, start + 450);
  }

  // ---------------------------------------------------------------- fees

  /** A 40% fill of the 10-ether order at fee 100 is charged (100 * 40 / 100) * BASE_POINTS. */
  lemma PartialFillFee()
    ensures ResolverFeeAmount(100, 4 * ETHER, 10 * ETHER) == 40 * BASE_POINTS
  {
  }

  /** A 1000-wei fill of the 10-ether order at fee 10 is charged exactly 1; 999 wei are charged nothing. */
  lemma TinyFillFee()
    ensures ResolverFeeAmount(10, 1000, 10 * ETHER) == 1
    ensures ResolverFeeAmount(10, 999, 10 * ETHER) == 0
  {
    SmallFillPaysNothing(10, 999, 10 * ETHER);
  }

  /** At integrator rate 1000000 the fee is 0.1 DAI of 100 DAI and 0.0001 WETH of 0.1 WETH. */
  lemma IntegratorFeeRates()
    ensures IntegratorFeeAmount(100 * ETHER, 1_000_000) == ETHER / 10
    ensures IntegratorFeeAmount(ETHER / 10, 1_000_000) == ETHER / 10000
  {
  }

  // ---------------------------------------------------------------- the opposite-direction swap

  /**
   * The two-order chain of the opposite-direction tests: `owner` sells 100 DAI for
   * 0.1 WETH; its interaction is the innermost fill of `alice`'s order selling
   * `aliceWeth` WETH for 100 DAI. Both fill whole orders on a flat auction starting
   * at `start`, by their making amounts or, when `makingMode` is false, by their
   * taking amounts.
   */
  function OppositeSwap(owner: Address, alice: Address, dai: Address, weth: Address, settlement: Address,
                        start: nat, fee0: FeeSpec, fee1: FeeSpec, aliceWeth: nat, makingMode: bool, whitelistData: seq<Byte>): Chain
  {
    var auction := AuctionDetails(start, 1800, 0, []);
    var leg0 := Fill(Order(owner, dai, weth, 100 * ETHER, ETHER / 10), auction,
                     PostInteraction(settlement, fee0, start, whitelistData), 0, makingMode,
                     if makingMode then 100 * ETHER else ETHER / 10);
    var leg1 := Fill(Order(alice, weth, dai, aliceWeth, 100 * ETHER), auction,
                     PostInteraction(settlement, fee1, start, whitelistData), 0, makingMode,
                     if makingMode then aliceWeth else 100 * ETHER);
    Outer(leg0, Innermost(leg1, []))
  }

  /** On the flat auction both legs fill whole in either mode: 100 DAI for 0.1 WETH, and `aliceWeth` WETH for 100 DAI. */
  lemma SwapAmounts(owner: Address, alice: Address, dai: Address, weth: Address, settlement: Address,
                    start: nat, fee0: FeeSpec, fee1: FeeSpec, aliceWeth: nat, makingMode: bool, whitelistData: seq<Byte>, now: nat)
    requires aliceWeth > 0
    ensures var chain := OppositeSwap(owner, alice, dai, weth, settlement, start, fee0, fee1, aliceWeth, makingMode, whitelistData);
      && chain.Outer? && chain.next.Innermost? && chain.next.calls == []
      && FillAmounts(chain.fill, now) == Success(Amounts(100 * ETHER, ETHER / 10))
      && FillAmounts(chain.next.fill, now) == Success(Amounts(aliceWeth, 100 * ETHER))
  {
    FlatAuction(start, 1800, now);
    FullFillTaking(100 * ETHER, ETHER / 10, 0);
    FullFillTaking(aliceWeth, 100 * ETHER, 0);
    MulDivCancel(ETHER / 10, RATE_BUMP_BASE);
    MulDivCancel(100 * ETHER, RATE_BUMP_BASE);
    FullFillMaking(100 * ETHER, ETHER / 10);
    FullFillMaking(aliceWeth, 100 * ETHER);
  }

  /**
   * The balance changes of the opposite-direction swap without fees: owner -100 DAI
   * +0.1 WETH, alice +100 DAI -`aliceWeth` WETH, and the resolver keeps the WETH
   * difference.
   */
  predicate SwapMoved(b: Balances, b': Balances, owner: Address, alice: Address, resolver: Address, dai: Address, weth: Address, aliceWeth: nat)
    requires aliceWeth >= ETHER / 10
  {
    && BalanceOf(b', dai, owner) + 100 * ETHER == BalanceOf(b, dai, owner)
    && BalanceOf(b', dai, alice) == BalanceOf(b, dai, alice) + 100 * ETHER
    && BalanceOf(b', dai, resolver) == BalanceOf(b, dai, resolver)
    && BalanceOf(b', weth, owner) == BalanceOf(b, weth, owner) + ETHER / 10
    && BalanceOf(b', weth, alice) + aliceWeth == BalanceOf(b, weth, alice)
    && BalanceOf(b', weth, resolver) == BalanceOf(b, weth, resolver) + (aliceWeth - ETHER / 10)
  }

  /** The swap moves DAI and WETH of nobody but the owner, alice and the resolver. */
  ghost predicate OthersUnmoved(b: Balances, b': Balances, owner: Address, alice: Address, resolver: Address, dai: Address, weth: Address) {
    forall h :: h != owner && h != alice && h != resolver ==>
      BalanceOf(b', dai, h) == BalanceOf(b, dai, h) && BalanceOf(b', weth, h) == BalanceOf(b, weth, h)
  }

  /**
   * The four transfers of the swap, in settlement order, succeed and move the
   * balances as `SwapMoved` says, and no one else's.
   */
  lemma SwapTransfers(b: Balances, owner: Address, alice: Address, resolver: Address, dai: Address, weth: Address, aliceWeth: nat)
    returns (b1: Balances, b2: Balances, b3: Balances, b4: Balances)
    requires owner != alice && owner != resolver && alice != resolver && dai != weth
    requires aliceWeth >= ETHER / 10
    requires BalanceOf(b, dai, owner) >= 100 * ETHER && BalanceOf(b, weth, alice) >= aliceWeth
    ensures Transfer(b, dai, owner, resolver, 100 * ETHER) == Success(b1)
    ensures Transfer(b1, weth, alice, resolver, aliceWeth) == Success(b2)
    ensures Transfer(b2, dai, resolver, alice, 100 * ETHER) == Success(b3)
    ensures Transfer(b3, weth, resolver, owner, ETHER / 10) == Success(b4)
    ensures SwapMoved(b, b4, owner, alice, resolver, dai, weth, aliceWeth)
    ensures OthersUnmoved(b, b4, owner, alice, resolver, dai, weth)
  {
    b1 := Transfer(b, dai, owner, resolver, 100 * ETHER).value;
    b2 := Transfer(b1, weth, alice, resolver, aliceWeth).value;
    assert BalanceOf(b2, dai, resolver) == BalanceOf(b, dai, resolver) + 100 * ETHER;
    b3 := Transfer(b2, dai, resolver, alice, 100 * ETHER).value;
    assert BalanceOf(b3, weth, resolver) == BalanceOf(b, weth, resolver) + aliceWeth;
    b4 := Transfer(b3, weth, resolver, owner, ETHER / 10).value;
  }

  /**
   * The opposite-direction swap, priced and with its four transfers done, in the
   * terms the two-fill settlement lemmas take.
   */
  lemma SwapSetup(w: World, owner: Address, alice: Address, resolver: Address, dai: Address, weth: Address,
                  settlement: Address, start: nat, fee0: FeeSpec, fee1: FeeSpec, aliceWeth: nat, makingMode: bool,
                  whitelistData: seq<Byte>, now: nat)
    returns (chain: Chain, a0: Amounts, a1: Amounts, b1: Balances, b2: Balances, b3: Balances, b4: Balances)
    requires owner != alice && owner != resolver && alice != resolver && dai != weth
    requires aliceWeth >= ETHER / 10
    requires BalanceOf(w.balances, dai, owner) >= 100 * ETHER && BalanceOf(w.balances, weth, alice) >= aliceWeth
    ensures chain == OppositeSwap(owner, alice, dai, weth, settlement, start, fee0, fee1, aliceWeth, makingMode, whitelistData)
    ensures a0 == Amounts(100 * ETHER, ETHER / 10) && a1 == Amounts(aliceWeth, 100 * ETHER)
    ensures chain.Outer? && chain.next.Innermost? && chain.next.calls == []
    ensures chain.fill.post.fee == fee0 && chain.next.fill.post.fee == fee1
    ensures chain.fill.order.makingAmount == 100 * ETHER && chain.next.fill.order.makingAmount == aliceWeth
    ensures WhitelistAllows(chain.fill, now) <==> now >= start
    ensures WhitelistAllows(chain.next.fill, now) <==> now >= start
    ensures FillAmounts(chain.fill, now) == Success(a0)
    ensures FillAmounts(chain.next.fill, now) == Success(a1)
    ensures Transfer(w.balances, chain.fill.order.makerAsset, chain.fill.order.maker, resolver, a0.making) == Success(b1)
    ensures Transfer(b1, chain.next.fill.order.makerAsset, chain.next.fill.order.maker, resolver, a1.making) == Success(b2)
    ensures Transfer(b2, chain.next.fill.order.takerAsset, resolver, chain.next.fill.order.maker, a1.taking) == Success(b3)
    ensures Transfer(b3, chain.fill.order.takerAsset, resolver, chain.fill.order.maker, a0.taking) == Success(b4)
    ensures SwapMoved(w.balances, b4, owner, alice, resolver, dai, weth, aliceWeth)
    ensures OthersUnmoved(w.balances, b4, owner, alice, resolver, dai, weth)
  {
    chain := OppositeSwap(owner, alice, dai, weth, settlement, start, fee0, fee1, aliceWeth, makingMode, whitelistData);
    a0, a1 := Amounts(100 * ETHER, ETHER / 10), Amounts(aliceWeth, 100 * ETHER);
    SwapAmounts(owner, alice, dai, weth, settlement, start, fee0, fee1, aliceWeth, makingMode, whitelistData, now);
    b1, b2, b3, b4 := SwapTransfers(w.balances, owner, alice, resolver, dai, weth, aliceWeth);
  }

  lemma OppositeSwapZeroCapital(w: World, owner: Address, alice: Address, resolver: Address, dai: Address, weth: Address,
                                settlement: Address, start: nat, now: nat, whitelistData: seq<Byte>)
    requires owner != alice && owner != resolver && alice != resolver && dai != weth
    requires BalanceOf(w.balances, dai, owner) >= 100 * ETHER && BalanceOf(w.balances, weth, alice) >= 11 * ETHER / 100
    requires now >= start
    ensures var r := Settle(w, resolver, OppositeSwap(owner, alice, dai, weth, settlement, start, NoFee, NoFee, 11 * ETHER / 100, true, whitelistData), now);
      && r.Success?
      && r.value.credit == w.credit
      && SwapMoved(w.balances, r.value.balances, owner, alice, resolver, dai, weth, 11 * ETHER / 100)
  {
    var chain, a0, a1, b1, b2, b3, b4 :=
      SwapSetup(w, owner, alice, resolver, dai, weth, settlement, start, NoFee, NoFee, 11 * ETHER / 100, true, whitelistData, now);
    SettleTwoFills(w, resolver, chain, now, a0, a1, b1, b2, b3);
  }

  /**
   * The balance changes of the swap with integrator fees: the owner gives 100 DAI for
   * 0.1 WETH, alice gives 0.11 WETH for 100 DAI, and bob receives 0.1 DAI and 0.0001 WETH.
   */
  predicate IntegratorFeeMoved(b: Balances, bf: Balances, owner: Address, alice: Address, bob: Address, dai: Address, weth: Address) {
    && BalanceOf(bf, dai, owner) + 100 * ETHER == BalanceOf(b, dai, owner)
    && BalanceOf(bf, dai, alice) == BalanceOf(b, dai, alice) + 100 * ETHER
    && BalanceOf(bf, dai, bob) == BalanceOf(b, dai, bob) + ETHER / 10
    && BalanceOf(bf, weth, owner) == BalanceOf(b, weth, owner) + ETHER / 10
    && BalanceOf(bf, weth, alice) + 11 * ETHER / 100 == BalanceOf(b, weth, alice)
    && BalanceOf(bf, weth, bob) == BalanceOf(b, weth, bob) + ETHER / 10000
  }

  /**
   * The token moves that integrator fees add to the swap, on the balances `b3` after
   * the inner fill's transfers: the inner hook pays bob 0.1 DAI, the outer transfer
   * pays the owner 0.1 WETH and the outer hook pays bob 0.0001 WETH. Against the
   * starting balances `b`, the owner and alice trade as in the fee-less swap `b4`,
   * and bob gains the two fees.
   */
  lemma IntegratorFeeMoves(b: Balances, b3: Balances, b4: Balances, owner: Address, alice: Address, bob: Address,
                           resolver: Address, dai: Address, weth: Address)
    returns (bi: Balances, b5: Balances, bf: Balances)
    requires owner != alice && owner != resolver && alice != resolver && dai != weth
    requires bob != owner && bob != alice && bob != resolver
    requires Transfer(b3, weth, resolver, owner, ETHER / 10) == Success(b4)
    requires SwapMoved(b, b4, owner, alice, resolver, dai, weth, 11 * ETHER / 100)
    requires OthersUnmoved(b, b4, owner, alice, resolver, dai, weth)
    requires BalanceOf(b, dai, resolver) >= ETHER / 10
    ensures Transfer(b3, dai, resolver, bob, ETHER / 10) == Success(bi)
    ensures Transfer(bi, weth, resolver, owner, ETHER / 10) == Success(b5)
    ensures Transfer(b5, weth, resolver, bob, ETHER / 10000) == Success(bf)
    ensures IntegratorFeeMoved(b, bf, owner, alice, bob, dai, weth)
  {
    assert BalanceOf(b3, dai, resolver) == BalanceOf(b4, dai, resolver);
    assert BalanceOf(b4, dai, bob) == BalanceOf(b, dai, bob) && BalanceOf(b4, weth, bob) == BalanceOf(b, weth, bob);
    bi := Transfer(b3, dai, resolver, bob, ETHER / 10).value;
    assert BalanceOf(bi, weth, resolver) == BalanceOf(b3, weth, resolver);
    b5 := Transfer(bi, weth, resolver, owner, ETHER / 10).value;
    assert BalanceOf(b5, weth, resolver) == BalanceOf(b4, weth, resolver);
    bf := Transfer(b5, weth, resolver, bob, ETHER / 10000).value;
    forall t, h ensures BalanceOf(b5, t, h) == BalanceOf(b4, t, h) + Flow(dai, resolver, bob, ETHER / 10, t, h) {
      assert BalanceOf(bi, t, h) == BalanceOf(b3, t, h) + Flow(dai, resolver, bob, ETHER / 10, t, h);
      assert BalanceOf(b5, t, h) == BalanceOf(bi, t, h) + Flow(weth, resolver, owner, ETHER / 10, t, h);
    }
  }

  /**
   * The opposite swap with integrator fees at rate 1000000 on both fills, paid to
   * `bob`: the owner and alice trade as without fees, and bob receives 0.1 DAI from
   * the inner fill and 0.0001 WETH from the outer one. The resolver pays the DAI
   * fee from 0.1 DAI of its own and the WETH fee from the 0.01 WETH it keeps.
   */
  lemma {:induction false} IntegratorFeeScenario(w: World, owner: Address, alice: Address, bob: Address, resolver: Address, dai: Address,
                              weth: Address, settlement: Address, start: nat, now: nat, whitelistData: seq<Byte>)
    requires owner != alice && owner != resolver && alice != resolver && dai != weth
    requires bob != owner && bob != alice && bob != resolver
    requires BalanceOf(w.balances, dai, owner) >= 100 * ETHER && BalanceOf(w.balances, weth, alice) >= 11 * ETHER / 100
    requires BalanceOf(w.balances, dai, resolver) >= ETHER / 10
    requires now >= start
    ensures var r := Settle(w, resolver, OppositeSwap(owner, alice, dai, weth, settlement, start, IntegratorFee(bob, 1_000_000),
                            IntegratorFee(bob, 1_000_000), 11 * ETHER / 100, true, whitelistData), now);
      && r.Success?
      && r.value.credit == w.credit
      && IntegratorFeeMoved(w.balances, r.value.balances, owner, alice, bob, dai, weth)
  {
    var fee := IntegratorFee(bob, 1_000_000);
    var chain, a0, a1, b1, b2, b3, b4 :=
      SwapSetup(w, owner, alice, resolver, dai, weth, settlement, start, fee, fee, 11 * ETHER / 100, true, whitelistData, now);
    var bi, b5, bf := IntegratorFeeMoves(w.balances, b3, b4, owner, alice, bob, resolver, dai, weth);
    IntegratorFeeRates();
    SettleTwoIntegratorFills(w, resolver, chain, now, a0, a1, b1, b2, b3, bi, b5, bf);
  }

  /**
   * The outer fill's fee is the string '1000000', which the calldata builder writes
   * as 0x01000000 = 16777216 (`StringFeeOfMillion`); the inner fill's is 125. A
   * resolver with less credit than both fees together cannot settle: the chain
   * aborts with NotEnoughCredit.
   */
  lemma NotEnoughCreditScenario(w: World, owner: Address, alice: Address, resolver: Address, dai: Address, weth: Address,
                                settlement: Address, start: nat, now: nat, whitelistData: seq<Byte>)
    requires owner != alice && owner != resolver && alice != resolver && dai != weth
    requires BalanceOf(w.balances, dai, owner) >= 100 * ETHER && BalanceOf(w.balances, weth, alice) >= ETHER / 10
    requires now >= start
    requires Get(w.credit, resolver) < (16_777_216 + 125) * BASE_POINTS
    ensures Settle(w, resolver, OppositeSwap(owner, alice, dai, weth, settlement, start,
                   ResolverFee(16_777_216), ResolverFee(125), ETHER / 10, true, whitelistData), now) == Failure(NotEnoughCredit)
  {
    var chain, a0, a1, b1, b2, b3, b4 :=
      SwapSetup(w, owner, alice, resolver, dai, weth, settlement, start, ResolverFee(16_777_216), ResolverFee(125),
                ETHER / 10, true, whitelistData, now);
    SettleTwoFillsShort(w, resolver, chain, now, a0, a1, b1, b2, b3, b4);
  }

  /**
   * The whitelist lock: the same chain, with enough balances, is refused with
   * ResolverIsNotWhitelisted before the auction start and settles from the start on.
   */
  lemma WhitelistScenario(w: World, owner: Address, alice: Address, resolver: Address, dai: Address, weth: Address,
                          settlement: Address, start: nat, now: nat, whitelistData: seq<Byte>)
    requires owner != alice && owner != resolver && alice != resolver && dai != weth
    requires BalanceOf(w.balances, dai, owner) >= 100 * ETHER && BalanceOf(w.balances, weth, alice) >= ETHER / 10
    ensures var r := Settle(w, resolver, OppositeSwap(owner, alice, dai, weth, settlement, start, NoFee, NoFee, ETHER / 10, true, whitelistData), now);
      && (now < start ==> r == Failure(ResolverIsNotWhitelisted))
      && (now >= start ==> r.Success?)
  {
    var chain, a0, a1, b1, b2, b3, b4 :=
      SwapSetup(w, owner, alice, resolver, dai, weth, settlement, start, NoFee, NoFee, ETHER / 10, true, whitelistData, now);
    SettleTwoFills(w, resolver, chain, now, a0, a1, b1, b2, b3);
  }

  /**
   * Two full fills by their taking amounts, at fees 100 and 125, settle for a resolver
   * with credit for both and lower its credit by (100 + 125) * BASE_POINTS.
   */
  lemma TwoLegFee(w: World, owner: Address, alice: Address, resolver: Address, dai: Address, weth: Address,
                  settlement: Address, start: nat, now: nat, whitelistData: seq<Byte>)
    requires owner != alice && owner != resolver && alice != resolver && dai != weth
    requires BalanceOf(w.balances, dai, owner) >= 100 * ETHER && BalanceOf(w.balances, weth, alice) >= ETHER / 10
    requires now >= start
    requires Get(w.credit, resolver) >= (100 + 125) * BASE_POINTS
    ensures var r := Settle(w, resolver, OppositeSwap(owner, alice, dai, weth, settlement, start,
                            ResolverFee(100), ResolverFee(125), ETHER / 10, false, whitelistData), now);
      && r.Success?
      && Get(r.value.credit, resolver) + (100 + 125) * BASE_POINTS == Get(w.credit, resolver)
  {
    var chain, a0, a1, b1, b2, b3, b4 :=
      SwapSetup(w, owner, alice, resolver, dai, weth, settlement, start, ResolverFee(100), ResolverFee(125),
                ETHER / 10, false, whitelistData, now);
    SettleTwoFills(w, resolver, chain, now, a0, a1, b1, b2, b3);
    assert FeeCharged(chain.next.fill, a1) == 125 * BASE_POINTS;
    assert FeeCharged(chain.fill, a0) == 100 * BASE_POINTS;
    var inner := PostInteractionHook(World(w.credit, b3), resolver, chain.next.fill, a1, now);
    assert inner.Success? && inner.value.balances == b3;
    assert Get(inner.value.credit, resolver) + 125 * BASE_POINTS == Get(w.credit, resolver);
  }
}
