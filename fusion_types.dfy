/**
 * The values the settlement engine works on: the errors it reverts with,
 * the Dutch-auction parameters an order carries and the fee an order asks for.
 */
module FusionTypes {
  import opened Bytes

  /** The reasons a call reverts. */
  datatype Error =
    | OnlyFeeBankAccess        // a credit mutator called by anyone but the FeeBank
    | ArithmeticUnderflow      // checked subtraction below zero
    | DivisionByZero           // an amount getter or fee divided by a zero order amount
    | NotEnoughCredit          // a resolver fee larger than the resolver's credit
    | ResolverIsNotWhitelisted // a fill before the resolver's whitelist time
    | TransferFailed           // a token transfer from an account without the balance
    | InvalidPermit            // a permit that does not authorise the transfer

  /** One auction point: the bump reached `delta` seconds after the previous point. */
  datatype Point = Point(rateBump: nat, delta: nat)

  /**
   * Auction parameters as the order stores them. `startTime` is the encoded start,
   * which already includes any delay.
   */
  datatype AuctionDetails = AuctionDetails(startTime: nat, duration: nat, initialRateBump: nat, points: seq<Point>)

  /** A point fits its packed layout: uint24 rateBump, uint16 delta. */
  predicate ValidPoint(p: Point) {
    p.rateBump < Pow256(3) && p.delta < Pow256(2)
  }

  /** Auction details fit their packed layout: uint32 start, uint24 duration, uint24 initial bump. */
  predicate ValidAuction(d: AuctionDetails) {
    && d.startTime < Pow256(4)
    && d.duration < Pow256(3)
    && d.initialRateBump < Pow256(3)
    && forall i :: 0 <= i < |d.points| ==> ValidPoint(d.points[i])
  }

  /**
   * The fee an order carries in its post-interaction data: none, a resolver fee
   * charged on the resolver's credit, or an integrator fee paid in the taker asset.
   */
  datatype FeeSpec =
    | NoFee
    | ResolverFee(rate: nat)
    | IntegratorFee(integrator: Address, rate: nat)

  /** The fee rate fits its bytes4 field. */
  predicate ValidFee(f: FeeSpec) {
    f.NoFee? || f.rate < Pow256(4)
  }
}
