/**
 * The Dutch-auction curve: the rate bump at a given time, read from the
 * order's auction details, and the amounts it scales. A bump is in units of
 * 1e-7 of the amount (`RATE_BUMP_BASE`).
 */
module AuctionCurve {
  import opened Arithmetic
  import opened FusionTypes

  const RATE_BUMP_BASE: nat := 10_000_000

  function FinishTime(d: AuctionDetails): nat {
    d.startTime + d.duration
  }

  /** Floor of the straight line from `from` at time `p` to `to` at time `q`, read at time `t`. */
  function Interpolate(p: nat, from: nat, q: nat, to: nat, t: nat): nat
    requires p < q && p <= t <= q
  {
    var rise: nat := t - p;
    var rest: nat := q - t;
    var span: nat := q - p;
    (rise * to + rest * from) / span
  }

  /**
   * The bump at time `t` on the segments that start at `prevTime` with `prevBump`:
   * each point's time is `delta` seconds after the previous point's, and after
   * the last point the bump falls to 0 at `finish`.
   */
  function BumpFrom(t: nat, prevTime: nat, prevBump: nat, points: seq<Point>, finish: nat): (r: nat)
    requires prevTime < t < finish
    ensures r <= MaxBump(prevBump, points)
    decreases |points|
  {
    if points == [] then
      InterpolateBetween(prevTime, prevBump, finish, 0, t, prevBump);
      Interpolate(prevTime, prevBump, finish, 0, t)
    else
      var nextTime := prevTime + points[0].delta;
      var x := points[0].rateBump;
      if t <= nextTime then
        InterpolateBetween(prevTime, prevBump, nextTime, x, t, MaxBump(prevBump, points));
        Interpolate(prevTime, prevBump, nextTime, x, t)
      else
        MaxBumpMonotone(x, if prevBump < x then x else prevBump, points[1..]);
        BumpFrom(t, nextTime, x, points[1..], finish)
  }

  /**
   * The rate bump at time `t`: the initial bump until the start, 0 from the finish
   * on, and never more than the largest bump the auction declares.
   */
  function RateBump(d: AuctionDetails, t: nat): (r: nat)
    ensures t <= d.startTime ==> r == d.initialRateBump
    ensures d.startTime < t && FinishTime(d) <= t ==> r == 0
    ensures r <= MaxBump(d.initialRateBump, d.points)
  {
    if t <= d.startTime then d.initialRateBump
    else if t >= FinishTime(d) then 0
    else BumpFrom(t, d.startTime, d.initialRateBump, d.points, FinishTime(d))
  }

  // ---------------------------------------------------------------- the shape of the curve

  /** A line reaches its end value at its end time. */
  lemma InterpolateAtEnd(p: nat, from: nat, q: nat, to: nat)
    requires p < q
    ensures Interpolate(p, from, q, to, q) == to
  {
    MulDivCancel(to, q - p);
  }

  /** A line stays between its end values. */
  lemma InterpolateBetween(p: nat, from: nat, q: nat, to: nat, t: nat, m: nat)
    requires p < q && p <= t <= q
    requires from <= m && to <= m
    ensures Interpolate(p, from, q, to, t) <= m
  {
    var rise: nat, rest: nat, span: nat := t - p, q - t, q - p;
    MulMonotone(0, to, rise);
    MulMonotone(0, from, rest);
    MulMonotone(to, m, rise);
    MulMonotone(from, m, rest);
    var num: nat := rise * to + rest * from;
    assert num <= m * rise + m * rest == m * span;
    DivAtMost(num, span, m);
  }

  /** The seconds from the first point's predecessor to the last of `points`. */
  function Elapsed(points: seq<Point>): nat {
    if points == [] then 0 else points[0].delta + Elapsed(points[1..])
  }

  /** The time of point `i`: the start plus the deltas of points 0..i. */
  function PointTime(d: AuctionDetails, i: nat): nat
    requires i < |d.points|
  {
    d.startTime + Elapsed(d.points[..i + 1])
  }

  lemma {:induction false} BumpFromAtPoint(prevTime: nat, prevBump: nat, points: seq<Point>, finish: nat, i: nat)
    requires i < |points|
    decreases i
    requires forall j :: 0 <= j <= i ==> points[j].delta > 0
    requires prevTime + Elapsed(points[..i + 1]) < finish
    ensures BumpFrom(prevTime + Elapsed(points[..i + 1]), prevTime, prevBump, points, finish) == points[i].rateBump
  {
    var t := prevTime + Elapsed(points[..i + 1]);
    var nextTime := prevTime + points[0].delta;
    assert points[..i + 1][1..] == points[1..][..i];
    assert t == nextTime + Elapsed(points[1..][..i]);
    if i == 0 {
      InterpolateAtEnd(prevTime, prevBump, nextTime, points[0].rateBump);
    } else {
      assert points[1..][..i][0] == points[1];
      assert t > nextTime;
      BumpFromAtPoint(nextTime, points[0].rateBump, points[1..], finish, i - 1);
    }
  }

  /**
   * At a point's time the bump is that point's bump, provided the points up to it
   * are strictly later than their predecessors and it lies before the finish.
   */
  lemma RateBumpAtPoint(d: AuctionDetails, i: nat)
    requires i < |d.points|
    requires forall j :: 0 <= j <= i ==> d.points[j].delta > 0
    requires PointTime(d, i) < FinishTime(d)
    ensures RateBump(d, PointTime(d, i)) == d.points[i].rateBump
  {
    assert d.points[..i + 1][0] == d.points[0];
    BumpFromAtPoint(d.startTime, d.initialRateBump, d.points, FinishTime(d), i);
  }

  /** The largest of `m` and the bumps of `points`. */
  function MaxBump(m: nat, points: seq<Point>): (r: nat)
    ensures m <= r
    ensures forall i :: 0 <= i < |points| ==> points[i].rateBump <= r
    decreases |points|
  {
    if points == [] then m
    else
      var r := MaxBump(if m < points[0].rateBump then points[0].rateBump else m, points[1..]);
      assert forall i :: 1 <= i < |points| ==> points[i] == points[1..][i - 1];
      r
  }

  lemma {:induction false} MaxBumpMonotone(m: nat, n: nat, points: seq<Point>)
    requires m <= n
    ensures MaxBump(m, points) <= MaxBump(n, points)
    decreases |points|
  {
    if points != [] {
      var x := points[0].rateBump;
      MaxBumpMonotone(if m < x then x else m, if n < x then x else n, points[1..]);
    }
  }

  /** The curve is not monotone: with no initial bump and one point it rises from the start to the point. */
  lemma CurveCanRise(start: nat)
    ensures var d := AuctionDetails(start, 1800, 0, [Point(900000, 240)]);
      RateBump(d, start) == 0 && RateBump(d, start + 240) == 900000
  {
    var d := AuctionDetails(start, 1800, 0, [Point(900000, 240)]);
    assert d.points[..1] == d.points;
    assert Elapsed(d.points) == 240;
    RateBumpAtPoint(d, 0);
  }

  // ---------------------------------------------------------------- amounts

  /** The amount the taker pays for `making` of the maker asset, raised by `bump`. */
  function TakingAmount(orderMaking: nat, orderTaking: nat, making: nat, bump: nat): (r: nat)
    requires orderMaking > 0
    ensures r * (orderMaking * RATE_BUMP_BASE) <= orderTaking * making * (RATE_BUMP_BASE + bump)
    ensures orderTaking * making * (RATE_BUMP_BASE + bump) < (r + 1) * (orderMaking * RATE_BUMP_BASE)
  {
    orderTaking * making * (RATE_BUMP_BASE + bump) / (orderMaking * RATE_BUMP_BASE)
  }

  /** The maker amount the taker receives for paying `taking`, lowered by `bump`. */
  function MakingAmount(orderMaking: nat, orderTaking: nat, taking: nat, bump: nat): (r: nat)
    requires orderTaking > 0
    ensures r * (orderTaking * (RATE_BUMP_BASE + bump)) <= orderMaking * taking * RATE_BUMP_BASE
    ensures orderMaking * taking * RATE_BUMP_BASE < (r + 1) * (orderTaking * (RATE_BUMP_BASE + bump))
  {
    orderMaking * taking * RATE_BUMP_BASE / (orderTaking * (RATE_BUMP_BASE + bump))
  }

  /** Filling the whole order costs the order's taking amount scaled by (1e7 + bump) / 1e7, floored. */
  lemma FullFillTaking(orderMaking: nat, orderTaking: nat, bump: nat)
    requires orderMaking > 0
    ensures TakingAmount(orderMaking, orderTaking, orderMaking, bump)
         == orderTaking * (RATE_BUMP_BASE + bump) / RATE_BUMP_BASE
  {
    var x := orderTaking * (RATE_BUMP_BASE + bump);
    assert orderTaking * orderMaking * (RATE_BUMP_BASE + bump) == orderMaking * x;
    CancelFactor(orderMaking, x, RATE_BUMP_BASE);
  }

  /** Without a bump, paying the whole taking amount buys the whole making amount. */
  lemma FullFillMaking(orderMaking: nat, orderTaking: nat)
    requires orderTaking > 0
    ensures MakingAmount(orderMaking, orderTaking, orderTaking, 0) == orderMaking
  {
    var k := orderTaking * RATE_BUMP_BASE;
    assert orderMaking * orderTaking * RATE_BUMP_BASE == orderMaking * k;
    MulDivCancel(orderMaking, k);
  }

  /** A larger bump never lowers the taking amount. */
  lemma TakingBumpMonotone(orderMaking: nat, orderTaking: nat, amount: nat, b1: nat, b2: nat)
    requires orderMaking > 0 && b1 <= b2
    ensures TakingAmount(orderMaking, orderTaking, amount, b1) <= TakingAmount(orderMaking, orderTaking, amount, b2)
  {
    var x := orderTaking * amount;
    MulMonotone(RATE_BUMP_BASE + b1, RATE_BUMP_BASE + b2, x);
    DivMonotone(x * (RATE_BUMP_BASE + b1), x * (RATE_BUMP_BASE + b2), orderMaking * RATE_BUMP_BASE);
  }

  /** A larger bump never raises the making amount. */
  lemma MakingBumpMonotone(orderMaking: nat, orderTaking: nat, amount: nat, b1: nat, b2: nat)
    requires orderTaking > 0 && b1 <= b2
    ensures MakingAmount(orderMaking, orderTaking, amount, b2) <= MakingAmount(orderMaking, orderTaking, amount, b1)
  {
    var y := orderMaking * amount * RATE_BUMP_BASE;
    var k1, k2 := orderTaking * (RATE_BUMP_BASE + b1), orderTaking * (RATE_BUMP_BASE + b2);
    var q := y / k2;
    assert q * k2 <= y;
    MulMonotone(RATE_BUMP_BASE + b1, RATE_BUMP_BASE + b2, orderTaking);
    MulMonotone(k1, k2, q);
    DivAtLeast(y, k1, q);
  }

  /**
   * Rounding never favours the taker over a round trip: converting a making amount to
   * the taking amount it costs and back yields at most the making amount, and the other
   * way round.
   */
  lemma AmountsRoundTrip(orderMaking: nat, orderTaking: nat, amount: nat, bump: nat)
    requires orderMaking > 0 && orderTaking > 0
    ensures MakingAmount(orderMaking, orderTaking, TakingAmount(orderMaking, orderTaking, amount, bump), bump) <= amount
    ensures TakingAmount(orderMaking, orderTaking, MakingAmount(orderMaking, orderTaking, amount, bump), bump) <= amount
  {
    var B, S := RATE_BUMP_BASE, RATE_BUMP_BASE + bump;
    var y := TakingAmount(orderMaking, orderTaking, amount, bump);
    assert y * (orderMaking * B) <= orderTaking * amount * S;
    assert orderMaking * y * B == y * (orderMaking * B);
    assert orderTaking * amount * S == amount * (orderTaking * S);
    DivAtMost(orderMaking * y * B, orderTaking * S, amount);
    var z := MakingAmount(orderMaking, orderTaking, amount, bump);
    assert z * (orderTaking * S) <= orderMaking * amount * B;
    assert orderTaking * z * S == z * (orderTaking * S);
    assert orderMaking * amount * B == amount * (orderMaking * B);
    DivAtMost(orderTaking * z * S, orderMaking * B, amount);
  }

  /**
   * The taking amount the settlement tests expect for an auction without points:
   * the bump is the initial bump times the share of the duration still to run,
   * capped at the whole duration, and nothing is added from the finish on.
   */
  function ExpectedTakingAmount(takingAmount: nat, d: AuctionDetails, t: nat): nat
    requires d.duration > 0
  {
    if t < FinishTime(d) then
      var remaining := FinishTime(d) - t;
      var minDuration := if remaining > d.duration then d.duration else remaining;
      takingAmount * (RATE_BUMP_BASE + d.initialRateBump * minDuration / d.duration) / RATE_BUMP_BASE
    else takingAmount
  }

  /** Without points the bump falls linearly from the initial bump at the start to 0 at the finish. */
  lemma NoPointsBump(d: AuctionDetails, t: nat)
    requires d.points == [] && d.duration > 0
    ensures t < FinishTime(d) ==>
      var remaining := FinishTime(d) - t;
      var minDuration := if remaining > d.duration then d.duration else remaining;
      RateBump(d, t) == d.initialRateBump * minDuration / d.duration
    ensures t >= FinishTime(d) ==> RateBump(d, t) == 0
  {
    if t <= d.startTime {
      MulDivCancel(d.initialRateBump, d.duration);
    } else if t < FinishTime(d) {
      assert RateBump(d, t) == Interpolate(d.startTime, d.initialRateBump, FinishTime(d), 0, t);
      assert (t - d.startTime) * 0 + (FinishTime(d) - t) * d.initialRateBump
          == d.initialRateBump * (FinishTime(d) - t);
    }
  }

  /** Without points, filling the whole order costs exactly what the tests compute. */
  lemma NoPointsLinearDecay(d: AuctionDetails, orderMaking: nat, orderTaking: nat, t: nat)
    requires d.points == [] && d.duration > 0 && orderMaking > 0
    ensures TakingAmount(orderMaking, orderTaking, orderMaking, RateBump(d, t)) == ExpectedTakingAmount(orderTaking, d, t)
  {
    NoPointsBump(d, t);
    FullFillTaking(orderMaking, orderTaking, RateBump(d, t));
    if t >= FinishTime(d) {
      MulDivCancel(orderTaking, RATE_BUMP_BASE);
    }
  }
}
