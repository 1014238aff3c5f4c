/**
 * The byte layouts a settlement order carries: the Dutch-auction details read
 * by the amount getters, the post-interaction blob (fee segment, auction start,
 * whitelist tag) and the resolver interaction. Every encoder writes fixed-width
 * big-endian fields, as `solidityPack` does, and has a decoder beside it.
 */
module FusionUtils {
  import opened Arithmetic
  import opened Bytes
  import opened Wrappers
  import opened FusionTypes

  const DEFAULT_DURATION: nat := 1800
  const HEADER_LENGTH: nat := 10
  const POINT_LENGTH: nat := 5
  const TRAILER_LENGTH: nat := 16

  // ---------------------------------------------------------------- auction details

  /** uint24 rateBump ‖ uint16 delta. */
  function EncodePoint(p: Point): (r: seq<Byte>)
    requires ValidPoint(p)
    ensures |r| == POINT_LENGTH
  {
    UintBE(p.rateBump, 3) + UintBE(p.delta, 2)
  }

  function EncodePoints(ps: seq<Point>): (r: seq<Byte>)
    requires forall i :: 0 <= i < |ps| ==> ValidPoint(ps[i])
    ensures |r| == POINT_LENGTH * |ps|
  {
    if ps == [] then [] else EncodePoint(ps[0]) + EncodePoints(ps[1..])
  }

  /** uint32 start ‖ uint24 duration ‖ uint24 initialRateBump. */
  function EncodeHeader(d: AuctionDetails): (r: seq<Byte>)
    requires ValidAuction(d)
    ensures |r| == HEADER_LENGTH
  {
    UintBE(d.startTime, 4) + UintBE(d.duration, 3) + UintBE(d.initialRateBump, 3)
  }

  function EncodeAuction(d: AuctionDetails): (r: seq<Byte>)
    requires ValidAuction(d)
    ensures |r| == HEADER_LENGTH + POINT_LENGTH * |d.points|
  {
    EncodeHeader(d) + EncodePoints(d.points)
  }

  function DecodePoints(b: seq<Byte>): (r: Option<seq<Point>>)
    decreases |b|
  {
    if b == [] then Some([])
    else if |b| < POINT_LENGTH then None
    else match DecodePoints(b[POINT_LENGTH..])
      case None => None
      case Some(rest) => Some([Point(ToNat(b[..3]), ToNat(b[3..5]))] + rest)
  }

  function DecodeAuction(b: seq<Byte>): (r: Option<AuctionDetails>)
  {
    if |b| < HEADER_LENGTH then None
    else match DecodePoints(b[HEADER_LENGTH..])
      case None => None
      case Some(ps) => Some(AuctionDetails(ToNat(b[..4]), ToNat(b[4..7]), ToNat(b[7..10]), ps))
  }

  /** Appending a point appends its five bytes: the loop of the builder and the recursion agree. */
  lemma {:induction false} EncodePointsSnoc(ps: seq<Point>, p: Point)
    requires forall i :: 0 <= i < |ps| ==> ValidPoint(ps[i])
    requires ValidPoint(p)
    ensures EncodePoints(ps + [p]) == EncodePoints(ps) + EncodePoint(p)
  {
    if ps != [] {
      assert (ps + [p])[1..] == ps[1..] + [p];
      EncodePointsSnoc(ps[1..], p);
    } else {
      assert ps + [p] == [p];
    }
  }

  /** Point `i` occupies bytes 5i .. 5i+5, so the points are written in list order. */
  lemma {:induction false} PointBytesAt(ps: seq<Point>, i: nat)
    requires forall j :: 0 <= j < |ps| ==> ValidPoint(ps[j])
    requires i < |ps|
    ensures EncodePoints(ps)[POINT_LENGTH * i..POINT_LENGTH * i + POINT_LENGTH] == EncodePoint(ps[i])
  {
    if i > 0 {
      PointBytesAt(ps[1..], i - 1);
      var e := EncodePoints(ps);
      assert e == EncodePoint(ps[0]) + EncodePoints(ps[1..]);
      assert e[POINT_LENGTH * i..POINT_LENGTH * i + POINT_LENGTH]
          == EncodePoints(ps[1..])[POINT_LENGTH * (i - 1)..POINT_LENGTH * (i - 1) + POINT_LENGTH];
    }
  }

  lemma {:induction false} DecodeEncodePoints(ps: seq<Point>)
    requires forall i :: 0 <= i < |ps| ==> ValidPoint(ps[i])
    ensures DecodePoints(EncodePoints(ps)) == Some(ps)
  {
    if ps != [] {
      var b := EncodePoints(ps);
      var p := ps[0];
      assert b[POINT_LENGTH..] == EncodePoints(ps[1..]);
      DecodeEncodePoints(ps[1..]);
      assert b[..3] == UintBE(p.rateBump, 3) && b[3..5] == UintBE(p.delta, 2);
      ToNatUintBE(p.rateBump, 3);
      ToNatUintBE(p.delta, 2);
      assert ps == [p] + ps[1..];
    }
  }

  lemma {:induction false} EncodeDecodePoints(b: seq<Byte>)
    requires DecodePoints(b).Some?
    ensures var ps := DecodePoints(b).value;
      && (forall i :: 0 <= i < |ps| ==> ValidPoint(ps[i]))
      && EncodePoints(ps) == b
  {
    if b != [] {
      var rest := DecodePoints(b[POINT_LENGTH..]).value;
      EncodeDecodePoints(b[POINT_LENGTH..]);
      var p := Point(ToNat(b[..3]), ToNat(b[3..5]));
      var ps := DecodePoints(b).value;
      assert ps == [p] + rest;
      assert ps[0] == p && ps[1..] == rest;
      UintBEToNat(b[..3]);
      UintBEToNat(b[3..5]);
      assert EncodePoint(p) == b[..3] + b[3..5];
      SplitThree(b, 3, POINT_LENGTH);
    }
  }

  /** Decoding the encoded auction gives back the same parameters, points in order. */
  lemma AuctionRoundTrip(d: AuctionDetails)
    requires ValidAuction(d)
    ensures DecodeAuction(EncodeAuction(d)) == Some(d)
  {
    var b := EncodeAuction(d);
    assert b[HEADER_LENGTH..] == EncodePoints(d.points);
    DecodeEncodePoints(d.points);
    assert b[..4] == UintBE(d.startTime, 4);
    assert b[4..7] == UintBE(d.duration, 3);
    assert b[7..10] == UintBE(d.initialRateBump, 3);
    ToNatUintBE(d.startTime, 4);
    ToNatUintBE(d.duration, 3);
    ToNatUintBE(d.initialRateBump, 3);
  }

  /** Only encodings decode: a byte string that decodes is the encoding of what it decodes to. */
  lemma AuctionDecodeEncode(b: seq<Byte>)
    requires DecodeAuction(b).Some?
    ensures ValidAuction(DecodeAuction(b).value)
    ensures EncodeAuction(DecodeAuction(b).value) == b
  {
    EncodeDecodePoints(b[HEADER_LENGTH..]);
    UintBEToNat(b[..4]);
    UintBEToNat(b[4..7]);
    UintBEToNat(b[7..10]);
    assert b == b[..4] + b[4..7] + b[7..10] + b[HEADER_LENGTH..];
  }

  /**
   * The builder's optional arguments. `None` means the caller left the field out;
   * a start time of 0 is treated like an absent one, as the `||` in the builder does.
   */
  datatype AuctionArgs = AuctionArgs(
    startTime: Option<nat>,
    duration: Option<nat>,
    delay: Option<nat>,
    initialRateBump: Option<nat>,
    points: Option<seq<Point>>)

  /** The start time the builder returns: the given one, or the latest block time `now`. */
  function StartOf(args: AuctionArgs, now: nat): nat {
    if args.startTime.Some? && args.startTime.value != 0 then args.startTime.value else now
  }

  /** The auction the builder encodes, defaults applied: the encoded start includes the delay. */
  function AuctionOf(args: AuctionArgs, now: nat): AuctionDetails {
    var duration := if args.duration.Some? then args.duration.value else DEFAULT_DURATION;
    var delay := if args.delay.Some? then args.delay.value else 0;
    var initialRateBump := if args.initialRateBump.Some? then args.initialRateBump.value else 0;
    var points := if args.points.Some? then args.points.value else [];
    AuctionDetails(StartOf(args, now) + delay, duration, initialRateBump, points)
  }

  /**
   * Builds the auction details: the 10-byte header, then one 5-byte point per
   * loop iteration. Returns the start time without the delay and the bytes.
   */
  method BuildAuctionDetails(args: AuctionArgs, now: nat) returns (startTime: nat, details: seq<Byte>)
    requires ValidAuction(AuctionOf(args, now))
    ensures startTime == StartOf(args, now)
    ensures startTime + (if args.delay.Some? then args.delay.value else 0) == AuctionOf(args, now).startTime
    ensures |details| == HEADER_LENGTH + POINT_LENGTH * |AuctionOf(args, now).points|
    ensures DecodeAuction(details) == Some(AuctionOf(args, now))
  {
    var d := AuctionOf(args, now);
    startTime := StartOf(args, now);
    details := UintBE(d.startTime, 4) + UintBE(d.duration, 3) + UintBE(d.initialRateBump, 3);
    var i := 0;
    while i < |d.points|
      invariant 0 <= i <= |d.points|
      invariant details == EncodeHeader(d) + EncodePoints(d.points[..i])
    {
      EncodePointsSnoc(d.points[..i], d.points[i]);
      assert d.points[..i + 1] == d.points[..i] + [d.points[i]];
      details := details + (UintBE(d.points[i].rateBump, 3) + UintBE(d.points[i].delta, 2));
      i := i + 1;
    }
    assert d.points[..i] == d.points;
    AuctionRoundTrip(d);
  }

  /** With every argument left out: start `now`, 1800 seconds, no bump, no points, 10 bytes. */
  lemma DefaultAuction(now: nat)
    requires now < Pow256(4)
    ensures var d := AuctionOf(AuctionArgs(None, None, None, None, None), now);
      && d == AuctionDetails(now, 1800, 0, [])
      && ValidAuction(d)
      && EncodeAuction(d) == UintBE(now, 4) + UintBE(1800, 3) + UintBE(0, 3)
  {
  }

  // ---------------------------------------------------------------- fee segment

  /**
   * The fee the builder's `feeType` selects: 1 a resolver fee, 2 an integrator fee;
   * any other value writes the no-fee segment.
   */
  function FeeSpecOf(feeType: nat, integrator: Address, resolverFee: nat): (f: FeeSpec)
    ensures f.NoFee? <==> feeType != 1 && feeType != 2
    ensures !f.NoFee? ==> f.rate == resolverFee
    ensures f.IntegratorFee? <==> feeType == 2
    ensures f.IntegratorFee? ==> f.integrator == integrator
  {
    if feeType == 1 then ResolverFee(resolverFee)
    else if feeType == 2 then IntegratorFee(integrator, resolverFee)
    else NoFee
  }

  // ---------------------------------------------------------------- a resolver fee given as a string

  /** The value of a hexadecimal digit, in either case; None for any other character. */
  function HexDigit(c: char): (r: Option<nat>)
    ensures r.Some? ==> r.value < 16
  {
    if '0' <= c <= '9' then Some((c as int - '0' as int) as nat)
    else if 'a' <= c <= 'f' then Some((c as int - 'a' as int + 10) as nat)
    else if 'A' <= c <= 'F' then Some((c as int - 'A' as int + 10) as nat)
    else None
  }

  function Pow16(n: nat): (r: nat)
    ensures r > 0
  {
    if n == 0 then 1 else 16 * Pow16(n - 1)
  }

  lemma {:induction false} Pow16Monotone(m: nat, n: nat)
    requires m <= n
    ensures Pow16(m) <= Pow16(n)
    decreases n
  {
    if m < n {
      Pow16Monotone(m, n - 1);
    }
  }

  /** `s` read as a hexadecimal numeral, most significant digit first; None when a character is not a hex digit. */
  function HexValue(s: string): (r: Option<nat>)
    ensures r.Some? <==> forall i :: 0 <= i < |s| ==> HexDigit(s[i]).Some?
    ensures r.Some? ==> r.value < Pow16(|s|)
    decreases |s|
  {
    if s == [] then Some(0)
    else
      var init := s[..|s| - 1];
      assert forall i :: 0 <= i < |init| ==> init[i] == s[i];
      match (HexValue(init), HexDigit(s[|s| - 1]))
      case (Some(v), Some(d)) =>
        MulMonotone(v + 1, Pow16(|init|), 16);
        Some(v * 16 + d)
      case _ => None
  }

  /**
   * The bytes4 rate the calldata builder writes when resolverFee is a string:
   * `toString(16)` returns a string unchanged, so its characters, left-padded with
   * zeros to 8, are read as the field's hex digits. A longer string, or a character
   * that is not a hex digit, makes the packer throw.
   */
  function StringFeeRate(s: string): (r: Option<nat>)
    ensures r.Some? <==> |s| <= 8 && forall i :: 0 <= i < |s| ==> HexDigit(s[i]).Some?
    ensures r.Some? ==> ValidFee(ResolverFee(r.value))
  {
    if |s| > 8 then None
    else
      Pow16Monotone(|s|, 8);
      assert Pow16(8) == Pow256(4);
      HexValue(s)
  }

  predicate IsDecimal(s: string) {
    forall i :: 0 <= i < |s| ==> '0' <= s[i] <= '9'
  }

  /** `s` read as a decimal numeral: the rate a number argument with those digits gives. */
  function DecimalValue(s: string): nat
    requires IsDecimal(s)
    decreases |s|
  {
    if s == [] then 0 else DecimalValue(s[..|s| - 1]) * 10 + (s[|s| - 1] as int - '0' as int)
  }

  lemma {:induction false} DecimalAtMostHex(s: string)
    requires IsDecimal(s)
    ensures HexValue(s).Some? && DecimalValue(s) <= HexValue(s).value
    decreases |s|
  {
    if s != [] {
      var init := s[..|s| - 1];
      assert forall i :: 0 <= i < |init| ==> init[i] == s[i];
      DecimalAtMostHex(init);
      var d, h := DecimalValue(init), HexValue(init).value;
      MulMonotone(d, h, 10);
      MulMonotone(10, 16, h);
    }
  }

  /**
   * A decimal numeral of at most 8 digits passed as a string is accepted, and the
   * rate written is at least the number it spells, since its digits are read as hex.
   */
  lemma DecimalStringReadAsHex(s: string)
    requires IsDecimal(s) && |s| <= 8
    ensures StringFeeRate(s).Some? && DecimalValue(s) <= StringFeeRate(s).value
  {
    DecimalAtMostHex(s);
  }

  function Pow10(n: nat): nat {
    if n == 0 then 1 else 10 * Pow10(n - 1)
  }

  /** A one followed by `k` zeros spells 10^k as a decimal numeral but is 16^k as hex. */
  lemma {:induction false} OneThenZeros(k: nat)
    ensures IsDecimal(['1'] + seq(k, _ => '0'))
    ensures DecimalValue(['1'] + seq(k, _ => '0')) == Pow10(k)
    ensures HexValue(['1'] + seq(k, _ => '0')) == Some(Pow16(k))
  {
    var s := ['1'] + seq(k, _ => '0');
    if k == 0 {
      assert s[..0] == [];
    } else {
      var p := ['1'] + seq(k - 1, _ => '0');
      assert s[..|s| - 1] == p && s[|s| - 1] == '0';
      OneThenZeros(k - 1);
    }
  }

  /** The string '1000000' spells one million but is written as 0x01000000, that is 16777216. */
  lemma StringFeeOfMillion()
    ensures DecimalValue("1000000") == 1_000_000
    ensures StringFeeRate("1000000") == Some(16_777_216)
  {
    OneThenZeros(6);
    assert "1000000" == ['1'] + seq(6, _ => '0');
    assert Pow10(6) == 1_000_000 && Pow16(6) == 16_777_216;
  }

  function FeeLength(f: FeeSpec): nat {
    match f
    case NoFee => 1
    case ResolverFee(_) => 5
    case IntegratorFee(_, _) => 25
  }

  /** uint8 kind, then bytes4 rate (kind 1), or bytes20 integrator ‖ bytes4 rate (kind 2). */
  function EncodeFee(f: FeeSpec): (r: seq<Byte>)
    requires ValidFee(f)
    ensures |r| == FeeLength(f)
  {
    match f
    case NoFee => [0]
    case ResolverFee(rate) => [1] + UintBE(rate, 4)
    case IntegratorFee(integrator, rate) => [2] + integrator + UintBE(rate, 4)
  }

  /** The length of the fee segment announced by its kind byte, if the kind is known. */
  function FeeLengthOfKind(kind: Byte): Option<nat> {
    if kind == 0 then Some(1)
    else if kind == 1 then Some(5)
    else if kind == 2 then Some(25)
    else None
  }

  /** Reads a fee segment that fills `b` exactly. */
  function DecodeFee(b: seq<Byte>): (r: Option<FeeSpec>)
  {
    if b == [] then None
    else if b[0] == 0 && |b| == 1 then Some(NoFee)
    else if b[0] == 1 && |b| == 5 then Some(ResolverFee(ToNat(b[1..])))
    else if b[0] == 2 && |b| == 25 then Some(IntegratorFee(b[1..21], ToNat(b[21..])))
    else None
  }

  lemma FeeRoundTrip(f: FeeSpec)
    requires ValidFee(f)
    ensures DecodeFee(EncodeFee(f)) == Some(f)
    ensures FeeLengthOfKind(EncodeFee(f)[0]) == Some(FeeLength(f))
  {
    var b := EncodeFee(f);
    match f
    case NoFee =>
    case ResolverFee(rate) =>
      assert b[1..] == UintBE(rate, 4);
      ToNatUintBE(rate, 4);
    case IntegratorFee(integrator, rate) =>
      assert b[1..21] == integrator && b[21..] == UintBE(rate, 4);
      ToNatUintBE(rate, 4);
  }

  lemma FeeDecodeEncode(b: seq<Byte>)
    requires DecodeFee(b).Some?
    ensures ValidFee(DecodeFee(b).value)
    ensures EncodeFee(DecodeFee(b).value) == b
  {
    if b[0] == 1 {
      UintBEToNat(b[1..]);
      assert b == [b[0]] + b[1..];
    } else if b[0] == 2 {
      UintBEToNat(b[21..]);
      assert b == [b[0]] + b[1..21] + b[21..];
    }
  }

  // ---------------------------------------------------------------- post-interaction

  /** What the post-interaction blob tells the settlement extension. */
  datatype PostInteraction = PostInteraction(
    settlement: Address,
    fee: FeeSpec,
    auctionStartTime: nat,
    whitelistData: seq<Byte>)

  predicate ValidPostInteraction(p: PostInteraction) {
    ValidFee(p.fee) && p.auctionStartTime < Pow256(4) && |p.whitelistData| == 10
  }

  /** settlement ‖ fee segment ‖ uint32 auctionStartTime ‖ bytes10 whitelistData ‖ uint16 0. */
  function EncodePostInteraction(p: PostInteraction): (r: seq<Byte>)
    requires ValidPostInteraction(p)
    ensures |r| == 20 + FeeLength(p.fee) + TRAILER_LENGTH
  {
    p.settlement + EncodeFee(p.fee) + UintBE(p.auctionStartTime, 4) + p.whitelistData + UintBE(0, 2)
  }

  function DecodePostInteraction(b: seq<Byte>): (r: Option<PostInteraction>)
  {
    if |b| < 21 then None
    else match FeeLengthOfKind(b[20])
      case None => None
      case Some(n) =>
        if |b| != 20 + n + TRAILER_LENGTH then None
        else
          var tail := b[20 + n..];
          match DecodeFee(b[20..20 + n])
          case None => None
          case Some(fee) =>
            if ToNat(tail[14..]) != 0 then None
            else Some(PostInteraction(b[..20], fee, ToNat(tail[..4]), tail[4..14]))
  }

  lemma PostInteractionRoundTrip(p: PostInteraction)
    requires ValidPostInteraction(p)
    ensures DecodePostInteraction(EncodePostInteraction(p)) == Some(p)
  {
    var b := EncodePostInteraction(p);
    var n := FeeLength(p.fee);
    FeeRoundTrip(p.fee);
    assert b[..20] == p.settlement;
    assert b[20..20 + n] == EncodeFee(p.fee);
    assert b[20] == EncodeFee(p.fee)[0];
    var tail := b[20 + n..];
    assert tail == UintBE(p.auctionStartTime, 4) + p.whitelistData + UintBE(0, 2);
    assert tail[..4] == UintBE(p.auctionStartTime, 4);
    assert tail[4..14] == p.whitelistData;
    assert tail[14..] == UintBE(0, 2);
    ToNatUintBE(p.auctionStartTime, 4);
    ToNatUintBE(0, 2);
  }

  lemma PostInteractionDecodeEncode(b: seq<Byte>)
    requires DecodePostInteraction(b).Some?
    ensures ValidPostInteraction(DecodePostInteraction(b).value)
    ensures EncodePostInteraction(DecodePostInteraction(b).value) == b
  {
    var p := DecodePostInteraction(b).value;
    var n := FeeLengthOfKind(b[20]).value;
    var segment, tail := b[20..20 + n], b[20 + n..];
    assert p == PostInteraction(b[..20], DecodeFee(segment).value, ToNat(tail[..4]), tail[4..14]);
    FeeDecodeEncode(segment);
    UintBEToNat(tail[..4]);
    UintBEToNat(tail[14..]);
    assert |tail[14..]| == 2 && ToNat(tail[14..]) == 0;
    assert EncodePostInteraction(p) == b[..20] + segment + tail[..4] + tail[4..14] + tail[14..];
    Regroup(b[..20], segment, tail[..4], tail[4..14], tail[14..]);
    SplitThree(tail, 4, 14);
    SplitThree(b, 20, 20 + n);
  }

  // ---------------------------------------------------------------- amount data and interaction

  /** The makingAmountData and takingAmountData: settlement ‖ auction details. */
  function EncodeAmountData(settlement: Address, details: seq<Byte>): seq<Byte> {
    settlement + details
  }

  function DecodeAmountData(b: seq<Byte>): Option<(Address, AuctionDetails)> {
    if |b| < 20 then None
    else match DecodeAuction(b[20..])
      case None => None
      case Some(d) => Some((b[..20], d))
  }

  /** Amount data that decodes is the settlement address followed by the encoding of the auction it decodes to. */
  lemma AmountDataDecodeEncode(b: seq<Byte>)
    requires DecodeAmountData(b).Some?
    ensures ValidAuction(DecodeAmountData(b).value.1)
    ensures b == EncodeAmountData(DecodeAmountData(b).value.0, EncodeAuction(DecodeAmountData(b).value.1))
  {
    AuctionDecodeEncode(b[20..]);
    assert b == b[..20] + b[20..];
  }

  lemma AmountDataRoundTrip(settlement: Address, d: AuctionDetails)
    requires ValidAuction(d)
    ensures DecodeAmountData(EncodeAmountData(settlement, EncodeAuction(d))) == Some((settlement, d))
  {
    var b := EncodeAmountData(settlement, EncodeAuction(d));
    assert b[20..] == EncodeAuction(d) && b[..20] == settlement;
    AuctionRoundTrip(d);
  }

  /** The taker interaction: resolver ‖ (0x01 innermost, 0x00 otherwise) ‖ next-step bytes. */
  function EncodeInteraction(resolver: Address, isInnermost: bool, data: seq<Byte>): (r: seq<Byte>)
    ensures |r| == 21 + |data|
  {
    resolver + [if isInnermost then 1 else 0] + data
  }

  function DecodeInteraction(b: seq<Byte>): Option<(Address, bool, seq<Byte>)> {
    if |b| < 21 || b[20] > 1 then None else Some((b[..20], b[20] == 1, b[21..]))
  }

  lemma InteractionRoundTrip(resolver: Address, isInnermost: bool, data: seq<Byte>)
    ensures DecodeInteraction(EncodeInteraction(resolver, isInnermost, data)) == Some((resolver, isInnermost, data))
  {
    var b := EncodeInteraction(resolver, isInnermost, data);
    assert b[..20] == resolver && b[21..] == data;
  }

  lemma InteractionDecodeEncode(b: seq<Byte>)
    requires DecodeInteraction(b).Some?
    ensures var (resolver, isInnermost, data) := DecodeInteraction(b).value;
      EncodeInteraction(resolver, isInnermost, data) == b
  {
    assert b == b[..20] + [b[20]] + b[21..];
  }

  // ---------------------------------------------------------------- the order's settlement data

  /** The default whitelist tag: the last 10 bytes of the resolver's address. */
  function DefaultWhitelistData(resolver: Address): (r: seq<Byte>)
    ensures |r| == 10
    ensures ToNat(r) == ToNat(resolver) % Pow256(10)
  {
    LowBytes(resolver, 10);
    resolver[10..]
  }

  /** The arguments of the calldata builder that shape the settlement data; `None` is a left-out argument. */
  datatype CalldataArgs = CalldataArgs(
    settlement: Address,
    resolver: Address,
    orderSigner: Address,
    makingAmount: nat,
    takingAmount: nat,
    auctionStartTime: nat,
    auctionDetails: seq<Byte>,
    additionalData: seq<Byte>,
    isInnermostOrder: bool,
    isMakingAmount: bool,
    fillingAmount: Option<nat>,
    feeType: nat,
    integrator: Option<Address>,
    resolverFee: nat,
    whitelistData: Option<seq<Byte>>)

  /** The pieces of the order and taker traits that the settlement reads back. */
  datatype SettlementCalldata = SettlementCalldata(
    makingAmountData: seq<Byte>,
    takingAmountData: seq<Byte>,
    postInteraction: seq<Byte>,
    interaction: seq<Byte>,
    fillingAmount: nat)

  /** The fill amount: the given one, else the order's making or taking amount by fill mode. */
  function FillingAmountOf(a: CalldataArgs): nat {
    if a.fillingAmount.Some? then a.fillingAmount.value
    else if a.isMakingAmount then a.makingAmount
    else a.takingAmount
  }

  /** The post-interaction the builder describes, defaults applied. */
  function PostInteractionOf(a: CalldataArgs): PostInteraction {
    var integrator := if a.integrator.Some? then a.integrator.value else a.orderSigner;
    var whitelistData := if a.whitelistData.Some? then a.whitelistData.value else DefaultWhitelistData(a.resolver);
    PostInteraction(a.settlement, FeeSpecOf(a.feeType, integrator, a.resolverFee), a.auctionStartTime, whitelistData)
  }

  /** A resolver fee that does not fit 4 bytes, a start past uint32 or a wrong-sized tag makes the packer throw. */
  predicate ValidCalldataArgs(a: CalldataArgs) {
    && a.resolverFee < Pow256(4)
    && a.auctionStartTime < Pow256(4)
    && (a.whitelistData.Some? ==> |a.whitelistData.value| == 10)
  }

  function BuildCalldataForOrder(a: CalldataArgs): (c: SettlementCalldata)
    requires ValidCalldataArgs(a)
    ensures c.makingAmountData == c.takingAmountData
    ensures |c.makingAmountData| == 20 + |a.auctionDetails|
    ensures |c.postInteraction| == 20 + FeeLength(PostInteractionOf(a).fee) + TRAILER_LENGTH
    ensures |c.interaction| == 21 + |a.additionalData|
    ensures c.makingAmountData[..20] == c.postInteraction[..20] == a.settlement
    ensures c.interaction[..20] == a.resolver && c.interaction[20] == (if a.isInnermostOrder then 1 else 0)
  {
    SettlementCalldata(
      EncodeAmountData(a.settlement, a.auctionDetails),
      EncodeAmountData(a.settlement, a.auctionDetails),
      EncodePostInteraction(PostInteractionOf(a)),
      EncodeInteraction(a.resolver, a.isInnermostOrder, a.additionalData),
      FillingAmountOf(a))
  }

  /**
   * Everything the settlement reads from the built calldata is what the caller
   * asked for: both amount getters see the same auction, the post-interaction
   * decodes to the selected fee, the auction start and the whitelist tag (by
   * default the resolver's low 10 bytes), the interaction to the resolver, the
   * innermost flag and the next step, and the fill amount follows the fill mode.
   */
  lemma CalldataRoundTrip(a: CalldataArgs)
    requires ValidCalldataArgs(a)
    ensures var c := BuildCalldataForOrder(a);
      && c.makingAmountData == c.takingAmountData == a.settlement + a.auctionDetails
      && (DecodeAuction(a.auctionDetails).Some? ==>
            DecodeAmountData(c.makingAmountData) == Some((a.settlement, DecodeAuction(a.auctionDetails).value)))
      && DecodePostInteraction(c.postInteraction) == Some(PostInteractionOf(a))
      && DecodePostInteraction(c.postInteraction).value.fee
           == FeeSpecOf(a.feeType, if a.integrator.Some? then a.integrator.value else a.orderSigner, a.resolverFee)
      && (a.whitelistData.None? ==>
            ToNat(DecodePostInteraction(c.postInteraction).value.whitelistData) == ToNat(a.resolver) % Pow256(10))
      && DecodeInteraction(c.interaction) == Some((a.resolver, a.isInnermostOrder, a.additionalData))
      && (a.fillingAmount.None? ==> c.fillingAmount == if a.isMakingAmount then a.makingAmount else a.takingAmount)
  {
    var c := BuildCalldataForOrder(a);
    var p := PostInteractionOf(a);
    assert ValidFee(p.fee);
    PostInteractionRoundTrip(p);
    InteractionRoundTrip(a.resolver, a.isInnermostOrder, a.additionalData);
    assert c.makingAmountData[20..] == a.auctionDetails && c.makingAmountData[..20] == a.settlement;
  }
}
