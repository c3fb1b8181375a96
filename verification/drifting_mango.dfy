/** The spread signal of the Drift/Mango arbitrage: slippage-adjusted entry
    prices on Drift, the two spread percentages against Mango's top of book,
    and the strict threshold rule that fires a paired trade. Prices are
    `real`s, an idealisation of JavaScript's floating-point numbers. */
module DriftingMango {
  import opened Orders

  /** Percent spread needed to open a position; a fixed constant. */
  const THRESHOLD: real := 0.44444

  /** Notional of each leg, in USD. */
  const POSITION_SIZE_USD: real := 100.0

  /** Drift position value beyond which the exposure check complains. */
  const MAX_POSITION_SIZE: real := 3000.0

  /** The latest Drift entry prices; zero until the first market update. */
  datatype PriceInfo = PriceInfo(longEntry: real, shortEntry: real)

  const InitialPriceInfo: PriceInfo := PriceInfo(0.0, 0.0)

  /** The `marketsAccountUpdate` listener: the mark price worsened by the
      slippage of a long (paid more) and of a short (received less). */
  function OnMarketsAccountUpdate(mark: real, longSlippage: real, shortSlippage: real): (p: PriceInfo)
    ensures mark > 0.0 ==> (p.longEntry >= mark <==> longSlippage >= 0.0)
    ensures mark > 0.0 ==> (p.shortEntry <= mark <==> shortSlippage >= 0.0)
    ensures mark == 0.0 ==> p == InitialPriceInfo
  {
    PriceInfo(mark * (1.0 + longSlippage), mark * (1.0 - shortSlippage))
  }

  /** The guard of `mainLoop`: a zero entry price means "no update yet". */
  predicate Ready(p: PriceInfo)
  {
    p.shortEntry != 0.0 && p.longEntry != 0.0
  }

  /** A JavaScript number as far as the spread arithmetic can produce one:
      dividing by a zero price yields an infinity or NaN. */
  datatype JsNumber = Finite(value: real) | PosInfinity | NegInfinity | NaN

  /** `(to - from) / from * 100` with JavaScript's division by zero. */
  function PercentChange(from: real, to: real): (q: JsNumber)
    ensures q.Finite? <==> from != 0.0
    ensures from > 0.0 ==> (q.value > 0.0 <==> to > from)
    ensures from == 0.0 ==> (q == PosInfinity <==> to > 0.0)
  {
    if from != 0.0 then Finite((to - from) / from * 100.0)
    else if to > 0.0 then PosInfinity
    else if to < 0.0 then NegInfinity
    else NaN
  }

  /** `q > t`: true of +Infinity, false of -Infinity and NaN. */
  predicate Exceeds(q: JsNumber, t: real)
  {
    match q
    case Finite(v) => v > t
    case PosInfinity => true
    case NegInfinity => false
    case NaN => false
  }

  /** `canOpenDriftShort`: the Drift position value is above -MAX_POSITION_SIZE. */
  predicate CanOpenDriftShort(positionValue: real)
  {
    positionValue > -1.0 * MAX_POSITION_SIZE
  }

  /** `canOpenDriftLong`: the Drift position value is below MAX_POSITION_SIZE. */
  predicate CanOpenDriftLong(positionValue: real)
  {
    positionValue < MAX_POSITION_SIZE
  }

  datatype Direction = Long | Short

  /** One paired trade sent as a single transaction: a Drift position of
      `driftDirection` worth `driftNotional` USD, and a Mango order of
      `mangoSide` and `mangoKind` at `mangoPrice`. `mangoUsdAmount` is the
      `usdAmount` argument handed to `marketLong`/`marketShort`, which do not
      use it to size the order. `diff` is the spread that fired the trade;
      `exposureWarning` records that the exposure check failed and was only
      logged. */
  datatype Trade = Trade(driftDirection: Direction, driftNotional: real,
                         mangoSide: Side, mangoKind: OrderKind, mangoUsdAmount: real,
                         mangoPrice: real, diff: JsNumber, exposureWarning: bool)

  /** The `driftLongDiff` of `mainLoop`; `mangoBid` holds Mango's top ASK. */
  function DriftLongDiff(info: PriceInfo, mangoBid: real): JsNumber
  {
    PercentChange(info.longEntry, mangoBid)
  }

  /** The `driftShortDiff` of `mainLoop`; `mangoAsk` holds Mango's top BID. */
  function DriftShortDiff(info: PriceInfo, mangoAsk: real): JsNumber
  {
    PercentChange(mangoAsk, info.shortEntry)
  }

  predicate FiresLong(trades: seq<Trade>)
  {
    exists i :: 0 <= i < |trades| && trades[i].driftDirection == Long
  }

  predicate FiresShort(trades: seq<Trade>)
  {
    exists i :: 0 <= i < |trades| && trades[i].driftDirection == Short
  }

  /** One `mainLoop` decision. `topAsk`/`topBid` are Mango's best prices,
      `None` when that book side is empty (the query throws); `positionValue`
      is Drift's position value in USD. */
  function MainLoop(info: PriceInfo, topAsk: Option<real>, topBid: Option<real>,
                    positionValue: real): (trades: seq<Trade>)
    ensures !Ready(info) || topAsk.None? || topBid.None? ==> trades == []
    ensures |trades| <= 2
    ensures |trades| == 2 ==> trades[0].driftDirection == Long && trades[1].driftDirection == Short
    // every trade is a hedged pair of two $100 legs in opposite directions
    ensures forall t :: t in trades ==>
              && t.driftNotional == POSITION_SIZE_USD && t.mangoUsdAmount == POSITION_SIZE_USD
              && t.mangoSide == (if t.driftDirection == Long then Sell else Buy)
              && t.mangoKind == Market
              && Exceeds(t.diff, THRESHOLD)
    // both Mango legs are priced at the top BID, and `diff` is the spread of
    // the trade's own direction
    ensures trades != [] ==> Ready(info) && topAsk.Some? && topBid.Some?
    ensures forall t :: t in trades ==>
              && t.mangoPrice == topBid.value
              && t.diff == (if t.driftDirection == Long then DriftLongDiff(info, topAsk.value)
                            else DriftShortDiff(info, topBid.value))
    // a failed exposure check is recorded, never used to drop the trade
    ensures forall t :: t in trades ==>
              t.exposureWarning == (if t.driftDirection == Long then !CanOpenDriftLong(positionValue)
                                    else !CanOpenDriftShort(positionValue))
  {
    if !Ready(info) || topAsk.None? || topBid.None? then []
    else
      var mangoBid := topAsk.value;
      var mangoAsk := topBid.value;
      var shortDiff := DriftShortDiff(info, mangoAsk);
      var longDiff := DriftLongDiff(info, mangoBid);
      var long := if Exceeds(longDiff, THRESHOLD)
                  then [Trade(Long, POSITION_SIZE_USD, Sell, Market, POSITION_SIZE_USD, mangoAsk,
                              longDiff, !CanOpenDriftLong(positionValue))]
                  else [];
      var short := if Exceeds(shortDiff, THRESHOLD)
                   then [Trade(Short, POSITION_SIZE_USD, Buy, Market, POSITION_SIZE_USD, mangoAsk,
                               shortDiff, !CanOpenDriftShort(positionValue))]
                   else [];
      long + short
  }

  /** Before any update the loop is not ready; after one it is ready exactly
      when neither entry price came out zero. */
  lemma ReadyAfterUpdate(mark: real, longSlippage: real, shortSlippage: real)
    ensures !Ready(InitialPriceInfo)
    ensures Ready(OnMarketsAccountUpdate(mark, longSlippage, shortSlippage))
        <==> mark != 0.0 && longSlippage != -1.0 && shortSlippage != 1.0
  {
    var p := OnMarketsAccountUpdate(mark, longSlippage, shortSlippage);
    if mark != 0.0 && longSlippage != -1.0 {
      ProductNonZero(mark, 1.0 + longSlippage);
    }
    if mark != 0.0 && shortSlippage != 1.0 {
      ProductNonZero(mark, 1.0 - shortSlippage);
    }
  }

  lemma ProductNonZero(a: real, b: real)
    requires a != 0.0 && b != 0.0
    ensures a * b != 0.0
  {
    if a > 0.0 {
      if b > 0.0 { assert a * b > 0.0; } else { assert a * b < 0.0; }
    } else {
      if b > 0.0 { assert a * b < 0.0; } else { assert a * b > 0.0; }
    }
  }

  /** The signs of the two spreads: with a positive long entry the long
      spread is positive exactly when Mango's top ask is above it; with a
      positive top bid the short spread is positive exactly when the short
      entry is above that bid. */
  lemma SpreadSigns(info: PriceInfo, mangoBid: real, mangoAsk: real)
    ensures info.longEntry > 0.0 ==> (DriftLongDiff(info, mangoBid).value > 0.0 <==> mangoBid > info.longEntry)
    ensures mangoAsk > 0.0 ==> (DriftShortDiff(info, mangoAsk).value > 0.0 <==> info.shortEntry > mangoAsk)
  {
  }

  /** The long trade fires exactly when the long spread is strictly above
      THRESHOLD, whatever the short side does. */
  lemma LongFiresIff(info: PriceInfo, topAsk: real, topBid: real, positionValue: real)
    requires Ready(info)
    ensures FiresLong(MainLoop(info, Some(topAsk), Some(topBid), positionValue))
        <==> (topAsk - info.longEntry) / info.longEntry * 100.0 > THRESHOLD
  {
    var trades := MainLoop(info, Some(topAsk), Some(topBid), positionValue);
    if FiresLong(trades) {
      var i :| 0 <= i < |trades| && trades[i].driftDirection == Long;
      assert trades[i] in trades;
    }
  }

  /** The short trade fires exactly when the short spread is strictly above
      THRESHOLD; a zero top bid makes the spread +Infinity for any positive
      short entry. */
  lemma ShortFiresIff(info: PriceInfo, topAsk: real, topBid: real, positionValue: real)
    requires Ready(info)
    ensures topBid != 0.0 ==>
              (FiresShort(MainLoop(info, Some(topAsk), Some(topBid), positionValue)) <==>
               (info.shortEntry - topBid) / topBid * 100.0 > THRESHOLD)
    ensures topBid == 0.0 ==>
              (FiresShort(MainLoop(info, Some(topAsk), Some(topBid), positionValue)) <==>
               info.shortEntry > 0.0)
  {
    var trades := MainLoop(info, Some(topAsk), Some(topBid), positionValue);
    if FiresShort(trades) {
      var i :| 0 <= i < |trades| && trades[i].driftDirection == Short;
      assert trades[i] in trades;
    }
    if Exceeds(DriftShortDiff(info, topBid), THRESHOLD) {
      assert trades[|trades| - 1].driftDirection == Short;
    }
  }

  /** The comparison is strict: a spread of exactly 0.44444 does not fire,
      0.44445 does. */
  lemma ThresholdIsStrict()
    ensures !FiresLong(MainLoop(PriceInfo(100.0, 99.0), Some(100.44444), Some(99.5), 0.0))
    ensures FiresLong(MainLoop(PriceInfo(100.0, 99.0), Some(100.44445), Some(99.5), 0.0))
  {
    LongFiresIff(PriceInfo(100.0, 99.0), 100.44444, 99.5, 0.0);
    LongFiresIff(PriceInfo(100.0, 99.0), 100.44445, 99.5, 0.0);
  }

  /** The exposure check never removes a trade: two position values yield
      the same trades, apart from the logged warning. */
  lemma ExposureNeverSuppresses(info: PriceInfo, topAsk: Option<real>, topBid: Option<real>,
                                positionValue: real, positionValue': real)
    ensures var a := MainLoop(info, topAsk, topBid, positionValue);
            var b := MainLoop(info, topAsk, topBid, positionValue');
            |a| == |b| &&
            forall i :: 0 <= i < |a| ==> a[i].(exposureWarning := false) == b[i].(exposureWarning := false)
  {
  }

  /** Both directions can fire in one cycle, long first. */
  lemma BothCanFire()
    ensures var trades := MainLoop(PriceInfo(100.0, 102.0), Some(101.0), Some(100.0), 0.0);
            |trades| == 2 && FiresLong(trades) && FiresShort(trades)
  {
    var trades := MainLoop(PriceInfo(100.0, 102.0), Some(101.0), Some(100.0), 0.0);
    assert trades[0].driftDirection == Long;
    assert trades[1].driftDirection == Short;
  }

  /** A long entry of 100.00 against a Mango top ask of 100.50 is a 0.5%
      spread: Drift goes long $100 and Mango sells $100 at its top bid. */
  lemma LongSpreadScenario()
    ensures MainLoop(PriceInfo(100.0, 99.0), Some(100.5), Some(100.4), 0.0)
              == [Trade(Long, 100.0, Sell, Market, 100.0, 100.4, Finite(0.5), false)]
  {
  }

  /** Either direction is always open to at least one side, and a position
      on one side never blocks a trade that opens the other way. Both checks
      are monotone: a smaller position never closes the long side, a larger
      one never closes the short side. */
  lemma ExposureBand(positionValue: real, positionValue': real)
    ensures CanOpenDriftLong(positionValue) && positionValue' <= positionValue ==> CanOpenDriftLong(positionValue')
    ensures CanOpenDriftShort(positionValue) && positionValue' >= positionValue ==> CanOpenDriftShort(positionValue')
    ensures CanOpenDriftLong(positionValue) || CanOpenDriftShort(positionValue)
    ensures positionValue <= 0.0 ==> CanOpenDriftLong(positionValue)
    ensures positionValue >= 0.0 ==> CanOpenDriftShort(positionValue)
  {
  }
}
