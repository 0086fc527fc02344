/**
 * The value types shared by the Android and iOS clients (Models.kt, Models.swift):
 * one price level, a REST snapshot, a WebSocket depth event, a depth-ratio
 * record and the aggregate handed to the screens.
 */
module Models {

  /** One price level (OrderBookEntry). Prices and quantities are exact reals. */
  datatype Entry = Entry(price: real, quantity: real)

  /** A full order book as the REST depth endpoint returns it, already parsed. */
  datatype OrderBookSnapshot = OrderBookSnapshot(lastUpdateId: int, bids: seq<Entry>, asks: seq<Entry>)

  /** A `depthUpdate` event from the diff stream, already parsed. */
  datatype DepthUpdateEvent = DepthUpdateEvent(
    eventType: string,
    eventTime: int,
    symbol: string,
    firstUpdateId: int,
    finalUpdateId: int,
    bids: seq<Entry>,
    asks: seq<Entry>)

  /**
   * The price band a ratio was computed for. The source renders it as the
   * label "<lower>-<upper>%"; the model keeps the two numbers the label is
   * made of.
   */
  datatype Band = Band(lowerPercent: real, upperPercent: real)

  /** Depth imbalance inside one band around the mid-price (PriceRangeRatio). */
  datatype PriceRangeRatio = PriceRangeRatio(range: Band, ratio: real, bidsVolume: real, asksVolume: real, delta: real)

  /** The record both clients publish when a band cannot or need not be measured. */
  function ZeroRatio(band: Band): PriceRangeRatio {
    PriceRangeRatio(band, 0.0, 0.0, 0.0, 0.0)
  }

  /** The aggregate published to the screens (MarketDepthData). */
  datatype MarketDepthData = MarketDepthData(
    symbol: string,
    isFutures: bool,
    bids: seq<Entry>,
    asks: seq<Entry>,
    currentPrice: real,
    spread: real,
    maxQuantity: real,
    buySellRatio: seq<PriceRangeRatio>,
    bigOrders: seq<Entry>)

  /** ANALYSIS_RANGES of both services: the four percentage bands around mid. */
  const AnalysisRanges: seq<Band> := [Band(0.0, 1.0), Band(1.0, 2.5), Band(2.5, 5.0), Band(5.0, 10.0)]

  /** The number of levels per side both services ask for when publishing. */
  const PublishLimit: nat := 100

  /**
   * `levels.map { it.quantity }.maxOrNull() ?: 1.0`: the largest quantity, or
   * 1.0 when there are no levels (a safe divisor for bar scaling).
   */
  function MaxQuantity(levels: seq<Entry>): (r: real)
    ensures |levels| == 0 ==> r == 1.0
    ensures |levels| > 0 ==> exists i :: 0 <= i < |levels| && levels[i].quantity == r
    ensures forall i :: 0 <= i < |levels| ==> levels[i].quantity <= r
    decreases |levels|
  {
    if |levels| == 0 then 1.0
    else if |levels| == 1 then levels[0].quantity
    else
      var rest := MaxQuantity(levels[1..]);
      if levels[0].quantity >= rest then levels[0].quantity else rest
  }
}
