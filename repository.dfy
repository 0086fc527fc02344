/**
 * The pure parts of the Android order-book cache (OrderBookRepository.kt):
 * the conversion between order-book levels and cached rows, the market
 * record rebuilt from cached rows, and the update of a cache entry's
 * timestamps.
 */
module Repository {
  import opened Wrappers
  import opened Models

  // ------------------------------------------------------------ cached rows

  /** One cached level of one side of one market's book. */
  datatype OrderBookEntryEntity = OrderBookEntryEntity(
    id: string,
    symbol: string,
    isFutures: bool,
    price: real,
    quantity: real,
    isBid: bool,
    lastUpdated: int,
    isActive: bool)

  /**
   * The row a level is cached as. The row id (a formatted number) and the
   * clock reading are passed in.
   */
  function ToEntity(e: Entry, id: string, symbol: string, isFutures: bool, isBid: bool, now: int): (r: OrderBookEntryEntity)
    ensures r.price == e.price && r.quantity == e.quantity
    ensures r.id == id && r.symbol == symbol && r.isFutures == isFutures && r.isBid == isBid
    ensures r.lastUpdated == now && r.isActive
  {
    OrderBookEntryEntity(id, symbol, isFutures, e.price, e.quantity, isBid, now, true)
  }

  /** The level a cached row stands for. */
  function ToModel(row: OrderBookEntryEntity): (r: Entry)
    ensures r.price == row.price && r.quantity == row.quantity
  {
    Entry(row.price, row.quantity)
  }

  /** Caching a level and reading it back gives the level. */
  lemma ToModelToEntity(e: Entry, id: string, symbol: string, isFutures: bool, isBid: bool, now: int)
    ensures ToModel(ToEntity(e, id, symbol, isFutures, isBid, now)) == e
  {
  }

  /** `rows.map { it.toModel() }` */
  function ToModels(rows: seq<OrderBookEntryEntity>): (r: seq<Entry>)
    ensures |r| == |rows|
    ensures forall i :: 0 <= i < |rows| ==> r[i] == ToModel(rows[i])
  {
    seq(|rows|, i requires 0 <= i < |rows| => ToModel(rows[i]))
  }

  /** `levels.map { it.toEntity(symbol, isFutures, isBid) }`, with one id per level. */
  function ToEntities(levels: seq<Entry>, ids: seq<string>, symbol: string, isFutures: bool, isBid: bool, now: int): (r: seq<OrderBookEntryEntity>)
    requires |ids| == |levels|
    ensures |r| == |levels|
    ensures forall i :: 0 <= i < |levels| ==> r[i] == ToEntity(levels[i], ids[i], symbol, isFutures, isBid, now)
  {
    seq(|levels|, i requires 0 <= i < |levels| => ToEntity(levels[i], ids[i], symbol, isFutures, isBid, now))
  }

  /** Caching a side and reading it back gives the side, in order. */
  lemma {:induction false} RoundTrip(levels: seq<Entry>, ids: seq<string>, symbol: string, isFutures: bool, isBid: bool, now: int)
    requires |ids| == |levels|
    ensures ToModels(ToEntities(levels, ids, symbol, isFutures, isBid, now)) == levels
  {
    var back := ToModels(ToEntities(levels, ids, symbol, isFutures, isBid, now));
    forall i | 0 <= i < |levels|
      ensures back[i] == levels[i]
    {
      ToModelToEntity(levels[i], ids[i], symbol, isFutures, isBid, now);
    }
  }

  // ---------------------------------------------------- record from the cache

  /** The share of the largest quantity from which a cached level counts as a big order. */
  const BigOrderShare: real := 0.1

  /** The levels whose quantity reaches `threshold`, in their original order. */
  function AtLeastQuantity(levels: seq<Entry>, threshold: real): (r: seq<Entry>)
    ensures |r| <= |levels|
    ensures forall e :: e in r <==> e in levels && e.quantity >= threshold
    decreases |levels|
  {
    if levels == [] then []
    else if levels[0].quantity >= threshold then [levels[0]] + AtLeastQuantity(levels[1..], threshold)
    else AtLeastQuantity(levels[1..], threshold)
  }

  /**
   * Filtering keeps the order: the filtered concatenation is the
   * concatenation of the filtered parts, so qualifying bids precede
   * qualifying asks.
   */
  lemma {:induction false} AtLeastQuantityAppend(a: seq<Entry>, b: seq<Entry>, threshold: real)
    ensures AtLeastQuantity(a + b, threshold) == AtLeastQuantity(a, threshold) + AtLeastQuantity(b, threshold)
    decreases |a|
  {
    if a != [] {
      assert (a + b)[1..] == a[1..] + b;
      AtLeastQuantityAppend(a[1..], b, threshold);
    } else {
      assert a + b == b;
    }
  }

  /**
   * `buildMarketDataFromCache`: the cached rows as levels, the midpoint and
   * difference of the first ask and first bid (0 unless both sides have
   * rows), the largest quantity (1 when there are no rows), no ratios, and
   * as big orders the rows of both sides whose quantity reaches a tenth of
   * the largest one, bids first.
   */
  function BuildMarketDataFromCache(cachedBids: seq<OrderBookEntryEntity>, cachedAsks: seq<OrderBookEntryEntity>,
                                    symbol: string, isFutures: bool): (r: MarketDepthData)
    ensures r.symbol == symbol && r.isFutures == isFutures
    ensures r.bids == ToModels(cachedBids) && r.asks == ToModels(cachedAsks)
    ensures |cachedBids| > 0 && |cachedAsks| > 0 ==>
              r.currentPrice == (cachedBids[0].price + cachedAsks[0].price) / 2.0 &&
              r.spread == cachedAsks[0].price - cachedBids[0].price
    ensures |cachedBids| == 0 || |cachedAsks| == 0 ==> r.currentPrice == 0.0 && r.spread == 0.0
    ensures r.maxQuantity == MaxQuantity(r.bids + r.asks)
    ensures r.buySellRatio == []
    ensures r.bigOrders == AtLeastQuantity(r.bids, r.maxQuantity * BigOrderShare) +
                           AtLeastQuantity(r.asks, r.maxQuantity * BigOrderShare)
  {
    var bids := ToModels(cachedBids);
    var asks := ToModels(cachedAsks);
    var both := |bids| > 0 && |asks| > 0;
    var currentPrice := if both then (bids[0].price + asks[0].price) / 2.0 else 0.0;
    var spread := if both then asks[0].price - bids[0].price else 0.0;
    var maxQuantity := MaxQuantity(bids + asks);
    var threshold := maxQuantity * BigOrderShare;
    var bigOrders := AtLeastQuantity(bids + asks, threshold);
    AtLeastQuantityAppend(bids, asks, threshold);
    assert bigOrders == AtLeastQuantity(bids, threshold) + AtLeastQuantity(asks, threshold);
    MarketDepthData(symbol, isFutures, bids, asks, currentPrice, spread, maxQuantity, [], bigOrders)
  }

  /** Rows ordered as the cache delivers bids: best (highest) price first. */
  predicate BestBidFirst(rows: seq<OrderBookEntryEntity>) {
    forall i, j :: 0 <= i < j < |rows| ==> rows[i].price >= rows[j].price
  }

  /** Rows ordered as the cache delivers asks: best (lowest) price first. */
  predicate BestAskFirst(rows: seq<OrderBookEntryEntity>) {
    forall i, j :: 0 <= i < j < |rows| ==> rows[i].price <= rows[j].price
  }

  /**
   * With the cache's orderings, the rebuilt price is the midpoint of the
   * highest cached bid and the lowest cached ask, and the spread is the gap
   * between them.
   */
  lemma CachedPriceIsMidpoint(cachedBids: seq<OrderBookEntryEntity>, cachedAsks: seq<OrderBookEntryEntity>,
                              symbol: string, isFutures: bool, bestBid: real, bestAsk: real)
    requires BestBidFirst(cachedBids) && BestAskFirst(cachedAsks)
    requires exists i :: 0 <= i < |cachedBids| && cachedBids[i].price == bestBid
    requires forall i :: 0 <= i < |cachedBids| ==> cachedBids[i].price <= bestBid
    requires exists j :: 0 <= j < |cachedAsks| && cachedAsks[j].price == bestAsk
    requires forall j :: 0 <= j < |cachedAsks| ==> cachedAsks[j].price >= bestAsk
    ensures var r := BuildMarketDataFromCache(cachedBids, cachedAsks, symbol, isFutures);
            r.currentPrice == (bestBid + bestAsk) / 2.0 && r.spread == bestAsk - bestBid
  {
  }

  /**
   * A cache with at least one row and no negative quantity always reports
   * a big order: the largest row reaches a tenth of itself.
   */
  lemma {:induction false} BigOrdersNonEmpty(cachedBids: seq<OrderBookEntryEntity>, cachedAsks: seq<OrderBookEntryEntity>,
                                             symbol: string, isFutures: bool)
    requires |cachedBids| + |cachedAsks| > 0
    requires forall row :: row in cachedBids + cachedAsks ==> row.quantity >= 0.0
    ensures |BuildMarketDataFromCache(cachedBids, cachedAsks, symbol, isFutures).bigOrders| > 0
  {
    var r := BuildMarketDataFromCache(cachedBids, cachedAsks, symbol, isFutures);
    var k :| 0 <= k < |r.bids + r.asks| && (r.bids + r.asks)[k].quantity == r.maxQuantity;
    var e := (r.bids + r.asks)[k];
    assert e.quantity >= 0.0 by {
      if k < |r.bids| {
        assert cachedBids[k] in cachedBids + cachedAsks;
      } else {
        assert cachedAsks[k - |r.bids|] in cachedBids + cachedAsks;
      }
    }
    AtLeastQuantityAppend(r.bids, r.asks, r.maxQuantity * BigOrderShare);
    assert e in AtLeastQuantity(r.bids + r.asks, r.maxQuantity * BigOrderShare);
  }

  // ----------------------------------------------------------- cache metadata

  /** The bookkeeping of one market's cache: when it was last fully and incrementally updated. */
  datatype CacheMetadata = CacheMetadata(
    key: string,
    lastFullUpdate: int,
    lastIncrementalUpdate: int,
    dataVersion: int,
    isValid: bool)

  /**
   * The metadata `smartUpdateOrderBook` stores at time `now`, starting from
   * the stored entry or, when there is none, a new valid entry whose full
   * update time is `now` for a full update and 0 for an incremental one.
   * Both kinds set the incremental time and the version to `now`; only a
   * full update sets the full update time.
   */
  function UpdatedMetadata(stored: Option<CacheMetadata>, key: string, isIncremental: bool, now: int): (r: CacheMetadata)
    ensures r.lastIncrementalUpdate == now && r.dataVersion == now
    ensures !isIncremental ==> r.lastFullUpdate == now
    ensures isIncremental && stored.Some? ==> r.lastFullUpdate == stored.value.lastFullUpdate
    ensures isIncremental && stored.None? ==> r.lastFullUpdate == 0
    ensures stored.Some? ==> r.key == stored.value.key && r.isValid == stored.value.isValid
    ensures stored.None? ==> r.key == key && r.isValid
  {
    var metadata := match stored
      case Some(m) => m
      case None => CacheMetadata(key, if !isIncremental then now else 0, now, now, true);
    if isIncremental then
      metadata.(lastIncrementalUpdate := now, dataVersion := now)
    else
      metadata.(lastFullUpdate := now, lastIncrementalUpdate := now, dataVersion := now)
  }

  /**
   * The timestamps of a cache entry are in order: the last full update is
   * no later than the last incremental one, which is the data version.
   */
  predicate Ordered(m: CacheMetadata) {
    m.lastFullUpdate <= m.lastIncrementalUpdate == m.dataVersion
  }

  /**
   * An update at a time no earlier than every stored timestamp (and not
   * before the epoch) yields ordered timestamps.
   */
  lemma UpdatedMetadataOrdered(stored: Option<CacheMetadata>, key: string, isIncremental: bool, now: int)
    requires now >= 0
    requires stored.Some? ==> stored.value.lastFullUpdate <= now
    ensures Ordered(UpdatedMetadata(stored, key, isIncremental, now))
  {
  }

  /** Storing the same update twice at the same time is the same as storing it once. */
  lemma UpdatedMetadataIdempotent(stored: Option<CacheMetadata>, key: string, isIncremental: bool, now: int)
    ensures var once := UpdatedMetadata(stored, key, isIncremental, now);
            UpdatedMetadata(Some(once), key, isIncremental, now) == once
  {
  }
}
