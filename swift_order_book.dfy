/**
 * The iOS client's local replica of one market's order book (the
 * OrderBookManager class of BinanceAPIService.swift). It loads and patches
 * the book exactly like the Android one, but fixes its quantity threshold at
 * creation, has no big-order or spread query, reports no mid-price unless
 * both sides have levels, and zeroes a band whose total volume is not
 * positive.
 */
module SwiftOrderBook {
  import opened Wrappers
  import opened Models
  import opened Levels

  class OrderBookManager {
    const symbol: string
    const isFutures: bool
    const minQuantity: real
    var bids: Side
    var asks: Side
    var lastUpdateId: int

    /** A manager starts with an empty book and update id 0. */
    constructor(symbol: string, isFutures: bool, minQuantity: real)
      ensures this.symbol == symbol && this.isFutures == isFutures && this.minQuantity == minQuantity
      ensures bids == map[] && asks == map[] && lastUpdateId == 0
    {
      this.symbol := symbol;
      this.isFutures := isFutures;
      this.minQuantity := minQuantity;
      bids := map[];
      asks := map[];
      lastUpdateId := 0;
    }

    /**
     * Replaces the whole book by a snapshot. Nothing of the previous book
     * survives; a price listed twice keeps its later quantity; a zero
     * quantity is stored like any other.
     */
    method SetInitialOrderBook(snapshot: OrderBookSnapshot)
      modifies this`bids, this`asks, this`lastUpdateId
      ensures bids == Stored(map[], snapshot.bids) && asks == Stored(map[], snapshot.asks)
      ensures forall p :: Lookup(bids, p) == LastQuantity(snapshot.bids, p)
      ensures forall p :: Lookup(asks, p) == LastQuantity(snapshot.asks, p)
      ensures lastUpdateId == snapshot.lastUpdateId
    {
      bids := map[];
      asks := map[];
      var i := 0;
      while i < |snapshot.bids|
        invariant 0 <= i <= |snapshot.bids|
        invariant bids == Stored(map[], snapshot.bids[..i])
        invariant asks == map[]
      {
        var bid := snapshot.bids[i];
        bids := bids[bid.price := bid.quantity];
        assert snapshot.bids[..i + 1][..i] == snapshot.bids[..i];
        i := i + 1;
      }
      assert snapshot.bids[..i] == snapshot.bids;
      var j := 0;
      while j < |snapshot.asks|
        invariant 0 <= j <= |snapshot.asks|
        invariant asks == Stored(map[], snapshot.asks[..j])
        invariant bids == Stored(map[], snapshot.bids)
      {
        var ask := snapshot.asks[j];
        asks := asks[ask.price := ask.quantity];
        assert snapshot.asks[..j + 1][..j] == snapshot.asks[..j];
        j := j + 1;
      }
      assert snapshot.asks[..j] == snapshot.asks;
      StoredFromEmpty(snapshot.bids);
      StoredFromEmpty(snapshot.asks);
      lastUpdateId := snapshot.lastUpdateId;
    }

    /**
     * Applies one diff batch. Only the prices the batch names change; the
     * last entry for a price decides it (zero deletes, anything else sets);
     * bid entries never touch the asks nor ask entries the bids. The update
     * id is overwritten whatever its previous value, so it may go down.
     */
    method ApplyUpdate(bidsUpdate: seq<Entry>, asksUpdate: seq<Entry>, newLastUpdateId: int)
      modifies this`bids, this`asks, this`lastUpdateId
      ensures bids == Updated(old(bids), bidsUpdate) && asks == Updated(old(asks), asksUpdate)
      ensures forall p :: Lookup(bids, p) ==
                match LastQuantity(bidsUpdate, p)
                case None => Lookup(old(bids), p)
                case Some(q) => if q == 0.0 then None else Some(q)
      ensures forall p :: Lookup(asks, p) ==
                match LastQuantity(asksUpdate, p)
                case None => Lookup(old(asks), p)
                case Some(q) => if q == 0.0 then None else Some(q)
      ensures lastUpdateId == newLastUpdateId
    {
      var i := 0;
      while i < |bidsUpdate|
        invariant 0 <= i <= |bidsUpdate|
        invariant bids == Updated(old(bids), bidsUpdate[..i])
        invariant asks == old(asks)
      {
        var bid := bidsUpdate[i];
        if bid.quantity == 0.0 {
          bids := bids - {bid.price};
        } else {
          bids := bids[bid.price := bid.quantity];
        }
        assert bidsUpdate[..i + 1][..i] == bidsUpdate[..i];
        i := i + 1;
      }
      assert bidsUpdate[..i] == bidsUpdate;
      var j := 0;
      while j < |asksUpdate|
        invariant 0 <= j <= |asksUpdate|
        invariant asks == Updated(old(asks), asksUpdate[..j])
        invariant bids == Updated(old(bids), bidsUpdate)
      {
        var ask := asksUpdate[j];
        if ask.quantity == 0.0 {
          asks := asks - {ask.price};
        } else {
          asks := asks[ask.price := ask.quantity];
        }
        assert asksUpdate[..j + 1][..j] == asksUpdate[..j];
        j := j + 1;
      }
      assert asksUpdate[..j] == asksUpdate;
      forall p ensures Lookup(bids, p) ==
                match LastQuantity(bidsUpdate, p)
                case None => Lookup(old(bids), p)
                case Some(q) => if q == 0.0 then None else Some(q)
      {
        UpdatedAt(old(bids), bidsUpdate, p);
      }
      forall p ensures Lookup(asks, p) ==
                match LastQuantity(asksUpdate, p)
                case None => Lookup(old(asks), p)
                case Some(q) => if q == 0.0 then None else Some(q)
      {
        UpdatedAt(old(asks), asksUpdate, p);
      }
      lastUpdateId := newLastUpdateId;
    }

    /**
     * The two lists a screen shows: the highest `limit` qualifying bids,
     * best first, and the lowest `limit` qualifying asks, best first.
     */
    function GetFilteredOrders(limit: nat): (r: (seq<Entry>, seq<Entry>))
      reads this
      ensures |r.0| <= limit && StrictlyDescending(r.0)
      ensures |r.1| <= limit && StrictlyAscending(r.1)
      ensures forall i :: 0 <= i < |r.0| ==> r.0[i].price in bids && bids[r.0[i].price] == r.0[i].quantity && r.0[i].quantity >= minQuantity
      ensures forall i :: 0 <= i < |r.1| ==> r.1[i].price in asks && asks[r.1[i].price] == r.1[i].quantity && r.1[i].quantity >= minQuantity
      ensures forall p :: p in bids && bids[p] >= minQuantity ==>
                (exists i :: 0 <= i < |r.0| && r.0[i].price == p) ||
                (|r.0| == limit && forall i :: 0 <= i < |r.0| ==> r.0[i].price > p)
      ensures forall p :: p in asks && asks[p] >= minQuantity ==>
                (exists i :: 0 <= i < |r.1| && r.1[i].price == p) ||
                (|r.1| == limit && forall i :: 0 <= i < |r.1| ==> r.1[i].price < p)
    {
      (TopBids(bids, minQuantity, limit), TopAsks(asks, minQuantity, limit))
    }

    /** The mid-price, defined only when both sides have levels. */
    function GetCurrentPrice(): (r: Option<real>)
      reads this
      ensures r.Some? <==> |bids| > 0 && |asks| > 0
      ensures forall hb, la :: IsHighest(hb, bids) && IsLowest(la, asks) ==> r == Some((hb + la) / 2.0)
    {
      if |bids| > 0 && |asks| > 0 then Some((MaxKey(bids.Keys) + MinKey(asks.Keys)) / 2.0) else None
    }

    /**
     * The depth imbalance of one band around the current price: bids from
     * `lowerPercent` below it up to it, asks from it up to `upperPercent`
     * above it. Absent exactly when there is no current price.
     */
    function CalculateDepthRatioRange(lowerPercent: real, upperPercent: real): (r: Option<PriceRangeRatio>)
      reads this
      ensures r.None? <==> GetCurrentPrice().None?
      ensures r.Some? ==>
                var mid := GetCurrentPrice().value;
                r.value == DepthRecord(Band(lowerPercent, upperPercent),
                                       BidVolume(bids, mid, lowerPercent), AskVolume(asks, mid, upperPercent))
      ensures r.Some? && NonNegative(bids) && NonNegative(asks) ==> -1.0 <= r.value.ratio <= 1.0
    {
      match GetCurrentPrice()
      case None => None
      case Some(mid) =>
        BandVolumesNonNegative(bids, asks, mid, lowerPercent, upperPercent);
        Some(DepthRecord(Band(lowerPercent, upperPercent),
                         BidVolume(bids, mid, lowerPercent), AskVolume(asks, mid, upperPercent)))
    }
  }

  /**
   * The record for one band with the given volumes: the zero record unless
   * the total volume is positive, the imbalance and its share otherwise.
   */
  function DepthRecord(band: Band, bidsVolume: real, asksVolume: real): (r: PriceRangeRatio)
    ensures r.range == band
    ensures bidsVolume + asksVolume <= 0.0 ==> r == ZeroRatio(band)
    ensures bidsVolume + asksVolume > 0.0 ==>
              r.bidsVolume == bidsVolume && r.asksVolume == asksVolume &&
              r.delta == bidsVolume - asksVolume && r.ratio * (bidsVolume + asksVolume) == r.delta
    ensures bidsVolume >= 0.0 && asksVolume >= 0.0 ==> -1.0 <= r.ratio <= 1.0
  {
    if bidsVolume + asksVolume > 0.0 then Ratio(band, bidsVolume, asksVolume) else ZeroRatio(band)
  }
}
