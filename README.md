# Binance order-book viewer: local book replica and market-data services

This project models the core of a two-client Binance depth viewer: an Android
app in Kotlin and an iOS app in Swift. Both keep a local replica of each market's
limit order book and build the record the screens display from it. Every
replica is a pair of price-to-quantity maps (bids and asks) plus the id of the
last diff applied. A REST snapshot loads it, and WebSocket depth diffs patch
it. The clients read these views from it:

- the top 100 levels per side above a quantity threshold;
- the big orders;
- the mid-price and the spread;
- the bid/ask depth imbalance inside four percentage bands around the mid-price.

Around the replica the model covers:

- **Android service** (`BinanceApiServiceImpl`):
  - the manager table keyed `<SYMBOL>_SPOT` / `<SYMBOL>_FUTURES`, as `switchSymbol` rebuilds it;
  - the adaptive-threshold cache;
  - the reconnect counter with its table-driven backoff;
  - the per-market publish throttle;
  - the "significant change" noise filter that may keep the record already shown.
- **iOS service** (`BinanceAPIService`):
  - its manager table;
  - the exponential reconnect backoff, and the open/close decisions;
  - the record it publishes for each depth event.
- **Android repository**: the cached-row conversions, the record rebuilt from cached rows, and the cache-metadata timestamp update.
- **iOS view model**: the per-symbol threshold table.
- **Android bar view**: the width of the depth bar drawn behind a row.

Layout, one module per file:

- `models.dfy`: the shared value types. Prices and quantities are exact `real`s.
- `levels.dfy`: one side of a book, as `map<real, real>`. It holds the folds for loading and patching, the sorted listings, and the band volumes, with their lemmas.
- `kotlin_order_book.dfy` and `swift_order_book.dfy`: the two `OrderBookManager` classes. They load and patch their maps in loops whose invariants tie them to the folds.
- `market_keys.dfy`: the table keys.
- `kotlin_api_service.dfy` and `swift_api_service.dfy`: the two services, as classes whose methods are the callbacks.
- `repository.dfy`, `view_model.dfy` and `bar_width.dfy`: the smaller pieces.
- `wrappers.dfy`: `Option`.

The model follows the code where the code departs from the system's intended
design:

- **No stale-diff rejection.** Neither client rejects a stale or duplicate diff: `applyUpdate` overwrites the update id unconditionally, so it may go down.
- **Zero-quantity snapshot levels are stored.** A snapshot level with quantity 0 is stored like any other.
- **Mid-price differs between clients.** The Android mid-price falls back to the one non-empty side; the iOS one is absent unless both sides have levels.
- **Zero-volume test differs.** The Android depth ratio treats a total volume of exactly 0 as "no volume"; the iOS one treats any total that is not positive that way.
- **Old managers stay in the Android table.** On a symbol change, Android `switchSymbol` removes the table entries of the NEW symbol's keys. The previous symbol's managers therefore stay in the table. The model states this as written: no key other than the new symbol's two changes.

## Model

| member | source | states |
|---|---|---|
| Models.MaxQuantity | androidShowLimitOrderBN/app/src/main/java/com/pythonn/androidshowlimitorderbn/data/remote/BinanceApiServiceImpl.kt:469-470 | the largest quantity of the listed levels (it is one of them and bounds all of them), and 1.0 when there are none |
| MarketKeys.Upper | androidShowLimitOrderBN/app/src/main/java/com/pythonn/androidshowlimitorderbn/data/remote/BinanceApiServiceImpl.kt:434 | upper-casing keeps the length and maps every character by the ASCII upper-case rule |
| MarketKeys.ManagerKeyInjective | androidShowLimitOrderBN/app/src/main/java/com/pythonn/androidshowlimitorderbn/data/remote/BinanceApiServiceImpl.kt:306-307 | two manager keys are equal exactly when the upper-cased symbols and the markets are equal |
| MarketKeys.SpotAndFuturesKeysDiffer | androidShowLimitOrderBN/app/src/main/java/com/pythonn/androidshowlimitorderbn/data/remote/BinanceApiServiceImpl.kt:306-307 | a symbol's spot and futures keys never collide |
| Levels.LastQuantity | androidShowLimitOrderBN/app/src/main/java/com/pythonn/androidshowlimitorderbn/data/remote/OrderBookManager.kt:23-29 | the quantity decided for a price by a list of levels is absent exactly when no level names that price |
| Levels.LastQuantityIsLast | androidShowLimitOrderBN/app/src/main/java/com/pythonn/androidshowlimitorderbn/data/remote/OrderBookManager.kt:23-29 | the decided quantity is that of a level at the price after which no level names the price again (the later duplicate wins) |
| Levels.StoredAt | androidShowLimitOrderBN/app/src/main/java/com/pythonn/androidshowlimitorderbn/data/remote/OrderBookManager.kt:19-31 | after loading levels, a named price holds its last quantity, zero included, and every other price keeps its value |
| Levels.StoredFromEmpty | androidShowLimitOrderBN/app/src/main/java/com/pythonn/androidshowlimitorderbn/data/remote/OrderBookManager.kt:19-31 | a side loaded into a cleared map holds exactly the snapshot's prices, each with its last listed quantity |
| Levels.StoredIdempotent | androidShowLimitOrderBN/app/src/main/java/com/pythonn/androidshowlimitorderbn/data/remote/OrderBookManager.kt:19-31 | loading the same snapshot levels twice gives the same side as loading them once |
| Levels.UpdatedAt | androidShowLimitOrderBN/app/src/main/java/com/pythonn/androidshowlimitorderbn/data/remote/OrderBookManager.kt:34-51 | after a diff batch, a named price is decided by its last entry (0 removes it, present or not; any other quantity sets it) and an unnamed price is untouched |
| Levels.UpdatedIdempotent | androidShowLimitOrderBN/app/src/main/java/com/pythonn/androidshowlimitorderbn/data/remote/OrderBookManager.kt:34-51 | applying the same diff batch twice is the same as applying it once |
| Levels.MaxKey | androidShowLimitOrderBN/app/src/main/java/com/pythonn/androidshowlimitorderbn/data/remote/OrderBookManager.kt:91 | the maximum of a non-empty price set is a member that bounds every member |
| Levels.MinKey | androidShowLimitOrderBN/app/src/main/java/com/pythonn/androidshowlimitorderbn/data/remote/OrderBookManager.kt:92 | the minimum of a non-empty price set is a member below every member |
| Levels.Descending | androidShowLimitOrderBN/app/src/main/java/com/pythonn/androidshowlimitorderbn/data/remote/OrderBookManager.kt:62 | the descending listing has one element per level of the side |
| Levels.DescendingLevels | androidShowLimitOrderBN/app/src/main/java/com/pythonn/androidshowlimitorderbn/data/remote/OrderBookManager.kt:59-64 | every listed element is a level of the side with its stored quantity |
| Levels.DescendingCovers | androidShowLimitOrderBN/app/src/main/java/com/pythonn/androidshowlimitorderbn/data/remote/OrderBookManager.kt:59-64 | every price of the side occurs in the descending listing |
| Levels.DescendingSorted | androidShowLimitOrderBN/app/src/main/java/com/pythonn/androidshowlimitorderbn/data/remote/OrderBookManager.kt:62 | the descending listing falls strictly in price |
| Levels.Ascending | androidShowLimitOrderBN/app/src/main/java/com/pythonn/androidshowlimitorderbn/data/remote/OrderBookManager.kt:69 | the ascending listing has one element per level of the side |
| Levels.AscendingLevels | androidShowLimitOrderBN/app/src/main/java/com/pythonn/androidshowlimitorderbn/data/remote/OrderBookManager.kt:66-71 | every listed element is a level of the side with its stored quantity |
| Levels.AscendingCovers | androidShowLimitOrderBN/app/src/main/java/com/pythonn/androidshowlimitorderbn/data/remote/OrderBookManager.kt:66-71 | every price of the side occurs in the ascending listing |
| Levels.AscendingSorted | androidShowLimitOrderBN/app/src/main/java/com/pythonn/androidshowlimitorderbn/data/remote/OrderBookManager.kt:69 | the ascending listing rises strictly in price |
| Levels.TakeHighest | androidShowLimitOrderBN/app/src/main/java/com/pythonn/androidshowlimitorderbn/data/remote/OrderBookManager.kt:62-63 | the first `limit` levels of a complete descending listing omit a level only when they are `limit` levels all priced above it |
| Levels.TakeLowest | androidShowLimitOrderBN/app/src/main/java/com/pythonn/androidshowlimitorderbn/data/remote/OrderBookManager.kt:69-70 | the first `limit` levels of a complete ascending listing omit a level only when they are `limit` levels all priced below it |
| Levels.TopBids | androidShowLimitOrderBN/app/src/main/java/com/pythonn/androidshowlimitorderbn/data/remote/OrderBookManager.kt:59-64 | at most `limit` bids, strictly descending, each a stored level with quantity at least the threshold, and no qualifying bid left out in favour of a lower one |
| Levels.TopAsks | androidShowLimitOrderBN/app/src/main/java/com/pythonn/androidshowlimitorderbn/data/remote/OrderBookManager.kt:66-71 | at most `limit` asks, strictly ascending, each a stored level with quantity at least the threshold, and no qualifying ask left out in favour of a higher one |
| Levels.Merge | androidShowLimitOrderBN/app/src/main/java/com/pythonn/androidshowlimitorderbn/data/remote/OrderBookManager.kt:87 | merging keeps the total number of levels |
| Levels.MergePermutes | androidShowLimitOrderBN/app/src/main/java/com/pythonn/androidshowlimitorderbn/data/remote/OrderBookManager.kt:87 | the merged list is a permutation of bids followed by asks |
| Levels.MergeBounded | androidShowLimitOrderBN/app/src/main/java/com/pythonn/androidshowlimitorderbn/data/remote/OrderBookManager.kt:87 | a common lower bound of both inputs' prices bounds the merged prices |
| Levels.ConsSorted | androidShowLimitOrderBN/app/src/main/java/com/pythonn/androidshowlimitorderbn/data/remote/OrderBookManager.kt:87 | a level priced no higher than an ordered list stays ordered in front of it |
| Levels.MergeSorted | androidShowLimitOrderBN/app/src/main/java/com/pythonn/androidshowlimitorderbn/data/remote/OrderBookManager.kt:87 | merging two price-ordered lists gives a price-ordered list |
| Levels.MergeMembers | androidShowLimitOrderBN/app/src/main/java/com/pythonn/androidshowlimitorderbn/data/remote/OrderBookManager.kt:87 | a level is in the merge exactly when it is in one of the inputs |
| Levels.ListingMembers | androidShowLimitOrderBN/app/src/main/java/com/pythonn/androidshowlimitorderbn/data/remote/OrderBookManager.kt:77-85 | a complete listing of a side holds exactly the side's levels |
| Levels.AscendingAtLeast | androidShowLimitOrderBN/app/src/main/java/com/pythonn/androidshowlimitorderbn/data/remote/OrderBookManager.kt:77-85 | the ascending listing of the qualifying levels is ordered and holds exactly the levels with quantity at least the threshold |
| Levels.AscendingOnce | androidShowLimitOrderBN/app/src/main/java/com/pythonn/androidshowlimitorderbn/data/remote/OrderBookManager.kt:77-85 | a listing in strictly ascending price order, as a map's filtered entries are, holds each of its entries exactly once |
| Levels.AscendingAtLeastOnce | androidShowLimitOrderBN/app/src/main/java/com/pythonn/androidshowlimitorderbn/data/remote/OrderBookManager.kt:77-85 | the ascending listing of one side's levels with quantity at least the threshold holds each such level exactly once and nothing else |
| Levels.BigOrders | androidShowLimitOrderBN/app/src/main/java/com/pythonn/androidshowlimitorderbn/data/remote/OrderBookManager.kt:76-88 | in non-decreasing price order; each entry occurs as often as the number of sides holding it at a quantity at least the threshold (once per side), and no other entry occurs |
| Levels.Total | androidShowLimitOrderBN/app/src/main/java/com/pythonn/androidshowlimitorderbn/data/remote/OrderBookManager.kt:122-123 | the sum of a side's quantities is non-negative when no quantity is negative |
| Levels.TotalWithout | androidShowLimitOrderBN/app/src/main/java/com/pythonn/androidshowlimitorderbn/data/remote/OrderBookManager.kt:122-123 | the sum does not depend on visiting order: any level may be summed first |
| Levels.Within | androidShowLimitOrderBN/app/src/main/java/com/pythonn/androidshowlimitorderbn/data/remote/OrderBookManager.kt:119-120 | the band filter keeps exactly the levels priced in the closed interval, with their quantities |
| Levels.BandVolumesNonNegative | androidShowLimitOrderBN/app/src/main/java/com/pythonn/androidshowlimitorderbn/data/remote/OrderBookManager.kt:119-123 | with no negative quantity, neither band volume is negative |
| Levels.ShareBounds | androidShowLimitOrderBN/app/src/main/java/com/pythonn/androidshowlimitorderbn/data/remote/OrderBookManager.kt:136-137 | a difference bounded by a positive total divided by that total lies in [-1, 1], and is positive exactly when the difference is |
| Levels.Ratio | androidShowLimitOrderBN/app/src/main/java/com/pythonn/androidshowlimitorderbn/data/remote/OrderBookManager.kt:136-145 | delta is bid volume minus ask volume, ratio is delta's share of the total, in [-1, 1] and positive exactly when bids outweigh asks for non-negative volumes |
| KotlinOrderBook.OrderBookManager.constructor | androidShowLimitOrderBN/app/src/main/java/com/pythonn/androidshowlimitorderbn/data/remote/OrderBookManager.kt:8-17 | a new manager has the given symbol, market and threshold, empty sides and update id 0 |
| KotlinOrderBook.OrderBookManager.SetInitialOrderBook | androidShowLimitOrderBN/app/src/main/java/com/pythonn/androidshowlimitorderbn/data/remote/OrderBookManager.kt:19-32 | nothing of the previous book survives; each side holds exactly the snapshot's prices with their last listed quantity; the update id is the snapshot's |
| KotlinOrderBook.OrderBookManager.ApplyUpdate | androidShowLimitOrderBN/app/src/main/java/com/pythonn/androidshowlimitorderbn/data/remote/OrderBookManager.kt:34-54 | only the prices a batch names change, by the last entry (0 deletes, else sets); bid entries leave the asks alone and the reverse; the update id is overwritten without comparison |
| KotlinOrderBook.OrderBookManager.GetFilteredOrders | androidShowLimitOrderBN/app/src/main/java/com/pythonn/androidshowlimitorderbn/data/remote/OrderBookManager.kt:56-74 | the best `limit` qualifying bids (strictly descending) and asks (strictly ascending), each a stored level, none skipped for a worse one |
| KotlinOrderBook.OrderBookManager.GetBigOrders | androidShowLimitOrderBN/app/src/main/java/com/pythonn/androidshowlimitorderbn/data/remote/OrderBookManager.kt:76-88 | in non-decreasing price order; each entry occurs once for every side holding it at a quantity at least the threshold (twice when both sides do), and no other entry occurs; its length is the number of qualifying bid levels plus the number of qualifying ask levels |
| KotlinOrderBook.OrderBookManager.GetCurrentPrice | androidShowLimitOrderBN/app/src/main/java/com/pythonn/androidshowlimitorderbn/data/remote/OrderBookManager.kt:90-100 | midpoint of best bid and best ask; the best bid alone or best ask alone when the other side is empty; absent exactly when the book is empty |
| KotlinOrderBook.OrderBookManager.GetSpread | androidShowLimitOrderBN/app/src/main/java/com/pythonn/androidshowlimitorderbn/data/remote/OrderBookManager.kt:102-111 | best ask minus best bid, present exactly when both sides have levels |
| KotlinOrderBook.OrderBookManager.CalculateDepthRatioRange | androidShowLimitOrderBN/app/src/main/java/com/pythonn/androidshowlimitorderbn/data/remote/OrderBookManager.kt:113-146 | absent exactly when there is no current price; otherwise the record of the bid volume in [mid·(1−lower/100), mid] and ask volume in [mid, mid·(1+upper/100)], its ratio in [-1, 1] for non-negative books |
| KotlinOrderBook.DepthRecord | androidShowLimitOrderBN/app/src/main/java/com/pythonn/androidshowlimitorderbn/data/remote/OrderBookManager.kt:124-145 | the all-zero record when the total volume is exactly 0; otherwise both volumes, delta = bids − asks and ratio·total = delta, ratio in [-1, 1] |
| SwiftOrderBook.OrderBookManager.constructor | IosShowLimitOrderBN/IosShowLimitOrderBN/BinanceAPIService.swift:25-29 | a new manager has the given symbol, market and threshold, empty sides and update id 0 |
| SwiftOrderBook.OrderBookManager.SetInitialOrderBook | IosShowLimitOrderBN/IosShowLimitOrderBN/BinanceAPIService.swift:31-44 | each side holds exactly the snapshot's prices with their last listed quantity; the update id is the snapshot's |
| SwiftOrderBook.OrderBookManager.ApplyUpdate | IosShowLimitOrderBN/IosShowLimitOrderBN/BinanceAPIService.swift:46-66 | only the prices a batch names change, by the last entry (0 deletes, else sets); the sides are independent; the update id is overwritten without comparison |
| SwiftOrderBook.OrderBookManager.GetFilteredOrders | IosShowLimitOrderBN/IosShowLimitOrderBN/BinanceAPIService.swift:68-82 | the best `limit` qualifying bids (strictly descending) and asks (strictly ascending), each a stored level, none skipped for a worse one |
| SwiftOrderBook.OrderBookManager.GetCurrentPrice | IosShowLimitOrderBN/IosShowLimitOrderBN/BinanceAPIService.swift:84-90 | present exactly when both sides have levels, and then the midpoint of best bid and best ask |
| SwiftOrderBook.OrderBookManager.CalculateDepthRatioRange | IosShowLimitOrderBN/IosShowLimitOrderBN/BinanceAPIService.swift:92-125 | absent exactly when there is no mid-price; otherwise the record of the band volumes around it, ratio in [-1, 1] for non-negative books |
| SwiftOrderBook.DepthRecord | IosShowLimitOrderBN/IosShowLimitOrderBN/BinanceAPIService.swift:103-124 | the all-zero record unless the total volume is positive; otherwise both volumes, delta = bids − asks and ratio·total = delta, ratio in [-1, 1] |
| KotlinApiService.BaseDelay | androidShowLimitOrderBN/app/src/main/java/com/pythonn/androidshowlimitorderbn/data/remote/BinanceApiServiceImpl.kt:411 | the table delay 1000/2000/5000/10000/30000 ms for attempts 0 to 4, 30000 ms for any other count |
| KotlinApiService.BaseDelayGrows | androidShowLimitOrderBN/app/src/main/java/com/pythonn/androidshowlimitorderbn/data/remote/BinanceApiServiceImpl.kt:129 | the base delay never shrinks as attempts grow and stays within 1 s to 30 s |
| KotlinApiService.Exceeds | androidShowLimitOrderBN/app/src/main/java/com/pythonn/androidshowlimitorderbn/data/remote/BinanceApiServiceImpl.kt:518-519 | the relative change exceeds the limit: against a positive base, the absolute change exceeds limit·base; against a zero base (IEEE infinity or NaN), exactly when the values differ |
| KotlinApiService.HasSignificantChange | androidShowLimitOrderBN/app/src/main/java/com/pythonn/androidshowlimitorderbn/data/remote/BinanceApiServiceImpl.kt:510-561 | true exactly when the price moved by over 0.1%, the top-3 bid or ask counts differ, a top-3 level moved by over 0.1% in price or 20% in quantity, or a common ratio moved by over 0.05 |
| KotlinApiService.BandRatio | androidShowLimitOrderBN/app/src/main/java/com/pythonn/androidshowlimitorderbn/data/remote/BinanceApiServiceImpl.kt:472-480 | the band's depth record, or the zero record labelled with the band when there is no mid-price |
| KotlinApiService.BandRatios | androidShowLimitOrderBN/app/src/main/java/com/pythonn/androidshowlimitorderbn/data/remote/BinanceApiServiceImpl.kt:472-480 | one ratio per band, in band order, each the band's ratio |
| KotlinApiService.ComposeMarketData | androidShowLimitOrderBN/app/src/main/java/com/pythonn/androidshowlimitorderbn/data/remote/BinanceApiServiceImpl.kt:460-499 | the manager's top 100 levels per side, mid-price and spread (0 when absent), the largest listed quantity (1 when none), exactly four band ratios with the zero fallback, and its big orders |
| KotlinApiService.NextRecordChoices | androidShowLimitOrderBN/app/src/main/java/com/pythonn/androidshowlimitorderbn/data/remote/BinanceApiServiceImpl.kt:483-499 | a publication keeps the shown record or shows the fresh one, and always the fresh one when nothing or another symbol was shown or there is no mid-price |
| KotlinApiService.ChooseRecord | androidShowLimitOrderBN/app/src/main/java/com/pythonn/androidshowlimitorderbn/data/remote/BinanceApiServiceImpl.kt:483-499 | the shown record is kept only for the same symbol, with a mid-price, and no significant change; otherwise the fresh record |
| KotlinApiService.BinanceApiServiceImpl.constructor | androidShowLimitOrderBN/app/src/main/java/com/pythonn/androidshowlimitorderbn/data/remote/BinanceApiServiceImpl.kt:145-149 | the table holds fresh BTCUSDT spot and futures managers at threshold 50; counters, caches and records start empty |
| KotlinApiService.BinanceApiServiceImpl.OnConnectionOpened | androidShowLimitOrderBN/app/src/main/java/com/pythonn/androidshowlimitorderbn/data/remote/BinanceApiServiceImpl.kt:217-219 | the opened market's counter becomes 0 and the other market's counter is untouched |
| KotlinApiService.BinanceApiServiceImpl.ReconnectWebSocketStream | androidShowLimitOrderBN/app/src/main/java/com/pythonn/androidshowlimitorderbn/data/remote/BinanceApiServiceImpl.kt:387-429 | at 5 attempts or more nothing is scheduled and the counter stays; otherwise the counter goes up by one and the delay is the base delay plus jitter, in [1000, 31000) ms |
| KotlinApiService.BinanceApiServiceImpl.GetAdaptiveThreshold | androidShowLimitOrderBN/app/src/main/java/com/pythonn/androidshowlimitorderbn/data/remote/BinanceApiServiceImpl.kt:262-274 | the cached threshold of a known symbol with the cache unchanged; 50 for an unknown one, which is then cached |
| KotlinApiService.BinanceApiServiceImpl.EffectiveThreshold | androidShowLimitOrderBN/app/src/main/java/com/pythonn/androidshowlimitorderbn/data/remote/BinanceApiServiceImpl.kt:303 | the given threshold, except that the default 50 is replaced by the adaptive one |
| KotlinApiService.BinanceApiServiceImpl.InstallManager | androidShowLimitOrderBN/app/src/main/java/com/pythonn/androidshowlimitorderbn/data/remote/BinanceApiServiceImpl.kt:330-335 | the key holds the existing manager with its book kept, or a fresh empty one; either way its threshold is the given one and no other entry changes |
| KotlinApiService.BinanceApiServiceImpl.SwitchMarket | androidShowLimitOrderBN/app/src/main/java/com/pythonn/androidshowlimitorderbn/data/remote/BinanceApiServiceImpl.kt:313-335 | for one market: on a symbol change the record is cleared and the new key holds a fresh empty manager; else the manager and record are kept; the other market is untouched |
| KotlinApiService.BinanceApiServiceImpl.SwitchSymbol | androidShowLimitOrderBN/app/src/main/java/com/pythonn/androidshowlimitorderbn/data/remote/BinanceApiServiceImpl.kt:300-335 | both keys of the new symbol are present with the effective threshold, fresh and empty where the symbol changed or the key was missing, and no other key of the table changes |
| KotlinApiService.BinanceApiServiceImpl.PublishSpot | androidShowLimitOrderBN/app/src/main/java/com/pythonn/androidshowlimitorderbn/data/remote/BinanceApiServiceImpl.kt:441-508 | within 300 ms of the last spot publication nothing changes; otherwise the publish time is now (even if the record is then kept) and the record is the chosen one |
| KotlinApiService.BinanceApiServiceImpl.PublishFutures | androidShowLimitOrderBN/app/src/main/java/com/pythonn/androidshowlimitorderbn/data/remote/BinanceApiServiceImpl.kt:441-508 | within 500 ms of the last futures publication nothing changes; otherwise the publish time is now (even if the record is then kept) and the record is the chosen one |
| KotlinApiService.BinanceApiServiceImpl.PublishMarketData | androidShowLimitOrderBN/app/src/main/java/com/pythonn/androidshowlimitorderbn/data/remote/BinanceApiServiceImpl.kt:441-508 | the manager's market is throttled and published as above and the other market's time and record are untouched |
| KotlinApiService.BinanceApiServiceImpl.ProcessWebSocketMessage | androidShowLimitOrderBN/app/src/main/java/com/pythonn/androidshowlimitorderbn/data/remote/BinanceApiServiceImpl.kt:433-439 | the diff goes only to the manager under the upper-cased symbol and market key, which is then published; with no such manager nothing changes |
| SwiftApiService.Pow2 | IosShowLimitOrderBN/IosShowLimitOrderBN/BinanceAPIService.swift:349 | a power of two is at least 1 |
| SwiftApiService.Pow2Monotone | IosShowLimitOrderBN/IosShowLimitOrderBN/BinanceAPIService.swift:349 | powers of two grow with the exponent |
| SwiftApiService.BackoffDelay | IosShowLimitOrderBN/IosShowLimitOrderBN/BinanceAPIService.swift:349 | the delay is 2^attempts capped at 30 seconds |
| SwiftApiService.BackoffBelowCap | IosShowLimitOrderBN/IosShowLimitOrderBN/BinanceAPIService.swift:342-349 | below the attempt cap the 30 s ceiling never applies and the delay is at most 16 s |
| SwiftApiService.PresentRatios | IosShowLimitOrderBN/IosShowLimitOrderBN/BinanceAPIService.swift:392-397 | only present ratios are kept: none without a mid-price, otherwise one per band in band order, each the band's depth record |
| SwiftApiService.PublishedRecord | IosShowLimitOrderBN/IosShowLimitOrderBN/BinanceAPIService.swift:385-409 | the top 100 levels per side, the mid-price or 0, spread 0, no big orders, the largest listed quantity or 1, and four band ratios or none |
| SwiftApiService.BinanceAPIService.constructor | IosShowLimitOrderBN/IosShowLimitOrderBN/BinanceAPIService.swift:149-161 | the table holds exactly fresh BTCUSDT spot and futures managers at threshold 50; no counters |
| SwiftApiService.BinanceAPIService.SwitchSymbol | IosShowLimitOrderBN/IosShowLimitOrderBN/BinanceAPIService.swift:240-249 | the table holds exactly the new symbol's two keys, each a fresh empty manager of the right market with the given threshold and update id 0 |
| SwiftApiService.BinanceAPIService.ReconnectWebSocketStream | IosShowLimitOrderBN/IosShowLimitOrderBN/BinanceAPIService.swift:338-360 | at 5 attempts or more nothing is scheduled and the counter stays; otherwise the counter goes up by one and the delay is 2^attempts seconds, between 1 and 16 |
| SwiftApiService.BinanceAPIService.DidOpen | IosShowLimitOrderBN/IosShowLimitOrderBN/BinanceAPIService.swift:420-432 | the opened stream's counter becomes 0; a stale stream changes nothing |
| SwiftApiService.BinanceAPIService.DidClose | IosShowLimitOrderBN/IosShowLimitOrderBN/BinanceAPIService.swift:434-450 | a close with code going-away or of a stale stream schedules nothing; any other close reconnects its market as above |
| SwiftApiService.BinanceAPIService.ProcessWebSocketMessage | IosShowLimitOrderBN/IosShowLimitOrderBN/BinanceAPIService.swift:318-329 | the diff goes only to the manager under the upper-cased symbol and market key and its record is sent; with no such manager nothing changes and nothing is sent |
| Repository.ToEntity | androidShowLimitOrderBN/app/src/main/java/com/pythonn/androidshowlimitorderbn/data/repository/OrderBookRepository.kt:15-27 | the row carries the level's price and quantity, the given id, symbol, market, side and time, and is active |
| Repository.ToModel | androidShowLimitOrderBN/app/src/main/java/com/pythonn/androidshowlimitorderbn/data/repository/OrderBookRepository.kt:29-31 | the level carries the row's price and quantity |
| Repository.ToModelToEntity | androidShowLimitOrderBN/app/src/main/java/com/pythonn/androidshowlimitorderbn/data/repository/OrderBookRepository.kt:15-31 | caching a level and reading it back gives the level |
| Repository.ToModels | androidShowLimitOrderBN/app/src/main/java/com/pythonn/androidshowlimitorderbn/data/repository/OrderBookRepository.kt:123-124 | one level per row, in row order |
| Repository.ToEntities | androidShowLimitOrderBN/app/src/main/java/com/pythonn/androidshowlimitorderbn/data/repository/OrderBookRepository.kt:172-173 | one row per level, in level order |
| Repository.RoundTrip | androidShowLimitOrderBN/app/src/main/java/com/pythonn/androidshowlimitorderbn/data/repository/OrderBookRepository.kt:15-31 | caching a side and reading it back gives the side, in order |
| Repository.AtLeastQuantity | androidShowLimitOrderBN/app/src/main/java/com/pythonn/androidshowlimitorderbn/data/repository/OrderBookRepository.kt:146 | a level is kept exactly when it is listed and reaches the threshold |
| Repository.AtLeastQuantityAppend | androidShowLimitOrderBN/app/src/main/java/com/pythonn/androidshowlimitorderbn/data/repository/OrderBookRepository.kt:146 | filtering bids followed by asks is filtering each, bids first, order kept |
| Repository.BuildMarketDataFromCache | androidShowLimitOrderBN/app/src/main/java/com/pythonn/androidshowlimitorderbn/data/repository/OrderBookRepository.kt:117-159 | cached sides unchanged; first-row midpoint and spread, 0 unless both sides have rows; largest quantity or 1; no ratios; big orders the rows reaching a tenth of the largest, bids first |
| Repository.CachedPriceIsMidpoint | androidShowLimitOrderBN/app/src/main/java/com/pythonn/androidshowlimitorderbn/data/repository/OrderBookRepository.kt:127-138 | with best-first rows, the rebuilt price is the midpoint and the spread the gap of the highest bid and lowest ask |
| Repository.BigOrdersNonEmpty | androidShowLimitOrderBN/app/src/main/java/com/pythonn/androidshowlimitorderbn/data/repository/OrderBookRepository.kt:141-146 | a non-empty cache without negative quantities always yields a big order |
| Repository.UpdatedMetadata | androidShowLimitOrderBN/app/src/main/java/com/pythonn/androidshowlimitorderbn/data/repository/OrderBookRepository.kt:179-198 | incremental and version times become now; a full update also sets the full time, an incremental one keeps it (0 for new metadata); key and validity kept or new |
| Repository.UpdatedMetadataOrdered | androidShowLimitOrderBN/app/src/main/java/com/pythonn/androidshowlimitorderbn/data/repository/OrderBookRepository.kt:179-198 | an update no earlier than the stored full time leaves full ≤ incremental = version |
| Repository.UpdatedMetadataIdempotent | androidShowLimitOrderBN/app/src/main/java/com/pythonn/androidshowlimitorderbn/data/repository/OrderBookRepository.kt:187-198 | repeating an update at the same time changes nothing further |
| ViewModel.ThresholdOf | IosShowLimitOrderBN/IosShowLimitOrderBN/MarketDataViewModel.swift:11 | a symbol's stored threshold, or 50 when it has none |
| ViewModel.MarketDataViewModel.constructor | IosShowLimitOrderBN/IosShowLimitOrderBN/MarketDataViewModel.swift:9-21 | BTCUSDT selected at 50, with BTCUSDT 50, ETHUSDT 200 and SOLUSDT 500 remembered |
| ViewModel.MarketDataViewModel.GetThreshold | IosShowLimitOrderBN/IosShowLimitOrderBN/MarketDataViewModel.swift:63-65 | the stored threshold, or 50 for an unknown symbol |
| ViewModel.MarketDataViewModel.UpdateThreshold | IosShowLimitOrderBN/IosShowLimitOrderBN/MarketDataViewModel.swift:58-61 | the symbol's threshold and the one in use become the new value; no other symbol's threshold changes |
| ViewModel.MarketDataViewModel.SelectSymbol | IosShowLimitOrderBN/IosShowLimitOrderBN/MarketDataViewModel.swift:9-13 | selecting a symbol puts its remembered threshold, or 50, in use |
| ViewModel.MarketDataViewModel.UpdateThenReselect | IosShowLimitOrderBN/IosShowLimitOrderBN/MarketDataViewModel.swift:9-61 | not an operation of the view model: a property of the call sequence `updateThreshold(symbol)`, `updateThreshold(other)`, then selecting `symbol` — the first threshold is the one in use afterwards and `other` keeps its own |
| BarWidth.CalculateBarWidth | androidShowLimitOrderBN/app/src/main/java/com/pythonn/androidshowlimitorderbn/ui/components/OrderRowWithBarView.kt:114-118 | at least 5; exactly 5 when the largest quantity is not positive; otherwise max(5, quantity/largest·200) |
| BarWidth.LargestRowIsFull | androidShowLimitOrderBN/app/src/main/java/com/pythonn/androidshowlimitorderbn/ui/components/OrderRowWithBarView.kt:116-117 | the row holding the largest quantity gets the full 200 |
| BarWidth.WidthMonotone | androidShowLimitOrderBN/app/src/main/java/com/pythonn/androidshowlimitorderbn/ui/components/OrderRowWithBarView.kt:115-117 | a larger quantity never gets a narrower bar |
| BarWidth.WidthBounded | androidShowLimitOrderBN/app/src/main/java/com/pythonn/androidshowlimitorderbn/ui/components/OrderRowWithBarView.kt:115-117 | a row no larger than the largest quantity is never wider than 200 |

## Left out

- Networking: REST snapshot fetches, WebSocket creation and cancellation, DNS fallback, the iOS receive loop and heartbeat timer. These are foreign I/O. The depth event and snapshot arrive already parsed, and the callbacks become method calls.
- The snapshot fetch and stream restart that `switchSymbol` launches in the background on both clients. This is I/O; the table change is modelled.
- Concurrency: coroutine launches, dispatch queues and concurrent maps. All state is single-threaded. The scheduled reconnect is represented by the delay it would be scheduled after; the clock reading and the random jitter are parameters.
- IEEE doubles: prices and quantities are exact reals. The one place where IEEE behaviour changes a decision, a relative change against a zero base in the noise filter, is modelled explicitly. Rounding is not modelled, and neither is the `Float` conversion of the bar width.
- JSON and string-to-number parsing of events and snapshots. This is a library call.
- The band label: the text "<lower>-<upper>%" depends on platform number formatting. The model keeps the band's two numbers instead.
- The row ids and cache keys built from formatted numbers: the model takes them as parameters.
- Upper-casing covers ASCII letters only. The exchange's symbols are ASCII.
- Room DAOs, the cache-validity query and the periodic cleanup. These are persistence glue, and `smartUpdateOrderBook` is modelled only through its metadata update.
- Connection-status flows, logging and the unused `minPublishInterval` constant of the Android service.
- The iOS publisher: `send` is modelled as the record the method returns.
- The view model's data fetching and publisher subscriptions. These are I/O.
- Rejection of stale diffs is absent from the code, so it is absent from the model. The same holds for dropping zero-quantity snapshot levels.
- KotlinOrderBook.OrderBookManager.GetBigOrders: the contract states the levels, their number and their price order. It does not state that a bid precedes an ask at an equal price, although `Levels.Merge` computes that order.
- SwiftApiService.PublishedRecord: the contract states the band of each ratio, and `SwiftApiService.PresentRatios` states their values.
- KotlinOrderBook.OrderBookManager.CalculateDepthRatioRange: the bound on the ratio is stated only for books without negative quantities, which the exchange never sends.
