# Candle feed and streaming session of solana-chart-example, in Dafny

This project models the two parts of the repository that hold its logic.

- **The charting data feed** (`src/components/trading-view/utils/Datafeed.tsx`).
  It maps resolution tokens to bucket widths and computes the bucket of the current second.
  It folds live price ticks into the cached "last bar" of a symbol, behind a `lastPrice` guard.
  It seeds that cache from chart history and keeps a registry of bar subscribers.
  Each subscriber has a 10 ms forwarding step.
  It also turns trades into chart markers.
- **The streaming session service** (`src/providers/socket.tsx`, class `WebSocketService`).
  It holds two connections (general and transaction) and a room registry that is replayed when a connection opens.
  It keeps a session-wide set of seen `tx` ids and drops duplicate messages.
  The general connection re-emits `price:` rooms under `price-by-token:<token>`.
  Reconnects use an exponential backoff with a cap and a random jitter.

Layout, one module per file:

- `wire.dfy` (`Wire`): `Option` and the parsed message payload (`tx`, `token`, `pool`, `price`).
- `text.dfy` (`Text`): the `includes` substring test, proved equal to a positional definition, and the value of a digit string.
- `bars.dfy` (`Bars`): the pure candle logic. This covers the resolution table, bucket starts, the bar built for a tick (`NextBar`), the tick guard (`RealtimeStep`) and the conversion of history records.
- `markers.dfy` (`Markers`): `parseTrades` and `parseDeployerTrades`.
- `feed.dfy` (`Feed`): the stateful feed. `LastBarsCache` is the module-level map. `DataFeed` holds one `makeDataFeed` closure: `lastPrice`, the shared `realtimeHandler`, the `subscriptions` registry, and the calls it makes on the session service.
- `session.dfy` (`Session`): the session service as pure transitions over a `SessionState` value, with the lemmas about them.
- `socket_service.dfy` (`SocketService`): the class `WebSocketService`. It has the source's fields and one method per operation or socket callback. Each method is proved to produce exactly the `Session` transition of its old state. `resubscribeToRooms` is the loop it is in the source.

Modelling choices:

- Prices and volumes are `real`, because they only meet `max`, `min`, equality and a zero test.
- Bar times are integer milliseconds. The source's `latestBar.time / 1000 === bucketStart` then means `time == bucketStart * 1000`.
- `Date.now()` is a parameter `nowMs`, and the current second is `nowMs / 1000`.
- A socket field is a slot: `NoSocket`, `Connecting` or `Open`. `window.socket` and `window.transactionSocket` are booleans.
- Frames sent on each connection go to an outbox sequence. Listener emits go to an event log.
- Each pending reconnect timer is kept with its delay. `Math.random()` is a parameter in [0, 1).
- The room registry is a duplicate-free sequence, because a JavaScript `Set` iterates in insertion order.
- A stopped subscription is always deleted at the same moment, so a subscription in the registry is a running one. The forwarding step of a uid that is absent does nothing, as its interval was cleared.

### Where the code's behaviour is not the obvious one

The model follows the code in all of these cases.

- No volume is accumulated. A same-bucket update keeps the cached volume, and a new bucket starts at 0.
- A bar opened for a new bucket has `high = low = open` and does not widen to include its close. `Bars.NewBarCloseMayLeaveRange` exhibits a bar whose close lies below its low. What is preserved is `low <= open <= high` (`Bars.NextBarRanges`).
- `lastPrice` is written only while it is 0. Afterwards only ticks equal to the first price are dropped (`Bars.OnlyFirstPriceDropped`).
- The zero-price guard exists only on the new-bar branch. Within the cached bucket a tick of 0 becomes the close and pulls the low to 0 (`Bars.ZeroPriceOnlyGuardedForNewBar`).
- Repeating a tick is idempotent only within the cached bar's bucket. In a new bucket the repeat widens the fresh bar to its close (`Bars.NewBucketRepeatNotIdempotent`).
- Unknown resolution tokens get a 60-second bucket.
- The dedup key is `data.tx`.
- When only one connection closes, the reconnect timer creates nothing. The other connection's global reference blocks `connect()`, so the closed connection stays down (`Session.HalfCloseIsNotRecovered`).
- `disconnect()` leaves the global references set, so a `connect()` right after it is a no-op (`Session.ConnectBlockedAfterDisconnect`).
- `disconnect()` is retried automatically. Its `close()` calls fire both `onclose` handlers, which clear the global references and schedule reconnects. The first timer to fire creates both sockets again, with an empty registry (`Session.DisconnectIsRetried`).
- A general-socket message on a `price:` room without data throws on reading its token. Nothing is emitted and nothing is recorded (`Session.PriceRoomWithoutDataDropped`).
- Stopping any subscription leaves the pool's price room, even while another subscription of the same feed still uses it.
- Every subscription forwards to the feed's single `realtimeHandler`, which is the handler installed by the latest `subscribeBars`.

## Model

| member | source | states |
|---|---|---|
| `Text.ContainsIff` | src/providers/socket.tsx:140 | The recursive `includes` test holds exactly when the text occurs at some position, in both directions. |
| `Bars.ResolutionSeconds` | src/components/trading-view/utils/Datafeed.tsx:233-258 | The width is 0 exactly for "1S". Each listed minute token maps to 60 times its decimal value, checked against an independent digit parser. Every other token, "1s" included, maps to 60. |
| `Bars.BucketStart` | src/components/trading-view/utils/Datafeed.tsx:198-204 | For "1S" the start is the current second. Otherwise it is a multiple of the width with `start <= now < start + width`. |
| `Bars.BucketStartUnique` | src/components/trading-view/utils/Datafeed.tsx:202-204 | Any multiple of the width within one width below `now` is the bucket start, so the floor formula is the only correct one. |
| `Bars.NextBar` | src/components/trading-view/utils/Datafeed.tsx:206-225 | The bar always carries the tick's bucket time. A same-bucket update keeps time, open and volume, sets close to the price, and takes the max for high and the min for low. A new bar opens at the previous close (or the price), with high = low = open, close = price unless the price is 0, and volume 0. |
| `Bars.NextBarRanges` | src/components/trading-view/utils/Datafeed.tsx:207-225 | Every update keeps `low <= open <= high`. A same-bucket update only widens the range and puts the close inside it. |
| `Bars.NewBarCloseMayLeaveRange` | src/components/trading-view/utils/Datafeed.tsx:215-224 | A new-bucket bar after a close of 12 with a tick of 8 is {12, 12, 12, 8}, so its close is outside [low, high]. |
| `Bars.NewBucketRepeatNotIdempotent` | src/components/trading-view/utils/Datafeed.tsx:207-224 | Outside one bucket a repeated tick is not idempotent. After a flat bar at 10, a tick of 12 in a new bucket gives {10, 10, 10, 12}, and the same tick again gives {10, 12, 10, 12}. |
| `Bars.ZeroPriceOnlyGuardedForNewBar` | src/components/trading-view/utils/Datafeed.tsx:207-224 | Within the cached bucket, a tick of 0 sets close and (for non-negative prices) low to 0. A new bar closes at its open instead. {5, 6, 4, 5} with a tick of 0 becomes {5, 6, 0, 0}. |
| `Bars.SameBucketRepeatIsIdempotent` | src/components/trading-view/utils/Datafeed.tsx:207-214 | Applying the same price twice within the cached bar's bucket gives the same bar as applying it once. |
| `Bars.RealtimeStep` | src/components/trading-view/utils/Datafeed.tsx:184-228 | An applied tick has a pool and leaves a bar stamped on a whole second. Afterwards `lastPrice` is non-zero unless the tick's price was 0. `TickGuard` and `LastPriceWrittenOnlyWhileZero` give its exact outcome. |
| `Bars.TickGuard` | src/components/trading-view/utils/Datafeed.tsx:188-194 | A tick is ignored exactly when it has no pool, or when `lastPrice` is non-zero and equal to the tick's price. |
| `Bars.LastPriceWrittenOnlyWhileZero` | src/components/trading-view/utils/Datafeed.tsx:190-204 | An applied tick sets `lastPrice` to its price only when `lastPrice` was 0 and otherwise keeps it. The emitted bar is `NextBar` of the tick's bucket. |
| `Bars.OnlyFirstPriceDropped` | src/components/trading-view/utils/Datafeed.tsx:190-194 | With `lastPrice` at p, a tick at q != p is applied and leaves `lastPrice` at p, while a tick at p is dropped. |
| `Bars.HourlyScenario` | src/components/trading-view/utils/Datafeed.tsx:184-228 | At resolution "60", ticks 10 and 12 in one hour give {10, 12, 10, 12}. A tick of 8 in the next hour gives {12, 12, 12, 8}. |
| `Bars.ToBar` | src/components/trading-view/utils/Datafeed.tsx:427-434 | A history record becomes a bar with its time times 1000, which divides back to the record's time. All other fields are copied. |
| `Bars.Present` | src/components/trading-view/utils/Datafeed.tsx:422-425 | A record is kept exactly when it occurs non-null in the input. There are never more records than input entries, and with no null entry nothing is dropped. |
| `Bars.Convert` | src/components/trading-view/utils/Datafeed.tsx:420-436 | No more bars than input entries, each with a time in whole seconds. `ConvertIsPresentMapped` pins each bar to its record. |
| `Bars.ConvertIsPresentMapped` | src/components/trading-view/utils/Datafeed.tsx:420-436 | The pushed bars are exactly the non-null records converted one by one, in order, with the same count. |
| `Bars.ConvertKeepsOrder` | src/components/trading-view/utils/Datafeed.tsx:420-436 | Records ascending by time give bars ascending by time. |
| `Bars.GetBarsResult` | src/components/trading-view/utils/Datafeed.tsx:395-446 | A request that is not the first, or null data, gives no bars. Otherwise the bars are the converted records. In every case `noData` holds exactly when there are no bars. |
| `Bars.SeedIsLastRecord` | src/components/trading-view/utils/Datafeed.tsx:438-442 | When bars were produced, the seeded bar is the conversion of the last non-null record. |
| `Markers.TradeMarker` | src/components/trading-view/utils/Datafeed.tsx:55-66 | The marker's id is the trade's tx. It is red exactly for a sell. The label is one of S, B, DS, DB, and a D label exactly in the deployer variant. |
| `Markers.MapTrades` | src/components/trading-view/utils/Datafeed.tsx:55-66 | One marker per trade, in order, with the same length. The i-th marker is the i-th trade's marker, so its id is the i-th trade's tx. |
| `Markers.ParseTrades` | src/components/trading-view/utils/Datafeed.tsx:70-86 | Same length as the input. Each id is the trade's tx. The colour is red exactly for sells and blue otherwise. The label is "S" for sells and "B" otherwise. |
| `Markers.ParseDeployerTrades` | src/components/trading-view/utils/Datafeed.tsx:54-69 | As for `ParseTrades`, with labels "DS" and "DB". |
| `Markers.SideRecoverable` | src/components/trading-view/utils/Datafeed.tsx:58-63 | The marker's label reads as a sell exactly when the trade is a sell, and exactly when its colour is red. |
| `Markers.MapTradesAppend` | src/components/trading-view/utils/Datafeed.tsx:55-66 | The markers of two concatenated batches are the concatenation of their markers. |
| `Markers.VerbAgreesWithLabel` | src/components/trading-view/utils/Datafeed.tsx:59-63 | For buys and sells the text's verb matches the label. A trade of any other type is labelled as a buy while its text says "Sold". |
| `Feed.LastBarsCache.Get` | src/components/trading-view/utils/Datafeed.tsx:196 | The lookup is present exactly when the symbol is cached, and then it is the cached bar. |
| `Feed.LastBarsCache.Set` | src/components/trading-view/utils/Datafeed.tsx:227 | Only the entry of the given name changes, and it becomes the given bar. |
| `Feed.LastBarsCache.constructor` | src/components/trading-view/utils/Datafeed.tsx:16 | The cache starts empty. |
| `Feed.Deliver` | src/components/trading-view/utils/Datafeed.tsx:487-491 | Each running, listening subscription keeps a message that carries a pool. Nothing else changes and no entry is added or removed. |
| `Feed.Forwarded` | src/components/trading-view/utils/Datafeed.tsx:503 | Forwarding records the forwarded price as the last update. |
| `Feed.ForwardOncePerPrice` | src/components/trading-view/utils/Datafeed.tsx:496-506 | After forwarding, nothing is due. A new message makes the subscription due again exactly when it listens, the message has a pool, and its price differs from the last one forwarded. |
| `Feed.SubscribeSession` | src/components/trading-view/utils/Datafeed.tsx:460-492 | The session calls of `subscribeBars` keep the invariant and touch neither the log, the dedup set nor the timers. When the listener gets registered the room is registered. When an entry was replaced and no socket exists, the room is left unregistered. |
| `Feed.SubscribeRegistersRoom` | src/components/trading-view/utils/Datafeed.tsx:460-492 | With the general socket open, subscribing registers a listener and the price room. It sends a leave for a replaced entry and then exactly one join. |
| `Feed.DataFeed.constructor` | src/components/trading-view/utils/Datafeed.tsx:18-20 | Over a valid service, a new feed is valid and has no subscriptions, no handler, `lastPrice` 0 and no updates. |
| `Feed.DataFeed.HandleRealtimeUpdate` | src/components/trading-view/utils/Datafeed.tsx:184-232 | The new `lastPrice`, cache and callback log are those of `RealtimeStep`. When a bar is produced, the cache entry for the symbol equals the bar passed to the callback. |
| `Feed.DataFeed.GetBars` | src/components/trading-view/utils/Datafeed.tsx:395-446 | Returns `GetBarsResult`. The cache is set to the last produced bar when there is one and is otherwise untouched. |
| `Feed.DataFeed.SubscribeBars` | src/components/trading-view/utils/Datafeed.tsx:453-507 | The registry gains exactly the uid and no other entry changes. The shared handler becomes this subscriber's. The session goes through leave (if replacing), connect, and join when a socket exists. |
| `Feed.DataFeed.UnsubscribeBars` | src/components/trading-view/utils/Datafeed.tsx:508-515 | Only the uid's entry is removed. The price-room leave happens exactly when it was present. |
| `Feed.DataFeed.DeliverEmit` | src/components/trading-view/utils/Datafeed.tsx:487-491 | Only emits on `price:<poolId>` reach the subscriptions' listeners. |
| `Feed.DataFeed.ForwardTick` | src/components/trading-view/utils/Datafeed.tsx:496-506 | Nothing happens unless the entry exists, a handler exists and its kept price is due. Otherwise the price is recorded and passed to the current handler with `RealtimeStep`'s effect. |
| `Session.InitialConnect` | src/providers/socket.tsx:16-17 | The initial state satisfies the invariant, and the constructor's `connect()` creates both sockets. |
| `Session.Owner` | src/providers/socket.tsx:140-142 | A room goes to the transaction socket exactly when "transaction" occurs in its name. |
| `Session.SendIfOpen` | src/providers/socket.tsx:143-145 | One frame is appended to the channel's outbox only when its socket is open. The other outbox and all other state stay the same. |
| `Session.AddRoom` | src/providers/socket.tsx:139 | The registry gains the room, stays duplicate-free, and is unchanged if the room was present. |
| `Session.RemoveRoom` | src/providers/socket.tsx:149 | The registry loses exactly the room, stays duplicate-free, and is unchanged if the room was absent. |
| `Session.RemoveAppended` | src/providers/socket.tsx:139-149 | Deleting a room right after adding it, when it was new, restores the registry. |
| `Session.JoinRoom` | src/providers/socket.tsx:138-146 | Registers the room. The owner's outbox gains one join only if that socket is open, and the other outbox is unchanged. Nothing else changes and the invariant is kept. |
| `Session.LeaveRoom` | src/providers/socket.tsx:148-156 | Unregisters the room. The owner's outbox gains one leave only if that socket is open, and the other outbox is unchanged. Nothing else changes and the invariant is kept. |
| `Session.JoinThenLeaveOffline` | src/providers/socket.tsx:138-156 | Joining then leaving while the owner is not open sends nothing and leaves the room unregistered. If the room was new, the whole state is restored. |
| `Session.JoinFramesExact` | src/providers/socket.tsx:177-182 | About `JoinFrames`, the frames of the `for…of` loop on one channel. Each resubscribe frame on a channel joins a registered room owned by that channel. Each such room is joined exactly once, and no other room is joined. |
| `Session.Resubscribe` | src/providers/socket.tsx:170-184 | Nothing is sent unless both sockets are open. Only the outboxes change and the invariant is kept. |
| `Session.ResubscribeOncePerRoom` | src/providers/socket.tsx:170-184 | With both sockets open, the outboxes are extended, never rewritten. Each registered room gets exactly one more join on its owner and none on the other socket. Every new frame is such a join. |
| `Session.Connect` | src/providers/socket.tsx:25-41 | Both sockets are created only when the two fields are not both set and both global references are null. Otherwise nothing changes. The invariant is kept. |
| `Session.ConnectNeverReplacesLiveSocket` | src/providers/socket.tsx:25-41 | Under the invariant, `connect()` changes the state exactly when both fields and both globals are null, and it is idempotent. |
| `Session.Disconnect` | src/providers/socket.tsx:110-121 | Both fields become null and the registry and dedup set are emptied. The global references and everything else are unchanged. |
| `Session.ConnectBlockedAfterDisconnect` | src/providers/socket.tsx:32-34 | While a global reference is set, `connect()` after `disconnect()` does nothing. |
| `Session.BaseDelay` | src/providers/socket.tsx:125-128 | `min(2500 * 2^attempts, 4500)` is 2500 at attempt 0 and 4500 from attempt 1 on. |
| `Session.BackoffDelay` | src/providers/socket.tsx:125-130 | The delay lies in [d, 1.5 d) for the base delay d, hence in [2500, 6750). |
| `Session.BackoffMonotone` | src/providers/socket.tsx:125-130 | For the same random draw, the delay is non-decreasing in the attempt count. |
| `Session.Reconnect` | src/providers/socket.tsx:123-136 | Exactly one timer is scheduled, with the delay of the current attempt count. |
| `Session.FireReconnect` | src/providers/socket.tsx:132-135 | The fired timer is removed, the attempt count goes up by one, `connect()` runs, and the invariant is kept. |
| `Session.Opened` | src/providers/socket.tsx:43-45 | A connecting slot of the channel becomes open and the attempt count becomes 0. Nothing else changes. |
| `Session.OnOpen` | src/providers/socket.tsx:43-47 | The result is `Resubscribe` of `Opened`. The attempt count becomes 0 and a connecting slot becomes open. The other slot, the global references, the registry, the dedup set, the timers and the log are unchanged. Unless both slots end up open, nothing is sent. |
| `Session.OpenReplaysRooms` | src/providers/socket.tsx:43-47 | When a connecting socket opens while the other is open, both outboxes are only extended. Each registered room gets exactly one more join on its owner and none on the other socket. Every new frame is such a join. |
| `Session.OnClose` | src/providers/socket.tsx:49-54 | Only that socket's field and global reference are cleared and one reconnect is scheduled. Registry, sets, outboxes and the attempt count are unchanged. |
| `Session.DisconnectIsRetried` | src/providers/socket.tsx:49-54 | After `disconnect()`, the two close events schedule two reconnects. The first to fire leaves both sockets connecting and both globals set, with an empty registry and dedup set. |
| `Session.BackoffResetsAfterOpen` | src/providers/socket.tsx:45-54 | After an open, the next close schedules a delay in [2500, 3750). |
| `Session.HalfCloseIsNotRecovered` | src/providers/socket.tsx:26-34 | If one socket closes while the other is alive, the reconnect that fires leaves the closed slot empty. |
| `Session.TxKey` | src/providers/socket.tsx:61-63 | The key is present exactly when `data.tx` is truthy, and then it is the tx. |
| `Session.PriceByTokenRoom` | src/providers/socket.tsx:67 | The re-route room starts with `price-by-token:` and continues with the token when one is present. |
| `Session.HandleMessage` | src/providers/socket.tsx:56-72 | Only the dedup set and the event log change. The set only grows, the log is only extended, and the invariant is kept. |
| `Session.OtherKindsIgnored` | src/providers/socket.tsx:58-71 | Envelopes whose type is not "message" change nothing. |
| `Session.DuplicateDropped` | src/providers/socket.tsx:61-62 | A message whose tx was seen before changes nothing on either socket. |
| `Session.NewTxRecordedAndEmitted` | src/providers/socket.tsx:63-69 | A new tx is added to the set and the message ends with its room emit. |
| `Session.NoTxAlwaysPasses` | src/providers/socket.tsx:60-69 | Without a tx the set is unchanged and the room emit happens, unless the general socket throws on a missing price payload. |
| `Session.PriceRoomWithoutDataDropped` | src/providers/socket.tsx:58-69 | On the general socket, a message on a `price:` room without data leaves the whole state unchanged. |
| `Session.SecondDeliverySuppressed` | src/providers/socket.tsx:56-100 | After one message with tx k, a second message with k on either socket changes nothing. |
| `Session.WithoutTx` | src/providers/socket.tsx:61-62 | An arrival is kept exactly when it is in the trace and does not carry tx k. The result is no longer than the trace, and is the trace itself when no arrival carries k. |
| `Session.SeenTxNeverEmittedAgain` | src/providers/socket.tsx:56-100 | Once k is in the set, running any trace of arrivals gives the same state as the trace with every k-message removed. |
| `Session.PriceRerouted` | src/providers/socket.tsx:66-69 | On the general socket, a new message on a "price:" room adds the `price-by-token:<token>` emit and then the room emit. |
| `Session.GeneralReroutesOnlyPriceRooms` | src/providers/socket.tsx:58-69 | On the general socket, a room without "price:" gets no re-route. A message that passes the type and dedup checks adds exactly its room emit, and any other message adds nothing. |
| `Session.TransactionSocketNeverReroutes` | src/providers/socket.tsx:87-100 | The transaction socket adds nothing or exactly the room emit. |
| `SocketService.WebSocketService.constructor` | src/providers/socket.tsx:16-23 | The new service is in the state `connect()` gives from the empty state, and it is valid. |
| `SocketService.WebSocketService.Connect` | src/providers/socket.tsx:25-41 | The new state is `Session.Connect` of the old one. |
| `SocketService.WebSocketService.Disconnect` | src/providers/socket.tsx:110-121 | The new state is `Session.Disconnect` of the old one. |
| `SocketService.WebSocketService.Reconnect` | src/providers/socket.tsx:123-131 | The new state is `Session.Reconnect` of the old one. |
| `SocketService.WebSocketService.FireReconnect` | src/providers/socket.tsx:132-135 | The new state is `Session.FireReconnect` of the old one. |
| `SocketService.WebSocketService.Send` | src/providers/socket.tsx:143-145 | The new state is `Session.SendIfOpen` of the old one. |
| `SocketService.WebSocketService.JoinRoom` | src/providers/socket.tsx:138-146 | The new state is `Session.JoinRoom` of the old one. |
| `SocketService.WebSocketService.LeaveRoom` | src/providers/socket.tsx:148-156 | The new state is `Session.LeaveRoom` of the old one. |
| `SocketService.WebSocketService.GetSocket` | src/providers/socket.tsx:166-168 | Returns the general socket field. |
| `SocketService.WebSocketService.ResubscribeToRooms` | src/providers/socket.tsx:170-184 | The loop leaves the state `Session.Resubscribe` computes. |
| `SocketService.WebSocketService.OnOpen` | src/providers/socket.tsx:43-47 | The new state is `Session.OnOpen` of the old one. |
| `SocketService.WebSocketService.OnClose` | src/providers/socket.tsx:49-54 | The new state is `Session.OnClose` of the old one. |
| `SocketService.WebSocketService.OnMessage` | src/providers/socket.tsx:56-100 | The new state is `Session.HandleMessage` of the old one. |

## Left out

- HTTP access is not modelled, because it is network I/O and timers. This covers `getApi` with its 2-second retry on status 429, the chart fetch with its token-only fallback, and the trades fetches of `handleMarks`. `getBars` is modelled from the point where the (possibly null) `data` is in hand.
- The `from`/`to` filter in `getBars` is not modelled separately. That code runs only after the early return for a non-first request, so `firstDataRequest` is always true there and the filter keeps every non-null record.
- `onErrorCallback` is not modelled, because nothing in the modelled part of `getBars` throws.
- The 1-second `localStorage` polling loop in `handleMarks` is left out, together with its `refreshMarks()` calls. It is browser storage, a timer and calls into the charting widget. It leaves the old owner's room twice.
- `onReady` and `resolveSymbol` are left out, because they only return constant configuration objects.
- Marker `time`, the formatted amounts in the marker text, and the constant `labelFontColor`/`minSize` are left out. They are floating-point division and `toFixed` formatting. Only id, colour, label and the verb at the start of the text are kept.
- `WebSocket` objects have no identity in the model. A socket event acts on its channel's slot, which is what the handlers do (they assign `this.socket`/`this.transactionSocket` whichever socket fired). A socket leaving the OPEN state and its close event are one step: a socket that is closing stays `Open` until `OnClose` runs on it.
- The WebSocket constructor throwing in `connect()` (the `catch` that calls `reconnect()`) is left out. It depends only on the configured URL.
- The non-browser branch of `connect()` (`typeof document === "undefined"`) is left out. The model assumes a browser.
- `JSON.parse` is not modelled: messages arrive already parsed, and a frame that is not JSON, on which either handler throws before any effect, is not modelled.
- `Session.HandleMessage`: rooms are always strings, so an envelope of type "message" whose `room` is not a string is not modelled. The transaction handler would pass it to `emit` unchanged (src/providers/socket.tsx:97). The general handler would throw on `message.room.includes` (line 66) after line 64 has recorded the message's tx, so later messages with that tx would be dropped although this one was never emitted.
- `on`/`off` and the `EventEmitter` internals are not modelled. Listener emits are recorded as a log. The only listener modelled is the feed's price-room listener (`Feed.DataFeed.DeliverEmit`). Stale listeners of replaced subscriptions are not kept, because their intervals are cleared and they have no further effect.
- The `beforeunload` registration in the constructor is not modelled. `Disconnect` can be called at any point instead.
- `setTimeout` is not modelled as scheduling. A reconnect timer fires when `FireReconnect` is called on it, in any order.
- `src/components/trading-view/index.tsx`, `src/components/chart.tsx` and `src/app/page.tsx` are not part of this model, because they are UI and widget options. Of `src/types/trade.ts` only `tx` and `type` of `Trade` are mirrored.
- Concurrency is not modelled. Every callback runs as one atomic step of the single event loop.
