/** The stateful part of src/components/trading-view/utils/Datafeed.tsx: the
    module-level last-bar cache, and one data feed (`makeDataFeed`) with its
    `lastPrice`, its shared `realtimeHandler`, its subscription registry and
    the calls it makes on the streaming session service. */
module Feed {
  import opened Wire
  import opened Bars
  import S = Session
  import opened SocketService

  /** The module-level `lastBarsCache` map, shared by every data feed. */
  class LastBarsCache {
    var bars: map<string, Bar>

    constructor ()
      ensures bars == map[]
    {
      bars := map[];
    }

    /** `lastBarsCache.get(name)`. */
    function Get(name: string): (b: Option<Bar>)
      reads this
      ensures b.Some? <==> name in bars
      ensures b.Some? ==> b.value == bars[name]
    {
      if name in bars then Some(bars[name]) else None
    }

    /** `lastBarsCache.set(name, bar)`. */
    method Set(name: string, bar: Bar)
      modifies this
      ensures bars == old(bars)[name := bar]
    {
      bars := bars[name := bar];
    }
  }

  /** The closure `handleRealtimeUpdate(symbolInfo, resolution, onRealtimeCallback)`;
      the callback is identified by the subscriber that handed it over. */
  datatype Handler = Handler(uid: string, fullName: string, resolution: string)

  /** The closure state of one `subscribeBars` call: the last price message its
      room listener kept, the last price it forwarded, and whether the listener
      was registered at all. A stopped subscription is removed from the
      registry at the same moment, so every entry of the registry is running. */
  datatype Subscription = Subscription(latestPrice: Option<Payload>, latestUpdate: real, listening: bool)

  /** One `onRealtimeCallback(bar)` call. */
  datatype Update = Update(uid: string, bar: Bar)

  /** The room listener of every running subscription keeps a price message
      that carries a pool. */
  function Deliver(subs: map<string, Subscription>, data: Option<Payload>): (t: map<string, Subscription>)
    ensures t.Keys == subs.Keys
    ensures forall k :: k in subs ==>
              t[k] == (if subs[k].listening && data.Some? && HasPool(data.value)
                       then subs[k].(latestPrice := data) else subs[k])
  {
    map k | k in subs :: if subs[k].listening && data.Some? && HasPool(data.value) then subs[k].(latestPrice := data) else subs[k]
  }

  /** The 10 ms interval of a running subscription forwards its kept price
      only when there is one and it differs from the last one forwarded. */
  predicate ForwardDue(sub: Subscription)
  {
    sub.latestPrice.Some? && sub.latestUpdate != sub.latestPrice.value.price
  }

  function Forwarded(sub: Subscription): (t: Subscription)
    requires sub.latestPrice.Some?
    ensures t.latestUpdate == sub.latestPrice.value.price
    ensures t.latestPrice == sub.latestPrice && t.listening == sub.listening
  {
    sub.(latestUpdate := sub.latestPrice.value.price)
  }

  /** Once forwarded, a price is not forwarded again until the listener keeps
      a message with another price. */
  lemma ForwardOncePerPrice(sub: Subscription, data: Payload)
    requires ForwardDue(sub)
    ensures !ForwardDue(Forwarded(sub))
    ensures var m := Deliver(map["u" := Forwarded(sub)], Some(data))["u"];
            ForwardDue(m) <==> sub.listening && HasPool(data) && data.price != sub.latestPrice.value.price
  {
  }

  /** What `subscribeBars` does to the session: stop a replaced subscription
      (which leaves the price room), `connect()`, then join the price room if
      `getSocket()` returns a socket. */
  function SubscribeSession(s: S.SessionState, replacing: bool, room: string): (t: S.SessionState)
    ensures S.Valid(s) ==> S.Valid(t)
    ensures t.emitted == s.emitted && t.transactions == s.transactions && t.timers == s.timers
    ensures SubscribeListens(s, replacing, room) ==> room in t.subscribedRooms
    ensures replacing && !SubscribeListens(s, replacing, room) ==> room !in t.subscribedRooms
  {
    var s1 := if replacing then S.LeaveRoom(s, room) else s;
    var s2 := S.Connect(s1);
    if s2.socket != S.NoSocket then S.JoinRoom(s2, room) else s2
  }

  /** Whether the new subscription's room listener gets registered. */
  function SubscribeListens(s: S.SessionState, replacing: bool, room: string): bool
  {
    S.Connect(if replacing then S.LeaveRoom(s, room) else s).socket != S.NoSocket
  }

  /** Under the invariant, subscribing always ends with the price room
      registered, and whenever the general socket is open the join is sent on
      it and the registry holds the room once. */
  lemma SubscribeRegistersRoom(s: S.SessionState, replacing: bool, room: string)
    requires S.Valid(s)
    requires S.Owner(room) == S.General
    requires s.socket == S.Open
    ensures SubscribeListens(s, replacing, room)
    ensures room in SubscribeSession(s, replacing, room).subscribedRooms
    ensures S.Valid(SubscribeSession(s, replacing, room))
    ensures SubscribeSession(s, replacing, room).generalOutbox ==
              s.generalOutbox + (if replacing then [S.Leave(room)] else []) + [S.Join(room)]
  {
  }

  class DataFeed {
    const poolId: string
    const service: WebSocketService
    const cache: LastBarsCache
    var lastPrice: real
    var realtimeHandler: Option<Handler>
    var subscriptions: map<string, Subscription>
    var updates: seq<Update>

    ghost predicate Valid()
      reads this, service
    {
      service.Valid()
    }

    /** `makeDataFeed(tokenId, tokenSymbol, poolId)` over the shared service and cache. */
    constructor (poolId: string, service: WebSocketService, cache: LastBarsCache)
      requires service.Valid()
      ensures Valid()
      ensures this.poolId == poolId && this.service == service && this.cache == cache
      ensures lastPrice == 0.0 && realtimeHandler == None && subscriptions == map[] && updates == []
    {
      this.poolId := poolId;
      this.service := service;
      this.cache := cache;
      lastPrice := 0.0;
      realtimeHandler := None;
      subscriptions := map[];
      updates := [];
    }

    /** The room `price:<poolId>`. */
    function PriceRoom(): string
      reads this
    {
      "price:" + poolId
    }

    /** The handler of `h` applied to the tick `data` at `nowMs` (Date.now()). */
    method HandleRealtimeUpdate(h: Handler, data: Payload, nowMs: nat)
      modifies this`lastPrice, this`updates, cache
      ensures match RealtimeStep(old(lastPrice), old(cache.Get(h.fullName)), h.resolution, data, nowMs)
              case Ignored =>
                lastPrice == old(lastPrice) && cache.bars == old(cache.bars) && updates == old(updates)
              case Applied(p, bar) =>
                && lastPrice == p
                && cache.bars == old(cache.bars)[h.fullName := bar]
                && updates == old(updates) + [Update(h.uid, bar)]
    {
      if !HasPool(data) {
        return;
      }
      if lastPrice == 0.0 {
        lastPrice := data.price;
      } else if lastPrice == data.price {
        return;
      }
      var price := data.price;
      var latestBar := cache.Get(h.fullName);
      var currentTimestamp := nowMs / 1000;
      var currentBarTimestamp := BucketStart(h.resolution, currentTimestamp);
      var newBar := NextBar(latestBar, currentBarTimestamp, price);
      cache.Set(h.fullName, newBar);
      updates := updates + [Update(h.uid, newBar)];
    }

    /** `getBars` from the point where the history `data` is in hand; returns
        what is passed to `onHistoryCallback`. */
    method GetBars(fullName: string, firstDataRequest: bool, data: Option<seq<Option<Record>>>)
      returns (bars: seq<Bar>, noData: bool)
      modifies cache
      ensures History(bars, noData) == GetBarsResult(firstDataRequest, data)
      ensures cache.bars == if bars == [] then old(cache.bars)
                            else old(cache.bars)[fullName := bars[|bars| - 1]]
    {
      if !firstDataRequest {
        return [], true;
      }
      if data.None? || |data.value| == 0 {
        return [], true;
      }
      var records := data.value;
      bars := [];
      var i := 0;
      while i < |records|
        invariant 0 <= i <= |records|
        invariant bars == Convert(records[..i])
      {
        assert records[..i + 1][..i] == records[..i];
        if records[i].Some? {
          bars := bars + [ToBar(records[i].value)];
        }
        i := i + 1;
      }
      assert records[..i] == records;
      if |bars| > 0 {
        cache.Set(fullName, bars[|bars| - 1]);
      }
      noData := |bars| == 0;
    }

    /** `subscribeBars(symbolInfo, resolution, onRealtimeCallback, uid)`. */
    method SubscribeBars(fullName: string, resolution: string, uid: string)
      requires Valid()
      modifies this, service
      ensures Valid()
      ensures subscriptions.Keys == old(subscriptions).Keys + {uid}
      ensures forall k :: k in old(subscriptions) && k != uid ==> subscriptions[k] == old(subscriptions)[k]
      ensures subscriptions[uid] ==
                Subscription(None, 0.0, SubscribeListens(old(service.State()), uid in old(subscriptions), PriceRoom()))
      ensures realtimeHandler == Some(Handler(uid, fullName, resolution))
      ensures service.State() == SubscribeSession(old(service.State()), uid in old(subscriptions), PriceRoom())
      ensures lastPrice == old(lastPrice) && updates == old(updates)
    {
      if uid in subscriptions {
        service.LeaveRoom(PriceRoom());   // the old entry's stop()
        subscriptions := subscriptions - {uid};
      }
      realtimeHandler := Some(Handler(uid, fullName, resolution));
      service.Connect();
      var socket := service.GetSocket();
      var listening := false;
      if socket != S.NoSocket {
        service.JoinRoom(PriceRoom());
        listening := true;
      }
      subscriptions := subscriptions[uid := Subscription(None, 0.0, listening)];
    }

    /** `unsubscribeBars(uid)`: the `for…in` loop over the registry, stopping
        and deleting the entry of `uid` only. */
    method UnsubscribeBars(uid: string)
      requires Valid()
      modifies this, service
      ensures Valid()
      ensures subscriptions == old(subscriptions) - {uid}
      ensures service.State() == if uid in old(subscriptions) then S.LeaveRoom(old(service.State()), PriceRoom())
                                 else old(service.State())
      ensures lastPrice == old(lastPrice) && updates == old(updates) && realtimeHandler == old(realtimeHandler)
    {
      var keys := subscriptions.Keys;
      while keys != {}
        invariant keys <= old(subscriptions).Keys
        invariant Valid()
        invariant subscriptions == if uid in old(subscriptions) && uid !in keys then old(subscriptions) - {uid}
                                   else old(subscriptions)
        invariant service.State() == if uid in old(subscriptions) && uid !in keys
                                     then S.LeaveRoom(old(service.State()), PriceRoom())
                                     else old(service.State())
        invariant lastPrice == old(lastPrice) && updates == old(updates) && realtimeHandler == old(realtimeHandler)
        decreases keys
      {
        var key :| key in keys;
        if key == uid {
          service.LeaveRoom(PriceRoom());   // subscriptions[key].stop()
          subscriptions := subscriptions - {key};
        }
        keys := keys - {key};
      }
    }

    /** The emitter delivers an emit of the service to the room listeners of
        this feed's subscriptions, which listen on `price:<poolId>`. */
    method DeliverEmit(e: S.Emit)
      modifies this`subscriptions
      ensures subscriptions == if e.event == PriceRoom() then Deliver(old(subscriptions), e.data)
                               else old(subscriptions)
    {
      if e.event == PriceRoom() {
        subscriptions := Deliver(subscriptions, e.data);
      }
    }

    /** One run of the 10 ms interval of subscription `uid` at `nowMs`: when the
        kept price is due, it is recorded and passed to the feed's current
        `realtimeHandler`, whichever subscription installed it. */
    method ForwardTick(uid: string, nowMs: nat)
      modifies this`subscriptions, this`lastPrice, this`updates, cache
      ensures var due := uid in old(subscriptions) && ForwardDue(old(subscriptions)[uid]) && realtimeHandler.Some?;
              && realtimeHandler == old(realtimeHandler)
              && (!due ==> subscriptions == old(subscriptions) && lastPrice == old(lastPrice)
                           && updates == old(updates) && cache.bars == old(cache.bars))
              && (due ==>
                    var sub := old(subscriptions)[uid];
                    var h := realtimeHandler.value;
                    && subscriptions == old(subscriptions)[uid := Forwarded(sub)]
                    && match RealtimeStep(old(lastPrice), old(cache.Get(h.fullName)), h.resolution, sub.latestPrice.value, nowMs)
                       case Ignored =>
                         lastPrice == old(lastPrice) && cache.bars == old(cache.bars) && updates == old(updates)
                       case Applied(p, bar) =>
                         && lastPrice == p
                         && cache.bars == old(cache.bars)[h.fullName := bar]
                         && updates == old(updates) + [Update(h.uid, bar)])
    {
      if uid !in subscriptions {
        return;   // the interval was cleared by stop()
      }
      var sub := subscriptions[uid];
      if sub.latestPrice.Some? && realtimeHandler.Some? && sub.latestUpdate != sub.latestPrice.value.price {
        subscriptions := subscriptions[uid := Forwarded(sub)];
        HandleRealtimeUpdate(realtimeHandler.value, sub.latestPrice.value, nowMs);
      }
    }
  }
}
