/** The pure candle logic of src/components/trading-view/utils/Datafeed.tsx:
    resolution widths, bucket starts, the bar built for a live tick, the
    guard in front of it, and the conversion of history records into bars.
    Prices and volumes are reals (they only meet max, min, equality and a
    zero test); times are integers. */
module Bars {
  import opened Wire
  import opened Text

  datatype Bar = Bar(time: int, open: real, high: real, low: real, close: real, volume: real)

  // ------------------------------------------------------------- resolution

  /** The minute resolutions with a table entry besides "1S". */
  const MinuteResolutions: seq<string> := ["1", "5", "15", "30", "60", "240", "360", "720", "1440"]

  /** The decimal values of the listed minute tokens. */
  lemma MinuteTokenValues()
    ensures forall r :: r in MinuteResolutions ==> AllDigits(r)
    ensures DecimalValue("1") == 1 && DecimalValue("5") == 5 && DecimalValue("15") == 15
    ensures DecimalValue("30") == 30 && DecimalValue("60") == 60 && DecimalValue("240") == 240
    ensures DecimalValue("360") == 360 && DecimalValue("720") == 720 && DecimalValue("1440") == 1440
  {
    assert DecimalValue("1") == 1;
    assert DecimalValue("5") == 5;
    assert DecimalValue("15") == 15 by { assert "15"[..1] == "1"; }
    assert DecimalValue("30") == 30 by { assert "30"[..1] == "3"; }
    assert DecimalValue("60") == 60 by { assert "60"[..1] == "6"; }
    assert DecimalValue("240") == 240 by { assert "240"[..2] == "24"; assert "24"[..1] == "2"; }
    assert DecimalValue("360") == 360 by { assert "360"[..2] == "36"; assert "36"[..1] == "3"; }
    assert DecimalValue("720") == 720 by { assert "720"[..2] == "72"; assert "72"[..1] == "7"; }
    assert DecimalValue("1440") == 1440 by {
      assert "1440"[..3] == "144"; assert "144"[..2] == "14"; assert "14"[..1] == "1";
    }
  }

  /** `getResolutionInSeconds`: "1S" maps to 0, every listed minute token to
      60 times its value, and any other token (lower-case "1s" included) to 60. */
  function ResolutionSeconds(resolution: string): (w: nat)
    ensures w == 0 <==> resolution == "1S"
    ensures resolution in MinuteResolutions ==> AllDigits(resolution) && w == 60 * DecimalValue(resolution)
    ensures resolution != "1S" && resolution !in MinuteResolutions ==> w == 60
  {
    MinuteTokenValues();
    match resolution
    case "1S" => 0
    case "1" => 60
    case "5" => 300
    case "15" => 900
    case "30" => 1800
    case "60" => 3600
    case "240" => 14400
    case "360" => 21600
    case "720" => 43200
    case "1440" => 86400
    case _ => 60
  }

  /** The bucket start, in seconds, for the current time `now` in seconds:
      `now` itself for "1S", otherwise `now` rounded down to a multiple of the
      resolution width. */
  function BucketStart(resolution: string, now: nat): (start: nat)
    ensures resolution == "1S" ==> start == now
    ensures resolution != "1S" ==>
              start % ResolutionSeconds(resolution) == 0 && start <= now < start + ResolutionSeconds(resolution)
  {
    if resolution == "1S" then now
    else
      var w := ResolutionSeconds(resolution);
      FloorMultiple(now, w);
      (now / w) * w
  }

  lemma FloorMultiple(n: nat, w: nat)
    requires w > 0
    ensures (n / w) * w % w == 0 && (n / w) * w <= n < (n / w) * w + w
  {
    MultipleMod(n / w, w);
  }

  /** A positive multiple of `w` is at least `w`, a negative one at most `-w`. */
  lemma MulAtLeast(k: int, w: nat)
    requires w > 0
    ensures k >= 1 ==> k * w >= w
    ensures k <= -1 ==> k * w + w <= 0
  {
    if k >= 1 {
      assert k * w == (k - 1) * w + w;
      assert (k - 1) * w >= 0;
    } else if k <= -1 {
      assert k * w + w == (k + 1) * w;
      assert (k + 1) * w <= 0;
    }
  }

  lemma MultipleMod(q: int, w: nat)
    requires w > 0
    ensures (q * w) % w == 0
  {
    var r, d := (q * w) % w, (q * w) / w;
    assert q * w == d * w + r;
    assert (q - d) * w == r;
    MulAtLeast(q - d, w);
  }

  /** The bucket start is the only multiple of the width that is at most
      `now` and within one width of it. */
  lemma BucketStartUnique(resolution: string, now: nat, m: int)
    requires resolution != "1S"
    requires m % ResolutionSeconds(resolution) == 0
    requires m <= now < m + ResolutionSeconds(resolution)
    ensures m == BucketStart(resolution, now)
  {
    var w := ResolutionSeconds(resolution);
    var a, b := m / w, now / w;
    assert m == a * w;
    assert BucketStart(resolution, now) == b * w;
    assert (a - b) * w == m - b * w;
    MulAtLeast(a - b, w);
  }

  // ---------------------------------------------------------- the live bar

  function Max(a: real, b: real): real
  {
    if a >= b then a else b
  }

  function Min(a: real, b: real): real
  {
    if a <= b then a else b
  }

  /** The cached bar belongs to the bucket starting at `start` (seconds):
      `latestBar.time / 1000 === currentBarTimestamp`, with `time` in ms an integer. */
  predicate InBucket(latest: Option<Bar>, start: int)
  {
    latest.Some? && latest.value.time == start * 1000
  }

  /** The bar `handleRealtimeUpdate` builds for a tick at `price` whose bucket
      starts at `start`, given the cached bar. */
  function NextBar(latest: Option<Bar>, start: int, price: real): (b: Bar)
    ensures b.time == start * 1000
    ensures InBucket(latest, start) ==>
              && b.open == latest.value.open && b.volume == latest.value.volume
              && b.close == price
              && b.high >= latest.value.high && b.high >= price && (b.high == latest.value.high || b.high == price)
              && b.low <= latest.value.low && b.low <= price && (b.low == latest.value.low || b.low == price)
    ensures !InBucket(latest, start) ==>
              && b.open == (if latest.Some? then latest.value.close else price)
              && b.high == b.open && b.low == b.open
              && b.close == (if price == 0.0 then b.open else price)
              && b.volume == 0.0
  {
    if InBucket(latest, start) then
      latest.value.(high := Max(latest.value.high, price), low := Min(latest.value.low, price), close := price)
    else
      var openPrice := if latest.Some? then latest.value.close else price;
      Bar(start * 1000, openPrice, openPrice, openPrice, if price == 0.0 then openPrice else price, 0.0)
  }

  /** The open lies within [low, high]. */
  predicate OpenInRange(b: Bar)
  {
    b.low <= b.open <= b.high
  }

  /** The close lies within [low, high]. */
  predicate CloseInRange(b: Bar)
  {
    b.low <= b.close <= b.high
  }

  /** Every live update keeps the open inside the bar's range, and an update
      within the bucket also puts the close inside it and only widens the range. */
  lemma NextBarRanges(latest: Option<Bar>, start: int, price: real)
    requires latest.Some? ==> OpenInRange(latest.value)
    ensures OpenInRange(NextBar(latest, start, price))
    ensures InBucket(latest, start) ==>
              CloseInRange(NextBar(latest, start, price)) &&
              NextBar(latest, start, price).low <= latest.value.low <= latest.value.high <= NextBar(latest, start, price).high
  {
  }

  /** A bar opened for a new bucket does not widen to its close: after a close
      of 12 at 3600 s, a tick of 8 in the next hour gives low = high = 12 and close 8. */
  lemma NewBarCloseMayLeaveRange()
    ensures var b := NextBar(Some(Bar(0, 10.0, 12.0, 10.0, 12.0, 0.0)), 3600, 8.0);
            b == Bar(3600000, 12.0, 12.0, 12.0, 8.0, 0.0) && !CloseInRange(b)
  {
  }

  /** The zero-price guard exists only for a new bar: within the cached
      bucket a tick of 0 becomes the close and, for non-negative prices, the
      low, while a new bar keeps its open as the close. */
  lemma ZeroPriceOnlyGuardedForNewBar(latest: Option<Bar>, start: int)
    ensures InBucket(latest, start) && latest.value.low >= 0.0 ==>
              NextBar(latest, start, 0.0).close == 0.0 && NextBar(latest, start, 0.0).low == 0.0
    ensures !InBucket(latest, start) ==> NextBar(latest, start, 0.0).close == NextBar(latest, start, 0.0).open
    ensures NextBar(Some(Bar(0, 5.0, 6.0, 4.0, 5.0, 1.0)), 0, 0.0) == Bar(0, 5.0, 6.0, 0.0, 0.0, 1.0)
  {
  }

  /** Repeating a price within a bucket, once the cached bar is in that bucket,
      changes nothing. */
  lemma SameBucketRepeatIsIdempotent(latest: Option<Bar>, start: int, price: real)
    requires InBucket(latest, start)
    ensures NextBar(Some(NextBar(latest, start, price)), start, price) == NextBar(latest, start, price)
  {
  }

  /** Outside one bucket a repeated price is not idempotent: a tick of 12 in
      a bucket after a flat bar at 10 opens at 10, and the same tick again,
      now within that bucket, widens the high to 12. */
  lemma NewBucketRepeatNotIdempotent()
    ensures var c := Some(Bar(0, 10.0, 10.0, 10.0, 10.0, 0.0));
            && NextBar(c, 10, 12.0) == Bar(10000, 10.0, 10.0, 10.0, 12.0, 0.0)
            && NextBar(Some(NextBar(c, 10, 12.0)), 10, 12.0) == Bar(10000, 10.0, 12.0, 10.0, 12.0, 0.0)
  {
  }

  // ----------------------------------------------------- the tick guard

  /** The outcome of `handleRealtimeUpdate` for one tick: ignored, or applied
      with the new `lastPrice` and the bar stored in the cache and emitted. */
  datatype Step = Ignored | Applied(lastPrice: real, bar: Bar)

  /** `handleRealtimeUpdate` for a tick `data` at `nowMs` (Date.now()), given the
      module's `lastPrice` and the cached bar of the symbol. */
  function RealtimeStep(lastPrice: real, cached: Option<Bar>, resolution: string, data: Payload, nowMs: nat): (r: Step)
    ensures r.Applied? ==> HasPool(data)
    ensures r.Applied? ==> r.lastPrice != 0.0 || data.price == 0.0
    ensures r.Applied? ==> r.bar.time % 1000 == 0
  {
    if !HasPool(data) then Ignored
    else if lastPrice != 0.0 && lastPrice == data.price then Ignored
    else
      var start := BucketStart(resolution, nowMs / 1000);
      Applied(if lastPrice == 0.0 then data.price else lastPrice, NextBar(cached, start, data.price))
  }

  /** A tick is dropped exactly when it has no pool, or when `lastPrice` is
      set and the tick repeats it. */
  lemma TickGuard(lastPrice: real, cached: Option<Bar>, resolution: string, data: Payload, nowMs: nat)
    ensures RealtimeStep(lastPrice, cached, resolution, data, nowMs).Ignored? <==>
              !HasPool(data) || (lastPrice != 0.0 && data.price == lastPrice)
  {
  }

  /** `lastPrice` is adopted from the first applied tick while it is 0 and never
      changes once it is non-zero; an applied tick emits the bar of its bucket. */
  lemma LastPriceWrittenOnlyWhileZero(lastPrice: real, cached: Option<Bar>, resolution: string, data: Payload, nowMs: nat)
    requires RealtimeStep(lastPrice, cached, resolution, data, nowMs).Applied?
    ensures var step := RealtimeStep(lastPrice, cached, resolution, data, nowMs);
            && step.lastPrice == (if lastPrice == 0.0 then data.price else lastPrice)
            && step.bar == NextBar(cached, BucketStart(resolution, nowMs / 1000), data.price)
            && step.bar.time == BucketStart(resolution, nowMs / 1000) * 1000
  {
  }

  /** Only ticks equal to the first seen price are dropped afterwards: with
      `lastPrice` at p, a tick at q != p is applied and leaves `lastPrice` at p,
      so a second tick at q is applied again. */
  lemma OnlyFirstPriceDropped(p: real, q: real, cached: Option<Bar>, resolution: string, data: Payload, nowMs: nat)
    requires p != 0.0 && HasPool(data) && data.price == q && q != p
    ensures RealtimeStep(p, cached, resolution, data, nowMs).Applied?
    ensures RealtimeStep(p, cached, resolution, data, nowMs).lastPrice == p
    ensures RealtimeStep(p, cached, resolution, data.(price := p), nowMs).Ignored?
  {
  }

  /** The hourly scenario on the code as written: ticks 10 and 12 within one
      hour give {open 10, high 12, low 10, close 12}; a tick of 8 in the next
      hour opens {open 12, high 12, low 12, close 8}. */
  lemma HourlyScenario(pool: string, t: nat)
    requires pool != ""
    ensures var d := Payload(None, None, Some(pool), 10.0);
            var s1 := RealtimeStep(0.0, None, "60", d, t * 3600000);
            var s2 := RealtimeStep(s1.lastPrice, Some(s1.bar), "60", d.(price := 12.0), t * 3600000 + 1000);
            var s3 := RealtimeStep(s2.lastPrice, Some(s2.bar), "60", d.(price := 8.0), (t + 1) * 3600000);
            && s1.Applied? && s2.Applied? && s3.Applied?
            && s2.bar == Bar(t * 3600000, 10.0, 12.0, 10.0, 12.0, 0.0)
            && s3.bar == Bar((t + 1) * 3600000, 12.0, 12.0, 12.0, 8.0, 0.0)
  {
    assert (t * 3600000) / 1000 == t * 3600;
    assert (t * 3600000 + 1000) / 1000 == t * 3600 + 1;
    assert ((t + 1) * 3600000) / 1000 == (t + 1) * 3600;
    BucketStartUnique("60", t * 3600, t * 3600);
    BucketStartUnique("60", t * 3600 + 1, t * 3600);
    BucketStartUnique("60", (t + 1) * 3600, (t + 1) * 3600);
  }

  // --------------------------------------------------------------- history

  /** One record of the chart history, `time` in seconds. */
  datatype Record = Record(time: int, open: real, high: real, low: real, close: real, volume: real)

  /** A history record becomes a bar with its time in milliseconds. */
  function ToBar(r: Record): (b: Bar)
    ensures b.time == r.time * 1000
    ensures b.time / 1000 == r.time && b.time % 1000 == 0
    ensures (b.open, b.high, b.low, b.close, b.volume) == (r.open, r.high, r.low, r.close, r.volume)
  {
    Bar(r.time * 1000, r.open, r.high, r.low, r.close, r.volume)
  }

  /** The non-null records, in order. */
  function Present(data: seq<Option<Record>>): (rs: seq<Record>)
    ensures |rs| <= |data|
    ensures forall r :: r in rs <==> Some(r) in data
    ensures (forall i :: 0 <= i < |data| ==> data[i].Some?) ==> |rs| == |data|
    decreases |data|
  {
    if data == [] then []
    else Present(data[..|data| - 1]) + (if data[|data| - 1].Some? then [data[|data| - 1].value] else [])
  }

  /** The bars pushed by `data.forEach`: one per non-null record, in order. */
  function Convert(data: seq<Option<Record>>): (bs: seq<Bar>)
    ensures |bs| <= |data|
    ensures forall i :: 0 <= i < |bs| ==> bs[i].time % 1000 == 0
    decreases |data|
  {
    if data == [] then []
    else Convert(data[..|data| - 1]) + (if data[|data| - 1].Some? then [ToBar(data[|data| - 1].value)] else [])
  }

  /** The produced bars are the non-null records converted one by one, in order. */
  lemma {:induction false} ConvertIsPresentMapped(data: seq<Option<Record>>)
    ensures |Convert(data)| == |Present(data)|
    ensures forall k :: 0 <= k < |Convert(data)| ==> Convert(data)[k] == ToBar(Present(data)[k])
    decreases |data|
  {
    if data != [] {
      ConvertIsPresentMapped(data[..|data| - 1]);
    }
  }

  /** Records ascending by time give bars ascending by time. */
  lemma ConvertKeepsOrder(data: seq<Option<Record>>)
    requires forall i, j :: 0 <= i < j < |Present(data)| ==> Present(data)[i].time < Present(data)[j].time
    ensures forall i, j :: 0 <= i < j < |Convert(data)| ==> Convert(data)[i].time < Convert(data)[j].time
  {
    ConvertIsPresentMapped(data);
    forall i, j | 0 <= i < j < |Convert(data)|
      ensures Convert(data)[i].time < Convert(data)[j].time
    {
      var a, b := Present(data)[i].time, Present(data)[j].time;
      assert a * 1000 < b * 1000;
    }
  }

  /** The result handed to `onHistoryCallback`. */
  datatype History = History(bars: seq<Bar>, noData: bool)

  /** `getBars` once `data` is in hand: a request that is not the first, a
      null or an empty `data` all give no bars and `noData`; otherwise the
      converted bars, with `noData` exactly when there are none. */
  function GetBarsResult(firstDataRequest: bool, data: Option<seq<Option<Record>>>): (h: History)
    ensures h.noData <==> h.bars == []
    ensures !firstDataRequest || data.None? ==> h.bars == []
    ensures firstDataRequest && data.Some? ==> h.bars == Convert(data.value)
  {
    if !firstDataRequest then History([], true)
    else if data.None? || |data.value| == 0 then History([], true)
    else
      var bars := Convert(data.value);
      History(bars, |bars| == 0)
  }

  /** The bar `getBars` seeds the cache with, when any: the last non-null record. */
  lemma SeedIsLastRecord(data: seq<Option<Record>>)
    requires Convert(data) != []
    ensures Present(data) != []
    ensures Convert(data)[|Convert(data)| - 1] == ToBar(Present(data)[|Present(data)| - 1])
  {
    ConvertIsPresentMapped(data);
  }
}
