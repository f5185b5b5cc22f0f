// The reference aggregations: grouping loops over lists of trades.
module Reference {
  import opened Options
  import opened Reals
  import opened Trades
  import opened Candles

  // ---------- stable sort by time ----------

  ghost predicate SortedByTime(ts: seq<Trade>) {
    forall i, j :: 0 <= i < j < |ts| ==> ts[i].timeMs <= ts[j].timeMs
  }

  function Insert(t: Trade, ts: seq<Trade>): seq<Trade> {
    if ts == [] || t.timeMs <= ts[0].timeMs then [t] + ts else [ts[0]] + Insert(t, ts[1..])
  }

  function SortByTime(ts: seq<Trade>): seq<Trade> {
    if ts == [] then [] else Insert(ts[0], SortByTime(ts[1..]))
  }

  lemma BagCons(t: Trade, ts: seq<Trade>)
    ensures multiset([t] + ts) == multiset{t} + multiset(ts)
  {
  }

  lemma {:induction false} InsertBag(t: Trade, ts: seq<Trade>)
    ensures multiset(Insert(t, ts)) == multiset([t] + ts)
  {
    if !(ts == [] || t.timeMs <= ts[0].timeMs) {
      var first, rest := ts[0], ts[1..];
      InsertBag(t, rest);
      BagCons(first, Insert(t, rest));
      BagCons(t, rest);
      BagCons(t, ts);
      assert ts == [first] + rest;
      BagCons(first, rest);
    }
  }

  lemma {:induction false} InsertSorted(t: Trade, ts: seq<Trade>)
    requires SortedByTime(ts)
    ensures SortedByTime(Insert(t, ts))
    ensures Insert(t, ts)[0].timeMs == (if ts == [] then t.timeMs else Min(t.timeMs, ts[0].timeMs))
  {
    if !(ts == [] || t.timeMs <= ts[0].timeMs) {
      InsertSorted(t, ts[1..]);
    }
  }

  lemma {:induction false} InsertStable(t: Trade, ts: seq<Trade>, ms: int)
    ensures Select(Insert(t, ts), At(ms)) == Select([t] + ts, At(ms))
  {
    hide Select;
    if !(ts == [] || t.timeMs <= ts[0].timeMs) {
      var first, rest := ts[0], ts[1..];
      assert ts == [first] + rest;
      InsertStable(t, rest, ms);
      SelectCons(first, Insert(t, rest), At(ms));
      SelectCons(t, ts, At(ms));
      SelectCons(t, rest, At(ms));
      SelectCons(first, rest, At(ms));
    }
  }

  lemma {:induction false} SortBag(ts: seq<Trade>)
    ensures multiset(SortByTime(ts)) == multiset(ts)
    ensures |SortByTime(ts)| == |ts|
  {
    if ts != [] {
      hide Insert;
      var rest := SortByTime(ts[1..]);
      SortBag(ts[1..]);
      InsertBag(ts[0], rest);
      assert ts == [ts[0]] + ts[1..];
      assert multiset([ts[0]] + rest) == multiset(ts);
    }
    assert |multiset(SortByTime(ts))| == |SortByTime(ts)| && |multiset(ts)| == |ts|;
  }

  // The sort orders by time, keeps the bag, and keeps the listed order of equal times.
  lemma {:induction false} SortCorrect(ts: seq<Trade>, ms: int)
    ensures SortedByTime(SortByTime(ts))
    ensures multiset(SortByTime(ts)) == multiset(ts)
    ensures |SortByTime(ts)| == |ts|
    ensures Select(SortByTime(ts), At(ms)) == Select(ts, At(ms))
  {
    SortBag(ts);
    SortStable(ts, ms);
    SortOrders(ts);
  }

  lemma {:induction false} SortOrders(ts: seq<Trade>)
    ensures SortedByTime(SortByTime(ts))
  {
    if ts != [] {
      hide Insert, SortedByTime;
      SortOrders(ts[1..]);
      InsertSorted(ts[0], SortByTime(ts[1..]));
    }
  }

  lemma {:induction false} SortStable(ts: seq<Trade>, ms: int)
    ensures Select(SortByTime(ts), At(ms)) == Select(ts, At(ms))
  {
    if ts != [] {
      hide Insert, Select;
      var rest := SortByTime(ts[1..]);
      assert ts == [ts[0]] + ts[1..];
      SortStable(ts[1..], ms);
      InsertStable(ts[0], rest, ms);
      SelectCons(ts[0], rest, At(ms));
      SelectCons(ts[0], ts[1..], At(ms));
    }
  }

  // ---------- candles ----------

  function MaxPrice(ts: seq<Trade>): (p: real)
    requires ts != []
    ensures IsHigh(p, ts)
  {
    assert ts == [ts[0]] + ts[1..];
    if |ts| == 1 then ts[0].price
    else
      var rest := MaxPrice(ts[1..]);
      if ts[0].price < rest then rest else ts[0].price
  }

  function MinPrice(ts: seq<Trade>): (p: real)
    requires ts != []
    ensures IsLow(p, ts)
  {
    assert ts == [ts[0]] + ts[1..];
    if |ts| == 1 then ts[0].price
    else
      var rest := MinPrice(ts[1..]);
      if rest < ts[0].price then rest else ts[0].price
  }

  // The candle of one bucket. A missing quote_qty counts as zero.
  function RefCandle(bucket: seq<Trade>): Candle
    requires bucket != []
  {
    var ordered := SortByTime(bucket);
    SortCorrect(bucket, 0);
    Candle(ordered[0].price, Mean(ordered), MaxPrice(ordered), MinPrice(ordered),
           ordered[|ordered| - 1].price, Total(Qty, ordered), Some(Total(Quote, ordered)),
           |ordered|, Variance(ordered))
  }

  // The quote_volume column of a reference candle, with SQL's NULL in place of an empty sum.
  function WithSqlQuote(c: Candle, ts: seq<Trade>): Candle {
    c.(quoteVolume := QuoteSum(ts))
  }

  lemma RefColumns(ts: seq<Trade>)
    requires ts != []
    ensures var c := RefCandle(ts);
      && c.tradeCount == |ts| && c.avg == Mean(ts) && c.variance == Variance(ts)
      && c.volume == Total(Qty, ts) && c.quoteVolume == Some(Total(Quote, ts))
      && IsHigh(c.high, ts) && IsLow(c.low, ts)
  {
    hide SortByTime, Select, Total, SqDev, MaxPrice, MinPrice;
    var ordered := SortByTime(ts);
    SortCorrect(ts, 0);
    SameBag(ordered, ts);
    SqDevClosed(ordered);
    SqDevClosed(ts);
  }

  lemma SortedEnds(ts: seq<Trade>)
    requires ts != []
    ensures var o := SortByTime(ts);
      FirstAt(o[0].timeMs, o[0].price, ts) && LastAt(o[|o| - 1].timeMs, o[|o| - 1].price, ts)
  {
    hide SortByTime, Select, Total;
    var ordered := SortByTime(ts);
    SortCorrect(ts, 0);
    SameBag(ordered, ts);
    assert ordered[0] in ordered && ordered[|ordered| - 1] in ordered;
    forall t | t in ts
      ensures ordered[0].timeMs <= t.timeMs <= ordered[|ordered| - 1].timeMs
    {
      assert t in ordered;
      var i :| 0 <= i < |ordered| && ordered[i] == t;
    }
  }

  lemma RefEnds(ts: seq<Trade>)
    requires ts != []
    ensures exists ms :: FirstAt(ms, RefCandle(ts).open, ts)
    ensures exists ms :: LastAt(ms, RefCandle(ts).close, ts)
  {
    hide SortByTime, Select, Total, SqDev, MaxPrice, MinPrice, FirstAt, LastAt;
    SortCorrect(ts, 0);
    SortedEnds(ts);
    var o := SortByTime(ts);
    assert FirstAt(o[0].timeMs, RefCandle(ts).open, ts);
    assert LastAt(o[|o| - 1].timeMs, RefCandle(ts).close, ts);
  }

  // The reference is one of the candles the streaming rules allow, up to the NULL quote sum.
  lemma {:induction false} RefIsCandle(ts: seq<Trade>)
    requires ts != []
    ensures IsCandle(WithSqlQuote(RefCandle(ts), ts), ts)
  {
    hide RefCandle, FirstAt, LastAt, IsHigh, IsLow, Mean, Variance, QuoteSum;
    RefColumns(ts);
    RefEnds(ts);
  }

  // It is the only one exactly when the ends of the bag agree.
  lemma {:induction false} RefIsOnlyCandle(ts: seq<Trade>)
    requires ts != []
    ensures OnlyCandle(WithSqlQuote(RefCandle(ts), ts), ts) <==> EndsAgree(ts)
  {
    hide RefCandle;
    RefIsCandle(ts);
    CandleUnique(WithSqlQuote(RefCandle(ts), ts), ts);
  }

  // Exactly when every quote_qty is missing, the reference writes 0 where SQL writes NULL.
  lemma {:induction false} RefQuote(ts: seq<Trade>)
    requires ts != []
    ensures IsCandle(RefCandle(ts), ts) <==> HasQuote(ts)
    ensures RefCandle(ts).quoteVolume.value == QuoteSum(ts).GetOr(0.0)
  {
    RefIsCandle(ts);
    RefColumns(ts);
    if !HasQuote(ts) {
      NoQuotes(ts);
    }
  }

  lemma {:induction false} EndsOfTie(ordered: seq<Trade>, ms: int)
    requires ordered != [] && Select(ordered, At(ms)) != []
    ensures ordered[0].timeMs == ms ==> Select(ordered, At(ms))[0] == ordered[0]
    ensures ordered[|ordered| - 1].timeMs == ms ==>
      Select(ordered, At(ms))[|Select(ordered, At(ms))| - 1] == ordered[|ordered| - 1]
  {
    hide Select;
    var n := |ordered| - 1;
    assert ordered == [ordered[0]] + ordered[1..] && ordered == ordered[..n] + [ordered[n]];
    SelectCons(ordered[0], ordered[1..], At(ms));
    SelectSnoc(ordered[..n], ordered[n], At(ms));
  }

  // Among several trades at the earliest (latest) millisecond the reference opens (closes) with
  // the first (last) one listed.
  lemma RefTies(ts: seq<Trade>, ms: int)
    requires ts != [] && Select(ts, At(ms)) != []
    ensures (forall t :: t in ts ==> ms <= t.timeMs) ==>
      RefCandle(ts).open == Select(ts, At(ms))[0].price
    ensures (forall t :: t in ts ==> t.timeMs <= ms) ==>
      RefCandle(ts).close == Select(ts, At(ms))[|Select(ts, At(ms))| - 1].price
  {
    hide SortByTime, Select, Mean, MaxPrice, MinPrice, Total, Variance;
    SortCorrect(ts, ms);
    SortedEnds(ts);
    EndsOfTie(SortByTime(ts), ms);
    SelectMembers(ts, At(ms));
    assert Select(ts, At(ms))[0] in Select(ts, At(ms));
  }

  // ---------- the grouping loops ----------

  // Listed ids are kept once, the first time.
  method DedupByEventId(trades: seq<Trade>) returns (deduped: seq<Trade>)
    ensures deduped == Dedup(trades)
  {
    var seen: set<string> := {};
    deduped := [];
    var i := 0;
    while i < |trades|
      invariant 0 <= i <= |trades|
      invariant seen == Ids(trades[..i])
      invariant deduped == Dedup(trades[..i])
    {
      assert trades[..i + 1] == trades[..i] + [trades[i]];
      DedupConcat(trades[..i], [trades[i]], {});
      assert {} + Ids(trades[..i]) == seen;
      if trades[i].eventId !in seen {
        seen := seen + {trades[i].eventId};
        deduped := deduped + [trades[i]];
      }
      i := i + 1;
    }
    assert trades[..|trades|] == trades;
  }

  // buckets[k].append(trade), on a defaultdict.
  function AddTo<K>(buckets: map<K, seq<Trade>>, k: K, t: Trade): map<K, seq<Trade>> {
    buckets[k := Get(buckets, k).GetOr([]) + [t]]
  }

  ghost predicate WindowBuckets(buckets: map<Key, seq<Trade>>, ts: seq<Trade>) {
    && buckets.Keys == Keys(ts)
    && forall k :: k in buckets ==> buckets[k] == Select(ts, Window(k))
  }

  lemma KeysSnoc(ts: seq<Trade>, t: Trade)
    ensures Keys(ts + [t]) == Keys(ts) + {KeyOf(t)}
    ensures Groups(ts + [t]) == Groups(ts) + {TradeGroup(t)}
  {
    hide KeyOf, TradeGroup;
    assert forall u :: u in ts + [t] <==> u in ts || u == t;
  }

  lemma WindowBucketsStep(buckets: map<Key, seq<Trade>>, ts: seq<Trade>, t: Trade)
    requires WindowBuckets(buckets, ts)
    ensures WindowBuckets(AddTo(buckets, KeyOf(t), t), ts + [t])
  {
    hide Select, Keys, KeyOf;
    forall k
      ensures Select(ts + [t], Window(k)) == if KeyOf(t) == k then Select(ts, Window(k)) + [t] else Select(ts, Window(k))
    {
      SelectSnoc(ts, t, Window(k));
    }
    WindowNonEmpty(ts, KeyOf(t));
    KeysSnoc(ts, t);
  }

  lemma WindowBucketsNext(buckets: map<Key, seq<Trade>>, trades: seq<Trade>, i: nat)
    requires i < |trades| && WindowBuckets(buckets, trades[..i])
    ensures var t := trades[i];
      WindowBuckets(AddTo(buckets, KeyOf(t), t), trades[..i + 1])
  {
    hide WindowBuckets, KeyOf, AddTo;
    WindowBucketsStep(buckets, trades[..i], trades[i]);
    assert trades[..i + 1] == trades[..i] + [trades[i]];
  }

  lemma NoBuckets(trades: seq<Trade>)
    ensures WindowBuckets(map[], trades[..0])
    ensures DailyBuckets(map[], trades[..0])
  {
  }

  method WindowBucketsOf(trades: seq<Trade>) returns (buckets: map<Key, seq<Trade>>)
    ensures WindowBuckets(buckets, trades)
  {
    hide WindowBuckets, KeyOf, AddTo;
    buckets := map[];
    var i := 0;
    NoBuckets(trades);
    while i < |trades|
      invariant 0 <= i <= |trades|
      invariant WindowBuckets(buckets, trades[..i])
    {
      WindowBucketsNext(buckets, trades, i);
      buckets := AddTo(buckets, KeyOf(trades[i]), trades[i]);
      i := i + 1;
    }
    assert trades[..|trades|] == trades;
  }

  method Compute1mCandles(trades: seq<Trade>) returns (candles: map<Key, Candle>)
    ensures candles.Keys == Keys(trades)
    ensures forall k :: k in candles ==> Select(trades, Window(k)) != [] && candles[k] == RefCandle(Select(trades, Window(k)))
  {
    hide Select, RefCandle, Keys;
    var buckets := WindowBucketsOf(trades);
    candles := map[];
    var rest := buckets.Keys;
    while rest != {}
      invariant rest <= buckets.Keys
      invariant candles.Keys == buckets.Keys - rest
      invariant forall k :: k in candles ==> buckets[k] != [] && candles[k] == RefCandle(buckets[k])
      decreases rest
    {
      var k :| k in rest;
      WindowNonEmpty(trades, k);
      candles := candles[k := RefCandle(buckets[k])];
      rest := rest - {k};
    }
  }

  // A row of the reference daily summary; a zero-volume day has vwap 0.
  datatype RefDaily = RefDaily(vwap: real, totalVolume: real, high: real, low: real)

  function RefSummary(bucket: seq<Trade>): RefDaily
    requires bucket != []
  {
    var volume := Total(Qty, bucket);
    RefDaily(if volume > 0.0 then Total(Notional, bucket) / volume else 0.0, volume, MaxPrice(bucket), MinPrice(bucket))
  }

  // low <= vwap <= high on every day with volume.
  lemma DailySandwich(ts: seq<Trade>)
    requires ts != [] && NonNegative(ts)
    ensures RefSummary(ts).totalVolume >= 0.0
    ensures RefSummary(ts).totalVolume > 0.0 ==> RefSummary(ts).low <= RefSummary(ts).vwap <= RefSummary(ts).high
  {
    hide Total;
    var lo, hi := MinPrice(ts), MaxPrice(ts);
    TotalNonNegative(Qty, ts);
    NotionalBounds(ts, lo, hi);
    if Total(Qty, ts) > 0.0 {
      DivideBounds(lo, hi, Total(Notional, ts), Total(Qty, ts));
    }
  }

  // The summary of one trade.
  lemma {:induction false} SummaryOfOne(t: Trade)
    ensures RefSummary([t]) == RefDaily(if t.quantity > 0.0 then t.price else 0.0, t.quantity, t.price, t.price)
  {
    var volume, notional := Total(Qty, [t]), Total(Notional, [t]);
    TotalOne(Qty, t);
    TotalOne(Notional, t);
    if volume > 0.0 {
      Cancel(t.price, t.quantity);
      assert notional / volume == t.price;
    }
    assert MaxPrice([t]) == t.price && MinPrice([t]) == t.price;
  }

  // vwap times volume is the notional.
  lemma VwapTimesVolume(ts: seq<Trade>)
    requires ts != [] && NonNegative(ts)
    ensures RefSummary(ts).vwap * RefSummary(ts).totalVolume == Total(Notional, ts)
  {
    hide Total;
    TotalNonNegative(Qty, ts);
    if Total(Qty, ts) == 0.0 {
      NotionalBounds(ts, MinPrice(ts), MaxPrice(ts));
      ZeroProduct(Total(Qty, ts), MinPrice(ts));
      ZeroProduct(Total(Qty, ts), MaxPrice(ts));
    } else {
      assert (Total(Notional, ts) / Total(Qty, ts)) * Total(Qty, ts) == Total(Notional, ts);
    }
  }

  // The summary of two lists together, from the summaries of each.
  lemma {:induction false} SummaryOfBoth(a: seq<Trade>, b: seq<Trade>)
    requires a != [] && b != [] && NonNegative(a) && NonNegative(b)
    ensures var x, y, c := RefSummary(a), RefSummary(b), RefSummary(a + b);
      && c.totalVolume == x.totalVolume + y.totalVolume
      && c.vwap * c.totalVolume == x.vwap * x.totalVolume + y.vwap * y.totalVolume
      && x.high <= c.high && y.high <= c.high && (c.high == x.high || c.high == y.high)
      && c.low <= x.low && c.low <= y.low && (c.low == x.low || c.low == y.low)
  {
    hide Total, MaxPrice, MinPrice;
    assert forall t :: t in a + b <==> t in a || t in b;
    VwapTimesVolume(a);
    VwapTimesVolume(b);
    VwapTimesVolume(a + b);
    TotalConcat(Qty, a, b);
    TotalConcat(Notional, a, b);
    assert IsHigh(MaxPrice(a + b), a + b) && IsLow(MinPrice(a + b), a + b);
  }

  ghost predicate DailyBuckets(buckets: map<Group, seq<Trade>>, ts: seq<Trade>) {
    && buckets.Keys == Groups(ts)
    && forall g :: g in buckets ==> buckets[g] == Select(ts, Daily(g))
  }

  lemma DailyBucketsStep(buckets: map<Group, seq<Trade>>, ts: seq<Trade>, t: Trade)
    requires DailyBuckets(buckets, ts)
    ensures DailyBuckets(AddTo(buckets, TradeGroup(t), t), ts + [t])
  {
    hide Select, Groups, TradeGroup;
    forall g
      ensures Select(ts + [t], Daily(g)) == if TradeGroup(t) == g then Select(ts, Daily(g)) + [t] else Select(ts, Daily(g))
    {
      SelectSnoc(ts, t, Daily(g));
    }
    DailyNonEmpty(ts, TradeGroup(t));
    KeysSnoc(ts, t);
  }

  lemma DailyBucketsNext(buckets: map<Group, seq<Trade>>, trades: seq<Trade>, i: nat)
    requires i < |trades| && DailyBuckets(buckets, trades[..i])
    ensures var t := trades[i];
      DailyBuckets(AddTo(buckets, TradeGroup(t), t), trades[..i + 1])
  {
    hide DailyBuckets, TradeGroup, AddTo;
    DailyBucketsStep(buckets, trades[..i], trades[i]);
    assert trades[..i + 1] == trades[..i] + [trades[i]];
  }

  method DailyBucketsOf(trades: seq<Trade>) returns (buckets: map<Group, seq<Trade>>)
    ensures DailyBuckets(buckets, trades)
  {
    hide DailyBuckets, TradeGroup, AddTo;
    buckets := map[];
    var i := 0;
    NoBuckets(trades);
    while i < |trades|
      invariant 0 <= i <= |trades|
      invariant DailyBuckets(buckets, trades[..i])
    {
      DailyBucketsNext(buckets, trades, i);
      buckets := AddTo(buckets, TradeGroup(trades[i]), trades[i]);
      i := i + 1;
    }
    assert trades[..|trades|] == trades;
  }

  method ComputeDailySummary(trades: seq<Trade>) returns (summaries: map<Group, RefDaily>)
    ensures summaries.Keys == Groups(trades)
    ensures forall g :: g in summaries ==> Select(trades, Daily(g)) != [] && summaries[g] == RefSummary(Select(trades, Daily(g)))
  {
    hide Select, RefSummary, Groups;
    var buckets := DailyBucketsOf(trades);
    summaries := map[];
    var rest := buckets.Keys;
    while rest != {}
      invariant rest <= buckets.Keys
      invariant summaries.Keys == buckets.Keys - rest
      invariant forall g :: g in summaries ==> buckets[g] != [] && summaries[g] == RefSummary(buckets[g])
      decreases rest
    {
      var g :| g in rest;
      DailyNonEmpty(trades, g);
      summaries := summaries[g := RefSummary(buckets[g])];
      rest := rest - {g};
    }
  }
}
