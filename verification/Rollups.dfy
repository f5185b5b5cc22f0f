// Two-level aggregation: trades into minute candles and candles into days, against one pass
// over the day's trades.
module Rollups {
  import opened Decimals
  import opened Options
  import opened Reals
  import opened Trades
  import opened Candles
  import opened Reference
  import opened Sums
  import opened Retention
  import opened Streaming

  // Per-window totals of one measure.
  function WindowTotals(ts: seq<Trade>, f: Measure): map<Key, real> {
    map k | k in Keys(ts) :: Total(f, Select(ts, Window(k)))
  }

  lemma WindowTotalSnoc(ts: seq<Trade>, t: Trade, k: Key, f: Measure)
    ensures Total(f, Select(ts + [t], Window(k)))
         == Total(f, Select(ts, Window(k))) + (if KeyOf(t) == k then Value(f, t) else 0.0)
    ensures k !in Keys(ts) ==> Total(f, Select(ts, Window(k))) == 0.0
  {
    SelectSnoc(ts, t, Window(k));
    WindowNonEmpty(ts, k);
    TotalSnoc(f, Select(ts, Window(k)), t);
  }

  lemma WindowTotalsSnoc(ts: seq<Trade>, t: Trade, f: Measure)
    ensures WindowTotals(ts + [t], f)
         == WindowTotals(ts, f)[KeyOf(t) := Get(WindowTotals(ts, f), KeyOf(t)).GetOr(0.0) + Value(f, t)]
  {
    hide Value, Total, Select, KeyOf;
    KeysConcat(ts, [t]);
    assert Keys([t]) == {KeyOf(t)};
    forall k { WindowTotalSnoc(ts, t, k, f); }
  }

  // Summing window by window is summing the trades.
  lemma {:induction false} TwoLevelTotal(ts: seq<Trade>, f: Measure)
    ensures Sum(WindowTotals(ts, f)) == Total(f, ts)
    decreases |ts|
  {
    hide Sum, Total, WindowTotals, Value;
    if ts == [] {
      EmptyTotals(f);
    } else {
      var n := |ts| - 1;
      var init, t := ts[..n], ts[n];
      assert ts == init + [t];
      TwoLevelTotal(init, f);
      WindowTotalsSnoc(init, t, f);
      TotalSnoc(f, init, t);
      SumPut(WindowTotals(init, f), KeyOf(t), Get(WindowTotals(init, f), KeyOf(t)).GetOr(0.0) + Value(f, t));
    }
  }

  lemma EmptyTotals(f: Measure)
    ensures Sum(WindowTotals([], f)) == 0.0 && Total(f, []) == 0.0
  {
  }

  // ---------- a table of candles against its trades ----------

  lemma WindowColumns(m: CandleTable, ts: seq<Trade>, k: Key)
    requires TableOf(m, ts) && k in m
    ensures m[k].volume == Total(Qty, Select(ts, Window(k)))
    ensures IsHigh(m[k].high, Select(ts, Window(k))) && IsLow(m[k].low, Select(ts, Window(k)))
  {
  }

  // The volume of a table of candles is that of its trades.
  lemma {:induction false} TableVolume(m: CandleTable, ts: seq<Trade>)
    requires TableOf(m, ts)
    ensures Sum(Volumes(m)) == Total(Qty, ts)
  {
    hide IsCandle, Sum, Total, Select;
    forall k | k in m
      ensures m[k].volume == Total(Qty, Select(ts, Window(k)))
    {
      WindowColumns(m, ts, k);
    }
    assert Volumes(m) == WindowTotals(ts, Qty);
    TwoLevelTotal(ts, Qty);
  }

  lemma QuoteOfWindow(m: CandleTable, ts: seq<Trade>, k: Key)
    requires TableOf(m, ts) && k in m
    ensures m[k].quoteVolume.GetOr(0.0) == Total(Quote, Select(ts, Window(k)))
    ensures m[k].quoteVolume.Some? <==> exists t :: t in ts && KeyOf(t) == k && t.quoteQty.Some?
  {
    SelectMembers(ts, Window(k));
    if !HasQuote(Select(ts, Window(k))) {
      NoQuotes(Select(ts, Window(k)));
    }
  }

  lemma TableHasQuote(m: CandleTable, ts: seq<Trade>)
    requires TableOf(m, ts)
    ensures Quotes(m) != map[] <==> HasQuote(ts)
  {
    hide IsCandle;
    var q := Quotes(m);
    forall k | k in m
      ensures m[k].quoteVolume.Some? <==> exists t :: t in ts && KeyOf(t) == k && t.quoteQty.Some?
    {
      QuoteOfWindow(m, ts, k);
    }
    if q != map[] {
      assert q.Keys != {};
      var k :| k in q;
      assert m[k].quoteVolume.Some?;
    }
    if HasQuote(ts) {
      var t :| t in ts && t.quoteQty.Some?;
      assert KeyOf(t) in m && KeyOf(t) in q;
    }
  }

  // So is its quote volume, NULL where every quote is.
  lemma TableQuotes(m: CandleTable, ts: seq<Trade>)
    requires TableOf(m, ts)
    ensures QuoteTotal(m) == QuoteSum(ts)
  {
    hide IsCandle, Sum, Total;
    TableHasQuote(m, ts);
    var quotes, totals := Quotes(m), WindowTotals(ts, Quote);
    forall k | k in totals
      ensures totals[k] == (if k in quotes then quotes[k] else 0.0)
    {
      QuoteOfWindow(m, ts, k);
    }
    SumZeros(quotes, totals);
    TwoLevelTotal(ts, Quote);
  }

  lemma TableHigh(m: CandleTable, ts: seq<Trade>, high: real)
    requires TableOf(m, ts) && IsMaxOf(high, Highs(m))
    ensures IsHigh(high, ts)
  {
    hide IsCandle, Select, KeyOf;
    var h :| h in m && Highs(m)[h] == high;
    WindowColumns(m, ts, h);
    SelectMembers(ts, Window(h));
    forall t | t in ts
      ensures t.price <= high
    {
      WindowColumns(m, ts, KeyOf(t));
      SelectMembers(ts, Window(KeyOf(t)));
      assert Highs(m)[KeyOf(t)] <= high;
    }
  }

  lemma TableLow(m: CandleTable, ts: seq<Trade>, low: real)
    requires TableOf(m, ts) && IsMinOf(low, Lows(m))
    ensures IsLow(low, ts)
  {
    hide IsCandle, Select, KeyOf;
    var l :| l in m && Lows(m)[l] == low;
    WindowColumns(m, ts, l);
    SelectMembers(ts, Window(l));
    forall t | t in ts
      ensures low <= t.price
    {
      WindowColumns(m, ts, KeyOf(t));
      SelectMembers(ts, Window(KeyOf(t)));
      assert low <= Lows(m)[KeyOf(t)];
    }
  }

  // The SQL aggregates of one day, over its trades.
  function DayRow(day: seq<Trade>): DailyRow
    requires day != []
  {
    DailyRow(Vwap(QuoteSum(day), Total(Qty, day)), Total(Qty, day), MaxPrice(day), MinPrice(day))
  }

  lemma HighLowUnique(ts: seq<Trade>, p: real, q: real)
    ensures IsHigh(p, ts) && IsHigh(q, ts) ==> p == q
    ensures IsLow(p, ts) && IsLow(q, ts) ==> p == q
  {
  }

  // The one rollup row of a table of candles is the aggregate of its trades.
  lemma {:induction false} TableRow(m: CandleTable, ts: seq<Trade>)
    requires TableOf(m, ts) && m != map[]
    ensures ts != [] && Rollup(m) == DayRow(ts)
  {
    hide IsCandle, Sum, Total, IsHigh, IsLow, IsMaxOf, IsMinOf;
    assert m.Keys != {};
    TableVolume(m, ts);
    TableQuotes(m, ts);
    var row := Rollup(m);
    TableHigh(m, ts, row.high);
    TableLow(m, ts, row.low);
    HighLowUnique(ts, row.high, MaxPrice(ts));
    HighLowUnique(ts, row.low, MinPrice(ts));
  }

  // A part of a table that holds exactly the windows of one scope is the table of its trades.
  lemma {:induction false} PartOfTable(m: CandleTable, ts: seq<Trade>, part: CandleTable, s: Scope)
    requires TableOf(m, ts)
    requires forall k :: k in part ==> k in m && part[k] == m[k]
    requires forall t :: KeyOf(t) in m ==> (KeyOf(t) in part <==> Covers(s, t))
    ensures TableOf(part, Select(ts, s))
  {
    hide IsCandle, Select, KeyOf;
    SelectMembers(ts, s);
    assert Keys(Select(ts, s)) == part.Keys;
    forall k | k in part
      ensures Select(Select(ts, s), Window(k)) == Select(ts, Window(k))
    {
      SelectNested(ts, s, Window(k));
    }
  }

  lemma DayTable(m: CandleTable, ts: seq<Trade>, g: Group)
    requires TableOf(m, ts)
    ensures TableOf(Part(m, g), Select(ts, Daily(g)))
  {
    hide TableOf;
    forall t { MinuteWithinDay(t); }
    PartOfTable(m, ts, Part(m, g), Daily(g));
  }

  // Rolling candles up by day gives the aggregates of the day's trades.
  lemma {:induction false} RollupIsDayRow(m: CandleTable, ts: seq<Trade>, g: Group)
    requires TableOf(m, ts) && g in GroupsOf(m)
    ensures Select(ts, Daily(g)) != [] && Part(m, g) != map[]
    ensures Rollup(Part(m, g)) == DayRow(Select(ts, Daily(g)))
  {
    hide TableOf, Rollup, Part, DayRow, Select;
    PartNonEmpty(m, g);
    DayTable(m, ts, g);
    TableRow(Part(m, g), Select(ts, Daily(g)));
  }

  lemma GroupsOfTable(m: CandleTable, ts: seq<Trade>)
    requires m.Keys == Keys(ts)
    ensures GroupsOf(m) == Groups(ts)
  {
    forall t { MinuteWithinDay(t); }
    forall g | g in Groups(ts)
      ensures g in GroupsOf(m)
    {
      var t :| t in ts && TradeGroup(t) == g;
      assert KeyOf(t) in m;
    }
  }

  // ---------- against the reference summary ----------

  ghost predicate ExactQuotes(ts: seq<Trade>) {
    forall t :: t in ts ==> t.quoteQty == Some(Value(Notional, t))
  }

  // Volume, high and low always agree with the reference. On a day with volume the vwap agrees
  // exactly when some quote is present and the quotes sum to the notional; on a day without
  // volume it is NULL where the reference has 0.
  lemma DayRowMatchesReference(day: seq<Trade>)
    requires day != []
    ensures var row, ref := DayRow(day), RefSummary(day);
      && row.totalVolume == ref.totalVolume && row.high == ref.high && row.low == ref.low
      && (row.totalVolume > 0.0 ==>
           (row.vwap == Some(ref.vwap) <==> HasQuote(day) && Total(Quote, day) == Total(Notional, day)))
      && (row.totalVolume <= 0.0 ==> row.vwap == None && ref.vwap == 0.0)
  {
    hide Total;
    var v := Total(Qty, day);
    if v > 0.0 {
      SameQuotient(Total(Quote, day), Total(Notional, day), v);
    }
  }

  lemma ExactQuotesTotal(day: seq<Trade>)
    requires day != [] && ExactQuotes(day)
    ensures HasQuote(day) && Total(Quote, day) == Total(Notional, day)
  {
    assert day[0] in day;
    TotalMonotone(Quote, Notional, day);
    TotalMonotone(Notional, Quote, day);
  }

  // ---------- rounding of quote_qty ----------

  ghost predicate RoundedQuotes(ts: seq<Trade>, s: nat) {
    forall t :: t in ts ==> t.quoteQty == Some(RoundHalfUp(Value(Notional, t), s))
  }

  lemma OneQuote(t: Trade, s: nat)
    requires t.quoteQty == Some(RoundHalfUp(Value(Notional, t), s))
    ensures Abs(Value(Quote, t) - Value(Notional, t)) <= 0.5 / Pow10(s)
  {
    hide RoundHalfUp, Pow10;
    RoundError(Value(Notional, t), s);
  }

  lemma {:induction false} QuotesWithin(ts: seq<Trade>, e: real)
    requires forall t :: t in ts ==> Abs(Value(Quote, t) - Value(Notional, t)) <= e
    ensures Abs(Total(Quote, ts) - Total(Notional, ts)) <= Total(Const(e), ts)
  {
    if ts != [] {
      assert ts[0] in ts && forall t :: t in ts[1..] ==> t in ts;
      QuotesWithin(ts[1..], e);
    }
  }

  // n rounded quotes are off by at most n half units in the last place.
  lemma {:induction false} QuoteRoundingBound(ts: seq<Trade>, s: nat)
    requires RoundedQuotes(ts, s)
    ensures Abs(Total(Quote, ts) - Total(Notional, ts)) <= (0.5 / Pow10(s)) * |ts| as real
  {
    hide RoundHalfUp, Pow10, Abs, Total, Value;
    forall t | t in ts
      ensures Abs(Value(Quote, t) - Value(Notional, t)) <= 0.5 / Pow10(s)
    {
      OneQuote(t, s);
    }
    QuotesWithin(ts, 0.5 / Pow10(s));
    TotalConst(0.5 / Pow10(s), ts);
  }

  // The daily vwap is then within that bound, divided by the volume, of the reference vwap.
  lemma {:induction false} VwapRoundingBound(day: seq<Trade>, s: nat)
    requires day != [] && RoundedQuotes(day, s) && Total(Qty, day) > 0.0
    ensures DayRow(day).vwap.Some?
    ensures Abs(DayRow(day).vwap.value - RefSummary(day).vwap) <= (0.5 / Pow10(s)) * |day| as real / Total(Qty, day)
  {
    hide Total, RoundHalfUp, Pow10, Abs, MaxPrice, MinPrice;
    QuoteRoundingBound(day, s);
    assert day[0] in day && HasQuote(day);
    AbsQuotient(Total(Quote, day), Total(Notional, day), Total(Qty, day), (0.5 / Pow10(s)) * |day| as real);
  }

}
