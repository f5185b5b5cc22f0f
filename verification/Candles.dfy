// One-minute candles: what a candle of a bag of trades is, and how Spark's partial aggregates
// of it are combined.
module Candles {
  import opened Options
  import opened Reals
  import opened Trades

  // A row of analytics.candles_1m. `variance` is the square of the volatility column (the
  // sample standard deviation), NULL for a single trade. `quoteVolume` is a SQL SUM: NULL when
  // every summand is NULL.
  datatype Candle = Candle(open: real, avg: real, high: real, low: real, close: real,
                           volume: real, quoteVolume: Option<real>, tradeCount: nat,
                           variance: Option<real>)

  // ---------- the specification ----------

  function Mean(ts: seq<Trade>): real
    requires ts != []
  {
    Total(Price, ts) / |ts| as real
  }

  // Two-pass sum of squared deviations from the mean.
  function SqDev(ts: seq<Trade>): real
    requires ts != []
  {
    Total(DevSq(Mean(ts)), ts)
  }

  function Variance(ts: seq<Trade>): Option<real>
    requires ts != []
  {
    if |ts| == 1 then None else Some(SqDev(ts) / (|ts| - 1) as real)
  }

  predicate HasQuote(ts: seq<Trade>) {
    exists t :: t in ts && t.quoteQty.Some?
  }

  function QuoteSum(ts: seq<Trade>): Option<real> {
    if HasQuote(ts) then Some(Total(Quote, ts)) else None
  }

  ghost predicate IsHigh(p: real, ts: seq<Trade>) {
    (exists t :: t in ts && t.price == p) && forall t :: t in ts ==> t.price <= p
  }

  ghost predicate IsLow(p: real, ts: seq<Trade>) {
    (exists t :: t in ts && t.price == p) && forall t :: t in ts ==> p <= t.price
  }

  ghost predicate FirstAt(ms: int, p: real, ts: seq<Trade>) {
    (exists t :: t in ts && t.timeMs == ms && t.price == p) && forall t :: t in ts ==> ms <= t.timeMs
  }

  ghost predicate LastAt(ms: int, p: real, ts: seq<Trade>) {
    (exists t :: t in ts && t.timeMs == ms && t.price == p) && forall t :: t in ts ==> t.timeMs <= ms
  }

  // `c` is a candle of the bag of trades `ts`. Every column is determined by the bag except
  // open and close, which may be the price of any trade at the extreme time.
  ghost predicate IsCandle(c: Candle, ts: seq<Trade>) {
    && ts != []
    && c.tradeCount == |ts|
    && c.avg == Mean(ts)
    && c.variance == Variance(ts)
    && c.volume == Total(Qty, ts)
    && c.quoteVolume == QuoteSum(ts)
    && IsHigh(c.high, ts)
    && IsLow(c.low, ts)
    && (exists ms :: FirstAt(ms, c.open, ts))
    && (exists ms :: LastAt(ms, c.close, ts))
  }

  lemma SameBag(a: seq<Trade>, b: seq<Trade>)
    requires multiset(a) == multiset(b)
    ensures |a| == |b|
    ensures forall t :: t in a <==> t in b
    ensures forall f :: Total(f, a) == Total(f, b)
  {
    assert |multiset(a)| == |a| && |multiset(b)| == |b|;
    assert forall t :: t in a <==> t in multiset(a);
    assert forall t :: t in b <==> t in multiset(b);
    forall f ensures Total(f, a) == Total(f, b) {
      TotalPermute(f, a, b);
    }
  }

  predicate IsFirst(t: Trade, ts: seq<Trade>) {
    t in ts && forall u :: u in ts ==> t.timeMs <= u.timeMs
  }

  predicate IsLast(t: Trade, ts: seq<Trade>) {
    t in ts && forall u :: u in ts ==> u.timeMs <= t.timeMs
  }

  // All trades at the first millisecond carry one price, and so do all at the last.
  ghost predicate EndsAgree(ts: seq<Trade>) {
    && (forall t, u :: IsFirst(t, ts) && IsFirst(u, ts) ==> t.price == u.price)
    && (forall t, u :: IsLast(t, ts) && IsLast(u, ts) ==> t.price == u.price)
  }

  ghost predicate OnlyCandle(c: Candle, ts: seq<Trade>) {
    forall d :: IsCandle(d, ts) ==> d == c
  }

  ghost predicate SameButTies(c: Candle, d: Candle) {
    c.(open := 0.0, close := 0.0) == d.(open := 0.0, close := 0.0)
  }

  // Two candles of one bag differ in open and close at most.
  lemma CandleColumns(c: Candle, d: Candle, ts: seq<Trade>)
    requires IsCandle(c, ts) && IsCandle(d, ts)
    ensures SameButTies(c, d)
  {
  }

  lemma EndPrices(c: Candle, ts: seq<Trade>)
    requires IsCandle(c, ts)
    ensures exists t :: IsFirst(t, ts) && t.price == c.open
    ensures exists t :: IsLast(t, ts) && t.price == c.close
  {
    var ms :| FirstAt(ms, c.open, ts);
    var t :| t in ts && t.timeMs == ms && t.price == c.open;
    assert IsFirst(t, ts);
    var last :| LastAt(last, c.close, ts);
    var u :| u in ts && u.timeMs == last && u.price == c.close;
    assert IsLast(u, ts);
  }

  lemma OtherEnds(c: Candle, ts: seq<Trade>, t: Trade)
    requires IsCandle(c, ts)
    ensures IsFirst(t, ts) ==> IsCandle(c.(open := t.price), ts)
    ensures IsLast(t, ts) ==> IsCandle(c.(close := t.price), ts)
  {
    assert IsFirst(t, ts) ==> FirstAt(t.timeMs, t.price, ts);
    assert IsLast(t, ts) ==> LastAt(t.timeMs, t.price, ts);
  }

  // A bag has a single candle exactly when its ends agree.
  lemma {:induction false} CandleUnique(c: Candle, ts: seq<Trade>)
    requires IsCandle(c, ts)
    ensures OnlyCandle(c, ts) <==> EndsAgree(ts)
  {
    hide IsCandle, IsFirst, IsLast;
    if EndsAgree(ts) {
      forall d | IsCandle(d, ts)
        ensures d == c
      {
        CandleColumns(c, d, ts);
        EndPrices(c, ts);
        EndPrices(d, ts);
      }
    }
    if OnlyCandle(c, ts) {
      forall t { OtherEnds(c, ts, t); }
      assert forall t :: IsFirst(t, ts) ==> c.(open := t.price).open == c.open;
      assert forall t :: IsLast(t, ts) ==> c.(close := t.price).close == c.close;
    }
  }

  // ---------- squared deviations ----------

  // n values with this sum and sum of squares deviate from c by this much.
  function DevSqForm(sumSq: real, sum: real, n: real, c: real): real {
    sumSq - 2.0 * c * sum + n * c * c
  }

  lemma DevSqStep(p: real, c: real, sumSq: real, sum: real, n: real, nextSq: real, next: real)
    requires nextSq == p * p + sumSq && next == p + sum
    ensures (p - c) * (p - c) + DevSqForm(sumSq, sum, n, c) == DevSqForm(nextSq, next, n + 1.0, c)
  {
  }

  lemma {:induction false} TotalsOfCons(ts: seq<Trade>)
    requires ts != []
    ensures Total(PriceSq, ts) == ts[0].price * ts[0].price + Total(PriceSq, ts[1..])
    ensures Total(Price, ts) == ts[0].price + Total(Price, ts[1..])
    ensures |ts| as real == |ts[1..]| as real + 1.0
  {
  }

  lemma {:induction false} DevSqExpand(ts: seq<Trade>, c: real)
    ensures Total(DevSq(c), ts) == DevSqForm(Total(PriceSq, ts), Total(Price, ts), |ts| as real, c)
  {
    hide DevSqForm;
    if ts == [] {
      NoDeviation(c);
    } else {
      var rest := ts[1..];
      DevSqExpand(rest, c);
      TotalsOfCons(ts);
      DevSqStep(ts[0].price, c, Total(PriceSq, rest), Total(Price, rest), |rest| as real,
                Total(PriceSq, ts), Total(Price, ts));
    }
  }

  lemma NoDeviation(c: real)
    ensures DevSqForm(0.0, 0.0, 0.0, c) == 0.0
  {
  }

  // Squared deviations combine by the counts and means alone.
  lemma MergeIdentity(n: real, m: real, u: real, v: real)
    requires n > 0.0 && m > 0.0
    ensures -(u * u * n) - v * v * m + (v - u) * (v - u) * (n * m / (n + m))
         == -((u * n + v * m) * ((u * n + v * m) / (n + m)))
  {
    var s := n + m;
    var lhs := -(u * u * n) - v * v * m + (v - u) * (v - u) * (n * m / s);
    var rhs := -((u * n + v * m) * ((u * n + v * m) / s));
    assert (n * m / s) * s == n * m;
    assert ((u * n + v * m) / s) * s == u * n + v * m;
    calc {
      lhs * s;
      (-(u * u * n) - v * v * m) * s + (v - u) * (v - u) * ((n * m / s) * s);
      (-(u * u * n) - v * v * m) * s + (v - u) * (v - u) * (n * m);
      -((u * n + v * m) * (u * n + v * m));
      -((u * n + v * m) * (((u * n + v * m) / s) * s));
      rhs * s;
    }
    assert (lhs - rhs) * s == 0.0;
  }

  // Sum of squares minus n times the squared mean.
  function Centered(sumSq: real, sum: real, n: nat): real
    requires n > 0
  {
    sumSq - (sum / n as real) * (sum / n as real) * n as real
  }

  lemma CenteredExpand(sumSq: real, sum: real, n: real, u: real)
    requires n > 0.0 && u == sum / n
    ensures sumSq - 2.0 * u * sum + n * u * u == sumSq - u * u * n
  {
    assert u * n == sum;
    assert 2.0 * u * (u * n) == 2.0 * (u * u * n);
  }

  lemma SqDevClosed(ts: seq<Trade>)
    requires ts != []
    ensures SqDev(ts) == Centered(Total(PriceSq, ts), Total(Price, ts), |ts|)
  {
    DevSqExpand(ts, Mean(ts));
    CenteredExpand(Total(PriceSq, ts), Total(Price, ts), |ts| as real, Mean(ts));
  }

  function MergedSqDev(sqA: real, sumA: real, n: nat, sqB: real, sumB: real, m: nat): real
    requires n > 0 && m > 0
  {
    var delta := sumB / m as real - sumA / n as real;
    sqA + sqB + delta * delta * (n as real * m as real / (n + m) as real)
  }

  lemma MergeCentered(qa: real, sa: real, n: nat, qb: real, sb: real, m: nat)
    requires n > 0 && m > 0
    ensures Centered(qa + qb, sa + sb, n + m) == MergedSqDev(Centered(qa, sa, n), sa, n, Centered(qb, sb, m), sb, m)
  {
    var x, y := n as real, m as real;
    var u, v, w := sa / x, sb / y, (sa + sb) / (x + y);
    assert (n + m) as real == x + y;
    assert u * x == sa && v * y == sb;
    assert w * (x + y) == u * x + v * y;
    assert w * w * (x + y) == w * (w * (x + y)) == (u * x + v * y) * w;
    MergeIdentity(x, y, u, v);
  }

  lemma SqDevOfConcat(a: seq<Trade>, b: seq<Trade>)
    requires a != [] && b != []
    ensures SqDev(a + b) == Centered(Total(PriceSq, a) + Total(PriceSq, b), Total(Price, a) + Total(Price, b), |a| + |b|)
  {
    TotalConcat(PriceSq, a, b);
    TotalConcat(Price, a, b);
    SqDevClosed(a + b);
  }

  // The parallel update of the squared deviations is the two-pass value of the concatenation.
  lemma SqDevMerge(a: seq<Trade>, b: seq<Trade>)
    requires a != [] && b != []
    ensures SqDev(a + b) == MergedSqDev(SqDev(a), Total(Price, a), |a|, SqDev(b), Total(Price, b), |b|)
  {
    hide Centered, MergedSqDev, SqDev, Total;
    SqDevClosed(a);
    SqDevClosed(b);
    SqDevOfConcat(a, b);
    MergeCentered(Total(PriceSq, a), Total(Price, a), |a|, Total(PriceSq, b), Total(Price, b), |b|);
  }

  lemma MeanOfEqual(ts: seq<Trade>, p: real)
    requires ts != [] && forall t :: t in ts ==> t.price == p
    ensures Mean(ts) == p
  {
    PriceBounds(ts, p, p);
    DivideBounds(p, p, Total(Price, ts), |ts| as real);
  }

  // A variance is never negative, and zero exactly when all prices in the window are equal.
  lemma SqDevSign(ts: seq<Trade>)
    requires ts != []
    ensures SqDev(ts) >= 0.0
    ensures SqDev(ts) == 0.0 <==> forall t :: t in ts ==> t.price == ts[0].price
  {
    var c := Mean(ts);
    forall t | t in ts
      ensures Value(DevSq(c), t) >= 0.0 && (Value(DevSq(c), t) == 0.0 <==> t.price == c)
    {
      SquareSign(t.price - c);
    }
    TotalNonNegative(DevSq(c), ts);
    if forall t :: t in ts ==> t.price == ts[0].price {
      MeanOfEqual(ts, ts[0].price);
    }
  }

  lemma MeanBounds(ts: seq<Trade>, lo: real, hi: real)
    requires ts != [] && forall t :: t in ts ==> lo <= t.price <= hi
    ensures lo <= Mean(ts) <= hi
  {
    PriceBounds(ts, lo, hi);
    DivideBounds(lo, hi, Total(Price, ts), |ts| as real);
  }

  // low <= open, close, avg <= high.
  lemma CandleSandwich(c: Candle, ts: seq<Trade>)
    requires IsCandle(c, ts)
    ensures c.low <= c.open <= c.high
    ensures c.low <= c.close <= c.high
    ensures c.low <= c.avg <= c.high
  {
    assert exists t :: t in ts && t.price == c.open;
    assert exists t :: t in ts && t.price == c.close;
    MeanBounds(ts, c.low, c.high);
  }

  // The volatility of a candle is zero exactly when its high and low coincide.
  lemma CandleVolatility(c: Candle, ts: seq<Trade>)
    requires IsCandle(c, ts)
    ensures c.variance.None? <==> c.tradeCount == 1
    ensures c.variance.Some? ==> c.variance.value >= 0.0 && (c.variance.value == 0.0 <==> c.low == c.high)
  {
    if |ts| > 1 {
      SqDevSign(ts);
      QuotientSign(SqDev(ts), (|ts| - 1) as real);
      assert ts[0] in ts;
      if c.low == c.high {
        assert forall t :: t in ts ==> t.price == c.low;
      }
    }
  }

  // ---------- the columns, without the functions that define them ----------

  // The sums of (p - q)^2 over the prices q of a list, and over all pairs of its prices.
  function SquaresFrom(p: real, ts: seq<Trade>): real {
    if ts == [] then 0.0 else (p - ts[0].price) * (p - ts[0].price) + SquaresFrom(p, ts[1..])
  }

  function PairSquares(ts: seq<Trade>): real {
    if ts == [] then 0.0 else SquaresFrom(ts[0].price, ts[1..]) + PairSquares(ts[1..])
  }

  lemma {:induction false} SquaresFromForm(p: real, ts: seq<Trade>)
    ensures SquaresFrom(p, ts) == Total(DevSq(p), ts)
  {
    if ts != [] {
      SquaresFromForm(p, ts[1..]);
      SquareOfDifference(p, ts[0].price);
    }
  }

  lemma SquareOfDifference(p: real, q: real)
    ensures (p - q) * (p - q) == (q - p) * (q - p)
  {
  }

  // n times the sum of squares minus the square of the sum.
  function Spread(sumSq: real, sum: real, n: real): real {
    n * sumSq - sum * sum
  }

  lemma SpreadStep(p: real, sumSq: real, sum: real, n: real, nextSq: real, next: real)
    requires nextSq == p * p + sumSq && next == p + sum
    ensures DevSqForm(sumSq, sum, n, p) + Spread(sumSq, sum, n) == Spread(nextSq, next, n + 1.0)
  {
  }

  lemma {:induction false} PairSquaresForm(ts: seq<Trade>)
    ensures PairSquares(ts) == Spread(Total(PriceSq, ts), Total(Price, ts), |ts| as real)
  {
    hide Spread, DevSqForm, SquaresFrom, Total;
    if ts == [] {
      NoSpread();
    } else {
      var p, rest := ts[0].price, ts[1..];
      SquaresFromForm(p, rest);
      DevSqExpand(rest, p);
      PairSquaresForm(rest);
      TotalsOfCons(ts);
      SpreadStep(p, Total(PriceSq, rest), Total(Price, rest), |rest| as real, Total(PriceSq, ts), Total(Price, ts));
    }
  }

  lemma NoSpread()
    ensures PairSquares([]) == Spread(Total(PriceSq, []), Total(Price, []), 0.0)
  {
  }

  lemma CenteredSpread(sumSq: real, sum: real, n: nat)
    requires n > 0
    ensures n as real * Centered(sumSq, sum, n) == Spread(sumSq, sum, n as real)
  {
    var x := n as real;
    var u := sum / x;
    assert u * x == sum;
    assert (u * u * x) * x == (u * x) * (u * x);
  }

  lemma QuotientTimes(x: real, n: real, d: real)
    requires d != 0.0
    ensures n * d * (x / d) == n * x
  {
    assert d * (x / d) == x;
  }

  lemma SqDevSpread(ts: seq<Trade>)
    requires ts != []
    ensures |ts| as real * SqDev(ts) == PairSquares(ts)
  {
    hide Centered, Spread, SqDev, PairSquares, Total;
    SqDevClosed(ts);
    PairSquaresForm(ts);
    CenteredSpread(Total(PriceSq, ts), Total(Price, ts), |ts|);
  }

  // Volatility is the sample deviation: n (n - 1) times its square is the sum of the squared
  // differences over all pairs of prices.
  lemma {:induction false} CandleSpread(c: Candle, ts: seq<Trade>)
    requires IsCandle(c, ts) && |ts| > 1
    ensures c.variance.Some?
    ensures |ts| as real * (|ts| - 1) as real * c.variance.value == PairSquares(ts)
  {
    hide SqDev, PairSquares, Mean, QuoteSum, IsHigh, IsLow, FirstAt, LastAt;
    SqDevSpread(ts);
    QuotientTimes(SqDev(ts), |ts| as real, (|ts| - 1) as real);
  }

  // For two trades it is half the squared difference.
  lemma {:induction false} SpreadOfTwo(c: Candle, t: Trade, u: Trade)
    requires IsCandle(c, [t, u])
    ensures c.variance == Some((t.price - u.price) * (t.price - u.price) / 2.0)
  {
    hide IsCandle, PairSquares;
    CandleSpread(c, [t, u]);
    OnePair(t, u);
    HalfOf(c.variance.value, PairSquares([t, u]));
  }

  lemma OnePair(t: Trade, u: Trade)
    ensures PairSquares([t, u]) == (t.price - u.price) * (t.price - u.price)
  {
    assert [t, u][1..] == [u] && [u][1..] == [];
    assert PairSquares([]) == 0.0;
    assert SquaresFrom(u.price, []) == 0.0 && SquaresFrom(t.price, []) == 0.0;
    assert PairSquares([u]) == 0.0;
    assert SquaresFrom(t.price, [u]) == (t.price - u.price) * (t.price - u.price);
  }

  lemma HalfOf(v: real, x: real)
    requires 2.0 * 1.0 * v == x
    ensures v == x / 2.0
  {
  }

  // The candle of one trade.
  lemma {:induction false} CandleOfOne(c: Candle, t: Trade)
    requires IsCandle(c, [t])
    ensures c == Candle(t.price, t.price, t.price, t.price, t.price, t.quantity, t.quoteQty, 1, None)
  {
    SingleIsAcc(t);
    FinishIsCandle(Single(t), [t]);
    CandleColumns(c, Finish(Single(t)), [t]);
    EndPrices(c, [t]);
  }

  // The candle of two bags together, from the candles of each.
  lemma {:induction false} CandleOfBoth(x: Candle, a: seq<Trade>, y: Candle, b: seq<Trade>, c: Candle)
    requires IsCandle(x, a) && IsCandle(y, b) && IsCandle(c, a + b)
    ensures c.tradeCount == x.tradeCount + y.tradeCount
    ensures c.volume == x.volume + y.volume
    ensures c.avg * c.tradeCount as real == x.avg * x.tradeCount as real + y.avg * y.tradeCount as real
    ensures x.high <= c.high && y.high <= c.high && (c.high == x.high || c.high == y.high)
    ensures c.low <= x.low && c.low <= y.low && (c.low == x.low || c.low == y.low)
    ensures c.quoteVolume.None? <==> x.quoteVolume.None? && y.quoteVolume.None?
    ensures c.quoteVolume.Some? ==> c.quoteVolume.value == x.quoteVolume.GetOr(0.0) + y.quoteVolume.GetOr(0.0)
  {
    hide Total, HasQuote, Variance;
    TotalConcat(Qty, a, b);
    TotalConcat(Price, a, b);
    MergeQuotes(a, b);
    MeanTimes(a);
    MeanTimes(b);
    MeanTimes(a + b);
    assert forall t :: t in a + b <==> t in a || t in b;
  }

  lemma MeanTimes(ts: seq<Trade>)
    requires ts != []
    ensures Mean(ts) * |ts| as real == Total(Price, ts)
  {
  }

  // ---------- partial aggregates ----------

  // The aggregation buffer of aggregate_1m_ohlc: the state of avg, stddev_samp, max, min,
  // min_by, max_by, sum and count over the rows seen so far.
  datatype Acc = Acc(count: nat, sum: real, sqDev: real, high: real, low: real,
                     firstMs: int, open: real, lastMs: int, close: real,
                     volume: real, quote: Option<real>)

  function Single(t: Trade): Acc {
    Acc(1, t.price, 0.0, t.price, t.price, t.timeMs, t.price, t.timeMs, t.price, t.quantity, t.quoteQty)
  }

  // SUM skips NULLs.
  function AddNullable(x: Option<real>, y: Option<real>): Option<real> {
    if x.None? then y else if y.None? then x else Some(x.value + y.value)
  }

  function Merge(a: Acc, b: Acc): Acc
    requires a.count > 0 && b.count > 0
  {
    Acc(a.count + b.count,
        a.sum + b.sum,
        MergedSqDev(a.sqDev, a.sum, a.count, b.sqDev, b.sum, b.count),
        if a.high < b.high then b.high else a.high,
        if b.low < a.low then b.low else a.low,
        Min(a.firstMs, b.firstMs),
        if b.firstMs < a.firstMs then b.open else a.open,
        Max(a.lastMs, b.lastMs),
        if a.lastMs < b.lastMs then b.close else a.close,
        a.volume + b.volume,
        AddNullable(a.quote, b.quote))
  }

  function Finish(a: Acc): Candle
    requires a.count > 0
  {
    Candle(a.open, a.sum / a.count as real, a.high, a.low, a.close, a.volume, a.quote, a.count,
           if a.count == 1 then None else Some(a.sqDev / (a.count - 1) as real))
  }

  // The sums of a buffer, and its extremes, describe the bag `ts`.
  ghost predicate SumsOf(a: Acc, ts: seq<Trade>) {
    && ts != []
    && a.count == |ts|
    && a.sum == Total(Price, ts)
    && a.sqDev == SqDev(ts)
    && a.volume == Total(Qty, ts)
    && a.quote == QuoteSum(ts)
  }

  ghost predicate ExtremesOf(a: Acc, ts: seq<Trade>) {
    && IsHigh(a.high, ts)
    && IsLow(a.low, ts)
    && FirstAt(a.firstMs, a.open, ts)
    && LastAt(a.lastMs, a.close, ts)
  }

  ghost predicate IsAcc(a: Acc, ts: seq<Trade>) {
    SumsOf(a, ts) && ExtremesOf(a, ts)
  }

  lemma SingleIsAcc(t: Trade)
    ensures IsAcc(Single(t), [t])
  {
    assert forall f :: Total(f, [t]) == Value(f, t) by {
      forall f ensures Total(f, [t]) == Value(f, t) {
        assert [t][1..] == [];
      }
    }
    assert t in [t];
    assert Mean([t]) == t.price;
  }

  lemma MergeSums(a: Acc, x: seq<Trade>, b: Acc, y: seq<Trade>)
    requires SumsOf(a, x) && SumsOf(b, y)
    ensures SumsOf(Merge(a, b), x + y)
  {
    SqDevMerge(x, y);
    TotalConcat(Price, x, y);
    TotalConcat(Qty, x, y);
    MergeQuotes(x, y);
  }

  lemma NoQuotes(ts: seq<Trade>)
    requires !HasQuote(ts)
    ensures Total(Quote, ts) == 0.0
  {
  }

  lemma MergeQuotes(x: seq<Trade>, y: seq<Trade>)
    ensures QuoteSum(x + y) == AddNullable(QuoteSum(x), QuoteSum(y))
  {
    TotalConcat(Quote, x, y);
    assert forall t :: t in x + y <==> t in x || t in y;
    if !HasQuote(x) { NoQuotes(x); }
    if !HasQuote(y) { NoQuotes(y); }
  }

  lemma MergeExtremes(a: Acc, x: seq<Trade>, b: Acc, y: seq<Trade>)
    requires a.count > 0 && b.count > 0
    requires ExtremesOf(a, x) && ExtremesOf(b, y)
    ensures ExtremesOf(Merge(a, b), x + y)
  {
  }

  lemma AccPermute(a: Acc, x: seq<Trade>, y: seq<Trade>)
    requires IsAcc(a, x) && multiset(x) == multiset(y)
    ensures IsAcc(a, y)
  {
    SameBag(x, y);
    SqDevClosed(x);
    SqDevClosed(y);
  }

  lemma FinishIsCandle(a: Acc, ts: seq<Trade>)
    requires IsAcc(a, ts)
    ensures a.count > 0 && IsCandle(Finish(a), ts)
  {
  }

  // ---------- evaluation plans ----------

  // How an engine may evaluate one group: each new row becomes a buffer, buffers are merged
  // pairwise in any shape and order, and the buffer kept from earlier batches takes part once.
  datatype Plan = Row(t: Trade) | Stored | Join(left: Plan, right: Plan)

  function Rows(p: Plan): seq<Trade> {
    match p
    case Row(t) => [t]
    case Stored => []
    case Join(l, r) => Rows(l) + Rows(r)
  }

  function StoredUses(p: Plan): nat {
    match p
    case Row(_) => 0
    case Stored => 1
    case Join(l, r) => StoredUses(l) + StoredUses(r)
  }

  // A plan for the rows `ts` on top of an optional stored buffer.
  predicate PlanFor(p: Plan, stored: Option<Acc>, ts: seq<Trade>) {
    && multiset(Rows(p)) == multiset(ts)
    && StoredUses(p) == (if stored.Some? then 1 else 0)
  }

  function Eval(p: Plan, stored: Option<Acc>): (a: Acc)
    requires stored.Some? ==> stored.value.count > 0
    requires StoredUses(p) > 0 ==> stored.Some?
    ensures a.count > 0
  {
    match p
    case Row(t) => Single(t)
    case Stored => stored.value
    case Join(l, r) => Merge(Eval(l, stored), Eval(r, stored))
  }

  // The rows a plan has aggregated, in plan order, the stored buffer standing for `base`.
  function Leaves(p: Plan, base: seq<Trade>): seq<Trade> {
    match p
    case Row(t) => [t]
    case Stored => base
    case Join(l, r) => Leaves(l, base) + Leaves(r, base)
  }

  lemma {:induction false} LeavesBag(p: Plan, base: seq<Trade>)
    requires StoredUses(p) <= 1
    ensures multiset(Leaves(p, base)) == multiset(Rows(p)) + (if StoredUses(p) == 1 then multiset(base) else multiset{})
  {
    match p
    case Row(t) =>
    case Stored =>
    case Join(l, r) =>
      LeavesBag(l, base);
      LeavesBag(r, base);
  }

  lemma {:induction false} EvalLeaves(p: Plan, stored: Option<Acc>, base: seq<Trade>)
    requires StoredUses(p) > 0 ==> stored.Some?
    requires stored.Some? ==> IsAcc(stored.value, base)
    ensures IsAcc(Eval(p, stored), Leaves(p, base))
  {
    match p
    case Row(t) => SingleIsAcc(t);
    case Stored =>
    case Join(l, r) =>
      EvalLeaves(l, stored, base);
      EvalLeaves(r, stored, base);
      MergeSums(Eval(l, stored), Leaves(l, base), Eval(r, stored), Leaves(r, base));
      MergeExtremes(Eval(l, stored), Leaves(l, base), Eval(r, stored), Leaves(r, base));
  }

  // Any evaluation of a group, incremental or not, describes exactly the stored trades and the
  // new ones.
  lemma PlanSound(p: Plan, stored: Option<Acc>, base: seq<Trade>, ts: seq<Trade>)
    requires PlanFor(p, stored, ts)
    requires if stored.Some? then IsAcc(stored.value, base) else base == []
    ensures IsAcc(Eval(p, stored), base + ts)
  {
    EvalLeaves(p, stored, base);
    LeavesBag(p, base);
    assert multiset(Leaves(p, base)) == multiset(base + ts);
    AccPermute(Eval(p, stored), Leaves(p, base), base + ts);
  }

  // One row after the other, on top of the stored buffer if there is one.
  function PlanOf(ts: seq<Trade>, stored: bool): (p: Plan)
    requires ts != []
    ensures StoredUses(p) == if stored then 1 else 0
  {
    var n := |ts| - 1;
    if n > 0 then Join(PlanOf(ts[..n], stored), Row(ts[n]))
    else if stored then Join(Stored, Row(ts[0]))
    else Row(ts[0])
  }

  lemma {:induction false} PlanOfRows(ts: seq<Trade>, stored: bool)
    requires ts != []
    ensures Rows(PlanOf(ts, stored)) == ts
  {
    var n := |ts| - 1;
    if n > 0 {
      PlanOfRows(ts[..n], stored);
      assert ts == ts[..n] + [ts[n]];
    }
  }

  // With its row first in the plan, a trade at an extreme time decides the tie.
  lemma {:induction false} PlanEnds(ts: seq<Trade>)
    requires ts != []
    ensures var a := Eval(PlanOf(ts, false), None);
      && (IsFirst(ts[0], ts) ==> a.open == ts[0].price && a.firstMs == ts[0].timeMs)
      && (IsLast(ts[0], ts) ==> a.close == ts[0].price && a.lastMs == ts[0].timeMs)
  {
    var n := |ts| - 1;
    if n > 0 {
      PlanEnds(ts[..n]);
      assert forall t :: t in ts[..n] ==> t in ts;
      assert ts[n] in ts;
    }
  }

  // The plan that reads row i first.
  function StartingWith(ts: seq<Trade>, i: nat): Plan
    requires i < |ts|
  {
    PlanOf([ts[i]] + RemoveAt(ts, i), false)
  }

  lemma StartingWithOk(ts: seq<Trade>, i: nat)
    requires i < |ts|
    ensures PlanFor(StartingWith(ts, i), None, ts)
    ensures IsFirst(ts[i], ts) ==> Eval(StartingWith(ts, i), None).open == ts[i].price
    ensures IsLast(ts[i], ts) ==> Eval(StartingWith(ts, i), None).close == ts[i].price
  {
    hide Eval;
    var listed := [ts[i]] + RemoveAt(ts, i);
    PlanOfRows(listed, false);
    MultisetRemove(ts, i);
    assert multiset(listed) == multiset(ts);
    SameBag(listed, ts);
    PlanEnds(listed);
  }

  ghost predicate OneOutcome(ts: seq<Trade>) {
    forall p, q :: PlanFor(p, None, ts) && PlanFor(q, None, ts) ==> Finish(Eval(p, None)) == Finish(Eval(q, None))
  }

  // The ends of a bag agree exactly when every evaluation of it gives the same candle.
  lemma {:induction false} TiesDecide(ts: seq<Trade>)
    requires ts != []
    ensures OneOutcome(ts) <==> EndsAgree(ts)
  {
    hide IsCandle, IsFirst, IsLast, IsAcc, StartingWith;
    forall p | PlanFor(p, None, ts)
      ensures IsCandle(Finish(Eval(p, None)), ts)
    {
      PlanIsCandle(p, ts);
    }
    if EndsAgree(ts) {
      forall p | PlanFor(p, None, ts)
        ensures OnlyCandle(Finish(Eval(p, None)), ts)
      {
        CandleUnique(Finish(Eval(p, None)), ts);
      }
    }
    if OneOutcome(ts) {
      forall i, j | 0 <= i < |ts| && 0 <= j < |ts|
        ensures IsFirst(ts[i], ts) && IsFirst(ts[j], ts) ==> ts[i].price == ts[j].price
        ensures IsLast(ts[i], ts) && IsLast(ts[j], ts) ==> ts[i].price == ts[j].price
      {
        StartingWithOk(ts, i);
        StartingWithOk(ts, j);
      }
      EndsByIndex(ts);
    }
  }

  lemma PlanIsCandle(p: Plan, ts: seq<Trade>)
    requires ts != [] && PlanFor(p, None, ts)
    ensures IsCandle(Finish(Eval(p, None)), ts)
  {
    PlanSound(p, None, [], ts);
    assert [] + ts == ts;
    FinishIsCandle(Eval(p, None), ts);
  }

  lemma EndsByIndex(ts: seq<Trade>)
    requires forall i, j :: 0 <= i < |ts| && 0 <= j < |ts| && IsFirst(ts[i], ts) && IsFirst(ts[j], ts) ==>
      ts[i].price == ts[j].price
    requires forall i, j :: 0 <= i < |ts| && 0 <= j < |ts| && IsLast(ts[i], ts) && IsLast(ts[j], ts) ==>
      ts[i].price == ts[j].price
    ensures EndsAgree(ts)
  {
  }
}
