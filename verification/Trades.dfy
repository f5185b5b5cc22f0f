// Accepted trades, the windows and days they fall into, and order-independent sums over
// lists of them.
module Trades {
  import opened Options
  import opened Reals

  const MINUTE := 60000
  const DAY := 86400000

  // A validated trade with its decimal casts; `quoteQty` is NULL when the cast of the optional
  // quote_qty text failed or the text was missing. Times are epoch milliseconds.
  datatype Trade = Trade(eventId: string, symbol: string, price: real, quantity: real,
                         quoteQty: Option<real>, timeMs: int)

  // Primary key of analytics.candles_1m.
  datatype Key = Key(symbol: string, start: int)

  // Primary key of analytics.daily_summary, the date as a UTC day number.
  datatype Group = Group(day: int, symbol: string)

  function FloorToMinute(t: int): (m: int)
    ensures m % MINUTE == 0 && m <= t < m + MINUTE
  {
    t - t % MINUTE
  }

  function DayOf(t: int): int {
    t / DAY
  }

  function KeyOf(t: Trade): Key {
    Key(t.symbol, FloorToMinute(t.timeMs))
  }

  function GroupOf(k: Key): Group {
    Group(DayOf(k.start), k.symbol)
  }

  function TradeGroup(t: Trade): Group {
    Group(DayOf(t.timeMs), t.symbol)
  }

  // A minute never straddles midnight, so a trade and its candle are filed under the same day.
  lemma MinuteWithinDay(t: Trade)
    ensures GroupOf(KeyOf(t)) == TradeGroup(t)
  {
    var m := FloorToMinute(t.timeMs);
    assert DAY == 1440 * MINUTE;
    assert m % MINUTE == 0;
    var d := m / DAY;
    assert m == d * DAY + m % DAY;
    assert (m % DAY) % MINUTE == 0;
    assert m % DAY <= DAY - MINUTE;
    assert d * DAY <= t.timeMs < d * DAY + DAY;
  }

  function Keys(ts: seq<Trade>): set<Key> {
    set t | t in ts :: KeyOf(t)
  }

  function Groups(ts: seq<Trade>): set<Group> {
    set t | t in ts :: TradeGroup(t)
  }

  function Ids(ts: seq<Trade>): set<string> {
    set t | t in ts :: t.eventId
  }

  ghost predicate DistinctIds(ts: seq<Trade>) {
    forall i, j :: 0 <= i < j < |ts| ==> ts[i].eventId != ts[j].eventId
  }

  ghost predicate NonNegative(ts: seq<Trade>) {
    forall t :: t in ts ==> t.quantity >= 0.0
  }

  // ---------- selection ----------

  // The groupings the pipeline makes: a symbol's minute, a symbol's day, a day, one millisecond,
  // everything after a watermark, and the minutes that start between two cutoffs.
  datatype Scope = Window(k: Key) | Daily(g: Group) | On(day: int) | At(ms: int) | After(wm: int)
                 | Within(lo: int, hi: int)

  predicate Covers(s: Scope, t: Trade) {
    match s
    case Window(k) => KeyOf(t) == k
    case Daily(g) => TradeGroup(t) == g
    case On(day) => DayOf(t.timeMs) == day
    case At(ms) => t.timeMs == ms
    case After(wm) => t.timeMs > wm
    case Within(lo, hi) => lo <= KeyOf(t).start < hi
  }

  // What each scope covers, in milliseconds.
  lemma CoversExactly(s: Scope, t: Trade)
    ensures s.Window? ==>
      (Covers(s, t) <==> t.symbol == s.k.symbol && s.k.start % 60000 == 0 && s.k.start <= t.timeMs < s.k.start + 60000)
    ensures s.Daily? ==>
      (Covers(s, t) <==> t.symbol == s.g.symbol && s.g.day * 86400000 <= t.timeMs < (s.g.day + 1) * 86400000)
    ensures s.On? ==> (Covers(s, t) <==> s.day * 86400000 <= t.timeMs < (s.day + 1) * 86400000)
    ensures s.At? ==> (Covers(s, t) <==> t.timeMs == s.ms)
    ensures s.After? ==> (Covers(s, t) <==> s.wm < t.timeMs)
    ensures s.Within? ==> (Covers(s, t) <==> s.lo <= t.timeMs - t.timeMs % 60000 < s.hi)
  {
    if s.Window? && s.k.start % 60000 == 0 && s.k.start <= t.timeMs < s.k.start + 60000 {
      var m := FloorToMinute(t.timeMs);
      assert (m - s.k.start) % 60000 == 0;
    }
  }

  function Select(ts: seq<Trade>, s: Scope): seq<Trade> {
    if ts == [] then []
    else if Covers(s, ts[0]) then [ts[0]] + Select(ts[1..], s)
    else Select(ts[1..], s)
  }

  lemma {:induction false} SelectMembers(ts: seq<Trade>, s: Scope)
    ensures forall t :: t in Select(ts, s) <==> t in ts && Covers(s, t)
  {
    if ts != [] {
      SelectMembers(ts[1..], s);
      assert ts == [ts[0]] + ts[1..];
    }
  }

  lemma SelectCons(t: Trade, ts: seq<Trade>, s: Scope)
    ensures Select([t] + ts, s) == (if Covers(s, t) then [t] else []) + Select(ts, s)
  {
    assert ([t] + ts)[1..] == ts;
  }

  lemma {:induction false} SelectConcat(a: seq<Trade>, b: seq<Trade>, s: Scope)
    ensures Select(a + b, s) == Select(a, s) + Select(b, s)
  {
    hide Covers, Select;
    if a == [] {
      assert a + b == b;
      SelectEmpty(s);
    } else {
      var t, rest := a[0], a[1..];
      assert a == [t] + rest && a + b == [t] + (rest + b);
      SelectConcat(rest, b, s);
      SelectCons(t, rest, s);
      SelectCons(t, rest + b, s);
    }
  }

  lemma SelectEmpty(s: Scope)
    ensures Select([], s) == []
  {
  }

  lemma SelectSnoc(ts: seq<Trade>, t: Trade, s: Scope)
    ensures Select(ts + [t], s) == if Covers(s, t) then Select(ts, s) + [t] else Select(ts, s)
  {
    hide Select, Covers;
    SelectConcat(ts, [t], s);
    assert [t] == [t] + [];
    SelectCons(t, [], s);
    SelectEmpty(s);
  }

  // A selection keeps every occurrence of what it covers.
  lemma {:induction false} SelectBag(ts: seq<Trade>, s: Scope, t: Trade)
    ensures multiset(Select(ts, s))[t] == if Covers(s, t) then multiset(ts)[t] else 0
  {
    hide Covers;
    if ts != [] {
      hide Select;
      var first, rest := ts[0], ts[1..];
      assert ts == [first] + rest;
      SelectBag(rest, s, t);
      SelectCons(first, rest, s);
      assert multiset([first] + rest) == multiset{first} + multiset(rest);
      assert multiset([first] + Select(rest, s)) == multiset{first} + multiset(Select(rest, s));
      assert [] + Select(rest, s) == Select(rest, s);
    }
  }

  lemma {:induction false} SelectNone(ts: seq<Trade>, s: Scope)
    requires forall t :: t in ts ==> !Covers(s, t)
    ensures Select(ts, s) == []
  {
    if ts != [] {
      assert ts[0] in ts && forall t :: t in ts[1..] ==> t in ts;
      SelectNone(ts[1..], s);
    }
  }

  lemma {:induction false} SelectAll(ts: seq<Trade>, s: Scope)
    requires forall t :: t in ts ==> Covers(s, t)
    ensures Select(ts, s) == ts
  {
    if ts != [] {
      SelectAll(ts[1..], s);
    }
  }

  lemma {:induction false} SelectNested(ts: seq<Trade>, wide: Scope, narrow: Scope)
    requires forall t :: Covers(narrow, t) ==> Covers(wide, t)
    ensures Select(Select(ts, wide), narrow) == Select(ts, narrow)
  {
    if ts != [] {
      SelectNested(ts[1..], wide, narrow);
    }
  }

  // A window, or day, has trades exactly when its key, or group, is present.
  lemma WindowNonEmpty(ts: seq<Trade>, k: Key)
    ensures Select(ts, Window(k)) != [] <==> k in Keys(ts)
  {
    SelectMembers(ts, Window(k));
    assert Select(ts, Window(k)) != [] ==> Select(ts, Window(k))[0] in Select(ts, Window(k));
  }

  lemma DailyNonEmpty(ts: seq<Trade>, g: Group)
    ensures Select(ts, Daily(g)) != [] <==> g in Groups(ts)
  {
    SelectMembers(ts, Daily(g));
    assert Select(ts, Daily(g)) != [] ==> Select(ts, Daily(g))[0] in Select(ts, Daily(g));
  }

  // ---------- first-occurrence dedup ----------

  function DedupFrom(ts: seq<Trade>, seen: set<string>): seq<Trade> {
    if ts == [] then []
    else if ts[0].eventId in seen then DedupFrom(ts[1..], seen)
    else [ts[0]] + DedupFrom(ts[1..], seen + {ts[0].eventId})
  }

  function Dedup(ts: seq<Trade>): seq<Trade> {
    DedupFrom(ts, {})
  }

  lemma IdsCons(t: Trade, ts: seq<Trade>)
    ensures Ids([t] + ts) == {t.eventId} + Ids(ts)
  {
  }

  lemma DistinctCons(t: Trade, ts: seq<Trade>)
    requires DistinctIds(ts) && t.eventId !in Ids(ts)
    ensures DistinctIds([t] + ts)
  {
    assert forall u :: u in ts ==> u.eventId in Ids(ts);
  }

  // A dedup with memory keeps one row of every id not yet seen.
  lemma {:induction false} DedupFromIds(ts: seq<Trade>, seen: set<string>)
    ensures Ids(DedupFrom(ts, seen)) == Ids(ts) - seen
    ensures DistinctIds(DedupFrom(ts, seen))
  {
    if ts != [] {
      hide Ids, DistinctIds;
      var t, rest := ts[0], ts[1..];
      assert ts == [t] + rest;
      IdsCons(t, rest);
      var seen' := if t.eventId in seen then seen else seen + {t.eventId};
      DedupFromIds(rest, seen');
      var kept := DedupFrom(rest, seen');
      IdsCons(t, kept);
      if t.eventId !in seen {
        DistinctCons(t, kept);
      }
    }
  }

  lemma {:induction false} DedupFromSubset(ts: seq<Trade>, seen: set<string>)
    ensures forall t :: t in DedupFrom(ts, seen) ==> t in ts
  {
    if ts != [] {
      var seen' := if ts[0].eventId in seen then seen else seen + {ts[0].eventId};
      DedupFromSubset(ts[1..], seen');
    }
  }

  // The row kept of an id is its first occurrence.
  lemma {:induction false} DedupFromFirst(ts: seq<Trade>, seen: set<string>, i: nat)
    requires i < |ts| && ts[i].eventId !in seen
    requires forall j :: 0 <= j < i ==> ts[j].eventId != ts[i].eventId
    ensures ts[i] in DedupFrom(ts, seen)
  {
    if i > 0 {
      var seen' := if ts[0].eventId in seen then seen else seen + {ts[0].eventId};
      DedupFromFirst(ts[1..], seen', i - 1);
    }
  }

  // Dedup with memory, batch after batch, is dedup of the concatenation.
  lemma {:induction false} DedupConcat(a: seq<Trade>, b: seq<Trade>, seen: set<string>)
    ensures DedupFrom(a + b, seen) == DedupFrom(a, seen) + DedupFrom(b, seen + Ids(a))
  {
    hide Ids;
    if a == [] {
      assert a + b == b;
      NoIds(seen);
    } else {
      var t, rest := a[0], a[1..];
      assert a == [t] + rest && (a + b)[0] == t && (a + b)[1..] == rest + b;
      IdsCons(t, rest);
      var seen' := if t.eventId in seen then seen else seen + {t.eventId};
      DedupConcat(rest, b, seen');
      assert seen' + Ids(rest) == seen + Ids(a);
    }
  }

  lemma NoIds(seen: set<string>)
    ensures seen + Ids([]) == seen
  {
  }

  // ---------- sums over lists ----------

  datatype Measure = Const(c: real) | Price | PriceSq | DevSq(c: real) | Qty | Weighted(c: real) | Notional | Quote

  function Value(f: Measure, t: Trade): real {
    match f
    case Const(c) => c
    case Price => t.price
    case PriceSq => t.price * t.price
    case DevSq(c) => (t.price - c) * (t.price - c)
    case Qty => t.quantity
    case Weighted(c) => c * t.quantity
    case Notional => t.price * t.quantity
    case Quote => t.quoteQty.GetOr(0.0)
  }

  function Total(f: Measure, ts: seq<Trade>): real {
    if ts == [] then 0.0 else Value(f, ts[0]) + Total(f, ts[1..])
  }

  lemma {:induction false} TotalConcat(f: Measure, a: seq<Trade>, b: seq<Trade>)
    ensures Total(f, a + b) == Total(f, a) + Total(f, b)
  {
    if a == [] {
      assert a + b == b;
    } else {
      TotalConcat(f, a[1..], b);
      assert (a + b)[1..] == a[1..] + b;
    }
  }

  lemma TotalSnoc(f: Measure, ts: seq<Trade>, t: Trade)
    ensures Total(f, ts + [t]) == Total(f, ts) + Value(f, t)
  {
    TotalConcat(f, ts, [t]);
    assert [t][1..] == [];
  }

  lemma TotalOne(f: Measure, t: Trade)
    ensures Total(f, [t]) == Value(f, t)
  {
    TotalSnoc(f, [], t);
    assert [] + [t] == [t];
  }

  function RemoveAt<T>(s: seq<T>, i: nat): (r: seq<T>)
    requires i < |s|
    ensures |r| == |s| - 1
  {
    s[..i] + s[i + 1..]
  }

  lemma MultisetRemove<T>(s: seq<T>, i: nat)
    requires i < |s|
    ensures multiset(RemoveAt(s, i)) == multiset(s) - multiset{s[i]}
  {
    assert s == s[..i] + [s[i]] + s[i + 1..];
  }

  lemma TotalRemove(f: Measure, ts: seq<Trade>, i: nat)
    requires i < |ts|
    ensures Total(f, ts) == Value(f, ts[i]) + Total(f, RemoveAt(ts, i))
  {
    var l, r := ts[..i], ts[i + 1..];
    assert ts == l + [ts[i]] + r;
    TotalConcat(f, l, r);
    TotalSnoc(f, l, ts[i]);
    TotalConcat(f, l + [ts[i]], r);
  }

  lemma CommonElement<T>(a: seq<T>, b: seq<T>) returns (i: nat)
    requires a != [] && multiset(a) == multiset(b)
    ensures i < |b| && b[i] == a[0]
    ensures multiset(RemoveAt(a, 0)) == multiset(RemoveAt(b, i))
  {
    assert a[0] in multiset(b);
    i :| i < |b| && b[i] == a[0];
    MultisetRemove(a, 0);
    MultisetRemove(b, i);
  }

  lemma {:induction false} TotalPermute(f: Measure, a: seq<Trade>, b: seq<Trade>)
    requires multiset(a) == multiset(b)
    ensures Total(f, a) == Total(f, b)
    decreases |a|
  {
    if a == [] {
      assert |multiset(b)| == |b|;
    } else {
      var i := CommonElement(a, b);
      TotalPermute(f, RemoveAt(a, 0), RemoveAt(b, i));
      TotalRemove(f, a, 0);
      TotalRemove(f, b, i);
    }
  }

  lemma {:induction false} TotalMonotone(f: Measure, g: Measure, ts: seq<Trade>)
    requires forall t :: t in ts ==> Value(f, t) <= Value(g, t)
    ensures Total(f, ts) <= Total(g, ts)
  {
    if ts != [] {
      assert ts[0] in ts && forall t :: t in ts[1..] ==> t in ts;
      TotalMonotone(f, g, ts[1..]);
    }
  }

  lemma {:induction false} TotalNonNegative(f: Measure, ts: seq<Trade>)
    requires forall t :: t in ts ==> Value(f, t) >= 0.0
    ensures Total(f, ts) >= 0.0
    ensures Total(f, ts) == 0.0 <==> forall t :: t in ts ==> Value(f, t) == 0.0
  {
    if ts != [] {
      TotalNonNegative(f, ts[1..]);
      assert ts == [ts[0]] + ts[1..];
    }
  }

  lemma {:induction false} TotalConst(c: real, ts: seq<Trade>)
    ensures Total(Const(c), ts) == c * |ts| as real
  {
    if ts != [] {
      TotalConst(c, ts[1..]);
      Distribute(c, 1.0, |ts[1..]| as real);
    }
  }

  lemma {:induction false} TotalWeighted(c: real, ts: seq<Trade>)
    ensures Total(Weighted(c), ts) == c * Total(Qty, ts)
  {
    if ts != [] {
      TotalWeighted(c, ts[1..]);
      Distribute(c, ts[0].quantity, Total(Qty, ts[1..]));
    }
  }

  // Quantities are the weights of an average price: lo * q <= p * q <= hi * q, summed.
  lemma NotionalBounds(ts: seq<Trade>, lo: real, hi: real)
    requires NonNegative(ts)
    requires forall t :: t in ts ==> lo <= t.price <= hi
    ensures lo * Total(Qty, ts) <= Total(Notional, ts) <= hi * Total(Qty, ts)
  {
    forall t | t in ts
      ensures Value(Weighted(lo), t) <= Value(Notional, t) <= Value(Weighted(hi), t)
    {
      Scale(lo, t.price, t.quantity);
      Scale(t.price, hi, t.quantity);
    }
    TotalMonotone(Weighted(lo), Notional, ts);
    TotalMonotone(Notional, Weighted(hi), ts);
    TotalWeighted(lo, ts);
    TotalWeighted(hi, ts);
  }

  lemma PriceBounds(ts: seq<Trade>, lo: real, hi: real)
    requires forall t :: t in ts ==> lo <= t.price <= hi
    ensures lo * |ts| as real <= Total(Price, ts) <= hi * |ts| as real
  {
    TotalMonotone(Const(lo), Price, ts);
    TotalMonotone(Price, Const(hi), ts);
    TotalConst(lo, ts);
    TotalConst(hi, ts);
  }
}
