// The messages the stream reads, and the rows it makes of the valid ones.
module Records {
  import opened Options
  import opened Reals
  import opened Trades
  import opened Validation
  import opened Timing

  // A schema-valid message of the trades topic.
  datatype Record = Record(eventId: string, event: TradeEvent, quoteQty: Option<Text>)

  datatype Settings = Settings(allowed: set<string>, skew: nat, late: nat, delay: nat, lag: nat, keepDays: int)

  function KeepMs(s: Settings): nat {
    Max(0, s.keepDays) * DAY
  }

  function ConfigOf(s: Settings): Config {
    Config(s.allowed, s.skew, Some(s.late))
  }

  function ToTrade(r: Record): Trade {
    Trade(r.eventId, r.event.symbol,
          PriceDec(Some(r.event.price)).GetOr(0.0), QuantityDec(Some(r.event.quantity)).GetOr(0.0),
          QuantityDec(r.quoteQty), r.event.timeMs)
  }

  // is_valid, at a batch clock.
  predicate IsValid(r: Record, s: Settings, clock: int) {
    SparkCode(AsRow(r.event), ConfigOf(s), NowMs(clock)).None?
  }

  // validate_and_enrich, then the is_valid filter.
  function ValidRows(records: seq<Record>, s: Settings, clock: int): seq<Trade> {
    if records == [] then []
    else if IsValid(records[0], s, clock) then [ToTrade(records[0])] + ValidRows(records[1..], s, clock)
    else ValidRows(records[1..], s, clock)
  }

  lemma {:induction false} ValidRowsGood(records: seq<Record>, s: Settings, clock: int, t: Trade)
    requires t in ValidRows(records, s, clock)
    ensures t.price > 0.0 && t.quantity >= 0.0 && t.symbol in s.allowed
    ensures OnTime(t.timeMs, clock, s.late, s.skew) && t.timeMs > 0
    ensures var batch := clock - clock % 1000;
      batch - s.skew <= t.timeMs <= batch + s.skew && batch - s.late <= t.timeMs
  {
    hide SparkCode, FixedPoint;
    if IsValid(records[0], s, clock) && t == ToTrade(records[0]) {
      SparkTwoValued(records[0].event, ConfigOf(s), NowMs(clock));
    } else {
      ValidRowsGood(records[1..], s, clock, t);
    }
  }

  // ---------- what a verdict and a row say of a record ----------

  // In plain numbers, which records are valid at a batch clock.
  lemma {:induction false} IsValidExactly(r: Record, s: Settings, clock: int)
    ensures IsValid(r, s, clock) <==>
      && r.event.price.Numeral? && 0.000000005 <= r.event.price.value < 999999999999.999999995
      && r.event.quantity.Numeral?
      && -0.0000000000005 < r.event.quantity.value < 99999999999999999999999999.9999999999995
      && r.event.symbol in s.allowed && 0 < r.event.timeMs
      && var batch := clock - clock % 1000;
         batch - s.skew <= r.event.timeMs <= batch + s.skew && batch - s.late <= r.event.timeMs
  {
    hide SparkCode, FixedPoint, CastPositive, CastNonNegative;
    SparkTwoValued(r.event, ConfigOf(s), NowMs(clock));
    if r.event.price.Numeral? {
      FieldBounds(r.event.price.value);
    }
    if r.event.quantity.Numeral? {
      FieldBounds(r.event.quantity.value);
    }
  }

  // The decimal `d` is within half a unit of the numeral `v` where a unit is 1 / places, and equal
  // to it where v is a whole number of units.
  predicate CastOf(d: real, v: real, places: real) {
    && v * places - 0.5 <= d * places <= v * places + 0.5
    && ((v * places).Floor as real == v * places ==> d == v)
  }

  // The trade carries the id, symbol, time and numbers of the record; its quote is NULL exactly when
  // the text is missing, not a number, or out of range.
  predicate Carries(t: Trade, r: Record) {
    && t.eventId == r.eventId && t.symbol == r.event.symbol && t.timeMs == r.event.timeMs
    && r.event.price.Numeral? && CastOf(t.price, r.event.price.value, 100000000.0)
    && r.event.quantity.Numeral? && CastOf(t.quantity, r.event.quantity.value, 1000000000000.0)
    && (t.quoteQty.Some? <==>
          && r.quoteQty.Some? && r.quoteQty.value.Numeral?
          && -99999999999999999999999999.9999999999995 < r.quoteQty.value.value < 99999999999999999999999999.9999999999995)
    && (t.quoteQty.Some? ==> CastOf(t.quoteQty.value, r.quoteQty.value.value, 1000000000000.0))
  }

  lemma UnitsCast(d: real, v: real, places: real, n: int)
    requires places > 0.0 && d * places == n as real
    requires v * places - 0.5 <= n as real <= v * places + 0.5
    requires v >= 0.0 ==> v * places - 0.5 < n as real
    requires v < 0.0 ==> n as real < v * places + 0.5
    ensures CastOf(d, v, places)
  {
    if (v * places).Floor as real == v * places {
      assert n == (v * places).Floor;
      SameProduct(d, v, places);
    }
  }

  lemma SameProduct(x: real, y: real, p: real)
    requires p > 0.0 && x * p == y * p
    ensures x == y
  {
    Cancel(x, p);
    Cancel(y, p);
  }

  lemma ValidCarries(r: Record, s: Settings, clock: int)
    requires IsValid(r, s, clock)
    ensures Carries(ToTrade(r), r)
  {
    hide SparkCode, FixedPoint, IsValid, PriceDec, QuantityDec, CastOf;
    IsValidExactly(r, s, clock);
    var p, q := r.event.price.value, r.event.quantity.value;
    var n := PriceCast(p);
    var m := QuantityCast(q);
    UnitsCast(ToTrade(r).price, p, 100000000.0, n);
    UnitsCast(ToTrade(r).quantity, q, 1000000000000.0, m);
    if r.quoteQty.Some? && r.quoteQty.value.Numeral? {
      var k := QuantityCast(r.quoteQty.value.value);
      if QuantityDec(r.quoteQty).Some? {
        UnitsCast(QuantityDec(r.quoteQty).value, r.quoteQty.value.value, 1000000000000.0, k);
      }
    } else {
      NoQuoteCast(r.quoteQty);
    }
  }

  lemma NoQuoteCast(t: Option<Text>)
    requires t.None? || !t.value.Numeral?
    ensures QuantityDec(t).None?
  {
  }

  ghost predicate Rising(js: seq<int>) {
    forall i, k :: 0 <= i < k < |js| ==> js[i] < js[k]
  }

  // The rows are, in order, those of the records at the positions `js`, the valid ones and no other,
  // and carry what the records do.
  ghost predicate RowsAt(rows: seq<Trade>, records: seq<Record>, js: seq<int>, s: Settings, clock: int) {
    && |js| == |rows| && Rising(js)
    && (forall i :: 0 <= i < |js| ==>
          0 <= js[i] < |records| && IsValid(records[js[i]], s, clock) && Carries(rows[i], records[js[i]]))
    && (forall j :: 0 <= j < |records| && IsValid(records[j], s, clock) ==> j in js)
  }

  lemma RowsAtNext(rows: seq<Trade>, records: seq<Record>, js: seq<int>, r: Record, s: Settings, clock: int, t: Trade)
    requires RowsAt(rows, records, js, s, clock)
    ensures IsValid(r, s, clock) && Carries(t, r) ==> RowsAt(rows + [t], records + [r], js + [|records|], s, clock)
    ensures !IsValid(r, s, clock) ==> RowsAt(rows, records + [r], js, s, clock)
  {
    hide IsValid, Carries;
    var next := js + [|records|];
    assert forall j :: j in js ==> j in next;
    assert next[|js|] == |records|;
  }

  lemma {:induction false} ValidRowsSnoc(records: seq<Record>, r: Record, s: Settings, clock: int)
    ensures ValidRows(records + [r], s, clock)
         == ValidRows(records, s, clock) + if IsValid(r, s, clock) then [ToTrade(r)] else []
  {
    hide IsValid, ToTrade;
    if records == [] {
      assert [] + [r] == [r] && [r][1..] == [];
    } else {
      ValidRowsSnoc(records[1..], r, s, clock);
      assert (records + [r])[1..] == records[1..] + [r];
    }
  }

  // Whatever the batch, its rows are those of exactly its valid records.
  lemma {:induction false} RowsCarry(records: seq<Record>, s: Settings, clock: int) returns (js: seq<int>)
    ensures RowsAt(ValidRows(records, s, clock), records, js, s, clock)
  {
    hide IsValid, Carries, ToTrade;
    if records == [] {
      js := [];
    } else {
      hide RowsAt, ValidRows;
      var n := |records| - 1;
      var init, last := records[..n], records[n];
      assert records == init + [last];
      var earlier := RowsCarry(init, s, clock);
      ValidRowsSnoc(init, last, s, clock);
      RowsAtNext(ValidRows(init, s, clock), init, earlier, last, s, clock, ToTrade(last));
      if IsValid(last, s, clock) {
        ValidCarries(last, s, clock);
        js := earlier + [n];
      } else {
        js := earlier;
        assert ValidRows(init, s, clock) + [] == ValidRows(init, s, clock);
      }
    }
  }

  // The ids a batch brings are those of its valid records.
  lemma {:induction false} ValidIds(records: seq<Record>, s: Settings, clock: int, t: Trade)
    ensures t in ValidRows(records, s, clock) ==>
      exists r :: r in records && IsValid(r, s, clock) && Carries(t, r)
    ensures forall r :: r in records && IsValid(r, s, clock) ==>
      exists u :: u in ValidRows(records, s, clock) && Carries(u, r)
  {
    hide IsValid, Carries, ValidRows;
    var js := RowsCarry(records, s, clock);
    var rows := ValidRows(records, s, clock);
    if t in rows {
      var i :| 0 <= i < |rows| && rows[i] == t;
      assert records[js[i]] in records;
    }
    forall r | r in records && IsValid(r, s, clock)
      ensures exists u :: u in rows && Carries(u, r)
    {
      var j :| 0 <= j < |records| && records[j] == r;
      var i :| 0 <= i < |js| && js[i] == j;
      assert rows[i] in rows;
    }
  }
}
