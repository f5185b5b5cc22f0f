// The batch path: the raw archive, compaction of a day, and the daily summary built from it.
module DailyBatch {
  import opened Options
  import opened Trades
  import opened Candles
  import opened Reference
  import opened Retention
  import opened Rollups
  import opened Warehouse

  // dropDuplicates: one row, any row, of every id.
  ghost predicate IsDedupOf(d: seq<Trade>, rows: seq<Trade>) {
    && DistinctIds(d)
    && Ids(d) == Ids(rows)
    && forall t :: t in d ==> t in rows
  }

  // Equal ids carry the same sale. Quotes and ingestion times may differ.
  predicate SameSale(t: Trade, u: Trade) {
    t.symbol == u.symbol && t.price == u.price && t.quantity == u.quantity && t.timeMs == u.timeMs
  }

  ghost predicate Agree(a: seq<Trade>, b: seq<Trade>) {
    forall t, u :: t in a && u in b && t.eventId == u.eventId ==> SameSale(t, u)
  }

  // The measures of a sale the daily summary reads.
  predicate OfSale(f: Measure) {
    f == Qty || f == Notional
  }

  lemma {:induction false} DedupIsDedup(rows: seq<Trade>)
    ensures IsDedupOf(Dedup(rows), rows)
  {
    DedupFromIds(rows, {});
    DedupFromSubset(rows, {});
  }

  lemma IdsRemoveAt(ts: seq<Trade>, i: nat)
    requires i < |ts| && DistinctIds(ts)
    ensures DistinctIds(RemoveAt(ts, i))
    ensures Ids(RemoveAt(ts, i)) == Ids(ts) - {ts[i].eventId}
    ensures forall t :: t in RemoveAt(ts, i) ==> t in ts
  {
  }

  lemma PartnerOf(t: Trade, a: seq<Trade>, b: seq<Trade>) returns (i: nat)
    requires t in a && Ids(a) == Ids(b)
    ensures i < |b| && b[i].eventId == t.eventId
  {
    assert t.eventId in Ids(b);
    i :| 0 <= i < |b| && b[i].eventId == t.eventId;
  }

  // Which duplicate is kept, and in what order, does not matter to any sum over sales.
  lemma {:induction false} SameTotals(f: Measure, a: seq<Trade>, b: seq<Trade>)
    requires OfSale(f) && DistinctIds(a) && DistinctIds(b) && Ids(a) == Ids(b) && Agree(a, b)
    ensures Total(f, a) == Total(f, b)
    decreases |a|
  {
    hide Ids, DistinctIds, Total, RemoveAt, Agree;
    SameIdsSameEmpty(a, b);
    if a == [] {
      assert Total(f, a) == Total(f, b);
    } else {
      var i := PartnerOf(a[0], a, b);
      IdsRemoveAt(a, 0);
      IdsRemoveAt(b, i);
      AgreeSubset(a, b, RemoveAt(a, 0), RemoveAt(b, i));
      SameTotals(f, RemoveAt(a, 0), RemoveAt(b, i));
      TotalRemove(f, a, 0);
      TotalRemove(f, b, i);
      SameValue(f, a, 0, b, i);
    }
  }

  lemma SameValue(f: Measure, a: seq<Trade>, i: nat, b: seq<Trade>, j: nat)
    requires OfSale(f) && Agree(a, b) && i < |a| && j < |b| && a[i].eventId == b[j].eventId
    ensures Value(f, a[i]) == Value(f, b[j])
  {
  }

  lemma {:induction false} SelectDistinct(ts: seq<Trade>, s: Scope)
    requires DistinctIds(ts)
    ensures DistinctIds(Select(ts, s))
  {
    if ts != [] {
      var rest := ts[1..];
      SelectDistinct(rest, s);
      SelectMembers(rest, s);
      forall t | t in rest
        ensures t.eventId != ts[0].eventId
      {
        var j :| 0 <= j < |rest| && rest[j] == t;
        assert rest[j] == ts[j + 1];
      }
      var kept := Select(rest, s);
      assert forall j :: 0 <= j < |kept| ==> kept[j] in kept;
    }
  }

  lemma DayIds(a: seq<Trade>, b: seq<Trade>, g: Group)
    requires Ids(a) == Ids(b) && Agree(a, b)
    ensures Ids(Select(a, Daily(g))) <= Ids(Select(b, Daily(g)))
  {
    SelectMembers(a, Daily(g));
    SelectMembers(b, Daily(g));
    forall id | id in Ids(Select(a, Daily(g)))
      ensures id in Ids(Select(b, Daily(g)))
    {
      var t :| t in a && TradeGroup(t) == g && t.eventId == id;
      var i := PartnerOf(t, a, b);
      assert SameSale(t, b[i]);
      assert b[i] in Select(b, Daily(g));
    }
  }

  // ---------- build_daily_summary_df ----------

  function BatchRow(day: seq<Trade>): DailyRow
    requires day != []
  {
    var volume := Total(Qty, day);
    DailyRow(if volume == 0.0 then None else Some(Total(Notional, day) / volume), volume, MaxPrice(day), MinPrice(day))
  }

  function BatchSummary(rows: seq<Trade>): map<Group, DailyRow> {
    map g | g in Groups(rows) :: (DailyNonEmpty(rows, g); BatchRow(Select(rows, Daily(g))))
  }

  // The summary has a row for exactly the days and symbols of the rows.
  lemma {:induction false} SummaryDays(rows: seq<Trade>, g: Group)
    ensures g in BatchSummary(rows) <==>
      exists t :: t in rows && t.symbol == g.symbol && g.day * 86400000 <= t.timeMs < (g.day + 1) * 86400000
    ensures g in BatchSummary(rows) ==>
      Select(rows, Daily(g)) != [] && BatchSummary(rows)[g] == BatchRow(Select(rows, Daily(g)))
  {
    hide Select, TradeGroup, BatchRow;
    DailyNonEmpty(rows, g);
    forall t
      ensures TradeGroup(t) == g <==> t.symbol == g.symbol && g.day * 86400000 <= t.timeMs < (g.day + 1) * 86400000
    {
      CoversExactly(Daily(g), t);
    }
  }

  // On non-negative quantities the batch summary is the reference summary, with NULL for the
  // vwap of a day without volume where the reference has 0.
  lemma BatchMatchesReference(day: seq<Trade>)
    requires day != [] && NonNegative(day)
    ensures var row, ref := BatchRow(day), RefSummary(day);
      && row.totalVolume == ref.totalVolume && row.high == ref.high && row.low == ref.low
      && row.vwap == (if ref.totalVolume > 0.0 then Some(ref.vwap) else None)
      && (row.vwap == Some(ref.vwap) <==> exists t :: t in day && t.quantity > 0.0)
  {
    hide Total;
    TotalNonNegative(Qty, day);
    assert forall t :: t in day ==> Value(Qty, t) == t.quantity;
  }

  lemma SameExtremes(a: seq<Trade>, b: seq<Trade>)
    requires a != [] && b != [] && Ids(a) == Ids(b) && Agree(a, b)
    ensures MaxPrice(a) <= MaxPrice(b) && MinPrice(b) <= MinPrice(a)
  {
    assert IsHigh(MaxPrice(a), a) && IsLow(MinPrice(a), a);
    assert IsHigh(MaxPrice(b), b) && IsLow(MinPrice(b), b);
    var t :| t in a && t.price == MaxPrice(a);
    var u :| u in a && u.price == MinPrice(a);
    var i := PartnerOf(t, a, b);
    var j := PartnerOf(u, a, b);
    assert b[i] in b && b[j] in b;
    assert SameSale(t, b[i]) && SameSale(u, b[j]);
  }

  lemma AgreeSubset(a: seq<Trade>, b: seq<Trade>, c: seq<Trade>, d: seq<Trade>)
    requires Agree(a, b) && (forall t :: t in c ==> t in a) && (forall t :: t in d ==> t in b)
    ensures Agree(c, d) && Agree(d, c)
  {
  }

  lemma SameBatchRow(a: seq<Trade>, b: seq<Trade>)
    requires a != [] && b != [] && DistinctIds(a) && DistinctIds(b) && Ids(a) == Ids(b) && Agree(a, b)
    ensures BatchRow(a) == BatchRow(b)
  {
    hide Total, MaxPrice, MinPrice;
    AgreeSubset(a, b, a, b);
    SameTotals(Qty, a, b);
    SameTotals(Notional, a, b);
    SameExtremes(a, b);
    SameExtremes(b, a);
  }

  lemma SameDay(a: seq<Trade>, b: seq<Trade>, g: Group)
    requires DistinctIds(a) && DistinctIds(b) && Ids(a) == Ids(b) && Agree(a, b)
    ensures g in Groups(a) <==> g in Groups(b)
    ensures g in Groups(a) ==>
      Select(a, Daily(g)) != [] && Select(b, Daily(g)) != [] && BatchRow(Select(a, Daily(g))) == BatchRow(Select(b, Daily(g)))
  {
    hide BatchRow;
    var x, y := Select(a, Daily(g)), Select(b, Daily(g));
    SelectMembers(a, Daily(g));
    SelectMembers(b, Daily(g));
    AgreeSubset(a, b, a, b);
    AgreeSubset(a, b, x, y);
    DayIds(a, b, g);
    DayIds(b, a, g);
    DailyNonEmpty(a, g);
    DailyNonEmpty(b, g);
    SelectDistinct(a, Daily(g));
    SelectDistinct(b, Daily(g));
    SameIdsSameEmpty(x, y);
    if x != [] {
      SameBatchRow(x, y);
    }
  }

  lemma SameIdsSameEmpty(x: seq<Trade>, y: seq<Trade>)
    requires Ids(x) == Ids(y)
    ensures x == [] <==> y == []
  {
    assert x != [] ==> x[0].eventId in Ids(x);
    assert y != [] ==> y[0].eventId in Ids(y);
  }

  // The summary depends only on the set of ids present, however duplicates are dropped.
  lemma {:induction false} SummaryDependsOnIds(a: seq<Trade>, b: seq<Trade>, x: seq<Trade>, y: seq<Trade>)
    requires IsDedupOf(a, x) && IsDedupOf(b, y) && Ids(x) == Ids(y) && Agree(x, y)
    ensures BatchSummary(a) == BatchSummary(b)
  {
    hide BatchRow, Groups, Select;
    AgreeSubset(x, y, a, b);
    forall g { SameDay(a, b, g); }
    assert BatchSummary(a).Keys == BatchSummary(b).Keys;
  }

  // Appending rows whose ids are all known, an overlapping backfill say, changes nothing.
  lemma {:induction false} KnownIdsChangeNothing(raw: seq<Trade>, extra: seq<Trade>, a: seq<Trade>, b: seq<Trade>)
    requires Ids(extra) <= Ids(raw) && Agree(raw + extra, raw + extra)
    requires IsDedupOf(a, raw) && IsDedupOf(b, raw + extra)
    ensures BatchSummary(a) == BatchSummary(b)
  {
    assert Ids(raw + extra) == Ids(raw) + Ids(extra);
    AgreeSubset(raw + extra, raw + extra, raw, raw + extra);
    SummaryDependsOnIds(a, b, raw, raw + extra);
  }

  // In general an append adds to every day exactly the sales with new ids.
  lemma AppendAddsNewIds(raw: seq<Trade>, extra: seq<Trade>, b: seq<Trade>, g: Group, f: Measure)
    requires OfSale(f) && Agree(raw + extra, raw + extra) && IsDedupOf(b, raw + extra)
    ensures Total(f, Select(b, Daily(g)))
         == Total(f, Select(Dedup(raw), Daily(g))) + Total(f, Select(DedupFrom(extra, Ids(raw)), Daily(g)))
  {
    var all := Dedup(raw + extra);
    DedupConcat(raw, extra, {});
    assert {} + Ids(raw) == Ids(raw);
    DedupIsDedup(raw + extra);
    SelectConcat(Dedup(raw), DedupFrom(extra, Ids(raw)), Daily(g));
    TotalConcat(f, Select(Dedup(raw), Daily(g)), Select(DedupFrom(extra, Ids(raw)), Daily(g)));
    DayTotals(f, b, all, raw + extra, g);
  }

  lemma DayTotals(f: Measure, a: seq<Trade>, b: seq<Trade>, rows: seq<Trade>, g: Group)
    requires OfSale(f) && Agree(rows, rows) && IsDedupOf(a, rows) && IsDedupOf(b, rows)
    ensures Total(f, Select(a, Daily(g))) == Total(f, Select(b, Daily(g)))
  {
    hide Total, Ids;
    var x, y := Select(a, Daily(g)), Select(b, Daily(g));
    SelectMembers(a, Daily(g));
    SelectMembers(b, Daily(g));
    AgreeSubset(rows, rows, a, b);
    AgreeSubset(a, b, x, y);
    DayIds(a, b, g);
    DayIds(b, a, g);
    SelectDistinct(a, Daily(g));
    SelectDistinct(b, Daily(g));
    SameTotals(f, x, y);
  }

  // ---------- the two writers of a daily row ----------

  // The row the batch job writes from the archive and the row retention writes from the stream:
  // where the archived and the accepted trades of a day carry the same ids and sales, they are
  // equal exactly when the day has no volume or its quotes sum to the notional.
  lemma {:induction false} BatchRowIsRetentionRow(archive: seq<Trade>, stream: seq<Trade>)
    requires archive != [] && stream != [] && NonNegative(stream)
    requires DistinctIds(archive) && DistinctIds(stream) && Ids(archive) == Ids(stream) && Agree(archive, stream)
    ensures BatchRow(archive) == DayRow(stream)
       <==> Total(Qty, stream) == 0.0 || (HasQuote(stream) && Total(Quote, stream) == Total(Notional, stream))
  {
    hide Total, MaxPrice, MinPrice, RefSummary;
    SameBatchRow(archive, stream);
    BatchMatchesReference(stream);
    DayRowMatchesReference(stream);
    TotalNonNegative(Qty, stream);
  }

  // ---------- at-least-once archive ----------

  // The executions of one archive batch: some that stop after writing part of the rows, and the
  // one that commits.
  datatype Delivery = Delivery(rows: seq<Trade>, partial: seq<seq<Trade>>)

  function Concat(parts: seq<seq<Trade>>): seq<Trade> {
    if parts == [] then [] else parts[0] + Concat(parts[1..])
  }

  ghost predicate PartsOf(d: Delivery) {
    forall i, t :: 0 <= i < |d.partial| && t in d.partial[i] ==> t in d.rows
  }

  // What one batch leaves in the archive.
  function Delivered(d: Delivery): seq<Trade> {
    Concat(d.partial) + d.rows
  }

  function Archived(ds: seq<Delivery>): seq<Trade> {
    if ds == [] then [] else Delivered(ds[0]) + Archived(ds[1..])
  }

  function ArchivedOnce(ds: seq<Delivery>): seq<Trade> {
    if ds == [] then [] else ds[0].rows + ArchivedOnce(ds[1..])
  }

  lemma {:induction false} ConcatMembers(parts: seq<seq<Trade>>, t: Trade)
    requires t in Concat(parts)
    ensures exists i :: 0 <= i < |parts| && t in parts[i]
  {
    if t !in parts[0] {
      ConcatMembers(parts[1..], t);
      var i :| 0 <= i < |parts[1..]| && t in parts[1..][i];
      assert t in parts[i + 1];
    } else {
      assert t in parts[0];
    }
  }

  lemma {:induction false} SameArchiveRows(ds: seq<Delivery>, t: Trade)
    requires forall d :: d in ds ==> PartsOf(d)
    ensures t in Archived(ds) <==> t in ArchivedOnce(ds)
  {
    if ds != [] {
      assert ds[0] in ds && forall d :: d in ds[1..] ==> d in ds;
      SameArchiveRows(ds[1..], t);
      if t in Concat(ds[0].partial) {
        ConcatMembers(ds[0].partial, t);
      }
    }
  }

  // An archive written at least once deduplicates to the same ids, and the same daily summary,
  // as one written exactly once.
  lemma ReplayedArchive(ds: seq<Delivery>, a: seq<Trade>, b: seq<Trade>)
    requires forall d :: d in ds ==> PartsOf(d)
    requires Agree(ArchivedOnce(ds), ArchivedOnce(ds))
    requires IsDedupOf(a, Archived(ds)) && IsDedupOf(b, ArchivedOnce(ds))
    ensures Ids(a) == Ids(b)
    ensures BatchSummary(a) == BatchSummary(b)
  {
    hide Archived, ArchivedOnce, BatchSummary;
    forall t { SameArchiveRows(ds, t); }
    assert Ids(Archived(ds)) == Ids(ArchivedOnce(ds));
    AgreeSubset(ArchivedOnce(ds), ArchivedOnce(ds), Archived(ds), ArchivedOnce(ds));
    SummaryDependsOnIds(a, b, Archived(ds), ArchivedOnce(ds));
  }

  lemma ArchivedCons(d: Delivery, ds: seq<Delivery>)
    ensures Archived([d] + ds) == Delivered(d) + Archived(ds)
    ensures Archived([]) == []
  {
    assert ([d] + ds)[1..] == ds;
  }

  lemma {:induction false} ArchivedSnoc(ds: seq<Delivery>, d: Delivery)
    ensures Archived(ds + [d]) == Archived(ds) + Delivered(d)
  {
    hide Archived, Delivered;
    if ds == [] {
      assert [] + [d] == [d] + [];
      ArchivedCons(d, []);
    } else {
      var first, rest := ds[0], ds[1..];
      assert ds == [first] + rest && ds + [d] == [first] + (rest + [d]);
      ArchivedSnoc(rest, d);
      ArchivedCons(first, rest);
      ArchivedCons(first, rest + [d]);
    }
  }

  lemma {:induction false} ConcatSnoc(parts: seq<seq<Trade>>, part: seq<Trade>)
    ensures Concat(parts + [part]) == Concat(parts) + part
  {
    if parts == [] {
      assert [] + [part] == [part] && [part][1..] == [];
    } else {
      ConcatSnoc(parts[1..], part);
      assert (parts + [part])[1..] == parts[1..] + [part];
    }
  }

  // And so does each of its days.
  lemma {:induction false} ReplayedDay(ds: seq<Delivery>, day: int)
    requires forall d :: d in ds ==> PartsOf(d)
    requires Agree(ArchivedOnce(ds), ArchivedOnce(ds))
    ensures BatchSummary(Dedup(Select(Archived(ds), On(day)))) == BatchSummary(Dedup(Select(ArchivedOnce(ds), On(day))))
  {
    hide Archived, ArchivedOnce, BatchSummary;
    var x, y := Select(Archived(ds), On(day)), Select(ArchivedOnce(ds), On(day));
    SelectMembers(Archived(ds), On(day));
    SelectMembers(ArchivedOnce(ds), On(day));
    forall t { SameArchiveRows(ds, t); }
    assert Ids(x) == Ids(y);
    AgreeSubset(ArchivedOnce(ds), ArchivedOnce(ds), x, y);
    DedupIsDedup(x);
    DedupIsDedup(y);
    SummaryDependsOnIds(Dedup(x), Dedup(y), x, y);
  }

  // ---------- the jobs ----------

  // Partitions of the raw and compacted archives by UTC day, and the tables.
  class Lake {
    const db: Postgres
    var raw: map<int, seq<Trade>>
    var compacted: map<int, seq<Trade>>

    constructor (db: Postgres)
      ensures this.db == db && raw == map[] && compacted == map[]
    {
      this.db := db;
      raw, compacted := map[], map[];
    }

    // Rows are filed under the day of their trade time.
    ghost predicate Filed()
      reads this
    {
      forall d, t :: d in raw && t in raw[d] ==> DayOf(t.timeMs) == d
    }

    function Raw(day: int): seq<Trade>
      reads this
    {
      Get(raw, day).GetOr([])
    }

    method AppendRaw(day: int, rows: seq<Trade>)
      requires Filed() && forall t :: t in rows ==> DayOf(t.timeMs) == day
      modifies this`raw
      ensures Filed()
      ensures raw == old(raw)[day := old(Raw(day)) + rows]
    {
      raw := raw[day := Raw(day) + rows];
    }

    // The rows one by one, each to its day.
    method AppendEach(rows: seq<Trade>)
      requires Filed()
      modifies this`raw
      ensures Filed()
      ensures forall d :: Raw(d) == old(Raw(d)) + Select(rows, On(d))
    {
      hide Select, DayOf;
      var i := 0;
      NothingSelected(rows);
      while i < |rows|
        invariant 0 <= i <= |rows| && Filed()
        invariant forall d :: Raw(d) == old(Raw(d)) + Select(rows[..i], On(d))
      {
        var t := rows[i];
        AppendRaw(DayOf(t.timeMs), [t]);
        forall d
          ensures Select(rows[..i + 1], On(d)) == Select(rows[..i], On(d)) + if DayOf(t.timeMs) == d then [t] else []
        {
          OneMoreRow(rows, i, d);
        }
        i := i + 1;
      }
      assert rows[..|rows|] == rows;
    }

    // An append to the raw archive partitioned by day, by the stream or a backfill.
    method AppendTrades(rows: seq<Trade>)
      requires Filed()
      modifies this`raw
      ensures Filed()
      ensures forall d :: Raw(d) == old(Raw(d)) + Select(rows, On(d))
      ensures forall d, t ::
        multiset(Raw(d))[t] == old(multiset(Raw(d)))[t]
          + if d * 86400000 <= t.timeMs < (d + 1) * 86400000 then multiset(rows)[t] else 0
    {
      hide Select, Filed;
      AppendEach(rows);
      forall d, t { DayBag(old(Raw(d)), rows, d, t); }
    }

    // compact_day: a missing or empty source leaves the target as it is.
    method CompactDay(day: int) returns (recordsIn: nat)
      modifies this`compacted
      ensures recordsIn == |Get(raw, day).GetOr([])|
      ensures recordsIn == 0 ==> compacted == old(compacted)
      ensures recordsIn > 0 ==> day in compacted && IsDedupOf(compacted[day], raw[day])
      ensures compacted.Keys <= old(compacted).Keys + {day}
      ensures forall d :: d in old(compacted) && d != day ==> d in compacted && compacted[d] == old(compacted)[d]
    {
      if day !in raw {
        return 0;
      }
      recordsIn := |raw[day]|;
      if recordsIn == 0 {
        return;
      }
      var deduped := DedupByEventId(raw[day]);
      DedupIsDedup(raw[day]);
      compacted := compacted[day := deduped];
    }

    // The compacted partition if it has rows, else the raw one.
    function Source(day: int): seq<Trade>
      reads this
    {
      if Get(compacted, day).GetOr([]) != [] then compacted[day] else Raw(day)
    }

    method ReadTradesForDay(day: int) returns (rows: Option<seq<Trade>>)
      ensures rows == if Source(day) == [] then None else Some(Source(day))
      ensures day in compacted && compacted[day] != [] ==> rows == Some(compacted[day])
      ensures (day !in compacted || compacted[day] == []) && day in raw && raw[day] != [] ==> rows == Some(raw[day])
      ensures (day !in compacted || compacted[day] == []) && (day !in raw || raw[day] == []) ==> rows == None
    {
      var paths := [compacted, raw];
      var i := 0;
      while i < |paths|
        invariant 0 <= i <= |paths|
        invariant forall j :: 0 <= j < i ==> Get(paths[j], day).GetOr([]) == []
      {
        assert paths[i] == if i == 0 then compacted else raw;
        assert i == 1 ==> Get(paths[0], day).GetOr([]) == [];
        if day in paths[i] && paths[i][day] != [] {
          return Some(paths[i][day]);
        }
        i := i + 1;
      }
      assert Get(paths[0], day).GetOr([]) == [] && Get(paths[1], day).GetOr([]) == [];
      rows := None;
    }

    method WriteSummary(rows: seq<Trade>)
      modifies db`daily
      ensures db.daily == old(db.daily) + BatchSummary(rows)
    {
      hide BatchSummary, Upserted;
      var listed := ListRows(BatchSummary(rows), db.daily);
      var ok := db.UpsertDailySummary(listed);
    }

    method RunDailySummary(day: int) returns (written: nat)
      modifies db`daily
      ensures db.daily == old(db.daily) + BatchSummary(Source(day)) && written == |BatchSummary(Source(day))|
      ensures day in compacted && compacted[day] != [] ==>
        db.daily == old(db.daily) + BatchSummary(compacted[day]) && written == |BatchSummary(compacted[day])|
      ensures (day !in compacted || compacted[day] == []) && day in raw && raw[day] != [] ==>
        db.daily == old(db.daily) + BatchSummary(raw[day]) && written == |BatchSummary(raw[day])|
      ensures (day !in compacted || compacted[day] == []) && (day !in raw || raw[day] == []) ==>
        db.daily == old(db.daily) && written == 0
    {
      hide BatchSummary;
      var source := ReadTradesForDay(day);
      if source.None? {
        NoSummary();
        return 0;
      }
      WriteSummary(source.value);
      written := |BatchSummary(source.value)|;
    }

    // The daily batch: the day's rows become the summary of its deduplicated raw trades, and no
    // other date is touched.
    method CompactThenSummarize(day: int)
      requires Filed() && Get(raw, day).GetOr([]) != [] && Agree(raw[day], raw[day])
      modifies this`compacted, db`daily
      ensures db.daily == old(db.daily) + BatchSummary(Dedup(raw[day]))
      ensures forall g: Group :: g.day != day ==> Get(db.daily, g) == Get(old(db.daily), g)
    {
      hide BatchSummary, Agree;
      var n := CompactDay(day);
      SameIdsSameEmpty(compacted[day], raw[day]);
      DedupIsDedup(raw[day]);
      SummaryDependsOnIds(compacted[day], Dedup(raw[day]), raw[day], raw[day]);
      SummaryOfDay(Dedup(raw[day]), day);
      var written := RunDailySummary(day);
    }
  }

  lemma OneMoreRow(rows: seq<Trade>, i: nat, d: int)
    requires i < |rows|
    ensures Select(rows[..i + 1], On(d)) == Select(rows[..i], On(d)) + if DayOf(rows[i].timeMs) == d then [rows[i]] else []
  {
    hide Select;
    assert rows[..i + 1] == rows[..i] + [rows[i]];
    SelectSnoc(rows[..i], rows[i], On(d));
  }

  // What an append of the rows of a day adds to it.
  lemma DayBag(before: seq<Trade>, rows: seq<Trade>, d: int, t: Trade)
    ensures multiset(before + Select(rows, On(d)))[t] == multiset(before)[t] +
      (if d * 86400000 <= t.timeMs < (d + 1) * 86400000 then multiset(rows)[t] else 0)
  {
    hide Select, Covers;
    SelectBag(rows, On(d), t);
    CoversExactly(On(d), t);
  }

  lemma NoSummary()
    ensures BatchSummary([]) == map[]
  {
  }

  lemma NothingSelected(rows: seq<Trade>)
    ensures forall d :: Select(rows[..0], On(d)) == []
  {
  }

  lemma SummaryOfDay(rows: seq<Trade>, day: int)
    requires forall t :: t in rows ==> DayOf(t.timeMs) == day
    ensures forall g :: g in BatchSummary(rows) ==> g.day == day
  {
  }
}
