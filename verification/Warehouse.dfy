// The Postgres tables and the statements that change them in place.
module Warehouse {
  import opened Options
  import opened Trades
  import opened Candles
  import opened Sums
  import opened Retention
  import opened Timing

  // ON CONFLICT DO UPDATE over the rows of one or more statements.
  function Upserted<K, V>(table: map<K, V>, rows: seq<(K, V)>): map<K, V>
    decreases |rows|
  {
    if rows == [] then table else Upserted(table[rows[0].0 := rows[0].1], rows[1..])
  }

  lemma {:induction false} UpsertedSnoc<K, V>(table: map<K, V>, rows: seq<(K, V)>, row: (K, V))
    ensures Upserted(table, rows + [row]) == Upserted(table, rows)[row.0 := row.1]
    decreases |rows|
  {
    if rows == [] {
      assert (rows + [row])[1..] == [];
    } else {
      UpsertedSnoc(table[rows[0].0 := rows[0].1], rows[1..], row);
      assert (rows + [row])[1..] == rows[1..] + [row];
    }
  }

  // The last row listed for a key, if any.
  function LastRow<K(==), V>(rows: seq<(K, V)>, k: K): Option<V> {
    if rows == [] then None
    else
      var n := |rows| - 1;
      if rows[n].0 == k then Some(rows[n].1) else LastRow(rows[..n], k)
  }

  // What an upsert is for: every listed key gets its last listed row, every other row stays.
  lemma {:induction false} UpsertedRows<K, V>(table: map<K, V>, rows: seq<(K, V)>, k: K)
    ensures Get(Upserted(table, rows), k) == if LastRow(rows, k).Some? then LastRow(rows, k) else Get(table, k)
    decreases |rows|
  {
    if rows != [] {
      var n := |rows| - 1;
      UpsertedSnoc(table, rows[..n], rows[n]);
      assert rows[..n] + [rows[n]] == rows;
      UpsertedRows(table, rows[..n], k);
    }
  }

  // Row i is the last one listed for its key.
  ghost predicate ListedLast<K, V>(rows: seq<(K, V)>, i: int)
    requires 0 <= i < |rows|
  {
    forall j :: i < j < |rows| ==> rows[j].0 != rows[i].0
  }

  // Position by position: the last row of a key stays, and a key not listed keeps its row.
  lemma {:induction false} UpsertedLast<K, V>(table: map<K, V>, rows: seq<(K, V)>, i: int)
    requires 0 <= i < |rows| && ListedLast(rows, i)
    ensures Get(Upserted(table, rows), rows[i].0) == Some(rows[i].1)
    decreases |rows|
  {
    var n := |rows| - 1;
    UpsertedSnoc(table, rows[..n], rows[n]);
    assert rows[..n] + [rows[n]] == rows;
    if i < n {
      assert ListedLast(rows[..n], i);
      UpsertedLast(table, rows[..n], i);
    }
  }

  lemma {:induction false} UpsertedElse<K, V>(table: map<K, V>, rows: seq<(K, V)>, k: K)
    requires forall i :: 0 <= i < |rows| ==> rows[i].0 != k
    ensures Get(Upserted(table, rows), k) == Get(table, k)
    decreases |rows|
  {
    if rows != [] {
      UpsertedElse(table[rows[0].0 := rows[0].1], rows[1..], k);
    }
  }

  // So running the same upsert twice changes nothing the second time.
  lemma UpsertIdempotent<K, V>(table: map<K, V>, rows: seq<(K, V)>)
    ensures Upserted(Upserted(table, rows), rows) == Upserted(table, rows)
  {
    hide Upserted, LastRow;
    var once := Upserted(table, rows);
    var twice := Upserted(once, rows);
    forall k ensures Get(twice, k) == Get(once, k) {
      UpsertedRows(table, rows, k);
      UpsertedRows(once, rows, k);
    }
    assert forall k :: k in twice <==> Get(twice, k).Some?;
    assert forall k :: k in once <==> Get(once, k).Some?;
    assert forall k :: k in once ==> twice[k] == Get(twice, k).value == once[k];
  }

  // execute_values sends the rows in statements of this many.
  const PAGE_SIZE := 1000

  // No statement lists a key twice; one that does raises.
  ghost predicate PagesOk<K, V>(rows: seq<(K, V)>) {
    forall i, j :: 0 <= i < j < |rows| && i / PAGE_SIZE == j / PAGE_SIZE ==> rows[i].0 != rows[j].0
  }

  predicate DistinctKeys<K(==), V>(rows: seq<(K, V)>) {
    forall i, j :: 0 <= i < j < |rows| ==> rows[i].0 != rows[j].0
  }

  lemma {:induction false} UpsertedConcat<K, V>(table: map<K, V>, a: seq<(K, V)>, b: seq<(K, V)>)
    ensures Upserted(table, a + b) == Upserted(Upserted(table, a), b)
    decreases |a|
  {
    if a == [] {
      assert a + b == b;
    } else {
      UpsertedConcat(table[a[0].0 := a[0].1], a[1..], b);
      assert (a + b)[1..] == a[1..] + b;
    }
  }

  lemma OnePage<K, V>(rows: seq<(K, V)>, i: nat, next: nat)
    requires i % PAGE_SIZE == 0 && i < |rows| && next == Min(i + PAGE_SIZE, |rows|) && PagesOk(rows[..i])
    ensures PagesOk(rows[..next]) <==> DistinctKeys(rows[i..next])
    ensures PagesOk(rows) ==> PagesOk(rows[..next])
    ensures rows[..i] + rows[i..next] == rows[..next]
  {
    var page := rows[i..next];
    forall j | i <= j < next
      ensures j / PAGE_SIZE == i / PAGE_SIZE
    {
    }
    if PagesOk(rows[..next]) {
      forall a, b | 0 <= a < b < |page|
        ensures page[a].0 != page[b].0
      {
        assert rows[..next][i + a].0 != rows[..next][i + b].0;
      }
    }
    if DistinctKeys(page) {
      forall a, b | 0 <= a < b < next && a / PAGE_SIZE == b / PAGE_SIZE
        ensures rows[..next][a].0 != rows[..next][b].0
      {
        if i <= a {
          assert page[a - i].0 != page[b - i].0;
        } else {
          assert b < i;
          assert rows[..i][a].0 != rows[..i][b].0;
        }
      }
    }
  }

  // One transaction: all pages in order, or nothing where one of them raises.
  method UpsertPages<K(==), V>(table: map<K, V>, rows: seq<(K, V)>) returns (result: Option<map<K, V>>)
    ensures result == if PagesOk(rows) then Some(Upserted(table, rows)) else None
  {
    hide PagesOk, DistinctKeys, Upserted;
    var current := table;
    var i := 0;
    NothingUpserted(table, rows);
    while i < |rows|
      invariant 0 <= i <= |rows| && (i < |rows| ==> i % PAGE_SIZE == 0)
      invariant PagesOk(rows[..i]) && current == Upserted(table, rows[..i])
    {
      var next := Min(i + PAGE_SIZE, |rows|);
      var page := rows[i..next];
      OnePage(rows, i, next);
      if !DistinctKeys(page) {
        return None;
      }
      UpsertedConcat(table, rows[..i], page);
      current := UpsertPage(current, page);
      i := next;
    }
    assert rows[..|rows|] == rows;
    result := Some(current);
  }

  // INSERT ... ON CONFLICT DO UPDATE with distinct keys.
  method UpsertPage<K(==), V>(table: map<K, V>, page: seq<(K, V)>) returns (result: map<K, V>)
    requires DistinctKeys(page)
    ensures result == Upserted(table, page)
  {
    result := table;
    var i := 0;
    while i < |page|
      invariant 0 <= i <= |page|
      invariant result == Upserted(table, page[..i])
    {
      UpsertedSnoc(table, page[..i], page[i]);
      assert page[..i + 1] == page[..i] + [page[i]];
      result := result[page[i].0 := page[i].1];
      i := i + 1;
    }
    assert page[..|page|] == page;
  }

  lemma PutOne<K, V>(table: map<K, V>, listed: map<K, V>, k: K, v: V)
    ensures (table + listed)[k := v] == table + listed[k := v]
  {
  }

  // DataFrame.collect(): the rows, in any order.
  method ListRows<K(==), V>(m: map<K, V>, ghost table: map<K, V>) returns (rows: seq<(K, V)>)
    ensures Upserted(table, rows) == table + m
    ensures PagesOk(rows)
  {
    hide Upserted;
    rows := [];
    ghost var listed: map<K, V> := map[];
    var rest := m;
    assert Upserted(table, rows) == table by { NothingUpserted(table, rows); }
    while rest.Keys != {}
      invariant listed.Keys !! rest.Keys && listed + rest == m
      invariant Upserted(table, rows) == table + listed
      invariant DistinctKeys(rows) && forall i :: 0 <= i < |rows| ==> rows[i].0 in listed
      decreases rest.Keys
    {
      var k :| k in rest.Keys;
      UpsertedSnoc(table, rows, (k, rest[k]));
      PutOne(table, listed, k, rest[k]);
      rows := rows + [(k, rest[k])];
      listed, rest := listed[k := rest[k]], rest - {k};
    }
    assert listed == m;
  }

  lemma NothingUpserted<K, V>(table: map<K, V>, rows: seq<(K, V)>)
    ensures Upserted(table, rows[..0]) == table && Upserted(table, []) == table
    ensures PagesOk(rows[..0])
  {
  }

  // ---------- one group of the rollup ----------

  datatype DayAcc = DayAcc(volume: real, quote: Option<real>, high: real, low: real)

  ghost predicate IsDayAcc(a: DayAcc, m: CandleTable) {
    && m != map[]
    && a.volume == Sum(Volumes(m))
    && a.quote == QuoteTotal(m)
    && IsMaxOf(a.high, Highs(m))
    && IsMinOf(a.low, Lows(m))
  }

  function FirstRow(c: Candle): DayAcc {
    DayAcc(c.volume, c.quoteVolume, c.high, c.low)
  }

  function AddRow(a: DayAcc, c: Candle): DayAcc {
    DayAcc(a.volume + c.volume, AddNullable(a.quote, c.quoteVolume),
           if a.high < c.high then c.high else a.high, if c.low < a.low then c.low else a.low)
  }

  function DayRowOf(a: DayAcc): DailyRow {
    DailyRow(Vwap(a.quote, a.volume), a.volume, a.high, a.low)
  }

  lemma FirstRowOk(k: Key, c: Candle)
    ensures IsDayAcc(FirstRow(c), map[k := c])
  {
    var m: CandleTable := map[k := c];
    SumOne(k, c.volume);
    assert Volumes(m) == map[k := c.volume];
    QuotesPut(map[], k, c);
    assert Quotes(map[]) == map[];
    assert map[][k := c] == m;
    assert k in m && Highs(m)[k] == c.high && Lows(m)[k] == c.low;
  }

  lemma QuotesPut(m: CandleTable, k: Key, c: Candle)
    requires k !in m
    ensures QuoteTotal(m[k := c]) == AddNullable(QuoteTotal(m), c.quoteVolume)
  {
    if c.quoteVolume.Some? {
      assert Quotes(m[k := c]) == Quotes(m)[k := c.quoteVolume.value];
      SumPut(Quotes(m), k, c.quoteVolume.value);
      assert k in Quotes(m[k := c]);
    } else {
      assert Quotes(m[k := c]) == Quotes(m);
    }
  }

  lemma VolumesPut(m: CandleTable, k: Key, c: Candle)
    requires k !in m
    ensures Sum(Volumes(m[k := c])) == Sum(Volumes(m)) + c.volume
    ensures Highs(m[k := c]) == Highs(m)[k := c.high] && Lows(m[k := c]) == Lows(m)[k := c.low]
  {
    hide Sum;
    assert Volumes(m[k := c]) == Volumes(m)[k := c.volume];
    SumPut(Volumes(m), k, c.volume);
  }

  lemma AddRowOk(a: DayAcc, m: CandleTable, k: Key, c: Candle)
    requires IsDayAcc(a, m) && k !in m
    ensures IsDayAcc(AddRow(a, c), m[k := c])
  {
    hide Sum, Volumes, QuoteTotal, Highs, Lows, IsMaxOf, IsMinOf, AddNullable;
    VolumesPut(m, k, c);
    QuotesPut(m, k, c);
    assert k !in Highs(m) && k !in Lows(m) by { SameColumns(m, k); }
    MaxPut(a.high, Highs(m), k, c.high);
    MinPut(a.low, Lows(m), k, c.low);
    assert k in m[k := c];
  }

  lemma SameColumns(m: CandleTable, k: Key)
    ensures k in Highs(m) <==> k in m
    ensures k in Lows(m) <==> k in m
  {
  }

  lemma MaxPut(v: real, m: map<Key, real>, k: Key, x: real)
    requires IsMaxOf(v, m) && k !in m
    ensures IsMaxOf(if v < x then x else v, m[k := x])
  {
    assert k in m[k := x] && m[k := x][k] == x;
    var j :| j in m && m[j] == v;
    assert j in m[k := x] && m[k := x][j] == v;
  }

  lemma MinPut(v: real, m: map<Key, real>, k: Key, x: real)
    requires IsMinOf(v, m) && k !in m
    ensures IsMinOf(if x < v then x else v, m[k := x])
  {
    assert k in m[k := x] && m[k := x][k] == x;
    var j :| j in m && m[j] == v;
    assert j in m[k := x] && m[k := x][j] == v;
  }

  lemma DayRowOfIsRollup(a: DayAcc, m: CandleTable)
    requires IsDayAcc(a, m)
    ensures DayRowOf(a) == Rollup(m)
  {
  }

  ghost predicate GroupsBuilt(groups: map<Group, DayAcc>, done: CandleTable) {
    && groups.Keys == GroupsOf(done)
    && forall g :: g in groups ==> IsDayAcc(groups[g], Part(done, g))
  }

  function WithRow(groups: map<Group, DayAcc>, k: Key, c: Candle): map<Group, DayAcc> {
    var g := GroupOf(k);
    groups[g := if g in groups then AddRow(groups[g], c) else FirstRow(c)]
  }

  lemma GroupsStep(groups: map<Group, DayAcc>, done: CandleTable, k: Key, c: Candle)
    requires GroupsBuilt(groups, done) && k !in done
    ensures GroupsBuilt(WithRow(groups, k, c), done[k := c])
  {
    hide IsDayAcc, AddRow, FirstRow;
    var g, done' := GroupOf(k), done[k := c];
    assert GroupsOf(done') == GroupsOf(done) + {g};
    PartNonEmpty(done, g);
    assert Part(done', g) == Part(done, g)[k := c];
    if g in groups {
      AddRowOk(groups[g], Part(done, g), k, c);
    } else {
      assert Part(done, g) == map[];
      FirstRowOk(k, c);
      assert map[][k := c] == map[k := c];
    }
    forall h | h in groups && h != g
      ensures Part(done', h) == Part(done, h)
    {
    }
  }

  lemma GroupsFinish(groups: map<Group, DayAcc>, m: CandleTable)
    requires GroupsBuilt(groups, m)
    ensures (map g | g in groups :: DayRowOf(groups[g])) == RollupAll(m)
  {
    hide IsDayAcc, DayRowOf, Rollup, Part, GroupsOf;
    forall g | g in groups
      ensures DayRowOf(groups[g]) == RollupAll(m)[g]
    {
      PartNonEmpty(m, g);
      DayRowOfIsRollup(groups[g], Part(m, g));
    }
  }

  // GROUP BY 1, 2: one pass over the rows, in any order.
  method GroupRows(m: CandleTable) returns (rollups: DailyTable)
    ensures rollups == RollupAll(m)
  {
    hide GroupsBuilt, RollupAll, WithRow;
    var groups: map<Group, DayAcc> := map[];
    var done: CandleTable := map[];
    var rest := m;
    assert GroupsBuilt(groups, done) by { NothingBuilt(); }
    while rest.Keys != {}
      invariant done.Keys !! rest.Keys && done + rest == m
      invariant GroupsBuilt(groups, done)
      decreases rest.Keys
    {
      var k :| k in rest.Keys;
      GroupsStep(groups, done, k, rest[k]);
      groups := WithRow(groups, k, rest[k]);
      done, rest := done[k := rest[k]], rest - {k};
    }
    assert done == m;
    GroupsFinish(groups, m);
    rollups := map g | g in groups :: DayRowOf(groups[g]);
  }

  lemma NothingBuilt()
    ensures GroupsBuilt(map[], map[])
  {
  }

  function KeepFrom(times: seq<int>, c: int): seq<int> {
    if times == [] then []
    else if times[0] < c then KeepFrom(times[1..], c)
    else [times[0]] + KeepFrom(times[1..], c)
  }

  // A time stays exactly when it is at or after the cutoff, as often as it was there.
  lemma {:induction false} KeepFromBag(times: seq<int>, c: int, x: int)
    ensures multiset(KeepFrom(times, c))[x] == if c <= x then multiset(times)[x] else 0
  {
    if times != [] {
      KeepFromBag(times[1..], c, x);
      assert times == [times[0]] + times[1..];
    }
  }

  datatype RetentionResult = RetentionResult(cutoff: int, dailySummaryRows: nat, candlesDeleted: nat, metricsDeleted: nat)

  lemma FewerKept(times: seq<int>, c: int)
    ensures |KeepFrom(times, c)| <= |times|
  {
  }

  // analytics.candles_1m, analytics.daily_summary, and the recorded_at column of
  // analytics.pipeline_metrics.
  class Postgres {
    var candles: CandleTable
    var daily: DailyTable
    var metrics: seq<int>

    constructor ()
      ensures candles == map[] && daily == map[] && metrics == []
    {
      candles, daily, metrics := map[], map[], [];
    }

    // A key repeated within one statement raises, and the transaction leaves the table as it was.
    method UpsertCandles1m(rows: seq<(Key, Candle)>) returns (ok: bool)
      modifies this`candles
      ensures ok <==> forall i, j :: 0 <= i < j < |rows| && i / 1000 == j / 1000 ==> rows[i].0 != rows[j].0
      ensures candles == if ok then Upserted(old(candles), rows) else old(candles)
    {
      hide Upserted;
      var result := UpsertPages(candles, rows);
      ok := result.Some?;
      if ok {
        candles := result.value;
      }
    }

    method UpsertDailySummary(rows: seq<(Group, DailyRow)>) returns (ok: bool)
      modifies this`daily
      ensures ok <==> forall i, j :: 0 <= i < j < |rows| && i / 1000 == j / 1000 ==> rows[i].0 != rows[j].0
      ensures daily == if ok then Upserted(old(daily), rows) else old(daily)
    {
      hide Upserted;
      var result := UpsertPages(daily, rows);
      ok := result.Some?;
      if ok {
        daily := result.value;
      }
    }

    // The rollup statement.
    method SummarizeOld(cutoff: int) returns (rowCount: nat)
      modifies this`daily
      ensures daily == Summarized(candles, old(daily), cutoff)
      ensures rowCount == |GroupsOf(Before(candles, cutoff))|
    {
      hide RollupAll, Before, GroupsOf;
      var rollups := GroupRows(Before(candles, cutoff));
      daily := daily + rollups;
      rowCount := |rollups.Keys|;
    }

    method DeleteOld(cutoff: int) returns (deleted: nat)
      modifies this`candles
      ensures candles == From(old(candles), cutoff)
      ensures deleted == |Before(old(candles), cutoff)|
    {
      deleted := |Before(candles, cutoff)|;
      candles := From(candles, cutoff);
    }

    method DeleteOldMetrics(cutoff: int) returns (deleted: nat)
      modifies this`metrics
      ensures metrics == KeepFrom(old(metrics), cutoff)
      ensures deleted + |metrics| == |old(metrics)|
      ensures forall x :: multiset(metrics)[x] == if cutoff <= x then multiset(old(metrics))[x] else 0
    {
      forall x { KeepFromBag(metrics, cutoff, x); }
      FewerKept(metrics, cutoff);
      deleted := |metrics| - |KeepFrom(metrics, cutoff)|;
      metrics := KeepFrom(metrics, cutoff);
    }

    // purge_old_candles with no upsert between its statements.
    method PurgeOldCandles(now: int, keepDays: int, summarizeFirst: bool, metricsKeepDays: int)
        returns (result: RetentionResult)
      modifies this
      ensures candles == From(old(candles), Cutoff(now, keepDays))
      ensures daily == if summarizeFirst then Summarized(old(candles), old(daily), Cutoff(now, keepDays)) else old(daily)
      ensures metrics == KeepFrom(old(metrics), Cutoff(now, Max(1, metricsKeepDays)))
      ensures result.cutoff == Cutoff(now, keepDays)
      ensures result.cutoff == if keepDays > 0 then now - keepDays * 86400000 else now
      ensures var oldest := if metricsKeepDays > 1 then now - metricsKeepDays * 86400000 else now - 86400000;
        forall x :: multiset(metrics)[x] == if oldest <= x then multiset(old(metrics))[x] else 0
      ensures forall k :: k in candles <==> k in old(candles) && result.cutoff <= k.start
      ensures result.dailySummaryRows == if summarizeFirst then |GroupsOf(Before(old(candles), Cutoff(now, keepDays)))| else 0
      ensures result.candlesDeleted == |Before(old(candles), Cutoff(now, keepDays))|
      ensures result.metricsDeleted == |old(metrics)| - |metrics|
    {
      hide Summarized, Before, GroupsOf, KeepFrom;
      var cutoff := Cutoff(now, keepDays);
      var rows := 0;
      if summarizeFirst {
        rows := SummarizeOld(cutoff);
      }
      var deleted := DeleteOld(cutoff);
      var metricsDeleted := DeleteOldMetrics(Cutoff(now, Max(1, metricsKeepDays)));
      result := RetentionResult(cutoff, rows, deleted, metricsDeleted);
    }
  }
}
