// The two independently checkpointed queries of the streaming job, writing batch by batch.
module StreamJob {
  import opened Options
  import opened Trades
  import opened Candles
  import opened S = Streaming
  import opened Warehouse
  import opened DailyBatch
  import opened P = Pipeline
  import opened Records
  import V = Validation
  import T = Timing
  import U = Purging

  // The candle query: foreach_batch_valid over the aggregated stream.
  class CandleQuery {
    const db: Postgres
    const delay: nat
    var query: Query
    var pending: Option<seq<Trade>>
    var batchId: nat

    constructor (db: Postgres, delay: nat)
      requires db.candles == map[]
      ensures this.db == db && this.delay == delay && View() == INITIAL_JOB && batchId == 0
    {
      this.db, this.delay := db, delay;
      query, pending, batchId := INITIAL_JOB.query, None, 0;
    }

    ghost function View(): Job
      reads this, db
    {
      Job(query, db.candles, pending)
    }

    // foreach_batch_valid: upsert the emitted windows.
    method ForeachBatchValid(b: Batch) returns (emitted: map<Key, Acc>)
      requires Schedules(query, b)
      modifies db`candles
      ensures emitted == Emitted(query, b)
      ensures db.candles == old(db.candles) + EmittedCandles(query, b)
    {
      emitted := map k | k in b.plans :: Eval(b.plans[k], Get(query.windows, k));
      var rows := ListRows(map k | k in emitted :: Finish(emitted[k]), db.candles);
      if rows != [] {
        var ok := db.UpsertCandles1m(rows);
      }
    }

    // One execution of a batch. It may stop after the upsert and before the commit, and is then
    // run again with the same rows.
    method RunBatch(b: Batch, commits: bool)
      requires Enabled(View(), if commits then Commit(b) else Attempt(b))
      modifies this, db`candles
      ensures View() == S.Next(old(View()), if commits then Commit(b) else Attempt(b), delay)
      ensures batchId == old(batchId) + if commits then 1 else 0
    {
      hide Emitted, EmittedCandles, Fresh, Advance, Evict;
      var emitted := ForeachBatchValid(b);
      if commits {
        query := Query(Advance(query.watermark, b.rows, delay), query.seen + Ids(Fresh(query, b.rows)),
                       Evict(query.windows + emitted, query.watermark));
        pending, batchId := None, batchId + 1;
      } else {
        pending := Some(b.rows);
      }
    }
  }

  // The records of a batch whose verdict is `valid`.
  function Routed(records: seq<Record>, s: Settings, clock: int, valid: bool): seq<Record> {
    if records == [] then []
    else if IsValid(records[0], s, clock) == valid then [records[0]] + Routed(records[1..], s, clock, valid)
    else Routed(records[1..], s, clock, valid)
  }

  function TradesOf(records: seq<Record>): seq<Trade> {
    seq(|records|, i requires 0 <= i < |records| => ToTrade(records[i]))
  }

  lemma {:induction false} RoutedShares(records: seq<Record>, s: Settings, clock: int)
    ensures multiset(Routed(records, s, clock, true)) + multiset(Routed(records, s, clock, false)) == multiset(records)
  {
    hide IsValid;
    if records != [] {
      RoutedShares(records[1..], s, clock);
      assert records == [records[0]] + records[1..];
    }
  }

  lemma {:induction false} RoutedVerdict(records: seq<Record>, s: Settings, clock: int, valid: bool)
    ensures forall r :: r in Routed(records, s, clock, valid) ==> IsValid(r, s, clock) == valid
  {
    hide IsValid;
    if records != [] {
      RoutedVerdict(records[1..], s, clock, valid);
    }
  }

  lemma {:induction false} RoutedTrades(records: seq<Record>, s: Settings, clock: int)
    ensures ValidRows(records, s, clock) == TradesOf(Routed(records, s, clock, true))
  {
    hide IsValid, ToTrade;
    if records != [] {
      RoutedTrades(records[1..], s, clock);
    }
  }

  // is_valid is never NULL: the two sinks share the records of a batch out, none goes to both,
  // and the archive gets the trades of its own.
  lemma {:induction false} EveryRecordRouted(records: seq<Record>, s: Settings, clock: int)
    ensures multiset(Routed(records, s, clock, true)) + multiset(Routed(records, s, clock, false)) == multiset(records)
    ensures forall r :: r in Routed(records, s, clock, true) ==> IsValid(r, s, clock)
    ensures forall r :: r in Routed(records, s, clock, false) ==> !IsValid(r, s, clock)
    ensures ValidRows(records, s, clock) == TradesOf(Routed(records, s, clock, true))
  {
    hide IsValid, Routed, ValidRows, TradesOf;
    RoutedShares(records, s, clock);
    RoutedVerdict(records, s, clock, true);
    RoutedVerdict(records, s, clock, false);
    RoutedTrades(records, s, clock);
  }

  function LateCount(records: seq<Record>, s: Settings, clock: int): nat {
    if records == [] then 0
    else
      var late := V.SparkCode(V.AsRow(records[0].event), ConfigOf(s), T.NowMs(clock)) == Some(V.LateEvent);
      (if late then 1 else 0) + LateCount(records[1..], s, clock)
  }

  // What an execution that stops has written: part of the trades, or all of them and part of the
  // dead letters.
  datatype Stop = Stop(written: seq<Trade>, letters: seq<Record>)

  ghost predicate StopOk(stop: Stop, records: seq<Record>, s: Settings, clock: int) {
    && (forall t :: t in stop.written ==> t in ValidRows(records, s, clock))
    && (forall r :: r in stop.letters ==> r in Routed(records, s, clock, false))
    && (stop.letters != [] ==> stop.written == ValidRows(records, s, clock))
  }

  lemma {:induction false} RoutedMembers(records: seq<Record>, s: Settings, clock: int, valid: bool, r: Record)
    ensures r in Routed(records, s, clock, valid) <==> r in records && IsValid(r, s, clock) == valid
  {
    hide IsValid;
    if records != [] {
      RoutedMembers(records[1..], s, clock, valid, r);
      assert records == [records[0]] + records[1..];
    }
  }

  lemma RoutedCons(r: Record, records: seq<Record>, s: Settings, clock: int, valid: bool)
    ensures Routed([r] + records, s, clock, valid)
         == (if IsValid(r, s, clock) == valid then [r] else []) + Routed(records, s, clock, valid)
  {
    hide IsValid;
    assert ([r] + records)[0] == r && ([r] + records)[1..] == records;
  }

  lemma {:induction false} RoutedSnoc(records: seq<Record>, r: Record, s: Settings, clock: int, valid: bool)
    ensures Routed(records + [r], s, clock, valid)
         == Routed(records, s, clock, valid) + if IsValid(r, s, clock) == valid then [r] else []
  {
    hide IsValid, Routed;
    if records == [] {
      assert [] + [r] == [r] + [];
      RoutedCons(r, [], s, clock, valid);
      NothingRouted(s, clock, valid);
    } else {
      var first, rest := records[0], records[1..];
      assert records == [first] + rest && records + [r] == [first] + (rest + [r]);
      RoutedSnoc(rest, r, s, clock, valid);
      RoutedCons(first, rest, s, clock, valid);
      RoutedCons(first, rest + [r], s, clock, valid);
    }
  }

  lemma NothingRouted(s: Settings, clock: int, valid: bool)
    ensures Routed([], s, clock, valid) == []
  {
  }

  // The records at the rising positions `js`, which are those with the verdict and no other.
  ghost predicate SinkAt(sink: seq<Record>, records: seq<Record>, js: seq<int>, s: Settings, clock: int, valid: bool) {
    && |js| == |sink| && Rising(js)
    && (forall i :: 0 <= i < |js| ==>
          0 <= js[i] < |records| && sink[i] == records[js[i]] && IsValid(records[js[i]], s, clock) == valid)
    && (forall j :: 0 <= j < |records| && IsValid(records[j], s, clock) == valid ==> j in js)
  }

  lemma SinkNext(sink: seq<Record>, records: seq<Record>, js: seq<int>, r: Record, s: Settings, clock: int, valid: bool)
    requires SinkAt(sink, records, js, s, clock, valid)
    ensures IsValid(r, s, clock) == valid ==> SinkAt(sink + [r], records + [r], js + [|records|], s, clock, valid)
    ensures IsValid(r, s, clock) != valid ==> SinkAt(sink, records + [r], js, s, clock, valid)
  {
    hide IsValid;
    var next := js + [|records|];
    assert forall j :: j in js ==> j in next;
    assert next[|js|] == |records|;
  }

  // A sink gets its records in the order of the batch.
  lemma {:induction false} RoutedInOrder(records: seq<Record>, s: Settings, clock: int, valid: bool) returns (js: seq<int>)
    ensures SinkAt(Routed(records, s, clock, valid), records, js, s, clock, valid)
  {
    hide IsValid;
    if records == [] {
      js := [];
    } else {
      hide Routed, SinkAt;
      var n := |records| - 1;
      var init, last := records[..n], records[n];
      assert records == init + [last];
      var earlier := RoutedInOrder(init, s, clock, valid);
      RoutedSnoc(init, last, s, clock, valid);
      SinkNext(Routed(init, s, clock, valid), init, earlier, last, s, clock, valid);
      if IsValid(last, s, clock) == valid {
        js := earlier + [n];
      } else {
        js := earlier;
        assert Routed(init, s, clock, valid) + [] == Routed(init, s, clock, valid);
      }
    }
  }

  // The positions of the late records of a batch.
  function LateAt(records: seq<Record>, s: Settings, clock: int): set<int> {
    set j | 0 <= j < |records| && V.SparkCode(V.AsRow(records[j].event), ConfigOf(s), T.NowMs(clock)) == Some(V.LateEvent)
  }

  lemma {:induction false} LateCountSnoc(records: seq<Record>, r: Record, s: Settings, clock: int)
    ensures LateCount(records + [r], s, clock) == LateCount(records, s, clock) + LateCount([r], s, clock)
  {
    hide V.SparkCode;
    if records == [] {
      assert [] + [r] == [r];
    } else {
      LateCountSnoc(records[1..], r, s, clock);
      assert (records + [r])[1..] == records[1..] + [r];
    }
  }

  lemma {:induction false} LateCountIs(records: seq<Record>, s: Settings, clock: int)
    ensures LateCount(records, s, clock) == |LateAt(records, s, clock)|
  {
    hide V.SparkCode;
    if records == [] {
      assert LateAt(records, s, clock) == {};
    } else {
      var n := |records| - 1;
      var init, last := records[..n], records[n];
      assert records == init + [last];
      LateCountIs(init, s, clock);
      LateCountSnoc(init, last, s, clock);
      assert LateCount([last], s, clock) == |LateAt([last], s, clock)| by {
        LateOfOne(last, s, clock);
      }
      LateAtSnoc(init, last, s, clock);
    }
  }

  lemma LateOfOne(r: Record, s: Settings, clock: int)
    ensures LateCount([r], s, clock) == |LateAt([r], s, clock)|
    ensures LateAt([r], s, clock) == {} || LateAt([r], s, clock) == {0}
  {
    hide V.SparkCode;
    assert [r][1..] == [];
    assert LateAt([r], s, clock) == if LateCount([r], s, clock) == 1 then {0} else {};
  }

  lemma LateAtSnoc(records: seq<Record>, r: Record, s: Settings, clock: int)
    ensures |LateAt(records + [r], s, clock)| == |LateAt(records, s, clock)| + |LateAt([r], s, clock)|
  {
    hide V.SparkCode;
    var n := |records|;
    LateOfOne(r, s, clock);
    assert 0 in LateAt([r], s, clock) <==> n in LateAt(records + [r], s, clock);
    if n in LateAt(records + [r], s, clock) {
      assert LateAt(records + [r], s, clock) == LateAt(records, s, clock) + {n};
    } else {
      assert LateAt(records + [r], s, clock) == LateAt(records, s, clock);
    }
  }

  // Every late record is invalid, so the dead letters hold them all.
  lemma {:induction false} LateRouted(records: seq<Record>, s: Settings, clock: int)
    ensures LateCount(Routed(records, s, clock, false), s, clock) == LateCount(records, s, clock)
  {
    hide V.SparkCode;
    if records != [] {
      LateRouted(records[1..], s, clock);
    }
  }

  lemma NothingToWrite(stop: Stop, records: seq<Record>, s: Settings, clock: int)
    requires StopOk(stop, records, s, clock)
    ensures ValidRows(records, s, clock) == [] ==> stop.written == []
    ensures Routed(records, s, clock, false) == [] ==> stop.letters == []
  {
    assert stop.written != [] ==> stop.written[0] in stop.written;
    assert stop.letters != [] ==> stop.letters[0] in stop.letters;
  }

  lemma EmptyDays()
    ensures forall d :: Select([], On(d)) == []
  {
  }

  // The executions of one batch: those that stop, then the one that commits.
  datatype Execution = Execution(records: seq<Record>, clock: int, stops: seq<Stop>)

  function DeliveryOf(e: Execution, s: Settings): Delivery {
    Delivery(ValidRows(e.records, s, e.clock), seq(|e.stops|, i requires 0 <= i < |e.stops| => e.stops[i].written))
  }

  function DeliveriesOf(es: seq<Execution>, s: Settings): seq<Delivery> {
    seq(|es|, i requires 0 <= i < |es| => DeliveryOf(es[i], s))
  }

  // All dead letters of the executions of a batch, and of any number of batches.
  function StopLetters(stops: seq<Stop>): seq<Record> {
    if stops == [] then [] else StopLetters(stops[..|stops| - 1]) + stops[|stops| - 1].letters
  }

  function LettersOf(e: Execution, s: Settings): seq<Record> {
    StopLetters(e.stops) + Routed(e.records, s, e.clock, false)
  }

  function AllLetters(es: seq<Execution>, s: Settings): seq<Record> {
    if es == [] then [] else AllLetters(es[..|es| - 1], s) + LettersOf(es[|es| - 1], s)
  }

  ghost predicate StopsOk(es: seq<Execution>, s: Settings) {
    forall e, stop :: e in es && stop in e.stops ==> StopOk(stop, e.records, s, e.clock)
  }

  // A record of some execution that is not valid.
  ghost predicate Refused(es: seq<Execution>, s: Settings, r: Record) {
    exists e :: e in es && r in e.records && !IsValid(r, s, e.clock)
  }

  lemma {:induction false} StopLettersMembers(stops: seq<Stop>, r: Record)
    ensures r in StopLetters(stops) <==> exists stop :: stop in stops && r in stop.letters
  {
    if stops != [] {
      var n := |stops| - 1;
      StopLettersMembers(stops[..n], r);
      assert stops == stops[..n] + [stops[n]];
    }
  }

  lemma LettersOfMembers(e: Execution, s: Settings, r: Record)
    requires forall stop :: stop in e.stops ==> StopOk(stop, e.records, s, e.clock)
    ensures r in LettersOf(e, s) <==> r in e.records && !IsValid(r, s, e.clock)
  {
    hide IsValid, Routed, StopLetters, ValidRows;
    StopLettersMembers(e.stops, r);
    RoutedMembers(e.records, s, e.clock, false, r);
  }

  lemma {:induction false} AllLettersMembers(es: seq<Execution>, s: Settings, r: Record)
    requires StopsOk(es, s)
    ensures r in AllLetters(es, s) <==> Refused(es, s, r)
  {
    if es != [] {
      hide IsValid, LettersOf, StopOk;
      var n := |es| - 1;
      var init := es[..n];
      assert es == init + [es[n]];
      AllLettersMembers(init, s, r);
      LettersOfMembers(es[n], s, r);
      if Refused(init, s, r) {
        var e :| e in init && r in e.records && !IsValid(r, s, e.clock);
        assert e in es;
      }
    }
  }

  lemma ArchivedOnceCons(e: Execution, es: seq<Execution>, s: Settings)
    ensures ArchivedOnce(DeliveriesOf([e] + es, s)) == ValidRows(e.records, s, e.clock) + ArchivedOnce(DeliveriesOf(es, s))
  {
    hide ValidRows;
    var ds := DeliveriesOf([e] + es, s);
    assert ds[1..] == DeliveriesOf(es, s);
  }

  lemma {:induction false} ArchivedOnceMembers(es: seq<Execution>, s: Settings, t: Trade)
    ensures t in ArchivedOnce(DeliveriesOf(es, s)) <==> exists e :: e in es && t in ValidRows(e.records, s, e.clock)
  {
    hide ValidRows;
    if es != [] {
      hide ArchivedOnce, DeliveriesOf;
      var e, rest := es[0], es[1..];
      assert es == [e] + rest;
      ArchivedOnceMembers(rest, s, t);
      ArchivedOnceCons(e, rest, s);
    }
  }

  lemma DeliveriesOk(es: seq<Execution>, s: Settings)
    requires StopsOk(es, s)
    ensures forall d :: d in DeliveriesOf(es, s) ==> PartsOf(d)
  {
    hide ValidRows, Routed;
    var ds := DeliveriesOf(es, s);
    forall d | d in ds
      ensures PartsOf(d)
    {
      var i :| 0 <= i < |ds| && ds[i] == d;
      assert es[i] in es;
      forall k, t | 0 <= k < |d.partial| && t in d.partial[k]
        ensures t in d.rows
      {
        assert es[i].stops[k] in es[i].stops;
      }
    }
  }

  // Some row carries the record.
  ghost predicate HeldIn(rows: seq<Trade>, r: Record) {
    exists t :: t in rows && Carries(t, r)
  }

  lemma {:induction false} ArchivedMembers(es: seq<Execution>, s: Settings, t: Trade)
    requires StopsOk(es, s)
    ensures t in Archived(DeliveriesOf(es, s)) <==> exists e :: e in es && t in ValidRows(e.records, s, e.clock)
  {
    hide ValidRows, Archived, ArchivedOnce, DeliveriesOf, StopsOk;
    DeliveriesOk(es, s);
    SameArchiveRows(DeliveriesOf(es, s), t);
    ArchivedOnceMembers(es, s, t);
  }

  // The archive holds a row of every valid record, and only such rows.
  lemma {:induction false} ArchivedCarries(es: seq<Execution>, s: Settings, t: Trade)
    requires StopsOk(es, s) && t in Archived(DeliveriesOf(es, s))
    ensures exists e, r :: e in es && r in e.records && IsValid(r, s, e.clock) && Carries(t, r)
  {
    hide IsValid, Carries, ValidRows, Archived, DeliveriesOf, StopsOk;
    ArchivedMembers(es, s, t);
    var e :| e in es && t in ValidRows(e.records, s, e.clock);
    ValidIds(e.records, s, e.clock, t);
  }

  lemma {:induction false} ArchivedHolds(es: seq<Execution>, s: Settings, e: Execution, r: Record)
    requires StopsOk(es, s) && e in es && r in e.records && IsValid(r, s, e.clock)
    ensures HeldIn(Archived(DeliveriesOf(es, s)), r)
  {
    hide IsValid, Carries, ValidRows, Archived, DeliveriesOf, StopsOk;
    ValidIds(e.records, s, e.clock, Trade("", "", 0.0, 0.0, None, 0));
    var t :| t in ValidRows(e.records, s, e.clock) && Carries(t, r);
    ArchivedMembers(es, s, t);
  }

  lemma HeldOnDay(rows: seq<Trade>, r: Record)
    requires HeldIn(rows, r)
    ensures HeldIn(Select(rows, On(r.event.timeMs / 86400000)), r)
  {
    hide Select, Carries, Covers;
    var d := r.event.timeMs / 86400000;
    var t :| t in rows && Carries(t, r);
    SameTime(t, r);
    SelectMembers(rows, On(d));
    CoversExactly(On(d), t);
  }

  datatype BatchCounts = BatchCounts(recordsIn: nat, recordsValid: nat, recordsDlq: nat, lateDlq: nat)

  // The archive query: foreach_batch_validated over the validated stream.
  class ArchiveQuery {
    const settings: Settings
    const lake: Lake
    var deadLetters: seq<Record>

    constructor (settings: Settings, lake: Lake)
      ensures this.settings == settings && this.lake == lake && deadLetters == []
    {
      this.settings, this.lake := settings, lake;
      deadLetters := [];
    }

    method ForeachBatchValidated(records: seq<Record>, clock: int, stop: Option<Stop>) returns (counts: BatchCounts)
      requires lake.Filed() && (stop.Some? ==> StopOk(stop.value, records, settings, clock))
      modifies this, lake`raw
      ensures lake.Filed()
      ensures var rows := if stop.Some? then stop.value.written else ValidRows(records, settings, clock);
        && (forall d :: lake.Raw(d) == old(lake.Raw(d)) + Select(rows, On(d)))
        && (forall d, t ::
              multiset(lake.Raw(d))[t] == old(multiset(lake.Raw(d)))[t]
                + if d * 86400000 <= t.timeMs < (d + 1) * 86400000 then multiset(rows)[t] else 0)
      ensures stop.None? ==> deadLetters == old(deadLetters) + Routed(records, settings, clock, false)
      ensures stop.Some? ==> deadLetters == old(deadLetters) + stop.value.letters
      ensures counts.recordsIn == |records| == counts.recordsValid + counts.recordsDlq
      ensures counts.recordsValid == |ValidRows(records, settings, clock)|
      ensures counts.lateDlq == |LateAt(records, settings, clock)|
    {
      hide ValidRows, Routed, LateCount, LateAt, Select, StopOk;
      var valid, invalid := ValidRows(records, settings, clock), Routed(records, settings, clock, false);
      Shares(records, settings, clock);
      CountsLate(records, settings, clock);
      if stop.Some? {
        NothingToWrite(stop.value, records, settings, clock);
      }
      var late := 0;
      if |invalid| > 0 {
        late := LateCount(invalid, settings, clock);
      }
      counts := BatchCounts(|valid| + |invalid|, |valid|, |invalid|, late);
      if stop.Some? {
        WriteSinks(|valid|, stop.value.written, |invalid|, stop.value.letters);
      } else {
        WriteSinks(|valid|, valid, |invalid|, invalid);
      }
    }

    // The two writes, each skipped where there is nothing for its sink.
    method WriteSinks(recordsValid: nat, rows: seq<Trade>, recordsDlq: nat, letters: seq<Record>)
      requires lake.Filed() && (recordsValid == 0 ==> rows == []) && (recordsDlq == 0 ==> letters == [])
      modifies this, lake`raw
      ensures lake.Filed() && deadLetters == old(deadLetters) + letters
      ensures forall d :: lake.Raw(d) == old(lake.Raw(d)) + Select(rows, On(d))
      ensures forall d, t ::
        multiset(lake.Raw(d))[t] == old(multiset(lake.Raw(d)))[t]
          + if d * 86400000 <= t.timeMs < (d + 1) * 86400000 then multiset(rows)[t] else 0
    {
      hide Select;
      EmptyDays();
      if recordsValid > 0 {
        lake.AppendTrades(rows);
      }
      if recordsDlq > 0 {
        deadLetters := deadLetters + letters;
      }
    }

    // Any number of batches, each run until it commits: day by day the lake has grown by the
    // deliveries, every valid record is in the partition of its day, and the new dead letters are
    // exactly the records that are not valid.
    method Run(es: seq<Execution>)
      requires lake.Filed() && StopsOk(es, settings)
      modifies this, lake`raw
      ensures lake.Filed()
      ensures forall d :: lake.Raw(d) == old(lake.Raw(d)) + Select(Archived(DeliveriesOf(es, settings)), On(d))
      ensures forall e, r :: e in es && r in e.records && IsValid(r, settings, e.clock) ==>
        HeldIn(lake.Raw(r.event.timeMs / 86400000), r)
      ensures deadLetters == old(deadLetters) + AllLetters(es, settings)
      ensures forall r :: r in deadLetters[|old(deadLetters)|..] <==>
        exists e :: e in es && r in e.records && !IsValid(r, settings, e.clock)
    {
      hide *;
      RunAll(es);
      forall e, r | e in es && r in e.records && IsValid(r, settings, e.clock)
        ensures HeldIn(lake.Raw(r.event.timeMs / 86400000), r)
      {
        var d := r.event.timeMs / 86400000;
        ArchivedHolds(es, settings, e, r);
        HeldOnDay(Archived(DeliveriesOf(es, settings)), r);
        HeldInMore(old(lake.Raw(d)), Select(Archived(DeliveriesOf(es, settings)), On(d)), r);
      }
      forall r
        ensures r in deadLetters[|old(deadLetters)|..] <==>
          exists e :: e in es && r in e.records && !IsValid(r, settings, e.clock)
      {
        NewLetters(old(deadLetters), deadLetters, es, settings, r);
      }
    }

    method RunAll(es: seq<Execution>)
      requires lake.Filed() && StopsOk(es, settings)
      modifies this, lake`raw
      ensures lake.Filed()
      ensures forall d :: lake.Raw(d) == old(lake.Raw(d)) + Select(Archived(DeliveriesOf(es, settings)), On(d))
      ensures deadLetters == old(deadLetters) + AllLetters(es, settings)
    {
      hide ValidRows, Archived, Delivered, Select, StopOk, DeliveryOf, AllLetters, LettersOf;
      var i := 0;
      NothingArchived(es, settings);
      while i < |es|
        invariant 0 <= i <= |es| && lake.Filed()
        invariant forall d :: lake.Raw(d) == old(lake.Raw(d)) + Select(Archived(DeliveriesOf(es[..i], settings)), On(d))
        invariant deadLetters == old(deadLetters) + AllLetters(es[..i], settings)
      {
        ghost var sofar := Archived(DeliveriesOf(es[..i], settings));
        RunOne(es[i]);
        forall d { SelectConcat(sofar, Delivered(DeliveryOf(es[i], settings)), On(d)); }
        OneMoreDelivery(es, i, settings);
        i := i + 1;
      }
      assert es[..|es|] == es;
    }

    method RunOne(e: Execution)
      requires lake.Filed() && forall stop :: stop in e.stops ==> StopOk(stop, e.records, settings, e.clock)
      modifies this, lake`raw
      ensures lake.Filed()
      ensures var rows := Delivered(DeliveryOf(e, settings));
        forall day :: lake.Raw(day) == old(lake.Raw(day)) + Select(rows, On(day))
      ensures deadLetters == old(deadLetters) + LettersOf(e, settings)
    {
      hide ValidRows, Routed, Select, Concat, StopOk, LateAt, StopLetters;
      ghost var partial := DeliveryOf(e, settings).partial;
      var i := 0;
      NothingPartial(partial, e.stops);
      while i < |e.stops|
        invariant 0 <= i <= |e.stops| && lake.Filed()
        invariant forall day :: lake.Raw(day) == old(lake.Raw(day)) + Select(Concat(partial[..i]), On(day))
        invariant deadLetters == old(deadLetters) + StopLetters(e.stops[..i])
      {
        var counts := ForeachBatchValidated(e.records, e.clock, Some(e.stops[i]));
        forall day { SelectConcat(Concat(partial[..i]), partial[i], On(day)); }
        NextStop(partial, e.stops, i);
        i := i + 1;
      }
      assert partial[..|partial|] == partial && e.stops[..|e.stops|] == e.stops;
      var counts := ForeachBatchValidated(e.records, e.clock, None);
      forall day { SelectConcat(Concat(partial), DeliveryOf(e, settings).rows, On(day)); }
    }
  }

  lemma CountsLate(records: seq<Record>, s: Settings, clock: int)
    ensures LateCount(Routed(records, s, clock, false), s, clock) == |LateAt(records, s, clock)|
    ensures Routed(records, s, clock, false) == [] ==> |LateAt(records, s, clock)| == 0
  {
    hide Routed, LateAt;
    LateRouted(records, s, clock);
    LateCountIs(records, s, clock);
  }

  lemma HeldInMore(before: seq<Trade>, rows: seq<Trade>, r: Record)
    requires HeldIn(rows, r)
    ensures HeldIn(before + rows, r)
  {
    hide Carries;
    var t :| t in rows && Carries(t, r);
    assert t in before + rows;
  }

  lemma NewLetters(before: seq<Record>, after: seq<Record>, es: seq<Execution>, s: Settings, r: Record)
    requires StopsOk(es, s) && after == before + AllLetters(es, s)
    ensures r in after[|before|..] <==> exists e :: e in es && r in e.records && !IsValid(r, s, e.clock)
  {
    hide IsValid, AllLetters, StopsOk;
    assert after[|before|..] == AllLetters(es, s);
    AllLettersMembers(es, s, r);
  }

  lemma NextStop(partial: seq<seq<Trade>>, stops: seq<Stop>, i: nat)
    requires i < |partial| == |stops|
    ensures Concat(partial[..i + 1]) == Concat(partial[..i]) + partial[i]
    ensures StopLetters(stops[..i + 1]) == StopLetters(stops[..i]) + stops[i].letters
  {
    hide Concat;
    ConcatSnoc(partial[..i], partial[i]);
    assert partial[..i + 1] == partial[..i] + [partial[i]];
    assert stops[..i + 1][..i] == stops[..i];
  }

  lemma Shares(records: seq<Record>, s: Settings, clock: int)
    ensures |ValidRows(records, s, clock)| + |Routed(records, s, clock, false)| == |records|
  {
    hide Routed;
    RoutedTrades(records, s, clock);
    RoutedShares(records, s, clock);
    var a, b := Routed(records, s, clock, true), Routed(records, s, clock, false);
    assert |multiset(a)| == |a| && |multiset(b)| == |b| && |multiset(records)| == |records|;
    assert |multiset(a) + multiset(b)| == |a| + |b|;
  }

  lemma NothingPartial(parts: seq<seq<Trade>>, stops: seq<Stop>)
    ensures Concat(parts[..0]) == [] && forall d :: Select([], On(d)) == []
    ensures StopLetters(stops[..0]) == []
  {
  }

  lemma NothingArchived(es: seq<Execution>, s: Settings)
    ensures Archived(DeliveriesOf(es[..0], s)) == [] && forall d :: Select([], On(d)) == []
    ensures AllLetters(es[..0], s) == []
  {
  }

  lemma OneMoreDelivery(es: seq<Execution>, i: nat, s: Settings)
    requires i < |es|
    ensures var d := DeliveryOf(es[i], s);
      Archived(DeliveriesOf(es[..i + 1], s)) == Archived(DeliveriesOf(es[..i], s)) + Delivered(d)
    ensures AllLetters(es[..i + 1], s) == AllLetters(es[..i], s) + LettersOf(es[i], s)
  {
    hide Archived, Delivered, DeliveryOf, LettersOf;
    assert es[..i + 1][..i] == es[..i];
    ArchivedSnoc(DeliveriesOf(es[..i], s), DeliveryOf(es[i], s));
    assert DeliveriesOf(es[..i + 1], s) == DeliveriesOf(es[..i], s) + [DeliveryOf(es[i], s)];
  }

  // ---------- the two writers of a daily row ----------

  lemma DayInDistinct(ts: seq<Trade>, c: U.Cut, g: Group)
    requires DistinctIds(ts)
    ensures DistinctIds(DayIn(ts, c, g))
  {
    hide Select, DistinctIds;
    SelectDistinct(ts, Within(c.lo, c.hi));
    SelectDistinct(Select(ts, Within(c.lo, c.hi)), Daily(g));
  }

  lemma DayInNonNegative(ts: seq<Trade>, c: U.Cut, g: Group)
    requires NonNegative(ts)
    ensures NonNegative(DayIn(ts, c, g))
  {
    SelectMembers(ts, Within(c.lo, c.hi));
    SelectMembers(Select(ts, Within(c.lo, c.hi)), Daily(g));
  }

  // The batch summary writes the table that retention writes. Where the deduplicated archive of
  // the day holds the ids and sales the retention row stands for, either job leaves the row as the
  // other wrote it exactly when the day has no volume or its quotes sum to the notional.
  lemma {:induction false} WritersAgreeIff(es: seq<Action>, s: Settings, g: Group, i: int, archive: seq<Trade>)
    requires Safe(s) && P.Runs(INITIAL_WORLD, es, s) && P.Exec(INITIAL_WORLD, es, s).db.open.None?
    requires 0 <= i < |P.Exec(INITIAL_WORLD, es, s).frontier.cuts|
    requires LastWith(AcceptedBy(P.Exec(INITIAL_WORLD, es, s), es, s), P.Exec(INITIAL_WORLD, es, s).frontier.cuts, g, i)
    requires DistinctIds(archive)
    requires var w := P.Exec(INITIAL_WORLD, es, s);
      var day := DayIn(AcceptedBy(w, es, s), w.frontier.cuts[i], g);
      Ids(Select(archive, Daily(g))) == Ids(day) && Agree(Select(archive, Daily(g)), day)
    ensures var w := P.Exec(INITIAL_WORLD, es, s);
      var day := DayIn(AcceptedBy(w, es, s), w.frontier.cuts[i], g);
      && g in w.db.daily && g in BatchSummary(archive)
      && (BatchSummary(archive)[g] == w.db.daily[g] <==>
            Total(Qty, day) == 0.0 || (HasQuote(day) && Total(Quote, day) == Total(Notional, day)))
  {
    hide Safe, P.Exec, P.Runs, DayIn, Select, Total, BatchRow, HasQuote, Agree, Ids, DistinctIds, NonNegative;
    hide S.Accepted, CommittedRows;
    PipelineRows(es, s);
    var w := P.Exec(INITIAL_WORLD, es, s);
    var ts, x := AcceptedBy(w, es, s), Select(archive, Daily(g));
    var day := DayIn(ts, w.frontier.cuts[i], g);
    AcceptedNonNegative(es, s);
    DayInNonNegative(ts, w.frontier.cuts[i], g);
    AcceptedDistinct(CommittedRows([], es, s), w.job.pending, s.delay);
    DayInDistinct(ts, w.frontier.cuts[i], g);
    SelectDistinct(archive, Daily(g));
    SameIdsSameEmpty(x, day);
    DailyNonEmpty(archive, g);
    BatchRowIsRetentionRow(x, day);
  }

  lemma AcceptedDistinct(batches: seq<seq<Trade>>, pending: Option<seq<Trade>>, delay: nat)
    ensures DistinctIds(Visible(batches, pending, delay))
  {
    hide Passed, DistinctIds;
    DedupFromIds(Passed(if pending.Some? then batches + [pending.value] else batches, delay), {});
  }
}
