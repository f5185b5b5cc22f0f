// The whole data path: validated micro-batches, re-runs, candle upserts and interleaved purge
// transactions, against one pass over the accepted trades.
module Pipeline {
  import opened Decimals
  import opened Options
  import opened Reals
  import opened Records
  import opened Trades
  import opened Candles
  import opened Reference
  import opened Rollups
  import opened Validation
  import opened Sums
  import opened Timing
  import R = Retention
  import S = Streaming
  import P = Purging

  // `time` is when the last statement ran.
  datatype World = World(job: S.Job, db: P.Db, frontier: P.Frontier, time: int)

  // A batch's upsert, with the commit that may or may not follow it; and the statements of a
  // purge transaction, whose NOW() was taken no later than its first statement.
  datatype Action = Batch(records: seq<Record>, plans: map<Key, Plan>, clock: int, at: int, commits: bool)
                 | BeginPurge(now: int, at: int)
                 | EndPurge(at: int)
                 | AbortPurge(at: int)

  const INITIAL_WORLD := World(S.INITIAL_JOB, P.EMPTY_DB, P.START, 0)

  function StepOf(e: Action, s: Settings): S.Step
    requires e.Batch?
  {
    var b := S.Batch(ValidRows(e.records, s, e.clock), e.plans);
    if e.commits then S.Commit(b) else S.Attempt(b)
  }

  ghost function DbEvent(w: World, e: Action, s: Settings): P.Event
    requires e.Batch? ==> S.Enabled(w.job, StepOf(e, s))
  {
    match e
    case Batch(_, _, _, _, _) => P.Upsert(S.EmittedCandles(w.job.query, StepOf(e, s).b))
    case BeginPurge(now, _) => P.Summarize(Cutoff(now, s.keepDays))
    case EndPurge(_) => P.Delete
    case AbortPurge(_) => P.Rollback
  }

  // Statements run in time order, and a batch writes at most `lag` after its clock.
  ghost predicate Possible(w: World, e: Action, s: Settings) {
    && w.time <= e.at
    && (e.Batch? ==> e.clock <= e.at <= e.clock + s.lag && S.Enabled(w.job, StepOf(e, s)))
    && (e.BeginPurge? ==> e.now <= e.at)
    && P.Enabled(w.db, DbEvent(w, e, s))
  }

  ghost function Next(w: World, e: Action, s: Settings): World
    requires Possible(w, e, s)
  {
    var d := DbEvent(w, e, s);
    World(if e.Batch? then S.Next(w.job, StepOf(e, s), s.delay) else w.job,
          P.Apply(w.db, d), P.Move(w.frontier, d), e.at)
  }

  ghost predicate Runs(w: World, es: seq<Action>, s: Settings)
    decreases |es|
  {
    es != [] ==> Possible(w, es[0], s) && Runs(Next(w, es[0], s), es[1..], s)
  }

  ghost function Exec(w: World, es: seq<Action>, s: Settings): World
    requires Runs(w, es, s)
    decreases |es|
  {
    if es == [] then w else Exec(Next(w, es[0], s), es[1..], s)
  }

  function BatchesWith(batches: seq<seq<Trade>>, e: Action, s: Settings): seq<seq<Trade>> {
    if e.Batch? && e.commits then batches + [ValidRows(e.records, s, e.clock)] else batches
  }

  // The valid rows of the committed batches of a run.
  function CommittedRows(batches: seq<seq<Trade>>, es: seq<Action>, s: Settings): seq<seq<Trade>>
    decreases |es|
  {
    if es == [] then batches else CommittedRows(BatchesWith(batches, es[0], s), es[1..], s)
  }

  // The settings under which no batch can write behind a purge; with no symbols configured
  // nothing is ever written.
  predicate Safe(s: Settings) {
    s.allowed == {} || SafeSettings(s.late, s.skew, s.lag, KeepMs(s))
  }

  // Nothing is deleted or rolled up beyond this point in time.
  function Horizon(w: World, s: Settings): int {
    Max(0, w.time - KeepMs(s))
  }

  ghost predicate Inv(w: World, batches: seq<seq<Trade>>, s: Settings) {
    && S.JobInv(w.job, batches, s.delay)
    && P.Settled(w.db, w.job.table, w.frontier)
    && w.frontier.rolled <= Horizon(w, s)
  }

  lemma RecentTrade(t: Trade, records: seq<Record>, s: Settings, clock: int, at: int, time: int)
    requires Safe(s)
    requires t in ValidRows(records, s, clock) && clock <= at <= clock + s.lag && time <= at
    ensures Max(0, time - KeepMs(s)) <= KeyOf(t).start
  {
    hide SafeSettings, ValidRows, OnTime;
    ValidRowsGood(records, s, clock, t);
    SafeSettingsIff(s.late, s.skew, s.lag, KeepMs(s));
    assert WrittenAfterPurge(clock, at, time, s.lag);
    FloorMonotone(0, t.timeMs);
  }

  // A batch never writes a candle behind the horizon.
  lemma BatchWritesRecent(w: World, e: Action, s: Settings, k: Key)
    requires Safe(s)
    requires e.Batch? && Possible(w, e, s) && k in S.EmittedCandles(w.job.query, StepOf(e, s).b)
    ensures Horizon(w, s) <= k.start
  {
    hide Safe, ValidRows, S.Fresh, KeyOf, S.Schedules;
    var b := StepOf(e, s).b;
    S.FreshMembers(w.job.query, b.rows);
    var t :| t in S.Fresh(w.job.query, b.rows) && KeyOf(t) == k;
    RecentTrade(t, e.records, s, e.clock, e.at, w.time);
  }

  lemma StepIsOrderly(w: World, e: Action, batches: seq<seq<Trade>>, s: Settings)
    requires Safe(s)
    requires Inv(w, batches, s) && Possible(w, e, s)
    ensures P.Orderly(DbEvent(w, e, s), w.frontier)
  {
    hide S.JobInv, P.Settled, Safe, ValidRows, Horizon;
    if e.Batch? {
      forall k | k in S.EmittedCandles(w.job.query, StepOf(e, s).b)
        ensures w.frontier.rolled <= k.start
      {
        BatchWritesRecent(w, e, s, k);
      }
    }
  }

  lemma StepInv(w: World, e: Action, batches: seq<seq<Trade>>, s: Settings)
    requires Safe(s)
    requires Inv(w, batches, s) && Possible(w, e, s)
    ensures Inv(Next(w, e, s), BatchesWith(batches, e, s), s)
  {
    hide S.JobInv, P.Apply, P.Folded, P.Tiles, R.From, Safe, ValidRows;
    StepIsOrderly(w, e, batches, s);
    if e.Batch? {
      S.StepInv(w.job, StepOf(e, s), batches, s.delay);
    }
    P.SettledStep(w.db, w.job.table, w.frontier, DbEvent(w, e, s));
  }

  lemma {:induction false} RunInv(w: World, es: seq<Action>, batches: seq<seq<Trade>>, s: Settings)
    requires Safe(s)
    requires Inv(w, batches, s) && Runs(w, es, s)
    ensures Inv(Exec(w, es, s), CommittedRows(batches, es, s), s)
    decreases |es|
  {
    hide Inv, Next, Possible, Safe, BatchesWith;
    if es != [] {
      StepInv(w, es[0], batches, s);
      RunInv(Next(w, es[0], s), es[1..], BatchesWith(batches, es[0], s), s);
    }
  }

  lemma Started(s: Settings)
    ensures Inv(INITIAL_WORLD, [], s)
  {
    hide S.JobInv, P.Settled;
    S.StartedInv(s.delay);
    P.StartSettled();
  }

  // ---------- purges at any cutoff see final values ----------

  lemma {:induction false} FinalBelow(w: World, es: seq<Action>, s: Settings, c: int, k: Key)
    requires Safe(s)
    requires Runs(w, es, s) && c <= Horizon(w, s) && k.start < c
    ensures Get(Exec(w, es, s).job.table, k) == Get(w.job.table, k)
    decreases |es|
  {
    hide Safe, StepOf, P.Apply, P.Move;
    if es != [] {
      var e := es[0];
      if e.Batch? && k in S.EmittedCandles(w.job.query, StepOf(e, s).b) {
        BatchWritesRecent(w, e, s, k);
      }
      FinalBelow(Next(w, e, s), es[1..], s, c, k);
    }
  }

  // With safe settings and any cutoffs: while a purge is open, however many upserts have slipped
  // in, the daily table is what its rollup would write now, so what it deletes is what it rolled
  // up; and no candle behind its cutoff is ever written again, so these were final values.
  lemma {:induction false} PurgesSeeFinalValues(es: seq<Action>, later: seq<Action>, s: Settings)
    requires Safe(s)
    requires Runs(INITIAL_WORLD, es, s) && Runs(Exec(INITIAL_WORLD, es, s), later, s)
    requires Exec(INITIAL_WORLD, es, s).db.open.Some?
    ensures var w := Exec(INITIAL_WORLD, es, s);
      var purge := w.db.open.value;
      && w.db.daily == R.Summarized(w.db.candles, purge.saved, purge.cutoff)
      && forall k: Key :: k.start < purge.cutoff ==> Get(Exec(w, later, s).job.table, k) == Get(w.job.table, k)
  {
    hide Safe, Exec, Runs, S.JobInv, P.Folded, P.Tiles, R.Summarized;
    Started(s);
    RunInv(INITIAL_WORLD, es, [], s);
    var w := Exec(INITIAL_WORLD, es, s);
    P.OpenPurgeCoherent(w.db, w.job.table, w.frontier);
    forall k: Key | k.start < w.db.open.value.cutoff
      ensures Get(Exec(w, later, s).job.table, k) == Get(w.job.table, k)
    {
      FinalBelow(w, later, s, w.db.open.value.cutoff, k);
    }
  }

  // ---------- the settings are exact ----------

  // A candle was written, and now neither it nor a daily row of its day is there.
  ghost predicate Vanished(w: World, k: Key) {
    k in w.job.table && k !in w.db.candles && GroupOf(k) !in w.db.daily
  }

  // No run loses a candle without a trace.
  ghost predicate NothingVanishes(s: Settings) {
    forall es, k :: Runs(INITIAL_WORLD, es, s) && Exec(INITIAL_WORLD, es, s).db.open.None? ==>
      !Vanished(Exec(INITIAL_WORLD, es, s), k)
  }

  lemma CutHasRow(w: World, k: Key)
    requires P.Settled(w.db, w.job.table, w.frontier) && w.db.open.None?
    ensures !Vanished(w, k)
  {
    hide P.Folded;
    if k in w.job.table && k !in w.db.candles {
      P.TilesCover(w.frontier.cuts, 0, w.frontier.deleted, k);
      var i :| 0 <= i < |w.frontier.cuts| && P.InCut(w.frontier.cuts[i], k);
      assert k in P.Between(w.job.table, w.frontier.cuts[i]);
      assert P.Touches(w.job.table, w.frontier.cuts[i], GroupOf(k));
      P.LastCutWins(w.job.table, w.frontier.cuts, GroupOf(k));
    }
  }

  lemma {:induction false} SafeLosesNothing(es: seq<Action>, s: Settings, k: Key)
    requires Safe(s) && Runs(INITIAL_WORLD, es, s) && Exec(INITIAL_WORLD, es, s).db.open.None?
    ensures !Vanished(Exec(INITIAL_WORLD, es, s), k)
  {
    hide Safe, Exec, Runs, S.JobInv, P.Settled, Vanished;
    Started(s);
    RunInv(INITIAL_WORLD, es, [], s);
    CutHasRow(Exec(INITIAL_WORLD, es, s), k);
  }

  // One sale of one unit of the symbol.
  function OneSale(symbol: string, t: int): Record {
    Record("id", TradeEvent(symbol, Numeral(1.0), Numeral(1.0), t), None)
  }

  lemma OneIsExact()
    ensures PriceFieldOk(Numeral(1.0)) && QuantityFieldOk(Numeral(1.0))
  {
    hide CastPositive, CastNonNegative, Vanishes, Overflows;
    OneFits(20, 8);
    OneFits(38, 12);
    PriceDisagreement(1.0, 20, 8);
    QuantityDisagreement(1.0, 38, 12);
  }

  lemma OneFits(precision: nat, scale: nat)
    requires scale < precision
    ensures !Vanishes(1.0, scale) && !Vanishes(-1.0, scale) && !Overflows(1.0, precision, scale)
  {
    hide RoundHalfUp, Pow10;
    AtLeastOne(scale);
    AtLeastOne(precision - scale);
    RoundError(1.0, scale);
    HalfUnit(Pow10(scale));
  }

  lemma HalfUnit(p: real)
    requires p >= 1.0
    ensures 0.5 / p <= 0.5
  {
    DivideBounds(0.0, 0.5, 0.5, p);
  }

  lemma {:induction false} AtLeastOne(s: nat)
    ensures Pow10(s) >= 1.0
    ensures s > 0 ==> Pow10(s) >= 10.0
  {
    if s > 0 {
      AtLeastOne(s - 1);
    }
  }

  lemma OneValidRow(s: Settings, symbol: string, t: int, clock: int)
    requires symbol in s.allowed && OnTime(t, clock, s.late, s.skew)
    ensures ValidRows([OneSale(symbol, t)], s, clock) == [ToTrade(OneSale(symbol, t))]
  {
    hide SparkCode, ToTrade, PriceFieldOk, QuantityFieldOk;
    OneIsExact();
    SparkTwoValued(OneSale(symbol, t).event, ConfigOf(s), NowMs(clock));
    assert [OneSale(symbol, t)][1..] == [];
  }

  lemma OneFresh(t: Trade)
    requires t.timeMs > 0
    ensures S.Fresh(S.INITIAL_JOB.query, [t]) == [t] && Keys([t]) == {KeyOf(t)}
  {
    assert [t][1..] == [];
    assert Select([t], After(0)) == [t];
    assert DedupFrom([t], {}) == [t];
    assert S.INITIAL_JOB.query == S.Query(0, {}, map[]);
    assert forall u :: u in [t] <==> u == t;
    assert t in [t];
  }

  // The batch that writes the sale, right after a purge has opened on the empty tables.
  function SaleBatch(symbol: string, t: int, clock: int, at: int, plans: map<Key, Plan>): Action {
    Batch([OneSale(symbol, t)], plans, clock, at, true)
  }

  lemma SaleEnabled(s: Settings, symbol: string, t: int, clock: int, at: int) returns (e: Action)
    requires symbol in s.allowed && OnTime(t, clock, s.late, s.skew)
    ensures e.Batch? && e.clock == clock && e.at == at && e.commits
    ensures S.Enabled(S.INITIAL_JOB, StepOf(e, s))
    ensures S.EmittedCandles(S.INITIAL_JOB.query, StepOf(e, s).b).Keys == {Key(symbol, FloorToMinute(t))}
  {
    hide S.JobInv, S.PlainBatch, S.Schedules, ValidRows;
    var sale := ToTrade(OneSale(symbol, t));
    OneValidRow(s, symbol, t, clock);
    OneFresh(sale);
    S.StartedInv(s.delay);
    S.NeverStuck(S.INITIAL_JOB, [], [sale], s.delay);
    var plain := S.PlainBatch(S.INITIAL_JOB.query, [sale]);
    assert plain.rows == [sale] by { PlainRows(S.INITIAL_JOB.query, [sale]); }
    e := SaleBatch(symbol, t, clock, at, plain.plans);
    assert StepOf(e, s) == S.Commit(plain);
  }

  lemma PlainRows(q: S.Query, rows: seq<Trade>)
    ensures S.PlainBatch(q, rows).rows == rows
  {
  }

  lemma EmptyRollup(c: int)
    ensures R.Summarized(map[], map[], c) == map[]
  {
  }

  // A purge opened on the initial tables at cutoff c, a batch that writes candle k behind it, and
  // the end of the purge.
  lemma LostBetween(s: Settings, now: int, at: int, e: Action, k: Key)
    requires e.Batch? && e.at == at && e.commits && now <= at && 0 <= at && e.clock <= at <= e.clock + s.lag
    requires S.Enabled(S.INITIAL_JOB, StepOf(e, s))
    requires S.EmittedCandles(S.INITIAL_JOB.query, StepOf(e, s).b).Keys == {k}
    requires k.start < Cutoff(now, s.keepDays)
    ensures var es := [BeginPurge(now, at), e, EndPurge(at)];
      Runs(INITIAL_WORLD, es, s) && Exec(INITIAL_WORLD, es, s).db.open.None? && Vanished(Exec(INITIAL_WORLD, es, s), k)
  {
    hide S.Enabled, S.EmittedCandles, StepOf, Cutoff, R.Summarized, S.NextQuery;
    var begin, end := BeginPurge(now, at), EndPurge(at);
    var es := [begin, e, end];
    EmptyRollup(Cutoff(now, s.keepDays));
    var w1 := Next(INITIAL_WORLD, begin, s);
    assert w1.job == S.INITIAL_JOB && w1.db == P.Db(map[], map[], Some(P.Txn(Cutoff(now, s.keepDays), map[])));
    assert Possible(w1, e, s);
    var w2 := Next(w1, e, s);
    assert Possible(w2, end, s);
    var w3 := Next(w2, end, s);
    assert es[1..] == [e, end] && es[1..][1..] == [end] && es[1..][1..][1..] == [];
    assert Runs(w3, [], s) && Runs(w2, [end], s) && Runs(w1, [e, end], s);
    assert Exec(w3, [], s) == w3 && Exec(w2, [end], s) == w3 && Exec(w1, [e, end], s) == w3;
  }

  // With any other settings a purge, a batch between its statements and its end lose a candle.
  lemma LosingRun(s: Settings, symbol: string) returns (es: seq<Action>, k: Key)
    requires symbol in s.allowed && !SafeSettings(s.late, s.skew, s.lag, KeepMs(s))
    ensures |es| == 3 && es[0].BeginPurge? && es[1].Batch? && es[2].EndPurge?
    ensures Runs(INITIAL_WORLD, es, s) && Exec(INITIAL_WORLD, es, s).db.open.None?
    ensures Vanished(Exec(INITIAL_WORLD, es, s), k)
  {
    hide Runs, Exec, Vanished, S.EmittedCandles, StepOf;
    var t, clock, at, now := TightSchedule(s.late, s.skew, s.lag);
    FloorMonotone(0, t);
    k := Key(symbol, FloorToMinute(t));
    var e := SaleEnabled(s, symbol, t, clock, at);
    LostBetween(s, now, at, e, k);
    es := [BeginPurge(now, at), e, EndPurge(at)];
  }

  // Interleaved upserts lose nothing, for every run, if and only if the settings meet the bound
  // (or no symbol is configured).
  lemma {:induction false} SafeExactly(s: Settings)
    ensures NothingVanishes(s) <==> Safe(s)
  {
    hide Runs, Exec, Vanished, SafeSettings;
    if Safe(s) {
      forall es, k | Runs(INITIAL_WORLD, es, s) && Exec(INITIAL_WORLD, es, s).db.open.None?
        ensures !Vanished(Exec(INITIAL_WORLD, es, s), k)
      {
        SafeLosesNothing(es, s, k);
      }
    } else {
      var symbol :| symbol in s.allowed;
      var es, k := LosingRun(s, symbol);
    }
  }

  // keep_days = 0, or less, loses candles as soon as any symbol is configured; with the other
  // defaults and keep_days = 1 it takes a write lag of more than 84 540 001 ms.
  lemma KeepDaysZeroLoses(s: Settings)
    ensures s.keepDays <= 0 && s.allowed != {} ==> !NothingVanishes(s)
    ensures s.keepDays == 1 && s.late == ResolveLateAfterMs(30) && s.skew == DAY && s.allowed != {} ==>
      (NothingVanishes(s) <==> s.lag <= 84540001)
  {
    hide NothingVanishes;
    SafeExactly(s);
  }

  // ---------- the refinement ----------

  // The trades a run has accepted.
  function AcceptedBy(w: World, es: seq<Action>, s: Settings): seq<Trade> {
    S.Visible(CommittedRows([], es, s), w.job.pending, s.delay)
  }

  // The trades of a day that fall into a cut by their minute.
  function DayIn(ts: seq<Trade>, c: P.Cut, g: Group): seq<Trade> {
    Select(Select(ts, Within(c.lo, c.hi)), Daily(g))
  }

  ghost predicate LastWith(ts: seq<Trade>, cuts: seq<P.Cut>, g: Group, i: int)
    requires 0 <= i < |cuts|
  {
    DayIn(ts, cuts[i], g) != [] && forall j :: i < j < |cuts| ==> DayIn(ts, cuts[j], g) == []
  }

  // The row of a day aggregates exactly its trades in the last cut that held any of them; a day
  // with no trade in a cut has no row.
  ghost predicate RowsOf(daily: R.DailyTable, ts: seq<Trade>, cuts: seq<P.Cut>) {
    && (forall g :: g in daily <==> exists i :: 0 <= i < |cuts| && DayIn(ts, cuts[i], g) != [])
    && (forall g, i :: 0 <= i < |cuts| && LastWith(ts, cuts, g, i) ==>
          DayIn(ts, cuts[i], g) != [] && g in daily && daily[g] == DayRow(DayIn(ts, cuts[i], g)))
  }

  // The candles are those of exactly the windows with trades from the cutoff on, and describe all
  // trades of the window.
  ghost predicate CandlesOf(candles: R.CandleTable, ts: seq<Trade>, cutoff: int) {
    && (forall k :: k in candles <==> k in Keys(ts) && cutoff <= k.start)
    && (forall k :: k in candles ==> IsCandle(candles[k], Select(ts, Window(k))))
  }

  // The candles of a cut are those of its trades.
  lemma CutTable(m: R.CandleTable, ts: seq<Trade>, c: P.Cut)
    requires S.TableOf(m, ts)
    ensures S.TableOf(P.Between(m, c), Select(ts, Within(c.lo, c.hi)))
  {
    hide S.TableOf;
    PartOfTable(m, ts, P.Between(m, c), Within(c.lo, c.hi));
  }

  lemma CutRow(m: R.CandleTable, ts: seq<Trade>, c: P.Cut, g: Group)
    requires S.TableOf(m, ts)
    ensures P.Touches(m, c, g) <==> DayIn(ts, c, g) != []
    ensures P.Touches(m, c, g) ==>
      R.Part(P.Between(m, c), g) != map[] && R.Rollup(R.Part(P.Between(m, c), g)) == DayRow(DayIn(ts, c, g))
  {
    hide S.TableOf, Select, P.Between, R.Part, R.Rollup, DayRow, R.GroupsOf, Groups;
    var taken := Select(ts, Within(c.lo, c.hi));
    CutTable(m, ts, c);
    SameKeys(P.Between(m, c), taken);
    GroupsOfTable(P.Between(m, c), taken);
    DailyNonEmpty(taken, g);
    if P.Touches(m, c, g) {
      RollupIsDayRow(P.Between(m, c), taken, g);
    }
  }

  lemma SameKeys(m: R.CandleTable, ts: seq<Trade>)
    requires S.TableOf(m, ts)
    ensures m.Keys == Keys(ts)
  {
  }

  lemma RetiredRows(m: R.CandleTable, ts: seq<Trade>, cuts: seq<P.Cut>)
    requires S.TableOf(m, ts)
    ensures RowsOf(P.Folded(m, cuts), ts, cuts)
  {
    hide S.TableOf, DayIn, P.Between, R.Part, R.Rollup, DayRow, P.Touches, P.Folded;
    forall g, i | 0 <= i < |cuts|
      ensures P.Touches(m, cuts[i], g) <==> DayIn(ts, cuts[i], g) != []
      ensures P.Touches(m, cuts[i], g) ==>
        R.Part(P.Between(m, cuts[i]), g) != map[] && R.Rollup(R.Part(P.Between(m, cuts[i]), g)) == DayRow(DayIn(ts, cuts[i], g))
    {
      CutRow(m, ts, cuts[i], g);
    }
    forall g { P.LastCutWins(m, cuts, g); }
    forall g, i | 0 <= i < |cuts| && LastWith(ts, cuts, g, i)
      ensures P.LastTouch(m, cuts, g, i)
    {
    }
  }

  // With safe settings and any cutoffs, whatever the batches, re-runs, schedules and
  // interleavings: between purges the daily row of a day holds the aggregates of exactly the
  // accepted trades of that day in the last committed cut that held any, and the candle table
  // holds exactly the candles of the trades behind which nothing has been deleted.
  lemma {:induction false} PipelineRows(es: seq<Action>, s: Settings)
    requires Safe(s) && Runs(INITIAL_WORLD, es, s)
    ensures var w := Exec(INITIAL_WORLD, es, s);
      w.db.open.None? ==>
        && P.Tiles(w.frontier.cuts, 0, w.frontier.deleted)
        && RowsOf(w.db.daily, AcceptedBy(w, es, s), w.frontier.cuts)
        && CandlesOf(w.db.candles, AcceptedBy(w, es, s), w.frontier.deleted)
  {
    hide S.TableOf, S.QueryInv, S.Visible, P.Folded, RowsOf, CandlesOf, CommittedRows, Exec, Runs, P.Tiles, R.From, Safe;
    Started(s);
    RunInv(INITIAL_WORLD, es, [], s);
    var w := Exec(INITIAL_WORLD, es, s);
    if w.db.open.None? {
      RetiredRows(w.job.table, AcceptedBy(w, es, s), w.frontier.cuts);
      LiveCandles(w.job.table, AcceptedBy(w, es, s), w.frontier.deleted);
    }
  }

  lemma LiveCandles(m: R.CandleTable, ts: seq<Trade>, cutoff: int)
    requires S.TableOf(m, ts)
    ensures CandlesOf(R.From(m, cutoff), ts, cutoff)
  {
    hide IsCandle;
  }

  // ---------- which records a run accepts ----------

  // The batches a run has run: those committed, and the last one if it has yet to commit.
  function AllRows(batches: seq<seq<Trade>>, pending: Option<seq<Trade>>): seq<seq<Trade>> {
    if pending.Some? then batches + [pending.value] else batches
  }

  // Position n of the batches holds the rows of action i, and before it are the commits before i.
  ghost predicate PlacedAt(all: seq<seq<Trade>>, batches: seq<seq<Trade>>, es: seq<Action>, s: Settings, i: int, n: int)
    requires 0 <= i < |es|
  {
    && es[i].Batch? && 0 <= n < |all| && all[n] == ValidRows(es[i].records, s, es[i].clock)
    && all[..n] == CommittedRows(batches, es[..i], s)
  }

  lemma PlacedFirst(all: seq<seq<Trade>>, batches: seq<seq<Trade>>, es: seq<Action>, s: Settings)
    requires es != [] && es[0].Batch? && |batches| < |all| && all[..|batches|] == batches
    requires all[|batches|] == ValidRows(es[0].records, s, es[0].clock)
    ensures PlacedAt(all, batches, es, s, 0, |batches|)
  {
    assert es[..0] == [];
  }

  lemma PlacedLater(all: seq<seq<Trade>>, batches: seq<seq<Trade>>, es: seq<Action>, s: Settings, i: int, n: int)
    requires 0 < i < |es| && PlacedAt(all, BatchesWith(batches, es[0], s), es[1..], s, i - 1, n)
    ensures PlacedAt(all, batches, es, s, i, n)
  {
    hide ValidRows, BatchesWith;
    assert es[..i][1..] == es[1..][..i - 1] && es[..i][0] == es[0];
  }

  lemma StepRows(w: World, e: Action, s: Settings)
    requires Possible(w, e, s)
    ensures var pending := Next(w, e, s).job.pending;
      if !e.Batch? then pending == w.job.pending
      else
        && (w.job.pending.Some? ==> w.job.pending.value == ValidRows(e.records, s, e.clock))
        && pending == if e.commits then None else Some(ValidRows(e.records, s, e.clock))
  {
    hide ValidRows, P.Apply, P.Move, S.EmittedCandles, S.NextQuery;
  }

  // The batches so far stay, and a pending one stays the next.
  lemma {:induction false} RowsStay(w: World, es: seq<Action>, batches: seq<seq<Trade>>, s: Settings)
    requires Runs(w, es, s)
    ensures var all := AllRows(CommittedRows(batches, es, s), Exec(w, es, s).job.pending);
      AllRows(batches, w.job.pending) <= all
    decreases |es|
  {
    hide Possible, Next, ValidRows;
    if es != [] {
      StepRows(w, es[0], s);
      RowsStay(Next(w, es[0], s), es[1..], BatchesWith(batches, es[0], s), s);
    }
  }

  lemma BatchFirst(w: World, es: seq<Action>, batches: seq<seq<Trade>>, s: Settings)
    requires Runs(w, es, s) && es != [] && es[0].Batch?
    ensures PlacedAt(AllRows(CommittedRows(batches, es, s), Exec(w, es, s).job.pending), batches, es, s, 0, |batches|)
  {
    hide Possible, Next, ValidRows, PlacedAt;
    StepRows(w, es[0], s);
    RowsStay(Next(w, es[0], s), es[1..], BatchesWith(batches, es[0], s), s);
    PlacedFirst(AllRows(CommittedRows(batches, es, s), Exec(w, es, s).job.pending), batches, es, s);
  }

  // Every batch that ran has its place, and every place belongs to one that did.
  lemma {:induction false} EveryBatchPlaced(w: World, es: seq<Action>, batches: seq<seq<Trade>>, s: Settings, i: int)
    returns (n: int)
    requires Runs(w, es, s) && 0 <= i < |es| && es[i].Batch?
    ensures PlacedAt(AllRows(CommittedRows(batches, es, s), Exec(w, es, s).job.pending), batches, es, s, i, n)
    decreases |es|
  {
    hide Possible, Next, ValidRows, PlacedAt, BatchesWith;
    if i == 0 {
      BatchFirst(w, es, batches, s);
      n := |batches|;
    } else {
      n := EveryBatchPlaced(Next(w, es[0], s), es[1..], BatchesWith(batches, es[0], s), s, i - 1);
      PlacedLater(AllRows(CommittedRows(batches, es, s), Exec(w, es, s).job.pending), batches, es, s, i, n);
    }
  }

  lemma {:induction false} EveryPlaceTaken(w: World, es: seq<Action>, batches: seq<seq<Trade>>, s: Settings, n: int)
    returns (i: int)
    requires Runs(w, es, s)
    requires |AllRows(batches, w.job.pending)| <= n < |AllRows(CommittedRows(batches, es, s), Exec(w, es, s).job.pending)|
    ensures 0 <= i < |es|
    ensures PlacedAt(AllRows(CommittedRows(batches, es, s), Exec(w, es, s).job.pending), batches, es, s, i, n)
    decreases |es|
  {
    hide Possible, Next, ValidRows, PlacedAt;
    var all := AllRows(CommittedRows(batches, es, s), Exec(w, es, s).job.pending);
    StepRows(w, es[0], s);
    if es[0].Batch? && n == |batches| {
      BatchFirst(w, es, batches, s);
      i := 0;
    } else {
      i := EveryPlaceTaken(Next(w, es[0], s), es[1..], BatchesWith(batches, es[0], s), s, n);
      i := i + 1;
      PlacedLater(all, batches, es, s, i, n);
    }
  }

  lemma {:induction false} CommitsOf(batches: seq<seq<Trade>>, es: seq<Action>, s: Settings, b: seq<Trade>)
    ensures b in CommittedRows(batches, es, s) <==>
      b in batches || exists i :: 0 <= i < |es| && es[i].Batch? && es[i].commits && b == ValidRows(es[i].records, s, es[i].clock)
    decreases |es|
  {
    hide ValidRows;
    if es != [] {
      CommitsOf(BatchesWith(batches, es[0], s), es[1..], s, b);
      if i :| 0 <= i < |es[1..]| && es[1..][i].Batch? && es[1..][i].commits && b == ValidRows(es[1..][i].records, s, es[1..][i].clock) {
        assert es[i + 1] == es[1..][i];
      }
      if i :| 0 <= i < |es| && es[i].Batch? && es[i].commits && b == ValidRows(es[i].records, s, es[i].clock) {
        assert i > 0 ==> es[1..][i - 1] == es[i];
      }
    }
  }

  // The record is less than the delay behind every valid record of the commits before action i.
  ghost predicate OnTimeAt(es: seq<Action>, s: Settings, i: int, r: Record)
    requires 0 <= i < |es|
  {
    forall k, u :: 0 <= k < i && es[k].Batch? && es[k].commits && u in es[k].records && IsValid(u, s, es[k].clock) ==>
      u.event.timeMs - s.delay < r.event.timeMs
  }

  lemma {:induction false} OnTimeRows(es: seq<Action>, s: Settings, i: int, r: Record)
    requires 0 <= i < |es| && 0 < r.event.timeMs
    ensures S.WatermarkAfter(CommittedRows([], es[..i], s), s.delay) < r.event.timeMs <==> OnTimeAt(es, s, i, r)
  {
    hide ValidRows, IsValid, Carries, S.WatermarkAfter, CommittedRows, S.Flatten;
    var done := CommittedRows([], es[..i], s);
    S.LateRule(done, Trade(r.eventId, r.event.symbol, 0.0, 0.0, None, r.event.timeMs), s.delay);
    if OnTimeAt(es, s, i, r) {
      forall t | t in S.Flatten(done)
        ensures t.timeMs - s.delay < r.event.timeMs
      {
        S.FlattenMembers(done, t);
        var b :| b in done && t in b;
        CommitsOf([], es[..i], s, b);
        var k :| 0 <= k < |es[..i]| && es[..i][k].Batch? && es[..i][k].commits && b == ValidRows(es[..i][k].records, s, es[..i][k].clock);
        ValidIds(es[k].records, s, es[k].clock, t);
        var u :| u in es[k].records && IsValid(u, s, es[k].clock) && Carries(t, u);
        SameTime(t, u);
      }
    } else {
      var k, u :| 0 <= k < i && es[k].Batch? && es[k].commits && u in es[k].records && IsValid(u, s, es[k].clock)
        && u.event.timeMs - s.delay >= r.event.timeMs;
      var b := ValidRows(es[k].records, s, es[k].clock);
      assert es[..i][k] == es[k];
      CommitsOf([], es[..i], s, b);
      var t := RowOf(es[k].records, s, es[k].clock, u);
      S.FlattenMembers(done, t);
    }
  }

  lemma SameTime(t: Trade, r: Record)
    requires Carries(t, r)
    ensures t.timeMs == r.event.timeMs && t.eventId == r.eventId
  {
  }

  lemma RowOf(records: seq<Record>, s: Settings, clock: int, r: Record) returns (t: Trade)
    requires r in records && IsValid(r, s, clock)
    ensures t in ValidRows(records, s, clock) && t.timeMs == r.event.timeMs && t.eventId == r.eventId
  {
    hide ValidRows, IsValid, Carries;
    ValidIds(records, s, clock, Trade("", "", 0.0, 0.0, None, 0));
    t :| t in ValidRows(records, s, clock) && Carries(t, r);
    SameTime(t, r);
  }

  // Record r of action i was valid, on time, and has the id.
  ghost predicate Brings(es: seq<Action>, s: Settings, i: int, r: Record, id: string) {
    && 0 <= i < |es| && es[i].Batch? && r in es[i].records && IsValid(r, s, es[i].clock)
    && r.eventId == id && OnTimeAt(es, s, i, r)
  }

  // The ids a run accepts are exactly those of its valid records that were on time, each once.
  lemma {:induction false} RunIds(es: seq<Action>, s: Settings, id: string)
    requires Runs(INITIAL_WORLD, es, s)
    ensures id in Ids(AcceptedBy(Exec(INITIAL_WORLD, es, s), es, s)) <==> exists i, r :: Brings(es, s, i, r, id)
    ensures DistinctIds(AcceptedBy(Exec(INITIAL_WORLD, es, s), es, s))
  {
    hide Runs, Exec, ValidRows, IsValid, Carries, OnTimeAt, S.WatermarkAfter, S.Accepted, DistinctIds, CommittedRows;
    var all := AllRows(CommittedRows([], es, s), Exec(INITIAL_WORLD, es, s).job.pending);
    S.AcceptedIds(all, s.delay, id);
    if n: int, t: Trade :| 0 <= n < |all| && t in all[n] && t.eventId == id && S.WatermarkAfter(all[..n], s.delay) < t.timeMs {
      var i := EveryPlaceTaken(INITIAL_WORLD, es, [], s, n);
      ValidIds(es[i].records, s, es[i].clock, t);
      var r :| r in es[i].records && IsValid(r, s, es[i].clock) && Carries(t, r);
      SameTime(t, r);
      PositiveTime(r, s, es[i].clock);
      OnTimeRows(es, s, i, r);
      assert Brings(es, s, i, r, id);
    }
    if i, r :| Brings(es, s, i, r, id) {
      var n := EveryBatchPlaced(INITIAL_WORLD, es, [], s, i);
      var t := RowOf(es[i].records, s, es[i].clock, r);
      PositiveTime(r, s, es[i].clock);
      OnTimeRows(es, s, i, r);
      assert t in all[n];
    }
  }

  lemma PositiveTime(r: Record, s: Settings, clock: int)
    requires IsValid(r, s, clock)
    ensures 0 < r.event.timeMs
  {
    hide IsValid;
    IsValidExactly(r, s, clock);
  }

  // Nothing is accepted that no batch brought.
  lemma {:induction false} AcceptedFrom(es: seq<Action>, s: Settings, t: Trade) returns (e: Action)
    requires Runs(INITIAL_WORLD, es, s) && t in AcceptedBy(Exec(INITIAL_WORLD, es, s), es, s)
    ensures e in es && e.Batch? && t in ValidRows(e.records, s, e.clock)
  {
    hide Runs, Exec, ValidRows, CommittedRows, S.Accepted;
    var all := AllRows(CommittedRows([], es, s), Exec(INITIAL_WORLD, es, s).job.pending);
    S.AcceptedMembers(all, s.delay, t);
    var b :| b in all && t in b;
    var n :| 0 <= n < |all| && all[n] == b;
    var i := EveryPlaceTaken(INITIAL_WORLD, es, [], s, n);
    e := es[i];
  }

  // ---------- conservation of volume ----------

  lemma AcceptedNonNegative(es: seq<Action>, s: Settings)
    requires Runs(INITIAL_WORLD, es, s)
    ensures NonNegative(AcceptedBy(Exec(INITIAL_WORLD, es, s), es, s))
  {
    hide Exec, Runs, AcceptedBy, ValidRows;
    forall t | t in AcceptedBy(Exec(INITIAL_WORLD, es, s), es, s)
      ensures t.quantity >= 0.0
    {
      var e := AcceptedFrom(es, s, t);
      ValidRowsGood(e.records, s, e.clock, t);
    }
  }

  // Two cuts hold trades of one day, with quantity in the earlier one.
  ghost predicate SplitsSales(ts: seq<Trade>, cuts: seq<P.Cut>) {
    exists i, j, t, u ::
      && 0 <= i < j < |cuts| && t in ts && u in ts
      && P.InCut(cuts[i], KeyOf(t)) && P.InCut(cuts[j], KeyOf(u))
      && TradeGroup(t) == TradeGroup(u) && t.quantity > 0.0
  }

  lemma WindowVolume(m: R.CandleTable, ts: seq<Trade>, k: Key)
    requires S.TableOf(m, ts) && NonNegative(ts) && k in m
    ensures m[k].volume >= 0.0
    ensures m[k].volume > 0.0 <==> exists t :: t in ts && KeyOf(t) == k && t.quantity > 0.0
  {
    hide IsCandle, KeyOf;
    WindowColumns(m, ts, k);
    SelectMembers(ts, Window(k));
    var w := Select(ts, Window(k));
    TotalNonNegative(Qty, w);
    if m[k].volume > 0.0 {
      var t :| t in w && Value(Qty, t) != 0.0;
    }
  }

  lemma SplitSold(m: R.CandleTable, ts: seq<Trade>, cuts: seq<P.Cut>, i: int, j: int, k: Key, l: Key)
    requires S.TableOf(m, ts) && NonNegative(ts)
    requires P.SplitDay(m, cuts, i, j, k, l) && m[k].volume > 0.0
    ensures SplitsSales(ts, cuts)
  {
    hide IsCandle, KeyOf, GroupOf, TradeGroup, P.InCut;
    WindowVolume(m, ts, k);
    var t :| t in ts && KeyOf(t) == k && t.quantity > 0.0;
    var u :| u in ts && KeyOf(u) == l;
    MinuteWithinDay(t);
    MinuteWithinDay(u);
  }

  lemma SoldSplit(m: R.CandleTable, ts: seq<Trade>, cuts: seq<P.Cut>, i: int, j: int, t: Trade, u: Trade)
    requires S.TableOf(m, ts) && NonNegative(ts)
    requires 0 <= i < j < |cuts| && t in ts && u in ts
    requires P.InCut(cuts[i], KeyOf(t)) && P.InCut(cuts[j], KeyOf(u))
    requires TradeGroup(t) == TradeGroup(u) && t.quantity > 0.0
    ensures P.SplitsVolume(m, cuts)
  {
    hide IsCandle, KeyOf, GroupOf, TradeGroup, P.InCut;
    MinuteWithinDay(t);
    MinuteWithinDay(u);
    WindowVolume(m, ts, KeyOf(t));
    assert P.SplitDay(m, cuts, i, j, KeyOf(t), KeyOf(u));
  }

  lemma {:induction false} SplitsAgree(m: R.CandleTable, ts: seq<Trade>, cuts: seq<P.Cut>)
    requires S.TableOf(m, ts) && NonNegative(ts)
    ensures P.SplitsVolume(m, cuts) <==> SplitsSales(ts, cuts)
  {
    hide S.TableOf, KeyOf, GroupOf, TradeGroup, P.InCut;
    if P.SplitsVolume(m, cuts) {
      var i, j, k, l :| P.SplitDay(m, cuts, i, j, k, l) && m[k].volume > 0.0;
      SplitSold(m, ts, cuts, i, j, k, l);
    }
    if SplitsSales(ts, cuts) {
      var i, j, t, u :| 0 <= i < j < |cuts| && t in ts && u in ts
        && P.InCut(cuts[i], KeyOf(t)) && P.InCut(cuts[j], KeyOf(u))
        && TradeGroup(t) == TradeGroup(u) && t.quantity > 0.0;
      SoldSplit(m, ts, cuts, i, j, t, u);
    }
  }

  // With safe settings and any cutoffs the two tables together hold the volume of all accepted
  // trades if and only if no two cuts hold trades of one day with quantity in the earlier one.
  lemma {:induction false} PipelineConservesIff(es: seq<Action>, s: Settings)
    requires Safe(s) && Runs(INITIAL_WORLD, es, s)
    ensures var w := Exec(INITIAL_WORLD, es, s);
      w.db.open.None? ==>
        && R.TotalVolume(w.db.candles, w.db.daily) <= Total(Qty, AcceptedBy(w, es, s))
        && (R.TotalVolume(w.db.candles, w.db.daily) == Total(Qty, AcceptedBy(w, es, s)) <==>
            !SplitsSales(AcceptedBy(w, es, s), w.frontier.cuts))
  {
    hide Exec, Runs, Safe;
    Started(s);
    RunInv(INITIAL_WORLD, es, [], s);
    AcceptedNonNegative(es, s);
    var w := Exec(INITIAL_WORLD, es, s);
    if w.db.open.None? {
      TablesConserveIff(w.job.table, AcceptedBy(w, es, s), w.frontier.cuts, w.frontier.deleted);
    }
  }

  lemma TablesConserveIff(m: R.CandleTable, ts: seq<Trade>, cuts: seq<P.Cut>, d: int)
    requires S.TableOf(m, ts) && NonNegative(ts) && P.Tiles(cuts, 0, d) && forall k :: k in m ==> 0 <= k.start
    ensures var kept := R.TotalVolume(R.From(m, d), P.Folded(m, cuts));
      kept <= Total(Qty, ts) && (kept == Total(Qty, ts) <==> !SplitsSales(ts, cuts))
  {
    hide S.TableOf, R.TotalVolume, R.From, P.Folded, Sum, SplitsSales, P.SplitsVolume, P.Tiles, P.Survives, P.Taken;
    forall k | k in m
      ensures m[k].volume >= 0.0
    {
      WindowVolume(m, ts, k);
    }
    TableVolume(m, ts);
    P.LedgerBalance(m, cuts, d);
    P.NothingLostIff(m, cuts, d);
    SplitsAgree(m, ts, cuts);
    SumNonNegative(R.Volumes(P.Lost(m, cuts)));
  }

  // ---------- against the reference summary ----------

  // The reference writes 0 for the vwap of a day without volume.
  predicate ReadsAs(row: R.DailyRow, ref: RefDaily) {
    && row.totalVolume == ref.totalVolume && row.high == ref.high && row.low == ref.low
    && row.vwap == (if ref.totalVolume > 0.0 then Some(ref.vwap) else None)
  }

  // The quotes of a day with volume sum to price times quantity.
  predicate QuotesAddUp(day: seq<Trade>) {
    Total(Qty, day) > 0.0 ==> HasQuote(day) && Total(Quote, day) == Total(Notional, day)
  }

  lemma ReadsAsIff(day: seq<Trade>)
    requires day != []
    ensures ReadsAs(DayRow(day), RefSummary(day)) <==> QuotesAddUp(day)
  {
    hide Total, HasQuote, MaxPrice, MinPrice;
    DayRowMatchesReference(day);
  }

  // So they do where each is exactly price * quantity.
  lemma ExactQuotesAddUp(day: seq<Trade>)
    requires day != [] && ExactQuotes(day)
    ensures QuotesAddUp(day)
  {
    hide Total, HasQuote, Value, ExactQuotes;
    ExactQuotesTotal(day);
  }

  // At any cutoffs, a daily row reads as the reference summary of the trades it stands for, with
  // NULL for the vwap of a day without volume, if and only if their quotes add up.
  lemma {:induction false} RowMatchesReference(es: seq<Action>, s: Settings, g: Group, i: int)
    requires Safe(s) && Runs(INITIAL_WORLD, es, s) && Exec(INITIAL_WORLD, es, s).db.open.None?
    requires 0 <= i < |Exec(INITIAL_WORLD, es, s).frontier.cuts|
    requires LastWith(AcceptedBy(Exec(INITIAL_WORLD, es, s), es, s), Exec(INITIAL_WORLD, es, s).frontier.cuts, g, i)
    ensures var w := Exec(INITIAL_WORLD, es, s);
      var day := DayIn(AcceptedBy(w, es, s), w.frontier.cuts[i], g);
      && day != [] && g in w.db.daily && (ReadsAs(w.db.daily[g], RefSummary(day)) <==> QuotesAddUp(day))
      && var row, ref := w.db.daily[g], RefSummary(day);
         && row.totalVolume == ref.totalVolume && row.high == ref.high && row.low == ref.low
         && (row.totalVolume <= 0.0 ==> row.vwap == None)
         && (row.totalVolume > 0.0 ==>
               (row.vwap == Some(ref.vwap) <==> HasQuote(day) && Total(Quote, day) == Total(Notional, day)))
  {
    hide Safe, AcceptedBy, Exec, Runs, DayIn, DayRow, RefSummary, ReadsAs, QuotesAddUp, HasQuote, Total;
    PipelineRows(es, s);
    var w := Exec(INITIAL_WORLD, es, s);
    ReadsAsIff(DayIn(AcceptedBy(w, es, s), w.frontier.cuts[i], g));
    DayRowMatchesReference(DayIn(AcceptedBy(w, es, s), w.frontier.cuts[i], g));
  }

  // ---------- quotes as the producer writes them ----------

  // The producer writes price * quantity as the quote, on numerals the casts represent; the cast
  // then rounds the quote to 12 places.
  predicate HonestQuote(r: Record) {
    && r.event.price.Numeral? && r.event.quantity.Numeral? && ExactFields(r.event)
    && r.quoteQty == Some(Numeral(r.event.price.value * r.event.quantity.value))
    && QuantityDec(r.quoteQty).Some?
  }

  ghost predicate HonestRun(es: seq<Action>, s: Settings) {
    forall e, r :: e in es && e.Batch? && r in e.records && IsValid(r, s, e.clock) ==> HonestQuote(r)
  }

  lemma FixedPointRounds(v: real, precision: nat, scale: nat)
    requires scale <= precision && FixedPoint(v, precision, scale).Some?
    ensures FixedPoint(v, precision, scale) == Some(RoundHalfUp(v, scale))
  {
    hide RoundHalfUp, Pow10, Abs;
  }

  lemma HonestTrade(r: Record)
    requires HonestQuote(r)
    ensures ToTrade(r).quoteQty == Some(RoundHalfUp(Value(Notional, ToTrade(r)), 12))
  {
    hide RoundHalfUp, FixedPoint;
    var p, q := r.event.price.value, r.event.quantity.value;
    assert PriceDec(Some(r.event.price)) == Some(p) && QuantityDec(Some(r.event.quantity)) == Some(q);
    assert ToTrade(r).price == p && ToTrade(r).quantity == q;
    var quote := r.quoteQty.value.value;
    assert Value(Notional, ToTrade(r)) == quote;
    assert ToTrade(r).quoteQty == FixedPoint(quote, 38, 12);
    FixedPointRounds(quote, 38, 12);
  }

  lemma {:induction false} ValidRecord(records: seq<Record>, s: Settings, clock: int, t: Trade) returns (r: Record)
    requires t in ValidRows(records, s, clock)
    ensures r in records && IsValid(r, s, clock) && t == ToTrade(r)
  {
    hide IsValid, ToTrade;
    if IsValid(records[0], s, clock) && t == ToTrade(records[0]) {
      r := records[0];
    } else {
      r := ValidRecord(records[1..], s, clock, t);
    }
  }

  lemma AcceptedRounded(es: seq<Action>, s: Settings)
    requires Runs(INITIAL_WORLD, es, s) && HonestRun(es, s)
    ensures RoundedQuotes(AcceptedBy(Exec(INITIAL_WORLD, es, s), es, s), 12)
  {
    hide Exec, Runs, AcceptedBy, ValidRows, HonestQuote, IsValid, ToTrade, RoundHalfUp, Value;
    forall t | t in AcceptedBy(Exec(INITIAL_WORLD, es, s), es, s)
      ensures t.quoteQty == Some(RoundHalfUp(Value(Notional, t), 12))
    {
      var e := AcceptedFrom(es, s, t);
      var r := ValidRecord(e.records, s, e.clock, t);
      HonestTrade(r);
    }
  }

  lemma DayInRounded(ts: seq<Trade>, c: P.Cut, g: Group)
    requires RoundedQuotes(ts, 12)
    ensures RoundedQuotes(DayIn(ts, c, g), 12)
  {
    hide RoundHalfUp, Value, Select;
    SelectMembers(ts, Within(c.lo, c.hi));
    SelectMembers(Select(ts, Within(c.lo, c.hi)), Daily(g));
  }

  // Half a unit in the twelfth place per trade, over the volume.
  function RoundingBound(day: seq<Trade>): real
    requires Total(Qty, day) > 0.0
  {
    0.0000000000005 * |day| as real / Total(Qty, day)
  }

  lemma HalfUnitPerTrade(day: seq<Trade>)
    requires Total(Qty, day) > 0.0
    ensures (0.5 / Pow10(12)) * |day| as real / Total(Qty, day) == RoundingBound(day)
  {
    hide Pow10, Total;
    Powers();
    assert 0.5 / Pow10(12) == 0.0000000000005;
  }

  lemma RoundedDay(day: seq<Trade>)
    requires day != [] && RoundedQuotes(day, 12) && Total(Qty, day) > 0.0
    ensures DayRow(day).vwap.Some?
    ensures -RoundingBound(day) <= DayRow(day).vwap.value - RefSummary(day).vwap <= RoundingBound(day)
  {
    hide RoundedQuotes, DayRow, RefSummary, Total, Pow10, RoundingBound;
    VwapRoundingBound(day, 12);
    HalfUnitPerTrade(day);
  }

  // The vwap of every daily row with volume in a run of such records, at any cutoffs, is within that
  // bound of the reference vwap of the trades it stands for.
  lemma {:induction false} RowVwapBound(es: seq<Action>, s: Settings, g: Group, i: int)
    requires Safe(s) && Runs(INITIAL_WORLD, es, s) && HonestRun(es, s) && Exec(INITIAL_WORLD, es, s).db.open.None?
    requires 0 <= i < |Exec(INITIAL_WORLD, es, s).frontier.cuts|
    requires LastWith(AcceptedBy(Exec(INITIAL_WORLD, es, s), es, s), Exec(INITIAL_WORLD, es, s).frontier.cuts, g, i)
    ensures var w := Exec(INITIAL_WORLD, es, s);
      var day := DayIn(AcceptedBy(w, es, s), w.frontier.cuts[i], g);
      && day != [] && g in w.db.daily
      && (Total(Qty, day) > 0.0 ==>
            && w.db.daily[g].vwap.Some?
            && -RoundingBound(day) <= w.db.daily[g].vwap.value - RefSummary(day).vwap <= RoundingBound(day))
  {
    hide Safe, AcceptedBy, Exec, Runs, DayIn, DayRow, RefSummary, HonestRun, RoundedQuotes, Total, RoundingBound;
    PipelineRows(es, s);
    AcceptedRounded(es, s);
    var w := Exec(INITIAL_WORLD, es, s);
    var day := DayIn(AcceptedBy(w, es, s), w.frontier.cuts[i], g);
    DayInRounded(AcceptedBy(w, es, s), w.frontier.cuts[i], g);
    if Total(Qty, day) > 0.0 {
      RoundedDay(day);
    }
  }

  // ---------- cutoffs on midnight ----------

  // Every purge of the run has its cutoff on UTC midnight or within the minute before.
  predicate AlignedRun(es: seq<Action>, s: Settings) {
    forall e :: e in es && e.BeginPurge? ==> P.OnMidnight(Cutoff(e.now, s.keepDays))
  }

  // The daily rows are those of exactly the days with trades that start before the cutoff, and
  // aggregate all trades of the day.
  ghost predicate DaysOf(daily: R.DailyTable, ts: seq<Trade>, cutoff: int) {
    && (forall g :: g in daily <==> g in Groups(ts) && g.day * DAY < cutoff)
    && (forall g :: g in daily ==> Select(ts, Daily(g)) != [] && daily[g] == DayRow(Select(ts, Daily(g))))
  }

  lemma {:induction false} AlignedFrontier(w: World, es: seq<Action>, s: Settings)
    requires Runs(w, es, s) && AlignedRun(es, s) && P.AlignedFrontier(w.frontier)
    ensures P.AlignedFrontier(Exec(w, es, s).frontier)
    decreases |es|
  {
    hide P.Apply, P.Move, P.Enabled, P.OnMidnight, S.Enabled, S.EmittedCandles, S.Next, Cutoff;
    if es != [] {
      var e := es[0];
      assert e in es;
      P.AlignedMove(w.frontier, DbEvent(w, e, s));
      AlignedFrontier(Next(w, e, s), es[1..], s);
    }
  }

  // Behind a cutoff on midnight a day lies entirely or not at all.
  lemma DayWithin(d: int, g: Group, t: Trade)
    requires P.OnMidnight(d) && TradeGroup(t) == g && 0 <= g.day
    ensures Covers(Within(0, d), t) <==> g.day * DAY < d
  {
    hide P.OnMidnight;
    MinuteWithinDay(t);
    P.MidnightBound(d, g.day, KeyOf(t).start);
  }

  lemma WholeDay(ts: seq<Trade>, d: int, g: Group)
    requires P.OnMidnight(d) && (forall t :: t in ts ==> 0 <= KeyOf(t).start)
    ensures DayIn(ts, P.Cut(0, d), g) == if 0 <= g.day && g.day * DAY < d then Select(ts, Daily(g)) else []
    ensures g in Groups(ts) ==> 0 <= g.day
  {
    hide P.OnMidnight, Covers, TradeGroup, KeyOf;
    var taken := Select(ts, Within(0, d));
    SelectMembers(ts, Within(0, d));
    forall t | t in ts && TradeGroup(t) == g
      ensures 0 <= g.day
    {
      DayNotNegative(t);
    }
    if 0 <= g.day {
      forall t | TradeGroup(t) == g
        ensures Covers(Within(0, d), t) <==> g.day * DAY < d
      {
        DayWithin(d, g, t);
      }
    }
    WholeOrNothing(ts, d, g);
  }

  lemma DayNotNegative(t: Trade)
    requires 0 <= KeyOf(t).start
    ensures 0 <= TradeGroup(t).day
  {
    MinuteWithinDay(t);
  }

  lemma WholeOrNothing(ts: seq<Trade>, d: int, g: Group)
    requires forall t :: t in ts && TradeGroup(t) == g ==> 0 <= g.day
    requires 0 <= g.day ==> forall t :: TradeGroup(t) == g ==> (Covers(Within(0, d), t) <==> g.day * DAY < d)
    ensures DayIn(ts, P.Cut(0, d), g) == if 0 <= g.day && g.day * DAY < d then Select(ts, Daily(g)) else []
  {
    hide TradeGroup, KeyOf;
    var taken := Select(ts, Within(0, d));
    SelectMembers(ts, Within(0, d));
    if 0 <= g.day && g.day * DAY < d {
      SelectNested(ts, Within(0, d), Daily(g));
    } else {
      SelectNone(taken, Daily(g));
    }
  }

  lemma TableKeys(m: R.CandleTable, ts: seq<Trade>)
    requires m.Keys == Keys(ts)
    ensures P.MinuteKeys(m)
    ensures (forall k :: k in m ==> 0 <= k.start) ==> forall t :: t in ts ==> 0 <= KeyOf(t).start
  {
  }

  lemma OneCut(m: R.CandleTable, d: int)
    requires forall k :: k in m ==> 0 <= k.start
    ensures P.Folded(m, [P.Cut(0, d)]) == R.RollupAll(R.Before(m, d))
  {
    hide R.RollupAll;
    P.FoldedSnoc(m, [], P.Cut(0, d));
    assert [] + [P.Cut(0, d)] == [P.Cut(0, d)];
    assert P.Between(m, P.Cut(0, d)) == R.Before(m, d);
  }

  // Aligned cuts fold to the one rollup of everything behind the last of them.
  lemma AlignedFold(m: R.CandleTable, cuts: seq<P.Cut>, d: int)
    requires P.Aligned(cuts) && P.MinuteKeys(m) && P.Tiles(cuts, 0, d) && forall k :: k in m ==> 0 <= k.start
    ensures P.Folded(m, cuts) == P.Folded(m, [P.Cut(0, d)])
  {
    hide P.Aligned, P.MinuteKeys, P.Tiles, P.Folded, R.RollupAll, P.Survives, P.Taken;
    P.AlignedKeepsAll(m, cuts, d);
    P.FoldedIsRollup(m, cuts);
    OneCut(m, d);
  }

  lemma OneCutDays(daily: R.DailyTable, ts: seq<Trade>, d: int)
    requires RowsOf(daily, ts, [P.Cut(0, d)]) && P.OnMidnight(d) && forall t :: t in ts ==> 0 <= KeyOf(t).start
    ensures DaysOf(daily, ts, d)
  {
    hide P.OnMidnight, DayIn, KeyOf, Select, Groups, DayRow;
    var cuts := [P.Cut(0, d)];
    forall g
      ensures DayIn(ts, cuts[0], g) == if 0 <= g.day && g.day * DAY < d then Select(ts, Daily(g)) else []
      ensures g in Groups(ts) ==> 0 <= g.day
      ensures Select(ts, Daily(g)) != [] <==> g in Groups(ts)
      ensures LastWith(ts, cuts, g, 0) <==> DayIn(ts, cuts[0], g) != []
    {
      WholeDay(ts, d, g);
      DailyNonEmpty(ts, g);
    }
    forall g
      ensures g in daily <==> DayIn(ts, cuts[0], g) != []
    {
    }
  }

  // So with safe settings and every cutoff on midnight: between purges the daily table holds, for
  // exactly the days behind the frontier, the aggregates of all the trades accepted for that day,
  // and the candle table holds exactly the candles of the remaining trades.
  lemma {:induction false} PipelineRefinesReference(es: seq<Action>, s: Settings)
    requires Safe(s) && Runs(INITIAL_WORLD, es, s) && AlignedRun(es, s)
    ensures var w := Exec(INITIAL_WORLD, es, s);
      w.db.open.None? ==>
        && DaysOf(w.db.daily, AcceptedBy(w, es, s), w.frontier.deleted)
        && CandlesOf(w.db.candles, AcceptedBy(w, es, s), w.frontier.deleted)
  {
    hide IsCandle, P.Folded, RowsOf, DaysOf, CandlesOf, Exec, Runs, P.Tiles, P.OnMidnight, P.Aligned, Safe, AlignedRun;
    Started(s);
    RunInv(INITIAL_WORLD, es, [], s);
    PipelineRows(es, s);
    AlignedFrontier(INITIAL_WORLD, es, s) by { StartAligned(); }
    var w := Exec(INITIAL_WORLD, es, s);
    var m, ts, cuts, d := w.job.table, AcceptedBy(w, es, s), w.frontier.cuts, w.frontier.deleted;
    if w.db.open.None? {
      TableKeys(m, ts);
      AlignedFold(m, cuts, d);
      RetiredRows(m, ts, [P.Cut(0, d)]);
      OneCutDays(w.db.daily, ts, d);
    }
  }

  lemma StartAligned()
    ensures P.AlignedFrontier(INITIAL_WORLD.frontier)
  {
  }

  // A retired day then reads as the reference summary of all its accepted trades if and only if
  // their quotes add up.
  lemma {:induction false} PipelineMatchesReference(es: seq<Action>, s: Settings, g: Group)
    requires Safe(s) && Runs(INITIAL_WORLD, es, s) && AlignedRun(es, s)
    requires Exec(INITIAL_WORLD, es, s).db.open.None? && g in Exec(INITIAL_WORLD, es, s).db.daily
    ensures var w := Exec(INITIAL_WORLD, es, s);
      var day := Select(AcceptedBy(w, es, s), Daily(g));
      day != [] && (ReadsAs(w.db.daily[g], RefSummary(day)) <==> QuotesAddUp(day))
  {
    hide Safe, AcceptedBy, Exec, Runs, AlignedRun, QuotesAddUp, CandlesOf, ReadsAs, RefSummary, DayRow, Select;
    PipelineRefinesReference(es, s);
    ReadsAsIff(Select(AcceptedBy(Exec(INITIAL_WORLD, es, s), es, s), Daily(g)));
  }

  // No run gets stuck: any batch of records may come next (after a stop, the same records), and
  // so may a purge.
  lemma {:induction false} NeverStuck(w: World, batches: seq<seq<Trade>>, s: Settings,
                                      records: seq<Record>, clock: int, at: int, commits: bool)
    requires Inv(w, batches, s) && w.time <= at && clock <= at <= clock + s.lag
    requires w.job.pending.Some? ==> ValidRows(records, s, clock) == w.job.pending.value
    ensures Possible(w, Batch(records, S.PlainBatch(w.job.query, ValidRows(records, s, clock)).plans, clock, at, commits), s)
    ensures w.db.open.None? ==> forall now :: now <= at ==> Possible(w, BeginPurge(now, at), s)
    ensures w.db.open.Some? ==> Possible(w, EndPurge(at), s) && Possible(w, AbortPurge(at), s)
  {
    hide S.JobInv, P.Settled, ValidRows;
    S.NeverStuck(w.job, batches, ValidRows(records, s, clock), s.delay);
  }
}
