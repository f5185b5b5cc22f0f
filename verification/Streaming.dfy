// The candle query: micro-batches through watermark, stateful dedup, one-minute windows in
// update mode, and a keyed upsert, with batches that may be re-run before they commit.
module Streaming {
  import opened Options
  import opened Trades
  import opened Candles
  import opened Reference

  // Checkpointed state: the watermark, the ids seen, and the open window buffers.
  datatype Query = Query(watermark: int, seen: set<string>, windows: map<Key, Acc>)

  // The valid rows of one micro-batch, and how the engine evaluates each window they touch.
  datatype Batch = Batch(rows: seq<Trade>, plans: map<Key, Plan>)

  function WindowEnd(k: Key): int {
    k.start + MINUTE
  }

  // max(wm, latest event time - delay)
  function Advance(wm: int, rows: seq<Trade>, delay: nat): int
    decreases |rows|
  {
    if rows == [] then wm else Advance(Max(wm, rows[0].timeMs - delay), rows[1..], delay)
  }

  // dedup_and_watermark: rows at or behind the watermark are dropped, then ids already seen.
  function Fresh(q: Query, rows: seq<Trade>): seq<Trade> {
    DedupFrom(Select(rows, After(q.watermark)), q.seen)
  }

  ghost predicate GoodBuffers(q: Query) {
    forall k :: k in q.windows ==> q.windows[k].count > 0
  }

  ghost predicate PlansOk(q: Query, added: seq<Trade>, plans: map<Key, Plan>) {
    && plans.Keys == Keys(added)
    && forall k :: k in plans ==> PlanFor(plans[k], Get(q.windows, k), Select(added, Window(k)))
  }

  // Any engine schedule is allowed; it covers the windows touched by the batch and no others.
  ghost predicate Schedules(q: Query, b: Batch) {
    GoodBuffers(q) && PlansOk(q, Fresh(q, b.rows), b.plans)
  }

  function Evict(windows: map<Key, Acc>, wm: int): map<Key, Acc> {
    map k | k in windows && wm < WindowEnd(k) :: windows[k]
  }

  // The buffers of the touched windows after the batch: what update mode emits.
  ghost function Emitted(q: Query, b: Batch): (m: map<Key, Acc>)
    requires Schedules(q, b)
    ensures m.Keys == Keys(Fresh(q, b.rows))
    ensures forall k :: k in m ==> m[k].count > 0
  {
    map k | k in b.plans :: Eval(b.plans[k], Get(q.windows, k))
  }

  ghost function EmittedCandles(q: Query, b: Batch): (m: map<Key, Candle>)
    requires Schedules(q, b)
    ensures m.Keys == Keys(Fresh(q, b.rows))
  {
    var e := Emitted(q, b);
    map k | k in e :: Finish(e[k])
  }

  ghost function NextQuery(q: Query, b: Batch, delay: nat): Query
    requires Schedules(q, b)
  {
    Query(Advance(q.watermark, b.rows, delay),
          q.seen + Ids(Fresh(q, b.rows)),
          Evict(q.windows + Emitted(q, b), q.watermark))
  }

  // The query together with analytics.candles_1m. `pending` holds the rows of a batch whose
  // upsert may have happened but whose commit has not.
  datatype Job = Job(query: Query, table: map<Key, Candle>, pending: Option<seq<Trade>>)

  // Attempt: the upsert succeeds and the job stops before the batch is committed.
  datatype Step = Attempt(b: Batch) | Commit(b: Batch)

  const INITIAL_JOB := Job(Query(0, {}, map[]), map[], None)

  ghost predicate Enabled(job: Job, step: Step) {
    && Schedules(job.query, step.b)
    && (job.pending.Some? ==> step.b.rows == job.pending.value)
  }

  ghost function Next(job: Job, step: Step, delay: nat): Job
    requires Enabled(job, step)
  {
    var table := job.table + EmittedCandles(job.query, step.b);
    match step
    case Attempt(b) => Job(job.query, table, Some(b.rows))
    case Commit(b) => Job(NextQuery(job.query, b, delay), table, None)
  }

  ghost predicate Runs(job: Job, steps: seq<Step>, delay: nat)
    decreases |steps|
  {
    steps != [] ==> Enabled(job, steps[0]) && Runs(Next(job, steps[0], delay), steps[1..], delay)
  }

  ghost function Exec(job: Job, steps: seq<Step>, delay: nat): Job
    requires Runs(job, steps, delay)
    decreases |steps|
  {
    if steps == [] then job else Exec(Next(job, steps[0], delay), steps[1..], delay)
  }

  // ---------- what a run has accepted ----------

  function Flatten(batches: seq<seq<Trade>>): seq<Trade> {
    if batches == [] then [] else Flatten(batches[..|batches| - 1]) + batches[|batches| - 1]
  }

  function WatermarkAfter(batches: seq<seq<Trade>>, delay: nat): int {
    Advance(0, Flatten(batches), delay)
  }

  // The rows ahead of the watermark when their batch arrived.
  function Passed(batches: seq<seq<Trade>>, delay: nat): seq<Trade> {
    if batches == [] then []
    else
      var earlier := batches[..|batches| - 1];
      Passed(earlier, delay) + Select(batches[|batches| - 1], After(WatermarkAfter(earlier, delay)))
  }

  // One dedup over the whole history.
  function Accepted(batches: seq<seq<Trade>>, delay: nat): seq<Trade> {
    Dedup(Passed(batches, delay))
  }

  function Committed(steps: seq<Step>): seq<seq<Trade>> {
    if steps == [] then []
    else if steps[0].Commit? then [steps[0].b.rows] + Committed(steps[1..])
    else Committed(steps[1..])
  }

  function Visible(batches: seq<seq<Trade>>, pending: Option<seq<Trade>>, delay: nat): seq<Trade> {
    Accepted(if pending.Some? then batches + [pending.value] else batches, delay)
  }

  // Every row of the table is the candle of its window's trades, and no window is missing.
  ghost predicate TableOf(table: map<Key, Candle>, ts: seq<Trade>) {
    && table.Keys == Keys(ts)
    && forall k :: k in table ==> IsCandle(table[k], Select(ts, Window(k)))
  }

  // Open buffers describe their windows; a window without one is behind the watermark.
  ghost predicate WindowsOf(windows: map<Key, Acc>, wm: int, ts: seq<Trade>) {
    && (forall k :: k in windows ==> IsAcc(windows[k], Select(ts, Window(k))))
    && (forall k :: k in Keys(ts) && k !in windows ==> WindowEnd(k) <= wm)
  }

  ghost predicate QueryInv(q: Query, batches: seq<seq<Trade>>, delay: nat) {
    && q.watermark == WatermarkAfter(batches, delay)
    && q.seen == Ids(Passed(batches, delay))
    && WindowsOf(q.windows, q.watermark, Accepted(batches, delay))
  }

  ghost predicate JobInv(job: Job, batches: seq<seq<Trade>>, delay: nat) {
    && QueryInv(job.query, batches, delay)
    && TableOf(job.table, Visible(batches, job.pending, delay))
  }

  // ---------- one batch ----------

  lemma {:induction false} AdvanceBounds(wm: int, rows: seq<Trade>, delay: nat)
    ensures wm <= Advance(wm, rows, delay)
    ensures forall t :: t in rows ==> t.timeMs - delay <= Advance(wm, rows, delay)
    ensures Advance(wm, rows, delay) == wm || exists t :: t in rows && t.timeMs - delay == Advance(wm, rows, delay)
    decreases |rows|
  {
    if rows != [] {
      AdvanceBounds(Max(wm, rows[0].timeMs - delay), rows[1..], delay);
      assert rows == [rows[0]] + rows[1..];
    }
  }

  lemma {:induction false} AdvanceConcat(wm: int, a: seq<Trade>, b: seq<Trade>, delay: nat)
    ensures Advance(wm, a + b, delay) == Advance(Advance(wm, a, delay), b, delay)
    decreases |a|
  {
    if a == [] {
      assert a + b == b;
    } else {
      AdvanceConcat(Max(wm, a[0].timeMs - delay), a[1..], b, delay);
      assert (a + b)[1..] == a[1..] + b;
    }
  }

  // The watermark does not depend on how the rows were cut into batches.
  lemma WatermarkSnoc(batches: seq<seq<Trade>>, rows: seq<Trade>, delay: nat)
    ensures WatermarkAfter(batches + [rows], delay) == Advance(WatermarkAfter(batches, delay), rows, delay)
  {
    assert (batches + [rows])[..|batches|] == batches;
    AdvanceConcat(0, Flatten(batches), rows, delay);
  }

  // Stateful dedup of a new batch extends the one dedup of the whole history.
  lemma AcceptedSnoc(q: Query, batches: seq<seq<Trade>>, rows: seq<Trade>, delay: nat)
    requires q.watermark == WatermarkAfter(batches, delay)
    requires q.seen == Ids(Passed(batches, delay))
    ensures Accepted(batches + [rows], delay) == Accepted(batches, delay) + Fresh(q, rows)
    ensures Ids(Passed(batches + [rows], delay)) == q.seen + Ids(Fresh(q, rows))
  {
    var passed, more := Passed(batches, delay), Select(rows, After(q.watermark));
    assert (batches + [rows])[..|batches|] == batches;
    assert Passed(batches + [rows], delay) == passed + more;
    DedupConcat(passed, more, {});
    assert {} + Ids(passed) == q.seen;
    DedupFromIds(more, q.seen);
    assert Ids(passed + more) == Ids(passed) + Ids(more);
  }

  // A touched window is still open.
  lemma TouchedIsOpen(q: Query, rows: seq<Trade>, k: Key)
    requires k in Keys(Fresh(q, rows))
    ensures q.watermark < k.start + 60000
  {
    var more := Select(rows, After(q.watermark));
    DedupFromSubset(more, q.seen);
    SelectMembers(rows, After(q.watermark));
    var t :| t in Fresh(q, rows) && KeyOf(t) == k;
    assert t in more;
  }

  lemma EmittedSound(q: Query, b: Batch, ts: seq<Trade>, k: Key)
    requires Schedules(q, b) && WindowsOf(q.windows, q.watermark, ts)
    requires k in Keys(Fresh(q, b.rows))
    ensures IsAcc(Emitted(q, b)[k], Select(ts + Fresh(q, b.rows), Window(k)))
  {
    var added := Fresh(q, b.rows);
    TouchedIsOpen(q, b.rows, k);
    WindowNonEmpty(ts, k);
    SelectConcat(ts, added, Window(k));
    PlanSound(b.plans[k], Get(q.windows, k), Select(ts, Window(k)), Select(added, Window(k)));
  }

  lemma EmittedCandleSound(q: Query, b: Batch, ts: seq<Trade>, k: Key)
    requires Schedules(q, b) && WindowsOf(q.windows, q.watermark, ts)
    requires k in Keys(Fresh(q, b.rows))
    ensures IsCandle(EmittedCandles(q, b)[k], Select(ts + Fresh(q, b.rows), Window(k)))
  {
    EmittedSound(q, b, ts, k);
    FinishIsCandle(Emitted(q, b)[k], Select(ts + Fresh(q, b.rows), Window(k)));
  }

  lemma UntouchedWindow(ts: seq<Trade>, added: seq<Trade>, k: Key)
    requires k !in Keys(added)
    ensures Select(ts + added, Window(k)) == Select(ts, Window(k))
  {
    SelectConcat(ts, added, Window(k));
    WindowNonEmpty(added, k);
  }

  lemma KeysConcat(a: seq<Trade>, b: seq<Trade>)
    ensures Keys(a + b) == Keys(a) + Keys(b)
  {
  }

  // The upsert brings the table up to date, whether the batch is new or has been tried before.
  lemma {:induction false} UpsertSound(q: Query, b: Batch, ts: seq<Trade>, table: map<Key, Candle>, retried: bool)
    requires Schedules(q, b) && WindowsOf(q.windows, q.watermark, ts)
    requires TableOf(table, if retried then ts + Fresh(q, b.rows) else ts)
    ensures TableOf(table + EmittedCandles(q, b), ts + Fresh(q, b.rows))
  {
    hide IsCandle, Select, Fresh, Schedules, WindowsOf, Keys;
    var added := Fresh(q, b.rows);
    KeysConcat(ts, added);
    forall k | k in Keys(ts + added)
      ensures IsCandle((table + EmittedCandles(q, b))[k], Select(ts + added, Window(k)))
    {
      if k in Keys(added) {
        EmittedCandleSound(q, b, ts, k);
      } else {
        UntouchedWindow(ts, added, k);
      }
    }
  }

  lemma EvictSound(q: Query, b: Batch, ts: seq<Trade>, wm: int)
    requires Schedules(q, b) && WindowsOf(q.windows, q.watermark, ts) && q.watermark <= wm
    ensures WindowsOf(Evict(q.windows + Emitted(q, b), q.watermark), wm, ts + Fresh(q, b.rows))
  {
    var added := Fresh(q, b.rows);
    KeysConcat(ts, added);
    forall k | k in q.windows + Emitted(q, b)
      ensures IsAcc((q.windows + Emitted(q, b))[k], Select(ts + added, Window(k)))
    {
      if k in Keys(added) {
        EmittedSound(q, b, ts, k);
      } else {
        UntouchedWindow(ts, added, k);
      }
    }
  }

  lemma CommitQuery(q: Query, b: Batch, batches: seq<seq<Trade>>, delay: nat)
    requires QueryInv(q, batches, delay) && Schedules(q, b)
    ensures QueryInv(NextQuery(q, b, delay), batches + [b.rows], delay)
  {
    WatermarkSnoc(batches, b.rows, delay);
    AcceptedSnoc(q, batches, b.rows, delay);
    AdvanceBounds(q.watermark, b.rows, delay);
    EvictSound(q, b, Accepted(batches, delay), Advance(q.watermark, b.rows, delay));
  }

  // After a batch the open windows are exactly those whose end is still ahead of the watermark
  // the batch ran under.
  lemma {:induction false} OpenWindowsExactly(q: Query, b: Batch, batches: seq<seq<Trade>>, delay: nat, k: Key)
    requires QueryInv(q, batches, delay) && Schedules(q, b)
    ensures k in NextQuery(q, b, delay).windows
       <==> k in Keys(Accepted(batches + [b.rows], delay)) && q.watermark < k.start + 60000
  {
    AcceptedSnoc(q, batches, b.rows, delay);
    KeysConcat(Accepted(batches, delay), Fresh(q, b.rows));
    if k in q.windows {
      WindowNonEmpty(Accepted(batches, delay), k);
    }
  }

  function History(batches: seq<seq<Trade>>, step: Step): seq<seq<Trade>> {
    if step.Commit? then batches + [step.b.rows] else batches
  }

  lemma StepInv(job: Job, step: Step, batches: seq<seq<Trade>>, delay: nat)
    requires JobInv(job, batches, delay) && Enabled(job, step)
    ensures JobInv(Next(job, step, delay), History(batches, step), delay)
    ensures Visible(History(batches, step), Next(job, step, delay).pending, delay)
         == Accepted(batches, delay) + Fresh(job.query, step.b.rows)
    ensures Visible(batches, job.pending, delay) == Accepted(batches, delay)
         || Visible(batches, job.pending, delay) == Accepted(batches, delay) + Fresh(job.query, step.b.rows)
  {
    hide WindowsOf, TableOf, Fresh, Accepted, Passed, WatermarkAfter, Ids, Schedules, EmittedCandles, NextQuery;
    AcceptedSnoc(job.query, batches, step.b.rows, delay);
    UpsertSound(job.query, step.b, Accepted(batches, delay), job.table, job.pending.Some?);
    if step.Commit? {
      CommitQuery(job.query, step.b, batches, delay);
    }
  }

  lemma CommittedCons(steps: seq<Step>, batches: seq<seq<Trade>>)
    ensures steps == [] ==> batches + Committed(steps) == batches
    ensures steps != [] ==> batches + Committed(steps) == History(batches, steps[0]) + Committed(steps[1..])
  {
  }

  lemma {:induction false} RunInv(job: Job, steps: seq<Step>, batches: seq<seq<Trade>>, delay: nat)
    requires JobInv(job, batches, delay) && Runs(job, steps, delay)
    ensures JobInv(Exec(job, steps, delay), batches + Committed(steps), delay)
    decreases |steps|
  {
    hide JobInv, Next, Enabled, Committed, History;
    CommittedCons(steps, batches);
    if steps != [] {
      StepInv(job, steps[0], batches, delay);
      RunInv(Next(job, steps[0], delay), steps[1..], History(batches, steps[0]), delay);
    }
  }

  // ---------- the refinement ----------

  // Every row is the reference candle of its window up to the price of a tie, and exactly the
  // reference candle where the ends of the window agree.
  ghost predicate MatchesReference(table: map<Key, Candle>, ts: seq<Trade>) {
    forall k :: k in table ==>
      && var w := Select(ts, Window(k));
      && w != []
      && SameButTies(table[k], WithSqlQuote(RefCandle(w), w))
      && (EndsAgree(w) ==> table[k] == WithSqlQuote(RefCandle(w), w))
  }

  lemma CandlesMatchReference(table: map<Key, Candle>, ts: seq<Trade>)
    requires TableOf(table, ts)
    ensures MatchesReference(table, ts)
  {
    hide IsCandle, EndsAgree, RefCandle, SameButTies;
    forall k | k in table
      ensures var w := Select(ts, Window(k));
        && w != []
        && SameButTies(table[k], WithSqlQuote(RefCandle(w), w))
        && (EndsAgree(w) ==> table[k] == WithSqlQuote(RefCandle(w), w))
    {
      var w := Select(ts, Window(k));
      WindowNonEmpty(ts, k);
      RefIsCandle(w);
      RefIsOnlyCandle(w);
      CandleColumns(table[k], WithSqlQuote(RefCandle(w), w), w);
    }
  }

  // For every split of every trade sequence into batches, every engine schedule and every
  // pattern of re-runs: the upserted table holds exactly the candles of the trades accepted.
  lemma {:induction false} StreamRefinesReference(steps: seq<Step>, delay: nat)
    requires Runs(INITIAL_JOB, steps, delay)
    ensures var job := Exec(INITIAL_JOB, steps, delay);
      TableOf(job.table, Visible(Committed(steps), job.pending, delay))
  {
    hide TableOf;
    StartedInv(delay);
    RunInv(INITIAL_JOB, steps, [], delay);
    assert [] + Committed(steps) == Committed(steps);
  }

  // So the table is that of the reference, up to ties at the ends of a window.
  lemma {:induction false} StreamMatchesReference(steps: seq<Step>, delay: nat)
    requires Runs(INITIAL_JOB, steps, delay)
    ensures var job := Exec(INITIAL_JOB, steps, delay);
      MatchesReference(job.table, Visible(Committed(steps), job.pending, delay))
  {
    hide TableOf, MatchesReference;
    StreamRefinesReference(steps, delay);
    var job := Exec(INITIAL_JOB, steps, delay);
    CandlesMatchReference(job.table, Visible(Committed(steps), job.pending, delay));
  }

  lemma StartedInv(delay: nat)
    ensures JobInv(INITIAL_JOB, [], delay)
  {
  }

  // Nothing is accepted that no batch held.
  lemma {:induction false} PassedMembers(batches: seq<seq<Trade>>, delay: nat, t: Trade)
    requires t in Passed(batches, delay)
    ensures exists b :: b in batches && t in b
  {
    hide WatermarkAfter;
    var n := |batches| - 1;
    var earlier := batches[..n];
    SelectMembers(batches[n], After(WatermarkAfter(earlier, delay)));
    if t in Passed(earlier, delay) {
      PassedMembers(earlier, delay, t);
    } else {
      assert batches[n] in batches && t in batches[n];
    }
  }

  lemma AcceptedMembers(batches: seq<seq<Trade>>, delay: nat, t: Trade)
    requires t in Accepted(batches, delay)
    ensures exists b :: b in batches && t in b
  {
    DedupFromSubset(Passed(batches, delay), {});
    PassedMembers(batches, delay, t);
  }

  // The ids accepted are those of the rows on time when their batch arrived, each once.
  lemma {:induction false} AcceptedIds(batches: seq<seq<Trade>>, delay: nat, id: string)
    ensures id in Ids(Accepted(batches, delay)) <==>
      exists k, t :: 0 <= k < |batches| && t in batches[k] && t.eventId == id && WatermarkAfter(batches[..k], delay) < t.timeMs
    ensures DistinctIds(Accepted(batches, delay))
  {
    hide Passed, DedupFrom, WatermarkAfter, DistinctIds;
    DedupFromIds(Passed(batches, delay), {});
    if t: Trade :| t in Passed(batches, delay) && t.eventId == id {
      PassedOnTime(batches, delay, t);
    }
    if k: int, t: Trade :| 0 <= k < |batches| && t in batches[k] && t.eventId == id && WatermarkAfter(batches[..k], delay) < t.timeMs {
      OnTimePasses(batches, delay, k, t);
    }
  }

  lemma {:induction false} OnTimePasses(batches: seq<seq<Trade>>, delay: nat, k: int, t: Trade)
    requires 0 <= k < |batches| && t in batches[k] && WatermarkAfter(batches[..k], delay) < t.timeMs
    ensures t in Passed(batches, delay)
  {
    hide WatermarkAfter;
    var n := |batches| - 1;
    var earlier := batches[..n];
    SelectMembers(batches[n], After(WatermarkAfter(earlier, delay)));
    if k < n {
      assert earlier[k] == batches[k] && earlier[..k] == batches[..k];
      OnTimePasses(earlier, delay, k, t);
    }
  }

  lemma {:induction false} FlattenMembers(batches: seq<seq<Trade>>, t: Trade)
    ensures t in Flatten(batches) <==> exists b :: b in batches && t in b
  {
    if batches != [] {
      var n := |batches| - 1;
      FlattenMembers(batches[..n], t);
      assert batches == batches[..n] + [batches[n]];
    }
  }

  // A row is dropped as late exactly when some row of an earlier batch is at least `delay` ahead
  // of it (or its time is not positive).
  lemma LateRule(batches: seq<seq<Trade>>, t: Trade, delay: nat)
    ensures WatermarkAfter(batches, delay) < t.timeMs
       <==> 0 < t.timeMs && forall u :: u in Flatten(batches) ==> u.timeMs - delay < t.timeMs
  {
    AdvanceBounds(0, Flatten(batches), delay);
  }

  // Row j of batch i has the first occurrence of its id.
  ghost predicate IsFirstOfId(batches: seq<seq<Trade>>, i: int, j: int)
    requires 0 <= i < |batches| && 0 <= j < |batches[i]|
  {
    batches[i][j].eventId !in Ids(Flatten(batches[..i])) + Ids(batches[i][..j])
  }

  // The first occurrence of every id is on time.
  ghost predicate FirstsOnTime(batches: seq<seq<Trade>>, delay: nat) {
    forall i, j :: 0 <= i < |batches| && 0 <= j < |batches[i]| && IsFirstOfId(batches, i, j) ==>
      WatermarkAfter(batches[..i], delay) < batches[i][j].timeMs
  }

  // The cut into batches does not matter at all, so that the table is that of the one list of
  // trades deduplicated, if and only if the first occurrence of every id is on time.
  lemma {:induction false} SplitIrrelevant(batches: seq<seq<Trade>>, delay: nat)
    ensures Accepted(batches, delay) == Dedup(Flatten(batches)) <==> FirstsOnTime(batches, delay)
  {
    hide Accepted, Dedup, Flatten, WatermarkAfter, IsFirstOfId;
    if FirstsOnTime(batches, delay) {
      OnTimeSuffices(batches, delay);
    } else {
      var i, j :| 0 <= i < |batches| && 0 <= j < |batches[i]| && IsFirstOfId(batches, i, j)
        && batches[i][j].timeMs <= WatermarkAfter(batches[..i], delay);
      LateFirstLost(batches, delay, i, j);
      FirstKept(batches, i, j);
    }
  }

  // Row j is the first of its id among these rows and those seen.
  ghost predicate NewAt(rows: seq<Trade>, seen: set<string>, j: int)
    requires 0 <= j < |rows|
  {
    rows[j].eventId !in seen + Ids(rows[..j])
  }

  lemma NewLater(t: Trade, rest: seq<Trade>, seen: set<string>, j: int)
    requires 0 <= j < |rest|
    requires NewAt(rest, if t.eventId in seen then seen else seen + {t.eventId}, j)
    ensures NewAt([t] + rest, seen, j + 1)
  {
    assert ([t] + rest)[..j + 1] == [t] + rest[..j];
    IdsCons(t, rest[..j]);
  }

  // A dedup does not miss the late rows of a batch if no first occurrence is among them.
  lemma {:induction false} DedupOfOnTime(rows: seq<Trade>, seen: set<string>, wm: int)
    requires forall j :: 0 <= j < |rows| && NewAt(rows, seen, j) ==> wm < rows[j].timeMs
    ensures DedupFrom(Select(rows, After(wm)), seen) == DedupFrom(rows, seen)
  {
    hide Select, NewAt;
    if rows == [] {
      SelectEmpty(After(wm));
    } else {
      var t, rest := rows[0], rows[1..];
      assert rows == [t] + rest;
      SelectCons(t, rest, After(wm));
      var seen' := if t.eventId in seen then seen else seen + {t.eventId};
      forall j | 0 <= j < |rest| && NewAt(rest, seen', j)
        ensures wm < rest[j].timeMs
      {
        NewLater(t, rest, seen, j);
        assert rows[j + 1] == rest[j];
      }
      DedupOfOnTime(rest, seen', wm);
      FirstNew(rows, seen);
      var kept := Select(rest, After(wm));
      assert ([t] + kept)[1..] == kept && [] + kept == kept;
    }
  }

  lemma FirstNew(rows: seq<Trade>, seen: set<string>)
    requires rows != []
    ensures NewAt(rows, seen, 0) <==> rows[0].eventId !in seen
  {
    assert rows[..0] == [];
  }

  lemma FirstsOnTimePrefix(batches: seq<seq<Trade>>, delay: nat)
    requires batches != [] && FirstsOnTime(batches, delay)
    ensures FirstsOnTime(batches[..|batches| - 1], delay)
  {
    hide WatermarkAfter, Flatten;
    var earlier := batches[..|batches| - 1];
    forall i, j | 0 <= i < |earlier| && 0 <= j < |earlier[i]| && IsFirstOfId(earlier, i, j)
      ensures WatermarkAfter(earlier[..i], delay) < earlier[i][j].timeMs
    {
      assert earlier[..i] == batches[..i] && earlier[i] == batches[i];
      assert IsFirstOfId(batches, i, j);
    }
  }

  lemma {:induction false} OnTimeSuffices(batches: seq<seq<Trade>>, delay: nat)
    requires FirstsOnTime(batches, delay)
    ensures Accepted(batches, delay) == Dedup(Flatten(batches))
    decreases |batches|
  {
    if batches != [] {
      hide WatermarkAfter, DedupFrom, Select, FirstsOnTime, Ids;
      var n := |batches| - 1;
      var earlier, rows := batches[..n], batches[n];
      FirstsOnTimePrefix(batches, delay);
      OnTimeSuffices(earlier, delay);
      DedupConcat(Passed(earlier, delay), Select(rows, After(WatermarkAfter(earlier, delay))), {});
      DedupConcat(Flatten(earlier), rows, {});
      SameSeen(earlier, delay);
      LastBatchOnTime(batches, delay);
      DedupOfOnTime(rows, {} + Ids(Flatten(earlier)), WatermarkAfter(earlier, delay));
    }
  }

  lemma SameSeen(batches: seq<seq<Trade>>, delay: nat)
    requires Accepted(batches, delay) == Dedup(Flatten(batches))
    ensures {} + Ids(Passed(batches, delay)) == {} + Ids(Flatten(batches))
  {
    hide Passed, Flatten, DedupFrom, Ids;
    var passed, all := Passed(batches, delay), Flatten(batches);
    DedupFromIds(passed, {});
    DedupFromIds(all, {});
    assert Ids(passed) == Ids(passed) - {} == Ids(all) - {} == Ids(all);
  }

  lemma LastBatchOnTime(batches: seq<seq<Trade>>, delay: nat)
    requires batches != [] && FirstsOnTime(batches, delay)
    ensures var n := |batches| - 1;
      forall j :: 0 <= j < |batches[n]| && NewAt(batches[n], {} + Ids(Flatten(batches[..n])), j) ==>
        WatermarkAfter(batches[..n], delay) < batches[n][j].timeMs
  {
    hide WatermarkAfter, Flatten, Ids;
    var n := |batches| - 1;
    forall j | 0 <= j < |batches[n]| && NewAt(batches[n], {} + Ids(Flatten(batches[..n])), j)
      ensures WatermarkAfter(batches[..n], delay) < batches[n][j].timeMs
    {
      assert IsFirstOfId(batches, n, j);
    }
  }

  lemma {:induction false} FlattenSplit(batches: seq<seq<Trade>>, i: int) returns (rest: seq<Trade>)
    requires 0 <= i < |batches|
    ensures Flatten(batches) == Flatten(batches[..i]) + batches[i] + rest
    decreases |batches|
  {
    var n := |batches| - 1;
    if i == n {
      rest := [];
    } else {
      var earlier := FlattenSplit(batches[..n], i);
      assert batches[..n][..i] == batches[..i];
      rest := earlier + batches[n];
    }
  }

  // The dedup keeps the first occurrence of an id.
  lemma FirstKept(batches: seq<seq<Trade>>, i: int, j: int)
    requires 0 <= i < |batches| && 0 <= j < |batches[i]| && IsFirstOfId(batches, i, j)
    ensures batches[i][j] in Dedup(Flatten(batches))
  {
    hide Flatten, DedupFrom;
    var rest := FlattenSplit(batches, i);
    var before := Flatten(batches[..i]);
    var all := before + batches[i] + rest;
    var p := |before| + j;
    assert all[p] == batches[i][j];
    forall q | 0 <= q < p
      ensures all[q].eventId != all[p].eventId
    {
      if q < |before| {
        assert all[q] == before[q] && before[q].eventId in Ids(before);
      } else {
        assert all[q] == batches[i][..j][q - |before|];
        assert batches[i][..j][q - |before|].eventId in Ids(batches[i][..j]);
      }
    }
    DedupFromFirst(all, {}, p);
  }

  lemma {:induction false} WatermarkMonotone(batches: seq<seq<Trade>>, i: int, k: int, delay: nat)
    requires 0 <= i <= k <= |batches|
    ensures WatermarkAfter(batches[..i], delay) <= WatermarkAfter(batches[..k], delay)
    decreases k
  {
    if i < k {
      hide WatermarkAfter;
      WatermarkMonotone(batches, i, k - 1, delay);
      WatermarkSnoc(batches[..k - 1], batches[k - 1], delay);
      assert batches[..k - 1] + [batches[k - 1]] == batches[..k];
      AdvanceBounds(WatermarkAfter(batches[..k - 1], delay), batches[k - 1], delay);
    }
  }

  lemma {:induction false} PassedOnTime(batches: seq<seq<Trade>>, delay: nat, t: Trade)
    requires t in Passed(batches, delay)
    ensures exists k :: 0 <= k < |batches| && t in batches[k] && WatermarkAfter(batches[..k], delay) < t.timeMs
  {
    hide WatermarkAfter;
    var n := |batches| - 1;
    var earlier := batches[..n];
    SelectMembers(batches[n], After(WatermarkAfter(earlier, delay)));
    if t in Passed(earlier, delay) {
      PassedOnTime(earlier, delay, t);
      var k :| 0 <= k < n && t in earlier[k] && WatermarkAfter(earlier[..k], delay) < t.timeMs;
      assert earlier[k] == batches[k] && earlier[..k] == batches[..k];
    } else {
      assert t in batches[n];
    }
  }

  // A late first occurrence is nowhere among the accepted trades.
  lemma LateFirstLost(batches: seq<seq<Trade>>, delay: nat, i: int, j: int)
    requires 0 <= i < |batches| && 0 <= j < |batches[i]| && IsFirstOfId(batches, i, j)
    requires batches[i][j].timeMs <= WatermarkAfter(batches[..i], delay)
    ensures batches[i][j] !in Accepted(batches, delay)
  {
    hide WatermarkAfter, Passed, Flatten, DedupFrom;
    var t := batches[i][j];
    DedupFromSubset(Passed(batches, delay), {});
    if t in Passed(batches, delay) {
      PassedOnTime(batches, delay, t);
      var k :| 0 <= k < |batches| && t in batches[k] && WatermarkAfter(batches[..k], delay) < t.timeMs;
      if k < i {
        InFlatten(batches, k, i, t);
      } else {
        WatermarkMonotone(batches, i, k, delay);
      }
    }
  }

  lemma InFlatten(batches: seq<seq<Trade>>, k: int, i: int, t: Trade)
    requires 0 <= k < i <= |batches| && t in batches[k]
    ensures t.eventId in Ids(Flatten(batches[..i]))
  {
    hide Flatten;
    var rest := FlattenSplit(batches[..i], k);
    assert t in Flatten(batches[..i]);
  }

  // ---------- every batch can be scheduled ----------

  ghost function PlainBatch(q: Query, rows: seq<Trade>): Batch {
    var added := Fresh(q, rows);
    Batch(rows, map k | k in Keys(added) :: (WindowNonEmpty(added, k); PlanOf(Select(added, Window(k)), k in q.windows)))
  }

  lemma BuffersGood(q: Query, ts: seq<Trade>)
    requires WindowsOf(q.windows, q.watermark, ts)
    ensures GoodBuffers(q)
  {
  }

  lemma PlainPlansOk(q: Query, rows: seq<Trade>)
    ensures PlansOk(q, Fresh(q, rows), PlainBatch(q, rows).plans)
  {
    hide Fresh, Keys, Select;
    var added := Fresh(q, rows);
    forall k | k in Keys(added)
      ensures PlanFor(PlainBatch(q, rows).plans[k], Get(q.windows, k), Select(added, Window(k)))
    {
      WindowNonEmpty(added, k);
      PlanOfRows(Select(added, Window(k)), k in q.windows);
    }
  }

  // All schedules of the rows write the same candle for window k.
  ghost predicate ScheduleFree(q: Query, rows: seq<Trade>, k: Key)
    requires k in Keys(Fresh(q, rows))
  {
    forall b, d :: Schedules(q, b) && Schedules(q, d) && b.rows == d.rows == rows ==>
      EmittedCandles(q, b)[k] == EmittedCandles(q, d)[k]
  }

  lemma PlainWith(q: Query, rows: seq<Trade>, k: Key, p: Plan)
    requires GoodBuffers(q) && k in Keys(Fresh(q, rows)) && k !in q.windows
    requires PlanFor(p, None, Select(Fresh(q, rows), Window(k)))
    ensures var plain := PlainBatch(q, rows);
      var b := plain.(plans := plain.plans[k := p]);
      Schedules(q, b) && EmittedCandles(q, b)[k] == Finish(Eval(p, None))
  {
    hide Fresh, Keys, Select, PlanFor;
    PlainPlansOk(q, rows);
  }

  lemma ScheduledPlan(q: Query, b: Batch, k: Key)
    requires Schedules(q, b) && k in Keys(Fresh(q, b.rows)) && k !in q.windows
    ensures k in b.plans && PlanFor(b.plans[k], None, Select(Fresh(q, b.rows), Window(k)))
    ensures EmittedCandles(q, b)[k] == Finish(Eval(b.plans[k], None))
  {
    hide Fresh, Select, PlanFor;
  }

  lemma FreeIfOneOutcome(q: Query, rows: seq<Trade>, k: Key)
    requires k in Keys(Fresh(q, rows)) && k !in q.windows
    requires OneOutcome(Select(Fresh(q, rows), Window(k)))
    ensures ScheduleFree(q, rows, k)
  {
    hide Fresh, Select, Schedules, EmittedCandles, PlanFor;
    forall b, d | Schedules(q, b) && Schedules(q, d) && b.rows == d.rows == rows
      ensures EmittedCandles(q, b)[k] == EmittedCandles(q, d)[k]
    {
      ScheduledPlan(q, b, k);
      ScheduledPlan(q, d, k);
    }
  }

  lemma NotFreeIfTied(q: Query, rows: seq<Trade>, k: Key, p: Plan, o: Plan)
    requires GoodBuffers(q) && k in Keys(Fresh(q, rows)) && k !in q.windows
    requires PlanFor(p, None, Select(Fresh(q, rows), Window(k))) && PlanFor(o, None, Select(Fresh(q, rows), Window(k)))
    requires Finish(Eval(p, None)) != Finish(Eval(o, None))
    ensures !ScheduleFree(q, rows, k)
  {
    hide Fresh, Select, Schedules, EmittedCandles, PlanFor, Eval, Finish;
    PlainWith(q, rows, k, p);
    PlainWith(q, rows, k, o);
  }

  // The row of a window first touched by a batch depends on the schedule exactly when the ends
  // of the window do not agree.
  lemma {:induction false} ScheduleDecidesTies(q: Query, rows: seq<Trade>, k: Key)
    requires GoodBuffers(q) && k in Keys(Fresh(q, rows)) && k !in q.windows
    ensures ScheduleFree(q, rows, k) <==> EndsAgree(Select(Fresh(q, rows), Window(k)))
  {
    hide Fresh, Select, EndsAgree, Finish, Eval, ScheduleFree;
    var w := Select(Fresh(q, rows), Window(k));
    WindowNonEmpty(Fresh(q, rows), k);
    TiesDecide(w);
    if OneOutcome(w) {
      FreeIfOneOutcome(q, rows, k);
    } else {
      var p, o :| PlanFor(p, None, w) && PlanFor(o, None, w) && Finish(Eval(p, None)) != Finish(Eval(o, None));
      NotFreeIfTied(q, rows, k, p, o);
    }
  }

  // The job is never stuck: whatever it has done, any next rows (after a stop, the same rows
  // again) have a schedule.
  lemma {:induction false} NeverStuck(job: Job, batches: seq<seq<Trade>>, rows: seq<Trade>, delay: nat)
    requires JobInv(job, batches, delay) && (job.pending.Some? ==> rows == job.pending.value)
    ensures Enabled(job, Commit(PlainBatch(job.query, rows)))
    ensures Enabled(job, Attempt(PlainBatch(job.query, rows)))
  {
    hide WindowsOf, PlansOk, GoodBuffers, TableOf;
    BuffersGood(job.query, Accepted(batches, delay));
    PlainPlansOk(job.query, rows);
  }

  // ---------- nothing already written is lost ----------

  lemma FrozenStep(job: Job, step: Step, k: Key, delay: nat)
    requires Enabled(job, step) && WindowEnd(k) <= job.query.watermark
    ensures Get(Next(job, step, delay).table, k) == Get(job.table, k)
    ensures job.query.watermark <= Next(job, step, delay).query.watermark
  {
    AdvanceBounds(job.query.watermark, step.b.rows, delay);
    if k in Keys(Fresh(job.query, step.b.rows)) {
      TouchedIsOpen(job.query, step.b.rows, k);
    }
  }

  // Once a window's end is behind the watermark its row never changes again.
  lemma {:induction false} Frozen(job: Job, steps: seq<Step>, k: Key, delay: nat)
    requires Runs(job, steps, delay) && k.start + 60000 <= job.query.watermark
    ensures Get(Exec(job, steps, delay).table, k) == Get(job.table, k)
    decreases |steps|
  {
    hide Next, Enabled;
    if steps != [] {
      FrozenStep(job, steps[0], k, delay);
      Frozen(Next(job, steps[0], delay), steps[1..], k, delay);
    }
  }

  ghost predicate Grows(c: Candle, d: Candle) {
    c.tradeCount <= d.tradeCount && c.volume <= d.volume && c.high <= d.high && d.low <= c.low
  }

  ghost predicate TableGrows(m: map<Key, Candle>, n: map<Key, Candle>) {
    forall k :: k in m ==> k in n && Grows(m[k], n[k])
  }

  lemma CandleGrows(c: Candle, x: seq<Trade>, d: Candle, y: seq<Trade>)
    requires IsCandle(c, x) && IsCandle(d, x + y) && NonNegative(y)
    ensures Grows(c, d)
  {
    TotalConcat(Qty, x, y);
    TotalNonNegative(Qty, y);
    assert forall t :: t in x ==> t in x + y;
  }

  lemma MoreTradesGrow(m: map<Key, Candle>, ts: seq<Trade>, n: map<Key, Candle>, more: seq<Trade>)
    requires TableOf(m, ts) && TableOf(n, ts + more) && NonNegative(more)
    ensures TableGrows(m, n)
  {
    hide IsCandle, Grows;
    KeysConcat(ts, more);
    forall k | k in m
      ensures k in n && Grows(m[k], n[k])
    {
      SelectConcat(ts, more, Window(k));
      SelectMembers(more, Window(k));
      CandleGrows(m[k], Select(ts, Window(k)), n[k], Select(more, Window(k)));
    }
  }

  lemma FreshMembers(q: Query, rows: seq<Trade>)
    ensures forall t :: t in Fresh(q, rows) ==> t in rows && q.watermark < t.timeMs
  {
    DedupFromSubset(Select(rows, After(q.watermark)), q.seen);
    SelectMembers(rows, After(q.watermark));
  }

  lemma StepGrows(job: Job, step: Step, batches: seq<seq<Trade>>, delay: nat)
    requires JobInv(job, batches, delay) && Enabled(job, step) && NonNegative(step.b.rows)
    ensures TableGrows(job.table, Next(job, step, delay).table)
  {
    hide TableOf, TableGrows;
    var ts, more := Accepted(batches, delay), Fresh(job.query, step.b.rows);
    StepInv(job, step, batches, delay);
    FreshMembers(job.query, step.b.rows);
    var table := Next(job, step, delay).table;
    if Visible(batches, job.pending, delay) == ts {
      MoreTradesGrow(job.table, ts, table, more);
    } else {
      assert (ts + more) + [] == ts + more;
      MoreTradesGrow(job.table, ts + more, table, []);
    }
  }

  lemma {:induction false} NeverShrinks(job: Job, steps: seq<Step>, batches: seq<seq<Trade>>, delay: nat)
    requires JobInv(job, batches, delay) && Runs(job, steps, delay)
    requires forall s :: s in steps ==> NonNegative(s.b.rows)
    ensures TableGrows(job.table, Exec(job, steps, delay).table)
    decreases |steps|
  {
    hide JobInv, Next, Enabled;
    if steps != [] {
      StepInv(job, steps[0], batches, delay);
      assert NonNegative(steps[0].b.rows);
      StepGrows(job, steps[0], batches, delay);
      NeverShrinks(Next(job, steps[0], delay), steps[1..], History(batches, steps[0]), delay);
    }
  }

  // Between any two points of a run no row disappears, no count, volume or high falls, and no
  // low rises: a full candle is never overwritten with a partial one.
  lemma {:induction false} RowsNeverShrink(steps: seq<Step>, later: seq<Step>, delay: nat)
    requires Runs(INITIAL_JOB, steps, delay) && Runs(Exec(INITIAL_JOB, steps, delay), later, delay)
    requires forall s :: s in later ==> NonNegative(s.b.rows)
    ensures TableGrows(Exec(INITIAL_JOB, steps, delay).table, Exec(Exec(INITIAL_JOB, steps, delay), later, delay).table)
  {
    hide Exec, Runs, TableGrows, JobInv;
    StartedInv(delay);
    RunInv(INITIAL_JOB, steps, [], delay);
    NeverShrinks(Exec(INITIAL_JOB, steps, delay), later, [] + Committed(steps), delay);
  }

  // ---------- at least once is as good as exactly once ----------

  function OnlyCommits(steps: seq<Step>): seq<Step> {
    if steps == [] then []
    else if steps[0].Commit? then [steps[0]] + OnlyCommits(steps[1..])
    else OnlyCommits(steps[1..])
  }

  lemma {:induction false} CommitsAlone(job: Job, clean: Job, steps: seq<Step>, delay: nat)
    requires Runs(job, steps, delay) && clean.query == job.query && clean.pending == None
    ensures Runs(clean, OnlyCommits(steps), delay)
    ensures Exec(clean, OnlyCommits(steps), delay).query == Exec(job, steps, delay).query
    ensures Exec(clean, OnlyCommits(steps), delay).pending == None
    ensures Committed(OnlyCommits(steps)) == Committed(steps)
    decreases |steps|
  {
    if steps != [] {
      var step, rest := steps[0], steps[1..];
      if step.Commit? {
        CommitsAlone(Next(job, step, delay), Next(clean, step, delay), rest, delay);
        assert OnlyCommits(steps)[1..] == OnlyCommits(rest);
      } else {
        CommitsAlone(Next(job, step, delay), clean, rest, delay);
      }
    }
  }

  // The same windows and columns, and the same open and close wherever the ends of the window
  // agree.
  ghost predicate SameTable(m: map<Key, Candle>, n: map<Key, Candle>, ts: seq<Trade>) {
    && m.Keys == n.Keys
    && forall k :: k in m ==>
         SameButTies(m[k], n[k]) && (EndsAgree(Select(ts, Window(k))) ==> m[k] == n[k])
  }

  lemma SameTrades(m: map<Key, Candle>, n: map<Key, Candle>, ts: seq<Trade>)
    requires TableOf(m, ts) && TableOf(n, ts)
    ensures SameTable(m, n, ts)
  {
    hide IsCandle, SameButTies, EndsAgree, RefCandle, WithSqlQuote, Select, Keys;
    CandlesMatchReference(m, ts);
    CandlesMatchReference(n, ts);
    forall k | k in m
      ensures SameButTies(m[k], n[k])
    {
      CandleColumns(m[k], n[k], Select(ts, Window(k)));
    }
  }

  // Re-running uncommitted batches any number of times leaves the query and the table a run
  // without re-runs would.
  lemma {:induction false} ReplaysInvisible(steps: seq<Step>, delay: nat)
    requires Runs(INITIAL_JOB, steps, delay) && Exec(INITIAL_JOB, steps, delay).pending == None
    ensures Runs(INITIAL_JOB, OnlyCommits(steps), delay)
    ensures var again, once := Exec(INITIAL_JOB, steps, delay), Exec(INITIAL_JOB, OnlyCommits(steps), delay);
      again.query == once.query && SameTable(again.table, once.table, Accepted(Committed(steps), delay))
  {
    hide TableOf, Exec, Runs, SameTable;
    CommitsAlone(INITIAL_JOB, INITIAL_JOB, steps, delay);
    StreamRefinesReference(steps, delay);
    StreamRefinesReference(OnlyCommits(steps), delay);
    SameTrades(Exec(INITIAL_JOB, steps, delay).table, Exec(INITIAL_JOB, OnlyCommits(steps), delay).table,
               Accepted(Committed(steps), delay));
  }
}
