// Whole runs of retention: purge transactions, at any cutoffs, whose statements interleave with
// the stream's upserts.
module Purging {
  import opened Options
  import opened Trades
  import opened Retention
  import opened Sums

  // An open purge transaction has written its rollup and not yet deleted; an abort restores the
  // daily rows it found.
  datatype Txn = Txn(cutoff: int, saved: DailyTable)

  datatype Db = Db(candles: CandleTable, daily: DailyTable, open: Option<Txn>)

  // Each statement sees the rows committed when it starts.
  datatype Event = Upsert(rows: CandleTable) | Summarize(cutoff: int) | Delete | Rollback

  const EMPTY_DB := Db(map[], map[], None)

  predicate Enabled(db: Db, e: Event) {
    match e
    case Upsert(_) => true
    case Summarize(_) => db.open.None?
    case Delete => db.open.Some?
    case Rollback => db.open.Some?
  }

  ghost function Apply(db: Db, e: Event): Db
    requires Enabled(db, e)
  {
    match e
    case Upsert(rows) => db.(candles := db.candles + rows)
    case Summarize(c) => db.(daily := Summarized(db.candles, db.daily, c), open := Some(Txn(c, db.daily)))
    case Delete => db.(candles := From(db.candles, db.open.value.cutoff), open := None)
    case Rollback => db.(daily := db.open.value.saved, open := None)
  }

  ghost function PurgeOf(db: Db, c: int): Db
    requires db.open.None?
  {
    Apply(Apply(db, Summarize(c)), Delete)
  }

  ghost function PurgeAround(db: Db, rows: CandleTable, c: int): Db
    requires db.open.None?
  {
    Apply(Apply(Apply(db, Summarize(c)), Upsert(rows)), Delete)
  }

  // A candle written below the cutoff between the two statements of a purge is deleted without
  // ever being rolled up, and leaves no trace.
  lemma InterleavedWriteLost(db: Db, rows: CandleTable, c: int)
    requires db.open.None?
    ensures PurgeAround(db, rows, c) == Apply(PurgeOf(db, c), Upsert(From(rows, c)))
  {
    hide Summarized;
    assert From(db.candles + rows, c) == From(db.candles, c) + From(rows, c);
  }

  // An upsert between the statements is serializable with the purge exactly when it writes no
  // such candle.
  lemma {:induction false} InterleavedUpsert(db: Db, rows: CandleTable, c: int)
    requires db.open.None?
    ensures PurgeAround(db, rows, c) == Apply(PurgeOf(db, c), Upsert(rows)) <==> forall k :: k in rows ==> c <= k.start
  {
    hide Summarized;
    InterleavedWriteLost(db, rows, c);
    if k :| k in rows && k.start < c {
      assert k in Apply(PurgeOf(db, c), Upsert(rows)).candles && k !in PurgeAround(db, rows, c).candles;
    }
    if forall k :: k in rows ==> c <= k.start {
      assert From(rows, c) == rows;
    }
  }

  // ---------- runs ----------

  // The window starts one committed purge has removed: from where the purge before it stopped up
  // to its own cutoff.
  datatype Cut = Cut(lo: int, hi: int)

  // How far candles have been deleted, how far they have been rolled up, and the cuts so far.
  datatype Frontier = Frontier(deleted: int, rolled: int, cuts: seq<Cut>)

  const START := Frontier(0, 0, [])

  function Move(f: Frontier, e: Event): Frontier {
    match e
    case Upsert(_) => f
    case Summarize(c) => f.(rolled := Max(f.deleted, c))
    case Delete => Frontier(f.rolled, f.rolled, f.cuts + [Cut(f.deleted, f.rolled)])
    case Rollback => f.(rolled := f.deleted)
  }

  // No candle arrives behind what has been rolled up.
  ghost predicate Orderly(e: Event, f: Frontier) {
    e.Upsert? ==> forall k :: k in e.rows ==> f.rolled <= k.start
  }

  function WithWrite(ledger: CandleTable, e: Event): CandleTable {
    if e.Upsert? then ledger + e.rows else ledger
  }

  predicate InCut(c: Cut, k: Key) {
    c.lo <= k.start < c.hi
  }

  function Between(m: CandleTable, c: Cut): CandleTable {
    map k | k in m && InCut(c, k) :: m[k]
  }

  // Rollups of these tables one after the other, each over the rows of those before.
  ghost function Stacked(parts: seq<CandleTable>): DailyTable {
    if parts == [] then map[] else Stacked(parts[..|parts| - 1]) + RollupAll(parts[|parts| - 1])
  }

  function Parts(m: CandleTable, cuts: seq<Cut>): seq<CandleTable> {
    seq(|cuts|, i requires 0 <= i < |cuts| => Between(m, cuts[i]))
  }

  ghost function Folded(m: CandleTable, cuts: seq<Cut>): DailyTable {
    Stacked(Parts(m, cuts))
  }

  // The cuts follow one another without a gap from lo to hi.
  predicate Tiles(cuts: seq<Cut>, lo: int, hi: int) {
    if cuts == [] then lo == hi
    else
      var n := |cuts| - 1;
      cuts[n].lo <= cuts[n].hi == hi && Tiles(cuts[..n], lo, cuts[n].lo)
  }

  // The database against one ledger holding the last version of every candle ever written: the
  // candles are those not yet deleted, the daily rows are the rollups of the cuts, and while a
  // purge is open its own rollup is on top.
  ghost predicate Settled(db: Db, ledger: CandleTable, f: Frontier) {
    && f.deleted <= f.rolled && Tiles(f.cuts, 0, f.deleted)
    && (forall k :: k in ledger ==> 0 <= k.start)
    && db.candles == From(ledger, f.deleted)
    && (db.open.None? ==> f.rolled == f.deleted && db.daily == Folded(ledger, f.cuts))
    && (db.open.Some? ==>
          && f.rolled == Max(f.deleted, db.open.value.cutoff)
          && db.open.value.saved == Folded(ledger, f.cuts)
          && db.daily == Folded(ledger, f.cuts + [Cut(f.deleted, f.rolled)]))
  }

  lemma StackedSnoc(parts: seq<CandleTable>, part: CandleTable)
    ensures Stacked(parts + [part]) == Stacked(parts) + RollupAll(part)
  {
    hide RollupAll;
    assert (parts + [part])[..|parts|] == parts;
  }

  lemma FoldedSnoc(m: CandleTable, cuts: seq<Cut>, c: Cut)
    ensures Folded(m, cuts + [c]) == Folded(m, cuts) + RollupAll(Between(m, c))
  {
    hide RollupAll, Between, Stacked;
    assert Parts(m, cuts + [c]) == Parts(m, cuts) + [Between(m, c)];
    StackedSnoc(Parts(m, cuts), Between(m, c));
  }

  lemma {:induction false} TilesBounds(cuts: seq<Cut>, lo: int, hi: int)
    requires Tiles(cuts, lo, hi)
    ensures lo <= hi && forall c :: c in cuts ==> lo <= c.lo <= c.hi <= hi
  {
    if cuts != [] {
      var n := |cuts| - 1;
      TilesBounds(cuts[..n], lo, cuts[n].lo);
      assert cuts == cuts[..n] + [cuts[n]];
    }
  }

  lemma TilesSnoc(cuts: seq<Cut>, lo: int, mid: int, hi: int)
    requires Tiles(cuts, lo, mid) && mid <= hi
    ensures Tiles(cuts + [Cut(mid, hi)], lo, hi)
  {
    assert (cuts + [Cut(mid, hi)])[..|cuts|] == cuts;
  }

  // What is written ahead of every cut changes no rollup.
  lemma FoldedWrite(m: CandleTable, rows: CandleTable, cuts: seq<Cut>)
    requires forall c, k :: c in cuts && k in rows ==> c.hi <= k.start
    ensures Folded(m + rows, cuts) == Folded(m, cuts)
  {
    hide Stacked;
    forall i | 0 <= i < |cuts|
      ensures Between(m + rows, cuts[i]) == Between(m, cuts[i])
    {
      assert cuts[i] in cuts;
    }
    assert Parts(m + rows, cuts) == Parts(m, cuts);
  }

  lemma UpsertSettled(db: Db, ledger: CandleTable, f: Frontier, rows: CandleTable)
    requires Settled(db, ledger, f) && Orderly(Upsert(rows), f)
    ensures Settled(Apply(db, Upsert(rows)), ledger + rows, f)
  {
    hide Folded, Between, Tiles, RollupAll;
    TilesBounds(f.cuts, 0, f.deleted);
    FoldedWrite(ledger, rows, f.cuts);
    FoldedWrite(ledger, rows, f.cuts + [Cut(f.deleted, f.rolled)]);
  }

  lemma SummarizeSettled(db: Db, ledger: CandleTable, f: Frontier, c: int)
    requires Settled(db, ledger, f) && db.open.None?
    ensures Settled(Apply(db, Summarize(c)), ledger, Move(f, Summarize(c)))
  {
    hide Folded, RollupAll;
    FoldedSnoc(ledger, f.cuts, Cut(f.deleted, Max(f.deleted, c)));
    assert Before(db.candles, c) == Between(ledger, Cut(f.deleted, Max(f.deleted, c)));
  }

  lemma SettledStep(db: Db, ledger: CandleTable, f: Frontier, e: Event)
    requires Settled(db, ledger, f) && Enabled(db, e) && Orderly(e, f)
    ensures Settled(Apply(db, e), WithWrite(ledger, e), Move(f, e))
  {
    hide Folded;
    match e
    case Upsert(rows) =>
      UpsertSettled(db, ledger, f, rows);
    case Summarize(c) =>
      SummarizeSettled(db, ledger, f, c);
    case Delete =>
      TilesSnoc(f.cuts, 0, f.deleted, f.rolled);
    case Rollback =>
  }

  // While a purge is open, whatever has been upserted since its rollup, the daily table is what
  // the rollup would write now.
  lemma {:induction false} OpenPurgeCoherent(db: Db, ledger: CandleTable, f: Frontier)
    requires Settled(db, ledger, f) && db.open.Some?
    ensures db.daily == Summarized(db.candles, db.open.value.saved, db.open.value.cutoff)
  {
    hide Folded, RollupAll;
    FoldedSnoc(ledger, f.cuts, Cut(f.deleted, f.rolled));
    assert Before(db.candles, db.open.value.cutoff) == Between(ledger, Cut(f.deleted, f.rolled));
  }

  ghost predicate Runs(db: Db, es: seq<Event>)
    decreases |es|
  {
    es != [] ==> Enabled(db, es[0]) && Runs(Apply(db, es[0]), es[1..])
  }

  ghost predicate OrderlyRun(f: Frontier, es: seq<Event>)
    decreases |es|
  {
    es != [] ==> Orderly(es[0], f) && OrderlyRun(Move(f, es[0]), es[1..])
  }

  ghost function Exec(db: Db, f: Frontier, es: seq<Event>): (Db, Frontier)
    requires Runs(db, es)
    decreases |es|
  {
    if es == [] then (db, f) else Exec(Apply(db, es[0]), Move(f, es[0]), es[1..])
  }

  function Ledger(ledger: CandleTable, es: seq<Event>): CandleTable
    decreases |es|
  {
    if es == [] then ledger else Ledger(WithWrite(ledger, es[0]), es[1..])
  }

  // Any orderly run, its upserts anywhere between the statements of purges that commit or abort, keeps
  // the database settled.
  lemma {:induction false} SettledRun(db: Db, ledger: CandleTable, f: Frontier, es: seq<Event>)
    requires Settled(db, ledger, f) && Runs(db, es) && OrderlyRun(f, es)
    ensures var (db', f') := Exec(db, f, es); Settled(db', Ledger(ledger, es), f')
    decreases |es|
  {
    hide Settled, Apply, Move, Orderly, Enabled;
    if es != [] {
      SettledStep(db, ledger, f, es[0]);
      SettledRun(Apply(db, es[0]), WithWrite(ledger, es[0]), Move(f, es[0]), es[1..]);
    }
  }

  // ---------- which candles a daily table still stands for ----------

  ghost predicate Touches(m: CandleTable, c: Cut, g: Group) {
    g in GroupsOf(Between(m, c))
  }

  // Some cut took the candle, and no later cut took another of its day.
  ghost predicate Survives(m: CandleTable, cuts: seq<Cut>, k: Key) {
    exists i :: 0 <= i < |cuts| && InCut(cuts[i], k) && forall j :: i < j < |cuts| ==> !Touches(m, cuts[j], GroupOf(k))
  }

  ghost function Kept(m: CandleTable, cuts: seq<Cut>): CandleTable {
    map k | k in m && Survives(m, cuts, k) :: m[k]
  }

  lemma SurvivesSnoc(m: CandleTable, cuts: seq<Cut>, c: Cut, k: Key)
    requires k in m
    ensures Survives(m, cuts + [c], k)
       <==> k in Between(m, c) || (Survives(m, cuts, k) && !Touches(m, c, GroupOf(k)))
  {
    hide Touches;
    var all, n := cuts + [c], |cuts|;
    assert all[n] == c;
    if Survives(m, cuts, k) && !Touches(m, c, GroupOf(k)) {
      var i :| 0 <= i < n && InCut(cuts[i], k) && forall j :: i < j < n ==> !Touches(m, cuts[j], GroupOf(k));
      assert all[i] == cuts[i];
    }
    if Survives(m, all, k) && !InCut(c, k) {
      var i :| 0 <= i < |all| && InCut(all[i], k) && forall j :: i < j < |all| ==> !Touches(m, all[j], GroupOf(k));
      assert i < n && all[i] == cuts[i] && forall j :: 0 <= j < n ==> all[j] == cuts[j];
    }
  }

  // The candles of `early` whose day has none in `late`, and those of `late`.
  ghost function Overlaid(early: CandleTable, late: CandleTable): CandleTable {
    (map k | k in early && GroupOf(k) !in GroupsOf(late) :: early[k]) + late
  }

  // Rolling up over the rows of an earlier rollup is one rollup of the new candles and of the
  // earlier ones of untouched days.
  lemma {:induction false} RollupOver(early: CandleTable, late: CandleTable)
    ensures RollupAll(early) + RollupAll(late) == RollupAll(Overlaid(early, late))
  {
    hide Rollup, Part, GroupsOf, Overlaid;
    var both := Overlaid(early, late);
    forall g
      ensures g in GroupsOf(both) <==> g in GroupsOf(early) || g in GroupsOf(late)
      ensures Part(both, g) == Part(if g in GroupsOf(late) then late else early, g)
    {
      OverlaidPart(early, late, g);
    }
  }

  lemma OverlaidPart(early: CandleTable, late: CandleTable, g: Group)
    ensures g in GroupsOf(Overlaid(early, late)) <==> g in GroupsOf(early) || g in GroupsOf(late)
    ensures Part(Overlaid(early, late), g) == Part(if g in GroupsOf(late) then late else early, g)
  {
    var both := Overlaid(early, late);
    if g in GroupsOf(late) {
      var k :| k in late && GroupOf(k) == g;
      assert k in both;
    } else if g in GroupsOf(early) {
      var k :| k in early && GroupOf(k) == g;
      assert k in both;
    }
  }

  // The fold of the rollups is one rollup of the surviving candles.
  lemma {:induction false} FoldedIsRollup(m: CandleTable, cuts: seq<Cut>)
    ensures Folded(m, cuts) == RollupAll(Kept(m, cuts))
  {
    hide RollupAll, Survives, Touches, Between, Overlaid, Folded, Kept;
    if cuts == [] {
      NothingKept(m);
    } else {
      var n := |cuts| - 1;
      FoldedIsRollup(m, cuts[..n]);
      FoldedSnoc(m, cuts[..n], cuts[n]);
      RollupOver(Kept(m, cuts[..n]), Between(m, cuts[n]));
      KeptSnoc(m, cuts[..n], cuts[n]);
      assert cuts[..n] + [cuts[n]] == cuts;
    }
  }

  lemma NothingKept(m: CandleTable)
    ensures RollupAll(Kept(m, [])) == map[] && Folded(m, []) == map[]
  {
  }

  lemma KeptSnoc(m: CandleTable, cuts: seq<Cut>, c: Cut)
    ensures Kept(m, cuts + [c]) == Overlaid(Kept(m, cuts), Between(m, c))
  {
    hide Survives, GroupsOf;
    forall k | k in m
      ensures Survives(m, cuts + [c], k)
         <==> k in Between(m, c) || (Survives(m, cuts, k) && !Touches(m, c, GroupOf(k)))
    {
      SurvivesSnoc(m, cuts, c, k);
    }
  }

  ghost predicate LastTouch(m: CandleTable, cuts: seq<Cut>, g: Group, i: int)
    requires 0 <= i < |cuts|
  {
    Touches(m, cuts[i], g) && forall j :: i < j < |cuts| ==> !Touches(m, cuts[j], g)
  }

  ghost predicate LastOf(parts: seq<CandleTable>, g: Group, i: int)
    requires 0 <= i < |parts|
  {
    g in GroupsOf(parts[i]) && forall j :: i < j < |parts| ==> g !in GroupsOf(parts[j])
  }

  lemma StackedRow(parts: seq<CandleTable>, part: CandleTable, g: Group)
    ensures g in GroupsOf(part) ==>
      Part(part, g) != map[] && Get(Stacked(parts + [part]), g) == Some(Rollup(Part(part, g)))
    ensures g !in GroupsOf(part) ==> Get(Stacked(parts + [part]), g) == Get(Stacked(parts), g)
  {
    hide Rollup, Part, GroupsOf, Stacked;
    StackedSnoc(parts, part);
    PartNonEmpty(part, g);
  }

  // A stacked row is the rollup of the last table with candles of its day.
  lemma {:induction false} LastPartWins(parts: seq<CandleTable>, g: Group)
    ensures g in Stacked(parts) <==> exists i :: 0 <= i < |parts| && g in GroupsOf(parts[i])
    ensures forall i :: 0 <= i < |parts| && LastOf(parts, g, i) ==>
      Part(parts[i], g) != map[] && Stacked(parts)[g] == Rollup(Part(parts[i], g))
  {
    hide Rollup, Part, GroupsOf;
    if parts != [] {
      hide Stacked;
      var n := |parts| - 1;
      var init, last := parts[..n], parts[n];
      assert parts == init + [last];
      LastPartWins(init, g);
      StackedRow(init, last, g);
      forall i | 0 <= i < n
        ensures init[i] == parts[i]
        ensures LastOf(parts, g, i) ==> LastOf(init, g, i) && g !in GroupsOf(last)
      {
      }
    }
  }

  // A daily row is the rollup of exactly the candles of its day in the last cut that held any of
  // them, at their final value; a day in no cut has no row.
  lemma {:induction false} LastCutWins(m: CandleTable, cuts: seq<Cut>, g: Group)
    ensures g in Folded(m, cuts) <==> exists i :: 0 <= i < |cuts| && Touches(m, cuts[i], g)
    ensures forall i :: 0 <= i < |cuts| && LastTouch(m, cuts, g, i) ==>
      Part(Between(m, cuts[i]), g) != map[] && Folded(m, cuts)[g] == Rollup(Part(Between(m, cuts[i]), g))
  {
    hide Rollup, Between, Stacked, Part, GroupsOf;
    var parts := Parts(m, cuts);
    LastPartWins(parts, g);
    forall i | 0 <= i < |cuts|
      ensures parts[i] == Between(m, cuts[i])
      ensures Touches(m, cuts[i], g) <==> g in GroupsOf(parts[i])
      ensures LastTouch(m, cuts, g, i) ==> LastOf(parts, g, i)
    {
    }
  }

  // So it is in every orderly run, between purges.
  lemma {:induction false} LastPurgeWins(es: seq<Event>, g: Group)
    requires Runs(EMPTY_DB, es) && OrderlyRun(START, es)
    ensures var (db, f) := Exec(EMPTY_DB, START, es);
      var written := Ledger(map[], es);
      db.open.None? ==>
        && (g in db.daily <==> exists i :: 0 <= i < |f.cuts| && Touches(written, f.cuts[i], g))
        && (forall i :: 0 <= i < |f.cuts| && LastTouch(written, f.cuts, g, i) ==>
              && g in db.daily && Part(Between(written, f.cuts[i]), g) != map[]
              && db.daily[g] == Rollup(Part(Between(written, f.cuts[i]), g)))
  {
    hide Exec, Ledger, Rollup, Between, Folded, Touches;
    StartSettled();
    SettledRun(EMPTY_DB, map[], START, es);
    LastCutWins(Ledger(map[], es), Exec(EMPTY_DB, START, es).1.cuts, g);
  }

  // ---------- every run ----------

  // The tables that committed purges rolled up, and the one an open purge did.
  datatype Log = Log(done: seq<CandleTable>, current: CandleTable)

  function Record(log: Log, db: Db, e: Event): Log {
    match e
    case Upsert(_) => log
    case Summarize(c) => log.(current := Before(db.candles, c))
    case Delete => Log(log.done + [log.current], map[])
    case Rollback => log.(current := map[])
  }

  ghost function LogOf(db: Db, log: Log, es: seq<Event>): Log
    requires Runs(db, es)
    decreases |es|
  {
    if es == [] then log else LogOf(Apply(db, es[0]), Record(log, db, es[0]), es[1..])
  }

  ghost predicate Logged(db: Db, log: Log) {
    && (db.open.None? ==> db.daily == Stacked(log.done))
    && (db.open.Some? ==> db.open.value.saved == Stacked(log.done) && db.daily == Stacked(log.done + [log.current]))
  }

  lemma LoggedStep(db: Db, log: Log, e: Event)
    requires Logged(db, log) && Enabled(db, e)
    ensures Logged(Apply(db, e), Record(log, db, e))
  {
    hide Stacked, RollupAll;
    if e.Summarize? {
      StackedSnoc(log.done, Before(db.candles, e.cutoff));
    }
  }

  lemma {:induction false} LoggedRun(db: Db, f: Frontier, log: Log, es: seq<Event>)
    requires Runs(db, es) && Logged(db, log)
    ensures Logged(Exec(db, f, es).0, LogOf(db, log, es))
    decreases |es|
  {
    hide Logged, Apply, Enabled, Record;
    if es != [] {
      LoggedStep(db, log, es[0]);
      LoggedRun(Apply(db, es[0]), Move(f, es[0]), Record(log, db, es[0]), es[1..]);
    }
  }

  // Whatever is written when, late or not: between purges a daily row is the rollup of exactly
  // what the last committed purge with candles of its day had rolled up.
  lemma {:induction false} LastPurgeAlwaysWins(es: seq<Event>, g: Group)
    requires Runs(EMPTY_DB, es)
    ensures var db, done := Exec(EMPTY_DB, START, es).0, LogOf(EMPTY_DB, Log([], map[]), es).done;
      db.open.None? ==>
        && (g in db.daily <==> exists i :: 0 <= i < |done| && g in GroupsOf(done[i]))
        && (forall i :: 0 <= i < |done| && LastOf(done, g, i) ==>
              g in db.daily && Part(done[i], g) != map[] && db.daily[g] == Rollup(Part(done[i], g)))
  {
    hide Exec, Runs, LogOf, Rollup, Part, GroupsOf;
    assert Logged(EMPTY_DB, Log([], map[]));
    hide Stacked;
    LoggedRun(EMPTY_DB, START, Log([], map[]), es);
    LastPartWins(LogOf(EMPTY_DB, Log([], map[]), es).done, g);
  }

  // ---------- the volume of every run ----------

  // The candles that stacked tables still stand for.
  ghost function Standing(parts: seq<CandleTable>): CandleTable {
    if parts == [] then map[] else Overlaid(Standing(parts[..|parts| - 1]), parts[|parts| - 1])
  }

  lemma {:induction false} StackedIsRollup(parts: seq<CandleTable>)
    ensures Stacked(parts) == RollupAll(Standing(parts))
  {
    if parts != [] {
      hide RollupAll, Overlaid;
      var n := |parts| - 1;
      StackedIsRollup(parts[..n]);
      RollupOver(Standing(parts[..n]), parts[n]);
    }
  }

  // Every upsert writes non-negative volumes, no less than those already written.
  ghost predicate Growing(ledger: CandleTable, es: seq<Event>)
    decreases |es|
  {
    es != [] ==>
      && (es[0].Upsert? ==> forall k :: k in es[0].rows ==> AtLeast(es[0].rows[k].volume, ledger, k))
      && Growing(WithWrite(ledger, es[0]), es[1..])
  }

  predicate AtLeast(volume: real, ledger: CandleTable, k: Key) {
    volume >= 0.0 && (k in ledger ==> ledger[k].volume <= volume)
  }

  // No volume in the table is more than the ledger's.
  ghost predicate NoMoreThan(m: CandleTable, ledger: CandleTable) {
    forall k :: k in m ==> k in ledger && 0.0 <= m[k].volume <= ledger[k].volume
  }

  // Live candles are the last version written, and nothing rolled up is more than that.
  ghost predicate Bounded(db: Db, log: Log, ledger: CandleTable) {
    && (forall k :: k in db.candles ==> k in ledger && db.candles[k] == ledger[k])
    && (forall k :: k in ledger ==> ledger[k].volume >= 0.0)
    && (forall part :: part in log.done ==> NoMoreThan(part, ledger)) && NoMoreThan(log.current, ledger)
  }

  lemma NoMoreGrows(m: CandleTable, ledger: CandleTable, rows: CandleTable)
    requires NoMoreThan(m, ledger) && forall k :: k in rows ==> AtLeast(rows[k].volume, ledger, k)
    ensures NoMoreThan(m, ledger + rows)
  {
  }

  lemma BoundedStep(db: Db, log: Log, ledger: CandleTable, e: Event)
    requires Bounded(db, log, ledger) && Enabled(db, e)
    requires e.Upsert? ==> forall k :: k in e.rows ==> AtLeast(e.rows[k].volume, ledger, k)
    ensures Bounded(Apply(db, e), Record(log, db, e), WithWrite(ledger, e))
  {
    hide Summarized;
    if e.Upsert? {
      forall part | NoMoreThan(part, ledger)
        ensures NoMoreThan(part, ledger + e.rows)
      {
        NoMoreGrows(part, ledger, e.rows);
      }
    }
  }

  lemma {:induction false} BoundedRun(db: Db, f: Frontier, log: Log, ledger: CandleTable, es: seq<Event>)
    requires Runs(db, es) && Bounded(db, log, ledger) && Growing(ledger, es)
    ensures Bounded(Exec(db, f, es).0, LogOf(db, log, es), Ledger(ledger, es))
    decreases |es|
  {
    hide Bounded, Apply, Enabled, Record, AtLeast;
    if es != [] {
      BoundedStep(db, log, ledger, es[0]);
      BoundedRun(Apply(db, es[0]), Move(f, es[0]), Record(log, db, es[0]), WithWrite(ledger, es[0]), es[1..]);
    }
  }

  lemma {:induction false} StandingNoMore(parts: seq<CandleTable>, ledger: CandleTable)
    requires forall part :: part in parts ==> NoMoreThan(part, ledger)
    ensures NoMoreThan(Standing(parts), ledger)
  {
    if parts != [] {
      hide GroupsOf;
      var n := |parts| - 1;
      assert parts[n] in parts && forall part :: part in parts[..n] ==> part in parts;
      StandingNoMore(parts[..n], ledger);
    }
  }

  // The volume the tables hold of one candle.
  function Held(live: CandleTable, standing: CandleTable, k: Key): real {
    if k in live then live[k].volume else if k in standing then standing[k].volume else 0.0
  }

  function HeldVolumes(live: CandleTable, standing: CandleTable, ledger: CandleTable): map<Key, real> {
    map k | k in ledger :: Held(live, standing, k)
  }

  lemma HeldSum(live: CandleTable, standing: CandleTable, ledger: CandleTable)
    requires live.Keys !! standing.Keys && live.Keys <= ledger.Keys && standing.Keys <= ledger.Keys
    ensures Sum(HeldVolumes(live, standing, ledger)) == Sum(Volumes(standing)) + Sum(Volumes(live))
  {
    hide Sum;
    var held, both := HeldVolumes(live, standing, ledger), Volumes(standing + live);
    VolumeUnion(standing, live);
    SumZeros(both, held);
  }

  // For every run of growing candles in which no candle is both live and rolled up: the tables hold
  // no more than the volume written, and all of it if and only if every candle written is live or
  // stands in a daily row at its final volume.
  lemma {:induction false} GrowingRunsHold(es: seq<Event>)
    requires Runs(EMPTY_DB, es) && Growing(map[], es)
    ensures var db, done := Exec(EMPTY_DB, START, es).0, LogOf(EMPTY_DB, Log([], map[]), es).done;
      var written := Ledger(map[], es);
      db.open.None? && db.candles.Keys !! Standing(done).Keys ==>
        && TotalVolume(db.candles, db.daily) <= Sum(Volumes(written))
        && (TotalVolume(db.candles, db.daily) == Sum(Volumes(written)) <==>
            forall k :: k in written ==> Held(db.candles, Standing(done), k) == written[k].volume)
  {
    hide Exec, LogOf, Ledger, Standing, Stacked, RollupAll, Runs, Growing;
    StartLogged();
    LoggedRun(EMPTY_DB, START, Log([], map[]), es);
    BoundedRun(EMPTY_DB, START, Log([], map[]), map[], es);
    var db, done := Exec(EMPTY_DB, START, es).0, LogOf(EMPTY_DB, Log([], map[]), es).done;
    var written, standing := Ledger(map[], es), Standing(done);
    StandingNoMore(done, written);
    if db.open.None? && db.candles.Keys !! standing.Keys {
      StackedIsRollup(done);
      TablesHold(db.candles, standing, written);
    }
  }

  lemma StartLogged()
    ensures Logged(EMPTY_DB, Log([], map[])) && Bounded(EMPTY_DB, Log([], map[]), map[])
  {
  }

  lemma TablesHold(live: CandleTable, standing: CandleTable, ledger: CandleTable)
    requires live.Keys !! standing.Keys && NoMoreThan(standing, ledger)
    requires forall k :: k in live ==> k in ledger && live[k] == ledger[k]
    requires forall k :: k in ledger ==> ledger[k].volume >= 0.0
    ensures var total := TotalVolume(live, RollupAll(standing));
      && total <= Sum(Volumes(ledger))
      && (total == Sum(Volumes(ledger)) <==> forall k :: k in ledger ==> Held(live, standing, k) == ledger[k].volume)
  {
    hide Sum, RollupAll, DailyVolumes;
    GroupedVolume(standing);
    HeldSum(live, standing, ledger);
    var held, all := HeldVolumes(live, standing, ledger), Volumes(ledger);
    assert forall k :: k in ledger ==> held[k] == Held(live, standing, k) && all[k] == ledger[k].volume;
    assert held.Keys == all.Keys == ledger.Keys;
    SumMonotone(held, all);
  }

  // Without that condition the tables may hold more: candles written again after they have been
  // purged count twice.
  lemma {:induction false} WrittenAgainCountsTwice(rows: CandleTable, c: int)
    requires forall k :: k in rows ==> k.start < c && rows[k].volume >= 0.0
    ensures var es := [Upsert(rows), Summarize(c), Delete, Upsert(rows)];
      && Runs(EMPTY_DB, es) && Growing(map[], es) && Ledger(map[], es) == rows
      && var db := Exec(EMPTY_DB, START, es).0;
         db.open.None? && TotalVolume(db.candles, db.daily) == 2.0 * Sum(Volumes(rows))
  {
    hide RollupAll, Sum, Runs, Growing, Exec, Ledger;
    var write, begin, end := Upsert(rows), Summarize(c), Delete;
    var db1 := Apply(EMPTY_DB, write);
    assert db1 == Db(rows, map[], None);
    var db2 := Apply(db1, begin);
    assert Before(rows, c) == rows;
    assert db2 == Db(rows, RollupAll(rows), Some(Txn(c, map[])));
    var db3 := Apply(db2, end);
    assert db3 == Db(map[], RollupAll(rows), None);
    var db4 := Apply(db3, write);
    assert db4 == Db(rows, RollupAll(rows), None);
    RunOfFour(write, begin, end, rows, db1, db2, db3, db4);
    GroupedVolume(rows);
  }

  lemma RunCons(db: Db, f: Frontier, ledger: CandleTable, e: Event, es: seq<Event>)
    requires Enabled(db, e) && Runs(Apply(db, e), es)
    requires e.Upsert? ==> forall k :: k in e.rows ==> AtLeast(e.rows[k].volume, ledger, k)
    ensures Runs(db, [e] + es) && Exec(db, f, [e] + es) == Exec(Apply(db, e), Move(f, e), es)
    ensures Ledger(ledger, [e] + es) == Ledger(WithWrite(ledger, e), es)
    ensures Growing(ledger, [e] + es) <==> Growing(WithWrite(ledger, e), es)
  {
    hide Apply, Enabled, Move, WithWrite, AtLeast;
    assert ([e] + es)[0] == e && ([e] + es)[1..] == es;
  }

  lemma RunOfFour(e1: Event, e2: Event, e3: Event, rows: CandleTable, db1: Db, db2: Db, db3: Db, db4: Db)
    requires e1 == Upsert(rows) && e2.Summarize? && e3.Delete? && forall k :: k in rows ==> rows[k].volume >= 0.0
    requires db1 == Apply(EMPTY_DB, e1) && Enabled(db1, e2) && db2 == Apply(db1, e2)
    requires Enabled(db2, e3) && db3 == Apply(db2, e3) && db4 == Apply(db3, e1)
    ensures var es := [e1, e2, e3, e1];
      && Runs(EMPTY_DB, es) && Growing(map[], es) && Ledger(map[], es) == rows && Exec(EMPTY_DB, START, es).0 == db4
  {
    hide Apply, Move;
    var f1 := Move(START, e1);
    var f2 := Move(f1, e2);
    var f3 := Move(f2, e3);
    assert map[] + rows == rows && rows + rows == rows;
    assert [e1] == [e1] + [] && [e3, e1] == [e3] + [e1] && [e2, e3, e1] == [e2] + [e3, e1];
    assert [e1, e2, e3, e1] == [e1] + [e2, e3, e1];
    RunCons(db3, f3, rows, e1, []);
    RunCons(db2, f2, rows, e3, [e1]);
    RunCons(db1, f1, rows, e2, [e3, e1]);
    RunCons(EMPTY_DB, START, map[], e1, [e2, e3, e1]);
  }

  // ---------- conservation over a run ----------

  ghost predicate Taken(cuts: seq<Cut>, k: Key) {
    exists i :: 0 <= i < |cuts| && InCut(cuts[i], k)
  }

  // The candles whose rollup a later cut has overwritten.
  ghost function Lost(m: CandleTable, cuts: seq<Cut>): CandleTable {
    map k | k in m && Taken(cuts, k) && !Survives(m, cuts, k) :: m[k]
  }

  // Candles k and l of one day, the first in an earlier cut than the second.
  ghost predicate SplitDay(m: CandleTable, cuts: seq<Cut>, i: int, j: int, k: Key, l: Key) {
    && 0 <= i < j < |cuts| && k in m && l in m
    && InCut(cuts[i], k) && InCut(cuts[j], l) && GroupOf(k) == GroupOf(l)
  }

  // Two cuts hold candles of one day, with volume in the earlier one.
  ghost predicate SplitsVolume(m: CandleTable, cuts: seq<Cut>) {
    exists i, j, k, l :: SplitDay(m, cuts, i, j, k, l) && m[k].volume > 0.0
  }

  lemma {:induction false} TilesCover(cuts: seq<Cut>, lo: int, hi: int, k: Key)
    requires Tiles(cuts, lo, hi)
    ensures Taken(cuts, k) <==> lo <= k.start < hi
    ensures forall i, j :: 0 <= i < |cuts| && 0 <= j < |cuts| && InCut(cuts[i], k) && InCut(cuts[j], k) ==> i == j
  {
    if cuts != [] {
      var n := |cuts| - 1;
      TilesCover(cuts[..n], lo, cuts[n].lo, k);
      TilesBounds(cuts[..n], lo, cuts[n].lo);
      assert forall i :: 0 <= i < n ==> cuts[i] == cuts[..n][i] && cuts[i] in cuts[..n];
      if InCut(cuts[n], k) {
        assert Taken(cuts, k);
      }
      if Taken(cuts[..n], k) {
        var i :| 0 <= i < n && InCut(cuts[..n][i], k);
        assert InCut(cuts[i], k);
      }
    }
  }

  lemma LostIsSplit(m: CandleTable, cuts: seq<Cut>, k: Key)
    requires k in Lost(m, cuts)
    ensures exists i, j, l :: SplitDay(m, cuts, i, j, k, l)
  {
    var i :| 0 <= i < |cuts| && InCut(cuts[i], k);
    var j :| i < j < |cuts| && Touches(m, cuts[j], GroupOf(k));
    var l :| l in Between(m, cuts[j]) && GroupOf(l) == GroupOf(k);
    assert SplitDay(m, cuts, i, j, k, l);
  }

  lemma SplitIsLost(m: CandleTable, cuts: seq<Cut>, d: int, i: int, j: int, k: Key, l: Key)
    requires Tiles(cuts, 0, d) && SplitDay(m, cuts, i, j, k, l)
    ensures k in Lost(m, cuts)
  {
    TilesCover(cuts, 0, d, k);
    assert l in Between(m, cuts[j]) && Touches(m, cuts[j], GroupOf(k));
  }

  // The surviving candles, the lost ones and the live ones make up the ledger.
  lemma ThreeParts(m: CandleTable, cuts: seq<Cut>, d: int)
    requires Tiles(cuts, 0, d) && forall k :: k in m ==> 0 <= k.start
    ensures m == Kept(m, cuts) + Lost(m, cuts) + From(m, d)
    ensures Kept(m, cuts).Keys !! Lost(m, cuts).Keys
    ensures (Kept(m, cuts) + Lost(m, cuts)).Keys !! From(m, d).Keys
  {
    hide Taken, Survives, Tiles;
    forall k
      ensures Taken(cuts, k) <==> 0 <= k.start < d
      ensures Survives(m, cuts, k) ==> Taken(cuts, k)
    {
      TilesCover(cuts, 0, d, k);
      SurvivorTaken(m, cuts, k);
    }
  }

  lemma SurvivorTaken(m: CandleTable, cuts: seq<Cut>, k: Key)
    ensures Survives(m, cuts, k) ==> Taken(cuts, k)
  {
  }

  // What the tables hold and what was lost is what was written.
  lemma {:induction false} LedgerBalance(m: CandleTable, cuts: seq<Cut>, d: int)
    requires Tiles(cuts, 0, d) && forall k :: k in m ==> 0 <= k.start
    ensures TotalVolume(From(m, d), Folded(m, cuts)) + Sum(Volumes(Lost(m, cuts))) == Sum(Volumes(m))
  {
    hide RollupAll, Volumes, From, Sum, DailyVolumes, Kept, Lost, Folded;
    FoldedIsRollup(m, cuts);
    GroupedVolume(Kept(m, cuts));
    ThreeParts(m, cuts, d);
    VolumeUnion(Kept(m, cuts), Lost(m, cuts));
    VolumeUnion(Kept(m, cuts) + Lost(m, cuts), From(m, d));
  }

  lemma {:induction false} NothingLostIff(m: CandleTable, cuts: seq<Cut>, d: int)
    requires Tiles(cuts, 0, d) && forall k :: k in m ==> m[k].volume >= 0.0
    ensures Sum(Volumes(Lost(m, cuts))) == 0.0 <==> !SplitsVolume(m, cuts)
  {
    hide Sum;
    var lost := Volumes(Lost(m, cuts));
    SumNonNegative(lost);
    if k :| k in lost && lost[k] != 0.0 {
      LostIsSplit(m, cuts, k);
    }
    if SplitsVolume(m, cuts) {
      var i, j, k, l :| SplitDay(m, cuts, i, j, k, l) && k in m && m[k].volume > 0.0;
      SplitIsLost(m, cuts, d, i, j, k, l);
      assert k in lost && lost[k] > 0.0;
    }
  }

  // Any run with any cutoffs, upserts anywhere between the statements, commits and aborts: between
  // purges the tables hold the live candles and the fold of the cuts; their volume and that of the
  // overwritten candles is the volume written; and it is all of it if and only if no two cuts hold
  // candles of one day with volume in the earlier one.
  lemma {:induction false} RunsConserveIff(es: seq<Event>)
    requires Runs(EMPTY_DB, es) && OrderlyRun(START, es)
    ensures var (db, f) := Exec(EMPTY_DB, START, es);
      var written := Ledger(map[], es);
      db.open.None? ==>
        && Tiles(f.cuts, 0, f.deleted)
        && db.candles == From(written, f.deleted)
        && db.daily == Folded(written, f.cuts)
        && TotalVolume(db.candles, db.daily) + Sum(Volumes(Lost(written, f.cuts))) == Sum(Volumes(written))
        && ((forall k :: k in written ==> written[k].volume >= 0.0) ==>
              (TotalVolume(db.candles, db.daily) == Sum(Volumes(written)) <==> !SplitsVolume(written, f.cuts)))
  {
    hide TotalVolume, Exec, Ledger, Folded, Lost, Sum, SplitsVolume, Tiles, Volumes;
    StartSettled();
    SettledRun(EMPTY_DB, map[], START, es);
    var (db, f) := Exec(EMPTY_DB, START, es);
    var written := Ledger(map[], es);
    if db.open.None? {
      LedgerBalance(written, f.cuts, f.deleted);
      if forall k :: k in written ==> written[k].volume >= 0.0 {
        NothingLostIff(written, f.cuts, f.deleted);
      }
    }
  }

  lemma StartSettled()
    ensures Settled(EMPTY_DB, map[], START)
  {
  }

  // ---------- cutoffs on midnight ----------

  // The cutoff falls on UTC midnight, or less than a minute before, which selects the same candles.
  predicate OnMidnight(c: int) {
    (-c) % DAY < MINUTE
  }

  lemma {:induction false} MidnightExactly(c: int)
    ensures OnMidnight(c) <==> exists day :: day * 86400000 - 60000 < c <= day * 86400000
  {
    var r := (-c) % DAY;
    var day := (c + r) / DAY;
    assert c + r == day * 86400000;
    if day' :| day' * 86400000 - 60000 < c <= day' * 86400000 {
      assert (day' - day) * 86400000 == day' * 86400000 - c - r;
    }
    if OnMidnight(c) {
      assert day * 86400000 - 60000 < c <= day * 86400000;
    }
  }

  ghost predicate MinuteKeys(m: CandleTable) {
    forall k :: k in m ==> k.start % MINUTE == 0
  }

  ghost predicate Aligned(cuts: seq<Cut>) {
    forall c :: c in cuts ==> OnMidnight(c.hi)
  }

  // In minutes: day starts at 1440 * day, the cutoff lies within the minute before 1440 * q.
  lemma WholeMinutes(q: int, day: int, m: int)
    requires 1440 * day <= m < 1440 * day + 1440
    ensures m <= 1440 * q - 1 <==> day < q
  {
  }

  lemma NextMidnight(d: int) returns (q: int, r: int)
    requires OnMidnight(d)
    ensures d == DAY * q - r && 0 <= r < MINUTE
  {
    q, r := -((-d) / DAY), (-d) % DAY;
  }

  lemma MinutesOf(start: int, day: int) returns (m: int)
    requires start % MINUTE == 0 && day * DAY <= start < day * DAY + DAY
    ensures start == MINUTE * m && 1440 * day <= m < 1440 * day + 1440
  {
    m := start / MINUTE;
  }

  lemma BoundInMinutes(d: int, q: int, r: int, day: int, m: int)
    requires d == DAY * q - r && 0 <= r < MINUTE
    ensures MINUTE * m < d <==> m <= 1440 * q - 1
    ensures day * DAY < d <==> day < q
  {
  }

  lemma MidnightBound(d: int, day: int, start: int)
    requires OnMidnight(d) && start % MINUTE == 0 && day * DAY <= start < day * DAY + DAY
    ensures start < d <==> day * DAY < d
  {
    hide OnMidnight;
    var q, r := NextMidnight(d);
    var m := MinutesOf(start, day);
    WholeMinutes(q, day, m);
    BoundInMinutes(d, q, r, day, m);
  }

  // A cutoff on midnight does not part the minutes of a day.
  lemma MidnightParts(c: int, k: Key, l: Key)
    requires OnMidnight(c) && k.start % MINUTE == 0 && l.start % MINUTE == 0
    requires k.start < c <= l.start
    ensures GroupOf(k) != GroupOf(l)
  {
    hide OnMidnight;
    MidnightBound(c, DayOf(k.start), k.start);
    MidnightBound(c, DayOf(l.start), l.start);
  }

  lemma NoSplitDay(m: CandleTable, cuts: seq<Cut>, d: int, i: int, j: int, k: Key, l: Key)
    requires Aligned(cuts) && MinuteKeys(m) && Tiles(cuts, 0, d)
    ensures !SplitDay(m, cuts, i, j, k, l)
  {
    if SplitDay(m, cuts, i, j, k, l) {
      TilesOrdered(cuts, 0, d, i, j);
      assert cuts[i] in cuts;
      MidnightParts(cuts[i].hi, k, l);
    }
  }

  lemma {:induction false} TilesOrdered(cuts: seq<Cut>, lo: int, hi: int, i: int, j: int)
    requires Tiles(cuts, lo, hi) && 0 <= i < j < |cuts|
    ensures cuts[i].hi <= cuts[j].lo
  {
    var n := |cuts| - 1;
    if j == n {
      TilesBounds(cuts[..n], lo, cuts[n].lo);
      assert cuts[..n][i] in cuts[..n];
    } else {
      TilesOrdered(cuts[..n], lo, cuts[n].lo, i, j);
    }
  }

  lemma {:induction false} AlignedKeepsAll(m: CandleTable, cuts: seq<Cut>, d: int)
    requires Aligned(cuts) && MinuteKeys(m) && Tiles(cuts, 0, d) && forall k :: k in m ==> 0 <= k.start
    ensures Lost(m, cuts) == map[] && Kept(m, cuts) == Before(m, d)
  {
    hide Survives, SplitDay, Taken;
    forall k | k in m
      ensures Survives(m, cuts, k) <==> k.start < d
    {
      TilesCover(cuts, 0, d, k);
      SurvivorTaken(m, cuts, k);
      if k in Lost(m, cuts) {
        LostIsSplit(m, cuts, k);
        forall i, j, l { NoSplitDay(m, cuts, d, i, j, k, l); }
      }
      assert Taken(cuts, k) <==> k.start < d;
    }
    forall k
      ensures k !in Lost(m, cuts)
    {
      TilesCover(cuts, 0, d, k);
    }
  }

  predicate AlignedEvent(e: Event) {
    e.Summarize? ==> OnMidnight(e.cutoff)
  }

  ghost predicate AlignedFrontier(f: Frontier) {
    Aligned(f.cuts) && OnMidnight(f.deleted) && OnMidnight(f.rolled)
  }

  lemma {:induction false} AlignedRun(db: Db, f: Frontier, es: seq<Event>)
    requires Runs(db, es) && AlignedFrontier(f) && forall e :: e in es ==> AlignedEvent(e)
    ensures AlignedFrontier(Exec(db, f, es).1)
    decreases |es|
  {
    hide Apply, OnMidnight;
    if es != [] {
      assert es[0] in es;
      AlignedMove(f, es[0]);
      AlignedRun(Apply(db, es[0]), Move(f, es[0]), es[1..]);
    }
  }

  lemma AlignedMove(f: Frontier, e: Event)
    requires AlignedFrontier(f) && AlignedEvent(e)
    ensures AlignedFrontier(Move(f, e))
  {
  }

  // So where every cutoff falls on midnight each daily row is the rollup of all the candles of its
  // day, and no volume is lost.
  lemma {:induction false} AlignedRunsConserve(es: seq<Event>)
    requires Runs(EMPTY_DB, es) && OrderlyRun(START, es) && MinuteKeys(Ledger(map[], es))
    requires forall e :: e in es ==> AlignedEvent(e)
    ensures var (db, f) := Exec(EMPTY_DB, START, es);
      db.open.None? ==>
        && db.candles == From(Ledger(map[], es), f.deleted)
        && db.daily == RollupAll(Before(Ledger(map[], es), f.deleted))
        && TotalVolume(db.candles, db.daily) == Sum(Volumes(Ledger(map[], es)))
  {
    hide TotalVolume, Exec, Ledger, Folded, Lost, Sum, SplitsVolume, Tiles, Volumes, Kept, MinuteKeys, AlignedEvent;
    StartSettled();
    SettledRun(EMPTY_DB, map[], START, es);
    RunsConserveIff(es);
    AlignedRun(EMPTY_DB, START, es);
    var (db, f) := Exec(EMPTY_DB, START, es);
    if db.open.None? {
      AlignedKeepsAll(Ledger(map[], es), f.cuts, f.deleted);
      FoldedIsRollup(Ledger(map[], es), f.cuts);
      NoVolume();
    }
  }

  lemma NoVolume()
    ensures Sum(Volumes(map[])) == 0.0
  {
  }
}
