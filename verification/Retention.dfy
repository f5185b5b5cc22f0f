// Retention: old one-minute candles are rolled up into daily rows and then deleted, while the
// stream keeps upserting candles.
module Retention {
  import opened Options
  import opened Trades
  import opened Candles
  import opened Sums

  // A row of analytics.daily_summary; a day without volume has no vwap.
  datatype DailyRow = DailyRow(vwap: Option<real>, totalVolume: real, high: real, low: real)

  type CandleTable = map<Key, Candle>
  type DailyTable = map<Group, DailyRow>

  function Before(m: CandleTable, c: int): CandleTable {
    map k | k in m && k.start < c :: m[k]
  }

  function From(m: CandleTable, c: int): CandleTable {
    map k | k in m && c <= k.start :: m[k]
  }

  function GroupsOf(m: CandleTable): set<Group> {
    set k | k in m :: GroupOf(k)
  }

  function Part(m: CandleTable, g: Group): CandleTable {
    map k | k in m && GroupOf(k) == g :: m[k]
  }

  function Volumes(m: CandleTable): map<Key, real> {
    map k | k in m :: m[k].volume
  }

  function Quotes(m: CandleTable): map<Key, real> {
    map k | k in m && m[k].quoteVolume.Some? :: m[k].quoteVolume.value
  }

  function Highs(m: CandleTable): map<Key, real> {
    map k | k in m :: m[k].high
  }

  function Lows(m: CandleTable): map<Key, real> {
    map k | k in m :: m[k].low
  }

  function Vwap(quotes: Option<real>, volume: real): Option<real> {
    if volume > 0.0 && quotes.Some? then Some(quotes.value / volume) else None
  }

  // SUM over a nullable column.
  ghost function QuoteTotal(m: CandleTable): Option<real> {
    if Quotes(m) == map[] then None else Some(Sum(Quotes(m)))
  }

  // The SELECT list of the rollup over one (trade_date, symbol) group.
  ghost function Rollup(m: CandleTable): DailyRow
    requires m != map[]
  {
    assert Highs(m).Keys == m.Keys && Lows(m).Keys == m.Keys;
    DailyRow(Vwap(QuoteTotal(m), Sum(Volumes(m))), Sum(Volumes(m)), MaxOf(Highs(m)), MinOf(Lows(m)))
  }

  lemma PartNonEmpty(m: CandleTable, g: Group)
    ensures Part(m, g) != map[] <==> g in GroupsOf(m)
  {
    if g in GroupsOf(m) {
      var k :| k in m && GroupOf(k) == g;
      assert k in Part(m, g);
    }
    assert forall k :: k in Part(m, g) ==> k in m && GroupOf(k) == g;
    if Part(m, g) != map[] {
      assert Part(m, g).Keys != {};
      var k :| k in Part(m, g);
    }
  }

  ghost function RollupAll(m: CandleTable): (d: DailyTable)
    ensures d.Keys == GroupsOf(m)
  {
    map g | g in GroupsOf(m) :: (PartNonEmpty(m, g); Rollup(Part(m, g)))
  }

  // ---------- conservation of volume by one purge ----------

  function DailyVolumes(d: DailyTable): map<Group, real> {
    map g | g in d :: d[g].totalVolume
  }

  ghost function TotalVolume(candles: CandleTable, daily: DailyTable): real {
    Sum(DailyVolumes(daily)) + Sum(Volumes(candles))
  }

  function Others(m: CandleTable, g: Group): CandleTable {
    map k | k in m && GroupOf(k) != g :: m[k]
  }

  lemma VolumeUnion(a: CandleTable, b: CandleTable)
    requires a.Keys !! b.Keys
    ensures Sum(Volumes(a + b)) == Sum(Volumes(a)) + Sum(Volumes(b))
  {
    hide Sum;
    assert Volumes(a + b) == Volumes(a) + Volumes(b);
    SumUnion(Volumes(a), Volumes(b));
  }

  lemma DailyUnion(a: DailyTable, b: DailyTable)
    requires a.Keys !! b.Keys
    ensures Sum(DailyVolumes(a + b)) == Sum(DailyVolumes(a)) + Sum(DailyVolumes(b))
  {
    hide Sum;
    assert DailyVolumes(a + b) == DailyVolumes(a) + DailyVolumes(b);
    SumUnion(DailyVolumes(a), DailyVolumes(b));
  }

  lemma SplitGroup(m: CandleTable, g: Group)
    ensures Sum(Volumes(m)) == Sum(Volumes(Part(m, g))) + Sum(Volumes(Others(m, g)))
  {
    hide Sum, Volumes;
    assert m == Part(m, g) + Others(m, g);
    VolumeUnion(Part(m, g), Others(m, g));
  }

  lemma OthersRollup(m: CandleTable, g: Group)
    requires g in GroupsOf(m)
    ensures GroupsOf(Others(m, g)) == GroupsOf(m) - {g}
    ensures RollupAll(Others(m, g)) == RollupAll(m) - {g}
  {
    var rest := Others(m, g);
    forall h | h in GroupsOf(m) && h != g
      ensures h in GroupsOf(rest)
    {
      var k :| k in m && GroupOf(k) == h;
      assert k in rest;
    }
    forall h | h in GroupsOf(rest)
      ensures Part(rest, h) == Part(m, h)
    {
    }
  }

  lemma RollupRow(m: CandleTable, g: Group)
    requires g in GroupsOf(m)
    ensures DailyVolumes(RollupAll(m))[g] == Sum(Volumes(Part(m, g)))
  {
  }

  lemma NoCandles(m: CandleTable)
    requires m == map[]
    ensures Sum(DailyVolumes(RollupAll(m))) == 0.0 && Sum(Volumes(m)) == 0.0
  {
  }

  lemma TakeGroup(m: CandleTable, g: Group)
    requires g in GroupsOf(m)
    ensures Sum(DailyVolumes(RollupAll(m))) == Sum(Volumes(Part(m, g))) + Sum(DailyVolumes(RollupAll(Others(m, g))))
  {
    hide Rollup, Sum, Volumes;
    OthersRollup(m, g);
    RollupRow(m, g);
    SumRemove(DailyVolumes(RollupAll(m)), g);
    assert DailyVolumes(RollupAll(m)) - {g} == DailyVolumes(RollupAll(m) - {g});
  }

  // Grouping a table by day and symbol loses no volume.
  lemma {:induction false} GroupedVolume(m: CandleTable)
    ensures Sum(DailyVolumes(RollupAll(m))) == Sum(Volumes(m))
    decreases m.Keys
  {
    hide Rollup, Sum, RollupAll, DailyVolumes, Volumes;
    if m == map[] {
      NoCandles(m);
    } else {
      var k :| k in m;
      var g := GroupOf(k);
      SplitGroup(m, g);
      TakeGroup(m, g);
      assert Others(m, g).Keys < m.Keys;
      GroupedVolume(Others(m, g));
    }
  }

  // The daily rows a purge replaces.
  function Replaced(candles: CandleTable, daily: DailyTable, c: int): DailyTable {
    map g | g in daily && g in GroupsOf(Before(candles, c)) :: daily[g]
  }

  ghost function Summarized(candles: CandleTable, daily: DailyTable, c: int): DailyTable {
    daily + RollupAll(Before(candles, c))
  }

  lemma OverwriteVolume(daily: DailyTable, rolled: DailyTable)
    ensures Sum(DailyVolumes(daily + rolled)) + Sum(DailyVolumes(daily - (daily.Keys - rolled.Keys)))
         == Sum(DailyVolumes(daily)) + Sum(DailyVolumes(rolled))
  {
    hide Sum, DailyVolumes;
    var kept, replaced := daily - rolled.Keys, daily - (daily.Keys - rolled.Keys);
    assert daily + rolled == kept + rolled;
    DailyUnion(kept, rolled);
    assert daily == kept + replaced;
    DailyUnion(kept, replaced);
  }

  lemma SummarizeVolume(candles: CandleTable, daily: DailyTable, c: int)
    ensures Sum(DailyVolumes(Summarized(candles, daily, c))) + Sum(DailyVolumes(Replaced(candles, daily, c)))
         == Sum(DailyVolumes(daily)) + Sum(Volumes(Before(candles, c)))
  {
    hide Rollup, Sum, DailyVolumes, Volumes;
    var rolled := RollupAll(Before(candles, c));
    OverwriteVolume(daily, rolled);
    GroupedVolume(Before(candles, c));
    assert Replaced(candles, daily, c) == daily - (daily.Keys - rolled.Keys);
  }

  // A purge moves volume from candles to days and loses exactly the volume of the rows it
  // replaces.
  lemma PurgeBalance(candles: CandleTable, daily: DailyTable, c: int)
    ensures TotalVolume(From(candles, c), Summarized(candles, daily, c)) + Sum(DailyVolumes(Replaced(candles, daily, c)))
         == TotalVolume(candles, daily)
  {
    hide Sum, Volumes, DailyVolumes, Summarized, Replaced;
    SummarizeVolume(candles, daily, c);
    assert candles == Before(candles, c) + From(candles, c);
    VolumeUnion(Before(candles, c), From(candles, c));
  }

  // So a purge conserves volume exactly when every daily row it replaces was empty.
  lemma PurgeConservesIff(candles: CandleTable, daily: DailyTable, c: int)
    requires forall g :: g in daily ==> daily[g].totalVolume >= 0.0
    ensures TotalVolume(From(candles, c), Summarized(candles, daily, c)) == TotalVolume(candles, daily)
       <==> forall g :: g in daily && g in GroupsOf(Before(candles, c)) ==> daily[g].totalVolume == 0.0
  {
    PurgeBalance(candles, daily, c);
    var lost := DailyVolumes(Replaced(candles, daily, c));
    SumNonNegative(lost);
    assert forall g :: g in lost <==> g in daily && g in GroupsOf(Before(candles, c));
    assert forall g :: g in lost ==> lost[g] == daily[g].totalVolume;
  }

  // Whenever two purges cut the same day in the middle, the second replaces what the first
  // wrote, and the volume of the first part of the day is lost.
  lemma SecondPurgeLoses(candles: CandleTable, c: int, d: int, early: Key, late: Key)
    requires early in candles && late in candles && GroupOf(early) == GroupOf(late)
    requires early.start < c <= late.start < d
    requires candles[early].volume > 0.0 && forall k :: k in candles ==> candles[k].volume >= 0.0
    ensures var once := Summarized(candles, map[], c);
      TotalVolume(From(From(candles, c), d), Summarized(From(candles, c), once, d)) < TotalVolume(candles, map[])
  {
    hide Rollup, Sum, Volumes, DailyVolumes, Summarized, Replaced, TotalVolume;
    var live, once := From(candles, c), Summarized(candles, map[], c);
    PurgeBalances(candles, c, d);
    LostRows(candles, c, d, early, late);
    SumNonNegative(DailyVolumes(Replaced(live, once, d)));
  }

  lemma PurgeBalances(candles: CandleTable, c: int, d: int)
    ensures var live, once := From(candles, c), Summarized(candles, map[], c);
      TotalVolume(From(live, d), Summarized(live, once, d)) + Sum(DailyVolumes(Replaced(live, once, d)))
        == TotalVolume(candles, map[])
  {
    hide RollupAll, Sum, Volumes, Summarized, TotalVolume, From;
    PurgeBalance(candles, map[], c);
    PurgeBalance(From(candles, c), Summarized(candles, map[], c), d);
    assert Replaced(candles, map[], c) == map[];
    SumEmpty();
  }

  // The rows the second purge replaces, that of the split day among them.
  lemma LostRows(candles: CandleTable, c: int, d: int, early: Key, late: Key)
    requires early in candles && late in candles && GroupOf(early) == GroupOf(late)
    requires early.start < c <= late.start < d
    requires candles[early].volume > 0.0 && forall k :: k in candles ==> candles[k].volume >= 0.0
    ensures var lost := DailyVolumes(Replaced(From(candles, c), Summarized(candles, map[], c), d));
      && (forall h :: h in lost ==> lost[h] >= 0.0)
      && GroupOf(early) in lost && lost[GroupOf(early)] > 0.0
  {
    hide Rollup, Sum, Volumes, Part, GroupOf;
    var doomed, live := Before(candles, c), From(candles, c);
    var once := Summarized(candles, map[], c);
    assert early in doomed && late in Before(live, d);
    forall h | h in once
      ensures once[h].totalVolume >= 0.0 && (h == GroupOf(early) ==> once[h].totalVolume > 0.0)
    {
      RollupRow(doomed, h);
      PartVolume(doomed, h, early);
    }
  }

  lemma SumEmpty()
    ensures Sum<Group>(map[]) == 0.0
    ensures DailyVolumes(map[]) == map[]
  {
  }

  lemma PartVolume(m: CandleTable, g: Group, k: Key)
    requires k in m && m[k].volume > 0.0 && forall j :: j in m ==> m[j].volume >= 0.0
    ensures Sum(Volumes(Part(m, g))) >= 0.0
    ensures g == GroupOf(k) ==> Sum(Volumes(Part(m, g))) > 0.0
  {
    var v := Volumes(Part(m, g));
    SumNonNegative(v);
    assert g == GroupOf(k) ==> k in v && v[k] > 0.0;
  }
}
