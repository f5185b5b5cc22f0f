// The cursor loop that fetches aggregate trades page by page.
module Pagination {
  import opened Options

  // The fields of an aggTrades item that matter here.
  datatype AggTrade = AggTrade(id: int, timeMs: int)

  // The answer to the n-th request, for times from..to; nothing is assumed of it.
  type Server = (nat, int, int) -> seq<AggTrade>

  // ---------- any server ----------

  // What the loop returns from a cursor on.
  function Fetched(server: Server, cursor: int, endMs: int, limit: nat, n: nat): seq<AggTrade>
    decreases endMs - cursor
  {
    if cursor >= endMs then []
    else
      var page := server(n, cursor, endMs);
      if page == [] || |page| < limit || page[|page| - 1].timeMs + 1 <= cursor then page
      else page + Fetched(server, page[|page| - 1].timeMs + 1, endMs, limit, n + 1)
  }

  // What is still to come, before and after one turn of the loop.
  lemma OneTurn(server: Server, cursor: int, endMs: int, limit: nat, n: nat, page: seq<AggTrade>, sofar: seq<AggTrade>)
    requires cursor < endMs && page == server(n, cursor, endMs)
    ensures page == [] || |page| < limit || page[|page| - 1].timeMs + 1 <= cursor ==>
      sofar + Fetched(server, cursor, endMs, limit, n) == sofar + page
    ensures page != [] && |page| >= limit && cursor < page[|page| - 1].timeMs + 1 ==>
      sofar + Fetched(server, cursor, endMs, limit, n)
        == (sofar + page) + Fetched(server, page[|page| - 1].timeMs + 1, endMs, limit, n + 1)
  {
  }

  lemma RangeDone(server: Server, cursor: int, endMs: int, limit: nat, n: nat, sofar: seq<AggTrade>)
    ensures cursor >= endMs ==> sofar + Fetched(server, cursor, endMs, limit, n) == sofar
    ensures [] + Fetched(server, cursor, endMs, limit, n) == Fetched(server, cursor, endMs, limit, n)
  {
  }

  // Terminates against every server, after at most one request per millisecond of the range.
  method FetchAggTrades(server: Server, startMs: int, endMs: int, limit: nat)
      returns (allTrades: seq<AggTrade>, requests: nat)
    ensures allTrades == Fetched(server, startMs, endMs, limit, 0)
    ensures requests <= Max(0, endMs - startMs)
  {
    hide Fetched;
    allTrades, requests := [], 0;
    var cursor := startMs;
    RangeDone(server, cursor, endMs, limit, 0, []);
    while cursor < endMs
      invariant startMs <= cursor
      invariant requests <= Max(0, Min(cursor, endMs) - startMs)
      invariant allTrades + Fetched(server, cursor, endMs, limit, requests) == Fetched(server, startMs, endMs, limit, 0)
      decreases endMs - cursor
    {
      var page := server(requests, cursor, endMs);
      OneTurn(server, cursor, endMs, limit, requests, page, allTrades);
      requests := requests + 1;
      if page == [] {
        return;
      }
      allTrades := allTrades + page;
      var lastTs := page[|page| - 1].timeMs;
      if |page| < limit {
        return;
      }
      var nextCursor := lastTs + 1;
      if nextCursor <= cursor {
        return;
      }
      cursor := nextCursor;
    }
    RangeDone(server, cursor, endMs, limit, requests, allTrades);
  }

  // ---------- a server with a time-ordered log ----------

  ghost predicate Sorted(log: seq<AggTrade>) {
    forall i, j :: 0 <= i < j < |log| ==> log[i].timeMs <= log[j].timeMs
  }

  // How many log entries are earlier than t.
  function Lo(log: seq<AggTrade>, t: int): (i: nat)
    ensures i <= |log|
    ensures Sorted(log) ==> (forall j :: 0 <= j < i ==> log[j].timeMs < t) && (forall j :: i <= j < |log| ==> t <= log[j].timeMs)
  {
    var n := |log| - 1;
    if n < 0 then 0
    else if log[n].timeMs < t then |log|
    else Lo(log[..n], t)
  }

  // The first `limit` entries with from <= T <= to.
  function Page(log: seq<AggTrade>, from: int, to: int, limit: nat): seq<AggTrade> {
    var lo, hi := Lo(log, from), Lo(log, to + 1);
    if hi <= lo then [] else log[lo..Min(lo + limit, hi)]
  }

  ghost predicate Serves(server: Server, log: seq<AggTrade>, limit: nat) {
    forall n, from, to :: server(n, from, to) == Page(log, from, to, limit)
  }

  // A page as the range lo..hi of log positions.
  datatype Slice = Slice(lo: nat, hi: nat)

  // The pages the loop reads.
  ghost function Slices(log: seq<AggTrade>, cursor: int, endMs: int, limit: nat): (s: seq<Slice>)
    requires Sorted(log)
    ensures forall p :: p in s ==> Lo(log, cursor) <= p.lo < p.hi <= |log| && p.hi <= Lo(log, endMs + 1) && p.hi - p.lo <= limit
    decreases endMs - cursor
  {
    if cursor >= endMs then []
    else
      var lo, hi := Lo(log, cursor), Lo(log, endMs + 1);
      if hi <= lo || limit == 0 then []
      else if hi - lo < limit then [Slice(lo, hi)]
      else
        LoMonotone(log, cursor, log[lo + limit - 1].timeMs + 1);
        [Slice(lo, lo + limit)] + Slices(log, log[lo + limit - 1].timeMs + 1, endMs, limit)
  }

  lemma LoMonotone(log: seq<AggTrade>, t: int, u: int)
    requires Sorted(log) && t <= u
    ensures Lo(log, t) <= Lo(log, u)
  {
  }

  // The position after an entry is not beyond the first later millisecond.
  lemma LoAfter(log: seq<AggTrade>, i: nat)
    requires Sorted(log) && i < |log|
    ensures i < Lo(log, log[i].timeMs + 1)
  {
  }

  ghost predicate IsFetched(slices: seq<Slice>, i: nat) {
    exists p :: p in slices && p.lo <= i < p.hi
  }

  ghost predicate Full(p: Slice, limit: nat) {
    p.hi - p.lo == limit
  }

  // Entry i comes after a full page, and either shares its last millisecond, or lies at the end
  // of the range while the page stopped one millisecond before.
  ghost predicate CutOff(log: seq<AggTrade>, p: Slice, i: nat, endMs: int, limit: nat)
    requires p.lo < p.hi <= |log| && i < |log|
  {
    && Full(p, limit) && p.hi <= i
    && var last := log[p.hi - 1].timeMs;
       (log[i].timeMs == last || (log[i].timeMs == endMs && last == endMs - 1))
  }

  ghost predicate IsCutOff(log: seq<AggTrade>, slices: seq<Slice>, i: nat, endMs: int, limit: nat)
    requires forall p :: p in slices ==> p.lo < p.hi <= |log|
    requires i < |log|
  {
    exists p :: p in slices && CutOff(log, p, i, endMs, limit)
  }

  // The pages from a cursor on: the first, then the rest.
  lemma FirstThenRest(log: seq<AggTrade>, cursor: int, endMs: int, limit: nat)
    requires Sorted(log) && cursor < endMs && limit > 0 && Lo(log, cursor) + limit <= Lo(log, endMs + 1)
    ensures var first := Slice(Lo(log, cursor), Lo(log, cursor) + limit);
      var next := log[first.hi - 1].timeMs + 1;
      && cursor < next
      && Slices(log, cursor, endMs, limit) == [first] + Slices(log, next, endMs, limit)
      && forall p :: p in Slices(log, next, endMs, limit) ==> first.hi <= Lo(log, next) <= p.lo
  {
    hide Lo;
  }

  lemma FetchedCons(first: Slice, rest: seq<Slice>, i: nat)
    ensures IsFetched([first] + rest, i) <==> first.lo <= i < first.hi || IsFetched(rest, i)
  {
  }

  lemma CutOffCons(log: seq<AggTrade>, first: Slice, rest: seq<Slice>, i: nat, endMs: int, limit: nat)
    requires i < |log| && first.lo < first.hi <= |log| && forall p :: p in rest ==> p.lo < p.hi <= |log|
    ensures IsCutOff(log, [first] + rest, i, endMs, limit)
       <==> CutOff(log, first, i, endMs, limit) || IsCutOff(log, rest, i, endMs, limit)
  {
  }

  lemma NotLater(log: seq<AggTrade>, slices: seq<Slice>, i: nat, endMs: int, limit: nat)
    requires i < |log| && forall p :: p in slices ==> i < p.lo < p.hi <= |log|
    ensures !IsFetched(slices, i) && !IsCutOff(log, slices, i, endMs, limit)
  {
  }

  // Exactly these trades of the range are missing.
  lemma {:induction false} MissingExactly(log: seq<AggTrade>, cursor: int, endMs: int, limit: nat, i: nat)
    requires Sorted(log) && cursor < endMs && limit > 0
    requires Lo(log, cursor) <= i < Lo(log, endMs + 1)
    ensures !IsFetched(Slices(log, cursor, endMs, limit), i)
       <==> IsCutOff(log, Slices(log, cursor, endMs, limit), i, endMs, limit)
    decreases endMs - cursor
  {
    hide Slices, Lo, IsFetched, IsCutOff;
    var lo, hi := Lo(log, cursor), Lo(log, endMs + 1);
    if hi - lo < limit {
      LastPage(log, cursor, endMs, limit, i);
    } else {
      var last := log[lo + limit - 1].timeMs;
      assert cursor <= last;
      if Lo(log, last + 1) <= i && last + 1 < endMs {
        MissingExactly(log, last + 1, endMs, limit, i);
        LaterPages(log, cursor, endMs, limit, i, last);
      } else {
        SkippedAfter(log, cursor, endMs, limit, i, last);
      }
    }
  }

  // Beyond the last millisecond of a full page the later pages decide.
  lemma LaterPages(log: seq<AggTrade>, cursor: int, endMs: int, limit: nat, i: nat, last: int)
    requires Sorted(log) && cursor < endMs && limit > 0 && i < Lo(log, endMs + 1)
    requires Lo(log, cursor) + limit <= Lo(log, endMs + 1) && last == log[Lo(log, cursor) + limit - 1].timeMs
    requires Lo(log, last + 1) <= i && last + 1 < endMs
    ensures IsFetched(Slices(log, cursor, endMs, limit), i) <==> IsFetched(Slices(log, last + 1, endMs, limit), i)
    ensures IsCutOff(log, Slices(log, cursor, endMs, limit), i, endMs, limit)
       <==> IsCutOff(log, Slices(log, last + 1, endMs, limit), i, endMs, limit)
  {
    hide Slices, Lo, IsFetched, IsCutOff;
    FirstThenRest(log, cursor, endMs, limit);
    var first := Slice(Lo(log, cursor), Lo(log, cursor) + limit);
    var rest := Slices(log, last + 1, endMs, limit);
    FetchedCons(first, rest, i);
    CutOffCons(log, first, rest, i, endMs, limit);
    LoAfter(log, first.hi - 1);
  }

  // Within that millisecond, or when the range ends there, the page itself decides.
  lemma SkippedAfter(log: seq<AggTrade>, cursor: int, endMs: int, limit: nat, i: nat, last: int)
    requires Sorted(log) && cursor < endMs && limit > 0 && Lo(log, cursor) <= i < Lo(log, endMs + 1)
    requires Lo(log, cursor) + limit <= Lo(log, endMs + 1) && last == log[Lo(log, cursor) + limit - 1].timeMs
    requires i < Lo(log, last + 1) || last + 1 >= endMs
    ensures !IsFetched(Slices(log, cursor, endMs, limit), i)
       <==> IsCutOff(log, Slices(log, cursor, endMs, limit), i, endMs, limit)
  {
    hide Slices, Lo, IsFetched, IsCutOff;
    FirstThenRest(log, cursor, endMs, limit);
    var first := Slice(Lo(log, cursor), Lo(log, cursor) + limit);
    var rest := Slices(log, last + 1, endMs, limit);
    FetchedCons(first, rest, i);
    CutOffCons(log, first, rest, i, endMs, limit);
    if i < Lo(log, last + 1) {
      NotLater(log, rest, i, endMs, limit);
    } else {
      NoPages(log, last + 1, endMs, limit, i);
    }
  }

  lemma LastPage(log: seq<AggTrade>, cursor: int, endMs: int, limit: nat, i: nat)
    requires Sorted(log) && cursor < endMs && limit > 0
    requires Lo(log, cursor) <= i < Lo(log, endMs + 1) && Lo(log, endMs + 1) - Lo(log, cursor) < limit
    ensures IsFetched(Slices(log, cursor, endMs, limit), i)
    ensures !IsCutOff(log, Slices(log, cursor, endMs, limit), i, endMs, limit)
  {
  }

  lemma NoPages(log: seq<AggTrade>, cursor: int, endMs: int, limit: nat, i: nat)
    requires Sorted(log) && cursor >= endMs && i < |log|
    ensures !IsFetched(Slices(log, cursor, endMs, limit), i)
    ensures !IsCutOff(log, Slices(log, cursor, endMs, limit), i, endMs, limit)
  {
  }

  // ---------- the result as a subsequence of the log ----------

  function Range(lo: nat, hi: nat): (r: seq<nat>)
    requires lo <= hi
    ensures |r| == hi - lo && forall i :: 0 <= i < |r| ==> r[i] == lo + i
  {
    seq(hi - lo, i => lo + i)
  }

  // The log positions returned, in order.
  ghost function Picks(slices: seq<Slice>): seq<nat>
    requires forall p :: p in slices ==> p.lo < p.hi
  {
    if slices == [] then [] else Range(slices[0].lo, slices[0].hi) + Picks(slices[1..])
  }

  ghost predicate Increasing(s: seq<nat>) {
    forall i, j :: 0 <= i < j < |s| ==> s[i] < s[j]
  }

  lemma {:induction false} PicksAre(slices: seq<Slice>, i: nat)
    requires forall p :: p in slices ==> p.lo < p.hi
    ensures i in Picks(slices) <==> IsFetched(slices, i)
  {
    if slices != [] {
      PicksAre(slices[1..], i);
      var p := slices[0];
      assert slices == [p] + slices[1..];
      assert p.lo <= i < p.hi ==> Range(p.lo, p.hi)[i - p.lo] == i;
    }
  }

  ghost predicate Disjoint(slices: seq<Slice>) {
    && (forall p :: p in slices ==> p.lo < p.hi)
    && forall i, j :: 0 <= i < j < |slices| ==> slices[i].hi <= slices[j].lo
  }

  lemma {:induction false} PicksIncreasing(slices: seq<Slice>)
    requires Disjoint(slices)
    ensures Increasing(Picks(slices))
  {
    if slices != [] {
      var first, rest := slices[0], slices[1..];
      PicksIncreasing(rest);
      forall i | i in Picks(rest)
        ensures first.hi <= i
      {
        PicksAre(rest, i);
      }
      assert forall j :: 0 <= j < |Picks(rest)| ==> Picks(rest)[j] in Picks(rest);
    }
  }

  lemma DisjointCons(first: Slice, rest: seq<Slice>)
    requires first.lo < first.hi && Disjoint(rest) && forall p :: p in rest ==> first.hi <= p.lo
    ensures Disjoint([first] + rest)
  {
  }

  lemma ShortSlices(log: seq<AggTrade>, cursor: int, endMs: int, limit: nat)
    requires Sorted(log) && (cursor >= endMs || limit == 0 || Lo(log, endMs + 1) < Lo(log, cursor) + limit)
    ensures Disjoint(Slices(log, cursor, endMs, limit))
  {
  }

  lemma {:induction false} SlicesDisjoint(log: seq<AggTrade>, cursor: int, endMs: int, limit: nat)
    requires Sorted(log)
    ensures Disjoint(Slices(log, cursor, endMs, limit))
    decreases endMs - cursor
  {
    hide Lo, Disjoint, Slices;
    var lo, hi := Lo(log, cursor), Lo(log, endMs + 1);
    if cursor < endMs && limit > 0 && lo + limit <= hi {
      FirstThenRest(log, cursor, endMs, limit);
      var next := log[lo + limit - 1].timeMs + 1;
      SlicesDisjoint(log, next, endMs, limit);
      DisjointCons(Slice(lo, lo + limit), Slices(log, next, endMs, limit));
    } else {
      ShortSlices(log, cursor, endMs, limit);
    }
  }

  lemma PicksOrdered(log: seq<AggTrade>, cursor: int, endMs: int, limit: nat)
    requires Sorted(log)
    ensures Increasing(Picks(Slices(log, cursor, endMs, limit)))
    ensures forall i :: i in Picks(Slices(log, cursor, endMs, limit)) ==> Lo(log, cursor) <= i < Lo(log, endMs + 1)
  {
    hide Lo;
    var slices := Slices(log, cursor, endMs, limit);
    SlicesDisjoint(log, cursor, endMs, limit);
    PicksIncreasing(slices);
    forall i | i in Picks(slices) ensures Lo(log, cursor) <= i < Lo(log, endMs + 1) {
      PicksAre(slices, i);
    }
  }

  ghost predicate Picked(log: seq<AggTrade>, picks: seq<nat>, trades: seq<AggTrade>) {
    |trades| == |picks| && forall j :: 0 <= j < |picks| ==> picks[j] < |log| && trades[j] == log[picks[j]]
  }

  lemma PickedSlice(log: seq<AggTrade>, lo: nat, hi: nat, picks: seq<nat>, trades: seq<AggTrade>)
    requires lo <= hi <= |log| && Picked(log, picks, trades)
    ensures Picked(log, Range(lo, hi) + picks, log[lo..hi] + trades)
    ensures Picked(log, Range(lo, hi), log[lo..hi])
  {
  }

  lemma FirstSlice(log: seq<AggTrade>, cursor: int, endMs: int, limit: nat)
    requires Sorted(log) && limit > 0 && cursor < endMs && Lo(log, cursor) < Lo(log, endMs + 1)
    ensures var lo, hi := Lo(log, cursor), Lo(log, endMs + 1);
      Picks(Slices(log, cursor, endMs, limit)) ==
        if hi - lo < limit then Range(lo, hi)
        else Range(lo, lo + limit) + Picks(Slices(log, log[lo + limit - 1].timeMs + 1, endMs, limit))
  {
  }

  lemma PageShape(log: seq<AggTrade>, cursor: int, endMs: int, limit: nat)
    requires Sorted(log) && limit > 0 && Lo(log, cursor) < Lo(log, endMs + 1)
    ensures var lo, hi, page := Lo(log, cursor), Lo(log, endMs + 1), Page(log, cursor, endMs, limit);
      && page == (if hi - lo < limit then log[lo..hi] else log[lo..lo + limit])
      && |page| == Min(limit, hi - lo)
      && page[|page| - 1] == log[lo + |page| - 1]
      && cursor <= page[|page| - 1].timeMs
  {
  }

  lemma ServedPage(server: Server, log: seq<AggTrade>, limit: nat, n: nat, from: int, to: int)
    requires Serves(server, log, limit)
    ensures server(n, from, to) == Page(log, from, to, limit)
  {
  }

  lemma TurnFrom(server: Server, cursor: int, endMs: int, limit: nat, n: nat, page: seq<AggTrade>)
    requires cursor < endMs && page == server(n, cursor, endMs)
    ensures page == [] || |page| < limit ==> Fetched(server, cursor, endMs, limit, n) == page
    ensures page != [] && |page| >= limit && cursor <= page[|page| - 1].timeMs ==>
      Fetched(server, cursor, endMs, limit, n) == page + Fetched(server, page[|page| - 1].timeMs + 1, endMs, limit, n + 1)
  {
  }

  // One turn of the loop, by the log.
  lemma FirstPage(server: Server, log: seq<AggTrade>, cursor: int, endMs: int, limit: nat, n: nat)
    requires Sorted(log) && Serves(server, log, limit) && limit > 0 && cursor < endMs
    requires Lo(log, cursor) < Lo(log, endMs + 1)
    ensures var lo, hi := Lo(log, cursor), Lo(log, endMs + 1);
      Fetched(server, cursor, endMs, limit, n) ==
        if hi - lo < limit then log[lo..hi]
        else log[lo..lo + limit] + Fetched(server, log[lo + limit - 1].timeMs + 1, endMs, limit, n + 1)
  {
    hide Lo, Serves, Fetched, Page, Sorted;
    ServedPage(server, log, limit, n, cursor, endMs);
    TurnFrom(server, cursor, endMs, limit, n, Page(log, cursor, endMs, limit));
    PageShape(log, cursor, endMs, limit);
  }

  // The loop picks nothing where there are no pages.
  lemma NoPage(server: Server, log: seq<AggTrade>, cursor: int, endMs: int, limit: nat, n: nat)
    requires Sorted(log) && Serves(server, log, limit) && (cursor >= endMs || Lo(log, endMs + 1) <= Lo(log, cursor))
    ensures Picked(log, Picks(Slices(log, cursor, endMs, limit)), Fetched(server, cursor, endMs, limit, n))
  {
  }

  lemma ShortPagePicked(server: Server, log: seq<AggTrade>, cursor: int, endMs: int, limit: nat, n: nat)
    requires Sorted(log) && Serves(server, log, limit) && limit > 0 && cursor < endMs
    requires Lo(log, cursor) < Lo(log, endMs + 1) < Lo(log, cursor) + limit
    ensures Picked(log, Picks(Slices(log, cursor, endMs, limit)), Fetched(server, cursor, endMs, limit, n))
  {
    hide Lo, Serves, Sorted, Picks, Slices, Fetched;
    FirstPage(server, log, cursor, endMs, limit, n);
    FirstSlice(log, cursor, endMs, limit);
    PickedSlice(log, Lo(log, cursor), Lo(log, endMs + 1), [], []);
  }

  lemma FullPagePicked(server: Server, log: seq<AggTrade>, cursor: int, endMs: int, limit: nat, n: nat, next: int)
    requires Sorted(log) && Serves(server, log, limit) && limit > 0 && cursor < endMs
    requires Lo(log, cursor) + limit <= Lo(log, endMs + 1) && next == log[Lo(log, cursor) + limit - 1].timeMs + 1
    requires Picked(log, Picks(Slices(log, next, endMs, limit)), Fetched(server, next, endMs, limit, n + 1))
    ensures Picked(log, Picks(Slices(log, cursor, endMs, limit)), Fetched(server, cursor, endMs, limit, n))
  {
    hide Lo, Serves, Sorted, Picks, Slices, Fetched, Picked;
    FirstPage(server, log, cursor, endMs, limit, n);
    FirstSlice(log, cursor, endMs, limit);
    PickedSlice(log, Lo(log, cursor), Lo(log, cursor) + limit,
                Picks(Slices(log, next, endMs, limit)), Fetched(server, next, endMs, limit, n + 1));
  }

  // The loop returns the picked entries of the log, in log order.
  lemma {:induction false} FetchedArePicks(server: Server, log: seq<AggTrade>, cursor: int, endMs: int, limit: nat, n: nat)
    requires Sorted(log) && Serves(server, log, limit) && limit > 0
    ensures Picked(log, Picks(Slices(log, cursor, endMs, limit)), Fetched(server, cursor, endMs, limit, n))
    decreases endMs - cursor
  {
    hide Picked, Picks, Slices, Lo, Serves, Fetched;
    var lo, hi := Lo(log, cursor), Lo(log, endMs + 1);
    if cursor >= endMs || hi <= lo {
      NoPage(server, log, cursor, endMs, limit, n);
    } else if hi - lo < limit {
      ShortPagePicked(server, log, cursor, endMs, limit, n);
    } else {
      var next := log[lo + limit - 1].timeMs + 1;
      assert cursor < next;
      FetchedArePicks(server, log, next, endMs, limit, n + 1);
      FullPagePicked(server, log, cursor, endMs, limit, n, next);
    }
  }

  // The account of one backfill against a log server: the result is an ordered, duplicate-free
  // subsequence of the log within the range, and a trade of the range is missing exactly when a
  // full page cut it off.
  lemma FetchAccount(server: Server, log: seq<AggTrade>, startMs: int, endMs: int, limit: nat)
    requires Sorted(log) && Serves(server, log, limit) && limit > 0 && startMs < endMs
    ensures var slices := Slices(log, startMs, endMs, limit);
      var picks := Picks(slices);
      && Increasing(picks) && Picked(log, picks, Fetched(server, startMs, endMs, limit, 0))
      && (forall j :: 0 <= j < |picks| ==> startMs <= log[picks[j]].timeMs <= endMs)
      && (forall i :: 0 <= i < |log| && startMs <= log[i].timeMs <= endMs ==>
            (i !in picks <==> IsCutOff(log, slices, i, endMs, limit)))
  {
    hide Picks, Fetched, Slices, CutOff;
    var slices := Slices(log, startMs, endMs, limit);
    PicksOrdered(log, startMs, endMs, limit);
    FetchedArePicks(server, log, startMs, endMs, limit, 0);
    forall j | 0 <= j < |Picks(slices)|
      ensures startMs <= log[Picks(slices)[j]].timeMs <= endMs
    {
      assert Picks(slices)[j] in Picks(slices);
    }
    forall i | 0 <= i < |log| && startMs <= log[i].timeMs <= endMs
      ensures i !in Picks(slices) <==> IsCutOff(log, slices, i, endMs, limit)
    {
      assert Lo(log, startMs) <= i < Lo(log, endMs + 1);
      PicksAre(slices, i);
      MissingExactly(log, startMs, endMs, limit, i);
    }
  }

  // ---------- completeness, by the log alone ----------

  // A page that ends before position b loses the trade at b: it shares the last millisecond of
  // the page, or the page stops one millisecond before the end.
  predicate Cuts(log: seq<AggTrade>, b: nat, endMs: int)
    requires 0 < b < |log|
  {
    log[b].timeMs == log[b - 1].timeMs || log[b - 1].timeMs == endMs - 1
  }

  // Counting from lo in blocks of `limit`, a block ends before b.
  predicate Boundary(b: int, lo: int, limit: nat)
    requires limit > 0
  {
    lo < b && (b - lo) % limit == 0
  }

  // No block boundary within the log positions lo..hi cuts.
  ghost predicate CleanFrom(log: seq<AggTrade>, lo: nat, hi: nat, endMs: int, limit: nat)
    requires lo <= hi <= |log| && limit > 0
  {
    forall b: nat :: b < hi && Boundary(b, lo, limit) ==> !Cuts(log, b, endMs)
  }

  ghost predicate CleanBlocks(log: seq<AggTrade>, startMs: int, endMs: int, limit: nat)
    requires Sorted(log) && limit > 0 && startMs <= endMs
  {
    LoMonotone(log, startMs, endMs + 1);
    CleanFrom(log, Lo(log, startMs), Lo(log, endMs + 1), endMs, limit)
  }

  // No full page cuts.
  ghost predicate CleanCuts(log: seq<AggTrade>, slices: seq<Slice>, endMs: int, limit: nat)
    requires Sorted(log)
    requires forall p :: p in slices ==> p.lo < p.hi <= Lo(log, endMs + 1)
  {
    forall p :: p in slices && Full(p, limit) && p.hi < Lo(log, endMs + 1) ==> !Cuts(log, p.hi, endMs)
  }

  lemma Multiples(d: int, m: nat)
    ensures d >= 1 ==> d * m >= m
    ensures d <= -1 ==> d * m + m <= 0
  {
  }

  lemma UniqueRemainder(q: int, r: int, m: nat)
    requires 0 <= r < m
    ensures (q * m + r) % m == r
  {
    var x := q * m + r;
    var d := q - x / m;
    assert d * m == x % m - r;
    Multiples(d, m);
  }

  lemma BoundaryNext(b: int, lo: int, limit: nat)
    requires limit > 0
    ensures Boundary(b, lo, limit) <==> b == lo + limit || Boundary(b, lo + limit, limit)
  {
    var x := b - lo;
    UniqueRemainder(x / limit - 1, x % limit, limit);
    assert (x / limit - 1) * limit + x % limit == x - limit;
    if 0 < x < limit {
      UniqueRemainder(0, x, limit);
    }
  }

  // A first block, then the rest.
  lemma CleanFromNext(log: seq<AggTrade>, lo: nat, hi: nat, endMs: int, limit: nat)
    requires limit > 0 && lo + limit <= hi <= |log|
    ensures CleanFrom(log, lo, hi, endMs, limit)
       <==> (lo + limit < hi ==> !Cuts(log, lo + limit, endMs)) && CleanFrom(log, lo + limit, hi, endMs, limit)
  {
    hide Cuts, Boundary;
    BoundaryBeyond(lo, limit);
    forall b { BoundaryNext(b, lo, limit); }
  }

  lemma BoundaryBeyond(lo: int, limit: nat)
    requires limit > 0
    ensures forall b :: Boundary(b, lo, limit) ==> lo + limit <= b
  {
    forall b | Boundary(b, lo, limit)
      ensures lo + limit <= b
    {
      BoundaryNext(b, lo, limit);
    }
  }

  lemma CleanFromShort(log: seq<AggTrade>, lo: nat, hi: nat, endMs: int, limit: nat)
    requires limit > 0 && lo <= hi <= |log| && hi - lo <= limit
    ensures CleanFrom(log, lo, hi, endMs, limit)
  {
    hide Boundary;
    BoundaryBeyond(lo, limit);
  }

  lemma CleanCutsCons(log: seq<AggTrade>, first: Slice, rest: seq<Slice>, endMs: int, limit: nat)
    requires Sorted(log) && first.lo < first.hi <= Lo(log, endMs + 1)
    requires forall p :: p in rest ==> p.lo < p.hi <= Lo(log, endMs + 1)
    ensures CleanCuts(log, [first] + rest, endMs, limit)
       <==> (Full(first, limit) && first.hi < Lo(log, endMs + 1) ==> !Cuts(log, first.hi, endMs))
            && CleanCuts(log, rest, endMs, limit)
  {
    hide Cuts;
  }

  // Where a page ends cleanly the next one starts right behind it.
  lemma CleanNext(log: seq<AggTrade>, b: nat, endMs: int)
    requires Sorted(log) && 0 < b < Lo(log, endMs + 1) && !Cuts(log, b, endMs)
    ensures Lo(log, log[b - 1].timeMs + 1) == b && log[b - 1].timeMs + 1 < endMs
  {
  }

  lemma ShortClean(log: seq<AggTrade>, cursor: int, endMs: int, limit: nat)
    requires Sorted(log) && limit > 0 && (Lo(log, endMs + 1) <= Lo(log, cursor) || Lo(log, endMs + 1) - Lo(log, cursor) < limit)
    ensures CleanCuts(log, Slices(log, cursor, endMs, limit), endMs, limit)
  {
    hide Lo, Cuts;
  }

  // The pages the loop reads cut nothing exactly when the blocks of the log do not.
  lemma {:induction false} CleanCutsBlocks(log: seq<AggTrade>, cursor: int, endMs: int, limit: nat)
    requires Sorted(log) && limit > 0 && cursor < endMs && Lo(log, cursor) <= Lo(log, endMs + 1)
    ensures CleanCuts(log, Slices(log, cursor, endMs, limit), endMs, limit)
       <==> CleanFrom(log, Lo(log, cursor), Lo(log, endMs + 1), endMs, limit)
    decreases endMs - cursor
  {
    hide Lo, Cuts, Slices, CleanFrom, CleanCuts, Sorted;
    var lo, hi := Lo(log, cursor), Lo(log, endMs + 1);
    if hi - lo < limit {
      ShortClean(log, cursor, endMs, limit);
      CleanFromShort(log, lo, hi, endMs, limit);
    } else {
      var next := log[lo + limit - 1].timeMs + 1;
      FirstThenRest(log, cursor, endMs, limit);
      CleanCutsCons(log, Slice(lo, lo + limit), Slices(log, next, endMs, limit), endMs, limit);
      CleanFromNext(log, lo, hi, endMs, limit);
      if lo + limit == hi {
        LoAfter(log, lo + limit - 1);
        ShortClean(log, next, endMs, limit);
        CleanFromShort(log, lo + limit, hi, endMs, limit);
      } else if !Cuts(log, lo + limit, endMs) {
        CleanNext(log, lo + limit, endMs);
        CleanCutsBlocks(log, next, endMs, limit);
      }
    }
  }

  lemma {:induction false} IncreasingSpread(s: seq<nat>, lo: int, hi: int)
    requires Increasing(s) && forall i :: i in s ==> lo <= i < hi
    ensures forall j :: 0 <= j < |s| ==> lo + j <= s[j] <= hi - (|s| - j)
    decreases |s|
  {
    if s != [] {
      var n := |s| - 1;
      assert s[n] in s && s[0] in s && forall i :: i in s[..n] ==> i in s;
      forall i | i in s[..n]
        ensures lo <= i < s[n]
      {
        var j :| 0 <= j < n && s[j] == i;
      }
      IncreasingSpread(s[..n], lo, s[n]);
    }
  }

  lemma {:induction false} NthPick(picks: seq<nat>, lo: nat, hi: nat, j: nat)
    requires Increasing(picks) && forall i :: i in picks ==> lo <= i < hi
    requires (forall i :: lo <= i < hi ==> i in picks) && lo + j < hi
    ensures j < |picks| && picks[j] == lo + j
    decreases j
  {
    assert lo + j in picks;
    var i :| 0 <= i < |picks| && picks[i] == lo + j;
    if j == 0 {
      assert picks[0] in picks;
    } else {
      NthPick(picks, lo, hi, j - 1);
    }
  }

  lemma RangeOfAll(picks: seq<nat>, lo: nat, hi: nat)
    requires Increasing(picks) && lo <= hi && forall i :: i in picks ==> lo <= i < hi
    requires forall i :: lo <= i < hi ==> i in picks
    ensures picks == Range(lo, hi)
  {
    forall j: nat | lo + j < hi
      ensures j < |picks| && picks[j] == lo + j
    {
      NthPick(picks, lo, hi, j);
    }
    if lo < hi {
      NthPick(picks, lo, hi, hi - lo - 1);
    }
    IncreasingSpread(picks, lo, hi);
    if picks != [] {
      assert lo <= picks[0] <= hi - |picks|;
    }
  }

  // Picks that fill their range are the whole range, and only they have its length.
  lemma {:induction false} AllPicked(picks: seq<nat>, lo: nat, hi: nat)
    requires Increasing(picks) && lo <= hi && forall i :: i in picks ==> lo <= i < hi
    ensures (forall i :: lo <= i < hi ==> i in picks) <==> |picks| == hi - lo
    ensures |picks| == hi - lo ==> picks == Range(lo, hi)
  {
    IncreasingSpread(picks, lo, hi);
    if forall i :: lo <= i < hi ==> i in picks {
      RangeOfAll(picks, lo, hi);
    }
    if |picks| == hi - lo {
      forall i | lo <= i < hi
        ensures i in picks
      {
        assert picks[i - lo] == i;
      }
    }
  }

  lemma CleanKeeps(log: seq<AggTrade>, slices: seq<Slice>, i: nat, endMs: int, limit: nat)
    requires Sorted(log) && (forall p :: p in slices ==> p.lo < p.hi <= Lo(log, endMs + 1))
    requires CleanCuts(log, slices, endMs, limit) && i < |log| && log[i].timeMs <= endMs
    ensures !IsCutOff(log, slices, i, endMs, limit)
  {
  }

  lemma UncleanLoses(log: seq<AggTrade>, slices: seq<Slice>, endMs: int, limit: nat) returns (i: nat)
    requires Sorted(log) && (forall p :: p in slices ==> p.lo < p.hi <= Lo(log, endMs + 1))
    requires !CleanCuts(log, slices, endMs, limit)
    ensures i < Lo(log, endMs + 1) && IsCutOff(log, slices, i, endMs, limit)
    ensures exists p :: p in slices && p.lo < i
  {
    var p :| p in slices && Full(p, limit) && p.hi < Lo(log, endMs + 1) && Cuts(log, p.hi, endMs);
    i := p.hi;
    assert CutOff(log, p, i, endMs, limit);
  }

  // Every position of the range is picked exactly when no page cuts.
  lemma PicksAllIff(log: seq<AggTrade>, startMs: int, endMs: int, limit: nat)
    requires Sorted(log) && limit > 0 && startMs < endMs
    ensures var slices := Slices(log, startMs, endMs, limit);
      (forall i :: Lo(log, startMs) <= i < Lo(log, endMs + 1) ==> i in Picks(slices)) <==> CleanCuts(log, slices, endMs, limit)
  {
    hide Picks, Slices, IsCutOff, CleanCuts, Lo;
    var slices := Slices(log, startMs, endMs, limit);
    forall i | Lo(log, startMs) <= i < Lo(log, endMs + 1)
      ensures i in Picks(slices) <==> !IsCutOff(log, slices, i, endMs, limit)
    {
      PicksAre(slices, i);
      MissingExactly(log, startMs, endMs, limit, i);
    }
    if CleanCuts(log, slices, endMs, limit) {
      forall i | Lo(log, startMs) <= i < Lo(log, endMs + 1)
        ensures !IsCutOff(log, slices, i, endMs, limit)
      {
        CleanKeeps(log, slices, i, endMs, limit);
      }
    } else {
      var i := UncleanLoses(log, slices, endMs, limit);
      var p :| p in slices && p.lo < i;
      assert Lo(log, startMs) <= i < Lo(log, endMs + 1) && i !in Picks(slices);
      assert !forall i :: Lo(log, startMs) <= i < Lo(log, endMs + 1) ==> i in Picks(slices);
    }
  }

  // The backfill returns every trade of the range, and so exactly that part of the log, if and
  // only if no block boundary cuts.
  lemma {:induction false} CompleteIff(server: Server, log: seq<AggTrade>, startMs: int, endMs: int, limit: nat)
    requires Sorted(log) && Serves(server, log, limit) && limit > 0 && startMs < endMs
    ensures Lo(log, startMs) <= Lo(log, endMs + 1)
    ensures Fetched(server, startMs, endMs, limit, 0) == log[Lo(log, startMs)..Lo(log, endMs + 1)]
       <==> CleanBlocks(log, startMs, endMs, limit)
  {
    hide Picks, Fetched, Slices, Serves, Sorted, CleanFrom, CleanCuts, Lo;
    LoMonotone(log, startMs, endMs + 1);
    var lo, hi := Lo(log, startMs), Lo(log, endMs + 1);
    var picks := Picks(Slices(log, startMs, endMs, limit));
    PicksOrdered(log, startMs, endMs, limit);
    FetchedArePicks(server, log, startMs, endMs, limit, 0);
    AllPicked(picks, lo, hi);
    PicksAllIff(log, startMs, endMs, limit);
    CleanCutsBlocks(log, startMs, endMs, limit);
  }
}
