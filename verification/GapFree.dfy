/** The stored funding of a market has no gaps, over any sequence of polls, crashes and restarts,
    while the server's history grows; and one poll against a fixed history stores all of it. */
module GapFree {
  import opened Options
  import opened Hours
  import opened Funding

  // ----- The server's history -----

  ghost predicate Increasing(h: seq<Settlement>) {
    forall i, j :: 0 <= i < j < |h| ==> h[i].time < h[j].time
  }

  /** Settlements in time order, on whole hours. */
  ghost predicate ValidHistory(h: seq<Settlement>) {
    Increasing(h) && forall i :: 0 <= i < |h| ==> OnGrid(h[i].time)
  }

  ghost function At(h: seq<Settlement>, t: int): Option<Settlement> {
    if h == [] then None else if h[0].time == t then Some(h[0]) else At(h[1..], t)
  }

  ghost function Window(h: seq<Settlement>, lo: int, hi: int): seq<Settlement> {
    if h == [] then []
    else (if lo <= h[0].time <= hi then [h[0]] else []) + Window(h[1..], lo, hi)
  }

  /** The earliest rows of the window, at most a page of them. */
  ghost function Page(h: seq<Settlement>, lo: int, hi: int): seq<Settlement> {
    var all := Window(h, lo, hi);
    if |all| <= MAX_FUNDINGS_PER_CALL then all else all[..MAX_FUNDINGS_PER_CALL]
  }

  /** `h(k)` is the symbol's history when the server answers request `k`: it only grows, by
      appending, and every request fails or returns the earliest rows of its window, which is given
      in whole seconds. */
  ghost predicate Honest(w: World, symbol: int, h: nat -> seq<Settlement>) {
    && (forall k: nat :: ValidHistory(h(k)))
    && (forall j: nat, k: nat :: j <= k ==> h(j) <= h(k))
    && (forall k: nat, from, to ::
          Answered(w, k, symbol, from, to) in {None, Some(Page(h(k), from * SECOND, to * SECOND))})
  }

  // ----- Pages and histories -----

  lemma {:induction false} AtIndex(h: seq<Settlement>, i: nat)
    requires Increasing(h) && i < |h|
    ensures At(h, h[i].time) == Some(h[i])
  {
    if i > 0 {
      TailIncreases(h);
      AtIndex(h[1..], i - 1);
    }
  }

  lemma TailIncreases(h: seq<Settlement>)
    requires Increasing(h) && h != []
    ensures Increasing(h[1..])
    ensures forall i :: 0 <= i < |h| - 1 ==> h[0].time < h[1..][i].time
  {
    assert forall i :: 0 <= i < |h| - 1 ==> h[1..][i] == h[i + 1];
  }

  lemma {:induction false} AtIsSome(h: seq<Settlement>, t: int)
    ensures At(h, t).Some? ==> exists i :: 0 <= i < |h| && h[i].time == t && At(h, t) == Some(h[i])
  {
    if h != [] && h[0].time != t {
      AtIsSome(h[1..], t);
      if At(h, t).Some? {
        var i :| 0 <= i < |h[1..]| && h[1..][i].time == t && At(h[1..], t) == Some(h[1..][i]);
        assert h[i + 1] == h[1..][i];
      }
    } else if h != [] {
      assert h[0].time == t;
    }
  }

  lemma {:induction false} AtBefore(h: seq<Settlement>, t: int)
    requires Increasing(h) && (h != [] ==> t < h[0].time)
    ensures At(h, t) == None
  {
    if h != [] {
      TailIncreases(h);
      AtBefore(h[1..], t);
    }
  }

  /** What an appended part does not change. */
  lemma {:induction false} AtPrefix(h: seq<Settlement>, more: seq<Settlement>, t: int)
    requires Increasing(h + more) && h != [] && t <= h[|h| - 1].time
    ensures At(h + more, t) == At(h, t)
    decreases |h|
  {
    var all := h + more;
    if h[0].time != t {
      TailIncreases(all);
      assert all[1..] == h[1..] + more;
      if |h| == 1 {
        assert h[1..] + more == more;
        AtBefore(all[1..], t);
      } else {
        AtPrefix(h[1..], more, t);
      }
    }
  }

  lemma {:induction false} WindowElements(h: seq<Settlement>, lo: int, hi: int)
    ensures forall x :: x in Window(h, lo, hi) ==> lo <= x.time <= hi && x in h
  {
    if h != [] {
      WindowElements(h[1..], lo, hi);
      assert h == [h[0]] + h[1..];
    }
  }

  lemma {:induction false} WindowIncreases(h: seq<Settlement>, lo: int, hi: int)
    requires Increasing(h)
    ensures Increasing(Window(h, lo, hi))
  {
    if h != [] {
      TailIncreases(h);
      var tail := h[1..];
      var rest := Window(tail, lo, hi);
      WindowIncreases(tail, lo, hi);
      WindowElements(tail, lo, hi);
      forall i | 0 <= i < |rest| ensures h[0].time < rest[i].time {
        assert rest[i] in tail;
        var k :| 0 <= k < |tail| && tail[k] == rest[i];
      }
    }
  }

  lemma {:induction false} WindowAt(h: seq<Settlement>, lo: int, hi: int, t: int)
    requires Increasing(h)
    ensures At(Window(h, lo, hi), t) == if lo <= t <= hi then At(h, t) else None
  {
    hide Increasing;
    if h != [] {
      TailIncreases(h);
      var rest := Window(h[1..], lo, hi);
      WindowAt(h[1..], lo, hi, t);
      if lo <= h[0].time <= hi {
        assert ([h[0]] + rest)[1..] == rest;
      } else {
        assert [] + rest == rest;
        if h[0].time == t {
          WindowElements(h[1..], lo, hi);
          AtOutside(rest, lo, hi, t);
        }
      }
    }
  }

  lemma {:induction false} AtOutside(h: seq<Settlement>, lo: int, hi: int, t: int)
    requires forall i :: 0 <= i < |h| ==> lo <= h[i].time <= hi
    requires !(lo <= t <= hi)
    ensures At(h, t) == None
  {
    AtIsSome(h, t);
  }

  /** A page is a gap-free piece of the history: from `lo` to its last row, and to the end of the
      window if it is not full. */
  lemma PageAt(h: seq<Settlement>, lo: int, hi: int, t: int)
    requires ValidHistory(h)
    ensures var page := Page(h, lo, hi);
            && Increasing(page)
            && (forall i :: 0 <= i < |page| ==> lo <= page[i].time <= hi && OnGrid(page[i].time))
            && (page != [] && t <= page[|page| - 1].time ==> At(page, t) == if lo <= t then At(h, t) else None)
            && (page != [] && page[|page| - 1].time < t ==> At(page, t) == None)
  {
    var all, page := Window(h, lo, hi), Page(h, lo, hi);
    WindowAt(h, lo, hi, t);
    WindowIncreases(h, lo, hi);
    WindowElements(h, lo, hi);
    assert all == page + all[|page|..];
    assert forall i :: 0 <= i < |page| ==> page[i] == all[i];
    if page != [] {
      assert page[|page| - 1] == all[|page| - 1];
      if t <= page[|page| - 1].time {
        AtPrefix(page, all[|page|..], t);
      } else {
        AtIsSome(page, t);
      }
    }
  }

  // ----- Inserting a page -----

  lemma {:induction false} InsertedAt(table: Table, symbol: int, rows: seq<Settlement>, t: int)
    requires Increasing(rows)
    ensures Stored(InsertFunding(table, symbol, rows), symbol, t)
         == if Stored(table, symbol, t).Some? then Stored(table, symbol, t) else At(rows, t)
    decreases |rows|
  {
    if rows != [] {
      var slot := Slot(symbol, rows[0].time);
      TailIncreases(rows);
      InsertedAt(if slot in table then table else table[slot := rows[0]], symbol, rows[1..], t);
    }
  }

  lemma {:induction false} InsertLeavesOthers(table: Table, symbol: int, rows: seq<Settlement>, other: int, t: int)
    requires other != symbol
    ensures Stored(InsertFunding(table, symbol, rows), other, t) == Stored(table, other, t)
    decreases |rows|
  {
    if rows != [] {
      var slot := Slot(symbol, rows[0].time);
      InsertLeavesOthers(if slot in table then table else table[slot := rows[0]], symbol, rows[1..], other, t);
    }
  }

  // ----- No gaps -----

  ghost predicate Covers(h: seq<Settlement>, symbol: int, anchor: int, table: Table, top: int) {
    forall t :: Stored(table, symbol, t) == if anchor <= t <= top then At(h, t) else None
  }

  /** The stored rows of the symbol are exactly the server's settlements from `anchor` up to the
      newest stored one. */
  ghost predicate NoGaps(h: seq<Settlement>, symbol: int, anchor: int, table: Table) {
    match NewestTime(table, symbol)
    case None => true
    case Some(top) => anchor <= top && At(h, top).Some? && Covers(h, symbol, anchor, table, top)
  }

  /** `start` is where the stored rows end: the next request continues without a gap. */
  ghost predicate Continuing(symbol: int, anchor: int, table: Table, start: int) {
    OnGrid(start) &&
    match NewestTime(table, symbol)
    case None => start == anchor
    case Some(top) => OnGrid(top) && start == top + HOUR
  }

  lemma NewestIs(table: Table, symbol: int, top: int)
    requires Stored(table, symbol, top).Some?
    requires forall t :: Stored(table, symbol, t).Some? ==> t <= top
    ensures NewestTime(table, symbol) == Some(top)
  {
    hide NewestTime;
    assert Slot(symbol, top) in table;
    var newest := NewestTime(table, symbol);
    assert newest.Some?;
    assert Stored(table, symbol, newest.value).Some?;
  }

  lemma NothingStored(table: Table, symbol: int, t: int)
    requires NewestTime(table, symbol) == None
    ensures Stored(table, symbol, t) == None
  {
    hide NewestTime;
    assert Slot(symbol, t).symbol == symbol;
  }

  /** Growth of the history does not open gaps. */
  lemma GrowthKeepsNoGaps(h: seq<Settlement>, g: seq<Settlement>, symbol: int, anchor: int, table: Table)
    requires ValidHistory(g) && h <= g && NoGaps(h, symbol, anchor, table)
    ensures NoGaps(g, symbol, anchor, table)
  {
    hide NewestTime, OnGrid;
    if NewestTime(table, symbol).Some? {
      var top := NewestTime(table, symbol).value;
      AtIsSome(h, top);
      var i :| 0 <= i < |h| && h[i].time == top;
      assert g == h + g[|h|..] && h[i].time <= h[|h| - 1].time by {
        assert i < |h| - 1 ==> g[i].time < g[|h| - 1].time;
      }
      forall t | t <= top ensures At(g, t) == At(h, t) {
        AtPrefix(h, g[|h|..], t);
      }
    }
  }

  /** Storing one page keeps the table free of gaps and the paging in place. */
  lemma PageKeepsNoGaps(h: seq<Settlement>, symbol: int, anchor: int, table: Table, start: int, hi: int)
    requires ValidHistory(h) && NoGaps(h, symbol, anchor, table) && Continuing(symbol, anchor, table, start)
    requires Page(h, start, hi) != []
    ensures var page := Page(h, start, hi);
            var last := page[|page| - 1].time;
            var after := InsertFunding(table, symbol, page);
            && NewestTime(after, symbol) == Some(last) && OnGrid(last) && start <= last
            && NoGaps(h, symbol, anchor, after)
            && Continuing(symbol, anchor, after, NextRequestStart(Some(last), 0))
  {
    hide NewestTime, InsertFunding, Page, OnGrid;
    var page := Page(h, start, hi);
    var last := page[|page| - 1].time;
    var after := InsertFunding(table, symbol, page);
    PageAt(h, start, hi, last);
    forall t ensures Stored(after, symbol, t) == if anchor <= t <= last then At(h, t) else None {
      PageAt(h, start, hi, t);
      InsertedAt(table, symbol, page, t);
      BetweenPages(h, symbol, anchor, table, start, t);
    }
    AtIndex(page, |page| - 1);
    AnchorBeforeStart(h, symbol, anchor, table, start);
    NewestIs(after, symbol, last);
    NextStartOnGrid(last, 0);
    GridStep(last);
  }

  lemma GridStep(t: int)
    requires OnGrid(t)
    ensures OnGrid(t + HOUR)
  {
  }

  lemma AnchorBeforeStart(h: seq<Settlement>, symbol: int, anchor: int, table: Table, start: int)
    requires NoGaps(h, symbol, anchor, table) && Continuing(symbol, anchor, table, start)
    ensures anchor <= start
  {
    hide NewestTime;
  }

  /** Below `start` the table already holds what the history has from the anchor on; at and above
      it the table holds nothing. */
  lemma BetweenPages(h: seq<Settlement>, symbol: int, anchor: int, table: Table, start: int, t: int)
    requires ValidHistory(h) && NoGaps(h, symbol, anchor, table) && Continuing(symbol, anchor, table, start)
    ensures Stored(table, symbol, t) == if anchor <= t < start then At(h, t) else None
    ensures anchor <= start
  {
    hide NewestTime;
    match NewestTime(table, symbol)
    case None => NothingStored(table, symbol, t);
    case Some(top) =>
      if top < t < start {
        AtIsSome(h, t);
        if At(h, t).Some? {
          GridGap(top, t);
        }
      }
  }

  // ----- One poll -----

  lemma {:induction false} PollKeepsNoGaps(
      w: World, h: nat -> seq<Settlement>, symbol: int, anchor: int, start: int, table: Table,
      requests: nat, readings: nat, pages: nat)
    requires Honest(w, symbol, h)
    requires NoGaps(h(requests), symbol, anchor, table) && Continuing(symbol, anchor, table, start)
    ensures var r := PollPages(w, symbol, start, table, requests, readings, pages);
            && requests <= r.requests && NoGaps(h(r.requests), symbol, anchor, r.table)
            && (NewestTime(table, symbol).Some? ==> NewestTime(r.table, symbol).Some?)
            && (NewestTime(r.table, symbol).Some? ==> OnGrid(NewestTime(r.table, symbol).value))
    decreases pages
  {
    hide NoGaps, Continuing, PageOk, InsertFunding, Page, NewestTime, HourClosed, NextRequestStart, Reply, OnGrid;
    assert OnGrid(start) by { ContinuingOnGrid(symbol, anchor, table, start); }
    assert h(requests) <= h(requests + 1) && ValidHistory(h(requests)) && ValidHistory(h(requests + 1)) by {
      HistoryGrows(w, symbol, h, requests);
    }
    GrowthKeepsNoGaps(h(requests), h(requests + 1), symbol, anchor, table);
    NewestOnGrid(symbol, anchor, table, start);
    if HourClosed(start, w.clock(readings)) && pages > 0 {
      var end := w.clock(readings + 1);
      var reply := Reply(w, requests, symbol, start, end);
      if reply.Some? && PageOk(start, w.clock(readings + 2), reply.value) && reply.value != [] {
        var hi := Seconds(end) * SECOND;
        assert reply == Some(Page(h(requests), start, hi)) by { HonestReply(w, symbol, h, requests, start, end); }
        PageKeepsNoGaps(h(requests), symbol, anchor, table, start, hi);
        var rows := reply.value;
        var after := InsertFunding(table, symbol, rows);
        GrowthKeepsNoGaps(h(requests), h(requests + 1), symbol, anchor, after);
        if |rows| >= MAX_FUNDINGS_PER_CALL {
          var next := NextRequestStart(Some(rows[|rows| - 1].time), 0);
          PollKeepsNoGaps(w, h, symbol, anchor, next, after, requests + 1, readings + 3, pages - 1);
        }
      }
    }
  }

  lemma HistoryGrows(w: World, symbol: int, h: nat -> seq<Settlement>, k: nat)
    requires Honest(w, symbol, h)
    ensures h(k) <= h(k + 1) && ValidHistory(h(k)) && ValidHistory(h(k + 1))
  {
    hide ValidHistory, Answered, Page;
  }

  lemma HonestReply(w: World, symbol: int, h: nat -> seq<Settlement>, k: nat, start: int, end: int)
    requires Honest(w, symbol, h) && OnGrid(start) && Reply(w, k, symbol, start, end).Some?
    ensures Reply(w, k, symbol, start, end) == Some(Page(h(k), start, Seconds(end) * SECOND))
  {
    hide ValidHistory, Answered, Page;
    GridIsWholeSeconds(start);
  }

  lemma ContinuingOnGrid(symbol: int, anchor: int, table: Table, start: int)
    requires Continuing(symbol, anchor, table, start)
    ensures OnGrid(start)
  {
  }

  lemma NewestOnGrid(symbol: int, anchor: int, table: Table, start: int)
    requires Continuing(symbol, anchor, table, start)
    ensures NewestTime(table, symbol).Some? ==> OnGrid(NewestTime(table, symbol).value)
  {
    hide NewestTime;
  }

  lemma {:induction false} PollLeavesOthers(
      w: World, symbol: int, start: int, table: Table, requests: nat, readings: nat, pages: nat, other: int)
    requires other != symbol
    ensures var r := PollPages(w, symbol, start, table, requests, readings, pages);
            requests <= r.requests && forall t :: Stored(r.table, other, t) == Stored(table, other, t)
    decreases pages
  {
    hide PageOk, InsertFunding, HourClosed, NextRequestStart, Reply;
    if HourClosed(start, w.clock(readings)) && pages > 0 {
      var reply := Reply(w, requests, symbol, start, w.clock(readings + 1));
      if reply.Some? && PageOk(start, w.clock(readings + 2), reply.value) && reply.value != [] {
        var rows := reply.value;
        var after := InsertFunding(table, symbol, rows);
        forall t ensures Stored(after, other, t) == Stored(table, other, t) {
          InsertLeavesOthers(table, symbol, rows, other, t);
        }
        if |rows| >= MAX_FUNDINGS_PER_CALL {
          var next := NextRequestStart(Some(rows[|rows| - 1].time), 0);
          PollLeavesOthers(w, symbol, next, after, requests + 1, readings + 3, pages - 1, other);
        }
      }
    }
  }

  // ----- The whole life of the service -----

  /** The first hour that the symbol's first successful visit asked for; later settings have no
      effect. */
  ghost function Anchor(w: World, visits: seq<Visit>, symbol: int): int {
    if visits == [] then 0
    else
      var init, v := visits[..|visits| - 1], visits[|visits| - 1];
      if v.symbol == symbol && NewestTime(Live(w, init).table, symbol) == None then CeilHour(v.backfill)
      else Anchor(w, init, symbol)
  }

  ghost predicate Sound(h: seq<Settlement>, symbol: int, anchor: int, table: Table) {
    && NoGaps(h, symbol, anchor, table)
    && (NewestTime(table, symbol).Some? ==> OnGrid(NewestTime(table, symbol).value))
  }

  /** In every reachable state, for any interleaving of visits of all markets, with crashes after
      any insert, restarts, changed settings and a growing history: the stored rows of a symbol are
      exactly the server's settlements from the first hour at or after the backfill setting in
      force at its first stored page, up to the newest stored one. */
  lemma {:induction false} FundingHasNoGaps(w: World, h: nat -> seq<Settlement>, visits: seq<Visit>, symbol: int)
    requires Honest(w, symbol, h)
    ensures var s := Live(w, visits);
            Sound(h(s.requests), symbol, Anchor(w, visits, symbol), s.table)
  {
    hide PollPages, NoGaps, NewestTime, Honest, OnGrid, Sound;
    if visits == [] {
      EmptyIsSound(h(0), symbol, 0);
    } else {
      var init, v := visits[..|visits| - 1], visits[|visits| - 1];
      var s := Live(w, init);
      FundingHasNoGaps(w, h, init, symbol);
      if v.symbol == symbol {
        VisitKeepsSound(w, h, s, v, Anchor(w, init, symbol));
      } else {
        OtherVisitKeepsSound(w, h, s, v, symbol, Anchor(w, init, symbol));
      }
    }
  }

  lemma EmptyIsSound(h: seq<Settlement>, symbol: int, anchor: int)
    ensures Sound(h, symbol, anchor, map[])
  {
  }

  lemma VisitKeepsSound(w: World, h: nat -> seq<Settlement>, s: Life, v: Visit, anchor: int)
    requires Honest(w, v.symbol, h) && Sound(h(s.requests), v.symbol, anchor, s.table)
    ensures var r := PollMarket(w, v.symbol, v.backfill, s.table, s.requests, s.readings, v.pages);
            var now := if NewestTime(s.table, v.symbol) == None then CeilHour(v.backfill) else anchor;
            Sound(h(r.requests), v.symbol, now, r.table)
  {
    hide PollPages, NewestTime, Honest, FloorHour, Covers;
    var newest := NewestTime(s.table, v.symbol);
    var start := NextRequestStart(newest, v.backfill);
    StartOnGrid(newest, v.backfill);
    if newest.Some? {
      NextStartOnGrid(newest.value, v.backfill);
    }
    PollKeepsNoGaps(w, h, v.symbol, if newest == None then CeilHour(v.backfill) else anchor, start,
                    s.table, s.requests, s.readings, v.pages);
  }

  lemma SameRowsSameNewest(a: Table, b: Table, symbol: int)
    requires forall t :: Stored(a, symbol, t) == Stored(b, symbol, t)
    ensures NewestTime(a, symbol) == NewestTime(b, symbol)
  {
    hide NewestTime;
    var n := NewestTime(a, symbol);
    match n
    case Some(top) =>
      forall t | Stored(b, symbol, t).Some? ensures t <= top {
        assert Stored(a, symbol, t).Some?;
      }
      NewestIs(b, symbol, top);
    case None =>
      var other := NewestTime(b, symbol);
      assert other.Some? ==> Stored(b, symbol, other.value).Some?;
      forall t ensures Stored(b, symbol, t) == None {
        NothingStored(a, symbol, t);
      }
  }

  lemma OtherVisitKeepsSound(w: World, h: nat -> seq<Settlement>, s: Life, v: Visit, symbol: int, anchor: int)
    requires Honest(w, symbol, h) && v.symbol != symbol && Sound(h(s.requests), symbol, anchor, s.table)
    ensures var r := PollMarket(w, v.symbol, v.backfill, s.table, s.requests, s.readings, v.pages);
            Sound(h(r.requests), symbol, anchor, r.table)
  {
    hide PollPages, NewestTime, OnGrid, Stored;
    var start := NextRequestStart(NewestTime(s.table, v.symbol), v.backfill);
    var r := PollPages(w, v.symbol, start, s.table, s.requests, s.readings, v.pages);
    PollLeavesOthers(w, v.symbol, start, s.table, s.requests, s.readings, v.pages, symbol);
    SameRowsSameNewest(s.table, r.table, symbol);
    LongerHistory(w, symbol, h, s.requests, r.requests);
    GrowthKeepsNoGaps(h(s.requests), h(r.requests), symbol, anchor, s.table);
  }

  lemma LongerHistory(w: World, symbol: int, h: nat -> seq<Settlement>, j: nat, k: nat)
    requires Honest(w, symbol, h) && j <= k
    ensures h(j) <= h(k) && ValidHistory(h(k))
  {
    hide ValidHistory, Answered, Page;
  }

  // ----- One poll stores everything -----

  /** A server that answers every request it has to accept, from a fixed history, and a clock that
      does not run backwards and has passed every settlement. */
  ghost predicate Settled(w: World, symbol: int, h: seq<Settlement>, readings: nat) {
    && ValidHistory(h)
    && (forall k: nat, from, to :: Accepted(from, to) ==>
          Answered(w, k, symbol, from, to) == Some(Page(h, from * SECOND, to * SECOND)))
    && (forall i: nat, j: nat :: i <= j ==> w.clock(i) <= w.clock(j))
    && (forall i :: 0 <= i < |h| ==> h[i].time <= w.clock(readings))
  }

  /** The settlements still to come. */
  ghost function Remaining(h: seq<Settlement>, start: int): seq<Settlement> {
    if h == [] then [] else (if start <= h[0].time then [h[0]] else []) + Remaining(h[1..], start)
  }

  lemma {:induction false} RemainingIsWindow(h: seq<Settlement>, start: int, hi: int)
    requires forall i :: 0 <= i < |h| ==> h[i].time <= hi
    ensures Window(h, start, hi) == Remaining(h, start)
  {
    if h != [] {
      RemainingIsWindow(h[1..], start, hi);
    }
  }

  lemma {:induction false} RemainingDrops(h: seq<Settlement>, start: int, next: int, n: nat)
    requires start <= next && n <= |Remaining(h, start)|
    requires forall i :: 0 <= i < n ==> Remaining(h, start)[i].time < next
    requires forall i :: n <= i < |Remaining(h, start)| ==> next <= Remaining(h, start)[i].time
    ensures Remaining(h, next) == Remaining(h, start)[n..]
    decreases |h|
  {
    if h != [] {
      var all, rest := Remaining(h, start), Remaining(h[1..], start);
      if start <= h[0].time {
        assert all == [h[0]] + rest && all[0] == h[0];
        assert forall i :: 0 <= i < |rest| ==> rest[i] == all[i + 1];
        RemainingDrops(h[1..], start, next, if n > 0 then n - 1 else 0);
        assert n > 0 ==> all[n..] == rest[n - 1..];
      } else {
        assert all == rest;
        RemainingDrops(h[1..], start, next, n);
      }
    }
  }

  lemma FixedPage(w: World, symbol: int, h: seq<Settlement>, start: int, request: nat, readings: nat)
    requires Settled(w, symbol, h, readings) && OnGrid(start) && HourClosed(start, w.clock(readings))
    ensures var all := Remaining(h, start);
            && Reply(w, request, symbol, start, w.clock(readings + 1))
               == Some(if |all| <= MAX_FUNDINGS_PER_CALL then all else all[..MAX_FUNDINGS_PER_CALL])
            && PageOk(start, w.clock(readings + 2), all)
            && (forall t :: start <= t ==> At(all, t) == At(h, t))
            && (forall i :: 0 <= i < |all| ==> OnGrid(all[i].time))
  {
    hide Answered, OnGrid, Accepted, HourClosed;
    var end := w.clock(readings + 1);
    var hi := Seconds(end) * SECOND;
    assert w.clock(readings) <= end <= w.clock(readings + 2);
    RequestsAreAccepted(start, w.clock(readings), end);
    GridIsWholeSeconds(start);
    forall i | 0 <= i < |h| ensures h[i].time <= hi {
      GridIsWholeSeconds(h[i].time);
      SecondsBelow(h[i].time, end);
    }
    RemainingIsWindow(h, start, hi);
    WindowIncreases(h, start, hi);
    WindowElements(h, start, hi);
    forall t | start <= t ensures At(Remaining(h, start), t) == At(h, t) {
      WindowAt(h, start, hi, t);
      if hi < t {
        AtIsSome(h, t);
      }
    }
  }

  lemma SecondsBelow(t: int, end: int)
    requires Seconds(t) * SECOND == t && t <= end
    ensures t <= Seconds(end) * SECOND <= end
  {
  }

  lemma NothingLeft(w: World, symbol: int, h: seq<Settlement>, start: int, readings: nat)
    requires Settled(w, symbol, h, readings) && OnGrid(start) && !HourClosed(start, w.clock(readings))
    ensures Remaining(h, start) == [] && forall t :: start <= t ==> At(h, t) == None
  {
    hide Answered, Accepted;
    forall i | 0 <= i < |h| ensures h[i].time < start {
      FloorHourIsGreatest(w.clock(readings), h[i].time);
    }
    NoneRemaining(h, start);
    forall t | start <= t ensures At(h, t) == None {
      AtIsSome(h, t);
    }
  }

  lemma {:induction false} NoneRemaining(h: seq<Settlement>, start: int)
    requires forall i :: 0 <= i < |h| ==> h[i].time < start
    ensures Remaining(h, start) == []
  {
    if h != [] {
      NoneRemaining(h[1..], start);
    }
  }

  lemma LaterReadings(w: World, symbol: int, h: seq<Settlement>, readings: nat, later: nat)
    requires Settled(w, symbol, h, readings) && readings <= later
    ensures Settled(w, symbol, h, later)
  {
    hide Answered, Accepted, Page, OnGrid;
    assert w.clock(readings) <= w.clock(later);
  }

  /** A full page leaves exactly the settlements after it, and the next request starts at them. */
  lemma FullPageStep(h: seq<Settlement>, start: int)
    requires ValidHistory(h) && |Remaining(h, start)| >= MAX_FUNDINGS_PER_CALL && OnGrid(start)
    requires Increasing(Remaining(h, start))
    requires forall i :: 0 <= i < |Remaining(h, start)| ==> OnGrid(Remaining(h, start)[i].time)
    requires start <= Remaining(h, start)[MAX_FUNDINGS_PER_CALL - 1].time
    ensures var all := Remaining(h, start);
            var last := all[MAX_FUNDINGS_PER_CALL - 1].time;
            var next := NextRequestStart(Some(last), 0);
            && OnGrid(next) && next == last + HOUR
            && Remaining(h, next) == all[MAX_FUNDINGS_PER_CALL..]
            && (forall t :: last < t < next ==> At(h, t) == None)
  {
    hide Remaining;
    var all := Remaining(h, start);
    var n: nat := MAX_FUNDINGS_PER_CALL;
    var last := all[n - 1].time;
    NextStartOnGrid(last, 0);
    GridStep(last);
    var next := last + HOUR;
    forall i | n <= i < |all| ensures next <= all[i].time {
      GridGap(last, all[i].time);
    }
    RemainingDrops(h, start, next, n);
    forall t | last < t < next ensures At(h, t) == None {
      AtIsSome(h, t);
      if At(h, t).Some? {
        GridGap(last, t);
      }
    }
  }

  /** Against a fixed history with `n` settlements from `start` on, the poll ends by itself, stores
      all of them, and makes at most `n / 750 + 1` requests. */
  lemma {:induction false} PollStoresEverything(
      w: World, symbol: int, h: seq<Settlement>, start: int, table: Table, requests: nat, readings: nat, pages: nat)
    requires Settled(w, symbol, h, readings) && OnGrid(start)
    requires forall t :: start <= t ==> Stored(table, symbol, t) == None
    requires pages > |Remaining(h, start)| / MAX_FUNDINGS_PER_CALL
    ensures var r := PollPages(w, symbol, start, table, requests, readings, pages);
            && r.outcome == Finished
            && r.requests <= requests + |Remaining(h, start)| / MAX_FUNDINGS_PER_CALL + 1
            && (forall t :: Stored(r.table, symbol, t) == if start <= t then At(h, t) else Stored(table, symbol, t))
    decreases pages
  {
    hide Settled, Stored, Remaining, InsertFunding, HourClosed, NextRequestStart, Reply, ValidHistory, OnGrid;
    hide PollPages;
    PollUnfolds(w, symbol, start, table, requests, readings, pages);
    var all := Remaining(h, start);
    if !HourClosed(start, w.clock(readings)) {
      NothingLeft(w, symbol, h, start, readings);
    } else {
      FixedPage(w, symbol, h, start, requests, readings);
      var page := if |all| <= MAX_FUNDINGS_PER_CALL then all else all[..MAX_FUNDINGS_PER_CALL];
      var after := InsertFunding(table, symbol, page);
      assert Increasing(page) && PageOk(start, w.clock(readings + 2), page);
      if |page| < MAX_FUNDINGS_PER_CALL {
        PartialPage(h, symbol, start, table, all);
      } else {
        assert page == all[..MAX_FUNDINGS_PER_CALL];
        var last := page[MAX_FUNDINGS_PER_CALL - 1].time;
        assert ValidHistory(h) by { SettledHistory(w, symbol, h, readings); }
        FullPageStep(h, start);
        var next := NextRequestStart(Some(last), 0);
        FullPageStored(h, symbol, start, table, all, next);
        LaterReadings(w, symbol, h, readings, readings + 3);
        assert after == InsertFunding(table, symbol, all[..MAX_FUNDINGS_PER_CALL]);
        OnePageLess(|all|);
        PollStoresEverything(w, symbol, h, next, after, requests + 1, readings + 3, pages - 1);
      }
    }
  }

  lemma OnePageLess(n: nat)
    requires n >= MAX_FUNDINGS_PER_CALL
    ensures (n - MAX_FUNDINGS_PER_CALL) / MAX_FUNDINGS_PER_CALL == n / MAX_FUNDINGS_PER_CALL - 1
  {
  }

  /** One poll of a market catches up with a fixed history: from the anchor on the table then holds
      all of it, and what other markets hold is untouched. */
  lemma PollCatchesUp(
      w: World, symbol: int, h: seq<Settlement>, anchor: int, backfill: int, table: Table,
      requests: nat, readings: nat, pages: nat)
    requires Settled(w, symbol, h, readings) && Sound(h, symbol, anchor, table)
    requires NewestTime(table, symbol) == None ==> anchor == CeilHour(backfill)
    requires pages > |h| / MAX_FUNDINGS_PER_CALL
    ensures var r := PollMarket(w, symbol, backfill, table, requests, readings, pages);
            && r.outcome == Finished
            && r.requests <= requests + |h| / MAX_FUNDINGS_PER_CALL + 1
            && (forall t :: Stored(r.table, symbol, t) == if anchor <= t then At(h, t) else None)
            && (forall other, t :: other != symbol ==> Stored(r.table, other, t) == Stored(table, other, t))
  {
    hide PollPages, NewestTime, Settled, Stored, At, Covers;
    var newest := NewestTime(table, symbol);
    var start := NextRequestStart(newest, backfill);
    StartOnGrid(newest, backfill);
    if newest.Some? {
      NextStartOnGrid(newest.value, backfill);
    }
    SettledHistory(w, symbol, h, readings);
    forall t ensures anchor <= start && Stored(table, symbol, t) == if anchor <= t < start then At(h, t) else None {
      BetweenPages(h, symbol, anchor, table, start, t);
    }
    FewRemaining(h, start);
    PollStoresEverything(w, symbol, h, start, table, requests, readings, pages);
    var r := PollMarket(w, symbol, backfill, table, requests, readings, pages);
    forall other, t | other != symbol ensures Stored(r.table, other, t) == Stored(table, other, t) {
      PollLeavesOthers(w, symbol, start, table, requests, readings, pages, other);
    }
  }

  lemma {:induction false} FewRemaining(h: seq<Settlement>, start: int)
    ensures |Remaining(h, start)| <= |h|
    ensures |Remaining(h, start)| / MAX_FUNDINGS_PER_CALL <= |h| / MAX_FUNDINGS_PER_CALL
  {
    if h != [] {
      FewRemaining(h[1..], start);
    }
  }

  lemma SettledHistory(w: World, symbol: int, h: seq<Settlement>, readings: nat)
    requires Settled(w, symbol, h, readings)
    ensures ValidHistory(h)
  {
  }

  lemma PartialPage(h: seq<Settlement>, symbol: int, start: int, table: Table, all: seq<Settlement>)
    requires Increasing(all) && (forall i :: 0 <= i < |all| ==> start <= all[i].time)
    requires forall t :: start <= t ==> Stored(table, symbol, t) == None
    requires forall t :: start <= t ==> At(all, t) == At(h, t)
    ensures forall t :: Stored(InsertFunding(table, symbol, all), symbol, t)
                     == if start <= t then At(h, t) else Stored(table, symbol, t)
  {
    hide Stored, InsertFunding, At;
    forall t ensures Stored(InsertFunding(table, symbol, all), symbol, t)
                  == if start <= t then At(h, t) else Stored(table, symbol, t) {
      InsertedAt(table, symbol, all, t);
      AtIsSome(all, t);
    }
  }

  lemma FullPageStored(h: seq<Settlement>, symbol: int, start: int, table: Table, all: seq<Settlement>, next: int)
    requires Increasing(all) && (forall i :: 0 <= i < |all| ==> start <= all[i].time) && |all| >= MAX_FUNDINGS_PER_CALL
    requires forall t :: start <= t ==> Stored(table, symbol, t) == None
    requires forall t :: start <= t ==> At(all, t) == At(h, t)
    requires all[MAX_FUNDINGS_PER_CALL - 1].time < next
    requires forall t :: all[MAX_FUNDINGS_PER_CALL - 1].time < t < next ==> At(h, t) == None
    ensures var after := InsertFunding(table, symbol, all[..MAX_FUNDINGS_PER_CALL]);
            forall t :: Stored(after, symbol, t)
                     == if start <= t < next then At(h, t) else if next <= t then None else Stored(table, symbol, t)
  {
    hide Stored, InsertFunding, At;
    var n: nat := MAX_FUNDINGS_PER_CALL;
    var page := all[..n];
    var last := all[n - 1].time;
    assert page[n - 1] == all[n - 1] && all == page + all[n..];
    forall t ensures Stored(InsertFunding(table, symbol, page), symbol, t)
                  == if start <= t < next then At(h, t) else if next <= t then None else Stored(table, symbol, t) {
      InsertedAt(table, symbol, page, t);
      AtIsSome(page, t);
      if t <= last {
        AtPrefix(page, all[n..], t);
      }
    }
  }
}
