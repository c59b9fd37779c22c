/** Settled funding: response parsing, page validation, the table, and the paging loop. */
module Funding {
  import opened Options
  import opened Calendar
  import opened Decimals
  import opened Hours
  import opened RateLimit

  const MAX_FUNDINGS_PER_CALL: nat := 750
  const FUNDING_RESOLUTION: string := "1h"

  // The whole seconds that the timestamp type can hold.
  const MIN_SECONDS: int := -8_334_601_228_800
  const MAX_SECONDS: int := 8_210_266_876_799

  // ----- Responses -----

  datatype RawFunding = RawFunding(timestamp: int, rate: string, direction: string)
  datatype Response = Response(code: int, resolution: string, fundings: seq<RawFunding>)

  /** One settlement; its time is in nanoseconds, on a whole second. */
  datatype Settlement = Settlement(time: int, rate: Decimal, direction: string)

  function ParseFunding(raw: RawFunding): Option<Settlement> {
    if !(MIN_SECONDS <= raw.timestamp <= MAX_SECONDS) then None
    else
      match ParseDecimal(raw.rate)
      case None => None
      case Some(rate) =>
        if raw.direction == "" then None else Some(Settlement(raw.timestamp * SECOND, rate, raw.direction))
  }

  function ParseAll(raws: seq<RawFunding>): Option<seq<Settlement>> {
    if raws == [] then Some([])
    else
      match (ParseFunding(raws[0]), ParseAll(raws[1..]))
      case (Some(first), Some(rest)) => Some([first] + rest)
      case _ => None
  }

  function ParseFundings(response: Response): Option<seq<Settlement>> {
    if response.code != 200 || response.resolution != FUNDING_RESOLUTION then None else ParseAll(response.fundings)
  }

  /** An entry can be read: its time can be held, its rate is a decimal, and it names a side. */
  ghost predicate Readable(raw: RawFunding) {
    && DaysTo(FIRST_YEAR) * DAY_SECONDS <= raw.timestamp < DaysTo(LAST_YEAR + 1) * DAY_SECONDS
    && ParseDecimal(raw.rate).Some? && raw.direction != ""
  }

  /** The row holds the entry's own time, rate and direction. */
  ghost predicate Holds(row: Settlement, raw: RawFunding) {
    && row.time == raw.timestamp * 1_000_000_000
    && Some(row.rate) == ParseDecimal(raw.rate) && row.direction == raw.direction
  }

  lemma EntryIsRead(raw: RawFunding)
    ensures ParseFunding(raw).Some? <==> Readable(raw)
    ensures ParseFunding(raw).Some? ==> Holds(ParseFunding(raw).value, raw)
  {
    hide ParseDecimal;
  }

  /** A response is taken whole, row by row in order, or not at all: it needs the code 200, the
      hourly resolution, and every entry readable. */
  lemma ParsingIsAllOrNothing(response: Response)
    ensures ParseFundings(response).Some? <==>
              && response.code == 200 && response.resolution == "1h"
              && forall i :: 0 <= i < |response.fundings| ==> Readable(response.fundings[i])
    ensures ParseFundings(response).Some? ==>
              && |ParseFundings(response).value| == |response.fundings|
              && forall i :: 0 <= i < |response.fundings| ==>
                   Holds(ParseFundings(response).value[i], response.fundings[i])
  {
    hide ParseFunding, Readable, Holds;
    EntriesAreAllOrNothing(response.fundings);
    forall raw: RawFunding
      ensures ParseFunding(raw).Some? <==> Readable(raw)
      ensures ParseFunding(raw).Some? ==> Holds(ParseFunding(raw).value, raw)
    {
      EntryIsRead(raw);
    }
  }

  lemma {:induction false} EntriesAreAllOrNothing(raws: seq<RawFunding>)
    ensures ParseAll(raws).Some? <==> forall i :: 0 <= i < |raws| ==> ParseFunding(raws[i]).Some?
    ensures ParseAll(raws).Some? ==>
              && |ParseAll(raws).value| == |raws|
              && forall i :: 0 <= i < |raws| ==> Some(ParseAll(raws).value[i]) == ParseFunding(raws[i])
  {
    hide ParseFunding;
    if raws != [] {
      var rest := raws[1..];
      EntriesAreAllOrNothing(rest);
      assert forall i :: 0 < i < |raws| ==> raws[i] == rest[i - 1];
      assert forall i :: 0 <= i < |rest| ==> rest[i] == raws[i + 1];
    }
  }

  // ----- Validation -----

  ghost predicate PageOk(start: int, now: int, rows: seq<Settlement>) {
    && (forall i :: 0 <= i < |rows| ==> start <= rows[i].time <= now)
    && (forall i, j :: 0 <= i < j < |rows| ==> rows[i].time < rows[j].time)
  }

  /** The loop compares each row with the one before it only. */
  method ValidatePage(start: int, now: int, rows: seq<Settlement>) returns (ok: bool)
    ensures ok <==> PageOk(start, now, rows)
  {
    var previous: Option<int> := None;
    for i := 0 to |rows|
      invariant PageOk(start, now, rows[..i])
      invariant previous == if i == 0 then None else Some(rows[i - 1].time)
    {
      var time := rows[i].time;
      if time < start || (previous.Some? && time <= previous.value) || now < time {
        assert previous.Some? ==> rows[i - 1].time == previous.value;
        return false;
      }
      forall a | 0 <= a < i ensures rows[a].time < time {
        assert rows[..i][a] == rows[a] && rows[..i][i - 1] == rows[i - 1];
      }
      assert rows[..i + 1] == rows[..i] + [rows[i]];
      previous := Some(time);
    }
    assert rows[..|rows|] == rows;
    return true;
  }

  // ----- The table -----

  /** The primary key of `funding_rates`. */
  datatype Slot = Slot(symbol: int, time: int)

  type Table = map<Slot, Settlement>

  /** One insert statement: rows whose slot is taken are skipped. */
  function InsertFunding(table: Table, symbol: int, rows: seq<Settlement>): Table
    decreases |rows|
  {
    if rows == [] then table
    else
      var slot := Slot(symbol, rows[0].time);
      InsertFunding(if slot in table then table else table[slot := rows[0]], symbol, rows[1..])
  }

  ghost function Stored(table: Table, symbol: int, t: int): Option<Settlement> {
    if Slot(symbol, t) in table then Some(table[Slot(symbol, t)]) else None
  }

  ghost predicate IsNewest(slots: set<Slot>, symbol: int, k: Slot) {
    k in slots && k.symbol == symbol && forall j :: j in slots && j.symbol == symbol ==> j.time <= k.time
  }

  lemma NewestExists(slots: set<Slot>, symbol: int)
    requires exists k :: k in slots && k.symbol == symbol
    ensures exists k :: IsNewest(slots, symbol, k)
  {
    var k :| k in slots && k.symbol == symbol;
    var rest := slots - {k};
    if exists j :: j in rest && j.symbol == symbol {
      NewestExists(rest, symbol);
      var m :| IsNewest(rest, symbol, m);
      assert forall j :: j in slots ==> j == k || j in rest;
      assert IsNewest(slots, symbol, if m.time < k.time then k else m);
    } else {
      assert forall j :: j in slots && j.symbol == symbol ==> j == k || j in rest;
      assert IsNewest(slots, symbol, k);
    }
  }

  /** `max(time)` over the rows of one symbol. */
  function NewestTime(table: Table, symbol: int): (r: Option<int>)
    ensures r.None? <==> forall k :: k in table ==> k.symbol != symbol
    ensures r.Some? ==> Slot(symbol, r.value) in table
    ensures r.Some? ==> forall k :: k in table && k.symbol == symbol ==> k.time <= r.value
  {
    if exists k :: k in table && k.symbol == symbol then
      assert exists k :: IsNewest(table.Keys, symbol, k) by {
        var k :| k in table && k.symbol == symbol;
        assert k in table.Keys;
        NewestExists(table.Keys, symbol);
      }
      assert exists k :: k in table && k.symbol == symbol
                         && forall j :: j in table && j.symbol == symbol ==> j.time <= k.time by {
        var k :| IsNewest(table.Keys, symbol, k);
      }
      var newest :| newest in table && newest.symbol == symbol
                    && forall j :: j in table && j.symbol == symbol ==> j.time <= newest.time;
      assert newest == Slot(symbol, newest.time);
      Some(newest.time)
    else None
  }

  // ----- The paging loop -----

  /** What passes around a request, in milliseconds: the time since the process was last ready for
      a request (inserts, other waiting, the pause between polls), the time to the answer, and the
      time that the sleep takes longer than asked for. */
  datatype Pace = Pace(before: nat, latency: nat, oversleep: nat)

  /** The answer to each request, by request number, symbol and window in seconds (`None` when the
      request fails), the successive readings of the clock, and the pace of the requests. */
  datatype World = World(answer: (nat, int, int, int) -> Option<Response>, clock: nat -> int, pace: nat -> Pace)

  /** The rows that a request for a window in whole seconds brings, if it brings any. */
  function Answered(w: World, request: nat, symbol: int, from: int, to: int): Option<seq<Settlement>> {
    match w.answer(request, symbol, from, to)
    case None => None
    case Some(response) => ParseFundings(response)
  }

  /** The request sends both ends of its window as whole seconds. */
  function Reply(w: World, request: nat, symbol: int, start: int, end: int): Option<seq<Settlement>> {
    Answered(w, request, symbol, Seconds(start), Seconds(end))
  }

  datatype Outcome = Finished | Failed | Stopped

  /** The table after a poll, and how many requests and clock readings it used up. */
  datatype Poll = Poll(table: Table, requests: nat, readings: nat, outcome: Outcome)

  /** The loop from `start` on. `pages` is the number of pages that the process lives to store: with
      none left it stops before the next insert. */
  ghost function PollPages(
    w: World, symbol: int, start: int, table: Table, requests: nat, readings: nat, pages: nat): Poll
    decreases pages
  {
    if !HourClosed(start, w.clock(readings)) then Poll(table, requests, readings + 1, Finished)
    else if pages == 0 then Poll(table, requests, readings + 1, Stopped)
    else
      match Reply(w, requests, symbol, start, w.clock(readings + 1))
      case None => Poll(table, requests + 1, readings + 2, Failed)
      case Some(rows) =>
        if !PageOk(start, w.clock(readings + 2), rows) then Poll(table, requests + 1, readings + 3, Failed)
        else if rows == [] then Poll(table, requests + 1, readings + 3, Finished)
        else
          var after := InsertFunding(table, symbol, rows);
          if |rows| < MAX_FUNDINGS_PER_CALL then Poll(after, requests + 1, readings + 3, Finished)
          else
            var next := NextRequestStart(Some(rows[|rows| - 1].time), 0);
            PollPages(w, symbol, next, after, requests + 1, readings + 3, pages - 1)
  }

  ghost function PollMarket(
    w: World, symbol: int, backfill: int, table: Table, requests: nat, readings: nat, pages: nat): Poll
  {
    PollPages(w, symbol, NextRequestStart(NewestTime(table, symbol), backfill), table, requests, readings, pages)
  }

  /** One turn of the loop. */
  lemma PollUnfolds(w: World, symbol: int, start: int, table: Table, requests: nat, readings: nat, pages: nat)
    ensures PollPages(w, symbol, start, table, requests, readings, pages) ==
      if !HourClosed(start, w.clock(readings)) then Poll(table, requests, readings + 1, Finished)
      else if pages == 0 then Poll(table, requests, readings + 1, Stopped)
      else
        match Reply(w, requests, symbol, start, w.clock(readings + 1))
        case None => Poll(table, requests + 1, readings + 2, Failed)
        case Some(rows) =>
          if !PageOk(start, w.clock(readings + 2), rows) then Poll(table, requests + 1, readings + 3, Failed)
          else if rows == [] then Poll(table, requests + 1, readings + 3, Finished)
          else if |rows| < MAX_FUNDINGS_PER_CALL then
            Poll(InsertFunding(table, symbol, rows), requests + 1, readings + 3, Finished)
          else
            PollPages(w, symbol, NextRequestStart(Some(rows[|rows| - 1].time), 0), InsertFunding(table, symbol, rows),
                      requests + 1, readings + 3, pages - 1)
  {
    hide PageOk, InsertFunding, Reply, HourClosed, NextRequestStart;
  }

  /** Only the response to a due request is stored, and only if it passes validation; otherwise the
      poll fails and stores nothing. */
  lemma RefusedPageFails(
      w: World, symbol: int, start: int, table: Table, requests: nat, readings: nat, pages: nat)
    requires HourClosed(start, w.clock(readings)) && pages > 0
    ensures var reply, now := Reply(w, requests, symbol, start, w.clock(readings + 1)), w.clock(readings + 2);
            var r := PollPages(w, symbol, start, table, requests, readings, pages);
            (reply.None?
             || (exists i :: 0 <= i < |reply.value| && !(start <= reply.value[i].time <= now))
             || (exists i, j :: 0 <= i < j < |reply.value| && reply.value[i].time >= reply.value[j].time))
            ==> r.outcome == Failed && r.table == table && r.requests == requests + 1
  {
    hide Reply;
  }

  // ----- Where stored rows come from -----

  /** Entry `i` of the answer to request `k`, for a window that starts at or before the row and with
      a later reading of the clock, is what the row holds. */
  ghost predicate Answers(w: World, slot: Slot, row: Settlement, k: nat, from: int, to: int, i: nat, reading: nat) {
    && row.time == slot.time && from * SECOND <= row.time <= w.clock(reading)
    && match w.answer(k, slot.symbol, from, to)
       case None => false
       case Some(response) =>
         && response.code == 200 && response.resolution == "1h"
         && i < |response.fundings| && Readable(response.fundings[i]) && Holds(row, response.fundings[i])
  }

  ghost predicate WasAnswered(w: World, slot: Slot, row: Settlement) {
    exists k, from, to, i, reading :: Answers(w, slot, row, k, from, to, i, reading)
  }

  ghost predicate AllAnswered(w: World, table: Table) {
    forall slot :: slot in table ==> WasAnswered(w, slot, table[slot])
  }

  lemma ReplyIsAnswered(w: World, k: nat, symbol: int, start: int, end: int, reading: nat)
    requires Reply(w, k, symbol, start, end).Some?
    requires PageOk(start, w.clock(reading), Reply(w, k, symbol, start, end).value)
    ensures var rows := Reply(w, k, symbol, start, end).value;
            forall i :: 0 <= i < |rows| ==> WasAnswered(w, Slot(symbol, rows[i].time), rows[i])
  {
    hide Readable, Holds, ParseFundings;
    var rows := Reply(w, k, symbol, start, end).value;
    var response := w.answer(k, symbol, Seconds(start), Seconds(end)).value;
    ParsingIsAllOrNothing(response);
    forall i | 0 <= i < |rows| ensures WasAnswered(w, Slot(symbol, rows[i].time), rows[i]) {
      assert Seconds(start) * SECOND <= start;
      assert Answers(w, Slot(symbol, rows[i].time), rows[i], k, Seconds(start), Seconds(end), i, reading);
    }
  }

  lemma {:induction false} InsertKeepsAnswered(w: World, table: Table, symbol: int, rows: seq<Settlement>)
    requires AllAnswered(w, table)
    requires forall i :: 0 <= i < |rows| ==> WasAnswered(w, Slot(symbol, rows[i].time), rows[i])
    ensures AllAnswered(w, InsertFunding(table, symbol, rows))
    decreases |rows|
  {
    hide WasAnswered;
    if rows != [] {
      var slot := Slot(symbol, rows[0].time);
      assert forall i :: 0 <= i < |rows[1..]| ==> rows[1..][i] == rows[i + 1];
      InsertKeepsAnswered(w, if slot in table then table else table[slot := rows[0]], symbol, rows[1..]);
    }
  }

  lemma {:induction false} PollStoresAnswers(
      w: World, symbol: int, start: int, table: Table, requests: nat, readings: nat, pages: nat)
    requires AllAnswered(w, table)
    ensures AllAnswered(w, PollPages(w, symbol, start, table, requests, readings, pages).table)
    decreases pages
  {
    hide AllAnswered, WasAnswered, PageOk, InsertFunding, Reply, HourClosed, NextRequestStart, PollPages;
    PollUnfolds(w, symbol, start, table, requests, readings, pages);
    var end := w.clock(readings + 1);
    var reply := Reply(w, requests, symbol, start, end);
    if HourClosed(start, w.clock(readings)) && pages > 0
       && reply.Some? && PageOk(start, w.clock(readings + 2), reply.value) && reply.value != [] {
      var rows := reply.value;
      var after := InsertFunding(table, symbol, rows);
      ReplyIsAnswered(w, requests, symbol, start, end, readings + 2);
      InsertKeepsAnswered(w, table, symbol, rows);
      if |rows| >= MAX_FUNDINGS_PER_CALL {
        var next := NextRequestStart(Some(rows[|rows| - 1].time), 0);
        PollStoresAnswers(w, symbol, next, after, requests + 1, readings + 3, pages - 1);
      }
    }
  }

  // ----- Cost against any server -----

  /** Requests that fit between `start` and the last hour that the clock can reach. */
  ghost function HoursLeft(start: int, horizon: int): nat {
    if start <= horizon then (horizon - start) / HOUR + 1 else 0
  }

  lemma NextPageIsLater(start: int, now: int, rows: seq<Settlement>)
    requires OnGrid(start) && PageOk(start, now, rows) && rows != []
    ensures OnGrid(NextRequestStart(Some(rows[|rows| - 1].time), 0))
    ensures start + HOUR <= NextRequestStart(Some(rows[|rows| - 1].time), 0)
  {
    var last := rows[|rows| - 1].time;
    NextStartIff(last, 0);
    GridGap(start, NextRequestStart(Some(last), 0));
  }

  lemma OneHourLess(start: int, next: int, horizon: int)
    requires start <= horizon && start + HOUR <= next
    ensures HoursLeft(next, horizon) + 1 <= HoursLeft(start, horizon)
  {
  }

  /** Whatever the server answers, each stored page moves the start by at least an hour, so with a
      bounded clock the loop ends by itself within that many requests. */
  lemma {:induction false} PollingEnds(
      w: World, symbol: int, start: int, table: Table, requests: nat, readings: nat, pages: nat, horizon: int)
    requires OnGrid(start) && (forall i: nat :: w.clock(i) <= horizon)
    ensures var r := PollPages(w, symbol, start, table, requests, readings, pages);
            && requests <= r.requests <= requests + HoursLeft(start, horizon)
            && (pages >= HoursLeft(start, horizon) ==> r.outcome != Stopped)
    decreases pages
  {
    hide PageOk, InsertFunding, ParseFundings, FloorHour, CeilHour, HoursLeft;
    var now := w.clock(readings);
    if HourClosed(start, now) {
      FloorHourIsGreatest(now, start);
      OneHourLess(start, start + HOUR, horizon);
      if pages > 0 {
        var reply := Reply(w, requests, symbol, start, w.clock(readings + 1));
        if reply.Some? && reply.value != [] && PageOk(start, w.clock(readings + 2), reply.value) {
          var rows := reply.value;
          NextPageIsLater(start, w.clock(readings + 2), rows);
          var next := NextRequestStart(Some(rows[|rows| - 1].time), 0);
          OneHourLess(start, next, horizon);
          var after := InsertFunding(table, symbol, rows);
          PollingEnds(w, symbol, next, after, requests + 1, readings + 3, pages - 1, horizon);
        }
      }
    }
  }

  // ----- The windows that are requested -----

  /** The start and end of each request of the loop. */
  ghost function Windows(
    w: World, symbol: int, start: int, requests: nat, readings: nat, pages: nat): seq<(int, int)>
    decreases pages
  {
    if !HourClosed(start, w.clock(readings)) || pages == 0 then []
    else
      var end := w.clock(readings + 1);
      var reply := Reply(w, requests, symbol, start, end);
      [(start, end)] +
      if reply.Some? && PageOk(start, w.clock(readings + 2), reply.value) && |reply.value| >= MAX_FUNDINGS_PER_CALL then
        var next := NextRequestStart(Some(reply.value[|reply.value| - 1].time), 0);
        Windows(w, symbol, next, requests + 1, readings + 3, pages - 1)
      else []
  }

  lemma WindowsUnfold(w: World, symbol: int, start: int, requests: nat, readings: nat, pages: nat)
    ensures Windows(w, symbol, start, requests, readings, pages) ==
      if !HourClosed(start, w.clock(readings)) || pages == 0 then []
      else
        var end := w.clock(readings + 1);
        var reply := Reply(w, requests, symbol, start, end);
        [(start, end)] +
        if reply.Some? && PageOk(start, w.clock(readings + 2), reply.value)
           && |reply.value| >= MAX_FUNDINGS_PER_CALL then
          var next := NextRequestStart(Some(reply.value[|reply.value| - 1].time), 0);
          Windows(w, symbol, next, requests + 1, readings + 3, pages - 1)
        else []
  {
    hide PageOk, Reply, HourClosed, NextRequestStart;
  }

  lemma {:induction false} WindowsAreRequests(
      w: World, symbol: int, start: int, table: Table, requests: nat, readings: nat, pages: nat)
    ensures |Windows(w, symbol, start, requests, readings, pages)|
         == PollPages(w, symbol, start, table, requests, readings, pages).requests - requests
    decreases pages
  {
    hide PageOk, InsertFunding, Reply, HourClosed, NextRequestStart, PollPages, Windows;
    PollUnfolds(w, symbol, start, table, requests, readings, pages);
    WindowsUnfold(w, symbol, start, requests, readings, pages);
    var reply := Reply(w, requests, symbol, start, w.clock(readings + 1));
    if HourClosed(start, w.clock(readings)) && pages > 0 && reply.Some?
       && PageOk(start, w.clock(readings + 2), reply.value) && |reply.value| >= MAX_FUNDINGS_PER_CALL {
      var rows := reply.value;
      var next := NextRequestStart(Some(rows[|rows| - 1].time), 0);
      WindowsAreRequests(w, symbol, next, InsertFunding(table, symbol, rows), requests + 1, readings + 3, pages - 1);
    }
  }

  lemma {:induction false} WindowsAreAccepted(
      w: World, symbol: int, start: int, requests: nat, readings: nat, pages: nat)
    requires OnGrid(start) && forall i: nat, j: nat :: i <= j ==> w.clock(i) <= w.clock(j)
    ensures var sent := Windows(w, symbol, start, requests, readings, pages);
            forall i :: 0 <= i < |sent| ==> Accepted(Seconds(sent[i].0), Seconds(sent[i].1))
    decreases pages
  {
    hide PageOk, Reply, Seconds, HourClosed, Accepted, NextRequestStart, OnGrid, Windows;
    WindowsUnfold(w, symbol, start, requests, readings, pages);
    if HourClosed(start, w.clock(readings)) && pages > 0 {
      var end := w.clock(readings + 1);
      RequestsAreAccepted(start, w.clock(readings), end);
      var reply := Reply(w, requests, symbol, start, end);
      if reply.Some? && PageOk(start, w.clock(readings + 2), reply.value) && |reply.value| >= MAX_FUNDINGS_PER_CALL {
        var rows := reply.value;
        NextPageIsLater(start, w.clock(readings + 2), rows);
        var next := NextRequestStart(Some(rows[|rows| - 1].time), 0);
        WindowsAreAccepted(w, symbol, next, requests + 1, readings + 3, pages - 1);
      }
    }
  }

  /** With a clock that does not run backwards no request of any poll is one that the API rejects:
      the end, rounded down to the hour, is never before the start, rounded up. */
  lemma EveryRequestIsAccepted(
      w: World, symbol: int, start: int, table: Table, requests: nat, readings: nat, pages: nat)
    requires OnGrid(start) && forall i: nat, j: nat :: i <= j ==> w.clock(i) <= w.clock(j)
    ensures var sent := Windows(w, symbol, start, requests, readings, pages);
            && |sent| == PollPages(w, symbol, start, table, requests, readings, pages).requests - requests
            && forall i :: 0 <= i < |sent| ==> Accepted(Seconds(sent[i].0), Seconds(sent[i].1))
  {
    hide Windows, PollPages, Accepted, Seconds, OnGrid;
    WindowsAreRequests(w, symbol, start, table, requests, readings, pages);
    WindowsAreAccepted(w, symbol, start, requests, readings, pages);
  }

  // ----- The whole life of the service -----

  /** One call of the poller for a market, with the backfill setting of that process. It stores at
      most `pages` pages: fewer than the poll needs when the process dies first. */
  datatype Visit = Visit(symbol: int, backfill: int, pages: nat)

  datatype Life = Life(table: Table, requests: nat, readings: nat)

  ghost function Live(w: World, visits: seq<Visit>): Life {
    if visits == [] then Life(map[], 0, 0)
    else
      var s, v := Live(w, visits[..|visits| - 1]), visits[|visits| - 1];
      var r := PollMarket(w, v.symbol, v.backfill, s.table, s.requests, s.readings, v.pages);
      Life(r.table, r.requests, r.readings)
  }

  /** Whatever the server answers: every stored row is an entry of a good answer for its symbol, with
      the entry's own time, rate and direction, and lay neither before the window nor in the future. */
  lemma {:induction false} StoredRowsWereAnswered(w: World, visits: seq<Visit>)
    ensures AllAnswered(w, Live(w, visits).table)
  {
    hide WasAnswered, PollPages;
    if visits != [] {
      var init, v := visits[..|visits| - 1], visits[|visits| - 1];
      StoredRowsWereAnswered(w, init);
      var s := Live(w, init);
      var start := NextRequestStart(NewestTime(s.table, v.symbol), v.backfill);
      PollStoresAnswers(w, v.symbol, start, s.table, s.requests, s.readings, v.pages);
    }
  }

  // ----- The poller as it runs -----

  /** The poller of one process. It continues the service's life: `requests` and `readings` count on
      from the processes before it, while `sends` logs this process's own requests. */
  class FundingPoller {
    const world: World
    const earlier: nat
    var table: Table
    var requests: nat
    var readings: nat
    var instant: int
    var sends: seq<int>

    ghost predicate Logged()
      reads this`requests, this`sends
    {
      |sends| == requests - earlier && Spaced(sends)
    }

    /** The next request may be sent at once. */
    ghost predicate Ready()
      reads this`requests, this`sends, this`instant
      ensures Ready() ==> Logged()
    {
      Logged() && (sends != [] ==> sends[|sends| - 1] + REQUEST_SPACING <= instant)
    }

    ghost function View(): Life
      reads this
    {
      Life(table, requests, readings)
    }

    constructor (world: World, life: Life, instant: int)
      ensures this.world == world && View() == life && sends == [] && Ready()
    {
      this.world, this.instant, earlier, sends := world, instant, life.requests, [];
      table, requests, readings := life.table, life.requests, life.readings;
    }

    method Now() returns (t: int)
      modifies this`readings
      ensures t == world.clock(old(readings)) && readings == old(readings) + 1
    {
      t := world.clock(readings);
      readings := readings + 1;
    }

    /** Requests one page and then sleeps. A request that gets no answer fails before the sleep. */
    method FetchPage(symbol: int, start: int) returns (rows: Option<seq<Settlement>>)
      requires Ready()
      modifies this`readings, this`requests, this`instant, this`sends
      ensures rows == Reply(world, old(requests), symbol, start, world.clock(old(readings)))
      ensures readings == old(readings) + 1 && requests == old(requests) + 1
      ensures Logged() && (rows.Some? ==> Ready())
      ensures sends == old(sends) + [old(instant) + world.pace(old(requests)).before]
    {
      var end := Now();
      var pace := world.pace(requests);
      instant := instant + pace.before;
      SpacedStep(sends, instant);
      sends := sends + [instant];
      instant := instant + pace.latency;
      var answer := world.answer(requests, symbol, Seconds(start), Seconds(end));
      requests := requests + 1;
      match answer {
        case None =>
          rows := None;
        case Some(response) =>
          instant := instant + REQUEST_SPACING + pace.oversleep;
          rows := ParseFundings(response);
      }
    }

    /** Polls one market until a page is not full or the next hour has not closed. */
    method Poll(symbol: int, backfill: int, ghost horizon: int) returns (ok: bool, ghost pages: nat)
      requires Ready() && forall i: nat :: world.clock(i) <= horizon
      modifies this
      ensures var r := PollMarket(world, symbol, backfill, old(table), old(requests), old(readings), pages);
              && r.outcome != Stopped && ok == (r.outcome == Finished)
              && View() == Life(r.table, r.requests, r.readings)
      ensures old(sends) <= sends && Logged() && (ok ==> Ready())
    {
      hide PageOk, InsertFunding, ParseFundings, Reply, NewestTime, HoursLeft;
      hide FloorHour, CeilHour, NextRequestStart, HourClosed, Ready, Logged, PollPages;
      var start := NextRequestStart(NewestTime(table, symbol), backfill);
      StartOnGrid(NewestTime(table, symbol), backfill);
      pages := HoursLeft(start, horizon);
      PollingEnds(world, symbol, start, table, requests, readings, pages, horizon);
      ghost var left, total := pages, PollPages(world, symbol, start, table, requests, readings, pages);
      while true
        invariant PollPages(world, symbol, start, table, requests, readings, left) == total
        invariant Ready() && old(sends) <= sends
        decreases left
      {
        PollUnfolds(world, symbol, start, table, requests, readings, left);
        var now := Now();
        if !HourClosed(start, now) {
          return true, pages;
        }
        var rows := FetchPage(symbol, start);
        if rows.None? {
          return false, pages;
        }
        now := Now();
        var valid := ValidatePage(start, now, rows.value);
        if !valid {
          return false, pages;
        }
        if rows.value == [] {
          return true, pages;
        }
        table := InsertFunding(table, symbol, rows.value);
        if |rows.value| < MAX_FUNDINGS_PER_CALL {
          return true, pages;
        }
        BackfillNoLongerMatters(rows.value[|rows.value| - 1].time, backfill);
        start := NextRequestStart(Some(rows.value[|rows.value| - 1].time), backfill);
        left := left - 1;
      }
    }

    /** Polls the markets in order and stops at the first that fails. */
    method PollMarkets(markets: seq<int>, backfill: int, ghost past: seq<Visit>, ghost horizon: int)
      returns (ok: bool, ghost visits: seq<Visit>)
      requires Ready() && View() == Live(world, past) && forall i: nat :: world.clock(i) <= horizon
      modifies this
      ensures View() == Live(world, visits) && past <= visits && |visits| <= |past| + |markets|
      ensures forall i :: |past| <= i < |visits| ==>
                visits[i].symbol == markets[i - |past|] && visits[i].backfill == backfill
      ensures ok ==> |visits| == |past| + |markets|
      ensures Logged() && (ok ==> Ready())
    {
      hide PollMarket, Spaced;
      visits := past;
      for k := 0 to |markets|
        invariant Ready() && View() == Live(world, visits) && past <= visits && |visits| == |past| + k
        invariant forall i :: |past| <= i < |visits| ==>
                    visits[i].symbol == markets[i - |past|] && visits[i].backfill == backfill
      {
        ghost var pages;
        ok, pages := Poll(markets[k], backfill, horizon);
        ghost var v := Visit(markets[k], backfill, pages);
        assert (visits + [v])[..|visits|] == visits;
        visits := visits + [v];
        if !ok {
          return;
        }
      }
      ok := true;
    }

    /** Polls all markets round after round until one fails. No 60-second window ever sees more than
        55 of this process's requests. */
    method Serve(markets: seq<int>, backfill: int, rounds: nat, ghost past: seq<Visit>, ghost horizon: int)
      returns (ok: bool, ghost visits: seq<Visit>)
      requires Ready() && View() == Live(world, past) && forall i: nat :: world.clock(i) <= horizon
      modifies this
      ensures View() == Live(world, visits) && past <= visits
      ensures ok ==> markets != [] && |visits| == |past| + rounds * |markets|
      ensures |sends| == requests - earlier
      ensures forall lo, hi :: hi == lo + 60_000 ==> CountIn(sends, lo, hi) <= 55
      ensures forall sync, lo, hi :: hi == lo + 60_000 ==> CountIn([sync] + sends, lo, hi) <= 56
    {
      hide Live;
      visits, ok := past, markets != [];
      if ok {
        for k := 0 to rounds
          invariant Ready() && View() == Live(world, visits) && past <= visits
          invariant ok && |visits| == |past| + k * |markets|
        {
          ok, visits := PollMarkets(markets, backfill, visits, horizon);
          if !ok {
            break;
          }
        }
      }
      forall sync, lo, hi | hi == lo + 60_000
        ensures CountIn(sends, lo, hi) <= 55 && CountIn([sync] + sends, lo, hi) <= 56
      {
        RequestRateIsBounded(sends, sync, lo);
      }
    }
  }

  lemma BackfillNoLongerMatters(newest: int, backfill: int)
    ensures NextRequestStart(Some(newest), backfill) == NextRequestStart(Some(newest), 0)
  {
  }

  lemma StartOnGrid(newest: Option<int>, backfill: int)
    ensures OnGrid(NextRequestStart(newest, backfill))
  {
    CeilHourIsLeast(if newest.Some? then newest.value + SECOND else backfill, 0);
  }
}
