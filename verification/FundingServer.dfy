/** A server that answers from a list of raw settlements. It meets the hypotheses of `GapFree` for
    every history, so the results there speak of real polls, of as many pages as it takes. */
module FundingServer {
  import opened Options
  import opened Decimals
  import opened Hours
  import opened Funding
  import opened GapFree

  function RawWindow(raws: seq<RawFunding>, from: int, to: int): seq<RawFunding> {
    if raws == [] then []
    else (if from <= raws[0].timestamp <= to then [raws[0]] else []) + RawWindow(raws[1..], from, to)
  }

  function RawPage(raws: seq<RawFunding>, from: int, to: int): seq<RawFunding> {
    var all := RawWindow(raws, from, to);
    if |all| <= MAX_FUNDINGS_PER_CALL then all else all[..MAX_FUNDINGS_PER_CALL]
  }

  /** `raws(k)` is what the server knows at request `k`. It answers each request that it accepts. */
  function Serving(raws: nat -> seq<RawFunding>, clock: nat -> int): World {
    World((request: nat, symbol: int, from: int, to: int) =>
            if Accepted(from, to) then Some(Response(200, FUNDING_RESOLUTION, RawPage(raws(request), from, to)))
            else None,
          clock, (k: nat) => Pace(0, 0, 0))
  }

  function History(raws: nat -> seq<RawFunding>): nat -> seq<Settlement> {
    (k: nat) => match ParseAll(raws(k)) case None => [] case Some(h) => h
  }

  lemma {:induction false} WindowParses(raws: seq<RawFunding>, from: int, to: int)
    requires ParseAll(raws).Some?
    ensures ParseAll(RawWindow(raws, from, to)) == Some(Window(ParseAll(raws).value, from * SECOND, to * SECOND))
  {
    hide ParseFunding;
    if raws != [] {
      var rest := RawWindow(raws[1..], from, to);
      WindowParses(raws[1..], from, to);
      var h := ParseAll(raws).value;
      assert h[1..] == ParseAll(raws[1..]).value;
      TimeParses(raws[0], from, to);
      if from <= raws[0].timestamp <= to {
        assert ([raws[0]] + rest)[1..] == rest;
      } else {
        assert RawWindow(raws, from, to) == [] + rest == rest;
        var later := Window(h[1..], from * SECOND, to * SECOND);
        assert Window(h, from * SECOND, to * SECOND) == [] + later == later;
      }
    }
  }

  lemma TimeParses(raw: RawFunding, from: int, to: int)
    requires ParseFunding(raw).Some?
    ensures from <= raw.timestamp <= to <==> from * SECOND <= ParseFunding(raw).value.time <= to * SECOND
  {
  }

  lemma PrefixParses(raws: seq<RawFunding>, n: nat)
    requires ParseAll(raws).Some? && n <= |raws|
    ensures n <= |ParseAll(raws).value| && ParseAll(raws[..n]) == Some(ParseAll(raws).value[..n])
  {
    hide ParseFunding;
    EntriesAreAllOrNothing(raws);
    EntriesAreAllOrNothing(raws[..n]);
    var h, part := ParseAll(raws).value, ParseAll(raws[..n]).value;
    forall i | 0 <= i < n ensures part[i] == h[i] {
      assert raws[..n][i] == raws[i];
      assert Some(h[i]) == ParseFunding(raws[i]) == Some(part[i]);
    }
    assert part == h[..n];
  }

  lemma PageParses(raws: seq<RawFunding>, from: int, to: int)
    requires ParseAll(raws).Some?
    ensures ParseAll(RawPage(raws, from, to)) == Some(Page(ParseAll(raws).value, from * SECOND, to * SECOND))
  {
    hide ParseAll, RawWindow, Window;
    var all := RawWindow(raws, from, to);
    WindowParses(raws, from, to);
    EntriesAreAllOrNothing(all);
    if |all| > MAX_FUNDINGS_PER_CALL {
      PrefixParses(all, MAX_FUNDINGS_PER_CALL);
    }
  }

  /** Every history that can be read and only grows has an honest server, one that answers every
      request it has to accept. */
  lemma HonestServerExists(raws: nat -> seq<RawFunding>, clock: nat -> int, symbol: int)
    requires forall k: nat :: ParseAll(raws(k)).Some? && ValidHistory(ParseAll(raws(k)).value)
    requires forall j: nat, k: nat :: j <= k ==> raws(j) <= raws(k)
    ensures var w, h := Serving(raws, clock), History(raws);
            && Honest(w, symbol, h)
            && (forall k: nat :: Some(h(k)) == ParseAll(raws(k)))
            && (forall k: nat, from, to :: Accepted(from, to) ==>
                  Answered(w, k, symbol, from, to) == Some(Page(h(k), from * SECOND, to * SECOND)))
  {
    hide ParseAll, ValidHistory, Page, RawPage, Accepted;
    var w, h := Serving(raws, clock), History(raws);
    forall k: nat, from, to
      ensures Answered(w, k, symbol, from, to)
           == if Accepted(from, to) then Some(Page(h(k), from * SECOND, to * SECOND)) else None
    {
      PageParses(raws(k), from, to);
    }
    forall j: nat, k: nat | j <= k ensures h(j) <= h(k) {
      EntriesAreAllOrNothing(raws(j));
      PrefixParses(raws(k), |raws(j)|);
      assert raws(k)[..|raws(j)|] == raws(j);
    }
  }

  /** Every fixed history that can be read has a settled server. */
  lemma SettledServerExists(raws: seq<RawFunding>, now: int, symbol: int)
    requires ParseAll(raws).Some? && ValidHistory(ParseAll(raws).value)
    requires forall i :: 0 <= i < |ParseAll(raws).value| ==> ParseAll(raws).value[i].time <= now
    ensures Settled(Serving((k: nat) => raws, (k: nat) => now), symbol, ParseAll(raws).value, 0)
  {
    hide ParseAll, ValidHistory, Answered, Page, Accepted;
    HonestServerExists((k: nat) => raws, (k: nat) => now, symbol);
  }

  // ----- A poll of more than one page -----

  /** `n` hourly settlements from 1970 on. */
  function Hourly(n: nat): (raws: seq<RawFunding>)
    ensures |raws| == n && forall i :: 0 <= i < n ==> raws[i] == RawFunding(3600 * i, "0", "long")
  {
    seq(n, i => RawFunding(3600 * i, "0", "long"))
  }

  /** A thousand settlements at the first request, and one more at each later one. */
  function OneMore(): nat -> seq<RawFunding> {
    (k: nat) => Hourly(if k == 0 then 1000 else 1001)
  }

  function LateClock(): nat -> int {
    (k: nat) => 1001 * HOUR
  }

  lemma ZeroParses()
    ensures ParseDecimal("0") == Some(Decimal(0, 0))
  {
    assert "0"[..1] == "0";
  }

  lemma HourlyParses(n: nat)
    requires n <= 1001
    ensures ParseAll(Hourly(n)).Some?
    ensures var h := ParseAll(Hourly(n)).value;
            && |h| == n && ValidHistory(h)
            && forall i :: 0 <= i < n ==> h[i] == Settlement(i * HOUR, Decimal(0, 0), "long")
  {
    hide ParseDecimal, ParseAll, Hourly;
    ZeroParses();
    EntriesAreAllOrNothing(Hourly(n));
    var raws, h := Hourly(n), ParseAll(Hourly(n));
    forall i | 0 <= i < n ensures ParseFunding(raws[i]) == Some(Settlement(i * HOUR, Decimal(0, 0), "long")) {}
    assert h.Some?;
    forall i | 0 <= i < n ensures h.value[i] == Settlement(i * HOUR, Decimal(0, 0), "long") {
      assert Some(h.value[i]) == ParseFunding(raws[i]);
    }
  }

  lemma {:induction false} RemainingAll(h: seq<Settlement>, start: int)
    requires forall i :: 0 <= i < |h| ==> start <= h[i].time
    ensures Remaining(h, start) == h
  {
    if h != [] {
      RemainingAll(h[1..], start);
    }
  }

  lemma {:induction false} RemainingFrom(h: seq<Settlement>, i: nat)
    requires Increasing(h) && i < |h|
    ensures Remaining(h, h[i].time) == h[i..]
  {
    if i == 0 {
      RemainingAll(h, h[0].time);
    } else {
      TailIncreases(h);
      RemainingFrom(h[1..], i - 1);
      assert h[1..][i - 1..] == h[i..];
    }
  }

  /** The history has a settlement more when the second page is asked for. Both pages are stored:
      all 1001 settlements, by two requests of one poll of an honest server. */
  lemma GrowingHistoryIsPaged(symbol: int)
    ensures var w, h := Serving(OneMore(), LateClock()), History(OneMore());
            && Honest(w, symbol, h) && |h(0)| == 1000 && |h(1)| == 1001
            && var s := Live(w, [Visit(symbol, 0, 2)]);
               s.requests == 2 && forall i :: 0 <= i < 1001 ==> Stored(s.table, symbol, i * HOUR) == Some(h(1)[i])
  {
    hide Honest, Serving, InsertFunding, Stored, NewestTime, PollPages, ParseAll, History, OneMore, LateClock;
    var w, h := Serving(OneMore(), LateClock()), History(OneMore());
    ServesOneMore(symbol);
    var first := h(0)[..750];
    var after := InsertFunding(map[], symbol, first);
    FirstPage(symbol);
    SecondPage(symbol, after);
    StoresBoth(symbol, h(0), h(1));
    assert [Visit(symbol, 0, 2)][..0] == [];
    assert NewestTime(map[], symbol) == None;
  }

  lemma ServesOneMore(symbol: int)
    ensures var w, h := Serving(OneMore(), LateClock()), History(OneMore());
            && Honest(w, symbol, h) && w.clock == LateClock()
            && (forall k: nat, from, to :: Accepted(from, to) ==>
                  Answered(w, k, symbol, from, to) == Some(Page(h(k), from * SECOND, to * SECOND)))
            && (forall k: nat :: ValidHistory(h(k)) && |h(k)| == (if k == 0 then 1000 else 1001)
                  && forall i :: 0 <= i < |h(k)| ==> h(k)[i] == Settlement(i * HOUR, Decimal(0, 0), "long"))
  {
    hide ParseAll, ValidHistory, Page, RawPage, Accepted, Answered, Honest, Hourly;
    HourlyParses(1000);
    HourlyParses(1001);
    assert Hourly(1000) <= Hourly(1001);
    HonestServerExists(OneMore(), LateClock(), symbol);
  }

  lemma PageFrom(w: World, symbol: int, h: seq<Settlement>, k: nat, i: nat)
    requires i < |h| <= 1001 && ValidHistory(h) && forall j :: 0 <= j < |h| ==> h[j].time == j * HOUR
    requires forall from, to :: Accepted(from, to) ==>
               Answered(w, k, symbol, from, to) == Some(Page(h, from * SECOND, to * SECOND))
    ensures var rest := h[i..];
            Reply(w, k, symbol, i * HOUR, 1001 * HOUR)
            == Some(if |rest| <= MAX_FUNDINGS_PER_CALL then rest else rest[..MAX_FUNDINGS_PER_CALL])
    ensures HourClosed(i * HOUR, 1001 * HOUR)
    ensures forall n: nat :: n <= |h| - i ==> PageOk(i * HOUR, 1001 * HOUR, h[i..][..n])
  {
    hide Accepted, Answered, Window, Remaining;
    var start, now := i * HOUR, 1001 * HOUR;
    assert h[i].time == start && OnGrid(start);
    FloorHourIs(now);
    RequestsAreAccepted(start, now, now);
    GridIsWholeSeconds(start);
    GridIsWholeSeconds(now);
    RemainingFrom(h, i);
    RemainingIsWindow(h, start, now);
  }

  lemma FirstPage(symbol: int)
    ensures var w, h := Serving(OneMore(), LateClock()), History(OneMore());
            |h(0)| == 1000 &&
            PollMarket(w, symbol, 0, map[], 0, 0, 2)
            == PollPages(w, symbol, 750 * HOUR, InsertFunding(map[], symbol, h(0)[..750]), 1, 3, 1)
  {
    hide Serving, InsertFunding, History, OneMore, Honest, Answered, Accepted, Page, HourClosed, PageOk, Reply;
    var w, h := Serving(OneMore(), LateClock()), History(OneMore());
    ServesOneMore(symbol);
    assert CeilHour(0) == 0;
    var page := h(0)[..750];
    PageFrom(w, symbol, h(0), 0, 0);
    assert h(0)[0..] == h(0) && PageOk(0, 1001 * HOUR, page);
    assert page[749].time == 749 * HOUR;
    NextStartOnGrid(749 * HOUR, 0);
  }

  lemma SecondPage(symbol: int, table: Table)
    ensures var w, h := Serving(OneMore(), LateClock()), History(OneMore());
            |h(1)| == 1001 &&
            PollPages(w, symbol, 750 * HOUR, table, 1, 3, 1)
            == Poll(InsertFunding(table, symbol, h(1)[750..]), 2, 6, Finished)
  {
    hide Serving, InsertFunding, History, OneMore, Honest, Answered, Accepted, Page, HourClosed, PageOk, Reply;
    var w, h := Serving(OneMore(), LateClock()), History(OneMore());
    ServesOneMore(symbol);
    var page := h(1)[750..];
    PageFrom(w, symbol, h(1), 1, 750);
    assert page[..|h(1)| - 750] == page;
  }

  lemma StoresBoth(symbol: int, g: seq<Settlement>, h: seq<Settlement>)
    requires |g| == 1000 && |h| == 1001 && Increasing(g) && Increasing(h) && g <= h
    requires forall i :: 0 <= i < |h| ==> h[i].time == i * HOUR
    ensures var table := InsertFunding(InsertFunding(map[], symbol, g[..750]), symbol, h[750..]);
            forall i :: 0 <= i < 1001 ==> Stored(table, symbol, i * HOUR) == Some(h[i])
  {
    hide InsertFunding, At;
    var first, second := g[..750], h[750..];
    var after := InsertFunding(map[], symbol, first);
    forall i | 0 <= i < 1001 ensures Stored(InsertFunding(after, symbol, second), symbol, i * HOUR) == Some(h[i]) {
      InsertedAt(map[], symbol, first, i * HOUR);
      InsertedAt(after, symbol, second, i * HOUR);
      if i < 750 {
        assert first[i] == h[i];
        AtIndex(first, i);
      } else {
        AtIsSome(first, i * HOUR);
        assert second[i - 750] == h[i];
        AtIndex(second, i - 750);
      }
    }
  }
}
