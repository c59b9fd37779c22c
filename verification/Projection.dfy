/** The machine treats markets independently: a run on all markets, seen through one of them, is a
    run on the messages, timer ticks and disconnects of that market alone. */
module Projection {
  import opened Options
  import opened Levels
  import opened Book
  import opened Ingest
  import opened Log

  ghost function Only(books: Books, m: Market): Books {
    if m in books then map[m := books[m]] else map[]
  }

  /** What market `m` sees of a whole run. */
  ghost function Seen(cache: Cache, s: RunState, m: Market): RunState
    requires m in cache
  {
    RunState(Only(s.books, m), BySymbol(s.log, cache[m]), s.connection)
  }

  /** What market `m` sees of an event: its own frames, its own part of a tick, and, when another
      market's frame ends the connection, just that end. */
  ghost function SeenEvent(ok: bool, e: Event, m: Market): seq<Event> {
    match e
    case Frame(message) => if ChannelMarket(message.channel) == Some(m) then [e] else if ok then [] else [Ended]
    case Tick(order) => [Tick(if m in order then [m] else [])]
    case Unreadable => [e]
    case Ended => [e]
  }

  ghost function SeenEvents(cache: Cache, events: seq<Event>, m: Market): seq<Event> {
    if events == [] then []
    else
      var init, e := events[..|events| - 1], events[|events| - 1];
      var s := Run(cache, init);
      SeenEvents(cache, init, m) + SeenEvent(Step(cache, s.connection, s.books, e).ok, e, m)
  }

  // ----- One event -----

  lemma {:induction false} TickSeen(cache: Cache, connection: nat, books: Books, order: seq<Market>, m: Market)
    requires m in cache && Injective(cache) && books.Keys <= cache.Keys
    requires forall i, j :: 0 <= i < j < |order| ==> order[i] != order[j]
    ensures BySymbol(TickEmits(cache, connection, books, order).emits, cache[m])
         == if m in books && m in order then [Emit(BookRow(cache[m], books[m]), m, books[m], true, connection)] else []
    decreases |order|
  {
    hide Descending, Ascending, BySymbol;
    assert BySymbol([], cache[m]) == [] by { NoRows(cache[m]); }
    if order != [] {
      var n, rest := order[0], order[1..];
      TickSeen(cache, connection, books, rest, m);
      assert n !in rest;
      if n in books {
        var e := Emit(BookRow(cache[n], books[n]), n, books[n], true, connection);
        var others := TickEmits(cache, connection, books, rest).emits;
        BySymbolConcat([e], others, cache[m]);
        BySymbolStep([], e, cache[m]);
        assert [] + [e] == [e];
      }
    }
  }

  lemma NoRows(symbol: int)
    ensures BySymbol([], symbol) == []
  {
  }

  lemma TickAfterSeen(cache: Cache, s: RunState, order: seq<Market>, m: Market)
    requires m in cache && Injective(cache) && s.books.Keys <= cache.Keys && Enumerates(order, s.books.Keys)
    ensures After(cache, Seen(cache, s, m), Tick(if m in order then [m] else []))
         == Seen(cache, After(cache, s, Tick(order)), m)
  {
    hide BySymbol, BookRow;
    var mine := if m in order then [m] else [];
    var r := TickEmits(cache, s.connection, s.books, order);
    TickKeepsBooks(cache, s.connection, s.books, order);
    TickSeen(cache, s.connection, s.books, order, m);
    BySymbolConcat(s.log, r.emits, cache[m]);
    if m in order {
      TickOne(cache, s.connection, Only(s.books, m), m);
    }
  }

  lemma TickOne(cache: Cache, connection: nat, books: Books, m: Market)
    requires m in books && m in cache
    ensures TickEmits(cache, connection, books, [m])
         == StepResult(books, [Emit(BookRow(cache[m], books[m]), m, books[m], true, connection)], true)
  {
    hide BookRow;
    assert TickEmits(cache, connection, books, []) == StepResult(books, [], true);
    assert [m][1..] == [];
  }

  lemma OwnFrameSeen(cache: Cache, s: RunState, message: Message, m: Market)
    requires m in cache && ChannelMarket(message.channel) == Some(m)
    ensures After(cache, Seen(cache, s, m), Frame(message)) == Seen(cache, After(cache, s, Frame(message)), m)
  {
    hide ChannelMarket, SnapshotBook, DeltaBook, BySymbol;
    var a, b := ApplyMessage(cache[m], m, message, s.books), ApplyMessage(cache[m], m, message, Only(s.books, m));
    assert b == Applied(Only(a.books, m), a.row);
    if a.row.Some? {
      BySymbolStep(s.log, Emit(a.row.value, m, a.books[m], false, s.connection), cache[m]);
    } else {
      assert s.log + [] == s.log && BySymbol(s.log, cache[m]) + [] == BySymbol(s.log, cache[m]);
    }
  }

  lemma OtherFrameSeen(cache: Cache, s: RunState, message: Message, m: Market)
    requires m in cache && Injective(cache) && ChannelMarket(message.channel) != Some(m)
    ensures var t := After(cache, s, Frame(message));
            Seen(cache, t, m) == if Step(cache, s.connection, s.books, Frame(message)).ok
                                 then Seen(cache, s, m) else After(cache, Seen(cache, s, m), Ended)
  {
    hide ChannelMarket, SnapshotBook, DeltaBook, BySymbol;
    var r := Step(cache, s.connection, s.books, Frame(message));
    assert s.log + [] == s.log && BySymbol(s.log, cache[m]) + [] == BySymbol(s.log, cache[m]);
    if r.ok && r.emits != [] {
      assert r.emits == [r.emits[0]];
      BySymbolStep(s.log, r.emits[0], cache[m]);
    }
  }

  lemma EndSeen(cache: Cache, s: RunState, e: Event, m: Market)
    requires m in cache && (e.Ended? || e.Unreadable?)
    ensures After(cache, Seen(cache, s, m), e) == Seen(cache, After(cache, s, e), m)
  {
    hide BySymbol;
    assert s.log + [] == s.log && BySymbol(s.log, cache[m]) + [] == BySymbol(s.log, cache[m]);
  }

  // ----- Whole runs -----

  /** Every run, with all its failures and reconnects, restricted to one market is that market's
      own run: same books, same rows in the same order, same connections. */
  lemma {:induction false} RunSeen(cache: Cache, events: seq<Event>, m: Market)
    requires m in cache && Injective(cache) && Legal(cache, events)
    ensures Run(cache, SeenEvents(cache, events, m)) == Seen(cache, Run(cache, events), m)
  {
    hide After, Step, Seen, SeenEvent;
    if events == [] {
      assert Seen(cache, RunState(map[], [], 0), m) == RunState(map[], [], 0) by { NothingSeen(cache, m); }
    } else {
      var init, e := events[..|events| - 1], events[|events| - 1];
      assert forall i :: 0 <= i < |init| ==> init[..i] == events[..i];
      RunSeen(cache, init, m);
      RunTracks(cache, init);
      LiveMarketsAreKnown(cache, Run(cache, init));
      assert LegalEvent(Run(cache, init).books, e);
      LastSeen(cache, SeenEvents(cache, init, m), Run(cache, init), e, m);
    }
  }

  lemma NothingSeen(cache: Cache, m: Market)
    requires m in cache
    ensures Seen(cache, RunState(map[], [], 0), m) == RunState(map[], [], 0)
  {
  }

  lemma LastSeen(cache: Cache, mine: seq<Event>, s: RunState, e: Event, m: Market)
    requires m in cache && Injective(cache) && s.books.Keys <= cache.Keys && LegalEvent(s.books, e)
    requires Run(cache, mine) == Seen(cache, s, m)
    ensures Run(cache, mine + SeenEvent(Step(cache, s.connection, s.books, e).ok, e, m))
         == Seen(cache, After(cache, s, e), m)
  {
    hide Run, After, Step, Seen, ChannelMarket;
    var next := SeenEvent(Step(cache, s.connection, s.books, e).ok, e, m);
    match e
    case Tick(order) =>
      TickAfterSeen(cache, s, order, m);
      RunStep(cache, mine, next[0]);
    case Frame(message) =>
      if ChannelMarket(message.channel) == Some(m) {
        OwnFrameSeen(cache, s, message, m);
        RunStep(cache, mine, next[0]);
      } else {
        OtherFrameSeen(cache, s, message, m);
        if next == [] {
          assert mine + [] == mine;
        } else {
          RunStep(cache, mine, Ended);
        }
      }
    case Unreadable =>
      EndSeen(cache, s, e, m);
      RunStep(cache, mine, e);
    case Ended =>
      EndSeen(cache, s, e, m);
      RunStep(cache, mine, e);
  }

  /** The timer never meets a book of an unknown market: it writes one row for each live market. */
  lemma TickCoversLiveMarkets(cache: Cache, events: seq<Event>, order: seq<Market>)
    requires Injective(cache) && Enumerates(order, Run(cache, events).books.Keys)
    ensures var s := Run(cache, events);
            var r := Step(cache, s.connection, s.books, Tick(order));
            && r.ok && r.books == s.books
            && (forall m :: m in s.books ==>
                  m in cache
                  && BySymbol(r.emits, cache[m])
                     == [Emit(BookRow(cache[m], s.books[m]), m, s.books[m], true, s.connection)])
  {
    hide Run, BySymbol, BookRow, TickEmits;
    var s := Run(cache, events);
    RunTracks(cache, events);
    LiveMarketsAreKnown(cache, s);
    TickKeepsBooks(cache, s.connection, s.books, order);
    forall m | m in s.books
      ensures m in cache
      ensures BySymbol(TickEmits(cache, s.connection, s.books, order).emits, cache[m])
           == [Emit(BookRow(cache[m], s.books[m]), m, s.books[m], true, s.connection)]
    {
      TickSeen(cache, s.connection, s.books, order, m);
    }
  }
}
