/** What the stored rows of one symbol say about the books, over whole runs, reconnects and crashes. */
module Log {
  import opened Options
  import opened Levels
  import opened Book
  import opened Ingest

  ghost function BySymbol(log: seq<Emit>, symbol: int): (r: seq<Emit>)
    ensures forall e :: e in r ==> e in log && e.row.symbol == symbol
  {
    if log == [] then []
    else BySymbol(log[..|log| - 1], symbol) + if log[|log| - 1].row.symbol == symbol then [log[|log| - 1]] else []
  }

  lemma BySymbolStep(log: seq<Emit>, e: Emit, symbol: int)
    ensures BySymbol(log + [e], symbol) == BySymbol(log, symbol) + if e.row.symbol == symbol then [e] else []
  {
    assert (log + [e])[..|log|] == log;
  }

  lemma {:induction false} BySymbolConcat(a: seq<Emit>, b: seq<Emit>, symbol: int)
    ensures BySymbol(a + b, symbol) == BySymbol(a, symbol) + BySymbol(b, symbol)
    decreases |b|
  {
    if b == [] {
      assert a + b == a;
    } else {
      var init, last := b[..|b| - 1], b[|b| - 1];
      assert a + b == (a + init) + [last] && b == init + [last];
      BySymbolConcat(a, init, symbol);
      BySymbolStep(a + init, last, symbol);
      BySymbolStep(init, last, symbol);
    }
  }

  // ----- The link between neighbouring rows -----

  /** `e` is a delta that continues directly from the row `p`. */
  ghost predicate Continues(p: Emit, e: Emit) {
    && !e.periodic && e.connection == p.connection
    && e.row.beginNonce == Some(p.row.sequence)
    && DeltaBook(p.state.book, e.row.bids, e.row.asks) == BookResult(e.state.book, true)
    && p.row.time <= e.row.time
  }

  /** `e` is a snapshot of the book in memory; a periodic one repeats the row before it. */
  ghost predicate Shows(l: seq<Emit>, e: Emit) {
    && e.row.beginNonce == None
    && SnapshotBook(e.row.bids, e.row.asks) == Some(e.state.book)
    && (e.periodic ==> l != [] && l[|l| - 1].state == e.state && l[|l| - 1].connection == e.connection)
  }

  /** `e` may follow the rows `l` of its symbol. */
  ghost predicate Follows(l: seq<Emit>, e: Emit) {
    && e.row.sequence == e.state.nonce && e.row.time == e.state.time
    && match e.row.kind
       case Snapshot => Shows(l, e)
       case Delta => l != [] && Continues(l[|l| - 1], e)
  }

  ghost predicate Consistent(l: seq<Emit>) {
    forall i :: 0 <= i < |l| ==> Follows(l[..i], l[i])
  }

  lemma ConsistentStep(l: seq<Emit>, e: Emit)
    requires Consistent(l) && Follows(l, e)
    ensures Consistent(l + [e])
  {
    hide Follows;
    var r := l + [e];
    forall i | 0 <= i < |r| ensures Follows(r[..i], r[i]) {
      assert r[..i] == l[..i];
      assert i < |l| ==> r[i] == l[i];
      assert i == |l| ==> l[..i] == l;
    }
  }

  lemma ConsistentPrefix(l: seq<Emit>, k: nat)
    requires Consistent(l) && k <= |l|
    ensures Consistent(l[..k])
  {
    hide Follows;
    assert forall i :: 0 <= i < k ==> l[..k][..i] == l[..i];
  }

  /** Logs of separate connections or processes can be put one after the other. */
  lemma ConsistentConcat(a: seq<Emit>, b: seq<Emit>)
    requires Consistent(a) && Consistent(b)
    ensures Consistent(a + b)
  {
    hide DeltaBook, SnapshotBook;
    var r := a + b;
    forall i | 0 <= i < |r| ensures Follows(r[..i], r[i]) {
      if i < |a| {
        assert r[..i] == a[..i] && Follows(a[..i], a[i]);
      } else {
        var l := b[..i - |a|];
        assert r[..i] == a + l && Follows(l, b[i - |a|]);
        assert l != [] ==> (a + l)[|a + l| - 1] == l[|l| - 1];
      }
    }
  }

  // ----- The run keeps log and memory in step -----

  ghost predicate Injective(cache: Cache) {
    forall m, n :: m in cache && n in cache && cache[m] == cache[n] ==> m == n
  }

  ghost predicate Last(l: seq<Emit>, state: MarketState, connection: nat) {
    l != [] && l[|l| - 1].state == state && l[|l| - 1].connection == connection
  }

  /** Every symbol's rows are linked, and the last row of a live market shows its book. */
  ghost predicate Tracks(cache: Cache, s: RunState) {
    && (forall symbol :: Consistent(BySymbol(s.log, symbol)))
    && (forall m :: m in s.books ==>
          m in cache && GoodBook(s.books[m].book)
          && Last(BySymbol(s.log, cache[m]), s.books[m], s.connection))
  }

  lemma TracksEmit(cache: Cache, s: RunState, e: Emit)
    requires Tracks(cache, s) && Injective(cache)
    requires e.market in cache && e.row.symbol == cache[e.market] && e.connection == s.connection
    requires GoodBook(e.state.book) && Follows(BySymbol(s.log, e.row.symbol), e)
    ensures Tracks(cache, s.(books := s.books[e.market := e.state], log := s.log + [e]))
  {
    hide Follows, GoodBook, Consistent, BySymbol;
    forall symbol ensures Consistent(BySymbol(s.log + [e], symbol)) {
      BySymbolStep(s.log, e, symbol);
      var l := BySymbol(s.log, symbol);
      if symbol == e.row.symbol {
        ConsistentStep(l, e);
      } else {
        assert l + [] == l;
      }
    }
    forall m | m in s.books || m == e.market
      ensures m in cache && Last(BySymbol(s.log + [e], cache[m]), s.books[e.market := e.state][m], s.connection)
    {
      BySymbolStep(s.log, e, cache[m]);
      var l := BySymbol(s.log, cache[m]);
      if m == e.market {
        assert (l + [e])[|l|] == e;
      } else {
        assert cache[m] != cache[e.market] && l + [] == l;
      }
    }
  }

  lemma TracksPeriodic(cache: Cache, s: RunState, e: Emit)
    requires Tracks(cache, s) && Injective(cache)
    requires e.market in s.books && e.state == s.books[e.market] && e.connection == s.connection
    requires e.periodic && e.market in cache && e.row == BookRow(cache[e.market], e.state)
    ensures Tracks(cache, s.(log := s.log + [e]))
  {
    hide Follows, GoodBook, Consistent, BookRow, BySymbol;
    assert e.row.symbol == cache[e.market] by {
      BookRowSymbol(cache[e.market], e.state);
    }
    PeriodicFollows(BySymbol(s.log, cache[e.market]), e);
    TracksEmit(cache, s, e);
    assert s.books[e.market := e.state] == s.books;
  }

  lemma BookRowSymbol(symbol: int, state: MarketState)
    ensures BookRow(symbol, state).symbol == symbol
  {
  }

  lemma LiveMarketsAreKnown(cache: Cache, s: RunState)
    requires Tracks(cache, s)
    ensures s.books.Keys <= cache.Keys
  {
  }

  lemma {:induction false} TracksTick(cache: Cache, s: RunState, order: seq<Market>)
    requires Tracks(cache, s) && Injective(cache)
    ensures var r := TickEmits(cache, s.connection, s.books, order);
            Tracks(cache, s.(log := s.log + r.emits)) && r.ok && r.books == s.books
    decreases |order|
  {
    hide Follows, Tracks, BookRow;
    var r := TickEmits(cache, s.connection, s.books, order);
    if order == [] {
      assert s.log + [] == s.log;
    } else if order[0] !in s.books {
      TracksTick(cache, s, order[1..]);
    } else {
      LiveMarketsAreKnown(cache, s);
      var m := order[0];
      var e := Emit(BookRow(cache[m], s.books[m]), m, s.books[m], true, s.connection);
      var t := s.(log := s.log + [e]);
      TracksPeriodic(cache, s, e);
      TracksTick(cache, t, order[1..]);
      var rest := TickEmits(cache, s.connection, s.books, order[1..]);
      assert (s.log + [e]) + rest.emits == s.log + r.emits;
    }
  }

  lemma PeriodicFollows(l: seq<Emit>, e: Emit)
    requires GoodBook(e.state.book) && Last(l, e.state, e.connection)
    requires e.row == BookRow(e.row.symbol, e.state) && e.periodic
    ensures Follows(l, e)
  {
    hide SnapshotBook, Ascending, Descending, GoodBook;
    SnapshotRoundTrip(e.state.book);
  }

  lemma LastRow(l: seq<Emit>)
    requires Consistent(l)
    ensures l != [] ==> l[|l| - 1].row.sequence == l[|l| - 1].state.nonce
    ensures l != [] ==> l[|l| - 1].row.time == l[|l| - 1].state.time
  {
    hide Shows, Continues;
    assert l != [] ==> Follows(l[..|l| - 1], l[|l| - 1]);
  }

  lemma TracksFrame(cache: Cache, s: RunState, message: Message)
    requires Tracks(cache, s) && Injective(cache)
    requires Step(cache, s.connection, s.books, Frame(message)).ok
    ensures Tracks(cache, After(cache, s, Frame(message)))
  {
    hide ChannelMarket, SnapshotBook, DeltaBook, Consistent, ValidMicros, GoodBook;
    var r := Step(cache, s.connection, s.books, Frame(message));
    var m := ChannelMarket(message.channel).value;
    if m in cache {
      var e := r.emits[0];
      var ob := message.orderBook;
      BooksStayGood(if message.Update? then s.books[m].book else e.state.book, ob.bids, ob.asks);
      var l := BySymbol(s.log, cache[m]);
      LastRow(l);
      assert Follows(l, e);
      TracksEmit(cache, s, e);
      assert r.books == s.books[m := e.state];
    } else {
      assert s.log + [] == s.log;
    }
  }

  lemma TracksFailure(cache: Cache, s: RunState)
    requires Tracks(cache, s)
    ensures Tracks(cache, RunState(map[], s.log, s.connection + 1))
  {
  }

  lemma TracksAfter(cache: Cache, s: RunState, e: Event)
    requires Tracks(cache, s) && Injective(cache)
    ensures Tracks(cache, After(cache, s, e))
  {
    hide Tracks, ApplyMessage, ChannelMarket;
    var r := Step(cache, s.connection, s.books, e);
    if e.Tick? {
      TracksTick(cache, s, e.order);
      assert After(cache, s, e) == s.(log := s.log + r.emits);
    } else if r.ok {
      TracksFrame(cache, s, e.message);
    } else {
      assert s.log + [] == s.log;
      TracksFailure(cache, s);
    }
  }

  lemma {:induction false} RunTracks(cache: Cache, events: seq<Event>)
    requires Injective(cache)
    ensures Tracks(cache, Run(cache, events))
  {
    hide After, Tracks;
    if events == [] {
      assert Tracks(cache, RunState(map[], [], 0)) by {
        EmptyTracks(cache);
      }
    } else {
      RunTracks(cache, events[..|events| - 1]);
      TracksAfter(cache, Run(cache, events[..|events| - 1]), events[|events| - 1]);
    }
  }

  /** The periodic row of any book that is ever live lists its bids strictly downwards and its asks
      strictly upwards, without zero sizes, and read back as a snapshot it gives the same book. */
  lemma LiveBooksListInOrder(cache: Cache, events: seq<Event>, m: Market, symbol: int)
    requires Injective(cache) && m in Run(cache, events).books
    ensures var row := BookRow(symbol, Run(cache, events).books[m]);
            && SnapshotBook(row.bids, row.asks) == Some(Run(cache, events).books[m].book)
            && (forall i :: 0 <= i < |row.bids| ==> Parses(row.bids[i]) && !Removes(row.bids[i]))
            && (forall i :: 0 <= i < |row.asks| ==> Parses(row.asks[i]) && !Removes(row.asks[i]))
            && (forall i, j :: 0 <= i < j < |row.bids| ==> PriceOf(row.bids[i]).value > PriceOf(row.bids[j]).value)
            && (forall i, j :: 0 <= i < j < |row.asks| ==> PriceOf(row.asks[i]).value < PriceOf(row.asks[j]).value)
  {
    hide Run, Parses, Removes, PriceOf, SnapshotBook, Ascending, Descending;
    RunTracks(cache, events);
    var book := Run(cache, events).books[m].book;
    SnapshotRoundTrip(book);
    ListingsAreOrdered(book.bids);
    ListingsAreOrdered(book.asks);
    ListingsAreComplete(book.bids);
    ListingsAreComplete(book.asks);
  }

  lemma EmptyTracks(cache: Cache)
    ensures Tracks(cache, RunState(map[], [], 0))
  {
  }
}
