/** Prices count by value: writing the decimals of any messages differently changes neither which
    levels ever exist, nor their order, nor which rows are emitted. */
module Spelling {
  import opened Options
  import opened Levels
  import opened Book
  import opened Ingest

  ghost predicate RespelledMessage(a: Message, b: Message) {
    && (a.Subscribed? <==> b.Subscribed?)
    && a.channel == b.channel && a.lastUpdatedAt == b.lastUpdatedAt
    && a.orderBook.nonce == b.orderBook.nonce && a.orderBook.beginNonce == b.orderBook.beginNonce
    && Respelled(a.orderBook.bids, b.orderBook.bids) && Respelled(a.orderBook.asks, b.orderBook.asks)
  }

  ghost predicate RespelledEvent(a: Event, b: Event) {
    if a.Frame? then b.Frame? && RespelledMessage(a.message, b.message) else a == b
  }

  /** Equal up to the texts of the levels: the same prices exist on both sides. */
  ghost predicate SameState(a: MarketState, b: MarketState) {
    && a.nonce == b.nonce && a.time == b.time
    && a.book.bids.Keys == b.book.bids.Keys && a.book.asks.Keys == b.book.asks.Keys
  }

  ghost predicate SameBooks(a: Books, b: Books) {
    a.Keys == b.Keys && forall m :: m in a ==> SameState(a[m], b[m])
  }

  ghost predicate SameEmit(x: Emit, y: Emit) {
    && x.market == y.market && x.periodic == y.periodic && x.connection == y.connection
    && x.row.(bids := [], asks := []) == y.row.(bids := [], asks := [])
    && SameState(x.state, y.state)
  }

  ghost predicate SameEmits(x: seq<Emit>, y: seq<Emit>) {
    |x| == |y| && forall i :: 0 <= i < |x| ==> SameEmit(x[i], y[i])
  }

  ghost predicate SameRun(a: RunState, b: RunState) {
    SameBooks(a.books, b.books) && SameEmits(a.log, b.log) && a.connection == b.connection
  }

  lemma MessageSpelling(symbol: int, market: Market, a: Message, b: Message, booksA: Books, booksB: Books)
    requires RespelledMessage(a, b) && SameBooks(booksA, booksB)
    ensures var x, y := ApplyMessage(symbol, market, a, booksA), ApplyMessage(symbol, market, b, booksB);
            && (x.row.Some? <==> y.row.Some?)
            && (x.row.Some? ==>
                  && SameBooks(x.books, y.books)
                  && x.row.value.(bids := [], asks := []) == y.row.value.(bids := [], asks := []))
  {
    hide ApplySide, InsertAll, Respelled, ValidMicros;
    var p, q := a.orderBook, b.orderBook;
    if a.Subscribed? {
      RespellingKeepsPrices(map[], map[], p.bids, q.bids);
      RespellingKeepsPrices(map[], map[], p.asks, q.asks);
    } else if market in booksA {
      var s, t := booksA[market], booksB[market];
      assert SameState(s, t);
      RespellingKeepsPrices(s.book.bids, t.book.bids, p.bids, q.bids);
      RespellingKeepsPrices(s.book.asks, t.book.asks, p.asks, q.asks);
    }
  }

  lemma {:induction false} TickSpelling(cache: Cache, connection: nat, booksA: Books, booksB: Books, order: seq<Market>)
    requires SameBooks(booksA, booksB)
    ensures var x, y := TickEmits(cache, connection, booksA, order), TickEmits(cache, connection, booksB, order);
            x.ok == y.ok && x.books == booksA && y.books == booksB && SameEmits(x.emits, y.emits)
    decreases |order|
  {
    hide Ascending, Descending, SameState;
    if order != [] {
      TickSpelling(cache, connection, booksA, booksB, order[1..]);
      if order[0] in booksA {
        assert SameState(booksA[order[0]], booksB[order[0]]);
        assert booksA[order[0]].nonce == booksB[order[0]].nonce && booksA[order[0]].time == booksB[order[0]].time by {
          StateFields(booksA[order[0]], booksB[order[0]]);
        }
      }
    }
  }

  lemma StateFields(a: MarketState, b: MarketState)
    requires SameState(a, b)
    ensures a.nonce == b.nonce && a.time == b.time
  {
  }

  lemma StepSpelling(cache: Cache, s: RunState, t: RunState, a: Event, b: Event)
    requires SameRun(s, t) && RespelledEvent(a, b)
    ensures SameRun(After(cache, s, a), After(cache, t, b))
  {
    hide ApplyMessage, ChannelMarket, SameState, Respelled, TickEmits;
    if a.Tick? {
      TickSpelling(cache, s.connection, s.books, t.books, a.order);
    } else if a.Frame? && ChannelMarket(a.message.channel).Some? {
      var m := ChannelMarket(a.message.channel).value;
      if m in cache {
        MessageSpelling(cache[m], m, a.message, b.message, s.books, t.books);
      }
    }
  }

  /** Two runs whose messages differ only in how decimals are written emit the same rows up to that
      spelling, hold books with the same prices, and reconnect at the same points. */
  lemma {:induction false} RunSpelling(cache: Cache, a: seq<Event>, b: seq<Event>)
    requires |a| == |b| && forall i :: 0 <= i < |a| ==> RespelledEvent(a[i], b[i])
    ensures SameRun(Run(cache, a), Run(cache, b))
    decreases |a|
  {
    hide After, SameRun, RespelledEvent;
    if a == [] {
      assert SameRun(RunState(map[], [], 0), RunState(map[], [], 0)) by { NothingSame(); }
    } else {
      var n := |a| - 1;
      assert forall i :: 0 <= i < n ==> a[..n][i] == a[i] && b[..n][i] == b[i];
      RunSpelling(cache, a[..n], b[..n]);
      StepSpelling(cache, Run(cache, a[..n]), Run(cache, b[..n]), a[n], b[n]);
    }
  }

  lemma NothingSame()
    ensures SameRun(RunState(map[], [], 0), RunState(map[], [], 0))
  {
  }

  /** Books with the same prices list them in the same order. */
  lemma SamePricesSameOrder(a: Depth, b: Depth)
    requires WellFormed(a) && WellFormed(b) && a.Keys == b.Keys
    ensures |Ascending(a)| == |Ascending(b)|
    ensures forall i :: 0 <= i < |Ascending(a)| ==>
              && Parses(Ascending(a)[i]) && Parses(Ascending(b)[i])
              && PriceOf(Ascending(a)[i]) == PriceOf(Ascending(b)[i])
              && Parses(Descending(a)[i]) && Parses(Descending(b)[i])
              && PriceOf(Descending(a)[i]) == PriceOf(Descending(b)[i])
  {
    hide Parses, PriceOf, Removes, SortedPrices, Reversed;
    var prices := SortedPrices(a.Keys);
    forall i | 0 <= i < |prices|
      ensures Parses(a[prices[i]]) && Parses(b[prices[i]])
      ensures PriceOf(a[prices[i]]) == PriceOf(b[prices[i]]) == prices[i]
    {
      assert prices[i] in prices;
    }
  }
}
