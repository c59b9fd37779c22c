/** Agreement with the exchange: whatever messages are lost, repeated or reordered, a live book is
    the exchange's book at the nonce that the market holds. */
module Exchange {
  import opened Options
  import opened Levels
  import opened Book
  import opened Ingest

  /** The exchange's side of a book: sizes by price, both as numbers. */
  type Quotes = map<Price, real>
  datatype Quoted = Quoted(bids: Quotes, asks: Quotes)

  /** The exchange's book of every market at every nonce. */
  type History = (Market, int) -> Quoted

  ghost function QuoteAt(q: Quotes, p: Price): Option<real> {
    if p in q then Some(q[p]) else None
  }

  /** The levels turn `before` into `after`: the last mention of a price sets its size, a zero
      removes it, and prices that are not mentioned stay. */
  ghost predicate Turns(before: Quotes, levels: seq<PriceLevel>, after: Quotes) {
    forall p :: QuoteAt(after, p) ==
      var i := LastMention(levels, p);
      if i < 0 then QuoteAt(before, p) else if SizeOf(levels[i]) == 0.0 then None else Some(SizeOf(levels[i]))
  }

  /** A truthful message: a snapshot shows the exchange's book at its nonce, and a delta leads from
      the book at `beginNonce` to the book at `nonce`. */
  ghost predicate Truthful(x: History, market: Market, message: Message) {
    var ob := message.orderBook;
    var before := if message.Subscribed? then Quoted(map[], map[]) else x(market, ob.beginNonce);
    Turns(before.bids, ob.bids, x(market, ob.nonce).bids) && Turns(before.asks, ob.asks, x(market, ob.nonce).asks)
  }

  ghost predicate TruthfulEvent(x: History, e: Event) {
    e.Frame? && ChannelMarket(e.message.channel).Some? ==>
      Truthful(x, ChannelMarket(e.message.channel).value, e.message)
  }

  ghost function SizesOf(d: Depth): Quotes {
    map p | p in d :: if Parses(d[p]) then SizeOf(d[p]) else 0.0
  }

  ghost function QuotedBook(b: BookView): Quoted {
    Quoted(SizesOf(b.bids), SizesOf(b.asks))
  }

  ghost predicate Agrees(x: History, market: Market, state: MarketState) {
    GoodBook(state.book) && QuotedBook(state.book) == x(market, state.nonce)
  }

  // ----- One side -----

  lemma QuotesExtensionality(a: Quotes, b: Quotes)
    requires forall p :: QuoteAt(a, p) == QuoteAt(b, p)
    ensures a == b
  {
    assert forall p :: p in a <==> QuoteAt(a, p).Some?;
    assert forall p :: p in b <==> QuoteAt(b, p).Some?;
    assert forall p :: p in a ==> QuoteAt(a, p) == Some(a[p]);
    assert forall p :: p in b ==> QuoteAt(b, p) == Some(b[p]);
  }

  lemma DeltaFollowsExchange(d: Depth, levels: seq<PriceLevel>, after: Quotes)
    requires ApplySide(d, levels).ok && Turns(SizesOf(d), levels, after)
    ensures SizesOf(ApplySide(d, levels).depth) == after
  {
    hide Parses, Removes, SizeOf, PriceOf, ApplySide;
    ApplySideOk(d, levels);
    var r := SizesOf(ApplySide(d, levels).depth);
    forall p ensures QuoteAt(r, p) == QuoteAt(after, p) {
      ReadableAt(d, levels, p);
      var i := LastMention(levels, p);
      if i >= 0 {
        LevelIsRead(levels[i]);
      }
      SizesAt(d, p);
      SizesAt(ApplySide(d, levels).depth, p);
    }
    QuotesExtensionality(r, after);
  }

  lemma SizesAt(d: Depth, p: Price)
    ensures QuoteAt(SizesOf(d), p) ==
      match DepthAt(d, p) case None => None case Some(l) => Some(if Parses(l) then SizeOf(l) else 0.0)
  {
  }

  lemma {:induction false} InsertingIsApplying(d: Depth, levels: seq<PriceLevel>)
    requires InsertAll(d, levels).Some?
    ensures ApplySide(d, levels) == SideResult(InsertAll(d, levels).value, true)
    decreases |levels|
  {
    hide Parses, Removes, PriceOf;
    if levels != [] {
      InsertingIsApplying(d[PriceOf(levels[0]) := levels[0]], levels[1..]);
    }
  }

  // ----- One message -----

  lemma MessageFollowsExchange(x: History, symbol: int, market: Market, message: Message, books: Books)
    requires Truthful(x, market, message)
    requires market in books ==> Agrees(x, market, books[market])
    requires ApplyMessage(symbol, market, message, books).row.Some?
    ensures Agrees(x, market, ApplyMessage(symbol, market, message, books).books[market])
  {
    hide ApplySide, InsertAll, Turns, WellFormed, SizesOf, ValidMicros;
    var ob := message.orderBook;
    var now := x(market, ob.nonce);
    if message.Subscribed? {
      assert SizesOf(map[]) == map[] by { NoSizes(); }
      InsertingIsApplying(map[], ob.bids);
      InsertingIsApplying(map[], ob.asks);
      DeltaFollowsExchange(map[], ob.bids, now.bids);
      DeltaFollowsExchange(map[], ob.asks, now.asks);
      BooksStayGood(BookView(map[], map[]), ob.bids, ob.asks);
    } else {
      var b := books[market].book;
      DeltaFollowsExchange(b.bids, ob.bids, now.bids);
      DeltaFollowsExchange(b.asks, ob.asks, now.asks);
      BooksStayGood(b, ob.bids, ob.asks);
    }
  }

  lemma NoSizes()
    ensures SizesOf(map[]) == map[]
  {
  }

  // ----- Every run -----

  ghost predicate RunAgrees(x: History, s: RunState) {
    && (forall m :: m in s.books ==> Agrees(x, m, s.books[m]))
    && (forall i :: 0 <= i < |s.log| ==> Agrees(x, s.log[i].market, s.log[i].state))
  }

  lemma {:induction false} TickAgrees(x: History, cache: Cache, connection: nat, books: Books, order: seq<Market>)
    requires forall m :: m in books ==> Agrees(x, m, books[m])
    ensures var r := TickEmits(cache, connection, books, order);
            && r.books == books
            && (forall i :: 0 <= i < |r.emits| ==> Agrees(x, r.emits[i].market, r.emits[i].state))
    decreases |order|
  {
    hide Agrees, BookRow;
    if order != [] {
      TickAgrees(x, cache, connection, books, order[1..]);
    }
  }

  lemma StepAgrees(x: History, cache: Cache, s: RunState, e: Event)
    requires TruthfulEvent(x, e) && RunAgrees(x, s)
    ensures RunAgrees(x, After(cache, s, e))
  {
    hide Agrees, Truthful, ChannelMarket, ApplyMessage;
    if e.Tick? {
      TickAgrees(x, cache, s.connection, s.books, e.order);
    } else if e.Frame? && ChannelMarket(e.message.channel).Some? {
      var m := ChannelMarket(e.message.channel).value;
      if m in cache {
        var a := ApplyMessage(cache[m], m, e.message, s.books);
        if a.row.Some? {
          MessageFollowsExchange(x, cache[m], m, e.message, s.books);
          OnlyItsMarket(cache[m], m, e.message, s.books);
        }
      }
    }
  }

  lemma OnlyItsMarket(symbol: int, market: Market, message: Message, books: Books)
    requires ApplyMessage(symbol, market, message, books).row.Some?
    ensures var after := ApplyMessage(symbol, market, message, books).books;
            after == books[market := after[market]]
  {
    hide DeltaBook, SnapshotBook;
  }

  /** In every run fed with truthful messages, in any order and with any losses and repeats, every
      live book and every emitted row agrees with the exchange at its nonce. */
  lemma {:induction false} LiveBooksAgree(x: History, cache: Cache, events: seq<Event>)
    requires forall i :: 0 <= i < |events| ==> TruthfulEvent(x, events[i])
    ensures RunAgrees(x, Run(cache, events))
  {
    hide TruthfulEvent, RunAgrees, After;
    if events == [] {
      assert RunAgrees(x, RunState(map[], [], 0)) by { NothingAgrees(x); }
    } else {
      LiveBooksAgree(x, cache, events[..|events| - 1]);
      StepAgrees(x, cache, Run(cache, events[..|events| - 1]), events[|events| - 1]);
    }
  }

  lemma NothingAgrees(x: History)
    ensures RunAgrees(x, RunState(map[], [], 0))
  {
  }
}
