/** What one message does, field by field, and which rows a whole run emits for its messages. */
module Messages {
  import opened Options
  import opened Calendar
  import opened Levels
  import opened Book
  import opened Ingest

  /** A message can be applied: its time is valid; a snapshot's levels can be read and have sizes; a
      delta finds a book at its begin nonce that is not newer, and its levels can be read. */
  ghost predicate Acceptable(message: Message, market: Market, books: Books) {
    var at, ob := message.lastUpdatedAt, message.orderBook;
    && MIN_MICROS <= at <= MAX_MICROS
    && (message.Subscribed? ==> AllSized(ob.bids) && AllSized(ob.asks))
    && (message.Update? ==>
          && market in books && ob.beginNonce == books[market].nonce && books[market].time <= at
          && AllParse(ob.bids) && AllParse(ob.asks))
  }

  /** The row that a message leaves when it is applied. */
  ghost predicate RowOf(row: Row, symbol: int, message: Message) {
    var ob := message.orderBook;
    && row.time == message.lastUpdatedAt && row.symbol == symbol && row.sequence == ob.nonce
    && row.bids == ob.bids && row.asks == ob.asks
    && row.kind == (if message.Subscribed? then Snapshot else Delta)
    && row.beginNonce == (if message.Subscribed? then None else Some(ob.beginNonce))
  }

  /** The state that a message leaves: its nonce and time, and at each price its last mention, over
      nothing for a snapshot and over the old book for a delta. */
  ghost predicate StateOf(after: MarketState, message: Message, market: Market, books: Books)
    requires message.Update? ==> market in books
  {
    var ob := message.orderBook;
    var b := if message.Subscribed? then BookView(map[], map[]) else books[market].book;
    && after.nonce == ob.nonce && after.time == message.lastUpdatedAt
    && (forall p :: DepthAt(after.book.bids, p) == AfterDelta(DepthAt(b.bids, p), ob.bids, p))
    && (forall p :: DepthAt(after.book.asks, p) == AfterDelta(DepthAt(b.asks, p), ob.asks, p))
  }

  /** A message is applied exactly when it is acceptable; row and state are then its own, and no
      other market changes. */
  lemma MessageIsApplied(symbol: int, market: Market, message: Message, books: Books)
    ensures var r := ApplyMessage(symbol, market, message, books);
            && (r.row.Some? <==> Acceptable(message, market, books))
            && (r.row.Some? ==>
                  && RowOf(r.row.value, symbol, message)
                  && StateOf(r.books[market], message, market, books)
                  && r.books == books[market := r.books[market]])
  {
    hide SnapshotBook, DeltaBook, AllParse, AllSized, ReadablePrefix, AfterDelta;
    var ob := message.orderBook;
    if message.Subscribed? {
      SnapshotBookIs(ob.bids, ob.asks);
      if SnapshotBook(ob.bids, ob.asks).Some? {
        SizedAfterDelta(ob.bids);
        SizedAfterDelta(ob.asks);
      }
    } else if market in books {
      DeltaBookIs(books[market].book, ob.bids, ob.asks);
    }
  }

  lemma SizedAfterDelta(levels: seq<PriceLevel>)
    requires AllSized(levels)
    ensures forall p :: LastLevel(None, levels, p) == AfterDelta(DepthAt(map[], p), levels, p)
  {
    hide Parses, Removes, PriceOf, SizeOf;
    forall p ensures LastLevel(None, levels, p) == AfterDelta(DepthAt(map[], p), levels, p) {
      var i := LastMention(levels, p);
      if i >= 0 {
        LevelIsRead(levels[i]);
      }
    }
  }

  /** A message that is not acceptable changes nothing, but for a delta that fails at an unreadable
      level: it leaves its market's nonce and time, the bids in front of that level applied, and the
      asks in front of it if all bids could be read. */
  lemma MessageIsRefused(symbol: int, market: Market, message: Message, books: Books)
    requires !Acceptable(message, market, books)
    ensures var after, ob := ApplyMessage(symbol, market, message, books).books, message.orderBook;
            if message.Update? && market in books && ob.beginNonce == books[market].nonce
               && MIN_MICROS <= message.lastUpdatedAt <= MAX_MICROS && books[market].time <= message.lastUpdatedAt
            then
              var held, left := books[market], after[market];
              && after == books[market := left] && left.nonce == held.nonce && left.time == held.time
              && (forall p :: DepthAt(left.book.bids, p)
                           == AfterDelta(DepthAt(held.book.bids, p), ob.bids[..ReadablePrefix(ob.bids)], p))
              && (forall p :: DepthAt(left.book.asks, p) ==
                    var held := DepthAt(held.book.asks, p);
                    if AllParse(ob.bids) then AfterDelta(held, ob.asks[..ReadablePrefix(ob.asks)], p) else held)
            else after == books
  {
    hide SnapshotBook, DeltaBook, AllParse, AllSized, ReadablePrefix, AfterDelta;
    var ob := message.orderBook;
    MessageIsApplied(symbol, market, message, books);
    if message.Update? && market in books {
      DeltaBookIs(books[market].book, ob.bids, ob.asks);
    }
  }

  // ----- One frame -----

  /** A frame fails without a market id, is skipped if the market is unknown, and otherwise succeeds
      exactly if its message is acceptable; then it leaves one row. */
  lemma FrameIsHandled(cache: Cache, connection: nat, books: Books, message: Message)
    ensures var r := Step(cache, connection, books, Frame(message));
            match ChannelMarket(message.channel)
            case None => r == StepResult(books, [], false)
            case Some(m) =>
              if m !in cache then r == StepResult(books, [], true)
              else
                && (r.ok <==> Acceptable(message, m, books))
                && |r.emits| == (if r.ok then 1 else 0)
                && (r.ok ==> Carries(cache, r.emits[0], Frame(message)) && r.emits[0].connection == connection)
                && (r.ok ==> m in r.books && r.books == books[m := r.emits[0].state])
                && (r.ok ==> StateOf(r.books[m], message, m, books))
  {
    hide ChannelMarket, ApplyMessage, Acceptable;
    var market := ChannelMarket(message.channel);
    if market.Some? && market.value in cache {
      MessageIsApplied(cache[market.value], market.value, message, books);
    }
  }

  /** The row of `e` was emitted for the frame `f`: each field is the message's own. */
  ghost predicate Carries(cache: Cache, e: Emit, f: Event) {
    && f.Frame? && !e.periodic && ChannelMarket(f.message.channel) == Some(e.market) && e.market in cache
    && RowOf(e.row, cache[e.market], f.message)
    && e.state.nonce == f.message.orderBook.nonce && e.state.time == f.message.lastUpdatedAt
  }

  // ----- Every run -----

  /** The frames of a run that could be applied when they arrived. */
  ghost function AppliedFrames(cache: Cache, events: seq<Event>): seq<Event> {
    if events == [] then []
    else
      var init, e := events[..|events| - 1], events[|events| - 1];
      AppliedFrames(cache, init) + if Applies(cache, Run(cache, init).books, e) then [e] else []
  }

  ghost predicate Applies(cache: Cache, books: Books, e: Event) {
    && e.Frame? && ChannelMarket(e.message.channel).Some?
    && var m := ChannelMarket(e.message.channel).value;
       m in cache && Acceptable(e.message, m, books)
  }

  /** The rows that are not periodic. */
  ghost function Direct(log: seq<Emit>): seq<Emit> {
    if log == [] then []
    else Direct(log[..|log| - 1]) + if log[|log| - 1].periodic then [] else [log[|log| - 1]]
  }

  lemma {:induction false} DirectConcat(a: seq<Emit>, b: seq<Emit>)
    ensures Direct(a + b) == Direct(a) + Direct(b)
    decreases |b|
  {
    if b == [] {
      assert a + b == a;
    } else {
      var init, last := b[..|b| - 1], b[|b| - 1];
      DirectConcat(a, init);
      assert (a + b)[..|a + b| - 1] == a + init && (a + b)[|a + b| - 1] == last;
    }
  }

  lemma {:induction false} TickIsPeriodic(cache: Cache, connection: nat, books: Books, order: seq<Market>)
    ensures Direct(TickEmits(cache, connection, books, order).emits) == []
    decreases |order|
  {
    hide BookRow;
    if order != [] {
      var m := order[0];
      TickIsPeriodic(cache, connection, books, order[1..]);
      if m in books && m in cache {
        var e := Emit(BookRow(cache[m], books[m]), m, books[m], true, connection);
        var rest := TickEmits(cache, connection, books, order[1..]).emits;
        assert [e][..0] == [];
        DirectConcat([e], rest);
      }
    }
  }

  /** Apart from periodic rows, a run emits exactly one row for each frame that could be applied, in
      their order, with the fields of its message. */
  lemma {:induction false} RowsAreMessages(cache: Cache, events: seq<Event>)
    ensures var rows, frames := Direct(Run(cache, events).log), AppliedFrames(cache, events);
            |rows| == |frames| && forall i :: 0 <= i < |rows| ==> Carries(cache, rows[i], frames[i])
  {
    hide Step, Carries, Applies;
    if events != [] {
      var init, e := events[..|events| - 1], events[|events| - 1];
      RowsAreMessages(cache, init);
      var s := Run(cache, init);
      StepRow(cache, s, e);
      DirectConcat(s.log, Step(cache, s.connection, s.books, e).emits);
    }
  }

  lemma StepRow(cache: Cache, s: RunState, e: Event)
    ensures var rows := Direct(Step(cache, s.connection, s.books, e).emits);
            if Applies(cache, s.books, e) then |rows| == 1 && Carries(cache, rows[0], e) else rows == []
  {
    hide ChannelMarket, ApplyMessage, Acceptable, RowOf;
    var emits := Step(cache, s.connection, s.books, e).emits;
    match e
    case Tick(order) => TickIsPeriodic(cache, s.connection, s.books, order);
    case Frame(message) =>
      FrameIsHandled(cache, s.connection, s.books, message);
      assert emits != [] ==> emits[..0] == [];
    case Unreadable =>
    case Ended =>
  }

  /** Valid instants reach from the start of the first year to the end of the last year that the
      timestamp type can hold. */
  lemma MicrosRange(at: int)
    ensures ValidMicros(at) <==>
              DaysTo(FIRST_YEAR) * DAY_SECONDS * 1_000_000 <= at < DaysTo(LAST_YEAR + 1) * DAY_SECONDS * 1_000_000
  {
  }
}
