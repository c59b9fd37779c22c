/** A reader of truthful rows is safe with the nonce check alone: whatever order the rows are read
    in, and whatever is lost or repeated, a replay that passes the check is the exchange's book. */
module Truth {
  import opened Options
  import opened Levels
  import opened Book
  import opened Ingest
  import opened Reader
  import opened Exchange
  import opened Export

  /** A snapshot row shows the exchange's book at its sequence; a delta row leads there from the
      book at its begin nonce. */
  ghost predicate TruthfulRow(x: History, market: Market, row: Row) {
    var now := x(market, row.sequence);
    match row.kind
    case Snapshot =>
      var book := SnapshotBook(row.bids, row.asks);
      book.Some? && QuotedBook(book.value) == now
    case Delta =>
      && AllParse(row.bids) && AllParse(row.asks) && row.beginNonce.Some?
      && var before := x(market, row.beginNonce.value);
         Turns(before.bids, row.bids, now.bids) && Turns(before.asks, row.asks, now.asks)
  }

  lemma ReadingFollowsExchange(x: History, market: Market, before: Option<BookView>, row: Row)
    requires TruthfulRow(x, market, row)
    requires row.kind == Delta ==> before.Some? && QuotedBook(before.value) == x(market, row.beginNonce.value)
    ensures var after := ReadRow(before, row);
            after.Some? && QuotedBook(after.value) == x(market, row.sequence)
  {
    hide AllParse, Turns, ApplySide, InsertAll, SizesOf;
    if row.kind == Delta {
      var b, now := before.value, x(market, row.sequence);
      ApplySideOk(b.bids, row.bids);
      ApplySideOk(b.asks, row.asks);
      DeltaFollowsExchange(b.bids, row.bids, now.bids);
      DeltaFollowsExchange(b.asks, row.asks, now.asks);
    }
  }

  /** Truthful rows of one market in any order: no nonce needs to increase. */
  lemma {:induction false} CheckedTruthReplays(x: History, market: Market, rows: seq<Row>)
    requires PassesCheck(rows) && forall i :: 0 <= i < |rows| ==> TruthfulRow(x, market, rows[i])
    ensures Replay(rows).Some? && QuotedBook(Replay(rows).value) == x(market, rows[|rows| - 1].sequence)
    decreases |rows|
  {
    hide TruthfulRow, Replay, ReadRow, QuotedBook;
    var n := |rows| - 1;
    ReplayStep(rows);
    if rows[n].kind == Delta {
      CheckedTruthReplays(x, market, rows[..n]);
    }
    ReadingFollowsExchange(x, market, Replay(rows[..n]), rows[n]);
  }

  // ----- The rows that the service writes are truthful -----

  ghost predicate TruthfulEmits(x: History, emits: seq<Emit>) {
    forall i :: 0 <= i < |emits| ==> TruthfulRow(x, emits[i].market, emits[i].row)
  }

  lemma TruthfulConcat(x: History, a: seq<Emit>, b: seq<Emit>)
    requires TruthfulEmits(x, a) && TruthfulEmits(x, b)
    ensures TruthfulEmits(x, a + b)
  {
    hide TruthfulRow;
  }

  lemma ShownBookIsTruthful(x: History, symbol: int, market: Market, state: MarketState)
    requires Agrees(x, market, state)
    ensures TruthfulRow(x, market, BookRow(symbol, state))
  {
    hide SnapshotBook, QuotedBook, Descending, Ascending, GoodBook;
    SnapshotRoundTrip(state.book);
  }

  lemma {:induction false} TickIsTruthful(
      x: History, cache: Cache, connection: nat, books: Books, order: seq<Market>)
    requires forall m :: m in books ==> Agrees(x, m, books[m])
    ensures TruthfulEmits(x, TickEmits(cache, connection, books, order).emits)
    decreases |order|
  {
    hide Agrees, TruthfulRow, BookRow;
    if order != [] {
      var m := order[0];
      TickIsTruthful(x, cache, connection, books, order[1..]);
      if m in books && m in cache {
        ShownBookIsTruthful(x, cache[m], m, books[m]);
      }
    }
  }

  lemma MessageRowIsTruthful(x: History, symbol: int, market: Market, message: Message, books: Books)
    requires Truthful(x, market, message) && (market in books ==> Agrees(x, market, books[market]))
    requires ApplyMessage(symbol, market, message, books).row.Some?
    ensures TruthfulRow(x, market, ApplyMessage(symbol, market, message, books).row.value)
  {
    hide ApplySide, InsertAll, Turns, GoodBook, SizesOf, ValidMicros, AllParse;
    MessageFollowsExchange(x, symbol, market, message, books);
    if message.Update? {
      ApplySideOk(books[market].book.bids, message.orderBook.bids);
      ApplySideOk(books[market].book.asks, message.orderBook.asks);
    }
  }

  lemma StepIsTruthful(x: History, cache: Cache, s: RunState, e: Event)
    requires TruthfulEvent(x, e) && RunAgrees(x, s)
    ensures TruthfulEmits(x, Step(cache, s.connection, s.books, e).emits)
  {
    hide Agrees, Truthful, ChannelMarket, ApplyMessage, TruthfulRow;
    if e.Tick? {
      TickIsTruthful(x, cache, s.connection, s.books, e.order);
    } else if e.Frame? && ChannelMarket(e.message.channel).Some? {
      var m := ChannelMarket(e.message.channel).value;
      if m in cache && ApplyMessage(cache[m], m, e.message, s.books).row.Some? {
        MessageRowIsTruthful(x, cache[m], m, e.message, s.books);
      }
    }
  }

  ghost predicate TruthfulEvents(x: History, events: seq<Event>) {
    forall i :: 0 <= i < |events| ==> TruthfulEvent(x, events[i])
  }

  lemma {:induction false} RunIsTruthful(x: History, cache: Cache, events: seq<Event>)
    requires TruthfulEvents(x, events)
    ensures TruthfulEmits(x, Run(cache, events).log)
  {
    hide TruthfulEvent, RunAgrees, Step, TruthfulEmits;
    if events == [] {
      assert TruthfulEmits(x, []) by { NothingIsTruthful(x); }
    } else {
      var init, e := events[..|events| - 1], events[|events| - 1];
      RunIsTruthful(x, cache, init);
      LiveBooksAgree(x, cache, init);
      var s := Run(cache, init);
      StepIsTruthful(x, cache, s, e);
      TruthfulConcat(x, s.log, Step(cache, s.connection, s.books, e).emits);
    }
  }

  lemma NothingIsTruthful(x: History)
    ensures TruthfulEmits(x, [])
  {
  }

  /** Each row carries the symbol of its market. */
  ghost predicate Labelled(cache: Cache, emits: seq<Emit>) {
    forall i :: 0 <= i < |emits| ==> emits[i].market in cache && emits[i].row.symbol == cache[emits[i].market]
  }

  lemma {:induction false} RunIsLabelled(cache: Cache, events: seq<Event>)
    ensures Labelled(cache, Run(cache, events).log)
  {
    hide Step;
    if events != [] {
      var init, e := events[..|events| - 1], events[|events| - 1];
      RunIsLabelled(cache, init);
      EmitsShowMemory(cache, Run(cache, init).connection, Run(cache, init).books, e);
    }
  }

  // ----- The durable table -----

  /** Every process knows the symbol, if at all, as that of this market. */
  ghost predicate Names(processes: seq<Process>, symbol: int, market: Market) {
    forall i, m :: 0 <= i < |processes| && m in processes[i].cache && processes[i].cache[m] == symbol ==> m == market
  }

  ghost predicate TruthfulFor(x: History, emits: seq<Emit>, symbol: int, market: Market) {
    forall i :: 0 <= i < |emits| && emits[i].row.symbol == symbol ==> TruthfulRow(x, market, emits[i].row)
  }

  lemma CommittedIsTruthful(x: History, p: Process, symbol: int, market: Market)
    requires TruthfulEvents(x, p.events)
    requires forall m :: m in p.cache && p.cache[m] == symbol ==> m == market
    ensures TruthfulFor(x, CommittedRows(p), symbol, market)
  {
    hide Run, TruthfulEvents, TruthfulRow;
    RunIsTruthful(x, p.cache, p.events);
    RunIsLabelled(p.cache, p.events);
  }

  lemma {:induction false} DurableIsTruthful(x: History, processes: seq<Process>, symbol: int, market: Market)
    requires Names(processes, symbol, market)
    requires forall i :: 0 <= i < |processes| ==> TruthfulEvents(x, processes[i].events)
    ensures TruthfulFor(x, Durable(processes), symbol, market)
  {
    hide TruthfulEvents, TruthfulRow, CommittedRows;
    if processes != [] {
      var init, p := processes[..|processes| - 1], processes[|processes| - 1];
      DurableIsTruthful(x, init, symbol, market);
      CommittedIsTruthful(x, p, symbol, market);
    }
  }

  /** If every message was truthful, any stored rows of a symbol, in any order and with any losses
      and repeats, that pass the nonce check replay to the exchange's book at the last one's nonce.
      The times need not be in order, and nonces need not increase. */
  lemma CheckedTableReplays(
      x: History, processes: seq<Process>, ids: seq<nat>, symbol: int, market: Market)
    requires Names(processes, symbol, market)
    requires forall i :: 0 <= i < |processes| ==> TruthfulEvents(x, processes[i].events)
    requires Within(ids, |Durable(processes)|)
    requires forall k :: 0 <= k < |ids| ==> Durable(processes)[ids[k]].row.symbol == symbol
    requires PassesCheck(Rows(Fetch(Durable(processes), ids)))
    ensures var rows := Rows(Fetch(Durable(processes), ids));
            Replay(rows).Some? && QuotedBook(Replay(rows).value) == x(market, rows[|rows| - 1].sequence)
  {
    hide Durable, Names, TruthfulEvents, TruthfulRow, Replay, QuotedBook, PassesCheck;
    DurableIsTruthful(x, processes, symbol, market);
    CheckedTruthReplays(x, market, Rows(Fetch(Durable(processes), ids)));
  }

  /** So reading in `(time, id)` order with the nonce check is safe for truthful data, also when a
      reconnect has reordered the rows. */
  lemma CheckedExportReplays(
      x: History, processes: seq<Process>, cutoff: Option<int>, order: seq<nat>, symbol: int, market: Market)
    requires Names(processes, symbol, market)
    requires forall i :: 0 <= i < |processes| ==> TruthfulEvents(x, processes[i].events)
    requires ExportOrder(Durable(processes), cutoff, order)
    ensures var l := Durable(processes);
            var rows := Rows(Fetch(l, Part(l, order, symbol, 0, |l|)));
            PassesCheck(rows) ==>
              Replay(rows).Some? && QuotedBook(Replay(rows).value) == x(market, rows[|rows| - 1].sequence)
  {
    hide Durable, Names, TruthfulEvents, Replay, QuotedBook, PassesCheck, Sorted;
    var l := Durable(processes);
    var part := Part(l, order, symbol, 0, |l|);
    if PassesCheck(Rows(Fetch(l, part))) {
      CheckedTableReplays(x, processes, part, symbol, market);
    }
  }
}
