/** The order-book ingestion machine: messages in, table rows out, one book per market.
    `Step` is one turn of the receive loop and `Run` a whole process with its reconnects. */
module Ingest {
  import opened Options
  import opened Decimals
  import opened Levels
  import opened Book

  /** Lighter's market id. */
  datatype Market = Market(id: int)

  datatype SideLevels = SideLevels(
    offset: int, nonce: int, beginNonce: int, asks: seq<PriceLevel>, bids: seq<PriceLevel>)

  datatype Message =
    | Subscribed(channel: string, lastUpdatedAt: int, orderBook: SideLevels)
    | Update(channel: string, lastUpdatedAt: int, orderBook: SideLevels)

  const MIN_MARKET_ID: int := -0x8000_0000
  const MAX_MARKET_ID: int := 0x7FFF_FFFF

  /** The text between the first and the second colon, as a 32-bit market id. */
  function ChannelMarket(channel: string): Option<Market> {
    var first := Find(channel, {':'});
    if first == |channel| then None
    else
      var rest := channel[first + 1..];
      match ParseInteger(rest[..Find(rest, {':'})])
      case None => None
      case Some(id) => if MIN_MARKET_ID <= id <= MAX_MARKET_ID then Some(Market(id)) else None
  }

  function IntegerText(n: int): string {
    if n < 0 then "-" + Digits(-n) else Digits(n)
  }

  lemma IntegerParses(n: int)
    ensures ParseInteger(IntegerText(n)) == Some(n)
    ensures ':' !in IntegerText(n)
  {
    hide Digits, ParseDigits;
    var digits := Digits(if n < 0 then -n else n);
    DigitsParse(if n < 0 then -n else n);
    assert IsDigit(digits[0]);
    assert ("-" + digits)[1..] == digits;
  }

  /** A channel names the market whose id stands after its first colon, whatever comes before that
      colon and after a second one. */
  lemma ChannelRoundTrip(head: string, id: int, tail: string)
    requires ':' !in head && (tail == "" || tail[0] == ':')
    ensures ChannelMarket(head + ":" + IntegerText(id) + tail)
         == if -0x8000_0000 <= id <= 0x7FFF_FFFF then Some(Market(id)) else None
  {
    hide IntegerText, ParseInteger;
    var text := IntegerText(id);
    var channel := head + ":" + text + tail;
    IntegerParses(id);
    FindIs(channel, {':'}, |head|);
    var rest := channel[|head| + 1..];
    assert rest == text + tail;
    FindIs(rest, {':'}, |text|);
    assert rest[..|text|] == text;
  }

  // The instants that the timestamp type can hold, in microseconds since 1970:
  // from the start of the year -262143 to the end of the year 262142.
  const MIN_MICROS: int := -8_334_601_228_800_000_000
  const MAX_MICROS: int := 8_210_266_876_799_999_999

  predicate ValidMicros(micros: int) {
    MIN_MICROS <= micros <= MAX_MICROS
  }

  datatype Kind = Snapshot | Delta

  /** A row of `orderbook_messages` before the table gives it an id. */
  datatype Row = Row(
    time: int, symbol: int, kind: Kind, sequence: int,
    bids: seq<PriceLevel>, asks: seq<PriceLevel>, beginNonce: Option<int>)

  /** What a market's book object holds. */
  datatype MarketState = MarketState(nonce: int, time: int, book: BookView)

  type Books = map<Market, MarketState>
  type Cache = map<Market, int>

  // ----- One message -----

  function MessageRow(symbol: int, kind: Kind, beginNonce: Option<int>, at: int, ob: SideLevels): Row {
    Row(at, symbol, kind, ob.nonce, ob.bids, ob.asks, beginNonce)
  }

  ghost function BookRow(symbol: int, state: MarketState): Row {
    Row(state.time, symbol, Snapshot, state.nonce, Descending(state.book.bids), Ascending(state.book.asks), None)
  }

  /** The books after a message, and the row to store unless the message failed. */
  datatype Applied = Applied(books: Books, row: Option<Row>)

  ghost function ApplyMessage(symbol: int, market: Market, message: Message, books: Books): (r: Applied)
    ensures r.row.Some? ==> market in r.books
  {
    var at, ob := message.lastUpdatedAt, message.orderBook;
    match message
    case Subscribed(_, _, _) =>
      if !ValidMicros(at) then Applied(books, None)
      else (
        match SnapshotBook(ob.bids, ob.asks)
        case None => Applied(books, None)
        case Some(book) =>
          Applied(books[market := MarketState(ob.nonce, at, book)], Some(MessageRow(symbol, Snapshot, None, at, ob)))
      )
    case Update(_, _, _) =>
      if market !in books then Applied(books, None)
      else
        var state := books[market];
        if ob.beginNonce != state.nonce || !ValidMicros(at) || at < state.time then Applied(books, None)
        else
          var after := DeltaBook(state.book, ob.bids, ob.asks);
          if !after.ok then Applied(books[market := state.(book := after.book)], None)
          else
            Applied(books[market := MarketState(ob.nonce, at, after.book)],
                    Some(MessageRow(symbol, Delta, Some(ob.beginNonce), at, ob)))
  }

  /** A gap, a time that moves backwards or a delta before the snapshot leaves every book as it
      was; an unreadable level can change the book of its own market only. */
  lemma FailureIsConfined(symbol: int, market: Market, message: Message, books: Books)
    requires ApplyMessage(symbol, market, message, books).row.None?
    ensures var after := ApplyMessage(symbol, market, message, books).books;
            && after - {market} == books - {market}
            && after.Keys == books.Keys
            && (after != books ==>
                  && message.Update? && market in books
                  && message.orderBook.beginNonce == books[market].nonce
                  && message.lastUpdatedAt >= books[market].time
                  && after[market].nonce == books[market].nonce && after[market].time == books[market].time
                  && !(AllParse(message.orderBook.bids) && AllParse(message.orderBook.asks)))
  {
    hide Parses, ApplySide;
    if message.Update? && market in books {
      var after := DeltaBook(books[market].book, message.orderBook.bids, message.orderBook.asks);
      ApplySideOk(books[market].book.bids, message.orderBook.bids);
      ApplySideOk(books[market].book.asks, message.orderBook.asks);
      assert books[market := books[market]] == books;
    }
  }

  // ----- The receive loop -----

  /** What wakes the loop: a frame, a frame that is no message, the snapshot timer with the
      iteration order of the book map, or the end of the connection. */
  datatype Event = Frame(message: Message) | Unreadable | Tick(order: seq<Market>) | Ended

  /** A row handed to the writer, with the market state held in memory at that moment. */
  datatype Emit = Emit(row: Row, market: Market, state: MarketState, periodic: bool, connection: nat)

  datatype StepResult = StepResult(books: Books, emits: seq<Emit>, ok: bool)

  /** One snapshot row for each live market of `order`; a live market without a symbol fails. */
  ghost function TickEmits(cache: Cache, connection: nat, books: Books, order: seq<Market>): StepResult {
    if order == [] then StepResult(books, [], true)
    else
      var m := order[0];
      if m !in books then TickEmits(cache, connection, books, order[1..])
      else if m !in cache then StepResult(books, [], false)
      else
        var rest := TickEmits(cache, connection, books, order[1..]);
        rest.(emits := [Emit(BookRow(cache[m], books[m]), m, books[m], true, connection)] + rest.emits)
  }

  ghost function Step(cache: Cache, connection: nat, books: Books, e: Event): StepResult {
    match e
    case Unreadable => StepResult(books, [], false)
    case Ended => StepResult(books, [], false)
    case Tick(order) => TickEmits(cache, connection, books, order)
    case Frame(message) =>
      match ChannelMarket(message.channel)
      case None => StepResult(books, [], false)
      case Some(m) =>
        if m !in cache then StepResult(books, [], true)
        else
          var a := ApplyMessage(cache[m], m, message, books);
          match a.row
          case None => StepResult(a.books, [], false)
          case Some(row) => StepResult(a.books, [Emit(row, m, a.books[m], false, connection)], true)
  }

  /** The books, all rows emitted so far, and the number of the current connection. */
  datatype RunState = RunState(books: Books, log: seq<Emit>, connection: nat)

  /** A failed step ends the connection: the next one starts without books. */
  ghost function After(cache: Cache, s: RunState, e: Event): RunState {
    var r := Step(cache, s.connection, s.books, e);
    if r.ok then RunState(r.books, s.log + r.emits, s.connection)
    else RunState(map[], s.log + r.emits, s.connection + 1)
  }

  /** A whole process: connections one after the other, each until its first failure. */
  ghost function Run(cache: Cache, events: seq<Event>): RunState {
    if events == [] then RunState(map[], [], 0)
    else After(cache, Run(cache, events[..|events| - 1]), events[|events| - 1])
  }

  lemma RunStep(cache: Cache, events: seq<Event>, e: Event)
    ensures Run(cache, events + [e]) == After(cache, Run(cache, events), e)
  {
    assert (events + [e])[..|events|] == events;
  }

  /** The timer visits each live market exactly once. */
  ghost predicate Enumerates(order: seq<Market>, markets: set<Market>) {
    && (forall i, j :: 0 <= i < j < |order| ==> order[i] != order[j])
    && (forall m :: m in order <==> m in markets)
  }

  ghost predicate LegalEvent(books: Books, e: Event) {
    e.Tick? ==> Enumerates(e.order, books.Keys)
  }

  ghost predicate Legal(cache: Cache, events: seq<Event>) {
    forall i :: 0 <= i < |events| ==> LegalEvent(Run(cache, events[..i]).books, events[i])
  }

  // ----- The resubscription check -----

  /** The subscribed markets without a book in this connection, in subscription order. */
  function MissingBooks(subscribed: seq<Market>, live: set<Market>): (missing: seq<Market>)
    ensures forall m :: m in missing <==> m in subscribed && m !in live
  {
    if subscribed == [] then []
    else (if subscribed[0] in live then [] else [subscribed[0]]) + MissingBooks(subscribed[1..], live)
  }

  /** Each subscription is looked at by itself and in its place: none moves or is reported twice. */
  lemma {:induction false} MissingBooksInOrder(a: seq<Market>, m: Market, b: seq<Market>, live: set<Market>)
    ensures MissingBooks(a + [m] + b, live)
         == MissingBooks(a, live) + (if m in live then [] else [m]) + MissingBooks(b, live)
    decreases |a|
  {
    hide MissingBooks;
    var all := a + [m] + b;
    MissingBooksStep(all, live);
    MissingBooksStep(a, live);
    if a == [] {
      assert all[0] == m && all[1..] == b;
    } else {
      assert all[0] == a[0] && all[1..] == a[1..] + [m] + b;
      MissingBooksInOrder(a[1..], m, b, live);
      Associate(if a[0] in live then [] else [a[0]], MissingBooks(a[1..], live),
                if m in live then [] else [m], MissingBooks(b, live));
    }
  }

  lemma Associate(a: seq<Market>, b: seq<Market>, c: seq<Market>, d: seq<Market>)
    ensures a + (b + c + d) == (a + b) + c + d
  {
  }

  lemma MissingBooksStep(s: seq<Market>, live: set<Market>)
    ensures s == [] ==> MissingBooks(s, live) == []
    ensures s != [] ==> MissingBooks(s, live) == (if s[0] in live then [] else [s[0]]) + MissingBooks(s[1..], live)
  {
  }

  /** Within a connection no book disappears, so the missing set only shrinks. */
  lemma MissingBooksShrink(cache: Cache, connection: nat, books: Books, e: Event, subscribed: seq<Market>)
    requires Step(cache, connection, books, e).ok
    ensures books.Keys <= Step(cache, connection, books, e).books.Keys
    ensures forall m :: m in MissingBooks(subscribed, Step(cache, connection, books, e).books.Keys) ==>
              m in MissingBooks(subscribed, books.Keys)
  {
    hide ChannelMarket, SnapshotBook, DeltaBook;
    if e.Tick? {
      TickKeepsBooks(cache, connection, books, e.order);
    }
  }

  lemma {:induction false} TickKeepsBooks(cache: Cache, connection: nat, books: Books, order: seq<Market>)
    ensures TickEmits(cache, connection, books, order).books == books
    ensures books.Keys <= cache.Keys ==> TickEmits(cache, connection, books, order).ok
  {
    if order != [] {
      TickKeepsBooks(cache, connection, books, order[1..]);
    }
  }
}
