/** The ingestion loop as it runs: book objects updated in place, rows sent one by one. */
module Session {
  import opened Options
  import opened Book
  import opened Ingest
  import opened Reader

  /** One market's live book, with the nonce and time of the message that it stands at. */
  class MarketBook {
    var nonce: int
    var sourceTime: int
    const book: OrderBook
    ghost const owner: int

    constructor (nonce: int, sourceTime: int, book: OrderBook, ghost owner: int)
      ensures this.nonce == nonce && this.sourceTime == sourceTime && this.book == book && this.owner == owner
    {
      this.nonce, this.sourceTime, this.book, this.owner := nonce, sourceTime, book, owner;
    }

    /** All objects of this entry belong to market `id`. */
    ghost predicate OwnedBy(id: int) {
      owner == book.bids.owner == book.asks.owner == id
    }

    ghost function View(): MarketState
      reads this, book.bids, book.asks
    {
      MarketState(nonce, sourceTime, book.View())
    }

    /** Applies a delta; nonce and time move only if every level could be read. */
    method Advance(ob: SideLevels, at: int) returns (ok: bool)
      requires book.Valid()
      modifies this, book.bids, book.asks
      ensures book.Valid()
      ensures var after := DeltaBook(old(View()).book, ob.bids, ob.asks);
              ok == after.ok
              && View() == if ok then MarketState(ob.nonce, at, after.book) else old(View()).(book := after.book)
    {
      hide DeltaBook, Side.Valid, Side.Contents;
      ok := book.ApplyDelta(ob.bids, ob.asks);
      if ok {
        nonce := ob.nonce;
        sourceTime := at;
      }
    }

    method SnapshotRow(symbol: int) returns (row: Row)
      requires book.Valid()
      ensures row == BookRow(symbol, View())
    {
      var bids := book.Bids();
      var asks := book.Asks();
      row := Row(sourceTime, symbol, Snapshot, nonce, bids, asks, None);
    }
  }

  class Ingestor {
    const cache: Cache
    var markets: map<Market, MarketBook>
    var sent: seq<Row>

    ghost var Repr: set<object>

    ghost predicate Valid()
      reads this`markets, this`Repr, Repr
    {
      && this !in Repr
      && (forall m :: m in markets ==>
            && markets[m] in Repr && markets[m].book.bids in Repr && markets[m].book.asks in Repr
            && markets[m].OwnedBy(m.id) && markets[m].book.Valid())
    }

    ghost function View(): Books
      reads this`markets, this`Repr, Repr
      requires Valid()
    {
      map m | m in markets :: markets[m].View()
    }

    constructor (cache: Cache)
      ensures Valid() && View() == map[] && sent == [] && this.cache == cache && Repr == {}
    {
      this.cache, markets, sent, Repr := cache, map[], [], {};
    }

    method Send(row: Row)
      requires Valid()
      modifies this`sent
      ensures Valid() && View() == old(View()) && sent == old(sent) + [row]
    {
      hide OrderBook.Valid, OrderBook.View;
      sent := sent + [row];
    }

    method Install(market: Market, entry: MarketBook)
      requires Valid() && entry.book.Valid() && entry.OwnedBy(market.id)
      modifies this`markets, this`Repr
      ensures Valid() && View() == old(View())[market := entry.View()]
      ensures Repr == old(Repr) + {entry, entry.book.bids, entry.book.asks}
    {
      hide OrderBook.Valid, MarketBook.View, MarketBook.OwnedBy;
      markets := markets[market := entry];
      Repr := Repr + {entry, entry.book.bids, entry.book.asks};
    }

    /** A snapshot starts a new book for its market. */
    method Connect(market: Market, ob: SideLevels, at: int) returns (ok: bool)
      requires Valid()
      modifies this`markets, this`Repr
      ensures Valid() && fresh(Repr - old(Repr))
      ensures var book := SnapshotBook(ob.bids, ob.asks);
              ok == book.Some?
              && View() == if ok then old(View())[market := MarketState(ob.nonce, at, book.value)] else old(View())
    {
      hide SnapshotBook, Side.Valid, Side.Contents, OrderBook.Valid;
      var book := OrderBook.FromSnapshot(ob.bids, ob.asks, market.id);
      ok := book.Some?;
      if ok {
        var entry := new MarketBook(ob.nonce, at, book.value, market.id);
        Install(market, entry);
      }
    }

    /** A delta continues a live book. */
    method AdvanceBook(market: Market, ob: SideLevels, at: int) returns (ok: bool)
      requires Valid() && market in markets
      modifies Repr
      ensures Valid() && Repr == old(Repr)
      ensures var state := old(View())[market];
              var after := DeltaBook(state.book, ob.bids, ob.asks);
              && ok == after.ok
              && View() == old(View())[
                   market := if ok then MarketState(ob.nonce, at, after.book) else state.(book := after.book)]
    {
      hide DeltaBook, OrderBook.Valid, MarketBook.View;
      ghost var before := View();
      ok := markets[market].Advance(ob, at);
      forall m | m in markets && m != market ensures markets[m].View() == before[m] && markets[m].book.Valid() {
        assert markets[m].OwnedBy(m.id) && markets[market].OwnedBy(market.id);
      }
      OneBookChanged(before, View(), market);
    }

    /** Takes a message into the books; there is no row if the message fails. */
    method ApplyOrderbookMessage(symbol: int, market: Market, message: Message) returns (row: Option<Row>)
      requires Valid()
      modifies this`markets, this`Repr, Repr
      ensures Valid() && fresh(Repr - old(Repr))
      ensures Applied(View(), row) == ApplyMessage(symbol, market, message, old(View()))
    {
      hide SnapshotBook, DeltaBook, ValidMicros, Side.Valid, Side.Contents, OrderBook.Valid;
      var at, ob := message.lastUpdatedAt, message.orderBook;
      match message {
        case Subscribed(_, _, _) =>
          if !ValidMicros(at) {
            return None;
          }
          var ok := Connect(market, ob, at);
          return if ok then Some(MessageRow(symbol, Snapshot, None, at, ob)) else None;
        case Update(_, _, _) =>
          if market !in markets {
            return None;
          }
          var entry := markets[market];
          if ob.beginNonce != entry.nonce || !ValidMicros(at) || at < entry.sourceTime {
            return None;
          }
          var ok := AdvanceBook(market, ob, at);
          return if ok then Some(MessageRow(symbol, Delta, Some(ob.beginNonce), at, ob)) else None;
      }
    }

    /** One frame: the market is looked up, the message applied and its row sent. */
    method HandleFrame(message: Message, ghost connection: nat) returns (ok: bool)
      requires Valid()
      modifies this, Repr
      ensures Valid() && fresh(Repr - old(Repr))
      ensures var r := Step(cache, connection, old(View()), Frame(message));
              ok == r.ok && View() == r.books && sent == old(sent) + Rows(r.emits)
    {
      hide ApplyMessage, ChannelMarket, Side.Valid, Side.Contents;
      var market := ChannelMarket(message.channel);
      if market.None? {
        return false;
      }
      if market.value !in cache {
        return true;
      }
      var row := ApplyOrderbookMessage(cache[market.value], market.value, message);
      if row.None? {
        return false;
      }
      Send(row.value);
      return true;
    }

    method SendSnapshot(m: Market)
      requires Valid() && m in View() && m in cache
      modifies this`sent
      ensures Valid() && View() == old(View()) && sent == old(sent) + [BookRow(cache[m], View()[m])]
    {
      hide BookRow, Side.Valid, Side.Contents;
      var row := markets[m].SnapshotRow(cache[m]);
      Send(row);
    }

    /** The timer's work: every live book goes out as a snapshot row. */
    method WritePeriodicSnapshots(order: seq<Market>, ghost connection: nat) returns (ok: bool)
      requires Valid() && Enumerates(order, View().Keys)
      modifies this`sent
      ensures Valid() && View() == old(View())
      ensures var r := Step(cache, connection, View(), Tick(order));
              ok == r.ok && r.books == View() && sent == old(sent) + Rows(r.emits)
    {
      hide BookRow, TickEmits, Rows, Ingestor.Valid, Ingestor.View;
      TickUnfolds(cache, connection, View(), []);
      assert order[0..] == order && order[|order|..] == [];
      ghost var books := View();
      ghost var r := TickEmits(cache, connection, books, order);
      TickKeepsBooks(cache, connection, books, order);
      var i := 0;
      while i < |order|
        invariant 0 <= i <= |order|
        invariant Valid() && View() == books
        invariant var left := TickEmits(cache, connection, books, order[i..]);
                  r.ok == left.ok && sent + Rows(left.emits) == old(sent) + Rows(r.emits)
      {
        var m := order[i];
        assert m in order;
        assert order[i..][0] == m && order[i..][1..] == order[i + 1..];
        TickUnfolds(cache, connection, books, order[i..]);
        if m !in cache {
          return false;
        }
        ghost var before, rest := sent, Rows(TickEmits(cache, connection, books, order[i + 1..]).emits);
        SendSnapshot(m);
        assert before + ([BookRow(cache[m], books[m])] + rest) == sent + rest;
        i := i + 1;
      }
      return true;
    }

    /** The process: connections until their first failure, each with fresh books. */
    method Serve(events: seq<Event>)
      requires Valid() && View() == map[] && sent == [] && Legal(cache, events)
      modifies this, Repr
      ensures Valid() && View() == Run(cache, events).books && sent == Rows(Run(cache, events).log)
    {
      hide Step, Run, After, Side.Valid, Side.Contents;
      var i := 0;
      ghost var connection: nat := 0;
      RunNothing(cache);
      while i < |events|
        invariant 0 <= i <= |events|
        invariant Valid() && fresh(Repr - old(Repr))
        invariant var s := Run(cache, events[..i]);
                  View() == s.books && sent == Rows(s.log) && connection == s.connection
      {
        assert events[..i] + [events[i]] == events[..i + 1];
        RunStep(cache, events[..i], events[i]);
        ghost var s := Run(cache, events[..i]);
        AfterOf(cache, s, events[i]);
        var ok := false;
        match events[i] {
          case Frame(message) => ok := HandleFrame(message, connection);
          case Tick(order) =>
            assert LegalEvent(s.books, events[i]);
            ok := WritePeriodicSnapshots(order, connection);
          case Unreadable =>
          case Ended =>
        }
        if !ok {
          markets := map[];
          connection := connection + 1;
        }
        i := i + 1;
      }
      assert events[..i] == events;
    }
  }

  lemma OneBookChanged(before: Books, after: Books, market: Market)
    requires after.Keys == before.Keys + {market}
    requires forall m :: m in before && m != market ==> after[m] == before[m]
    ensures after == before[market := after[market]]
  {
  }

  lemma TickUnfolds(cache: Cache, connection: nat, books: Books, order: seq<Market>)
    ensures order == [] ==> TickEmits(cache, connection, books, order) == StepResult(books, [], true)
    ensures order == [] ==> Rows(TickEmits(cache, connection, books, order).emits) == []
    ensures order != [] && order[0] in books ==>
              var r := TickEmits(cache, connection, books, order);
              var rest := TickEmits(cache, connection, books, order[1..]);
              if order[0] in cache
              then r.ok == rest.ok && Rows(r.emits) == [BookRow(cache[order[0]], books[order[0]])] + Rows(rest.emits)
              else !r.ok && Rows(r.emits) == []
  {
    hide BookRow;
  }

  lemma RunNothing(cache: Cache)
    ensures Run(cache, []) == RunState(map[], [], 0)
  {
  }

  lemma AfterOf(cache: Cache, s: RunState, e: Event)
    ensures var r := Step(cache, s.connection, s.books, e);
            && After(cache, s, e) == (if r.ok then RunState(r.books, s.log + r.emits, s.connection)
                                      else RunState(map[], s.log + r.emits, s.connection + 1))
            && Rows(s.log + r.emits) == Rows(s.log) + Rows(r.emits)
            && ((e.Ended? || e.Unreadable?) ==> !r.ok && r.emits == [])
  {
    hide ApplyMessage, ChannelMarket, TickEmits;
  }
}
