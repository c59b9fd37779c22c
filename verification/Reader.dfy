/** Reading the table back: replay from a snapshot, the reader's nonce check on incomplete logs,
    and the durable table after any number of crashes. */
module Reader {
  import opened Options
  import opened Levels
  import opened Book
  import opened Ingest
  import opened Log

  /** A snapshot replaces the reader's book, a delta updates it. */
  ghost function ReadRow(before: Option<BookView>, row: Row): Option<BookView> {
    match row.kind
    case Snapshot => SnapshotBook(row.bids, row.asks)
    case Delta =>
      match before
      case None => None
      case Some(b) =>
        var r := DeltaBook(b, row.bids, row.asks);
        if r.ok then Some(r.book) else None
  }

  ghost function Replay(rows: seq<Row>): Option<BookView> {
    if rows == [] then None else ReadRow(Replay(rows[..|rows| - 1]), rows[|rows| - 1])
  }

  function Rows(l: seq<Emit>): (r: seq<Row>)
    ensures |r| == |l| && forall i :: 0 <= i < |l| ==> r[i] == l[i].row
  {
    seq(|l|, i requires 0 <= i < |l| => l[i].row)
  }

  // ----- Sub-logs -----

  /** Positions of `l` in increasing order: the rows that a reader still has. */
  ghost predicate Selects(kept: seq<nat>, l: seq<Emit>) {
    && (forall i :: 0 <= i < |kept| ==> kept[i] < |l|)
    && (forall i, j :: 0 <= i < j < |kept| ==> kept[i] < kept[j])
  }

  ghost function Selection(l: seq<Emit>, kept: seq<nat>): (r: seq<Emit>)
    requires Selects(kept, l)
    ensures |r| == |kept| && forall i :: 0 <= i < |kept| ==> r[i] == l[kept[i]]
  {
    seq(|kept|, i requires 0 <= i < |kept| => l[kept[i]])
  }

  /** The reader's check: a snapshot first, then each delta continues from the row before it. */
  ghost predicate PassesCheck(rows: seq<Row>) {
    && rows != [] && rows[0].kind == Snapshot
    && (forall i :: 0 < i < |rows| && rows[i].kind == Delta ==> rows[i].beginNonce == Some(rows[i - 1].sequence))
  }

  /** The delta row `e` leads from the given book to the book in memory when `e` was emitted. */
  ghost predicate Fits(before: BookView, e: Emit) {
    DeltaBook(before, e.row.bids, e.row.asks) == BookResult(e.state.book, true)
  }

  /** Each kept delta fits the book of the kept row before it. */
  ghost predicate Bridged(l: seq<Emit>, kept: seq<nat>)
    requires Selects(kept, l)
  {
    && kept != [] && l[kept[0]].row.kind == Snapshot
    && (forall i :: 0 < i < |kept| && l[kept[i]].row.kind == Delta ==> Fits(l[kept[i - 1]].state.book, l[kept[i]]))
  }

  lemma {:induction false} BridgedReplays(l: seq<Emit>, kept: seq<nat>)
    requires Consistent(l) && Selects(kept, l) && Bridged(l, kept)
    ensures Replay(Rows(Selection(l, kept))) == Some(l[kept[|kept| - 1]].state.book)
    decreases |kept|
  {
    hide Follows, Consistent, ReadRow, Selection, Rows, Fits;
    var n := |kept| - 1;
    var rows := Rows(Selection(l, kept));
    assert rows[n] == l[kept[n]].row;
    if n == 0 {
      ReadLink(l, kept[0], None);
      assert rows[..0] == [];
    } else {
      var shorter := kept[..n];
      BridgedReplays(l, shorter);
      assert rows[..n] == Rows(Selection(l, shorter));
      ReadLink(l, kept[n], Some(l[kept[n - 1]].state.book));
    }
  }

  /** A reader whose book a delta row fits reads that row as its state, and a snapshot row always. */
  lemma ReadLink(l: seq<Emit>, i: nat, before: Option<BookView>)
    requires Consistent(l) && i < |l|
    requires l[i].row.kind == Delta ==> before.Some? && Fits(before.value, l[i])
    ensures ReadRow(before, l[i].row) == Some(l[i].state.book)
  {
    hide DeltaBook, SnapshotBook;
    assert Follows(l[..i], l[i]);
  }

  // ----- The durable table -----

  /** One life of the service: its events, and how many of its order-book rows were committed. */
  datatype Process = Process(cache: Cache, events: seq<Event>, committed: nat)

  ghost function CommittedRows(p: Process): seq<Emit> {
    var log := Run(p.cache, p.events).log;
    if p.committed <= |log| then log[..p.committed] else log
  }

  /** The table in id order: every process appends the prefix of its rows that it committed. */
  ghost function Durable(processes: seq<Process>): seq<Emit> {
    if processes == [] then []
    else Durable(processes[..|processes| - 1]) + CommittedRows(processes[|processes| - 1])
  }

  lemma {:induction false} DurableIsConsistent(processes: seq<Process>, symbol: int)
    requires forall i :: 0 <= i < |processes| ==> Injective(processes[i].cache)
    ensures Consistent(BySymbol(Durable(processes), symbol))
  {
    hide Consistent, BySymbol, Run;
    if processes == [] {
      NothingIsConsistent(symbol);
    } else {
      var init, p := processes[..|processes| - 1], processes[|processes| - 1];
      DurableIsConsistent(init, symbol);
      CommittedIsConsistent(p, symbol);
      BySymbolConcat(Durable(init), CommittedRows(p), symbol);
      ConsistentConcat(BySymbol(Durable(init), symbol), BySymbol(CommittedRows(p), symbol));
    }
  }

  lemma NothingIsConsistent(symbol: int)
    ensures Consistent(BySymbol([], symbol))
  {
  }

  lemma CommittedIsConsistent(p: Process, symbol: int)
    requires Injective(p.cache)
    ensures Consistent(BySymbol(CommittedRows(p), symbol))
  {
    hide Consistent, BySymbol, Run;
    var log := Run(p.cache, p.events).log;
    var k := if p.committed <= |log| then p.committed else |log|;
    RunTracks(p.cache, p.events);
    assert log == log[..k] + log[k..];
    BySymbolConcat(log[..k], log[k..], symbol);
    ConsistentPrefix(BySymbol(log, symbol), |BySymbol(log[..k], symbol)|);
    assert BySymbol(log, symbol)[..|BySymbol(log[..k], symbol)|] == BySymbol(log[..k], symbol);
  }

  /** Over every sequence of processes, reconnects and crashes: the stored rows of a symbol start
      with a snapshot, each delta continues from the row before it, and replay from any snapshot
      row to any later row gives the book that was in memory when that row was emitted. */
  lemma DurableLogReplays(processes: seq<Process>, symbol: int)
    requires forall i :: 0 <= i < |processes| ==> Injective(processes[i].cache)
    ensures var l := BySymbol(Durable(processes), symbol);
            && (l != [] ==> PassesCheck(Rows(l)))
            && (forall i, j :: 0 <= i <= j < |l| && l[i].row.kind == Snapshot ==>
                  Replay(Rows(l[i..j + 1])) == Some(l[j].state.book))
  {
    hide Durable, BySymbol, Replay, Consistent;
    var l := BySymbol(Durable(processes), symbol);
    DurableIsConsistent(processes, symbol);
    if l != [] {
      ConsistentPassesCheck(l);
    }
    forall i, j | 0 <= i <= j < |l| && l[i].row.kind == Snapshot
      ensures Replay(Rows(l[i..j + 1])) == Some(l[j].state.book)
    {
      SliceReplays(l, i, j);
    }
  }

  lemma ConsistentPassesCheck(l: seq<Emit>)
    requires Consistent(l) && l != []
    ensures PassesCheck(Rows(l))
  {
    hide DeltaBook, SnapshotBook;
    assert Follows(l[..0], l[0]);
    forall i | 0 < i < |l| && l[i].row.kind == Delta
      ensures l[i].row.beginNonce == Some(l[i - 1].row.sequence)
    {
      assert Follows(l[..i], l[i]) && l[..i][i - 1] == l[i - 1];
    }
  }

  lemma SliceReplays(l: seq<Emit>, i: nat, j: nat)
    requires Consistent(l) && i <= j < |l| && l[i].row.kind == Snapshot
    ensures Replay(Rows(l[i..j + 1])) == Some(l[j].state.book)
  {
    hide Replay, Consistent, Fits;
    var kept := seq(j + 1 - i, k requires 0 <= k < j + 1 - i => i + k);
    forall k | 0 < k < |kept| && l[kept[k]].row.kind == Delta ensures Fits(l[kept[k - 1]].state.book, l[kept[k]]) {
      DeltaLink(l, kept[k]);
    }
    BridgedReplays(l, kept);
    assert Selection(l, kept) == l[i..j + 1];
  }

  /** The state noted with an emitted row is the market's book after the step that emitted it. */
  lemma EmitsShowMemory(cache: Cache, connection: nat, books: Books, e: Event)
    ensures var r := Step(cache, connection, books, e);
            forall x :: x in r.emits ==>
              && x.market in r.books && x.state == r.books[x.market]
              && x.market in cache && x.row.symbol == cache[x.market]
  {
    hide ChannelMarket, SnapshotBook, DeltaBook, BookRow;
    if e.Tick? {
      TickShowsMemory(cache, connection, books, e.order);
    }
  }

  lemma {:induction false} TickShowsMemory(cache: Cache, connection: nat, books: Books, order: seq<Market>)
    ensures TickEmits(cache, connection, books, order).books == books
    ensures forall x :: x in TickEmits(cache, connection, books, order).emits ==>
              x.market in books && x.state == books[x.market] && x.market in cache && x.row.symbol == cache[x.market]
  {
    hide Ascending, Descending;
    if order != [] {
      TickShowsMemory(cache, connection, books, order[1..]);
    }
  }

  // ----- Incomplete logs -----

  /** Whatever rows are lost, a sub-log that passes the check replays to the book in memory at its
      last row. */
  ghost predicate CheckIsSound(l: seq<Emit>) {
    forall kept :: Selects(kept, l) && PassesCheck(Rows(Selection(l, kept))) ==>
      Replay(Rows(Selection(l, kept))) == Some(l[kept[|kept| - 1]].state.book)
  }

  /** A delta fits every earlier row that carries its begin nonce. */
  ghost predicate DeltasFit(l: seq<Emit>) {
    forall a, k :: 0 <= a < k < |l| && l[k].row.kind == Delta && l[k].row.beginNonce == Some(l[a].row.sequence) ==>
      Fits(l[a].state.book, l[k])
  }

  /** The nonce check protects readers of incomplete logs exactly when each delta fits every earlier
      row that carries its begin nonce, not only the row before it. */
  lemma CheckIsSoundIff(l: seq<Emit>)
    requires Consistent(l)
    ensures CheckIsSound(l) <==> DeltasFit(l)
  {
    hide Replay, Fits, Consistent;
    if DeltasFit(l) {
      forall kept | Selects(kept, l) && PassesCheck(Rows(Selection(l, kept)))
        ensures Replay(Rows(Selection(l, kept))) == Some(l[kept[|kept| - 1]].state.book)
      {
        FittingSubLogReplays(l, kept);
      }
    }
    if CheckIsSound(l) {
      forall a, k | 0 <= a < k < |l| && l[k].row.kind == Delta && l[k].row.beginNonce == Some(l[a].row.sequence)
        ensures Fits(l[a].state.book, l[k])
      {
        SkippingToDelta(l, a, k);
      }
    }
  }

  lemma FittingSubLogReplays(l: seq<Emit>, kept: seq<nat>)
    requires Consistent(l) && Selects(kept, l) && PassesCheck(Rows(Selection(l, kept)))
    requires forall i :: 0 < i < |kept| && l[kept[i]].row.kind == Delta
                         && l[kept[i]].row.beginNonce == Some(l[kept[i - 1]].row.sequence)
                         ==> Fits(l[kept[i - 1]].state.book, l[kept[i]])
    ensures Replay(Rows(Selection(l, kept))) == Some(l[kept[|kept| - 1]].state.book)
  {
    hide Replay, Fits, Consistent;
    var rows := Rows(Selection(l, kept));
    assert rows[0] == l[kept[0]].row;
    forall i | 0 < i < |kept| && l[kept[i]].row.kind == Delta
      ensures l[kept[i]].row.beginNonce == Some(l[kept[i - 1]].row.sequence)
    {
      assert rows[i] == l[kept[i]].row && rows[i - 1] == l[kept[i - 1]].row;
    }
    BridgedReplays(l, kept);
  }

  /** The rows up to `a`, and then the delta `k` that continues from its nonce, pass the check. */
  lemma SkippingToDelta(l: seq<Emit>, a: nat, k: nat)
    requires Consistent(l) && CheckIsSound(l) && a < k < |l|
    requires l[k].row.kind == Delta && l[k].row.beginNonce == Some(l[a].row.sequence)
    ensures Fits(l[a].state.book, l[k])
  {
    hide Replay, Consistent, CheckIsSound;
    var head := l[..a + 1];
    var kept: seq<nat> := seq(a + 2, i requires 0 <= i < a + 2 => if i <= a then i else k);
    var rows := Rows(Selection(l, kept));
    assert head == l[0..a + 1] && rows[..a + 1] == Rows(head) && rows[a + 1] == l[k].row;
    ConsistentPrefix(l, a + 1);
    ConsistentPassesCheck(head);
    assert Rows(head)[0] == l[0].row && rows[0] == l[0].row;
    SliceReplays(l, 0, a);
    forall i | 0 < i < |rows| && rows[i].kind == Delta ensures rows[i].beginNonce == Some(rows[i - 1].sequence) {
      assert i <= a ==> rows[i] == Rows(head)[i] && rows[i - 1] == Rows(head)[i - 1];
    }
    assert Replay(rows) == Some(l[k].state.book) by { SoundFor(l, kept); }
    ReplayStep(rows);
  }

  lemma SoundFor(l: seq<Emit>, kept: seq<nat>)
    requires CheckIsSound(l) && Selects(kept, l) && PassesCheck(Rows(Selection(l, kept)))
    ensures Replay(Rows(Selection(l, kept))) == Some(l[kept[|kept| - 1]].state.book)
  {
  }

  lemma ReplayStep(rows: seq<Row>)
    requires rows != []
    ensures Replay(rows) == ReadRow(Replay(rows[..|rows| - 1]), rows[|rows| - 1])
  {
  }

  // ----- When the check is sound -----

  /** Each delta carries a nonce above its begin nonce. The code does not check this. */
  ghost predicate DeltasRaiseNonces(l: seq<Emit>) {
    forall i :: 0 <= i < |l| && l[i].row.kind == Delta ==>
      l[i].row.beginNonce.Some? && l[i].row.beginNonce.value < l[i].row.sequence
  }

  ghost predicate ConnectSnapshot(e: Emit) {
    e.row.kind == Snapshot && !e.periodic
  }

  /** No connect snapshot is lost in front of a kept delta. */
  ghost predicate KeepsConnections(l: seq<Emit>, kept: seq<nat>)
    requires Selects(kept, l)
  {
    forall i, k :: 0 < i < |kept| && l[kept[i]].row.kind == Delta && kept[i - 1] < k < kept[i] ==>
      !ConnectSnapshot(l[k])
  }

  /** If the deltas of a connection raise the nonce, a sub-log that passes the check replays exactly,
      whatever rows of the connection are lost. Nonces may return on a reconnect. */
  lemma CheckedSubLogReplays(l: seq<Emit>, kept: seq<nat>)
    requires Consistent(l) && DeltasRaiseNonces(l) && Selects(kept, l) && KeepsConnections(l, kept)
    requires PassesCheck(Rows(Selection(l, kept)))
    ensures Replay(Rows(Selection(l, kept))) == Some(l[kept[|kept| - 1]].state.book)
  {
    hide Replay, PassesCheck, Consistent, DeltasRaiseNonces, Fits, Rows, Selection;
    forall i | 0 < i < |kept| && l[kept[i]].row.kind == Delta
               && l[kept[i]].row.beginNonce == Some(l[kept[i - 1]].row.sequence)
      ensures Fits(l[kept[i - 1]].state.book, l[kept[i]])
    {
      DeltaLink(l, kept[i]);
      NoncesRise(l, kept[i - 1], kept[i] - 1);
    }
    FittingSubLogReplays(l, kept);
  }

  /** Between connect snapshots nonces do not fall, and rows with equal nonces show equal states. */
  lemma {:induction false} NoncesRise(l: seq<Emit>, a: nat, b: nat)
    requires Consistent(l) && DeltasRaiseNonces(l) && a <= b < |l|
    requires forall k :: a < k <= b ==> !ConnectSnapshot(l[k])
    ensures l[a].row.sequence <= l[b].row.sequence
    ensures l[a].row.sequence == l[b].row.sequence ==> l[a].state == l[b].state
    decreases b
  {
    hide Consistent;
    if a < b {
      NoncesRise(l, a, b - 1);
      if l[b].periodic {
        PeriodicLink(l, b);
      } else {
        DeltaLink(l, b);
      }
    }
  }

  /** Over the whole log, each row that is no periodic one has a nonce above that of the row before
      it, or repeats both nonce and book, as a reconnect of a quiet market does. */
  ghost predicate NoncesNeverReturn(l: seq<Emit>) {
    forall i :: 0 < i < |l| && !l[i].periodic ==>
      || l[i - 1].row.sequence < l[i].row.sequence
      || (l[i - 1].row.sequence == l[i].row.sequence && l[i - 1].state.book == l[i].state.book)
  }

  /** Then rows of any connections can be lost. */
  lemma NoncesThatNeverReturnFit(l: seq<Emit>)
    requires Consistent(l) && NoncesNeverReturn(l)
    ensures CheckIsSound(l)
  {
    hide Consistent, NoncesNeverReturn, CheckIsSound;
    forall a, k | 0 <= a < k < |l| && l[k].row.kind == Delta && l[k].row.beginNonce == Some(l[a].row.sequence)
      ensures Fits(l[a].state.book, l[k])
    {
      DeltaLink(l, k);
      SameNonceSameBook(l, a, k - 1);
    }
    CheckIsSoundIff(l);
  }

  lemma {:induction false} SameNonceSameBook(l: seq<Emit>, a: nat, b: nat)
    requires Consistent(l) && NoncesNeverReturn(l) && a <= b < |l|
    ensures l[a].row.sequence <= l[b].row.sequence
    ensures l[a].row.sequence == l[b].row.sequence ==> l[a].state.book == l[b].state.book
    decreases b
  {
    hide Consistent;
    if a < b {
      SameNonceSameBook(l, a, b - 1);
      if l[b].periodic {
        PeriodicLink(l, b);
      }
    }
  }

  // ----- When it is not -----

  function Connect(channel: string, nonce: int, bids: seq<PriceLevel>): Event {
    Frame(Subscribed(channel, 1, SideLevels(0, nonce, 0, [], bids)))
  }

  function Change(channel: string, begin: int, nonce: int, bids: seq<PriceLevel>): Event {
    Frame(Update(channel, 1, SideLevels(0, nonce, begin, [], bids)))
  }

  ghost function Bids(d: Depth): BookView {
    BookView(d, map[])
  }

  lemma ConnectRuns(cache: Cache, events: seq<Event>, channel: string, m: Market, nonce: int, bids: seq<PriceLevel>)
    requires ChannelMarket(channel) == Some(m) && m in cache && SnapshotSide(bids).Some?
    ensures var s, after := Run(cache, events), MarketState(nonce, 1, Bids(SnapshotSide(bids).value));
            var e := Emit(Row(1, cache[m], Snapshot, nonce, bids, [], None), m, after, false, s.connection);
            Run(cache, events + [Connect(channel, nonce, bids)])
            == RunState(s.books[m := after], s.log + [e], s.connection)
  {
    hide ChannelMarket, Run, InsertAll;
    RunStep(cache, events, Connect(channel, nonce, bids));
    EmptyDelta(map[]);
  }

  lemma ChangeRuns(
      cache: Cache, events: seq<Event>, channel: string, m: Market, begin: int, nonce: int,
      bids: seq<PriceLevel>, d: Depth)
    requires ChannelMarket(channel) == Some(m) && m in cache
    requires m in Run(cache, events).books && Run(cache, events).books[m] == MarketState(begin, 1, Bids(d))
    requires ApplySide(d, bids).ok
    ensures var s, after := Run(cache, events), MarketState(nonce, 1, Bids(ApplySide(d, bids).depth));
            var e := Emit(Row(1, cache[m], Delta, nonce, bids, [], Some(begin)), m, after, false, s.connection);
            Run(cache, events + [Change(channel, begin, nonce, bids)])
            == RunState(s.books[m := after], s.log + [e], s.connection)
  {
    hide ChannelMarket, Run, ApplySide;
    RunStep(cache, events, Change(channel, begin, nonce, bids));
    EmptyDelta(map[]);
  }

  /** A snapshot, a delta that adds the level `x`, a delta back to the first nonce, and one more. */
  function NonceReturns(channel: string, x: PriceLevel): seq<Event> {
    [Connect(channel, 5, []), Change(channel, 5, 6, [x]), Change(channel, 6, 5, []), Change(channel, 5, 7, [])]
  }

  /** Without increasing nonces the check is not sound, even within one connection: here the first
      and last row pass it alone, but replay to an empty book while memory held a level. */
  lemma ReusedNoncesDefeatCheck(cache: Cache, channel: string, m: Market, x: PriceLevel)
    requires ChannelMarket(channel) == Some(m) && m in cache && Parses(x) && !Removes(x)
    ensures !CheckIsSound(BySymbol(Run(cache, NonceReturns(channel, x)).log, cache[m]))
  {
    hide Parses, Removes, PriceOf, Run, ChannelMarket, CheckIsSound, BySymbol, ApplySide, InsertAll;
    var e, one := NonceReturns(channel, x), map[PriceOf(x) := x];
    EmptyDelta(map[]);
    EmptyDelta(one);
    AddedLevel(x);
    assert one != map[] by { assert PriceOf(x) in one; }
    assert e[..1] == [] + [e[0]] && e[..2] == e[..1] + [e[1]] && e[..3] == e[..2] + [e[2]] && e == e[..3] + [e[3]];
    NothingRuns(cache);
    ConnectRuns(cache, [], channel, m, 5, []);
    ChangeRuns(cache, e[..1], channel, m, 5, 6, [x], map[]);
    ChangeRuns(cache, e[..2], channel, m, 6, 5, [], one);
    ChangeRuns(cache, e[..3], channel, m, 5, 7, [], one);
    var l := Run(cache, e).log;
    OneSymbol(l, cache[m]);
    DefeatedBy(l, 3);
  }

  /** A snapshot with the level `x`, and after a reconnect an empty one with the same nonce. */
  function EmptyReconnect(channel: string, x: PriceLevel): seq<Event> {
    [Connect(channel, 5, [x]), Ended, Connect(channel, 5, []), Change(channel, 5, 6, [])]
  }

  /** Increasing nonces within each connection do not protect a reader who lost the connect snapshot
      in between: the first and last row pass the check alone and replay to a level that is gone. */
  lemma LostConnectSnapshotDefeatsCheck(cache: Cache, channel: string, m: Market, x: PriceLevel)
    requires ChannelMarket(channel) == Some(m) && m in cache && Parses(x) && !Removes(x)
    ensures var l := BySymbol(Run(cache, EmptyReconnect(channel, x)).log, cache[m]);
            DeltasRaiseNonces(l) && !CheckIsSound(l)
  {
    hide Parses, Removes, PriceOf, Run, ChannelMarket, CheckIsSound, BySymbol, ApplySide, InsertAll;
    var e, one := EmptyReconnect(channel, x), map[PriceOf(x) := x];
    EmptyDelta(map[]);
    EmptyDelta(one);
    AddedLevel(x);
    assert one != map[] by { assert PriceOf(x) in one; }
    assert e[..1] == [] + [e[0]] && e[..2] == e[..1] + [e[1]] && e[..3] == e[..2] + [e[2]] && e == e[..3] + [e[3]];
    NothingRuns(cache);
    ConnectRuns(cache, [], channel, m, 5, [x]);
    RunStep(cache, e[..1], Ended);
    assert Run(cache, e[..2]).log == Run(cache, e[..1]).log;
    ConnectRuns(cache, e[..2], channel, m, 5, []);
    ChangeRuns(cache, e[..3], channel, m, 5, 6, [], map[]);
    var l := Run(cache, e).log;
    OneSymbol(l, cache[m]);
    DefeatedBy(l, 2);
  }

  lemma NothingRuns(cache: Cache)
    ensures Run(cache, []) == RunState(map[], [], 0)
  {
  }

  lemma {:induction false} OneSymbol(l: seq<Emit>, symbol: int)
    requires forall i :: 0 <= i < |l| ==> l[i].row.symbol == symbol
    ensures BySymbol(l, symbol) == l
  {
    if l != [] {
      var init, last := l[..|l| - 1], l[|l| - 1];
      assert l == init + [last];
      OneSymbol(init, symbol);
      assert BySymbol(l, symbol) == BySymbol(init, symbol) + [last];
    }
  }

  /** The first row and the empty delta `k` pass the check, but memory held another book. */
  lemma DefeatedBy(l: seq<Emit>, k: nat)
    requires 0 < k < |l| && l[0].row.kind == Snapshot && l[k].row.kind == Delta
    requires SnapshotBook(l[0].row.bids, l[0].row.asks) == Some(l[0].state.book)
    requires l[k].row.beginNonce == Some(l[0].row.sequence) && l[k].row.bids == l[k].row.asks == []
    requires l[k].state.book != l[0].state.book
    ensures !CheckIsSound(l)
  {
    hide Replay, InsertAll, CheckIsSound;
    var kept := [0 as nat, k];
    var rows := Rows(Selection(l, kept));
    assert rows == [l[0].row, l[k].row] && rows[..1] == [l[0].row] && rows[..1][..0] == [];
    ReplayStep(rows[..1]);
    ReplayStep(rows);
    if CheckIsSound(l) {
      SoundFor(l, kept);
    }
  }

  lemma EmptyDelta(d: Depth)
    ensures ApplySide(d, []) == SideResult(d, true) && InsertAll(d, []) == Some(d)
  {
  }

  lemma AddedLevel(x: PriceLevel)
    requires Parses(x) && !Removes(x)
    ensures ApplySide(map[], [x]) == SideResult(map[PriceOf(x) := x], true)
    ensures SnapshotSide([x]) == Some(map[PriceOf(x) := x])
  {
    hide Parses, Removes, PriceOf;
    assert [x][1..] == [];
    EmptyDelta(map[PriceOf(x) := x]);
  }

  lemma DeltaLink(l: seq<Emit>, i: nat)
    requires Consistent(l) && i < |l| && l[i].row.kind == Delta
    ensures i > 0 && !l[i].periodic && l[i].row.beginNonce == Some(l[i - 1].row.sequence)
    ensures Fits(l[i - 1].state.book, l[i])
    ensures l[i - 1].row.time <= l[i].row.time
  {
    hide DeltaBook, SnapshotBook;
    assert Follows(l[..i], l[i]);
    assert i > 0 ==> l[..i][i - 1] == l[i - 1];
  }

  lemma PeriodicLink(l: seq<Emit>, i: nat)
    requires Consistent(l) && i < |l| && l[i].periodic
    ensures i > 0 && l[i].state == l[i - 1].state && l[i].row.kind == Snapshot
    ensures l[i].row.sequence == l[i - 1].row.sequence && l[i].row.time == l[i - 1].row.time
  {
    hide DeltaBook, SnapshotBook;
    assert Follows(l[..i], l[i]);
    assert i > 0 ==> l[..i][i - 1] == l[i - 1] && Follows(l[..i - 1], l[i - 1]);
  }

  /** Periodic rows are redundant: dropping any of them after the first kept row changes neither
      the check nor the replayed book. */
  lemma PeriodicRowsAreRedundant(l: seq<Emit>, kept: seq<nat>)
    requires Consistent(l) && Selects(kept, l) && kept != [] && l[kept[0]].row.kind == Snapshot
    requires forall i :: kept[0] < i <= kept[|kept| - 1] && i !in kept ==> l[i].periodic
    ensures PassesCheck(Rows(Selection(l, kept)))
    ensures Replay(Rows(Selection(l, kept))) == Some(l[kept[|kept| - 1]].state.book)
  {
    hide Consistent, Replay, Selection, Rows, Fits;
    var rows := Rows(Selection(l, kept));
    assert rows[0] == l[kept[0]].row;
    forall i | 0 < i < |kept| && l[kept[i]].row.kind == Delta
      ensures Fits(l[kept[i - 1]].state.book, l[kept[i]])
      ensures rows[i].beginNonce == Some(rows[i - 1].sequence)
    {
      assert rows[i] == l[kept[i]].row && rows[i - 1] == l[kept[i - 1]].row;
      DroppedBetween(l, kept, i);
      DeltaLink(l, kept[i]);
    }
    BridgedReplays(l, kept);
  }

  lemma DroppedBetween(l: seq<Emit>, kept: seq<nat>, i: nat)
    requires Consistent(l) && Selects(kept, l) && 0 < i < |kept|
    requires forall k :: kept[0] < k <= kept[|kept| - 1] && k !in kept ==> l[k].periodic
    ensures l[kept[i] - 1].state == l[kept[i - 1]].state
    ensures l[kept[i] - 1].row.sequence == l[kept[i - 1]].row.sequence
  {
    hide Consistent;
    forall k | kept[i - 1] < k < kept[i] ensures l[k].periodic {
      GapIsDropped(kept, i, k);
    }
    PeriodicStretch(l, kept[i - 1], kept[i] - 1);
  }

  lemma GapIsDropped(kept: seq<nat>, i: nat, k: nat)
    requires forall a, b :: 0 <= a < b < |kept| ==> kept[a] < kept[b]
    requires 0 < i < |kept| && kept[i - 1] < k < kept[i]
    ensures kept[0] < k <= kept[|kept| - 1] && k !in kept
  {
    assert kept[0] <= kept[i - 1] && kept[i] <= kept[|kept| - 1];
    forall a | 0 <= a < |kept| ensures kept[a] != k {
      assert a < i - 1 ==> kept[a] < kept[i - 1];
      assert a > i ==> kept[i] < kept[a];
    }
  }

  lemma {:induction false} PeriodicStretch(l: seq<Emit>, a: nat, b: nat)
    requires Consistent(l) && a <= b < |l|
    requires forall k :: a < k <= b ==> l[k].periodic
    ensures l[b].state == l[a].state && l[b].row.sequence == l[a].row.sequence
    decreases b
  {
    hide Consistent;
    if a < b {
      PeriodicStretch(l, a, b - 1);
      PeriodicLink(l, b);
    }
  }

  // ----- Failures -----

  lemma {:induction false} SameStateSameFuture(cache: Cache, a: seq<Event>, b: seq<Event>, more: seq<Event>)
    requires Run(cache, a) == Run(cache, b)
    ensures Run(cache, a + more) == Run(cache, b + more)
    decreases |more|
  {
    hide Run, After;
    if more == [] {
      assert a + more == a && b + more == b;
    } else {
      var init, last := more[..|more| - 1], more[|more| - 1];
      assert a + more == (a + init) + [last] && b + more == (b + init) + [last];
      SameStateSameFuture(cache, a, b, init);
      RunStep(cache, a + init, last);
      RunStep(cache, b + init, last);
    }
  }

  /** A failed frame leaves no trace, not even when it had half applied a delta: all rows ever
      emitted and all later books are those of a run whose connection just ended there. */
  lemma FailedFrameLeavesNoTrace(cache: Cache, before: seq<Event>, message: Message, more: seq<Event>)
    requires var s := Run(cache, before); !Step(cache, s.connection, s.books, Frame(message)).ok
    ensures Run(cache, before + [Frame(message)] + more) == Run(cache, before + [Ended] + more)
  {
    hide Run, ApplyMessage, ChannelMarket;
    RunStep(cache, before, Frame(message));
    RunStep(cache, before, Ended);
    SameStateSameFuture(cache, before + [Frame(message)], before + [Ended], more);
  }
}
