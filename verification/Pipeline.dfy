/** From received messages to the durable table: the ingestion machine feeds the writer, and the
    process may die at any point of both. */
module Pipeline {
  import opened Options
  import opened Ingest
  import opened Log
  import opened Reader
  import opened Export
  import opened Writer

  /** One life of the service. The ingestion side produced `outbox` (trade rows and order-book rows
      interleaved) from its events; the writer side got as far as `pipe` when the process died. */
  datatype Life = Life(cache: Cache, events: seq<Event>, outbox: seq<WriteMsg>, actions: seq<Action>, pipe: Pipe)

  ghost predicate Possible(life: Life) {
    && Injective(life.cache)
    && BooksOf(life.outbox) == Rows(Run(life.cache, life.events).log)
    && Reaches(life.actions, life.pipe)
    && life.pipe.sent <= life.outbox
  }

  /** The order-book table after all these lives, in id order. */
  ghost function Table(lives: seq<Life>): seq<Row> {
    if lives == [] then [] else Table(lives[..|lives| - 1]) + lives[|lives| - 1].pipe.books
  }

  ghost function AsProcess(life: Life): Process {
    Process(life.cache, life.events, |life.pipe.books|)
  }

  ghost function AsProcesses(lives: seq<Life>): (r: seq<Process>)
    ensures |r| == |lives| && forall i :: 0 <= i < |lives| ==> r[i] == AsProcess(lives[i])
  {
    seq(|lives|, i requires 0 <= i < |lives| => AsProcess(lives[i]))
  }

  lemma CommittedBooks(life: Life)
    requires Possible(life)
    ensures life.pipe.books == Rows(CommittedRows(AsProcess(life)))
  {
    hide Run, Reaches, BooksOf;
    CrashKeepsPrefix(life.actions, life.pipe);
    var rest := life.outbox[|life.pipe.sent|..];
    assert life.outbox == life.pipe.sent + rest;
    SplitConcat(life.pipe.sent, rest);
    var log := Run(life.cache, life.events).log;
    assert Rows(log)[..|life.pipe.books|] == life.pipe.books;
  }

  lemma {:induction false} TableIsDurableLog(lives: seq<Life>)
    requires forall i :: 0 <= i < |lives| ==> Possible(lives[i])
    ensures Table(lives) == Rows(Durable(AsProcesses(lives)))
  {
    hide Possible, CommittedRows, AsProcess;
    if lives != [] {
      var init, last := lives[..|lives| - 1], lives[|lives| - 1];
      TableIsDurableLog(init);
      CommittedBooks(last);
      assert AsProcesses(lives)[..|init|] == AsProcesses(init);
      var a, b := Durable(AsProcesses(init)), CommittedRows(AsProcess(last));
      assert Durable(AsProcesses(lives)) == a + b;
      assert Rows(a + b) == Rows(a) + Rows(b);
    }
  }

  ghost function RowsOf(rows: seq<Row>, symbol: int): seq<Row> {
    if rows == [] then []
    else RowsOf(rows[..|rows| - 1], symbol) + if rows[|rows| - 1].symbol == symbol then [rows[|rows| - 1]] else []
  }

  lemma {:induction false} RowsOfLog(log: seq<Emit>, symbol: int)
    ensures RowsOf(Rows(log), symbol) == Rows(BySymbol(log, symbol))
  {
    if log != [] {
      RowsOfLog(log[..|log| - 1], symbol);
      assert Rows(log)[..|log| - 1] == Rows(log[..|log| - 1]);
    }
  }

  /** The table alone suffices. After any lives of the service, a symbol's stored rows in id order
      pass the reader's check, and replaying from any snapshot to any later row gives the book that
      was in memory when that row was emitted. */
  lemma StoredRowsReplay(lives: seq<Life>, symbol: int)
    requires forall i :: 0 <= i < |lives| ==> Possible(lives[i])
    ensures var stored, emitted := RowsOf(Table(lives), symbol), BySymbol(Durable(AsProcesses(lives)), symbol);
            && stored == Rows(emitted)
            && (stored != [] ==> PassesCheck(stored))
            && (forall i, j :: 0 <= i <= j < |stored| && stored[i].kind == Snapshot ==>
                  Replay(stored[i..j + 1]) == Some(emitted[j].state.book))
  {
    hide Table, Durable, RowsOf, BySymbol, Replay, PassesCheck;
    var processes := AsProcesses(lives);
    TableIsDurableLog(lives);
    RowsOfLog(Durable(processes), symbol);
    DurableLogReplays(processes, symbol);
    var stored, emitted := RowsOf(Table(lives), symbol), BySymbol(Durable(processes), symbol);
    forall i, j | 0 <= i <= j < |stored| && stored[i].kind == Snapshot
      ensures Replay(stored[i..j + 1]) == Some(emitted[j].state.book)
    {
      assert stored[i..j + 1] == Rows(emitted[i..j + 1]);
      assert emitted[i].row.kind == Snapshot;
    }
  }

  /** In `(time, id)` order the same holds exactly as far as that is the order of emission: when no
      connect snapshot of the symbol is older than the row of the symbol before it. */
  lemma StoredRowsReplayInTimeOrder(lives: seq<Life>, order: seq<nat>, symbol: int)
    requires forall i :: 0 <= i < |lives| ==> Possible(lives[i])
    requires ExportOrder(Durable(AsProcesses(lives)), None, order)
    ensures var l := Durable(AsProcesses(lives));
            var shown := Fetch(l, Part(l, order, symbol, 0, |l|));
            && Table(lives) == Rows(l)
            && (shown == BySymbol(l, symbol) <==> ConnectTimesNeverRegress(l, symbol))
            && (ConnectTimesNeverRegress(l, symbol) ==>
                  && Rows(shown) == RowsOf(Table(lives), symbol)
                  && (shown != [] ==> PassesCheck(Rows(shown)))
                  && forall i, j :: 0 <= i <= j < |shown| && shown[i].row.kind == Snapshot ==>
                       Replay(Rows(shown[i..j + 1])) == Some(shown[j].state.book))
  {
    hide Table, Durable, RowsOf, BySymbol, Replay, PassesCheck, ConnectTimesNeverRegress, Part, Sorted;
    var processes := AsProcesses(lives);
    TableIsDurableLog(lives);
    RowsOfLog(Durable(processes), symbol);
    DurableLogReplays(processes, symbol);
    DurableExport(processes, None, order, symbol);
  }
}
