/** The writer: a bounded channel, a batch, and two tables that are written one after the other.
    The class is the task's code; the action system runs it against a sender that is never
    stopped, so that every crash point is a reachable state. */
module Writer {
  import opened Ingest
  import opened Trades

  const BATCH_CAPACITY: nat := 128
  const CHANNEL_CAPACITY: nat := 1024

  datatype WriteMsg = Trade(trade: TradeRow) | Orderbook(row: Row)

  function TradesOf(msgs: seq<WriteMsg>): seq<TradeRow> {
    if msgs == [] then []
    else TradesOf(msgs[..|msgs| - 1]) + if msgs[|msgs| - 1].Trade? then [msgs[|msgs| - 1].trade] else []
  }

  function BooksOf(msgs: seq<WriteMsg>): seq<Row> {
    if msgs == [] then []
    else BooksOf(msgs[..|msgs| - 1]) + if msgs[|msgs| - 1].Orderbook? then [msgs[|msgs| - 1].row] else []
  }

  lemma {:induction false} SplitConcat(a: seq<WriteMsg>, b: seq<WriteMsg>)
    ensures TradesOf(a + b) == TradesOf(a) + TradesOf(b)
    ensures BooksOf(a + b) == BooksOf(a) + BooksOf(b)
    decreases |b|
  {
    if b == [] {
      assert a + b == a;
    } else {
      var init := b[..|b| - 1];
      assert (a + b)[..|a + b| - 1] == a + init;
      SplitConcat(a, init);
    }
  }

  lemma {:induction false} SplitLength(msgs: seq<WriteMsg>)
    ensures |TradesOf(msgs)| + |BooksOf(msgs)| == |msgs|
  {
    if msgs != [] {
      SplitLength(msgs[..|msgs| - 1]);
    }
  }

  /** Each message is a row of exactly one kind, handed on as it is. */
  lemma SplitOne(msg: WriteMsg)
    ensures TradesOf([msg]) == if msg.Trade? then [msg.trade] else []
    ensures BooksOf([msg]) == if msg.Orderbook? then [msg.row] else []
  {
    assert [msg][..0] == [];
  }

  // ----- The task -----

  datatype Input = Received(msg: WriteMsg) | Timer | Closed

  /** The messages of the inputs before the channel closed. */
  ghost function Messages(inputs: seq<Input>): seq<WriteMsg> {
    if inputs == [] || inputs[0].Closed? then []
    else (if inputs[0].Received? then [inputs[0].msg] else []) + Messages(inputs[1..])
  }

  /** Every message received before the channel closes counts, once and in its place; nothing after. */
  lemma {:induction false} MessagesInOrder(a: seq<Input>, x: Input, b: seq<Input>)
    requires Closed !in a
    ensures Messages(a + [x] + b) ==
      match x
      case Received(msg) => Messages(a) + [msg] + Messages(b)
      case Timer => Messages(a) + Messages(b)
      case Closed => Messages(a)
  {
    var all := a + [x] + b;
    if a == [] {
      assert all[0] == x && all[1..] == b;
    } else {
      assert all[0] == a[0] && all[1..] == a[1..] + [x] + b;
      MessagesInOrder(a[1..], x, b);
    }
  }

  /** What stays in the batch: a message waits there until it is the 128th. */
  function Kept(batch: seq<WriteMsg>, input: Input): seq<WriteMsg> {
    if input.Received? && |batch| + 1 < 128 then batch + [input.msg] else []
  }

  class WriterTask {
    var batch: seq<WriteMsg>
    var trades: seq<TradeRow>
    var books: seq<Row>
    /** All trade rows handed to the table so far. */
    ghost var flushed: seq<TradeRow>

    ghost predicate Valid()
      reads this
    {
      |batch| < BATCH_CAPACITY && trades == FirstPerKey(flushed)
    }

    constructor ()
      ensures Valid() && batch == [] && flushed == [] && books == []
    {
      batch, trades, books, flushed := [], [], [], [];
    }

    /** Writes the batch: trades first, then order-book rows, each as one statement. */
    method Flush()
      requires trades == FirstPerKey(flushed)
      modifies this
      ensures Valid() && batch == []
      ensures trades == InsertTrades(old(trades), TradesOf(old(batch)))
      ensures flushed == old(flushed) + TradesOf(old(batch))
      ensures books == old(books) + BooksOf(old(batch))
    {
      InsertContinues(flushed, TradesOf(batch));
      assert flushed + [] == flushed && books + [] == books;
      if batch == [] {
        return;
      }
      var drained := batch;
      batch := [];
      var tradeRows, bookRows := [], [];
      for i := 0 to |drained|
        invariant tradeRows == TradesOf(drained[..i]) && bookRows == BooksOf(drained[..i])
        invariant batch == [] && trades == old(trades) && books == old(books) && flushed == old(flushed)
      {
        assert drained[..i + 1] == drained[..i] + [drained[i]];
        SplitConcat(drained[..i], [drained[i]]);
        match drained[i] {
          case Trade(trade) => tradeRows := tradeRows + [trade];
          case Orderbook(row) => bookRows := bookRows + [row];
        }
      }
      assert drained[..|drained|] == drained;
      if tradeRows != [] {
        trades := InsertTrades(trades, tradeRows);
        flushed := flushed + tradeRows;
      }
      if bookRows != [] {
        books := books + bookRows;
      }
    }

    /** One turn of the loop: a full batch, a timer tick or the end of the channel flushes. */
    method Take(input: Input)
      requires Valid()
      modifies this
      ensures Valid()
      ensures batch == Kept(old(batch), input) && (!input.Received? ==> batch == [])
      ensures var msgs := if input.Received? then [input.msg] else [];
              && books + BooksOf(batch) == old(books + BooksOf(batch)) + BooksOf(msgs)
              && flushed + TradesOf(batch) == old(flushed + TradesOf(batch)) + TradesOf(msgs)
    {
      hide FirstPerKey, InsertTrades, TradesOf, BooksOf;
      SplitLength([]);
      if input.Received? {
        SplitConcat(batch, [input.msg]);
        batch := batch + [input.msg];
        if |batch| >= BATCH_CAPACITY {
          Flush();
        }
      } else {
        Flush();
      }
    }

    /** Receives until the channel closes. */
    method Run(inputs: seq<Input>)
      requires Valid() && batch == [] && flushed == [] && books == []
      modifies this
      ensures Valid() && (Closed in inputs ==> batch == [])
      ensures books + BooksOf(batch) == BooksOf(Messages(inputs))
      ensures flushed + TradesOf(batch) == TradesOf(Messages(inputs))
    {
      hide TradesOf, BooksOf, FirstPerKey, Kept;
      var i := 0;
      SplitLength([]);
      assert inputs[0..] == inputs;
      while i < |inputs|
        invariant 0 <= i <= |inputs| && Valid()
        invariant Closed !in inputs[..i]
        invariant books + BooksOf(batch) + BooksOf(Messages(inputs[i..])) == BooksOf(Messages(inputs))
        invariant flushed + TradesOf(batch) + TradesOf(Messages(inputs[i..])) == TradesOf(Messages(inputs))
      {
        assert inputs[i..][0] == inputs[i] && inputs[i..][1..] == inputs[i + 1..];
        SplitConcat(if inputs[i].Received? then [inputs[i].msg] else [], Messages(inputs[i + 1..]));
        Take(inputs[i]);
        if inputs[i].Closed? {
          return;
        }
        i := i + 1;
      }
    }
  }

  // ----- The task and its sender, step by step -----

  /** The rows being written: the trades are committed before the order-book rows. */
  datatype Phase = Idle | Writing(rows: seq<WriteMsg>, tradesDone: bool)

  datatype Pipe = Pipe(
    sent: seq<WriteMsg>, channel: seq<WriteMsg>, batch: seq<WriteMsg>, phase: Phase,
    flushedTrades: seq<TradeRow>, trades: seq<TradeRow>, books: seq<Row>)

  datatype Action = Send(msg: WriteMsg) | Receive | FlushTimer | CommitTrades | CommitBooks

  const EMPTY_PIPE := Pipe([], [], [], Idle, [], [], [])

  predicate Enabled(p: Pipe, a: Action) {
    match a
    case Send(_) => |p.channel| < CHANNEL_CAPACITY
    case Receive => p.phase.Idle? && p.channel != []
    case FlushTimer => p.phase.Idle? && p.batch != []
    case CommitTrades => p.phase.Writing? && !p.phase.tradesDone
    case CommitBooks => p.phase.Writing? && p.phase.tradesDone
  }

  function StartFlush(p: Pipe): Pipe {
    p.(batch := [], phase := Writing(p.batch, false))
  }

  function Next(p: Pipe, a: Action): Pipe
    requires Enabled(p, a)
  {
    match a
    case Send(msg) => p.(sent := p.sent + [msg], channel := p.channel + [msg])
    case Receive =>
      var q := p.(channel := p.channel[1..], batch := p.batch + [p.channel[0]]);
      if |q.batch| >= BATCH_CAPACITY then StartFlush(q) else q
    case FlushTimer => StartFlush(p)
    case CommitTrades =>
      var rows := TradesOf(p.phase.rows);
      p.(phase := Writing(p.phase.rows, true), flushedTrades := p.flushedTrades + rows,
         trades := InsertTrades(p.trades, rows))
    case CommitBooks => p.(phase := Idle, books := p.books + BooksOf(p.phase.rows))
  }

  /** The steps are those of the task: a message that is received waits in the batch or completes it,
      and a flush takes the whole batch. */
  lemma StepsFollowTask(p: Pipe)
    requires p.phase.Idle? && |p.batch| < 128
    ensures p.channel != [] ==>
              var q, msg := Next(p, Receive), p.channel[0];
              && q.batch == Kept(p.batch, Received(msg)) && q.channel == p.channel[1..]
              && q.phase == if q.batch == [] then Writing(p.batch + [msg], false) else Idle
    ensures p.batch != [] ==> Next(p, FlushTimer).batch == [] && Next(p, FlushTimer).phase == Writing(p.batch, false)
  {
  }

  /** A process that got this far and crashed: any sequence of enabled actions. */
  ghost predicate Reaches(actions: seq<Action>, p: Pipe) {
    if actions == [] then p == EMPTY_PIPE
    else
      var init, last := actions[..|actions| - 1], actions[|actions| - 1];
      exists q :: Reaches(init, q) && Enabled(q, last) && p == Next(q, last)
  }

  ghost function Waiting(p: Pipe): seq<WriteMsg> {
    p.batch + p.channel
  }

  ghost function UncommittedBooks(p: Pipe): seq<Row> {
    if p.phase.Writing? then BooksOf(p.phase.rows) else []
  }

  ghost function UncommittedTrades(p: Pipe): seq<TradeRow> {
    if p.phase.Writing? && !p.phase.tradesDone then TradesOf(p.phase.rows) else []
  }

  /** For each kind of row, what was sent is what was committed, then what is being written, then
      what waits in batch and channel, in that order. */
  ghost predicate Conserved(p: Pipe) {
    && p.books + UncommittedBooks(p) + BooksOf(Waiting(p)) == BooksOf(p.sent)
    && p.flushedTrades + UncommittedTrades(p) + TradesOf(Waiting(p)) == TradesOf(p.sent)
    && p.trades == FirstPerKey(p.flushedTrades)
  }

  ghost predicate Bounded(p: Pipe) {
    && |p.batch| < BATCH_CAPACITY && |p.channel| <= CHANNEL_CAPACITY
    && (p.phase.Writing? ==> p.batch == [] && 0 < |p.phase.rows| <= BATCH_CAPACITY)
  }

  lemma ConservedStep(p: Pipe, a: Action)
    requires Conserved(p) && Bounded(p) && Enabled(p, a)
    ensures Conserved(Next(p, a))
  {
    hide TradesOf, BooksOf, FirstPerKey, InsertTrades;
    var q := Next(p, a);
    match a
    case Send(msg) =>
      SplitConcat(p.sent, [msg]);
      SplitConcat(Waiting(p), [msg]);
      assert Waiting(q) == Waiting(p) + [msg];
    case Receive =>
      ReceiveConserves(p);
    case FlushTimer =>
      FlushConserves(p);
    case CommitTrades =>
      InsertContinues(p.flushedTrades, TradesOf(p.phase.rows));
    case CommitBooks =>
  }

  lemma FlushConserves(p: Pipe)
    requires Conserved(p) && p.phase.Idle?
    ensures Conserved(StartFlush(p))
  {
    hide TradesOf, BooksOf, FirstPerKey;
    SplitConcat(p.batch, p.channel);
    assert [] + p.channel == p.channel;
  }

  lemma ReceiveConserves(p: Pipe)
    requires Conserved(p) && Enabled(p, Receive)
    ensures Conserved(Next(p, Receive))
  {
    hide TradesOf, BooksOf, FirstPerKey;
    var q := p.(channel := p.channel[1..], batch := p.batch + [p.channel[0]]);
    assert Waiting(q) == Waiting(p);
    FlushConserves(q);
  }

  /** Conservation and the bounds hold in every reachable state. */
  lemma {:induction false} PipelineConserves(actions: seq<Action>, p: Pipe)
    requires Reaches(actions, p)
    ensures Conserved(p) && Bounded(p)
    decreases |actions|
  {
    hide Conserved, TradesOf, BooksOf;
    if actions == [] {
      assert Conserved(EMPTY_PIPE) by { EmptyConserved(); }
    } else {
      var a := actions[|actions| - 1];
      var q :| Reaches(actions[..|actions| - 1], q) && Enabled(q, a) && p == Next(q, a);
      PipelineConserves(actions[..|actions| - 1], q);
      ConservedStep(q, a);
    }
  }

  lemma EmptyConserved()
    ensures Conserved(EMPTY_PIPE)
  {
  }

  /** A crash at any point leaves a prefix of the order-book rows that were sent, and loses at most
      a batch and a full channel. */
  lemma CrashKeepsPrefix(actions: seq<Action>, p: Pipe)
    requires Reaches(actions, p)
    ensures p.books <= BooksOf(p.sent)
    ensures |BooksOf(p.sent)| - |p.books| <= 128 + 1024
    ensures p.flushedTrades <= TradesOf(p.sent) && p.trades == FirstPerKey(p.flushedTrades)
  {
    hide TradesOf, BooksOf, FirstPerKey, Reaches;
    PipelineConserves(actions, p);
    SplitLength(Waiting(p));
    if p.phase.Writing? {
      SplitLength(p.phase.rows);
    }
    var lost := UncommittedBooks(p) + BooksOf(Waiting(p));
    assert BooksOf(p.sent) == p.books + lost;
    var unflushed := UncommittedTrades(p) + TradesOf(Waiting(p));
    assert TradesOf(p.sent) == p.flushedTrades + unflushed;
  }

  // ----- The bound is met -----

  function Copies(row: Row, n: nat): (r: seq<WriteMsg>)
    ensures |r| == n && forall i :: 0 <= i < n ==> r[i] == Orderbook(row)
  {
    seq(n, i => Orderbook(row))
  }

  lemma ReachesOn(actions: seq<Action>, p: Pipe, a: Action)
    requires Reaches(actions, p) && Enabled(p, a)
    ensures Reaches(actions + [a], Next(p, a))
  {
    assert (actions + [a])[..|actions|] == actions;
  }

  lemma {:induction false} FillBatch(row: Row, n: nat) returns (actions: seq<Action>)
    requires n < 128
    ensures Reaches(actions, Pipe(Copies(row, n), [], Copies(row, n), Idle, [], [], []))
  {
    hide Reaches;
    if n == 0 {
      actions := [];
      assert Copies(row, 0) == [] && Reaches([], EMPTY_PIPE) by { ReachesNothing(); }
    } else {
      actions := FillBatch(row, n - 1);
      var p := Pipe(Copies(row, n - 1), [], Copies(row, n - 1), Idle, [], [], []);
      ReachesOn(actions, p, Send(Orderbook(row)));
      var q := Next(p, Send(Orderbook(row)));
      ReachesOn(actions + [Send(Orderbook(row))], q, Receive);
      assert Copies(row, n) == Copies(row, n - 1) + [Orderbook(row)] && q.channel[1..] == [];
      actions := actions + [Send(Orderbook(row))] + [Receive];
    }
  }

  lemma ReachesNothing()
    ensures Reaches([], EMPTY_PIPE)
  {
  }

  lemma {:induction false} FillChannel(row: Row, n: nat) returns (actions: seq<Action>)
    requires n <= 1024
    ensures Reaches(actions, Pipe(Copies(row, 128 + n), Copies(row, n), [],
                                  Writing(Copies(row, 128), false), [], [], []))
  {
    hide Reaches;
    var all := Copies(row, 128);
    if n == 0 {
      actions := FillBatch(row, 127);
      var p := Pipe(Copies(row, 127), [], Copies(row, 127), Idle, [], [], []);
      ReachesOn(actions, p, Send(Orderbook(row)));
      var q := Next(p, Send(Orderbook(row)));
      ReachesOn(actions + [Send(Orderbook(row))], q, Receive);
      assert all == Copies(row, 127) + [Orderbook(row)] && q.channel[1..] == [] == Copies(row, 0);
      actions := actions + [Send(Orderbook(row))] + [Receive];
    } else {
      actions := FillChannel(row, n - 1);
      var p := Pipe(Copies(row, 128 + n - 1), Copies(row, n - 1), [], Writing(all, false), [], [], []);
      ReachesOn(actions, p, Send(Orderbook(row)));
      assert Copies(row, n) == Copies(row, n - 1) + [Orderbook(row)];
      assert Copies(row, 128 + n) == Copies(row, 128 + n - 1) + [Orderbook(row)];
      actions := actions + [Send(Orderbook(row))];
    }
  }

  /** A crash can lose that many: a batch being written and a full channel. */
  lemma CrashCanLoseAll(row: Row) returns (actions: seq<Action>, p: Pipe)
    ensures Reaches(actions, p) && p.books == [] && |BooksOf(p.sent)| == 128 + 1024
  {
    hide Reaches, TradesOf, BooksOf;
    actions := FillChannel(row, 1024);
    p := Pipe(Copies(row, 128 + 1024), Copies(row, 1024), [], Writing(Copies(row, 128), false), [], [], []);
    CopiesAreBooks(row, 128 + 1024);
  }

  lemma {:induction false} CopiesAreBooks(row: Row, n: nat)
    ensures |BooksOf(Copies(row, n))| == n
  {
    if n > 0 {
      CopiesAreBooks(row, n - 1);
      assert Copies(row, n)[..n - 1] == Copies(row, n - 1);
    }
  }

  // ----- Trades first -----

  /** The first `k` messages sent are committed, the trades of those being written perhaps too, and
      the rest waits in its order. */
  ghost predicate CommittedUpTo(p: Pipe, k: nat) {
    && k <= |p.sent| && p.books == BooksOf(p.sent[..k])
    && match p.phase
       case Idle => p.sent == p.sent[..k] + Waiting(p) && p.flushedTrades == TradesOf(p.sent[..k])
       case Writing(rows, done) =>
         && p.sent == p.sent[..k] + rows + Waiting(p)
         && p.flushedTrades == TradesOf(p.sent[..k]) + if done then TradesOf(rows) else []
  }

  /** No order-book row is stored before the trades that were sent before it: whatever the crash
      point, the order-book table is that of some first messages whose trades are all stored too. */
  lemma {:induction false} TradesAreStoredFirst(actions: seq<Action>, p: Pipe) returns (k: nat)
    requires Reaches(actions, p)
    ensures k <= |p.sent| && p.books == BooksOf(p.sent[..k]) && TradesOf(p.sent[..k]) <= p.flushedTrades
    ensures CommittedUpTo(p, k)
    decreases |actions|
  {
    hide TradesOf, BooksOf;
    if actions == [] {
      k := 0;
      assert BooksOf([]) == [] && TradesOf([]) == [] by { SplitLength([]); }
    } else {
      var a := actions[|actions| - 1];
      var q :| Reaches(actions[..|actions| - 1], q) && Enabled(q, a) && p == Next(q, a);
      k := TradesAreStoredFirst(actions[..|actions| - 1], q);
      PipelineConserves(actions[..|actions| - 1], q);
      k := CommitStep(q, a, k);
    }
  }

  lemma CommitStep(p: Pipe, a: Action, k: nat) returns (n: nat)
    requires CommittedUpTo(p, k) && Bounded(p) && Enabled(p, a)
    ensures CommittedUpTo(Next(p, a), n)
  {
    hide TradesOf, BooksOf;
    n := k;
    var q := Next(p, a);
    match a
    case Send(_) =>
      assert q.sent[..k] == p.sent[..k];
    case Receive =>
      assert Waiting(p) == p.batch + [p.channel[0]] + p.channel[1..];
      assert TradesOf(p.sent[..k]) + [] == TradesOf(p.sent[..k]);
    case FlushTimer =>
      assert TradesOf(p.sent[..k]) + [] == TradesOf(p.sent[..k]);
    case CommitTrades =>
      assert TradesOf(p.sent[..k]) + [] == TradesOf(p.sent[..k]);
    case CommitBooks =>
      n := k + |p.phase.rows|;
      SplitConcat(p.sent[..k], p.phase.rows);
      assert p.sent[..n] == p.sent[..k] + p.phase.rows;
  }
}
