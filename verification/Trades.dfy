/** The trades table: insert-or-ignore on (time, symbol, trade id). */
module Trades {

  datatype TradeRow = TradeRow(
    time: int, symbol: int, lighterTradeId: int, price: real, size: real, isMakerAsk: bool, tradeType: string)

  function Key(r: TradeRow): (int, int, int) {
    (r.time, r.symbol, r.lighterTradeId)
  }

  predicate HasKey(table: seq<TradeRow>, key: (int, int, int)) {
    exists i :: 0 <= i < |table| && Key(table[i]) == key
  }

  /** One insert statement: rows whose key is taken, also by an earlier row of the statement, are
      skipped. */
  function InsertTrades(table: seq<TradeRow>, rows: seq<TradeRow>): seq<TradeRow>
    decreases |rows|
  {
    if rows == [] then table
    else InsertTrades(if HasKey(table, Key(rows[0])) then table else table + [rows[0]], rows[1..])
  }

  /** The first row of each key, in order. */
  ghost function FirstPerKey(rows: seq<TradeRow>): seq<TradeRow> {
    if rows == [] then []
    else
      var init, last := rows[..|rows| - 1], rows[|rows| - 1];
      FirstPerKey(init) + if HasKey(init, Key(last)) then [] else [last]
  }

  lemma {:induction false} FirstPerKeyKeys(rows: seq<TradeRow>, key: (int, int, int))
    ensures HasKey(FirstPerKey(rows), key) <==> HasKey(rows, key)
  {
    if rows != [] {
      var init, last := rows[..|rows| - 1], rows[|rows| - 1];
      FirstPerKeyKeys(init, key);
      FirstPerKeyKeys(init, Key(last));
      HasKeyStep(init, last, key);
      HasKeyStep(FirstPerKey(init), last, key);
      assert rows == init + [last];
      assert FirstPerKey(init) + [] == FirstPerKey(init);
    }
  }

  lemma HasKeyStep(table: seq<TradeRow>, r: TradeRow, key: (int, int, int))
    ensures HasKey(table + [r], key) <==> HasKey(table, key) || Key(r) == key
  {
    var t := table + [r];
    if HasKey(table, key) {
      var i :| 0 <= i < |table| && Key(table[i]) == key;
      assert Key(t[i]) == key;
    }
    if Key(r) == key {
      assert Key(t[|table|]) == key;
    }
  }

  lemma FirstPerKeyStep(rows: seq<TradeRow>, r: TradeRow)
    ensures FirstPerKey(rows + [r]) == FirstPerKey(rows) + if HasKey(rows, Key(r)) then [] else [r]
  {
    assert (rows + [r])[..|rows|] == rows;
  }

  /** Inserting more rows into the table of `a` gives the table of `a + b`: the result does not
      depend on how the rows were batched. */
  lemma {:induction false} InsertContinues(a: seq<TradeRow>, b: seq<TradeRow>)
    ensures InsertTrades(FirstPerKey(a), b) == FirstPerKey(a + b)
    decreases |b|
  {
    hide FirstPerKey, HasKey;
    if b == [] {
      assert a + b == a;
    } else {
      FirstPerKeyStep(a, b[0]);
      FirstPerKeyKeys(a, Key(b[0]));
      assert FirstPerKey(a) + [] == FirstPerKey(a);
      InsertContinues(a + [b[0]], b[1..]);
      assert (a + [b[0]]) + b[1..] == a + b;
    }
  }

  /** Any schedule of flushes. */
  ghost function InsertBatches(batches: seq<seq<TradeRow>>): seq<TradeRow> {
    if batches == [] then [] else InsertTrades(InsertBatches(batches[..|batches| - 1]), batches[|batches| - 1])
  }

  ghost function Joined(batches: seq<seq<TradeRow>>): seq<TradeRow> {
    if batches == [] then [] else Joined(batches[..|batches| - 1]) + batches[|batches| - 1]
  }

  lemma {:induction false} BatchingDoesNotMatter(batches: seq<seq<TradeRow>>)
    ensures InsertBatches(batches) == FirstPerKey(Joined(batches))
  {
    if batches != [] {
      var init, last := batches[..|batches| - 1], batches[|batches| - 1];
      BatchingDoesNotMatter(init);
      InsertContinues(Joined(init), last);
    }
  }

  ghost predicate IsFirst(rows: seq<TradeRow>, i: nat)
    requires i < |rows|
  {
    !HasKey(rows[..i], Key(rows[i]))
  }

  /** No row of `rows` agrees with `r` in time, symbol and trade id. */
  ghost predicate NoneLike(rows: seq<TradeRow>, r: TradeRow) {
    forall j :: 0 <= j < |rows| ==>
      !(rows[j].time == r.time && rows[j].symbol == r.symbol && rows[j].lighterTradeId == r.lighterTradeId)
  }

  /** A row is in the table exactly if it stands somewhere in the input with no row before it that
      agrees in time, symbol and trade id, and no two rows of the table agree in all three. */
  lemma TableHoldsFirstRows(rows: seq<TradeRow>)
    ensures forall r :: r in FirstPerKey(rows) <==>
              exists i :: 0 <= i < |rows| && rows[i] == r && NoneLike(rows[..i], r)
    ensures var t := FirstPerKey(rows);
            forall i, j :: 0 <= i < j < |t| ==>
              !(t[i].time == t[j].time && t[i].symbol == t[j].symbol && t[i].lighterTradeId == t[j].lighterTradeId)
  {
    hide FirstPerKey, HasKey;
    KeysAreFirst(rows);
    forall i | 0 <= i < |rows| ensures IsFirst(rows, i) <==> NoneLike(rows[..i], rows[i]) {
      FirstMeansNew(rows, i);
    }
    forall r | r in FirstPerKey(rows)
      ensures exists i :: 0 <= i < |rows| && rows[i] == r && NoneLike(rows[..i], r)
    {
      var i :| 0 <= i < |rows| && rows[i] == r && IsFirst(rows, i);
    }
  }

  lemma FirstMeansNew(rows: seq<TradeRow>, i: nat)
    requires i < |rows|
    ensures IsFirst(rows, i) <==> NoneLike(rows[..i], rows[i])
  {
    var before, r := rows[..i], rows[i];
    if j :| 0 <= j < i && before[j].time == r.time && before[j].symbol == r.symbol
            && before[j].lighterTradeId == r.lighterTradeId {
      assert Key(before[j]) == Key(r);
    }
  }

  lemma {:induction false} KeysAreFirst(rows: seq<TradeRow>)
    ensures forall r :: r in FirstPerKey(rows) <==> exists i :: 0 <= i < |rows| && rows[i] == r && IsFirst(rows, i)
    ensures forall i, j :: 0 <= i < j < |FirstPerKey(rows)| ==> Key(FirstPerKey(rows)[i]) != Key(FirstPerKey(rows)[j])
  {
    if rows != [] {
      var init, last := rows[..|rows| - 1], rows[|rows| - 1];
      KeysAreFirst(init);
      var table := FirstPerKey(rows);
      forall r ensures r in table <==> exists i :: 0 <= i < |rows| && rows[i] == r && IsFirst(rows, i) {
        FirstRowsStep(init, last, r);
        assert rows == init + [last];
      }
      FirstPerKeyKeys(init, Key(last));
    }
  }

  lemma FirstRowsStep(init: seq<TradeRow>, last: TradeRow, r: TradeRow)
    ensures var rows := init + [last];
            (exists i :: 0 <= i < |rows| && rows[i] == r && IsFirst(rows, i)) <==>
            (exists i :: 0 <= i < |init| && init[i] == r && IsFirst(init, i)) || (r == last && !HasKey(init, Key(last)))
  {
    var rows := init + [last];
    assert forall i :: 0 <= i <= |init| ==> rows[..i] == init[..i];
    assert rows[..|init|] == init;
    if i :| 0 <= i < |init| && init[i] == r && IsFirst(init, i) {
      assert rows[i] == r && IsFirst(rows, i);
    }
    if r == last && !HasKey(init, Key(last)) {
      assert rows[|init|] == r && IsFirst(rows, |init|);
    }
    if i :| 0 <= i < |rows| && rows[i] == r && IsFirst(rows, i) {
      if i < |init| {
        assert init[i] == r && IsFirst(init, i);
      }
    }
  }
}
