/** The in-memory order book: two ordered maps from decimal price to level, updated in place. */
module Book {
  import opened Options
  import opened Decimals
  import opened Levels

  /** An entry of an ordered map. Replacing a level keeps the key that was inserted first, so a key
      may be another spelling of its level's price. */
  datatype Entry = Entry(key: Decimal, level: PriceLevel)

  ghost function KeyPrice(e: Entry): Price {
    Price(Value(e.key))
  }

  /** Strictly ascending keys, each equal by value to the price of its level, and no zero sizes. */
  ghost predicate Ordered(es: seq<Entry>) {
    && (forall i :: 0 <= i < |es| ==>
          Parses(es[i].level) && KeyPrice(es[i]) == PriceOf(es[i].level) && !Removes(es[i].level))
    && (forall i, j :: 0 <= i < j < |es| ==> KeyPrice(es[i]).value < KeyPrice(es[j]).value)
  }

  ghost function DepthOf(es: seq<Entry>): Depth {
    if es == [] then map[] else DepthOf(es[1..])[KeyPrice(es[0]) := es[0].level]
  }

  lemma {:induction false} DepthOfEntries(es: seq<Entry>)
    requires Ordered(es)
    ensures forall i :: 0 <= i < |es| ==>
              KeyPrice(es[i]) in DepthOf(es) && DepthOf(es)[KeyPrice(es[i])] == es[i].level
    ensures forall p :: p in DepthOf(es) ==> exists i :: 0 <= i < |es| && KeyPrice(es[i]) == p
  {
    hide ParseLevel, Value;
    if es != [] {
      var rest := es[1..];
      assert forall i :: 0 <= i < |rest| ==> rest[i] == es[i + 1];
      DepthOfEntries(rest);
      forall i | 0 <= i < |es|
        ensures KeyPrice(es[i]) in DepthOf(es) && DepthOf(es)[KeyPrice(es[i])] == es[i].level
      {
        if i > 0 {
          assert rest[i - 1] == es[i] && KeyPrice(es[i]) != KeyPrice(es[0]);
        }
      }
      forall p | p in DepthOf(es) ensures exists i :: 0 <= i < |es| && KeyPrice(es[i]) == p {
        if p == KeyPrice(es[0]) {
        } else {
          var i :| 0 <= i < |rest| && KeyPrice(rest[i]) == p;
          assert es[i + 1] == rest[i];
        }
      }
    }
  }

  function LevelsOf(es: seq<Entry>): (ls: seq<PriceLevel>)
    ensures |ls| == |es|
    ensures forall i :: 0 <= i < |es| ==> ls[i] == es[i].level
  {
    seq(|es|, i requires 0 <= i < |es| => es[i].level)
  }

  /** Reading the entries in order lists the side in ascending price order. */
  lemma EntriesListAscending(es: seq<Entry>)
    requires Ordered(es)
    ensures LevelsOf(es) == Ascending(DepthOf(es))
  {
    hide ParseLevel, Value, SortedPrices;
    var m := DepthOf(es);
    var prices := seq(|es|, i requires 0 <= i < |es| => KeyPrice(es[i]));
    DepthOfEntries(es);
    assert forall i :: 0 <= i < |es| ==> prices[i] == KeyPrice(es[i]);
    forall p ensures p in prices <==> p in m.Keys {
      if p in m {
        var i :| 0 <= i < |es| && KeyPrice(es[i]) == p;
        assert prices[i] == p;
      }
    }
    AscendingListsAgree(prices, SortedPrices(m.Keys));
  }

  /** The number of entries below `key`. */
  function Position(es: seq<Entry>, key: Decimal): (n: nat)
    requires Ordered(es)
    ensures n <= |es|
    ensures forall i :: 0 <= i < n ==> KeyPrice(es[i]).value < Value(key)
    ensures forall i :: n <= i < |es| ==> KeyPrice(es[i]).value >= Value(key)
  {
    if es == [] then 0
    else
      CompareIsValueOrder(es[0].key, key);
      if Compare(es[0].key, key) >= 0 then 0
      else
        assert forall i :: 0 < i < |es| ==> es[i] == es[1..][i - 1];
        1 + Position(es[1..], key)
  }

  /** No other entry has the key of entry `n`. */
  ghost predicate SoleKey(es: seq<Entry>, n: nat)
    requires n < |es|
  {
    forall i :: 0 <= i < |es| && i != n ==> KeyPrice(es[i]) != KeyPrice(es[n])
  }

  lemma SoleKeyInTail(es: seq<Entry>, n: nat)
    requires 0 < n < |es| && SoleKey(es, n)
    ensures SoleKey(es[1..], n - 1) && KeyPrice(es[0]) != KeyPrice(es[n])
  {
    hide KeyPrice;
    assert forall i :: 0 <= i < |es| - 1 ==> es[1..][i] == es[i + 1];
  }

  lemma OrderedKeysAreSole(es: seq<Entry>, n: nat)
    requires Ordered(es) && n < |es|
    ensures SoleKey(es, n)
  {
    hide KeyPrice, Parses, PriceOf, Removes;
  }

  /** Replacing, inserting and removing an entry replaces, inserts and removes its level. */
  lemma {:induction false} ReplacedDepth(es: seq<Entry>, n: nat, level: PriceLevel)
    requires n < |es| && SoleKey(es, n)
    ensures DepthOf(es[n := es[n].(level := level)]) == DepthOf(es)[KeyPrice(es[n]) := level]
  {
    hide SoleKey;
    var r := es[n := es[n].(level := level)];
    if n == 0 {
      assert r[1..] == es[1..] && KeyPrice(r[0]) == KeyPrice(es[0]);
    } else {
      SoleKeyInTail(es, n);
      ReplacedDepth(es[1..], n - 1, level);
      assert r[1..] == es[1..][n - 1 := es[1..][n - 1].(level := level)];
    }
  }

  lemma {:induction false} InsertedDepth(es: seq<Entry>, n: nat, e: Entry)
    requires n <= |es|
    requires forall i :: 0 <= i < n ==> KeyPrice(es[i]) != KeyPrice(e)
    ensures DepthOf(es[..n] + [e] + es[n..]) == DepthOf(es)[KeyPrice(e) := e.level]
  {
    hide Parses, PriceOf, Removes, KeyPrice;
    var r := es[..n] + [e] + es[n..];
    if n == 0 {
      assert r[1..] == es;
    } else {
      var rest := es[1..];
      assert forall i :: 0 <= i < n - 1 ==> rest[i] == es[i + 1];
      InsertedDepth(rest, n - 1, e);
      assert r[1..] == rest[..n - 1] + [e] + rest[n - 1..];
    }
  }

  lemma {:induction false} RemovedDepth(es: seq<Entry>, n: nat)
    requires n < |es| && SoleKey(es, n)
    ensures DepthOf(es[..n] + es[n + 1..]) == DepthOf(es) - {KeyPrice(es[n])}
  {
    hide KeyPrice;
    var r, rest := es[..n] + es[n + 1..], es[1..];
    if n == 0 {
      assert r == rest;
      assert forall i :: 0 <= i < |rest| ==> rest[i] == es[i + 1];
      AbsentKey(rest, KeyPrice(es[0]));
    } else {
      SoleKeyInTail(es, n);
      RemovedDepth(rest, n - 1);
      assert r[1..] == rest[..n - 1] + rest[n..] && r[0] == es[0];
    }
  }

  lemma {:induction false} AbsentKey(es: seq<Entry>, p: Price)
    requires forall i :: 0 <= i < |es| ==> KeyPrice(es[i]) != p
    ensures p !in DepthOf(es)
  {
    hide KeyPrice;
    if es != [] {
      assert forall i :: 0 <= i < |es| - 1 ==> es[1..][i] == es[i + 1];
      AbsentKey(es[1..], p);
    }
  }

  lemma InsertedIsOrdered(es: seq<Entry>, n: nat, e: Entry)
    requires Ordered(es) && n <= |es|
    requires Parses(e.level) && KeyPrice(e) == PriceOf(e.level) && !Removes(e.level)
    requires forall i :: 0 <= i < n ==> KeyPrice(es[i]).value < KeyPrice(e).value
    requires forall i :: n <= i < |es| ==> KeyPrice(e).value < KeyPrice(es[i]).value
    ensures Ordered(es[..n] + [e] + es[n..])
  {
    hide Parses, PriceOf, Removes, KeyPrice;
    var r := es[..n] + [e] + es[n..];
    assert forall i :: 0 <= i < n ==> r[i] == es[i];
    assert forall i :: n < i < |r| ==> r[i] == es[i - 1];
    forall i, j | 0 <= i < j < |r| ensures KeyPrice(r[i]).value < KeyPrice(r[j]).value {
      assert r[n] == e;
    }
  }

  lemma RemovedIsOrdered(es: seq<Entry>, n: nat)
    requires Ordered(es) && n < |es|
    ensures Ordered(es[..n] + es[n + 1..])
  {
    hide Parses, PriceOf, Removes, KeyPrice;
    var r := es[..n] + es[n + 1..];
    assert forall i :: 0 <= i < n ==> r[i] == es[i];
    assert forall i :: n <= i < |r| ==> r[i] == es[i + 1];
  }

  /** `BTreeMap<BigDecimal, PriceLevel>` as the book uses it. */
  class Side {
    var entries: seq<Entry>
    /** The market that owns this object; no two markets share a side. */
    ghost const owner: int

    ghost predicate Valid()
      reads this
    {
      Ordered(entries)
    }

    ghost function Contents(): Depth
      reads this
    {
      DepthOf(entries)
    }

    constructor (ghost owner: int)
      ensures Valid() && Contents() == map[] && this.owner == owner
    {
      entries := [];
      this.owner := owner;
    }

    method Insert(key: Decimal, level: PriceLevel)
      requires Valid()
      requires Parses(level) && Price(Value(key)) == PriceOf(level) && !Removes(level)
      modifies this
      ensures Valid() && Contents() == old(Contents())[PriceOf(level) := level]
    {
      hide ParseLevel, Value;
      var n := Position(entries, key);
      if n < |entries| {
        CompareIsValueOrder(entries[n].key, key);
      }
      if n < |entries| && Compare(entries[n].key, key) == 0 {
        OrderedKeysAreSole(entries, n);
        ReplacedDepth(entries, n, level);
        entries := entries[n := entries[n].(level := level)];
      } else {
        InsertedDepth(entries, n, Entry(key, level));
        InsertedIsOrdered(entries, n, Entry(key, level));
        entries := entries[..n] + [Entry(key, level)] + entries[n..];
      }
    }

    method Remove(key: Decimal)
      requires Valid()
      modifies this
      ensures Valid() && Contents() == old(Contents()) - {Price(Value(key))}
    {
      hide ParseLevel, Value;
      var n := Position(entries, key);
      if n < |entries| {
        CompareIsValueOrder(entries[n].key, key);
      }
      if n < |entries| && Compare(entries[n].key, key) == 0 {
        OrderedKeysAreSole(entries, n);
        RemovedDepth(entries, n);
        RemovedIsOrdered(entries, n);
        entries := entries[..n] + entries[n + 1..];
      } else {
        DepthOfEntries(entries);
        assert Price(Value(key)) !in DepthOf(entries);
      }
    }

    /** The values of the map, in key order. */
    method Values() returns (levels: seq<PriceLevel>)
      requires Valid()
      ensures levels == Ascending(Contents())
    {
      EntriesListAscending(entries);
      levels := LevelsOf(entries);
    }
  }

  /** Builds one side from a snapshot; an unreadable level or a zero size fails. */
  method SideFromSnapshot(levels: seq<PriceLevel>, ghost owner: int) returns (side: Option<Side>)
    ensures side.Some? <==> SnapshotSide(levels).Some?
    ensures side.Some? ==> fresh(side.value) && side.value.owner == owner
    ensures side.Some? ==> side.value.Valid() && Some(side.value.Contents()) == SnapshotSide(levels)
  {
    hide ParseLevel, Value;
    var built := new Side(owner);
    var i := 0;
    while i < |levels|
      invariant 0 <= i <= |levels|
      invariant built.Valid()
      invariant InsertAll(built.Contents(), levels[i..]) == SnapshotSide(levels)
    {
      assert levels[i..][0] == levels[i] && levels[i..][1..] == levels[i + 1..];
      var parsed := ParseLevel(levels[i]);
      if parsed.None? || IsZero(parsed.value.1) {
        return None;
      }
      built.Insert(parsed.value.0, levels[i]);
      i := i + 1;
    }
    return Some(built);
  }

  /** Applies the levels of a delta in order and stops at the first unreadable one. */
  method ApplyLevels(side: Side, levels: seq<PriceLevel>) returns (ok: bool)
    requires side.Valid()
    modifies side
    ensures side.Valid() && SideResult(side.Contents(), ok) == ApplySide(old(side.Contents()), levels)
  {
    hide ParseLevel, Value;
    var i := 0;
    while i < |levels|
      invariant 0 <= i <= |levels|
      invariant side.Valid()
      invariant ApplySide(side.Contents(), levels[i..]) == ApplySide(old(side.Contents()), levels)
    {
      assert levels[i..][0] == levels[i] && levels[i..][1..] == levels[i + 1..];
      var parsed := ParseLevel(levels[i]);
      if parsed.None? {
        return false;
      }
      var (price, size) := parsed.value;
      if IsZero(size) {
        side.Remove(price);
      } else {
        side.Insert(price, levels[i]);
      }
      i := i + 1;
    }
    return true;
  }

  /** The contents of a book, and of a book together with the outcome of a delta. */
  datatype BookView = BookView(bids: Depth, asks: Depth)
  datatype BookResult = BookResult(book: BookView, ok: bool)

  ghost predicate GoodBook(b: BookView) {
    WellFormed(b.bids) && WellFormed(b.asks)
  }

  ghost function SnapshotBook(bids: seq<PriceLevel>, asks: seq<PriceLevel>): Option<BookView> {
    match (SnapshotSide(bids), SnapshotSide(asks))
    case (Some(b), Some(a)) => Some(BookView(b, a))
    case _ => None
  }

  /** Bids first; an unreadable ask fails after the bids have changed. */
  ghost function DeltaBook(b: BookView, bids: seq<PriceLevel>, asks: seq<PriceLevel>): BookResult {
    var left := ApplySide(b.bids, bids);
    if !left.ok then BookResult(b.(bids := left.depth), false)
    else
      var right := ApplySide(b.asks, asks);
      BookResult(BookView(left.depth, right.depth), right.ok)
  }

  /** A snapshot makes a book exactly when every level of both sides can be read and has a size; the
      bids and the asks of the book are the last mentions of their own lists. */
  lemma SnapshotBookIs(bids: seq<PriceLevel>, asks: seq<PriceLevel>)
    ensures SnapshotBook(bids, asks).Some? <==> AllSized(bids) && AllSized(asks)
    ensures SnapshotBook(bids, asks).Some? ==>
              var b := SnapshotBook(bids, asks).value;
              && (forall p :: DepthAt(b.bids, p) == LastLevel(None, bids, p))
              && (forall p :: DepthAt(b.asks, p) == LastLevel(None, asks, p))
  {
    hide SnapshotSide, AllSized, LastLevel;
    SnapshotIsLastMention(bids);
    SnapshotIsLastMention(asks);
  }

  /** A delta succeeds exactly when every level of both sides can be read. Until the first unreadable
      level the last mention of a price counts, bids before asks. */
  lemma DeltaBookIs(b: BookView, bids: seq<PriceLevel>, asks: seq<PriceLevel>)
    ensures var r := DeltaBook(b, bids, asks);
            && (r.ok <==> AllParse(bids) && AllParse(asks))
            && (forall p :: DepthAt(r.book.bids, p) == AfterDelta(DepthAt(b.bids, p), bids[..ReadablePrefix(bids)], p))
            && (forall p :: DepthAt(r.book.asks, p) ==
                  if AllParse(bids) then AfterDelta(DepthAt(b.asks, p), asks[..ReadablePrefix(asks)], p)
                  else DepthAt(b.asks, p))
            && (AllParse(bids) ==> bids[..ReadablePrefix(bids)] == bids)
            && (AllParse(asks) ==> asks[..ReadablePrefix(asks)] == asks)
  {
    hide ApplySide, AfterDelta, Parses;
    ApplySideIsLastWriteWins(b.bids, bids);
    ApplySideIsLastWriteWins(b.asks, asks);
    ReadablePrefixIs(bids);
    ReadablePrefixIs(asks);
  }

  lemma BooksStayGood(b: BookView, bids: seq<PriceLevel>, asks: seq<PriceLevel>)
    ensures GoodBook(b) ==> GoodBook(DeltaBook(b, bids, asks).book)
    ensures SnapshotBook(bids, asks).Some? ==> GoodBook(SnapshotBook(bids, asks).value)
  {
    hide ParseLevel, Value;
    if GoodBook(b) {
      ApplySideKeepsWellFormed(b.bids, bids);
      ApplySideKeepsWellFormed(b.asks, asks);
    }
    if SnapshotBook(bids, asks).Some? {
      InsertAllKeepsWellFormed(map[], bids);
      InsertAllKeepsWellFormed(map[], asks);
    }
  }

  /** Writing a book out, bids from the top and asks from the bottom, and reading it back as a
      snapshot gives the same book. */
  lemma SnapshotRoundTrip(b: BookView)
    requires GoodBook(b)
    ensures SnapshotBook(Descending(b.bids), Ascending(b.asks)) == Some(b)
  {
    hide ParseLevel, Value;
    ListingsAreComplete(b.bids);
    ListingsAreComplete(b.asks);
    ListingRebuilds(b.bids, Descending(b.bids));
    ListingRebuilds(b.asks, Ascending(b.asks));
  }

  /** A market's order book. The two sides are owned by the book and never exchanged. */
  class OrderBook {
    const bids: Side
    const asks: Side

    ghost predicate Valid()
      reads bids, asks
    {
      bids != asks && bids.Valid() && asks.Valid()
    }

    ghost function View(): BookView
      reads bids, asks
    {
      BookView(bids.Contents(), asks.Contents())
    }

    constructor (bids: Side, asks: Side)
      ensures this.bids == bids && this.asks == asks
    {
      this.bids, this.asks := bids, asks;
    }

    static method FromSnapshot(bidLevels: seq<PriceLevel>, askLevels: seq<PriceLevel>, ghost owner: int)
      returns (book: Option<OrderBook>)
      ensures book.Some? <==> SnapshotBook(bidLevels, askLevels).Some?
      ensures book.Some? ==>
                && fresh(book.value) && fresh(book.value.bids) && fresh(book.value.asks)
                && book.value.bids.owner == book.value.asks.owner == owner
                && book.value.Valid() && Some(book.value.View()) == SnapshotBook(bidLevels, askLevels)
    {
      var b := SideFromSnapshot(bidLevels, owner);
      if b.None? {
        return None;
      }
      var a := SideFromSnapshot(askLevels, owner);
      if a.None? {
        return None;
      }
      var made := new OrderBook(b.value, a.value);
      return Some(made);
    }

    method ApplyDelta(bidLevels: seq<PriceLevel>, askLevels: seq<PriceLevel>) returns (ok: bool)
      requires Valid()
      modifies bids, asks
      ensures Valid() && BookResult(View(), ok) == DeltaBook(old(View()), bidLevels, askLevels)
    {
      ok := ApplyLevels(bids, bidLevels);
      if ok {
        ok := ApplyLevels(asks, askLevels);
      }
    }

    /** The bid levels, best first. */
    method Bids() returns (levels: seq<PriceLevel>)
      requires Valid()
      ensures levels == Descending(View().bids)
    {
      var up := bids.Values();
      levels := Reversed(up);
    }

    /** The ask levels, best first. */
    method Asks() returns (levels: seq<PriceLevel>)
      requires Valid()
      ensures levels == Ascending(View().asks)
    {
      levels := asks.Values();
    }
  }
}
