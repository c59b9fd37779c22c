/** Reading the table in `(time, id)` order, as the export and the README do, with the optional
    hours cut. A row's id is its position in the durable log. */
module Export {
  import opened Options
  import opened Book
  import opened Ingest
  import opened Log
  import opened Reader

  ghost predicate Earlier(l: seq<Emit>, i: nat, j: nat)
    requires i < |l| && j < |l|
  {
    l[i].row.time < l[j].row.time || (l[i].row.time == l[j].row.time && i < j)
  }

  ghost predicate InCut(e: Emit, cutoff: Option<int>) {
    cutoff.Some? ==> cutoff.value <= e.row.time
  }

  /** `order` lists the ids of the selected rows, sorted by time and then id. */
  ghost predicate ExportOrder(l: seq<Emit>, cutoff: Option<int>, order: seq<nat>) {
    && Within(order, |l|) && Sorted(l, order)
    && (forall k :: 0 <= k < |order| ==> InCut(l[order[k]], cutoff))
    && (forall i :: 0 <= i < |l| && InCut(l[i], cutoff) ==> i in order)
  }

  /** Every row of the period is listed, exactly once, and no other; a row stands before another iff
      its time is earlier, or equal with a smaller id. */
  lemma ExportListsEachRowOnce(l: seq<Emit>, cutoff: Option<int>, order: seq<nat>)
    requires ExportOrder(l, cutoff, order)
    ensures forall i :: 0 <= i < |l| ==> (i in order <==> cutoff.None? || cutoff.value <= l[i].row.time)
    ensures forall a, b :: 0 <= a < |order| && 0 <= b < |order| ==>
              (a < b <==> l[order[a]].row.time < l[order[b]].row.time
                          || (l[order[a]].row.time == l[order[b]].row.time && order[a] < order[b]))
    ensures forall a, b :: 0 <= a < b < |order| ==> order[a] != order[b]
  {
    forall a, b | 0 <= a < b < |order|
      ensures l[order[a]].row.time < l[order[b]].row.time
              || (l[order[a]].row.time == l[order[b]].row.time && order[a] < order[b])
    {
      assert Earlier(l, order[a], order[b]);
    }
    forall i | 0 <= i < |l| && i in order ensures InCut(l[i], cutoff) {
      var k :| 0 <= k < |order| && order[k] == i;
    }
  }

  ghost predicate Within(ids: seq<nat>, n: nat) {
    forall k :: 0 <= k < |ids| ==> ids[k] < n
  }

  /** The exported ids of one symbol between two ids, in export order. */
  ghost function Part(l: seq<Emit>, order: seq<nat>, symbol: int, lo: nat, hi: nat): (r: seq<nat>)
    requires Within(order, |l|)
    ensures Within(r, |l|)
    ensures forall k :: 0 <= k < |r| ==> l[r[k]].row.symbol == symbol && lo <= r[k] < hi && r[k] in order
    ensures forall i :: i in order && l[i].row.symbol == symbol && lo <= i < hi ==> i in r
  {
    if order == [] then []
    else
      var init, i := order[..|order| - 1], order[|order| - 1];
      assert order == init + [i];
      Part(l, init, symbol, lo, hi) + if l[i].row.symbol == symbol && lo <= i < hi then [i] else []
  }

  ghost predicate Sorted(l: seq<Emit>, ids: seq<nat>)
    requires Within(ids, |l|)
  {
    forall a, b :: 0 <= a < b < |ids| ==> Earlier(l, ids[a], ids[b])
  }

  lemma {:induction false} PartStaysSorted(l: seq<Emit>, order: seq<nat>, symbol: int, lo: nat, hi: nat)
    requires Within(order, |l|) && Sorted(l, order)
    ensures Sorted(l, Part(l, order, symbol, lo, hi))
  {
    hide Earlier;
    if order != [] {
      var init, last := order[..|order| - 1], order[|order| - 1];
      PartStaysSorted(l, init, symbol, lo, hi);
      var r := Part(l, init, symbol, lo, hi);
      forall a | 0 <= a < |r| ensures Earlier(l, r[a], last) {
        var k :| 0 <= k < |init| && init[k] == r[a];
        assert Earlier(l, order[k], order[|order| - 1]);
      }
    }
  }

  // ----- When times rise along ids -----

  /** Along the ids `lo` to `hi` a symbol's times never fall. */
  ghost predicate TimesRise(l: seq<Emit>, symbol: int, lo: nat, hi: nat)
    requires hi <= |l|
  {
    forall i, j :: lo <= i < j < hi && l[i].row.symbol == symbol && l[j].row.symbol == symbol ==>
      l[i].row.time <= l[j].row.time
  }

  ghost predicate Ascends(ids: seq<nat>) {
    forall a, b :: 0 <= a < b < |ids| ==> ids[a] < ids[b]
  }

  lemma RisingTimesKeepIdOrder(l: seq<Emit>, cutoff: Option<int>, order: seq<nat>, symbol: int, lo: nat, hi: nat)
    requires ExportOrder(l, cutoff, order) && hi <= |l| && TimesRise(l, symbol, lo, hi)
    ensures Ascends(Part(l, order, symbol, lo, hi))
  {
    PartStaysSorted(l, order, symbol, lo, hi);
    var r := Part(l, order, symbol, lo, hi);
    forall a, b | 0 <= a < b < |r| ensures r[a] < r[b] {
      assert Earlier(l, r[a], r[b]);
    }
  }

  ghost function Fetch(l: seq<Emit>, ids: seq<nat>): (r: seq<Emit>)
    requires Within(ids, |l|)
    ensures |r| == |ids| && forall k :: 0 <= k < |ids| ==> r[k] == l[ids[k]]
  {
    seq(|ids|, k requires 0 <= k < |ids| => l[ids[k]])
  }

  /** The ids are of one symbol, and leave out only early rows of it. */
  ghost predicate LateRows(l: seq<Emit>, ids: seq<nat>, symbol: int) {
    && Within(ids, |l|) && Ascends(ids)
    && (forall k :: 0 <= k < |ids| ==> l[ids[k]].row.symbol == symbol)
    && (forall k, j :: 0 <= k < |ids| && ids[k] < j < |l| && l[j].row.symbol == symbol ==> j in ids)
  }

  ghost predicate AllRows(l: seq<Emit>, ids: seq<nat>, symbol: int) {
    forall i :: 0 <= i < |l| && l[i].row.symbol == symbol ==> i in ids
  }

  /** Ascending ids that leave out only early rows fetch a suffix of the symbol's rows. */
  lemma {:induction false} FetchedSuffix(l: seq<Emit>, ids: seq<nat>, symbol: int) returns (k: nat)
    requires LateRows(l, ids, symbol)
    ensures k <= |BySymbol(l, symbol)| && Fetch(l, ids) == BySymbol(l, symbol)[k..]
    ensures AllRows(l, ids, symbol) ==> k == 0
    decreases |l|
  {
    hide BySymbol, AllRows;
    if ids == [] {
      k := |BySymbol(l, symbol)|;
      if AllRows(l, ids, symbol) {
        NoRowsOf(l, symbol);
      }
    } else {
      assert l != [] by { SomeRow(l, ids, symbol); }
      var n := |l| - 1;
      var init := l[..n];
      assert l == init + [l[n]];
      BySymbolStep(init, l[n], symbol);
      if l[n].row.symbol == symbol {
        var shorter := ids[..|ids| - 1];
        WithoutLast(l, ids, symbol);
        k := FetchedSuffix(init, shorter, symbol);
        assert Fetch(l, ids) == Fetch(init, shorter) + [l[n]];
      } else {
        WithoutOther(l, ids, symbol);
        k := FetchedSuffix(init, ids, symbol);
        assert Fetch(l, ids) == Fetch(init, ids);
        assert BySymbol(init, symbol) + [] == BySymbol(init, symbol);
      }
    }
  }

  lemma SomeRow(l: seq<Emit>, ids: seq<nat>, symbol: int)
    requires LateRows(l, ids, symbol) && ids != []
    ensures l != []
  {
    assert ids[0] < |l|;
  }

  lemma LastId(l: seq<Emit>, ids: seq<nat>, symbol: int)
    requires LateRows(l, ids, symbol) && ids != [] && l != [] && l[|l| - 1].row.symbol == symbol
    ensures ids[|ids| - 1] == |l| - 1
  {
    assert ids[|ids| - 1] < |l| - 1 ==> |l| - 1 in ids;
  }

  lemma WithoutLast(l: seq<Emit>, ids: seq<nat>, symbol: int)
    requires LateRows(l, ids, symbol) && ids != [] && l != [] && l[|l| - 1].row.symbol == symbol
    ensures ids[|ids| - 1] == |l| - 1
    ensures LateRows(l[..|l| - 1], ids[..|ids| - 1], symbol)
    ensures AllRows(l, ids, symbol) ==> AllRows(l[..|l| - 1], ids[..|ids| - 1], symbol)
  {
    LastId(l, ids, symbol);
    var n := |l| - 1;
    var init, shorter := l[..n], ids[..|ids| - 1];
    assert ids == shorter + [n];
    forall j | j in ids && j != n ensures j in shorter {}
    forall k, j | 0 <= k < |shorter| && shorter[k] < j < |init| && init[j].row.symbol == symbol ensures j in shorter {
      assert ids[k] == shorter[k] && j in ids;
    }
  }

  lemma WithoutOther(l: seq<Emit>, ids: seq<nat>, symbol: int)
    requires LateRows(l, ids, symbol) && l != [] && l[|l| - 1].row.symbol != symbol
    ensures LateRows(l[..|l| - 1], ids, symbol)
    ensures AllRows(l, ids, symbol) ==> AllRows(l[..|l| - 1], ids, symbol)
  {
    var n := |l| - 1;
    assert forall k :: 0 <= k < |ids| ==> ids[k] != n;
  }

  lemma {:induction false} NoRowsOf(l: seq<Emit>, symbol: int)
    requires AllRows(l, [], symbol)
    ensures BySymbol(l, symbol) == []
  {
    if l != [] {
      assert |l| - 1 !in [];
      NoRowsOf(l[..|l| - 1], symbol);
    }
  }

  // ----- Which logs have rising times -----

  /** A row is not older than the row of its symbol before it. */
  ghost predicate NotEarlier(l: seq<Emit>, j: nat)
    requires j < |l|
  {
    var before := BySymbol(l[..j], l[j].row.symbol);
    before != [] ==> before[|before| - 1].row.time <= l[j].row.time
  }

  lemma BySymbolPrefix(l: seq<Emit>, j: nat, symbol: int)
    requires j <= |l|
    ensures BySymbol(l[..j], symbol) <= BySymbol(l, symbol)
  {
    hide BySymbol;
    assert l == l[..j] + l[j..];
    BySymbolConcat(l[..j], l[j..], symbol);
  }

  lemma OnlyConnectSnapshotsGoBack(l: seq<Emit>, j: nat)
    requires j < |l| && Consistent(BySymbol(l, l[j].row.symbol)) && !ConnectSnapshot(l[j])
    ensures NotEarlier(l, j)
  {
    hide BySymbol, Consistent, DeltaBook;
    var s := l[j].row.symbol;
    var all, before := BySymbol(l, s), BySymbol(l[..j], s);
    assert l[..j + 1] == l[..j] + [l[j]];
    BySymbolStep(l[..j], l[j], s);
    BySymbolPrefix(l, j + 1, s);
    var n := |before|;
    assert all[n] == l[j] && all[..n] == before;
    if l[j].periodic {
      PeriodicLink(all, n);
    } else {
      DeltaLink(all, n);
    }
  }

  lemma {:induction false} LastIsLatest(l: seq<Emit>, symbol: int, i: nat, j: nat)
    requires i < j <= |l| && l[i].row.symbol == symbol
    requires forall k :: i < k < j && l[k].row.symbol == symbol ==> NotEarlier(l, k)
    ensures var before := BySymbol(l[..j], symbol);
            before != [] && l[i].row.time <= before[|before| - 1].row.time
    decreases j
  {
    hide BySymbol;
    assert l[..j] == l[..j - 1] + [l[j - 1]];
    BySymbolStep(l[..j - 1], l[j - 1], symbol);
    if i < j - 1 {
      LastIsLatest(l, symbol, i, j - 1);
      assert l[j - 1].row.symbol == symbol ==> NotEarlier(l, j - 1);
      assert BySymbol(l[..j - 1], symbol) + [] == BySymbol(l[..j - 1], symbol);
    }
  }

  lemma NotEarlierTimesRise(l: seq<Emit>, symbol: int, lo: nat, hi: nat)
    requires hi <= |l|
    requires forall k :: lo < k < hi && l[k].row.symbol == symbol ==> NotEarlier(l, k)
    ensures TimesRise(l, symbol, lo, hi)
  {
    hide BySymbol;
    forall i, j | lo <= i < j < hi && l[i].row.symbol == symbol && l[j].row.symbol == symbol
      ensures l[i].row.time <= l[j].row.time
    {
      LastIsLatest(l, symbol, i, j);
      assert NotEarlier(l, j);
    }
  }

  // ----- Main results -----

  /** No connect snapshot of the symbol lies between `lo` and `hi`. */
  ghost predicate OneConnection(l: seq<Emit>, symbol: int, lo: nat, hi: nat)
    requires hi <= |l|
  {
    forall k :: lo < k < hi && l[k].row.symbol == symbol ==> !ConnectSnapshot(l[k])
  }

  /** From each connect snapshot to the next one, the export shows a symbol's rows in the order in
      which they were emitted. */
  lemma SegmentsKeepEmissionOrder(l: seq<Emit>, cutoff: Option<int>, order: seq<nat>, symbol: int, lo: nat, hi: nat)
    requires ExportOrder(l, cutoff, order) && Consistent(BySymbol(l, symbol)) && hi <= |l|
    requires OneConnection(l, symbol, lo, hi)
    ensures Ascends(Part(l, order, symbol, lo, hi))
  {
    forall k | lo < k < hi && l[k].row.symbol == symbol ensures NotEarlier(l, k) {
      OnlyConnectSnapshotsGoBack(l, k);
    }
    NotEarlierTimesRise(l, symbol, lo, hi);
    RisingTimesKeepIdOrder(l, cutoff, order, symbol, lo, hi);
  }

  /** No connect snapshot of the symbol is older than the row of the symbol before it. */
  ghost predicate ConnectTimesNeverRegress(l: seq<Emit>, symbol: int) {
    forall j :: 0 <= j < |l| && l[j].row.symbol == symbol && ConnectSnapshot(l[j]) ==> NotEarlier(l, j)
  }

  lemma NoRegressTimesRise(l: seq<Emit>, symbol: int)
    requires Consistent(BySymbol(l, symbol)) && ConnectTimesNeverRegress(l, symbol)
    ensures TimesRise(l, symbol, 0, |l|)
  {
    hide NotEarlier;
    forall k | 0 < k < |l| && l[k].row.symbol == symbol ensures NotEarlier(l, k) {
      if !ConnectSnapshot(l[k]) {
        OnlyConnectSnapshotsGoBack(l, k);
      }
    }
    NotEarlierTimesRise(l, symbol, 0, |l|);
  }

  /** Then an export, cut or not, shows a suffix of the symbol's rows in emission order. */
  lemma ExportShowsSuffix(l: seq<Emit>, cutoff: Option<int>, order: seq<nat>, symbol: int) returns (k: nat)
    requires ExportOrder(l, cutoff, order) && Consistent(BySymbol(l, symbol)) && ConnectTimesNeverRegress(l, symbol)
    ensures k <= |BySymbol(l, symbol)| && Fetch(l, Part(l, order, symbol, 0, |l|)) == BySymbol(l, symbol)[k..]
    ensures cutoff == None ==> k == 0
  {
    hide BySymbol, ConnectTimesNeverRegress, Consistent, Earlier;
    var part := Part(l, order, symbol, 0, |l|);
    NoRegressTimesRise(l, symbol);
    RisingTimesKeepIdOrder(l, cutoff, order, symbol, 0, |l|);
    forall i, j | 0 <= i < |part| && part[i] < j < |l| && l[j].row.symbol == symbol ensures j in part {
      assert InCut(l[part[i]], cutoff) by {
        var a :| 0 <= a < |order| && order[a] == part[i];
      }
      assert j in order;
    }
    if cutoff == None {
      assert AllRows(l, part, symbol);
    }
    k := FetchedSuffix(l, part, symbol);
  }

  /** The whole export shows a symbol's rows in emission order exactly when no connect snapshot is
      older than the row of its symbol before it. */
  lemma ExportIsEmissionOrderIff(l: seq<Emit>, order: seq<nat>, symbol: int)
    requires ExportOrder(l, None, order) && Consistent(BySymbol(l, symbol))
    ensures Fetch(l, Part(l, order, symbol, 0, |l|)) == BySymbol(l, symbol) <==> ConnectTimesNeverRegress(l, symbol)
  {
    hide BySymbol, NotEarlier, Consistent;
    var part := Part(l, order, symbol, 0, |l|);
    if ConnectTimesNeverRegress(l, symbol) {
      var k := ExportShowsSuffix(l, None, order, symbol);
    }
    if Fetch(l, part) == BySymbol(l, symbol) {
      FetchedRowsRise(l, part, BySymbol(l, symbol)) by {
        PartStaysSorted(l, order, symbol, 0, |l|);
      }
      forall j | 0 <= j < |l| && l[j].row.symbol == symbol ensures NotEarlier(l, j) {
        SortedRowsAreNotEarlier(l, symbol, j);
      }
    }
  }

  lemma FetchedRowsRise(l: seq<Emit>, ids: seq<nat>, s: seq<Emit>)
    requires Within(ids, |l|) && Sorted(l, ids) && Fetch(l, ids) == s
    ensures forall a, b :: 0 <= a < b < |s| ==> s[a].row.time <= s[b].row.time
  {
    forall a, b | 0 <= a < b < |s| ensures s[a].row.time <= s[b].row.time {
      assert Earlier(l, ids[a], ids[b]);
    }
  }

  lemma SortedRowsAreNotEarlier(l: seq<Emit>, symbol: int, j: nat)
    requires j < |l| && l[j].row.symbol == symbol
    requires var s := BySymbol(l, symbol); forall a, b :: 0 <= a < b < |s| ==> s[a].row.time <= s[b].row.time
    ensures NotEarlier(l, j)
  {
    hide BySymbol;
    var before := BySymbol(l[..j], symbol);
    assert l[..j + 1] == l[..j] + [l[j]];
    BySymbolStep(l[..j], l[j], symbol);
    BySymbolPrefix(l, j + 1, symbol);
    assert BySymbol(l, symbol)[|before|] == l[j];
    assert before != [] ==> BySymbol(l, symbol)[|before| - 1] == before[|before| - 1];
  }

  /** With that condition replay from any snapshot of the export, cut or not, gives the book that
      was held in memory. */
  lemma CutExportReplays(l: seq<Emit>, cutoff: Option<int>, order: seq<nat>, symbol: int)
    requires ExportOrder(l, cutoff, order) && Consistent(BySymbol(l, symbol)) && ConnectTimesNeverRegress(l, symbol)
    ensures var shown := Fetch(l, Part(l, order, symbol, 0, |l|));
            forall i, j :: 0 <= i <= j < |shown| && shown[i].row.kind == Snapshot ==>
              Replay(Rows(shown[i..j + 1])) == Some(shown[j].state.book)
  {
    hide BySymbol, ConnectTimesNeverRegress, Consistent, Replay, Part;
    var k := ExportShowsSuffix(l, cutoff, order, symbol);
    SuffixReplays(BySymbol(l, symbol), k);
  }

  lemma SuffixReplays(all: seq<Emit>, k: nat)
    requires Consistent(all) && k <= |all|
    ensures var shown := all[k..];
            forall i, j :: 0 <= i <= j < |shown| && shown[i].row.kind == Snapshot ==>
              Replay(Rows(shown[i..j + 1])) == Some(shown[j].state.book)
  {
    hide Consistent, Replay;
    var shown := all[k..];
    forall i, j | 0 <= i <= j < |shown| && shown[i].row.kind == Snapshot
      ensures Replay(Rows(shown[i..j + 1])) == Some(shown[j].state.book)
    {
      SliceReplays(all, k + i, k + j);
      assert all[k + i..k + j + 1] == shown[i..j + 1];
    }
  }

  ghost predicate IsSuffix(part: seq<Emit>, all: seq<Emit>) {
    |part| <= |all| && part == all[|all| - |part|..]
  }

  /** All this holds of the durable table, after any processes, reconnects and crashes. */
  lemma DurableExport(processes: seq<Process>, cutoff: Option<int>, order: seq<nat>, symbol: int)
    requires forall i :: 0 <= i < |processes| ==> Injective(processes[i].cache)
    requires ExportOrder(Durable(processes), cutoff, order)
    ensures var l := Durable(processes);
            var shown := Fetch(l, Part(l, order, symbol, 0, |l|));
            && (cutoff == None ==> (shown == BySymbol(l, symbol) <==> ConnectTimesNeverRegress(l, symbol)))
            && (ConnectTimesNeverRegress(l, symbol) ==>
                  && IsSuffix(shown, BySymbol(l, symbol))
                  && forall i, j :: 0 <= i <= j < |shown| && shown[i].row.kind == Snapshot ==>
                       Replay(Rows(shown[i..j + 1])) == Some(shown[j].state.book))
    ensures var l := Durable(processes);
            forall lo, hi :: 0 <= lo < hi <= |l| && OneConnection(l, symbol, lo, hi) ==>
              Ascends(Part(l, order, symbol, lo, hi))
  {
    hide Durable, BySymbol, ConnectTimesNeverRegress, Replay, Part, Ascends, Sorted, Consistent;
    var l := Durable(processes);
    DurableIsConsistent(processes, symbol);
    if cutoff == None {
      ExportIsEmissionOrderIff(l, order, symbol);
    }
    if ConnectTimesNeverRegress(l, symbol) {
      var k := ExportShowsSuffix(l, cutoff, order, symbol);
      CutExportReplays(l, cutoff, order, symbol);
    }
    forall lo, hi | 0 <= lo < hi <= |l| && OneConnection(l, symbol, lo, hi)
      ensures Ascends(Part(l, order, symbol, lo, hi))
    {
      SegmentsKeepEmissionOrder(l, cutoff, order, symbol, lo, hi);
    }
  }

  /** The condition can fail: the code does not compare the times of connect snapshots, so after a
      reconnect an older snapshot sorts before the rows of the connection it replaces. */
  lemma ReconnectCanReorder(cache: Cache, channel: string, m: Market)
    requires ChannelMarket(channel) == Some(m) && m in cache
    ensures var l := Run(cache, [ConnectAt(channel, 100, 10), Ended] + [ConnectAt(channel, 50, 20)]).log;
            |l| == 2 && !ConnectTimesNeverRegress(l, cache[m])
  {
    hide ChannelMarket, Run, ConnectAt;
    var first := ConnectAt(channel, 100, 10);
    ConnectEmits(cache, [], channel, 100, 10, m);
    EndEmitsNothing(cache, [first]);
    ConnectEmits(cache, [first, Ended], channel, 50, 20, m);
    assert [] + [first] == [first] && [first] + [Ended] == [first, Ended];
    assert Run(cache, []).log == [] by { RunNothingEmits(cache); }
    var l := Run(cache, [first, Ended] + [ConnectAt(channel, 50, 20)]).log;
    OlderSecondRow(l);
  }

  lemma RunNothingEmits(cache: Cache)
    ensures Run(cache, []).log == []
  {
  }

  lemma EndEmitsNothing(cache: Cache, events: seq<Event>)
    ensures Run(cache, events + [Ended]).log == Run(cache, events).log
  {
    hide Run;
    RunStep(cache, events, Ended);
  }

  lemma OlderSecondRow(l: seq<Emit>)
    requires |l| == 2 && l[1].row.symbol == l[0].row.symbol && l[1].row.time < l[0].row.time && ConnectSnapshot(l[1])
    ensures !ConnectTimesNeverRegress(l, l[0].row.symbol)
  {
    assert l[..1] == [] + [l[0]];
    BySymbolStep([], l[0], l[0].row.symbol);
    assert BySymbol([], l[0].row.symbol) == [];
    assert !NotEarlier(l, 1);
  }

  function ConnectAt(channel: string, at: int, nonce: int): Event {
    Frame(Subscribed(channel, at, SideLevels(0, nonce, 0, [], [])))
  }

  lemma ConnectEmits(cache: Cache, events: seq<Event>, channel: string, at: int, nonce: int, m: Market)
    requires ChannelMarket(channel) == Some(m) && m in cache && ValidMicros(at)
    ensures var s := Run(cache, events);
            var e := Emit(Row(at, cache[m], Snapshot, nonce, [], [], None), m,
                          MarketState(nonce, at, BookView(map[], map[])), false, s.connection);
            Run(cache, events + [ConnectAt(channel, at, nonce)]).log == s.log + [e]
  {
    hide ChannelMarket, Run;
    RunStep(cache, events, ConnectAt(channel, at, nonce));
  }
}
