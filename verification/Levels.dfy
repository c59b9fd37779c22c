/** One side of a book as a finite map from price value to level, and what snapshots and deltas
    mean on it. The classes of module `Book` refine this map. */
module Levels {
  import opened Options
  import opened Decimals

  /** A level keeps the strings that Lighter sent. */
  datatype PriceLevel = PriceLevel(price: string, size: string)

  /** A price by value: the key of a side. */
  datatype Price = Price(value: real)

  type Depth = map<Price, PriceLevel>

  function ParseLevel(l: PriceLevel): Option<(Decimal, Decimal)> {
    match (ParseDecimal(l.price), ParseDecimal(l.size))
    case (Some(price), Some(size)) => Some((price, size))
    case _ => None
  }

  ghost predicate Parses(l: PriceLevel) {
    ParseLevel(l).Some?
  }

  ghost function PriceOf(l: PriceLevel): Price
    requires Parses(l)
  {
    Price(Value(ParseLevel(l).value.0))
  }

  ghost predicate Removes(l: PriceLevel)
    requires Parses(l)
  {
    IsZero(ParseLevel(l).value.1)
  }

  ghost function SizeOf(l: PriceLevel): real
    requires Parses(l)
  {
    Value(ParseLevel(l).value.1)
  }

  /** Every level sits at its own price and has a size other than zero. */
  ghost predicate WellFormed(m: Depth) {
    forall v :: v in m ==> Parses(m[v]) && PriceOf(m[v]) == v && !Removes(m[v])
  }

  /** What a level's texts say: both must be decimals; the price text gives the key, the size text
      decides whether the level removes. */
  lemma LevelIsRead(l: PriceLevel)
    ensures Parses(l) <==> ParseDecimal(l.price).Some? && ParseDecimal(l.size).Some?
    ensures Parses(l) ==>
              && PriceOf(l).value == Value(ParseDecimal(l.price).value)
              && SizeOf(l) == Value(ParseDecimal(l.size).value)
              && (Removes(l) <==> SizeOf(l) == 0.0)
  {
    hide ParseDecimal, Value;
    if Parses(l) {
      ZeroIsValueZero(ParseLevel(l).value.1);
    }
  }

  /** A level whose price and size are written with a point, leading zeros after it included: its
      key and its size are the numbers written, and it removes exactly if its size is all zeros. */
  lemma WrittenLevel(sign: string, q: nat, r: nat, k: nat, sizeSign: string, u: nat, v: nat, n: nat)
    requires Sign(sign) && r < Pow10(k) && k <= MAX_SCALE
    requires Sign(sizeSign) && v < Pow10(n) && n <= MAX_SCALE
    ensures var l := PriceLevel(PointText(sign, 0, q, r, k), PointText(sizeSign, 0, u, v, n));
            var price := q as real + r as real * TenTo(0 - k);
            && Parses(l) && PriceOf(l) == Price(if sign == "-" then -price else price)
            && (Removes(l) <==> u == 0 && v == 0)
  {
    hide ParseDecimal, PointText, Value, TenTo, Pow10;
    PointTextParses(sign, 0, q, r, k);
    PointTextParses(sizeSign, 0, u, v, n);
    NothingWritten(u, Pow10(n), v);
  }

  lemma NothingWritten(u: nat, p: nat, v: nat)
    requires p > 0
    ensures u * p + v == 0 <==> u == 0 && v == 0
  {
  }

  // ----- Snapshots and deltas -----

  /** A side after a delta, and whether every level of the delta could be read. On a failure the
      side holds the levels before the unreadable one: the update is not atomic. */
  datatype SideResult = SideResult(depth: Depth, ok: bool)

  ghost function ApplyLevel(m: Depth, l: PriceLevel): Depth
    requires Parses(l)
  {
    if Removes(l) then m - {PriceOf(l)} else m[PriceOf(l) := l]
  }

  ghost function ApplySide(m: Depth, levels: seq<PriceLevel>): SideResult
    decreases |levels|
  {
    if levels == [] then SideResult(m, true)
    else if !Parses(levels[0]) then SideResult(m, false)
    else ApplySide(ApplyLevel(m, levels[0]), levels[1..])
  }

  /** Inserts all levels into `m`; an unreadable level or a zero size fails. */
  ghost function InsertAll(m: Depth, levels: seq<PriceLevel>): Option<Depth>
    decreases |levels|
  {
    if levels == [] then Some(m)
    else if !Parses(levels[0]) || Removes(levels[0]) then None
    else InsertAll(m[PriceOf(levels[0]) := levels[0]], levels[1..])
  }

  ghost function SnapshotSide(levels: seq<PriceLevel>): Option<Depth> {
    InsertAll(map[], levels)
  }

  lemma {:induction false} ApplySideKeepsWellFormed(m: Depth, levels: seq<PriceLevel>)
    requires WellFormed(m)
    ensures WellFormed(ApplySide(m, levels).depth)
    decreases |levels|
  {
    hide Parses, PriceOf, Removes;
    if levels != [] && Parses(levels[0]) {
      ApplySideKeepsWellFormed(ApplyLevel(m, levels[0]), levels[1..]);
    }
  }

  lemma {:induction false} InsertAllKeepsWellFormed(m: Depth, levels: seq<PriceLevel>)
    requires WellFormed(m) && InsertAll(m, levels).Some?
    ensures WellFormed(InsertAll(m, levels).value)
    decreases |levels|
  {
    hide Parses, PriceOf, Removes;
    if levels != [] {
      InsertAllKeepsWellFormed(m[PriceOf(levels[0]) := levels[0]], levels[1..]);
    }
  }

  // ----- A delta is a last-write-wins update -----

  ghost predicate AllParse(levels: seq<PriceLevel>) {
    forall i :: 0 <= i < |levels| ==> Parses(levels[i])
  }

  /** The number of levels before the first unreadable one. */
  ghost function ReadablePrefix(levels: seq<PriceLevel>): (n: nat)
    ensures n <= |levels|
  {
    if levels == [] || !Parses(levels[0]) then 0 else 1 + ReadablePrefix(levels[1..])
  }

  lemma {:induction false} ReadablePrefixIs(levels: seq<PriceLevel>)
    ensures var n := ReadablePrefix(levels);
            (forall i :: 0 <= i < n ==> Parses(levels[i])) && (n < |levels| ==> !Parses(levels[n]))
  {
    hide Parses;
    if levels != [] && Parses(levels[0]) {
      ReadablePrefixIs(levels[1..]);
      assert forall i :: 0 < i < |levels| ==> levels[i] == levels[1..][i - 1];
    }
  }

  /** The position of the last level at price `v`, or -1. */
  ghost function LastMention(levels: seq<PriceLevel>, v: Price): (i: int)
    ensures -1 <= i < |levels|
    ensures i >= 0 ==> Parses(levels[i]) && PriceOf(levels[i]) == v
    ensures forall j :: i < j < |levels| ==> !(Parses(levels[j]) && PriceOf(levels[j]) == v)
  {
    if levels == [] then -1
    else
      var tail := levels[1..];
      assert forall j :: 0 < j < |levels| ==> levels[j] == tail[j - 1];
      var i := LastMention(tail, v);
      if i >= 0 then i + 1 else if Parses(levels[0]) && PriceOf(levels[0]) == v then 0 else -1
  }

  ghost function DepthAt(m: Depth, v: Price): Option<PriceLevel> {
    if v in m then Some(m[v]) else None
  }

  /** What a readable delta leaves at price `v`: its last mention, nothing if that is a zero size,
      and the earlier content if the delta does not mention the price. */
  ghost function AfterDelta(before: Option<PriceLevel>, levels: seq<PriceLevel>, v: Price): Option<PriceLevel> {
    var i := LastMention(levels, v);
    if i < 0 then before else if Removes(levels[i]) then None else Some(levels[i])
  }

  /** The level-by-level update equals the declarative one, for every price, on good deltas and,
      up to the first unreadable level, on bad ones. */
  lemma ApplySideIsLastWriteWins(m: Depth, levels: seq<PriceLevel>)
    ensures ApplySide(m, levels).ok <==> AllParse(levels)
    ensures forall v :: DepthAt(ApplySide(m, levels).depth, v)
                     == AfterDelta(DepthAt(m, v), levels[..ReadablePrefix(levels)], v)
  {
    hide Parses, PriceOf, Removes;
    ApplySideOk(m, levels);
    forall v {
      ApplySideAt(m, levels, v);
    }
  }

  lemma {:induction false} ApplySideOk(m: Depth, levels: seq<PriceLevel>)
    ensures ApplySide(m, levels).ok <==> AllParse(levels)
    decreases |levels|
  {
    hide Parses, PriceOf, Removes;
    if levels != [] && Parses(levels[0]) {
      ApplySideOk(ApplyLevel(m, levels[0]), levels[1..]);
      assert AllParse(levels[1..]) ==> AllParse(levels) by {
        assert forall i :: 0 < i < |levels| ==> levels[i] == levels[1..][i - 1];
      }
    }
  }

  lemma {:induction false} ApplySideAt(m: Depth, levels: seq<PriceLevel>, v: Price)
    ensures DepthAt(ApplySide(m, levels).depth, v)
         == AfterDelta(DepthAt(m, v), levels[..ReadablePrefix(levels)], v)
    decreases |levels|
  {
    hide Parses, PriceOf, Removes;
    if levels != [] && Parses(levels[0]) {
      ApplySideAt(ApplyLevel(m, levels[0]), levels[1..], v);
      var read := levels[..ReadablePrefix(levels)];
      assert read[1..] == levels[1..][..ReadablePrefix(levels[1..])];
    }
  }

  ghost predicate AllSized(levels: seq<PriceLevel>) {
    forall i :: 0 <= i < |levels| ==> Parses(levels[i]) && SizeOf(levels[i]) != 0.0
  }

  /** The last level at price `v`, or `before` if there is none. */
  ghost function LastLevel(before: Option<PriceLevel>, levels: seq<PriceLevel>, v: Price): Option<PriceLevel> {
    var i := LastMention(levels, v);
    if i < 0 then before else Some(levels[i])
  }

  /** A snapshot is taken exactly when every level can be read and has a size other than zero, and
      then its side holds the last mention of each price and nothing else. */
  lemma SnapshotIsLastMention(levels: seq<PriceLevel>)
    ensures SnapshotSide(levels).Some? <==> AllSized(levels)
    ensures SnapshotSide(levels).Some? ==>
              forall v :: DepthAt(SnapshotSide(levels).value, v) == LastLevel(None, levels, v)
  {
    hide Parses, PriceOf, Removes, SizeOf;
    InsertAllIff(map[], levels);
    if SnapshotSide(levels).Some? {
      forall v {
        InsertAllAt(map[], levels, v);
      }
    }
  }

  lemma {:induction false} InsertAllIff(m: Depth, levels: seq<PriceLevel>)
    ensures InsertAll(m, levels).Some? <==> AllSized(levels)
    decreases |levels|
  {
    hide Parses, PriceOf, Removes, SizeOf;
    if levels != [] {
      LevelIsRead(levels[0]);
      if Parses(levels[0]) && !Removes(levels[0]) {
        InsertAllIff(m[PriceOf(levels[0]) := levels[0]], levels[1..]);
        assert forall i :: 0 < i < |levels| ==> levels[i] == levels[1..][i - 1];
        assert forall i :: 0 <= i < |levels[1..]| ==> levels[1..][i] == levels[i + 1];
      }
    }
  }

  lemma {:induction false} InsertAllAt(m: Depth, levels: seq<PriceLevel>, v: Price)
    requires InsertAll(m, levels).Some?
    ensures DepthAt(InsertAll(m, levels).value, v) == LastLevel(DepthAt(m, v), levels, v)
    decreases |levels|
  {
    hide Parses, PriceOf, Removes;
    if levels != [] {
      InsertAllAt(m[PriceOf(levels[0]) := levels[0]], levels[1..], v);
    }
  }

  /** Two sides with the same content at every price are the same side. */
  lemma DepthExtensionality(m: Depth, n: Depth)
    requires forall v :: DepthAt(m, v) == DepthAt(n, v)
    ensures m == n
  {
    assert forall v :: v in m <==> DepthAt(m, v).Some?;
    assert forall v :: v in n <==> DepthAt(n, v).Some?;
    assert forall v :: v in m ==> DepthAt(m, v) == Some(m[v]);
    assert forall v :: v in n ==> DepthAt(n, v) == Some(n[v]);
  }

  // ----- The algebra of deltas -----

  lemma {:induction false} DeltasCompose(m: Depth, a: seq<PriceLevel>, b: seq<PriceLevel>)
    ensures ApplySide(m, a + b)
         == if AllParse(a) then ApplySide(ApplySide(m, a).depth, b) else ApplySide(m, a)
    decreases |a|
  {
    hide Parses, PriceOf, Removes;
    ApplySideOk(m, a);
    if a == [] {
      assert a + b == b;
    } else if Parses(a[0]) {
      assert (a + b)[1..] == a[1..] + b;
      DeltasCompose(ApplyLevel(m, a[0]), a[1..], b);
      ApplySideOk(ApplyLevel(m, a[0]), a[1..]);
    }
  }

  ghost predicate Mentioned(levels: seq<PriceLevel>, v: Price) {
    LastMention(levels, v) >= 0
  }

  lemma ReadableAt(m: Depth, levels: seq<PriceLevel>, v: Price)
    requires AllParse(levels)
    ensures DepthAt(ApplySide(m, levels).depth, v) == AfterDelta(DepthAt(m, v), levels, v)
  {
    hide Parses, PriceOf, Removes;
    ApplySideAt(m, levels, v);
    ReadablePrefixIs(levels);
    assert levels[..ReadablePrefix(levels)] == levels;
  }

  lemma DeltaIsIdempotent(m: Depth, a: seq<PriceLevel>)
    requires AllParse(a)
    ensures ApplySide(ApplySide(m, a).depth, a).depth == ApplySide(m, a).depth
  {
    hide Parses, PriceOf, Removes;
    var once := ApplySide(m, a).depth;
    forall v ensures DepthAt(ApplySide(once, a).depth, v) == DepthAt(once, v) {
      ReadableAt(m, a, v);
      ReadableAt(once, a, v);
    }
    DepthExtensionality(ApplySide(once, a).depth, once);
  }

  lemma DisjointDeltasCommute(m: Depth, a: seq<PriceLevel>, b: seq<PriceLevel>)
    requires AllParse(a) && AllParse(b)
    requires forall v :: !(Mentioned(a, v) && Mentioned(b, v))
    ensures ApplySide(m, a + b) == ApplySide(m, b + a)
  {
    hide Parses, PriceOf, Removes;
    DeltasCompose(m, a, b);
    DeltasCompose(m, b, a);
    var ab, ba := ApplySide(ApplySide(m, a).depth, b), ApplySide(ApplySide(m, b).depth, a);
    forall v ensures DepthAt(ab.depth, v) == DepthAt(ba.depth, v) {
      ReadableAt(m, a, v);
      ReadableAt(m, b, v);
      ReadableAt(ApplySide(m, a).depth, b, v);
      ReadableAt(ApplySide(m, b).depth, a, v);
      assert !(Mentioned(a, v) && Mentioned(b, v));
    }
    DepthExtensionality(ab.depth, ba.depth);
    ApplySideOk(ApplySide(m, a).depth, b);
    ApplySideOk(ApplySide(m, b).depth, a);
  }

  /** A later delta hides an earlier one whose prices it mentions again. */
  lemma LaterDeltaAbsorbs(m: Depth, a: seq<PriceLevel>, b: seq<PriceLevel>)
    requires AllParse(a) && AllParse(b)
    requires forall v :: Mentioned(a, v) ==> Mentioned(b, v)
    ensures ApplySide(m, a + b).depth == ApplySide(m, b).depth
  {
    hide Parses, PriceOf, Removes;
    DeltasCompose(m, a, b);
    var both, last := ApplySide(ApplySide(m, a).depth, b).depth, ApplySide(m, b).depth;
    forall v ensures DepthAt(both, v) == DepthAt(last, v) {
      ReadableAt(m, a, v);
      ReadableAt(m, b, v);
      ReadableAt(ApplySide(m, a).depth, b, v);
      assert Mentioned(a, v) ==> Mentioned(b, v);
    }
    DepthExtensionality(both, last);
  }

  // ----- Listing a side in price order -----

  ghost function Lowest(prices: set<Price>): (v: Price)
    requires prices != {}
    ensures v in prices && forall u :: u in prices ==> v.value <= u.value
  {
    var u :| u in prices;
    if prices == {u} then u
    else
      assert prices == (prices - {u}) + {u};
      var w := Lowest(prices - {u});
      if w.value < u.value then w else u
  }

  ghost predicate StrictlyAscending(s: seq<Price>) {
    forall i, j :: 0 <= i < j < |s| ==> s[i].value < s[j].value
  }

  ghost function SortedPrices(prices: set<Price>): (s: seq<Price>)
    ensures forall v :: v in s <==> v in prices
    ensures StrictlyAscending(s)
  {
    if prices == {} then []
    else
      var v := Lowest(prices);
      assert prices == {v} + (prices - {v});
      var rest := SortedPrices(prices - {v});
      assert forall i :: 0 <= i < |rest| ==> rest[i] in prices && rest[i] != v;
      [v] + rest
  }

  /** A strictly ascending list is determined by its elements. */
  lemma {:induction false} AscendingListsAgree(a: seq<Price>, b: seq<Price>)
    requires StrictlyAscending(a) && StrictlyAscending(b)
    requires forall v :: v in a <==> v in b
    ensures a == b
    decreases |a|
  {
    assert a != [] ==> a[0] in a;
    assert b != [] ==> b[0] in b;
    if a != [] && b != [] {
      HeadsAgree(a, b);
      forall v ensures v in a[1..] <==> v in b[1..] {
        TailElements(a, v);
        TailElements(b, v);
      }
      AscendingListsAgree(a[1..], b[1..]);
      assert a == [a[0]] + a[1..] && b == [b[0]] + b[1..];
    }
  }

  lemma HeadsAgree(a: seq<Price>, b: seq<Price>)
    requires StrictlyAscending(a) && StrictlyAscending(b) && a != [] && b != []
    requires a[0] in b && b[0] in a
    ensures a[0] == b[0]
  {
    var i :| 0 <= i < |b| && b[i] == a[0];
    var j :| 0 <= j < |a| && a[j] == b[0];
    assert a[0].value <= a[j].value && b[0].value <= b[i].value;
  }

  lemma TailElements(a: seq<Price>, v: Price)
    requires StrictlyAscending(a) && a != []
    ensures v in a[1..] <==> v in a && v != a[0]
  {
    if v in a && v != a[0] {
      var i :| 0 <= i < |a| && a[i] == v;
      assert a[1..][i - 1] == v;
    }
    if v in a[1..] {
      var i :| 0 <= i < |a[1..]| && a[1..][i] == v;
      assert a[i + 1] == v && a[0].value < a[i + 1].value;
    }
  }

  /** The levels from the lowest price up. */
  ghost function Ascending(m: Depth): seq<PriceLevel> {
    var prices := SortedPrices(m.Keys);
    seq(|prices|, i requires 0 <= i < |prices| => m[prices[i]])
  }

  function Reversed<T>(s: seq<T>): (r: seq<T>)
    ensures |r| == |s|
    ensures forall i :: 0 <= i < |s| ==> r[i] == s[|s| - 1 - i]
  {
    if s == [] then [] else Reversed(s[1..]) + [s[0]]
  }

  /** The levels from the highest price down. */
  ghost function Descending(m: Depth): seq<PriceLevel> {
    Reversed(Ascending(m))
  }

  /** `levels` holds exactly the levels of `m`, in any order. */
  ghost predicate Lists(levels: seq<PriceLevel>, m: Depth) {
    && (forall i :: 0 <= i < |levels| ==>
          Parses(levels[i]) && PriceOf(levels[i]) in m && m[PriceOf(levels[i])] == levels[i])
    && (forall v :: v in m ==> m[v] in levels)
  }

  lemma ListingsAreComplete(m: Depth)
    requires WellFormed(m)
    ensures Lists(Ascending(m), m) && Lists(Descending(m), m)
  {
    hide Parses, PriceOf, Removes, SortedPrices, Reversed;
    var prices, up, down := SortedPrices(m.Keys), Ascending(m), Descending(m);
    forall v | v in m ensures m[v] in up && m[v] in down {
      assert v in prices;
      var i :| 0 <= i < |prices| && prices[i] == v;
      assert up[i] == m[v] && down[|up| - 1 - i] == m[v];
    }
  }

  /** A listed side is in strict price order: asks upwards, bids downwards. */
  lemma ListingsAreOrdered(m: Depth)
    requires WellFormed(m)
    ensures |Ascending(m)| == |Descending(m)| == |SortedPrices(m.Keys)|
    ensures forall i :: 0 <= i < |Ascending(m)| ==> Parses(Ascending(m)[i]) && Parses(Descending(m)[i])
    ensures forall i, j :: 0 <= i < j < |Ascending(m)| ==>
              && PriceOf(Ascending(m)[i]).value < PriceOf(Ascending(m)[j]).value
              && PriceOf(Descending(m)[i]).value > PriceOf(Descending(m)[j]).value
  {
    hide Parses, PriceOf, Removes, SortedPrices, Reversed;
    var prices, up, down := SortedPrices(m.Keys), Ascending(m), Descending(m);
    var n := |prices|;
    forall i | 0 <= i < n
      ensures Parses(up[i]) && PriceOf(up[i]) == prices[i]
      ensures Parses(down[i]) && PriceOf(down[i]) == prices[n - 1 - i]
    {
      assert prices[i] in prices && prices[n - 1 - i] in prices;
    }
  }

  /** A snapshot that lists a side, in any order, rebuilds that side. */
  lemma ListingRebuilds(m: Depth, levels: seq<PriceLevel>)
    requires WellFormed(m) && Lists(levels, m)
    ensures SnapshotSide(levels) == Some(m)
  {
    hide Parses, PriceOf, Removes;
    InsertListed(m, map[], levels);
    var r := SnapshotSide(levels).value;
    forall v | v in m ensures v in r {
      assert m[v] in levels;
    }
    assert r == m;
  }

  lemma {:induction false} InsertListed(m: Depth, built: Depth, levels: seq<PriceLevel>)
    requires WellFormed(m)
    requires forall v :: v in built ==> v in m && built[v] == m[v]
    requires forall l :: l in levels ==> Parses(l) && PriceOf(l) in m && m[PriceOf(l)] == l
    ensures InsertAll(built, levels).Some?
    ensures var r := InsertAll(built, levels).value;
            && (forall v :: v in r ==> v in m && r[v] == m[v])
            && (forall v :: v in built ==> v in r)
            && (forall l :: l in levels ==> PriceOf(l) in r)
    decreases |levels|
  {
    hide Parses, PriceOf, Removes;
    if levels != [] {
      var l := levels[0];
      assert l in levels;
      InsertListed(m, built[PriceOf(l) := l], levels[1..]);
    }
  }

  // ----- Spelling of decimals -----

  /** The same level written differently: equal price value, and equally zero or not. */
  ghost predicate SameSpot(a: PriceLevel, b: PriceLevel) {
    && (Parses(a) <==> Parses(b))
    && (Parses(a) ==> PriceOf(a) == PriceOf(b) && (Removes(a) <==> Removes(b)))
  }

  ghost predicate Respelled(a: seq<PriceLevel>, b: seq<PriceLevel>) {
    |a| == |b| && forall i :: 0 <= i < |a| ==> SameSpot(a[i], b[i])
  }

  /** Respelling prices or zero sizes changes neither the outcome of a delta nor which prices
      exist, and so not the order of the listing either. */
  lemma {:induction false} RespellingKeepsPrices(m: Depth, n: Depth, a: seq<PriceLevel>, b: seq<PriceLevel>)
    requires m.Keys == n.Keys && Respelled(a, b)
    ensures ApplySide(m, a).ok == ApplySide(n, b).ok
    ensures ApplySide(m, a).depth.Keys == ApplySide(n, b).depth.Keys
    ensures InsertAll(m, a).Some? <==> InsertAll(n, b).Some?
    ensures InsertAll(m, a).Some? ==> InsertAll(m, a).value.Keys == InsertAll(n, b).value.Keys
    decreases |a|
  {
    hide Parses, PriceOf, Removes;
    if a != [] {
      assert SameSpot(a[0], b[0]);
      if Parses(a[0]) {
        assert Respelled(a[1..], b[1..]);
        var v := PriceOf(a[0]);
        assert (m - {v}).Keys == m.Keys - {v} == (n - {v}).Keys;
        RespellingKeepsPrices(ApplyLevel(m, a[0]), ApplyLevel(n, b[0]), a[1..], b[1..]);
        RespellingKeepsPrices(m[v := a[0]], n[v := b[0]], a[1..], b[1..]);
      }
    }
  }
}
