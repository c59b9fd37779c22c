/** The pace of funding requests. Times are milliseconds of a clock that only moves forward. */
module RateLimit {

  const REQUEST_SPACING: int := 1100

  /** Neighbouring instants are at least the request spacing apart. */
  ghost predicate Spaced(sends: seq<int>) {
    forall i :: 0 < i < |sends| ==> sends[i - 1] + REQUEST_SPACING <= sends[i]
  }

  lemma SpacedStep(sends: seq<int>, at: int)
    requires Spaced(sends) && (sends != [] ==> sends[|sends| - 1] + REQUEST_SPACING <= at)
    ensures Spaced(sends + [at])
  {
  }

  /** How many of the instants fall into the closed window from `lo` to `hi`. */
  function CountIn(times: seq<int>, lo: int, hi: int): nat {
    if times == [] then 0 else (if lo <= times[0] <= hi then 1 else 0) + CountIn(times[1..], lo, hi)
  }

  lemma {:induction false} CountSpaced(sends: seq<int>, lo: int, hi: int)
    requires Spaced(sends) && lo <= hi
    ensures CountIn(sends, lo, hi) <= (hi - lo) / REQUEST_SPACING + 1
    ensures sends != [] && lo <= sends[0] ==>
              CountIn(sends, lo, hi) <= if hi < sends[0] then 0 else (hi - sends[0]) / REQUEST_SPACING + 1
  {
    if sends != [] {
      var rest := sends[1..];
      assert forall i :: 0 < i < |rest| ==> rest[i - 1] == sends[i] && rest[i] == sends[i + 1];
      CountSpaced(rest, lo, hi);
      assert rest != [] ==> sends[0] + REQUEST_SPACING <= rest[0] by {
        assert rest != [] ==> rest[0] == sends[1];
      }
    }
  }

  /** Every 60-second window holds at most 55 of the spaced requests, 56 with the one symbol request
      at startup, which is below the limit of 60. */
  lemma RequestRateIsBounded(sends: seq<int>, sync: int, lo: int)
    requires Spaced(sends)
    ensures CountIn(sends, lo, lo + 60_000) <= 55
    ensures CountIn([sync] + sends, lo, lo + 60_000) <= 56
  {
    CountSpaced(sends, lo, lo + 60_000);
    assert ([sync] + sends)[1..] == sends;
  }

  lemma {:induction false} AllCount(times: seq<int>, lo: int, hi: int)
    requires forall i :: 0 <= i < |times| ==> lo <= times[i] <= hi
    ensures CountIn(times, lo, hi) == |times|
  {
    if times != [] {
      AllCount(times[1..], lo, hi);
    }
  }

  /** The bound is met: 55 spaced requests fit into one window. */
  lemma WindowCanHoldAll(lo: int)
    ensures var sends := seq(55, i => lo + 1100 * i);
            Spaced(sends) && CountIn(sends, lo, lo + 60_000) == 55
  {
    AllCount(seq(55, i => lo + 1100 * i), lo, lo + 60_000);
  }
}
