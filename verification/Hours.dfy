/** The hourly funding grid. Instants are nanoseconds since 1970 and may be negative. */
module Hours {
  import opened Options

  const SECOND: int := 1_000_000_000
  const HOUR: int := 3600 * SECOND

  /** Whole seconds, rounded down. */
  function Seconds(t: int): int {
    t / SECOND
  }

  function FloorHour(t: int): int {
    var secs := Seconds(t);
    (secs - secs % 3600) * SECOND
  }

  function CeilHour(t: int): int {
    var floor := FloorHour(t);
    if floor == t then floor else floor + HOUR
  }

  /** Where the next request begins; the window includes this instant. */
  function NextRequestStart(newest: Option<int>, backfill: int): int {
    match newest
    case Some(t) => CeilHour(t + SECOND)
    case None => CeilHour(backfill)
  }

  predicate HourClosed(start: int, now: int) {
    start <= FloorHour(now)
  }

  ghost predicate OnGrid(t: int) {
    t % HOUR == 0
  }

  lemma FloorHourIs(t: int)
    ensures FloorHour(t) == t - t % HOUR
  {
    var secs, ns := t / SECOND, t % SECOND;
    var h, r := secs / 3600, secs % 3600;
    assert t == h * HOUR + (r * SECOND + ns);
    assert 0 <= r * SECOND + ns < HOUR;
    RemainderIs(t, h, r * SECOND + ns);
  }

  lemma RemainderIs(t: int, h: int, rest: int)
    requires t == h * HOUR + rest && 0 <= rest < HOUR
    ensures t % HOUR == rest
  {
  }

  lemma GridGap(a: int, b: int)
    requires OnGrid(a) && OnGrid(b) && a < b
    ensures a + HOUR <= b
  {
  }

  /** `FloorHour` is the greatest grid hour at or below `t`. */
  lemma FloorHourIsGreatest(t: int, g: int)
    ensures OnGrid(FloorHour(t)) && FloorHour(t) <= t
    ensures OnGrid(g) && g <= t ==> g <= FloorHour(t)
  {
    FloorHourIs(t);
    if OnGrid(g) && FloorHour(t) < g {
      GridGap(FloorHour(t), g);
    }
  }

  /** `CeilHour` is the least grid hour at or above `t`. */
  lemma CeilHourIsLeast(t: int, g: int)
    ensures OnGrid(CeilHour(t)) && t <= CeilHour(t)
    ensures OnGrid(g) && t <= g ==> CeilHour(t) <= g
  {
    FloorHourIs(t);
    if OnGrid(g) && t <= g && FloorHour(t) < t {
      GridGap(FloorHour(t), g);
    }
  }

  /** After a stored settlement the next request starts at the first grid hour after it, unless the
      settlement lies within the last second before an hour. */
  lemma NextStartIff(t: int, backfill: int)
    ensures OnGrid(NextRequestStart(Some(t), backfill)) && t < NextRequestStart(Some(t), backfill)
    ensures (forall g :: OnGrid(g) && t < g ==> NextRequestStart(Some(t), backfill) <= g)
            <==> t % HOUR <= HOUR - SECOND
  {
    hide FloorHour, CeilHour;
    CeilHourIsLeast(t + SECOND, 0);
    if t % HOUR <= HOUR - SECOND {
      forall g | OnGrid(g) && t < g ensures CeilHour(t + SECOND) <= g {
        SecondBelowGrid(t, g);
        CeilHourIsLeast(t + SECOND, g);
      }
    } else {
      var first := t - t % HOUR + HOUR;
      assert OnGrid(first) by { RemainderIs(first, t / HOUR + 1, 0); }
      assert t < first < t + SECOND;
    }
  }

  lemma SecondBelowGrid(t: int, g: int)
    requires OnGrid(g) && t < g && t % HOUR <= HOUR - SECOND
    ensures t + SECOND <= g
  {
    var floor := t - t % HOUR;
    assert OnGrid(floor) by { RemainderIs(floor, t / HOUR, 0); }
    GridGap(floor, g);
  }

  /** Settlements carry whole seconds, so their next start is always the first hour after them. */
  lemma NextStartAfterSettlement(t: int, backfill: int)
    requires t % SECOND == 0
    ensures forall g :: OnGrid(g) && t < g ==> NextRequestStart(Some(t), backfill) <= g
  {
    NextStartIff(t, backfill);
    var r := t % HOUR;
    assert r % SECOND == 0 by { WholeSecondRemainder(t); }
  }

  lemma WholeSecondRemainder(t: int)
    requires t % SECOND == 0
    ensures t % HOUR % SECOND == 0
  {
    var s, h := t / SECOND, t / HOUR;
    assert t == s * SECOND && t % HOUR == t - h * HOUR == (s - h * 3600) * SECOND;
  }

  lemma NextStartOnGrid(t: int, backfill: int)
    requires OnGrid(t)
    ensures NextRequestStart(Some(t), backfill) == t + HOUR
  {
    NextStartIff(t, backfill);
    assert OnGrid(t + HOUR);
    GridGap(t, NextRequestStart(Some(t), backfill));
  }

  /** The API takes a window, in seconds, only if it is not empty when rounded inwards to hours. */
  predicate Accepted(from: int, to: int) {
    CeilHour(from * SECOND) <= FloorHour(to * SECOND)
  }

  /** Rounding both ends inwards leaves a window exactly if some whole hour lies in it. */
  lemma AcceptedIff(from: int, to: int)
    ensures Accepted(from, to) <==> exists g :: OnGrid(g) && from * SECOND <= g <= to * SECOND
  {
    hide FloorHour, CeilHour, OnGrid;
    var g := CeilHour(from * SECOND);
    CeilHourIsLeast(from * SECOND, g);
    FloorHourIsGreatest(to * SECOND, g);
    if h :| OnGrid(h) && from * SECOND <= h <= to * SECOND {
      CeilHourIsLeast(from * SECOND, h);
      FloorHourIsGreatest(to * SECOND, h);
    }
  }

  /** With a clock that does not run backwards, no request is sent that the API rejects. */
  lemma RequestsAreAccepted(start: int, now: int, end: int)
    requires OnGrid(start) && HourClosed(start, now) && now <= end
    ensures Accepted(Seconds(start), Seconds(end))
  {
    FloorHourIsGreatest(now, start);
    assert start <= end;
    assert start == Seconds(start) * SECOND by { GridIsWholeSeconds(start); }
    CeilHourIsLeast(start, start);
    FloorHourIsGreatest(Seconds(end) * SECOND, start);
  }

  lemma GridIsWholeSeconds(t: int)
    requires OnGrid(t)
    ensures Seconds(t) * SECOND == t && t % SECOND == 0
  {
    var h := t / HOUR;
    assert t == h * HOUR == (h * 3600) * SECOND;
  }
}
